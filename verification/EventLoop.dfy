/**
  * The epoll thread (src/smart_epoller.cpp:60-85, src/epoll_item.cpp:5-22) over any number of parked
  * operations: workers arm items at any moment, `epoll_wait` reports any armed descriptors, and
  * each reported item runs its callback on whatever the system call answers.
  */
module EventLoop {
  import opened Operations
  import opened Epoll

  /** One parked operation: its item, what it was when it parked, and its callbacks' answers so far. */
  datatype Entry = Entry(item: Item, begun: Op, op: Op, answers: seq<Answer>)

  /**
    * `ready` is the part of `ready_list_` not handled yet; `pushed` logs the entries whose coroutine
    * was resumed, in order.
    */
  datatype Loop = Loop(entries: seq<Entry>, table: map<Fd, Watch<nat>>,
                       ready: seq<(nat, set<Flag>)>, pushed: seq<nat>)

  datatype Step =
    | Arm(fd: Fd, op: Op)                              // a worker runs enable_epoll_reading or _writing
    | Wait(reports: seq<(Fd, set<Flag>)>)              // epoll_wait returns a positive count
    | Handle(answer: Answer)                           // handle_events of the next ready item

  function Idle(): Loop {
    Loop([], map[], [], [])
  }

  /** The event an operation waits for. */
  function Wanted(op: Op): Flag {
    if op.Writing? || op.Connecting? then Out else In
  }

  /** `handle_events`: only the callback of the operation's own direction is set. */
  predicate CallsBack(op: Op, revents: set<Flag>) {
    Calls(revents, {if Wanted(op) == Out then OnWrite else OnRead}) != []
  }

  predicate DistinctFds(reports: seq<(Fd, set<Flag>)>) {
    forall i, j :: 0 <= i < j < |reports| ==> reports[i].0 != reports[j].0
  }

  predicate Enabled(s: Loop, step: Step) {
    match step
    case Arm(_, op) => WellFormed(op)
    case Wait(reports) =>
      && s.ready == [] && reports != [] && DistinctFds(reports)
      && forall i :: 0 <= i < |reports| ==> reports[i].0 in s.table
    case Handle(a) =>
      && s.ready != [] && s.ready[0].0 < |s.entries|
      && var e := s.entries[s.ready[0].0];
         CallsBack(e.begun, s.ready[0].1) ==> WellFormed(e.op) && Possible(e.op, a)
  }

  function ArmStep(s: Loop, fd: Fd, op: Op): Loop {
    var enable := if Wanted(op) == Out then EnableWriting else EnableReading;
    var (item, table, _) := OnCall(Item(fd, {}, false), s.table, |s.entries|, enable);
    s.(entries := s.entries + [Entry(item, op, op, [])], table := table)
  }

  function WaitStep(s: Loop, reports: seq<(Fd, set<Flag>)>): Loop
    requires Enabled(s, Wait(reports))
  {
    s.(ready := seq(|reports|, i requires 0 <= i < |reports| => (s.table[reports[i].0].item, reports[i].1)))
  }

  /** The callback, and `resume_read_coro` or `resume_write_coro` when it completes: disable, then push. */
  function CallbackStep(s: Loop, i: nat, a: Answer): Loop
    requires i < |s.entries| && WellFormed(s.entries[i].op) && Possible(s.entries[i].op, a)
  {
    var e := s.entries[i];
    var (op, resume) := OnAnswer(e.op, a);
    var e1 := e.(op := op, answers := e.answers + [a]);
    if resume then
      var disable := if Wanted(e.begun) == Out then DisableWriting else DisableReading;
      var (item, table, _) := OnCall(e.item, s.table, i, disable);
      s.(entries := s.entries[i := e1.(item := item)], table := table, pushed := s.pushed + [i])
    else
      s.(entries := s.entries[i := e1])
  }

  function HandleStep(s: Loop, a: Answer): Loop
    requires Enabled(s, Handle(a))
  {
    var (i, revents) := s.ready[0];
    var s1 := if CallsBack(s.entries[i].begun, revents) then CallbackStep(s, i, a) else s;
    s1.(ready := s.ready[1..])
  }

  function Apply(s: Loop, step: Step): Loop
    requires Enabled(s, step)
  {
    match step
    case Arm(fd, op) => ArmStep(s, fd, op)
    case Wait(reports) => WaitStep(s, reports)
    case Handle(a) => HandleStep(s, a)
  }

  /** Any list of steps is a run; one that is not enabled where it comes up does nothing. */
  function AfterSteps(s: Loop, steps: seq<Step>): Loop {
    if steps == [] then s
    else
      var before := AfterSteps(s, steps[..|steps|-1]);
      if Enabled(before, steps[|steps|-1]) then Apply(before, steps[|steps|-1]) else before
  }

  // ---------------------------------------------------------------- the invariant

  /** Entry `i` is what the kernel holds for its descriptor. */
  predicate Registered(s: Loop, i: nat)
    requires i < |s.entries|
  {
    var item := s.entries[i].item;
    item.fd in s.table && s.table[item.fd].item == i
  }

  ghost predicate EntryOk(s: Loop, i: nat)
    requires i < |s.entries|
  {
    var e := s.entries[i];
    && WellFormed(e.begun) && AllPossible(e.begun, e.answers)
    && e.op == After(e.begun, e.answers).0
    && (i in s.pushed <==> After(e.begun, e.answers).1)
    && (Registered(s, i) ==> i !in s.pushed && e.item == Item(e.item.fd, {Wanted(e.begun)}, true))
    && (!Registered(s, i) && i !in s.pushed ==> e.answers == [])
  }

  ghost predicate Distinct(xs: seq<nat>) {
    forall i, j :: 0 <= i < j < |xs| ==> xs[i] != xs[j]
  }

  ghost predicate Inv(s: Loop) {
    && (forall i :: 0 <= i < |s.entries| ==> EntryOk(s, i))
    && (forall fd :: fd in s.table ==>
          && s.table[fd].item < |s.entries|
          && s.entries[s.table[fd].item].item.fd == fd
          && s.table[fd].mask == {Wanted(s.entries[s.table[fd].item].begun)})
    && (forall k :: 0 <= k < |s.ready| ==> s.ready[k].0 < |s.entries| && Registered(s, s.ready[k].0))
    && (forall j, k :: 0 <= j < k < |s.ready| ==> s.ready[j].0 != s.ready[k].0)
    && Distinct(s.pushed)
    && (forall k :: 0 <= k < |s.pushed| ==> s.pushed[k] < |s.entries|)
  }

  lemma ArmKeepsEntry(s: Loop, fd: Fd, op: Op, i: nat)
    requires Inv(s) && WellFormed(op) && i < |ArmStep(s, fd, op).entries|
    ensures EntryOk(ArmStep(s, fd, op), i)
  {
    if i < |s.entries| {
      assert EntryOk(s, i);
    }
  }

  lemma ArmKeeps(s: Loop, fd: Fd, op: Op)
    requires Inv(s) && WellFormed(op)
    ensures Inv(ArmStep(s, fd, op))
  {
    var s' := ArmStep(s, fd, op);
    forall i | 0 <= i < |s'.entries|
      ensures EntryOk(s', i)
    {
      ArmKeepsEntry(s, fd, op, i);
    }
  }

  lemma WaitKeeps(s: Loop, reports: seq<(Fd, set<Flag>)>)
    requires Inv(s) && Enabled(s, Wait(reports))
    ensures Inv(WaitStep(s, reports))
  {
    var s' := WaitStep(s, reports);
    forall i | 0 <= i < |s'.entries|
      ensures EntryOk(s', i)
    {
      assert EntryOk(s, i);
    }
  }

  /** What a completing callback does to the item and the table: the descriptor is gone before the push. */
  lemma DisableRemoves(s: Loop, i: nat)
    requires i < |s.entries| && Registered(s, i) && EntryOk(s, i)
    ensures var e := s.entries[i];
            var disable := if Wanted(e.begun) == Out then DisableWriting else DisableReading;
            OnCall(e.item, s.table, i, disable) == (Item(e.item.fd, {}, false), s.table - {e.item.fd}, true)
  {
    var e := s.entries[i];
    assert {Wanted(e.begun)} - {Wanted(e.begun)} == {};
  }

  lemma AnswersExtend(e: Entry, a: Answer)
    requires WellFormed(e.begun) && AllPossible(e.begun, e.answers) && !After(e.begun, e.answers).1
    requires e.op == After(e.begun, e.answers).0 && Possible(e.op, a)
    ensures AllPossible(e.begun, e.answers + [a]) && After(e.begun, e.answers + [a]) == OnAnswer(e.op, a)
  {
    assert (e.answers + [a])[..|e.answers|] == e.answers;
  }

  /** The whole effect of a callback, field by field. */
  ghost predicate CalledBack(s: Loop, s': Loop, i: nat, a: Answer)
    requires i < |s.entries|
  {
    var e := s.entries[i];
    && |s'.entries| == |s.entries| && s'.ready == s.ready
    && s'.entries == s.entries[i := s'.entries[i]]
    && s'.entries[i].begun == e.begun && s'.entries[i].answers == e.answers + [a]
    && WellFormed(e.begun) && AllPossible(e.begun, e.answers + [a])
    && s'.entries[i].op == After(e.begun, e.answers + [a]).0
    && (if After(e.begun, e.answers + [a]).1
        then s'.entries[i].item == Item(e.item.fd, {}, false) && s'.table == s.table - {e.item.fd} && s'.pushed == s.pushed + [i]
        else s'.entries[i].item == e.item && s'.table == s.table && s'.pushed == s.pushed)
  }

  lemma CallbackEffect(s: Loop, i: nat, a: Answer)
    requires i < |s.entries| && Registered(s, i) && EntryOk(s, i)
    requires WellFormed(s.entries[i].op) && Possible(s.entries[i].op, a)
    ensures CalledBack(s, CallbackStep(s, i, a), i, a)
  {
    DisableRemoves(s, i);
    AnswersExtend(s.entries[i], a);
  }

  lemma CallbackKeepsEntries(s: Loop, s': Loop, i: nat, a: Answer)
    requires Inv(s) && i < |s.entries| && Registered(s, i)
    requires CalledBack(s, s', i, a)
    ensures forall k :: 0 <= k < |s'.entries| ==> EntryOk(s', k)
  {
    assert EntryOk(s, i);
    forall k | 0 <= k < |s'.entries|
      ensures EntryOk(s', k)
    {
      assert EntryOk(s, k);
    }
  }

  lemma CallbackKeepsRest(s: Loop, s': Loop, i: nat, a: Answer)
    requires Inv(s) && s.ready != [] && i == s.ready[0].0
    requires CalledBack(s, s', i, a)
    requires forall k :: 0 <= k < |s'.entries| ==> EntryOk(s', k)
    ensures Inv(s'.(ready := s.ready[1..]))
  {
    var s2 := s'.(ready := s.ready[1..]);
    assert EntryOk(s, i);
    forall k | 0 <= k < |s2.entries|
      ensures EntryOk(s2, k)
    {
      assert EntryOk(s', k);
    }
  }

  lemma HandleKeeps(s: Loop, a: Answer)
    requires Inv(s) && Enabled(s, Handle(a))
    ensures Inv(HandleStep(s, a))
  {
    var i := s.ready[0].0;
    assert EntryOk(s, i);
    if CallsBack(s.entries[i].begun, s.ready[0].1) {
      CallbackEffect(s, i, a);
      var s' := CallbackStep(s, i, a);
      CallbackKeepsEntries(s, s', i, a);
      CallbackKeepsRest(s, s', i, a);
    } else {
      var s' := HandleStep(s, a);
      forall k | 0 <= k < |s'.entries|
        ensures EntryOk(s', k)
      {
        assert EntryOk(s, k);
      }
    }
  }

  lemma StepKeeps(s: Loop, step: Step)
    requires Inv(s) && Enabled(s, step)
    ensures Inv(Apply(s, step))
  {
    match step
    case Arm(fd, op) => ArmKeeps(s, fd, op);
    case Wait(reports) => WaitKeeps(s, reports);
    case Handle(a) => HandleKeeps(s, a);
  }

  lemma {:induction false} RunsKeep(steps: seq<Step>)
    ensures Inv(AfterSteps(Idle(), steps))
  {
    if steps != [] {
      RunsKeep(steps[..|steps|-1]);
      var before := AfterSteps(Idle(), steps[..|steps|-1]);
      if Enabled(before, steps[|steps|-1]) {
        StepKeeps(before, steps[|steps|-1]);
      }
    }
  }

  /** The step is a callback that completes its operation. */
  predicate Completing(s: Loop, step: Step)
    requires Enabled(s, step)
  {
    step.Handle? && CallsBack(s.entries[s.ready[0].0].begun, s.ready[0].1)
    && OnAnswer(s.entries[s.ready[0].0].op, step.answer).1
  }

  /** What handling a report does to the table, the pushes and the registrations. */
  lemma HandleTable(s: Loop, a: Answer)
    requires Inv(s) && Enabled(s, Handle(a))
    ensures var s', i := HandleStep(s, a), s.ready[0].0;
            && |s'.entries| == |s.entries|
            && (forall k :: 0 <= k < |s.entries| ==> s'.entries[k].item.fd == s.entries[k].item.fd)
            && (if Completing(s, Handle(a)) then
                  && Registered(s, i) && i !in s.pushed && s'.pushed == s.pushed + [i]
                  && s'.table == s.table - {s.entries[i].item.fd}
                else s'.table == s.table && s'.pushed == s.pushed)
            && (forall k :: 0 <= k < |s.entries| ==>
                  (Registered(s', k) <==> Registered(s, k) && (Completing(s, Handle(a)) ==> k != i)))
  {
    var i := s.ready[0].0;
    assert EntryOk(s, i);
    if CallsBack(s.entries[i].begun, s.ready[0].1) {
      DisableRemoves(s, i);
    }
  }

  // ---------------------------------------------------------------- the theorems

  /**
    * In every run each parked operation's coroutine is pushed at most once, and it has been pushed iff
    * the operation's last callback completed it; no callback came before that would have completed
    * it, and none came after. An operation that is neither pushed nor registered never had one.
    */
  lemma PushedOnceAtCompletion(steps: seq<Step>, i: nat)
    requires i < |AfterSteps(Idle(), steps).entries|
    ensures var s := AfterSteps(Idle(), steps);
            var e := s.entries[i];
            && multiset(s.pushed)[i] <= 1
            && WellFormed(e.begun) && AllPossible(e.begun, e.answers)
            && (i in s.pushed <==> After(e.begun, e.answers).1)
            && (forall n: nat :: n < |e.answers| ==> AllPossible(e.begun, e.answers[..n]) && !After(e.begun, e.answers[..n]).1)
            && (i !in s.pushed && !Registered(s, i) ==> e.answers == [])
  {
    RunsKeep(steps);
    var s := AfterSteps(Idle(), steps);
    assert EntryOk(s, i);
    DistinctMeansOnce(s.pushed, i);
    forall n: nat | n < |s.entries[i].answers|
      ensures AllPossible(s.entries[i].begun, s.entries[i].answers[..n])
      ensures !After(s.entries[i].begun, s.entries[i].answers[..n]).1
    {
      PrefixWaits(s.entries[i].begun, s.entries[i].answers, n);
    }
  }

  lemma {:induction false} DistinctMeansOnce(xs: seq<nat>, x: nat)
    requires Distinct(xs)
    ensures multiset(xs)[x] <= 1
  {
    if xs != [] {
      var most := xs[..|xs|-1];
      DistinctMeansOnce(most, x);
      assert xs == most + [xs[|xs|-1]];
      assert xs[|xs|-1] !in most;
    }
  }

  lemma {:induction false} PrefixWaits(op: Op, answers: seq<Answer>, n: nat)
    requires WellFormed(op) && AllPossible(op, answers) && n < |answers|
    ensures AllPossible(op, answers[..n]) && !After(op, answers[..n]).1
  {
    if n < |answers| - 1 {
      PrefixWaits(op, answers[..|answers|-1], n);
      assert answers[..|answers|-1][..n] == answers[..n];
    }
  }

  /**
    * In every run a step pushes a coroutine iff it is a callback that completes its operation; then
    * exactly that operation's is pushed, for the first time, and its descriptor has just left the
    * interest table while every other entry stays.
    */
  lemma PushIsAfterRemoval(steps: seq<Step>, step: Step)
    requires Enabled(AfterSteps(Idle(), steps), step)
    ensures var s := AfterSteps(Idle(), steps);
            var s' := Apply(s, step);
            if Completing(s, step) then
              var i := s.ready[0].0;
              && i !in s.pushed && s'.pushed == s.pushed + [i]
              && s.entries[i].item.fd in s.table && s'.table == s.table - {s.entries[i].item.fd}
            else s'.pushed == s.pushed
  {
    RunsKeep(steps);
    if step.Handle? {
      HandleTable(AfterSteps(Idle(), steps), step.answer);
    }
  }

  /** An entry that is not registered, and not pushed, gets no callback in any continuation: its coroutine stays parked. */
  lemma {:induction false} UnregisteredWaitsForever(steps: seq<Step>, more: seq<Step>, i: nat)
    requires i < |AfterSteps(Idle(), steps).entries|
    requires !Registered(AfterSteps(Idle(), steps), i) && i !in AfterSteps(Idle(), steps).pushed
    ensures var s := AfterSteps(AfterSteps(Idle(), steps), more);
            i < |s.entries| && !Registered(s, i) && i !in s.pushed && Inv(s)
  {
    if more == [] {
      RunsKeep(steps);
    } else {
      UnregisteredWaitsForever(steps, more[..|more|-1], i);
      var s := AfterSteps(AfterSteps(Idle(), steps), more[..|more|-1]);
      if Enabled(s, more[|more|-1]) {
        StepKeeps(s, more[|more|-1]);
        UnregisteredStays(s, more[|more|-1], i);
      }
    }
  }

  lemma UnregisteredStays(s: Loop, step: Step, i: nat)
    requires Inv(s) && Enabled(s, step) && i < |s.entries| && !Registered(s, i) && i !in s.pushed
    ensures var s' := Apply(s, step);
            i < |s'.entries| && !Registered(s', i) && i !in s'.pushed
  {
    if step.Handle? {
      var k := s.ready[0].0;
      assert EntryOk(s, k);
      if CallsBack(s.entries[k].begun, s.ready[0].1) {
        CallbackEffect(s, k, step.answer);
      }
    }
  }

  /**
    * In every run parking adds the operation, waiting for its own events, and registers it iff no other
    * one is registered for the descriptor; no other operation is touched.
    */
  lemma ArmRegistersIffFree(steps: seq<Step>, fd: Fd, op: Op)
    requires WellFormed(op)
    ensures var s := AfterSteps(Idle(), steps);
            var s' := Apply(s, Arm(fd, op));
            && s'.entries == s.entries + [Entry(Item(fd, EventsFor(op), true), op, op, [])]
            && (Registered(s', |s.entries|) <==> fd !in s.table)
            && s'.table == (if fd in s.table then s.table else s.table[fd := Watch(EventsFor(op), |s.entries|)])
  {
    RunsKeep(steps);
    assert {} + {Wanted(op)} == EventsFor(op);
  }

  /** The events that each operation is armed for. */
  function EventsFor(op: Op): set<Flag> {
    match op
    case Reading(_, _, _, _) => {In}
    case Writing(_, _, _, _, _) => {Out}
    case Accepting(_, _) => {In}
    case Connecting(_) => {Out}
    case ReadingUntil(_) => {In}
  }

  /** A report that calls the operation back. */
  predicate Concerns(op: Op, revents: set<Flag>) {
    if EventsFor(op) == {Out} then Out in revents else In in revents || Pri in revents || RdHup in revents
  }

  lemma CalledBackIffConcerned(op: Op, revents: set<Flag>)
    ensures CallsBack(op, revents) <==> Concerns(op, revents)
  {
    assert In in EventsFor(op) <==> EventsFor(op) != {Out};
    ParkedItemIsCalledAtMostOnce(revents, if Wanted(op) == Out then OnWrite else OnRead);
  }

  /** In every run the kernel watches a registered operation for exactly its own events. */
  lemma RegisteredForItsEvents(steps: seq<Step>, i: nat)
    requires var s := AfterSteps(Idle(), steps); i < |s.entries| && Registered(s, i)
    ensures var s := AfterSteps(Idle(), steps);
            s.table[s.entries[i].item.fd] == Watch(EventsFor(s.entries[i].begun), i)
  {
    RunsKeep(steps);
    assert EntryOk(AfterSteps(Idle(), steps), i);
  }

  // ---------------------------------------------------------------- one round of the event loop

  /** How many of the steps handle a report. */
  function Handled(s: Loop, steps: seq<Step>): nat {
    if steps == [] then 0
    else
      var most, last := steps[..|steps|-1], steps[|steps|-1];
      Handled(s, most) + (if last.Handle? && Enabled(AfterSteps(s, most), last) then 1 else 0)
  }

  /** Handling a report touches its own entry only, and calls it back iff the report concerns it. */
  lemma HandleTouchesOne(s: Loop, a: Answer)
    requires Inv(s) && Enabled(s, Handle(a))
    ensures var s', i := HandleStep(s, a), s.ready[0].0;
            && |s'.entries| == |s.entries| && s'.ready == s.ready[1..]
            && (forall k :: 0 <= k < |s.entries| && k != i ==> s'.entries[k] == s.entries[k])
            && s'.entries[i].begun == s.entries[i].begun
            && s'.entries[i].answers ==
                 s.entries[i].answers + (if Concerns(s.entries[i].begun, s.ready[0].1) then [a] else [])
  {
    var i := s.ready[0].0;
    assert EntryOk(s, i);
    CalledBackIffConcerned(s.entries[i].begun, s.ready[0].1);
    if CallsBack(s.entries[i].begun, s.ready[0].1) {
      CallbackEffect(s, i, a);
    }
  }

  /** `t` has handled the first `n` reports of `s`, and the entries of the other reports are untouched. */
  ghost predicate InTurn(s: Loop, t: Loop, n: nat) {
    && n <= |s.ready| && t.ready == s.ready[n..] && |s.entries| <= |t.entries|
    && (forall k :: n <= k < |s.ready| && s.ready[k].0 < |s.entries| ==> t.entries[s.ready[k].0] == s.entries[s.ready[k].0])
  }

  lemma HandleKeepsTurn(s: Loop, t: Loop, n: nat, a: Answer)
    requires Inv(t) && InTurn(s, t, n) && Enabled(t, Handle(a))
    requires forall j, k :: 0 <= j < k < |s.ready| ==> s.ready[j].0 != s.ready[k].0
    ensures InTurn(s, HandleStep(t, a), n + 1)
  {
    HandleTouchesOne(t, a);
    assert t.ready[0] == s.ready[n];
  }

  lemma OtherKeepsTurn(s: Loop, t: Loop, n: nat, step: Step)
    requires InTurn(s, t, n) && n < |s.ready| && Enabled(t, step) && !step.Handle?
    ensures InTurn(s, Apply(t, step), n)
  {
  }

  /** Until the round is over the reports are handled in turn, and an item whose turn has not come is untouched. */
  lemma {:induction false} RoundGoesInOrder(s: Loop, between: seq<Step>)
    requires Inv(s) && Handled(s, between) < |s.ready|
    ensures Inv(AfterSteps(s, between)) && InTurn(s, AfterSteps(s, between), Handled(s, between))
  {
    if between != [] {
      var most, last := between[..|between|-1], between[|between|-1];
      RoundGoesInOrder(s, most);
      var t := AfterSteps(s, most);
      if Enabled(t, last) {
        StepKeeps(t, last);
        if last.Handle? {
          HandleKeepsTurn(s, t, Handled(s, most), last.answer);
        } else {
          OtherKeepsTurn(s, t, Handled(s, most), last);
        }
      }
    }
  }

  ghost predicate CanReport(s: Loop, reports: seq<(Fd, set<Flag>)>) {
    s.ready == [] && reports != [] && DistinctFds(reports)
    && forall k :: 0 <= k < |reports| ==> reports[k].0 in s.table
  }

  /**
    * In every run, once `epoll_wait` has reported some descriptors, and whatever workers arm meanwhile: when
    * the k-th report's turn comes, its operation is as it was, any answer its system call may give
    * can be handled, and its callback is made with that answer iff the report concerns it; no
    * other operation is touched, and the rest of the round is left.
    */
  lemma ReportedIsCalledBack(steps: seq<Step>, reports: seq<(Fd, set<Flag>)>, between: seq<Step>, a: Answer)
    requires CanReport(AfterSteps(Idle(), steps), reports)
    requires Handled(WaitStep(AfterSteps(Idle(), steps), reports), between) < |reports|
    ensures var s := AfterSteps(Idle(), steps);
            var k, t := Handled(WaitStep(s, reports), between), AfterSteps(WaitStep(s, reports), between);
            var (fd, revents) := reports[k];
            var i := s.table[fd].item;
            && i < |s.entries| <= |t.entries| && s.entries[i].item.fd == fd && t.entries[i] == s.entries[i]
            && (Possible(s.entries[i].op, a) ==>
                  && Enabled(t, Handle(a))
                  && var t' := Apply(t, Handle(a));
                     && |t'.entries| == |t.entries| && |t'.ready| == |reports| - k - 1
                     && (forall j :: 0 <= j < |t.entries| && j != i ==> t'.entries[j] == t.entries[j])
                     && t'.entries[i].answers ==
                          s.entries[i].answers + (if Concerns(s.entries[i].begun, revents) then [a] else []))
  {
    var s := AfterSteps(Idle(), steps);
    RunsKeep(steps);
    WaitKeeps(s, reports);
    var s1 := WaitStep(s, reports);
    RoundGoesInOrder(s1, between);
    var k, t := Handled(s1, between), AfterSteps(s1, between);
    var i := s.table[reports[k].0].item;
    assert t.ready[0] == s1.ready[k] == (i, reports[k].1);
    assert EntryOk(t, i) && Registered(t, i);
    if Possible(s.entries[i].op, a) {
      HandleTouchesOne(t, a);
    }
  }

  /**
    * Two operations on one descriptor: the second is not registered and not pushed, although its item
    * believes to be watched; so it waits forever.
    */
  lemma SecondOnDescriptorIsDeaf(fd: Fd, a: Op, b: Op)
    requires WellFormed(a) && WellFormed(b)
    ensures var s := AfterSteps(Idle(), [Arm(fd, a)] + [Arm(fd, b)]);
            && |s.entries| == 2 && Registered(s, 0)
            && !Registered(s, 1) && 1 !in s.pushed && s.entries[1].item.watching
    ensures forall more: seq<Step> ::
              var s := AfterSteps(AfterSteps(Idle(), [Arm(fd, a)] + [Arm(fd, b)]), more);
              1 < |s.entries| && 1 !in s.pushed
  {
    var one := [Arm(fd, a)];
    var two := one + [Arm(fd, b)];
    assert one[..0] == [] && two[..1] == one;
    var s1 := ArmStep(Idle(), fd, a);
    assert AfterSteps(Idle(), one) == s1;
    assert AfterSteps(Idle(), two) == ArmStep(s1, fd, b);
    forall more: seq<Step>
      ensures var s := AfterSteps(AfterSteps(Idle(), two), more); 1 < |s.entries| && 1 !in s.pushed
    {
      UnregisteredWaitsForever(two, more, 1);
    }
  }
}
