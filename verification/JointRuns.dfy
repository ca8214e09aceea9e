/**
  * The worker and the epoll thread together. The scheduler's environment step `IoComplete` is an
  * assumption of Scheduler.dfy; here it is what the callbacks of EventLoop.dfy do. A joint run moves
  * both, and each parking of a coroutine gets its own entry in the event loop.
  */
module JointRuns {
  import TaskQueues
  import opened Operations
  import S = Scheduler
  import SR = SchedulerRuns
  import Epoll
  import L = EventLoop

  type Coro = TaskQueues.Coro

  type Config = TaskQueues.Config

  /** The interest table with, for each descriptor, the coroutine whose entry is registered for it. */
  function ArmedCoros(loop: L.Loop, who: seq<Coro>): map<nat, Coro> {
    map fd | fd in loop.table && loop.table[fd].item < |who| :: who[loop.table[fd].item]
  }

  // ---------------------------------------------------------------- the two views agree step by step

  /** Arming has the same effect on the table, and the same loss when the descriptor is taken. */
  lemma ArmingAgrees(loop: L.Loop, who: seq<Coro>, fd: nat, op: Op, me: Coro)
    requires L.Inv(loop) && WellFormed(op) && |who| == |loop.entries|
    ensures var armed, loop' := ArmedCoros(loop, who), L.ArmStep(loop, fd, op);
            && ArmedCoros(loop', who + [me]) == (if fd in armed then armed else armed[fd := me])
            && (L.Registered(loop', |who|) <==> fd !in armed)
  {
  }

  /** A completing callback takes exactly its descriptor away, and it is the entry's coroutine that was armed there. */
  lemma HandleAgrees(loop: L.Loop, who: seq<Coro>, a: Answer)
    requires L.Inv(loop) && |who| == |loop.entries| && L.Enabled(loop, L.Handle(a))
    ensures var armed, loop' := ArmedCoros(loop, who), L.HandleStep(loop, a);
            var i := loop.ready[0].0;
            var fd := loop.entries[i].item.fd;
            if L.Completing(loop, L.Handle(a)) then
              fd in armed && armed[fd] == who[i] && ArmedCoros(loop', who) == armed - {fd}
            else ArmedCoros(loop', who) == armed
  {
    L.HandleTable(loop, a);
  }

  // ---------------------------------------------------------------- joint runs

  datatype Joint = Joint(
    sched: S.Sched,
    loop: L.Loop,
    who: seq<Coro>,               // by entry of the loop: the coroutine that parked with it
    // histories
    schedSteps: seq<S.Step>,
    loopSteps: seq<L.Step>)

  datatype Move =
    | Work(step: S.Step, op: Op)                        // any step but IoComplete; `op` is what a parking coroutine waits for
    | Report(reports: seq<(nat, set<Epoll.Flag>)>)    // epoll_wait
    | Callback(answer: Answer)                          // handle_events of the next ready item

  function Boot(cfg: Config): Joint {
    Joint(S.Boot(cfg), L.Idle(), [], [], [])
  }

  /** The step runs a delayed enable_epoll_reading or _writing. */
  predicate Parks(s: S.Sched, step: S.Step) {
    step.Drain? && s.slot.Some? && s.slot.value.Arm?
  }

  predicate Enabled(j: Joint, m: Move) {
    match m
    case Work(step, op) => !step.IoComplete? && S.Enabled(j.sched, step) && WellFormed(op)
    case Report(reports) => L.Enabled(j.loop, L.Wait(reports))
    case Callback(a) => L.Enabled(j.loop, L.Handle(a)) && j.loop.ready[0].0 < |j.who|
  }

  function DoWork(j: Joint, step: S.Step, op: Op): Joint
    requires j.sched.cfg.Usable() && S.Enabled(j.sched, step)
  {
    var worked := j.(sched := S.Apply(j.sched, step), schedSteps := j.schedSteps + [step]);
    if Parks(j.sched, step) then
      var a := j.sched.slot.value;
      worked.(loop := L.ArmStep(j.loop, a.fd, op), who := j.who + [a.coro],
              loopSteps := j.loopSteps + [L.Arm(a.fd, op)])
    else worked
  }

  /** A completing callback takes the descriptor off the table and pushes the entry's coroutine on the global list. */
  function DoCallback(j: Joint, a: Answer): Joint
    requires L.Enabled(j.loop, L.Handle(a)) && j.loop.ready[0].0 < |j.who|
  {
    var i := j.loop.ready[0].0;
    var handled := j.(loop := L.HandleStep(j.loop, a), loopSteps := j.loopSteps + [L.Handle(a)]);
    if L.Completing(j.loop, L.Handle(a)) then
      handled.(sched := j.sched.(armed := ArmedCoros(handled.loop, j.who), global := j.sched.global + [j.who[i]]),
               schedSteps := j.schedSteps + [S.IoComplete(j.loop.entries[i].item.fd)])
    else handled
  }

  function Apply(j: Joint, m: Move): Joint
    requires j.sched.cfg.Usable() && Enabled(j, m)
  {
    match m
    case Work(step, op) => DoWork(j, step, op)
    case Report(reports) =>
      j.(loop := L.WaitStep(j.loop, reports), loopSteps := j.loopSteps + [L.Wait(reports)])
    case Callback(a) => DoCallback(j, a)
  }

  /** Any list of moves is a joint run; one that is not enabled where it comes up does nothing. */
  function After(cfg: Config, moves: seq<Move>): (j: Joint)
    requires cfg.Usable()
    ensures j.sched.cfg == cfg
  {
    if moves == [] then Boot(cfg)
    else
      var before := After(cfg, moves[..|moves|-1]);
      if Enabled(before, moves[|moves|-1]) then Apply(before, moves[|moves|-1]) else before
  }

  /** Both projections are runs of their own, and they agree on the interest table. */
  ghost predicate Together(cfg: Config, j: Joint)
    requires cfg.Usable()
  {
    && j.sched == S.After(S.Boot(cfg), j.schedSteps)
    && j.loop == L.AfterSteps(L.Idle(), j.loopSteps)
    && |j.who| == |j.loop.entries|
    && j.sched.armed == ArmedCoros(j.loop, j.who)
    && Abandoned(j)
  }

  /** A parking that is neither registered nor pushed is among the scheduler's losses. */
  ghost predicate Abandoned(j: Joint)
    requires |j.who| == |j.loop.entries|
  {
    forall i :: 0 <= i < |j.who| && !L.Registered(j.loop, i) && i !in j.loop.pushed ==> j.who[i] in S.Losers(j.sched.lost)
  }

  // ---------------------------------------------------------------- the invariant holds in every joint run

  lemma SchedOneMore(cfg: Config, steps: seq<S.Step>, step: S.Step)
    requires cfg.Usable() && S.Enabled(S.After(S.Boot(cfg), steps), step)
    ensures S.After(S.Boot(cfg), steps + [step]) == S.Apply(S.After(S.Boot(cfg), steps), step)
  {
    assert (steps + [step])[..|steps|] == steps;
  }

  lemma LoopOneMore(steps: seq<L.Step>, step: L.Step)
    requires L.Enabled(L.AfterSteps(L.Idle(), steps), step)
    ensures L.AfterSteps(L.Idle(), steps + [step]) == L.Apply(L.AfterSteps(L.Idle(), steps), step)
  {
    assert (steps + [step])[..|steps|] == steps;
  }

  lemma LosersGrow(lost: seq<S.Loss>, more: seq<S.Loss>, c: Coro)
    ensures c in S.Losers(lost) ==> c in S.Losers(lost + more)
    ensures forall l :: l in more && S.Loser(l) == c ==> c in S.Losers(lost + more)
  {
    var all := S.Losers(lost + more);
    if c in S.Losers(lost) {
      var i :| 0 <= i < |lost| && S.Losers(lost)[i] == c;
      assert all[i] == c;
    }
    forall l | l in more && S.Loser(l) == c ensures c in all {
      var i :| 0 <= i < |more| && more[i] == l;
      assert all[|lost| + i] == c;
    }
  }

  /** Only arming and completion touch the table. */
  lemma TableOfStep(s: S.Sched, step: S.Step)
    requires S.Inv(s) && S.Enabled(s, step) && !step.IoComplete?
    ensures S.Apply(s, step).armed ==
              if Parks(s, step) && s.slot.value.fd !in s.armed then s.armed[s.slot.value.fd := s.slot.value.coro]
              else s.armed
  {
    match step
    case SwitchAway => SR.DispatchLosses(s);
    case Drain => S.DrainEffect(s);
    case _ =>
  }

  lemma LostOfStep(s: S.Sched, step: S.Step, c: Coro)
    requires S.Inv(s) && S.Enabled(s, step)
    ensures c in S.Losers(s.lost) ==> c in S.Losers(S.Apply(s, step).lost)
    ensures Parks(s, step) && s.slot.value.fd in s.armed && s.slot.value.coro == c ==>
              c in S.Losers(S.Apply(s, step).lost)
  {
    SR.LossesOfStep(s, step);
    LosersGrow(s.lost, SR.NewLosses(s, step), c);
    if Parks(s, step) && s.slot.value.fd in s.armed {
      assert S.FdBusy(s.slot.value) in SR.NewLosses(s, step);
    }
  }

  lemma ArmRegisters(loop: L.Loop, fd: nat, op: Op, i: nat)
    requires L.Inv(loop) && WellFormed(op) && i < |loop.entries|
    ensures var loop' := L.ArmStep(loop, fd, op);
            (L.Registered(loop', i) <==> L.Registered(loop, i)) && loop'.pushed == loop.pushed
  {
  }

  lemma ParkKeepsAbandoned(j: Joint, op: Op)
    requires S.Inv(j.sched) && L.Inv(j.loop) && S.Enabled(j.sched, S.Drain) && Parks(j.sched, S.Drain)
    requires |j.who| == |j.loop.entries| && j.sched.armed == ArmedCoros(j.loop, j.who) && Abandoned(j) && WellFormed(op)
    ensures |DoWork(j, S.Drain, op).who| == |DoWork(j, S.Drain, op).loop.entries|
    ensures Abandoned(DoWork(j, S.Drain, op))
  {
    var j', a := DoWork(j, S.Drain, op), j.sched.slot.value;
    ArmingAgrees(j.loop, j.who, a.fd, op, a.coro);
    forall i | 0 <= i < |j'.who| && !L.Registered(j'.loop, i) && i !in j'.loop.pushed
      ensures j'.who[i] in S.Losers(j'.sched.lost)
    {
      LostOfStep(j.sched, S.Drain, j'.who[i]);
      if i < |j.who| {
        ArmRegisters(j.loop, a.fd, op, i);
      }
    }
  }

  lemma WorkKeeps(cfg: Config, j: Joint, step: S.Step, op: Op)
    requires cfg.Usable() && Together(cfg, j) && S.Inv(j.sched) && L.Inv(j.loop)
    requires S.Enabled(j.sched, step) && !step.IoComplete? && WellFormed(op)
    ensures Together(cfg, DoWork(j, step, op))
  {
    SchedOneMore(cfg, j.schedSteps, step);
    TableOfStep(j.sched, step);
    var j' := DoWork(j, step, op);
    if Parks(j.sched, step) {
      var a := j.sched.slot.value;
      ArmingAgrees(j.loop, j.who, a.fd, op, a.coro);
      LoopOneMore(j.loopSteps, L.Arm(a.fd, op));
      ParkKeepsAbandoned(j, op);
    } else {
      forall i | 0 <= i < |j'.who| && !L.Registered(j'.loop, i) && i !in j'.loop.pushed
        ensures j'.who[i] in S.Losers(j'.sched.lost)
      {
        LostOfStep(j.sched, step, j'.who[i]);
      }
    }
  }

  lemma CallbackKeepsAbandoned(j: Joint, a: Answer)
    requires L.Inv(j.loop) && L.Enabled(j.loop, L.Handle(a)) && |j.who| == |j.loop.entries| && Abandoned(j)
    ensures |DoCallback(j, a).loop.entries| == |j.who| && Abandoned(DoCallback(j, a))
  {
    L.HandleTable(j.loop, a);
    var j' := DoCallback(j, a);
    forall k | 0 <= k < |j'.who| && !L.Registered(j'.loop, k) && k !in j'.loop.pushed
      ensures j'.who[k] in S.Losers(j'.sched.lost)
    {
      assert !L.Registered(j.loop, k) && k !in j.loop.pushed;
    }
  }

  lemma CallbackKeeps(cfg: Config, j: Joint, a: Answer)
    requires cfg.Usable() && Together(cfg, j) && L.Inv(j.loop) && j.sched.cfg == cfg
    requires L.Enabled(j.loop, L.Handle(a))
    ensures Together(cfg, DoCallback(j, a))
  {
    LoopOneMore(j.loopSteps, L.Handle(a));
    HandleAgrees(j.loop, j.who, a);
    CallbackKeepsAbandoned(j, a);
    if L.Completing(j.loop, L.Handle(a)) {
      SchedOneMore(cfg, j.schedSteps, S.IoComplete(j.loop.entries[j.loop.ready[0].0].item.fd));
    }
  }

  lemma ReportKeeps(cfg: Config, j: Joint, reports: seq<(nat, set<Epoll.Flag>)>)
    requires cfg.Usable() && Together(cfg, j) && L.Enabled(j.loop, L.Wait(reports))
    ensures Together(cfg, j.(loop := L.WaitStep(j.loop, reports), loopSteps := j.loopSteps + [L.Wait(reports)]))
  {
    LoopOneMore(j.loopSteps, L.Wait(reports));
    var loop' := L.WaitStep(j.loop, reports);
    assert forall i :: 0 <= i < |j.who| ==> (L.Registered(loop', i) <==> L.Registered(j.loop, i));
  }

  /**
    * In every joint run, the worker's part is a run of the scheduler whose `IoComplete` steps are the
    * completing callbacks, the epoll thread's part is a run of the event loop whose `Arm` steps are
    * the worker's, both see the same interest table, and a parking that is neither registered nor
    * pushed is a loss of the scheduler.
    */
  lemma {:induction false} JointRunsAgree(cfg: Config, moves: seq<Move>)
    requires cfg.Usable()
    ensures Together(cfg, After(cfg, moves))
  {
    if moves != [] {
      JointRunsAgree(cfg, moves[..|moves|-1]);
      var j, m := After(cfg, moves[..|moves|-1]), moves[|moves|-1];
      SR.BootIsFine(cfg);
      SR.RunsKeep(S.Boot(cfg), j.schedSteps);
      L.RunsKeep(j.loopSteps);
      if Enabled(j, m) {
        match m
        case Work(step, op) => WorkKeeps(cfg, j, step, op);
        case Report(reports) => ReportKeeps(cfg, j, reports);
        case Callback(a) => CallbackKeeps(cfg, j, a);
      }
    }
  }

  /**
    * Both safety theorems at once, about one parking `i` of a coroutine in any joint run: it is pushed at
    * most once; its coroutine is in at most one place; while it is registered the coroutine is
    * suspended and in no queue; and if it is neither registered nor pushed, the coroutine is lost.
    */
  lemma {:induction false} EachParkingIsResumedOnce(cfg: Config, moves: seq<Move>, i: nat)
    requires cfg.Usable() && i < |After(cfg, moves).who|
    ensures var j := After(cfg, moves);
            && |j.who| == |j.loop.entries|
            && multiset(j.loop.pushed)[i] <= 1
            && S.Places(j.sched, j.who[i]) <= 1
            && (L.Registered(j.loop, i) ==>
                  && i !in j.loop.pushed && S.StatusOf(j.sched, j.who[i]) == S.Suspended
                  && j.who[i] !in j.sched.local && j.who[i] !in j.sched.global)
            && (!L.Registered(j.loop, i) && i !in j.loop.pushed ==>
                  S.Places(j.sched, j.who[i]) == 0 && j.who[i] in S.Losers(j.sched.lost))
  {
    JointRunsAgree(cfg, moves);
    var j := After(cfg, moves);
    SR.BootIsFine(cfg);
    SR.RunsKeep(S.Boot(cfg), j.schedSteps);
    SR.AtMostOnePlace(cfg, j.schedSteps, j.who[i]);
    L.PushedOnceAtCompletion(j.loopSteps, i);
    if L.Registered(j.loop, i) {
      var fd := j.loop.entries[i].item.fd;
      assert fd in j.sched.armed && j.sched.armed[fd] == j.who[i];
      S.ArmedIsNotQueued(j.sched, fd);
      L.RunsKeep(j.loopSteps);
      assert L.EntryOk(j.loop, i);
    }
  }

  lemma AfterTwoMoves(cfg: Config, moves: seq<Move>, m: Move, m': Move)
    requires cfg.Usable() && Enabled(After(cfg, moves), m)
    requires Enabled(Apply(After(cfg, moves), m), m')
    ensures After(cfg, moves + [m] + [m']) == Apply(Apply(After(cfg, moves), m), m')
  {
    assert (moves + [m])[..|moves|] == moves;
    assert (moves + [m] + [m'])[..|moves| + 1] == moves + [m];
  }

  /** The states of a joint run satisfy both invariants. */
  lemma BothInvariants(cfg: Config, moves: seq<Move>)
    requires cfg.Usable()
    ensures var j := After(cfg, moves);
            S.Inv(j.sched) && L.Inv(j.loop) && |j.who| == |j.loop.entries| && j.sched.armed == ArmedCoros(j.loop, j.who)
  {
    JointRunsAgree(cfg, moves);
    var j := After(cfg, moves);
    SR.BootIsFine(cfg);
    SR.RunsKeep(S.Boot(cfg), j.schedSteps);
    L.RunsKeep(j.loopSteps);
  }

  /**
    * In every joint run, when the worker's drain parks a coroutine with some operation, that operation becomes
    * the newest entry of the event loop, with the coroutine's own descriptor and events; it is
    * registered iff the scheduler saw the descriptor free.
    */
  lemma ParkedOperationIsArmed(cfg: Config, moves: seq<Move>, op: Op)
    requires cfg.Usable() && WellFormed(op)
    requires var s := After(cfg, moves).sched; S.Enabled(s, S.Drain) && Parks(s, S.Drain)
    ensures var j, j' := After(cfg, moves), After(cfg, moves + [Work(S.Drain, op)]);
            var a := j.sched.slot.value;
            && j'.who == j.who + [a.coro]
            && j'.loop.entries == j.loop.entries + [L.Entry(Epoll.Item(a.fd, L.EventsFor(op), true), op, op, [])]
            && |j.loop.entries| == |j.who|
            && (L.Registered(j'.loop, |j.who|) <==> a.fd !in j.sched.armed)
  {
    BothInvariants(cfg, moves);
    JointRunsAgree(cfg, moves);
    var j := After(cfg, moves);
    assert (moves + [Work(S.Drain, op)])[..|moves|] == moves;
    var a := j.sched.slot.value;
    L.ArmRegistersIffFree(j.loopSteps, a.fd, op);
    ArmingAgrees(j.loop, j.who, a.fd, op, a.coro);
  }

  /** What a callback with answer `a` should lead to, for the parking `i` of `coro` and the worker as it was. */
  predicate Served(parked: L.Entry, sched: S.Sched, coro: Coro, i: nat, a: Answer, j': Joint) {
    && WellFormed(parked.op) && Possible(parked.op, a)
    && i < |j'.loop.entries| && j'.loop.entries[i].answers == parked.answers + [a]
    && (if OnAnswer(parked.op, a).1 then
          && i in j'.loop.pushed && parked.item.fd !in j'.sched.armed
          && j'.sched == sched.(armed := sched.armed - {parked.item.fd}, global := sched.global + [coro])
        else i !in j'.loop.pushed && j'.sched == sched)
  }

  /**
    * In every joint run between two rounds: a registered parking whose descriptor is reported with one of its
    * events, and whose system call gives any answer it may give, gets its callback with that answer.
    * If that completes the operation, its own coroutine becomes the last of the global list and
    * the descriptor leaves the table; otherwise nothing changes for the worker.
    */
  lemma ReportedParkingIsServed(cfg: Config, moves: seq<Move>, i: nat, revents: set<Epoll.Flag>, a: Answer)
    requires cfg.Usable()
    requires var loop := After(cfg, moves).loop;
             && loop.ready == [] && i < |loop.entries| && L.Registered(loop, i)
             && L.Concerns(loop.entries[i].begun, revents) && Possible(loop.entries[i].op, a)
    ensures var j := After(cfg, moves);
            var fd := j.loop.entries[i].item.fd;
            var j' := After(cfg, moves + [Report([(fd, revents)])] + [Callback(a)]);
            i < |j.who| && Served(j.loop.entries[i], j.sched, j.who[i], i, a, j')
  {
    BothInvariants(cfg, moves);
    var j := After(cfg, moves);
    var report := Report([(j.loop.entries[i].item.fd, revents)]);
    ReportOne(j, i, revents);
    ServeOne(Apply(j, report), i, revents, a);
    AfterTwoMoves(cfg, moves, report, Callback(a));
  }

  lemma ReportOne(j: Joint, i: nat, revents: set<Epoll.Flag>)
    requires j.sched.cfg.Usable() && L.Inv(j.loop) && j.loop.ready == []
    requires i < |j.loop.entries| && L.Registered(j.loop, i)
    ensures var report := Report([(j.loop.entries[i].item.fd, revents)]);
            && Enabled(j, report)
            && var mid := Apply(j, report);
               && mid.sched == j.sched && mid.who == j.who && L.Inv(mid.loop)
               && mid.loop == j.loop.(ready := [(i, revents)])
  {
    L.WaitKeeps(j.loop, [(j.loop.entries[i].item.fd, revents)]);
  }

  lemma ServeOne(j: Joint, i: nat, revents: set<Epoll.Flag>, a: Answer)
    requires j.sched.cfg.Usable() && L.Inv(j.loop) && |j.who| == |j.loop.entries| && i < |j.who|
    requires j.sched.armed == ArmedCoros(j.loop, j.who) && j.loop.ready == [(i, revents)]
    requires L.Concerns(j.loop.entries[i].begun, revents) && Possible(j.loop.entries[i].op, a)
    ensures Enabled(j, Callback(a)) && Served(j.loop.entries[i], j.sched, j.who[i], i, a, DoCallback(j, a))
  {
    assert j.loop.ready[0] == (i, revents);
    assert L.EntryOk(j.loop, i);
    L.CalledBackIffConcerned(j.loop.entries[i].begun, revents);
    L.HandleTouchesOne(j.loop, a);
    L.HandleTable(j.loop, a);
    HandleAgrees(j.loop, j.who, a);
  }

  lemma AfterOneWork(cfg: Config, moves: seq<Move>, step: S.Step, op: Op)
    requires cfg.Usable() && WellFormed(op) && !step.IoComplete?
    ensures var s := After(cfg, moves).sched;
            After(cfg, moves + [Work(step, op)]).sched == if S.Enabled(s, step) then S.Apply(s, step) else s
  {
    assert (moves + [Work(step, op)])[..|moves|] == moves;
  }

  function Works(steps: seq<S.Step>, op: Op): seq<Move> {
    seq(|steps|, k requires 0 <= k < |steps| => Work(steps[k], op))
  }

  /** The worker is not held up: every run of the scheduler without completions is the worker's part of a joint run. */
  lemma {:induction false} WorkerAloneIsAJointRun(cfg: Config, steps: seq<S.Step>, op: Op)
    requires cfg.Usable() && WellFormed(op) && forall k :: 0 <= k < |steps| ==> !steps[k].IoComplete?
    ensures After(cfg, Works(steps, op)).sched == S.After(S.Boot(cfg), steps)
  {
    if steps != [] {
      var most, step := steps[..|steps|-1], steps[|steps|-1];
      WorkerAloneIsAJointRun(cfg, most, op);
      AfterOneWork(cfg, Works(most, op), step, op);
      assert Works(steps, op) == Works(most, op) + [Work(step, op)];
    }
  }
}
