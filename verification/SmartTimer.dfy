/**
  * The timer thread (src/smart_timer.cpp:12-73, include/smart_timer.h:11-19): a heap of timers with a
  * cached nearest expiry. Clock readings are arbitrary; nothing is assumed about their order.
  *
  * `std::priority_queue` is modelled by its contract: a collection whose `top` is some element that
  * is minimal under `TimerComp`. Which one of several equally early timers comes first is left open.
  */
module SmartTimers {

  const UINT64_MAX: nat := 0xFFFF_FFFF_FFFF_FFFF

  /** `born` tells timers apart: the position of the call that set it. It stands for callback and arguments. */
  datatype Timer = Timer(born: nat, timestamp: nat)

  /** `top()`. */
  predicate IsTop(heap: set<Timer>, t: Timer) {
    t in heap && forall u :: u in heap ==> t.timestamp <= u.timestamp
  }

  lemma {:induction false} TopExists(heap: set<Timer>) returns (t: Timer)
    requires heap != {}
    ensures IsTop(heap, t)
  {
    var u :| u in heap;
    var rest := heap - {u};
    if rest == {} {
      t := u;
      assert forall v :: v in heap ==> v == u by {
        forall v | v in heap ensures v == u {
          assert v == u || v in rest;
        }
      }
    } else {
      t := TopExists(rest);
      if u.timestamp < t.timestamp {
        t := u;
      }
    }
  }

  /** The value the cached nearest expiry should have. */
  ghost predicate IsNearest(heap: set<Timer>, nearest: nat) {
    if heap == {} then nearest == UINT64_MAX
    else exists t :: IsTop(heap, t) && t.timestamp == nearest
  }

  /** `popped` is an outcome of the loop that moves the top to `timeout_list_` while it is before `now`. */
  ghost predicate Scan(heap: set<Timer>, now: nat, popped: seq<Timer>) {
    if popped == [] then forall t :: t in heap ==> t.timestamp >= now
    else IsTop(heap, popped[0]) && popped[0].timestamp < now && Scan(heap - {popped[0]}, now, popped[1..])
  }

  ghost predicate InOrder(ts: seq<Timer>) {
    forall i, j :: 0 <= i < j < |ts| ==> ts[i].timestamp <= ts[j].timestamp
  }

  ghost function Times(ts: seq<Timer>, t: Timer): nat {
    multiset(ts)[t]
  }

  ghost function Elements(ts: seq<Timer>): set<Timer> {
    set t | t in ts
  }

  /** The scan takes exactly the expired timers, in nondecreasing order of their timestamps. */
  lemma {:induction false} ScanTakesTheExpired(heap: set<Timer>, now: nat, popped: seq<Timer>)
    requires Scan(heap, now, popped)
    ensures forall t :: t in popped <==> t in heap && t.timestamp < now
    ensures InOrder(popped)
  {
    if popped != [] {
      var rest := popped[1..];
      ScanTakesTheExpired(heap - {popped[0]}, now, rest);
      assert popped == [popped[0]] + rest;
    }
  }

  lemma {:induction false} ScanTakesOnce(heap: set<Timer>, now: nat, popped: seq<Timer>, t: Timer)
    requires Scan(heap, now, popped)
    ensures Times(popped, t) == if t in heap && t.timestamp < now then 1 else 0
  {
    if popped != [] {
      var rest := popped[1..];
      ScanTakesOnce(heap - {popped[0]}, now, rest, t);
      assert popped == [popped[0]] + rest;
    }
  }

  // ---------------------------------------------------------------- runs

  datatype Event =
    | SetTimer(timestamp: nat)
    | Collect(now: nat, popped: seq<Timer>)    // the tick's critical section; `popped` fixes the ties
    | Fire(timer: Timer)                       // one callback, after the unlock
    | EndRound                                 // the list is cleared

  datatype State = State(
    heap: set<Timer>,
    nearest: nat,                 // nearest_expire_timestamp_
    collected: seq<Timer>,        // timeout_list_, from the first callback not made yet on
    unlocked: bool,               // between the critical section and the end of the callbacks
    // histories
    fired: seq<Timer>,            // callbacks made, in order
    round: seq<Timer>,            // what the last tick collected
    base: nat,                    // how many callbacks had been made before it
    log: seq<Event>)

  function Boot(): State {
    State({}, UINT64_MAX, [], false, [], [], 0, [])
  }

  ghost predicate Enabled(s: State, e: Event) {
    match e
    case SetTimer(ts) => ts <= UINT64_MAX
    case Collect(now, popped) =>
      && !s.unlocked && now <= UINT64_MAX
      && (if s.nearest < now then Scan(s.heap, now, popped) else popped == [])
    case Fire(t) => s.unlocked && s.collected != [] && s.collected[0] == t
    case EndRound => s.unlocked && s.collected == []
  }

  ghost function Nearest(heap: set<Timer>): (n: nat)
    ensures IsNearest(heap, n)
  {
    if heap == {} then UINT64_MAX
    else
      assert exists t :: IsTop(heap, t) by { var t := TopExists(heap); }
      var t :| IsTop(heap, t);
      t.timestamp
  }

  ghost function Apply(s: State, e: Event): State {
    match e
    case SetTimer(ts) =>
      s.(heap := s.heap + {Timer(|s.log|, ts)}, nearest := if s.nearest > ts then ts else s.nearest, log := s.log + [e])
    case Collect(now, popped) =>
      var left := s.heap - Elements(popped);
      s.(heap := left, nearest := if s.nearest < now then Nearest(left) else s.nearest,
         collected := s.collected + popped, unlocked := true,
         round := s.collected + popped, base := |s.fired|, log := s.log + [e])
    case Fire(t) =>
      s.(fired := s.fired + [t], collected := if s.collected == [] then [] else s.collected[1..], log := s.log + [e])
    case EndRound => s.(unlocked := false, log := s.log + [e])
  }

  /** Any list of events is a run; one that is not enabled where it comes up does nothing. */
  ghost function After(events: seq<Event>): State {
    if events == [] then Boot()
    else
      var before := After(events[..|events|-1]);
      if Enabled(before, events[|events|-1]) then Apply(before, events[|events|-1]) else before
  }

  // ---------------------------------------------------------------- the fate of one timer

  datatype Fate = Waiting | Due | Fired

  /**
    * What should become of a timer, told from the events after its setting alone: it becomes due at
    * the first tick that reads a time past its timestamp, and is done with its first callback after that.
    */
  function FateOf(t: Timer, later: seq<Event>): Fate {
    if later == [] then Waiting
    else Next(t, FateOf(t, later[..|later|-1]), later[|later|-1])
  }

  function Next(t: Timer, before: Fate, e: Event): Fate {
    if before == Waiting && e.Collect? && t.timestamp < e.now then Due
    else if before == Due && e == Fire(t) then Fired
    else before
  }

  ghost predicate At(s: State, t: Timer, f: Fate) {
    && (t in s.heap <==> f == Waiting)
    && Times(s.collected, t) == (if f == Due then 1 else 0)
    && Times(s.fired, t) == (if f == Fired then 1 else 0)
  }

  predicate WasSet(s: State, t: Timer) {
    t.born < |s.log| && s.log[t.born] == SetTimer(t.timestamp)
  }

  ghost predicate Inv(s: State) {
    && IsNearest(s.heap, s.nearest)
    && (!s.unlocked ==> s.collected == [])
    && s.base <= |s.fired| && s.fired[s.base..] + s.collected == s.round && InOrder(s.round)
    && (forall t :: Placed(s, t))
  }

  /** A timer that was set is where its fate says; one that was not is nowhere. */
  ghost predicate Placed(s: State, t: Timer) {
    if WasSet(s, t) then At(s, t, FateOf(t, s.log[t.born+1..]))
    else t !in s.heap && Times(s.collected, t) == 0 && Times(s.fired, t) == 0
  }

  lemma FateOfOneMore(t: Timer, log: seq<Event>, from: nat, e: Event)
    requires from <= |log|
    ensures FateOf(t, (log + [e])[from..]) == Next(t, FateOf(t, log[from..]), e)
  {
    var later := (log + [e])[from..];
    assert later == log[from..] + [e];
    assert later[..|later|-1] == log[from..];
  }

  lemma SetKeepsPlaced(s: State, ts: nat, t: Timer)
    requires Placed(s, t)
    ensures Placed(Apply(s, SetTimer(ts)), t)
  {
    var s' := Apply(s, SetTimer(ts));
    if t.born < |s.log| {
      FateOfOneMore(t, s.log, t.born + 1, SetTimer(ts));
    } else if t.born == |s.log| {
      assert s'.log[t.born+1..] == [];
    }
  }

  lemma SetKeeps(s: State, ts: nat)
    requires Inv(s) && ts <= UINT64_MAX
    ensures Inv(Apply(s, SetTimer(ts)))
  {
    var s' := Apply(s, SetTimer(ts));
    SetKeepsNearest(s.heap, s.nearest, Timer(|s.log|, ts));
    forall t: Timer
      ensures Placed(s', t)
    {
      SetKeepsPlaced(s, ts, t);
    }
  }

  lemma SetKeepsNearest(heap: set<Timer>, nearest: nat, t: Timer)
    requires IsNearest(heap, nearest) && t.timestamp <= UINT64_MAX
    ensures IsNearest(heap + {t}, if nearest > t.timestamp then t.timestamp else nearest)
  {
    var n := if nearest > t.timestamp then t.timestamp else nearest;
    if heap == {} {
      assert IsTop(heap + {t}, t);
    } else {
      var u :| IsTop(heap, u) && u.timestamp == nearest;
      assert IsTop(heap + {t}, if nearest > t.timestamp then t else u);
    }
  }

  /** When the cache is not before `now`, scanning would find nothing, so skipping the scan changes nothing. */
  lemma SkippingIsScanning(heap: set<Timer>, nearest: nat, now: nat)
    requires IsNearest(heap, nearest) && nearest >= now
    ensures Scan(heap, now, [])
    ensures forall popped :: Scan(heap, now, popped) ==> popped == []
  {
    if heap != {} {
      var t :| IsTop(heap, t) && t.timestamp == nearest;
    }
  }

  lemma CollectIsScan(s: State, now: nat, popped: seq<Timer>)
    requires IsNearest(s.heap, s.nearest) && Enabled(s, Collect(now, popped))
    ensures Scan(s.heap, now, popped)
  {
    if s.nearest >= now {
      SkippingIsScanning(s.heap, s.nearest, now);
    }
  }

  lemma CollectMovesTheExpired(s: State, now: nat, popped: seq<Timer>, t: Timer)
    requires Scan(s.heap, now, popped) && s.collected == []
    ensures var s' := Apply(s, Collect(now, popped));
            && (t in s'.heap <==> t in s.heap && t.timestamp >= now)
            && Times(s'.collected, t) == (if t in s.heap && t.timestamp < now then 1 else 0)
  {
    ScanTakesOnce(s.heap, now, popped, t);
    assert s.collected + popped == popped;
    assert t in popped <==> Times(popped, t) > 0;
  }

  lemma CollectKeepsPlaced(s: State, now: nat, popped: seq<Timer>, t: Timer)
    requires Placed(s, t) && Scan(s.heap, now, popped) && s.collected == []
    ensures Placed(Apply(s, Collect(now, popped)), t)
  {
    CollectMovesTheExpired(s, now, popped, t);
    if t.born < |s.log| {
      FateOfOneMore(t, s.log, t.born + 1, Collect(now, popped));
    }
  }

  lemma CollectKeeps(s: State, now: nat, popped: seq<Timer>)
    requires Inv(s) && Enabled(s, Collect(now, popped))
    ensures Inv(Apply(s, Collect(now, popped)))
  {
    var s' := Apply(s, Collect(now, popped));
    CollectIsScan(s, now, popped);
    ScanTakesTheExpired(s.heap, now, popped);
    assert s'.collected == popped && s'.fired[s'.base..] + s'.collected == s'.round;
    if s.nearest >= now {
      assert s'.heap == s.heap;
    }
    forall t: Timer
      ensures Placed(s', t)
    {
      CollectKeepsPlaced(s, now, popped, t);
    }
  }

  lemma TimesOfTail(ts: seq<Timer>, t: Timer)
    requires ts != []
    ensures Times(ts, t) == Times(ts[1..], t) + (if t == ts[0] then 1 else 0)
  {
    assert ts == [ts[0]] + ts[1..];
  }

  lemma TimesOneMore(ts: seq<Timer>, u: Timer, t: Timer)
    ensures Times(ts + [u], t) == Times(ts, t) + (if t == u then 1 else 0)
  {
  }

  lemma FireKeepsPlaced(s: State, u: Timer, t: Timer)
    requires Placed(s, t) && Enabled(s, Fire(u))
    ensures Placed(Apply(s, Fire(u)), t)
  {
    TimesOfTail(s.collected, t);
    TimesOneMore(s.fired, u, t);
    if t.born < |s.log| {
      FateOfOneMore(t, s.log, t.born + 1, Fire(u));
    }
  }

  lemma FireKeeps(s: State, u: Timer)
    requires Inv(s) && Enabled(s, Fire(u))
    ensures Inv(Apply(s, Fire(u)))
  {
    var s' := Apply(s, Fire(u));
    assert s'.fired[s'.base..] + s'.collected == s.fired[s.base..] + ([u] + s.collected[1..]);
    forall t: Timer
      ensures Placed(s', t)
    {
      FireKeepsPlaced(s, u, t);
    }
  }

  lemma EndKeeps(s: State)
    requires Inv(s) && Enabled(s, EndRound)
    ensures Inv(Apply(s, EndRound))
  {
    var s' := Apply(s, EndRound);
    forall t: Timer
      ensures Placed(s', t)
    {
      assert Placed(s, t);
      if t.born < |s.log| {
        FateOfOneMore(t, s.log, t.born + 1, EndRound);
      }
    }
  }

  lemma StepKeeps(s: State, e: Event)
    requires Inv(s) && Enabled(s, e)
    ensures Inv(Apply(s, e))
  {
    match e
    case SetTimer(ts) => SetKeeps(s, ts);
    case Collect(now, popped) => CollectKeeps(s, now, popped);
    case Fire(t) => FireKeeps(s, t);
    case EndRound => EndKeeps(s);
  }

  lemma {:induction false} RunsKeep(events: seq<Event>)
    ensures Inv(After(events))
  {
    if events != [] {
      RunsKeep(events[..|events|-1]);
      var before, e := After(events[..|events|-1]), events[|events|-1];
      if Enabled(before, e) {
        StepKeeps(before, e);
      }
    }
  }

  // ---------------------------------------------------------------- the theorems

  /**
    * Over every interleaving of settings, ticks and single callbacks, with clock readings in any order,
    * each timer is where its own fate says: in the heap until the first tick that reads past its
    * timestamp, in that tick's list until its callback, and from then on fired, exactly once and
    * for good. Its callback comes before the next tick: between rounds no timer is due.
    */
  lemma EachTimerFiresAtItsTick(events: seq<Event>, t: Timer)
    requires WasSet(After(events), t)
    ensures var s := After(events);
            && At(s, t, FateOf(t, s.log[t.born+1..]))
            && (!s.unlocked ==> FateOf(t, s.log[t.born+1..]) != Due)
  {
    RunsKeep(events);
    assert Placed(After(events), t);
  }

  /** Nothing fires that was not set, and nothing fires twice. */
  lemma OnlySetTimersFire(events: seq<Event>, t: Timer)
    ensures var s := After(events);
            Times(s.fired, t) <= 1 && (t in s.fired ==> WasSet(s, t))
  {
    RunsKeep(events);
    assert Placed(After(events), t);
  }

  /**
    * At any moment the callbacks made since the last tick, followed by those still to come, are what it
    * collected, in nondecreasing order of their timestamps.
    */
  lemma TickFiresInOrder(events: seq<Event>)
    ensures var s := After(events);
            s.base <= |s.fired| && s.fired[s.base..] + s.collected == s.round && InOrder(s.round)
  {
    RunsKeep(events);
  }

  /**
    * In every run the cached nearest expiry is the heap's minimum, UINT64_MAX when it is empty; so a
    * tick, whether it scans or skips, takes exactly the expired timers and leaves none behind.
    */
  lemma CacheIsExact(events: seq<Event>, now: nat, popped: seq<Timer>)
    requires Enabled(After(events), Collect(now, popped))
    ensures var s := After(events);
            && IsNearest(s.heap, s.nearest)
            && Scan(s.heap, now, popped)
            && (forall t :: t in popped <==> t in s.heap && t.timestamp < now)
            && (forall t :: t in Apply(s, Collect(now, popped)).heap ==> t.timestamp >= now)
  {
    RunsKeep(events);
    var s := After(events);
    CollectIsScan(s, now, popped);
    ScanTakesTheExpired(s.heap, now, popped);
  }

  // ---------------------------------------------------------------- the timer as an object

  /** `popped` was moved out of `heap`, top by top and each before `now`, and `left` remains. */
  ghost predicate Popping(heap: set<Timer>, now: nat, popped: seq<Timer>, left: set<Timer>) {
    if popped == [] then left == heap
    else IsTop(heap, popped[0]) && popped[0].timestamp < now && Popping(heap - {popped[0]}, now, popped[1..], left)
  }

  lemma {:induction false} PopOneMore(heap: set<Timer>, now: nat, popped: seq<Timer>, left: set<Timer>, t: Timer)
    requires Popping(heap, now, popped, left) && IsTop(left, t) && t.timestamp < now
    ensures Popping(heap, now, popped + [t], left - {t})
  {
    if popped == [] {
      assert (popped + [t])[1..] == [];
    } else {
      PopOneMore(heap - {popped[0]}, now, popped[1..], left, t);
      assert (popped + [t])[1..] == popped[1..] + [t];
    }
  }

  lemma {:induction false} PoppedAll(heap: set<Timer>, now: nat, popped: seq<Timer>, left: set<Timer>)
    requires Popping(heap, now, popped, left)
    requires forall t :: t in left ==> t.timestamp >= now
    ensures Scan(heap, now, popped) && left == heap - Elements(popped)
  {
    if popped == [] {
      assert Elements(popped) == {};
    } else {
      PoppedAll(heap - {popped[0]}, now, popped[1..], left);
      assert Elements(popped) == {popped[0]} + Elements(popped[1..]);
    }
  }

  lemma TopIsFirst(heap: set<Timer>, top: Timer)
    requires IsTop(heap, top)
    ensures forall t :: t in heap ==> t.timestamp >= top.timestamp
  {
  }

  class SmartTimer {
    var heap: set<Timer>
    var nearest: nat
    var timeoutList: seq<Timer>
    var next: nat                  // names the next timer
    ghost var called: nat          // how many callbacks of the list were made
    ghost var unlocked: bool
    ghost var fired: seq<Timer>
    ghost var round: seq<Timer>
    ghost var base: nat
    ghost var log: seq<Event>

    ghost predicate Valid()
      reads this
    {
      next == |log| && called <= |timeoutList| && (!unlocked ==> timeoutList == [])
    }

    ghost function View(): State
      requires Valid()
      reads this
    {
      State(heap, nearest, timeoutList[called..], unlocked, fired, round, base, log)
    }

    constructor ()
      ensures Valid() && View() == Boot()
    {
      heap, nearest, timeoutList, next := {}, UINT64_MAX, [], 0;
      called, unlocked, fired, round, base, log := 0, false, [], [], 0, [];
    }

    method SetTimer(timestamp: nat)
      requires Valid()
      modifies this`heap, this`nearest, this`next, this`log
      ensures Valid() && View() == Apply(old(View()), Event.SetTimer(timestamp))
    {
      if nearest > timestamp {
        nearest := timestamp;
      }
      heap := heap + {Timer(next, timestamp)};
      next, log := next + 1, log + [Event.SetTimer(timestamp)];
    }

    /** The critical section of one round of `run`. */
    method Collect(now: nat) returns (ghost popped: seq<Timer>)
      requires Valid() && !unlocked && now <= UINT64_MAX
      modifies this
      ensures Valid() && Enabled(old(View()), Event.Collect(now, popped))
      ensures View() == Apply(old(View()), Event.Collect(now, popped))
    {
      popped := [];
      if nearest < now {
        popped := PopExpired(now);
        RefreshNearest();
      } else {
        assert heap - Elements(popped) == heap;
      }
      assert timeoutList == [] + popped == timeoutList[0..];
      unlocked, called, round, base := true, 0, timeoutList, |fired|;
      next, log := next + 1, log + [Event.Collect(now, popped)];
    }

    method RefreshNearest()
      modifies this`nearest
      ensures nearest == Nearest(heap)
    {
      if heap != {} {
        ghost var some := TopExists(heap);
        var top :| IsTop(heap, top);
        nearest := top.timestamp;
      } else {
        nearest := UINT64_MAX;
      }
      NearestIsUnique(heap, nearest, Nearest(heap));
    }

    method PopExpired(now: nat) returns (ghost popped: seq<Timer>)
      modifies this`heap, this`timeoutList
      ensures Scan(old(heap), now, popped) && heap == old(heap) - Elements(popped)
      ensures timeoutList == old(timeoutList) + popped
    {
      popped := [];
      while heap != {}
        invariant Popping(old(heap), now, popped, heap)
        invariant timeoutList == old(timeoutList) + popped
        decreases heap
      {
        ghost var some := TopExists(heap);
        var top :| IsTop(heap, top);
        if top.timestamp >= now {
          TopIsFirst(heap, top);
          break;
        }
        PopOneMore(old(heap), now, popped, heap, top);
        timeoutList := timeoutList + [top];
        heap := heap - {top};
        popped := popped + [top];
      }
      PoppedAll(old(heap), now, popped, heap);
    }

    /** One callback of the list, outside the lock. */
    method FireNext()
      requires Valid() && unlocked && called < |timeoutList|
      modifies this`called, this`fired, this`next, this`log
      ensures Valid() && called == old(called) + 1
      ensures Enabled(old(View()), Fire(timeoutList[old(called)]))
      ensures View() == Apply(old(View()), Fire(timeoutList[old(called)]))
    {
      ghost var t := timeoutList[called];
      fired, called := fired + [t], called + 1;
      next, log := next + 1, log + [Fire(t)];
    }

    /**
      * The callbacks of a tick. While and after the i-th one runs, it or other threads set the timers
      * `during[i]`; these stay in the heap for later ticks.
      */
    method RunCallbacks(during: seq<seq<nat>>)
      requires Valid() && unlocked && called == 0 && |during| == |timeoutList|
      requires forall i, k :: 0 <= i < |during| && 0 <= k < |during[i]| ==> during[i][k] <= UINT64_MAX
      modifies this
      ensures Valid() && !unlocked && fired == old(fired + timeoutList)
      ensures Follows(old(View()), Script(old(timeoutList), during, |during|) + [EndRound], View())
    {
      ghost var start, script := View(), Script(timeoutList, during, |during|);
      CallAll(during);
      FollowOneMore(start, script, EndRound);
      ClearList();
    }

    method CallAll(during: seq<seq<nat>>)
      requires Valid() && unlocked && called == 0 && |during| == |timeoutList|
      requires forall i, k :: 0 <= i < |during| && 0 <= k < |during[i]| ==> during[i][k] <= UINT64_MAX
      modifies this`heap, this`nearest, this`called, this`fired, this`next, this`log
      ensures Valid() && called == |timeoutList| && fired == old(fired) + timeoutList
      ensures Follows(old(View()), Script(timeoutList, during, |during|), View())
    {
      ghost var start := View();
      var i := 0;
      while i < |timeoutList|
        modifies this`heap, this`nearest, this`called, this`fired, this`next, this`log
        invariant Valid() && called == i <= |timeoutList|
        invariant Called(start, i) && Follows(start, Script(timeoutList, during, i), View())
      {
        CallNext(during, i, start);
        i := i + 1;
      }
      assert timeoutList[..i] == timeoutList;
    }

    /** The first `n` callbacks of the list have been made since `start`. */
    ghost predicate Called(start: State, n: nat)
      reads this
    {
      n <= |timeoutList| && fired == start.fired + timeoutList[..n]
    }

    method CallNext(during: seq<seq<nat>>, i: nat, ghost start: State)
      requires Valid() && unlocked && called == i < |timeoutList| == |during|
      requires forall k :: 0 <= k < |during[i]| ==> during[i][k] <= UINT64_MAX
      requires Called(start, i) && Follows(start, Script(timeoutList, during, i), View())
      modifies this`heap, this`nearest, this`called, this`fired, this`next, this`log
      ensures Valid() && called == i + 1 && Called(start, i + 1)
      ensures Follows(start, Script(timeoutList, during, i + 1), View())
    {
      ghost var before := View();
      CallOne(during[i]);
      ScriptOneMore(start, timeoutList, during, i, before, View());
    }

    /** One callback, and the timers set before the next one. */
    method CallOne(timestamps: seq<nat>)
      requires Valid() && unlocked && called < |timeoutList|
      requires forall k :: 0 <= k < |timestamps| ==> timestamps[k] <= UINT64_MAX
      modifies this`heap, this`nearest, this`called, this`fired, this`next, this`log
      ensures Valid() && called == old(called) + 1 && fired == old(fired) + [timeoutList[old(called)]]
      ensures Follows(old(View()), [Fire(timeoutList[old(called)])] + Settings(timestamps), View())
    {
      ghost var start, e := View(), Fire(timeoutList[called]);
      FireNext();
      ghost var mid := View();
      FollowOneMore(start, [], e);
      assert [] + [e] == [e];
      SetAll(timestamps);
      FollowsOn(start, [e], mid, Settings(timestamps), View());
    }

    method ClearList()
      requires Valid() && unlocked && called == |timeoutList|
      modifies this`timeoutList, this`called, this`unlocked, this`next, this`log
      ensures Valid() && !unlocked && Enabled(old(View()), EndRound) && View() == Apply(old(View()), EndRound)
    {
      timeoutList, called, unlocked := [], 0, false;
      next, log := next + 1, log + [EndRound];
    }

    method SetAll(timestamps: seq<nat>)
      requires Valid() && forall k :: 0 <= k < |timestamps| ==> timestamps[k] <= UINT64_MAX
      modifies this`heap, this`nearest, this`next, this`log
      ensures Valid() && Follows(old(View()), Settings(timestamps), View())
    {
      ghost var start := View();
      var k := 0;
      while k < |timestamps|
        modifies this`heap, this`nearest, this`next, this`log
        invariant k <= |timestamps| && Valid()
        invariant Follows(start, Settings(timestamps[..k]), View())
      {
        SettingsOneMore(timestamps, k);
        FollowOneMore(start, Settings(timestamps[..k]), Event.SetTimer(timestamps[k]));
        SetTimer(timestamps[k]);
        k := k + 1;
      }
      assert timestamps[..k] == timestamps;
    }
  }

  function Settings(timestamps: seq<nat>): seq<Event> {
    seq(|timestamps|, k requires 0 <= k < |timestamps| => SetTimer(timestamps[k]))
  }

  lemma SettingsOneMore(timestamps: seq<nat>, k: nat)
    requires k < |timestamps|
    ensures Settings(timestamps[..k+1]) == Settings(timestamps[..k]) + [SetTimer(timestamps[k])]
  {
  }

  /** The first `n` callbacks of a list, each followed by the settings made before the next one. */
  function Script(list: seq<Timer>, during: seq<seq<nat>>, n: nat): seq<Event>
    requires n <= |list| && n <= |during|
  {
    if n == 0 then [] else Script(list, during, n - 1) + ([Fire(list[n - 1])] + Settings(during[n - 1]))
  }

  /** The state after some events, all of them enabled. */
  ghost function Follow(s: State, events: seq<Event>): State {
    if events == [] then s else Apply(Follow(s, events[..|events|-1]), events[|events|-1])
  }

  ghost predicate AllEnabled(s: State, events: seq<Event>) {
    events == []
    || (AllEnabled(s, events[..|events|-1]) && Enabled(Follow(s, events[..|events|-1]), events[|events|-1]))
  }

  lemma FollowOneMore(s: State, events: seq<Event>, e: Event)
    ensures Follow(s, events + [e]) == Apply(Follow(s, events), e)
    ensures AllEnabled(s, events + [e]) <==> AllEnabled(s, events) && Enabled(Follow(s, events), e)
  {
    assert (events + [e])[..|events|] == events;
  }

  /** The events lead from `s` to `t`, each of them enabled where it comes up. */
  ghost predicate Follows(s: State, events: seq<Event>, t: State) {
    AllEnabled(s, events) && t == Follow(s, events)
  }

  lemma {:induction false} FollowsOn(s: State, first: seq<Event>, mid: State, second: seq<Event>, t: State)
    requires Follows(s, first, mid) && Follows(mid, second, t)
    ensures Follows(s, first + second, t)
  {
    if second == [] {
      assert first + second == first;
    } else {
      var most, e := second[..|second|-1], second[|second|-1];
      var before := Follow(mid, most);
      FollowsOn(s, first, mid, most, before);
      assert Enabled(before, e) && t == Apply(before, e);
      FollowOneMore(s, first + most, e);
      assert first + second == (first + most) + [e];
    }
  }

  lemma ScriptOneMore(start: State, list: seq<Timer>, during: seq<seq<nat>>, i: nat, before: State, after: State)
    requires i < |list| && i < |during| && Follows(start, Script(list, during, i), before)
    requires Follows(before, [Fire(list[i])] + Settings(during[i]), after)
    ensures Follows(start, Script(list, during, i + 1), after)
  {
    FollowsOn(start, Script(list, during, i), before, [Fire(list[i])] + Settings(during[i]), after);
  }

  lemma NearestIsUnique(heap: set<Timer>, a: nat, b: nat)
    requires IsNearest(heap, a) && IsNearest(heap, b)
    ensures a == b
  {
  }
}
