/**
  * The exact account of the one-place slot. Which deferred actions run and which are forgotten is
  * decided by where each yield or finish switches to; `Replayed` says so from the switches alone,
  * without a slot.
  */
module SchedulerLosses {
  import opened Options
  import opened TaskQueues
  import opened Scheduler
  import opened SchedulerRuns

  /**
    * Reading a trace: the last deferred action, the first switch after it, and the fates of
    * the earlier ones. An action whose first switch enters a fresh coroutine or the main stack is
    * performed there. One whose first switch resumes a suspended coroutine is overwritten by the
    * next one.
    */
  datatype Replay = Replay(pending: Option<Action>, landed: Option<Landing>,
                           overwritten: seq<Action>, performed: seq<Action>)

  /** The last action, as long as nothing has performed it. */
  function Waiting(r: Replay): seq<Action> {
    if r.pending.Some? && (r.landed == None || r.landed == Some(IntoSuspended)) then [r.pending.value] else []
  }

  function Replayed(trace: seq<Event>): Replay {
    if trace == [] then Replay(None, None, [], [])
    else Advance(Replayed(trace[..|trace|-1]), trace[|trace|-1])
  }

  function Advance(r: Replay, e: Event): Replay {
    match e
    case Filled(a) =>
      r.(pending := Some(a), landed := None,
         overwritten := r.overwritten + Waiting(r))
    case Switched(_, into) =>
      if r.pending == None || r.landed.Some? then r
      else r.(landed := Some(into),
              performed := if into == IntoSuspended then r.performed else r.performed + [r.pending.value])
  }

  lemma ReplayedAppend(trace: seq<Event>, e: Event)
    ensures Replayed(trace + [e]) == Advance(Replayed(trace), e)
  {
    assert (trace + [e])[..|trace|] == trace;
  }

  /** The actions among the losses that were overwritten in the slot, in order. */
  function Overwrites(lost: seq<Loss>): seq<Action> {
    if lost == [] then []
    else Overwrites(lost[..|lost|-1]) + (if lost[|lost|-1].Overwritten? then [lost[|lost|-1].action] else [])
  }

  lemma OverwritesAppend(lost: seq<Loss>, l: Loss)
    ensures Overwrites(lost + [l]) == Overwrites(lost) + (if l.Overwritten? then [l.action] else [])
  {
    assert (lost + [l])[..|lost|] == lost;
  }

  lemma {:induction false} OverwritesSkipNoRooms(lost: seq<Loss>, cs: seq<Coro>)
    ensures Overwrites(lost + NoRooms(cs)) == Overwrites(lost)
  {
    if cs == [] {
      assert lost + NoRooms(cs) == lost;
    } else {
      var most := cs[..|cs|-1];
      OverwritesSkipNoRooms(lost, most);
      assert lost + NoRooms(cs) == (lost + NoRooms(most)) + [NoRoom(cs[|cs|-1])];
      OverwritesAppend(lost + NoRooms(most), NoRoom(cs[|cs|-1]));
    }
  }

  function LastSwitch(trace: seq<Event>): Option<Event> {
    if trace == [] then None
    else if trace[|trace|-1].Switched? then Some(trace[|trace|-1])
    else LastSwitch(trace[..|trace|-1])
  }

  /** The action whose callback is about to be run. */
  function BeingDrained(s: Sched): seq<Action> {
    if (s.phase == Entry || s.phase == Returned) && s.slot.Some? then [s.slot.value] else []
  }

  /** The worker stands at a yield or finish it has not switched away from. */
  predicate Leaving(s: Sched) {
    s.phase == Yielding || (s.phase == Loop && s.current.Of?)
  }

  predicate SlotIsReplayed(s: Sched, r: Replay) {
    s.slot ==
      if r.pending == None || r.landed == None || r.landed == Some(IntoSuspended) then r.pending
      else if s.phase == (if r.landed == Some(IntoFresh) then Entry else Returned) then r.pending
      else None
  }

  ghost predicate Told(s: Sched) {
    var r := Replayed(s.trace);
    && Overwrites(s.lost) == r.overwritten
    && s.done + BeingDrained(s) == r.performed
    && SlotIsReplayed(s, r)
    && (Leaving(s) <==> r.pending.Some? && r.landed == None)
    && (r.pending == None ==> r.landed == None)
    && (r.landed == Some(IntoSuspended) ==> s.phase == User)
    && (r.landed == Some(IntoFresh) ==> s.phase == Entry || s.phase == User)
    && (s.phase == Entry ==> LastSwitch(s.trace).Some? && LastSwitch(s.trace).value.into == IntoFresh)
    && (s.phase == User ==>
          (r.landed == Some(IntoSuspended) <==> LastSwitch(s.trace) == Some(Switched(false, IntoSuspended))))
  }

  /** What storing into the slot does to it, its histories and the trace. */
  ghost predicate FillTraced(s: Sched, s': Sched) {
    && s'.slot.Some? && s'.trace == s.trace + [Filled(s'.slot.value)]
    && s'.current == s.current && (s'.phase == Yielding || s'.phase == Loop)
    && s'.done == s.done
    && s'.lost == if s.slot.Some? then s.lost + [Overwritten(s.slot.value)] else s.lost
  }

  lemma FillTells(s: Sched, s': Sched)
    requires s.phase == User && s.current.Of? && Told(s) && FillTraced(s, s')
    ensures Told(s')
  {
    ReplayedAppend(s.trace, Filled(s'.slot.value));
    if s.slot.Some? {
      OverwritesAppend(s.lost, Overwritten(s.slot.value));
    }
  }

  /** What a dispatch does to the slot, its histories and the trace. */
  ghost predicate SwitchTraced(s: Sched, s': Sched) {
    && s'.slot == s.slot && s'.done == s.done && Overwrites(s'.lost) == Overwrites(s.lost)
    && (if s'.phase == Loop then s'.trace == s.trace && s'.current == s.current && s.phase == Loop
        else
          && (s'.phase == Entry || s'.phase == User || s'.phase == Returned)
          && (s'.phase == Returned ==> s.current.Of?)
          && s'.trace == s.trace + [Switched(s.current.MainStack?, LandingOf(s'.phase))])
  }

  lemma DispatchTraced(s: Sched, s': Sched)
    requires s.cfg.Usable() && WorkerOk(s) && (s.phase == Loop || s.phase == Yielding)
    requires SwitchEffect(s, s')
    ensures SwitchTraced(s, s')
  {
    OverwritesSkipNoRooms(s.lost, Take(s.cfg, s.local, s.global).lost);
  }

  lemma SwitchTells(s: Sched, s': Sched)
    requires WorkerOk(s) && Told(s) && (s.phase == Loop || s.phase == Yielding)
    requires SwitchTraced(s, s')
    ensures Told(s')
  {
    if s'.phase != Loop {
      ReplayedAppend(s.trace, Switched(s.current.MainStack?, LandingOf(s'.phase)));
    }
  }

  /** What draining does to the slot and its histories. */
  ghost predicate DrainTraced(s: Sched, s': Sched) {
    && s'.slot == None && s'.current == s.current && s'.trace == s.trace
    && s'.done == s.done + BeingDrained(s) && Overwrites(s'.lost) == Overwrites(s.lost)
    && s'.phase == if s.phase == Entry then User else Loop
  }

  lemma DrainIsTraced(s: Sched)
    requires WorkerOk(s) && Published(s) && (s.phase == Entry || s.phase == Returned)
    ensures DrainTraced(s, DrainAndGoOn(s))
  {
    DrainEffect(s);
    if s.slot.Some? && s.slot.value.Arm? && s.slot.value.fd in s.armed {
      OverwritesAppend(s.lost, FdBusy(s.slot.value));
    }
  }

  lemma DrainTells(s: Sched, s': Sched)
    requires WorkerOk(s) && Told(s) && (s.phase == Entry || s.phase == Returned)
    requires DrainTraced(s, s')
    ensures Told(s')
  {
  }

  lemma StepTells(s: Sched, step: Step)
    requires Inv(s) && Told(s) && Enabled(s, step)
    ensures Told(Apply(s, step))
  {
    match step
    case UserYield => FillTells(s, Apply(s, step));
    case UserPark(_) => FillTells(s, Apply(s, step));
    case UserReturn => FillTells(s, Apply(s, step));
    case SwitchAway =>
      DispatchEffect(s);
      DispatchTraced(s, Dispatch(s));
      SwitchTells(s, Dispatch(s));
    case Drain =>
      DrainIsTraced(s);
      DrainTells(s, DrainAndGoOn(s));
    case _ =>
  }

  lemma {:induction false} RunsTell(cfg: Config, steps: seq<Step>)
    requires cfg.Usable()
    ensures Inv(After(Boot(cfg), steps)) && Told(After(Boot(cfg), steps))
  {
    BootIsFine(cfg);
    RunsKeep(Boot(cfg), steps);
    if steps != [] {
      RunsTell(cfg, steps[..|steps|-1]);
      var before := After(Boot(cfg), steps[..|steps|-1]);
      if Enabled(before, steps[|steps|-1]) {
        StepTells(before, steps[|steps|-1]);
      }
    }
  }

  /**
    * In every run the deferred actions that were performed, and those that were overwritten, are
    * in order exactly the ones the switches decide.
    */
  lemma {:induction false} FatesFollowTheSwitches(cfg: Config, steps: seq<Step>)
    requires cfg.Usable()
    ensures var s := After(Boot(cfg), steps);
            && Overwrites(s.lost) == Replayed(s.trace).overwritten
            && s.done + BeingDrained(s) == Replayed(s.trace).performed
  {
    RunsTell(cfg, steps);
  }

  /**
    * While a coroutine runs user code, the slot is full exactly when the last switch went from a
    * coroutine's stack into a suspended coroutine.
    */
  lemma {:induction false} SlotFullIffResumedByCoroutine(cfg: Config, steps: seq<Step>)
    requires cfg.Usable() && After(Boot(cfg), steps).phase == User
    ensures var s := After(Boot(cfg), steps);
            s.slot.Some? <==> LastSwitch(s.trace) == Some(Switched(false, IntoSuspended))
  {
    RunsTell(cfg, steps);
  }

  predicate Fills(step: Step) {
    step.UserYield? || step.UserPark? || step.UserReturn?
  }

  /**
    * The situations in which a step loses a coroutine: a yield or a finish in a coroutine that was resumed
    * from another coroutine's stack, arming a descriptor already watched, and refilling an empty
    * local queue with more tasks than it holds.
    */
  predicate Loses(s: Sched, step: Step) {
    || (Fills(step) && LastSwitch(s.trace) == Some(Switched(false, IntoSuspended)))
    || (step.Drain? && s.slot.Some? && s.slot.value.Arm? && s.slot.value.fd in s.armed)
    || (step.SwitchAway? && s.local == [] && s.cfg.capacity < Min(s.cfg.batch, |s.global|))
  }

  /** In every run the next step loses a coroutine iff it is in one of these situations. */
  lemma {:induction false} StepLosesIff(cfg: Config, steps: seq<Step>, step: Step)
    requires cfg.Usable() && Enabled(After(Boot(cfg), steps), step)
    ensures var s := After(Boot(cfg), steps);
            Apply(s, step).lost != s.lost <==> Loses(s, step)
  {
    var s := After(Boot(cfg), steps);
    LossesOfStep(s, step);
    if Fills(step) {
      SlotFullIffResumedByCoroutine(cfg, steps);
    }
  }

  ghost predicate LosesAt(cfg: Config, steps: seq<Step>, k: nat)
    requires cfg.Usable() && k < |steps|
  {
    var s := After(Boot(cfg), steps[..k]);
    Enabled(s, steps[k]) && Loses(s, steps[k])
  }

  /** A whole run loses no coroutine iff none of its steps is in one of these situations. */
  lemma {:induction false} RunLosesNothingIff(cfg: Config, steps: seq<Step>)
    requires cfg.Usable()
    ensures After(Boot(cfg), steps).lost == [] <==> forall k: nat :: k < |steps| ==> !LosesAt(cfg, steps, k)
  {
    if steps != [] {
      var n := |steps| - 1;
      var most, s := steps[..n], After(Boot(cfg), steps[..n]);
      RunLosesNothingIff(cfg, most);
      forall k: nat | k < n
        ensures LosesAt(cfg, most, k) <==> LosesAt(cfg, steps, k)
      {
        assert most[..k] == steps[..k];
      }
      if Enabled(s, steps[n]) {
        StepLosesIff(cfg, most, steps[n]);
        LossesOfStep(s, steps[n]);
      }
      assert LosesAt(cfg, steps, n) <==> Enabled(s, steps[n]) && Loses(s, steps[n]);
    }
  }

  // ---------------------------------------------------------------- every deferred action has one fate

  function Stored(trace: seq<Event>): seq<Action> {
    if trace == [] then []
    else Stored(trace[..|trace|-1]) + (if trace[|trace|-1].Filled? then [trace[|trace|-1].action] else [])
  }

  function Count(s: seq<Action>, a: Action): nat {
    if s == [] then 0 else Count(s[..|s|-1], a) + (if s[|s|-1] == a then 1 else 0)
  }

  function FatesOf(r: Replay, a: Action): nat {
    Count(r.performed, a) + Count(r.overwritten, a) + Count(Waiting(r), a)
  }

  lemma {:induction false} CountSum(s: seq<Action>, t: seq<Action>, a: Action)
    ensures Count(s + t, a) == Count(s, a) + Count(t, a)
  {
    if t == [] {
      assert s + t == s;
    } else {
      assert (s + t)[..|s + t|-1] == s + t[..|t|-1];
      CountSum(s, t[..|t|-1], a);
    }
  }

  lemma AdvanceConserves(r: Replay, e: Event, a: Action)
    requires r.pending == None ==> r.landed == None
    ensures FatesOf(Advance(r, e), a) == FatesOf(r, a) + (if e == Filled(a) then 1 else 0)
  {
    match e
    case Filled(_) => CountSum(r.overwritten, Waiting(r), a);
    case Switched(_, _) => CountSum(r.performed, Waiting(r), a);
  }

  lemma {:induction false} ReplayConserves(trace: seq<Event>, a: Action)
    ensures Count(Stored(trace), a) == FatesOf(Replayed(trace), a)
    ensures Replayed(trace).pending == None ==> Replayed(trace).landed == None
  {
    if trace != [] {
      ReplayConserves(trace[..|trace|-1], a);
      AdvanceConserves(Replayed(trace[..|trace|-1]), trace[|trace|-1], a);
      CountSum(Stored(trace[..|trace|-1]), if trace[|trace|-1].Filled? then [trace[|trace|-1].action] else [], a);
    }
  }

  /** Every action ever stored in the slot is, exactly once, performed, overwritten or still in the slot. */
  lemma {:induction false} StoredActionsHaveOneFate(cfg: Config, steps: seq<Step>, a: Action)
    requires cfg.Usable()
    ensures var s := After(Boot(cfg), steps);
            Count(Stored(s.trace), a)
            == Count(s.done, a) + Count(Overwrites(s.lost), a) + (if s.slot == Some(a) then 1 else 0)
  {
    RunsTell(cfg, steps);
    var s := After(Boot(cfg), steps);
    ReplayConserves(s.trace, a);
    CountSum(s.done, BeingDrained(s), a);
  }

  // ---------------------------------------------------------------- the loss is real

  lemma AfterOneMore(s: Sched, steps: seq<Step>, step: Step)
    requires s.cfg.Usable()
    ensures After(s, steps + [step]) == Then(After(s, steps), step)
  {
    assert (steps + [step])[..|steps|] == steps;
  }

  /**
    * Two coroutines that only yield, on the default configuration: after three yields the second
    * one is lost.
    */
  lemma TwoYieldersLoseOne() returns (steps: seq<Step>)
    ensures steps == [OutsideStart, OutsideStart, SwitchAway, Drain, UserYield,
                      SwitchAway, Drain, UserYield, SwitchAway, UserYield]
    ensures var s := After(Boot(Config(25, 10)), steps);
            s.lost == [Overwritten(Requeue(1))] && s.status == [Running, Suspended]
  {
    steps := [OutsideStart] + [OutsideStart];
    TwoStarted();
    FirstDispatched(steps);
    steps := steps + [SwitchAway];
    FirstYielded(steps);
    steps := steps + [Drain] + [UserYield] + [SwitchAway];
    FirstRequeued(steps);
    steps := steps + [Drain];
    SecondYielded(steps);
    steps := steps + [UserYield] + [SwitchAway];
    AfterOneMore(Boot(Config(25, 10)), steps, UserYield);
    steps := steps + [UserYield];
  }

  function Then(s: Sched, step: Step): Sched
    requires s.cfg.Usable()
  {
    if Enabled(s, step) then Apply(s, step) else s
  }

  lemma TwoStarted()
    ensures var boot := Boot(Config(25, 10));
            After(boot, [OutsideStart] + [OutsideStart]) == boot.(status := [Fresh, Fresh], global := [0, 1])
  {
    var boot := Boot(Config(25, 10));
    AfterOneMore(boot, [], OutsideStart);
    assert [] + [OutsideStart] == [OutsideStart];
    AfterOneMore(boot, [OutsideStart], OutsideStart);
  }

  lemma FirstDispatched(steps: seq<Step>)
    requires var boot := Boot(Config(25, 10));
             After(boot, steps) == boot.(status := [Fresh, Fresh], global := [0, 1])
    ensures var boot := Boot(Config(25, 10));
            var s := After(boot, steps + [SwitchAway]);
            s == boot.(status := [Running, Fresh], current := Of(0), phase := Entry, local := [1],
                       mainSaved := true, trace := s.trace)
  {
    var boot := Boot(Config(25, 10));
    AfterOneMore(boot, steps, SwitchAway);
    var s := After(boot, steps + [SwitchAway]);
    assert s.local == [1] && s.global == [] && s.lost == [] && s.status == [Running, Fresh];
  }

  lemma FirstYielded(steps: seq<Step>)
    requires var boot := Boot(Config(25, 10));
             var s := After(boot, steps);
             s == boot.(status := [Running, Fresh], current := Of(0), phase := Entry, local := [1],
                        mainSaved := true, trace := s.trace)
    ensures var boot := Boot(Config(25, 10));
            var s := After(boot, steps + [Drain] + [UserYield] + [SwitchAway]);
            s == boot.(status := [Suspended, Running], current := Of(1), phase := Entry, slot := Some(Requeue(0)),
                       mainSaved := true, trace := s.trace)
  {
    var boot := Boot(Config(25, 10));
    AfterOneMore(boot, steps, Drain);
    AfterOneMore(boot, steps + [Drain], UserYield);
    AfterOneMore(boot, steps + [Drain] + [UserYield], SwitchAway);
    var s := After(boot, steps + [Drain] + [UserYield] + [SwitchAway]);
    assert s.local == [] && s.global == [] && s.lost == [] && s.status == [Suspended, Running];
  }

  lemma FirstRequeued(steps: seq<Step>)
    requires var boot := Boot(Config(25, 10));
             var s := After(boot, steps);
             s == boot.(status := [Suspended, Running], current := Of(1), phase := Entry, slot := Some(Requeue(0)),
                        mainSaved := true, trace := s.trace)
    ensures var boot := Boot(Config(25, 10));
            var s := After(boot, steps + [Drain]);
            s == boot.(status := [Suspended, Running], current := Of(1), phase := User, local := [0],
                       mainSaved := true, done := [Requeue(0)], trace := s.trace)
  {
    AfterOneMore(Boot(Config(25, 10)), steps, Drain);
    var s := After(Boot(Config(25, 10)), steps + [Drain]);
    assert s.local == [0] && s.done == [Requeue(0)];
  }

  lemma SecondYielded(steps: seq<Step>)
    requires var boot := Boot(Config(25, 10));
             var s := After(boot, steps);
             s == boot.(status := [Suspended, Running], current := Of(1), phase := User, local := [0],
                        mainSaved := true, done := [Requeue(0)], trace := s.trace)
    ensures var boot := Boot(Config(25, 10));
            var s := After(boot, steps + [UserYield] + [SwitchAway]);
            s == boot.(status := [Running, Suspended], current := Of(0), phase := User, slot := Some(Requeue(1)),
                       mainSaved := true, done := [Requeue(0)], trace := s.trace)
  {
    var boot := Boot(Config(25, 10));
    AfterOneMore(boot, steps, UserYield);
    AfterOneMore(boot, steps + [UserYield], SwitchAway);
    var s := After(boot, steps + [UserYield] + [SwitchAway]);
    assert s.local == [] && s.global == [] && s.lost == [] && s.status == [Running, Suspended];
  }
}
