/** What holds over every run of the one-worker system: safety, the account of losses, lifecycles. */
module SchedulerRuns {
  import opened TaskQueues
  import opened Scheduler

  // ---------------------------------------------------------------- safety

  lemma StepKeeps(s: Sched, step: Step)
    requires Inv(s) && Enabled(s, step)
    ensures Inv(Apply(s, step))
  {
    match step
    case OutsideStart => StartKeeps(s, step);
    case UserStart => StartKeeps(s, step);
    case UserYield => FillKeeps(s, step);
    case UserPark(_) => FillKeeps(s, step);
    case UserReturn => FillKeeps(s, step);
    case SwitchAway => DispatchKeeps(s);
    case Drain => DrainKeeps(s);
    case IoComplete(fd) => IoKeeps(s, fd);
  }

  lemma {:induction false} RunsKeep(s: Sched, steps: seq<Step>)
    requires Inv(s)
    ensures Inv(After(s, steps))
  {
    if steps != [] {
      RunsKeep(s, steps[..|steps|-1]);
      var before := After(s, steps[..|steps|-1]);
      if Enabled(before, steps[|steps|-1]) {
        StepKeeps(before, steps[|steps|-1]);
      }
    }
  }

  lemma BootIsFine(cfg: Config)
    requires cfg.Usable()
    ensures Inv(Boot(cfg))
  {
    forall c: Coro
      ensures Places(Boot(cfg), c) + Losses(Boot(cfg), c) == 0
    {
      assert WatchSet(map[], c) == {};
    }
  }

  /**
    * In no run does the worker jump to a context that is not fresh or saved (the main context
    * included) or to the stack it is on, or free a stack that is unfinished, freed or being executed.
    */
  lemma {:induction false} NeverWild(cfg: Config, steps: seq<Step>)
    requires cfg.Usable()
    ensures After(Boot(cfg), steps).phase != Wild
  {
    BootIsFine(cfg);
    RunsKeep(Boot(cfg), steps);
  }

  /**
    * In every run each coroutine is in at most one of: being executed, the local queue, the global
    * list, the slot, an armed item. It is in exactly one iff it was created, is not freed and is
    * not among the lost.
    */
  lemma {:induction false} AtMostOnePlace(cfg: Config, steps: seq<Step>, c: Coro)
    requires cfg.Usable()
    ensures var s := After(Boot(cfg), steps);
            && Places(s, c) <= 1
            && (Places(s, c) == 1 <==> Alive(s, c) && c !in Losers(s.lost))
  {
    BootIsFine(cfg);
    RunsKeep(Boot(cfg), steps);
    var s := After(Boot(cfg), steps);
    assert Places(s, c) + Losses(s, c) == if Alive(s, c) then 1 else 0;
  }

  /** What is queued or armed in any run can be resumed and is not the stack in use. */
  lemma {:induction false} PublishedCanBeResumed(cfg: Config, steps: seq<Step>, c: Coro)
    requires cfg.Usable()
    ensures var s := After(Boot(cfg), steps);
            c in s.local || c in s.global || c in s.armed.Values ==> Resumable(s, c) && s.current != Of(c)
  {
    BootIsFine(cfg);
    RunsKeep(Boot(cfg), steps);
    var s := After(Boot(cfg), steps);
    if c in s.local || c in s.global {
      QueuedIsResumable(s, c);
      assert Places(s, c) + Losses(s, c) <= 1;
    } else if c in s.armed.Values {
      var f :| f in s.armed && s.armed[f] == c;
      AnArmedCoroIsWatched(s.armed, f);
      assert Places(s, c) + Losses(s, c) <= 1;
    }
  }

  // ---------------------------------------------------------------- lifecycle

  predicate Succeeds(a: Status, b: Status) {
    || a == b
    || (a == Fresh && b == Running)
    || (a == Running && (b == Suspended || b == Finished))
    || (a == Suspended && b == Running)
    || (a == Finished && b == Freed)
  }

  lemma LifecycleOfStep(s: Sched, step: Step, c: Coro)
    requires Inv(s) && Enabled(s, step) && c < |s.status|
    ensures var s' := Apply(s, step);
            && |s.status| <= |s'.status| && Succeeds(StatusOf(s, c), StatusOf(s', c))
            && (StatusOf(s, c) != Freed && StatusOf(s', c) == Freed ==> s.current != Of(c) && s'.current != Of(c))
  {
    if step == SwitchAway {
      DispatchEffect(s);
    } else if step == Drain {
      DrainEffect(s);
    }
  }

  /**
    * In every run each step moves each coroutine along fresh, running, suspended, finished,
    * freed, so a stack is freed at most once and only after its function returned; and when it is
    * freed, another stack is current.
    */
  lemma {:induction false} LifecycleIsFollowed(cfg: Config, steps: seq<Step>, step: Step, c: Coro)
    requires cfg.Usable()
    requires var s := After(Boot(cfg), steps); Enabled(s, step) && c < |s.status|
    ensures var s := After(Boot(cfg), steps);
            var s' := Apply(s, step);
            && Succeeds(StatusOf(s, c), StatusOf(s', c))
            && (StatusOf(s, c) != Freed && StatusOf(s', c) == Freed ==> s.current != Of(c) && s'.current != Of(c))
  {
    BootIsFine(cfg);
    RunsKeep(Boot(cfg), steps);
    LifecycleOfStep(After(Boot(cfg), steps), step, c);
  }

  // ---------------------------------------------------------------- the lost stay lost

  /** What a step adds to the lost. */
  function NewLosses(s: Sched, step: Step): seq<Loss>
    requires s.cfg.Usable()
  {
    match step
    case UserYield => if s.slot.Some? then [Overwritten(s.slot.value)] else []
    case UserPark(_) => if s.slot.Some? then [Overwritten(s.slot.value)] else []
    case UserReturn => if s.slot.Some? then [Overwritten(s.slot.value)] else []
    case SwitchAway => NoRooms(Take(s.cfg, s.local, s.global).lost)
    case Drain =>
      if s.slot.Some? && s.slot.value.Arm? && s.slot.value.fd in s.armed then [FdBusy(s.slot.value)] else []
    case _ => []
  }

  lemma SwitchToLosesNothing(s: Sched, next: Stack)
    ensures SwitchTo(s, next).lost == s.lost && SwitchTo(s, next).armed == s.armed
  {
    assert SaveCurrent(s).lost == s.lost && SaveCurrent(s).armed == s.armed;
  }

  lemma DispatchLosses(s: Sched)
    requires s.cfg.Usable()
    ensures Dispatch(s).lost == s.lost + NewLosses(s, SwitchAway) && Dispatch(s).armed == s.armed
  {
    var (task, s1) := GetTask(s);
    SwitchToLosesNothing(s1, if task.Some? then Of(task.value) else MainStack);
  }

  lemma DrainLosses(s: Sched)
    requires s.cfg.Usable()
    ensures DrainAndGoOn(s).lost == s.lost + NewLosses(s, Drain)
  {
  }

  lemma LossesOfStep(s: Sched, step: Step)
    requires s.cfg.Usable() && Enabled(s, step)
    ensures Apply(s, step).lost == s.lost + NewLosses(s, step)
  {
    match step
    case SwitchAway => DispatchLosses(s);
    case Drain => DrainLosses(s);
    case _ =>
  }

  lemma {:induction false} RunsKeepLost(s: Sched, steps: seq<Step>)
    requires s.cfg.Usable()
    ensures s.lost <= After(s, steps).lost
  {
    if steps != [] {
      RunsKeepLost(s, steps[..|steps|-1]);
      var before := After(s, steps[..|steps|-1]);
      if Enabled(before, steps[|steps|-1]) {
        LossesOfStep(before, steps[|steps|-1]);
      }
    }
  }

  /** A coroutine that was lost is never executed, queued, armed or freed again, however the run goes on. */
  lemma {:induction false} LostForever(cfg: Config, steps: seq<Step>, more: seq<Step>, c: Coro)
    requires cfg.Usable() && c in Losers(After(Boot(cfg), steps).lost)
    ensures var s := After(After(Boot(cfg), steps), more);
            Places(s, c) == 0 && StatusOf(s, c) != Freed
  {
    BootIsFine(cfg);
    RunsKeep(Boot(cfg), steps);
    var s := After(Boot(cfg), steps);
    RunsKeep(s, more);
    RunsKeepLost(s, more);
    var s' := After(s, more);
    var i :| 0 <= i < |s.lost| && Loser(s.lost[i]) == c;
    assert Losers(s'.lost)[i] == c;
    assert Places(s', c) + Losses(s', c) == if Alive(s', c) then 1 else 0;
  }
}
