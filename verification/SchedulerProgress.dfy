/**
  * What the steps of the scheduler do over time: its two queues are a run of the two-level task queue, a
  * delayed action takes effect at the next drain, and who can run again.
  */
module SchedulerProgress {
  import opened Options
  import opened Scheduler
  import opened SchedulerRuns
  import opened SchedulerLosses
  import T = TaskQueues

  type Coro = T.Coro

  type Config = T.Config

  // ---------------------------------------------------------------- the queues

  /** What a step means to the queues. */
  function QueueOps(s: Sched, step: Step): seq<T.Op>
    requires Enabled(s, step)
  {
    match step
    case OutsideStart => [T.Outside(|s.status|)]
    case UserStart => [T.Push(0, |s.status|)]
    case SwitchAway => [T.Get(0)]
    case Drain => if s.slot.Some? && s.slot.value.Requeue? then [T.Push(0, s.slot.value.coro)] else []
    case IoComplete(fd) => [T.Outside(s.armed[fd])]
    case _ => []
  }

  function History(cfg: Config, steps: seq<Step>): seq<T.Op>
    requires cfg.Usable()
  {
    if steps == [] then []
    else
      var before, step := After(Boot(cfg), steps[..|steps|-1]), steps[|steps|-1];
      History(cfg, steps[..|steps|-1]) + (if Enabled(before, step) then QueueOps(before, step) else [])
  }

  /** The coroutine that a step switches to. */
  function Entered(step: Step, s': Sched): seq<(nat, Coro)> {
    if step == SwitchAway && s'.current.Of? && (s'.phase == Entry || s'.phase == User) then [(0, s'.current.coro)] else []
  }

  /** The coroutines that the worker switched to, in order. */
  function SwitchedTo(cfg: Config, steps: seq<Step>): seq<(nat, Coro)>
    requires cfg.Usable()
  {
    if steps == [] then []
    else
      var before, step := After(Boot(cfg), steps[..|steps|-1]), steps[|steps|-1];
      SwitchedTo(cfg, steps[..|steps|-1])
      + (if Enabled(before, step) then Entered(step, Apply(before, step)) else [])
  }

  /** The coroutines for which a refill had no room. */
  function Unrefilled(lost: seq<Loss>): seq<Coro> {
    if lost == [] then []
    else Unrefilled(lost[..|lost|-1]) + (if lost[|lost|-1].NoRoom? then [lost[|lost|-1].coro] else [])
  }

  lemma UnrefilledOneMore(lost: seq<Loss>, l: Loss)
    ensures Unrefilled(lost + [l]) == Unrefilled(lost) + (if l.NoRoom? then [l.coro] else [])
  {
    assert (lost + [l])[..|lost|] == lost;
  }

  lemma {:induction false} UnrefilledMore(lost: seq<Loss>, cs: seq<Coro>)
    ensures Unrefilled(lost + NoRooms(cs)) == Unrefilled(lost) + cs
  {
    if cs == [] {
      assert lost + NoRooms(cs) == lost;
    } else {
      var most, c := cs[..|cs|-1], cs[|cs|-1];
      UnrefilledMore(lost, most);
      assert lost + NoRooms(cs) == (lost + NoRooms(most)) + [NoRoom(c)];
      UnrefilledOneMore(lost + NoRooms(most), NoRoom(c));
    }
  }

  lemma UnrefilledByStep(s: Sched, step: Step)
    requires s.cfg.Usable() && Enabled(s, step)
    ensures Unrefilled(Apply(s, step).lost) ==
              Unrefilled(s.lost) + (if step == SwitchAway then T.Take(s.cfg, s.local, s.global).lost else [])
  {
    LossesOfStep(s, step);
    var more := NewLosses(s, step);
    if step == SwitchAway {
      UnrefilledMore(s.lost, T.Take(s.cfg, s.local, s.global).lost);
    } else if more == [] {
      assert s.lost + more == s.lost;
    } else {
      UnrefilledOneMore(s.lost, more[0]);
    }
  }

  /** The hub that a scheduler state shows. */
  function HubOf(s: Sched, switched: seq<(nat, Coro)>): T.Hub {
    T.Hub([s.local], s.global, switched, Unrefilled(s.lost))
  }

  function RunOps(cfg: Config, h: T.Hub, ops: seq<T.Op>): T.Hub
    requires cfg.Usable() && |ops| <= 1
  {
    if ops == [] then h else T.Step(cfg, h, ops[0])
  }

  lemma SwitchOnQueues(s: Sched, switched: seq<(nat, Coro)>)
    requires Inv(s) && Enabled(s, SwitchAway)
    ensures var s' := Apply(s, SwitchAway);
            T.Step(s.cfg, HubOf(s, switched), T.Get(0)) == HubOf(s', switched + Entered(SwitchAway, s'))
  {
    DispatchEffect(s);
    UnrefilledByStep(s, SwitchAway);
  }

  lemma StepOnQueues(s: Sched, step: Step, switched: seq<(nat, Coro)>)
    requires Inv(s) && Enabled(s, step)
    ensures |QueueOps(s, step)| <= 1
    ensures var s' := Apply(s, step);
            RunOps(s.cfg, HubOf(s, switched), QueueOps(s, step)) == HubOf(s', switched + Entered(step, s'))
  {
    assert switched + [] == switched;
    if step == SwitchAway {
      SwitchOnQueues(s, switched);
    } else {
      UnrefilledByStep(s, step);
      if step == Drain {
        DrainEffect(s);
      }
    }
  }

  /**
    * In every run the worker's two queues, the coroutines it switched to and those a refill dropped are
    * those of the two-level task queue: outsiders and completed operations push on the global list,
    * starting and requeueing on the worker's own queue, and each switch goes to what `get_task` gives.
    */
  lemma {:induction false} QueuesAreTwoLevels(cfg: Config, steps: seq<Step>)
    requires cfg.Usable()
    ensures T.Run(cfg, T.Idle(1), History(cfg, steps)) == HubOf(After(Boot(cfg), steps), SwitchedTo(cfg, steps))
  {
    if steps == [] {
      assert T.Idle(1).locals == [[]];
    } else {
      var most, step := steps[..|steps|-1], steps[|steps|-1];
      QueuesAreTwoLevels(cfg, most);
      var s := After(Boot(cfg), most);
      BootIsFine(cfg);
      RunsKeep(Boot(cfg), most);
      if Enabled(s, step) {
        StepOnQueues(s, step, SwitchedTo(cfg, most));
        var ops := QueueOps(s, step);
        if ops == [] {
          assert History(cfg, steps) == History(cfg, most);
        } else {
          assert History(cfg, steps)[..|History(cfg, most)|] == History(cfg, most);
        }
      } else {
        assert History(cfg, steps) == History(cfg, most);
        assert SwitchedTo(cfg, steps) == SwitchedTo(cfg, most);
      }
    }
  }

  /**
    * In every run a coroutine in user code can start another one: it is new and fresh, and is the last of
    * the worker's own queue, or of the global list if that queue is full; the starter runs on.
    */
  lemma StartedIsQueued(cfg: Config, steps: seq<Step>)
    requires cfg.Usable() && After(Boot(cfg), steps).phase == User
    ensures var s := After(Boot(cfg), steps);
            var c: Coro := |s.status|;
            && Enabled(s, UserStart)
            && var t := Apply(s, UserStart);
            && StatusOf(t, c) == Fresh && |t.status| == c + 1 && t.current == s.current && t.phase == User
            && t.slot == s.slot
            && (if |s.local| < cfg.capacity then t.local == s.local + [c] && t.global == s.global
                else t.local == s.local && t.global == s.global + [c])
  {
    BootIsFine(cfg);
    RunsKeep(Boot(cfg), steps);
  }

  // ---------------------------------------------------------------- a delayed action takes effect

  /** A step of another thread. */
  predicate Outer(step: Step) {
    step.OutsideStart? || step.IoComplete?
  }

  lemma {:induction false} OthersLeaveTheWorker(s: Sched, env: seq<Step>)
    requires Inv(s) && forall i :: 0 <= i < |env| ==> Outer(env[i])
    ensures var t := After(s, env);
            && Inv(t) && t.slot == s.slot && t.phase == s.phase && t.current == s.current
  {
    RunsKeep(s, env);
    if env != [] {
      OthersLeaveTheWorker(s, env[..|env|-1]);
    }
  }

  /** What a yield, parking or finish of `c` should have done once its delayed action has run in `t`. */
  predicate TookEffect(step: Step, c: Coro, t: Sched, t': Sched)
    requires Fills(step)
  {
    match step
    case UserYield =>
      if |t.local| < t.cfg.capacity then t'.local == t.local + [c] && t'.global == t.global
      else t'.local == t.local && t'.global == t.global + [c]
    case UserPark(fd) => t'.armed == if fd in t.armed then t.armed else t.armed[fd := c]
    case UserReturn => StatusOf(t', c) == Freed
  }

  /** Draining in `t` takes the effect; or there is no drain in `t`, and the action is still in the slot. */
  predicate EffectOrSlot(step: Step, c: Coro, t: Sched)
    requires Fills(step) && t.cfg.Usable()
  {
    if t.phase == Entry || t.phase == Returned then Enabled(t, Drain) && TookEffect(step, c, t, Apply(t, Drain))
    else (t.phase == User || t.phase == Loop) && t.slot.Some? && t.slot.value.coro == c
  }

  /**
    * In every run and around any steps of other threads: a coroutine in user code can yield, park or finish,
    * and the worker can then switch away. If that leads to a drain, the coroutine is queued again,
    * its descriptor is armed for it unless taken, or its stack is freed; if not, the worker is in
    * `main_loop` without a task or in a resumed coroutine, and the action still waits in the slot.
    */
  lemma DelayedActionTakesEffect(cfg: Config, steps: seq<Step>, step: Step, env: seq<Step>, env': seq<Step>)
    requires cfg.Usable() && Fills(step) && After(Boot(cfg), steps).phase == User
    requires forall i :: 0 <= i < |env| ==> Outer(env[i])
    requires forall i :: 0 <= i < |env'| ==> Outer(env'[i])
    ensures var s := After(Boot(cfg), steps);
            && s.current.Of? && Enabled(s, step)
            && var left := After(Apply(s, step), env);
            && Enabled(left, SwitchAway)
            && EffectOrSlot(step, s.current.coro, After(Apply(left, SwitchAway), env'))
  {
    var s := After(Boot(cfg), steps);
    BootIsFine(cfg);
    RunsKeep(Boot(cfg), steps);
    StoreThenSwitch(s, step);
    OthersLeaveTheWorker(Apply(s, step), env);
    SwitchThenDrain(After(Apply(s, step), env), step, s.current.coro, env');
  }

  lemma SwitchThenDrain(s: Sched, step: Step, c: Coro, env: seq<Step>)
    requires Inv(s) && Enabled(s, SwitchAway) && Fills(step) && s.slot == Some(ActionOf(step, c))
    requires forall i :: 0 <= i < |env| ==> Outer(env[i])
    ensures EffectOrSlot(step, c, After(Apply(s, SwitchAway), env))
  {
    SwitchKeepsSlot(s);
    OthersLeaveTheWorker(Apply(s, SwitchAway), env);
    var t := After(Apply(s, SwitchAway), env);
    if t.phase == Entry || t.phase == Returned {
      DrainTakesEffect(t, step, c);
    }
  }

  function ActionOf(step: Step, c: Coro): Action
    requires Fills(step)
  {
    match step
    case UserYield => Requeue(c)
    case UserPark(fd) => Arm(c, fd)
    case UserReturn => Destroy(c)
  }

  lemma StoreThenSwitch(s: Sched, step: Step)
    requires Inv(s) && s.phase == User && Fills(step)
    ensures s.current.Of? && Enabled(s, step)
    ensures var t := Apply(s, step);
            Inv(t) && Enabled(t, SwitchAway) && t.slot == Some(ActionOf(step, s.current.coro))
  {
    StepKeeps(s, step);
  }

  lemma SwitchKeepsSlot(s: Sched)
    requires Inv(s) && Enabled(s, SwitchAway)
    ensures var t := Apply(s, SwitchAway);
            Inv(t) && t.slot == s.slot && t.phase != Yielding
  {
    StepKeeps(s, SwitchAway);
    DispatchEffect(s);
  }

  lemma DrainTakesEffect(t: Sched, step: Step, c: Coro)
    requires Inv(t) && (t.phase == Entry || t.phase == Returned)
    requires Fills(step) && t.slot == Some(ActionOf(step, c))
    ensures Enabled(t, Drain) && TookEffect(step, c, t, Apply(t, Drain))
  {
    DrainEffect(t);
  }

  // ---------------------------------------------------------------- who can run again

  predicate IsQueued(s: Sched, c: Coro) {
    c in s.local || c in s.global
  }

  /** Every refill takes something and has room for it. */
  ghost predicate Lossless(cfg: Config) {
    0 < cfg.batch <= cfg.capacity
  }

  ghost predicate Runs(s: Sched, more: seq<Step>, c: Coro)
    requires s.cfg.Usable()
  {
    After(s, more).current == Of(c)
  }

  lemma {:induction false} AfterJoined(s: Sched, a: seq<Step>, b: seq<Step>)
    requires s.cfg.Usable()
    ensures After(s, a + b) == After(After(s, a), b)
  {
    if b == [] {
      assert a + b == a;
    } else {
      assert (a + b)[..|a + b|-1] == a + b[..|b|-1];
      AfterJoined(s, a, b[..|b|-1]);
    }
  }

  lemma AfterSingle(s: Sched, step: Step)
    requires s.cfg.Usable()
    ensures After(s, [step]) == if Enabled(s, step) then Apply(s, step) else s
  {
    assert [step][..0] == [];
    assert After(s, []) == s;
  }

  /** A switch goes to the first of local queue and global list, and leaves the others in their order. */
  lemma SwitchTakesTheFirst(s: Sched)
    requires Inv(s) && Lossless(s.cfg) && Enabled(s, SwitchAway) && s.local + s.global != []
    ensures var t := Apply(s, SwitchAway);
            && Inv(t) && t.cfg == s.cfg && t.current == Of((s.local + s.global)[0])
            && (t.phase == Entry || t.phase == User) && t.slot == s.slot
            && t.local + t.global == (s.local + s.global)[1..]
  {
    StepKeeps(s, SwitchAway);
    DispatchEffect(s);
    TakeTakesTheFirst(s.cfg, s.local, s.global);
  }

  lemma TakeTakesTheFirst(cfg: Config, local: seq<Coro>, global: seq<Coro>)
    requires cfg.Usable() && Lossless(cfg) && local + global != []
    ensures var t := T.Take(cfg, local, global);
            t.task == Some((local + global)[0]) && t.local + t.global == (local + global)[1..]
  {
    T.GetKeepsOrder(cfg, local, global);
    T.NullIffNothingToTake(cfg, local, global);
    var t := T.Take(cfg, local, global);
    assert [t.task.value] + t.local + t.global == [t.task.value] + (t.local + t.global);
  }

  /** From user code the worker gets to `main_loop` by finishing the coroutine. */
  lemma UserToLoop(s: Sched)
    requires Inv(s) && s.phase == User
    ensures Enabled(s, UserReturn)
    ensures var t := Apply(s, UserReturn);
            Inv(t) && t.phase == Loop && t.cfg == s.cfg && t.local == s.local && t.global == s.global
  {
    StepKeeps(s, UserReturn);
  }

  /** From entry or `main_loop`'s drain the worker gets on to `main_loop` or user code, forgetting no one queued. */
  lemma DrainKeepsQueued(s: Sched)
    requires Inv(s) && (s.phase == Entry || s.phase == Returned)
    ensures Enabled(s, Drain)
    ensures var t := Apply(s, Drain);
            && Inv(t) && t.cfg == s.cfg && t.phase == (if s.phase == Entry then User else Loop)
            && s.local <= t.local && s.global <= t.global
            && (s.slot == None || !s.slot.value.Requeue? ==> t.local == s.local && t.global == s.global)
  {
    StepKeeps(s, Drain);
    DrainEffect(s);
  }

  /** From `main_loop`, whoever is at place `k` of local queue and global list can be reached by finishing all before it. */
  lemma {:induction false} ReachFromLoop(s: Sched, k: nat) returns (more: seq<Step>)
    requires Inv(s) && Lossless(s.cfg) && s.phase == Loop && k < |s.local + s.global|
    ensures Runs(s, more, (s.local + s.global)[k])
    decreases k
  {
    SwitchTakesTheFirst(s);
    more := [SwitchAway];
    AfterSingle(s, SwitchAway);
    if k > 0 {
      var t := Apply(s, SwitchAway);
      var on := FinishFrom(t, false);
      AfterJoined(s, more, on);
      var t' := After(t, on);
      assert t'.local + t'.global == (s.local + s.global)[1..];
      var rest := ReachFromLoop(t', k - 1);
      AfterJoined(s, more + on, rest);
      more := more + on + rest;
    }
  }

  /** From a coroutine's entry or user code to `main_loop`. */
  lemma FinishFrom(s: Sched, requeued: bool) returns (on: seq<Step>)
    requires Inv(s) && (s.phase == Entry || s.phase == User)
    requires !requeued ==> s.slot == None || !s.slot.value.Requeue?
    ensures var t := After(s, on);
            && Inv(t) && t.phase == Loop && t.cfg == s.cfg && s.local <= t.local && s.global <= t.global
            && (!requeued ==> t.local == s.local && t.global == s.global)
  {
    on := [];
    var u := s;
    if s.phase == Entry {
      DrainKeepsQueued(s);
      AfterSingle(s, Drain);
      on, u := [Drain], Apply(s, Drain);
    }
    UserToLoop(u);
    AfterSingle(u, UserReturn);
    AfterJoined(s, on, [UserReturn]);
    on := on + [UserReturn];
  }

  /** From any state the worker gets to `main_loop` with `c` still queued, unless it gets to `c` on the way. */
  lemma ToLoop(s: Sched, c: Coro) returns (on: seq<Step>)
    requires Inv(s) && Lossless(s.cfg) && IsQueued(s, c)
    ensures var t := After(s, on);
            Inv(t) && t.cfg == s.cfg && (t.current == Of(c) || (t.phase == Loop && IsQueued(t, c)))
  {
    match s.phase
    case Loop => on := [];
    case User => on := FinishFrom(s, true);
    case Entry => on := FinishFrom(s, true);
    case Returned =>
      DrainKeepsQueued(s);
      AfterSingle(s, Drain);
      on := [Drain];
    case Yielding =>
      assert c in s.local + s.global;
      SwitchTakesTheFirst(s);
      AfterSingle(s, SwitchAway);
      on := [SwitchAway];
      var t := Apply(s, SwitchAway);
      if t.current != Of(c) {
        assert c in t.local + t.global;
        var rest := FinishFrom(t, true);
        AfterJoined(s, on, rest);
        on := on + rest;
      }
  }

  lemma QueuedCanRun(s: Sched, c: Coro) returns (more: seq<Step>)
    requires Inv(s) && Lossless(s.cfg) && IsQueued(s, c)
    ensures Runs(s, more, c)
  {
    more := ToLoop(s, c);
    var t := After(s, more);
    if t.current != Of(c) {
      assert c in t.local + t.global;
      var k :| 0 <= k < |t.local + t.global| && (t.local + t.global)[k] == c;
      var rest := ReachFromLoop(t, k);
      AfterJoined(s, more, rest);
      more := more + rest;
    }
  }

  lemma ArmedCanRun(s: Sched, fd: Fd) returns (more: seq<Step>)
    requires Inv(s) && Lossless(s.cfg) && fd in s.armed
    ensures Runs(s, more, s.armed[fd])
  {
    StepKeeps(s, IoComplete(fd));
    AfterSingle(s, IoComplete(fd));
    var t := Apply(s, IoComplete(fd));
    assert t.global[|t.global|-1] == s.armed[fd];
    var rest := QueuedCanRun(t, s.armed[fd]);
    AfterJoined(s, [IoComplete(fd)], rest);
    more := [IoComplete(fd)] + rest;
  }

  /** Lost, freed, or in the slot while another coroutine runs user code. */
  ghost predicate Doomed(s: Sched, c: Coro) {
    && c < |s.status|
    && (|| c in Losers(s.lost)
        || StatusOf(s, c) == Freed
        || (s.phase == User && s.slot.Some? && s.slot.value.coro == c && s.current != Of(c)))
  }

  lemma LosersKept(lost: seq<Loss>, more: seq<Loss>, c: Coro)
    requires c in Losers(lost) || (more != [] && Loser(more[0]) == c)
    ensures c in Losers(lost + more)
  {
    var all := Losers(lost + more);
    if c in Losers(lost) {
      var i :| 0 <= i < |lost| && Losers(lost)[i] == c;
      assert all[i] == c;
    } else {
      assert all[|lost|] == c;
    }
  }

  lemma StepKeepsDoomed(s: Sched, step: Step, c: Coro)
    requires Inv(s) && Enabled(s, step) && Doomed(s, c)
    ensures Doomed(Apply(s, step), c)
  {
    LifecycleOfStep(s, step, c);
    if c in Losers(s.lost) || (StatusOf(s, c) != Freed && Fills(step)) {
      LossesOfStep(s, step);
      LosersKept(s.lost, NewLosses(s, step), c);
    }
  }

  lemma DoomedIsNotCurrent(s: Sched, c: Coro)
    requires Inv(s) && Doomed(s, c)
    ensures s.current != Of(c)
  {
    assert Places(s, c) + Losses(s, c) == if Alive(s, c) then 1 else 0;
  }

  lemma {:induction false} DoomedNeverRuns(s: Sched, more: seq<Step>, c: Coro)
    requires Inv(s) && Doomed(s, c)
    ensures Inv(After(s, more)) && Doomed(After(s, more), c) && !Runs(s, more, c)
  {
    if more != [] {
      DoomedNeverRuns(s, more[..|more|-1], c);
      var before := After(s, more[..|more|-1]);
      if Enabled(before, more[|more|-1]) {
        StepKeeps(before, more[|more|-1]);
        StepKeepsDoomed(before, more[|more|-1], c);
      }
    }
    DoomedIsNotCurrent(After(s, more), c);
  }

  lemma NowhereIsDoomed(s: Sched, c: Coro)
    requires Inv(s) && s.phase == User && c < |s.status| && s.current != Of(c)
    requires !IsQueued(s, c) && c !in s.armed.Values
    ensures Doomed(s, c)
  {
    assert WatchSet(s.armed, c) == {};
    assert Places(s, c) + Losses(s, c) == if Alive(s, c) then 1 else 0;
  }

  /**
    * Whenever a coroutine runs user code, another one that was created can ever run again iff it is in the
    * local queue, in the global list or armed. In particular one whose yield or parking is still in
    * the slot at that moment is as good as lost, although nothing has overwritten it yet. (Refills
    * must have room, and take something.)
    */
  lemma CanRunAgainIff(cfg: Config, steps: seq<Step>, c: Coro)
    requires cfg.Usable() && Lossless(cfg)
    requires var s := After(Boot(cfg), steps); s.phase == User && c < |s.status| && s.current != Of(c)
    ensures var s := After(Boot(cfg), steps);
            (exists more: seq<Step> :: Runs(s, more, c)) <==> IsQueued(s, c) || c in s.armed.Values
  {
    var s := After(Boot(cfg), steps);
    BootIsFine(cfg);
    RunsKeep(Boot(cfg), steps);
    if IsQueued(s, c) {
      var more := QueuedCanRun(s, c);
    } else if c in s.armed.Values {
      var fd :| fd in s.armed && s.armed[fd] == c;
      var more := ArmedCanRun(s, fd);
    } else {
      NowhereIsDoomed(s, c);
      forall more: seq<Step> ensures !Runs(s, more, c) {
        DoomedNeverRuns(s, more, c);
      }
    }
  }

  /** In every state of every run, whoever is queued or armed can still run. */
  lemma QueuedOrArmedCanRun(cfg: Config, steps: seq<Step>, c: Coro) returns (more: seq<Step>)
    requires cfg.Usable() && Lossless(cfg)
    requires var s := After(Boot(cfg), steps); IsQueued(s, c) || c in s.armed.Values
    ensures Runs(After(Boot(cfg), steps), more, c)
  {
    var s := After(Boot(cfg), steps);
    BootIsFine(cfg);
    RunsKeep(Boot(cfg), steps);
    if IsQueued(s, c) {
      more := QueuedCanRun(s, c);
    } else {
      var fd :| fd in s.armed && s.armed[fd] == c;
      more := ArmedCanRun(s, fd);
    }
  }
}
