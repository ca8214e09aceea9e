/**
  * One worker thread, the epoll thread and outside callers as a step system
  * (src/smart_thread.cpp:17-103, src/internal/smart_routine_impl.cpp:143-166).
  *
  * `jump_fcontext` is abstracted to: save the current stack's context, continue at the target's
  * saved one. Every point at which the worker can be interleaved with the other threads is a
  * phase of its own. A jump to a context that is not saved, and a `delete` of a stack that is
  * not finished or is being executed, leads to `Wild`; that this never happens is a theorem.
  */
module Scheduler {
  import opened Options
  import opened TaskQueues

  type Fd = nat

  datatype Status = Fresh | Running | Suspended | Finished | Freed

  /** The contents of `delay_callback_` and `delay_callback_args_`. */
  datatype Action =
    | Requeue(coro: Coro)          // add_back_to_queue
    | Arm(coro: Coro, fd: Fd)      // enable_epoll_reading, enable_epoll_writing
    | Destroy(coro: Coro)          // destroy_coro

  datatype Stack = MainStack | Of(coro: Coro)

  datatype Phase =
    | Loop       // in main_loop, about to call get_task: on the main stack or on a finished coroutine's
    | Returned   // in main_loop, switch_to has come back, the slot is to be drained
    | Entry      // in coro_runner, the slot is to be drained
    | User       // inside fn_
    | Yielding   // in yield, the slot is stored, about to call get_task
    | Wild       // undefined behaviour

  datatype Landing = IntoMain | IntoFresh | IntoSuspended

  datatype Event = Filled(action: Action) | Switched(fromMain: bool, into: Landing)

  /** How a coroutine stops being reachable by the runtime. */
  datatype Loss =
    | Overwritten(action: Action)  // the slot was stored into while full
    | FdBusy(action: Action)       // EPOLL_CTL_ADD on a descriptor that is in the interest table
    | NoRoom(coro: Coro)           // refill of more tasks than the local queue holds

  datatype Sched = Sched(
    cfg: Config,
    status: seq<Status>,           // by coroutine; a new coroutine takes the next index
    current: Stack,                // current_coro_
    phase: Phase,
    slot: Option<Action>,          // delay_callback_
    local: seq<Coro>,              // task_queue_
    global: seq<Coro>,             // SmartRuntime::task_list_
    armed: map<Fd, Coro>,          // the kernel's interest table
    mainSaved: bool,               // main_coro_ holds main_loop's context, not the one made for coro_runner
    // histories
    lost: seq<Loss>,
    done: seq<Action>,
    trace: seq<Event>)

  datatype Step =
    | OutsideStart                 // smart_routine_start by a thread that is not a worker
    | UserStart                    // smart_routine_start by the running coroutine
    | UserYield                    // smart_routine_yield
    | UserPark(fd: Fd)             // smart_read, smart_write, smart_accept, smart_connect, smart_read_until
    | UserReturn                   // fn_ returns
    | SwitchAway                   // get_task and switch_to
    | Drain                        // run the delayed callback
    | IoComplete(fd: Fd)           // the epoll thread's callback: disable, then smart_routine_resume

  function Boot(cfg: Config): Sched {
    Sched(cfg, [], MainStack, Loop, None, [], [], map[], false, [], [], [])
  }

  predicate Enabled(s: Sched, step: Step) {
    match step
    case OutsideStart => true
    case UserStart => s.phase == User && s.current.Of?
    case UserYield => s.phase == User && s.current.Of?
    case UserPark(_) => s.phase == User && s.current.Of?
    case UserReturn => s.phase == User && s.current.Of?
    case SwitchAway => s.phase == Loop || s.phase == Yielding
    case Drain => s.phase == Entry || s.phase == Returned
    case IoComplete(fd) => fd in s.armed
  }

  function SetStatus(s: Sched, c: Coro, st: Status): Sched {
    if c < |s.status| then s.(status := s.status[c := st]) else s
  }

  function StatusOf(s: Sched, c: Coro): Status {
    if c < |s.status| then s.status[c] else Freed
  }

  function PushTask(s: Sched, c: Coro): Sched {
    var (l, g) := Put(s.cfg, s.local, s.global, c);
    s.(local := l, global := g)
  }

  /** Storing into the one-place slot; whatever was there is forgotten. */
  function Fill(s: Sched, a: Action): Sched {
    s.(slot := Some(a), trace := s.trace + [Filled(a)],
       lost := if s.slot.Some? then s.lost + [Overwritten(s.slot.value)] else s.lost)
  }

  function SaveCurrent(s: Sched): Sched {
    match s.current
    case MainStack => s.(mainSaved := true)
    case Of(c) => if StatusOf(s, c) == Running then SetStatus(s, c, Suspended) else s
  }

  /** The target's context is read before the current one is saved, so a jump to the current stack is stale. */
  function SwitchTo(s: Sched, next: Stack): Sched {
    var saved := SaveCurrent(s);
    if next == s.current then saved.(phase := Wild) else
    match next
    case MainStack =>
      if saved.mainSaved then
        saved.(current := next, phase := Returned, trace := s.trace + [Switched(s.current.MainStack?, IntoMain)])
      else saved.(phase := Wild)
    case Of(c) =>
      match StatusOf(saved, c)
      case Fresh =>
        SetStatus(saved, c, Running).(current := next, phase := Entry,
          trace := s.trace + [Switched(s.current.MainStack?, IntoFresh)])
      case Suspended =>
        SetStatus(saved, c, Running).(current := next, phase := User,
          trace := s.trace + [Switched(s.current.MainStack?, IntoSuspended)])
      case _ => saved.(phase := Wild)
  }

  function NoRooms(cs: seq<Coro>): seq<Loss> {
    seq(|cs|, i requires 0 <= i < |cs| => NoRoom(cs[i]))
  }

  function GetTask(s: Sched): (Option<Coro>, Sched)
    requires s.cfg.Usable()
  {
    var t := Take(s.cfg, s.local, s.global);
    (t.task, s.(local := t.local, global := t.global,
                lost := s.lost + NoRooms(t.lost)))
  }

  function Perform(s: Sched, a: Action): Sched {
    match a
    case Requeue(c) => PushTask(s, c)
    case Arm(c, fd) =>
      if fd in s.armed then s.(lost := s.lost + [FdBusy(a)]) else s.(armed := s.armed[fd := c])
    case Destroy(c) =>
      if StatusOf(s, c) == Finished && s.current != Of(c) then SetStatus(s, c, Freed) else s.(phase := Wild)
  }

  function DrainSlot(s: Sched): Sched {
    if s.slot == None then s
    else Perform(s, s.slot.value).(slot := None, done := s.done + [s.slot.value])
  }

  /** The tail of `yield` and the body of `main_loop` up to the switch. */
  function Dispatch(s: Sched): Sched
    requires s.cfg.Usable()
  {
    var (task, s1) := GetTask(s);
    if task.Some? then SwitchTo(s1, Of(task.value))
    else if s.phase == Yielding then SwitchTo(s1, MainStack)
    else s1                                       // usleep and try again
  }

  /** `coro_runner` goes on into `fn_`, `main_loop` goes round. */
  function DrainAndGoOn(s: Sched): Sched {
    var s1 := DrainSlot(s);
    if s1.phase == Wild then s1 else s1.(phase := if s.phase == Entry then User else Loop)
  }

  function Apply(s: Sched, step: Step): (s': Sched)
    requires s.cfg.Usable() && Enabled(s, step)
    ensures s'.cfg == s.cfg
  {
    match step
    case OutsideStart => s.(status := s.status + [Fresh], global := s.global + [|s.status|])
    case UserStart => PushTask(s.(status := s.status + [Fresh]), |s.status|)
    case UserYield => Fill(s, Requeue(s.current.coro)).(phase := Yielding)
    case UserPark(fd) => Fill(s, Arm(s.current.coro, fd)).(phase := Yielding)
    case UserReturn =>
      Fill(SetStatus(s, s.current.coro, Finished), Destroy(s.current.coro)).(phase := Loop)
    case SwitchAway => Dispatch(s)
    case Drain => DrainAndGoOn(s)
    case IoComplete(fd) =>
      s.(armed := s.armed - {fd}, global := s.global + [s.armed[fd]])
  }

  /** A run is any list of steps; one that is not enabled where it comes up does nothing. */
  function After(s: Sched, steps: seq<Step>): (s': Sched)
    requires s.cfg.Usable()
    ensures s'.cfg == s.cfg
  {
    if steps == [] then s
    else
      var before := After(s, steps[..|steps|-1]);
      if Enabled(before, steps[|steps|-1]) then Apply(before, steps[|steps|-1]) else before
  }

  // ---------------------------------------------------------------- where a coroutine is

  function Executing(s: Sched, c: Coro): nat {
    if s.current == Of(c) && (s.phase == Entry || s.phase == User) then 1 else 0
  }

  function InSlot(s: Sched, c: Coro): nat {
    if s.slot.Some? && s.slot.value.coro == c then 1 else 0
  }

  ghost function WatchSet(armed: map<Fd, Coro>, c: Coro): set<Fd> {
    set f | f in armed && armed[f] == c
  }

  ghost function Watches(armed: map<Fd, Coro>, c: Coro): nat {
    |WatchSet(armed, c)|
  }

  /** Occurrences of `c` in the places from which the runtime can still reach it. */
  ghost function Places(s: Sched, c: Coro): nat {
    Executing(s, c) + Times(s.local, c) + Times(s.global, c) + InSlot(s, c) + Watches(s.armed, c)
  }

  function Loser(l: Loss): Coro {
    if l.NoRoom? then l.coro else l.action.coro
  }

  function Losers(lost: seq<Loss>): seq<Coro> {
    seq(|lost|, i requires 0 <= i < |lost| => Loser(lost[i]))
  }

  ghost function Losses(s: Sched, c: Coro): nat {
    Times(Losers(s.lost), c)
  }

  ghost predicate Alive(s: Sched, c: Coro) {
    StatusOf(s, c) != Freed
  }

  // ---------------------------------------------------------------- the invariant

  /** Every coroutine not freed is in exactly one place or exactly once among the lost. */
  ghost predicate Accounted(s: Sched) {
    forall c: Coro {:trigger Places(s, c)} :: Places(s, c) + Losses(s, c) == if Alive(s, c) then 1 else 0
  }

  /** What the worker's stack, phase and slot say about each other. */
  ghost predicate WorkerOk(s: Sched) {
    && (s.current.Of? || s.phase == Returned ==> s.mainSaved)
    && match s.phase
       case Loop =>
         if s.current.Of?
         then s.slot == Some(Destroy(s.current.coro)) && StatusOf(s, s.current.coro) == Finished
         else s.slot == None
       case Returned => s.current == MainStack
       case Entry => s.current.Of? && StatusOf(s, s.current.coro) == Running
       case User => s.current.Of? && StatusOf(s, s.current.coro) == Running
       case Yielding =>
         && s.current.Of? && StatusOf(s, s.current.coro) == Running
         && s.slot.Some? && !s.slot.value.Destroy? && s.slot.value.coro == s.current.coro
       case Wild => false
  }

  predicate Resumable(s: Sched, c: Coro) {
    StatusOf(s, c) == Fresh || StatusOf(s, c) == Suspended
  }

  /** A coroutine is published only once its context is saved. */
  ghost predicate Published(s: Sched) {
    && (forall c: Coro :: StatusOf(s, c) == Running ==> s.current == Of(c))
    && (forall i :: 0 <= i < |s.local| ==> Resumable(s, s.local[i]))
    && (forall i :: 0 <= i < |s.global| ==> Resumable(s, s.global[i]))
    && (forall f :: f in s.armed ==> StatusOf(s, s.armed[f]) == Suspended)
    && (s.slot.Some? ==>
          StatusOf(s, s.slot.value.coro)
          == if s.slot.value.Destroy? then Finished else if s.phase == Yielding then Running else Suspended)
  }

  ghost predicate Inv(s: Sched) {
    s.cfg.Usable() && WorkerOk(s) && Published(s) && Accounted(s)
  }

  // ---------------------------------------------------------------- counting lemmas

  lemma WatchAdded(armed: map<Fd, Coro>, fd: Fd, d: Coro, c: Coro)
    requires fd !in armed
    ensures Watches(armed[fd := d], c) == Watches(armed, c) + (if c == d then 1 else 0)
  {
    assert WatchSet(armed[fd := d], c) == if c == d then WatchSet(armed, c) + {fd} else WatchSet(armed, c);
  }

  lemma WatchRemoved(armed: map<Fd, Coro>, fd: Fd, c: Coro)
    requires fd in armed
    ensures Watches(armed - {fd}, c) == Watches(armed, c) - (if c == armed[fd] then 1 else 0)
  {
    var after := WatchSet(armed - {fd}, c);
    assert WatchSet(armed, c) == if c == armed[fd] then after + {fd} else after;
  }

  lemma OneMoreLoser(lost: seq<Loss>, l: Loss, c: Coro)
    ensures Times(Losers(lost + [l]), c) == Times(Losers(lost), c) + (if Loser(l) == c then 1 else 0)
  {
    assert Losers(lost + [l]) == Losers(lost) + [Loser(l)];
  }

  lemma NoRoomLosers(lost: seq<Loss>, more: seq<Coro>, c: Coro)
    ensures Times(Losers(lost + NoRooms(more)), c)
            == Times(Losers(lost), c) + Times(more, c)
  {
    assert Losers(lost + NoRooms(more)) == Losers(lost) + more;
  }

  lemma AnArmedCoroIsWatched(armed: map<Fd, Coro>, fd: Fd)
    requires fd in armed
    ensures Watches(armed, armed[fd]) >= 1
  {
    WatchRemoved(armed, fd, armed[fd]);
  }

  // ---------------------------------------------------------------- every step keeps the invariant

  lemma StartKeepsAccountOf(s: Sched, step: Step, c: Coro)
    requires s.cfg.Usable() && Enabled(s, step) && (step.OutsideStart? || step.UserStart?)
    requires Places(s, c) + Losses(s, c) == if Alive(s, c) then 1 else 0
    ensures var s' := Apply(s, step);
            Places(s', c) + Losses(s', c) == if Alive(s', c) then 1 else 0
  {
  }

  lemma StartKeeps(s: Sched, step: Step)
    requires Inv(s) && Enabled(s, step) && (step.OutsideStart? || step.UserStart?)
    ensures Inv(Apply(s, step))
  {
    var s' := Apply(s, step);
    assert forall c :: StatusOf(s', c) == if c == |s.status| then Fresh else StatusOf(s, c);
    forall c: Coro
      ensures Places(s', c) + Losses(s', c) == if Alive(s', c) then 1 else 0
    {
      StartKeepsAccountOf(s, step, c);
    }
  }

  lemma FillKeepsAccountOf(s: Sched, step: Step, c: Coro)
    requires s.cfg.Usable() && WorkerOk(s)
    requires Enabled(s, step) && (step.UserYield? || step.UserPark? || step.UserReturn?)
    requires Places(s, c) + Losses(s, c) == if Alive(s, c) then 1 else 0
    ensures var s' := Apply(s, step);
            Places(s', c) + Losses(s', c) == if Alive(s', c) then 1 else 0
  {
    if s.slot.Some? {
      OneMoreLoser(s.lost, Overwritten(s.slot.value), c);
    }
  }

  lemma FillKeeps(s: Sched, step: Step)
    requires Inv(s) && Enabled(s, step) && (step.UserYield? || step.UserPark? || step.UserReturn?)
    ensures Inv(Apply(s, step))
  {
    var s' := Apply(s, step);
    var me := s.current.coro;
    assert Places(s, me) + Losses(s, me) == 1;
    assert forall c :: StatusOf(s', c) == if c == me && step.UserReturn? then Finished else StatusOf(s, c);
    forall c: Coro
      ensures Places(s', c) + Losses(s', c) == if Alive(s', c) then 1 else 0
    {
      FillKeepsAccountOf(s, step, c);
    }
  }

  lemma IoKeeps(s: Sched, fd: Fd)
    requires Inv(s) && fd in s.armed
    ensures Inv(Apply(s, IoComplete(fd)))
  {
    var s' := Apply(s, IoComplete(fd));
    forall c: Coro
      ensures Places(s', c) + Losses(s', c) == if Alive(s', c) then 1 else 0
    {
      assert Places(s, c) + Losses(s, c) == if Alive(s, c) then 1 else 0;
      WatchRemoved(s.armed, fd, c);
    }
  }

  lemma TakenWasQueued(cfg: Config, local: seq<Coro>, global: seq<Coro>)
    requires cfg.Usable()
    ensures var t := Take(cfg, local, global);
            && (t.task.Some? ==> t.task.value in local || t.task.value in global)
            && (forall c :: c in t.local ==> c in local || c in global)
            && (forall c :: c in t.global ==> c in global)
  {
  }

  lemma QueuedIsResumable(s: Sched, c: Coro)
    requires Published(s) && (c in s.local || c in s.global)
    ensures Resumable(s, c)
  {
  }

  /** What `get_task` hands out is a saved context, is not the stack that asks, and is not queued twice. */
  lemma DispatchIsSafe(s: Sched)
    requires Inv(s) && (s.phase == Loop || s.phase == Yielding)
    ensures var t := Take(s.cfg, s.local, s.global);
            t.task.Some? ==>
              && Resumable(s, t.task.value)
              && s.current != Of(t.task.value)
              && t.task.value !in t.local && t.task.value !in t.global
  {
    var t := Take(s.cfg, s.local, s.global);
    if t.task.Some? {
      var c := t.task.value;
      TakenWasQueued(s.cfg, s.local, s.global);
      QueuedIsResumable(s, c);
      assert Places(s, c) + Losses(s, c) <= 1;
      TakeConserves(s.cfg, s.local, s.global, c);
    }
  }

  function LandingOf(p: Phase): Landing {
    if p == Entry then IntoFresh else if p == User then IntoSuspended else IntoMain
  }

  /** The whole effect of a safe switch, field by field. */
  ghost predicate SwitchEffect(s: Sched, s': Sched)
    requires s.cfg.Usable()
  {
    var t := Take(s.cfg, s.local, s.global);
    && s' == s.(local := t.local, global := t.global, status := s'.status, current := s'.current,
                phase := s'.phase, mainSaved := s'.mainSaved, trace := s'.trace,
                lost := s.lost + NoRooms(t.lost))
    && (if t.task.Some? then
          && Resumable(s, t.task.value)
          && s'.current == Of(t.task.value) && s'.mainSaved
          && s'.phase == (if StatusOf(s, t.task.value) == Fresh then Entry else User)
        else if s.phase == Yielding then s'.current == MainStack && s'.phase == Returned && s'.mainSaved
        else s'.current == s.current && s'.phase == Loop && s'.mainSaved == s.mainSaved)
    && s'.trace == (if s'.phase == Loop then s.trace
                    else s.trace + [Switched(s.current.MainStack?, LandingOf(s'.phase))])
    && (forall c: Coro :: StatusOf(s', c) ==
          if t.task == Some(c) then Running
          else if s.phase == Yielding && s.current == Of(c) then Suspended
          else StatusOf(s, c))
  }

  lemma DispatchEffect(s: Sched)
    requires Inv(s) && (s.phase == Loop || s.phase == Yielding)
    ensures SwitchEffect(s, Dispatch(s))
  {
    DispatchIsSafe(s);
  }

  lemma QueuedStaysResumable(s: Sched, s': Sched, c: Coro)
    requires Inv(s) && (s.phase == Loop || s.phase == Yielding)
    requires SwitchEffect(s, s') && (c in s'.local || c in s'.global)
    ensures Resumable(s', c)
  {
    DispatchIsSafe(s);
    TakenWasQueued(s.cfg, s.local, s.global);
    QueuedIsResumable(s, c);
  }

  lemma ArmedStaysSuspended(s: Sched, s': Sched, f: Fd)
    requires Inv(s) && (s.phase == Loop || s.phase == Yielding)
    requires SwitchEffect(s, s') && f in s'.armed
    ensures StatusOf(s', s'.armed[f]) == Suspended
  {
    TakenWasQueued(s.cfg, s.local, s.global);
    ArmedIsNotQueued(s, f);
  }

  lemma SlotIsNotTaken(s: Sched)
    requires Inv(s) && s.slot.Some?
    ensures Take(s.cfg, s.local, s.global).task != Some(s.slot.value.coro)
  {
    TakenWasQueued(s.cfg, s.local, s.global);
    assert Places(s, s.slot.value.coro) + Losses(s, s.slot.value.coro) <= 1;
  }

  lemma DispatchKeepsPublished(s: Sched, s': Sched)
    requires Inv(s) && (s.phase == Loop || s.phase == Yielding)
    requires SwitchEffect(s, s')
    ensures Published(s')
  {
    forall c | c in s'.local || c in s'.global
      ensures Resumable(s', c)
    {
      QueuedStaysResumable(s, s', c);
    }
    forall f | f in s'.armed
      ensures StatusOf(s', s'.armed[f]) == Suspended
    {
      ArmedStaysSuspended(s, s', f);
    }
    if s.slot.Some? {
      SlotIsNotTaken(s);
    }
  }

  lemma ArmedIsNotQueued(s: Sched, f: Fd)
    requires Accounted(s) && f in s.armed
    ensures s.armed[f] !in s.local && s.armed[f] !in s.global
  {
    AnArmedCoroIsWatched(s.armed, f);
    assert Places(s, s.armed[f]) + Losses(s, s.armed[f]) <= 1;
  }

  lemma DispatchKeepsAccountOf(s: Sched, s': Sched, c: Coro)
    requires s.cfg.Usable() && (s.phase == Loop || s.phase == Yielding)
    requires SwitchEffect(s, s')
    requires s.current == Of(c) ==> Alive(s, c)
    ensures Places(s', c) + Losses(s', c) == Places(s, c) + Losses(s, c)
    ensures Alive(s', c) <==> Alive(s, c)
  {
    TakeConserves(s.cfg, s.local, s.global, c);
    NoRoomLosers(s.lost, Take(s.cfg, s.local, s.global).lost, c);
  }

  lemma DispatchKeepsAccount(s: Sched, s': Sched)
    requires Accounted(s) && s.cfg.Usable() && (s.phase == Loop || s.phase == Yielding)
    requires SwitchEffect(s, s')
    requires forall c: Coro :: s.current == Of(c) ==> Alive(s, c)
    ensures Accounted(s')
  {
    forall c: Coro
      ensures Places(s', c) + Losses(s', c) == if Alive(s', c) then 1 else 0
    {
      DispatchKeepsAccountOf(s, s', c);
    }
  }

  lemma DispatchKeeps(s: Sched)
    requires Inv(s) && (s.phase == Loop || s.phase == Yielding)
    ensures Inv(Dispatch(s))
  {
    DispatchEffect(s);
    DispatchIsSafe(s);
    DispatchKeepsPublished(s, Dispatch(s));
    DispatchKeepsAccount(s, Dispatch(s));
  }

  /** A stack that is about to be freed is finished and is not the one in use. */
  lemma FreeIsSafe(s: Sched)
    requires WorkerOk(s) && Published(s) && (s.phase == Entry || s.phase == Returned)
    ensures s.slot.Some? && s.slot.value.Destroy? ==>
              StatusOf(s, s.slot.value.coro) == Finished && s.current != Of(s.slot.value.coro)
  {
  }

  /** A full slot is drained by performing its action, which leaves the worker where it is. */
  lemma DrainIsPerform(s: Sched)
    requires WorkerOk(s) && Published(s) && (s.phase == Entry || s.phase == Returned) && s.slot.Some?
    ensures var a := s.slot.value;
            DrainAndGoOn(s) == Perform(s, a).(slot := None, done := s.done + [a],
                                              phase := if s.phase == Entry then User else Loop)
  {
    FreeIsSafe(s);
  }

  lemma DrainEffect(s: Sched)
    requires WorkerOk(s) && Published(s) && (s.phase == Entry || s.phase == Returned)
    ensures var s' := DrainAndGoOn(s);
            && s'.phase == (if s.phase == Entry then User else Loop)
            && s'.slot == None && s'.current == s.current && s'.mainSaved == s.mainSaved && s'.cfg == s.cfg
            && (s.slot.Some? && s.slot.value.Requeue? ==>
                  (s'.local, s'.global) == Put(s.cfg, s.local, s.global, s.slot.value.coro))
            && (!(s.slot.Some? && s.slot.value.Requeue?) ==> s'.local == s.local && s'.global == s.global)
            && s'.armed == (if s.slot.Some? && s.slot.value.Arm? && s.slot.value.fd !in s.armed
                            then s.armed[s.slot.value.fd := s.slot.value.coro] else s.armed)
            && s'.lost == (if s.slot.Some? && s.slot.value.Arm? && s.slot.value.fd in s.armed
                           then s.lost + [FdBusy(s.slot.value)] else s.lost)
            && (forall c: Coro :: StatusOf(s', c) == if s.slot == Some(Destroy(c)) then Freed else StatusOf(s, c))
  {
  }

  lemma DrainKeepsAccountOf(s: Sched, c: Coro)
    requires WorkerOk(s) && Published(s) && (s.phase == Entry || s.phase == Returned)
    requires Places(s, c) + Losses(s, c) == if Alive(s, c) then 1 else 0
    ensures var s' := DrainAndGoOn(s);
            Places(s', c) + Losses(s', c) == if Alive(s', c) then 1 else 0
  {
    DrainEffect(s);
    if s.slot.Some? && s.slot.value.Arm? {
      var a := s.slot.value;
      if a.fd in s.armed {
        OneMoreLoser(s.lost, FdBusy(a), c);
      } else {
        WatchAdded(s.armed, a.fd, a.coro, c);
      }
    }
  }

  lemma DrainKeepsPublished(s: Sched)
    requires WorkerOk(s) && Published(s) && (s.phase == Entry || s.phase == Returned)
    ensures WorkerOk(DrainAndGoOn(s)) && Published(DrainAndGoOn(s))
  {
    DrainEffect(s);
  }

  lemma DrainKeeps(s: Sched)
    requires Inv(s) && (s.phase == Entry || s.phase == Returned)
    ensures Inv(DrainAndGoOn(s))
  {
    var s' := DrainAndGoOn(s);
    DrainKeepsPublished(s);
    DrainEffect(s);
    forall c: Coro
      ensures Places(s', c) + Losses(s', c) == if Alive(s', c) then 1 else 0
    {
      DrainKeepsAccountOf(s, c);
    }
  }
}
