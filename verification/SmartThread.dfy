/**
  * The worker as the source has it: an object whose methods update its fields, on top of the ring
  * buffer and the shared task list. Each method is one atomic step and is proved to be the step
  * of the same name in Scheduler.dfy, so everything proved about runs holds of these objects.
  */
module SmartThreads {
  import opened Options
  import opened MachineInts
  import opened BoundedQueues
  import opened TaskQueues
  import opened Scheduler
  import opened SchedulerRuns

  /** The part of SmartRuntime that holds tasks; the lock makes each method atomic. */
  class SmartRuntime {
    var taskList: seq<Coro>

    constructor ()
      ensures taskList == []
    {
      taskList := [];
    }

    method PushTask(c: Coro)
      modifies this
      ensures taskList == old(taskList) + [c]
    {
      taskList := taskList + [c];
    }

    /** Splices off the longest prefix of at most `batchSize` tasks. */
    method GetTasks(batchSize: nat) returns (tasks: seq<Coro>, n: nat)
      modifies this
      ensures n == Min(batchSize, |old(taskList)|)
      ensures tasks == old(taskList)[..n] && taskList == old(taskList)[n..]
    {
      var iter := 0;
      while iter != |taskList| && iter < batchSize
        invariant iter <= |taskList| && iter <= batchSize
        decreases |taskList| - iter
      {
        iter := iter + 1;
      }
      tasks, taskList := taskList[..iter], taskList[iter..];
      n := iter;
    }
  }

  class SmartThread {
    const queue: BoundedQueue<Coro>
    const runtime: SmartRuntime
    const batch: nat                      // acquire_tasks_batch_size
    var current: Stack
    var phase: Phase                      // where the worker's control is
    var delayCallback: Option<Action>
    var status: seq<Status>               // the saved contexts, by coroutine
    var mainSaved: bool
    var interest: map<Fd, Coro>           // the kernel's table
    ghost var lost: seq<Loss>
    ghost var done: seq<Action>
    ghost var trace: seq<Event>

    ghost predicate Valid()
      reads this, queue
    {
      queue.Valid()
    }

    ghost function View(): (s: Sched)
      requires Valid()
      reads this, queue, queue.data, runtime
      ensures s.cfg.Usable()
    {
      Sched(Config(queue.capacity as int, batch), status, current, phase, delayCallback,
            queue.Contents(), runtime.taskList, interest, mainSaved, lost, done, trace)
    }

    constructor (capacity: uint32, batch: nat, runtime: SmartRuntime)
      requires 0 < capacity && runtime.taskList == []
      ensures Valid() && this.runtime == runtime && fresh(queue) && fresh(queue.data)
      ensures View() == Boot(Config(capacity as int, batch))
    {
      this.queue := new BoundedQueue(capacity);
      this.runtime := runtime;
      this.batch := batch;
      current, phase, delayCallback := MainStack, Loop, None;
      status, mainSaved, interest := [], false, map[];
      lost, done, trace := [], [], [];
    }

    method PushTask(c: Coro)
      requires Valid()
      modifies queue, queue.data, runtime
      ensures Valid() && View() == Scheduler.PushTask(old(View()), c)
    {
      var success := queue.Push(c);
      if !success {
        runtime.PushTask(c);
      }
    }

    method GetTask() returns (task: Option<Coro>)
      requires Valid()
      modifies this`lost, queue, queue.data, runtime
      ensures Valid() && (task, View()) == Scheduler.GetTask(old(View()))
    {
      assert lost + NoRooms([]) == lost;
      if queue.Empty() {
        var tasks, n := runtime.GetTasks(batch);
        if n == 0 {
          return None;
        }
        Refill(tasks);
        ghost var g, k := old(runtime.taskList), Min(n, queue.capacity as int);
        assert tasks[..k] == g[..k] && g[..k][1..] == g[1..k] && tasks[k..] == g[k..n];
      }
      task := Some(queue.Front());
      queue.Pop();
    }

    /** The loop of `get_task`; it does not look at what `push` returns. */
    method Refill(tasks: seq<Coro>)
      requires Valid() && queue.Contents() == []
      modifies this`lost, queue, queue.data
      ensures Valid()
      ensures var kept := Min(|tasks|, queue.capacity as int);
              queue.Contents() == tasks[..kept] && lost == old(lost) + NoRooms(tasks[kept..])
    {
      var i := 0;
      while i < |tasks|
        invariant i <= |tasks| && Valid()
        invariant queue.Contents() == Kept(tasks, i, queue.capacity as int)
        invariant lost == old(lost) + NoRooms(Dropped(tasks, i, queue.capacity as int))
      {
        OneMoreRefilled(tasks, i, queue.capacity as int);
        PushOrLose(tasks[i]);
        i := i + 1;
      }
      assert Dropped(tasks, i, queue.capacity as int) == tasks[Min(i, queue.capacity as int)..];
    }

    method PushOrLose(c: Coro)
      requires Valid()
      modifies this`lost, queue, queue.data
      ensures Valid()
      ensures if |old(queue.Contents())| < queue.capacity as int
              then queue.Contents() == old(queue.Contents()) + [c] && lost == old(lost)
              else queue.Contents() == old(queue.Contents()) && lost == old(lost) + [NoRoom(c)]
    {
      var success := queue.Push(c);
      if !success {
        lost := lost + [NoRoom(c)];
      }
    }

    // -------------------------------------------------------------- the steps of the worker

    /** `smart_routine_start` inside a coroutine. */
    method StartTask() returns (c: Coro)
      requires Valid() && Enabled(View(), UserStart)
      modifies this`status, queue, queue.data, runtime
      ensures Valid() && View() == Apply(old(View()), UserStart) && c == |old(status)|
    {
      c := |status|;
      status := status + [Fresh];
      PushTask(c);
    }

    /** The slot is assigned without a look at what it holds. */
    method Store(a: Action)
      requires Valid()
      modifies this`delayCallback, this`lost, this`trace
      ensures Valid() && View() == Fill(old(View()), a)
    {
      if delayCallback.Some? {
        lost := lost + [Overwritten(delayCallback.value)];
      }
      delayCallback := Some(a);
      trace := trace + [Filled(a)];
    }

    /** `yield` up to its call of `get_task`, for `smart_routine_yield`. */
    method BeginYield()
      requires Valid() && Enabled(View(), UserYield)
      modifies this
      ensures Valid() && View() == Apply(old(View()), UserYield)
    {
      Store(Requeue(current.coro));
      phase := Yielding;
    }

    /** `yield` up to its call of `get_task`, for an I/O operation. */
    method BeginPark(fd: Fd)
      requires Valid() && Enabled(View(), UserPark(fd))
      modifies this
      ensures Valid() && View() == Apply(old(View()), UserPark(fd))
    {
      Store(Arm(current.coro, fd));
      phase := Yielding;
    }

    /** `coro_runner` once `fn_` has returned: it enters `main_loop` on the finished stack. */
    method Finish()
      requires Valid() && Enabled(View(), UserReturn)
      modifies this
      ensures Valid() && View() == Apply(old(View()), UserReturn)
    {
      if current.coro < |status| {
        status := status[current.coro := Finished];
      }
      Store(Destroy(current.coro));
      phase := Loop;
    }

    method SaveCurrent()
      requires Valid()
      modifies this`status, this`mainSaved
      ensures Valid() && View() == Scheduler.SaveCurrent(old(View()))
    {
      if current == MainStack {
        mainSaved := true;
      } else if current.coro < |status| && status[current.coro] == Running {
        status := status[current.coro := Suspended];
      }
    }

    /**
      * `switch_to`. The source jumps without a check; here the jump needs a fresh or saved context,
      * and the invariant of the runs provides it.
      */
    method SwitchTo(next: Stack)
      requires Valid()
      requires next != current
      requires if next.Of? then Resumable(View(), next.coro) else mainSaved
      modifies this
      ensures Valid() && View() == Scheduler.SwitchTo(old(View()), next)
    {
      ghost var fromMain := current.MainStack?;
      SaveCurrent();
      if next.Of? {
        phase := if status[next.coro] == Fresh then Entry else User;
        status := status[next.coro := Running];
        trace := trace + [Switched(fromMain, if phase == Entry then IntoFresh else IntoSuspended)];
      } else {
        phase := Returned;
        trace := trace + [Switched(fromMain, IntoMain)];
      }
      current := next;
    }

    /** The rest of `yield`, and `main_loop` up to its switch. */
    method SwitchAway()
      requires Valid() && Inv(View()) && Enabled(View(), Scheduler.SwitchAway)
      modifies this, queue, queue.data, runtime
      ensures Valid() && View() == Apply(old(View()), Scheduler.SwitchAway) && Inv(View())
    {
      DispatchIsSafe(View());
      StepKeeps(View(), Scheduler.SwitchAway);
      var wasYielding := phase == Yielding;
      var task := GetTask();
      if task.Some? {
        SwitchTo(Of(task.value));
      } else if wasYielding {
        SwitchTo(MainStack);
      }
    }

    /** The delayed callbacks themselves; `destroy_coro` frees a finished stack that is not in use. */
    method RunCallback(a: Action)
      requires Valid()
      requires a.Destroy? ==> StatusOf(View(), a.coro) == Finished && current != Of(a.coro)
      modifies this`status, this`interest, this`lost, queue, queue.data, runtime
      ensures Valid() && View() == Perform(old(View()), a)
    {
      match a {
        case Requeue(c) => PushTask(c);
        case Arm(c, fd) =>
          if fd in interest {
            lost := lost + [FdBusy(a)];
          } else {
            interest := interest[fd := c];
          }
        case Destroy(c) => status := status[c := Freed];
      }
    }

    /** Runs and clears the delayed callback, at the top of `coro_runner` or after the switch in `main_loop`. */
    method DrainDelayed()
      requires Valid() && WorkerOk(View()) && Published(View()) && Enabled(View(), Drain)
      modifies this, queue, queue.data, runtime
      ensures Valid() && View() == Apply(old(View()), Drain)
    {
      FreeIsSafe(View());
      if delayCallback.Some? {
        DrainIsPerform(View());
        RunCallback(delayCallback.value);
        done := done + [delayCallback.value];
        delayCallback := None;
      }
      phase := if phase == Entry then User else Loop;
    }

    // -------------------------------------------------------------- the steps of other threads

    method OutsideStart() returns (c: Coro)
      requires Valid()
      modifies this`status, runtime
      ensures Valid() && View() == Apply(old(View()), Scheduler.OutsideStart) && c == |old(status)|
    {
      c := |status|;
      status := status + [Fresh];
      runtime.PushTask(c);
    }

    /** The epoll thread's completing callback: off the table first, then onto the global list. */
    method IoComplete(fd: Fd)
      requires Valid() && fd in interest
      modifies this`interest, runtime
      ensures Valid() && View() == Apply(old(View()), Scheduler.IoComplete(fd))
    {
      var c := interest[fd];
      interest := interest - {fd};
      runtime.PushTask(c);
    }
  }

  ghost function Kept(tasks: seq<Coro>, i: nat, capacity: nat): seq<Coro>
    requires i <= |tasks|
  {
    tasks[..Min(i, capacity)]
  }

  ghost function Dropped(tasks: seq<Coro>, i: nat, capacity: nat): seq<Coro>
    requires i <= |tasks|
  {
    tasks[Min(i, capacity)..i]
  }

  lemma OneMoreRefilled(tasks: seq<Coro>, i: nat, capacity: nat)
    requires i < |tasks|
    ensures |Kept(tasks, i, capacity)| == Min(i, capacity)
    ensures if i < capacity
            then
              && Kept(tasks, i + 1, capacity) == Kept(tasks, i, capacity) + [tasks[i]]
              && Dropped(tasks, i + 1, capacity) == Dropped(tasks, i, capacity)
            else
              && Kept(tasks, i + 1, capacity) == Kept(tasks, i, capacity)
              && NoRooms(Dropped(tasks, i + 1, capacity)) == NoRooms(Dropped(tasks, i, capacity)) + [NoRoom(tasks[i])]
  {
    if capacity <= i {
      assert Dropped(tasks, i + 1, capacity) == Dropped(tasks, i, capacity) + [tasks[i]];
    }
  }
}
