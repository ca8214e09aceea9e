/** Values that stand for a nullable pointer or callback. */
module Options {
  datatype Option<+T> = None | Some(value: T)
}

/**
  * The two-level task queue: one bounded queue per worker in front of the global task list
  * (src/smart_thread.cpp:105-126, src/smart_runtime.cpp:64-83), with each operation atomic.
  * The state here is by value; SmartThread.dfy runs it on the ring buffer.
  */
module TaskQueues {
  import opened Options

  /** A coroutine's identity. */
  type Coro = nat

  /** `task_queue_length` and `acquire_tasks_batch_size`. */
  datatype Config = Config(capacity: nat, batch: nat) {
    ghost predicate Usable() { 0 < capacity }
  }

  /** What one `get_task` leaves behind; `lost` are refilled tasks whose push found the queue full. */
  datatype Taken = Taken(task: Option<Coro>, local: seq<Coro>, global: seq<Coro>, lost: seq<Coro>)

  function Min(a: nat, b: nat): nat {
    if a <= b then a else b
  }

  /**
    * `SmartThread::get_task`. The refill ignores the result of `task_queue_.push`, so tasks of a
    * batch that does not fit the queue disappear.
    */
  function Take(cfg: Config, local: seq<Coro>, global: seq<Coro>): Taken
    requires cfg.Usable()
  {
    if local != [] then
      Taken(Some(local[0]), local[1..], global, [])
    else
      var n := Min(cfg.batch, |global|);
      if n == 0 then
        Taken(None, local, global, [])
      else
        var kept := Min(n, cfg.capacity);
        Taken(Some(global[0]), global[1..kept], global[n..], global[kept..n])
  }

  /** How often `c` occurs in `s`. */
  ghost function Times(s: seq<Coro>, c: Coro): nat {
    multiset(s)[c]
  }

  /** `get_task` neither invents nor duplicates a task. */
  lemma TakeConserves(cfg: Config, local: seq<Coro>, global: seq<Coro>, c: Coro)
    requires cfg.Usable()
    ensures var t := Take(cfg, local, global);
            Times(local, c) + Times(global, c)
            == (if t.task == Some(c) then 1 else 0) + Times(t.local, c) + Times(t.global, c) + Times(t.lost, c)
  {
    if local != [] {
      assert local == [local[0]] + local[1..];
    } else {
      var n := Min(cfg.batch, |global|);
      if n != 0 {
        var kept := Min(n, cfg.capacity);
        assert global == [global[0]] + global[1..kept] + global[kept..n] + global[n..];
      }
    }
  }

  /** `get_task` returns null exactly when it has nothing to give. */
  lemma NullIffNothingToTake(cfg: Config, local: seq<Coro>, global: seq<Coro>)
    requires cfg.Usable()
    ensures Take(cfg, local, global).task == None <==> local == [] && (global == [] || cfg.batch == 0)
  {
  }

  /** `push_task`: the local queue first, the global list on overflow. */
  function Put(cfg: Config, local: seq<Coro>, global: seq<Coro>, c: Coro): (r: (seq<Coro>, seq<Coro>))
    ensures forall d :: Times(r.0, d) + Times(r.1, d) == Times(local, d) + Times(global, d) + (if c == d then 1 else 0)
    ensures |local| <= cfg.capacity ==> |r.0| <= cfg.capacity
    ensures local <= r.0 && global <= r.1
    ensures if |local| < cfg.capacity then r.1 == global else r.0 == local
  {
    if |local| < cfg.capacity then (local + [c], global) else (local, global + [c])
  }

  // ---------------------------------------------------------------- any number of workers

  datatype Op =
    | Outside(task: Coro)           // a thread that is not a worker: straight to the global list
    | Push(worker: nat, task: Coro)
    | Get(worker: nat)

  /** `returned` logs every non-null `get_task` result with its worker, in order. */
  datatype Hub = Hub(locals: seq<seq<Coro>>, global: seq<Coro>, returned: seq<(nat, Coro)>, lost: seq<Coro>)

  predicate Legal(h: Hub, op: Op) {
    op.Outside? || op.worker < |h.locals|
  }

  function Step(cfg: Config, h: Hub, op: Op): (h': Hub)
    requires cfg.Usable()
    ensures |h'.locals| == |h.locals|
  {
    match op
    case Outside(c) => h.(global := h.global + [c])
    case Push(w, c) =>
      if w < |h.locals| then
        var (l, g) := Put(cfg, h.locals[w], h.global, c);
        h.(locals := h.locals[w := l], global := g)
      else h
    case Get(w) =>
      if w < |h.locals| then
        var t := Take(cfg, h.locals[w], h.global);
        Hub(h.locals[w := t.local], t.global,
            h.returned + (if t.task.Some? then [(w, t.task.value)] else []),
            h.lost + t.lost)
      else h
  }

  function Run(cfg: Config, h: Hub, ops: seq<Op>): (h': Hub)
    requires cfg.Usable()
    ensures |h'.locals| == |h.locals|
  {
    if ops == [] then h else Step(cfg, Run(cfg, h, ops[..|ops|-1]), ops[|ops|-1])
  }

  /** `n` workers, nothing queued. */
  function Idle(n: nat): Hub {
    Hub(seq(n, i => []), [], [], [])
  }

  ghost predicate AllLegal(n: nat, ops: seq<Op>) {
    forall i :: 0 <= i < |ops| ==> ops[i].Outside? || ops[i].worker < n
  }

  ghost function Queued(locals: seq<seq<Coro>>, c: Coro): nat {
    if locals == [] then 0 else Times(locals[0], c) + Queued(locals[1..], c)
  }

  ghost function Pushes(ops: seq<Op>, c: Coro): nat {
    if ops == [] then 0
    else Pushes(ops[..|ops|-1], c) + PushedBy(ops[|ops|-1], c)
  }

  ghost function PushedBy(op: Op, c: Coro): nat {
    if !op.Get? && op.task == c then 1 else 0
  }

  ghost function Handed(log: seq<(nat, Coro)>, c: Coro): nat {
    if log == [] then 0 else Handed(log[..|log|-1], c) + (if log[|log|-1].1 == c then 1 else 0)
  }

  lemma {:induction false} QueuedAfterUpdate(locals: seq<seq<Coro>>, w: nat, l: seq<Coro>, c: Coro)
    requires w < |locals|
    ensures Queued(locals[w := l], c) == Queued(locals, c) - Times(locals[w], c) + Times(l, c)
  {
    if w == 0 {
      assert locals[w := l][1..] == locals[1..];
    } else {
      assert locals[w := l][1..] == locals[1..][w-1 := l];
      QueuedAfterUpdate(locals[1..], w - 1, l, c);
    }
  }

  lemma {:induction false} IdleQueuesNothing(n: nat, c: Coro)
    ensures Queued(Idle(n).locals, c) == 0
  {
    if n > 0 {
      assert Idle(n).locals[1..] == Idle(n - 1).locals;
      IdleQueuesNothing(n - 1, c);
    }
  }

  /** Occurrences of `c` over the whole hub: handed out, queued anywhere, or lost. */
  ghost function Everywhere(h: Hub, c: Coro): nat {
    Handed(h.returned, c) + Queued(h.locals, c) + Times(h.global, c) + Times(h.lost, c)
  }

  lemma StepConserves(cfg: Config, h: Hub, op: Op, c: Coro)
    requires cfg.Usable() && Legal(h, op)
    ensures Everywhere(Step(cfg, h, op), c) == Everywhere(h, c) + PushedBy(op, c)
  {
    var h' := Step(cfg, h, op);
    match op
    case Outside(_) =>
    case Push(w, d) =>
      QueuedAfterUpdate(h.locals, w, Put(cfg, h.locals[w], h.global, d).0, c);
    case Get(w) =>
      var t := Take(cfg, h.locals[w], h.global);
      TakeConserves(cfg, h.locals[w], h.global, c);
      QueuedAfterUpdate(h.locals, w, t.local, c);
      if t.task.Some? {
        assert h'.returned[..|h'.returned|-1] == h.returned;
      } else {
        assert h'.returned == h.returned;
      }
  }

  /**
    * Over every run of `push_task`/`get_task` by any number of workers and outsiders, each
    * coroutine is handed out, still queued or lost to an overfull refill exactly as often as it
    * was pushed: nothing is duplicated and nothing vanishes otherwise.
    */
  lemma {:induction false} RunConserves(cfg: Config, n: nat, ops: seq<Op>, c: Coro)
    requires cfg.Usable() && AllLegal(n, ops)
    ensures Everywhere(Run(cfg, Idle(n), ops), c) == Pushes(ops, c)
  {
    if ops == [] {
      IdleQueuesNothing(n, c);
    } else {
      var before := ops[..|ops|-1];
      RunConserves(cfg, n, before, c);
      StepConserves(cfg, Run(cfg, Idle(n), before), ops[|ops|-1], c);
    }
  }

  /** No run loses a task when a batch fits the queue... */
  lemma {:induction false} FittingBatchLosesNothing(cfg: Config, h: Hub, ops: seq<Op>)
    requires cfg.Usable() && cfg.batch <= cfg.capacity
    ensures Run(cfg, h, ops).lost == h.lost
  {
    if ops != [] {
      FittingBatchLosesNothing(cfg, h, ops[..|ops|-1]);
    }
  }

  /** ...and when it does not, some run of a single worker does lose one: `capacity + 1` outside pushes and a get. */
  lemma OverfullBatchLoses(cfg: Config) returns (ops: seq<Op>)
    requires cfg.Usable() && cfg.capacity < cfg.batch
    ensures AllLegal(1, ops)
    ensures Run(cfg, Idle(1), ops).lost != []
  {
    var pushes := seq(cfg.capacity + 1, i => Outside(0));
    OutsideOnlyFillsGlobal(cfg, cfg.capacity + 1);
    ops := pushes + [Get(0)];
    assert ops[..|ops|-1] == pushes;
  }

  lemma {:induction false} OutsideOnlyFillsGlobal(cfg: Config, n: nat)
    requires cfg.Usable()
    ensures var h := Run(cfg, Idle(1), seq(n, i => Outside(0)));
            h.locals == [[]] && |h.global| == n && h.lost == []
  {
    var ops := seq(n, i => Outside(0));
    if n > 0 {
      assert ops[..n-1] == seq(n - 1, i => Outside(0));
      OutsideOnlyFillsGlobal(cfg, n - 1);
    }
  }

  /** Losing nothing in every run is exactly `acquire_tasks_batch_size <= task_queue_length`. */
  lemma LosslessIffBatchFits(cfg: Config)
    requires cfg.Usable()
    ensures (forall n: nat, ops: seq<Op> :: AllLegal(n, ops) ==> Run(cfg, Idle(n), ops).lost == [])
            <==> cfg.batch <= cfg.capacity
  {
    if cfg.batch <= cfg.capacity {
      forall n: nat, ops: seq<Op> | AllLegal(n, ops)
        ensures Run(cfg, Idle(n), ops).lost == []
      {
        FittingBatchLosesNothing(cfg, Idle(n), ops);
      }
    } else {
      var ops := OverfullBatchLoses(cfg);
    }
  }

  // ---------------------------------------------------------------- order

  ghost function GetsBy(w: nat, ops: seq<Op>): nat {
    if ops == [] then 0
    else GetsBy(w, ops[..|ops|-1]) + (if ops[|ops|-1] == Get(w) then 1 else 0)
  }

  /** Until it is reached, what is queued on a worker only moves forward, one place per `get_task`. */
  lemma {:induction false} LocalOrderIsKept(cfg: Config, h: Hub, w: nat, ops: seq<Op>)
    requires cfg.Usable() && w < |h.locals|
    requires GetsBy(w, ops) <= |h.locals[w]|
    ensures h.locals[w][GetsBy(w, ops)..] <= Run(cfg, h, ops).locals[w]
  {
    if ops != [] {
      LocalOrderIsKept(cfg, h, w, ops[..|ops|-1]);
    }
  }

  /**
    * A coroutine at index `k` of a worker's queue is what the `(k+1)`-th later `get_task` of that
    * worker returns, whatever pushes, overflows and refills happen in between on any worker.
    */
  lemma {:induction false} QueuedComesOutInTurn(cfg: Config, h: Hub, w: nat, k: nat, ops: seq<Op>)
    requires cfg.Usable() && w < |h.locals| && k < |h.locals[w]|
    requires GetsBy(w, ops) == k
    ensures var before := Run(cfg, h, ops);
            Run(cfg, h, ops + [Get(w)]).returned == before.returned + [(w, h.locals[w][k])]
  {
    LocalOrderIsKept(cfg, h, w, ops);
    assert (ops + [Get(w)])[..|ops|] == ops;
  }

  /**
    * What a worker pushes while its queue has room comes out of its own queue, after exactly what was
    * queued there before; otherwise it is the new end of the global list and nothing else changes.
    */
  lemma PushedComesOutInTurn(cfg: Config, h: Hub, w: nat, c: Coro, ops: seq<Op>)
    requires cfg.Usable() && w < |h.locals| && GetsBy(w, ops) == |h.locals[w]|
    ensures var pushed := Step(cfg, h, Push(w, c));
            if |h.locals[w]| < cfg.capacity then
              Run(cfg, pushed, ops + [Get(w)]).returned == Run(cfg, pushed, ops).returned + [(w, c)]
            else pushed == h.(global := h.global + [c])
  {
    if |h.locals[w]| < cfg.capacity {
      QueuedComesOutInTurn(cfg, Step(cfg, h, Push(w, c)), w, |h.locals[w]|, ops);
    }
  }

  /**
    * A worker with an empty queue takes a batch off the front of the global list. As far as it fits,
    * it comes out of that worker's own queue, in the list's order.
    */
  lemma RefilledComesOutInTurn(cfg: Config, h: Hub, w: nat, k: nat, ops: seq<Op>)
    requires cfg.Usable() && w < |h.locals| && h.locals[w] == []
    requires k < Min(cfg.batch, |h.global|) && k < cfg.capacity
    ensures var got := Step(cfg, h, Get(w));
            && got.returned == h.returned + [(w, h.global[0])]
            && got.global == h.global[Min(cfg.batch, |h.global|)..]
            && (0 < k && GetsBy(w, ops) == k - 1 ==>
                  Run(cfg, got, ops + [Get(w)]).returned == Run(cfg, got, ops).returned + [(w, h.global[k])])
  {
    if 0 < k && GetsBy(w, ops) == k - 1 {
      QueuedComesOutInTurn(cfg, Step(cfg, h, Get(w)), w, k - 1, ops);
    }
  }

  /** Whatever the other workers and outsiders do, a worker's queue stays as it is. */
  lemma {:induction false} OthersLeaveTheQueue(cfg: Config, h: Hub, w: nat, ops: seq<Op>)
    requires cfg.Usable() && w < |h.locals|
    requires forall i :: 0 <= i < |ops| ==> ops[i].Outside? || ops[i].worker != w
    ensures Run(cfg, h, ops).locals[w] == h.locals[w]
  {
    if ops != [] {
      OthersLeaveTheQueue(cfg, h, w, ops[..|ops|-1]);
    }
  }

  ghost predicate OneWorkerOutsidePushes(ops: seq<Op>) {
    forall i :: 0 <= i < |ops| ==> ops[i].Outside? || ops[i] == Get(0)
  }

  ghost function PushHistory(ops: seq<Op>): seq<Coro> {
    if ops == [] then []
    else PushHistory(ops[..|ops|-1]) + (if ops[|ops|-1].Outside? then [ops[|ops|-1].task] else [])
  }

  ghost function Dispatched(log: seq<(nat, Coro)>): seq<Coro> {
    seq(|log|, i requires 0 <= i < |log| => log[i].1)
  }

  /**
    * One worker fed only from outside: the two levels together are a single FIFO. What was
    * dispatched, followed by the local queue, followed by the global list, is the push history.
    */
  lemma {:induction false} TwoLevelsAreOneFifo(cfg: Config, ops: seq<Op>)
    requires cfg.Usable() && cfg.batch <= cfg.capacity
    requires OneWorkerOutsidePushes(ops)
    ensures InOrder(Run(cfg, Idle(1), ops)) == PushHistory(ops)
  {
    if ops != [] {
      var before := ops[..|ops|-1];
      TwoLevelsAreOneFifo(cfg, before);
      StepKeepsFifo(cfg, Run(cfg, Idle(1), before), ops[|ops|-1]);
    }
  }

  ghost function InOrder(h: Hub): seq<Coro>
    requires |h.locals| == 1
  {
    Dispatched(h.returned) + h.locals[0] + h.global
  }

  lemma StepKeepsFifo(cfg: Config, h: Hub, op: Op)
    requires cfg.Usable() && cfg.batch <= cfg.capacity && |h.locals| == 1
    requires op.Outside? || op == Get(0)
    ensures InOrder(Step(cfg, h, op)) == InOrder(h) + (if op.Outside? then [op.task] else [])
  {
    if op.Get? {
      var t := Take(cfg, h.locals[0], h.global);
      GetKeepsOrder(cfg, h.locals[0], h.global);
      if t.task.Some? {
        DispatchedOneMore(h.returned, 0, t.task.value);
        Regroup(Dispatched(h.returned), [t.task.value], t.local, t.global);
      } else {
        assert Step(cfg, h, op).returned == h.returned;
      }
      RegroupTwo(Dispatched(h.returned), h.locals[0], h.global);
    } else {
      RegroupTwo(Dispatched(h.returned) + h.locals[0], h.global, [op.task]);
    }
  }

  lemma DispatchedOneMore(log: seq<(nat, Coro)>, w: nat, c: Coro)
    ensures Dispatched(log + [(w, c)]) == Dispatched(log) + [c]
  {
  }

  lemma Regroup<T>(a: seq<T>, b: seq<T>, c: seq<T>, d: seq<T>)
    ensures a + b + c + d == a + (b + c + d)
  {
  }

  lemma RegroupTwo<T>(a: seq<T>, b: seq<T>, c: seq<T>)
    ensures a + b + c == a + (b + c)
  {
  }

  lemma GetKeepsOrder(cfg: Config, local: seq<Coro>, global: seq<Coro>)
    requires cfg.Usable() && cfg.batch <= cfg.capacity
    ensures var t := Take(cfg, local, global);
            (if t.task.Some? then [t.task.value] else []) + t.local + t.global == local + global
  {
  }
}
