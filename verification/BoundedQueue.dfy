/** The ring buffer of include/common/bounded_queue.h, proved against a bounded FIFO sequence. */
module BoundedQueues {
  import opened MachineInts

  lemma WrapsOnce(i: int, capacity: int)
    requires 0 <= i <= capacity && 0 < capacity
    ensures i % capacity == if i == capacity then 0 else i
  {
  }

  /** The `%=` that follows each index increment. */
  function Wrap(i: uint32, capacity: uint32): (r: uint32)
    requires i <= capacity && 0 < capacity
    ensures r == if i == capacity then 0 else i
  {
    WrapsOnce(i as int, capacity as int);
    assert (i % capacity) as int == i as int % capacity as int;
    i % capacity
  }

  class BoundedQueue<T(0)> {
    const data: array<T>
    const capacity: uint32
    var head: uint32
    var tail: uint32
    var isEmpty: bool

    /** `head == tail` is ambiguous; `isEmpty` resolves it. */
    ghost predicate Valid()
      reads this
    {
      && 0 < capacity
      && data.Length == capacity as int
      && head < capacity
      && tail < capacity
      && (isEmpty ==> head == tail)
    }

    /** The abstract value: what is queued, oldest first. */
    ghost function Contents(): (s: seq<T>)
      requires Valid()
      reads this, data
      ensures |s| <= capacity as int
    {
      if isEmpty then []
      else if head < tail then data[head..tail]
      else data[head..] + data[..tail]
    }

    constructor (capacity: uint32)
      requires 0 < capacity
      ensures Valid() && fresh(data) && this.capacity == capacity
      ensures Contents() == []
    {
      this.capacity := capacity;
      data := new T[capacity];
      head, tail, isEmpty := 0, 0, true;
    }

    /** `empty()` is exact, also when head and tail coincide. */
    predicate Empty()
      requires Valid()
      reads this, data
      ensures Empty() <==> Contents() == []
    {
      isEmpty
    }

    /** `full()` is exact, also when head and tail coincide. */
    predicate Full()
      requires Valid()
      reads this, data
      ensures Full() <==> |Contents()| == capacity as int
    {
      tail == head && !isEmpty
    }

    function Front(): (x: T)
      requires Valid() && Contents() != []
      reads this, data
      ensures x == Contents()[0]
    {
      data[head]
    }

    method Push(value: T) returns (ok: bool)
      requires Valid()
      modifies this, data
      ensures Valid()
      ensures ok <==> |old(Contents())| < capacity as int
      ensures Contents() == if ok then old(Contents()) + [value] else old(Contents())
    {
      if Full() {
        return false;
      }
      data[tail] := value;
      tail := tail + 1;
      tail := Wrap(tail, capacity);
      isEmpty := false;
      return true;
    }

    /** The indices are in range, which even an unguarded `pop` keeps. */
    ghost predicate InRange()
      reads this
    {
      0 < capacity && data.Length == capacity as int && head < capacity && tail < capacity
    }

    /**
      * `pop` is not guarded. On a queue with elements it removes the oldest. On an empty one it moves
      * the head away from the tail, and the state stays meaningful iff the capacity is 1.
      */
    method Pop()
      requires InRange()
      modifies this
      ensures InRange()
      ensures old(Valid() && Contents() != []) ==> Valid() && Contents() == old(Contents())[1..]
      ensures old(Valid() && Contents() == []) ==> isEmpty && (Valid() <==> capacity == 1)
    {
      head := head + 1;
      head := Wrap(head, capacity);
      if tail == head {
        isEmpty := true;
      }
    }
  }
}
