/** The growable byte FIFO of src/common/dynamic_buffer.cpp. */
module DynamicBuffers {
  import opened MachineInts

  /** One `size_t` addition or subtraction. */
  function Wrap64(x: int): (r: nat)
    requires -TWO_64 <= x < 2 * TWO_64
    ensures r < TWO_64 && r == x % TWO_64
  {
    if x < 0 then x + TWO_64 else if x < TWO_64 then x else x - TWO_64
  }

  /** The numbers that decide what `append` does; `block` is the length of the malloc'ed block. */
  datatype Shape = Shape(read: nat, write: nat, capacity: nat, block: nat, maxCapacity: nat, threshold: nat) {
    predicate Sound() {
      read <= write <= block <= capacity <= 2 * block && 4 * block < TWO_64 && maxCapacity < TWO_64
    }

    function Writable(): (r: nat)
      requires Sound()
      ensures r == capacity - write
    {
      Wrap64(capacity - write)
    }

    /** `max_writable_bytes`: the space in front counts from the threshold on. */
    function MaxWritable(): nat
      requires write <= capacity < TWO_64 && read < TWO_64 && maxCapacity < TWO_64
    {
      Wrap64(Wrap64(Wrap64(maxCapacity - capacity) + Wrap64(capacity - write))
             + if read >= threshold then read else 0)
    }

    /** `move_forward`: the capacity is raised although the block stays as it is. */
    function Moved(): Shape
      requires read <= write
    {
      this.(read := 0, write := write - read, capacity := capacity + read)
    }
  }

  /** The four ways through `append`. */
  datatype Course = InPlace | Reject | Compact | Expand

  function CourseOf(s: Shape, length: nat): Course
    requires s.Sound()
  {
    if length <= s.Writable() then InPlace
    else if length > s.MaxWritable() then Reject
    else if length <= s.Moved().MaxWritable() then Compact
    else Expand
  }

  /** Every byte that `append` moves or copies lies in the block. */
  ghost predicate InBlock(s: Shape, length: nat)
    requires s.Sound()
  {
    match CourseOf(s, length)
    case InPlace => s.write + length <= s.block
    case Reject => true
    case Compact => s.capacity <= s.block && s.write - s.read + length <= s.block
    case Expand => s.capacity <= s.block && s.Moved().capacity <= s.block
  }

  /** The sizes after an accepted append. */
  function Grown(s: Shape, length: nat): Shape
    requires s.Sound()
  {
    var s1 := if CourseOf(s, length) == InPlace then s else s.Moved();
    s1.(write := s1.write + length)
  }

  /** Compaction cannot make less space look writable, so a buffer within its maximum never reaches `expand_capacity`. */
  lemma SecondCheckCannotFire(s: Shape, length: nat)
    requires s.Sound() && s.write <= s.maxCapacity
    ensures CourseOf(s, length) != Expand
    ensures CourseOf(s, length) == Reject <==>
              length > s.Writable() && length > s.maxCapacity - s.write + (if s.read >= s.threshold then s.read else 0)
  {
  }

  /** `x` as a `size_t`. */
  function Mod64(x: int): nat {
    x % TWO_64
  }

  /**
    * Which way `append` takes, for every state, in closed form. All subtractions are modulo 2^64: a buffer
    * written beyond its maximum takes its remaining space for almost all of 2^64.
    */
  lemma CourseInClosedForm(s: Shape, length: nat)
    requires s.Sound()
    ensures CourseOf(s, length) == InPlace <==> length <= s.capacity - s.write
    ensures CourseOf(s, length) == Reject <==>
              length > s.capacity - s.write
              && length > Mod64(s.maxCapacity - s.write + (if s.read >= s.threshold then s.read else 0))
    ensures CourseOf(s, length) == Expand <==>
              length > s.capacity - s.write
              && Mod64(s.maxCapacity - Readable(s)) < length
              && length <= Mod64(s.maxCapacity - s.write + (if s.read >= s.threshold then s.read else 0))
  {
    MaxWritableInClosedForm(s);
    MaxWritableInClosedForm(s.Moved());
    assert s.Moved().MaxWritable() == Mod64(s.maxCapacity - Readable(s));
  }

  lemma MaxWritableInClosedForm(s: Shape)
    requires s.read <= s.write <= s.capacity < TWO_64 && s.maxCapacity < TWO_64
    ensures s.MaxWritable() == Mod64(s.maxCapacity - s.write + (if s.read >= s.threshold then s.read else 0))
  {
  }

  /** In no state does `expand_capacity` run with all its copying inside the block. */
  lemma ExpandIsNeverInBlock(s: Shape, length: nat)
    requires s.Sound() && CourseOf(s, length) == Expand
    ensures !InBlock(s, length)
  {
  }

  /**
    * In every state, an append stays in the block iff it is rejected, or fits behind what is written,
    * or compaction is still in order (`capacity` is the block's length) and it fits once the
    * consumed bytes are reclaimed.
    */
  lemma InBlockIff(s: Shape, length: nat)
    requires s.Sound()
    ensures InBlock(s, length) <==>
              || CourseOf(s, length) == Reject
              || s.write + length <= s.block
              || (s.capacity == s.block && CourseOf(s, length) != Expand && s.write - s.read + length <= s.block)
    ensures s.write <= s.maxCapacity ==> CourseOf(s, length) != Expand
  {
    if s.write <= s.maxCapacity {
      SecondCheckCannotFire(s, length);
    }
  }

  /**
    * Once a compaction has raised `capacity` above the block, an append that ends between the two is
    * accepted without any check and leaves the block.
    */
  lemma RaisedCapacityOverruns(s: Shape, length: nat)
    requires s.Sound() && s.block < s.capacity
    requires s.block - s.write < length <= s.capacity - s.write
    ensures CourseOf(s, length) == InPlace && !InBlock(s, length)
  {
  }

  /** Such a state is reached by appends and consumption that all stay in the block. */
  lemma CompactionRaisesCapacity()
    ensures var s := Shape(6, 8, 10, 10, 100, 1);
            && s.Sound() && InBlock(s, 5) && CourseOf(s, 5) == Compact
            && Grown(s, 5) == Shape(0, 7, 16, 10, 100, 1)
            && Grown(s, 5).Sound() && CourseOf(Grown(s, 5), 9) == InPlace && !InBlock(Grown(s, 5), 9)
  {
    var s := Shape(6, 8, 10, 10, 100, 1);
    SecondCheckCannotFire(s, 5);
    RaisedCapacityOverruns(Shape(0, 7, 16, 10, 100, 1), 9);
  }

  /**
    * A buffer that has consumed nothing accepts any append up to its maximum, but no accepted
    * append beyond the initial block fits: the storage never grows.
    */
  lemma AcceptedButDoesNotFit(s: Shape, length: nat)
    requires s.Sound() && s.capacity == s.block && s.read == 0
    requires s.block - s.write < length <= s.maxCapacity - s.write
    ensures CourseOf(s, length) == Compact && !InBlock(s, length)
  {
    SecondCheckCannotFire(s, length);
    InBlockIff(s, length);
  }

  // ---------------------------------------------------------------- a series of appends

  /** Until the next consumption, either no compaction has raised the capacity or nothing can be reclaimed. */
  predicate Tight(s: Shape) {
    s.capacity == s.block || s.read == 0
  }

  function Readable(s: Shape): int {
    s.write - s.read
  }

  /** In such a state an accepted append stays in the block iff the readable bytes then fit it. */
  lemma TightAppend(s: Shape, length: nat)
    requires s.Sound() && Tight(s) && s.block <= s.maxCapacity && CourseOf(s, length) != Reject
    ensures InBlock(s, length) <==> Readable(s) + length <= s.block
    ensures InBlock(s, length) ==> var g := Grown(s, length);
              g.Sound() && Tight(g) && g.block == s.block && g.maxCapacity == s.maxCapacity
              && Readable(g) == Readable(s) + length
  {
    InBlockIff(s, length);
  }

  function Sum(lengths: seq<nat>): nat {
    if lengths == [] then 0 else Sum(lengths[..|lengths|-1]) + lengths[|lengths|-1]
  }

  /** A series of appends, each accepted and inside the block. */
  ghost predicate AllStored(s: Shape, lengths: seq<nat>)
    requires s.Sound() && Tight(s) && s.block <= s.maxCapacity
    decreases |lengths|, 0
  {
    lengths == []
    || (AllStored(s, lengths[..|lengths|-1])
        && var mid := GrownBy(s, lengths[..|lengths|-1]);
           CourseOf(mid, lengths[|lengths|-1]) != Reject && InBlock(mid, lengths[|lengths|-1]))
  }

  ghost function GrownBy(s: Shape, lengths: seq<nat>): (g: Shape)
    requires s.Sound() && Tight(s) && s.block <= s.maxCapacity && AllStored(s, lengths)
    ensures g.Sound() && Tight(g) && g.block == s.block && g.maxCapacity == s.maxCapacity
    ensures Readable(g) == Readable(s) + Sum(lengths)
    decreases |lengths|, 1
  {
    if lengths == [] then s
    else
      var mid, n := GrownBy(s, lengths[..|lengths|-1]), lengths[|lengths|-1];
      TightAppend(mid, n);
      Grown(mid, n)
  }

  /** None of the appends is rejected, as far as they can be followed inside the block. */
  ghost predicate NoneRejected(s: Shape, lengths: seq<nat>)
    requires s.Sound() && Tight(s) && s.block <= s.maxCapacity
  {
    forall k :: 0 <= k < |lengths| && AllStored(s, lengths[..k]) ==> CourseOf(GrownBy(s, lengths[..k]), lengths[k]) != Reject
  }

  /** A series of accepted appends stays in the block, all of it, iff the readable bytes at its end fit the block. */
  lemma {:induction false} SeriesStaysInBlockIff(s: Shape, lengths: seq<nat>)
    requires s.Sound() && Tight(s) && s.block <= s.maxCapacity && NoneRejected(s, lengths)
    ensures AllStored(s, lengths) <==> Readable(s) + Sum(lengths) <= s.block
  {
    if lengths != [] {
      var most, n := lengths[..|lengths|-1], lengths[|lengths|-1];
      forall k | 0 <= k < |most| && AllStored(s, most[..k])
        ensures CourseOf(GrownBy(s, most[..k]), most[k]) != Reject
      {
        assert most[..k] == lengths[..k];
      }
      SeriesStaysInBlockIff(s, most);
      assert most == lengths[..|lengths|-1];
      if AllStored(s, most) {
        assert CourseOf(GrownBy(s, most), lengths[|lengths|-1]) != Reject;
        TightAppend(GrownBy(s, most), n);
      }
    }
  }

  /** `memmove` to the front of the block. */
  method MemMove(block: array<byte>, from: nat, n: nat)
    requires from + n <= block.Length
    modifies block
    ensures block[..n] == old(block[from..from + n]) && block[n..] == old(block[n..])
  {
    var i := 0;
    while i < n
      invariant i <= n
      invariant forall k :: 0 <= k < i ==> block[k] == old(block[from + k])
      invariant forall k :: i <= k < block.Length ==> block[k] == old(block[k])
    {
      block[i] := block[from + i];
      i := i + 1;
    }
  }

  /** `memcpy` into the block. */
  method MemCpy(block: array<byte>, at: nat, data: seq<byte>)
    requires at + |data| <= block.Length
    modifies block
    ensures block[..at] == old(block[..at])
    ensures block[at..at + |data|] == data
    ensures block[at + |data|..] == old(block[at + |data|..])
  {
    var i := 0;
    while i < |data|
      invariant i <= |data|
      invariant forall k :: 0 <= k < i ==> block[at + k] == data[k]
      invariant forall k :: 0 <= k < at || at + i <= k < block.Length ==> block[k] == old(block[k])
    {
      block[at + i] := data[i];
      i := i + 1;
    }
  }

  lemma SliceOfSlice<T>(s: seq<T>, lo: nat, hi: nat, n: nat)
    requires lo + n <= hi <= |s|
    ensures s[lo..hi][..n] == s[lo..lo + n]
  {
  }

  lemma SliceJoins<T>(s: seq<T>, lo: nat, mid: nat, hi: nat)
    requires lo <= mid <= hi <= |s|
    ensures s[lo..hi] == s[..mid][lo..] + s[mid..hi]
    ensures s[..mid][lo..] == s[lo..mid]
  {
  }

  class DynamicBuffer {
    const buffer: array<byte>
    const maxCapacity: nat
    const threshold: nat               // move_forward_threshold
    var readIndex: nat
    var writeIndex: nat
    var capacity: nat
    ghost var appended: seq<byte>      // all bytes of accepted appends
    ghost var consumed: seq<byte>      // all bytes handed out

    function Sizes(): Shape
      reads this
    {
      Shape(readIndex, writeIndex, capacity, buffer.Length, maxCapacity, threshold)
    }

    /** Bytes consumed followed by bytes readable are all the bytes accepted. */
    ghost predicate Valid()
      reads this, buffer
    {
      && Sizes().Sound()
      && consumed + buffer[readIndex..writeIndex] == appended
    }

    ghost function Readable(): seq<byte>
      requires Valid()
      reads this, buffer
    {
      buffer[readIndex..writeIndex]
    }

    constructor (maxCapacity: nat, initCapacity: nat, threshold: nat)
      requires 4 * initCapacity < TWO_64 && maxCapacity < TWO_64
      ensures Valid() && fresh(buffer) && Readable() == []
      ensures Sizes() == Shape(0, 0, initCapacity, initCapacity, maxCapacity, threshold)
      ensures appended == consumed == []
    {
      buffer := new byte[initCapacity];
      this.maxCapacity := maxCapacity;
      this.threshold := threshold;
      readIndex, writeIndex, capacity := 0, 0, initCapacity;
      appended, consumed := [], [];
    }

    method Append(data: seq<byte>) returns (ok: bool)
      requires Valid() && InBlock(Sizes(), |data|)
      modifies this, buffer
      ensures Valid() && consumed == old(consumed)
      ensures ok <==> CourseOf(old(Sizes()), |data|) != Reject
      ensures ok ==> Readable() == old(Readable()) + data && appended == old(appended) + data
      ensures ok ==> Sizes() == Grown(old(Sizes()), |data|)
      ensures !ok ==> Sizes() == old(Sizes()) && buffer[..] == old(buffer[..]) && appended == old(appended)
      ensures !ok ==> Readable() == old(Readable())
    {
      if |data| > Sizes().Writable() {
        if |data| > Sizes().MaxWritable() {
          return false;
        }
        ghost var before := Sizes();
        MoveForward();
        if |data| > Sizes().MaxWritable() {
          ExpandIsNeverInBlock(before, |data|);
          assert false;
        }
      }
      Store(data);
      return true;
    }

    /** The `memcpy` at the write section's start. */
    method Store(data: seq<byte>)
      requires Valid() && writeIndex + |data| <= buffer.Length
      modifies this, buffer
      ensures Valid() && consumed == old(consumed) && appended == old(appended) + data
      ensures Readable() == old(Readable()) + data
      ensures Sizes() == old(Sizes()).(write := old(writeIndex) + |data|)
    {
      SliceJoins(buffer[..], readIndex, writeIndex, writeIndex);
      MemCpy(buffer, writeIndex, data);
      SliceJoins(buffer[..], readIndex, writeIndex, writeIndex + |data|);
      writeIndex := writeIndex + |data|;
      appended := appended + data;
    }

    /** Compaction changes no readable byte. */
    method MoveForward()
      requires Valid() && capacity <= buffer.Length
      modifies this, buffer
      ensures Valid() && Sizes() == old(Sizes()).Moved()
      ensures Readable() == old(Readable()) && appended == old(appended) && consumed == old(consumed)
    {
      var prependable := readIndex;
      var n := capacity - prependable;
      ghost var w := writeIndex - prependable;
      SliceOfSlice(buffer[..], prependable, capacity, w);
      MemMove(buffer, prependable, n);
      SliceOfSlice(buffer[..], 0, n, w);
      writeIndex := writeIndex - prependable;
      readIndex := 0;
      capacity := capacity + prependable;
    }

    /** Hands out the oldest bytes, or nothing. */
    method Consume(length: nat) returns (ok: bool, data: seq<byte>)
      requires Valid()
      modifies this
      ensures Valid() && appended == old(appended)
      ensures ok <==> length <= |old(Readable())|
      ensures ok ==> data == old(Readable())[..length] && Readable() == old(Readable())[length..]
      ensures ok ==> consumed == old(consumed) + data && Sizes() == old(Sizes()).(read := old(readIndex) + length)
      ensures !ok ==> data == [] && Sizes() == old(Sizes()) && consumed == old(consumed)
    {
      if length > writeIndex - readIndex {
        return false, [];
      }
      data := buffer[readIndex..readIndex + length];
      assert buffer[readIndex..writeIndex] == data + buffer[readIndex + length..writeIndex];
      readIndex := readIndex + length;
      consumed := consumed + data;
      return true, data;
    }
  }
}
