/** The context object of `smart_read_until` and its callback, on the real buffer and search loop. */
module ReadUntilContexts {
  import opened MachineInts
  import opened DelimiterSearch
  import opened DynamicBuffers
  import opened ReadUntil

  /** What `::read` returns. */
  datatype ReadResult = Got(data: seq<byte>) | Eof | WouldBlock | Error

  /** The buffer's sizes after a callback. */
  function SizesAfter(s: Shape, r: ReadResult): Shape
    requires s.Sound()
  {
    if r.Got? && CourseOf(s, |r.data|) != Reject then Grown(s, |r.data|) else s
  }

  class ReadUntilContext {
    const buffer: DynamicBuffer
    const delim: seq<byte>
    var lastSearchEnd: nat
    var ret: int
    var ec: bool

    ghost predicate Valid()
      reads this, buffer, buffer.buffer
    {
      buffer.Valid() && lastSearchEnd <= |buffer.Readable()|
    }

    ghost function View(): Until
      requires Valid()
      reads this, buffer, buffer.buffer
    {
      Until(delim, buffer.Readable(), lastSearchEnd, ret, ec)
    }

    constructor (buffer: DynamicBuffer, delim: seq<byte>)
      requires buffer.Valid()
      ensures Valid() && this.buffer == buffer
      ensures View() == Begin(buffer.Readable(), delim)
    {
      this.buffer := buffer;
      this.delim := delim;
      lastSearchEnd, ret, ec := 0, 0, false;
    }

    /**
      * `smart_read_until_impl`. `unsigned int` indices limit the unsearched part to below 2^32 bytes;
      * the copy into the buffer has to stay in its block.
      */
    method Callback(r: ReadResult) returns (resume: bool)
      requires Valid()
      requires r.Got? ==> 1 <= |r.data| <= CHUNK && InBlock(buffer.Sizes(), |r.data|)
      requires |buffer.Readable()| - lastSearchEnd + CHUNK < 0x1_0000_0000
      modifies this, buffer, buffer.buffer
      ensures Valid()
      ensures match r
              case Got(data) =>
                var stored := CourseOf(old(buffer.Sizes()), |data|) != Reject;
                (View(), resume) == OnAnswer(old(View()), Chunk(data, stored))
              case Eof => (View(), resume) == OnAnswer(old(View()), EndOfFile)
              case WouldBlock => (View(), resume) == OnAnswer(old(View()), Blocked)
              case Error => (View(), resume) == OnAnswer(old(View()), Failed)
      ensures buffer.Sizes() == SizesAfter(old(buffer.Sizes()), r)
    {
      match r {
        case Got(data) =>
          var stored := Take(data);
          var found := SearchOn();
          resume := !stored || found;
        case Eof => resume := true;
        case WouldBlock => resume := false;
        case Error =>
          ret := -1;
          resume := true;
      }
    }

    method Take(data: seq<byte>) returns (stored: bool)
      requires Valid() && InBlock(buffer.Sizes(), |data|)
      modifies this`ret, this`ec, buffer, buffer.buffer
      ensures Valid() && stored == (CourseOf(old(buffer.Sizes()), |data|) != Reject)
      ensures View() == Absorb(old(View()), data, stored)
      ensures buffer.Sizes() == SizesAfter(old(buffer.Sizes()), Got(data))
    {
      ret := ret + |data|;
      stored := buffer.Append(data);
      if !stored { // the buffer is full, which may lose data
        ec := true;
        ret := -1;
      }
    }

    method SearchOn() returns (found: bool)
      requires Valid() && |buffer.Readable()| - lastSearchEnd < 0x1_0000_0000
      modifies this`lastSearchEnd
      ensures Valid() && (View(), found) == ReadUntil.SearchOn(old(View()))
    {
      var searchBuffer := buffer.buffer[buffer.readIndex + lastSearchEnd..buffer.writeIndex];
      assert searchBuffer == buffer.Readable()[lastSearchEnd..];
      var result, i := PartialSearch(searchBuffer, delim);
      match result {
        case Match =>
        case PartialMatch => lastSearchEnd := lastSearchEnd + i;
        case NotMatch => lastSearchEnd := buffer.writeIndex - buffer.readIndex;
      }
      found := result == Match;
    }
  }

  // ---------------------------------------------------------------- the whole operation on its buffer

  function AnswerTo(r: ReadResult, stored: bool): Answer {
    match r
    case Got(data) => Chunk(data, stored)
    case Eof => EndOfFile
    case WouldBlock => Blocked
    case Error => Failed
  }

  /**
    * The answers tell what happened on the first results, with one verdict of the buffer or the other
    * on each chunk; `accepting` if it accepted all.
    */
  predicate Tells(results: seq<ReadResult>, answers: seq<Answer>, accepting: bool) {
    && |answers| <= |results|
    && forall i :: 0 <= i < |answers| ==>
         answers[i] == AnswerTo(results[i], true) || (!accepting && answers[i] == AnswerTo(results[i], false))
  }

  lemma TellsOneMore(results: seq<ReadResult>, answers: seq<Answer>, accepting: bool, stored: bool)
    requires Tells(results, answers, accepting) && |answers| < |results| && (accepting ==> stored)
    ensures Tells(results, answers + [AnswerTo(results[|answers|], stored)], accepting)
  {
  }

  function Bytes(r: ReadResult): nat {
    if r.Got? then |r.data| else 0
  }

  function Total(results: seq<ReadResult>): nat {
    if results == [] then 0 else Total(results[..|results|-1]) + Bytes(results[|results|-1])
  }

  lemma {:induction false} TotalOfPrefix(results: seq<ReadResult>, k: nat)
    requires k < |results|
    ensures Total(results[..k]) + Bytes(results[k]) == Total(results[..k+1]) <= Total(results)
  {
    assert results[..k+1][..k] == results[..k];
    if k + 1 == |results| {
      assert results[..k+1] == results;
    } else {
      var most := results[..|results|-1];
      TotalOfPrefix(most, k);
      assert most[..k] == results[..k] && most[..k+1] == results[..k+1];
    }
  }

  /** What one callback keeps, so that the next one is in order as well. */
  ghost predicate Ready(c: ReadUntilContext, bytes: nat)
    reads c, c.buffer, c.buffer.buffer
  {
    && c.Valid() && Tight(c.buffer.Sizes())
    && c.buffer.Sizes().block <= c.buffer.maxCapacity
    && |c.buffer.Readable()| + bytes <= c.buffer.Sizes().block
    && c.buffer.Sizes().block + CHUNK < 0x1_0000_0000
  }

  /** One callback of a series whose bytes all fit. */
  method CallbackThatFits(c: ReadUntilContext, r: ReadResult, ghost rest: nat) returns (resume: bool, ghost stored: bool)
    requires Ready(c, Bytes(r) + rest) && (r.Got? ==> 1 <= |r.data| <= CHUNK)
    modifies c, c.buffer, c.buffer.buffer
    ensures Ready(c, rest)
    ensures (c.View(), resume) == OnAnswer(old(c.View()), AnswerTo(r, stored))
    ensures old(c.buffer.readIndex) == 0 ==> stored && c.buffer.readIndex == 0
  {
    ghost var s := c.buffer.Sizes();
    stored := r.Got? ==> CourseOf(s, |r.data|) != Reject;
    if r.Got? && stored {
      TightAppend(s, |r.data|);
    }
    resume := c.Callback(r);
  }

  /**
    * A whole `smart_read_until` on its buffer: if initial contents and stream fit the block, every
    * callback stays inside it, and the operation is the one whose search is exact, up to the
    * callback that resumes it. A buffer from which nothing was consumed accepts every chunk.
    */
  method Drive(c: ReadUntilContext, results: seq<ReadResult>) returns (resumed: bool, ghost answers: seq<Answer>)
    requires c.Valid() && c.View() == Begin(c.buffer.Readable(), c.delim)
    requires Ready(c, Total(results))
    requires forall i :: 0 <= i < |results| && results[i].Got? ==> 1 <= |results[i].data| <= CHUNK
    modifies c, c.buffer, c.buffer.buffer
    ensures c.Valid() && (c.View(), resumed) == After(old(c.buffer.Readable()), c.delim, answers)
    ensures Tells(results, answers, old(c.buffer.readIndex) == 0) && (!resumed ==> |answers| == |results|)
  {
    ghost var initial, accepting := c.buffer.Readable(), c.buffer.readIndex == 0;
    resumed, answers := false, [];
    var i := 0;
    while i < |results| && !resumed
      invariant i == |answers| && Tells(results, answers, accepting) && (accepting ==> c.buffer.readIndex == 0)
      invariant Total(results[..i]) <= Total(results) && Ready(c, Total(results) - Total(results[..i]))
      invariant (c.View(), resumed) == After(initial, c.delim, answers)
    {
      TotalOfPrefix(results, i);
      ghost var stored;
      resumed, stored := CallbackThatFits(c, results[i], Total(results) - Total(results[..i+1]));
      AfterOneMore(initial, c.delim, answers, AnswerTo(results[i], stored));
      TellsOneMore(results, answers, accepting, stored);
      answers := answers + [AnswerTo(results[i], stored)];
      i := i + 1;
    }
  }

  /** The lengths of the chunks among the answers. */
  function Lengths(answers: seq<Answer>): seq<nat> {
    if answers == [] then []
    else
      var a := answers[|answers|-1];
      Lengths(answers[..|answers|-1]) + (if a.Chunk? then [|a.data|] else [])
  }

  lemma {:induction false} SumOfLengths(answers: seq<Answer>)
    ensures Sum(Lengths(answers)) == |Stream(answers)|
  {
    if answers != [] {
      var most, a := answers[..|answers|-1], answers[|answers|-1];
      SumOfLengths(most);
      if a.Chunk? {
        assert Lengths(answers)[..|Lengths(answers)|-1] == Lengths(most);
      } else {
        assert Lengths(answers) == Lengths(most);
      }
    }
  }

  /**
    * For every stream of accepted chunks, all copies stay in the block iff initial contents plus stream
    * fit it; the buffer may have consumed bytes before, as long as it was not compacted since.
    */
  lemma StreamStaysInBlockIff(s: Shape, initial: seq<byte>, answers: seq<Answer>)
    requires s.Sound() && Tight(s) && s.block <= s.maxCapacity && Readable(s) == |initial|
    requires NoneRejected(s, Lengths(answers))
    ensures AllStored(s, Lengths(answers)) <==> |initial + Stream(answers)| <= s.block
  {
    SeriesStaysInBlockIff(s, Lengths(answers));
    SumOfLengths(answers);
  }
}
