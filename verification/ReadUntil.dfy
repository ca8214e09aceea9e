/**
  * `smart_read_until_impl` (src/internal/smart_routine_impl.cpp:74-120): the delimiter is searched
  * only from `last_search_end_` on, and that must agree with searching the whole buffer.
  */
module ReadUntil {
  import opened MachineInts
  import opened DelimiterSearch

  /** Size of the callback's stack buffer. */
  const CHUNK := 64

  /**
    * One callback's `read`, with the buffer's verdict on what it returned. `stored` is false when
    * `DynamicBuffer::append` set its error code.
    */
  datatype Answer =
    | Chunk(data: seq<byte>, stored: bool)
    | EndOfFile
    | Blocked
    | Failed

  predicate Legal(a: Answer) {
    a.Chunk? ==> 1 <= |a.data| <= CHUNK
  }

  /** The context: `readable` is the buffer's read section. */
  datatype Until = Until(delim: seq<byte>, readable: seq<byte>, lastSearchEnd: nat, ret: int, failed: bool)

  function Begin(initial: seq<byte>, delim: seq<byte>): Until {
    Until(delim, initial, 0, 0, false)
  }

  /** The bytes past `last_search_end_`, which is all that the callback looks at. */
  function Unsearched(u: Until): seq<byte>
    requires u.lastSearchEnd <= |u.readable|
  {
    u.readable[u.lastSearchEnd..]
  }

  /** The append of one callback. */
  function Absorb(u: Until, data: seq<byte>, stored: bool): Until {
    if stored then u.(readable := u.readable + data, ret := u.ret + |data|) else u.(ret := -1, failed := true)
  }

  /** The search of one callback: the cache afterwards, and whether the delimiter was found. */
  function SearchOn(u: Until): (r: (Until, bool))
    requires u.lastSearchEnd <= |u.readable|
    ensures r.0.lastSearchEnd <= |u.readable| && r.0 == u.(lastSearchEnd := r.0.lastSearchEnd)
  {
    var (found, i) := Search(Unsearched(u), u.delim);
    match found
    case Match => (u, true)
    case PartialMatch => (u.(lastSearchEnd := u.lastSearchEnd + i), false)
    case NotMatch => (u.(lastSearchEnd := |u.readable|), false)
  }

  /** One callback, and whether it resumes the coroutine. */
  function OnAnswer(u: Until, a: Answer): (r: (Until, bool))
    requires u.lastSearchEnd <= |u.readable|
    ensures r.0.lastSearchEnd <= |r.0.readable| && r.0.delim == u.delim
  {
    match a
    case Chunk(data, stored) =>
      var (u2, found) := SearchOn(Absorb(u, data, stored));
      (u2, !stored || found)
    case EndOfFile => (u, true)
    case Blocked => (u, false)
    case Failed => (u.(ret := -1), true)
  }

  /** Nothing before `last_search_end_` can be the start of an occurrence, now or later. */
  ghost predicate Searched(u: Until) {
    u.lastSearchEnd <= |u.readable|
    && forall p: nat :: p < u.lastSearchEnd ==> !Compatible(u.readable, u.delim, p)
  }

  lemma CompatibleInSuffix(b: seq<byte>, d: seq<byte>, from: nat, q: nat)
    requires from <= |b|
    ensures Compatible(b[from..], d, q) <==> Compatible(b, d, from + q)
  {
    var s := b[from..];
    if Compatible(b, d, from + q) {
      forall j | 0 <= j < |d| && q + j < |s| ensures s[q + j] == d[j] {
        assert b[(from + q) + j] == d[j];
      }
    }
    if Compatible(s, d, q) {
      forall j | 0 <= j < |d| && from + q + j < |b| ensures b[from + q + j] == d[j] {
        assert s[q + j] == d[j];
      }
    }
  }

  /** Bytes that arrive later do not revive a position that was ruled out. */
  lemma RuledOutStays(b: seq<byte>, more: seq<byte>, d: seq<byte>, p: nat)
    requires !Compatible(b, d, p)
    ensures !Compatible(b + more, d, p)
  {
    var j :| 0 <= j < |d| && p + j < |b| && b[p + j] != d[j];
    assert (b + more)[p + j] != d[j];
  }

  lemma OccurrencesLieInSuffix(b: seq<byte>, d: seq<byte>, from: nat)
    requires d != [] && from <= |b|
    requires forall p: nat :: p < from ==> !Compatible(b, d, p)
    ensures Contains(b, d) <==> Contains(b[from..], d)
    ensures forall q: nat :: FirstOccurrence(b[from..], d, q) ==> FirstOccurrence(b, d, from + q)
  {
    forall p: nat ensures OccursAt(b, d, p) ==> p >= from && OccursAt(b[from..], d, p - from) {
      if OccursAt(b, d, p) {
        CompatibleMeans(b, d, p);
        assert b[from..][p-from..p-from+|d|] == b[p..p+|d|];
      }
    }
    forall q: nat ensures OccursAt(b[from..], d, q) ==> OccursAt(b, d, from + q) {
      if OccursAt(b[from..], d, q) {
        assert b[from+q..from+q+|d|] == b[from..][q..q+|d|];
      }
    }
  }

  /**
    * One stored chunk, for any earlier state: the callback resumes iff the whole readable section
    * contains the delimiter, and then `last_search_end_` plus the returned index is its first
    * occurrence; otherwise fewer bytes than the delimiter has stay unsearched.
    */
  lemma ChunkIsSearchedExactly(u: Until, data: seq<byte>)
    requires u.delim != [] && Searched(u)
    ensures var (u', resume) := OnAnswer(u, Chunk(data, true));
            var whole := u.readable + data;
            && u'.readable == whole
            && (resume <==> Contains(whole, u.delim))
            && (resume ==> FirstOccurrence(whole, u.delim,
                             u.lastSearchEnd + Search(whole[u.lastSearchEnd..], u.delim).1))
            && (!resume ==> Searched(u') && |whole| - u'.lastSearchEnd < |u.delim|)
  {
    var whole, from := u.readable + data, u.lastSearchEnd;
    forall p: nat | p < from ensures !Compatible(whole, u.delim, p) {
      RuledOutStays(u.readable, data, u.delim, p);
    }
    SearchIsExact(whole[from..], u.delim);
    OccurrencesLieInSuffix(whole, u.delim, from);
    var (u', resume) := OnAnswer(u, Chunk(data, true));
    if !resume {
      forall p: nat | p < u'.lastSearchEnd ensures !Compatible(whole, u.delim, p) {
        if p >= from {
          CompatibleInSuffix(whole, u.delim, from, p - from);
        }
      }
    }
  }

  // ---------------------------------------------------------------- whole operations

  /** The parked operation after its callbacks so far; no callback comes once it has resumed. */
  function After(initial: seq<byte>, delim: seq<byte>, answers: seq<Answer>): (r: (Until, bool))
    ensures r.0.lastSearchEnd <= |r.0.readable| && r.0.delim == delim
  {
    if answers == [] then (Begin(initial, delim), false)
    else
      var (u, resumed) := After(initial, delim, answers[..|answers|-1]);
      if resumed then (u, true) else OnAnswer(u, answers[|answers|-1])
  }

  lemma AfterOneMore(initial: seq<byte>, delim: seq<byte>, answers: seq<Answer>, a: Answer)
    requires !After(initial, delim, answers).1
    ensures After(initial, delim, answers + [a]) == OnAnswer(After(initial, delim, answers).0, a)
  {
    assert (answers + [a])[..|answers|] == answers;
  }

  /** Everything the descriptor delivered. */
  function Stream(answers: seq<Answer>): seq<byte> {
    if answers == [] then []
    else
      var a := answers[|answers|-1];
      Stream(answers[..|answers|-1]) + (if a.Chunk? then a.data else [])
  }

  /** What should end the operation, said without a search cache: callback `k` ends it. */
  ghost predicate Ends(initial: seq<byte>, delim: seq<byte>, answers: seq<Answer>, k: nat)
    requires k < |answers|
  {
    match answers[k]
    case Chunk(_, stored) => !stored || Contains(initial + Stream(answers[..k+1]), delim)
    case EndOfFile => true
    case Blocked => false
    case Failed => true
  }

  ghost predicate SomeEnds(initial: seq<byte>, delim: seq<byte>, answers: seq<Answer>) {
    exists k: nat :: k < |answers| && Ends(initial, delim, answers, k)
  }

  lemma EndsOnPrefix(initial: seq<byte>, delim: seq<byte>, answers: seq<Answer>)
    requires answers != []
    ensures SomeEnds(initial, delim, answers) <==>
              SomeEnds(initial, delim, answers[..|answers|-1]) || Ends(initial, delim, answers, |answers| - 1)
  {
    var most := answers[..|answers|-1];
    forall k: nat | k < |most|
      ensures Ends(initial, delim, answers, k) <==> Ends(initial, delim, most, k)
    {
      assert most[..k+1] == answers[..k+1];
    }
    if SomeEnds(initial, delim, most) {
      var k: nat :| k < |most| && Ends(initial, delim, most, k);
      assert Ends(initial, delim, answers, k);
    }
  }

  /** As long as nothing has ended the operation, the buffer holds the whole stream and the cache is sound. */
  lemma {:induction false} WhileWaiting(initial: seq<byte>, delim: seq<byte>, answers: seq<Answer>)
    requires delim != []
    ensures var (u, resumed) := After(initial, delim, answers);
            && (resumed <==> SomeEnds(initial, delim, answers))
            && (!resumed ==>
                  Searched(u) && !u.failed
                  && u.readable == initial + Stream(answers) && u.ret == |Stream(answers)|)
  {
    if answers == [] {
      assert initial + [] == initial;
    } else {
      var n := |answers| - 1;
      WhileWaiting(initial, delim, answers[..n]);
      EndsOnPrefix(initial, delim, answers);
      assert answers[..n+1] == answers;
      var (u, resumed) := After(initial, delim, answers[..n]);
      if !resumed {
        if answers[n].Chunk? {
          assert u.readable + answers[n].data == initial + Stream(answers);
          if answers[n].stored {
            ChunkIsSearchedExactly(u, answers[n].data);
          }
        } else {
          assert Stream(answers) == Stream(answers[..n]);
        }
      }
    }
  }

  /**
    * For every initial contents, non-empty delimiter and sequence of answers, the operation resumes
    * at the first callback that fails, meets the end of file, overflows the buffer or completes an
    * occurrence of the delimiter in initial contents plus stream: searching from the cache is the
    * same as searching everything.
    */
  lemma ResumesExactlyWhenFound(initial: seq<byte>, delim: seq<byte>, answers: seq<Answer>, k: nat)
    requires delim != [] && k < |answers|
    ensures !After(initial, delim, answers[..k]).1 && After(initial, delim, answers[..k+1]).1
            <==> Ends(initial, delim, answers, k) && forall j: nat :: j < k ==> !Ends(initial, delim, answers, j)
  {
    WhileWaiting(initial, delim, answers[..k]);
    WhileWaiting(initial, delim, answers[..k+1]);
    EndsOnPrefix(initial, delim, answers[..k+1]);
    assert answers[..k+1][..k] == answers[..k];
    forall j: nat | j <= k
      ensures Ends(initial, delim, answers[..k+1], j) <==> Ends(initial, delim, answers, j)
    {
      assert answers[..k+1][..j+1] == answers[..j+1];
    }
    forall j: nat | j < k
      ensures Ends(initial, delim, answers[..k], j) <==> Ends(initial, delim, answers, j)
    {
      assert answers[..k][..j+1] == answers[..j+1];
    }
  }

  /**
    * What the caller gets: the stream's length when the operation ended with a stored chunk or the end of
    * file, otherwise -1; the error code is set iff the buffer rejected a chunk.
    */
  lemma ReturnIsStreamLength(initial: seq<byte>, delim: seq<byte>, answers: seq<Answer>, last: Answer)
    requires delim != [] && !After(initial, delim, answers).1
    requires After(initial, delim, answers + [last]).1
    ensures var u := After(initial, delim, answers + [last]).0;
            && u.ret == (if last.Failed? || (last.Chunk? && !last.stored) then -1 else |Stream(answers + [last])|)
            && (u.failed <==> last.Chunk? && !last.stored)
  {
    assert (answers + [last])[..|answers|] == answers;
    WhileWaiting(initial, delim, answers);
  }

  /**
    * When a stored chunk completes the delimiter, `last_search_end_` plus the index of the search is
    * the first occurrence in initial contents plus stream.
    */
  lemma MatchIsFirst(initial: seq<byte>, delim: seq<byte>, answers: seq<Answer>, data: seq<byte>)
    requires delim != []
    requires !After(initial, delim, answers).1 && After(initial, delim, answers + [Chunk(data, true)]).1
    ensures var u := After(initial, delim, answers + [Chunk(data, true)]).0;
            && u.readable == initial + Stream(answers + [Chunk(data, true)])
            && FirstOccurrence(u.readable, delim, u.lastSearchEnd + Search(Unsearched(u), delim).1)
  {
    WhileWaiting(initial, delim, answers);
    AfterOneMore(initial, delim, answers, Chunk(data, true));
    var before := After(initial, delim, answers).0;
    ChunkFoundIsFirst(before, data);
    StreamOneMore(answers, Chunk(data, true));
    assert initial + Stream(answers) + data == initial + (Stream(answers) + data);
  }

  /** A match leaves the cache where it was, so searching from it again gives the same index. */
  lemma ChunkFoundIsFirst(u: Until, data: seq<byte>)
    requires u.delim != [] && Searched(u) && OnAnswer(u, Chunk(data, true)).1
    ensures var u' := OnAnswer(u, Chunk(data, true)).0;
            && u'.readable == u.readable + data
            && FirstOccurrence(u'.readable, u.delim, u'.lastSearchEnd + Search(Unsearched(u'), u.delim).1)
  {
    ChunkIsSearchedExactly(u, data);
  }

  lemma StreamOneMore(answers: seq<Answer>, a: Answer)
    ensures Stream(answers + [a]) == Stream(answers) + (if a.Chunk? then a.data else [])
  {
    assert (answers + [a])[..|answers|] == answers;
  }

  lemma OccurrenceInPrefix(b: seq<byte>, more: seq<byte>, d: seq<byte>, p: nat)
    ensures p + |d| <= |b| && OccursAt(b + more, d, p) ==> OccursAt(b, d, p)
  {
    if p + |d| <= |b| {
      assert b[p..p+|d|] == (b + more)[p..p+|d|];
    }
  }

  /** If the initial contents lack the delimiter, at most 63 bytes follow its first occurrence when it is found. */
  lemma LittleFollowsMatch(initial: seq<byte>, delim: seq<byte>, answers: seq<Answer>, data: seq<byte>, p: nat)
    requires delim != [] && !Contains(initial, delim) && Legal(Chunk(data, true))
    requires !After(initial, delim, answers).1 && After(initial, delim, answers + [Chunk(data, true)]).1
    requires FirstOccurrence(After(initial, delim, answers + [Chunk(data, true)]).0.readable, delim, p)
    ensures |After(initial, delim, answers + [Chunk(data, true)]).0.readable| - (p + |delim|) <= 63
  {
    assert (answers + [Chunk(data, true)])[..|answers|] == answers;
    BeforeLastChunkIsClean(initial, delim, answers);
    var before := After(initial, delim, answers).0.readable;
    OccurrenceInPrefix(before, data, delim, p);
  }

  /** Initial contents without the delimiter stay without it until some callback ends the operation. */
  lemma {:induction false} BeforeLastChunkIsClean(initial: seq<byte>, delim: seq<byte>, answers: seq<Answer>)
    requires delim != [] && !Contains(initial, delim)
    requires !After(initial, delim, answers).1
    ensures !Contains(After(initial, delim, answers).0.readable, delim)
  {
    if answers != [] {
      var n := |answers| - 1;
      BeforeLastChunkIsClean(initial, delim, answers[..n]);
      WhileWaiting(initial, delim, answers[..n]);
      var u := After(initial, delim, answers[..n]).0;
      if answers[n].Chunk? && answers[n].stored {
        ChunkIsSearchedExactly(u, answers[n].data);
      }
    }
  }

  /**
    * After each stored chunk that did not end the operation, fewer bytes than the delimiter has lie
    * past `last_search_end_`.
    */
  lemma LittleIsSearchedAgain(initial: seq<byte>, delim: seq<byte>, answers: seq<Answer>, data: seq<byte>)
    requires delim != []
    requires !After(initial, delim, answers + [Chunk(data, true)]).1
    ensures var u := After(initial, delim, answers + [Chunk(data, true)]).0;
            |Unsearched(u)| < |delim|
  {
    var all := answers + [Chunk(data, true)];
    assert all[..|answers|] == answers;
    WhileWaiting(initial, delim, answers);
    ChunkIsSearchedExactly(After(initial, delim, answers).0, data);
  }
}
