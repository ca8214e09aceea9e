/** `partial_search` (src/internal/smart_routine_impl.cpp:122-141) and what it means. */
module DelimiterSearch {
  import opened MachineInts

  datatype SearchResult = Match | PartialMatch | NotMatch

  predicate OccursAt(b: seq<byte>, d: seq<byte>, p: nat) {
    p + |d| <= |b| && b[p..p+|d|] == d
  }

  ghost predicate Contains(b: seq<byte>, d: seq<byte>) {
    exists p: nat :: OccursAt(b, d, p)
  }

  ghost predicate FirstOccurrence(b: seq<byte>, d: seq<byte>, p: nat) {
    OccursAt(b, d, p) && forall q: nat :: q < p ==> !OccursAt(b, d, q)
  }

  /** From `p` on, `b` ends inside the delimiter: a non-empty suffix that is a proper prefix of `d`. */
  predicate StartsAtEnd(b: seq<byte>, d: seq<byte>, p: nat) {
    p < |b| < p + |d| && b[p..] == d[..|b|-p]
  }

  ghost predicate FirstStartAtEnd(b: seq<byte>, d: seq<byte>, p: nat) {
    StartsAtEnd(b, d, p) && forall q: nat :: q < p ==> !StartsAtEnd(b, d, q)
  }

  /** `b` agrees with `d` from `p` on as far as `b` reaches: an occurrence at `p` is found or still possible. */
  predicate Compatible(b: seq<byte>, d: seq<byte>, p: nat) {
    forall j :: 0 <= j < |d| && p + j < |b| ==> b[p + j] == d[j]
  }

  function FirstCompatible(b: seq<byte>, d: seq<byte>, i: nat): (p: nat)
    requires i <= |b|
    ensures i <= p <= |b|
    ensures p < |b| ==> Compatible(b, d, p)
    ensures forall q :: i <= q < p ==> !Compatible(b, d, q)
    decreases |b| - i
  {
    if i == |b| || Compatible(b, d, i) then i else FirstCompatible(b, d, i + 1)
  }

  /** What `partial_search` returns; with an empty delimiter its inner loop never runs. */
  function Search(b: seq<byte>, d: seq<byte>): (SearchResult, nat) {
    if d == [] then (NotMatch, 0)
    else
      var p := FirstCompatible(b, d, 0);
      if p == |b| then (NotMatch, 0)
      else if p + |d| <= |b| then (Match, p)
      else (PartialMatch, p)
  }

  /** Compatible means: occurs there, or starts there and runs into the end. */
  lemma CompatibleMeans(b: seq<byte>, d: seq<byte>, p: nat)
    requires d != [] && p < |b|
    ensures Compatible(b, d, p) <==> OccursAt(b, d, p) || StartsAtEnd(b, d, p)
  {
    if OccursAt(b, d, p) {
      forall j | 0 <= j < |d| ensures b[p + j] == d[j] {
        assert b[p..p+|d|][j] == d[j];
      }
    } else if StartsAtEnd(b, d, p) {
      forall j | 0 <= j < |d| && p + j < |b| ensures b[p + j] == d[j] {
        assert b[p..][j] == d[..|b|-p][j];
      }
    }
  }

  /**
    * The search is exact for every buffer and non-empty delimiter: `Match` is the first full
    * occurrence; `PartialMatch` means there is none and gives the earliest suffix that is a proper
    * prefix of the delimiter; `NotMatch` means there is neither.
    */
  lemma SearchIsExact(b: seq<byte>, d: seq<byte>)
    requires d != []
    ensures var (r, i) := Search(b, d);
            && (r == Match <==> Contains(b, d))
            && (r == Match ==> FirstOccurrence(b, d, i))
            && (r == PartialMatch <==> !Contains(b, d) && exists p: nat :: StartsAtEnd(b, d, p))
            && (r == PartialMatch ==> FirstStartAtEnd(b, d, i))
  {
    var p := FirstCompatible(b, d, 0);
    forall q: nat | q < |b|
      ensures Compatible(b, d, q) <==> OccursAt(b, d, q) || StartsAtEnd(b, d, q)
    {
      CompatibleMeans(b, d, q);
    }
    if p < |b| && p + |d| <= |b| {
      assert OccursAt(b, d, p);
    } else if p < |b| {
      assert StartsAtEnd(b, d, p);
    }
  }

  /** For an empty delimiter the search never reports `Match`, although the empty string occurs in every buffer. */
  lemma EmptyDelimiterIsNeverFound(b: seq<byte>)
    ensures Search(b, []) == (NotMatch, 0) && Contains(b, [])
  {
    assert OccursAt(b, [], 0);
  }

  /** The search reports exactly the buffers that contain the delimiter iff the delimiter is not empty. */
  lemma SearchDecidesIffNonEmpty(d: seq<byte>)
    ensures (forall b: seq<byte> :: Search(b, d).0 == Match <==> Contains(b, d)) <==> d != []
  {
    if d == [] {
      EmptyDelimiterIsNeverFound([]);
      assert Search([], d).0 != Match;
    } else {
      forall b: seq<byte> ensures Search(b, d).0 == Match <==> Contains(b, d) {
        SearchIsExact(b, d);
      }
    }
  }

  /** `partial_search`. The indices are `unsigned int`; none wraps and none leaves the buffer. */
  method PartialSearch(b: seq<byte>, d: seq<byte>) returns (r: SearchResult, at: nat)
    requires |b| < 0x1_0000_0000
    ensures (r, at) == Search(b, d)
  {
    var i: uint32 := 0;
    while i as int < |b|
      invariant i as int <= |b|
      invariant d != [] ==> FirstCompatible(b, d, 0) == FirstCompatible(b, d, i as int)
    {
      var testI := i;
      var j: uint32 := 0;
      while (j as int) < |d|
        invariant j as int <= |d| && testI as int == i as int + j as int < |b|
        invariant d != [] ==> j as int < |d|
        invariant forall k :: 0 <= k < j as int ==> b[i as int + k] == d[k]
      {
        if b[testI] == d[j] {
          if j as int == |d| - 1 {
            return Match, i as int;
          } else if testI as int == |b| - 1 {
            return PartialMatch, i as int;
          }
        } else {
          break;
        }
        j, testI := j + 1, testI + 1;
      }
      i := i + 1;
    }
    return NotMatch, 0;
  }
}
