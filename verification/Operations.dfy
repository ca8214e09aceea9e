/**
  * The five parked operations and their callbacks (src/internal/smart_routine_impl.cpp:15-120),
  * driven by whatever the operating system answers.
  */
module Operations {
  import opened MachineInts
  import opened DelimiterSearch
  import R = ReadUntil

  /** What the system call inside one callback returns. */
  datatype Answer =
    | Got(data: seq<byte>, stored: bool)   // read > 0; `stored` is the dynamic buffer's verdict, for read_until
    | Sent(n: nat)                         // write >= 0
    | EndOfFile                            // read == 0
    | Blocked                              // -1 with EWOULDBLOCK
    | Failed(errno: int)                   // -1 with another errno
    | Accepted(fd: nat)                    // accept >= 0
    | SocketError(error: int)              // SO_ERROR, 0 when connected

  datatype Op =
    | Reading(buf: seq<byte>, count: nat, ret: nat, errno: int)
    | Writing(buf: seq<byte>, count: nat, ret: nat, errno: int, sent: seq<byte>)
    | Accepting(fd: int, errno: int)
    | Connecting(errno: int)
    | ReadingUntil(until: R.Until)

  /** `context->ret_ = -1` on a `size_t`. */
  const MINUS_ONE: nat := TWO_64 - 1

  predicate WellFormed(op: Op) {
    match op
    case Reading(buf, count, ret, _) => ret <= count <= |buf|
    case Writing(buf, count, ret, _, _) => ret <= count <= |buf|
    case ReadingUntil(u) => u.lastSearchEnd <= |u.readable|
    case _ => true
  }

  /** The system call's contract: it moves at most what was asked for, and answers its own kind of call. */
  predicate Possible(op: Op, a: Answer) {
    match op
    case Reading(_, count, ret, _) => (a.Got? && 1 <= |a.data| <= count - ret) || a.EndOfFile? || a.Blocked? || a.Failed?
    case Writing(_, count, ret, _, _) => (a.Sent? && a.n <= count - ret) || a.Blocked? || a.Failed?
    case Accepting(_, _) => a.Accepted? || a.Blocked? || a.Failed?
    case Connecting(_) => a.SocketError? || a.Failed?
    case ReadingUntil(_) => (a.Got? && 1 <= |a.data| <= R.CHUNK) || a.EndOfFile? || a.Blocked? || a.Failed?
  }

  function UntilAnswer(a: Answer): R.Answer {
    match a
    case Got(data, stored) => R.Chunk(data, stored)
    case EndOfFile => R.EndOfFile
    case Failed(_) => R.Failed
    case _ => R.Blocked
  }

  /** One callback, and whether it resumes the coroutine. */
  function OnAnswer(op: Op, a: Answer): (r: (Op, bool))
    requires WellFormed(op) && Possible(op, a)
    ensures !r.1 ==> WellFormed(r.0)
  {
    match op
    case Reading(buf, count, ret, errno) =>
      (match a
       case Got(data, _) =>
         var ret' := ret + |data|;
         (Reading(buf[..ret] + data + buf[ret'..], count, ret', errno), ret' == count)
       case Failed(e) => (Reading(buf, count, MINUS_ONE, e), true)
       case _ => (op, a.EndOfFile?))
    case Writing(buf, count, ret, errno, sent) =>
      (match a
       case Sent(n) =>
         (Writing(buf, count, ret + n, errno, sent + buf[ret..ret + n]), n > 0 && ret + n == count)
       case Failed(e) => (Writing(buf, count, MINUS_ONE, e, sent), true)
       case _ => (op, false))
    case Accepting(fd, errno) =>
      (match a
       case Accepted(n) => (Accepting(n, errno), true)
       case Failed(e) => (Accepting(-1, e), true)
       case _ => (op, false))
    case Connecting(errno) =>
      (match a
       case SocketError(e) => (Connecting(if e != 0 then e else errno), true)
       case Failed(e) => (Connecting(e), true)
       case _ => (op, true))
    case ReadingUntil(u) =>
      var (u', resume) := R.OnAnswer(u, UntilAnswer(a));
      (ReadingUntil(u'), resume)
  }

  /** The operation after its callbacks; once it has resumed, its item is disabled and no callback comes. */
  function After(op: Op, answers: seq<Answer>): (r: (Op, bool))
    requires WellFormed(op) && AllPossible(op, answers)
    ensures !r.1 ==> WellFormed(r.0)
    decreases |answers|, 1
  {
    if answers == [] then (op, false)
    else
      var (mid, resumed) := After(op, answers[..|answers|-1]);
      if resumed then (mid, true) else OnAnswer(mid, answers[|answers|-1])
  }

  predicate AllPossible(op: Op, answers: seq<Answer>)
    requires WellFormed(op)
    decreases |answers|, 0
  {
    answers == []
    || (AllPossible(op, answers[..|answers|-1])
        && var (mid, resumed) := After(op, answers[..|answers|-1]);
           !resumed && Possible(mid, answers[|answers|-1]))
  }

  // ---------------------------------------------------------------- smart_read

  /** All bytes that `read` delivered. */
  function Received(answers: seq<Answer>): seq<byte> {
    if answers == [] then []
    else
      var a := answers[|answers|-1];
      Received(answers[..|answers|-1]) + (if a.Got? then a.data else [])
  }

  /** The last callback completes the read: enough bytes, end of file, or an error. */
  predicate ReadCompletes(count: nat, answers: seq<Answer>)
    requires answers != []
  {
    var a := answers[|answers|-1];
    a.EndOfFile? || a.Failed? || (a.Got? && |Received(answers)| == count)
  }

  /**
    * `smart_read` for every sequence of answers: it resumes exactly at the first callback that
    * reaches `count`, fails or meets the end of file; the buffer then starts with the whole stream
    * and is untouched behind it; `ret_` is the stream's length, or -1 with the errno on an error.
    */
  lemma {:induction false} ReadDeliversTheStream(buf: seq<byte>, count: nat, answers: seq<Answer>)
    requires count <= |buf|
    requires AllPossible(Reading(buf, count, 0, 0), answers)
    ensures var (op, resumed) := After(Reading(buf, count, 0, 0), answers);
            var got := Received(answers);
            && (resumed <==> answers != [] && ReadCompletes(count, answers))
            && |got| <= count
            && op == (if answers != [] && answers[|answers|-1].Failed?
                      then Reading(got + buf[|got|..], count, MINUS_ONE, answers[|answers|-1].errno)
                      else Reading(got + buf[|got|..], count, |got|, 0))
  {
    if answers == [] {
      assert buf == [] + buf[0..];
    } else {
      var most, a := answers[..|answers|-1], answers[|answers|-1];
      ReadDeliversTheStream(buf, count, most);
      if a.Got? {
        var got := Received(most);
        var after := got + buf[|got|..];
        assert after[..|got|] == got;
        assert after[|got| + |a.data|..] == buf[|got| + |a.data|..];
        assert got + a.data + buf[|got + a.data|..] == Received(answers) + buf[|Received(answers)|..];
      } else {
        assert Received(answers) == Received(most);
      }
    }
  }

  // ---------------------------------------------------------------- smart_write

  function Written(answers: seq<Answer>): nat {
    if answers == [] then 0
    else
      var a := answers[|answers|-1];
      Written(answers[..|answers|-1]) + (if a.Sent? then a.n else 0)
  }

  /** The last callback completes the write: everything sent, or an error. */
  predicate WriteCompletes(count: nat, answers: seq<Answer>)
    requires answers != []
  {
    var a := answers[|answers|-1];
    a.Failed? || (a.Sent? && a.n > 0 && Written(answers) == count)
  }

  /**
    * `smart_write` for every sequence of answers: it resumes exactly at the first callback that
    * reaches `count` or fails, and the kernel has then taken exactly the first bytes of the buffer,
    * `ret_` of them unless an error set it to -1.
    */
  lemma {:induction false} WriteSendsThePrefix(buf: seq<byte>, count: nat, answers: seq<Answer>)
    requires count <= |buf|
    requires AllPossible(Writing(buf, count, 0, 0, []), answers)
    ensures var (op, resumed) := After(Writing(buf, count, 0, 0, []), answers);
            var n := Written(answers);
            && (resumed <==> answers != [] && WriteCompletes(count, answers))
            && n <= count
            && op == (if answers != [] && answers[|answers|-1].Failed?
                      then Writing(buf, count, MINUS_ONE, answers[|answers|-1].errno, buf[..n])
                      else Writing(buf, count, n, 0, buf[..n]))
  {
    if answers != [] {
      var most, a := answers[..|answers|-1], answers[|answers|-1];
      WriteSendsThePrefix(buf, count, most);
      if a.Sent? {
        var n := Written(most);
        assert buf[..n] + buf[n..n + a.n] == buf[..n + a.n];
      }
    }
  }

  /** A write of no bytes resumes only on an error: `write` returns 0, which is neither branch. */
  lemma EmptyWriteResumesOnlyOnError(buf: seq<byte>, answers: seq<Answer>)
    requires AllPossible(Writing(buf, 0, 0, 0, []), answers)
    ensures After(Writing(buf, 0, 0, 0, []), answers).1 <==> answers != [] && answers[|answers|-1].Failed?
  {
    WriteSendsThePrefix(buf, 0, answers);
    if answers != [] && answers[|answers|-1].Sent? {
      WriteSendsThePrefix(buf, 0, answers[..|answers|-1]);
    }
  }

  /** The write has been taken completely and still waits. */
  ghost predicate SentButWaiting(buf: seq<byte>, count: nat, answers: seq<Answer>)
    requires count <= |buf|
  {
    answers != [] && AllPossible(Writing(buf, count, 0, 0, []), answers)
    && Written(answers) == count && !After(Writing(buf, count, 0, 0, []), answers).1
  }

  lemma {:induction false} SentMeansResumed(buf: seq<byte>, count: nat, answers: seq<Answer>)
    requires 0 < count <= |buf|
    ensures !SentButWaiting(buf, count, answers)
  {
    if answers != [] && AllPossible(Writing(buf, count, 0, 0, []), answers) && Written(answers) == count {
      WriteSendsThePrefix(buf, count, answers);
      SentMeansResumed(buf, count, answers[..|answers|-1]);
    }
  }

  /** Every write whose bytes were all taken has resumed, iff there was at least one byte to write. */
  lemma WriteResumesWhenSentIffNonEmpty(buf: seq<byte>, count: nat)
    requires count <= |buf|
    ensures (forall answers: seq<Answer> :: !SentButWaiting(buf, count, answers)) <==> count > 0
  {
    if count > 0 {
      forall answers: seq<Answer> ensures !SentButWaiting(buf, count, answers) {
        SentMeansResumed(buf, count, answers);
      }
    } else {
      var one := [Sent(0)];
      assert one[..0] == [];
      assert SentButWaiting(buf, count, one);
    }
  }

  // ---------------------------------------------------------------- smart_accept, smart_connect

  /** What `smart_accept` returns to its caller. */
  function AcceptResult(op: Op): (int, int)
    requires op.Accepting?
  {
    if op.fd < 0 then (-1, op.errno) else (op.fd, 0)
  }

  /** What it should return for the answer that ends it. */
  function AcceptOutcome(a: Answer): (int, int) {
    match a
    case Accepted(fd) => (fd as int, 0)
    case Failed(e) => (-1, e)
    case _ => (0, 0)
  }

  /** `smart_accept` waits through every EWOULDBLOCK and returns the first connection or the first error. */
  lemma {:induction false} AcceptReturnsTheFirst(answers: seq<Answer>)
    requires AllPossible(Accepting(-1, 0), answers)
    ensures var (op, resumed) := After(Accepting(-1, 0), answers);
            && op.Accepting?
            && (resumed <==> answers != [] && !answers[|answers|-1].Blocked?)
            && (forall i :: 0 <= i < |answers| - 1 ==> answers[i].Blocked?)
            && (resumed ==> AcceptResult(op) == AcceptOutcome(answers[|answers|-1]))
            && (!resumed ==> op == Accepting(-1, 0))
  {
    if answers != [] {
      AcceptReturnsTheFirst(answers[..|answers|-1]);
    }
  }

  function ConnectError(a: Answer): int {
    match a
    case SocketError(e) => e
    case Failed(e) => e
    case _ => 0
  }

  /** `smart_connect` resumes at its first callback, with the socket's error. */
  lemma ConnectResumesAtOnce(answers: seq<Answer>)
    requires AllPossible(Connecting(0), answers)
    ensures |answers| <= 1
    ensures answers != [] ==>
              After(Connecting(0), answers) == (Connecting(ConnectError(answers[0])), true)
  {
    if |answers| >= 2 {
      ConnectResumesAtOnce(answers[..|answers|-1]);
    } else if answers != [] {
      assert answers[..|answers|-1] == [];
    }
  }

  // ---------------------------------------------------------------- smart_read_until

  function UntilAnswers(answers: seq<Answer>): seq<R.Answer> {
    seq(|answers|, i requires 0 <= i < |answers| => UntilAnswer(answers[i]))
  }

  lemma {:induction false} StreamIsReceived(answers: seq<Answer>)
    ensures R.Stream(UntilAnswers(answers)) == Received(answers)
  {
    if answers != [] {
      StreamIsReceived(answers[..|answers|-1]);
      assert UntilAnswers(answers)[..|answers|-1] == UntilAnswers(answers[..|answers|-1]);
    }
  }

  /** The buffer had no room for what the last callback read. */
  predicate LastRejected(answers: seq<Answer>) {
    answers != [] && answers[|answers|-1].Got? && !answers[|answers|-1].stored
  }

  /** The last callback ends the read-until: end of file, an error, no room, or the delimiter is there. */
  ghost predicate UntilCompletes(initial: seq<byte>, delim: seq<byte>, answers: seq<Answer>)
    requires answers != []
  {
    var a := answers[|answers|-1];
    a.EndOfFile? || a.Failed? || LastRejected(answers) || (a.Got? && Contains(initial + Received(answers), delim))
  }

  /**
    * `smart_read_until` for every sequence of answers: it resumes exactly at the first callback that meets
    * the end of file, fails, overflows the buffer or completes the delimiter anywhere in initial
    * contents plus stream; the buffer then holds both, up to a rejected chunk; `ret_` is the
    * stream's length, or -1 on an error or a rejected chunk, which alone sets the error code.
    */
  lemma {:induction false} ReadUntilDeliversTheStream(initial: seq<byte>, delim: seq<byte>, answers: seq<Answer>)
    requires delim != [] && AllPossible(ReadingUntil(R.Begin(initial, delim)), answers)
    ensures var (op, resumed) := After(ReadingUntil(R.Begin(initial, delim)), answers);
            && op.ReadingUntil?
            && (resumed <==> answers != [] && UntilCompletes(initial, delim, answers))
            && op.until.readable == initial + Received(if LastRejected(answers) then answers[..|answers|-1] else answers)
            && op.until.ret == (if LastRejected(answers) || (answers != [] && answers[|answers|-1].Failed?) then -1
                                else |Received(answers)|)
            && (op.until.failed <==> LastRejected(answers))
  {
    if answers == [] {
      assert initial + Received([]) == initial;
    } else {
      var most, a := answers[..|answers|-1], answers[|answers|-1];
      WaitingUntil(initial, delim, most);
      LastOfUntil(After(ReadingUntil(R.Begin(initial, delim)), most).0.until, initial, Received(most), a);
      assert Received(answers) == Received(most) + (if a.Got? then a.data else []);
    }
  }

  lemma LastOfUntil(u: R.Until, initial: seq<byte>, got: seq<byte>, a: Answer)
    requires u.delim != [] && R.Searched(u) && !u.failed && u.readable == initial + got && u.ret == |got|
    requires a.Got? || a.EndOfFile? || a.Blocked? || a.Failed?
    ensures var (u', resumed) := R.OnAnswer(u, UntilAnswer(a));
            var all, rejected := got + (if a.Got? then a.data else []), a.Got? && !a.stored;
            && (resumed <==> a.EndOfFile? || a.Failed? || rejected || (a.Got? && Contains(initial + all, u.delim)))
            && u'.readable == initial + (if rejected then got else all)
            && u'.ret == (if rejected || a.Failed? then -1 else |all|)
            && (u'.failed <==> rejected)
  {
    if a.Got? {
      assert u.readable + a.data == initial + (got + a.data);
      R.ChunkIsSearchedExactly(u, a.data);
    } else {
      assert got + [] == got;
    }
  }

  lemma WaitingUntil(initial: seq<byte>, delim: seq<byte>, answers: seq<Answer>)
    requires delim != [] && AllPossible(ReadingUntil(R.Begin(initial, delim)), answers)
    requires !After(ReadingUntil(R.Begin(initial, delim)), answers).1
    ensures var op := After(ReadingUntil(R.Begin(initial, delim)), answers).0;
            && op.ReadingUntil? && op.until.delim == delim && R.Searched(op.until) && !op.until.failed
            && op.until.readable == initial + Received(answers) && op.until.ret == |Received(answers)|
  {
    ReadUntilIsTheSearchedOne(initial, delim, answers);
    R.WhileWaiting(initial, delim, UntilAnswers(answers));
    StreamIsReceived(answers);
  }

  /** The read-until operation here is the one whose search is proved exact in ReadUntil.dfy. */
  lemma {:induction false} ReadUntilIsTheSearchedOne(initial: seq<byte>, delim: seq<byte>, answers: seq<Answer>)
    requires AllPossible(ReadingUntil(R.Begin(initial, delim)), answers)
    ensures var (op, resumed) := After(ReadingUntil(R.Begin(initial, delim)), answers);
            var (u, found) := R.After(initial, delim, UntilAnswers(answers));
            op == ReadingUntil(u) && resumed == found
  {
    if answers != [] {
      var most := answers[..|answers|-1];
      ReadUntilIsTheSearchedOne(initial, delim, most);
      assert UntilAnswers(answers)[..|answers|-1] == UntilAnswers(most);
    }
  }

  // ---------------------------------------------------------------- what the next callback may meet

  /** An operation as it parks. */
  predicate Begun(op: Op) {
    match op
    case Reading(buf, count, ret, errno) => ret == 0 && errno == 0 && count <= |buf|
    case Writing(buf, count, ret, errno, sent) => ret == 0 && errno == 0 && sent == [] && count <= |buf|
    case Accepting(fd, errno) => fd == -1 && errno == 0
    case Connecting(errno) => errno == 0
    case ReadingUntil(u) => u == R.Begin(u.readable, u.delim)
  }

  /** What the operation's system call can return after these answers. */
  predicate MayAnswer(begun: Op, answers: seq<Answer>, a: Answer) {
    match a
    case Got(data, _) =>
      data != []
      && ((begun.Reading? && |Received(answers)| + |data| <= begun.count) || (begun.ReadingUntil? && |data| <= 64))
    case Sent(n) => begun.Writing? && Written(answers) + n <= begun.count
    case EndOfFile => begun.Reading? || begun.ReadingUntil?
    case Blocked => !begun.Connecting?
    case Failed(_) => true
    case Accepted(_) => begun.Accepting?
    case SocketError(_) => begun.Connecting?
  }

  /** An operation that still waits can go on with exactly the answers its system call can give. */
  lemma AnyAnswerIsTaken(begun: Op, answers: seq<Answer>, a: Answer)
    requires Begun(begun) && AllPossible(begun, answers) && !After(begun, answers).1
    ensures AllPossible(begun, answers + [a]) <==> MayAnswer(begun, answers, a)
  {
    assert (answers + [a])[..|answers|] == answers;
    match begun
    case Reading(buf, count, _, _) => ReadDeliversTheStream(buf, count, answers);
    case Writing(buf, count, _, _, _) => WriteSendsThePrefix(buf, count, answers);
    case Accepting(_, _) => AcceptReturnsTheFirst(answers);
    case Connecting(_) => ConnectResumesAtOnce(answers);
    case ReadingUntil(u) => ReadUntilIsTheSearchedOne(u.readable, u.delim, answers);
  }
}
