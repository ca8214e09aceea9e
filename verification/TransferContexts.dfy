/** The context objects of `smart_read` and `smart_write` and their callbacks, on real buffers. */
module TransferContexts {
  import opened MachineInts
  import opened Operations

  class ReadContext {
    const buf: array<byte>
    const count: nat
    var ret: nat
    var errno: int

    ghost predicate Valid()
      reads this
    {
      ret <= count <= buf.Length
    }

    ghost function View(): Op
      reads this, buf
    {
      Reading(buf[..], count, ret, errno)
    }

    constructor (buf: array<byte>, count: nat)
      requires count <= buf.Length
      ensures Valid() && this.buf == buf && View() == Reading(buf[..], count, 0, 0)
    {
      this.buf := buf;
      this.count := count;
      ret, errno := 0, 0;
    }

    /** `smart_read_impl`; the kernel writes behind what is already there. */
    method Callback(a: Answer) returns (resume: bool)
      requires Valid() && Possible(View(), a)
      modifies this, buf
      ensures (View(), resume) == OnAnswer(old(View()), a)
    {
      resume := false;
      match a {
        case Got(data, _) =>
          forall i | 0 <= i < |data| {
            buf[ret + i] := data[i];
          }
          assert buf[..] == old(buf[..])[..ret] + data + old(buf[..])[ret + |data|..];
          ret := ret + |data|;
          resume := ret == count;
        case Failed(e) =>
          ret := MINUS_ONE;
          errno := e;
          resume := true;
        case EndOfFile => resume := true;
        case _ =>
      }
    }
  }

  class WriteContext {
    const buf: array<byte>
    const count: nat
    var ret: nat
    var errno: int
    ghost var sent: seq<byte>   // what the kernel has taken

    ghost predicate Valid()
      reads this
    {
      ret <= count <= buf.Length
    }

    ghost function View(): Op
      reads this, buf
    {
      Writing(buf[..], count, ret, errno, sent)
    }

    constructor (buf: array<byte>, count: nat)
      requires count <= buf.Length
      ensures Valid() && this.buf == buf && View() == Writing(buf[..], count, 0, 0, [])
    {
      this.buf := buf;
      this.count := count;
      ret, errno, sent := 0, 0, [];
    }

    /** `smart_write_impl`. */
    method Callback(a: Answer) returns (resume: bool)
      requires Valid() && Possible(View(), a)
      modifies this
      ensures (View(), resume) == OnAnswer(old(View()), a)
    {
      resume := false;
      match a {
        case Sent(n) =>
          sent := sent + buf[ret..ret + n];
          assert buf[ret..ret + n] == buf[..][ret..ret + n];
          if n > 0 {
            ret := ret + n;
            resume := ret == count;
          }
        case Failed(e) =>
          ret := MINUS_ONE;
          errno := e;
          resume := true;
        case _ =>
      }
    }
  }
}
