// The shared input buffer: device interrupts push, sys_read pops.

module Input {
  import opened Options
  import opened Bytes

  type Byte = u8

  const CAP := 64

  /** What push does to the queue: a byte is dropped when the queue is full. */
  function Pushed(q: seq<Byte>, b: Byte): seq<Byte> {
    if |q| < CAP then q + [b] else q
  }

  class InputRing {
    const buf: array<Byte>
    var head: nat
    var len: nat

    ghost predicate Valid()
      reads this
    {
      buf.Length == CAP && head < CAP && len <= CAP
    }

    /** The queued bytes, next pop first. */
    ghost function Contents(): (q: seq<Byte>)
      requires Valid()
      reads this, buf
      ensures |q| == len
    {
      seq(len, k requires 0 <= k < len reads this, buf requires Valid() => buf[(head + k) % CAP])
    }

    constructor ()
      ensures Valid() && Contents() == [] && fresh(buf)
    {
      buf := new Byte[CAP];
      head, len := 0, 0;
    }

    method Push(b: Byte)
      requires Valid()
      modifies this, buf
      ensures Valid() && Contents() == Pushed(old(Contents()), b)
    {
      if len < CAP {
        ghost var q := Contents();
        buf[(head + len) % CAP] := b;
        len := len + 1;
        assert forall k | 0 <= k < |q| :: buf[(head + k) % CAP] == q[k];
        assert Contents() == q + [b];
      }
    }

    method Pop() returns (b: Option<Byte>)
      requires Valid()
      modifies this
      ensures Valid()
      ensures if old(Contents()) == [] then b == None && Contents() == []
              else b == Some(old(Contents())[0]) && Contents() == old(Contents())[1..]
    {
      if len == 0 { return None; }
      b := Some(buf[head]);
      ghost var q := Contents();
      head, len := (head + 1) % CAP, len - 1;
      assert forall k | 0 <= k < len :: Contents()[k] == q[k + 1];
    }
  }
}
