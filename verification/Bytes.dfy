// Bytes and little-endian numbers.

module Bytes {
  type u8 = b: int | 0 <= b < 256

  function LeWord(b: seq<u8>): nat { if b == [] then 0 else b[0] + 256 * LeWord(b[1..]) }

  function LeBytes(w: nat, n: nat): (b: seq<u8>)
    ensures |b| == n
  {
    if n == 0 then [] else [w % 256] + LeBytes(w / 256, n - 1)
  }

  function Pow256(n: nat): nat { if n == 0 then 1 else 256 * Pow256(n - 1) }

  lemma {:induction false} LeRoundTrip(w: nat, n: nat)
    requires w < Pow256(n)
    ensures LeWord(LeBytes(w, n)) == w
  {
    if n > 0 {
      LeRoundTrip(w / 256, n - 1);
      assert LeBytes(w, n)[1..] == LeBytes(w / 256, n - 1);
    }
  }

  lemma {:induction false} LeWordBound(b: seq<u8>)
    ensures LeWord(b) < Pow256(|b|)
  {
    if b != [] {
      LeWordBound(b[1..]);
    }
  }

  lemma Pow256Eight()
    ensures Pow256(8) == 0x1_0000_0000_0000_0000
  {
    assert Pow256(2) == 0x1_0000;
    assert Pow256(4) == 0x1_0000_0000;
    assert Pow256(6) == 0x1_0000_0000_0000;
  }
}
