// Bitwise operations on unbounded naturals, and the arithmetic they amount to
// on aligned fields and masks.  Shifts are repeated doubling and halving, so
// every step of every proof is linear.

module Bits {
  function Shl(a: nat, k: nat): nat { if k == 0 then a else 2 * Shl(a, k - 1) }
  function Shr(a: nat, k: nat): nat { if k == 0 then a else Shr(a / 2, k - 1) }

  /** The n low bits of a. */
  function Low(a: nat, n: nat): nat { if n == 0 then 0 else a % 2 + 2 * Low(a / 2, n - 1) }

  /** 2^n - 1. */
  function Ones(n: nat): nat { if n == 0 then 0 else 1 + 2 * Ones(n - 1) }

  function And(a: nat, b: nat): nat
    decreases a
  {
    if a == 0 || b == 0 then 0
    else (if a % 2 == 1 && b % 2 == 1 then 1 else 0) + 2 * And(a / 2, b / 2)
  }

  function Or(a: nat, b: nat): nat
    decreases a
  {
    if a == 0 then b else if b == 0 then a
    else (if a % 2 == 1 || b % 2 == 1 then 1 else 0) + 2 * Or(a / 2, b / 2)
  }

  lemma {:induction false} AndBound(a: nat, b: nat)
    ensures And(a, b) <= a && And(a, b) <= b
    decreases a
  {
    if a != 0 && b != 0 {
      AndBound(a / 2, b / 2);
    }
  }

  lemma {:induction false} OrBound(a: nat, b: nat, k: nat)
    requires a <= Ones(k) && b <= Ones(k)
    ensures Or(a, b) <= Ones(k)
    decreases k
  {
    if a != 0 && b != 0 {
      OrBound(a / 2, b / 2, k - 1);
    }
  }

  /** Shifting both operands shifts the result. */
  lemma {:induction false} OrShl(a: nat, b: nat, k: nat)
    ensures Or(Shl(a, k), Shl(b, k)) == Shl(Or(a, b), k)
  {
    if k > 0 {
      OrShl(a, b, k - 1);
      var x, y := Shl(a, k - 1), Shl(b, k - 1);
      OrDouble(x, y);
    }
  }

  lemma OrDouble(x: nat, y: nat)
    ensures Or(2 * x, 2 * y) == 2 * Or(x, y)
  {
    assert 2 * x / 2 == x && 2 * y / 2 == y && 2 * x % 2 == 0 && 2 * y % 2 == 0;
  }

  /** Or-ing a shifted value with bits below the shift adds them. */
  lemma {:induction false} OrDisjoint(a: nat, b: nat, k: nat)
    requires b <= Ones(k)
    ensures Or(Shl(a, k), b) == Shl(a, k) + b
    decreases k
  {
    if k > 0 {
      var x := Shl(a, k - 1);
      OrDisjoint(a, b / 2, k - 1);
      assert x != 0 && b != 0 ==> Or(2 * x, b) == b % 2 + 2 * Or(x, b / 2);
    }
  }

  lemma {:induction false} ShlShl(a: nat, j: nat, k: nat)
    ensures Shl(Shl(a, j), k) == Shl(a, j + k)
    decreases k
  {
    if k > 0 {
      ShlShl(a, j, k - 1);
    }
  }

  lemma Shl4(a: nat)
    ensures Shl(a, 4) == 16 * a
  {
    assert Shl(a, 1) == 2 * Shl(a, 0) == 2 * a;
    assert Shl(a, 2) == 2 * Shl(a, 1) == 4 * a;
    assert Shl(a, 3) == 2 * Shl(a, 2) == 8 * a;
    assert Shl(a, 4) == 2 * Shl(a, 3) == 16 * a;
  }

  /** A mask of the n low bits keeps them. */
  lemma {:induction false} AndOnes(a: nat, n: nat)
    ensures And(a, Ones(n)) == Low(a, n)
    decreases n
  {
    if n > 0 {
      AndOnes(a / 2, n - 1);
      if a == 0 {
        LowZero(n);
      } else {
        assert Ones(n) / 2 == Ones(n - 1) && Ones(n) % 2 == 1;
      }
    }
  }

  lemma {:induction false} LowZero(n: nat)
    ensures Low(0, n) == 0
  {
    if n > 0 {
      LowZero(n - 1);
    }
  }

  /** A mask with k zero low bits masks what is above them. */
  lemma {:induction false} AndShl(a: nat, m: nat, k: nat)
    ensures And(a, Shl(m, k)) == Shl(And(Shr(a, k), m), k)
    decreases k
  {
    if k > 0 {
      var h := Shl(m, k - 1);
      AndShl(a / 2, m, k - 1);
      if a == 0 {
        ShrZero(k);
        ShlZero(k);
      } else if h == 0 {
        assert And(a / 2, h) == 0;
      } else {
        assert And(a, 2 * h) == 2 * And(a / 2, h);
      }
    }
  }

  lemma {:induction false} ShrZero(k: nat)
    ensures Shr(0, k) == 0
  {
    if k > 0 {
      ShrZero(k - 1);
    }
  }

  lemma {:induction false} ShlZero(k: nat)
    ensures Shl(0, k) == 0
  {
    if k > 0 {
      ShlZero(k - 1);
    }
  }

  // ---- The widths the machine uses ------------------------------------------

  /** `a & 0x1FF000`: the page-table index of a, still at its place. */
  lemma AndPtIndex(a: nat)
    ensures And(a, 0x1FF000) == a / 4096 % 512 * 4096
  {
    AndShl(a, 511, 12);
    ShlLiteral12(511);
    ShrLiteral12(a);
    assert Ones(9) == 511 by { OnesLiteral(); }
    AndOnes(a / 4096, 9);
    LowLiteral9(a / 4096);
    ShlLiteral12(a / 4096 % 512);
  }

  lemma OnesLiteral()
    ensures Ones(4) == 15 && Ones(9) == 511
  {
    assert Ones(2) == 3;
    assert Ones(4) == 15;
    assert Ones(6) == 63;
    assert Ones(8) == 255;
  }

  lemma ShlLiteral12(a: nat)
    ensures Shl(a, 12) == 4096 * a
  {
    Shl4(a);
    Shl4(16 * a);
    Shl4(256 * a);
    ShlShl(a, 4, 4);
    ShlShl(a, 8, 4);
  }

  lemma ShrLiteral12(a: nat)
    ensures Shr(a, 12) == a / 4096
  {
    Shr4(a, 8);
    Shr4(a / 16, 4);
    Shr4(a / 256, 0);
  }

  lemma Shr4(a: nat, k: nat)
    ensures Shr(a, k + 4) == Shr(a / 16, k)
  {
    assert Shr(a, k + 4) == Shr(a / 2, k + 3) == Shr(a / 4, k + 2) == Shr(a / 8, k + 1) == Shr(a / 16, k);
  }

  lemma LowLiteral9(a: nat)
    ensures Low(a, 9) == a % 512
  {
    Low3(a, 6);
    Low3(a / 8, 3);
    Low3(a / 64, 0);
    assert a / 8 / 8 == a / 64;
    Octal(a);
  }

  lemma Low3(a: nat, n: nat)
    ensures Low(a, n + 3) == a % 8 + 8 * Low(a / 8, n)
  {
    Halves(a);
    assert Low(a, n + 3) == a % 2 + 2 * Low(a / 2, n + 2);
    assert Low(a / 2, n + 2) == a / 2 % 2 + 2 * Low(a / 4, n + 1);
    assert Low(a / 4, n + 1) == a / 4 % 2 + 2 * Low(a / 8, n);
  }

  lemma Halves(a: nat)
    ensures a / 2 / 2 == a / 4 && a / 4 / 2 == a / 8
    ensures a % 8 == a % 2 + 2 * (a / 2 % 2) + 4 * (a / 4 % 2)
  {}

  /** Three octal digits. */
  lemma Octal(a: nat)
    ensures a % 512 == a % 8 + 8 * (a / 8 % 8 + 8 * (a / 8 / 8 % 8))
  {
    OctalDigit512(a / 8, a % 8);
    OctalDigit64(a / 8 / 8, a / 8 % 8);
  }

  lemma OctalDigit512(b: nat, x: nat)
    requires x < 8
    ensures (8 * b + x) % 512 == 8 * (b % 64) + x
  {
    assert 8 * b + x == 512 * (b / 64) + (8 * (b % 64) + x);
  }

  lemma OctalDigit64(c: nat, y: nat)
    requires y < 8
    ensures (8 * c + y) % 64 == 8 * (c % 8) + y
  {
    assert 8 * c + y == 64 * (c / 8) + (8 * (c % 8) + y);
  }

  /** The nine low bits, then the rest. */
  lemma Low9(a: nat, k: nat)
    ensures Low(a, k + 9) == a % 512 + 512 * Low(a / 512, k)
  {
    Low3(a, k + 6);
    Low3(a / 8, k + 3);
    Low3(a / 8 / 8, k);
    assert a / 8 / 8 / 8 == a / 512;
    Octal(a);
  }

  /** `a & 0xFFFFE00000`: bits 21 to 39 in place. */
  lemma AndRegion(a: nat)
    ensures And(a, 0xFF_FFE0_0000) == 0x20_0000 * (a / 0x20_0000 % 0x8_0000)
  {
    hide And, Shl, Shr, Low, Ones;
    Ones19();
    Shl21(0x7_FFFF);
    AndShl(a, 0x7_FFFF, 21);
    Shr21(a);
    AndOnes(a / 0x20_0000, 19);
    LowMod19(a / 0x20_0000);
    Shl21(a / 0x20_0000 % 0x8_0000);
  }

  lemma Ones19()
    ensures Ones(19) == 0x7_FFFF
  {
    OnesLiteral();
    assert Ones(10) == 1 + 2 * Ones(9);
    assert Ones(13) == 1 + 2 * Ones(12) == 3 + 4 * Ones(11) == 7 + 8 * Ones(10);
    assert Ones(16) == 1 + 2 * Ones(15) == 3 + 4 * Ones(14) == 7 + 8 * Ones(13);
    assert Ones(19) == 1 + 2 * Ones(18) == 3 + 4 * Ones(17) == 7 + 8 * Ones(16);
  }

  lemma Shl21(a: nat)
    ensures Shl(a, 21) == 0x20_0000 * a
  {
    ShlLiteral12(a);
    var b := 4096 * a;
    ShlShl(a, 12, 9);
    Shl4(b);
    Shl4(16 * b);
    ShlShl(b, 4, 5);
    ShlShl(16 * b, 4, 1);
    var k := 0;
    assert Shl(256 * b, k + 1) == 2 * Shl(256 * b, k);
  }

  lemma Shr21(a: nat)
    ensures Shr(a, 21) == a / 0x20_0000
  {
    Shr4(a, 17);
    Shr4(a / 16, 13);
    Shr4(a / 256, 9);
    Shr4(a / 4096, 5);
    Shr4(a / 0x1_0000, 1);
    Sixteenths(a);
    var b, k := a / 0x10_0000, 0;
    assert Shr(b, k + 1) == Shr(b / 2, k);
  }

  lemma Sixteenths(a: nat)
    ensures a / 16 / 16 == a / 256 && a / 256 / 16 == a / 4096 && a / 4096 / 16 == a / 0x1_0000
    ensures a / 0x1_0000 / 16 == a / 0x10_0000 && a / 0x10_0000 / 2 == a / 0x20_0000
  {}

  lemma LowMod19(a: nat)
    ensures Low(a, 19) == a % 0x8_0000
  {
    Low9(a, 10);
    Low9(a / 512, 1);
    var b, k := a / 512 / 512, 0;
    assert Low(b, k + 1) == b % 2 + 2 * Low(b / 2, k);
    Digits19(a % 512, a / 512 % 512, b % 2, b / 2);
  }

  lemma Digits19(p: nat, q: nat, r: nat, c: nat)
    requires p < 512 && q < 512 && r < 2
    ensures (p + 512 * (q + 512 * (r + 2 * c))) % 0x8_0000 == p + 512 * (q + 512 * r)
  {
    assert p + 512 * (q + 512 * (r + 2 * c)) == 0x8_0000 * c + (p + 512 * q + 0x4_0000 * r);
  }
}
