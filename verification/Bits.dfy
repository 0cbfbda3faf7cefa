// Bitwise operations on natural numbers, bit by bit.

module Bits {
  function Xor(a: nat, b: nat): nat
    decreases a + b
  {
    if a == 0 && b == 0 then 0 else (a % 2 + b % 2) % 2 + 2 * Xor(a / 2, b / 2)
  }

  function Or(a: nat, b: nat): nat
    decreases a + b
  {
    if a == 0 && b == 0 then 0 else (if a % 2 + b % 2 > 0 then 1 else 0) + 2 * Or(a / 2, b / 2)
  }

  function Pow2(k: nat): (p: nat)
    ensures p > 0
  {
    if k == 0 then 1 else 2 * Pow2(k - 1)
  }

  lemma XorHalves(a: nat, b: nat)
    ensures Xor(a, b) / 2 == Xor(a / 2, b / 2) && Xor(a, b) % 2 == (a % 2 + b % 2) % 2
  {
    var q := Xor(a / 2, b / 2);
    if a > 0 || b > 0 {
      var low := (a % 2 + b % 2) % 2;
      assert Xor(a, b) == low + 2 * q;
    }
  }

  lemma LowBitTwice(a: nat, b: nat, x: nat)
    requires x % 2 == (a % 2 + b % 2) % 2
    ensures (x % 2 + b % 2) % 2 == a % 2
  {
  }

  lemma {:induction false} XorTwice(a: nat, b: nat)
    ensures Xor(Xor(a, b), b) == a
    decreases a + b
  {
    if a > 0 || b > 0 {
      XorTwice(a / 2, b / 2);
      XorHalves(a, b);
      var x := Xor(a, b);
      if x > 0 || b > 0 {
        XorHalves(x, b);
        LowBitTwice(a, b, x);
        assert Xor(x, b) / 2 == a / 2 && Xor(x, b) % 2 == a % 2;
      }
    }
  }

  lemma {:induction false} XorSelf(a: nat)
    ensures Xor(a, a) == 0
  {
    if a > 0 {
      XorSelf(a / 2);
    }
  }

  lemma {:induction false} XorBelow(a: nat, b: nat, k: nat)
    requires a < Pow2(k) && b < Pow2(k)
    ensures Xor(a, b) < Pow2(k)
  {
    if k > 0 && a + b > 0 {
      XorBelow(a / 2, b / 2, k - 1);
    }
  }

  lemma XorEnds(a: nat, b: nat, p: nat, q: nat)
    requires p == a / 2 && q == b / 2
    ensures Xor(a, b) == 2 * Xor(p, q) + (a % 2 + b % 2) % 2
  {
    XorHalves(a, b);
  }

  lemma XorFrom(a: nat, b: nat, p: nat, q: nat, r: nat)
    requires p == a / 2 && q == b / 2 && Xor(p, q) == r
    ensures Xor(a, b) == 2 * r + (a % 2 + b % 2) % 2
  {
    XorHalves(a, b);
  }

  lemma HalfOfSum(a: nat, l: nat)
    ensures (2 * a + l) / 2 == a + l / 2 && (2 * a + l) % 2 == l % 2
  {
  }

  lemma XorStep(a: nat, l: nat, b: nat, m: nat, x: nat)
    requires Xor(a + l / 2, b + m / 2) == x + Xor(l / 2, m / 2)
    ensures Xor(2 * a + l, 2 * b + m) == 2 * x + Xor(l, m)
  {
    HalfOfSum(a, l);
    HalfOfSum(b, m);
    XorFrom(2 * a + l, 2 * b + m, a + l / 2, b + m / 2, x + Xor(l / 2, m / 2));
    XorEnds(l, m, l / 2, m / 2);
  }

  // n moved up by k bits.
  function Shifted(n: nat, k: nat): nat {
    if k == 0 then n else 2 * Shifted(n, k - 1)
  }

  // High and low parts do not mix.
  lemma {:induction false} XorJoins(h: nat, l: nat, i: nat, m: nat, k: nat)
    requires l < Pow2(k) && m < Pow2(k)
    ensures Xor(Shifted(h, k) + l, Shifted(i, k) + m) == Shifted(Xor(h, i), k) + Xor(l, m)
  {
    if k == 0 {
      assert Xor(0, 0) == 0;
    } else {
      XorJoins(h, l / 2, i, m / 2, k - 1);
      XorStep(Shifted(h, k - 1), l, Shifted(i, k - 1), m, Shifted(Xor(h, i), k - 1));
    }
  }

  lemma {:induction false} ShiftedMore(n: nat, j: nat, k: nat)
    ensures Shifted(n, j + k) == Shifted(Shifted(n, j), k)
  {
    if k > 0 {
      ShiftedMore(n, j, k - 1);
    }
  }

  lemma ShiftedByte(n: nat)
    ensures Shifted(n, 8) == 256 * n
  {
    forall m: nat ensures Shifted(m, 2) == 4 * m {
      assert Shifted(m, 1) == 2 * Shifted(m, 0);
    }
    ShiftedMore(n, 2, 2);
    ShiftedMore(n, 4, 2);
    ShiftedMore(n, 6, 2);
  }

  // Byte by byte.
  lemma XorConcat(h: nat, l: nat, i: nat, m: nat)
    requires l < 256 && m < 256
    ensures Xor(256 * h + l, 256 * i + m) == 256 * Xor(h, i) + Xor(l, m)
  {
    assert Pow2(8) == 256;
    XorJoins(h, l, i, m, 8);
    ShiftedByte(h);
    ShiftedByte(i);
    ShiftedByte(Xor(h, i));
  }

  // Disjoint bits: or is addition.
  lemma {:induction false} OrAdds(a: nat, b: nat, k: nat)
    requires b < Pow2(k)
    ensures Or(a * Pow2(k), b) == a * Pow2(k) + b
  {
    if k == 0 {
      OrZero(a);
    } else {
      var p := Pow2(k - 1);
      assert a * Pow2(k) == 2 * (a * p);
      OrAdds(a, b / 2, k - 1);
      var x := 2 * (a * p);
      assert x / 2 == a * p && x % 2 == 0;
    }
  }

  lemma {:induction false} OrZero(a: nat)
    ensures Or(a, 0) == a
  {
    if a > 0 {
      OrZero(a / 2);
    }
  }

  // ---- Bit by bit ----

  // The number with these bits, most significant first.
  function Num(bits: seq<bool>): nat {
    if bits == [] then 0 else 2 * Num(bits[..|bits| - 1]) + Bit(bits[|bits| - 1])
  }

  function Differ(a: seq<bool>, b: seq<bool>): (d: seq<bool>)
    requires |a| == |b|
    ensures |d| == |a|
  {
    seq(|a|, i requires 0 <= i < |a| => a[i] != b[i])
  }

  function Bit(b: bool): nat {
    if b then 1 else 0
  }

  lemma XorUp(p: nat, q: nat, x: bool, y: bool, r: nat)
    requires Xor(p, q) == r
    ensures Xor(2 * p + Bit(x), 2 * q + Bit(y)) == 2 * r + Bit(x != y)
  {
    XorEnds(2 * p + Bit(x), 2 * q + Bit(y), p, q);
  }

  lemma DifferInit(a: seq<bool>, b: seq<bool>)
    requires |a| == |b| > 0
    ensures Differ(a, b)[..|a| - 1] == Differ(a[..|a| - 1], b[..|a| - 1])
  {
  }

  // Exclusive or compares bits.
  lemma {:induction false} XorDiffers(a: seq<bool>, b: seq<bool>)
    requires |a| == |b|
    ensures Xor(Num(a), Num(b)) == Num(Differ(a, b))
  {
    if a == [] {
      assert Xor(0, 0) == 0;
    } else {
      var n := |a| - 1;
      XorDiffers(a[..n], b[..n]);
      DifferInit(a, b);
      XorUp(Num(a[..n]), Num(b[..n]), a[n], b[n], Num(Differ(a, b)[..n]));
    }
  }

  function EightBits(b: seq<bool>): nat
    requires |b| == 8
  {
    128 * Bit(b[0]) + 64 * Bit(b[1]) + 32 * Bit(b[2]) + 16 * Bit(b[3]) + 8 * Bit(b[4]) + 4 * Bit(b[5]) + 2 * Bit(b[6]) + Bit(b[7])
  }

  lemma NumOfEight(b: seq<bool>)
    requires |b| == 8
    ensures Num(b) == EightBits(b)
  {
    NumOfFour(b);
    NumOfFour(b[..4]);
    assert b[..4][..0] == [];
  }

  lemma NumOfFour(b: seq<bool>)
    requires |b| >= 4
    ensures var n := |b|;
            Num(b) == 16 * Num(b[..n - 4]) + 8 * Bit(b[n - 4]) + 4 * Bit(b[n - 3])
                      + 2 * Bit(b[n - 2]) + Bit(b[n - 1])
  {
    var n := |b|;
    assert b[..n - 1][..n - 2] == b[..n - 2] && b[..n - 2][..n - 3] == b[..n - 3] && b[..n - 3][..n - 4] == b[..n - 4];
    assert Num(b[..n - 3]) == 2 * Num(b[..n - 4]) + Bit(b[n - 4]);
    assert Num(b[..n - 2]) == 2 * Num(b[..n - 3]) + Bit(b[n - 3]);
    assert Num(b[..n - 1]) == 2 * Num(b[..n - 2]) + Bit(b[n - 2]);
  }
}
