/** Bitwise operators on the low `n` bits of naturals, bit by bit, and bytes. */
module Bits {
  type Byte = x: nat | x < 0x100

  function Pow2(n: nat): (r: nat)
    ensures r > 0
  {
    if n == 0 then 1 else 2 * Pow2(n - 1)
  }

  function And(x: nat, y: nat, n: nat): (r: nat)
    ensures r < Pow2(n)
  {
    if n == 0 then 0 else 2 * And(x / 2, y / 2, n - 1) + (if x % 2 == 1 && y % 2 == 1 then 1 else 0)
  }

  function Or(x: nat, y: nat, n: nat): (r: nat)
    ensures r < Pow2(n)
  {
    if n == 0 then 0 else 2 * Or(x / 2, y / 2, n - 1) + (if x % 2 == 1 || y % 2 == 1 then 1 else 0)
  }

  function Xor(x: nat, y: nat, n: nat): (r: nat)
    ensures r < Pow2(n)
  {
    if n == 0 then 0 else 2 * Xor(x / 2, y / 2, n - 1) + (x + y) % 2
  }

  /** Bit `i` of a number, the least significant being bit 0. */
  predicate Bit(x: nat, i: nat) {
    if i == 0 then x % 2 == 1 else Bit(x / 2, i - 1)
  }

  lemma {:induction false} BitsOf(x: nat, y: nat, n: nat, i: nat)
    requires i < n
    ensures Bit(And(x, y, n), i) <==> Bit(x, i) && Bit(y, i)
    ensures Bit(Or(x, y, n), i) <==> Bit(x, i) || Bit(y, i)
    ensures Bit(Xor(x, y, n), i) <==> Bit(x, i) != Bit(y, i)
  {
    if i > 0 { BitsOf(x / 2, y / 2, n - 1, i - 1); }
  }

  lemma {:induction false} HighBit(x: nat, n: nat, i: nat)
    requires x < Pow2(n)
    ensures n <= i ==> !Bit(x, i)
  {
    if i > 0 { HighBit(x / 2, if n == 0 then 0 else n - 1, i - 1); }
  }

  lemma {:induction false} NotBit(x: nat, y: nat, n: nat, i: nat)
    requires x + y == Pow2(n) - 1 && i < n
    ensures Bit(y, i) <==> !Bit(x, i)
  {
    if i > 0 { NotBit(x / 2, y / 2, n - 1, i - 1); }
  }

  /** Taking off a high bit leaves the lower ones. */
  lemma {:induction false} DropTop(x: nat, n: nat, i: nat)
    requires Pow2(n) <= x && i < n
    ensures Bit(x - Pow2(n), i) <==> Bit(x, i)
  {
    if i > 0 { DropTop(x / 2, n - 1, i - 1); }
  }

  lemma Pow2Values()
    ensures Pow2(2) == 4 && Pow2(3) == 8 && Pow2(4) == 16 && Pow2(6) == 64 && Pow2(8) == 0x100
    ensures Pow2(16) == 0x1_0000 && Pow2(32) == 0x1_0000_0000
  {
    SmallPowers();
    Pow2Adds(4, 4);
    Pow2Adds(8, 8);
    Pow2Adds(16, 16);
  }

  lemma SmallPowers()
    ensures Pow2(2) == 4 && Pow2(3) == 8 && Pow2(4) == 16 && Pow2(5) == 32 && Pow2(6) == 64
  {
  }

  lemma {:induction false} Pow2Adds(a: nat, b: nat)
    ensures Pow2(a + b) == Pow2(a) * Pow2(b)
  {
    if a > 0 {
      Pow2Adds(a - 1, b);
      TwiceFirst(Pow2(a - 1), Pow2(b));
    }
  }

  /** Numbers with no bit in common are or-ed by adding. */
  lemma {:induction false} OrAdds(x: nat, y: nat, k: nat, n: nat)
    requires x % Pow2(k) == 0 && y < Pow2(k) && x < Pow2(n) && k <= n
    ensures Or(x, y, n) == x + y
  {
    if n > 0 {
      if k == 0 {
        OrAdds(x / 2, 0, 0, n - 1);
      } else {
        Halves(x, Pow2(k - 1));
        OrAdds(x / 2, y / 2, k - 1, n - 1);
      }
    }
  }

  lemma ModOf(q: nat, p: nat)
    requires p > 0
    ensures (q * p) % p == 0 && (q * p) / p == q
  {
    DivIs(q * p, p, q, 0);
  }

  /** Division with remainder is unique. */
  lemma DivIs(x: int, p: nat, q: int, r: nat)
    requires p > 0 && x == q * p + r && r < p
    ensures x / p == q && x % p == r
  {
    var d := x / p - q;
    assert d * p == r - x % p;
    if d > 0 { MulAtLeast(d, p); } else if d < 0 { MulAtLeast(-d, p); }
  }

  lemma MulAtLeast(d: int, p: int)
    requires d >= 1 && p >= 0
    ensures d * p >= p && (-d) * p <= -p
  {
  }

  /** Dividing by 2p is halving first. */
  lemma Halves(x: nat, p: nat)
    requires p > 0
    ensures x % (2 * p) == 2 * (x / 2 % p) + x % 2 && x / (2 * p) == x / 2 / p
  {
    var q, r := x / 2 / p, x / 2 % p;
    assert x / 2 == q * p + r;
    assert 2 * (q * p) == q * (2 * p);
    DivIs(x, 2 * p, q, 2 * r + x % 2);
  }

  lemma {:induction false} AndZero(x: nat, n: nat)
    ensures And(x, 0, n) == 0
  {
    if n > 0 { AndZero(x / 2, n - 1); }
  }

  /** Masking with 2^k - 1 is the remainder by 2^k. */
  lemma {:induction false} AndMask(x: nat, k: nat, n: nat)
    requires k <= n
    ensures And(x, Pow2(k) - 1, n) == x % Pow2(k)
  {
    if k == 0 {
      AndZero(x, n);
    } else {
      AndMask(x / 2, k - 1, n - 1);
      MaskStep(x, Pow2(k - 1), Pow2(k), n - 1, n);
    }
  }

  lemma MaskStep(x: nat, h: nat, p: nat, n: nat, m: nat)
    requires h > 0 && p == 2 * h && m == n + 1 && And(x / 2, h - 1, n) == x / 2 % h
    ensures And(x, p - 1, m) == x % p
  {
    AndOdd(x, h - 1, n);
    Halves(x, h);
  }

  lemma AndOdd(x: nat, v: nat, n: nat)
    ensures And(x, 2 * v + 1, n + 1) == 2 * And(x / 2, v, n) + x % 2
  {
    assert (2 * v + 1) / 2 == v && (2 * v + 1) % 2 == 1;
  }

  /** Shifting both operands of a mask shifts the result. */
  lemma {:induction false} AndShift(x: nat, y: nat, j: nat, n: nat)
    ensures And(x * Pow2(j), y * Pow2(j), n + j) == And(x, y, n) * Pow2(j)
  {
    if j > 0 {
      var q, p := Pow2(j - 1), Pow2(j);
      AndShift(x, y, j - 1, n);
      TwiceAs(x, q, p);
      TwiceAs(y, q, p);
      TwiceAs(And(x, y, n), q, p);
      AndDouble(x * q, y * q, x * p, y * p, n + j - 1, n + j);
    }
  }

  lemma AndDouble(u: nat, v: nat, uu: nat, vv: nat, n: nat, m: nat)
    requires uu == 2 * u && vv == 2 * v && m == n + 1
    ensures And(uu, vv, m) == 2 * And(u, v, n)
  {
    assert uu / 2 == u && vv / 2 == v && uu % 2 == 0;
  }

  lemma TwiceAs(x: nat, q: nat, p: nat)
    requires p == 2 * q
    ensures x * p == 2 * (x * q)
  {
    Twice(x, q);
  }

  lemma TwiceFirst(p: nat, q: nat)
    ensures (2 * p) * q == 2 * (p * q)
  {
  }

  lemma Twice(x: nat, p: nat)
    ensures x * (2 * p) == 2 * (x * p)
  {
  }

  /** A mask that leaves out the low bits only sees the high ones. */
  lemma {:induction false} AndSplit(q: nat, r: nat, m: nat, j: nat, n: nat)
    requires r < Pow2(j)
    ensures And(q * Pow2(j) + r, m * Pow2(j), n + j) == And(q, m, n) * Pow2(j)
  {
    if j > 0 {
      var h, p := Pow2(j - 1), Pow2(j);
      AndSplit(q, r / 2, m, j - 1, n);
      TwiceAs(q, h, p);
      TwiceAs(m, h, p);
      TwiceAs(And(q, m, n), h, p);
      AndOver(q * p + r, q * h + r / 2, m * h, m * p, n + j - 1, n + j);
    }
  }

  lemma AndOver(u: nat, half: nat, v: nat, vv: nat, n: nat, m: nat)
    requires u / 2 == half && vv == 2 * v && m == n + 1
    ensures And(u, vv, m) == 2 * And(half, v, n)
  {
    assert vv / 2 == v && vv % 2 == 0;
  }
}
