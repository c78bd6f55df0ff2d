/** SHA-256 as FIPS 180-4 defines it, on byte strings. */
module Sha256Standard {
  import opened Bits

  type Word = x: nat | x < 0x1_0000_0000

  /** Section 4.2.2, row by row. */
  const K0: seq<Word> := [
    0x428a2f98, 0x71374491, 0xb5c0fbcf, 0xe9b5dba5, 0x3956c25b, 0x59f111f1, 0x923f82a4, 0xab1c5ed5]
  const K1: seq<Word> := [
    0xd807aa98, 0x12835b01, 0x243185be, 0x550c7dc3, 0x72be5d74, 0x80deb1fe, 0x9bdc06a7, 0xc19bf174]
  const K2: seq<Word> := [
    0xe49b69c1, 0xefbe4786, 0x0fc19dc6, 0x240ca1cc, 0x2de92c6f, 0x4a7484aa, 0x5cb0a9dc, 0x76f988da]
  const K3: seq<Word> := [
    0x983e5152, 0xa831c66d, 0xb00327c8, 0xbf597fc7, 0xc6e00bf3, 0xd5a79147, 0x06ca6351, 0x14292967]
  const K4: seq<Word> := [
    0x27b70a85, 0x2e1b2138, 0x4d2c6dfc, 0x53380d13, 0x650a7354, 0x766a0abb, 0x81c2c92e, 0x92722c85]
  const K5: seq<Word> := [
    0xa2bfe8a1, 0xa81a664b, 0xc24b8b70, 0xc76c51a3, 0xd192e819, 0xd6990624, 0xf40e3585, 0x106aa070]
  const K6: seq<Word> := [
    0x19a4c116, 0x1e376c08, 0x2748774c, 0x34b0bcb5, 0x391c0cb3, 0x4ed8aa4a, 0x5b9cca4f, 0x682e6ff3]
  const K7: seq<Word> := [
    0x748f82ee, 0x78a5636f, 0x84c87814, 0x8cc70208, 0x90befffa, 0xa4506ceb, 0xbef9a3f7, 0xc67178f2]

  const K: seq<Word> := K0 + K1 + K2 + K3 + K4 + K5 + K6 + K7

  /** Section 5.3.3. */
  const INITIAL: seq<Word> := [
    0x6a09e667, 0xbb67ae85, 0x3c6ef372, 0xa54ff53a, 0x510e527f, 0x9b05688c, 0x1f83d9ab, 0x5be0cd19]

  /** The operations of section 3.2 on 32-bit words. */
  function Both(x: Word, y: Word): Word { Pow2Values(); And(x, y, 32) }
  function Either(x: Word, y: Word): Word { Pow2Values(); Or(x, y, 32) }
  function Differ(x: Word, y: Word): Word { Pow2Values(); Xor(x, y, 32) }
  function Not(x: Word): Word { 0xFFFF_FFFF - x }
  function Add(x: Word, y: Word): Word { (x + y) % 0x1_0000_0000 }
  function Shr(x: Word, n: nat): Word { if n == 0 then x else Shr(x / 2, n - 1) }
  function Shl(x: Word, n: nat): Word
    decreases n, x
  {
    if n == 0 then x else Shl(2 * x % 0x1_0000_0000, n - 1)
  }

  function Rotr(x: Word, n: nat): Word
    requires n <= 32
  {
    Either(Shr(x, n), Shl(x, 32 - n))
  }

  /** Section 4.1.2. */
  function Ch(x: Word, y: Word, z: Word): Word { Differ(Both(x, y), Both(Not(x), z)) }
  function Maj(x: Word, y: Word, z: Word): Word { Differ(Differ(Both(x, y), Both(x, z)), Both(y, z)) }
  function BigSigma0(x: Word): Word { Differ(Differ(Rotr(x, 2), Rotr(x, 13)), Rotr(x, 22)) }
  function BigSigma1(x: Word): Word { Differ(Differ(Rotr(x, 6), Rotr(x, 11)), Rotr(x, 25)) }
  function SmallSigma0(x: Word): Word { Differ(Differ(Rotr(x, 7), Rotr(x, 18)), Shr(x, 3)) }
  function SmallSigma1(x: Word): Word { Differ(Differ(Rotr(x, 17), Rotr(x, 19)), Shr(x, 10)) }

  // ---- The constants and operations, as the standard describes them ----

  /** `k` is the first 32 bits of the fractional part of the cube root of `p`, whose whole part is `c`. */
  predicate CubeRoot(p: nat, c: nat, k: Word) {
    var x := c * 0x1_0000_0000 + k;
    x * x * x <= p * 0x1_0000_0000_0000_0000_0000_0000 < (x + 1) * (x + 1) * (x + 1)
  }

  /** The same for the square root. */
  predicate SquareRoot(p: nat, c: nat, k: Word) {
    var x := c * 0x1_0000_0000 + k;
    x * x <= p * 0x1_0000_0000_0000_0000 < (x + 1) * (x + 1)
  }

  /** Eight words are, in order, such roots of eight numbers. */
  ghost predicate CubeRoots(a: nat, b: nat, c: nat, d: nat, e: nat, f: nat, g: nat, h: nat, k: seq<Word>) {
    |k| == 8 && forall u {:trigger Take(u)} :: Take(u) ==>
      && IsCubeRoot(a, k[0]) && IsCubeRoot(b, k[1]) && IsCubeRoot(c, k[2]) && IsCubeRoot(d, k[3])
      && IsCubeRoot(e, k[4]) && IsCubeRoot(f, k[5]) && IsCubeRoot(g, k[6]) && IsCubeRoot(h, k[7])
  }

  /** Mentioned where the roots are needed. */
  ghost predicate Take(u: int) { true }

  ghost predicate IsCubeRoot(p: nat, k: Word) {
    exists c :: CubeRoot(p, c, k)
  }

  ghost predicate SquareRoots(a: nat, b: nat, c: nat, d: nat, e: nat, f: nat, g: nat, h: nat, k: seq<Word>) {
    |k| == 8 && forall u {:trigger Take(u)} :: Take(u) ==>
      && IsSquareRoot(a, k[0]) && IsSquareRoot(b, k[1]) && IsSquareRoot(c, k[2]) && IsSquareRoot(d, k[3])
      && IsSquareRoot(e, k[4]) && IsSquareRoot(f, k[5]) && IsSquareRoot(g, k[6]) && IsSquareRoot(h, k[7])
  }

  ghost predicate IsSquareRoot(p: nat, k: Word) {
    exists c :: SquareRoot(p, c, k)
  }

  lemma Initials()
    ensures SquareRoots(2, 3, 5, 7, 11, 13, 17, 19, INITIAL)
  {
    assert SquareRoot(2, 1, INITIAL[0]) && SquareRoot(3, 1, INITIAL[1]) && SquareRoot(5, 2, INITIAL[2]);
    assert SquareRoot(7, 2, INITIAL[3]) && SquareRoot(11, 3, INITIAL[4]) && SquareRoot(13, 3, INITIAL[5]);
    assert SquareRoot(17, 4, INITIAL[6]) && SquareRoot(19, 4, INITIAL[7]);
  }

  lemma Row0()
    ensures CubeRoots(2, 3, 5, 7, 11, 13, 17, 19, K0)
  {
    assert CubeRoot(2, 1, K0[0]) && CubeRoot(3, 1, K0[1]) && CubeRoot(5, 1, K0[2]) && CubeRoot(7, 1, K0[3]);
    assert CubeRoot(11, 2, K0[4]) && CubeRoot(13, 2, K0[5]) && CubeRoot(17, 2, K0[6]) && CubeRoot(19, 2, K0[7]);
  }

  lemma Row1()
    ensures CubeRoots(23, 29, 31, 37, 41, 43, 47, 53, K1)
  {
    assert CubeRoot(23, 2, K1[0]) && CubeRoot(29, 3, K1[1]) && CubeRoot(31, 3, K1[2]) && CubeRoot(37, 3, K1[3]);
    assert CubeRoot(41, 3, K1[4]) && CubeRoot(43, 3, K1[5]) && CubeRoot(47, 3, K1[6]) && CubeRoot(53, 3, K1[7]);
  }

  lemma Row2()
    ensures CubeRoots(59, 61, 67, 71, 73, 79, 83, 89, K2)
  {
    assert CubeRoot(59, 3, K2[0]) && CubeRoot(61, 3, K2[1]) && CubeRoot(67, 4, K2[2]) && CubeRoot(71, 4, K2[3]);
    assert CubeRoot(73, 4, K2[4]) && CubeRoot(79, 4, K2[5]) && CubeRoot(83, 4, K2[6]) && CubeRoot(89, 4, K2[7]);
  }

  lemma Row3()
    ensures CubeRoots(97, 101, 103, 107, 109, 113, 127, 131, K3)
  {
    assert CubeRoot(97, 4, K3[0]) && CubeRoot(101, 4, K3[1]) && CubeRoot(103, 4, K3[2]) && CubeRoot(107, 4, K3[3]);
    assert CubeRoot(109, 4, K3[4]) && CubeRoot(113, 4, K3[5]) && CubeRoot(127, 5, K3[6]) && CubeRoot(131, 5, K3[7]);
  }

  lemma Row4()
    ensures CubeRoots(137, 139, 149, 151, 157, 163, 167, 173, K4)
  {
    assert CubeRoot(137, 5, K4[0]) && CubeRoot(139, 5, K4[1]) && CubeRoot(149, 5, K4[2]) && CubeRoot(151, 5, K4[3]);
    assert CubeRoot(157, 5, K4[4]) && CubeRoot(163, 5, K4[5]) && CubeRoot(167, 5, K4[6]) && CubeRoot(173, 5, K4[7]);
  }

  lemma Row5()
    ensures CubeRoots(179, 181, 191, 193, 197, 199, 211, 223, K5)
  {
    assert CubeRoot(179, 5, K5[0]) && CubeRoot(181, 5, K5[1]) && CubeRoot(191, 5, K5[2]) && CubeRoot(193, 5, K5[3]);
    assert CubeRoot(197, 5, K5[4]) && CubeRoot(199, 5, K5[5]) && CubeRoot(211, 5, K5[6]) && CubeRoot(223, 6, K5[7]);
  }

  lemma Row6()
    ensures CubeRoots(227, 229, 233, 239, 241, 251, 257, 263, K6)
  {
    assert CubeRoot(227, 6, K6[0]) && CubeRoot(229, 6, K6[1]) && CubeRoot(233, 6, K6[2]) && CubeRoot(239, 6, K6[3]);
    assert CubeRoot(241, 6, K6[4]) && CubeRoot(251, 6, K6[5]) && CubeRoot(257, 6, K6[6]) && CubeRoot(263, 6, K6[7]);
  }

  lemma Row7()
    ensures CubeRoots(269, 271, 277, 281, 283, 293, 307, 311, K7)
  {
    assert CubeRoot(269, 6, K7[0]) && CubeRoot(271, 6, K7[1]) && CubeRoot(277, 6, K7[2]) && CubeRoot(281, 6, K7[3]);
    assert CubeRoot(283, 6, K7[4]) && CubeRoot(293, 6, K7[5]) && CubeRoot(307, 6, K7[6]) && CubeRoot(311, 6, K7[7]);
  }

  /**
   Sections 4.2.2 and 5.3.3: the constants are from the cube roots of the first 64 primes, the
   initial hash value is from the square roots of the first 8.
   */
  lemma ConstantsAreRoots()
    ensures CubeRoots(2, 3, 5, 7, 11, 13, 17, 19, K0)
    ensures CubeRoots(23, 29, 31, 37, 41, 43, 47, 53, K1)
    ensures CubeRoots(59, 61, 67, 71, 73, 79, 83, 89, K2)
    ensures CubeRoots(97, 101, 103, 107, 109, 113, 127, 131, K3)
    ensures CubeRoots(137, 139, 149, 151, 157, 163, 167, 173, K4)
    ensures CubeRoots(179, 181, 191, 193, 197, 199, 211, 223, K5)
    ensures CubeRoots(227, 229, 233, 239, 241, 251, 257, 263, K6)
    ensures CubeRoots(269, 271, 277, 281, 283, 293, 307, 311, K7)
    ensures SquareRoots(2, 3, 5, 7, 11, 13, 17, 19, INITIAL)
  {
    Row0(); Row1(); Row2(); Row3(); Row4(); Row5(); Row6(); Row7(); Initials();
  }

  /** The operations of section 3.2, bit by bit: `Rotr` moves each bit down by `n` places and round. */
  lemma OperationsAre(x: Word, y: Word, n: nat, i: nat)
    requires n <= 32 && i < 32
    ensures Bit(Both(x, y), i) <==> Bit(x, i) && Bit(y, i)
    ensures Bit(Either(x, y), i) <==> Bit(x, i) || Bit(y, i)
    ensures Bit(Differ(x, y), i) <==> Bit(x, i) != Bit(y, i)
    ensures Bit(Not(x), i) <==> !Bit(x, i)
    ensures Bit(Rotr(x, n), i) <==> Bit(x, (i + n) % 32)
    ensures Bit(Shr(x, n), i) <==> i + n < 32 && Bit(x, i + n)
  {
    Pow2Values();
    BitsOf(x, y, 32, i);
    NotBit(x, 0xFFFF_FFFF - x, 32, i);
    ShrBit(x, n, i);
    HighBit(x, 32, i + n);
    RotrBit(x, n, i);
  }

  lemma RotrBit(x: Word, n: nat, i: nat)
    requires n <= 32 && i < 32
    ensures Bit(Rotr(x, n), i) <==> Bit(x, (i + n) % 32)
  {
    RotrParts(x, n, i);
    NoHighBit(x, i + n);
    if i + n < 32 {
      assert (i + n) % 32 == i + n;
    } else if n < 32 {
      assert (i + n) % 32 == i - (32 - n);
    } else {
      assert (i + n) % 32 == i;
    }
  }

  lemma RotrParts(x: Word, n: nat, i: nat)
    requires n <= 32 && i < 32
    ensures Bit(Rotr(x, n), i) <==> Bit(x, i + n) || (32 - n <= i && Bit(x, i - (32 - n)))
  {
    ShrBit(x, n, i);
    ShlBit(x, 32 - n, i);
    EitherBit(Shr(x, n), Shl(x, 32 - n), i);
  }

  lemma EitherBit(x: Word, y: Word, i: nat)
    requires i < 32
    ensures Bit(Either(x, y), i) <==> Bit(x, i) || Bit(y, i)
  {
    Pow2Values();
    BitsOf(x, y, 32, i);
  }

  lemma NoHighBit(x: Word, i: nat)
    ensures 32 <= i ==> !Bit(x, i)
  {
    Pow2Values();
    HighBit(x, 32, i);
  }

  lemma {:induction false} ShrBit(x: Word, n: nat, i: nat)
    ensures Bit(Shr(x, n), i) <==> Bit(x, i + n)
  {
    if n > 0 { ShrBit(x / 2, n - 1, i); }
  }

  lemma {:induction false} ShlBit(x: Word, n: nat, i: nat)
    requires i < 32
    ensures Bit(Shl(x, n), i) <==> n <= i && Bit(x, i - n)
    decreases n
  {
    if n > 0 {
      ShlBit(2 * x % 0x1_0000_0000, n - 1, i);
      if n - 1 <= i { DoubleBit(x, i - (n - 1)); }
    }
  }

  lemma DoubleBit(x: Word, i: nat)
    requires i < 32
    ensures Bit(2 * x % 0x1_0000_0000, i) <==> 0 < i && Bit(x, i - 1)
  {
    assert Pow2(31) == 0x8000_0000 by { Pow2Values(); Pow2Adds(16, 15); Pow2Adds(8, 7); SmallPowers(); }
    var y := if x < 0x8000_0000 then x else x - 0x8000_0000;
    assert 2 * x % 0x1_0000_0000 == 2 * y;
    if i > 0 && x >= 0x8000_0000 { DropTop(x, 31, i - 1); }
  }

  /** The functions of section 4.1.2, bit by bit. */
  lemma ChoiceAndMajority(x: Word, y: Word, z: Word, i: nat)
    requires i < 32
    ensures Bit(Ch(x, y, z), i) <==> if Bit(x, i) then Bit(y, i) else Bit(z, i)
    ensures Bit(Maj(x, y, z), i) <==> (if Bit(x, i) then Bit(y, i) || Bit(z, i) else Bit(y, i) && Bit(z, i))
  {
    OperationsAre(x, y, 0, i);
    OperationsAre(x, z, 0, i);
    OperationsAre(y, z, 0, i);
    OperationsAre(Not(x), z, 0, i);
    OperationsAre(Both(x, y), Both(Not(x), z), 0, i);
    ThreeDiffer(Both(x, y), Both(x, z), Both(y, z), i);
  }

  lemma BigSigmasAre(x: Word, i: nat)
    requires i < 32
    ensures Bit(BigSigma0(x), i) <==> ((Bit(x, (i + 2) % 32) != Bit(x, (i + 13) % 32)) != Bit(x, (i + 22) % 32))
    ensures Bit(BigSigma1(x), i) <==> ((Bit(x, (i + 6) % 32) != Bit(x, (i + 11) % 32)) != Bit(x, (i + 25) % 32))
  {
    RotrsDiffer(x, 2, 13, Rotr(x, 22), i);
    RotrsDiffer(x, 6, 11, Rotr(x, 25), i);
    RotrBit(x, 22, i);
    RotrBit(x, 25, i);
  }

  lemma SmallSigmasAre(x: Word, i: nat)
    requires i < 32
    ensures Bit(SmallSigma0(x), i) <==>
      ((Bit(x, (i + 7) % 32) != Bit(x, (i + 18) % 32)) != (i + 3 < 32 && Bit(x, i + 3)))
    ensures Bit(SmallSigma1(x), i) <==>
      ((Bit(x, (i + 17) % 32) != Bit(x, (i + 19) % 32)) != (i + 10 < 32 && Bit(x, i + 10)))
  {
    RotrsDiffer(x, 7, 18, Shr(x, 3), i);
    RotrsDiffer(x, 17, 19, Shr(x, 10), i);
    ShrBit(x, 3, i);
    ShrBit(x, 10, i);
    NoHighBit(x, i + 3);
    NoHighBit(x, i + 10);
  }

  lemma RotrsDiffer(x: Word, m: nat, n: nat, z: Word, i: nat)
    requires m <= 32 && n <= 32 && i < 32
    ensures Bit(Differ(Differ(Rotr(x, m), Rotr(x, n)), z), i) <==>
      ((Bit(x, (i + m) % 32) != Bit(x, (i + n) % 32)) != Bit(z, i))
  {
    ThreeDiffer(Rotr(x, m), Rotr(x, n), z, i);
    RotrBit(x, m, i);
    RotrBit(x, n, i);
  }

  lemma ThreeDiffer(x: Word, y: Word, z: Word, i: nat)
    requires i < 32
    ensures Bit(Differ(Differ(x, y), z), i) <==> ((Bit(x, i) != Bit(y, i)) != Bit(z, i))
  {
    OperationsAre(x, y, 0, i);
    OperationsAre(Differ(x, y), z, 0, i);
  }

  /** Section 3.1: the bytes of a word, the most significant first. */
  function WordAt(m: seq<Byte>, t: nat): Word
    requires 4 * t + 4 <= |m|
  {
    var b0: nat, b1: nat, b2: nat, b3: nat := m[4 * t], m[4 * t + 1], m[4 * t + 2], m[4 * t + 3];
    0x100_0000 * b0 + 0x1_0000 * b1 + 0x100 * b2 + b3
  }

  /** The message schedule, step 1 of section 6.2.2. */
  function Schedule(m: seq<Byte>, t: nat): Word
    requires |m| == 64
  {
    if t < 16 then WordAt(m, t)
    else
      Add(Add(Add(SmallSigma1(Schedule(m, t - 2)), Schedule(m, t - 7)), SmallSigma0(Schedule(m, t - 15))),
          Schedule(m, t - 16))
  }

  /** The eight working variables. */
  datatype Vars = Vars(a: Word, b: Word, c: Word, d: Word, e: Word, f: Word, g: Word, h: Word)

  function Round(v: Vars, k: Word, w: Word): Vars {
    var t1 := Add(Add(Add(Add(v.h, BigSigma1(v.e)), Ch(v.e, v.f, v.g)), k), w);
    var t2 := Add(BigSigma0(v.a), Maj(v.a, v.b, v.c));
    Vars(Add(t1, t2), v.a, v.b, v.c, Add(v.d, t1), v.e, v.f, v.g)
  }

  /** Step 3 of section 6.2.2, after `t` rounds. */
  function Rounds(v: Vars, m: seq<Byte>, t: nat): Vars
    requires |m| == 64 && t <= 64
  {
    if t == 0 then v else Round(Rounds(v, m, t - 1), K[t - 1], Schedule(m, t - 1))
  }

  /** Steps 2 and 4 of section 6.2.2. */
  function Compress(h: seq<Word>, m: seq<Byte>): (r: seq<Word>)
    requires |h| == 8 && |m| == 64
    ensures |r| == 8
  {
    var v := Rounds(Vars(h[0], h[1], h[2], h[3], h[4], h[5], h[6], h[7]), m, |m|);
    [Add(h[0], v.a), Add(h[1], v.b), Add(h[2], v.c), Add(h[3], v.d),
     Add(h[4], v.e), Add(h[5], v.f), Add(h[6], v.g), Add(h[7], v.h)]
  }

  /** The hash value after all whole blocks of `m`. */
  function Blocks(m: seq<Byte>): (h: seq<Word>)
    requires |m| % 64 == 0
    ensures |h| == 8
  {
    if m == [] then INITIAL else Compress(Blocks(m[..|m| - 64]), m[|m| - 64..])
  }

  /** `n` in `k` bytes, the most significant first. */
  function BigEndian(n: nat, k: nat): (s: seq<Byte>)
    ensures |s| == k
  {
    if k == 0 then [] else BigEndian(n / 256, k - 1) + [n % 256]
  }

  function Zeros(n: nat): (s: seq<Byte>)
    ensures |s| == n
  {
    seq(n, i => 0)
  }

  /** Section 5.1.1: a one bit, the fewest zero bits that fit, and the length in bits. */
  function Padded(m: seq<Byte>): (p: seq<Byte>)
    ensures |p| % 64 == 0
  {
    PaddedLength(|m|);
    m + [0x80] + Zeros((55 - |m|) % 64) + BigEndian(8 * |m|, 8)
  }

  lemma PaddedLength(n: nat)
    ensures (n + 1 + (55 - n) % 64 + 8) % 64 == 0
  {
    var q, r := n / 64, n % 64;
    DivIs(55 - n, 64, if r < 56 then -q else -q - 1, if r < 56 then 55 - r else 119 - r);
    DivIs(n + 1 + (55 - n) % 64 + 8, 64, if r < 56 then q + 1 else q + 2, 0);
  }

  function WordBytes(w: Word): seq<Byte> {
    [w / 0x100_0000, w / 0x1_0000 % 0x100, w / 0x100 % 0x100, w % 0x100]
  }

  function AllBytes(h: seq<Word>): seq<Byte> {
    if h == [] then [] else AllBytes(h[..|h| - 1]) + WordBytes(h[|h| - 1])
  }

  function Sha256(m: seq<Byte>): seq<Byte> {
    AllBytes(Blocks(Padded(m)))
  }

  /** In bits, the padding is the one of section 5.1.1: l + 1 + k = 448 mod 512 for the least such k. */
  lemma PaddingIsMinimal(m: seq<Byte>, k: nat)
    ensures var l, z := 8 * |m|, 7 + 8 * ((55 - |m|) % 64);
      && (l + 1 + z) % 512 == 448
      && ((l + 1 + k) % 512 == 448 ==> z <= k)
      && 8 * |Padded(m)| == l + 1 + z + 64
  {
    var n, r := |m|, (55 - |m|) % 64;
    var q := (55 - n) / 64;
    assert 55 - n == 64 * q + r;
    assert 8 * n + 8 + 8 * r == 448 + 512 * -q;
    if (8 * n + 1 + k) % 512 == 448 {
      var p := (8 * n + 1 + k) / 512;
      assert 8 * n + 1 + k == 512 * p + 448;
      assert k - (7 + 8 * r) == 512 * (p + q);
      assert p + q >= 0;
    }
  }

  function FromBigEndian(s: seq<Byte>): nat {
    if s == [] then 0 else 256 * FromBigEndian(s[..|s| - 1]) + s[|s| - 1]
  }

  function Power256(k: nat): nat {
    if k == 0 then 1 else 256 * Power256(k - 1)
  }

  /** The length field holds every length that fits it. */
  lemma {:induction false} BigEndianHolds(n: nat, k: nat)
    requires n < Power256(k)
    ensures FromBigEndian(BigEndian(n, k)) == n
  {
    if k > 0 {
      BigEndianHolds(n / 256, k - 1);
      var s := BigEndian(n, k);
      assert s[..k - 1] == BigEndian(n / 256, k - 1);
    }
  }

  /** The padded message is the message, a byte with its first bit set, zeros, and the length in bits. */
  lemma PaddedParts(m: seq<Byte>)
    requires 8 * |m| < 0x1_0000_0000_0000_0000
    ensures var p, n := Padded(m), |m|;
      && |p| - 8 > n && p[..n] == m && p[n] == 0x80
      && (forall i :: n < i < |p| - 8 ==> p[i] == 0) && FromBigEndian(p[|p| - 8..]) == 8 * n
  {
    assert Power256(8) == 0x1_0000_0000_0000_0000;
    BigEndianHolds(8 * |m|, 8);
    var p := Padded(m);
    assert p[|p| - 8..] == BigEndian(8 * |m|, 8);
  }
}

/** The streaming hasher `Bh`/`Dh`: a 64-byte buffer, its fill level, the length so far and the hash value. */
module Sha256Stream {
  import opened Bits
  import opened Collections
  import opened Sha256Standard
  import opened Wrappers

  /** What update() accepts: a string's code units, a list of numbers, or something else. */
  datatype Input = Text(units: seq<nat>) | Numbers(numbers: seq<int>) | Other

  datatype Refusal = NotAByte | NotAList

  /** The byte that position `c` feeds; past its end a string feeds 0 and a list is refused. */
  function ByteAt(a: Input, c: nat): Option<Byte> {
    match a
    case Text(units) => Some(if c < |units| then units[c] % 0x100 else 0)
    case Numbers(numbers) => if c < |numbers| && 0 <= numbers[c] <= 255 then Some(numbers[c]) else None
    case Other => None
  }

  function BytesOf(a: Input, b: nat): (r: Option<seq<Byte>>)
    ensures r.Some? ==> |r.value| == b
  {
    if b == 0 then Some([])
    else if BytesOf(a, b - 1).Some? && ByteAt(a, b - 1).Some? then
      Some(BytesOf(a, b - 1).value + [ByteAt(a, b - 1).value])
    else None
  }

  lemma {:induction false} BytesOfNone(a: Input, c: nat, b: nat)
    requires c < b && ByteAt(a, c).None?
    ensures BytesOf(a, b).None?
  {
    if c < b - 1 { BytesOfNone(a, c, b - 1); }
  }

  /** `_.Af`: the byte 128 and 63 zeros. */
  function Pad(): Input {
    Numbers([128] + seq(63, i => 0))
  }

  lemma {:induction false} PadBytes(n: nat)
    requires 0 < n <= 64
    ensures BytesOf(Pad(), n) == Some([0x80] + Zeros(n - 1))
  {
    if n == 1 {
      assert ByteAt(Pad(), 0) == Some(0x80) && BytesOf(Pad(), 0) == Some([]);
      assert BytesOf(Pad(), 1) == Some([] + [0x80]);
      assert [] + [0x80] == [0x80] + Zeros(0);
    } else {
      PadBytes(n - 1);
      assert Zeros(n - 1) == Zeros(n - 2) + [0];
      assert ByteAt(Pad(), n - 1) == Some(0);
      assert [0x80] + Zeros(n - 1) == [0x80] + Zeros(n - 2) + [0];
    }
  }

  /** The code's own grouping of sums, which the standard writes in another order. */
  lemma Regroup(a: Word, b: Word, c: Word, d: Word, e: Word)
    ensures Add(Add(a, b), Add(Add(c, d), e)) == Add(Add(Add(Add(a, b), c), d), e)
    ensures Add(Add(a, b), Add(c, d)) == Add(Add(Add(d, c), b), a)
  {
    Associate(Add(a, b), Add(c, d), e);
    Associate(Add(a, b), c, d);
    Associate(Add(d, c), b, a);
  }

  lemma Associate(x: Word, y: Word, z: Word)
    ensures Add(Add(x, y), z) == Add(x, Add(y, z)) && Add(x, y) == Add(y, x)
  {
  }

  /** Four bytes moved into place and joined with `|`. */
  function JoinBytes(b0: Byte, b1: Byte, b2: Byte, b3: Byte): Word {
    Either(Either(Either(Shl(b0, 24), Shl(b1, 16)), Shl(b2, 8)), b3)
  }

  lemma {:induction false} ShlIs(x: Word, n: nat)
    requires x * Pow2(n) < 0x1_0000_0000
    ensures Shl(x, n) == x * Pow2(n)
    decreases n
  {
    if n > 0 {
      var p := Pow2(n - 1);
      assert x * (2 * p) == (2 * x) * p;
      assert 2 * x <= (2 * x) * p;
      ShlIs(2 * x, n - 1);
    }
  }

  lemma {:induction false} ShrIs(x: Word, n: nat)
    ensures Shr(x, n) == x / Pow2(n)
  {
    if n > 0 {
      ShrIs(x / 2, n - 1);
      Halves(x, Pow2(n - 1));
    }
  }

  lemma ShiftByte(b: Byte)
    ensures Shl(b, 8) == 0x100 * b as nat && Shl(b, 16) == 0x1_0000 * b as nat && Shl(b, 24) == 0x100_0000 * b as nat
  {
    PowerIs24();
    Pow2Values();
    ShlIs(b, 8);
    ShlIs(b, 16);
    ShlIs(b, 24);
  }

  lemma PowerIs24()
    ensures Pow2(24) == 0x100_0000
  {
    Pow2Values();
    Pow2Adds(16, 8);
  }

  lemma JoinTwo(x: Word, y: Word, a: nat, k: nat, p: nat)
    requires k <= 32 && p == Pow2(k) && x == a * p && y < p
    ensures Either(x, y) == x as nat + y as nat
  {
    Pow2Values();
    ModOf(a, p);
    OrAdds(x, y, k, 32);
  }

  lemma JoinIsWordAt(b0: Byte, b1: Byte, b2: Byte, b3: Byte)
    ensures JoinBytes(b0, b1, b2, b3) == 0x100_0000 * b0 as nat + 0x1_0000 * b1 as nat + 0x100 * b2 as nat + b3
  {
    ShiftByte(b0);
    ShiftByte(b1);
    ShiftByte(b2);
    JoinFour(Shl(b0, 24), Shl(b1, 16), Shl(b2, 8), b3, b0, b1, b2);
  }

  lemma JoinFour(x: Word, y: Word, z: Word, b3: Byte, b0: nat, b1: Byte, b2: Byte)
    requires x == b0 * 0x100_0000 && y == b1 as nat * 0x1_0000 && z == b2 as nat * 0x100
    ensures Either(Either(Either(x, y), z), b3) == x as nat + y as nat + z as nat + b3
  {
    PowerIs24();
    JoinTwo(x, y, b0, 24, 0x100_0000);
    assert Pow2(8) == 0x100 && Pow2(16) == 0x1_0000 by { Pow2Values(); }
    JoinTwo(Either(x, y), z, b0 * 0x100 + b1, 16, 0x1_0000);
    JoinTwo(Either(Either(x, y), z), b3, b0 * 0x1_0000 + b1 as nat * 0x100 + b2, 8, 0x100);
  }

  /** One byte of a word, as `w >> d & 255`. */
  function ByteOf(w: Word, d: nat): Word {
    Both(Shr(w, d), 255)
  }

  lemma ByteIs(w: Word, d: nat, p: nat)
    requires p == Pow2(d)
    ensures ByteOf(w, d) == w / p % 0x100
  {
    Pow2Values();
    ShrIs(w, d);
    AndMask(Shr(w, d), 8, 32);
  }

  lemma BytesOfWord(w: Word)
    ensures ByteOf(w, 24) == w / 0x100_0000 && ByteOf(w, 16) == w / 0x1_0000 % 0x100
    ensures ByteOf(w, 8) == w / 0x100 % 0x100 && ByteOf(w, 0) == w % 0x100
  {
    assert ByteOf(w, 24) == w / 0x100_0000 by { PowerIs24(); ByteIs(w, 24, 0x100_0000); }
    assert ByteOf(w, 16) == w / 0x1_0000 % 0x100 by { Pow2Values(); ByteIs(w, 16, 0x1_0000); }
    assert ByteOf(w, 8) == w / 0x100 % 0x100 by { Pow2Values(); ByteIs(w, 8, 0x100); }
    assert ByteOf(w, 0) == w % 0x100 by { ByteIs(w, 0, 1); }
  }

  /** One block, as the code computes it. */
  method CompressBlock(b: array<Byte>, g: array<Word>)
    requires b.Length == 64 && g.Length == 8
    modifies g
    ensures g[..] == Compress(old(g[..]), b[..])
  {
    ghost var h, block := g[..], b[..];
    var c := MakeSchedule(b);
    var start := Vars(g[0], g[1], g[2], g[3], g[4], g[5], g[6], g[7]);
    assert start == StartOf(h);
    var v := RunRounds(block, c, start);
    CompressIs(h, block, v);
    AddInto(g, v);
  }

  function StartOf(h: seq<Word>): Vars
    requires |h| == 8
  {
    Vars(h[0], h[1], h[2], h[3], h[4], h[5], h[6], h[7])
  }

  lemma CompressIs(h: seq<Word>, m: seq<Byte>, v: Vars)
    requires |h| == 8 && |m| == 64 && v == Rounds(StartOf(h), m, |m|)
    ensures Compress(h, m) == Sums(h, v)
  {
  }

  function Sums(h: seq<Word>, v: Vars): seq<Word>
    requires |h| == 8
  {
    [Add(h[0], v.a), Add(h[1], v.b), Add(h[2], v.c), Add(h[3], v.d),
     Add(h[4], v.e), Add(h[5], v.f), Add(h[6], v.g), Add(h[7], v.h)]
  }

  method AddInto(g: array<Word>, v: Vars)
    requires g.Length == 8
    modifies g
    ensures g[..] == Sums(old(g[..]), v)
  {
    g[0] := Add(g[0], v.a);
    g[1] := Add(g[1], v.b);
    g[2] := Add(g[2], v.c);
    g[3] := Add(g[3], v.d);
    g[4] := Add(g[4], v.e);
    g[5] := Add(g[5], v.f);
    g[6] := Add(g[6], v.g);
    g[7] := Add(g[7], v.h);
  }

  method MakeSchedule(b: array<Byte>) returns (c: array<Word>)
    requires b.Length == 64
    ensures fresh(c) && c.Length == 64
    ensures forall t :: 0 <= t < 64 ==> c[t] == Schedule(b[..], t)
  {
    c := new Word[64];
    CopyBlock(b, c);
    var d := 16;
    while d < 64
      invariant 16 <= d <= 64
      invariant forall t :: 0 <= t < d ==> c[t] == Schedule(b[..], t)
    {
      ExtendSchedule(c, d, b[..]);
      d := d + 1;
    }
  }

  /** The first sixteen words are those of the block. */
  method CopyBlock(b: array<Byte>, c: array<Word>)
    requires b.Length == 64 && c.Length == 64
    modifies c
    ensures forall t :: 0 <= t < 16 ==> c[t] == Schedule(b[..], t)
  {
    ghost var block := b[..];
    var d, e := 0, 0;
    while e < b.Length
      invariant 0 <= d <= 16 && e == 4 * d
      invariant forall t :: 0 <= t < d ==> c[t] == Schedule(block, t)
    {
      WordIs(block, d);
      c[d] := JoinBytes(b[e], b[e + 1], b[e + 2], b[e + 3]);
      d := d + 1;
      e := d * 4;
    }
  }

  lemma WordIs(block: seq<Byte>, t: nat)
    requires |block| == 64 && t < 16
    ensures JoinBytes(block[4 * t], block[4 * t + 1], block[4 * t + 2], block[4 * t + 3]) == Schedule(block, t)
  {
    JoinIsWordAt(block[4 * t], block[4 * t + 1], block[4 * t + 2], block[4 * t + 3]);
  }

  /** One more word, from those 16, 15, 7 and 2 places before it. */
  method ExtendSchedule(c: array<Word>, d: nat, ghost block: seq<Byte>)
    requires c.Length == 64 && 16 <= d < 64 && |block| == 64
    requires forall t :: 0 <= t < d ==> c[t] == Schedule(block, t)
    modifies c
    ensures forall t :: 0 <= t <= d ==> c[t] == Schedule(block, t)
  {
    var x, y := c[d - 15], c[d - 2];
    var s0 := Differ(Differ(Either(Shr(x, 7), Shl(x, 25)), Either(Shr(x, 18), Shl(x, 14))), Shr(x, 3));
    var s1 := Differ(Differ(Either(Shr(y, 17), Shl(y, 15)), Either(Shr(y, 19), Shl(y, 13))), Shr(y, 10));
    assert s0 == SmallSigma0(x) && s1 == SmallSigma1(y);
    NextWord(block, d);
    c[d] := Add(Add(c[d - 16], s0), Add(c[d - 7], s1));
  }

  lemma NextWord(block: seq<Byte>, t: nat)
    requires |block| == 64 && t >= 16
    ensures Schedule(block, t) ==
      Add(Add(Schedule(block, t - 16), SmallSigma0(Schedule(block, t - 15))),
          Add(Schedule(block, t - 7), SmallSigma1(Schedule(block, t - 2))))
  {
    Regroup(Schedule(block, t - 16), SmallSigma0(Schedule(block, t - 15)),
            Schedule(block, t - 7), SmallSigma1(Schedule(block, t - 2)), 0);
  }

  method RunRounds(ghost block: seq<Byte>, c: array<Word>, start: Vars) returns (v: Vars)
    requires |block| == 64 && c.Length == 64
    requires forall t :: 0 <= t < 64 ==> c[t] == Schedule(block, t)
    ensures v == Rounds(start, block, |block|)
  {
    v := start;
    var m := 0;
    while m < 64
      invariant 0 <= m <= 64 && v == Rounds(start, block, m)
    {
      v := OneRound(v, K[m], c[m]);
      m := m + 1;
    }
  }

  method OneRound(v: Vars, km: Word, cm: Word) returns (r: Vars)
    ensures r == Round(v, km, cm)
  {
    var b, d, e, f, g, h, k, n := v.a, v.b, v.c, v.d, v.e, v.f, v.g, v.h;
    var s0 := Differ(Differ(Either(Shr(b, 2), Shl(b, 30)), Either(Shr(b, 13), Shl(b, 19))),
                     Either(Shr(b, 22), Shl(b, 10)));
    var p := Add(s0, Differ(Differ(Both(b, d), Both(b, e)), Both(d, e)));
    var s1 := Differ(Differ(Either(Shr(g, 6), Shl(g, 26)), Either(Shr(g, 11), Shl(g, 21))),
                     Either(Shr(g, 25), Shl(g, 7)));
    var ch := Differ(Both(g, h), Both(Not(g), k));
    Regroup(n, s1, ch, km, cm);
    var q := Add(Add(n, s1), Add(Add(ch, km), cm));
    n := k; k := h; h := g; g := Add(f, q); f := e; e := d; d := b; b := Add(q, p);
    r := Vars(b, d, e, f, g, h, k, n);
  }

  /** The whole blocks of `s`, and what is left after them. */
  function Whole(s: seq<Byte>): (w: seq<Byte>)
    ensures |w| % 64 == 0
  {
    s[..|s| - |s| % 64]
  }

  function Rest(s: seq<Byte>): (r: seq<Byte>)
    ensures |r| == |s| % 64
  {
    s[|s| - |s| % 64..]
  }

  lemma Parts(s: seq<Byte>, e: Byte)
    ensures |Rest(s)| == |s| % 64 && |Rest(s + [e])| == if |Rest(s)| == 63 then 0 else |Rest(s)| + 1
  {
  }

  lemma FeedOne(s: seq<Byte>, e: Byte)
    ensures |Rest(s)| < 63 ==> Rest(s + [e]) == Rest(s) + [e] && Whole(s + [e]) == Whole(s)
    ensures |Rest(s)| == 63 ==>
      Rest(s + [e]) == [] && Blocks(Whole(s + [e])) == Compress(Blocks(Whole(s)), Rest(s) + [e])
  {
    var t := s + [e];
    Parts(s, e);
    if |Rest(s)| == 63 {
      assert Whole(t) == t;
      assert t == Whole(s) + (Rest(s) + [e]);
      BlocksLast(t, Whole(s), Rest(s) + [e]);
    }
  }

  /** Mentioned where the meaning of `StandFor` is needed. */
  ghost predicate Look(u: int) { true }

  class Hasher {
    const i: array<Byte>
    var h: nat
    var j: nat
    const g: array<Word>
    /** Every byte fed so far. */
    ghost var fed: seq<Byte>

    /** With `d` bytes in the buffer, buffer and hash value stand for the bytes `s`. */
    ghost predicate StandFor(d: nat, s: seq<Byte>)
      reads i, g
    {
      && i.Length == 64 && g.Length == 8 && d < 64
      && forall u {:trigger Look(u)} :: Look(u) ==> i[..d] == Rest(s) && g[..] == Blocks(Whole(s))
    }

    ghost predicate Valid()
      reads this, i, g
    {
      StandFor(h, fed) && j == |fed|
    }

    constructor ()
      ensures Valid() && fed == [] && fresh(i) && fresh(g)
    {
      i := new Byte[64];
      g := new Word[8];
      h, j, fed := 0, 0, [];
      new;
      forall x | 0 <= x < 8 { g[x] := INITIAL[x]; }
      assert g[..] == INITIAL;
    }

    /** Puts one byte in the buffer, compressing it when that fills it. */
    method Feed(d: nat, e: Byte, ghost s: seq<Byte>) returns (d': nat)
      requires StandFor(d, s)
      modifies i, g
      ensures StandFor(d', s + [e])
    {
      assert Look(0);
      i[d] := e;
      d' := d + 1;
      FeedOne(s, e);
      assert i[..d'] == Rest(s) + [e];
      if d' == i.Length {
        assert i[..] == i[..d'];
        CompressBlock(i, g);
        d' := 0;
      }
    }

    /** Feeds the first `b` bytes of `a`; a refused input leaves the fill level and the length as they were. */
    method Update(a: Input, b: nat) returns (r: Result<(), Refusal>)
      requires Valid()
      modifies this, i, g
      ensures r.Ok? <==> BytesOf(a, b).Some? && !a.Other?
      ensures r.Ok? ==> Valid() && fed == old(fed) + BytesOf(a, b).value
      ensures r.Err? ==> h == old(h) && j == old(j) && fed == old(fed)
      ensures r.Err? ==> r.error == if a.Other? then NotAList else NotAByte
    {
      if a.Other? { return Err(NotAList); }
      var c, d := 0, h;
      ghost var s := Fed(fed, a, 0);
      assert s == fed;
      while c < b
        invariant 0 <= c <= b && h == old(h) && j == old(j) && fed == old(fed)
        invariant BytesOf(a, c).Some? && s == Fed(fed, a, c) && StandFor(d, s)
      {
        var e := ByteAt(a, c);
        if e.None? {
          BytesOfNone(a, c, b);
          return Err(NotAByte);
        }
        d := Feed(d, e.value, s);
        FedStep(fed, a, c);
        s, c := s + [e.value], c + 1;
      }
      h := d;
      j := j + b;
      fed := s;
      return Ok(());
    }

    /** Writes the length in bits into the last eight bytes of the buffer. */
    method PutLength(b: nat, ghost s: seq<Byte>)
      requires i.Length == 64 && i[..56] == s
      modifies i
      ensures i[..] == s + BigEndian(b, 8)
    {
      var c, e := 63, b;
      while c >= 56
        invariant 55 <= c <= 63 && i[..56] == s
        invariant BigEndian(b, 8) == BigEndian(e, c - 55) + i[c + 1..]
      {
        MaskIs(e);
        i[c] := Both(e % 0x1_0000_0000, 255);
        assert i[c..] == [i[c]] + i[c + 1..];
        e := e / 256;
        c := c - 1;
      }
      assert i[..] == i[..56] + i[56..];
    }

    method ReadOut() returns (a: seq<Byte>)
      requires g.Length == 8
      ensures a == AllBytes(g[..])
    {
      a := [];
      var c := 0;
      while c < 8
        invariant 0 <= c <= 8 && a == AllBytes(g[..c])
      {
        BytesOfWord(g[c]);
        assert g[..c + 1][..c] == g[..c];
        a := a + [ByteOf(g[c], 24), ByteOf(g[c], 16), ByteOf(g[c], 8), ByteOf(g[c], 0)];
        c := c + 1;
      }
      assert g[..8] == g[..];
    }

    method FeedPadding() returns (n: nat)
      requires Valid()
      modifies this, i, g
      ensures Valid() && n == (if |Rest(old(fed))| < 56 then 56 - |Rest(old(fed))| else 64 - (|Rest(old(fed))| - 56))
      ensures fed == old(fed) + ([0x80] + Zeros(n - 1)) && i[..56] == Rest(fed)
    {
      assert Look(0);
      n := if h < 56 then 56 - h else i.Length - (h - 56);
      PadBytes(n);
      var ok := Update(Pad(), n);
      PadFits(old(fed), n);
      assert Look(0);
    }

    method CompressLast(ghost m: seq<Byte>, n: nat, b: nat)
      requires i.Length == 64 && g.Length == 8 && g[..] == Blocks(Whole(fed)) && b == 8 * |m|
      requires n == (if |Rest(m)| < 56 then 56 - |Rest(m)| else 64 - (|Rest(m)| - 56))
      requires fed == m + ([0x80] + Zeros(n - 1)) && i[..] == Rest(fed) + BigEndian(b, 8)
      modifies g
      ensures g[..] == Blocks(Padded(m))
    {
      LastBlock(m, n, fed, i[..]);
      CompressBlock(i, g);
    }

    /** Pads the message in the buffer, compresses it and reads the hash value out, leaving the object spent. */
    method Digest() returns (a: seq<Byte>)
      requires Valid()
      modifies this, i, g
      ensures a == Sha256(old(fed))
    {
      var b := j * 8;
      ghost var m := fed;
      var n := FeedPadding();
      assert Look(0);
      PutLength(b, Rest(fed));
      CompressLast(m, n, b);
      a := ReadOut();
    }
  }

  /** A byte in two hexadecimal digits, a byte string digit by digit. */
  function Hex(a: seq<Byte>): string {
    if a == [] then ""
    else
      Hex(a[..|a| - 1]) + ["0123456789abcdef"[a[|a| - 1] / 16], "0123456789abcdef"[a[|a| - 1] % 16]]
  }

  /** The bytes of a text are the low bytes of its code units; past its end it feeds zeros. */
  lemma {:induction false} TextBytes(units: seq<nat>, n: nat)
    ensures BytesOf(Text(units), n) == Some(seq(n, i => if 0 <= i < |units| then units[i] % 0x100 else 0))
  {
    if n > 0 {
      TextBytes(units, n - 1);
      var s: seq<Byte> := seq(n, i => if 0 <= i < |units| then units[i] % 0x100 else 0);
      assert s == s[..n - 1] + [s[n - 1]];
      assert s[..n - 1] == seq(n - 1, i => if 0 <= i < |units| then units[i] % 0x100 else 0);
    } else {
      var s: seq<Byte> := seq(n, i => if 0 <= i < |units| then units[i] % 0x100 else 0);
      assert s == [];
    }
  }

  /** A text of characters below 256 feeds what the list of their codes feeds. */
  lemma TextIsItsNumbers(units: seq<nat>, n: nat)
    requires n <= |units| && forall i :: 0 <= i < |units| ==> units[i] < 0x100
    ensures BytesOf(Text(units), n) == BytesOf(Numbers(units), n) == Some(units[..n])
  {
    TextBytes(units, n);
    AllFed(units, n);
  }

  /** Each byte is two digits of "0123456789abcdef", the high one first. */
  lemma {:induction false} HexDigits(a: seq<Byte>, i: nat)
    requires i < |a|
    ensures |Hex(a)| == 2 * |a|
    ensures var x := a[i] / 16; Hex(a)[2 * i] == if x < 10 then '0' + x as char else 'a' + (x - 10) as char
    ensures var x := a[i] % 16; Hex(a)[2 * i + 1] == if x < 10 then '0' + x as char else 'a' + (x - 10) as char
  {
    var n := |a| - 1;
    HexDigit(a[n] / 16);
    HexDigit(a[n] % 16);
    if n > 0 { HexDigits(a[..n], if i < n then i else 0); }
  }

  lemma HexDigit(x: nat)
    requires x < 16
    ensures "0123456789abcdef"[x] == if x < 10 then '0' + x as char else 'a' + (x - 10) as char
  {
  }

  /** `_.Fh`. */
  method HexDigest(a: Input, length: nat) returns (r: Result<string, Refusal>)
    ensures r.Ok? <==> BytesOf(a, length).Some? && !a.Other?
    ensures r.Ok? ==> r.value == Hex(Sha256(BytesOf(a, length).value))
    ensures a.Text? && length <= |a.units| ==>
      r == Ok(Hex(Sha256(seq(length, i requires 0 <= i < length => a.units[i] % 0x100))))
  {
    if a.Text? && length <= |a.units| {
      TextBytes(a.units, length);
      assert BytesOf(a, length).value == seq(length, i requires 0 <= i < length => a.units[i] % 0x100);
    }
    var b := new Hasher();
    var fed := b.Update(a, length);
    if fed.Err? { return Err(fed.error); }
    var digest := b.Digest();
    assert [] + BytesOf(a, length).value == BytesOf(a, length).value;
    return Ok(Hex(digest));
  }

  /** However a message is cut into updates, the digest is that of the whole message. */
  method DigestOfPieces(pieces: seq<seq<Byte>>) returns (a: seq<Byte>)
    ensures a == Sha256(Flatten(pieces))
  {
    var b := new Hasher();
    var n := 0;
    while n < |pieces|
      invariant 0 <= n <= |pieces| && b.Valid() && b.fed == Flatten(pieces[..n])
      invariant fresh(b) && fresh(b.i) && fresh(b.g)
    {
      AllFed(pieces[n], |pieces[n]|);
      assert pieces[..n + 1][..n] == pieces[..n];
      var ok := b.Update(Numbers(pieces[n]), |pieces[n]|);
      n := n + 1;
    }
    assert pieces[..n] == pieces;
    a := b.Digest();
  }

  lemma {:induction false} AllFed(s: seq<Byte>, n: nat)
    requires n <= |s|
    ensures BytesOf(Numbers(s), n) == Some(s[..n])
  {
    if n > 0 {
      AllFed(s, n - 1);
      assert s[..n] == s[..n - 1] + [s[n - 1]];
    } else {
      assert s[..0] == [];
    }
  }

  ghost function Fed(s: seq<Byte>, a: Input, c: nat): seq<Byte>
    requires BytesOf(a, c).Some?
  {
    s + BytesOf(a, c).value
  }

  lemma FedStep(s: seq<Byte>, a: Input, c: nat)
    requires BytesOf(a, c).Some? && ByteAt(a, c).Some?
    ensures BytesOf(a, c + 1).Some? && Fed(s, a, c + 1) == Fed(s, a, c) + [ByteAt(a, c).value]
  {
  }

  lemma MaskIs(e: nat)
    ensures Both(e % 0x1_0000_0000, 255) == e % 256
  {
    Pow2Values();
    var q, r := e / 0x1_0000_0000, e % 0x1_0000_0000;
    AndMask(r, 8, 32);
    DivIs(e, 256, q * 0x100_0000 + r / 256, r % 256);
  }

  /** With the padding bytes fed, the buffer and the length make up the last block of the padded message. */
  lemma LastBlock(m: seq<Byte>, n: nat, fed: seq<Byte>, block: seq<Byte>)
    requires n == (if |Rest(m)| < 56 then 56 - |Rest(m)| else 64 - (|Rest(m)| - 56))
    requires fed == m + ([0x80] + Zeros(n - 1)) && block == Rest(fed) + BigEndian(8 * |m|, 8)
    ensures |block| == 64 && Blocks(Padded(m)) == Compress(Blocks(Whole(fed)), block)
  {
    PadFits(m, n);
    PaddedIs(m, fed);
    SplitFed(Padded(m), fed, BigEndian(8 * |m|, 8));
    BlocksLast(Padded(m), Whole(fed), block);
  }

  lemma PaddedIs(m: seq<Byte>, fed: seq<Byte>)
    requires fed == m + [0x80] + Zeros((55 - |m|) % 64)
    ensures Padded(m) == fed + BigEndian(8 * |m|, 8)
  {
  }

  lemma SplitFed(p: seq<Byte>, fed: seq<Byte>, l: seq<Byte>)
    requires p == fed + l
    ensures p == Whole(fed) + (Rest(fed) + l)
  {
    assert fed == Whole(fed) + Rest(fed);
  }

  lemma BlocksLast(p: seq<Byte>, w: seq<Byte>, last: seq<Byte>)
    requires |w| % 64 == 0 && |last| == 64 && p == w + last
    ensures |p| % 64 == 0 && Blocks(p) == Compress(Blocks(w), last)
  {
    SplitLast(p, w, last);
  }

  lemma SplitLast(p: seq<Byte>, w: seq<Byte>, last: seq<Byte>)
    requires p == w + last && |w| % 64 == 0 && |last| == 64
    ensures |p| % 64 == 0 && p[..|p| - 64] == w && p[|p| - 64..] == last
  {
  }

  lemma PadFits(m: seq<Byte>, n: nat)
    requires n == if |Rest(m)| < 56 then 56 - |Rest(m)| else 64 - (|Rest(m)| - 56)
    ensures m + ([0x80] + Zeros(n - 1)) == m + [0x80] + Zeros((55 - |m|) % 64)
    ensures |Rest(m + ([0x80] + Zeros(n - 1)))| == 56
  {
    var q, r := |m| / 64, |m| % 64;
    DivIs(55 - |m|, 64, if r < 56 then -q else -q - 1, n - 1);
    DivIs(|m| + n, 64, if r < 56 then q else q + 1, 56);
    assert |m + ([0x80] + Zeros(n - 1))| == |m| + n;
  }
}
