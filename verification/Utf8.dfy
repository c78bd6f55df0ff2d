/** UTF-8 as the client's writer and reader do it without TextEncoder and TextDecoder, against RFC 3629. */
module Utf8 {
  import opened Bits
  import opened Wrappers

  /** A UTF-16 code unit of a JavaScript string. */
  type Unit = x: nat | x < 0x1_0000

  const REPLACEMENT: Unit := 0xFFFD

  predicate HighSurrogate(u: Unit) { 0xD800 <= u < 0xDC00 }
  predicate LowSurrogate(u: Unit) { 0xDC00 <= u < 0xE000 }

  /** A Unicode scalar value. */
  predicate Scalar(c: nat) { c < 0xD800 || 0xE000 <= c < 0x11_0000 }

  // ---- The standards ----

  /** Section 3 of RFC 3629. */
  function Utf8(c: nat): (b: seq<Byte>)
    requires c < 0x11_0000
    ensures 1 <= |b| <= 4
  {
    if c < 0x80 then [c]
    else if c < 0x800 then [0xC0 + c / 0x40, 0x80 + c % 0x40]
    else if c < 0x1_0000 then [0xE0 + c / 0x1000, 0x80 + c / 0x40 % 0x40, 0x80 + c % 0x40]
    else [0xF0 + c / 0x4_0000, 0x80 + c / 0x1000 % 0x40, 0x80 + c / 0x40 % 0x40, 0x80 + c % 0x40]
  }

  /** UTF-16. */
  function Units(c: nat): seq<Unit>
    requires c < 0x11_0000
  {
    if c < 0x1_0000 then [c] else [0xD800 + (c - 0x1_0000) / 0x400, 0xDC00 + (c - 0x1_0000) % 0x400]
  }

  /** The scalar value a string starts with, and how many units it takes; a lone surrogate reads as U+FFFD. */
  function FirstScalar(u: seq<Unit>): (r: (nat, nat))
    requires u != []
    ensures Scalar(r.0) && 1 <= r.1 <= |u|
  {
    if HighSurrogate(u[0]) && |u| > 1 && LowSurrogate(u[1]) then
      (0x1_0000 + (u[0] as nat - 0xD800) * 0x400 + (u[1] as nat - 0xDC00), 2)
    else if HighSurrogate(u[0]) || LowSurrogate(u[0]) then (REPLACEMENT, 1)
    else (u[0], 1)
  }

  function Encode(u: seq<Unit>): seq<Byte> {
    if u == [] then [] else Utf8(FirstScalar(u).0) + Encode(u[FirstScalar(u).1..])
  }

  /** A surrogate alone is written as the three bytes of U+FFFD. */
  lemma LoneSurrogateBytes(u: Unit)
    requires HighSurrogate(u) || LowSurrogate(u)
    ensures Encode([u]) == [0xEF, 0xBF, 0xBD]
  {
    assert FirstScalar([u]) == (0xFFFD, 1) && [u][1..] == [];
  }

  /** The string with every lone surrogate replaced. */
  function Sanitised(u: seq<Unit>): seq<Unit> {
    if u == [] then [] else Units(FirstScalar(u).0) + Sanitised(u[FirstScalar(u).1..])
  }

  predicate Tail(b: Byte) { 0x80 <= b <= 0xBF }

  /** The length of the UTF8-char of section 4 of RFC 3629 that the bytes start with, or 0. */
  function CharLength(s: seq<Byte>): (n: nat)
    requires s != []
    ensures n <= |s| && n <= 4
  {
    var n := |s|;
    if s[0] <= 0x7F then 1
    else if 0xC2 <= s[0] <= 0xDF && n >= 2 && Tail(s[1]) then 2
    else if s[0] == 0xE0 && n >= 3 && 0xA0 <= s[1] <= 0xBF && Tail(s[2]) then 3
    else if 0xE1 <= s[0] <= 0xEC && n >= 3 && Tail(s[1]) && Tail(s[2]) then 3
    else if s[0] == 0xED && n >= 3 && 0x80 <= s[1] <= 0x9F && Tail(s[2]) then 3
    else if 0xEE <= s[0] <= 0xEF && n >= 3 && Tail(s[1]) && Tail(s[2]) then 3
    else if s[0] == 0xF0 && n >= 4 && 0x90 <= s[1] <= 0xBF && Tail(s[2]) && Tail(s[3]) then 4
    else if 0xF1 <= s[0] <= 0xF3 && n >= 4 && Tail(s[1]) && Tail(s[2]) && Tail(s[3]) then 4
    else if s[0] == 0xF4 && n >= 4 && 0x80 <= s[1] <= 0x8F && Tail(s[2]) && Tail(s[3]) then 4
    else 0
  }

  /** UTF8-octets: a string of UTF8-chars. */
  predicate WellFormed(s: seq<Byte>) {
    s == [] || (CharLength(s) > 0 && WellFormed(s[CharLength(s)..]))
  }

  // ---- The reader's results ----

  /** The value of the character a well-formed string starts with. */
  function CharValue(s: seq<Byte>): (c: nat)
    requires s != [] && CharLength(s) > 0
    ensures c < 0x11_0000
  {
    var n := CharLength(s);
    if n == 1 then s[0]
    else if n == 2 then s[0] as nat % 0x20 * 0x40 + s[1] as nat % 0x40
    else if n == 3 then s[0] as nat % 0x10 * 0x1000 + s[1] as nat % 0x40 * 0x40 + s[2] as nat % 0x40
    else s[0] as nat % 8 * 0x4_0000 + s[1] as nat % 0x40 * 0x1000 + s[2] as nat % 0x40 * 0x40 + s[3] as nat % 0x40
  }

  /** None where the reader fails. */
  function Decode(s: seq<Byte>): Option<seq<Unit>> {
    if s == [] then Some([])
    else if CharLength(s) == 0 || Decode(s[CharLength(s)..]).None? then None
    else Some(Units(CharValue(s)) + Decode(s[CharLength(s)..]).value)
  }

  // ---- The writer's and the reader's bit operations ----

  lemma And192(k: Byte)
    ensures And(k, 192, 8) == k / 64 * 64
  {
    HighBits(k, k / 64, k % 64, 3, 6, 2, 192);
    SmallMask(k / 64, 3, 2);
  }

  /** The mask `m` shifted left by `j` bits, on `k == q << j | r`. */
  lemma HighBits(k: nat, q: nat, r: nat, m: nat, j: nat, n: nat, mask: nat)
    requires r < Pow2(j) && k == q * Pow2(j) + r && mask == m * Pow2(j)
    ensures And(k, mask, n + j) == And(q, m, n) * Pow2(j)
  {
    AndSplit(q, r, m, j, n);
  }

  lemma SmallMask(q: nat, m: nat, n: nat)
    requires m == Pow2(n) - 1 && q < Pow2(n)
    ensures And(q, m, n) == q
  {
    AndMask(q, n, n);
  }

  lemma Quarter(k: Byte)
    ensures k / 64 * 64 == 128 <==> Tail(k)
  {
  }

  /** `(k & 192) === 128`. */
  predicate IsTail(k: Byte)
    ensures IsTail(k) <==> Tail(k)
  {
    And192(k);
    Quarter(k);
    And(k, 192, 8) == 128
  }

  /** `g & 63 | 128`. */
  function TailByte(g: nat): (b: Byte)
    ensures b == 0x80 + g % 0x40
  {
    Pow2Values();
    AndMask(g, 6, 32);
    OrAdds(128, g % 64, 6, 8);
    Or(128, And(g, 63, 32), 8)
  }

  /** `x | lead` for the lead bytes 192, 224 and 240. */
  function LeadByte(lead: nat, x: nat): (b: Byte)
    requires (lead == 192 && x < 32) || (lead == 224 && x < 16) || (lead == 240 && x < 8)
    ensures b == lead + x
  {
    Pow2Values();
    assert Pow2(5) == 32;
    OrAdds(lead, x, if lead == 192 then 5 else if lead == 224 then 4 else 3, 8);
    Or(lead, x, 8)
  }

  /** `(x & m) << 6 | y & 63` and the longer joins, by 6 bits at a time. */
  function Join6(x: nat, y: nat): (r: nat)
    requires x < 0x8000
    ensures r == x * 0x40 + y % 0x40
  {
    Pow2Values();
    AndMask(y, 6, 32);
    ModOf(x, 64);
    OrAdds(x * 0x40, y % 0x40, 6, 32);
    Or(x * 0x40, And(y, 63, 32), 32)
  }

  function Mask(h: nat, bits: nat): (r: nat)
    requires bits <= 32
    ensures r == h % Pow2(bits)
  {
    AndMask(h, bits, 32);
    And(h, Pow2(bits) - 1, 32)
  }

  // ---- The writer ----

  /** The bytes of a value, as the code's shifts and masks make them. */
  function CodeBytes(g: nat): (b: seq<Byte>)
    requires g < 0x11_0000
    ensures b == Utf8(g)
  {
    if g < 128 then [g]
    else if g < 2048 then [LeadByte(192, g / 64), TailByte(g)]
    else if g < 65536 then [LeadByte(224, g / 0x1000), TailByte(g / 64), TailByte(g)]
    else [LeadByte(240, g / 0x4_0000), TailByte(g / 0x1000), TailByte(g / 64), TailByte(g)]
  }

  method PutOne(e: array<Byte>, d: nat, g: nat) returns (d': nat)
    requires g < 0x11_0000 && d + |Utf8(g)| <= e.Length
    modifies e
    ensures d' == d + |Utf8(g)| && e[..d'] == old(e[..d]) + Utf8(g)
  {
    d' := StoreAll(e, d, CodeBytes(g));
  }

  method StoreAll(e: array<Byte>, d: nat, b: seq<Byte>) returns (d': nat)
    requires 1 <= |b| <= 4 && d + |b| <= e.Length
    modifies e
    ensures d' == d + |b| && e[..d'] == old(e[..d]) + b
  {
    d' := Store(e, d, b[0]);
    if |b| > 1 { d' := Store(e, d', b[1]); }
    if |b| > 2 { d' := Store(e, d', b[2]); }
    if |b| > 3 { d' := Store(e, d', b[3]); }
  }

  /** `e[d++] = b`. */
  method Store(e: array<Byte>, d: nat, b: Byte) returns (d': nat)
    requires d < e.Length
    modifies e
    ensures d' == d + 1 && e[..d'] == old(e[..d]) + [b]
  {
    e[d] := b;
    d' := d + 1;
  }

  /** The scalar value at `f`; a surrogate pair takes two units and a lone surrogate becomes U+FFFD. */
  method NextScalar(b: seq<Unit>, f: nat) returns (g: nat, f': nat)
    requires f < |b|
    ensures f < f' <= |b| && FirstScalar(b[f..]) == (g, f' - f)
  {
    g, f' := b[f], f + 1;
    if 55296 <= g <= 57343 {
      if g <= 56319 && f' < |b| && 56320 <= b[f'] <= 57343 {
        g := (g - 55296) * 1024 + b[f'] as nat - 56320 + 65536;
        f' := f' + 1;
      } else {
        g := 65533;
      }
    }
  }

  /** Writes into a buffer three times as long as the string, which always has room. */
  method EncodeUnits(b: seq<Unit>) returns (r: seq<Byte>)
    ensures r == Encode(b)
  {
    var e := new Byte[3 * |b|];
    var d, f := 0, 0;
    assert b[0..] == b;
    while f < |b|
      invariant 0 <= f <= |b| && 0 <= d <= 3 * f && e.Length == 3 * |b|
      invariant e[..d] + Encode(b[f..]) == Encode(b)
    {
      var g, f' := NextScalar(b, f);
      Progress(b, f, f', e[..d], g);
      d := PutOne(e, d, g);
      f := f';
    }
    assert b[f..] == [];
    r := if d == e.Length then e[..] else e[..d];
  }

  lemma Progress(b: seq<Unit>, at: nat, f: nat, done: seq<Byte>, g: nat)
    requires at < f <= |b| && FirstScalar(b[at..]) == (g, f - at)
    ensures (done + Utf8(g)) + Encode(b[f..]) == done + Encode(b[at..])
    ensures |Utf8(g)| <= 3 * (f - at)
  {
    assert b[at..][f - at..] == b[f..];
  }

  // ---- The reader ----

  method ReadTwo(b: seq<Byte>, c: nat) returns (r: Option<nat>)
    requires c < |b| && 128 <= b[c] < 224
    ensures r.Some? <==> CharLength(b[c..]) > 0
    ensures r.Some? ==> CharLength(b[c..]) == 2 && r.value == CharValue(b[c..])
  {
    var a, h := |b|, b[c];
    ghost var s := b[c..];
    assert s[0] == h && Pow2(5) == 0x20;
    if c + 1 >= a { return None; }
    var k := b[c + 1];
    assert s[1] == k;
    if h < 194 || !IsTail(k) { return None; }
    r := Some(Join6(Mask(h, 5), k));
  }

  method ReadThree(b: seq<Byte>, c: nat) returns (r: Option<nat>)
    requires c < |b| && 224 <= b[c] < 240
    ensures r.Some? <==> CharLength(b[c..]) > 0
    ensures r.Some? ==> CharLength(b[c..]) == 3 && r.value == CharValue(b[c..])
  {
    var a, h := |b|, b[c];
    ghost var s := b[c..];
    assert |s| == a - c && s[0] == h;
    if c + 1 >= a - 1 { return None; }
    var k, e := b[c + 1], b[c + 2];
    assert s[1] == k && s[2] == e && Pow2(4) == 0x10;
    if !IsTail(k) || (h == 224 && k < 160) || (h == 237 && k >= 160) || !IsTail(e) { return None; }
    r := Some(Join6(Join6(Mask(h, 4), k), e));
  }

  /** `(h << 28) + (k - 144) >> 30` in 32-bit arithmetic: zero unless the value is below 0x10000 or above 0x10FFFF. */
  function OutOfRange(h: nat, k: nat): int
    requires 240 <= h <= 244 && 128 <= k < 192
    ensures OutOfRange(h, k) != 0 <==> (h == 240 && k < 144) || (h == 244 && k >= 144)
  {
    (h % 16 * 0x1000_0000 + (k - 144)) / 0x4000_0000
  }

  method ReadFour(b: seq<Byte>, c: nat) returns (r: Option<nat>)
    requires c < |b| && 240 <= b[c] <= 244
    ensures r.Some? <==> CharLength(b[c..]) > 0
    ensures r.Some? ==> CharLength(b[c..]) == 4 && r.value == CharValue(b[c..])
  {
    var a, h := |b|, b[c];
    if c + 1 >= a - 2 { return None; }
    var k, e, d := b[c + 1], b[c + 2], b[c + 3];
    if !IsTail(k) || OutOfRange(h, k) != 0 || !IsTail(e) || !IsTail(d) { return None; }
    r := Some(Join6(Join6(Join6(Mask(h, 3), k), e), d));
  }

  /** A value beyond 16 bits as two surrogates. */
  function Surrogates(v: nat): (u: seq<Unit>)
    requires 0x1_0000 <= v < 0x11_0000
    ensures u == Units(v)
  {
    var h := v - 65536;
    assert Pow2(10) == 0x400;
    DivIs(h / 1024, 1024, 0, h / 1024);
    [Mask(h / 1024, 10) + 55296, Mask(h, 10) + 56320]
  }

  /** Reads one character at `c`; the error cases are the code's, test by test. */
  method ReadOne(b: seq<Byte>, c: nat) returns (r: Option<seq<Unit>>, c': nat)
    requires c < |b|
    ensures r.Some? <==> CharLength(b[c..]) > 0
    ensures r.Some? ==> c' == c + CharLength(b[c..]) && r.value == Units(CharValue(b[c..]))
  {
    var h := b[c];
    if h < 128 {
      return Some([h]), c + 1;
    } else if h < 224 {
      var v := ReadTwo(b, c);
      if v.Some? { return Some([v.value]), c + 2; }
    } else if h < 240 {
      var v := ReadThree(b, c);
      if v.Some? { return Some([v.value]), c + 3; }
    } else if h <= 244 {
      var v := ReadFour(b, c);
      if v.Some? {
        FourIsLarge(b[c..]);
        return Some(Surrogates(v.value)), c + 4;
      }
    }
    return None, c;
  }

  lemma FourIsLarge(s: seq<Byte>)
    requires s != [] && CharLength(s) == 4
    ensures 0x1_0000 <= CharValue(s)
  {
  }

  /** Decodes all of `b`, moving the units read so far into the string whenever 8192 of them have gathered. */
  method DecodeBytes(b: seq<Byte>) returns (r: Option<seq<Unit>>)
    ensures r == Decode(b)
  {
    var c, f, g := 0, [], [];
    assert b[0..] == b;
    while c < |b|
      invariant 0 <= c <= |b| && Decode(b) == After(g, f, Decode(b[c..]))
    {
      ghost var at := c;
      var one;
      one, c := ReadOne(b, c);
      if one.None? { return None; }
      DecodeStep(b, at, c, g, f);
      f := f + one.value;
      if |f| >= 8192 {
        Flush(g, f, Decode(b[c..]));
        g, f := g + f, [];
      }
    }
    assert b[c..] == [];
    assert g + f + [] == g + f;
    return Some(g + f);
  }

  ghost function After(g: seq<Unit>, f: seq<Unit>, rest: Option<seq<Unit>>): (r: Option<seq<Unit>>)
    ensures g == [] && f == [] ==> r == rest
  {
    assert rest.Some? ==> [] + [] + rest.value == rest.value;
    if rest.Some? then Some(g + f + rest.value) else None
  }

  lemma Flush(g: seq<Unit>, f: seq<Unit>, rest: Option<seq<Unit>>)
    ensures After(g, f, rest) == After(g + f, [], rest)
  {
    assert g + f + [] == g + f;
  }

  lemma DecodeStep(b: seq<Byte>, at: nat, c: nat, g: seq<Unit>, f: seq<Unit>)
    requires at < |b| && CharLength(b[at..]) > 0 && c == at + CharLength(b[at..])
    ensures After(g, f, Decode(b[at..])) == After(g, f + Units(CharValue(b[at..])), Decode(b[c..]))
  {
    assert b[at..][c - at..] == b[c..];
    if Decode(b[c..]).Some? {
      var u, t := Units(CharValue(b[at..])), Decode(b[c..]).value;
      assert g + f + (u + t) == g + (f + u) + t;
    }
  }

  // ---- What the pair promises ----

  lemma Sixes(c: nat)
    ensures c / 0x1000 == c / 0x40 / 0x40 && c / 0x4_0000 == c / 0x40 / 0x40 / 0x40
  {
    DivIs(c, 0x1000, c / 0x40 / 0x40, c / 0x40 % 0x40 * 0x40 + c % 0x40);
    DivIs(c, 0x4_0000, c / 0x1000 / 0x40, c / 0x1000 % 0x40 * 0x1000 + c % 0x1000);
  }

  lemma ReadsTwo(c: nat, b0: Byte, b1: Byte)
    requires 0x80 <= c < 0x800 && b0 == 0xC0 + c / 0x40 && b1 == 0x80 + c % 0x40
    ensures 0xC2 <= b0 <= 0xDF && Tail(b1) && b0 as nat % 0x20 * 0x40 + b1 as nat % 0x40 == c
  {
  }

  lemma ReadsThree(c: nat, b0: Byte, b1: Byte, b2: Byte)
    requires 0x800 <= c < 0x1_0000 && Scalar(c)
    requires b0 == 0xE0 + c / 0x1000 && b1 == 0x80 + c / 0x40 % 0x40 && b2 == 0x80 + c % 0x40
    ensures 0xE0 <= b0 <= 0xEF && Tail(b1) && Tail(b2) && (b0 == 0xE0 ==> 0xA0 <= b1) && (b0 == 0xED ==> b1 <= 0x9F)
    ensures b0 as nat % 0x10 * 0x1000 + b1 as nat % 0x40 * 0x40 + b2 as nat % 0x40 == c
  {
    Sixes(c);
    var x, y, z := c / 0x1000, c / 0x40 % 0x40, c % 0x40;
    assert c == x * 0x1000 + y * 0x40 + z;
    assert b0 as nat % 0x10 == x && b1 as nat % 0x40 == y && b2 as nat % 0x40 == z;
  }

  lemma ReadsFour(c: nat, b0: Byte, b1: Byte, b2: Byte, b3: Byte)
    requires 0x1_0000 <= c < 0x11_0000
    requires b0 == 0xF0 + c / 0x4_0000 && b1 == 0x80 + c / 0x1000 % 0x40
    requires b2 == 0x80 + c / 0x40 % 0x40 && b3 == 0x80 + c % 0x40
    ensures 0xF0 <= b0 <= 0xF4 && Tail(b1) && Tail(b2) && Tail(b3)
    ensures (b0 == 0xF0 ==> 0x90 <= b1) && (b0 == 0xF4 ==> b1 <= 0x8F)
    ensures b0 as nat % 8 * 0x4_0000 + b1 as nat % 0x40 * 0x1000 + b2 as nat % 0x40 * 0x40 + b3 as nat % 0x40 == c
  {
    Sixes(c);
    var w, x, y, z := c / 0x4_0000, c / 0x1000 % 0x40, c / 0x40 % 0x40, c % 0x40;
    assert c == w * 0x4_0000 + x * 0x1000 + y * 0x40 + z;
    assert b0 as nat % 8 == w && b1 as nat % 0x40 == x && b2 as nat % 0x40 == y && b3 as nat % 0x40 == z;
  }

  lemma Utf8Reads(c: nat, rest: seq<Byte>)
    requires Scalar(c)
    ensures CharLength(Utf8(c) + rest) == |Utf8(c)| && CharValue(Utf8(c) + rest) == c
  {
    var b := Utf8(c);
    if c < 0x80 {
    } else if c < 0x800 {
      ReadsTwo(c, b[0], b[1]);
    } else if c < 0x1_0000 {
      ReadsThree(c, b[0], b[1], b[2]);
    } else {
      ReadsFour(c, b[0], b[1], b[2], b[3]);
    }
  }

  /** A number in base 64. */
  lemma Digits2(y: nat, z: nat)
    requires z < 0x40
    ensures var c := y * 0x40 + z; c / 0x40 == y && c % 0x40 == z
  {
    DivIs(y * 0x40 + z, 0x40, y, z);
  }

  lemma Digits3(x: nat, y: nat, z: nat)
    requires y < 0x40 && z < 0x40
    ensures var c := x * 0x1000 + y * 0x40 + z; c / 0x1000 == x && c / 0x40 % 0x40 == y && c % 0x40 == z
  {
    Sixes(x * 0x1000 + y * 0x40 + z);
    Digits2(x * 0x40 + y, z);
    Digits2(x, y);
  }

  lemma Digits4(w: nat, x: nat, y: nat, z: nat)
    requires x < 0x40 && y < 0x40 && z < 0x40
    ensures var c := w * 0x4_0000 + x * 0x1000 + y * 0x40 + z;
      c / 0x4_0000 == w && c / 0x1000 % 0x40 == x && c / 0x40 % 0x40 == y && c % 0x40 == z
  {
    Sixes(w * 0x4_0000 + x * 0x1000 + y * 0x40 + z);
    Digits2(w * 0x1000 + x * 0x40 + y, z);
    Digits3(w, x, y);
  }

  lemma CharIsUtf8(s: seq<Byte>)
    requires s != [] && CharLength(s) > 0
    ensures Scalar(CharValue(s)) && Utf8(CharValue(s)) == s[..CharLength(s)]
  {
    var n := CharLength(s);
    if n == 2 {
      TwoIsUtf8(s[0], s[1]);
    } else if n == 3 {
      ThreeIsUtf8(s[0], s[1], s[2]);
    } else if n == 4 {
      FourIsUtf8(s[0], s[1], s[2], s[3]);
    }
  }

  lemma TwoIsUtf8(b0: Byte, b1: Byte)
    requires 0xC2 <= b0 <= 0xDF && Tail(b1)
    ensures var c := b0 as nat % 0x20 * 0x40 + b1 as nat % 0x40;
      0x80 <= c < 0x800 && [0xC0 + c / 0x40, 0x80 + c % 0x40] == [b0, b1]
  {
    Digits2(b0 as nat % 0x20, b1 as nat % 0x40);
  }

  lemma ThreeIsUtf8(b0: Byte, b1: Byte, b2: Byte)
    requires 0xE0 <= b0 <= 0xEF && Tail(b1) && Tail(b2) && (b0 == 0xE0 ==> 0xA0 <= b1) && (b0 == 0xED ==> b1 <= 0x9F)
    ensures var c := b0 as nat % 0x10 * 0x1000 + b1 as nat % 0x40 * 0x40 + b2 as nat % 0x40;
      && 0x800 <= c < 0x1_0000 && Scalar(c)
      && [0xE0 + c / 0x1000, 0x80 + c / 0x40 % 0x40, 0x80 + c % 0x40] == [b0, b1, b2]
  {
    Digits3(b0 as nat % 0x10, b1 as nat % 0x40, b2 as nat % 0x40);
  }

  lemma FourIsUtf8(b0: Byte, b1: Byte, b2: Byte, b3: Byte)
    requires 0xF0 <= b0 <= 0xF4 && Tail(b1) && Tail(b2) && Tail(b3)
    requires (b0 == 0xF0 ==> 0x90 <= b1) && (b0 == 0xF4 ==> b1 <= 0x8F)
    ensures var c := b0 as nat % 8 * 0x4_0000 + b1 as nat % 0x40 * 0x1000 + b2 as nat % 0x40 * 0x40 + b3 as nat % 0x40;
      && 0x1_0000 <= c < 0x11_0000
      && [0xF0 + c / 0x4_0000, 0x80 + c / 0x1000 % 0x40, 0x80 + c / 0x40 % 0x40, 0x80 + c % 0x40] == [b0, b1, b2, b3]
  {
    Digits4(b0 as nat % 8, b1 as nat % 0x40, b2 as nat % 0x40, b3 as nat % 0x40);
    FourRange(b0 as nat % 8, b1 as nat % 0x40, b2 as nat % 0x40, b3 as nat % 0x40);
  }

  lemma FourRange(w: nat, x: nat, y: nat, z: nat)
    requires w <= 4 && x < 0x40 && y < 0x40 && z < 0x40 && (w == 0 ==> x >= 0x10) && (w == 4 ==> x < 0x10)
    ensures 0x1_0000 <= w * 0x4_0000 + x * 0x1000 + y * 0x40 + z < 0x11_0000
  {
  }

  lemma UnitsRead(c: nat, rest: seq<Unit>)
    requires Scalar(c)
    ensures FirstScalar(Units(c) + rest) == (c, |Units(c)|)
  {
  }

  lemma UnitsWrite(c: nat, rest: seq<Unit>)
    requires Scalar(c)
    ensures Encode(Units(c) + rest) == Utf8(c) + Encode(rest)
    ensures Sanitised(Units(c) + rest) == Units(c) + Sanitised(rest)
  {
    UnitsRead(c, rest);
    assert (Units(c) + rest)[|Units(c)|..] == rest;
  }

  /** Reading what the writer wrote gives the string back with its lone surrogates replaced. */
  lemma {:induction false} DecodeEncode(u: seq<Unit>)
    ensures Decode(Encode(u)) == Some(Sanitised(u))
  {
    if u != [] {
      var (c, n) := FirstScalar(u);
      DecodeEncode(u[n..]);
      Utf8Reads(c, Encode(u[n..]));
      assert (Utf8(c) + Encode(u[n..]))[|Utf8(c)|..] == Encode(u[n..]);
    }
  }

  /** What the reader accepts is what the writer would have written for the string it returns. */
  lemma {:induction false} EncodeDecode(s: seq<Byte>)
    requires Decode(s).Some?
    ensures Encode(Decode(s).value) == s && Sanitised(Decode(s).value) == Decode(s).value
  {
    if s != [] {
      var n, c := CharLength(s), CharValue(s);
      var t := s[n..];
      EncodeDecode(t);
      CharIsUtf8(s);
      var u := Decode(t).value;
      UnitsWrite(c, u);
      assert Decode(s).value == Units(c) + u;
      assert s == s[..n] + t;
    }
  }

  /** The reader accepts exactly the UTF8-octets of RFC 3629. */
  lemma {:induction false} AcceptsWellFormed(s: seq<Byte>)
    ensures Decode(s).Some? <==> WellFormed(s)
  {
    if s != [] && CharLength(s) > 0 {
      AcceptsWellFormed(s[CharLength(s)..]);
    }
  }

  /** Every surrogate stands in a pair. */
  ghost predicate Paired(u: seq<Unit>) {
    forall i :: 0 <= i < |u| ==> InPair(u, i)
  }

  ghost predicate InPair(u: seq<Unit>, i: nat)
    requires i < |u|
  {
    && (HighSurrogate(u[i]) ==> i + 1 < |u| && LowSurrogate(u[i + 1]))
    && (LowSurrogate(u[i]) ==> i > 0 && HighSurrogate(u[i - 1]))
  }

  /** A string comes back unchanged exactly when it has no lone surrogate. */
  lemma {:induction false} SanitisedIsSame(u: seq<Unit>)
    ensures Sanitised(u) == u <==> Paired(u)
  {
    if u != [] {
      var (c, n) := FirstScalar(u);
      var t := u[n..];
      SanitisedIsSame(t);
      assert |Units(c)| == n;
      assert u == u[..n] + t;
      assert Sanitised(u)[..n] == Units(c) && Sanitised(u)[n..] == Sanitised(t);
      assert Units(c) == u[..n] <==> !Lone(u);
      PairedStep(u, n);
    }
  }

  ghost predicate Lone(u: seq<Unit>)
    requires u != []
  {
    LowSurrogate(u[0]) || (HighSurrogate(u[0]) && !(|u| > 1 && LowSurrogate(u[1])))
  }

  lemma PairedStep(u: seq<Unit>, n: nat)
    requires u != [] && n == FirstScalar(u).1
    ensures Paired(u) <==> !Lone(u) && Paired(u[n..])
  {
    var t := u[n..];
    assert forall i :: 0 <= i < |t| ==> t[i] == u[i + n];
    if Paired(u) {
      assert InPair(u, 0);
      forall i | 0 <= i < |t| ensures InPair(t, i) {
        assert InPair(u, i + n) && t[i] == u[i + n];
        assert i > 0 ==> t[i - 1] == u[i + n - 1];
      }
    }
    if !Lone(u) && Paired(t) {
      forall x | 0 <= x < |u| ensures InPair(u, x) {
        if x >= n {
          assert InPair(t, x - n) && u[x] == t[x - n];
          assert x > n ==> t[x - n - 1] == u[x - 1];
        }
      }
    }
  }
}
