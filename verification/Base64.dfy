/** Base64 as the client's `_.Ug`, `_.Vg` and `ug` do it, against sections 4 and 5 of RFC 4648. */
module Base64 {
  import opened Bits
  import opened Wrappers

  /** The five alphabets share 62 characters and differ in the last two and the padding, if any. */
  const EXTRAS: seq<string> := ["+/=", "+/", "-_=", "-_.", "-_"]

  function Digit(k: nat, v: nat): char
    requires k < 5 && v < 64
  {
    if v < 26 then 'A' + v as char
    else if v < 52 then 'a' + (v - 26) as char
    else if v < 62 then '0' + (v - 52) as char
    else EXTRAS[k][v - 62]
  }

  function Pad(k: nat): (p: string)
    requires k < 5
    ensures |p| <= 1
  {
    EXTRAS[k][2..]
  }

  /** The table of all five alphabets together; the padding characters stand for 64. */
  function Symbol(c: char): Option<nat> {
    if 'A' <= c <= 'Z' then Some((c - 'A') as nat)
    else if 'a' <= c <= 'z' then Some((c - 'a') as nat + 26)
    else if '0' <= c <= '9' then Some((c - '0') as nat + 52)
    else if c == '+' || c == '-' then Some(62)
    else if c == '/' || c == '_' then Some(63)
    else if c == '=' || c == '.' then Some(64)
    else None
  }

  /** What the class `[\s\xa0]` of regular expressions matches. */
  predicate Space(c: char) {
    || c == ' ' || '\t' <= c <= '\r' || c == '\U{a0}' || c == '\U{1680}' || '\U{2000}' <= c <= '\U{200a}'
    || c == '\U{2028}' || c == '\U{2029}' || c == '\U{202f}' || c == '\U{205f}' || c == '\U{3000}' || c == '\U{feff}'
  }

  /** One by one: the white space and line ends of ECMA-262, sections 12.2 and 12.3. */
  lemma SpacesAre(c: char)
    ensures Space(c) <==> c in {
      '\t', '\n', '\U{b}', '\U{c}', '\r', ' ', '\U{a0}', '\U{1680}', '\U{2000}', '\U{2001}', '\U{2002}', '\U{2003}',
      '\U{2004}', '\U{2005}', '\U{2006}', '\U{2007}', '\U{2008}', '\U{2009}', '\U{200a}', '\U{2028}', '\U{2029}',
      '\U{202f}', '\U{205f}', '\U{3000}', '\U{feff}'}
  {
  }

  predicate IsPad(c: char) { c == '=' || c == '.' }

  // ---- Encoding ----

  /** A number in four, three or two 6-bit digits, the most significant first. */
  function FourDigits(v: nat, k: nat): (r: string)
    requires k < 5 && v < 0x100_0000
    ensures |r| == 4
  {
    [Digit(k, v / 0x4_0000), Digit(k, v / 0x1000 % 0x40), Digit(k, v / 0x40 % 0x40), Digit(k, v % 0x40)]
  }

  function ThreeDigits(v: nat, k: nat): (r: string)
    requires k < 5 && v < 0x4_0000
    ensures |r| == 3
  {
    [Digit(k, v / 0x1000), Digit(k, v / 0x40 % 0x40), Digit(k, v % 0x40)]
  }

  function TwoDigits(v: nat, k: nat): (r: string)
    requires k < 5 && v < 0x1000
    ensures |r| == 2
  {
    [Digit(k, v / 0x40), Digit(k, v % 0x40)]
  }

  /** Section 4 of RFC 4648: 24-bit groups cut into four 6-bit digits, the last group filled with zero bits. */
  function Encode(a: seq<Byte>, k: nat): string
    requires k < 5
  {
    if a == [] then ""
    else if |a| == 1 then TwoDigits(Bits8(a[0]), k) + Pad(k) + Pad(k)
    else if |a| == 2 then ThreeDigits(Bits16(a[0], a[1]), k) + Pad(k)
    else FourDigits(Bits24(a[0], a[1], a[2]), k) + Encode(a[3..], k)
  }

  /** One, two or three bytes as a number, with the zero bits that fill its last digit. */
  function Bits8(g: Byte): (v: nat)
    ensures v < 0x1000
  {
    g as nat * 0x10
  }

  function Bits16(g: Byte, h: Byte): (v: nat)
    ensures v < 0x4_0000
  {
    (g as nat * 0x100 + h) * 4
  }

  function Bits24(g: Byte, h: Byte, k: Byte): (v: nat)
    ensures v < 0x100_0000
  {
    g as nat * 0x1_0000 + h as nat * 0x100 + k
  }

  /** The 6-bit pieces of up to three bytes, as the code's shifts and masks make them. */
  function Pieces(g: Byte, h: Byte, k: Byte): (p: (nat, nat, nat, nat))
    ensures p.0 < 64 && p.1 < 64 && p.2 < 64 && p.3 < 64
    ensures p == (g / 4, g % 4 * 16 + h / 16, h % 16 * 4 + k / 64, k % 64)
  {
    PiecesAre(g, h, k);
    (g / 4, Or(And(g, 3, 8) * 16, h / 16, 8), Or(And(h, 15, 8) * 4, k / 64, 8), And(k, 63, 8))
  }

  lemma PiecesAre(g: Byte, h: Byte, k: Byte)
    ensures And(g, 3, 8) == g % 4 && And(h, 15, 8) == h % 16 && And(k, 63, 8) == k % 64
    ensures Or(g % 4 * 16, h / 16, 8) == g % 4 * 16 + h / 16 && Or(h % 16 * 4, k / 64, 8) == h % 16 * 4 + k / 64
  {
    assert Pow2(2) == 4 && Pow2(4) == 16 && Pow2(6) == 64 && Pow2(8) == 0x100 by { Pow2Values(); }
    AndMask(g, 2, 8);
    AndMask(h, 4, 8);
    AndMask(k, 6, 8);
    ModOf(g % 4, 16);
    ModOf(h % 16, 4);
    OrAdds(g % 4 * 16, h / 16, 4, 8);
    OrAdds(h % 16 * 4, k / 64, 2, 8);
  }

  /** The same pieces, read off the bytes as one number. */
  lemma PiecesOfGroup(g: Byte, h: Byte, k: Byte)
    ensures var v := Bits24(g, h, k);
      (v / 0x4_0000, v / 0x1000 % 0x40, v / 0x40 % 0x40, v % 0x40) == Pieces(g, h, k)
  {
    var v := Bits24(g, h, k);
    var g1, g0, h1, h0, k1, k0 := g / 4, g % 4, h / 16, h % 16, k / 64, k % 64;
    var top := g1 * 0x40 + (g0 * 16 + h1);
    DivIs(v, 0x4_0000, g1, (g0 * 16 + h1) * 0x1000 + (h0 * 4 + k1) * 0x40 + k0);
    DivIs(v, 0x1000, top, (h0 * 4 + k1) * 0x40 + k0);
    DivIs(top, 0x40, g1, g0 * 16 + h1);
    DivIs(v, 0x40, top * 0x40 + (h0 * 4 + k1), k0);
    DivIs(top * 0x40 + (h0 * 4 + k1), 0x40, top, h0 * 4 + k1);
  }

  lemma EncodeOne(a: seq<Byte>, b: nat)
    requires b < 5 && |a| == 1
    ensures var p := Pieces(a[0], 0, 0); Encode(a, b) == [Digit(b, p.0), Digit(b, p.1)] + Pad(b) + Pad(b)
  {
    OneByte(a[0]);
  }

  lemma EncodeTwo(a: seq<Byte>, b: nat)
    requires b < 5 && |a| == 2
    ensures var p := Pieces(a[0], a[1], 0);
      Encode(a, b) == [Digit(b, p.0), Digit(b, p.1), Digit(b, p.2)] + Pad(b)
  {
    TwoBytes(a[0], a[1]);
  }

  lemma EncodeThree(a: seq<Byte>, b: nat)
    requires b < 5 && |a| >= 3
    ensures var p := Pieces(a[0], a[1], a[2]);
      Encode(a, b) == [Digit(b, p.0), Digit(b, p.1), Digit(b, p.2), Digit(b, p.3)] + Encode(a[3..], b)
  {
    PiecesOfGroup(a[0], a[1], a[2]);
  }

  lemma OneByte(g: Byte)
    ensures var v, p := Bits8(g), Pieces(g, 0, 0); v / 0x40 == p.0 && v % 0x40 == p.1
  {
    DivIs(Bits8(g), 0x40, g / 4, g % 4 * 16);
  }

  lemma TwoBytes(g: Byte, h: Byte)
    ensures var v, p := Bits16(g, h), Pieces(g, h, 0);
      v / 0x1000 == p.0 && v / 0x40 % 0x40 == p.1 && v % 0x40 == p.2
  {
    var v, g1, g0, h1, h0 := Bits16(g, h), g / 4, g % 4, h / 16, h % 16;
    DivIs(v, 0x1000, g1, (g0 * 16 + h1) * 0x40 + h0 * 4);
    DivIs(v, 0x40, g1 * 0x40 + (g0 * 16 + h1), h0 * 4);
    DivIs(g1 * 0x40 + (g0 * 16 + h1), 0x40, g1, g0 * 16 + h1);
  }

  method EncodeBytes(a: seq<Byte>, b: nat) returns (s: string)
    requires b < 5
    ensures s == Encode(a, b)
  {
    var d, e := Pad(b), 0;
    s := "";
    assert a[0..] == a;
    while e < |a| - 2
      invariant 0 <= e <= |a| && s + Encode(a[e..], b) == Encode(a, b)
    {
      var p := Pieces(a[e], a[e + 1], a[e + 2]);
      EncodeThree(a[e..], b);
      assert a[e..][3..] == a[e + 3..];
      s := s + [Digit(b, p.0), Digit(b, p.1), Digit(b, p.2), Digit(b, p.3)];
      e := e + 3;
    }
    if |a| - e == 2 {
      EncodeTwo(a[e..], b);
      var p := Pieces(a[e], a[e + 1], 0);
      s := s + ([Digit(b, p.0), Digit(b, p.1), Digit(b, p.2)] + d);
    } else if |a| - e == 1 {
      EncodeOne(a[e..], b);
      var p := Pieces(a[e], 0, 0);
      s := s + ([Digit(b, p.0), Digit(b, p.1)] + d + d);
    }
  }

  /** The test vectors of section 10 of RFC 4648. */
  lemma Vectors()
    ensures Encode([], 0) == "" && Encode([0x66], 0) == "Zg==" && Encode([0x66, 0x6F], 0) == "Zm8="
    ensures Encode([0x66, 0x6F, 0x6F], 0) == "Zm9v" && Encode([0x66, 0x6F, 0x6F, 0x62], 0) == "Zm9vYg=="
    ensures Encode([0x66, 0x6F, 0x6F, 0x62, 0x61], 0) == "Zm9vYmE="
    ensures Encode([0x66, 0x6F, 0x6F, 0x62, 0x61, 0x72], 0) == "Zm9vYmFy"
  {
    ShortVectors();
    LongVectors();
    LongestVectors();
  }

  lemma ShortVectors()
    ensures Encode([], 0) == "" && Encode([0x66], 0) == "Zg==" && Encode([0x66, 0x6F], 0) == "Zm8="
    ensures Encode([0x62], 0) == "Yg==" && Encode([0x62, 0x61], 0) == "YmE="
  {
  }

  lemma LongVectors()
    ensures Encode([0x66, 0x6F, 0x6F], 0) == "Zm9v" && Encode([0x62, 0x61, 0x72], 0) == "YmFy"
    ensures Encode([0x66, 0x6F, 0x6F, 0x62], 0) == "Zm9vYg=="
  {
    ShortVectors();
    Foo();
    Bar();
    VectorJoins(0x66, 0x6F, 0x6F, [], "Zm9v", "");
    VectorJoins(0x66, 0x6F, 0x6F, [0x62], "Zm9v", "Yg==");
    VectorJoins(0x62, 0x61, 0x72, [], "YmFy", "");
  }

  lemma Foo()
    ensures FourDigits(Bits24(0x66, 0x6F, 0x6F), 0) == "Zm9v"
  {
  }

  lemma Bar()
    ensures FourDigits(Bits24(0x62, 0x61, 0x72), 0) == "YmFy"
  {
  }

  lemma LongestVectors()
    ensures Encode([0x66, 0x6F, 0x6F, 0x62, 0x61], 0) == "Zm9vYmE="
    ensures Encode([0x66, 0x6F, 0x6F, 0x62, 0x61, 0x72], 0) == "Zm9vYmFy"
  {
    ShortVectors();
    LongVectors();
    VectorJoins(0x66, 0x6F, 0x6F, [0x62, 0x61], "Zm9v", "YmE=");
    VectorJoins(0x66, 0x6F, 0x6F, [0x62, 0x61, 0x72], "Zm9v", "YmFy");
  }

  lemma VectorJoins(g: Byte, h: Byte, k: Byte, rest: seq<Byte>, s: string, t: string)
    requires FourDigits(Bits24(g, h, k), 0) == s && Encode(rest, 0) == t
    ensures Encode([g, h, k] + rest, 0) == s + t
  {
    assert ([g, h, k] + rest)[3..] == rest;
  }

  /** Two bytes whose digits are the last ones of the alphabet, in each of the five. */
  lemma LastDigits()
    ensures Encode([0xFB, 0xFF], 0) == "+/8=" && Encode([0xFB, 0xFF], 1) == "+/8"
    ensures Encode([0xFB, 0xFF], 2) == "-_8=" && Encode([0xFB, 0xFF], 3) == "-_8." && Encode([0xFB, 0xFF], 4) == "-_8"
  {
  }

  predicate LetterOrDigit(c: char) { 'A' <= c <= 'Z' || 'a' <= c <= 'z' || '0' <= c <= '9' }

  /** The last alphabet, that of section 5 without padding, writes nothing that a URL would have to escape. */
  lemma {:induction false} SafeInUrls(a: seq<Byte>, i: nat)
    requires i < |Encode(a, 4)|
    ensures var c := Encode(a, 4)[i]; LetterOrDigit(c) || c == '-' || c == '_'
  {
    if |a| > 2 && i >= 4 { SafeInUrls(a[3..], i - 4); }
    forall v: nat | v < 64 ensures SafeDigit(v) {}
  }

  predicate SafeDigit(v: nat)
    requires v < 64
  {
    var c := Digit(4, v);
    LetterOrDigit(c) || c == '-' || c == '_'
  }

  // ---- Decoding ----

  /** The symbols of a text without its white space, or the first character that is neither. */
  function Symbols(t: string): Result<seq<nat>, char> {
    if t == "" then Ok([])
    else if Symbol(t[0]).Some? then Before([Symbol(t[0]).value], Symbols(t[1..]))
    else if Space(t[0]) then Symbols(t[1..])
    else Err(t[0])
  }

  function Before<T>(s: seq<T>, r: Result<seq<T>, char>): (b: Result<seq<T>, char>)
    ensures s == [] ==> b == r
    ensures r == Ok([]) ==> b == Ok(s)
  {
    assert r.Ok? ==> [] + r.value == r.value;
    assert s + [] == s;
    if r.Ok? then Ok(s + r.value) else r
  }

  /** The numbers that four symbols produce; 64 in the third or fourth place ends a group early. */
  function Group(e: nat, f: nat, g: nat, h: nat): seq<nat> {
    [Or(e * 4, f / 16, 32)]
    + (if g == 64 then [] else
         [Or(And(f * 16, 240, 32), g / 4, 32)]
         + if h == 64 then [] else [Or(And(g * 64, 192, 32), h, 32)])
  }

  /** A last group that is short is filled with 0 in the second place and 64 in the others. */
  function Groups(s: seq<nat>): seq<nat> {
    if s == [] then []
    else
      Group(s[0], if |s| > 1 then s[1] else 0, if |s| > 2 then s[2] else 64, if |s| > 3 then s[3] else 64)
      + if |s| > 4 then Groups(s[4..]) else []
  }

  function Decode(t: string): Result<seq<nat>, char> {
    var s := Symbols(t);
    if s.Ok? then Ok(Groups(s.value)) else s
  }

  /** The next symbol from position `d` on, or `k` at the end of the text. */
  method NextSymbol(a: string, d: nat, k: int) returns (r: Result<int, char>, d': nat)
    requires d <= |a|
    ensures d <= d' <= |a|
    ensures r.Err? ==> Symbols(a[d..]) == Err(r.error)
    ensures r.Ok? && Symbols(a[d..]) == Ok([]) ==> r.value == k && d' == |a|
    ensures r.Ok? && Symbols(a[d..]) != Ok([]) ==>
      d < d' && 0 <= r.value <= 64 && Symbols(a[d..]) == Before([r.value], Symbols(a[d'..]))
  {
    d' := d;
    while d' < |a|
      invariant d <= d' <= |a| && Symbols(a[d..]) == Symbols(a[d'..])
    {
      var n := a[d'];
      assert a[d'..][1..] == a[d' + 1..];
      d' := d' + 1;
      if Symbol(n).Some? {
        return Ok(Symbol(n).value), d';
      }
      if !Space(n) {
        return Err(n), d';
      }
    }
    return Ok(k), d';
  }

  lemma BeforeBoth<T>(s: seq<T>, t: seq<T>, r: Result<seq<T>, char>)
    ensures Before(s, Before(t, r)) == Before(s + t, r)
  {
    if r.Ok? { assert s + (t + r.value) == (s + t) + r.value; }
  }

  /** Symbols read in a row make up one group; fewer than four only at the end. */
  lemma GroupOf(s: Result<seq<nat>, char>, got: seq<nat>, rest: Result<seq<nat>, char>)
    requires s == Before(got, rest) && 0 < |got| <= 4 && (|got| < 4 ==> rest == Ok([]))
    ensures var group := Group(got[0], if |got| > 1 then got[1] else 0, if |got| > 2 then got[2] else 64,
                               if |got| > 3 then got[3] else 64);
      (if s.Ok? then Ok(Groups(s.value)) else s) == Before(group, if rest.Ok? then Ok(Groups(rest.value)) else rest)
  {
    if rest.Ok? {
      assert |got| < 4 ==> s.value == got;
      if |got| == 4 { assert s.value[4..] == rest.value; }
    }
  }

  /** The symbols in front of position `d` that one step reads: the next one, or none at the end. */
  method ReadOne(a: string, d: nat, k: int, ghost start: nat, ghost got: seq<nat>)
    returns (r: Result<int, char>, d': nat, ghost got': seq<nat>)
    requires start <= d <= |a| && Symbols(a[start..]) == Before(got, Symbols(a[d..]))
    ensures d <= d' <= |a|
    ensures r.Err? ==> Symbols(a[start..]) == Err(r.error)
    ensures r.Ok? ==> Symbols(a[start..]) == Before(got', Symbols(a[d'..]))
    ensures r.Ok? ==> if Symbols(a[d..]) == Ok([]) then r.value == k && got' == got && d' == |a|
                      else d < d' && r.value >= 0 && got' == got + [r.value]
  {
    r, d' := NextSymbol(a, d, k);
    got' := got;
    if r.Ok? && Symbols(a[d..]) != Ok([]) {
      got' := got + [r.value];
      BeforeBoth(got, [r.value], Symbols(a[d'..]));
    }
  }

  method ReadGroup(a: string, d: nat) returns (r: Result<(int, int, int, int), char>, d': nat)
    requires d <= |a|
    ensures d <= d' <= |a|
    ensures r.Err? ==> Decode(a[d..]) == Err(r.error)
    ensures r.Ok? && Symbols(a[d..]) == Ok([]) ==> r.value.0 == -1 && r.value.3 == 64
    ensures r.Ok? && Symbols(a[d..]) != Ok([]) ==>
      var (e, f, g, h) := r.value;
      d < d' && e >= 0 && f >= 0 && g >= 0 && h >= 0 && Decode(a[d..]) == Before(Group(e, f, g, h), Decode(a[d'..]))
  {
    var e, f, g, h;
    ghost var s, got: seq<nat> := Symbols(a[d..]), [];
    assert s == Before(got, s);
    e, d', got := ReadOne(a, d, -1, d, got);
    if e.Err? { return Err(e.error), d'; }
    f, d', got := ReadOne(a, d', 0, d, got);
    if f.Err? { return Err(f.error), d'; }
    g, d', got := ReadOne(a, d', 64, d, got);
    if g.Err? { return Err(g.error), d'; }
    h, d', got := ReadOne(a, d', 64, d, got);
    if h.Err? { return Err(h.error), d'; }
    r := Ok((e.value, f.value, g.value, h.value));
    if s != Ok([]) { GroupOf(s, got, Symbols(a[d'..])); }
  }

  /** `_.Vg`: reads four symbols at a time and produces the numbers of each group. */
  method DecodeText(a: string) returns (r: Result<seq<nat>, char>)
    ensures r == Decode(a)
  {
    var d, out := 0, [];
    assert a[0..] == a;
    while true
      invariant d <= |a| && Before(out, Decode(a[d..])) == Decode(a)
      decreases |a| - d
    {
      ghost var at := d;
      var group;
      group, d := ReadGroup(a, d);
      if group.Err? { return Err(group.error); }
      var (e, f, g, h) := group.value;
      if h == 64 && e == -1 {
        assert Decode(a[at..]) == Ok([]);
        return Ok(out);
      }
      BeforeBoth(out, Group(e, f, g, h), Decode(a[d..]));
      out := out + Group(e, f, g, h);
    }
  }

  // ---- What the pair promises ----

  lemma SymbolOfDigit(k: nat, v: nat)
    requires k < 5 && v < 64
    ensures Symbol(Digit(k, v)) == Some(v)
  {
  }

  lemma SymbolOfPad(k: nat)
    requires k < 5
    ensures Pad(k) == "" || (|Pad(k)| == 1 && Symbol(Pad(k)[0]) == Some(64))
  {
  }

  lemma {:induction false} SymbolsJoin(s: string, t: string)
    ensures Symbols(s).Ok? ==> Symbols(s + t) == Before(Symbols(s).value, Symbols(t))
    ensures Symbols(s).Err? ==> Symbols(s + t) == Symbols(s)
  {
    if s == "" {
      assert s + t == t;
    } else {
      assert (s + t)[1..] == s[1..] + t;
      SymbolsJoin(s[1..], t);
      if Symbol(s[0]).Some? && Symbols(s[1..]).Ok? {
        BeforeBoth([Symbol(s[0]).value], Symbols(s[1..]).value, Symbols(t));
      }
    }
  }

  lemma GroupOfPieces(g: Byte, h: Byte, k: Byte)
    ensures var p := Pieces(g, h, k);
      && Group(p.0, p.1, p.2, p.3) == [g, h, k]
      && Group(p.0, p.1, p.2, 64) == [g, h]
      && Group(p.0, p.1, 64, 64) == [g]
  {
    var p := Pieces(g, h, k);
    JoinPieces(g, h, k, p.0, p.1, p.2, p.3);
  }

  lemma JoinPieces(g: Byte, h: Byte, k: Byte, p0: nat, p1: nat, p2: nat, p3: nat)
    requires p0 == g / 4 && p1 == g % 4 * 16 + h / 16 && p2 == h % 16 * 4 + k / 64 && p3 == k % 64
    ensures Or(p0 * 4, p1 / 16, 32) == g
    ensures Or(And(p1 * 16, 240, 32), p2 / 4, 32) == h
    ensures Or(And(p2 * 64, 192, 32), p3, 32) == k
  {
    MaskHigh(p1, p2);
    SplitPiece(p1, g % 4, h / 16, 16);
    SplitPiece(p2, h % 16, k / 64, 4);
    JoinLow(g / 4, g % 4, 4, 2);
    JoinLow(h / 16, h % 16, 16, 4);
    JoinLow(k / 64, k % 64, 64, 6);
  }

  lemma SplitPiece(p: nat, x: nat, y: nat, d: nat)
    requires y < d && p == x * d + y
    ensures p / d == x && p % d == y
  {
    DivIs(p, d, x, y);
  }

  lemma JoinLow(x: nat, y: nat, p: nat, j: nat)
    requires j <= 8 && p == Pow2(j) && y < p && x * p < 0x100
    ensures Or(x * p, y, 32) == x * p + y
  {
    Pow2Values();
    ModOf(x, p);
    OrAdds(x * p, y, j, 32);
  }

  lemma MaskHigh(f: nat, g: nat)
    ensures And(f * 16, 240, 32) == f % 16 * 16 && And(g * 64, 192, 32) == g % 4 * 64
  {
    Pow2Values();
    AndShift(f, 15, 4, 28);
    AndMask(f, 4, 28);
    AndShift(g, 3, 6, 26);
    AndMask(g, 2, 26);
  }

  lemma SymbolsOfDigits(k: nat, v: seq<nat>)
    requires k < 5 && forall i :: 0 <= i < |v| ==> v[i] < 64
    ensures Symbols(seq(|v|, i requires 0 <= i < |v| => Digit(k, v[i]))) == Ok(v)
  {
    if v != [] {
      var s := seq(|v|, i requires 0 <= i < |v| => Digit(k, v[i]));
      SymbolsOfDigits(k, v[1..]);
      assert s[1..] == seq(|v[1..]|, i requires 0 <= i < |v[1..]| => Digit(k, v[1..][i]));
      SymbolOfDigit(k, v[0]);
      assert [v[0]] + v[1..] == v;
    }
  }

  /** Padding reads as 64s, and its absence leaves the defaults, which are 64 too. */
  lemma GroupsOfLast(v: seq<nat>, pads: seq<nat>)
    requires 2 <= |v| <= 3 && |v| + |pads| <= 4 && forall x :: x in pads ==> x == 64
    ensures Groups(v + pads) == Group(v[0], v[1], if |v| == 3 then v[2] else 64, 64)
  {
    GroupOf(Ok(v + pads), v + pads, Ok([]));
    assert |pads| > 0 ==> pads[0] in pads;
    assert |pads| > 1 ==> pads[1] in pads;
  }

  lemma SymbolsOfPads(k: nat)
    requires k < 5
    ensures Symbols(Pad(k)) == Ok(if Pad(k) == "" then [] else [64])
    ensures Symbols(Pad(k) + Pad(k)) == Ok(if Pad(k) == "" then [] else [64, 64])
  {
    SymbolOfPad(k);
    if Pad(k) != "" {
      assert Pad(k)[1..] == "";
      assert Symbols(Pad(k)) == Ok([64]);
    }
    SymbolsJoin(Pad(k), Pad(k));
    assert [64] + [64] == [64, 64];
  }

  lemma RoundTripOne(a: seq<Byte>, k: nat)
    requires k < 5 && |a| == 1
    ensures Decode(Encode(a, k)) == Ok(a)
  {
    var p := Pieces(a[0], 0, 0);
    EncodeOne(a, k);
    var s := seq(2, i requires 0 <= i < 2 => Digit(k, [p.0, p.1][i]));
    SymbolsOfDigits(k, [p.0, p.1]);
    assert Encode(a, k) == s + (Pad(k) + Pad(k));
    SymbolsJoin(s, Pad(k) + Pad(k));
    SymbolsOfPads(k);
    GroupsOfLast([p.0, p.1], if Pad(k) == "" then [] else [64, 64]);
    GroupOfPieces(a[0], 0, 0);
    assert a == [a[0]];
  }

  lemma RoundTripTwo(a: seq<Byte>, k: nat)
    requires k < 5 && |a| == 2
    ensures Decode(Encode(a, k)) == Ok(a)
  {
    var p := Pieces(a[0], a[1], 0);
    EncodeTwo(a, k);
    var s := seq(3, i requires 0 <= i < 3 => Digit(k, [p.0, p.1, p.2][i]));
    SymbolsOfDigits(k, [p.0, p.1, p.2]);
    assert Encode(a, k) == s + Pad(k);
    SymbolsJoin(s, Pad(k));
    SymbolsOfPads(k);
    GroupsOfLast([p.0, p.1, p.2], if Pad(k) == "" then [] else [64]);
    GroupOfPieces(a[0], a[1], 0);
    assert a == [a[0], a[1]];
  }

  lemma DecodeThree(a: seq<Byte>, k: nat)
    requires k < 5 && |a| >= 3
    ensures Decode(Encode(a, k)) == Before(a[..3], Decode(Encode(a[3..], k)))
  {
    var p := Pieces(a[0], a[1], a[2]);
    EncodeThree(a, k);
    var v := [p.0, p.1, p.2, p.3];
    var s := seq(4, i requires 0 <= i < 4 => Digit(k, v[i]));
    SymbolsOfDigits(k, v);
    assert Encode(a, k) == s + Encode(a[3..], k);
    SymbolsJoin(s, Encode(a[3..], k));
    GroupOf(Symbols(Encode(a, k)), v, Symbols(Encode(a[3..], k)));
    GroupOfPieces(a[0], a[1], a[2]);
    assert a[..3] == [a[0], a[1], a[2]];
  }

  /** For every byte string and each of the five alphabets, padded or not, decoding the encoding gives it back. */
  lemma {:induction false} RoundTrip(a: seq<Byte>, k: nat)
    requires k < 5
    ensures Decode(Encode(a, k)) == Ok(a)
  {
    if |a| == 1 {
      RoundTripOne(a, k);
    } else if |a| == 2 {
      RoundTripTwo(a, k);
    } else if |a| > 2 {
      DecodeThree(a, k);
      RoundTrip(a[3..], k);
      assert a == a[..3] + a[3..];
    }
  }

  lemma SpaceIsNoSymbol(c: char)
    requires Space(c)
    ensures Symbol(c).None?
  {
  }

  /** White space anywhere is without effect on any text, well formed or not. */
  lemma SpaceIsIgnored(s: string, c: char, t: string)
    requires Space(c)
    ensures Decode(s + [c] + t) == Decode(s + t)
  {
    SpaceIsNoSymbol(c);
    assert ([c] + t)[1..] == t;
    assert Symbols([c] + t) == Symbols(t);
    SymbolsJoin(s, t);
    SymbolsJoin(s, [c] + t);
    assert s + [c] + t == s + ([c] + t);
  }

  predicate Bad(c: char) { Symbol(c).None? && !Space(c) }

  ghost predicate FirstBad(t: string, i: int) {
    0 <= i < |t| && Bad(t[i]) && forall j :: 0 <= j < i ==> !Bad(t[j])
  }

  /** Decoding fails exactly on a character of no alphabet that is no white space, and names the first one. */
  lemma {:induction false} DecodeFails(t: string)
    ensures Decode(t).Err? <==> exists i :: 0 <= i < |t| && Bad(t[i])
    ensures Decode(t).Err? ==> exists i :: FirstBad(t, i) && t[i] == Decode(t).error
  {
    if t != "" {
      DecodeFails(t[1..]);
      if Bad(t[0]) {
        assert FirstBad(t, 0);
      } else if Decode(t[1..]).Err? {
        var i :| FirstBad(t[1..], i) && t[1..][i] == Decode(t[1..]).error;
        assert forall j :: 0 < j <= i + 1 ==> t[j] == t[1..][j - 1];
        assert FirstBad(t, i + 1);
      } else {
        assert forall j :: 0 < j < |t| ==> t[j] == t[1..][j - 1];
      }
    }
  }

  // ---- The buffer of `ug` ----

  /** Three quarters of the text's length, less what its last two characters say when its groups are whole. */
  function BufferSize(a: string): nat {
    var b := |a|;
    if b % 4 != 0 then b * 3 / 4
    else if b > 0 && IsPad(a[b - 1]) then
      if IsPad(a[b - 2]) then b / 4 * 3 - 2 else b / 4 * 3 - 1
    else b / 4 * 3
  }

  function Low(s: seq<nat>): seq<Byte> {
    seq(|s|, i requires 0 <= i < |s| => s[i] % 0x100)
  }

  /** Decodes into a byte buffer; what does not fit is dropped, what is left over is cut off. */
  method DecodeBytes(a: string) returns (r: Result<seq<Byte>, char>)
    ensures Decode(a).Err? ==> r == Err(Decode(a).error)
    ensures Decode(a).Ok? && |Decode(a).value| <= BufferSize(a) ==> r == Ok(Low(Decode(a).value))
    ensures Decode(a).Ok? && |Decode(a).value| > BufferSize(a) ==> r == Ok(Low(Decode(a).value)[..BufferSize(a)])
  {
    var c := BufferSize(a);
    var d, e := new Byte[c], 0;
    var out := DecodeText(a);
    if out.Err? { return Err(out.error); }
    while e < |out.value|
      invariant 0 <= e <= |out.value|
      invariant forall i :: 0 <= i < e && i < c ==> d[i] == out.value[i] % 0x100
    {
      if e < d.Length { d[e] := out.value[e] % 0x100; }
      e := e + 1;
    }
    ghost var low := Low(out.value);
    assert e < c ==> d[..e] == low;
    assert e >= c ==> d[..] == low[..c];
    assert low[..|low|] == low;
    r := Ok(if e < c then d[..e] else d[..]);
  }

  /** How many numbers so many symbols produce at most, and fewer when they end in padding. */
  function Most(s: seq<nat>): nat {
    var n := |s|;
    if n % 4 == 0 then
      if n > 0 && s[n - 1] == 64 then if s[n - 2] == 64 then n / 4 * 3 - 2 else n / 4 * 3 - 1 else n / 4 * 3
    else n / 4 * 3 + if n % 4 == 3 && s[n - 1] != 64 then 2 else 1
  }

  /** No padding in the third or fourth place of a group but the last. */
  ghost predicate FullGroups(s: seq<nat>) {
    forall i :: 0 <= i < |s| - 1 && i % 4 >= 2 ==> s[i] != 64
  }

  lemma {:induction false} GroupsLength(s: seq<nat>)
    ensures |Groups(s)| <= Most(s)
  {
    if |s| > 4 {
      GroupsLength(s[4..]);
      FourMore(|s[4..]|);
    }
  }

  lemma {:induction false} FullLength(s: seq<nat>)
    requires |s| % 4 == 1
    ensures |Groups(s)| == Most(s) <==> FullGroups(s)
  {
    if |s| > 4 {
      var t := s[4..];
      FullLength(t);
      GroupsLength(t);
      assert forall i :: 0 <= i < |t| ==> t[i] == s[i + 4];
      FullStep(s, t);
    }
  }

  lemma FullStep(s: seq<nat>, t: seq<nat>)
    requires |s| > 4 && t == s[4..]
    ensures FullGroups(s) <==> s[2] != 64 && s[3] != 64 && FullGroups(t)
  {
    assert forall i :: 0 <= i < |t| ==> t[i] == s[i + 4];
  }

  lemma {:induction false} SymbolsLength(t: string)
    requires Symbols(t).Ok?
    ensures var s := Symbols(t).value;
      |s| <= |t| && (|s| == |t| <==> forall i :: 0 <= i < |t| ==> !Space(t[i]))
    ensures |Symbols(t).value| == |t| ==> forall i :: 0 <= i < |t| ==> Symbol(t[i]) == Some(Symbols(t).value[i])
    ensures t != "" && Symbol(t[|t| - 1]).Some? ==>
      Symbols(t).value != [] && Symbols(t).value[|Symbols(t).value| - 1] == Symbol(t[|t| - 1]).value
  {
    if t != "" {
      var u := t[1..];
      SymbolsLength(u);
      assert forall i :: 0 < i < |t| ==> t[i] == u[i - 1];
      if Symbol(t[0]).Some? {
        SymbolIsNoSpace(t[0]);
      } else {
        assert Space(t[0]);
      }
    }
  }

  lemma SymbolIsNoSpace(c: char)
    requires Symbol(c).Some?
    ensures !Space(c)
  {
  }

  /** The text has one symbol more than whole groups and nothing in it is white space or early padding. */
  ghost predicate OneOver(a: string) {
    && |a| % 4 == 1
    && (forall i :: 0 <= i < |a| ==> !Space(a[i]))
    && forall i :: 0 <= i < |a| - 1 && i % 4 >= 2 ==> Symbol(a[i]) != Some(64)
  }

  lemma LastSymbol(a: string)
    requires Symbols(a).Ok? && a != "" && IsPad(a[|a| - 1])
    ensures var s := Symbols(a).value; s != [] && s[|s| - 1] == 64
  {
    var n := |a| - 1;
    assert a == a[..n] + [a[n]];
    SymbolsJoin(a[..n], [a[n]]);
    SymbolsOfPadding([a[n]]);
  }

  lemma LastTwoSymbols(a: string)
    requires Symbols(a).Ok? && |a| >= 2 && IsPad(a[|a| - 1]) && IsPad(a[|a| - 2])
    ensures var s := Symbols(a).value; |s| >= 2 && s[|s| - 1] == 64 && s[|s| - 2] == 64
  {
    var n := |a| - 2;
    var t := [a[n], a[n + 1]];
    SymbolsOfPadding(t);
    SymbolsJoin(a[..n], t);
    assert a == a[..n] + t;
  }

  lemma SymbolsOfPadding(t: string)
    requires 0 < |t| <= 2 && forall i :: 0 <= i < |t| ==> IsPad(t[i])
    ensures Symbols(t) == Ok(if |t| == 1 then [64] else [64, 64])
  {
    if |t| == 1 {
      assert t[1..] == "" && Symbols(t) == Before([64], Ok([]));
    } else {
      SymbolsOfPadding(t[1..]);
      assert [64] + [64] == [64, 64];
    }
  }

  /** The buffer of `ug` is too small for exactly the texts with a lone last symbol, and then by one byte. */
  lemma BufferFits(a: string)
    requires Decode(a).Ok?
    ensures OneOver(a) ==> |Decode(a).value| == BufferSize(a) + 1
    ensures !OneOver(a) ==> |Decode(a).value| <= BufferSize(a)
  {
    if |a| % 4 == 0 {
      WholeGroupsFit(a);
    } else {
      OtherLengthsFit(a, Symbols(a).value);
    }
  }

  lemma WholeGroupsFit(a: string)
    requires Symbols(a).Ok? && |a| % 4 == 0
    ensures |Groups(Symbols(a).value)| <= BufferSize(a)
  {
    var s, b := Symbols(a).value, |a|;
    GroupsLength(s);
    SymbolsLength(a);
    if b > 0 && IsPad(a[b - 1]) {
      if IsPad(a[b - 2]) { LastTwoSymbols(a); } else { LastSymbol(a); }
    }
    MostFits(a, s);
  }

  lemma OtherLengthsFit(a: string, s: seq<nat>)
    requires Symbols(a) == Ok(s) && |a| % 4 != 0
    ensures |Groups(s)| <= BufferSize(a) + if OneOver(a) then 1 else 0
    ensures OneOver(a) ==> |Groups(s)| == BufferSize(a) + 1
  {
    GroupsLength(s);
    SymbolsLength(a);
    if |s| == |a| {
      if |a| % 4 == 1 { FullLength(s); }
      OneOverIs(a, s);
      WholeText(|a|);
    } else {
      FewerSymbols(|s|, |a|);
    }
  }

  lemma OneOverIs(a: string, s: seq<nat>)
    requires |s| == |a| && forall i :: 0 <= i < |a| ==> !Space(a[i]) && Symbol(a[i]) == Some(s[i])
    ensures OneOver(a) <==> |a| % 4 == 1 && FullGroups(s)
  {
  }

  lemma MostFits(a: string, s: seq<nat>)
    requires |a| % 4 == 0 && |s| <= |a|
    requires |a| > 0 && IsPad(a[|a| - 1]) ==> s != [] && s[|s| - 1] == 64
    requires |a| > 0 && IsPad(a[|a| - 1]) && IsPad(a[|a| - 2]) ==> |s| > 1 && s[|s| - 2] == 64
    ensures Most(s) <= BufferSize(a)
  {
  }

  lemma WholeText(b: nat)
    requires b % 4 != 0
    ensures b / 4 * 3 + (if b % 4 == 3 then 2 else 1) == b * 3 / 4 + if b % 4 == 1 then 1 else 0
  {
  }

  lemma FewerSymbols(n: nat, b: nat)
    requires n < b
    ensures n / 4 * 3 + (if n % 4 == 0 then 0 else if n % 4 == 3 then 2 else 1) <= b * 3 / 4
  {
  }

  /** The shortest such text: it decodes to one byte, and the buffer has room for none. */
  lemma LoneSymbol()
    ensures OneOver("A") && BufferSize("A") == 0 && Decode("A") == Ok([0])
  {
    assert "A"[1..] == "" && Symbols("A") == Before([0], Ok([])) == Ok([0]);
    assert Groups([0]) == Group(0, 0, 64, 64) + [] == [Or(0, 0, 32)] + [];
    OrZero(32);
  }

  lemma {:induction false} OrZero(n: nat)
    ensures Or(0, 0, n) == 0
  {
    if n > 0 { OrZero(n - 1); }
  }

  lemma {:induction false} EncodeLength(a: seq<Byte>, k: nat)
    requires k < 5
    ensures |Encode(a, k)| % 4 != 1
  {
    if |a| > 2 {
      EncodeLength(a[3..], k);
      FourMore(|Encode(a[3..], k)|);
    }
  }

  lemma FourMore(n: nat)
    ensures (4 + n) % 4 == n % 4 && (4 + n) / 4 == n / 4 + 1
  {
  }

  lemma BufferHolds(t: string, a: seq<Byte>)
    requires Decode(t) == Ok(a) && |t| % 4 != 1
    ensures |Decode(t).value| <= BufferSize(t) && Low(Decode(t).value) == a
  {
    BufferFits(t);
    LowIsSame(a);
  }

  lemma LowIsSame(a: seq<Byte>)
    ensures Low(a) == a
  {
  }

  /** So what the encoder wrote always comes back whole. */
  lemma BufferRoundTrip(a: seq<Byte>, k: nat)
    requires k < 5
    ensures var t := Encode(a, k);
      Decode(t).Ok? && |Decode(t).value| <= BufferSize(t) && Low(Decode(t).value) == a
  {
    RoundTrip(a, k);
    EncodeLength(a, k);
    BufferHolds(Encode(a, k), a);
  }

  /** For what the encoder wrote, in any alphabet, the buffer is exactly as long as the bytes. */
  lemma {:induction false} BufferIsExact(a: seq<Byte>, k: nat)
    requires k < 5
    ensures BufferSize(Encode(a, k)) == |a| && (a != [] ==> |Encode(a, k)| >= 2)
  {
    if |a| > 2 {
      BufferIsExact(a[3..], k);
      var p := Pieces(a[0], a[1], a[2]);
      EncodeThree(a, k);
      DigitIsNoPad(k, p.3);
      BufferMore([Digit(k, p.0), Digit(k, p.1), Digit(k, p.2), Digit(k, p.3)], Encode(a[3..], k));
    } else if |a| == 2 {
      var p := Pieces(a[0], a[1], 0);
      EncodeTwo(a, k);
      DigitIsNoPad(k, p.2);
      BufferOfThree([Digit(k, p.0), Digit(k, p.1), Digit(k, p.2)], Pad(k));
    } else if |a| == 1 {
      var p := Pieces(a[0], 0, 0);
      EncodeOne(a, k);
      DigitIsNoPad(k, p.1);
      BufferOfTwo([Digit(k, p.0), Digit(k, p.1)], Pad(k));
    }
  }

  lemma BufferOfTwo(s: string, pad: string)
    requires |s| == 2 && (pad == "" || (|pad| == 1 && IsPad(pad[0])))
    ensures BufferSize(s + pad + pad) == 1
  {
    if pad == "" { assert s + pad + pad == s; }
  }

  lemma BufferOfThree(s: string, pad: string)
    requires |s| == 3 && !IsPad(s[2]) && (pad == "" || (|pad| == 1 && IsPad(pad[0])))
    ensures BufferSize(s + pad) == 2
  {
  }

  lemma DigitIsNoPad(k: nat, v: nat)
    requires k < 5 && v < 64
    ensures !IsPad(Digit(k, v)) && (Pad(k) == "" || (|Pad(k)| == 1 && IsPad(Pad(k)[0])))
  {
  }

  lemma BufferMore(f: string, t: string)
    requires |f| == 4 && (if t == "" then !IsPad(f[3]) else |t| >= 2)
    ensures BufferSize(f + t) == BufferSize(t) + 3
  {
    FourMore(|t|);
  }
}
