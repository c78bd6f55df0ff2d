/** The client's writer (`Qh`, `Nh`) and reader (`ch`, `Zg`), proved to do what module WireFormat says. */
module WireStreams {
  import opened Bits
  import opened Collections
  import opened WireFormat
  import opened Wrappers
  import Utf8

  /** `b & 127 | 128` on a signed 32-bit number. */
  function MoreByte(b: int): (r: Byte)
    ensures r == b % 0x80 + 0x80
  {
    LowBits(b);
    Or(128, And(b % 0x1_0000_0000, 127, 32), 8)
  }

  lemma LowBits(b: int)
    ensures And(b % 0x1_0000_0000, 127, 32) == b % 0x80
    ensures Or(128, b % 0x80, 8) == 128 + b % 0x80
    ensures Pow2(8) == 0x100
  {
    Pow2Values();
    assert Pow2(7) == 128;
    AndMask(b % 0x1_0000_0000, 7, 32);
    var q, u := b / 0x1_0000_0000, b % 0x1_0000_0000;
    DivIs(b, 0x80, q * 0x200_0000 + u / 0x80, u % 0x80);
    OrAdds(128, b % 0x80, 7, 8);
  }

  /** Finished pieces, their total length, and the bytes of the piece being written. */
  class Writer {
    var i: seq<seq<Byte>>
    var h: nat
    var g: seq<Byte>

    ghost predicate Valid()
      reads this
    {
      h == |Flatten(i)|
    }

    ghost function Contents(): seq<Byte>
      reads this
    {
      Flatten(i) + g
    }

    constructor ()
      ensures Valid() && Contents() == []
    {
      i, h, g := [], 0, [];
    }

    method PutVarint(v: nat)
      requires Valid()
      modifies `g
      ensures Valid() && Contents() == old(Contents()) + Varint(v)
    {
      var b := v;
      while b > 127
        invariant i == old(i) && g + Varint(b) == old(g) + Varint(v)
      {
        g := g + [MoreByte(b)];
        b := b / 128;
      }
      g := g + [b];
      assert Flatten(i) + (old(g) + Varint(v)) == Flatten(i) + old(g) + Varint(v);
    }

    method PutVarint32(v: int)
      requires Valid() && Int32(v)
      modifies `g
      ensures Valid() && Contents() == old(Contents()) + Varint32(v)
    {
      if v >= 0 {
        PutVarint(v);
      } else {
        var b, c := v, 0;
        while c < 9
          invariant 0 <= c <= 9 && i == old(i) && g + Low7(b, 9 - c) == old(g) + Low7(v, 9)
        {
          assert g + ([MoreByte(b)] + Low7(b / 128, 8 - c)) == g + [MoreByte(b)] + Low7(b / 128, 8 - c);
          g := g + [MoreByte(b)];
          b := b / 128;
          c := c + 1;
        }
        assert Low7(b, 0) == [] && g == old(g) + Low7(v, 9);
        g := g + [1];
        Regroup(Flatten(i), old(g), Low7(v, 9), [1]);
      }
    }

    /** `vh`: takes a piece, unless it is empty. */
    method Take(b: seq<Byte>)
      requires Valid()
      modifies `i, `h
      ensures Valid() && Flatten(i) == old(Flatten(i)) + b
    {
      if |b| != 0 {
        assert (i + [b])[..|i|] == i;
        i := i + [b];
        h := h + |b|;
      }
    }

    /** Ends the piece being written. */
    method EndPiece()
      requires Valid()
      modifies this
      ensures Valid() && g == [] && Contents() == old(Contents())
    {
      var piece := g;
      g := [];
      Take(piece);
    }

    method PutNumber(a: nat, b: Option<int>)
      requires Valid() && (b.Some? ==> Int32(b.value))
      modifies this
      ensures Valid()
      ensures Contents() == old(Contents()) + if b.Some? then Record(a, Number(b.value)) else []
    {
      if b.Some? {
        PutVarint(a * 8);
        PutVarint32(b.value);
        NumberRecord(old(Contents()), a, b.value);
      }
    }

    method PutText(a: nat, b: Option<Text>)
      requires Valid()
      modifies this
      ensures Valid()
      ensures Contents() == old(Contents()) + if b.Some? then Record(a, Text(b.value)) else []
    {
      if b.Some? {
        var bytes := Utf8.EncodeUnits(b.value);
        PutVarint(a * 8 + 2);
        PutVarint(|bytes|);
        EndPiece();
        ghost var before := Contents();
        Take(bytes);
        assert Contents() == before + bytes;
        TextRecord(old(Contents()), a, b.value);
      }
    }

    /** Joins the pieces in one array. */
    method Finish() returns (c: seq<Byte>)
      requires Valid()
      modifies this
      ensures c == old(Contents())
    {
      EndPiece();
      var all := new Byte[h];
      var f, k := 0, 0;
      assert i[..0] == [];
      while k < |i|
        invariant 0 <= k <= |i| && f == |Flatten(i[..k])| && all.Length == |Flatten(i)|
        invariant i[..k] <= i && f <= all.Length && all[..f] == Flatten(i[..k])
        invariant g == [] && Contents() == old(Contents())
      {
        var piece := i[k];
        FlattenStep(i, k);
        forall x | 0 <= x < |piece| { all[f + x] := piece[x]; }
        assert all[..f + |piece|] == all[..f] + piece;
        f := f + |piece|;
        k := k + 1;
      }
      assert i[..k] == i;
      assert Contents() == Flatten(i);
      c := all[..];
    }
  }

  lemma Regroup(a: seq<Byte>, b: seq<Byte>, c: seq<Byte>, d: seq<Byte>)
    ensures a + (b + c + d) == a + b + (c + d)
  {
  }

  lemma FlattenStep(s: seq<seq<Byte>>, k: nat)
    requires k < |s|
    ensures Flatten(s[..k + 1]) == Flatten(s[..k]) + s[k]
    ensures |Flatten(s[..k + 1])| <= |Flatten(s)|
    decreases |s|
  {
    assert s[..k + 1][..k] == s[..k];
    if k + 1 < |s| {
      FlattenStep(s[..|s| - 1], k);
      assert s[..|s| - 1][..k + 1] == s[..k + 1];
    } else {
      assert s[..k + 1] == s;
    }
  }

  lemma NumberRecord(before: seq<Byte>, a: nat, n: int)
    ensures before + Varint(a * 8) + Varint32(n) == before + Record(a, Number(n))
  {
  }

  lemma TextRecord(before: seq<Byte>, a: nat, t: Text)
    ensures before + Varint(8 * a + 2) + Varint(|Utf8.Encode(t)|) + Utf8.Encode(t) == before + Record(a, Text(t))
  {
  }

  lemma SerialiseStep(m: Message, f: nat, before: seq<Byte>, after: seq<Byte>)
    requires f <= LAST_FIELD && after == before + if f in m then Record(f, m[f]) else []
    ensures after + SerialiseFrom(m, f + 1) == before + SerialiseFrom(m, f)
  {
    var x := if f in m then Record(f, m[f]) else [];
    Associate(before, x, SerialiseFrom(m, f + 1));
  }

  lemma Associate(a: seq<Byte>, b: seq<Byte>, c: seq<Byte>)
    ensures a + b + c == a + (b + c)
  {
  }

  /** `ValidField`, expanded only where `Open` is mentioned. */
  ghost predicate FieldFits(f: nat, v: Value) {
    forall u {:trigger Open(u)} :: Open(u) ==> ValidField(f, v)
  }

  method PutField(b: Writer, f: nat, v: Value)
    requires b.Valid() && FieldFits(f, v)
    modifies b
    ensures b.Valid() && b.Contents() == old(b.Contents()) + Record(f, v)
  {
    assert Open(0);
    match v {
      case Number(n) => b.PutNumber(f, Some(n));
      case Text(t) => b.PutText(f, Some(t));
    }
  }

  /** Writes every set field in ascending order; field 9 belongs to no one. */
  method SerialiseMessage(m: Message) returns (c: seq<Byte>)
    requires Valid(m)
    ensures c == Serialise(m)
  {
    var b := new Writer();
    PutFields(b, m);
    c := b.Finish();
  }

  method PutFields(b: Writer, m: Message)
    requires (forall f :: f in m ==> FieldFits(f, m[f])) && b.Valid() && b.Contents() == []
    modifies b
    ensures b.Valid() && b.Contents() == Serialise(m)
  {
    var f := FIRST_FIELD;
    ghost var total := SerialiseFrom(m, f);
    assert b.Contents() + total == total;
    while f <= LAST_FIELD
      invariant FIRST_FIELD <= f <= LAST_FIELD + 1 && b.Valid()
      invariant b.Contents() + SerialiseFrom(m, f) == total
    {
      PutNext(b, m, f, total);
      f := f + 1;
    }
    NothingLeft(m, f, b.Contents());
  }

  method PutNext(b: Writer, m: Message, f: nat, ghost total: seq<Byte>)
    requires (f in m ==> FieldFits(f, m[f])) && f <= LAST_FIELD
    requires b.Valid() && b.Contents() + SerialiseFrom(m, f) == total
    modifies b
    ensures b.Valid() && b.Contents() + SerialiseFrom(m, f + 1) == total
  {
    ghost var before := b.Contents();
    if f in m { PutField(b, f, m[f]); }
    SerialiseStep(m, f, before, b.Contents());
  }

  lemma NothingLeft(m: Message, f: nat, s: seq<Byte>)
    requires f > LAST_FIELD
    ensures s + SerialiseFrom(m, f) == s
  {
  }

  // ---- The reader ----

  /** The first `k` bytes of `s` all continue and `e` holds their low 32 bits. */
  ghost predicate Reading(s: seq<Byte>, k: nat, e: nat) {
    && k <= 10 && k <= |s| && VarintLength(s, 0) == VarintLength(s, k)
    && e < 0x1_0000_0000 && ToInt32(e) == ToInt32(VarintValue(s[..k]))
    && (k <= 4 ==> e == VarintValue(s[..k]) && e < Power128(k))
  }

  lemma {:induction false} ValueStep(s: seq<Byte>, k: nat)
    requires k < |s|
    ensures VarintValue(s[..k + 1]) == VarintValue(s[..k]) + s[k] % 0x80 * Power128(k)
    ensures VarintValue(s[..k]) < Power128(k)
  {
    if k == 0 {
      assert s[..1][1..] == [] && s[..1][0] == s[0];
    } else {
      ValueStep(s[1..], k - 1);
      ValueOfTail(s, k);
      ValueOfTail(s, k + 1);
      TimesPower(s[k] % 0x80, Power128(k - 1));
    }
  }

  lemma ValueOfTail(s: seq<Byte>, k: nat)
    requires 0 < k <= |s|
    ensures VarintValue(s[..k]) == s[0] % 0x80 + 0x80 * VarintValue(s[1..][..k - 1])
  {
    assert s[..k][1..] == s[1..][..k - 1];
  }

  lemma TimesPower(x: nat, p: nat)
    ensures 0x80 * (x * p) == x * (0x80 * p)
  {
  }

  /** Reading stopped after `k` bytes: past the end, or with the whole number in `e`. */
  ghost predicate Stopped(s: seq<Byte>, k: nat, e: nat) {
    if k > |s| then VarintLength(s, 0) == Err(PastEnd)
    else k <= 10 && VarintLength(s, 0) == Ok(k) && ToInt32(e) == ToInt32(VarintValue(s[..k]))
  }

  /** What holds after `k` bytes, expanded only where `Glance` is mentioned. */
  ghost predicate After(s: seq<Byte>, k: nat, e: nat, more: bool) {
    forall u {:trigger Glance(u)} :: Glance(u) ==> if more then Reading(s, k, e) else Stopped(s, k, e)
  }

  ghost predicate Glance(u: int) { true }

  lemma ModAdds(v: int, k: int)
    ensures ToInt32(v + k * 0x1_0000_0000) == ToInt32(v)
  {
    var q, r := v / 0x1_0000_0000, v % 0x1_0000_0000;
    DivIs(v + k * 0x1_0000_0000, 0x1_0000_0000, q + k, r);
  }

  lemma NextDigit(e: nat, x: nat, p: nat)
    requires e < p && x < 0x80
    ensures e + x * p < 0x80 * p
  {
    assert x * p <= 0x7F * p;
  }

  /** One of the first four bytes: seven more bits for `e`. */
  lemma LowByte(s: seq<Byte>, k: nat, e: nat, e': nat)
    requires k < 4 && k < |s| && Reading(s, k, e) && e' == e + s[k] as nat % 0x80 * Power128(k)
    ensures After(s, k + 1, e', s[k] >= 0x80)
  {
    ValueStep(s, k);
    assert e' == VarintValue(s[..k + 1]);
    NextDigit(e, s[k] % 0x80, Power128(k));
    assert e' < Power128(k + 1);
    PowerSmall(k + 1);
  }

  lemma {:induction false} PowerSmall(k: nat)
    requires k <= 4
    ensures Power128(k) <= 0x1000_0000
  {
    assert Power128(0) == 1 && Power128(1) == 0x80 && Power128(2) == 0x4000;
    assert Power128(3) == 0x20_0000 && Power128(4) == 0x1000_0000;
  }

  /** The fifth byte: only its low four bits fit. */
  lemma FifthByte(s: seq<Byte>, e: nat, e': nat)
    requires 4 < |s| && Reading(s, 4, e) && e' == e + s[4] as nat % 0x10 * 0x1000_0000
    ensures After(s, 5, e', s[4] >= 0x80)
  {
    ValueStep(s, 4);
    PowerFour();
    TopBits(s[4]);
    var top := s[4] as nat % 0x80 / 0x10;
    assert VarintValue(s[..5]) == e' + top * 0x1_0000_0000;
    ModAdds(e', top);
  }

  lemma PowerFour()
    ensures Power128(4) == 0x1000_0000
  {
  }

  lemma TopBits(b: Byte)
    ensures b as nat % 0x80 == b as nat % 0x80 / 0x10 * 0x10 + b as nat % 0x10
  {
  }

  /** The bytes after it: nothing left to keep. */
  lemma HighByte(s: seq<Byte>, k: nat, e: nat)
    requires 5 <= k < 10 && k < |s| && Reading(s, k, e)
    ensures After(s, k + 1, e, s[k] >= 0x80)
  {
    ValueStep(s, k);
    var q := HighPower(k);
    AddsHigh(VarintValue(s[..k]), s[k] % 0x80, q, Power128(k));
  }

  lemma AddsHigh(v: nat, x: nat, q: nat, p: nat)
    requires p == q * 0x1_0000_0000
    ensures ToInt32(v + x * p) == ToInt32(v)
  {
    MovePower(x, q);
    ModAdds(v, x * q);
  }

  lemma MovePower(x: nat, q: nat)
    ensures x * (q * 0x1_0000_0000) == (x * q) * 0x1_0000_0000
  {
  }

  lemma {:induction false} HighPower(k: nat) returns (q: nat)
    requires k >= 5
    ensures Power128(k) == q * 0x1_0000_0000
  {
    if k == 5 {
      q := 8;
      assert Power128(5) == 0x8_0000_0000;
    } else {
      q := HighPower(k - 1);
      q := 0x80 * q;
    }
  }

  /** The buffer, the cursor and the end; reading beyond the end finds undefined, which acts as 0. */
  class Reader {
    const i: seq<Byte>
    var g: nat
    /** The field and the wire type of the tag read last. */
    var j: nat
    var h: nat

    ghost predicate Valid()
      reads this
    {
      g <= |i| && h <= 5
    }

    ghost function Rest(): seq<Byte>
      requires Valid()
      reads this
    {
      i[g..]
    }

    constructor (i: seq<Byte>)
      ensures Valid() && Rest() == i && this.i == i
    {
      this.i, g, j, h := i, 0, 0, 0;
    }

    function ByteAt(c: nat): Byte {
      if c < |i| then i[c] else 0
    }

    method LowStep(c: nat, k: nat, e: nat) returns (c': nat, e': nat, more: bool)
      requires Valid() && k < 4 && c == g + k && After(Rest(), k, e, true)
      ensures c' == c + 1 && After(Rest(), k + 1, e', more)
    {
      assert Glance(0);
      var d := ByteAt(c);
      c' := c + 1;
      e' := JoinLow(e, d, k);
      JoinLowIs(e, Low7Of(d), k, Power128(k));
      more := Continues(d);
      if k < |Rest()| {
        assert Rest()[k] == d;
        LowByte(Rest(), k, e, e');
      }
    }

    method FifthStep(c: nat, e: nat) returns (c': nat, e': nat, more: bool)
      requires Valid() && c == g + 4 && After(Rest(), 4, e, true)
      ensures c' == c + 1 && After(Rest(), 5, e', more)
    {
      assert Glance(0);
      var d := ByteAt(c);
      c' := c + 1;
      PowerSmall(4);
      e' := JoinFifth(e, d);
      more := Continues(d);
      if 4 < |Rest()| {
        assert Rest()[4] == d;
        FifthByte(Rest(), e, e');
      }
    }

    method HighStep(c: nat, ghost k: nat, ghost e: nat) returns (c': nat, more: bool)
      requires Valid() && 5 <= k < 10 && c == g + k && After(Rest(), k, e, true)
      ensures c' == c + 1 && After(Rest(), k + 1, e, more)
    {
      assert Glance(0);
      var d := ByteAt(c);
      c' := c + 1;
      more := Continues(d);
      if k < |Rest()| {
        assert Rest()[k] == d;
        HighByte(Rest(), k, e);
      }
    }

    /** `_.$g`. */
    method ReadInt() returns (r: Result<int, Failure>)
      requires Valid()
      modifies `g
      ensures r.Ok? ==> Valid() && ReadVarint(old(Rest())) == Ok((r.value, Rest()))
      ensures r.Err? ==> ReadVarint(old(Rest())) == Err(r.error)
    {
      var c, e, more := ReadLow();
      if more { c, e, more := FifthStep(c, e); }
      if more { c, more := ReadHigh(c, e); }
      if more {
        assert Glance(0);
        return Err(TooLong);
      }
      r := Finish(c, e);
    }

    /** The first four bytes, or as many as there are. */
    method ReadLow() returns (c: nat, e: nat, more: bool)
      requires Valid()
      ensures g < c <= g + 4 && (more ==> c == g + 4) && After(Rest(), c - g, e, more)
    {
      assert After(Rest(), 0, 0, true);
      c, e, more := LowStep(g, 0, 0);
      if more { c, e, more := LowStep(c, 1, e); }
      if more { c, e, more := LowStep(c, 2, e); }
      if more { c, e, more := LowStep(c, 3, e); }
    }

    /** The last five, or as many as there are. */
    method ReadHigh(from: nat, e: nat) returns (c: nat, more: bool)
      requires Valid() && from == g + 5 && After(Rest(), 5, e, true)
      ensures from < c <= g + 10 && (more ==> c == g + 10) && After(Rest(), c - g, e, more)
    {
      c, more := HighStep(from, 5, e);
      if more { c, more := HighStep(c, 6, e); }
      if more { c, more := HighStep(c, 7, e); }
      if more { c, more := HighStep(c, 8, e); }
      if more { c, more := HighStep(c, 9, e); }
    }

    /** `Xg`: moves the cursor, unless that is past the end. */
    method Finish(c: nat, e: nat) returns (r: Result<int, Failure>)
      requires Valid() && c > g && After(Rest(), c - g, e, false)
      modifies `g
      ensures r.Ok? ==> Valid() && ReadVarint(old(Rest())) == Ok((r.value, Rest()))
      ensures r.Err? ==> ReadVarint(old(Rest())) == Err(r.error)
    {
      assert Glance(0);
      ghost var s, k := Rest(), c - g;
      g := c;
      if c > |i| { return Err(PastEnd); }
      assert s[k..] == Rest();
      return Ok(ToInt32(e));
    }

    /** `Hg`: reads a tag; false at the end of the buffer. */
    method NextTag() returns (r: Result<bool, Failure>)
      requires Valid()
      modifies `g, `j, `h
      ensures r == Ok(false) <==> old(Rest()) == []
      ensures r == Ok(false) ==> Valid() && Rest() == []
      ensures r == Ok(true) ==> Valid() && ReadTag(old(Rest())) == Ok(Tag(j, h, Rest()))
      ensures r.Err? ==> ReadTag(old(Rest())) == Err(r.error)
    {
      if g == |i| { return Ok(false); }
      var v := ReadInt();
      if v.Err? { return Err(v.error); }
      var u := v.value % 0x1_0000_0000;
      if u % 8 > 5 { return Err(BadType); }
      if u / 8 < 1 { return Err(BadField); }
      j, h := u / 8, u % 8;
      return Ok(true);
    }

    /** `Mg`, or `Xg` on a fixed length: moves over `n` bytes. */
    method Advance(n: nat) returns (r: Result<seq<Byte>, Failure>)
      requires Valid()
      modifies `g
      ensures r.Ok? <==> n <= |old(Rest())|
      ensures r.Ok? ==> Valid() && r.value == old(Rest())[..n] && Rest() == old(Rest())[n..]
      ensures r.Err? ==> r.error == PastEnd
    {
      if g + n > |i| { return Err(PastEnd); }
      r := Ok(i[g..g + n]);
      g := g + n;
    }

    method ReadLengthAndBytes() returns (r: Result<seq<Byte>, Failure>)
      requires Valid()
      modifies `g
      ensures r.Ok? ==> Valid() && ReadBytes(old(Rest())) == Ok((r.value, Rest()))
      ensures r.Err? ==> ReadBytes(old(Rest())) == Err(r.error)
    {
      var n := ReadInt();
      if n.Err? { return Err(n.error); }
      r := Advance(n.value % 0x1_0000_0000);
    }

    /** `Jg`: moves over the value of the field whose tag was read last. */
    method SkipValue() returns (r: Result<(), Failure>)
      requires Valid()
      modifies this
      ensures r.Ok? ==> Valid() && Skip(old(Rest()), old(h), old(j)) == Ok(Rest())
      ensures r.Err? ==> Skip(old(Rest()), old(h), old(j)) == Err(r.error)
      decreases |Rest()|, 1
    {
      if h == 0 {
        var v := ReadInt();
        if v.Err? { return Err(v.error); }
      } else if h == 1 || h == 5 {
        var b := Advance(if h == 1 then 8 else 4);
        if b.Err? { return Err(b.error); }
      } else if h == 2 {
        var b := ReadLengthAndBytes();
        if b.Err? { return Err(b.error); }
      } else if h == 3 {
        r := SkipToEnd(j);
        return;
      } else {
        return Err(BadType);
      }
      return Ok(());
    }

    /** The loop of `Jg` over the fields of a group. */
    method SkipToEnd(b: nat) returns (r: Result<(), Failure>)
      requires Valid()
      modifies this
      ensures r.Ok? ==> Valid() && SkipGroup(old(Rest()), b) == Ok(Rest())
      ensures r.Err? ==> SkipGroup(old(Rest()), b) == Err(r.error)
      decreases |Rest()|, 0
    {
      while true
        invariant Valid() && SkipGroup(Rest(), b) == SkipGroup(old(Rest()), b) && |Rest()| <= |old(Rest())|
        decreases |Rest()|
      {
        var t := NextTag();
        if t.Err? { return Err(t.error); }
        if !t.value { return Err(OpenGroup); }
        if h == 4 {
          if j != b { return Err(WrongGroup); }
          return Ok(());
        }
        var s := SkipValue();
        if s.Err? { return s; }
      }
    }

    /** One field of the message, as its type's own function reads it. */
    method ReadValue(m: Message) returns (r: Result<Message, Failure>)
      requires Valid()
      modifies this
      ensures r.Ok? ==> Valid() && ReadField(Tag(old(j), old(h), old(Rest())), m) == Ok((r.value, Rest()))
      ensures r.Err? ==> ReadField(Tag(old(j), old(h), old(Rest())), m) == Err(r.error)
    {
      if j in TEXT_FIELDS && h == 2 {
        var b := ReadLengthAndBytes();
        if b.Err? { return Err(b.error); }
        var t := Utf8.DecodeBytes(b.value);
        if t.None? { return Err(BadText); }
        return Ok(m[j := Text(t.value)]);
      } else if j in NUMBER_FIELDS && h == 0 {
        var v := ReadInt();
        if v.Err? { return Err(v.error); }
        return Ok(m[j := Number(v.value)]);
      } else {
        var s := SkipValue();
        if s.Err? { return Err(s.error); }
        return Ok(m);
      }
    }
  }

  /** `_.Ng(_.Sh, _.Rh)`. */
  method ParseMessage(bytes: seq<Byte>) returns (r: Result<Message, Failure>)
    ensures r == Parse(bytes)
  {
    var b := new Reader(bytes);
    var m: Message := map[];
    while true
      invariant fresh(b) && b.Valid() && ParseInto(b.Rest(), m) == Parse(bytes)
      decreases |b.Rest()|
    {
      var t := b.NextTag();
      if t.Err? { return Err(t.error); }
      if !t.value || b.h == 4 { return Ok(m); }
      var f := b.ReadValue(m);
      if f.Err? { return f; }
      m := f.value;
    }
  }

  /** `d & 128`. */
  predicate Continues(d: Byte)
    ensures Continues(d) <==> d >= 0x80
  {
    assert And(d, 128, 8) == d / 128 * 128 by { And128(d); }
    And(d, 128, 8) != 0
  }

  lemma And128(d: Byte)
    ensures And(d, 128, 8) == d / 128 * 128
  {
    assert Pow2(7) == 128 && Pow2(1) == 2;
    Utf8.HighBits(d, d / 128, d % 128, 1, 7, 1, 128);
    Utf8.SmallMask(d / 128, 1, 1);
  }

  /** `e | (d & 127) << 7 * k`. */
  function JoinLow(e: nat, d: Byte, k: nat): nat {
    Or(Low7Of(d) * Power128(k), e, 32)
  }

  /** `d & 127`. */
  function Low7Of(d: Byte): (x: nat)
    ensures x == d % 0x80
  {
    assert Pow2(7) == 128;
    AndMask(d, 7, 32);
    And(d, 127, 32)
  }

  lemma JoinLowIs(e: nat, x: nat, k: nat, p: nat)
    requires k < 4 && p == Power128(k) && e < p && x < 0x80
    ensures Or(x * p, e, 32) == e + x * p
  {
    PowerIs(k);
    PowerSmall(k + 1);
    Product(x, p);
    OrAddsAt(x, e, 7 * k, p);
  }

  lemma OrAddsAt(x: nat, e: nat, j: nat, p: nat)
    requires j <= 32 && p == Pow2(j) && e < p && x * p <= 0x1000_0000
    ensures Or(x * p, e, 32) == e + x * p
  {
    ModOf(x, p);
    assert Pow2(32) == 0x1_0000_0000 by { Pow2Values(); }
    OrAdds(x * p, e, j, 32);
  }

  lemma Product(x: nat, p: nat)
    requires x < 0x80 && 0x80 * p <= 0x1000_0000
    ensures x * p <= 0x1000_0000
  {
    assert x * p <= 0x80 * p;
  }

  lemma {:induction false} PowerIs(k: nat)
    ensures Power128(k) == Pow2(7 * k)
  {
    if k > 0 {
      PowerIs(k - 1);
      Pow2Adds(7, 7 * (k - 1));
      assert Pow2(7) == 0x80;
    }
  }

  /** `e | d << 28` in 32 bits. */
  function JoinFifth(e: nat, d: Byte): (r: nat)
    requires e < 0x1000_0000
    ensures r == e + d % 0x10 * 0x1000_0000
  {
    Pow2Values();
    PowerIs(4);
    assert Power128(4) == 0x1000_0000;
    DivIs(d as nat * 0x1000_0000, 0x1_0000_0000, d / 0x10, d % 0x10 * 0x1000_0000);
    OrAdds(d % 0x10 * 0x1000_0000, e, 28, 32);
    Or(d as nat * 0x1000_0000 % 0x1_0000_0000, e, 32)
  }
}
