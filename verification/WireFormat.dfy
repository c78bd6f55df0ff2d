/** The protocol buffer wire format as the client's writer and reader use it for one message type. */
module WireFormat {
  import opened Bits
  import opened Wrappers
  import Utf8

  type Text = seq<Utf8.Unit>

  datatype Value = Text(text: Text) | Number(number: int)

  /** The fields that are set, by number. */
  type Message = map<nat, Value>

  const TEXT_FIELDS: set<nat> := {1, 2, 4, 5, 6, 8, 10, 11, 12}
  const NUMBER_FIELDS: set<nat> := {3, 7}
  const FIRST_FIELD: nat := 1
  const LAST_FIELD: nat := 12

  predicate Int32(v: int) { -0x8000_0000 <= v < 0x8000_0000 }

  /** Values fit their fields; a text's bytes fit a JavaScript array. */
  ghost predicate Valid(m: Message) {
    forall f :: f in m ==> ValidField(f, m[f])
  }

  predicate ValidField(f: nat, v: Value) {
    match v
    case Text(t) => f in TEXT_FIELDS && |Utf8.Encode(t)| < 0x1_0000_0000
    case Number(n) => f in NUMBER_FIELDS && Int32(n)
  }

  // ---- Base 128 varints ----

  /** Seven bits at a time, the least significant first, with bit 7 set on all bytes but the last. */
  function Varint(v: nat): (s: seq<Byte>)
    ensures s != []
  {
    if v < 0x80 then [v] else [v % 0x80 + 0x80] + Varint(v / 0x80)
  }

  /** `n` continuation bytes of a number of either sign. */
  function Low7(v: int, n: nat): (s: seq<Byte>)
    ensures |s| == n
    decreases n
  {
    if n == 0 then [] else [v % 0x80 + 0x80] + Low7(v / 0x80, n - 1)
  }

  /** A negative number takes ten bytes, as if it had 64 bits. */
  function Varint32(v: int): seq<Byte> {
    if v >= 0 then Varint(v) else Low7(v, 9) + [1]
  }

  datatype Failure =
    | TooLong      // J: a varint of more than ten bytes
    | PastEnd      // K: a read beyond the buffer
    | BadType      // F: wire type 6 or 7, or an end group where none is open
    | BadField     // G: field number 0
    | OpenGroup    // H: the buffer ends inside a group
    | WrongGroup   // I: a group closed by another field's end
    | BadText      // not UTF-8

  /** The length of the varint at the start of `s`; reading past the end finds zero bytes and is refused afterwards. */
  function VarintLength(s: seq<Byte>, i: nat): (r: Result<nat, Failure>)
    requires i <= 10
    ensures r.Ok? ==> i < r.value <= 10 && r.value <= |s|
    decreases 10 - i, s
  {
    if i == 10 then Err(TooLong)
    else if i >= |s| then Err(PastEnd)
    else if s[i] < 0x80 then Ok(i + 1)
    else VarintLength(s, i + 1)
  }

  /** The value of `n` varint bytes, whatever its size. */
  function VarintValue(s: seq<Byte>): nat {
    if s == [] then 0 else s[0] % 0x80 + 0x80 * VarintValue(s[1..])
  }

  function ToInt32(v: int): (r: int)
    ensures Int32(r)
  {
    var u := v % 0x1_0000_0000;
    if u < 0x8000_0000 then u else u - 0x1_0000_0000
  }

  /** A varint's low 32 bits as a signed number, and what follows it. */
  function ReadVarint(s: seq<Byte>): (r: Result<(int, seq<Byte>), Failure>)
    ensures r.Ok? ==> Int32(r.value.0) && |r.value.1| < |s|
  {
    var n := VarintLength(s, 0);
    if n.Err? then Err(n.error) else Ok((ToInt32(VarintValue(s[..n.value])), s[n.value..]))
  }

  lemma {:induction false} VarintLengthIs(s: seq<Byte>, n: nat, i: nat)
    requires i < n <= 10 && n <= |s| && s[n - 1] < 0x80 && forall j :: i <= j < n - 1 ==> s[j] >= 0x80
    ensures VarintLength(s, i) == Ok(n)
    decreases n - i
  {
    if i < n - 1 { VarintLengthIs(s, n, i + 1); }
  }

  /** A varint is up to ten bytes of which just the last is below 128; more are too long, and fewer break off. */
  lemma VarintIs(s: seq<Byte>)
    ensures match VarintLength(s, 0)
      case Ok(n) => 0 < n <= 10 && n <= |s| && s[n - 1] < 0x80 && forall j :: 0 <= j < n - 1 ==> s[j] >= 0x80
      case Err(e) =>
        && (e == TooLong || e == PastEnd) && (e == TooLong <==> |s| >= 10)
        && forall j :: 0 <= j < |s| && j < 10 ==> s[j] >= 0x80
  {
    VarintFrom(s, 0);
  }

  lemma {:induction false} VarintFrom(s: seq<Byte>, i: nat)
    requires i <= 10 && i <= |s| && forall j :: 0 <= j < i ==> s[j] >= 0x80
    ensures match VarintLength(s, i)
      case Ok(n) => i < n <= 10 && n <= |s| && s[n - 1] < 0x80 && forall j :: 0 <= j < n - 1 ==> s[j] >= 0x80
      case Err(e) =>
        && (e == TooLong || e == PastEnd) && (e == TooLong <==> |s| >= 10)
        && forall j :: 0 <= j < |s| && j < 10 ==> s[j] >= 0x80
    decreases 10 - i
  {
    if i < 10 && i < |s| && s[i] >= 0x80 { VarintFrom(s, i + 1); }
  }

  lemma {:induction false} VarintReads(v: nat, k: nat)
    requires v < Power128(k) && k >= 1
    ensures |Varint(v)| <= k && VarintValue(Varint(v)) == v
    ensures forall j :: 0 <= j < |Varint(v)| ==> (Varint(v)[j] < 0x80 <==> j == |Varint(v)| - 1)
  {
    if v >= 0x80 {
      VarintReads(v / 0x80, k - 1);
      assert Varint(v)[1..] == Varint(v / 0x80);
    } else {
      assert Varint(v)[1..] == [];
    }
  }

  function Power128(k: nat): (p: nat)
    ensures p > 0
  {
    if k == 0 then 1 else 0x80 * Power128(k - 1)
  }

  /** Reading an unsigned 32-bit number back, whatever follows it. */
  lemma ReadsVarint(v: nat, rest: seq<Byte>)
    requires v < 0x1_0000_0000
    ensures ReadVarint(Varint(v) + rest) == Ok((ToInt32(v), rest))
  {
    assert Power128(5) == 0x8_0000_0000;
    VarintReads(v, 5);
    var s := Varint(v) + rest;
    VarintLengthIs(s, |Varint(v)|, 0);
    assert s[..|Varint(v)|] == Varint(v) && s[|Varint(v)|..] == rest;
  }

  lemma {:induction false} Low7Value(v: int, n: nat, t: seq<Byte>)
    ensures VarintValue(Low7(v, n) + t) == v - Floor128(v, n) * Power128(n) + VarintValue(t) * Power128(n)
    ensures forall j :: 0 <= j < n ==> Low7(v, n)[j] >= 0x80
    decreases n
  {
    if n == 0 {
      assert Low7(v, 0) + t == t;
    } else {
      Low7Value(v / 0x80, n - 1, t);
      FirstOfMore(v, n, t);
      Scale(v, v % 0x80, v / 0x80, Floor128(v / 0x80, n - 1), VarintValue(t), Power128(n - 1));
    }
  }

  lemma FirstOfMore(v: int, n: nat, t: seq<Byte>)
    requires n > 0
    ensures VarintValue(Low7(v, n) + t) == v % 0x80 + 0x80 * VarintValue(Low7(v / 0x80, n - 1) + t)
  {
    assert (Low7(v, n) + t)[1..] == Low7(v / 0x80, n - 1) + t;
    LowPart(v);
  }

  lemma LowPart(v: int)
    ensures (v % 0x80 + 0x80) % 0x80 == v % 0x80 && v == v % 0x80 + 0x80 * (v / 0x80)
  {
  }

  lemma Scale(v: int, r: int, w: int, f: int, x: nat, p: nat)
    requires v == r + 0x80 * w
    ensures r + 0x80 * (w - f * p + x * p) == v - f * (0x80 * p) + x * (0x80 * p)
  {
  }

  /** `v` shifted right by 7 bits `n` times. */
  function Floor128(v: int, n: nat): int
    decreases n
  {
    if n == 0 then v else Floor128(v / 0x80, n - 1)
  }

  lemma Floor128Negative(v: int)
    requires -0x8000_0000 <= v < 0
    ensures Floor128(v, 9) == -1
  {
    var a := v / 0x80;
    var b := a / 0x80;
    var c := b / 0x80;
    var d := c / 0x80;
    var e := d / 0x80;
    assert -0x100_0000 <= a < 0 && -0x2_0000 <= b < 0 && -0x400 <= c < 0 && -8 <= d < 0 && e == -1;
    assert Floor128(-1, 4) == -1;
    assert Floor128(v, 9) == Floor128(a, 8) == Floor128(b, 7) == Floor128(c, 6) == Floor128(d, 5) == Floor128(e, 4);
  }

  /** Reading a signed 32-bit number back: the ten bytes of a negative one keep its low 32 bits. */
  lemma ReadsVarint32(v: int, rest: seq<Byte>)
    requires Int32(v)
    ensures ReadVarint(Varint32(v) + rest) == Ok((v, rest))
  {
    if v >= 0 {
      ReadsVarint(v, rest);
    } else {
      TenBytes(v);
      TenBytesLength(v, rest);
    }
  }

  lemma TenBytesLength(v: int, rest: seq<Byte>)
    ensures var s, t := Low7(v, 9) + [1] + rest, Low7(v, 9) + [1];
      VarintLength(s, 0) == Ok(10) && s[..10] == t && s[10..] == rest
  {
    var s := Low7(v, 9) + [1] + rest;
    Low7Value(v, 9, [1]);
    assert forall j :: 0 <= j < 9 ==> s[j] == Low7(v, 9)[j];
    VarintLengthIs(s, 10, 0);
  }

  lemma TenBytes(v: int)
    requires -0x8000_0000 <= v < 0
    ensures VarintValue(Low7(v, 9) + [1]) == v + 0x1_0000_0000 * 0x1_0000_0000
    ensures ToInt32(VarintValue(Low7(v, 9) + [1])) == v
  {
    Low7Value(v, 9, [1]);
    Floor128Negative(v);
    assert [1][1..] == [];
    assert VarintValue([1]) == 1;
    Power128Is9();
    DivIs(v + 0x1_0000_0000 * 0x1_0000_0000, 0x1_0000_0000, 0xFFFF_FFFF, v + 0x1_0000_0000);
  }

  lemma Power128Is9()
    ensures Power128(9) == 0x8000_0000_0000_0000
  {
  }

  // ---- Messages ----

  /** One field: its tag, then a varint, or the length and the bytes of a text. */
  function Record(f: nat, v: Value): seq<Byte> {
    match v
    case Number(n) => Varint(8 * f) + Varint32(n)
    case Text(t) => Varint(8 * f + 2) + (Varint(|Utf8.Encode(t)|) + Utf8.Encode(t))
  }

  /** The set fields from `f` on, in ascending order. */
  function SerialiseFrom(m: Message, f: nat): seq<Byte>
    decreases LAST_FIELD + 1 - f, m
  {
    if f > LAST_FIELD then []
    else (if f in m then Record(f, m[f]) else []) + SerialiseFrom(m, f + 1)
  }

  function Serialise(m: Message): seq<Byte> {
    SerialiseFrom(m, FIRST_FIELD)
  }

  datatype Tag = Tag(field: nat, kind: nat, rest: seq<Byte>)

  function ReadTag(s: seq<Byte>): (r: Result<Tag, Failure>)
    ensures r.Ok? ==> r.value.field >= 1 && r.value.kind <= 5 && |r.value.rest| < |s|
  {
    var v := ReadVarint(s);
    if v.Err? then Err(v.error)
    else
      var u := v.value.0 % 0x1_0000_0000;
      if u % 8 > 5 then Err(BadType)
      else if u / 8 < 1 then Err(BadField)
      else Ok(Tag(u / 8, u % 8, v.value.1))
  }

  /** The bytes of a length-delimited field, and what follows them. */
  function ReadBytes(s: seq<Byte>): (r: Result<(seq<Byte>, seq<Byte>), Failure>)
    ensures r.Ok? ==> |r.value.1| < |s|
  {
    var v := ReadVarint(s);
    if v.Err? then Err(v.error)
    else
      var n, t := v.value.0 % 0x1_0000_0000, v.value.1;
      if n > |t| then Err(PastEnd) else Ok((t[..n], t[n..]))
  }

  function Drop(s: seq<Byte>, n: nat): (r: Result<seq<Byte>, Failure>)
    ensures r.Ok? ==> |r.value| <= |s|
  {
    if n > |s| then Err(PastEnd) else Ok(s[n..])
  }

  /** What follows the value of a field of no interest. */
  function Skip(s: seq<Byte>, kind: nat, field: nat): (r: Result<seq<Byte>, Failure>)
    requires kind <= 5
    ensures r.Ok? ==> |r.value| <= |s|
    decreases |s|, 1
  {
    match kind
    case 0 => var n := VarintLength(s, 0); if n.Err? then Err(n.error) else Ok(s[n.value..])
    case 1 => Drop(s, 8)
    case 2 => var b := ReadBytes(s); if b.Err? then Err(b.error) else Ok(b.value.1)
    case 3 => SkipGroup(s, field)
    case 5 => Drop(s, 4)
    case _ => Err(BadType)
  }

  /** What follows the end of the group that `field` opened; groups nest. */
  function SkipGroup(s: seq<Byte>, field: nat): (r: Result<seq<Byte>, Failure>)
    ensures r.Ok? ==> |r.value| <= |s|
    decreases |s|, 0
  {
    if s == [] then Err(OpenGroup)
    else
      var t := ReadTag(s);
      if t.Err? then Err(t.error)
      else if t.value.kind == 4 then if t.value.field != field then Err(WrongGroup) else Ok(t.value.rest)
      else
        var r := Skip(t.value.rest, t.value.kind, t.value.field);
        if r.Err? then r else SkipGroup(r.value, field)
  }

  /** One field read into the message: a text or a number where the type fits, or skipped. */
  function ReadField(t: Tag, m: Message): (r: Result<(Message, seq<Byte>), Failure>)
    requires t.kind <= 5
    ensures r.Ok? ==> |r.value.1| <= |t.rest|
  {
    if t.field in TEXT_FIELDS && t.kind == 2 then
      var b := ReadBytes(t.rest);
      if b.Err? then Err(b.error)
      else if Utf8.Decode(b.value.0).None? then Err(BadText)
      else Ok((m[t.field := Text(Utf8.Decode(b.value.0).value)], b.value.1))
    else if t.field in NUMBER_FIELDS && t.kind == 0 then
      var v := ReadVarint(t.rest);
      if v.Err? then Err(v.error) else Ok((m[t.field := Number(v.value.0)], v.value.1))
    else
      var r := Skip(t.rest, t.kind, t.field);
      if r.Err? then Err(r.error) else Ok((m, r.value))
  }

  /** Reads fields until the bytes are used up or an end group comes; a field set twice keeps its last value. */
  function ParseInto(s: seq<Byte>, m: Message): Result<Message, Failure>
    decreases |s|
  {
    if s == [] then Ok(m)
    else
      var t := ReadTag(s);
      if t.Err? then Err(t.error)
      else if t.value.kind == 4 then Ok(m)
      else
        var r := ReadField(t.value, m);
        if r.Err? then Err(r.error) else ParseInto(r.value.1, r.value.0)
  }

  function Parse(s: seq<Byte>): Result<Message, Failure> {
    ParseInto(s, map[])
  }

  // ---- What the pair promises ----

  /** A value as it comes back: texts lose their lone surrogates. */
  function Clean(v: Value): Value {
    match v
    case Text(t) => Text(Utf8.Sanitised(t))
    case Number(_) => v
  }

  function CleanMessage(m: Message): Message {
    map f | f in m :: Clean(m[f])
  }

  lemma ReadsTag(f: nat, kind: nat, rest: seq<Byte>)
    requires 1 <= f < 0x2000_0000 && kind <= 5
    ensures ReadTag(Varint(8 * f + kind) + rest) == Ok(Tag(f, kind, rest))
  {
    ReadsVarint(8 * f + kind, rest);
    Unsigned(8 * f + kind);
    DivIs(8 * f + kind, 8, f, kind);
  }

  lemma Unsigned(v: nat)
    requires v < 0x1_0000_0000
    ensures ToInt32(v) % 0x1_0000_0000 == v
  {
  }

  lemma ReadsBytes(b: seq<Byte>, rest: seq<Byte>)
    requires |b| < 0x1_0000_0000
    ensures ReadBytes(Varint(|b|) + (b + rest)) == Ok((b, rest))
  {
    ReadsVarint(|b|, b + rest);
    Unsigned(|b|);
    SplitAt(b, rest);
  }

  lemma SplitAt(b: seq<Byte>, rest: seq<Byte>)
    ensures (b + rest)[..|b|] == b && (b + rest)[|b|..] == rest
  {
  }

  lemma FieldBound(f: nat, v: Value)
    requires ValidField(f, v)
    ensures 1 <= f <= LAST_FIELD
  {
  }

  lemma ReadsNumber(f: nat, n: int, rest: seq<Byte>, m: Message)
    requires ValidField(f, Number(n))
    ensures ParseInto(Varint(8 * f + 0) + (Varint32(n) + rest), m) == ParseInto(rest, m[f := Number(n)])
  {
    FieldBound(f, Number(n));
    ReadsTag(f, 0, Varint32(n) + rest);
    ReadsVarint32(n, rest);
    ReadsNumberField(f, n, Varint32(n) + rest, rest, m);
    FieldRead(Varint(8 * f + 0) + (Varint32(n) + rest), Tag(f, 0, Varint32(n) + rest), m, m[f := Number(n)], rest);
  }

  /** A field whose tag and value read well is one step of the parse. */
  lemma FieldRead(s: seq<Byte>, t: Tag, m: Message, m': Message, rest: seq<Byte>)
    requires s != [] && ReadTag(s) == Ok(t) && t.kind != 4 && t.kind <= 5 && ReadField(t, m) == Ok((m', rest))
    ensures ParseInto(s, m) == ParseInto(rest, m')
  {
  }

  lemma ReadsNumberField(f: nat, n: int, s: seq<Byte>, rest: seq<Byte>, m: Message)
    requires f in NUMBER_FIELDS && ReadVarint(s) == Ok((n, rest))
    ensures ReadField(Tag(f, 0, s), m) == Ok((m[f := Number(n)], rest))
  {
  }

  lemma ReadsText(f: nat, t: Text, rest: seq<Byte>, m: Message)
    requires ValidField(f, Text(t))
    ensures var b := Utf8.Encode(t);
      ParseInto(Varint(8 * f + 2) + (Varint(|b|) + (b + rest)), m) == ParseInto(rest, m[f := Text(Utf8.Sanitised(t))])
  {
    var b := Utf8.Encode(t);
    FieldBound(f, Text(t));
    ReadsTag(f, 2, Varint(|b|) + (b + rest));
    ReadsBytes(b, rest);
    Utf8.DecodeEncode(t);
    var tag := Tag(f, 2, Varint(|b|) + (b + rest));
    assert ReadField(tag, m) == Ok((m[f := Text(Utf8.Sanitised(t))], rest));
    FieldRead(Varint(8 * f + 2) + (Varint(|b|) + (b + rest)), tag, m, m[f := Text(Utf8.Sanitised(t))], rest);
  }

  lemma ReadsRecord(f: nat, v: Value, rest: seq<Byte>, m: Message)
    requires ValidField(f, v)
    ensures ParseInto(Record(f, v) + rest, m) == ParseInto(rest, m[f := Clean(v)])
  {
    match v
    case Number(n) =>
      assert Record(f, v) + rest == Varint(8 * f + 0) + (Varint32(n) + rest);
      ReadsNumber(f, n, rest, m);
    case Text(t) =>
      var b := Utf8.Encode(t);
      assert Record(f, v) + rest == Varint(8 * f + 2) + (Varint(|b|) + (b + rest));
      ReadsText(f, t, rest, m);
  }

  /** The message type has two texts, a number, three texts, a number, a text, no field 9, and three texts. */
  lemma FieldsAre(f: nat)
    ensures ValidField(f, Text([])) <==> f in {1, 2, 4, 5, 6, 8, 10, 11, 12}
    ensures ValidField(f, Number(0)) <==> f in {3, 7}
    ensures FIRST_FIELD == 1 && LAST_FIELD == 12
  {
  }

  /** A field of the wire format: a varint, 8 bytes, a length and so many bytes, 4 bytes, or a group of fields. */
  datatype Raw =
    | Number32(field: nat, v: nat)
    | Fixed64(field: nat, bytes: seq<Byte>)
    | Delimited(field: nat, bytes: seq<Byte>)
    | Fixed32(field: nat, bytes: seq<Byte>)
    | Group(field: nat, inside: seq<Raw>)
  {
    function Kind(): nat {
      match this
      case Number32(_, _) => 0
      case Fixed64(_, _) => 1
      case Delimited(_, _) => 2
      case Group(_, _) => 3
      case Fixed32(_, _) => 5
    }

    predicate Fine() {
      && 1 <= field < 0x2000_0000
      && match this
         case Number32(_, v) => v < 0x1_0000_0000
         case Fixed64(_, b) => |b| == 8
         case Delimited(_, b) => |b| < 0x1_0000_0000
         case Fixed32(_, b) => |b| == 4
         case Group(_, rs) => forall i :: 0 <= i < |rs| ==> rs[i].Fine()
    }

    /** What stands after the field's tag. */
    function Tail(): seq<Byte>
      decreases this, 0
    {
      match this
      case Number32(_, v) => Varint(v)
      case Fixed64(_, b) => b
      case Delimited(_, b) => Varint(|b|) + b
      case Fixed32(_, b) => b
      case Group(f, rs) => AllOf(rs) + Varint(8 * f + 4)
    }
  }

  function AllOf(rs: seq<Raw>): seq<Byte>
    decreases rs, 1
  {
    if rs == [] then [] else Varint(8 * rs[0].field + rs[0].Kind()) + rs[0].Tail() + AllOf(rs[1..])
  }

  lemma {:induction false} SkipsRaw(r: Raw, rest: seq<Byte>)
    requires r.Fine()
    ensures Skip(r.Tail() + rest, r.Kind(), r.field) == Ok(rest)
    decreases r, 0
  {
    match r
    case Number32(_, v) => SkipsVarint(v, rest);
    case Delimited(f, b) => SkipsBytes(b, f, rest);
    case Group(f, rs) =>
      SkipsAll(rs, f, rest);
      EndsGroup(AllOf(rs), f, rest);
    case _ => SplitAt(r.bytes, rest);
  }

  lemma EndsGroup(inside: seq<Byte>, f: nat, rest: seq<Byte>)
    requires SkipGroup(inside + (Varint(8 * f + 4) + rest), f) == Ok(rest)
    ensures Skip(inside + Varint(8 * f + 4) + rest, 3, f) == Ok(rest)
  {
    Associate(inside, Varint(8 * f + 4), rest);
  }

  lemma SkipsBytes(b: seq<Byte>, f: nat, rest: seq<Byte>)
    requires |b| < 0x1_0000_0000
    ensures Skip(Varint(|b|) + b + rest, 2, f) == Ok(rest)
  {
    ReadsBytes(b, rest);
    Associate(Varint(|b|), b, rest);
  }

  /** The fields of a group, nested groups included, up to the tag that ends it. */
  lemma {:induction false} SkipsAll(rs: seq<Raw>, f: nat, rest: seq<Byte>)
    requires 1 <= f < 0x2000_0000 && forall i :: 0 <= i < |rs| ==> rs[i].Fine()
    ensures SkipGroup(AllOf(rs) + (Varint(8 * f + 4) + rest), f) == Ok(rest)
    decreases rs, 1
  {
    var end := Varint(8 * f + 4) + rest;
    if rs == [] {
      assert [] + end == end;
      ReadsTag(f, 4, rest);
    } else {
      SkipsAll(rs[1..], f, rest);
      SkipsRaw(rs[0], AllOf(rs[1..]) + end);
      SkipsFirst(rs[0], f, AllOf(rs[1..]) + end);
      FourParts(Varint(8 * rs[0].field + rs[0].Kind()), rs[0].Tail(), AllOf(rs[1..]), end);
    }
  }

  lemma SkipsFirst(r: Raw, f: nat, more: seq<Byte>)
    requires r.Fine() && Skip(r.Tail() + more, r.Kind(), r.field) == Ok(more)
    ensures SkipGroup(Varint(8 * r.field + r.Kind()) + (r.Tail() + more), f) == SkipGroup(more, f)
  {
    var s := r.Tail() + more;
    ReadsTag(r.field, r.Kind(), s);
    GroupStep(Varint(8 * r.field + r.Kind()) + s, Tag(r.field, r.Kind(), s), f, more);
  }

  lemma FourParts(s: seq<Byte>, t: seq<Byte>, u: seq<Byte>, v: seq<Byte>)
    ensures s + t + u + v == s + (t + (u + v))
  {
  }

  lemma GroupStep(s: seq<Byte>, t: Tag, f: nat, more: seq<Byte>)
    requires s != [] && ReadTag(s) == Ok(t) && t.kind <= 5 && t.kind != 4 && Skip(t.rest, t.kind, t.field) == Ok(more)
    ensures SkipGroup(s, f) == SkipGroup(more, f)
  {
  }

  /** A field whose number is not the message's, or stands for a value of another kind. */
  predicate Unknown(r: Raw) {
    && r.Fine()
    && !(r.field in {1, 2, 4, 5, 6, 8, 10, 11, 12} && r.Delimited?) && !(r.field in {3, 7} && r.Number32?)
  }

  /** An unknown field is skipped, wherever it stands: it changes neither what was read nor what follows. */
  lemma SkipsUnknown(r: Raw, rest: seq<Byte>, m: Message)
    requires Unknown(r)
    ensures ParseInto(Varint(8 * r.field + r.Kind()) + (r.Tail() + rest), m) == ParseInto(rest, m)
  {
    var s := r.Tail() + rest;
    ReadsTag(r.field, r.Kind(), s);
    SkipsRaw(r, rest);
    FieldRead(Varint(8 * r.field + r.Kind()) + s, Tag(r.field, r.Kind(), s), m, m, rest);
  }

  lemma Associate(s: seq<Byte>, t: seq<Byte>, u: seq<Byte>)
    ensures s + t + u == s + (t + u)
  {
  }

  lemma SkipsVarint(v: nat, rest: seq<Byte>)
    requires v < 0x1_0000_0000
    ensures var s, n := Varint(v) + rest, |Varint(v)|; VarintLength(s, 0) == Ok(n) && n <= |s| && s[n..] == rest
  {
    assert Power128(5) == 0x8_0000_0000;
    VarintReads(v, 5);
    VarintLengthIs(Varint(v) + rest, |Varint(v)|, 0);
    SplitAt(Varint(v), rest);
  }

  /** Between two known fields, for one: both come back, and nothing else. */
  lemma UnknownBetween(f: nat, v: Value, r: Raw, g: nat, w: Value)
    requires ValidField(f, v) && ValidField(g, w) && Unknown(r)
    ensures var unknown := Varint(8 * r.field + r.Kind()) + (r.Tail() + Record(g, w));
      Parse(Record(f, v) + unknown) == Ok(map[f := Clean(v)][g := Clean(w)])
  {
    ReadsRecord(f, v, Varint(8 * r.field + r.Kind()) + (r.Tail() + Record(g, w)), map[]);
    SkipsUnknown(r, Record(g, w), map[f := Clean(v)]);
    ReadsRecord(g, w, [], map[f := Clean(v)]);
    assert Record(g, w) + [] == Record(g, w);
    assert map[][f := Clean(v)] == map[f := Clean(v)];
  }

  /** `ParseInto(s, m) == r`, expanded only where `Open` is mentioned. */
  ghost predicate Parses(s: seq<Byte>, m: Message, r: Result<Message, Failure>) {
    forall u {:trigger Open(u)} :: Open(u) ==> ParseInto(s, m) == r
  }

  ghost predicate Open(u: int) { true }

  lemma ParsesRecord(f: nat, v: Value, rest: seq<Byte>, m: Message, r: Result<Message, Failure>)
    requires ValidField(f, v) && Parses(rest, m[f := Clean(v)], r)
    ensures Parses(Record(f, v) + rest, m, r)
  {
    assert Open(0);
    ReadsRecord(f, v, rest, m);
  }

  lemma ParsesNothing(m: Message)
    ensures Parses([], m, Ok(m))
  {
  }

  /** The fields before `f`, as they come back. */
  function CleanBefore(m: Message, f: nat): Message {
    map g | g in m && g < f :: Clean(m[g])
  }

  lemma CleanNext(m: Message, f: nat)
    ensures CleanBefore(m, f + 1) == if f in m then CleanBefore(m, f)[f := Clean(m[f])] else CleanBefore(m, f)
  {
  }

  lemma CleanAll(m: Message, f: nat)
    requires Valid(m) && f > LAST_FIELD
    ensures CleanBefore(m, f) == CleanMessage(m)
  {
    forall g | g in m ensures g < f { FieldBound(g, m[g]); }
  }

  lemma CleanNone(m: Message)
    requires Valid(m)
    ensures CleanBefore(m, FIRST_FIELD) == map[]
  {
    forall g | g in m ensures g >= FIRST_FIELD { FieldBound(g, m[g]); }
  }

  lemma {:induction false} ParsesFrom(m: Message, f: nat)
    requires Valid(m)
    ensures Parses(SerialiseFrom(m, f), CleanBefore(m, f), Ok(CleanMessage(m)))
    decreases LAST_FIELD + 1 - f
  {
    if f > LAST_FIELD {
      CleanAll(m, f);
      ParsesNothing(CleanMessage(m));
    } else {
      ParsesFrom(m, f + 1);
      CleanNext(m, f);
      SerialisedNext(m, f);
      if f in m {
        ParsesRecord(f, m[f], SerialiseFrom(m, f + 1), CleanBefore(m, f), Ok(CleanMessage(m)));
      }
    }
  }

  lemma SerialisedNext(m: Message, f: nat)
    requires f <= LAST_FIELD
    ensures SerialiseFrom(m, f) == if f in m then Record(f, m[f]) + SerialiseFrom(m, f + 1) else SerialiseFrom(m, f + 1)
  {
    assert [] + SerialiseFrom(m, f + 1) == SerialiseFrom(m, f + 1);
  }

  /** Parsing what was serialised gives the message back, for every set of fields and all their values. */
  lemma ParseSerialise(m: Message)
    requires Valid(m)
    ensures Parse(Serialise(m)) == Ok(CleanMessage(m))
  {
    ParsesFrom(m, FIRST_FIELD);
    CleanNone(m);
    assert Open(0);
  }
}
