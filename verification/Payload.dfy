/** The `gis_params` payload: a message serialised, put in base64, and read back to check it. */
module Payload {
  import opened WireFormat
  import opened Wrappers
  import Base64
  import Utf8
  import WireStreams

  datatype Refusal = BadCharacter(c: char) | BadMessage(why: Failure)

  /** The URL alphabet without padding. */
  const ALPHABET: nat := 4

  method BuildParams(m: Message) returns (t: string)
    requires Valid(m)
    ensures t == Base64.Encode(Serialise(m), ALPHABET)
  {
    var bytes := WireStreams.SerialiseMessage(m);
    t := Base64.EncodeBytes(bytes, ALPHABET);
  }

  function ParamsOf(t: string): Result<Message, Refusal> {
    var n := Base64.Decode(t);
    if n.Err? then Err(BadCharacter(n.error))
    else
      var m := Parse(Base64.Low(n.value));
      if m.Err? then Err(BadMessage(m.error)) else Ok(m.value)
  }

  method ReadParams(t: string) returns (r: Result<Message, Refusal>)
    ensures r == ParamsOf(t)
  {
    var n := Base64.DecodeText(t);
    if n.Err? { return Err(BadCharacter(n.error)); }
    var m := WireStreams.ParseMessage(Base64.Low(n.value));
    if m.Err? { return Err(BadMessage(m.error)); }
    return Ok(m.value);
  }

  /** Serialising, encoding, decoding and parsing gives every field back, texts with their lone surrogates replaced. */
  lemma ParamsRoundTrip(m: Message)
    requires Valid(m)
    ensures ParamsOf(Base64.Encode(Serialise(m), ALPHABET)) == Ok(CleanMessage(m))
  {
    Base64.BufferRoundTrip(Serialise(m), ALPHABET);
    ParseSerialise(m);
  }

  /** `_.ge`: a text field, or the empty string where it is not set. */
  function TextOf(m: Message, f: nat): Text {
    if f in m && m[f].Text? then m[f].text else []
  }

  const CHECKED: set<nat> := {1, 4, 5, 6, 8}

  /** The comparison the client makes between what it wrote and what it read back. */
  ghost predicate SameParams(k: Message, m: Message) {
    7 in k && k[7] == Number(1) && forall f :: f in CHECKED ==> TextOf(k, f) == TextOf(m, f)
  }

  /** The check passes exactly when no compared field holds a lone surrogate. */
  lemma CheckPasses(m: Message)
    requires Valid(m) && 7 in m && m[7] == Number(1)
    ensures var r := ParamsOf(Base64.Encode(Serialise(m), ALPHABET));
      r.Ok? && (SameParams(r.value, m) <==> forall f :: f in {1, 4, 5, 6, 8} ==> Utf8.Paired(TextOf(m, f)))
  {
    ParamsRoundTrip(m);
    CleanIsSame(m);
  }

  lemma CleanIsSame(m: Message)
    requires 7 in m && m[7] == Number(1)
    ensures SameParams(CleanMessage(m), m) <==> forall f :: f in {1, 4, 5, 6, 8} ==> Utf8.Paired(TextOf(m, f))
  {
    CleanText(m, 1);
    CleanText(m, 4);
    CleanText(m, 5);
    CleanText(m, 6);
    CleanText(m, 8);
  }

  /** An origin of one lone surrogate: the check fails on what the client wrote itself. */
  lemma LoneSurrogateFails() returns (m: Message)
    ensures m == map[1 := Text([0xD800]), 7 := Number(1)] && Valid(m)
    ensures var r := ParamsOf(Base64.Encode(Serialise(m), ALPHABET)); r.Ok? && !SameParams(r.value, m)
  {
    var u: Text := [0xD800];
    m := map[1 := Text(u), 7 := Number(1)];
    assert Utf8.FirstScalar(u) == (Utf8.REPLACEMENT, 1) && u[1..] == [];
    assert |Utf8.Encode(u)| == |Utf8.Utf8(Utf8.REPLACEMENT)| <= 4;
    assert !Utf8.Paired(u) by { assert !Utf8.InPair(u, 0); }
    assert 1 in CHECKED && TextOf(m, 1) == u;
    CheckPasses(m);
  }

  lemma CleanText(m: Message, f: nat)
    ensures TextOf(CleanMessage(m), f) == TextOf(m, f) <==> Utf8.Paired(TextOf(m, f))
  {
    Utf8.SanitisedIsSame(TextOf(m, f));
    assert f in m && m[f].Text? ==> TextOf(CleanMessage(m), f) == Utf8.Sanitised(m[f].text);
  }
}
