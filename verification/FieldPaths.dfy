/** Form field names such as `a[b][0]`: the steps they stand for, and back. */
module FieldPaths {
  import opened MediaNames
  import opened Wrappers

  datatype Kind = Object | Array

  /** A property name of an object, or an index of an array. */
  datatype Key = Name(name: string) | Index(index: nat)
  {
    function Kind(): Kind { if Name? then Object else Array }
  }

  type Path = seq<Key>

  datatype Step = Step(key: Key, last: bool, next: Option<Kind>)

  // ---- Names as text ----

  predicate IsDigit(c: char) { '0' <= c <= '9' }

  predicate AllDigits(s: string) { forall i :: 0 <= i < |s| ==> IsDigit(s[i]) }

  /** `parseInt` in base 10, on digits. */
  function ParseInt(s: string): nat
    requires AllDigits(s)
  {
    if s == "" then 0 else 10 * ParseInt(s[..|s| - 1]) + (s[|s| - 1] - '0') as nat
  }

  function RenderKey(k: Key): string {
    match k
    case Name(s) => "[" + s + "]"
    case Index(n) => "[" + Decimal(n) + "]"
  }

  function RenderGroups(p: Path): string {
    if p == [] then "" else RenderKey(p[0]) + RenderGroups(p[1..])
  }

  /** The first key stands bare, the others in brackets. */
  function Render(p: Path): string
    requires p != [] && p[0].Name?
  {
    p[0].name + RenderGroups(p[1..])
  }

  /** What may stand between brackets. A name made of digits would read as an index. */
  predicate GroupFits(k: Key) {
    k.Name? ==> k.name != "" && ']' !in k.name && !AllDigits(k.name)
  }

  predicate WellFormed(p: Path) {
    && p != [] && p[0].Name? && p[0].name != "" && '[' !in p[0].name
    && forall i :: 1 <= i < |p| ==> GroupFits(p[i])
  }

  // ---- Reading ----

  /** The first `]` from `i` on, or the end. */
  function CloseAt(s: string, i: nat): (c: nat)
    requires i <= |s|
    ensures i <= c <= |s| && (c < |s| ==> s[c] == ']') && forall j :: i <= j < c ==> s[j] != ']'
    decreases |s| - i
  {
    if i == |s| || s[i] == ']' then i else CloseAt(s, i + 1)
  }

  function KeyOf(inner: string): Key {
    if AllDigits(inner) then Index(ParseInt(inner)) else Name(inner)
  }

  /** The bracketed groups of a name; None where neither pattern matches. */
  function Groups(s: string): (r: Option<Path>)
    decreases |s|
  {
    if s == "" then Some([])
    else if s[0] != '[' then None
    else
      var c := CloseAt(s, 1);
      if c == |s| || c == 1 then None
      else
        var rest := Groups(s[c + 1..]);
        if rest.None? then None else Some([KeyOf(s[1..c])] + rest.value)
  }

  /** The length of a name before its first `[`. */
  function FirstLength(s: string): (n: nat)
    ensures n <= |s| && '[' !in s[..n] && (n < |s| ==> s[n] == '[')
  {
    if s == "" || s[0] == '[' then 0
    else
      assert s[..FirstLength(s[1..]) + 1] == [s[0]] + s[1..][..FirstLength(s[1..])];
      1 + FirstLength(s[1..])
  }

  /** The keys of a name: the whole name is one key where it does not read as a path. */
  function Keys(name: string): (p: Path)
    ensures p != []
  {
    var n := FirstLength(name);
    if n == 0 || Groups(name[n..]).None? then [Name(name)]
    else [Name(name[..n])] + Groups(name[n..]).value
  }

  /** Each step knows whether it is the last and, if not, what the next one needs. */
  function StepsOf(p: Path): seq<Step> {
    seq(|p|, i requires 0 <= i < |p| =>
      Step(p[i], i == |p| - 1, if i == |p| - 1 then None else Some(p[i + 1].Kind())))
  }

  /** The digits a string starts with. */
  function DigitsPrefix(s: string): (n: nat)
    ensures n <= |s| && AllDigits(s[..n]) && (n < |s| ==> !IsDigit(s[n]))
  {
    if s == "" || !IsDigit(s[0]) then 0
    else
      assert s[..DigitsPrefix(s[1..]) + 1] == [s[0]] + s[1..][..DigitsPrefix(s[1..])];
      1 + DigitsPrefix(s[1..])
  }

  /** `/^\[\d+\]/`. */
  predicate IndexAhead(path: string) {
    path != "" && path[0] == '[' &&
    var n := DigitsPrefix(path[1..]);
    n > 0 && n + 1 < |path| && path[n + 1] == ']'
  }

  /** `/^\[[^\]]+\]/`. */
  predicate NameAhead(path: string) {
    path != "" && path[0] == '[' && 1 < CloseAt(path, 1) < |path|
  }

  lemma {:induction false} CloseIs(s: string, i: nat, c: nat)
    requires i <= c <= |s| && (c < |s| ==> s[c] == ']') && forall j :: i <= j < c ==> s[j] != ']'
    ensures CloseAt(s, i) == c
    decreases c - i
  {
    if i < c { CloseIs(s, i + 1, c); }
  }

  lemma {:induction false} DigitsAre(s: string, n: nat)
    requires n <= |s| && (n < |s| ==> !IsDigit(s[n])) && forall j :: 0 <= j < n ==> IsDigit(s[j])
    ensures DigitsPrefix(s) == n
  {
    if n > 0 { DigitsAre(s[1..], n - 1); }
  }

  lemma {:induction false} FirstLengthIs(s: string, n: nat)
    requires n <= |s| && (n < |s| ==> s[n] == '[') && forall j :: 0 <= j < n ==> s[j] != '['
    ensures FirstLength(s) == n
  {
    if n > 0 { FirstLengthIs(s[1..], n - 1); }
  }

  /** The first pattern matches exactly the groups whose text is all digits. */
  lemma IndexAheadIs(path: string)
    requires path != "" && path[0] == '['
    ensures IndexAhead(path) <==>
      var c := CloseAt(path, 1); 1 < c < |path| && AllDigits(path[1..c])
    ensures IndexAhead(path) ==> CloseAt(path, 1) == 1 + DigitsPrefix(path[1..])
  {
    var n, c, t := DigitsPrefix(path[1..]), CloseAt(path, 1), path[1..];
    if IndexAhead(path) {
      assert t[..n] == path[1..n + 1];
      assert forall j :: 1 <= j < n + 1 ==> path[j] == t[..n][j - 1];
      CloseIs(path, 1, n + 1);
    } else if 1 < c < |path| && AllDigits(path[1..c]) {
      assert forall j :: 0 <= j < c - 1 ==> IsDigit(path[1..c][j]) && t[j] == path[1..c][j];
      DigitsAre(t, c - 1);
    }
  }

  method EncodingPath(name: string) returns (steps: seq<Step>)
    ensures steps == StepsOf(Keys(name))
  {
    var path := name;
    var failure := [Step(Name(name), true, None)];
    assert failure == StepsOf([Name(name)]);
    var i := 0;
    while i < |path| && path[i] != '['
      invariant 0 <= i <= |path| && forall j :: 0 <= j < i ==> path[j] != '['
    {
      i := i + 1;
    }
    FirstLengthIs(path, i);
    var first := path[..i];
    if first == "" { return failure; }
    path := path[|first|..];
    steps := [Step(Name(first), false, None)];
    ghost var keys: Path := [Name(first)];
    while |path| > 0
      invariant |steps| == |keys| && forall x :: 0 <= x < |keys| ==> steps[x] == Step(keys[x], false, None)
      invariant keys != [] && After(keys, Groups(path)) == After([Name(first)], Groups(name[|first|..]))
      decreases |path|
    {
      var next := ReadGroup(path, keys);
      if next.None? { return failure; }
      steps, keys := steps + [Step(next.value.0, false, None)], keys + [next.value.0];
      path := next.value.1;
    }
    assert keys + [] == keys;
    steps := LinkSteps(steps, keys);
  }

  /** The key of the bracketed group ahead, and what follows the group; None where neither pattern matches. */
  method ReadGroup(before: string, ghost keys: Path) returns (r: Option<(Key, string)>)
    requires before != ""
    ensures r.None? ==> Groups(before) == None
    ensures r.Some? ==>
      |r.value.1| < |before| && After(keys, Groups(before)) == After(keys + [r.value.0], Groups(r.value.1))
  {
    var path := before;
    if IndexAhead(path) {
      IndexAheadIs(path);
      path := path[1..];
      var digits := path[..DigitsPrefix(path)];
      path := path[|digits|..];
      path := path[1..];
      GroupRead(before, |digits|, path, keys);
      return Some((Index(ParseInt(digits)), path));
    }
    if NameAhead(path) {
      IndexAheadIs(path);
      path := path[1..];
      var characters := path[..CloseAt(path, 0)];
      CloseShifts(before);
      path := path[|characters|..];
      path := path[1..];
      GroupRead(before, |characters|, path, keys);
      return Some((Name(characters), path));
    }
    return None;
  }

  /** The loop that marks the last step and tells every other step what follows it. */
  method LinkSteps(given: seq<Step>, ghost keys: Path) returns (steps: seq<Step>)
    requires |given| == |keys| && forall x :: 0 <= x < |keys| ==> given[x] == Step(keys[x], false, None)
    ensures steps == StepsOf(keys)
  {
    steps := given;
    var i := 0;
    while i < |steps|
      invariant 0 <= i <= |steps| == |keys|
      invariant forall x :: 0 <= x < i ==> steps[x] == StepsOf(keys)[x]
      invariant forall x :: i <= x < |keys| ==> steps[x] == Step(keys[x], false, None)
    {
      if i == |steps| - 1 {
        steps := steps[i := steps[i].(last := true)];
      } else {
        steps := steps[i := steps[i].(next := Some(steps[i + 1].key.Kind()))];
      }
      i := i + 1;
    }
  }

  ghost function After(p: Path, rest: Option<Path>): Option<Path> {
    if rest.Some? then Some(p + rest.value) else None
  }

  lemma CloseShifts(path: string)
    requires path != ""
    ensures CloseAt(path[1..], 0) + 1 == CloseAt(path, 1)
  {
    var c := CloseAt(path[1..], 0);
    assert forall j :: 0 <= j < |path| - 1 ==> path[1..][j] == path[j + 1];
    assert forall j :: 1 <= j < c + 1 ==> path[j] == path[1..][j - 1];
    CloseIs(path, 1, c + 1);
  }

  lemma GroupRead(before: string, n: nat, path: string, keys: Path)
    requires before != "" && before[0] == '[' && CloseAt(before, 1) == n + 1 < |before| && n > 0
    requires path == before[1..][n..][1..]
    ensures After(keys, Groups(before)) == After(keys + [KeyOf(before[1..n + 1])], Groups(path))
    ensures before[1..][..n] == before[1..n + 1]
  {
    assert path == before[n + 2..];
    if Groups(path).Some? {
      var k := [KeyOf(before[1..n + 1])];
      assert keys + (k + Groups(path).value) == keys + k + Groups(path).value;
    }
  }

  // ---- What reader and printer promise each other ----

  lemma DigitValue(d: nat)
    requires d < 10
    ensures IsDigit(Digit(d)) && (Digit(d) - '0') as nat == d
  {
  }

  lemma {:induction false} ParseDecimal(n: nat)
    ensures AllDigits(Decimal(n)) && ParseInt(Decimal(n)) == n
    ensures Decimal(n)[0] == '0' ==> n == 0 && |Decimal(n)| == 1
  {
    var s := Decimal(n);
    DigitValue(n % 10);
    if n < 10 {
      assert s[..0] == "";
    } else {
      ParseDecimal(n / 10);
      assert s[..|s| - 1] == Decimal(n / 10);
      forall i | 0 <= i < |s| ensures IsDigit(s[i]) {
        if i < |s| - 1 { assert s[i] == Decimal(n / 10)[i]; }
      }
    }
  }

  /** A numeral prints back as itself exactly when it has no leading zero. */
  predicate Canonical(s: string) { s != "" && (s[0] == '0' ==> |s| == 1) }

  lemma DecimalParse(s: string)
    requires AllDigits(s) && s != ""
    ensures Decimal(ParseInt(s)) == s <==> Canonical(s)
    ensures Canonical(s) && |s| > 1 ==> ParseInt(s) >= 10
  {
    if Canonical(s) {
      CanonicalPrints(s);
    } else {
      ParseDecimal(ParseInt(s));
    }
  }

  lemma {:induction false} CanonicalPrints(s: string)
    requires AllDigits(s) && Canonical(s)
    ensures Decimal(ParseInt(s)) == s && (s[0] != '0' ==> ParseInt(s) >= 1) && (|s| > 1 ==> ParseInt(s) >= 10)
  {
    var t, c := s[..|s| - 1], s[|s| - 1];
    DigitOf(c);
    assert s == t + [c];
    if t == "" {
      assert ParseInt(s) == (c - '0') as nat;
    } else {
      assert t[0] == s[0];
      CanonicalPrints(t);
      TenTimes(ParseInt(t), (c - '0') as nat);
    }
  }

  lemma DigitOf(c: char)
    requires IsDigit(c)
    ensures (c - '0') as nat < 10 && Digit((c - '0') as nat) == c
  {
  }

  lemma TenTimes(q: nat, d: nat)
    requires q >= 1 && d < 10
    ensures (10 * q + d) / 10 == q && (10 * q + d) % 10 == d && Decimal(10 * q + d) == Decimal(q) + [Digit(d)]
  {
  }

  lemma GroupReads(inner: string, rest: string)
    requires inner != "" && ']' !in inner
    ensures Groups("[" + inner + "]" + rest) == After([KeyOf(inner)], Groups(rest))
  {
    var s := "[" + inner + "]" + rest;
    assert forall j :: 1 <= j < |inner| + 1 ==> s[j] == inner[j - 1] && inner[j - 1] in inner;
    CloseIs(s, 1, |inner| + 1);
    assert s[1..|inner| + 1] == inner && s[|inner| + 2..] == rest;
  }

  function Inner(k: Key): string {
    if k.Name? then k.name else Decimal(k.index)
  }

  lemma InnerReads(k: Key)
    requires GroupFits(k)
    ensures Inner(k) != "" && ']' !in Inner(k) && KeyOf(Inner(k)) == k
  {
    if k.Index? {
      ParseDecimal(k.index);
      assert forall i :: 0 <= i < |Inner(k)| ==> IsDigit(Inner(k)[i]);
    }
  }

  lemma {:induction false} GroupsRender(p: Path)
    requires forall i :: 0 <= i < |p| ==> GroupFits(p[i])
    ensures Groups(RenderGroups(p)) == Some(p)
  {
    if p != [] {
      GroupsRender(p[1..]);
      InnerReads(p[0]);
      GroupReads(Inner(p[0]), RenderGroups(p[1..]));
      assert p == [p[0]] + p[1..];
    }
  }

  /** Reading the bracket form of any well-formed path gives its steps. */
  lemma ReadRender(p: Path)
    requires WellFormed(p)
    ensures Keys(Render(p)) == p
  {
    var first, q := p[0].name, p[1..];
    forall i | 0 <= i < |q| ensures GroupFits(q[i]) { assert GroupFits(p[i + 1]); }
    GroupsRender(q);
    if q != [] { assert RenderGroups(q)[0] == '['; }
    FirstReads(first, RenderGroups(q));
    KeysOfText(first + RenderGroups(q), first, RenderGroups(q), q);
    assert [p[0]] + q == p;
  }

  lemma KeysOfText(s: string, first: string, rest: string, q: Path)
    requires FirstLength(s) == |first| > 0 && s[..|first|] == first && s[|first|..] == rest && Groups(rest) == Some(q)
    ensures Keys(s) == [Name(first)] + q
  {
  }

  lemma FirstReads(first: string, rest: string)
    requires '[' !in first && (rest != "" ==> rest[0] == '[')
    ensures FirstLength(first + rest) == |first|
    ensures (first + rest)[..|first|] == first && (first + rest)[|first|..] == rest
  {
    var s := first + rest;
    assert forall j :: 0 <= j < |first| ==> s[j] == first[j] && first[j] in first;
    FirstLengthIs(s, |first|);
  }

  /** A name reads as a path when it has a first key and well-formed groups after it. */
  predicate Accepted(name: string) {
    FirstLength(name) > 0 && Groups(name[FirstLength(name)..]).Some?
  }

  /** Numerals between brackets have no leading zeros. */
  predicate CanonicalGroups(s: string)
    requires Groups(s).Some?
    decreases |s|
  {
    s == "" ||
    var c := CloseAt(s, 1);
    (AllDigits(s[1..c]) ==> Canonical(s[1..c])) && CanonicalGroups(s[c + 1..])
  }

  lemma GroupsStep(s: string)
    requires Groups(s).Some? && s != ""
    ensures var c := CloseAt(s, 1);
      && 1 < c < |s| && Groups(s[c + 1..]).Some? && s == "[" + s[1..c] + "]" + s[c + 1..]
      && Groups(s).value == [KeyOf(s[1..c])] + Groups(s[c + 1..]).value
      && (forall j :: 0 <= j < |s[1..c]| ==> s[1..c][j] != ']')
      && (CanonicalGroups(s) <==> (AllDigits(s[1..c]) ==> Canonical(s[1..c])) && CanonicalGroups(s[c + 1..]))
  {
    GroupText(s, CloseAt(s, 1));
  }

  lemma GroupText(s: string, c: nat)
    requires 0 < c < |s| && s[0] == '[' && s[c] == ']' && forall j :: 1 <= j < c ==> s[j] != ']'
    ensures s == "[" + s[1..c] + "]" + s[c + 1..]
    ensures forall j :: 0 <= j < |s[1..c]| ==> s[1..c][j] != ']'
  {
  }

  lemma {:induction false} RenderGroupsRead(s: string)
    requires Groups(s).Some?
    ensures forall i :: 0 <= i < |Groups(s).value| ==> GroupFits(Groups(s).value[i])
    ensures RenderGroups(Groups(s).value) == s <==> CanonicalGroups(s)
    ensures |RenderGroups(Groups(s).value)| <= |s|
    decreases |s|
  {
    if s != "" {
      GroupsStep(s);
      var c := CloseAt(s, 1);
      RenderGroupsRead(s[c + 1..]);
      InnerRenders(s[1..c]);
      OneMoreGroup(s, s[1..c], s[c + 1..], Groups(s[c + 1..]).value);
    }
  }

  lemma OneMoreGroup(s: string, inner: string, rest: string, p: Path)
    requires s == "[" + inner + "]" + rest && |RenderKey(KeyOf(inner))| <= |inner| + 2 && |RenderGroups(p)| <= |rest|
    ensures RenderGroups([KeyOf(inner)] + p) == s <==>
      RenderKey(KeyOf(inner)) == "[" + inner + "]" && RenderGroups(p) == rest
    ensures |RenderGroups([KeyOf(inner)] + p)| <= |s|
  {
    FirstPrinted(KeyOf(inner), p);
    Halves(RenderKey(KeyOf(inner)), RenderGroups(p), "[" + inner + "]", rest);
  }

  lemma FirstPrinted(k: Key, p: Path)
    ensures RenderGroups([k] + p) == RenderKey(k) + RenderGroups(p)
  {
    assert ([k] + p)[1..] == p;
  }

  lemma InnerRenders(inner: string)
    requires inner != "" && forall j :: 0 <= j < |inner| ==> inner[j] != ']'
    ensures GroupFits(KeyOf(inner)) && |RenderKey(KeyOf(inner))| <= |inner| + 2
    ensures RenderKey(KeyOf(inner)) == "[" + inner + "]" <==> (AllDigits(inner) ==> Canonical(inner))
  {
    if AllDigits(inner) {
      var d := Decimal(ParseInt(inner));
      DecimalParse(inner);
      DecimalShort(inner);
      if "[" + d + "]" == "[" + inner + "]" {
        assert ("[" + d + "]")[1..|d| + 1] == d && ("[" + inner + "]")[1..|inner| + 1] == inner;
      }
    }
  }

  lemma {:induction false} DecimalShort(s: string)
    requires AllDigits(s) && s != ""
    ensures |Decimal(ParseInt(s))| <= |s|
  {
    var t := s[..|s| - 1];
    if t == "" {
      assert ParseInt(s) < 10;
    } else {
      DecimalShort(t);
      assert ParseInt(s) / 10 == ParseInt(t);
    }
  }

  lemma Halves(a: string, b: string, c: string, d: string)
    requires |a| <= |c| && |b| <= |d|
    ensures a + b == c + d <==> a == c && b == d
  {
    if a + b == c + d {
      assert |a| == |c|;
      assert a == (a + b)[..|a|] && c == (c + d)[..|c|] && b == (a + b)[|a|..] && d == (c + d)[|c|..];
    }
  }

  /**
   Every name an accepted path was read from prints back, exactly when its numerals
   have no leading zeros; every other name is one step, itself.
   */
  lemma RenderRead(name: string)
    ensures Accepted(name) ==>
      WellFormed(Keys(name)) && (Render(Keys(name)) == name <==> CanonicalGroups(name[FirstLength(name)..]))
    ensures !Accepted(name) ==> StepsOf(Keys(name)) == [Step(Name(name), true, None)]
  {
    if Accepted(name) {
      var n := FirstLength(name);
      var first, rest := name[..n], name[n..];
      RenderGroupsRead(rest);
      KeysWellFormed(first, Groups(rest).value);
      assert name == first + rest;
      Halves(first, RenderGroups(Groups(rest).value), first, rest);
    }
  }

  lemma KeysWellFormed(first: string, q: Path)
    requires first != "" && '[' !in first && forall i :: 0 <= i < |q| ==> GroupFits(q[i])
    ensures WellFormed([Name(first)] + q) && Render([Name(first)] + q) == first + RenderGroups(q)
  {
    var p := [Name(first)] + q;
    assert p[1..] == q;
    forall i | 1 <= i < |p| ensures GroupFits(p[i]) { assert p[i] == q[i - 1]; }
  }

  /** A name that reads as a path and prints back as another. */
  lemma LeadingZero()
    ensures Accepted("a[01]") && Keys("a[01]") == [Name("a"), Index(1)] && Render(Keys("a[01]")) == "a[1]"
  {
    var s, g, p := "a[01]", "[01]", [Index(1)];
    FirstLengthIs(s, 1);
    ZeroOneReads();
    KeysOfText(s, "a", g, p);
    assert [Name("a")] + p == [Name("a"), Index(1)] && [Name("a"), Index(1)][1..] == p && p[1..] == [];
    assert RenderGroups(p) == "[" + "1" + "]" + "" == "[1]";
  }

  lemma ZeroOneReads()
    ensures Groups("[01]") == Some([Index(1)])
  {
    assert "01"[..1] == "0" && "0"[..0] == "" && ParseInt("0") == 0 && ParseInt("01") == 1;
    GroupReads("01", "");
    assert "[" + "01" + "]" + "" == "[01]" && [Index(1)] + [] == [Index(1)];
  }
}
