/** The compressed text of the public-suffix trie: what it says, and how the client reads it. */
module SuffixText {
  import opened Collections
  import opened Wrappers

  /** A trie by its nodes: for each string that is a node, the value it has, if any. */
  type Trie = map<string, Option<bool>>

  const EMPTY: Trie := map["" := None]

  /** Prefixes of nodes are nodes. */
  ghost predicate Closed(t: Trie) {
    "" in t && forall q :: q in t && q != "" ==> q[..|q| - 1] in t
  }

  /** An edge, the value of the node it leads to, and what hangs below that node. */
  datatype Doc = Doc(edge: string, value: Option<bool>, kids: seq<Doc>)

  predicate Ends(d: char) { d == '?' || d == ',' }

  predicate Marks(d: char) { d == '!' || d == '?' || d == ':' || d == ',' || d == '&' }

  /** The mark after an edge: what the node's value is and whether it has children. */
  function Mark(value: Option<bool>, leaf: bool): char {
    match value
    case Some(true) => if leaf then '?' else '!'
    case Some(false) => if leaf then ',' else ':'
    case None => '&'
  }

  /** Labels have no marks in them, only inner nodes lack a value, and a child's edge is not empty. */
  predicate Printable(d: Doc)
    decreases d, 0
  {
    && (forall i :: 0 <= i < |d.edge| ==> !Marks(d.edge[i]))
    && (d.kids == [] ==> d.value.Some?)
    && KidsPrintable(d.kids)
  }

  predicate KidsPrintable(kids: seq<Doc>)
    decreases kids, 1
  {
    kids == [] || (kids[0].edge != "" && Printable(kids[0]) && KidsPrintable(kids[1..]))
  }

  function Render(d: Doc): string
    decreases d, 0
  {
    d.edge + [Mark(d.value, d.kids == [])] + if d.kids == [] then "" else RenderKids(d.kids) + "?"
  }

  function RenderKids(kids: seq<Doc>): string
    decreases kids, 1
  {
    if kids == [] then "" else Render(kids[0]) + RenderKids(kids[1..])
  }

  // ---- What a text adds to a trie ----

  function Touch(t: Trie, p: string): Trie {
    if p in t then t else t[p := None]
  }

  /** The nodes along an edge from `p`. */
  function Walk(t: Trie, p: string, edge: string): Trie
    decreases |edge|
  {
    if edge == "" then t else Walk(Touch(t, p + [edge[0]]), p + [edge[0]], edge[1..])
  }

  function SetValue(t: Trie, p: string, value: Option<bool>): Trie {
    if value.None? then t else t[p := value]
  }

  function Apply(t: Trie, p: string, d: Doc): Trie
    decreases d, 0
  {
    ApplyKids(Reach(t, p, d), p + d.edge, d.kids)
  }

  /** The trie once an edge has been walked and its end has its value. */
  function Reach(t: Trie, p: string, d: Doc): Trie {
    SetValue(Walk(t, p, d.edge), p + d.edge, d.value)
  }

  function ApplyKids(t: Trie, p: string, kids: seq<Doc>): Trie
    decreases kids, 1
  {
    if kids == [] then t else ApplyKids(Apply(t, p, kids[0]), p, kids[1..])
  }

  // ---- Reading ----

  /** Where reading an edge stops: position, node and trie, the mark's value written. */
  datatype Stop = Stop(a: nat, p: string, t: Trie)

  /** The value a mark sets. */
  function MarkValue(d: char): Option<bool> {
    if d == '!' || d == '?' then Some(true) else if d == ':' || d == ',' then Some(false) else None
  }

  function ReadLabel(b: string, a: nat, p: string, t: Trie): (r: Stop)
    requires a <= |b|
    ensures a <= r.a <= |b| && (r.a < |b| ==> Marks(b[r.a]))
    decreases |b| - a
  {
    if a == |b| then Stop(a, p, t)
    else if Marks(b[a]) then Stop(a, p, SetValue(t, p, MarkValue(b[a])))
    else ReadLabel(b, a + 1, p + [b[a]], Touch(t, p + [b[a]]))
  }

  /** One node's text; None where the text breaks off, which makes the client recurse without end. */
  function Read(b: string, a: nat, p: string, t: Trie): (r: Option<(nat, Trie)>)
    requires a <= |b|
    ensures r.Some? ==> a < r.value.0 <= |b|
    decreases |b| - a, 0
  {
    var s := ReadLabel(b, a, p, t);
    if s.a == |b| then None
    else if Ends(b[s.a]) then Some((s.a + 1, s.t))
    else ReadKids(b, s.a + 1, s.p, s.t)
  }

  /** Children up to the mark that closes them. */
  function ReadKids(b: string, a: nat, p: string, t: Trie): (r: Option<(nat, Trie)>)
    requires a <= |b|
    ensures r.Some? ==> a < r.value.0 <= |b|
    decreases |b| - a, 1
  {
    var r := Read(b, a, p, t);
    if r.None? then None
    else if r.value.0 == |b| then None
    else if Ends(b[r.value.0]) then Some((r.value.0 + 1, r.value.1))
    else ReadKids(b, r.value.0, p, r.value.1)
  }

  lemma {:induction false} ReadsLabel(b: string, a: nat, p: string, t: Trie, edge: string, mark: char)
    requires a + |edge| < |b| && b[a..a + |edge|] == edge && b[a + |edge|] == mark && Marks(mark)
    requires forall i :: 0 <= i < |edge| ==> !Marks(edge[i])
    ensures ReadLabel(b, a, p, t)
      == Stop(a + |edge|, p + edge, SetValue(Walk(t, p, edge), p + edge, MarkValue(mark)))
    decreases |edge|
  {
    if edge == "" {
      assert p + "" == p;
    } else {
      assert b[a] == b[a..a + |edge|][0];
      assert b[a + 1..a + |edge|] == b[a..a + |edge|][1..];
      ReadsLabel(b, a + 1, p + [b[a]], Touch(t, p + [b[a]]), edge[1..], mark);
      assert p + [edge[0]] + edge[1..] == p + edge;
    }
  }

  lemma Slices(b: string, a: nat, text: string, n: nat)
    requires a + |text| <= |b| && b[a..a + |text|] == text && n <= |text|
    ensures b[a..a + n] == text[..n] && b[a + n..a + |text|] == text[n..] && (n < |text| ==> b[a + n] == text[n])
  {
    if n < |text| { assert b[a + n] == b[a..a + |text|][n]; }
  }

  /** The text `s` stands at `a`; the characters are only looked at where `Spell` is mentioned. */
  ghost predicate TextAt(b: string, a: nat, s: string) {
    a + |s| <= |b| && forall u {:trigger Spell(u)} :: Spell(u) ==> b[a..a + |s|] == s
  }

  ghost predicate Spell(u: int) { true }

  /** A text in two parts stands where its parts do. */
  lemma PartsAt(b: string, a: nat, first: string, rest: string)
    requires TextAt(b, a, first + rest)
    ensures TextAt(b, a, first) && TextAt(b, a + |first|, rest)
    ensures rest != "" ==> a + |first| < |b| && b[a + |first|] == rest[0]
  {
    var n := |first|;
    assert Spell(0);
    Slices(b, a, first + rest, n);
    assert (first + rest)[..n] == first && (first + rest)[n..] == rest;
    if rest != "" { assert (first + rest)[n] == rest[0]; }
  }

  lemma Associate(s: string, t: string, u: string)
    ensures s + t + u == s + (t + u)
  {
  }

  lemma DocText(b: string, a: nat, d: Doc)
    requires TextAt(b, a, Render(d))
    ensures var n := |d.edge|;
      && n < |Render(d)| && b[a..a + n] == d.edge && b[a + n] == Mark(d.value, d.kids == [])
      && (d.kids == [] ==> n + 1 == |Render(d)|)
      && (d.kids != [] ==> n + 1 + |RenderKids(d.kids)| + 1 == |Render(d)|)
      && (d.kids != [] ==> TextAt(b, a + n + 1, RenderKids(d.kids) + "?"))
  {
    var mark := [Mark(d.value, d.kids == [])];
    var rest := if d.kids == [] then "" else RenderKids(d.kids) + "?";
    Associate(d.edge, mark, rest);
    PartsAt(b, a, d.edge, mark + rest);
    PartsAt(b, a + |d.edge|, mark, rest);
    assert Spell(0);
  }

  /** The text of children is that of the first, then that of the others, which does not begin with a closing mark. */
  lemma KidsText(b: string, a: nat, kids: seq<Doc>)
    requires kids != [] && KidsPrintable(kids) && TextAt(b, a, RenderKids(kids) + "?")
    ensures var n := a + |Render(kids[0])|;
      && TextAt(b, a, Render(kids[0])) && n < |b|
      && n + |RenderKids(kids[1..])| == a + |RenderKids(kids)|
      && (|kids| > 1 ==> TextAt(b, n, RenderKids(kids[1..]) + "?") && !Ends(b[n]))
      && (|kids| == 1 ==> Ends(b[n]) && RenderKids(kids[1..]) == "")
  {
    var first, others := Render(kids[0]), RenderKids(kids[1..]);
    assert RenderKids(kids) == first + others;
    JoinedAt(b, a, first, others);
    if |kids| > 1 { FirstOfKids(kids[1..]); }
  }

  lemma JoinedAt(b: string, a: nat, first: string, others: string)
    requires TextAt(b, a, first + others + "?")
    ensures var n := a + |first|;
      TextAt(b, a, first) && TextAt(b, n, others + "?") && n < |b| && b[n] == (others + "?")[0]
  {
    Associate(first, others, "?");
    PartsAt(b, a, first, others + "?");
  }

  lemma ApplyStep(t: Trie, p: string, kids: seq<Doc>)
    requires kids != []
    ensures ApplyKids(t, p, kids) == ApplyKids(Apply(t, p, kids[0]), p, kids[1..])
    ensures |kids| == 1 ==> ApplyKids(t, p, kids) == Apply(t, p, kids[0]) && RenderKids(kids) == Render(kids[0])
  {
    if |kids| == 1 { assert kids[1..] == []; assert Render(kids[0]) + "" == Render(kids[0]); }
  }

  lemma FirstOfKids(kids: seq<Doc>)
    requires kids != [] && kids[0].edge != "" && Printable(kids[0])
    ensures RenderKids(kids) != "" && !Marks(RenderKids(kids)[0]) && !Ends(RenderKids(kids)[0])
    ensures (RenderKids(kids) + "?")[0] == RenderKids(kids)[0]
  {
    assert Render(kids[0])[0] == kids[0].edge[0];
  }

  /** `Read` ends at `n` with the trie `t1`, expanded only where `Unroll` is mentioned. */
  ghost predicate Takes(b: string, a: nat, p: string, t: Trie, n: nat, t1: Trie)
    requires a <= |b|
  {
    forall u {:trigger Unroll(u)} :: Unroll(u) ==> Read(b, a, p, t) == Some((n, t1))
  }

  ghost predicate TakesKids(b: string, a: nat, p: string, t: Trie, n: nat, t1: Trie)
    requires a <= |b|
  {
    forall u {:trigger Unroll(u)} :: Unroll(u) ==> ReadKids(b, a, p, t) == Some((n, t1))
  }

  ghost predicate Unroll(u: int) { true }

  lemma TakesLeaf(b: string, a: nat, p: string, t: Trie, d: Doc)
    requires Printable(d) && TextAt(b, a, Render(d)) && d.kids == []
    ensures Takes(b, a, p, t, a + |Render(d)|, Apply(t, p, d))
  {
    DocText(b, a, d);
    ReadsLabel(b, a, p, t, d.edge, Mark(d.value, true));
  }

  lemma TakesInner(b: string, a: nat, p: string, t: Trie, d: Doc, n: nat)
    requires Printable(d) && TextAt(b, a, Render(d)) && d.kids != []
    requires TakesKids(b, a + |d.edge| + 1, p + d.edge, Reach(t, p, d), n,
                       ApplyKids(Reach(t, p, d), p + d.edge, d.kids))
    ensures Takes(b, a, p, t, n, Apply(t, p, d))
  {
    assert Unroll(0);
    DocText(b, a, d);
    ReadsLabel(b, a, p, t, d.edge, Mark(d.value, false));
  }

  lemma TakesLastKid(b: string, a: nat, p: string, t: Trie, n: nat, t1: Trie)
    requires a <= |b| && Takes(b, a, p, t, n, t1) && n < |b| && Ends(b[n])
    ensures TakesKids(b, a, p, t, n + 1, t1)
  {
    assert Unroll(0);
  }

  lemma TakesMoreKids(b: string, a: nat, p: string, t: Trie, n: nat, t1: Trie, m: nat, t2: Trie)
    requires a <= |b| && Takes(b, a, p, t, n, t1) && n < |b| && !Ends(b[n]) && TakesKids(b, n, p, t1, m, t2)
    ensures TakesKids(b, a, p, t, m, t2)
  {
    assert Unroll(0);
  }

  lemma {:induction false} DocTaken(b: string, a: nat, p: string, t: Trie, d: Doc)
    requires Printable(d) && TextAt(b, a, Render(d))
    ensures Takes(b, a, p, t, a + |Render(d)|, Apply(t, p, d))
    decreases d, 0
  {
    if d.kids == [] {
      TakesLeaf(b, a, p, t, d);
    } else {
      DocText(b, a, d);
      KidsTaken(b, a + |d.edge| + 1, p + d.edge, Reach(t, p, d), d.kids);
      TakesInner(b, a, p, t, d, a + |Render(d)|);
    }
  }

  lemma {:induction false} KidsTaken(b: string, a: nat, p: string, t: Trie, kids: seq<Doc>)
    requires kids != [] && KidsPrintable(kids)
    requires TextAt(b, a, RenderKids(kids) + "?")
    ensures TakesKids(b, a, p, t, a + |RenderKids(kids)| + 1, ApplyKids(t, p, kids))
    decreases kids, 1
  {
    KidsText(b, a, kids);
    DocTaken(b, a, p, t, kids[0]);
    if |kids| > 1 {
      KidsTaken(b, a + |Render(kids[0])|, p, Apply(t, p, kids[0]), kids[1..]);
      FirstOfMany(b, a, p, t, kids);
    } else {
      OnlyKid(b, a, p, t, kids);
    }
  }

  lemma FirstOfMany(b: string, a: nat, p: string, t: Trie, kids: seq<Doc>)
    requires |kids| > 1 && a + |Render(kids[0])| < |b| && !Ends(b[a + |Render(kids[0])|])
    requires a + |Render(kids[0])| + |RenderKids(kids[1..])| == a + |RenderKids(kids)|
    requires Takes(b, a, p, t, a + |Render(kids[0])|, Apply(t, p, kids[0]))
    requires TakesKids(b, a + |Render(kids[0])|, p, Apply(t, p, kids[0]),
                       a + |Render(kids[0])| + |RenderKids(kids[1..])| + 1,
                       ApplyKids(Apply(t, p, kids[0]), p, kids[1..]))
    ensures TakesKids(b, a, p, t, a + |RenderKids(kids)| + 1, ApplyKids(t, p, kids))
  {
    var n, t1 := a + |Render(kids[0])|, Apply(t, p, kids[0]);
    ApplyStep(t, p, kids);
    TakesMoreKids(b, a, p, t, n, t1, n + |RenderKids(kids[1..])| + 1, ApplyKids(t1, p, kids[1..]));
  }

  lemma OnlyKid(b: string, a: nat, p: string, t: Trie, kids: seq<Doc>)
    requires |kids| == 1 && a + |Render(kids[0])| < |b| && Ends(b[a + |Render(kids[0])|])
    requires Takes(b, a, p, t, a + |Render(kids[0])|, Apply(t, p, kids[0]))
    ensures TakesKids(b, a, p, t, a + |RenderKids(kids)| + 1, ApplyKids(t, p, kids))
  {
    ApplyStep(t, p, kids);
    TakesLastKid(b, a, p, t, a + |Render(kids[0])|, Apply(t, p, kids[0]));
  }

  /** Reading the text of a node does what the node says and takes exactly its text. */
  lemma ReadsDoc(b: string, a: nat, p: string, t: Trie, d: Doc)
    requires Printable(d) && a + |Render(d)| <= |b| && b[a..a + |Render(d)|] == Render(d)
    ensures Read(b, a, p, t) == Some((a + |Render(d)|, Apply(t, p, d)))
  {
    DocTaken(b, a, p, t, d);
    assert Unroll(0);
  }

  // ---- Texts that leave the root without a value ----

  /** After a mark that ends a node comes another such mark, a label or nothing. */
  predicate EndsApart(b: string) {
    forall i :: 0 <= i < |b| - 1 && Ends(b[i]) ==> Ends(b[i + 1]) || !Marks(b[i + 1])
  }

  /** A root without a value whose children all have labels, as in each of the client's texts. */
  predicate RootUnset(b: string) {
    |b| > 1 && b[0] == '&' && !Marks(b[1]) && EndsApart(b)
  }

  predicate SameRoot(t: Trie, u: Trie) {
    "" in t && "" in u && u[""] == t[""]
  }

  lemma {:induction false} LabelKeepsRoot(b: string, a: nat, p: string, t: Trie)
    requires a <= |b| && "" in t && (p != "" || (a < |b| && !Marks(b[a])))
    ensures SameRoot(t, ReadLabel(b, a, p, t).t) && ReadLabel(b, a, p, t).p != ""
    decreases |b| - a
  {
    if a < |b| && !Marks(b[a]) { LabelKeepsRoot(b, a + 1, p + [b[a]], Touch(t, p + [b[a]])); }
  }

  lemma {:induction false} ReadKeepsRoot(b: string, a: nat, p: string, t: Trie)
    requires a <= |b| && "" in t && (p != "" || (a < |b| && !Marks(b[a])))
    ensures var r := Read(b, a, p, t); r.Some? ==> SameRoot(t, r.value.1) && Ends(b[r.value.0 - 1])
    decreases |b| - a, 0
  {
    LabelKeepsRoot(b, a, p, t);
    var s := ReadLabel(b, a, p, t);
    if s.a < |b| && !Ends(b[s.a]) { KidsKeepRoot(b, s.a + 1, s.p, s.t); }
  }

  lemma {:induction false} KidsKeepRoot(b: string, a: nat, p: string, t: Trie)
    requires a <= |b| && "" in t && (p != "" || (a < |b| && !Marks(b[a]) && EndsApart(b)))
    ensures var r := ReadKids(b, a, p, t); r.Some? ==> SameRoot(t, r.value.1) && Ends(b[r.value.0 - 1])
    decreases |b| - a, 1
  {
    ReadKeepsRoot(b, a, p, t);
    var r := Read(b, a, p, t);
    if r.Some? && r.value.0 < |b| && !Ends(b[r.value.0]) { KidsKeepRoot(b, r.value.0, p, r.value.1); }
  }

  /** Reading such a text leaves the root without a value. */
  lemma RootStaysUnset(b: string)
    requires RootUnset(b)
    ensures var r := Read(b, 0, "", EMPTY); r.Some? ==> "" in r.value.1 && r.value.1[""] == None
  {
    KidsKeepRoot(b, 1, "", EMPTY);
    assert ReadLabel(b, 0, "", EMPTY) == Stop(0, "", EMPTY);
  }

  lemma ApartJoin(s: string, t: string)
    requires EndsApart(s) && EndsApart(t)
    requires s != "" && t != "" && Ends(s[|s| - 1]) ==> Ends(t[0]) || !Marks(t[0])
    ensures EndsApart(s + t)
  {
    var b := s + t;
    forall i | 0 <= i < |b| - 1 && Ends(b[i]) ensures Ends(b[i + 1]) || !Marks(b[i + 1]) {
      if i + 1 < |s| {
        assert b[i] == s[i] && b[i + 1] == s[i + 1];
      } else if i + 1 == |s| {
        assert b[i] == s[i] && b[i + 1] == t[0];
      } else {
        assert b[i] == t[i - |s|] && b[i + 1] == t[i + 1 - |s|];
      }
    }
  }

  lemma {:induction false} RenderApart(d: Doc)
    requires Printable(d)
    ensures var s := Render(d);
      && EndsApart(s) && s != "" && Ends(s[|s| - 1]) && (d.edge != "" ==> !Marks(s[0]))
      && (d.edge == "" && d.kids != [] ==> |s| > 1 && s[0] == Mark(d.value, false) && !Marks(s[1]))
    decreases d, 0
  {
    var mark := [Mark(d.value, d.kids == [])];
    ApartJoin(d.edge, mark);
    if d.kids == [] {
      assert Render(d) == d.edge + mark + "" == d.edge + mark;
    } else {
      KidsApart(d.kids);
      ApartJoin(RenderKids(d.kids), "?");
      ApartJoin(d.edge + mark, RenderKids(d.kids) + "?");
    }
  }

  lemma {:induction false} KidsApart(kids: seq<Doc>)
    requires KidsPrintable(kids)
    ensures var s := RenderKids(kids); EndsApart(s) && (kids != [] ==> s != "" && !Marks(s[0]) && Ends(s[|s| - 1]))
    decreases kids, 1
  {
    if kids != [] {
      RenderApart(kids[0]);
      KidsApart(kids[1..]);
      ApartJoin(Render(kids[0]), RenderKids(kids[1..]));
    }
  }

  /** The texts of that kind are those of tries whose root has no value and is written by itself. */
  lemma WrittenRootUnset(d: Doc)
    requires Printable(d) && d.edge == "" && d.kids != []
    ensures RootUnset(Render(d)) <==> d.value == None
  {
    RenderApart(d);
  }

  // ---- Compressing ----

  ghost function Kids(t: Trie, p: string): (s: set<char>)
    ensures forall c :: c in s <==> p + [c] in t
  {
    var s := set q | q in t && |q| == |p| + 1 && q[..|p|] == p :: q[|p|];
    assert forall c :: c in s ==> p + [c] in t by {
      forall c | c in s ensures p + [c] in t {
        var q :| q in t && |q| == |p| + 1 && q[..|p|] == p && q[|p|] == c;
        assert q == p + [c];
      }
    }
    assert forall c :: p + [c] in t ==> c in s by {
      forall c | p + [c] in t ensures c in s { assert (p + [c])[..|p|] == p && (p + [c])[|p|] == c; }
    }
    s
  }

  ghost function Below(t: Trie, p: string): set<string> {
    set q | q in t && p <= q
  }

  lemma BelowShrinks(t: Trie, p: string, c: char)
    requires p in t
    ensures |Below(t, p + [c])| < |Below(t, p)|
  {
    assert Below(t, p + [c]) <= Below(t, p) - {p};
    SubsetSize(Below(t, p + [c]), Below(t, p) - {p});
  }

  ghost function Pick(s: set<char>): (c: char)
    requires s != {}
    ensures c in s && (|s| == 1 ==> s == {c})
  {
    var c :| c in s;
    assert |s| == 1 ==> s == {c} by { if |s| == 1 { OnlyOne(s, c); } }
    c
  }

  lemma OnlyOne(s: set<char>, c: char)
    requires c in s && |s| == 1
    ensures s == {c}
  {
    assert |s - {c}| == 0;
    assert s == {c} + (s - {c});
  }

  /** The text of the child of `p` under `c`: nodes without value and with one child are drawn into the edge. */
  ghost function DocFor(t: Trie, p: string, c: char): (d: Doc)
    requires p + [c] in t
    ensures d.edge != ""
    decreases |Below(t, p + [c])|, 1, 0
  {
    var q := p + [c];
    if t[q].None? && |Kids(t, q)| == 1 then
      var x := Pick(Kids(t, q));
      BelowShrinks(t, q, x);
      var d := DocFor(t, q, x);
      Doc([c] + d.edge, d.value, d.kids)
    else Doc([c], t[q], KidDocs(t, q, Kids(t, q)))
  }

  ghost function KidDocs(t: Trie, p: string, s: set<char>): (kids: seq<Doc>)
    requires p in t && forall c :: c in s ==> p + [c] in t
    ensures kids == [] <==> s == {}
    decreases |Below(t, p)|, 0, |s|
  {
    if s == {} then []
    else
      var c := Pick(s);
      BelowShrinks(t, p, c);
      [DocFor(t, p, c)] + KidDocs(t, p, s - {c})
  }

  ghost function Compress(t: Trie): Doc
    requires Closed(t)
  {
    if t[""].None? && |Kids(t, "")| == 1 then
      var x := Pick(Kids(t, ""));
      DocFor(t, "", x)
    else Doc("", t[""], KidDocs(t, "", Kids(t, "")))
  }

  /** Every node without children has a value, and no node's name has a mark in it. */
  ghost predicate Compressible(t: Trie) {
    && Closed(t)
    && (forall q :: q in t && Kids(t, q) == {} ==> t[q].Some?)
    && forall q, i :: q in t && 0 <= i < |q| ==> !Marks(q[i])
  }

  predicate Under(p: string, s: set<char>, q: string) {
    |p| < |q| && q[..|p|] == p && q[|p|] in s
  }

  /** `u` with the nodes of `t` that lie below `p` by way of `s`. */
  ghost function Grown(u: Trie, t: Trie, p: string, s: set<char>): Trie {
    map q | q in u.Keys + t.Keys && (q in u || Under(p, s, q)) :: if q in t && Under(p, s, q) then t[q] else u[q]
  }

  lemma {:induction false} PrefixIn(t: Trie, q: string, n: nat)
    requires Closed(t) && q in t && n <= |q|
    ensures q[..n] in t
    decreases |q|
  {
    if n < |q| {
      PrefixIn(t, q[..|q| - 1], n);
      assert q[..|q| - 1][..n] == q[..n];
    } else {
      assert q[..n] == q;
    }
  }

  /** What lies below `p` by way of `c` is the node there and what lies below it. */
  lemma Regrow(u: Trie, t: Trie, p: string, c: char)
    requires Closed(t) && p + [c] in t && forall r :: r in u ==> !Under(p, {c}, r)
    ensures var q := p + [c];
      && q !in u && (forall r :: r in u[q := t[q]] ==> !Under(q, Kids(t, q), r))
      && Grown(u[q := t[q]], t, q, Kids(t, q)) == Grown(u, t, p, {c})
  {
    var q, s := p + [c], Kids(t, p + [c]);
    forall r ensures Under(q, s, r) ==> Under(p, {c}, r) {
      UnderFurther(p, c, s, r);
    }
    forall r | r in t ensures Under(p, {c}, r) <==> r == q || Under(q, s, r) {
      UnderIs(t, p, c, r);
    }
    UnderFurther(p, c, s, q);
    RegrowSame(u, t, p, c, s);
  }

  lemma RegrowSame(u: Trie, t: Trie, p: string, c: char, s: set<char>)
    requires p + [c] in t && p + [c] !in u
    requires forall r :: Under(p + [c], s, r) ==> Under(p, {c}, r)
    requires forall r :: r in t ==> (Under(p, {c}, r) <==> r == p + [c] || Under(p + [c], s, r))
    requires forall r :: r in u ==> !Under(p, {c}, r)
    ensures Grown(u[p + [c] := t[p + [c]]], t, p + [c], s) == Grown(u, t, p, {c})
  {
  }

  lemma UnderFurther(p: string, c: char, s: set<char>, r: string)
    ensures Under(p + [c], s, r) ==> Under(p, {c}, r)
    ensures Under(p, {c}, p + [c]) && !Under(p + [c], s, p + [c])
  {
    var q := p + [c];
    if Under(q, s, r) {
      assert r[..|q|][..|p|] == r[..|p|] && q[..|p|] == p && r[..|q|][|p|] == r[|p|] && q[|p|] == c;
    }
  }

  lemma UnderIs(t: Trie, p: string, c: char, r: string)
    requires Closed(t) && r in t
    ensures Under(p, {c}, r) <==> r == p + [c] || Under(p + [c], Kids(t, p + [c]), r)
  {
    var q := p + [c];
    UnderFurther(p, c, Kids(t, q), r);
    if Under(p, {c}, r) {
      UnderSplits(p, c, r);
      if |r| > |q| { PrefixIn(t, r, |q| + 1); }
    }
  }

  lemma UnderSplits(p: string, c: char, r: string)
    requires Under(p, {c}, r)
    ensures var q := p + [c];
      r[..|q|] == q && (|r| > |q| ==> r[..|q| + 1] == q + [r[|q|]]) && (|r| == |q| ==> r == q)
  {
    assert r[..|p| + 1] == r[..|p|] + [r[|p|]];
    assert |r| == |p| + 1 ==> r[..|p| + 1] == r;
  }

  lemma WalkOne(u: Trie, p: string, c: char, v: Option<bool>)
    requires p + [c] !in u
    ensures SetValue(Walk(u, p, [c]), p + [c], v) == u[p + [c] := v]
  {
    assert [c][1..] == "";
  }

  lemma WalkFirst(u: Trie, p: string, c: char, d: Doc)
    requires p + [c] !in u
    ensures Apply(u, p, Doc([c] + d.edge, d.value, d.kids)) == Apply(u[p + [c] := None], p + [c], d)
  {
    assert ([c] + d.edge)[1..] == d.edge;
    assert p + ([c] + d.edge) == p + [c] + d.edge;
  }

  /** Applying the text of a child adds exactly the nodes below it, with their values. */
  lemma {:induction false} DocApplied(u: Trie, t: Trie, p: string, c: char)
    requires Closed(t) && p + [c] in t && forall r :: r in u ==> !Under(p, {c}, r)
    ensures Apply(u, p, DocFor(t, p, c)) == Grown(u, t, p, {c})
    decreases |Below(t, p + [c])|, 1, 0
  {
    var q := p + [c];
    assert Under(p, {c}, q);
    Regrow(u, t, p, c);
    if t[q].None? && |Kids(t, q)| == 1 {
      var x := Pick(Kids(t, q));
      BelowShrinks(t, q, x);
      WalkFirst(u, p, c, DocFor(t, q, x));
      DocApplied(u[q := None], t, q, x);
    } else {
      WalkOne(u, p, c, t[q]);
      KidsApplied(u[q := t[q]], t, q, Kids(t, q));
    }
  }

  lemma {:induction false} KidsApplied(u: Trie, t: Trie, p: string, s: set<char>)
    requires Closed(t) && p in t && (forall c :: c in s ==> p + [c] in t) && forall r :: r in u ==> !Under(p, s, r)
    ensures ApplyKids(u, p, KidDocs(t, p, s)) == Grown(u, t, p, s)
    decreases |Below(t, p)|, 0, |s|
  {
    if s != {} {
      var c := Pick(s);
      BelowShrinks(t, p, c);
      GrowMore(u, t, p, c, s);
      DocApplied(u, t, p, c);
      KidsApplied(Grown(u, t, p, {c}), t, p, s - {c});
      KidsJoin(u, t, p, s, Grown(u, t, p, {c}));
    } else {
      NothingGrown(u, t, p);
    }
  }

  lemma NothingGrown(u: Trie, t: Trie, p: string)
    ensures Grown(u, t, p, {}) == u
  {
  }

  lemma KidsJoin(u: Trie, t: Trie, p: string, s: set<char>, v: Trie)
    requires p in t && s != {} && forall c :: c in s ==> p + [c] in t
    requires var c := Pick(s);
      && v == Apply(u, p, DocFor(t, p, c)) && Grown(v, t, p, s - {c}) == Grown(u, t, p, s)
      && ApplyKids(v, p, KidDocs(t, p, s - {c})) == Grown(v, t, p, s - {c})
    ensures ApplyKids(u, p, KidDocs(t, p, s)) == Grown(u, t, p, s)
  {
    KidsPicked(u, t, p, s);
  }

  lemma KidsPicked(u: Trie, t: Trie, p: string, s: set<char>)
    requires p in t && s != {} && forall c :: c in s ==> p + [c] in t
    ensures var c := Pick(s);
      ApplyKids(u, p, KidDocs(t, p, s)) == ApplyKids(Apply(u, p, DocFor(t, p, c)), p, KidDocs(t, p, s - {c}))
  {
    var c := Pick(s);
    assert KidDocs(t, p, s) == [DocFor(t, p, c)] + KidDocs(t, p, s - {c});
    assert KidDocs(t, p, s)[1..] == KidDocs(t, p, s - {c});
  }

  lemma GrowMore(u: Trie, t: Trie, p: string, c: char, s: set<char>)
    requires c in s && forall r :: r in u ==> !Under(p, s, r)
    ensures forall r :: r in u ==> !Under(p, {c}, r)
    ensures forall r :: r in Grown(u, t, p, {c}) ==> !Under(p, s - {c}, r)
    ensures Grown(Grown(u, t, p, {c}), t, p, s - {c}) == Grown(u, t, p, s)
  {
    assert forall r :: Under(p, s, r) <==> Under(p, {c}, r) || Under(p, s - {c}, r);
  }

  lemma AllBelowRoot(t: Trie)
    requires Closed(t)
    ensures Grown(map["" := t[""]], t, "", Kids(t, "")) == t
  {
    forall r | r in t && r != "" ensures Under("", Kids(t, ""), r) {
      PrefixIn(t, r, 1);
      assert r[..1] == "" + [r[0]] && r[..0] == "";
    }
    assert forall r :: Under("", Kids(t, ""), r) ==> r != "";
  }

  lemma ChainApplied(t: Trie, x: char)
    requires Closed(t) && t[""].None? && Kids(t, "") == {x}
    ensures Apply(EMPTY, "", DocFor(t, "", x)) == t
  {
    AllBelowRoot(t);
    NotUnderRoot({x});
    DocApplied(EMPTY, t, "", x);
    assert EMPTY == map["" := t[""]];
  }

  lemma TreeApplied(t: Trie)
    requires Closed(t)
    ensures Apply(EMPTY, "", Doc("", t[""], KidDocs(t, "", Kids(t, "")))) == t
  {
    AllBelowRoot(t);
    NotUnderRoot(Kids(t, ""));
    KidsApplied(map["" := t[""]], t, "", Kids(t, ""));
    RootApplied(t[""], KidDocs(t, "", Kids(t, "")));
  }

  lemma CompressApplied(t: Trie)
    requires Closed(t)
    ensures Apply(EMPTY, "", Compress(t)) == t
  {
    if t[""].None? && |Kids(t, "")| == 1 {
      ChainApplied(t, Pick(Kids(t, "")));
    } else {
      TreeApplied(t);
    }
  }

  lemma NotUnderRoot(s: set<char>)
    ensures !Under("", s, "")
  {
  }

  lemma RootApplied(v: Option<bool>, kids: seq<Doc>)
    ensures Apply(EMPTY, "", Doc("", v, kids)) == ApplyKids(map["" := v], "", kids)
  {
    assert "" + "" == "";
    assert SetValue(EMPTY, "", v) == map["" := v];
  }

  lemma {:induction false} DocPrintable(t: Trie, p: string, c: char)
    requires Compressible(t) && p + [c] in t
    ensures Printable(DocFor(t, p, c))
    decreases |Below(t, p + [c])|, 1, 0
  {
    var q := p + [c];
    assert q[|p|] == c;
    if t[q].None? && |Kids(t, q)| == 1 {
      var x := Pick(Kids(t, q));
      BelowShrinks(t, q, x);
      DocPrintable(t, q, x);
    } else {
      KidDocsPrintable(t, q, Kids(t, q));
    }
  }

  lemma {:induction false} KidDocsPrintable(t: Trie, p: string, s: set<char>)
    requires Compressible(t) && p in t && forall c :: c in s ==> p + [c] in t
    ensures KidsPrintable(KidDocs(t, p, s))
    decreases |Below(t, p)|, 0, |s|
  {
    if s != {} {
      var c := Pick(s);
      BelowShrinks(t, p, c);
      DocPrintable(t, p, c);
      KidDocsPrintable(t, p, s - {c});
      assert KidDocs(t, p, s)[1..] == KidDocs(t, p, s - {c});
    }
  }

  lemma CompressPrintable(t: Trie)
    requires Compressible(t)
    ensures Printable(Compress(t))
  {
    if t[""].None? && |Kids(t, "")| == 1 {
      DocPrintable(t, "", Pick(Kids(t, "")));
    } else {
      KidDocsPrintable(t, "", Kids(t, ""));
    }
  }

  lemma ReadsText(d: Doc, rest: string, t: Trie)
    requires Printable(d) && Apply(EMPTY, "", d) == t
    ensures Read(Render(d) + rest, 0, "", EMPTY) == Some((|Render(d)|, t))
  {
    assert (Render(d) + rest)[0..0 + |Render(d)|] == Render(d);
    ReadsDoc(Render(d) + rest, 0, "", EMPTY, d);
  }

  /** Reading the compressed text of any trie rebuilds that trie and takes exactly that text, whatever follows. */
  lemma ReadsCompressed(t: Trie, rest: string)
    requires Compressible(t)
    ensures var text := Render(Compress(t));
      Read(text + rest, 0, "", EMPTY) == Some((|text|, t))
  {
    CompressPrintable(t);
    CompressApplied(t);
    ReadsText(Compress(t), rest, t);
  }
}
