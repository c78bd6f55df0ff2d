/** The public-suffix trie in memory: built from its compressed text and searched for the longest public suffix. */
module SuffixTrie {
  import opened Collections
  import opened SuffixText
  import opened Wrappers

  /** `er`: a value, if any, and the children by character. */
  class TrieNode {
    var g: Option<bool>
    var N: map<char, TrieNode>

    constructor ()
      ensures g == None && N == map[]
    {
      g, N := None, map[];
    }
  }

  /** What a node holds at some moment. */
  datatype Cell = Cell(g: Option<bool>, kids: map<char, TrieNode>)

  ghost function Cells(nodes: set<TrieNode>): (m: map<TrieNode, Cell>)
    reads nodes
    ensures m.Keys == nodes
  {
    map n | n in nodes :: Cell(n.g, n.N)
  }

  type Names = map<string, TrieNode>

  /** The nodes named by `at`, holding `m`, make up the trie `t`. */
  ghost predicate Shows(at: Names, m: map<TrieNode, Cell>, t: Trie) {
    && at.Keys == t.Keys && Closed(t) && Injective(at) && NodesFit(at, m, t)
    && forall p, c :: p in at ==> Child(at, m[at[p]].kids, t, p, c)
  }

  ghost predicate Injective(at: Names) {
    forall p, q :: p in at && q in at && at[p] == at[q] ==> p == q
  }

  ghost predicate NodesFit(at: Names, m: map<TrieNode, Cell>, t: Trie)
    requires at.Keys == t.Keys
  {
    forall p :: p in at ==> at[p] in m && m[at[p]].g == t[p]
  }

  ghost predicate Child(at: Names, kids: map<char, TrieNode>, t: Trie, p: string, c: char)
    requires at.Keys == t.Keys
  {
    (c in kids <==> p + [c] in t) && (p + [c] in t ==> kids[c] == at[p + [c]])
  }

  /** `Shows`, expanded only where `Expose` is mentioned. */
  ghost predicate Fit(at: Names, m: map<TrieNode, Cell>, t: Trie) {
    forall u {:trigger Expose(u)} :: Expose(u) ==> Shows(at, m, t)
  }

  ghost predicate Expose(u: int) { true }

  lemma Peek(at: Names, m: map<TrieNode, Cell>, t: Trie, p: string, c: char)
    requires Fit(at, m, t) && p in at
    ensures at.Keys == t.Keys && Closed(t) && at[p] in m && m[at[p]].g == t[p] && Child(at, m[at[p]].kids, t, p, c)
  {
    assert Expose(0);
  }

  lemma ValueFit(at: Names, m: map<TrieNode, Cell>, t: Trie, p: string, v: Option<bool>, m': map<TrieNode, Cell>)
    requires Fit(at, m, t) && p in at && at[p] in m && m' == m[at[p] := m[at[p]].(g := v)]
    ensures Fit(at, m', t[p := v])
  {
    assert Expose(0);
    var e := t[p := v];
    ValueClosed(t, p, v);
    ValueNodes(at, m, t, p, v, m');
    forall x, y | x in at ensures Child(at, m'[at[x]].kids, e, x, y) {
      assert Child(at, m[at[x]].kids, t, x, y);
      ValueChild(at, m[at[x]].kids, t, p, v, x, y);
    }
  }

  lemma ValueNodes(at: Names, m: map<TrieNode, Cell>, t: Trie, p: string, v: Option<bool>, m': map<TrieNode, Cell>)
    requires at.Keys == t.Keys == t[p := v].Keys && Injective(at) && NodesFit(at, m, t) && p in at
    requires m' == m[at[p] := m[at[p]].(g := v)]
    ensures NodesFit(at, m', t[p := v]) && forall x :: x in at ==> m'[at[x]].kids == m[at[x]].kids
  {
  }

  lemma ValueClosed(t: Trie, p: string, v: Option<bool>)
    requires Closed(t) && p in t
    ensures Closed(t[p := v]) && t[p := v].Keys == t.Keys
  {
  }

  lemma ValueChild(at: Names, kids: map<char, TrieNode>, t: Trie, p: string, v: Option<bool>, x: string, y: char)
    requires at.Keys == t.Keys == t[p := v].Keys && Child(at, kids, t, x, y)
    ensures Child(at, kids, t[p := v], x, y)
  {
  }

  lemma TouchClosed(t: Trie, p: string, c: char)
    requires Closed(t) && p in t
    ensures Closed(Touch(t, p + [c]))
  {
    assert (p + [c])[..|p + [c]| - 1] == p;
  }

  lemma NothingBelow(t: Trie, q: string, c: char)
    requires Closed(t) && q !in t
    ensures q + [c] !in t
  {
    assert (q + [c])[..|q + [c]| - 1] == q;
  }

  lemma NewChild(at: Names, m: map<TrieNode, Cell>, t: Trie, p: string, c: char, n: TrieNode, m': map<TrieNode, Cell>,
                 x: string, y: char)
    requires at.Keys == t.Keys && Closed(t) && p in at && p + [c] !in t
    requires forall r :: r in at ==> at[r] in m && (at[r] == at[p] ==> r == p)
    requires n !in m && m' == m[at[p] := m[at[p]].(kids := m[at[p]].kids[c := n])][n := Cell(None, map[])]
    requires x in at ==> Child(at, m[at[x]].kids, t, x, y)
    requires x in at || x == p + [c]
    ensures at[p + [c] := n].Keys == t[p + [c] := None].Keys && at[p + [c] := n][x] in m'
    ensures Child(at[p + [c] := n], m'[at[p + [c] := n][x]].kids, t[p + [c] := None], x, y)
  {
    PushIsInjective(x, y, p, c);
    if x == p + [c] { NothingBelow(t, x, y); }
  }

  lemma NewNodes(at: Names, m: map<TrieNode, Cell>, t: Trie, q: string, o: TrieNode, cell: Cell, n: TrieNode)
    requires at.Keys == t.Keys && Injective(at) && NodesFit(at, m, t) && q !in t
    requires n !in m && o in m && cell.g == m[o].g
    ensures at[q := n].Keys == t[q := None].Keys
    ensures Injective(at[q := n]) && NodesFit(at[q := n], m[o := cell][n := Cell(None, map[])], t[q := None])
  {
  }

  lemma NewFit(at: Names, m: map<TrieNode, Cell>, t: Trie, p: string, c: char, n: TrieNode, m': map<TrieNode, Cell>)
    requires Fit(at, m, t) && p in at && p + [c] !in t && at[p] in m && n !in m
    requires m' == m[at[p] := m[at[p]].(kids := m[at[p]].kids[c := n])][n := Cell(None, map[])]
    ensures Fit(at[p + [c] := n], m', t[p + [c] := None])
  {
    assert Expose(0);
    TouchClosed(t, p, c);
    NewNodes(at, m, t, p + [c], at[p], m[at[p]].(kids := m[at[p]].kids[c := n]), n);
    var at', e := at[p + [c] := n], t[p + [c] := None];
    forall x, y | x in at' ensures Child(at', m'[at'[x]].kids, e, x, y) {
      if x in at { assert Child(at, m[at[x]].kids, t, x, y); }
      NewChild(at, m, t, p, c, n, m', x, y);
    }
  }

  ghost predicate Extends(at: Names, at': Names) {
    forall p :: p in at ==> p in at' && at'[p] == at[p]
  }

  // ---- Building ----

  method AddChild(c: TrieNode, e: char, ghost nodes: set<TrieNode>) returns (n: TrieNode)
    requires c in nodes
    modifies c
    ensures var m := old(Cells(nodes));
      if e in m[c].kids then n == m[c].kids[e] && Cells(nodes) == m
      else (n !in nodes && fresh(n)
            && Cells(nodes + {n}) == m[c := m[c].(kids := m[c].kids[e := n])][n := Cell(None, map[])])
  {
    if e !in c.N {
      var fresh' := new TrieNode();
      c.N := c.N[e := fresh'];
    }
    n := c.N[e];
  }

  /** The child of `c` under `e`, made on the way if it is missing. */
  method Down(c: TrieNode, e: char, ghost p: string, ghost at: Names, ghost t: Trie)
    returns (n: TrieNode, ghost at': Names)
    requires Fit(at, Cells(at.Values), t) && p in at && at[p] == c
    modifies c
    ensures Fit(at', Cells(at'.Values), Touch(t, p + [e])) && p + [e] in at' && at'[p + [e]] == n
    ensures Extends(at, at') && fresh(at'.Values - at.Values)
  {
    ghost var m := Cells(at.Values);
    Peek(at, m, t, p, e);
    n := AddChild(c, e, at.Values);
    at' := at;
    if p + [e] !in t {
      at' := at[p + [e] := n];
      NewValue(at, p + [e], n);
      NewFit(at, m, t, p, e, n, Cells(at'.Values));
    }
  }

  method SetMark(c: TrieNode, v: bool, ghost p: string, ghost at: Names, ghost t: Trie)
    requires Fit(at, Cells(at.Values), t) && p in at && at[p] == c
    modifies c
    ensures Fit(at, Cells(at.Values), t[p := Some(v)])
  {
    ghost var m := Cells(at.Values);
    Peek(at, m, t, p, 'a');
    c.g := Some(v);
    ValueFit(at, m, t, p, Some(v), Cells(at.Values));
  }

  /** The loop over an edge's characters: where it stops, and at which node. */
  method ReadEdge(from: nat, b: string, start: TrieNode, ghost p0: string, ghost at: Names, ghost t0: Trie)
    returns (a: nat, c: TrieNode, ghost p: string, ghost at': Names, ghost t: Trie)
    requires from <= |b| && Fit(at, Cells(at.Values), t0) && p0 in at && at[p0] == start
    modifies at.Values
    ensures ReadLabel(b, from, p0, t0) == Stop(a, p, t)
    ensures Fit(at', Cells(at'.Values), t) && p in at' && at'[p] == c
    ensures Extends(at, at') && fresh(at'.Values - at.Values)
  {
    a, c, p, at', t := from, start, p0, at, t0;
    while a < |b|
      invariant from <= a <= |b| && ReadLabel(b, a, p, t) == ReadLabel(b, from, p0, t0)
      invariant Fit(at', Cells(at'.Values), t) && p in at' && at'[p] == c
      invariant Extends(at, at') && fresh(at'.Values - at.Values)
    {
      var d := b[a];
      assert c in at'.Values;
      if d == '!' || d == '?' {
        SetMark(c, true, p, at', t);
        t := t[p := Some(true)];
        return;
      } else if d == ':' || d == ',' {
        SetMark(c, false, p, at', t);
        t := t[p := Some(false)];
        return;
      } else if d == '&' {
        return;
      }
      ghost var more: Names;
      c, more := Down(c, d, p, at', t);
      at', p, t := more, p + [d], Touch(t, p + [d]);
      a := a + 1;
    }
  }

  /** `jr`: reads one node's text; None where the code would recurse without end. */
  method ReadNode(from: nat, b: string, start: TrieNode, ghost p0: string, ghost at: Names, ghost t0: Trie)
    returns (r: Option<nat>, ghost at': Names, ghost t: Trie)
    requires from <= |b| && Fit(at, Cells(at.Values), t0) && p0 in at && at[p0] == start
    modifies at.Values
    ensures Extends(at, at') && fresh(at'.Values - at.Values)
    ensures r.None? ==> Read(b, from, p0, t0) == None
    ensures r.Some? ==> Read(b, from, p0, t0) == Some((r.value, t)) && Fit(at', Cells(at'.Values), t)
    decreases |b| - from, 0
  {
    var a, c;
    ghost var p;
    a, c, p, at', t := ReadEdge(from, b, start, p0, at, t0);
    if a == |b| { return None, at', t; }
    var d := b[a];
    a := a + 1;
    if d == '?' || d == ',' { return Some(a), at', t; }
    ghost var more: Names;
    r, more, t := ReadChildren(a, b, c, p, at', t);
    at' := more;
  }

  /** The loop of `jr` over the children of a node, up to the mark that closes them. */
  method ReadChildren(from: nat, b: string, c: TrieNode, ghost p: string, ghost at: Names, ghost t0: Trie)
    returns (r: Option<nat>, ghost at': Names, ghost t: Trie)
    requires from <= |b| && Fit(at, Cells(at.Values), t0) && p in at && at[p] == c
    modifies at.Values
    ensures Extends(at, at') && fresh(at'.Values - at.Values)
    ensures r.None? ==> ReadKids(b, from, p, t0) == None
    ensures r.Some? ==> ReadKids(b, from, p, t0) == Some((r.value, t)) && Fit(at', Cells(at'.Values), t)
    decreases |b| - from, 1
  {
    var a := from;
    at', t := at, t0;
    while true
      invariant from <= a <= |b| && ReadKids(b, a, p, t) == ReadKids(b, from, p, t0)
      invariant Fit(at', Cells(at'.Values), t) && p in at' && at'[p] == c
      invariant Extends(at, at') && fresh(at'.Values - at.Values)
      decreases |b| - a
    {
      ghost var more: Names, u: Trie;
      r, more, u := ReadNode(a, b, c, p, at', t);
      if r.None? { return None, more, u; }
      NextKid(b, a, p, t, r.value, u);
      at', t, a := more, u, r.value;
      if a == |b| { return None, at', t; }
      if b[a] == '?' || b[a] == ',' { return Some(a + 1), at', t; }
    }
  }

  lemma NextKid(b: string, a: nat, p: string, t: Trie, n: nat, u: Trie)
    requires a <= |b| && Read(b, a, p, t) == Some((n, u))
    ensures ReadKids(b, a, p, t) ==
      if n == |b| then None else if Ends(b[n]) then Some((n + 1, u)) else ReadKids(b, n, p, u)
  {
  }

  /** `ir`: a fresh root and the text read into it. */
  method BuildTrie(b: string) returns (root: TrieNode, ok: bool, ghost at: Names, ghost t: Trie)
    ensures ok <==> Read(b, 0, "", EMPTY).Some?
    ensures ok ==> Read(b, 0, "", EMPTY).value.1 == t && Fit(at, Cells(at.Values), t) && "" in at && at[""] == root
    ensures fresh(at.Values)
  {
    root := new TrieNode();
    at := map["" := root];
    assert at[""] in at.Values;
    EmptyFit(at, Cells(at.Values), root);
    var r;
    ghost var more: Names;
    r, more, t := ReadNode(0, b, root, "", at, EMPTY);
    at := more;
    ok := r.Some?;
  }

  lemma EmptyFit(at: Names, m: map<TrieNode, Cell>, root: TrieNode)
    requires at == map["" := root] && root in m && m[root] == Cell(None, map[])
    ensures Fit(at, m, EMPTY)
  {
    assert at.Keys == {""} == EMPTY.Keys;
    forall p, c | p in at ensures Child(at, m[at[p]].kids, EMPTY, p, c) {
      assert p + [c] != "";
    }
  }

  // ---- Searching ----

  /** The first `n` characters of a host end at a label boundary. */
  predicate Boundary(b: string, n: nat)
    requires n <= |b|
  {
    n == |b| || b[n] == '.'
  }

  /** The first `n` characters of a reversed host are a stored public suffix. */
  ghost predicate PublicSuffix(t: Trie, b: string, n: nat) {
    0 < n <= |b| && b[..n] in t && t[b[..n]] == Some(true) && Boundary(b, n)
  }

  ghost predicate Longest(t: Trie, b: string, n: nat) {
    (n == 0 || PublicSuffix(t, b, n)) && forall k: nat :: PublicSuffix(t, b, k) ==> k <= n
  }

  /** `Xq`. */
  method FindSuffix(root: TrieNode, b: string, ghost at: Names, ghost t: Trie) returns (r: string)
    requires Fit(at, Cells(at.Values), t) && "" in at && at[""] == root
    ensures "" in t && r <= b
    ensures Longest(t, b, |r|) <==> !RootInTheWay(t, b)
    ensures RootInTheWay(t, b) ==> |r| == 1
  {
    ghost var m := Cells(at.Values);
    Peek(at, m, t, "", 'a');
    var d, marks: map<nat, bool>, e := root, map[], 0;
    if d.g.Some? { marks := marks[0 := d.g.value]; }
    assert b[..0] == "";
    while e < |b|
      invariant 0 <= e <= |b| && b[..e] in at && at[b[..e]] == d
      invariant MarksAre(marks, t, b, e)
    {
      var f := b[e];
      Peek(at, m, t, b[..e], f);
      assert m[d] == Cell(d.g, d.N);
      assert b[..e] + [f] == b[..e + 1];
      if f !in d.N { break; }
      d := d.N[f];
      Peek(at, m, t, b[..e + 1], f);
      assert m[d] == Cell(d.g, d.N);
      ghost var before := marks;
      if d.g.Some? { marks := marks[e := d.g.value]; }
      MarksStep(before, t, b, e);
      e := e + 1;
    }
    if e < |b| { NoLongerNodes(t, b, e); }
    var c := BestMark(marks, b);
    r := b[..c + 1];
    BestIsLongest(marks, t, b, e, c);
  }

  predicate HasMark(marks: map<nat, bool>, i: nat, v: bool) { i in marks && marks[i] == v }

  ghost predicate MarksAre(marks: map<nat, bool>, t: Trie, b: string, e: nat)
    requires "" in t && e <= |b|
  {
    forall i: nat, v :: HasMark(marks, i, v) <==> MarkedUpTo(t, b, e, i, v)
  }

  lemma MarksStep(marks: map<nat, bool>, t: Trie, b: string, e: nat)
    requires "" in t && e < |b| && MarksAre(marks, t, b, e) && b[..e + 1] in t
    ensures MarksAre(if t[b[..e + 1]].Some? then marks[e := t[b[..e + 1]].value] else marks, t, b, e + 1)
  {
    var v := t[b[..e + 1]];
    var marks' := if v.Some? then marks[e := v.value] else marks;
    forall i: nat, w ensures HasMark(marks', i, w) <==> MarkedUpTo(t, b, e + 1, i, w) {
      assert HasMark(marks, i, w) <==> MarkedUpTo(t, b, e, i, w);
    }
  }

  lemma PrefixOf(t: Trie, b: string, k: nat, n: nat)
    requires Closed(t) && n <= k <= |b|
    ensures b[..k] in t ==> b[..n] in t
  {
    if b[..k] in t {
      PrefixIn(t, b[..k], n);
      assert b[..k][..n] == b[..n];
    }
  }

  lemma NoLongerNodes(t: Trie, b: string, e: nat)
    requires Closed(t) && e < |b| && b[..e + 1] !in t
    ensures forall k :: e < k <= |b| ==> b[..k] !in t
  {
    forall k | e < k <= |b| ensures b[..k] !in t {
      PrefixOf(t, b, k, e + 1);
    }
  }

  lemma BestIsLongest(marks: map<nat, bool>, t: Trie, b: string, e: nat, c: int)
    requires "" in t && e <= |b| && MarksAre(marks, t, b, e) && forall k :: e < k <= |b| ==> b[..k] !in t
    requires -1 <= c < |b| && (c >= 0 ==> c in marks && marks[c] && Boundary(b, c + 1))
    requires forall i: nat :: i in marks && marks[i] && i < |b| && Boundary(b, i + 1) ==> i <= c
    ensures Longest(t, b, c + 1) <==> !RootInTheWay(t, b)
    ensures RootInTheWay(t, b) ==> c == 0
  {
    forall k: nat | PublicSuffix(t, b, k) ensures k <= c + 1 {
      assert HasMark(marks, k - 1, true) <==> MarkedUpTo(t, b, e, k - 1, true);
    }
    if c >= 0 { assert HasMark(marks, c, true) <==> MarkedUpTo(t, b, e, c, true); }
    assert HasMark(marks, 0, true) <==> MarkedUpTo(t, b, e, 0, true);
  }

  /** The marks gathered by position after `e` characters; the root's own value is filed under position 0. */
  ghost predicate MarkedUpTo(t: Trie, b: string, e: nat, i: nat, v: bool)
    requires "" in t && e <= |b|
  {
    || (i < e && b[..i + 1] in t && t[b[..i + 1]] == Some(v))
    || (i == 0 && t[""] == Some(v) && !(e > 0 && b[..1] in t && t[b[..1]].Some?))
  }

  /** The root's value is true, and counts for a first label of one character that has no value of its own. */
  ghost predicate RootInTheWay(t: Trie, b: string)
    requires "" in t
  {
    && t[""] == Some(true) && b != "" && Boundary(b, 1) && !(b[..1] in t && t[b[..1]].Some?)
    && forall k: nat :: !PublicSuffix(t, b, k)
  }

  /** In a trie read from a text like the client's, the root's value is never in the way. */
  lemma RootIsNeverInTheWay(text: string, b: string)
    requires RootUnset(text) && Read(text, 0, "", EMPTY).Some?
    ensures var t := Read(text, 0, "", EMPTY).value.1; "" in t && !RootInTheWay(t, b)
  {
    RootStaysUnset(text);
  }

  /** A text of another kind: a root that is a public suffix itself is taken for one of one character. */
  lemma RootCanBeInTheWay()
    ensures Read("?", 0, "", EMPTY) == Some((1, map["" := Some(true)]))
    ensures RootInTheWay(map["" := Some(true)], "a") && !Longest(map["" := Some(true)], "a", 1)
  {
    var t: Trie := map["" := Some(true)];
    assert EMPTY["" := Some(true)] == t;
    assert ReadLabel("?", 0, "", EMPTY) == Stop(0, "", t);
    assert "a"[..1] == "a" && "a" !in t;
    assert forall k: nat :: PublicSuffix(t, "a", k) ==> k == 1;
  }

  /** The last marked position, if any, whose mark is true and that ends at a boundary. */
  method BestMark(marks: map<nat, bool>, b: string) returns (c: int)
    ensures -1 <= c < |b|
    ensures c >= 0 ==> c in marks && marks[c] && Boundary(b, c + 1)
    ensures forall i: nat :: i in marks && marks[i] && i < |b| && Boundary(b, i + 1) ==> i <= c
  {
    c := -1;
    var keys := marks.Keys;
    while keys != {}
      invariant keys <= marks.Keys && -1 <= c < |b|
      invariant c >= 0 ==> c in marks && marks[c] && Boundary(b, c + 1)
      invariant forall i: nat :: i in marks && i !in keys && marks[i] && i < |b| && Boundary(b, i + 1) ==> i <= c
      decreases |keys|
    {
      var d :| d in keys;
      keys := keys - {d};
      if (d + 1 == |b| || (d + 1 < |b| && b[d + 1] == '.')) && marks[d] && d > c { c := d; }
    }
  }
}
