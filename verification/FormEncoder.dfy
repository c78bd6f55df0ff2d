/** The encoder that writes form fields into a growing tree of objects and arrays. */
module FormEncoder {
  import opened Collections
  import opened FieldPaths
  import opened Wrappers

  /** A form value: a text, the state of a checkbox, or the texts of a repeated field. */
  datatype Value = Text(text: string) | Checked(on: bool) | Many(texts: seq<string>)

  // ---- The tree as values ----

  /** A tree by its paths: the value at each leaf, and what each inner node is. */
  datatype Doc = Doc(leaves: map<Path, Value>, kinds: map<Path, Kind>)

  function EmptyDoc(): Doc {
    Doc(map[], map[[] := Object])
  }

  /** Makes sure there is an inner node at `p`. */
  function Extend(d: Doc, p: Path, kind: Kind): Doc {
    if p in d.kinds then d else d.(kinds := d.kinds[p := kind])
  }

  /** `Extend` for the first `n` keys of a path, each with the kind its next key asks for. */
  function ExtendTo(d: Doc, path: Path, n: nat): Doc
    requires n < |path|
  {
    if n == 0 then d else Extend(ExtendTo(d, path, n - 1), path[..n], path[n].Kind())
  }

  function Put(d: Doc, path: Path, v: Value): Doc
    requires path != []
  {
    var e := ExtendTo(d, path, |path| - 1);
    e.(leaves := e.leaves[path := v])
  }

  /** The path does not run through a leaf and does not end at an inner node. */
  predicate Fits(d: Doc, path: Path) {
    path != [] && path !in d.kinds && forall n :: 0 <= n < |path| ==> path[..n] !in d.leaves
  }

  predicate WellFormedDoc(d: Doc) {
    && [] in d.kinds && [] !in d.leaves
    && (forall p :: p in d.leaves ==> p !in d.kinds && p[..|p| - 1] in d.kinds)
    && forall p :: p in d.kinds && p != [] ==> p[..|p| - 1] in d.kinds
  }

  // ---- The tree in memory ----

  datatype Slot = Leaf(value: Value) | Sub(node: Container)

  /** An object or an array of the result. */
  class Container {
    const kind: Kind
    var entries: map<Key, Slot>

    constructor (kind: Kind)
      ensures this.kind == kind && entries == map[]
    {
      this.kind, entries := kind, map[];
    }
  }

  /** Writes a last step's value, or finds or makes the node for the next step; None stands for undefined. */
  method SetValueFromPath(context: Container, step: Step, value: Value) returns (r: Option<Slot>)
    modifies context
    ensures step.last ==> context.entries == old(context.entries)[step.key := Leaf(value)] && r == Some(Leaf(value))
    ensures !step.last && step.key in old(context.entries) ==>
      context.entries == old(context.entries) && r == Some(old(context.entries)[step.key])
    ensures !step.last && step.key !in old(context.entries) && step.next.Some? ==>
      && r.Some? && r.value.Sub? && fresh(r.value.node)
      && r.value.node.kind == step.next.value && r.value.node.entries == map[]
      && context.entries == old(context.entries)[step.key := r.value]
    ensures !step.last && step.key !in old(context.entries) && step.next.None? ==>
      r == None && context.entries == old(context.entries)
  {
    if step.last {
      context.entries := context.entries[step.key := Leaf(value)];
    }
    if step.key !in context.entries {
      if step.next.None? { return None; }
      var node := new Container(step.next.value);
      context.entries := context.entries[step.key := Sub(node)];
      return Some(Sub(node));
    }
    return Some(context.entries[step.key]);
  }

  /** What the nodes hold at some moment. */
  ghost function Contents(nodes: set<Container>): (m: map<Container, map<Key, Slot>>)
    reads nodes
    ensures m.Keys == nodes
  {
    map n | n in nodes :: n.entries
  }

  /** The nodes at the paths `at`, holding `m`, make up the tree `d`. */
  ghost predicate Shows(at: map<Path, Container>, m: map<Container, map<Key, Slot>>, d: Doc) {
    && at.Keys == d.kinds.Keys && WellFormedDoc(d) && Injective(at) && NodesFit(at, m, d)
    && forall p, k :: p in at ==> Holds(at, m[at[p]], d, p, k)
  }

  ghost predicate Injective(at: map<Path, Container>) {
    forall p, q :: p in at && q in at && at[p] == at[q] ==> p == q
  }

  ghost predicate NodesFit(at: map<Path, Container>, m: map<Container, map<Key, Slot>>, d: Doc)
    requires at.Keys == d.kinds.Keys
  {
    forall p :: p in at ==> at[p] in m && at[p].kind == d.kinds[p]
  }

  /** What the node at `p` has under the key `k`. */
  ghost predicate Holds(at: map<Path, Container>, entries: map<Key, Slot>, d: Doc, p: Path, k: Key)
    requires at.Keys == d.kinds.Keys
  {
    var q := p + [k];
    && (k in entries <==> q in d.leaves || q in d.kinds)
    && (q in d.leaves ==> q !in d.kinds && entries[k] == Leaf(d.leaves[q]))
    && (q in d.kinds ==> entries[k] == Sub(at[q]))
  }

  lemma ExtendShows(at: map<Path, Container>, m: map<Container, map<Key, Slot>>, d: Doc,
                    p: Path, k: Key, n: Container, m': map<Container, map<Key, Slot>>)
    requires Shows(at, m, d) && p in at && p + [k] !in d.kinds && p + [k] !in d.leaves
    requires n !in m && m' == m[at[p] := m[at[p]][k := Sub(n)]][n := map[]]
    ensures Shows(at[p + [k] := n], m', Extend(d, p + [k], n.kind))
  {
    ExtendWellFormed(d, p, k, n.kind);
    ExtendNodes(at, m, d, p + [k], n, m');
    var at', e := at[p + [k] := n], Extend(d, p + [k], n.kind);
    forall x, y | x in at' ensures Holds(at', m'[at'[x]], e, x, y) {
      if x in at { assert Holds(at, m[at[x]], d, x, y); }
      ExtendHolds(at, m, d, p, k, n, m', x, y);
    }
  }

  lemma ExtendNodes(at: map<Path, Container>, m: map<Container, map<Key, Slot>>, d: Doc,
                    q: Path, n: Container, m': map<Container, map<Key, Slot>>)
    requires at.Keys == d.kinds.Keys && Injective(at) && NodesFit(at, m, d) && q !in d.kinds
    requires n !in m && m.Keys <= m'.Keys && n in m'
    ensures at[q := n].Keys == Extend(d, q, n.kind).kinds.Keys
    ensures Injective(at[q := n]) && NodesFit(at[q := n], m', Extend(d, q, n.kind))
  {
  }

  lemma ExtendWellFormed(d: Doc, p: Path, k: Key, kind: Kind)
    requires WellFormedDoc(d) && p in d.kinds && p + [k] !in d.leaves
    ensures WellFormedDoc(Extend(d, p + [k], kind))
  {
    assert (p + [k])[..|p + [k]| - 1] == p;
  }

  lemma ExtendHolds(at: map<Path, Container>, m: map<Container, map<Key, Slot>>, d: Doc,
                    p: Path, k: Key, n: Container, m': map<Container, map<Key, Slot>>, x: Path, y: Key)
    requires at.Keys == d.kinds.Keys && WellFormedDoc(d) && p in at && p + [k] !in d.kinds && p + [k] !in d.leaves
    requires forall r :: r in at ==> at[r] in m && (at[r] == at[p] ==> r == p)
    requires n !in m && m' == m[at[p] := m[at[p]][k := Sub(n)]][n := map[]]
    requires x in at ==> Holds(at, m[at[x]], d, x, y)
    requires x in at || x == p + [k]
    ensures at[p + [k] := n].Keys == Extend(d, p + [k], n.kind).kinds.Keys && at[p + [k] := n][x] in m'
    ensures Holds(at[p + [k] := n], m'[at[p + [k] := n][x]], Extend(d, p + [k], n.kind), x, y)
  {
    if x == p + [k] {
      NothingBelow(d, x, y);
    } else {
      PushIsInjective(x, y, p, k);
      var q, e := p + [k], Extend(d, p + [k], n.kind);
      assert at[q := n][x] == at[x] && e.leaves == d.leaves;
      assert x + [y] in e.kinds <==> x + [y] in d.kinds || x + [y] == q;
      assert m'[at[x]] == if x == p then m[at[p]][k := Sub(n)] else m[at[x]];
    }
  }

  lemma NothingBelow(d: Doc, q: Path, k: Key)
    requires WellFormedDoc(d) && q !in d.kinds
    ensures q + [k] !in d.kinds && q + [k] !in d.leaves
  {
    assert (q + [k])[..|q + [k]| - 1] == q;
  }

  lemma LeafShows(at: map<Path, Container>, m: map<Container, map<Key, Slot>>, d: Doc,
                  p: Path, k: Key, v: Value, m': map<Container, map<Key, Slot>>)
    requires Shows(at, m, d) && p in at && p + [k] !in d.kinds
    requires m' == m[at[p] := m[at[p]][k := Leaf(v)]]
    ensures Shows(at, m', d.(leaves := d.leaves[p + [k] := v]))
  {
    var q := p + [k];
    var e := d.(leaves := d.leaves[q := v]);
    LeafWellFormed(d, p, k, v);
    forall x, y | x in at ensures Holds(at, m'[at[x]], e, x, y) {
      assert Holds(at, m[at[x]], d, x, y);
      PushIsInjective(x, y, p, k);
    }
  }

  lemma LeafWellFormed(d: Doc, p: Path, k: Key, v: Value)
    requires WellFormedDoc(d) && p in d.kinds && p + [k] !in d.kinds
    ensures WellFormedDoc(d.(leaves := d.leaves[p + [k] := v]))
  {
    assert (p + [k])[..|p + [k]| - 1] == p;
  }

  /** `Shows`, expanded only where `Expose` is mentioned. */
  ghost predicate Fit(at: map<Path, Container>, m: map<Container, map<Key, Slot>>, d: Doc) {
    forall u {:trigger Expose(u)} :: Expose(u) ==> Shows(at, m, d)
  }

  ghost predicate Expose(u: int) { true }

  lemma Peek(at: map<Path, Container>, m: map<Container, map<Key, Slot>>, d: Doc, p: Path, k: Key)
    requires Fit(at, m, d) && p in at
    ensures [] in at && at.Keys == d.kinds.Keys && at[p] in m && Holds(at, m[at[p]], d, p, k)
  {
    assert Expose(0);
  }

  lemma ExtendFit(at: map<Path, Container>, m: map<Container, map<Key, Slot>>, d: Doc,
                  p: Path, k: Key, n: Container, m': map<Container, map<Key, Slot>>)
    requires Fit(at, m, d) && p in at && p + [k] !in d.kinds && p + [k] !in d.leaves
    requires at[p] in m && n !in m && m' == m[at[p] := m[at[p]][k := Sub(n)]][n := map[]]
    ensures Fit(at[p + [k] := n], m', Extend(d, p + [k], n.kind))
  {
    assert Expose(0);
    ExtendShows(at, m, d, p, k, n, m');
  }

  lemma LeafFit(at: map<Path, Container>, m: map<Container, map<Key, Slot>>, d: Doc,
                p: Path, k: Key, v: Value, m': map<Container, map<Key, Slot>>)
    requires Fit(at, m, d) && p in at && p + [k] !in d.kinds
    requires at[p] in m && m' == m[at[p] := m[at[p]][k := Leaf(v)]]
    ensures Fit(at, m', d.(leaves := d.leaves[p + [k] := v]))
  {
    assert Expose(0);
    LeafShows(at, m, d, p, k, v, m');
  }

  /** The same, said of what all `nodes` hold. */
  method SetAmong(context: Container, step: Step, value: Value, ghost nodes: set<Container>) returns (r: Option<Slot>)
    requires context in nodes && (step.last || step.next.Some?)
    modifies context
    ensures var m, k := old(Contents(nodes)), step.key;
      if step.last then Contents(nodes) == m[context := m[context][k := Leaf(value)]]
      else if k in m[context] then Contents(nodes) == m && r == Some(m[context][k])
      else
        && r.Some? && r.value.Sub? && r.value.node !in nodes && r.value.node.kind == step.next.value
        && Contents(nodes + {r.value.node}) == m[context := m[context][k := r.value]][r.value.node := map[]]
    ensures !step.last && step.key !in old(context.entries) ==> r.Some? && r.value.Sub? && fresh(r.value.node)
  {
    r := SetValueFromPath(context, step, value);
  }

  /** One step of a field's path, on the nodes `at` that make up the tree `d`. */
  method Advance(context: Container, step: Step, value: Value,
                 ghost at: map<Path, Container>, ghost d: Doc, ghost p: Path)
    returns (r: Option<Slot>, ghost at': map<Path, Container>, ghost d': Doc)
    requires Fit(at, Contents(at.Values), d) && p in at && at[p] == context && [] in at
    requires step.last ==> p + [step.key] !in d.kinds
    requires !step.last ==> step.next.Some? && p + [step.key] !in d.leaves
    modifies context
    ensures Fit(at', Contents(at'.Values), d') && [] in at' && at'[[]] == at[[]]
    ensures fresh(at'.Values - at.Values)
    ensures step.last ==> d' == d.(leaves := d.leaves[p + [step.key] := value])
    ensures !step.last ==>
      && d' == Extend(d, p + [step.key], step.next.value)
      && p + [step.key] in at' && r == Some(Sub(at'[p + [step.key]]))
  {
    ghost var q, m := p + [step.key], Contents(at.Values);
    Peek(at, m, d, p, step.key);
    r := SetAmong(context, step, value, at.Values);
    at', d' := at, d;
    if step.last {
      d' := d.(leaves := d.leaves[q := value]);
      LeafFit(at, m, d, p, step.key, value, Contents(at.Values));
    } else if q !in d.kinds {
      at', d' := at[q := r.value.node], Extend(d, q, step.next.value);
      NewValue(at, q, r.value.node);
      ExtendFit(at, m, d, p, step.key, r.value.node, Contents(at'.Values));
    }
  }

  lemma StepsFit(d: Doc, path: Path, n: nat)
    requires Fits(d, path) && n < |path|
    ensures ExtendTo(d, path, n).leaves == d.leaves && path !in ExtendTo(d, path, n).kinds
    ensures path[..n] + [path[n]] == path[..n + 1]
    ensures n + 1 == |path| ==> path[..n + 1] == path
  {
    if n > 0 { StepsFit(d, path, n - 1); }
  }

  /** One step of that walk, after `i` of them. */
  method PutStep(context: Container, step: Step, value: Value,
                 ghost at: map<Path, Container>, ghost e: Doc, ghost d: Doc, ghost path: Path, ghost i: nat)
    returns (r: Option<Slot>, ghost at': map<Path, Container>, ghost e': Doc)
    requires Fits(d, path) && i < |path| && step == StepsOf(path)[i] && e == ExtendTo(d, path, i)
    requires Fit(at, Contents(at.Values), e) && [] in at && path[..i] in at && at[path[..i]] == context
    modifies context
    ensures Fit(at', Contents(at'.Values), e') && [] in at' && at'[[]] == at[[]] && fresh(at'.Values - at.Values)
    ensures i + 1 < |path| ==>
      e' == ExtendTo(d, path, i + 1) && path[..i + 1] in at' && r == Some(Sub(at'[path[..i + 1]]))
    ensures i + 1 == |path| ==> e' == Put(d, path, value)
  {
    StepsFit(d, path, i);
    assert at[path[..i]] in at.Values;
    r, at', e' := Advance(context, step, value, at, e, path[..i]);
  }

  /** Walks a field's path from the root and writes its value at the end. */
  method PutField(root: Container, steps: seq<Step>, value: Value,
                  ghost at: map<Path, Container>, ghost d: Doc, ghost path: Path)
    returns (ghost at': map<Path, Container>)
    requires Fit(at, Contents(at.Values), d) && [] in at && at[[]] == root
    requires steps == StepsOf(path) && Fits(d, path)
    modifies at.Values
    ensures Fit(at', Contents(at'.Values), Put(d, path, value)) && [] in at' && at'[[]] == root
    ensures fresh(at'.Values - at.Values)
  {
    at' := at;
    ghost var e := d;
    var context, i := Some(Sub(root)), 0;
    assert path[..0] == [];
    while i < |steps|
      invariant 0 <= i <= |steps|
      invariant [] in at' && at'[[]] == root && fresh(at'.Values - at.Values)
      invariant Fit(at', Contents(at'.Values), e)
      invariant i < |path| ==> e == ExtendTo(d, path, i) && path[..i] in at' && context == Some(Sub(at'[path[..i]]))
      invariant i == |path| ==> e == Put(d, path, value)
    {
      assert at'[path[..i]] in at'.Values;
      context, at', e := PutStep(context.value.node, steps[i], value, at', e, d, path, i);
      i := i + 1;
    }
  }

  // ---- Whole forms ----

  /** A field's path and the value it gets. */
  datatype Field = Field(path: Path, value: Value)

  /** A lone checkbox without a value attribute counts as a truth value. */
  function ValueOf(checkbox: string -> bool, name: string, value: Value): Value {
    if checkbox(name) then Checked(value == Text("on")) else value
  }

  function FieldsOf(checkbox: string -> bool, names: seq<string>, values: seq<Value>): seq<Field>
    requires |names| == |values|
  {
    seq(|names|, i requires 0 <= i < |names| => Field(Keys(names[i]), ValueOf(checkbox, names[i], values[i])))
  }

  /** No path runs through another's end, and paths that share a beginning go on with the same kind of key. */
  ghost predicate Compatible(fs: seq<Field>) {
    && (forall i :: 0 <= i < |fs| ==> fs[i].path != [] && fs[i].path[0].Name?)
    && (forall i, j :: 0 <= i < |fs| && 0 <= j < |fs| && i != j ==> !(fs[i].path <= fs[j].path))
    && forall i, j, n :: 0 <= i < |fs| && 0 <= j < |fs| ==> SameKind(fs[i].path, fs[j].path, n)
  }

  predicate SameKind(p: Path, q: Path, n: int) {
    0 <= n < |p| && n < |q| && p[..n] == q[..n] ==> p[n].Kind() == q[n].Kind()
  }

  function PutAll(fs: seq<Field>): Doc
    requires forall i :: 0 <= i < |fs| ==> fs[i].path != []
  {
    if fs == [] then EmptyDoc() else Put(PutAll(fs[..|fs| - 1]), fs[|fs| - 1].path, fs[|fs| - 1].value)
  }

  /** What is found under the keys of a path, going from one node to the next. */
  ghost function Follow(m: map<Container, map<Key, Slot>>, n: Container, path: Path): Option<Slot> {
    if path == [] then Some(Sub(n))
    else
      var before := Follow(m, n, path[..|path| - 1]);
      if before.None? || before.value.Leaf? || before.value.node !in m then None
      else
        var entries, k := m[before.value.node], path[|path| - 1];
        if k in entries then Some(entries[k]) else None
  }

  /** Nodes that make up a tree have at each path what the tree has there, and nothing at any other. */
  lemma {:induction false} FollowFinds(at: map<Path, Container>, m: map<Container, map<Key, Slot>>, d: Doc, p: Path)
    requires Shows(at, m, d)
    ensures [] in at && Follow(m, at[[]], p) ==
      if p in d.leaves then Some(Leaf(d.leaves[p])) else if p in at then Some(Sub(at[p])) else None
  {
    if p != [] {
      var q, k := p[..|p| - 1], p[|p| - 1];
      FollowFinds(at, m, d, q);
      assert q + [k] == p;
      if q in at { assert Holds(at, m[at[q]], d, q, k); }
    }
  }

  /** Under a field's keys stands its value; for a lone checkbox, whether `on` was submitted. */
  ghost predicate FindsValue(m: map<Container, map<Key, Slot>>, root: Container, name: string, value: Value, lone: bool)
  {
    Follow(m, root, Keys(name)) ==
      Some(Leaf(if !lone then value else if value == Text("on") then Checked(true) else Checked(false)))
  }

  /** On the way to it stands an object where a name comes next, and an array where an index does. */
  ghost predicate FindsNode(m: map<Container, map<Key, Slot>>, root: Container, path: Path, n: int) {
    0 < n < |path| ==>
      var found := Follow(m, root, path[..n]);
      && found.Some? && found.value.Sub?
      && found.value.node.kind == if path[n].Index? then Array else Object
  }

  /** No other keys lead to a value. */
  ghost predicate FindsNoOther(m: map<Container, map<Key, Slot>>, root: Container, names: seq<string>, path: Path) {
    var found := Follow(m, root, path);
    found.Some? && found.value.Leaf? ==> exists i :: 0 <= i < |names| && Keys(names[i]) == path
  }

  /** What a script finds in the result when it follows keys from the root. */
  ghost predicate Encodes(m: map<Container, map<Key, Slot>>, root: Container,
                          names: seq<string>, values: seq<Value>, checkbox: string -> bool)
    requires |names| == |values|
  {
    && (forall i :: 0 <= i < |names| ==> FindsValue(m, root, names[i], values[i], checkbox(names[i])))
    && (forall i, n :: 0 <= i < |names| ==> FindsNode(m, root, Keys(names[i]), n))
    && (forall p :: FindsNoOther(m, root, names, p))
  }

  lemma ShowsValue(at: map<Path, Container>, m: map<Container, map<Key, Slot>>, d: Doc, fs: seq<Field>,
                   name: string, value: Value, checkbox: string -> bool)
    requires Shows(at, m, d) && LeavesAre(d, fs) && Field(Keys(name), ValueOf(checkbox, name, value)) in fs
    ensures [] in at && FindsValue(m, at[[]], name, value, checkbox(name))
  {
    var i :| 0 <= i < |fs| && fs[i] == Field(Keys(name), ValueOf(checkbox, name, value));
    assert fs[i].path in d.leaves;
    FollowFinds(at, m, d, Keys(name));
  }

  lemma ShowsNode(at: map<Path, Container>, m: map<Container, map<Key, Slot>>, d: Doc, path: Path, n: nat)
    requires Shows(at, m, d) && NodeFor(d, path, n)
    ensures [] in at && FindsNode(m, at[[]], path, n)
  {
    if 0 < n < |path| {
      FollowFinds(at, m, d, path[..n]);
      assert path[..n] in at;
    } else {
      assert [] in d.kinds;
    }
  }

  lemma ShowsNoOther(at: map<Path, Container>, m: map<Container, map<Key, Slot>>, d: Doc, fs: seq<Field>,
                     names: seq<string>, path: Path)
    requires Shows(at, m, d) && LeavesAre(d, fs) && |fs| == |names|
    requires forall i :: 0 <= i < |fs| ==> fs[i].path == Keys(names[i])
    ensures [] in at && FindsNoOther(m, at[[]], names, path)
  {
    FollowFinds(at, m, d, path);
    if path in d.leaves {
      var i :| 0 <= i < |fs| && fs[i].path == path;
      assert Keys(names[i]) == path;
    }
  }

  lemma ShowsEncodes(at: map<Path, Container>, m: map<Container, map<Key, Slot>>,
                     names: seq<string>, values: seq<Value>, checkbox: string -> bool)
    requires |names| == |values| && Compatible(FieldsOf(checkbox, names, values))
    requires [] in at && Shows(at, m, PutAll(FieldsOf(checkbox, names, values)))
    ensures Encodes(m, at[[]], names, values, checkbox)
  {
    var fs := FieldsOf(checkbox, names, values);
    var d := PutAll(fs);
    PutAllDescribes(fs);
    forall i | 0 <= i < |names| ensures FindsValue(m, at[[]], names[i], values[i], checkbox(names[i])) {
      assert fs[i] in fs;
      ShowsValue(at, m, d, fs, names[i], values[i], checkbox);
    }
    forall i, n | 0 <= i < |names| ensures FindsNode(m, at[[]], Keys(names[i]), n) {
      if 0 < n {
        assert fs[i].path == Keys(names[i]);
        if n < |fs[i].path| { assert NodeFor(d, fs[i].path, n); }
        ShowsNode(at, m, d, Keys(names[i]), n);
      }
    }
    forall p ensures FindsNoOther(m, at[[]], names, p) {
      ShowsNoOther(at, m, d, fs, names, p);
    }
  }

  /** The nodes under `root` make up the tree of all fields. */
  method EncodingAlgorithm(names: seq<string>, values: seq<Value>, checkbox: string -> bool) returns (root: Container)
    requires |names| == |values| && Compatible(FieldsOf(checkbox, names, values))
    ensures exists at: map<Path, Container> ::
      && [] in at && at[[]] == root && Shows(at, Contents(at.Values), PutAll(FieldsOf(checkbox, names, values)))
      && Encodes(Contents(at.Values), root, names, values, checkbox)
  {
    ghost var at: map<Path, Container>;
    root, at := EncodeFields(names, values, checkbox);
    assert Expose(0);
    ShowsEncodes(at, Contents(at.Values), names, values, checkbox);
  }

  /** `Compatible`, expanded only where `Expose` is mentioned. */
  ghost predicate Agree(fs: seq<Field>) {
    forall u {:trigger Expose(u)} :: Expose(u) ==> Compatible(fs)
  }

  lemma AgreedStep(fs: seq<Field>, i: nat)
    requires Agree(fs) && i < |fs| && forall j :: 0 <= j < |fs| ==> fs[j].path != []
    ensures Fits(PutAll(fs[..i]), fs[i].path)
    ensures PutAll(fs[..i + 1]) == Put(PutAll(fs[..i]), fs[i].path, fs[i].value)
  {
    assert Expose(0);
    NextFits(fs, i);
    assert fs[..i + 1][..i] == fs[..i];
  }

  method EncodeFields(names: seq<string>, values: seq<Value>, checkbox: string -> bool)
    returns (root: Container, ghost at: map<Path, Container>)
    requires |names| == |values| && Agree(FieldsOf(checkbox, names, values))
    ensures [] in at && at[[]] == root && Fit(at, Contents(at.Values), PutAll(FieldsOf(checkbox, names, values)))
  {
    ghost var fs := FieldsOf(checkbox, names, values);
    root := new Container(Object);
    at := map[[] := root];
    assert at[[]] in at.Values;
    assert fs[..0] == [];
    EmptyFits(at, Contents(at.Values), root);
    var i := 0;
    while i < |names|
      invariant 0 <= i <= |names| && [] in at && at[[]] == root && fresh(at.Values)
      invariant Fit(at, Contents(at.Values), PutAll(fs[..i]))
    {
      at := EncodeField(root, names[i], ValueOf(checkbox, names[i], values[i]), at, fs, i);
      i := i + 1;
    }
    assert fs[..i] == fs;
  }

  method EncodeField(root: Container, name: string, value: Value,
                     ghost at: map<Path, Container>, ghost fs: seq<Field>, ghost i: nat)
    returns (ghost at': map<Path, Container>)
    requires (forall j :: 0 <= j < |fs| ==> fs[j].path != []) && Agree(fs)
    requires i < |fs| && fs[i] == Field(Keys(name), value)
    requires [] in at && at[[]] == root && Fit(at, Contents(at.Values), PutAll(fs[..i]))
    modifies at.Values
    ensures [] in at' && at'[[]] == root && Fit(at', Contents(at'.Values), PutAll(fs[..i + 1]))
    ensures fresh(at'.Values - at.Values)
  {
    var steps := EncodingPath(name);
    AgreedStep(fs, i);
    at' := PutField(root, steps, value, at, PutAll(fs[..i]), Keys(name));
  }

  lemma EmptyFits(at: map<Path, Container>, m: map<Container, map<Key, Slot>>, root: Container)
    requires at == map[[] := root] && root.kind == Object && root in m && m[root] == map[]
    ensures Fit(at, m, EmptyDoc())
  {
    assert at.Keys == {[]} == EmptyDoc().kinds.Keys;
    forall p, k | p in at ensures Holds(at, m[at[p]], EmptyDoc(), p, k) {
      assert p + [k] != [];
    }
  }

  /** Each field's value is at its path, and there is no other leaf. */
  ghost predicate LeavesAre(d: Doc, fs: seq<Field>) {
    && (forall i :: 0 <= i < |fs| ==> fs[i].path in d.leaves && d.leaves[fs[i].path] == fs[i].value)
    && forall p :: p in d.leaves ==> exists i :: 0 <= i < |fs| && fs[i].path == p
  }

  /** What a tree must be to stand for some fields: their leaves, the nodes their paths need, and nothing else. */
  ghost predicate Describes(d: Doc, fs: seq<Field>) {
    && LeavesAre(d, fs)
    && [] in d.kinds && d.kinds[[]] == Object
    && (forall i, n :: 0 <= i < |fs| && 0 < n < |fs[i].path| ==> NodeFor(d, fs[i].path, n))
    && (forall p :: p in d.kinds && p != [] ==> exists i :: 0 <= i < |fs| && Below(p, fs[i].path))
  }

  predicate Below(p: Path, q: Path) { |p| < |q| && p <= q }

  predicate NodeFor(d: Doc, p: Path, n: int) {
    0 < n < |p| ==> p[..n] in d.kinds && d.kinds[p[..n]] == p[n].Kind()
  }

  lemma {:induction false} ExtendToIs(d: Doc, path: Path, n: nat)
    requires n < |path|
    ensures var e := ExtendTo(d, path, n);
      && e.leaves == d.leaves
      && (forall p :: p in d.kinds ==> p in e.kinds && e.kinds[p] == d.kinds[p])
      && (forall k :: 0 < k <= n ==> path[..k] in e.kinds)
      && (forall p :: p in e.kinds && p !in d.kinds ==>
            Below(p, path) && 0 < |p| <= n && e.kinds[p] == path[|p|].Kind())
  {
    if n > 0 { ExtendToIs(d, path, n - 1); }
  }

  lemma PutLeaves(d: Doc, fs: seq<Field>, f: Field)
    requires f.path != [] && LeavesAre(d, fs) && forall i :: 0 <= i < |fs| ==> fs[i].path != f.path
    ensures LeavesAre(Put(d, f.path, f.value), fs + [f])
  {
    var e, gs := Put(d, f.path, f.value), fs + [f];
    ExtendToIs(d, f.path, |f.path| - 1);
    assert e.leaves == d.leaves[f.path := f.value];
    assert gs[|fs|] == f && forall i :: 0 <= i < |fs| ==> gs[i] == fs[i];
    forall p | p in e.leaves ensures exists i :: 0 <= i < |gs| && gs[i].path == p {
      if p != f.path {
        var i :| 0 <= i < |fs| && fs[i].path == p;
        assert gs[i].path == p;
      }
    }
  }

  lemma PutKinds(d: Doc, fs: seq<Field>, f: Field)
    requires f.path != [] && Describes(d, fs)
    ensures var e, gs := Put(d, f.path, f.value), fs + [f];
      && [] in e.kinds && e.kinds[[]] == Object
      && forall p :: p in e.kinds && p != [] ==> exists i :: 0 <= i < |gs| && Below(p, gs[i].path)
  {
    var e, gs := Put(d, f.path, f.value), fs + [f];
    ExtendToIs(d, f.path, |f.path| - 1);
    assert gs[|fs|] == f && forall i :: 0 <= i < |fs| ==> gs[i] == fs[i];
    forall p | p in e.kinds && p != [] ensures exists i :: 0 <= i < |gs| && Below(p, gs[i].path) {
      if p in d.kinds {
        var i :| 0 <= i < |fs| && Below(p, fs[i].path);
        assert Below(p, gs[i].path);
      } else {
        assert Below(p, gs[|fs|].path);
      }
    }
  }

  lemma OldNode(d: Doc, p: Path, f: Field, n: nat)
    requires f.path != [] && NodeFor(d, p, n)
    ensures NodeFor(Put(d, f.path, f.value), p, n)
  {
    ExtendToIs(d, f.path, |f.path| - 1);
  }

  lemma NewNode(d: Doc, f: Field, n: nat)
    requires 0 < n < |f.path| && (f.path[..n] in d.kinds ==> d.kinds[f.path[..n]] == f.path[n].Kind())
    ensures NodeFor(Put(d, f.path, f.value), f.path, n)
  {
    ExtendToIs(d, f.path, |f.path| - 1);
    assert f.path[..n] in ExtendTo(d, f.path, |f.path| - 1).kinds;
  }

  lemma KindAgrees(d: Doc, fs: seq<Field>, f: Field, n: nat)
    requires 0 < n < |f.path| && Describes(d, fs) && forall i :: 0 <= i < |fs| ==> SameKind(fs[i].path, f.path, n)
    ensures f.path[..n] in d.kinds ==> d.kinds[f.path[..n]] == f.path[n].Kind()
  {
    var q := f.path[..n];
    if q in d.kinds {
      var i :| 0 <= i < |fs| && Below(q, fs[i].path);
      assert NodeFor(d, fs[i].path, n) && fs[i].path[..n] == q && SameKind(fs[i].path, f.path, n);
    }
  }

  lemma PutDescribes(d: Doc, fs: seq<Field>, f: Field)
    requires f.path != [] && Describes(d, fs)
    requires forall i :: 0 <= i < |fs| ==> fs[i].path != f.path
    requires forall i, n :: 0 <= i < |fs| ==> SameKind(fs[i].path, f.path, n)
    ensures Describes(Put(d, f.path, f.value), fs + [f])
  {
    var e, gs := Put(d, f.path, f.value), fs + [f];
    PutLeaves(d, fs, f);
    PutKinds(d, fs, f);
    forall i, n | 0 <= i < |gs| && 0 < n < |gs[i].path| ensures NodeFor(e, gs[i].path, n) {
      if i < |fs| {
        assert gs[i] == fs[i];
        OldNode(d, fs[i].path, f, n);
      } else {
        KindAgrees(d, fs, f, n);
        NewNode(d, f, n);
      }
    }
  }

  /** The last field against the others. */
  lemma LastApart(fs: seq<Field>, n: nat)
    requires Compatible(fs) && n == |fs| - 1
    ensures fs[n].path != []
    ensures forall i :: 0 <= i < n ==> fs[..n][i].path != fs[n].path
    ensures forall i, k :: 0 <= i < n ==> SameKind(fs[..n][i].path, fs[n].path, k)
  {
    forall i | 0 <= i < n ensures fs[..n][i].path != fs[n].path {
      assert !(fs[i].path <= fs[n].path);
    }
    forall i, k | 0 <= i < n ensures SameKind(fs[..n][i].path, fs[n].path, k) {
      assert SameKind(fs[i].path, fs[n].path, k);
    }
  }

  lemma CompatiblePart(fs: seq<Field>, n: nat)
    requires Compatible(fs) && n <= |fs|
    ensures Compatible(fs[..n])
  {
  }

  /** The encoder's tree holds each value at its path and has no other leaves and no other nodes. */
  lemma {:induction false} PutAllDescribes(fs: seq<Field>)
    requires Compatible(fs)
    ensures Describes(PutAll(fs), fs)
  {
    if fs != [] {
      var n := |fs| - 1;
      var p, f := fs[..n], fs[n];
      CompatiblePart(fs, n);
      PutAllDescribes(p);
      LastApart(fs, n);
      PutDescribes(PutAll(p), p, f);
      assert p + [f] == fs;
    }
  }

  /** A form like that for a new event, with two plain fields and two in a group, is compatible. */
  lemma EventFormFits(a: string, b: string, group: string, x: string, y: string,
                      values: seq<Value>, checkbox: string -> bool)
    requires PlainName(a) && PlainName(b) && PlainName(group) && a != b && a != group && b != group
    requires GroupFits(Name(x)) && GroupFits(Name(y)) && x != y && |values| == 4
    ensures Compatible(FieldsOf(checkbox, [a, b, group + "[" + x + "]", group + "[" + y + "]"], values))
  {
    KeysOfOne(a);
    KeysOfOne(b);
    KeysOfTwo(group, x);
    KeysOfTwo(group, y);
    FormFits(FieldsOf(checkbox, [a, b, group + "[" + x + "]", group + "[" + y + "]"], values), a, b, group, x, y);
  }

  predicate PlainName(name: string) { name != "" && '[' !in name }

  lemma FormFits(fs: seq<Field>, a: string, b: string, group: string, x: string, y: string)
    requires |fs| == 4 && a != b && a != group && b != group && x != y
    requires fs[0].path == [Name(a)] && fs[1].path == [Name(b)]
    requires fs[2].path == [Name(group), Name(x)] && fs[3].path == [Name(group), Name(y)]
    ensures Compatible(fs)
  {
    forall i, j | 0 <= i < 4 && 0 <= j < 4 && i != j ensures !(fs[i].path <= fs[j].path) {
      if fs[i].path[0] == fs[j].path[0] {
        assert |fs[i].path| == |fs[j].path| == 2 && fs[i].path[1] != fs[j].path[1];
      }
    }
  }

  lemma KeysOfOne(name: string)
    requires PlainName(name)
    ensures Keys(name) == [Name(name)]
  {
    assert Render([Name(name)]) == name;
    ReadRender([Name(name)]);
  }

  lemma KeysOfTwo(first: string, second: string)
    requires PlainName(first) && GroupFits(Name(second))
    ensures Keys(first + "[" + second + "]") == [Name(first), Name(second)]
  {
    var p := [Name(first), Name(second)];
    assert p[1..] == [Name(second)] && [Name(second)][1..] == [];
    assert RenderGroups(p[1..]) == "[" + second + "]" + "";
    assert Render(p) == first + "[" + second + "]";
    ReadRender(p);
  }

  lemma PathIsNoNode(d: Doc, fs: seq<Field>, p: Path)
    requires Describes(d, fs) && p != [] && forall j :: 0 <= j < |fs| ==> !(p <= fs[j].path)
    ensures p !in d.kinds
  {
    forall q | q in d.kinds ensures q != p {
      if q != [] { var j :| 0 <= j < |fs| && Below(q, fs[j].path); }
    }
  }

  lemma PathMeetsNoLeaf(d: Doc, fs: seq<Field>, p: Path)
    requires Describes(d, fs) && forall j :: 0 <= j < |fs| ==> !(fs[j].path <= p)
    ensures forall n :: 0 <= n < |p| ==> p[..n] !in d.leaves
  {
    forall q | q in d.leaves ensures !(q <= p) {
      var j :| 0 <= j < |fs| && fs[j].path == q;
    }
  }

  lemma NextFits(fs: seq<Field>, i: nat)
    requires Compatible(fs) && i < |fs|
    ensures (forall j :: 0 <= j < i ==> fs[j].path != []) && Fits(PutAll(fs[..i]), fs[i].path)
  {
    CompatiblePart(fs, i);
    PutAllDescribes(fs[..i]);
    forall j | 0 <= j < i ensures !(fs[i].path <= fs[..i][j].path) && !(fs[..i][j].path <= fs[i].path) {
      assert fs[..i][j] == fs[j];
    }
    PathIsNoNode(PutAll(fs[..i]), fs[..i], fs[i].path);
    PathMeetsNoLeaf(PutAll(fs[..i]), fs[..i], fs[i].path);
  }

  lemma {:induction false} OnceEach(fs: seq<Field>, x: Field)
    requires forall i, j :: 0 <= i < j < |fs| ==> fs[i] != fs[j]
    ensures multiset(fs)[x] <= 1
  {
    if fs != [] {
      var n := |fs| - 1;
      OnceEach(fs[..n], x);
      assert fs == fs[..n] + [fs[n]];
      assert fs[n] !in fs[..n];
    }
  }

  lemma TwiceThen(fs: seq<Field>, i: nat, j: nat)
    requires i < j < |fs| && fs[i] == fs[j]
    ensures multiset(fs)[fs[i]] >= 2
  {
    assert fs == fs[..j] + fs[j..];
    assert fs[i] == fs[..j][i] && fs[j] == fs[j..][0];
    assert fs[i] in fs[..j] && fs[i] in fs[j..];
  }

  lemma PermutedCompatible(fs: seq<Field>, gs: seq<Field>)
    requires Compatible(fs) && multiset(fs) == multiset(gs)
    ensures Compatible(gs) && forall f :: f in fs <==> f in gs
  {
    assert forall f :: f in fs <==> f in multiset(fs);
    assert forall f :: f in gs <==> f in multiset(gs);
    forall i, j | 0 <= i < j < |fs| ensures fs[i] != fs[j] {
      assert !(fs[i].path <= fs[j].path);
    }
    forall i, j | 0 <= i < |gs| && 0 <= j < |gs| && i != j ensures !(gs[i].path <= gs[j].path) {
      OnceEach(fs, gs[i]);
      if gs[i] == gs[j] { TwiceThen(gs, if i < j then i else j, if i < j then j else i); assert false; }
      assert gs[i] in fs && gs[j] in fs;
      var a :| 0 <= a < |fs| && fs[a] == gs[i];
      var b :| 0 <= b < |fs| && fs[b] == gs[j];
    }
    forall i, j, n | 0 <= i < |gs| && 0 <= j < |gs| ensures SameKind(gs[i].path, gs[j].path, n) {
      assert gs[i] in fs && gs[j] in fs;
      var a :| 0 <= a < |fs| && fs[a] == gs[i];
      var b :| 0 <= b < |fs| && fs[b] == gs[j];
      assert SameKind(fs[a].path, fs[b].path, n);
    }
    forall i | 0 <= i < |gs| ensures gs[i].path != [] && gs[i].path[0].Name? {
      assert gs[i] in fs;
    }
  }

  lemma SameLeaves(d: Doc, e: Doc, fs: seq<Field>, gs: seq<Field>)
    requires Describes(d, fs) && Describes(e, gs) && forall f :: f in fs <==> f in gs
    ensures forall p :: p in d.leaves ==> p in e.leaves && e.leaves[p] == d.leaves[p]
  {
    forall p | p in d.leaves ensures p in e.leaves && e.leaves[p] == d.leaves[p] {
      var i :| 0 <= i < |fs| && fs[i].path == p;
      assert fs[i] in gs;
    }
  }

  lemma SameKinds(d: Doc, e: Doc, fs: seq<Field>, gs: seq<Field>)
    requires Describes(d, fs) && Describes(e, gs) && forall f :: f in fs <==> f in gs
    ensures forall p :: p in d.kinds ==> p in e.kinds && e.kinds[p] == d.kinds[p]
  {
    forall p | p in d.kinds ensures p in e.kinds && e.kinds[p] == d.kinds[p] {
      if p != [] {
        var i :| 0 <= i < |fs| && Below(p, fs[i].path);
        assert fs[i] in gs;
        var j :| 0 <= j < |gs| && gs[j] == fs[i];
        assert fs[i].path[..|p|] == p;
        assert NodeFor(d, fs[i].path, |p|) && NodeFor(e, gs[j].path, |p|);
      }
    }
  }

  /** Fields in any order make up the same tree. */
  lemma OrderDoesNotMatter(fs: seq<Field>, gs: seq<Field>)
    requires Compatible(fs) && multiset(fs) == multiset(gs)
    ensures Compatible(gs) && PutAll(gs) == PutAll(fs)
  {
    PermutedCompatible(fs, gs);
    PutAllDescribes(fs);
    PutAllDescribes(gs);
    SameDocs(PutAll(fs), PutAll(gs), fs, gs);
  }

  lemma SameDocs(d: Doc, e: Doc, fs: seq<Field>, gs: seq<Field>)
    requires Describes(d, fs) && Describes(e, gs) && forall f :: f in fs <==> f in gs
    ensures d == e
  {
    SameLeaves(d, e, fs, gs);
    SameLeaves(e, d, gs, fs);
    SameKinds(d, e, fs, gs);
    SameKinds(e, d, gs, fs);
    assert d.leaves == e.leaves && d.kinds == e.kinds;
  }
}
