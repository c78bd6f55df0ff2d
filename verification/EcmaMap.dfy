/**
 The Map of ECMA-262, section 24.1, as the standard describes it: a list of
 entries that only ever grows, in which deleting an entry leaves an empty slot,
 and an iterator that is an index into that list.
 */
module EcmaMap {
  import opened Wrappers

  datatype Slot<+K, +V> = Entry(key: K, value: V) | Empty

  type Slots<K, V> = seq<Slot<K, V>>

  ghost predicate Live<K, V>(s: Slots<K, V>, i: int) {
    0 <= i < |s| && s[i].Entry?
  }

  ghost predicate Holds<K, V>(s: Slots<K, V>, k: K, i: int) {
    Live(s, i) && s[i].key == k
  }

  ghost predicate Has<K, V>(s: Slots<K, V>, k: K) {
    exists i :: Holds(s, k, i)
  }

  ghost predicate KeysDiffer<K, V>(s: Slots<K, V>) {
    forall i, j :: Live(s, i) && Live(s, j) && s[i].key == s[j].key ==> i == j
  }

  /** Section 24.1.3.9, Map.prototype.set: replaces the value of an entry, or appends one. */
  ghost function Set<K, V>(s: Slots<K, V>, k: K, v: V): (r: Slots<K, V>)
    ensures |s| <= |r|
  {
    if Has(s, k) then
      var i :| Holds(s, k, i);
      s[i := Entry(k, v)]
    else s + [Entry(k, v)]
  }

  /** Section 24.1.3.3, Map.prototype.delete: empties the entry's slot. */
  ghost function Delete<K, V>(s: Slots<K, V>, k: K): (r: Slots<K, V>)
    ensures |s| == |r|
  {
    if Has(s, k) then
      var i :| Holds(s, k, i);
      s[i := Empty]
    else s
  }

  /** Section 24.1.3.1, Map.prototype.clear: empties every slot. */
  ghost function Clear<K, V>(s: Slots<K, V>): (r: Slots<K, V>)
    ensures |s| == |r|
  {
    seq(|s|, i => Empty)
  }

  /** The number of entries, section 24.1.3.10. */
  ghost function Size<K, V>(s: Slots<K, V>): nat {
    if s == [] then 0 else Size(s[..|s| - 1]) + if s[|s| - 1].Entry? then 1 else 0
  }

  /** The slot an iterator at index `from` visits next; |s| when it is done. */
  ghost function NextLive<K, V>(s: Slots<K, V>, from: nat): (j: nat)
    requires from <= |s|
    ensures from <= j <= |s|
    ensures j < |s| ==> Live(s, j)
    ensures forall i :: from <= i < j ==> !Live(s, i)
    decreases |s| - from
  {
    if from == |s| || s[from].Entry? then from else NextLive(s, from + 1)
  }

  lemma NextLiveIs<K, V>(s: Slots<K, V>, from: nat, j: nat)
    requires from <= j <= |s| && (j < |s| ==> Live(s, j))
    requires forall i :: from <= i < j ==> !Live(s, i)
    ensures NextLive(s, from) == j
  {
  }

  lemma OperationsKeepKeys<K, V>(s: Slots<K, V>, k: K, v: V)
    requires KeysDiffer(s)
    ensures KeysDiffer(Set(s, k, v)) && KeysDiffer(Delete(s, k)) && KeysDiffer(Clear(s))
  {
    var r := Set(s, k, v);
    forall i, j | Live(r, i) && Live(r, j) && r[i].key == r[j].key ensures i == j {
      assert i < |s| ==> Live(s, i) && s[i].key == r[i].key;
      assert j < |s| ==> Live(s, j) && s[j].key == r[j].key;
      assert i < |s| ==> (s[i].key == k ==> Holds(s, k, i));
      assert j < |s| ==> (s[j].key == k ==> Holds(s, k, j));
    }
    var d := Delete(s, k);
    forall i, j | Live(d, i) && Live(d, j) && d[i].key == d[j].key ensures i == j {
      assert Live(s, i) && Live(s, j);
    }
  }

  /** What `set` writes: the entry of `k` holds `v`, in its old slot or a new last one, and nothing else changes. */
  lemma SetWrites<K, V>(s: Slots<K, V>, k: K, v: V)
    requires KeysDiffer(s)
    ensures var r := Set(s, k, v);
      && |r| == (if Has(s, k) then |s| else |s| + 1)
      && (forall i :: 0 <= i < |s| ==> r[i] == if Holds(s, k, i) then Entry(k, v) else s[i])
      && (!Has(s, k) ==> r[|s|] == Entry(k, v))
  {
    if Has(s, k) {
      var i :| Holds(s, k, i) && Set(s, k, v) == s[i := Entry(k, v)];
      assert forall j :: Holds(s, k, j) ==> j == i;
    } else {
      assert forall i :: 0 <= i < |s| ==> !Holds(s, k, i);
    }
  }

  /** What `delete` empties: the slot of `k` and no other. */
  lemma DeleteEmpties<K, V>(s: Slots<K, V>, k: K)
    requires KeysDiffer(s)
    ensures var r := Delete(s, k);
      !Has(r, k) && |r| == |s| && forall i :: 0 <= i < |s| ==> r[i] == if Holds(s, k, i) then Empty else s[i]
  {
    var r := Delete(s, k);
    if Has(s, k) {
      var i :| Holds(s, k, i) && r == s[i := Empty];
      assert forall j :: Holds(s, k, j) ==> j == i;
      assert forall j :: Holds(r, k, j) ==> Holds(s, k, j);
    } else {
      assert forall i :: 0 <= i < |s| ==> !Holds(s, k, i);
    }
  }

  /** `clear` leaves no entry, and every slot in place. */
  lemma ClearEmpties<K, V>(s: Slots<K, V>, k: K)
    ensures |Clear(s)| == |s| && !Has(Clear(s), k)
  {
  }

  /** The value that a map has for a key, if any. */
  ghost function ValueAt<K, V>(s: Slots<K, V>, k: K): Option<V> {
    if Has(s, k) then
      var i :| Holds(s, k, i);
      Some(s[i].value)
    else None
  }

  /** A key that was set is found with its value, and every other as it was. */
  lemma FindsWhatWasSet<K, V>(s: Slots<K, V>, k: K, v: V, x: K)
    requires KeysDiffer(s)
    ensures ValueAt(Set(s, k, v), x) == if x == k then Some(v) else ValueAt(s, x)
  {
    SetWrites(s, k, v);
    var r := Set(s, k, v);
    assert forall i :: Holds(r, k, i) ==> r[i].value == v;
    if x == k {
      if Has(s, k) {
        var i :| Holds(s, k, i);
        assert Holds(r, k, i);
      } else {
        assert Holds(r, k, |s|);
      }
    } else {
      SameSlots(s, r, x);
    }
  }

  /** A deleted key is not found, and every other is found as it was. */
  lemma FindsWhatIsLeft<K, V>(s: Slots<K, V>, k: K, x: K)
    requires KeysDiffer(s)
    ensures ValueAt(Delete(s, k), x) == if x == k then None else ValueAt(s, x)
  {
    DeleteEmpties(s, k);
    if x != k { SameSlots(s, Delete(s, k), x); }
  }

  /** The entries of a key are found where they are the same. */
  lemma SameSlots<K, V>(s: Slots<K, V>, r: Slots<K, V>, x: K)
    requires KeysDiffer(s) && |s| <= |r|
    requires forall i :: 0 <= i < |s| && (Holds(s, x, i) || Holds(r, x, i)) ==> r[i] == s[i]
    requires forall i :: |s| <= i < |r| ==> !Holds(r, x, i)
    ensures ValueAt(r, x) == ValueAt(s, x)
  {
    assert forall i :: Holds(s, x, i) <==> Holds(r, x, i);
  }

  /** `size` counts the slots that hold an entry. */
  lemma {:induction false} SizeCounts<K, V>(s: Slots<K, V>)
    ensures Size(s) == |LiveSlots(s)|
  {
    if s != [] {
      var n := |s| - 1;
      SizeCounts(s[..n]);
      assert LiveSlots(s) == LiveSlots(s[..n]) + if s[n].Entry? then {n} else {};
    }
  }

  ghost function LiveSlots<K, V>(s: Slots<K, V>): set<int> {
    set i | 0 <= i < |s| && s[i].Entry?
  }

  // ---- Iterators that run while the map changes ----

  /** What a program does to a map with one iterator open; DoNext is a call of the iterator's next(). */
  datatype Op<+K, +V> = DoSet(key: K, value: V) | DoDelete(key: K) | DoClear | DoNext

  /** The map, the iterator's index, the slots and the entries yielded so far; `done` once next() found nothing. */
  datatype Walk<+K, +V> = Walk(
    slots: seq<Slot<K, V>>, index: nat, yielded: seq<nat>, items: seq<Slot<K, V>>, done: bool)

  ghost function Open<K, V>(s: Slots<K, V>): (w: Walk<K, V>)
    ensures WalkKept(w)
  {
    Walk(s, 0, [], [], false)
  }

  ghost function Do<K, V>(w: Walk<K, V>, op: Op<K, V>): Walk<K, V>
    requires w.index <= |w.slots|
  {
    match op
    case DoSet(k, v) => w.(slots := Set(w.slots, k, v))
    case DoDelete(k) => w.(slots := Delete(w.slots, k))
    case DoClear => w.(slots := Clear(w.slots))
    case DoNext =>
      var j := NextLive(w.slots, w.index);
      if w.done then w
      else if j == |w.slots| then w.(index := j, done := true)
      else w.(index := j + 1, yielded := w.yielded + [j], items := w.items + [w.slots[j]])
  }

  ghost predicate Increasing(s: seq<nat>) {
    forall i, j :: 0 <= i < j < |s| ==> s[i] < s[j]
  }

  /** The iterator has yielded, once each and in insertion order, everything live it has passed. */
  ghost predicate WalkKept<K, V>(w: Walk<K, V>) {
    && w.index <= |w.slots|
    && Increasing(w.yielded)
    && (forall i :: 0 <= i < |w.yielded| ==> w.yielded[i] < w.index)
    && (forall i :: 0 <= i < w.index && Live(w.slots, i) ==> i in w.yielded)
  }

  lemma DoKeeps<K, V>(w: Walk<K, V>, op: Op<K, V>)
    requires WalkKept(w)
    ensures WalkKept(Do(w, op)) && w.yielded <= Do(w, op).yielded
  {
    var w' := Do(w, op);
    if op.DoNext? && w'.yielded != w.yielded {
      var j := NextLive(w.slots, w.index);
      forall i | 0 <= i < w'.index && Live(w'.slots, i) ensures i in w'.yielded {
        if i < w.index { assert i in w.yielded; } else { assert i == j && w'.yielded[|w.yielded|] == j; }
      }
    }
  }

  ghost function DoAll<K, V>(w: Walk<K, V>, ops: seq<Op<K, V>>): (r: Walk<K, V>)
    requires WalkKept(w)
    ensures WalkKept(r)
  {
    if ops == [] then w
    else
      var before := DoAll(w, ops[..|ops| - 1]);
      DoKeeps(before, ops[|ops| - 1]);
      Do(before, ops[|ops| - 1])
  }

  lemma DoAllStep<K, V>(w: Walk<K, V>, ops: seq<Op<K, V>>, op: Op<K, V>)
    requires WalkKept(w)
    ensures var v := DoAll(w, ops); DoAll(w, ops + [op]) == Do(v, op) && WalkKept(Do(v, op))
  {
    assert (ops + [op])[..|ops|] == ops;
    DoKeeps(DoAll(w, ops), op);
  }

  // ---- Programs with several iterators ----

  /** What a program does to a map with several iterators open; NextOf calls the next() of one of them. */
  datatype Command<+K, +V> = SetKey(key: K, value: V) | DeleteKey(key: K) | ClearAll | NextOf(which: nat)

  /** What the `i`-th iterator makes of a command: nothing if it is another iterator's. */
  function OpsFor<K, V>(c: Command<K, V>, i: nat): (ops: seq<Op<K, V>>)
    ensures |ops| <= 1
  {
    match c
    case SetKey(k, v) => [DoSet(k, v)]
    case DeleteKey(k) => [DoDelete(k)]
    case ClearAll => [DoClear]
    case NextOf(j) => if j == i then [DoNext] else []
  }

  /** The program as the `i`-th iterator meets it. */
  function MetBy<K, V>(cs: seq<Command<K, V>>, i: nat): seq<Op<K, V>> {
    if cs == [] then [] else MetBy(cs[..|cs| - 1], i) + OpsFor(cs[|cs| - 1], i)
  }

  ghost function DoFor<K, V>(w: Walk<K, V>, c: Command<K, V>, i: nat): Walk<K, V>
    requires w.index <= |w.slots|
  {
    if OpsFor(c, i) == [] then w else Do(w, OpsFor(c, i)[0])
  }

  ghost function SlotsAfter<K, V>(s: Slots<K, V>, c: Command<K, V>): Slots<K, V> {
    match c
    case SetKey(k, v) => Set(s, k, v)
    case DeleteKey(k) => Delete(s, k)
    case ClearAll => Clear(s)
    case NextOf(_) => s
  }

  lemma MetStep<K, V>(w: Walk<K, V>, cs: seq<Command<K, V>>, n: nat, i: nat)
    requires WalkKept(w) && n < |cs|
    ensures var v := DoAll(w, MetBy(cs[..n], i));
      DoAll(w, MetBy(cs[..n + 1], i)) == DoFor(v, cs[n], i) && WalkKept(DoFor(v, cs[n], i))
  {
    assert cs[..n + 1][..n] == cs[..n];
    var ops, more := MetBy(cs[..n], i), OpsFor(cs[n], i);
    if more == [] {
      assert ops + more == ops;
    } else {
      assert more == [more[0]];
      DoAllStep(w, ops, more[0]);
    }
  }

  /**
   An iterator opened on any map and interleaved with any operations yields slots
   in insertion order and none twice; when it then reports that it is done, every
   entry that is still in the map has been yielded.
   */
  lemma IterationIsComplete<K, V>(s: Slots<K, V>, ops: seq<Op<K, V>>)
    ensures var w := DoAll(Open(s), ops);
      && (forall i, j :: 0 <= i < j < |w.yielded| ==> w.yielded[i] < w.yielded[j])
      && (!w.done && Do(w, DoNext).done ==> forall i :: Live(w.slots, i) ==> i in w.yielded)
  {
    var w := DoAll(Open(s), ops);
    if !w.done && Do(w, DoNext).done {
      forall i | Live(w.slots, i) ensures i in w.yielded {
        assert i < w.index;
      }
    }
  }
}
