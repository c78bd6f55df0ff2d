/**
 The `Map` polyfill: hash buckets over nodes of one circular doubly linked list
 whose head is replaced by clear(), with iterators that hold a bare node. It is
 proved to be the Map of module EcmaMap. Keys are compared as JavaScript's
 SameValueZero does (+0 and -0 are one key, NaN equals itself).
 */
module LinkedMap {
  import opened Wrappers
  import opened EcmaMap

  /** An entry of the list, or the list's head, which has no key. Removal clears `head` and leaves `pa` behind. */
  class Node<K, V> {
    var next: Node<K, V>
    var pa: Node<K, V>
    var head: Node?<K, V>
    const key: Option<K>
    var value: Option<V>

    constructor Head()
      ensures next == this && pa == this && head == this && key == None && value == None
    {
      next, pa, head, key, value := this, this, this, None, None;
    }

    constructor Entry(next: Node<K, V>, pa: Node<K, V>, head: Node<K, V>, key: K, value: V)
      ensures this.next == next && this.pa == pa && this.head == head
      ensures this.key == Some(key) && this.value == Some(value)
    {
      this.next, this.pa, this.head, this.key, this.value := next, pa, head, Some(key), Some(value);
    }
  }

  /** What a node points at and holds at some moment. */
  datatype Cell<!K, !V> = Cell(next: Node<K, V>, pa: Node<K, V>, head: Node?<K, V>, value: Option<V>)

  /** Which list a node was made for, and how many slots the map had once it was there. */
  datatype Place = Place(era: nat, index: nat)

  /**
   How the nodes stand for the slots. `nodes[i]` was made for slot `i`; `circle` is the
   nodes in use, `place` knows every node ever made, and `back` is where the nodes
   that left the circle still point.
   */
  datatype Shape<!K, !V> = Shape(
    nodes: seq<Node<K, V>>,
    circle: seq<Node<K, V>>,
    place: map<Node<K, V>, Place>,
    back: map<Node<K, V>, Node<K, V>>,
    head: Node<K, V>,
    era: nat)
  {
    /** The slot of a node that is not a head. */
    ghost function SlotOf(n: Node<K, V>): int
      requires n in place
    {
      place[n].index - 1
    }

    ghost predicate NodesFit(slots: Slots<K, V>) {
      && |nodes| == |slots|
      && forall i :: 0 <= i < |nodes| ==>
           && nodes[i] in place && place[nodes[i]].index == i + 1 && nodes[i].key.Some?
           && (slots[i].Entry? ==> nodes[i].key == Some(slots[i].key))
    }

    ghost predicate PlacesFit(slots: Slots<K, V>) {
      && head in place && place[head].era == era && head.key == None
      && forall n {:trigger place[n]} :: n in place ==>
           && place[n].index <= |slots| && place[n].era <= era
           && (n == head || n in circle || n in back)
    }

    ghost predicate CircleFits(slots: Slots<K, V>)
      requires head in place && |nodes| == |slots|
    {
      && (forall k :: 0 <= k < |circle| ==>
            && circle[k] in place && place[circle[k]].era == era && circle[k] !in back && circle[k] != head
            && Live(slots, SlotOf(circle[k])) && nodes[SlotOf(circle[k])] == circle[k]
            && place[head].index <= SlotOf(circle[k]))
      && (forall j, k :: 0 <= j < k < |circle| ==> SlotOf(circle[j]) < SlotOf(circle[k]))
      && (forall i {:trigger nodes[i]} :: Live(slots, i) ==> nodes[i] in circle)
    }

    /** A node that left the circle points back past dead nodes only, and never in a cycle. */
    ghost predicate BackFits(slots: Slots<K, V>) {
      forall n {:trigger back[n]} :: n in back ==>
        && n in place && back[n] in place && n != head && n !in circle
        && (place[n].era < place[back[n]].era
            || (place[n].era == place[back[n]].era && place[back[n]].index < place[n].index))
        && forall j :: Live(slots, j) ==> (place[n].index <= j <==> place[back[n]].index <= j)
    }

    ghost predicate Fits(slots: Slots<K, V>) {
      NodesFit(slots) && PlacesFit(slots) && CircleFits(slots) && BackFits(slots) && KeysDiffer(slots)
    }

    /** The pointers describe the shape: one circle through the head, and dead nodes that still point back. */
    ghost predicate LinkedBy(m: map<Node<K, V>, Cell<K, V>>, slots: Slots<K, V>)
      requires Fits(slots) && m.Keys == place.Keys
    {
      var c := circle;
      && m[head].head == head
      && m[head].next == (if c == [] then head else c[0])
      && m[head].pa == (if c == [] then head else c[|c| - 1])
      && (c != [] ==> m[c[0]].pa == head && m[c[|c| - 1]].next == head)
      && (forall j, k {:trigger c[j], c[k]} :: 0 <= j < |c| && 0 <= k < |c| && k == j + 1 ==>
            m[c[j]].next == c[k] && m[c[k]].pa == c[j])
      && (forall k :: 0 <= k < |c| ==> m[c[k]].head == head && m[c[k]].value == Some(slots[SlotOf(c[k])].value))
      && (forall n {:trigger back[n]} :: n in back ==> m[n].pa == back[n] && m[n].head != head)
    }

    lemma ReplaceLinks(slots: Slots<K, V>, m: map<Node<K, V>, Cell<K, V>>, n: Node<K, V>, v: V)
      requires Fits(slots) && m.Keys == place.Keys && LinkedBy(m, slots) && n in circle
      ensures var s := slots[SlotOf(n) := EcmaMap.Entry(slots[SlotOf(n)].key, v)];
        Fits(s) && LinkedBy(m[n := m[n].(value := Some(v))], s)
    {
      var s := slots[SlotOf(n) := EcmaMap.Entry(slots[SlotOf(n)].key, v)];
      ValueFits(slots, SlotOf(n), v);
      assert forall k :: 0 <= k < |circle| && SlotOf(circle[k]) == SlotOf(n) ==> circle[k] == n;
    }

    lemma AppendChain(slots: Slots<K, V>, m: map<Node<K, V>, Cell<K, V>>, e: Node<K, V>, v: V)
      requires Fits(slots) && m.Keys == place.Keys && LinkedBy(m, slots) && e !in place
      ensures m[head].pa in m
      ensures var c, m' := circle + [e], LinkedIn(m, head, e, v);
        && m'[head].head == head && m'[head].next == c[0] && m'[head].pa == e
        && m'[c[0]].pa == head && m'[e].next == head && m'[e].head == head && m'[e].value == Some(v)
        && forall i, j {:trigger c[i], c[j]} :: 0 <= i < |c| && 0 <= j < |c| && j == i + 1 ==>
             m'[c[i]].next == c[j] && m'[c[j]].pa == c[i]
    {
      var c, m' := circle + [e], LinkedIn(m, head, e, v);
      CircleDiffers(slots);
      forall i, j | 0 <= i < |c| && 0 <= j < |c| && j == i + 1 ensures m'[c[i]].next == c[j] && m'[c[j]].pa == c[i] {
        if j < |circle| { assert c[i] == circle[i] && c[j] == circle[j]; }
      }
    }

    lemma AppendLinks(slots: Slots<K, V>, m: map<Node<K, V>, Cell<K, V>>, e: Node<K, V>, k: K, v: V)
      requires Fits(slots) && m.Keys == place.Keys && LinkedBy(m, slots)
      requires e !in place && e !in circle && e.key == Some(k)
      requires Append(slots, e).Fits(slots + [EcmaMap.Entry(k, v)])
      ensures m[head].pa in m && LinkedIn(m, head, e, v).Keys == Append(slots, e).place.Keys
      ensures Append(slots, e).LinkedBy(LinkedIn(m, head, e, v), slots + [EcmaMap.Entry(k, v)])
    {
      AppendChain(slots, m, e, v);
      AppendKeepsCells(slots, m, e, k, v);
      AppendKeepsBack(slots, m, e, v);
    }

    lemma AppendKeepsCells(slots: Slots<K, V>, m: map<Node<K, V>, Cell<K, V>>, e: Node<K, V>, k: K, v: V)
      requires Fits(slots) && m.Keys == place.Keys && LinkedBy(m, slots) && e !in place && e !in circle
      ensures m[head].pa in m
      ensures var c, s, t, m' := circle + [e], slots + [EcmaMap.Entry(k, v)], Append(slots, e), LinkedIn(m, head, e, v);
        forall i :: 0 <= i < |c| ==>
          && c[i] in t.place && 0 <= t.SlotOf(c[i]) < |s| && s[t.SlotOf(c[i])].Entry? && c[i] in m'
          && m'[c[i]].head == head && m'[c[i]].value == Some(s[t.SlotOf(c[i])].value)
    {
      var c := circle + [e];
      forall i | 0 <= i < |c| ensures c[i] == if i < |circle| then circle[i] else e {}
    }

    lemma AppendKeepsBack(slots: Slots<K, V>, m: map<Node<K, V>, Cell<K, V>>, e: Node<K, V>, v: V)
      requires Fits(slots) && m.Keys == place.Keys && LinkedBy(m, slots) && e !in place
      ensures m[head].pa in m
      ensures forall n {:trigger back[n]} :: n in back ==>
        n in m && LinkedIn(m, head, e, v)[n].pa == back[n] && LinkedIn(m, head, e, v)[n].head != head
    {
      forall n | n in back
        ensures n in m && LinkedIn(m, head, e, v)[n].pa == back[n] && LinkedIn(m, head, e, v)[n].head != head
      {
        assert m[n].pa == back[n];
      }
    }

    ghost function Succ(k: nat): Node<K, V>
      requires k < |circle|
    {
      if k + 1 < |circle| then circle[k + 1] else head
    }

    lemma Neighbours(slots: Slots<K, V>, m: map<Node<K, V>, Cell<K, V>>, k: nat)
      requires Fits(slots) && m.Keys == place.Keys && LinkedBy(m, slots) && k < |circle|
      ensures circle[k] in m && m[circle[k]].pa == Pred(k) && m[circle[k]].next == Succ(k)
      ensures Pred(k) in m && Succ(k) in m && Pred(k) != circle[k] && Succ(k) != circle[k]
    {
      CircleDiffers(slots);
      if k > 0 { assert m[circle[k]].pa == circle[k - 1]; }
      if k + 1 < |circle| { assert m[circle[k]].next == circle[k + 1]; }
    }

    lemma RemovePair(slots: Slots<K, V>, m: map<Node<K, V>, Cell<K, V>>, k: nat, a: nat, b: nat)
      requires Fits(slots) && m.Keys == place.Keys && LinkedBy(m, slots) && k < |circle|
      requires a < b < |circle| && a != k && b != k && (b == a + 1 || (b == a + 2 && k == a + 1))
      ensures var n := circle[k];
        && n in m && m[n].pa in m && m[n].next in m && circle[a] in m && circle[b] in m
        && Unlinked(m, n)[circle[a]].next == circle[b] && Unlinked(m, n)[circle[b]].pa == circle[a]
    {
      Neighbours(slots, m, k);
      CircleDiffers(slots);
      if b == a + 1 { assert m[circle[a]].next == circle[b]; }
    }

    lemma RemovedCircle(slots: Slots<K, V>, k: nat)
      requires Fits(slots) && k < |circle|
      ensures var c := Remove(k).circle;
        && head in place && |c| == |circle| - 1
        && (forall i :: 0 <= i < |c| ==> c[i] == circle[if i < k then i else i + 1] && c[i] in place)
        && (forall i :: 0 <= i < |c| ==> c[i] != head && c[i] != circle[k])
    {
      CircleDiffers(slots);
    }

    lemma RemoveHead(slots: Slots<K, V>, m: map<Node<K, V>, Cell<K, V>>, k: nat)
      requires Fits(slots) && m.Keys == place.Keys && LinkedBy(m, slots) && k < |circle|
      ensures var c, n := Remove(k).circle, circle[k];
        && n in m && m[n].pa in m && m[n].next in m && head in m
        && Unlinked(m, n)[head].head == head
        && Unlinked(m, n)[head].next == (if c == [] then head else c[0])
        && Unlinked(m, n)[head].pa == (if c == [] then head else c[|c| - 1])
    {
      RemovedCircle(slots, k);
      Neighbours(slots, m, k);
    }

    lemma RemoveEnds(slots: Slots<K, V>, m: map<Node<K, V>, Cell<K, V>>, k: nat)
      requires Fits(slots) && m.Keys == place.Keys && LinkedBy(m, slots) && k < |circle|
      ensures var c, n := Remove(k).circle, circle[k];
        && n in m && m[n].pa in m && m[n].next in m
        && (forall i :: 0 <= i < |c| ==> c[i] in m)
        && (c != [] ==> Unlinked(m, n)[c[0]].pa == head && Unlinked(m, n)[c[|c| - 1]].next == head)
    {
      RemovedCircle(slots, k);
      Neighbours(slots, m, k);
    }

    lemma RemoveChain(slots: Slots<K, V>, m: map<Node<K, V>, Cell<K, V>>, k: nat)
      requires Fits(slots) && m.Keys == place.Keys && LinkedBy(m, slots) && k < |circle|
      ensures var c, n := Remove(k).circle, circle[k];
        && n in m && m[n].pa in m && m[n].next in m
        && (forall i :: 0 <= i < |c| ==> c[i] in m)
        && forall i, j {:trigger c[i], c[j]} :: 0 <= i < |c| && 0 <= j < |c| && j == i + 1 ==>
             Unlinked(m, n)[c[i]].next == c[j] && Unlinked(m, n)[c[j]].pa == c[i]
    {
      RemoveEnds(slots, m, k);
      var c, n := Remove(k).circle, circle[k];
      forall i, j | 0 <= i < |c| && 0 <= j < |c| && j == i + 1
        ensures Unlinked(m, n)[c[i]].next == c[j] && Unlinked(m, n)[c[j]].pa == c[i]
      {
        RemovePair(slots, m, k, if i < k then i else i + 1, if j < k then j else j + 1);
      }
    }

    lemma RemoveLinks(slots: Slots<K, V>, m: map<Node<K, V>, Cell<K, V>>, k: nat)
      requires Fits(slots) && m.Keys == place.Keys && LinkedBy(m, slots) && k < |circle|
      ensures circle[k] in m && m[circle[k]].pa in m && m[circle[k]].next in m
      ensures Remove(k).Fits(slots[SlotOf(circle[k]) := Empty])
      ensures Remove(k).LinkedBy(Unlinked(m, circle[k]), slots[SlotOf(circle[k]) := Empty])
    {
      Neighbours(slots, m, k);
      RemoveFits(slots, k);
      RemoveHead(slots, m, k);
      RemoveEnds(slots, m, k);
      RemoveChain(slots, m, k);
      RemoveKeepsCells(slots, m, k);
      RemoveKeepsBack(slots, m, k);
    }

    lemma RemoveKeepsCells(slots: Slots<K, V>, m: map<Node<K, V>, Cell<K, V>>, k: nat)
      requires Fits(slots) && m.Keys == place.Keys && LinkedBy(m, slots) && k < |circle|
      requires circle[k] in m && m[circle[k]].pa in m && m[circle[k]].next in m
      ensures var n, c, s := circle[k], Remove(k).circle, slots[SlotOf(circle[k]) := Empty];
        forall i :: 0 <= i < |c| ==>
          && c[i] in place && 0 <= SlotOf(c[i]) < |s| && s[SlotOf(c[i])].Entry?
          && Unlinked(m, n)[c[i]].head == head && Unlinked(m, n)[c[i]].value == Some(s[SlotOf(c[i])].value)
    {
      RemoveCircleFits(slots, k);
      var c := Remove(k).circle;
      assert forall i :: 0 <= i < |c| ==> c[i] == circle[if i < k then i else i + 1];
      RemoveCircle(slots, k);
    }

    lemma RemoveKeepsBack(slots: Slots<K, V>, m: map<Node<K, V>, Cell<K, V>>, k: nat)
      requires Fits(slots) && m.Keys == place.Keys && LinkedBy(m, slots) && k < |circle|
      ensures var n, t := circle[k], Remove(k);
        && n in m && m[n].pa in m && m[n].next in m
        && forall x {:trigger t.back[x]} :: x in t.back ==>
             x in m && Unlinked(m, n)[x].pa == t.back[x] && Unlinked(m, n)[x].head != head
    {
      Neighbours(slots, m, k);
      var n, t := circle[k], Remove(k);
      forall x | x in t.back ensures x in m && Unlinked(m, n)[x].pa == t.back[x] && Unlinked(m, n)[x].head != head {
        if x != n { assert m[x].pa == back[x]; }
      }
    }

    lemma ResetBackAt(slots: Slots<K, V>, m: map<Node<K, V>, Cell<K, V>>, h: Node<K, V>, x: Node<K, V>)
      requires Fits(slots) && m.Keys == place.Keys && LinkedBy(m, slots) && h !in place
      requires forall i, j :: 0 <= i < j < |circle| ==> circle[i] != circle[j]
      requires x in Reset(slots, h).back
      ensures x in m && x != h
      ensures if x == head then Reset(slots, h).back[x] == h else m[x].pa == Reset(slots, h).back[x]
    {
      if x == head {
      } else if x in circle {
        Neighbours(slots, m, IndexOf(circle, x));
      } else {
        DeadElsewhere(slots, m, x);
      }
    }

    lemma ResetLinks(slots: Slots<K, V>, m: map<Node<K, V>, Cell<K, V>>, h: Node<K, V>)
      requires Fits(slots) && m.Keys == place.Keys && LinkedBy(m, slots) && h !in place && h.key == None
      requires forall n :: n in m ==> m[n].head != h
      requires forall i, j :: 0 <= i < j < |circle| ==> circle[i] != circle[j]
      requires Reset(slots, h).Fits(Clear(slots))
      requires Restarted(m, head, h).Keys == Reset(slots, h).place.Keys
      ensures Reset(slots, h).LinkedBy(Restarted(m, head, h), Clear(slots))
    {
      forall x | x in Reset(slots, h).back
        ensures Restarted(m, head, h)[x].pa == Reset(slots, h).back[x] && Restarted(m, head, h)[x].head != h
      {
        ResetBackAt(slots, m, h, x);
      }
    }

    lemma ResetKeys(slots: Slots<K, V>, m: map<Node<K, V>, Cell<K, V>>, h: Node<K, V>)
      requires head in m && m.Keys == place.Keys
      requires forall i, j :: 0 <= i < j < |circle| ==> circle[i] != circle[j]
      ensures Restarted(m, head, h).Keys == Reset(slots, h).place.Keys
    {
    }

    /** A node of another list is a dead one; following its `pa` keeps the position and comes closer to the circle. */
    lemma StepBack(slots: Slots<K, V>, m: map<Node<K, V>, Cell<K, V>>, n: Node<K, V>, i: int)
      requires Fits(slots) && m.Keys == place.Keys && LinkedBy(m, slots) && Tracks(slots, n, i)
      requires m[n].head != head
      ensures m[n].pa in place && Tracks(slots, m[n].pa, i)
      ensures place[n].era < place[m[n].pa].era <= era
              || (place[n].era == place[m[n].pa].era <= era && place[m[n].pa].index < place[n].index)
    {
      assert n in back && m[n].pa == back[n];
    }

    lemma DeadElsewhere(slots: Slots<K, V>, m: map<Node<K, V>, Cell<K, V>>, n: Node<K, V>)
      requires Fits(slots) && m.Keys == place.Keys && LinkedBy(m, slots) && n in back
      ensures n in m && m[n].pa == back[n] && m[n].head != head
    {
    }

    /** From a node in use, `next` is the next live slot's node, or the head when there is none. */
    lemma StepForward(slots: Slots<K, V>, m: map<Node<K, V>, Cell<K, V>>, n: Node<K, V>, i: nat)
      requires Fits(slots) && m.Keys == place.Keys && LinkedBy(m, slots) && Tracks(slots, n, i)
      requires m[n].head == head
      ensures var j := NextLive(slots, i);
        if j == |slots| then m[n].next == head
        else
          && m[n].next == nodes[j] && nodes[j] != head && nodes[j] in m && Tracks(slots, nodes[j], j + 1)
          && nodes[j].key == Some(slots[j].key) && m[nodes[j]].value == Some(slots[j].value)
    {
      if n in back { DeadElsewhere(slots, m, n); assert false; }
      var k := if n == head then 0 else IndexOf(circle, n) + 1;
      if n != head { Neighbours(slots, m, k - 1); }
      assert m[n].next == if k < |circle| then circle[k] else head;
      var j := if k < |circle| then SlotOf(circle[k]) else |slots|;
      forall x | Live(slots, x) && i <= x ensures j <= x {
        var a := IndexOf(circle, nodes[x]);
        assert SlotOf(circle[a]) == x && place[n].index <= x;
        if k > 0 { assert a >= k; }
      }
      assert k < |circle| ==> place[n].index <= j && Live(slots, j);
      NextLiveIs(slots, i, j);
    }

    /** No live slot lies between index `i` and the place of `n`. */
    ghost predicate Tracks(slots: Slots<K, V>, n: Node<K, V>, i: int) {
      n in place && 0 <= i <= |slots| && forall j :: Live(slots, j) ==> (i <= j <==> place[n].index <= j)
    }

    lemma HeadTracks(slots: Slots<K, V>)
      requires Fits(slots)
      ensures Tracks(slots, head, 0)
    {
      forall j | Live(slots, j) ensures place[head].index <= j {
        var a := IndexOf(circle, nodes[j]);
        assert SlotOf(circle[a]) == j;
      }
    }

    ghost function Append(slots: Slots<K, V>, n: Node<K, V>): Shape<K, V> {
      this.(nodes := nodes + [n], circle := circle + [n], place := place[n := Place(era, |slots| + 1)])
    }

    /** Takes the node at `k` out of the circle; it keeps pointing at its predecessor. */
    ghost function Remove(k: nat): Shape<K, V>
      requires k < |circle|
    {
      this.(circle := circle[..k] + circle[k + 1..], back := back[circle[k] := Pred(k)])
    }

    ghost function Pred(k: nat): Node<K, V>
      requires k <= |circle|
    {
      if k == 0 then head else circle[k - 1]
    }

    /** A new head; the old one points at it, the old circle points at itself. */
    ghost function Reset(slots: Slots<K, V>, h: Node<K, V>): Shape<K, V>
      requires forall i, j :: 0 <= i < j < |circle| ==> circle[i] != circle[j]
    {
      var gone := map n | n in circle :: Pred(IndexOf(circle, n));
      Shape(nodes, [], place[h := Place(era + 1, |slots|)], (back + gone)[head := h], h, era + 1)
    }

    lemma ValueFits(slots: Slots<K, V>, i: nat, v: V)
      requires Fits(slots) && Live(slots, i)
      ensures Fits(slots[i := EcmaMap.Entry(slots[i].key, v)])
    {
      var s := slots[i := EcmaMap.Entry(slots[i].key, v)];
      assert forall j :: Live(s, j) <==> Live(slots, j);
      assert forall j :: Live(s, j) ==> s[j].key == slots[j].key;
    }

    lemma AppendPlacesFit(slots: Slots<K, V>, n: Node<K, V>, k: K, v: V)
      requires Fits(slots) && n !in place && n.key == Some(k)
      ensures Append(slots, n).PlacesFit(slots + [EcmaMap.Entry(k, v)])
    {
      var s, t := slots + [EcmaMap.Entry(k, v)], Append(slots, n);
      forall x | x in t.place
        ensures t.place[x].index <= |s| && t.place[x].era <= era && (x == head || x in t.circle || x in back)
      {
        if x == n {
          assert t.circle[|circle|] == n;
        } else {
          assert place[x].index <= |slots|;
          if x in circle { assert x in t.circle; }
        }
      }
    }

    lemma AppendCircleFits(slots: Slots<K, V>, n: Node<K, V>, k: K, v: V)
      requires Fits(slots) && n !in place && n.key == Some(k)
      ensures n !in back && n !in circle
      ensures Append(slots, n).CircleFits(slots + [EcmaMap.Entry(k, v)])
    {
      var s, t := slots + [EcmaMap.Entry(k, v)], Append(slots, n);
      assert n !in back by { assert forall x :: x in back ==> x in place && back[x] == back[x]; }
      forall i | Live(s, i) ensures t.nodes[i] in t.circle {
        if i == |slots| { assert t.circle[|circle|] == n; } else { assert Live(slots, i) && nodes[i] in circle; }
      }
    }

    lemma AppendFits(slots: Slots<K, V>, n: Node<K, V>, k: K, v: V)
      requires Fits(slots) && !Has(slots, k) && n !in place && n.key == Some(k)
      ensures Append(slots, n).Fits(slots + [EcmaMap.Entry(k, v)])
    {
      var s, t := slots + [EcmaMap.Entry(k, v)], Append(slots, n);
      OperationsKeepKeys(slots, k, v);
      assert s == EcmaMap.Set(slots, k, v);
      AppendPlacesFit(slots, n, k, v);
      AppendCircleFits(slots, n, k, v);
      assert forall j :: Live(s, j) <==> Live(slots, j) || j == |slots|;
      forall x | x in t.back
        ensures x in t.place && t.back[x] in t.place && x !in t.circle
        ensures forall j :: Live(s, j) ==> (t.place[x].index <= j <==> t.place[t.back[x]].index <= j)
      {
        assert place[back[x]].index <= |slots| && place[x].index <= |slots|;
      }
    }

    lemma RemoveCircle(slots: Slots<K, V>, k: nat)
      requires Fits(slots) && k < |circle|
      ensures forall x :: x in circle <==> x in Remove(k).circle || x == circle[k]
      ensures circle[k] !in Remove(k).circle
    {
      CircleDiffers(slots);
      Without(circle, k);
    }

    lemma RemoveBackFits(slots: Slots<K, V>, k: nat)
      requires Fits(slots) && k < |circle|
      ensures Remove(k).BackFits(slots[SlotOf(circle[k]) := Empty])
    {
      var n, t := circle[k], Remove(k);
      var i := SlotOf(n);
      var s := slots[i := Empty];
      RemoveCircle(slots, k);
      PredIsClose(slots, k);
      assert forall j :: Live(s, j) ==> Live(slots, j) && j != i;
      forall x | x in t.back
        ensures x in t.place && t.back[x] in t.place && x != head && x !in t.circle
        ensures t.place[x].era < t.place[t.back[x]].era
                || (t.place[x].era == t.place[t.back[x]].era && t.place[t.back[x]].index < t.place[x].index)
        ensures forall j :: Live(s, j) ==> (t.place[x].index <= j <==> t.place[t.back[x]].index <= j)
      {
        if x != n { assert back[x] in place; }
      }
    }

    lemma RemovePlacesFit(slots: Slots<K, V>, k: nat)
      requires Fits(slots) && k < |circle|
      ensures var t, s := Remove(k), slots[SlotOf(circle[k]) := Empty];
        t.NodesFit(s) && t.PlacesFit(s) && KeysDiffer(s)
    {
      var t, s := Remove(k), slots[SlotOf(circle[k]) := Empty];
      RemoveCircle(slots, k);
      assert forall j :: Live(s, j) ==> Live(slots, j) && s[j].key == slots[j].key;
      forall x | x in t.place
        ensures t.place[x].index <= |s| && t.place[x].era <= t.era && (x == head || x in t.circle || x in t.back)
      {
        assert place[x].index <= |slots|;
      }
    }

    lemma RemoveFits(slots: Slots<K, V>, k: nat)
      requires Fits(slots) && k < |circle|
      ensures Remove(k).Fits(slots[SlotOf(circle[k]) := Empty])
    {
      var t, s := Remove(k), slots[SlotOf(circle[k]) := Empty];
      RemovePlacesFit(slots, k);
      RemoveCircle(slots, k);
      RemoveBackFits(slots, k);
      RemoveCircleFits(slots, k);
      forall j | Live(s, j) ensures t.nodes[j] in t.circle {
        assert Live(slots, j) && nodes[j] in circle;
      }
    }

    lemma RemoveCircleFits(slots: Slots<K, V>, k: nat)
      requires Fits(slots) && k < |circle|
      ensures var t, s := Remove(k), slots[SlotOf(circle[k]) := Empty];
        forall j :: 0 <= j < |t.circle| ==>
          && t.circle[j] in place && place[t.circle[j]].era == era && t.circle[j] !in t.back && t.circle[j] != head
          && Live(s, SlotOf(t.circle[j])) && nodes[SlotOf(t.circle[j])] == t.circle[j]
          && place[head].index <= SlotOf(t.circle[j])
      ensures forall i, j :: 0 <= i < j < |Remove(k).circle| ==>
        SlotOf(Remove(k).circle[i]) < SlotOf(Remove(k).circle[j])
    {
      var t := Remove(k);
      assert forall j :: 0 <= j < |t.circle| ==> t.circle[j] == circle[if j < k then j else j + 1];
      assert forall j :: 0 <= j < |circle| && j != k ==> SlotOf(circle[j]) != SlotOf(circle[k]);
    }

    /** No live slot but its own lies between a node of the circle and its predecessor. */
    lemma PredIsClose(slots: Slots<K, V>, k: nat)
      requires Fits(slots) && k < |circle|
      ensures Pred(k) in place && place[Pred(k)].era == era && place[Pred(k)].index < place[circle[k]].index
      ensures forall j :: Live(slots, j) && j != SlotOf(circle[k]) ==>
        (place[circle[k]].index <= j <==> place[Pred(k)].index <= j)
    {
      forall j | Live(slots, j) && j != SlotOf(circle[k])
        ensures place[circle[k]].index <= j <==> place[Pred(k)].index <= j
      {
        var a :| 0 <= a < |circle| && circle[a] == nodes[j];
        assert SlotOf(circle[a]) == j;
      }
    }

    lemma CircleDiffers(slots: Slots<K, V>)
      requires Fits(slots)
      ensures forall i, j :: 0 <= i < j < |circle| ==> circle[i] != circle[j]
    {
    }

    ghost predicate PointsBack(x: Node<K, V>, y: Node<K, V>) {
      && x in place && y in place
      && (place[x].era < place[y].era || (place[x].era == place[y].era && place[y].index < place[x].index))
    }

    lemma ResetPointsBack(slots: Slots<K, V>, h: Node<K, V>, x: Node<K, V>)
      requires Fits(slots) && h !in place
      requires forall i, j :: 0 <= i < j < |circle| ==> circle[i] != circle[j]
      requires x in Reset(slots, h).back
      ensures x != h && Reset(slots, h).PointsBack(x, Reset(slots, h).back[x])
    {
      if x == head {
      } else if x in circle {
        PredIsClose(slots, IndexOf(circle, x));
      } else {
        assert back[x] in place;
      }
    }

    lemma ResetFits(slots: Slots<K, V>, h: Node<K, V>)
      requires Fits(slots) && h !in place && h.key == None
      requires forall i, j :: 0 <= i < j < |circle| ==> circle[i] != circle[j]
      ensures Reset(slots, h).Fits(Clear(slots))
    {
      var s, t := Clear(slots), Reset(slots, h);
      assert forall j :: !Live(s, j);
      assert t.NodesFit(s) && KeysDiffer(s) && t.CircleFits(s);
      assert t.PlacesFit(s) by {
        forall x | x in t.place ensures t.place[x].index <= |s| && t.place[x].era <= t.era && (x == h || x in t.back) {
          if x != h { assert place[x].index <= |slots|; }
        }
      }
      forall x | x in t.back ensures x != h && t.PointsBack(x, t.back[x]) {
        ResetPointsBack(slots, h, x);
      }
    }

    /** What tracks a position keeps tracking it: new slots come last and dead ones stay dead. */
    lemma TracksStays(slots: Slots<K, V>, s: Slots<K, V>, t: Shape<K, V>, n: Node<K, V>, i: int)
      requires Fits(slots) && Tracks(slots, n, i) && |slots| <= |s|
      requires n in t.place && t.place[n] == place[n]
      requires forall j :: Live(s, j) ==> Live(slots, j) || |slots| <= j
      ensures t.Tracks(s, n, i)
    {
      assert place[n].index <= |slots|;
    }
  }

  lemma Without<T>(s: seq<T>, k: nat)
    requires k < |s| && forall i, j :: 0 <= i < j < |s| ==> s[i] != s[j]
    ensures forall x :: x in s <==> x in s[..k] + s[k + 1..] || x == s[k]
    ensures s[k] !in s[..k] + s[k + 1..]
  {
    var t := s[..k] + s[k + 1..];
    assert forall i :: 0 <= i < |t| ==> t[i] == s[if i < k then i else i + 1];
    forall x | x in s && x != s[k] ensures x in t {
      var a :| 0 <= a < |s| && s[a] == x;
      assert t[if a < k then a else a - 1] == x;
    }
  }

  ghost function IndexOf<T>(s: seq<T>, x: T): (i: nat)
    requires x in s
    ensures i < |s| && s[i] == x
  {
    var i :| 0 <= i < |s| && s[i] == x; i
  }

  /** Everything a map keeps, as values: what the class's fields and its nodes' fields hold at some moment. */
  datatype Book<!K, !V> = Book(
    id: K -> string,
    slots: Slots<K, V>,
    shape: Shape<K, V>,
    cells: map<Node<K, V>, Cell<K, V>>,
    buckets: map<string, seq<Node<K, V>>>,
    size: nat)
  {
    ghost predicate Correct() {
      && shape.Fits(slots) && cells.Keys == shape.place.Keys && shape.LinkedBy(cells, slots)
      && HashedFor(id, buckets, shape.circle) && size == Size(slots)
    }

    /** `Correct`, stated so that it is only expanded where `Expand` is mentioned. */
    ghost predicate Kept() {
      forall u {:trigger Expand(u)} :: Expand(u) ==> Correct()
    }

    ghost function Replaced(n: Node<K, V>, v: V): Book<K, V>
      requires n in shape.place && 0 <= shape.SlotOf(n) < |slots| && slots[shape.SlotOf(n)].Entry? && n in cells
    {
      this.(slots := slots[shape.SlotOf(n) := Entry(slots[shape.SlotOf(n)].key, v)],
            cells := cells[n := cells[n].(value := Some(v))])
    }

    ghost function Appended(e: Node<K, V>, k: K, v: V, list: seq<Node<K, V>>): Book<K, V>
      requires shape.head in cells && cells[shape.head].pa in cells
    {
      this.(slots := slots + [Entry(k, v)], shape := shape.Append(slots, e), size := size + 1,
            cells := LinkedIn(cells, shape.head, e, v), buckets := buckets[id(k) := list + [e]])
    }

    lemma ReplaceKept(n: Node<K, V>, k: K, v: V)
      requires Kept() && n in shape.circle
      ensures n in shape.place && 0 <= shape.SlotOf(n) < |slots| && slots[shape.SlotOf(n)].Entry? && n in cells
      ensures Replaced(n, v).Kept()
      ensures Holds(slots, k, shape.SlotOf(n)) ==> Replaced(n, v).slots == EcmaMap.Set(slots, k, v)
    {
      assert Expand(0);
      shape.ReplaceLinks(slots, cells, n, v);
      SizeReplace(slots, shape.SlotOf(n), Entry(slots[shape.SlotOf(n)].key, v));
    }

    lemma Ahead(n: Node<K, V>, i: nat)
      requires Kept() && shape.Tracks(slots, n, i) && (n in cells ==> cells[n].head == shape.head)
      ensures n in cells && |shape.nodes| == |slots|
      ensures var j := NextLive(slots, i);
        if j == |slots| then cells[n].next == shape.head
        else
          var e := shape.nodes[j];
          && cells[n].next == e && e != shape.head && e in cells && shape.Tracks(slots, e, j + 1)
          && e.key == Some(slots[j].key) && cells[e].value == Some(slots[j].value)
    {
      assert Expand(0);
      shape.StepForward(slots, cells, n, i);
    }

    lemma HeadIsPlaced()
      requires Kept()
      ensures shape.head in cells && cells[shape.head].pa in cells && cells.Keys == shape.place.Keys
    {
      assert Expand(0);
    }

    lemma AppendCorrect(e: Node<K, V>, k: K, v: V, list: seq<Node<K, V>>)
      requires Correct() && !Has(slots, k) && e !in shape.place && e.key == Some(k)
      requires list == if id(k) in buckets then buckets[id(k)] else []
      ensures shape.head in cells && cells[shape.head].pa in cells
      ensures Appended(e, k, v, list).Correct()
    {
      shape.AppendFits(slots, e, k, v);
      shape.AppendCircleFits(slots, e, k, v);
      shape.AppendLinks(slots, cells, e, k, v);
      AppendHashes(id, buckets, shape.circle, list, e, k);
      SizeAppend(slots, Entry(k, v));
    }

    ghost function Removed(k: nat, list: seq<Node<K, V>>, index: nat): Book<K, V>
      requires k < |shape.circle| && shape.circle[k] in shape.place && 0 <= shape.SlotOf(shape.circle[k]) < |slots|
      requires index < |list| && list[index] == shape.circle[k] && shape.circle[k].key.Some?
      requires var m, n := cells, shape.circle[k]; n in m && m[n].pa in m && m[n].next in m
    {
      var n := shape.circle[k];
      this.(slots := slots[shape.SlotOf(n) := Empty], shape := shape.Remove(k),
            size := if size == 0 then 0 else size - 1,
            cells := Unlinked(cells, n), buckets := Unhashed(buckets, id(n.key.value), list, index))
    }

    ghost predicate InBucket(k: nat, list: seq<Node<K, V>>, index: nat) {
      && k < |shape.circle| && index < |list| && list[index] == shape.circle[k] && shape.circle[k].key.Some?
      && id(shape.circle[k].key.value) in buckets && list == buckets[id(shape.circle[k].key.value)]
    }

    lemma RemoveIsDefined(k: nat, list: seq<Node<K, V>>, index: nat)
      requires Correct() && InBucket(k, list, index)
      ensures shape.circle[k] in shape.place && 0 <= shape.SlotOf(shape.circle[k]) < |slots|
      ensures Live(slots, shape.SlotOf(shape.circle[k]))
      ensures var m, n := cells, shape.circle[k];
        n in m && m[n].pa in m && m[n].next in m && m[n].pa != n && m[n].next != n
    {
      shape.Neighbours(slots, cells, k);
    }

    lemma RemoveCorrect(k: nat, list: seq<Node<K, V>>, index: nat)
      requires Correct() && InBucket(k, list, index)
      requires shape.circle[k] in shape.place && 0 <= shape.SlotOf(shape.circle[k]) < |slots|
      requires Live(slots, shape.SlotOf(shape.circle[k]))
      requires var m, n := cells, shape.circle[k]; n in m && m[n].pa in m && m[n].next in m
      ensures Removed(k, list, index).Correct() && size > 0
    {
      shape.RemoveLinks(slots, cells, k);
      RemoveCounts(k, list, index);
    }

    lemma RemoveCounts(k: nat, list: seq<Node<K, V>>, index: nat)
      requires Correct() && InBucket(k, list, index)
      requires shape.circle[k] in shape.place && 0 <= shape.SlotOf(shape.circle[k]) < |slots|
      requires Live(slots, shape.SlotOf(shape.circle[k]))
      requires var m, n := cells, shape.circle[k]; n in m && m[n].pa in m && m[n].next in m
      ensures var r := Removed(k, list, index);
        HashedFor(id, r.buckets, r.shape.circle) && r.size == Size(r.slots) && size > 0
    {
      shape.CircleDiffers(slots);
      RemoveHashes(id, buckets, shape.circle, k, list, index);
      SizeReplace(slots, shape.SlotOf(shape.circle[k]), Empty);
    }

    lemma RemoveKept(k: nat, list: seq<Node<K, V>>, index: nat, key: K)
      requires Kept() && InBucket(k, list, index) && shape.circle[k] in shape.place
      requires Holds(slots, key, shape.SlotOf(shape.circle[k]))
      ensures shape.circle[k] in shape.place && 0 <= shape.SlotOf(shape.circle[k]) < |slots|
      ensures var m, n := cells, shape.circle[k];
        n in m && m[n].pa in m && m[n].next in m && m[n].pa != n && m[n].next != n && shape.head in m
      ensures Removed(k, list, index).Kept() && size > 0
      ensures Removed(k, list, index).slots == EcmaMap.Delete(slots, key)
      ensures TracksOn(shape, slots, shape.Remove(k), slots[shape.SlotOf(shape.circle[k]) := Empty])
    {
      assert Correct() by { assert Expand(0); }
      RemoveIsDefined(k, list, index);
      RemoveCorrect(k, list, index);
      RemoveTracks(k);
      DeleteIs(slots, key, shape.SlotOf(shape.circle[k]));
    }

    ghost function Cleared(h: Node<K, V>): Book<K, V>
      requires shape.head in cells
      requires forall i, j :: 0 <= i < j < |shape.circle| ==> shape.circle[i] != shape.circle[j]
    {
      this.(slots := EcmaMap.Clear(slots), shape := shape.Reset(slots, h), size := 0,
            cells := Restarted(cells, shape.head, h), buckets := map[])
    }

    lemma ClearCorrect(h: Node<K, V>)
      requires Correct() && h !in shape.place && h.key == None && forall n :: n in cells ==> cells[n].head != h
      ensures shape.head in cells
      ensures forall i, j :: 0 <= i < j < |shape.circle| ==> shape.circle[i] != shape.circle[j]
      ensures Cleared(h).Correct()
    {
      shape.CircleDiffers(slots);
      shape.ResetFits(slots, h);
      shape.ResetKeys(slots, cells, h);
      shape.ResetLinks(slots, cells, h);
      SizeClear(slots);
    }

    lemma ClearKept(h: Node<K, V>)
      requires Kept() && h !in shape.place && h.key == None && forall n :: n in cells ==> cells[n].head != h
      ensures shape.head in cells
      ensures forall i, j :: 0 <= i < j < |shape.circle| ==> shape.circle[i] != shape.circle[j]
      ensures Cleared(h).Kept()
      ensures TracksOn(shape, slots, shape.Reset(slots, h), EcmaMap.Clear(slots))
    {
      assert Correct() by { assert Expand(0); }
      ClearCorrect(h);
      ClearTracks(h);
    }

    lemma ClearTracks(h: Node<K, V>)
      requires shape.Fits(slots) && h !in shape.place
      requires forall i, j :: 0 <= i < j < |shape.circle| ==> shape.circle[i] != shape.circle[j]
      ensures TracksOn(shape, slots, shape.Reset(slots, h), EcmaMap.Clear(slots))
    {
      TracksKept(shape, slots, shape.Reset(slots, h), EcmaMap.Clear(slots));
    }

    lemma RemoveTracks(k: nat)
      requires shape.Fits(slots) && k < |shape.circle|
      ensures TracksOn(shape, slots, shape.Remove(k), slots[shape.SlotOf(shape.circle[k]) := Empty])
    {
      TracksKept(shape, slots, shape.Remove(k), slots[shape.SlotOf(shape.circle[k]) := Empty]);
    }

    lemma AppendTracks(e: Node<K, V>, k: K, v: V)
      requires shape.Fits(slots) && e !in shape.place
      ensures TracksOn(shape, slots, shape.Append(slots, e), slots + [Entry(k, v)])
    {
      TracksKept(shape, slots, shape.Append(slots, e), slots + [Entry(k, v)]);
    }

    lemma AppendKept(e: Node<K, V>, k: K, v: V, list: seq<Node<K, V>>)
      requires Kept() && !Has(slots, k) && e !in shape.place && e.key == Some(k)
      requires list == if id(k) in buckets then buckets[id(k)] else []
      ensures shape.head in cells && cells[shape.head].pa in cells
      ensures Appended(e, k, v, list).Kept()
      ensures TracksOn(shape, slots, shape.Append(slots, e), slots + [Entry(k, v)])
    {
      assert Correct() by { assert Expand(0); }
      AppendCorrect(e, k, v, list);
      AppendTracks(e, k, v);
    }
  }

  ghost predicate Expand(u: int) { true }

  ghost predicate Follow(u: int) { true }

  ghost predicate Look(u: int) { true }

  /** The cells after `e` has been put between the last node and the head. */
  ghost function LinkedIn<K, V>(m: map<Node<K, V>, Cell<K, V>>, head: Node<K, V>, e: Node<K, V>, v: V)
    : (r: map<Node<K, V>, Cell<K, V>>)
    requires head in m && m[head].pa in m
    ensures r.Keys == m.Keys + {e}
  {
    var last := m[head].pa;
    var m1 := m[e := Cell(head, last, head, Some(v))];
    var m2 := m1[last := m1[last].(next := e)];
    m2[head := m2[head].(pa := e)]
  }

  /** The cells after `n` has been taken out: its neighbours meet and it belongs to no list, but it keeps its links. */
  ghost function Unlinked<K, V>(m: map<Node<K, V>, Cell<K, V>>, n: Node<K, V>): (r: map<Node<K, V>, Cell<K, V>>)
    requires n in m && m[n].pa in m && m[n].next in m
    ensures r.Keys == m.Keys
  {
    var pred, succ := m[n].pa, m[n].next;
    map x | x in m ::
      Cell(if x == pred then succ else m[x].next, if x == succ then pred else m[x].pa,
           if x == n then null else m[x].head, m[x].value)
  }

  /** The cells after `h` has become the head of a new, empty list. */
  ghost function Restarted<K, V>(m: map<Node<K, V>, Cell<K, V>>, head: Node<K, V>, h: Node<K, V>)
    : (r: map<Node<K, V>, Cell<K, V>>)
    requires head in m
    ensures r.Keys == m.Keys + {h}
  {
    m[head := m[head].(pa := h)][h := Cell(h, h, h, None)]
  }

  /** The buckets after one node has left the bucket `list` of hash `h`; a bucket left empty goes too. */
  ghost function Unhashed<T>(b: map<string, seq<T>>, h: string, list: seq<T>, index: nat): map<string, seq<T>>
    requires index < |list|
  {
    var rest := list[..index] + list[index + 1..];
    if rest == [] then b - {h} else b[h := rest]
  }

  lemma RemoveHashes<K, V>(id: K -> string, b: map<string, seq<Node<K, V>>>, circle: seq<Node<K, V>>,
                           k: nat, list: seq<Node<K, V>>, index: nat)
    requires HashedFor(id, b, circle) && k < |circle| && forall i, j :: 0 <= i < j < |circle| ==> circle[i] != circle[j]
    requires circle[k].key.Some? && id(circle[k].key.value) in b && list == b[id(circle[k].key.value)]
    requires index < |list| && list[index] == circle[k]
    ensures HashedFor(id, Unhashed(b, id(circle[k].key.value), list, index), circle[..k] + circle[k + 1..])
  {
    Without(circle, k);
    Without(list, index);
    var h := id(circle[k].key.value);
    var rest, b' := list[..index] + list[index + 1..], Unhashed(b, h, list, index);
    assert forall x :: 0 <= x < |rest| ==> rest[x] == list[if x < index then x else x + 1];
    forall n | n in circle[..k] + circle[k + 1..]
      ensures n.key.Some? && id(n.key.value) in b' && n in b'[id(n.key.value)]
    {
      assert n in circle && n != circle[k];
      if id(n.key.value) == h { assert n in rest; }
    }
    forall g, x | g in b' && 0 <= x < |b'[g]|
      ensures b'[g][x] in circle[..k] + circle[k + 1..] && b'[g][x].key.Some? && id(b'[g][x].key.value) == g
    {
      if g == h { assert rest[x] in rest && rest[x] in list; } else { assert b[g][x] != circle[k]; }
    }
  }

  /** Each bucket holds, once each, the nodes in use whose keys hash to it, and none is empty. */
  ghost predicate HashedFor<K, V>(id: K -> string, b: map<string, seq<Node<K, V>>>, circle: seq<Node<K, V>>) {
    && (forall n :: n in circle ==> n.key.Some? && id(n.key.value) in b && n in b[id(n.key.value)])
    && (forall h :: h in b ==> b[h] != [])
    && (forall h, x :: h in b && 0 <= x < |b[h]| ==>
          b[h][x] in circle && b[h][x].key.Some? && id(b[h][x].key.value) == h)
    && (forall h, x, y :: h in b && 0 <= x < y < |b[h]| ==> b[h][x] != b[h][y])
  }

  lemma AppendHashes<K, V>(id: K -> string, b: map<string, seq<Node<K, V>>>, circle: seq<Node<K, V>>,
                           list: seq<Node<K, V>>, e: Node<K, V>, k: K)
    requires HashedFor(id, b, circle) && e !in circle && e.key == Some(k)
    requires list == if id(k) in b then b[id(k)] else []
    ensures HashedFor(id, b[id(k) := list + [e]], circle + [e])
  {
  }

  /** Everything that tracked a position in `s` tracks it in `s'`. */
  ghost predicate TracksOn<K, V>(t: Shape<K, V>, s: Slots<K, V>, t': Shape<K, V>, s': Slots<K, V>) {
    forall u {:trigger Follow(u)} :: Follow(u) ==>
      && t.place.Keys <= t'.place.Keys
      && forall n, i :: n in t.place && t.Tracks(s, n, i) ==> t'.Tracks(s', n, i)
  }

  class LinkedMap<K(==), V> {
    const id: K -> string
    var buckets: map<string, seq<Node<K, V>>>
    var head: Node<K, V>
    var size: nat
    ghost var slots: seq<Slot<K, V>>
    ghost var shape: Shape<K, V>

    ghost function ToBook(): Book<K, V>
      reads this, shape.place.Keys
    {
      Book(id, slots, shape, Cells(shape.place.Keys), buckets, size)
    }

    ghost predicate Valid()
      reads this, shape.place.Keys
    {
      head == shape.head && ToBook().Kept()
    }

    /** The value that the standard's Map has for `k`. */
    ghost function Value(k: K): Option<V>
      reads this
    {
      ValueAt(slots, k)
    }

    constructor (id: K -> string)
      ensures Valid() && slots == [] && this.id == id && fresh(shape.place.Keys)
    {
      this.id := id;
      var h := new Node<K, V>.Head();
      buckets, head, size := map[], h, 0;
      slots, shape := [], Shape([], [], map[h := Place(0, 0)], map[], h, 0);
    }

    /** Gives the fields the values that `book` has, once the nodes have theirs. */
    method Assign(buckets: map<string, seq<Node<K, V>>>, head: Node<K, V>, size: nat, ghost book: Book<K, V>)
      requires book.id == id && book.buckets == buckets && book.size == size && book.shape.head == head
      requires book.cells == Cells(book.shape.place.Keys) && book.Kept()
      modifies this
      ensures Valid() && ToBook() == book
    {
      this.buckets, this.head, this.size, slots, shape := buckets, head, size, book.slots, book.shape;
      assert Cells(book.shape.place.Keys) == book.cells;
      assert ToBook() == book;
    }

    /** The bucket of `k`, and where in it the entry of `k` is. */
    method Lookup(k: K) returns (list: seq<Node<K, V>>, index: int, entry: Node?<K, V>)
      requires Valid()
      ensures list == if id(k) in buckets then buckets[id(k)] else []
      ensures entry == null ==> index == -1 && !EcmaMap.Has(slots, k)
      ensures entry != null ==>
        0 <= index < |list| && entry == list[index] && entry in shape.circle && entry in shape.place
      ensures entry != null ==> id(k) in buckets && entry.key == Some(k) && Holds(slots, k, shape.SlotOf(entry))
    {
      assert Expand(0);
      list, index, entry := [], -1, null;
      if id(k) in buckets {
        list := buckets[id(k)];
        var i := 0;
        while i < |list|
          invariant 0 <= i <= |list|
          invariant forall x :: 0 <= x < i ==> list[x].key != Some(k)
        {
          if list[i].key == Some(k) {
            return list, i, list[i];
          }
          i := i + 1;
        }
      }
      forall i | Live(slots, i) ensures slots[i].key != k {
        assert shape.nodes[i] in shape.circle;
      }
    }

    method Replace(entry: Node<K, V>, ghost k: K, v: V)
      requires Valid() && entry in shape.circle && entry in shape.place && Holds(slots, k, shape.SlotOf(entry))
      modifies this, shape.place.Keys
      ensures Valid() && slots == EcmaMap.Set(old(slots), k, v)
      ensures shape == old(shape) && TracksOn(shape, old(slots), shape, slots)
    {
      ghost var book: Book<K, V> := ToBook();
      book.ReplaceKept(entry, k, v);
      SetValue(entry, v, shape.place.Keys);
      slots := slots[shape.SlotOf(entry) := EcmaMap.Entry(slots[shape.SlotOf(entry)].key, v)];
      assert ToBook() == book.Replaced(entry, v);
      ReplaceTracks(shape, old(slots), slots);
    }

    method Append(k: K, v: V, list: seq<Node<K, V>>)
      requires Valid() && !EcmaMap.Has(slots, k)
      requires list == if id(k) in buckets then buckets[id(k)] else []
      modifies this, shape.place.Keys
      ensures Valid() && slots == old(slots) + [EcmaMap.Entry(k, v)]
      ensures TracksOn(old(shape), old(slots), shape, slots) && fresh(shape.place.Keys - old(shape).place.Keys)
    {
      ghost var book: Book<K, V> := ToBook();
      book.HeadIsPlaced();
      var e := LinkIn(head, k, v, shape.place.Keys);
      book.AppendKept(e, k, v, list);
      assert shape.Append(slots, e).place.Keys == book.shape.place.Keys + {e};
      Assign(buckets[id(k) := list + [e]], head, size + 1, book.Appended(e, k, v, list));
    }

    method Set(k: K, v: V)
      requires Valid()
      modifies this, shape.place.Keys
      ensures Valid() && slots == EcmaMap.Set(old(slots), k, v)
      ensures Value(k) == Some(v) && forall x :: x != k ==> Value(x) == ValueAt(old(slots), x)
      ensures TracksOn(old(shape), old(slots), shape, slots) && fresh(shape.place.Keys - old(shape).place.Keys)
    {
      SetFinds(k, v);
      var list, index, entry := Lookup(k);
      if entry != null {
        Replace(entry, k, v);
      } else {
        Append(k, v, list);
      }
    }

    method Remove(list: seq<Node<K, V>>, index: nat, entry: Node<K, V>, k: K)
      requires Valid() && index < |list| && entry == list[index] && entry in shape.circle && entry in shape.place
      requires id(k) in buckets && list == buckets[id(k)]
      requires entry.key == Some(k) && Holds(slots, k, shape.SlotOf(entry))
      modifies this, shape.place.Keys
      ensures Valid() && slots == EcmaMap.Delete(old(slots), k)
      ensures TracksOn(old(shape), old(slots), shape, slots) && shape.place.Keys == old(shape).place.Keys
    {
      ghost var book: Book<K, V>, at := ToBook(), IndexOf(shape.circle, entry);
      book.RemoveKept(at, list, index, k);
      var rest := list[..index] + list[index + 1..];
      Unlink(entry, shape.place.Keys);
      Assign(if |rest| == 0 then buckets - {id(k)} else buckets[id(k) := rest], head, size - 1,
             book.Removed(at, list, index));
    }

    method Delete(k: K) returns (found: bool)
      requires Valid()
      modifies this, shape.place.Keys
      ensures Valid() && slots == EcmaMap.Delete(old(slots), k) && found == EcmaMap.Has(old(slots), k)
      ensures found == old(Value(k)).Some? && Value(k) == None
      ensures forall x :: x != k ==> Value(x) == ValueAt(old(slots), x)
      ensures TracksOn(old(shape), old(slots), shape, slots) && shape.place.Keys == old(shape).place.Keys
    {
      DeleteFinds(k);
      found := RemoveKey(k);
    }

    method RemoveKey(k: K) returns (found: bool)
      requires Valid()
      modifies this, shape.place.Keys
      ensures Valid() && slots == EcmaMap.Delete(old(slots), k) && found == EcmaMap.Has(old(slots), k)
      ensures TracksOn(old(shape), old(slots), shape, slots) && shape.place.Keys == old(shape).place.Keys
    {
      var list, index, entry := Lookup(k);
      found := entry != null;
      if entry != null {
        Remove(list, index, entry, k);
      }
    }

    /** `size` counts the entries of the standard's Map, whose keys are distinct. */
    lemma SizeIs()
      requires Valid()
      ensures size == EcmaMap.Size(slots) == |LiveSlots(slots)| && KeysDiffer(slots)
    {
      assert Expand(0);
      SizeCounts(slots);
    }

    lemma SetFinds(k: K, v: V)
      requires Valid()
      ensures ValueAt(EcmaMap.Set(slots, k, v), k) == Some(v)
      ensures forall x :: x != k ==> ValueAt(EcmaMap.Set(slots, k, v), x) == ValueAt(slots, x)
    {
      SizeIs();
      FindsWhatWasSet(slots, k, v, k);
      forall x | x != k ensures ValueAt(EcmaMap.Set(slots, k, v), x) == ValueAt(slots, x) {
        FindsWhatWasSet(slots, k, v, x);
      }
    }

    lemma DeleteFinds(k: K)
      requires Valid()
      ensures ValueAt(EcmaMap.Delete(slots, k), k) == None
      ensures forall x :: x != k ==> ValueAt(EcmaMap.Delete(slots, k), x) == ValueAt(slots, x)
    {
      SizeIs();
      FindsWhatIsLeft(slots, k, k);
      forall x | x != k ensures ValueAt(EcmaMap.Delete(slots, k), x) == ValueAt(slots, x) {
        FindsWhatIsLeft(slots, k, x);
      }
    }

    method Has(k: K) returns (found: bool)
      requires Valid()
      ensures found == EcmaMap.Has(slots, k) == Value(k).Some?
    {
      var _, _, entry := Lookup(k);
      return entry != null;
    }

    method Get(k: K) returns (v: Option<V>)
      requires Valid()
      ensures v == Value(k)
      ensures !EcmaMap.Has(slots, k) ==> v == None
      ensures forall i :: Holds(slots, k, i) ==> v == Some(slots[i].value)
    {
      var _, _, entry := Lookup(k);
      if entry == null { return None; }
      assert Expand(0);
      assert Cells(shape.place.Keys)[entry].value == entry.value;
      return entry.value;
    }

    method Clear()
      requires Valid()
      modifies this, shape.place.Keys
      ensures Valid() && slots == EcmaMap.Clear(old(slots)) && forall k :: Value(k) == None
      ensures TracksOn(old(shape), old(slots), shape, slots) && fresh(shape.place.Keys - old(shape).place.Keys)
    {
      ghost var book: Book<K, V> := ToBook();
      book.HeadIsPlaced();
      var h := Restart(head, shape.place.Keys);
      book.ClearKept(h);
      assert shape.Reset(slots, h).place.Keys == book.shape.place.Keys + {h};
      Assign(map[], h, 0, book.Cleared(h));
    }
  }

  /** An iterator holds a node and nothing else; `node` is null once it is done. */
  class MapIterator<K(==), V> {
    const over: LinkedMap<K, V>
    var node: Node?<K, V>
    ghost var index: nat

    ghost predicate Valid()
      reads this, over, over.shape.place.Keys
    {
      && over.Valid() && index <= |over.slots|
      && (node != null ==> over.shape.Tracks(over.slots, node, index))
    }

    constructor (over: LinkedMap<K, V>)
      requires over.Valid()
      ensures Valid() && this.over == over && index == 0 && node != null
    {
      this.over, this.node, this.index := over, over.head, 0;
      new;
      assert Expand(0);
      over.shape.HeadTracks(over.slots);
    }

    /** Leaves the nodes that are in no list or in an old one for one of the current list. */
    method Rejoin() returns (n: Node<K, V>)
      requires Valid() && node != null
      ensures n.head == over.head && over.shape.Tracks(over.slots, n, index)
    {
      n := node;
      ghost var shape: Shape<K, V>, slots, cells := over.shape, over.slots, Cells(over.shape.place.Keys);
      assert shape.Fits(slots) && cells.Keys == shape.place.Keys && shape.LinkedBy(cells, slots)
        && over.head == shape.head by {
        assert Expand(0);
      }
      assert shape.place[n].era <= shape.era;
      while n.head != over.head
        invariant shape.Tracks(slots, n, index) && shape.place[n].era <= shape.era
        decreases shape.era - shape.place[n].era, shape.place[n].index
      {
        assert cells[n] == Cell(n.next, n.pa, n.head, n.value);
        shape.StepBack(slots, cells, n, index);
        n := n.pa;
      }
    }

    /** Yields the first entry at or after the iterator's index, whatever happened to the map since the last call. */
    method Next() returns (r: Option<(K, Option<V>)>)
      requires Valid()
      modifies this
      ensures Valid()
      ensures old(node) == null ==> r == None && node == null && index == old(index)
      ensures old(node) != null ==>
        var j := NextLive(over.slots, old(index));
        if j == |over.slots| then r == None && node == null && index == j
        else r == Some((over.slots[j].key, Some(over.slots[j].value))) && node != null && index == j + 1
    {
      if node == null { return None; }
      var n := Rejoin();
      ghost var j := Peek(n);
      if n.next != n.head {
        r := Some((n.next.key.value, n.next.value));
        Move(n.next, j + 1);
      } else {
        Move(null, j);
        r := None;
      }
    }

    method Move(n: Node?<K, V>, ghost i: nat)
      requires Valid() && i <= |over.slots| && (n != null ==> over.shape.Tracks(over.slots, n, i))
      modifies this
      ensures Valid() && node == n && index == i
    {
      node, index := n, i;
    }

    /** What lies ahead of a node of the current list. */
    ghost method Peek(n: Node<K, V>) returns (j: nat)
      requires over.Valid() && index <= |over.slots| && over.shape.Tracks(over.slots, n, index) && n.head == over.head
      ensures j == NextLive(over.slots, index)
      ensures j == |over.slots| <==> n.next == n.head
      ensures j < |over.slots| ==>
        && n.next.key == Some(over.slots[j].key) && n.next.value == Some(over.slots[j].value)
        && over.shape.Tracks(over.slots, n.next, j + 1)
    {
      j := NextLive(over.slots, index);
      var cells := Cells(over.shape.place.Keys);
      assert cells[n] == Cell(n.next, n.pa, n.head, n.value);
      over.ToBook().Ahead(n, index);
      assert j < |over.slots| ==> cells[n.next].value == n.next.value;
    }
  }

  /** A map and an iterator are where the standard's are. */
  ghost predicate At<K, V>(m: LinkedMap<K, V>, it: MapIterator<K, V>, w: Walk<K, V>)
    reads m, it, m.shape.place.Keys
  {
    forall u {:trigger Look(u)} :: Look(u) ==>
      it.over == m && it.Valid() && m.slots == w.slots && it.index == w.index && (it.node == null <==> w.done)
  }

  /** entries(): a fresh iterator, at the beginning of the map as it is. */
  method Entries<K(==), V>(m: LinkedMap<K, V>) returns (it: MapIterator<K, V>)
    requires m.Valid()
    ensures fresh(it) && At(m, it, Open(m.slots))
  {
    it := new MapIterator(m);
  }

  method Change<K(==), V>(m: LinkedMap<K, V>, c: Command<K, V>)
    requires m.Valid() && !c.NextOf?
    modifies m, m.shape.place.Keys
    ensures m.Valid() && m.slots == SlotsAfter(old(m.slots), c)
    ensures TracksOn(old(m.shape), old(m.slots), m.shape, m.slots)
    ensures fresh(m.shape.place.Keys - old(m.shape.place.Keys))
  {
    match c {
      case SetKey(k, v) => m.Set(k, v);
      case DeleteKey(k) => var found := m.Delete(k);
      case ClearAll => m.Clear();
    }
  }

  /** The iterators are distinct objects over `m`, and each is where its walk is. */
  ghost predicate AllAt<K, V>(m: LinkedMap<K, V>, its: seq<MapIterator<K, V>>, ws: seq<Walk<K, V>>)
    reads m, its, m.shape.place.Keys
  {
    && m.Valid() && |its| == |ws|
    && (forall i, j :: 0 <= i < j < |its| ==> its[i] != its[j])
    && forall i :: 0 <= i < |its| ==> At(m, its[i], ws[i]) && WalkKept(ws[i])
  }

  /** Each walk after a program. */
  ghost function Walks<K, V>(ws: seq<Walk<K, V>>, cs: seq<Command<K, V>>): (r: seq<Walk<K, V>>)
    requires forall i :: 0 <= i < |ws| ==> WalkKept(ws[i])
    ensures |r| == |ws| && forall i :: 0 <= i < |r| ==> WalkKept(r[i])
  {
    seq(|ws|, i requires 0 <= i < |ws| => DoAll(ws[i], MetBy(cs, i)))
  }

  /** Each walk after one command. */
  ghost function AfterOne<K, V>(ws: seq<Walk<K, V>>, c: Command<K, V>): (r: seq<Walk<K, V>>)
    requires forall i :: 0 <= i < |ws| ==> WalkKept(ws[i])
    ensures |r| == |ws| && forall i :: 0 <= i < |r| ==> WalkKept(r[i])
  {
    assert forall i :: 0 <= i < |ws| ==> WalkKept(ws[i]) && ws[i].index <= |ws[i].slots|;
    AllKeep(ws, c);
    seq(|ws|, i requires 0 <= i < |ws| && ws[i].index <= |ws[i].slots| => DoFor(ws[i], c, i))
  }

  lemma AllKeep<K, V>(ws: seq<Walk<K, V>>, c: Command<K, V>)
    requires forall i :: 0 <= i < |ws| ==> WalkKept(ws[i])
    ensures forall i :: 0 <= i < |ws| ==> ws[i].index <= |ws[i].slots| && WalkKept(DoFor(ws[i], c, i))
  {
    forall i | 0 <= i < |ws| ensures ws[i].index <= |ws[i].slots| && WalkKept(DoFor(ws[i], c, i)) {
      if OpsFor(c, i) != [] { DoKeeps(ws[i], OpsFor(c, i)[0]); }
    }
  }

  method NextAmong<K(==), V>(m: LinkedMap<K, V>, its: seq<MapIterator<K, V>>, k: nat, ghost ws: seq<Walk<K, V>>)
    returns (item: seq<Slot<K, Option<V>>>)
    requires AllAt(m, its, ws) && k < |its|
    modifies its[k]
    ensures forall i :: 0 <= i < |its| ==> At(m, its[i], DoFor(ws[i], NextOf(k), i))
    ensures ws[k].items + Values(item) == Do(ws[k], DoNext).items
  {
    item := [];
    assert At(m, its[k], ws[k]) && Look(0);
    var got := its[k].Next();
    if got.Some? { item := [Entry(got.value.0, got.value.1)]; }
    forall i | 0 <= i < |its| ensures At(m, its[i], DoFor(ws[i], NextOf(k), i)) {
      assert At(m, its[i], ws[i]) || i == k;
    }
  }

  method ChangeAmong<K(==), V>(m: LinkedMap<K, V>, its: seq<MapIterator<K, V>>, c: Command<K, V>,
                               ghost ws: seq<Walk<K, V>>)
    requires AllAt(m, its, ws) && !c.NextOf?
    modifies m, m.shape.place.Keys
    ensures m.Valid() && fresh(m.shape.place.Keys - old(m.shape.place.Keys))
    ensures forall i :: 0 <= i < |its| ==> At(m, its[i], DoFor(ws[i], c, i))
  {
    forall i | 0 <= i < |its| ensures its[i].over == m && its[i].Valid() && m.slots == ws[i].slots {
      assert At(m, its[i], ws[i]) && Look(0);
    }
    Change(m, c);
    assert Follow(0);
  }

  /** Runs one command; what a next() yields is an entry or nothing. */
  method RunOne<K(==), V>(m: LinkedMap<K, V>, its: seq<MapIterator<K, V>>, c: Command<K, V>, ghost ws: seq<Walk<K, V>>)
    returns (item: seq<Slot<K, Option<V>>>)
    requires AllAt(m, its, ws)
    modifies m, its, m.shape.place.Keys
    ensures AllAt(m, its, AfterOne(ws, c)) && fresh(m.shape.place.Keys - old(m.shape.place.Keys))
    ensures forall i :: 0 <= i < |its| ==>
      ws[i].items + Values(if c == NextOf(i) then item else []) == AfterOne(ws, c)[i].items
  {
    item := [];
    if !c.NextOf? {
      ChangeAmong(m, its, c, ws);
    } else if c.which < |its| {
      item := NextAmong(m, its, c.which, ws);
    }
  }

  /**
   Runs any program of operations on a map with any number of iterators open. The
   map, the iterators and what each yields are those of ECMA-262 at every step.
   */
  method RunProgram<K(==), V>(m: LinkedMap<K, V>, its: seq<MapIterator<K, V>>, cs: seq<Command<K, V>>,
                              ghost ws: seq<Walk<K, V>>)
    returns (items: seq<seq<Slot<K, Option<V>>>>)
    requires AllAt(m, its, ws)
    modifies m, its, m.shape.place.Keys
    ensures AllAt(m, its, Walks(ws, cs)) && |items| == |its|
    ensures forall i :: 0 <= i < |its| ==> ws[i].items + Values(items[i]) == Walks(ws, cs)[i].items
  {
    items := seq(|its|, i => []);
    ghost var now := Walks(ws, cs[..0]);
    assert now == ws;
    var n := 0;
    while n < |cs|
      invariant 0 <= n <= |cs| && |items| == |its| && fresh(m.shape.place.Keys - old(m.shape.place.Keys))
      invariant now == Walks(ws, cs[..n]) && AllAt(m, its, now)
      invariant forall i :: 0 <= i < |its| ==> ws[i].items + Values(items[i]) == now[i].items
    {
      var item := RunOne(m, its, cs[n], now);
      WalksStep(ws, cs, n);
      ItemsStep(ws, items, now, cs[n], item, AfterOne(now, cs[n]));
      if cs[n].NextOf? && cs[n].which < |its| {
        items := items[cs[n].which := items[cs[n].which] + item];
      }
      now, n := Walks(ws, cs[..n + 1]), n + 1;
    }
    assert cs[..n] == cs;
  }

  lemma ItemsStep<K, V>(ws: seq<Walk<K, V>>, items: seq<seq<Slot<K, Option<V>>>>, now: seq<Walk<K, V>>,
                        c: Command<K, V>, item: seq<Slot<K, Option<V>>>, next: seq<Walk<K, V>>)
    requires |items| == |ws| == |now| == |next|
    requires forall i :: 0 <= i < |ws| ==> ws[i].items + Values(items[i]) == now[i].items
    requires forall i :: 0 <= i < |ws| ==>
      now[i].items + Values(if c == NextOf(i) then item else []) == next[i].items
    ensures forall i :: 0 <= i < |ws| ==>
      ws[i].items + Values(if c == NextOf(i) then items[i] + item else items[i]) == next[i].items
  {
    forall i | 0 <= i < |ws|
      ensures ws[i].items + Values(if c == NextOf(i) then items[i] + item else items[i]) == next[i].items
    {
      var more: seq<Slot<K, Option<V>>> := if c == NextOf(i) then item else [];
      assert c != NextOf(i) ==> items[i] + more == items[i];
      ItemsGrow(ws[i].items, items[i], more, now[i].items);
    }
  }

  lemma WalksStep<K, V>(ws: seq<Walk<K, V>>, cs: seq<Command<K, V>>, n: nat)
    requires (forall i :: 0 <= i < |ws| ==> WalkKept(ws[i])) && n < |cs|
    ensures Walks(ws, cs[..n + 1]) == AfterOne(Walks(ws, cs[..n]), cs[n])
  {
    forall i | 0 <= i < |ws| ensures Walks(ws, cs[..n + 1])[i] == AfterOne(Walks(ws, cs[..n]), cs[n])[i] {
      MetStep(ws[i], cs, n, i);
    }
  }

  lemma ItemsGrow<K, V>(first: seq<Slot<K, V>>, s: seq<Slot<K, Option<V>>>, t: seq<Slot<K, Option<V>>>,
                        now: seq<Slot<K, V>>)
    requires first + Values(s) == now
    ensures first + Values(s + t) == now + Values(t)
  {
    ValuesOfBoth(s, t);
  }

  lemma ValuesOfBoth<K, V>(s: seq<Slot<K, Option<V>>>, t: seq<Slot<K, Option<V>>>)
    ensures Values(s + t) == Values(s) + Values(t)
  {
  }

  /** Yielded entries whose values are all there. */
  ghost function Values<K, V>(s: seq<Slot<K, Option<V>>>): seq<Slot<K, V>> {
    seq(|s|, i requires 0 <= i < |s| =>
      if s[i].Entry? && s[i].value.Some? then Entry(s[i].key, s[i].value.value) else Empty)
  }

  lemma ReplaceTracks<K, V>(t: Shape<K, V>, s: Slots<K, V>, s': Slots<K, V>)
    requires |s| == |s'| && forall j :: Live(s', j) ==> Live(s, j)
    ensures TracksOn(t, s, t, s')
  {
  }

  ghost function Cells<K, V>(nodes: set<Node<K, V>>): (m: map<Node<K, V>, Cell<K, V>>)
    reads nodes
    ensures m.Keys == nodes
  {
    map n | n in nodes :: Cell(n.next, n.pa, n.head, n.value)
  }

  method SetValue<K, V>(n: Node<K, V>, v: V, ghost nodes: set<Node<K, V>>)
    requires n in nodes
    modifies n
    ensures Cells(nodes) == old(Cells(nodes))[n := old(Cells(nodes))[n].(value := Some(v))]
  {
    n.value := Some(v);
  }

  /** Makes an entry and puts it between the last node and the head. */
  method LinkIn<K, V>(head: Node<K, V>, k: K, v: V, ghost nodes: set<Node<K, V>>) returns (e: Node<K, V>)
    requires head in nodes && head.pa in nodes
    modifies head, head.pa
    ensures fresh(e) && e !in nodes && e.key == Some(k)
    ensures Cells(nodes + {e}) == LinkedIn(old(Cells(nodes)), head, e, v)
  {
    e := new Node<K, V>.Entry(head, head.pa, head, k, v);
    head.pa.next := e;
    head.pa := e;
  }

  /** Lets the neighbours of `n` meet and marks `n` as belonging to no list. */
  method Unlink<K, V>(n: Node<K, V>, ghost nodes: set<Node<K, V>>)
    requires n in nodes && n.pa in nodes && n.next in nodes && n.pa != n && n.next != n
    modifies n, n.pa, n.next
    ensures Cells(nodes) == Unlinked(old(Cells(nodes)), n)
  {
    n.pa.next := n.next;
    n.next.pa := n.pa;
    n.head := null;
  }

  /** Makes a new head and points the old one at it. */
  method Restart<K, V>(head: Node<K, V>, ghost nodes: set<Node<K, V>>) returns (h: Node<K, V>)
    requires head in nodes
    modifies head
    ensures fresh(h) && h !in nodes && h.key == None && forall n :: n in nodes ==> old(Cells(nodes))[n].head != h
    ensures Cells(nodes + {h}) == Restarted(old(Cells(nodes)), head, h)
  {
    h := new Node<K, V>.Head();
    head.pa := h;
  }

  lemma TracksKept<K, V>(t: Shape<K, V>, s: Slots<K, V>, t': Shape<K, V>, s': Slots<K, V>)
    requires t.Fits(s) && |s| <= |s'|
    requires forall n :: n in t.place ==> n in t'.place && t'.place[n] == t.place[n]
    requires forall j :: Live(s', j) ==> Live(s, j) || |s| <= j
    ensures TracksOn(t, s, t', s')
  {
    forall n, i | n in t.place && t.Tracks(s, n, i) ensures t'.Tracks(s', n, i) {
      t.TracksStays(s, s', t', n, i);
    }
  }

  lemma DeleteIs<K, V>(s: Slots<K, V>, k: K, i: int)
    requires KeysDiffer(s) && Holds(s, k, i)
    ensures EcmaMap.Delete(s, k) == s[i := Empty]
  {
  }

  lemma SizeClear<K, V>(s: Slots<K, V>)
    ensures Size(EcmaMap.Clear(s)) == 0
  {
    if s != [] {
      SizeClear(s[..|s| - 1]);
      assert EcmaMap.Clear(s)[..|s| - 1] == EcmaMap.Clear(s[..|s| - 1]);
    }
  }

  lemma SizeAppend<K, V>(s: Slots<K, V>, e: Slot<K, V>)
    requires e.Entry?
    ensures Size(s + [e]) == Size(s) + 1
  {
    assert (s + [e])[..|s|] == s;
  }

  lemma SizeReplace<K, V>(s: Slots<K, V>, i: nat, e: Slot<K, V>)
    requires i < |s|
    ensures Size(s[i := e]) == Size(s) + (if e.Entry? then 1 else 0) - (if s[i].Entry? then 1 else 0)
  {
    var n := |s| - 1;
    var t := s[i := e];
    if i == n {
      assert t[..n] == s[..n];
    } else {
      assert t[..n] == s[..n][i := e];
      SizeReplace(s[..n], i, e);
    }
  }
}
