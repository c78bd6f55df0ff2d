/** The event table's active flag: create, delete, activate, with database calls that may fail. */
module ActiveEvents {
  import opened Wrappers

  /** The active flag of each event row, by id. */
  type Rows = map<nat, bool>

  /** Which calls inside a SetActiveEvent transaction fail: the lookup, the save, the update, the commit. */
  datatype Faults = Faults(find: bool, save: bool, update: bool, commit: bool)

  datatype Failure = CallFailed | WrongCount | NotFound

  predicate Active(rows: Rows, id: nat) { id in rows && rows[id] }

  ghost predicate AtMostOne(rows: Rows) {
    forall i, j :: Active(rows, i) && Active(rows, j) ==> i == j
  }

  /** `First` on the active events: the lowest id, if any. */
  ghost predicate IsFirst(rows: Rows, found: Option<nat>) {
    match found
    case None => forall i :: i in rows ==> !rows[i]
    case Some(f) => Active(rows, f) && forall i :: Active(rows, i) ==> f <= i
  }

  ghost function First(rows: Rows): (found: Option<nat>)
    ensures IsFirst(rows, found)
  {
    if exists i: nat :: Active(rows, i) then
      var i: nat :| Active(rows, i);
      Some(Lowest(rows, i))
    else
      assert forall i :: i in rows && rows[i] ==> Active(rows, i);
      None
  }

  ghost function Lowest(rows: Rows, i: nat): (f: nat)
    requires Active(rows, i)
    ensures Active(rows, f) && f <= i && forall j :: Active(rows, j) ==> f <= j
  {
    if exists j: nat :: Active(rows, j) && j < i then
      var j: nat :| Active(rows, j) && j < i;
      Lowest(rows, j)
    else i
  }

  lemma FirstIsUnique(rows: Rows, f: Option<nat>, g: Option<nat>)
    requires IsFirst(rows, f) && IsFirst(rows, g)
    ensures f == g
  {
  }

  /** What one SetActiveEvent does to the rows, and whether it reports success. */
  ghost function AfterSet(rows: Rows, id: nat, faults: Faults): (Rows, Option<Failure>) {
    var found := First(rows);
    if faults.find then (rows, Some(CallFailed))
    else
      var saved := if found.Some? && !faults.save then rows[found.value := false] else rows;
      if faults.update then (rows, Some(CallFailed))
      else if id !in rows then (rows, Some(WrongCount))
      else if faults.commit then (rows, Some(CallFailed))
      else (saved[id := true], None)
  }

  class Events {
    var rows: Rows
    /** Ids below this have been given out; none is given out twice. */
    var next: nat

    ghost predicate Valid()
      reads this
    {
      forall i :: i in rows ==> i < next
    }

    constructor ()
      ensures Valid() && rows == map[]
    {
      rows, next := map[], 1;
    }

    /** The service creates events inactive. */
    method CreateEvent(fails: bool) returns (id: Result<nat, Failure>)
      requires Valid()
      modifies this
      ensures Valid()
      ensures fails ==> id == Err(CallFailed) && rows == old(rows) && next == old(next)
      ensures !fails ==> id == Ok(old(next)) && next == old(next) + 1
      ensures !fails ==> old(next) !in old(rows) && rows == old(rows)[old(next) := false]
      ensures rows == Do(old(rows), Create(old(next), fails))
    {
      if fails { return Err(CallFailed); }
      id := Ok(next);
      rows := rows[next := false];
      next := next + 1;
    }

    method DeleteEvent(id: nat, fails: bool) returns (r: Result<(), Failure>)
      requires Valid()
      modifies this
      ensures Valid() && rows == (if fails then old(rows) else old(rows) - {id}) && next == old(next)
      ensures rows == Do(old(rows), Delete(id, fails))
      ensures r == if fails then Err(CallFailed) else Ok(())
    {
      if fails { return Err(CallFailed); }
      rows := rows - {id};
      return Ok(());
    }

    /** The lowest id of an active row. */
    method Find() returns (found: Option<nat>)
      ensures IsFirst(rows, found) && found == First(rows)
    {
      var left := rows.Keys;
      found := None;
      while left != {}
        invariant left <= rows.Keys
        invariant found.Some? ==> Active(rows, found.value)
        invariant forall i :: Active(rows, i) && i !in left ==> found.Some? && found.value <= i
        decreases |left|
      {
        var i :| i in left;
        left := left - {i};
        if rows[i] && (found.None? || i < found.value) { found := Some(i); }
      }
      assert found.None? ==> forall i :: i in rows ==> !Active(rows, i);
      FirstIsUnique(rows, found, First(rows));
    }

    method GetActiveEvent(fails: bool) returns (r: Result<nat, Failure>)
      ensures fails ==> r == Err(CallFailed)
      ensures !fails ==> r == if First(rows).Some? then Ok(First(rows).value) else Err(NotFound)
    {
      if fails { return Err(CallFailed); }
      var found := Find();
      return if found.None? then Err(NotFound) else Ok(found.value);
    }

    /** One transaction: the active event, if any, is saved inactive, the named one updated; an error undoes both. */
    method SetActiveEvent(id: nat, faults: Faults) returns (r: Result<(), Failure>)
      requires Valid()
      modifies `rows
      ensures Valid() && rows == AfterSet(old(rows), id, faults).0 == Do(old(rows), SetActive(id, faults))
      ensures r == match AfterSet(old(rows), id, faults).1 { case None => Ok(()) case Some(e) => Err(e) }
    {
      var before := rows;
      if faults.find { return Err(CallFailed); }
      var activeEvent := Find();
      if activeEvent.Some? {
        // the result of this call is not looked at
        if !faults.save { rows := rows[activeEvent.value := false]; }
      }
      if faults.update {
        rows := before;
        return Err(CallFailed);
      }
      var affected := if id in rows then 1 else 0;
      if id in rows { rows := rows[id := true]; }
      if affected != 1 {
        rows := before;
        return Err(WrongCount);
      }
      if faults.commit {
        rows := before;
        return Err(CallFailed);
      }
      return Ok(());
    }
  }

  /** A call that fails changes nothing; one that succeeds leaves its event active. */
  lemma SetActiveEffect(rows: Rows, id: nat, faults: Faults)
    ensures var (after, failure) := AfterSet(rows, id, faults);
      && (failure.Some? ==> after == rows)
      && (failure.None? ==> Active(after, id) && after.Keys == rows.Keys)
      && (failure.None? <==> !faults.find && !faults.update && !faults.commit && id in rows)
  {
  }

  /** Only the save fails, while another event is active: the error that no one looks at. */
  ghost predicate LosesSave(rows: Rows, id: nat, faults: Faults) {
    && id in rows && !faults.find && faults.save && !faults.update && !faults.commit
    && exists i :: i != id && Active(rows, i)
  }

  /** One call keeps at most one event active, and a success makes its event the one found, but for a lost save. */
  lemma SetActiveKeepsOne(rows: Rows, id: nat, faults: Faults)
    requires AtMostOne(rows)
    ensures var (after, failure) := AfterSet(rows, id, faults);
      && (AtMostOne(after) <==> !LosesSave(rows, id, faults))
      && (failure.None? && !LosesSave(rows, id, faults) ==> First(after) == Some(id))
  {
    var (after, failure) := AfterSet(rows, id, faults);
    var found := First(rows);
    if failure.None? {
      assert Active(after, id);
      forall i: nat | i != id ensures Active(after, i) <==> faults.save && Active(rows, i) {
        if Active(rows, i) { assert found == Some(i); }
      }
      if !LosesSave(rows, id, faults) {
        assert forall i: nat :: Active(after, i) ==> i == id;
        FirstIsUnique(after, First(after), Some(id));
      }
    }
  }

  datatype Call =
    | Create(id: nat, fails: bool)
    | Delete(id: nat, fails: bool)
    | SetActive(id: nat, faults: Faults)

  /** Rows after a call; a created row has an id that is not in use. */
  ghost function Do(rows: Rows, call: Call): Rows {
    match call
    case Create(id, fails) => if fails || id in rows then rows else rows[id := false]
    case Delete(id, fails) => if fails then rows else rows - {id}
    case SetActive(id, faults) => AfterSet(rows, id, faults).0
  }

  ghost function DoAll(calls: seq<Call>): Rows {
    if calls == [] then map[] else Do(DoAll(calls[..|calls| - 1]), calls[|calls| - 1])
  }

  /** No call of the run loses its save. */
  ghost predicate SavesKept(calls: seq<Call>) {
    forall k :: 0 <= k < |calls| && calls[k].SetActive? ==> !LosesSave(DoAll(calls[..k]), calls[k].id, calls[k].faults)
  }

  lemma OthersKeepOne(rows: Rows, call: Call)
    requires AtMostOne(rows) && !call.SetActive?
    ensures AtMostOne(Do(rows, call))
  {
    forall i | Active(Do(rows, call), i) ensures Active(rows, i) {}
  }

  /** Over every run in which no save is lost, at most one event is active. */
  lemma {:induction false} RunKeepsOne(calls: seq<Call>)
    requires SavesKept(calls)
    ensures AtMostOne(DoAll(calls))
  {
    if calls != [] {
      var n := |calls| - 1;
      assert forall k :: 0 <= k < n ==> calls[..n][..k] == calls[..k];
      RunKeepsOne(calls[..n]);
      if calls[n].SetActive? {
        SetActiveKeepsOne(DoAll(calls[..n]), calls[n].id, calls[n].faults);
      } else {
        OthersKeepOne(DoAll(calls[..n]), calls[n]);
      }
    }
  }

  /** At most one event is active throughout a run exactly when no call of it loses its save. */
  lemma OneThroughout(calls: seq<Call>)
    ensures (forall k :: 0 <= k <= |calls| ==> AtMostOne(DoAll(calls[..k]))) <==> SavesKept(calls)
  {
    if SavesKept(calls) {
      forall k | 0 <= k <= |calls| ensures AtMostOne(DoAll(calls[..k])) {
        assert forall i :: 0 <= i < k ==> calls[..k][..i] == calls[..i];
        RunKeepsOne(calls[..k]);
      }
    } else {
      var k :| 0 <= k < |calls| && calls[k].SetActive? && LosesSave(DoAll(calls[..k]), calls[k].id, calls[k].faults);
      assert calls[..k + 1][..k] == calls[..k];
      assert DoAll(calls[..k + 1]) == Do(DoAll(calls[..k]), calls[k]);
      if AtMostOne(DoAll(calls[..k])) {
        SetActiveKeepsOne(DoAll(calls[..k]), calls[k].id, calls[k].faults);
        assert !AtMostOne(DoAll(calls[..k + 1]));
      }
    }
  }

  /** The first lost save of a run is where a second event becomes active. */
  lemma FirstLostSave(calls: seq<Call>, call: Call)
    requires SavesKept(calls) && call.SetActive?
    ensures AtMostOne(DoAll(calls + [call])) <==> !LosesSave(DoAll(calls), call.id, call.faults)
  {
    RunKeepsOne(calls);
    assert (calls + [call])[..|calls|] == calls;
    SetActiveKeepsOne(DoAll(calls), call.id, call.faults);
  }

  lemma DoAllStep(calls: seq<Call>, call: Call)
    ensures DoAll([]) == map[] && DoAll(calls + [call]) == Do(DoAll(calls), call)
  {
    assert (calls + [call])[..|calls|] == calls;
  }

  /** A run that leaves two events active: the last call succeeds although its save failed. */
  lemma TwoActive() returns (calls: seq<Call>, last: Call)
    ensures last.SetActive? && AfterSet(DoAll(calls), last.id, last.faults).1.None? && AtMostOne(DoAll(calls))
    ensures Active(DoAll(calls + [last]), 1) && Active(DoAll(calls + [last]), 2)
  {
    var none, lost := Faults(false, false, false, false), Faults(false, true, false, false);
    FirstIsActive();
    DoAllStep([], Create(1, false));
    DoAllStep([Create(1, false)], Create(2, false));
    DoAllStep([Create(1, false), Create(2, false)], SetActive(1, none));
    calls, last := [Create(1, false), Create(2, false), SetActive(1, none)], SetActive(2, lost);
    assert [] + [Create(1, false)] == [Create(1, false)];
    assert [Create(1, false)] + [Create(2, false)] == [Create(1, false), Create(2, false)];
    assert [Create(1, false), Create(2, false)] + [SetActive(1, none)] == calls;
    DoAllStep(calls, last);
  }

  /** Two events, the first made active, then the second with a failed save. */
  lemma FirstIsActive()
    ensures map[][1 := false][2 := false] == map[1 := false, 2 := false]
    ensures AfterSet(map[1 := false, 2 := false], 1, Faults(false, false, false, false))
      == (map[1 := true, 2 := false], None)
    ensures AfterSet(map[1 := true, 2 := false], 2, Faults(false, true, false, false))
      == (map[1 := true, 2 := true], None)
  {
    var none, one: Rows := map[1 := false, 2 := false], map[1 := true, 2 := false];
    FirstIsUnique(none, First(none), None);
    FirstIsUnique(one, First(one), Some(1));
    assert none[1 := true] == one && one[2 := true] == map[1 := true, 2 := true];
  }
}
