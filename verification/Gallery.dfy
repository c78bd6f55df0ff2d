/** The gallery's pages: 20 thumbnails at a time, newest first, by offset, while new ones keep arriving. */
module Gallery {

  /** A thumbnail row. Creation times increase strictly, so a table in order of creation is its rows newest first. */
  datatype Row = Row(id: string, event: nat)

  type Table = seq<Row>

  const LIMIT: nat := 20

  function OfEvent(t: Table, event: nat): Table {
    if t == [] then [] else (if t[0].event == event then [t[0]] else []) + OfEvent(t[1..], event)
  }

  /** What the query's condition selects: a zero event id is left out of the condition, which then selects all rows. */
  function Rows(t: Table, event: nat): Table {
    if event == 0 then t else OfEvent(t, event)
  }

  /** The query of the database layer; an offset that is not positive is left out of it. */
  function Query(t: Table, event: nat, limit: nat, offset: int): Table {
    var rows := Rows(t, event);
    var skipped := if offset <= 0 then rows else if offset >= |rows| then [] else rows[offset..];
    if limit >= |skipped| then skipped else skipped[..limit]
  }

  /** 64-bit arithmetic wraps around. */
  function Wrap64(x: int): int {
    (x + 0x8000_0000_0000_0000) % 0x1_0000_0000_0000_0000 - 0x8000_0000_0000_0000
  }

  /** At most one page of rows, from place `from` on. */
  function Slice(rows: Table, from: nat): Table {
    if from >= |rows| then [] else if from + LIMIT >= |rows| then rows[from..] else rows[from..from + LIMIT]
  }

  /** How many pages can be asked for before the offset overflows. */
  predicate CountsAsOffset(page: int) { -0x8000_0000_0000_0000 <= LIMIT * page < 0x8000_0000_0000_0000 }

  /** Page n is rows 20n to 20n+19, or what is left of them, and leads to page n+1; one before page 0 is page 0. */
  predicate Answers(t: Table, event: nat, page: int, thumbnails: Table, nextPage: int) {
    CountsAsOffset(page) ==>
      && thumbnails == Slice(Rows(t, event), if page < 0 then 0 else LIMIT * page)
      && nextPage == page + 1
  }

  /** The route: one page, and the number of the next. */
  method GetThumbnails(t: Table, event: nat, page: int) returns (thumbnails: Table, nextPage: int)
    ensures Answers(t, event, page, thumbnails, nextPage)
  {
    var offset := Wrap64(20 * page);
    thumbnails := Query(t, event, 20, offset);
    nextPage := Wrap64(page + 1);
    QueryIsSlice(t, event, offset);
    Unwrapped(page);
  }

  /** Those are the pages whose offset comes through the arithmetic. */
  lemma Unwrapped(page: int)
    ensures CountsAsOffset(page) <==> Wrap64(20 * page) == 20 * page
    ensures CountsAsOffset(page) ==> Wrap64(page + 1) == page + 1
  {
  }

  lemma QueryIsSlice(t: Table, event: nat, offset: int)
    ensures Query(t, event, LIMIT, offset) == Slice(Rows(t, event), if offset < 0 then 0 else offset)
  {
    var rows, from := Rows(t, event), if offset < 0 then 0 else offset;
    assert rows[0..] == rows;
    if from + LIMIT < |rows| { assert rows[from..][..LIMIT] == rows[from..from + LIMIT]; }
  }

  lemma {:induction false} InOfEvent(t: Table, event: nat, row: Row)
    ensures row in OfEvent(t, event) <==> row in t && row.event == event
  {
    if t != [] {
      InOfEvent(t[1..], event, row);
      assert row in t <==> row == t[0] || row in t[1..];
    }
  }

  lemma {:induction false} OfEventCounts(t: Table, event: nat, row: Row)
    ensures multiset(OfEvent(t, event))[row] == if row.event == event then multiset(t)[row] else 0
  {
    if t != [] {
      OfEventCounts(t[1..], event, row);
      var first := if t[0].event == event then [t[0]] else [];
      assert t == [t[0]] + t[1..];
      assert multiset(t)[row] == multiset([t[0]])[row] + multiset(t[1..])[row];
      assert multiset(OfEvent(t, event)) == multiset(first) + multiset(OfEvent(t[1..], event));
    }
  }

  /** Each row is among an event's rows as often as it is in the table, so once where it is there once. */
  lemma RowsAreOnce(t: Table, event: nat, row: Row)
    ensures multiset(Rows(t, event))[row] == if event == 0 || row.event == event then multiset(t)[row] else 0
  {
    OfEventCounts(t, event, row);
  }

  /** An event's rows stand in the order of the table. */
  lemma {:induction false} RowsInOrder(t: Table, event: nat, i: nat, j: nat) returns (a: nat, b: nat)
    requires i < j < |Rows(t, event)|
    ensures a < b < |t| && t[a] == Rows(t, event)[i] && t[b] == Rows(t, event)[j]
  {
    if event == 0 {
      a, b := i, j;
    } else {
      a, b := OfEventInOrder(t, event, i, j);
    }
  }

  lemma {:induction false} OfEventAt(t: Table, event: nat, i: nat) returns (a: nat)
    requires i < |OfEvent(t, event)|
    ensures a < |t| && t[a] == OfEvent(t, event)[i]
  {
    if t[0].event == event && i == 0 {
      a := 0;
    } else {
      a := OfEventAt(t[1..], event, if t[0].event == event then i - 1 else i);
      a := a + 1;
    }
  }

  lemma {:induction false} OfEventInOrder(t: Table, event: nat, i: nat, j: nat) returns (a: nat, b: nat)
    requires i < j < |OfEvent(t, event)|
    ensures a < b < |t| && t[a] == OfEvent(t, event)[i] && t[b] == OfEvent(t, event)[j]
  {
    var here := t[0].event == event;
    if here && i == 0 {
      a := 0;
      b := OfEventAt(t[1..], event, j - 1);
    } else {
      a, b := OfEventInOrder(t[1..], event, if here then i - 1 else i, if here then j - 1 else j);
      a := a + 1;
    }
    b := b + 1;
  }

  /** An event's pages show its own rows, but event 0, which is no event, shows those of all events. */
  lemma RowsAre(t: Table, event: nat, row: Row)
    ensures row in Rows(t, event) <==> row in t && (event == 0 || row.event == event)
  {
    InOfEvent(t, event, row);
  }

  /** A page of event 0 that shows the thumbnails of two events. */
  lemma EventZero()
    ensures var a, b := Row("a", 1), Row("b", 2);
      Answers([a, b], 0, 0, [a, b], 1) && !Answers([a, b], 0, 0, [], 1)
  {
    var t := [Row("a", 1), Row("b", 2)];
    assert t[0..] == t;
  }

  // ---- Arrivals ----

  /** A newer row comes first. */
  function Insert(t: Table, row: Row): Table { [row] + t }

  function InsertAll(t: Table, news: seq<Row>): Table {
    if news == [] then t else Insert(InsertAll(t, news[..|news| - 1]), news[|news| - 1])
  }

  /** `later` is `earlier` after some insertions. */
  ghost predicate Arrived(earlier: Table, later: Table) {
    exists news :: later == InsertAll(earlier, news)
  }

  /** `later` is `earlier` with other rows in front. */
  predicate Grew(earlier: Table, later: Table) {
    |earlier| <= |later| && later[|later| - |earlier|..] == earlier
  }

  lemma {:induction false} InsertAllGrows(t: Table, news: seq<Row>)
    ensures Grew(t, InsertAll(t, news))
  {
    if news != [] {
      InsertAllGrows(t, news[..|news| - 1]);
    } else {
      assert t[0..] == t;
    }
  }

  /** Later is any table that has the earlier one at its end. */
  lemma ArrivedIs(earlier: Table, later: Table)
    ensures Arrived(earlier, later) <==> exists news :: later == news + earlier
  {
    if Arrived(earlier, later) {
      var news :| later == InsertAll(earlier, news);
      InsertAllGrows(earlier, news);
      var n := |later| - |earlier|;
      assert later == later[..n] + earlier;
    }
    forall news | later == news + earlier ensures Arrived(earlier, later) {
      var back := InsertsBack(earlier, news);
    }
  }

  lemma {:induction false} InsertsBack(t: Table, news: Table) returns (back: seq<Row>)
    ensures InsertAll(t, back) == news + t
  {
    if news == [] {
      back := [];
      assert news + t == t;
    } else {
      var more := InsertsBack(t, news[1..]);
      back := more + [news[0]];
      assert back[..|back| - 1] == more;
      assert news + t == [news[0]] + (news[1..] + t);
    }
  }

  lemma {:induction false} OfEventJoins(s: Table, t: Table, event: nat)
    ensures OfEvent(s + t, event) == OfEvent(s, event) + OfEvent(t, event)
  {
    if s == [] {
      assert s + t == t;
    } else {
      OfEventJoins(s[1..], t, event);
      assert (s + t)[0] == s[0] && (s + t)[1..] == s[1..] + t;
      var first := if s[0].event == event then [s[0]] else [];
      assert OfEvent(s + t, event) == first + OfEvent(s[1..] + t, event);
      assert first + (OfEvent(s[1..], event) + OfEvent(t, event)) == first + OfEvent(s[1..], event) + OfEvent(t, event);
    }
  }

  lemma GrewRows(earlier: Table, later: Table, event: nat)
    requires Grew(earlier, later)
    ensures Grew(Rows(earlier, event), Rows(later, event))
  {
    var n := |later| - |earlier|;
    assert later == later[..n] + earlier;
    OfEventJoins(later[..n], earlier, event);
  }

  lemma GrewChain(a: Table, b: Table, c: Table)
    requires Grew(a, b) && Grew(b, c)
    ensures Grew(a, c)
  {
    assert c[|c| - |a|..] == c[|c| - |b|..][|b| - |a|..];
  }

  // ---- A reader ----

  /** One call of the route: the table it met, and what it was asked and answered. */
  datatype Fetch = Fetch(table: Table, page: int, thumbnails: Table, nextPage: int)

  /** A reader that starts at page 0 and follows `nextPage`, with any insertions between the fetches. */
  ghost predicate Reading(fs: seq<Fetch>, event: nat) {
    && fs != [] && fs[0].page == 0
    && (forall k :: 0 <= k < |fs| ==> Answers(fs[k].table, event, fs[k].page, fs[k].thumbnails, fs[k].nextPage))
    && forall k :: 0 < k < |fs| ==> fs[k].page == fs[k - 1].nextPage && Arrived(fs[k - 1].table, fs[k].table)
  }

  /** The rows of the event at fetch `k`. */
  function RowsAt(fs: seq<Fetch>, event: nat, k: nat): Table
    requires k < |fs|
  {
    Rows(fs[k].table, event)
  }

  lemma {:induction false} FetchIs(fs: seq<Fetch>, event: nat, k: nat)
    requires Reading(fs, event) && CountsAsOffset(|fs|) && k < |fs|
    ensures fs[k].page == k && fs[k].thumbnails == Slice(RowsAt(fs, event, k), LIMIT * k)
  {
    if k > 0 { FetchIs(fs, event, k - 1); }
  }

  lemma {:induction false} RowsGrew(fs: seq<Fetch>, event: nat, k: nat)
    requires Reading(fs, event) && k < |fs|
    ensures Grew(RowsAt(fs, event, 0), RowsAt(fs, event, k))
    ensures k > 0 ==> |RowsAt(fs, event, k - 1)| <= |RowsAt(fs, event, k)|
  {
    if k > 0 {
      var earlier, later := fs[k - 1].table, fs[k].table;
      assert Arrived(earlier, later);
      var news :| later == InsertAll(earlier, news);
      InsertAllGrows(earlier, news);
      GrewRows(earlier, later, event);
      RowsGrew(fs, event, k - 1);
      GrewChain(RowsAt(fs, event, 0), RowsAt(fs, event, k - 1), RowsAt(fs, event, k));
    } else {
      assert RowsAt(fs, event, 0)[0..] == RowsAt(fs, event, 0);
    }
  }

  /** Where the row that was `j`-th at the first fetch stands at fetch `k`. */
  function Place(fs: seq<Fetch>, event: nat, j: nat, k: nat): int
    requires k < |fs|
  {
    |RowsAt(fs, event, k)| - |RowsAt(fs, event, 0)| + j
  }

  lemma PlaceIs(fs: seq<Fetch>, event: nat, j: nat, k: nat)
    requires Reading(fs, event) && k < |fs| && j < |RowsAt(fs, event, 0)|
    ensures 0 <= Place(fs, event, j, k) < |RowsAt(fs, event, k)|
    ensures RowsAt(fs, event, k)[Place(fs, event, j, k)] == RowsAt(fs, event, 0)[j]
    ensures k > 0 ==> Place(fs, event, j, k - 1) <= Place(fs, event, j, k)
  {
    RowsGrew(fs, event, k);
    GrewPlace(RowsAt(fs, event, 0), RowsAt(fs, event, k), j);
  }

  lemma GrewPlace(earlier: Table, later: Table, j: nat)
    requires Grew(earlier, later) && j < |earlier|
    ensures 0 <= |later| - |earlier| + j < |later| && later[|later| - |earlier| + j] == earlier[j]
  {
    assert later[|later| - |earlier|..][j] == earlier[j];
  }

  lemma OnSlice(rows: Table, from: nat, i: nat)
    requires from <= i < from + LIMIT && i < |rows|
    ensures rows[i] in Slice(rows, from)
  {
    assert Slice(rows, from)[i - from] == rows[i];
  }

  /** From a place not yet passed on, some fetch before the last has the row on its page. */
  lemma {:induction false} SeenBetween(fs: seq<Fetch>, event: nat, j: nat, k: nat) returns (s: nat)
    requires Reading(fs, event) && CountsAsOffset(|fs|) && k < |fs| - 1 && j < |RowsAt(fs, event, 0)|
    requires LIMIT * k <= Place(fs, event, j, k)
    requires fs[|fs| - 1].thumbnails == []
    ensures s < |fs| - 1 && RowsAt(fs, event, 0)[j] in fs[s].thumbnails
    decreases |fs| - k
  {
    PlaceIs(fs, event, j, k);
    FetchIs(fs, event, k);
    if Place(fs, event, j, k) < LIMIT * k + LIMIT {
      OnSlice(RowsAt(fs, event, k), LIMIT * k, Place(fs, event, j, k));
      s := k;
    } else {
      PlaceIs(fs, event, j, k + 1);
      FetchIs(fs, event, |fs| - 1);
      s := SeenBetween(fs, event, j, k + 1);
    }
  }

  /**
   A reader that goes from page 0 to the next page until one is empty has been
   shown every thumbnail that was there at the first fetch, however many newer
   ones came in between.
   */
  lemma NothingIsSkipped(fs: seq<Fetch>, event: nat, row: Row)
    requires Reading(fs, event) && CountsAsOffset(|fs|) && fs[|fs| - 1].thumbnails == []
    requires row in RowsAt(fs, event, 0)
    ensures exists k :: 0 <= k < |fs| - 1 && row in fs[k].thumbnails
  {
    var j :| 0 <= j < |RowsAt(fs, event, 0)| && RowsAt(fs, event, 0)[j] == row;
    FetchIs(fs, event, 0);
    PlaceIs(fs, event, j, 0);
    var s := SeenBetween(fs, event, j, 0);
  }

  /** Everything the reader was shown, in order. */
  function Shown(fs: seq<Fetch>): Table {
    if fs == [] then [] else Shown(fs[..|fs| - 1]) + fs[|fs| - 1].thumbnails
  }

  /** Without insertions the reader is shown the event's thumbnails, each once, in order. */
  lemma PagesAreAll(fs: seq<Fetch>, event: nat)
    requires Reading(fs, event) && CountsAsOffset(|fs|) && fs[|fs| - 1].thumbnails == []
    requires forall k :: 0 <= k < |fs| ==> fs[k].table == fs[0].table
    ensures Shown(fs) == RowsAt(fs, event, 0)
  {
    FetchIs(fs, event, |fs| - 1);
    ShownIs(fs, event, |fs|);
    assert fs[..|fs|] == fs;
  }

  lemma {:induction false} ShownIs(fs: seq<Fetch>, event: nat, n: nat)
    requires Reading(fs, event) && CountsAsOffset(|fs|) && n <= |fs|
    requires forall k :: 0 <= k < |fs| ==> fs[k].table == fs[0].table
    ensures var rows := RowsAt(fs, event, 0); Shown(fs[..n]) == if LIMIT * n >= |rows| then rows else rows[..LIMIT * n]
  {
    var rows := RowsAt(fs, event, 0);
    if n > 0 {
      ShownIs(fs, event, n - 1);
      FetchIs(fs, event, n - 1);
      SliceJoins(rows, LIMIT * (n - 1));
      assert fs[..n][..n - 1] == fs[..n - 1];
    } else {
      assert rows[..0] == [];
    }
  }

  lemma SliceJoins(rows: Table, from: nat)
    ensures from < |rows| ==>
      rows[..from] + Slice(rows, from) == if from + LIMIT >= |rows| then rows else rows[..from + LIMIT]
    ensures rows + [] == rows
  {
  }
}
