/** _paged_rows (link_engine.py): reading an ordered id space through a server that may cut
    any page short.  Reads with a single id column are the rows whose tail equals the anchor. */
module PagedReader {
  import opened Common

  datatype Row = Row(anchor: int, tail: int)

  const WINDOW_MIN_IDS := 256

  predicate Before(a: Row, b: Row) { a.anchor < b.anchor || (a.anchor == b.anchor && a.tail < b.tail) }

  /** ORDER BY; parallel edges repeat an id pair. */
  ghost predicate Ordered(s: seq<Row>) { forall i, j :: 0 <= i < j < |s| ==> s[i] == s[j] || Before(s[i], s[j]) }

  ghost predicate Strict(s: seq<Row>) { forall i, j :: 0 <= i < j < |s| ==> Before(s[i], s[j]) }

  // ------------------------------------------------------------------- server

  function Select(table: seq<Row>, p: Row -> bool): seq<Row> {
    if table == [] then []
    else
      var init, r := Select(table[..|table| - 1], p), table[|table| - 1];
      if p(r) then init + [r] else init
  }

  /** A page: any non-empty part from the start of the matching rows, at most a batch long. */
  ghost predicate PageOf(table: seq<Row>, p: Row -> bool, batch: nat, page: seq<Row>) {
    && page <= Select(table, p) && |page| <= batch
    && (page == [] ==> Select(table, p) == [])
  }

  method Query(table: seq<Row>, p: Row -> bool, batch: nat) returns (page: seq<Row>)
    requires batch >= 1
    ensures PageOf(table, p, batch, page)
  {
    var matching := Select(table, p);
    if matching == [] {
      return [];
    }
    var n: nat :| 1 <= n <= |matching| && n <= batch;
    page := matching[..n];
  }

  lemma {:induction false} SelectMeans(table: seq<Row>, p: Row -> bool, r: Row)
    ensures r in Select(table, p) <==> r in table && p(r)
  {
    if table != [] {
      SelectMeans(table[..|table| - 1], p, r);
      assert table == table[..|table| - 1] + [table[|table| - 1]];
    }
  }

  lemma {:induction false} SelectOrdered(table: seq<Row>, p: Row -> bool)
    requires Ordered(table)
    ensures Ordered(Select(table, p))
  {
    if table != [] {
      var n := |table| - 1;
      SelectOrdered(table[..n], p);
      forall i | 0 <= i < |Select(table[..n], p)|
        ensures Select(table[..n], p)[i] in table[..n]
      {
        SelectMeans(table[..n], p, Select(table[..n], p)[i]);
      }
    }
  }

  /** What a page tells: its rows match, and no matching row before its end is missing. */
  lemma PageMeans(table: seq<Row>, p: Row -> bool, batch: nat, page: seq<Row>)
    requires Ordered(table) && PageOf(table, p, batch, page)
    ensures Ordered(page)
    ensures forall i :: 0 <= i < |page| ==> page[i] in table && p(page[i])
    ensures forall t, i :: t in table && p(t) && 0 <= i < |page| && Before(t, page[i]) ==> t in page
    ensures page == [] ==> forall t :: t in table ==> !p(t)
  {
    var all := Select(table, p);
    SelectOrdered(table, p);
    forall i | 0 <= i < |page|
      ensures page[i] in table && p(page[i])
    {
      SelectMeans(table, p, all[i]);
    }
    forall t, i | t in table && p(t) && 0 <= i < |page| && Before(t, page[i])
      ensures t in page
    {
      SelectMeans(table, p, t);
      var j :| 0 <= j < |all| && all[j] == t;
      assert j < |page| ==> page[j] == t;
    }
    forall t | t in table && page == []
      ensures !p(t)
    {
      SelectMeans(table, p, t);
    }
  }

  lemma {:induction false} SelectSmaller(table: seq<Row>, p: Row -> bool, q: Row -> bool)
    requires forall r :: q(r) ==> p(r)
    ensures |Select(table, q)| <= |Select(table, p)| <= |table|
    ensures (exists r :: r in table && p(r) && !q(r)) ==> |Select(table, q)| < |Select(table, p)|
  {
    if table != [] {
      var n := |table| - 1;
      SelectSmaller(table[..n], p, q);
      forall r | r in table && p(r) && !q(r)
        ensures |Select(table, q)| < |Select(table, p)|
      {
        assert r == table[n] || r in table[..n];
      }
    }
  }

  // ------------------------------------------------------------------- reader

  /** What the reader keeps: rows in order, all from the table, none skipped. */
  ghost predicate Reading(table: seq<Row>, rows: seq<Row>) {
    && Strict(rows)
    && (forall i :: 0 <= i < |rows| ==> rows[i] in table)
    && (forall t, i :: t in table && 0 <= i < |rows| && Before(t, rows[i]) ==> t in rows)
  }

  ghost predicate Covered(table: seq<Row>, rows: seq<Row>, below: int) {
    forall t :: t in table && t.anchor < below ==> t in rows
  }

  ghost predicate GroupCovered(table: seq<Row>, rows: seq<Row>, anchor: int, after: Option<int>) {
    after.Some? ==> forall t :: t in table && t.anchor == anchor && t.tail <= after.value ==> t in rows
  }

  function Condition(lo: int, hi: int, after: Option<int>): Row -> bool {
    match after
    case None => (r: Row) => lo <= r.anchor < hi
    case Some(a) => (r: Row) => r.anchor == lo && r.tail > a
  }

  /** absorb: append the rows that have not been seen. */
  method Absorb(rows: seq<Row>, seen: set<Row>, page: seq<Row>) returns (rows': seq<Row>, seen': set<Row>)
    requires Strict(rows) && Ordered(page)
    requires forall r :: r in seen <==> r in rows
    requires forall i, j :: 0 <= i < |rows| && 0 <= j < |page| ==> page[j] in rows || Before(rows[i], page[j])
    ensures Strict(rows') && rows <= rows'
    ensures forall r :: r in seen' <==> r in rows'
    ensures forall r :: r in rows' <==> r in rows || r in page
  {
    rows', seen' := rows, seen;
    for k := 0 to |page|
      invariant Strict(rows') && rows <= rows'
      invariant forall r :: r in seen' <==> r in rows'
      invariant forall r :: r in rows' <==> r in rows || r in page[..k]
      invariant forall i, j :: 0 <= i < |rows'| && k <= j < |page| ==> page[j] in rows' || Before(rows'[i], page[j])
    {
      assert page[..k + 1] == page[..k] + [page[k]];
      if page[k] !in seen' {
        seen' := seen' + {page[k]};
        rows' := rows' + [page[k]];
      }
    }
    assert page[..|page|] == page;
  }

  lemma AbsorbKeepsReading(table: seq<Row>, rows: seq<Row>, page: seq<Row>, rows': seq<Row>, lo: int, hi: int,
      after: Option<int>, batch: nat)
    requires Ordered(table) && Reading(table, rows) && Covered(table, rows, lo) && GroupCovered(table, rows, lo, after)
    requires PageOf(table, Condition(lo, hi, after), batch, page)
    requires Strict(rows') && forall r :: r in rows' <==> r in rows || r in page
    ensures Reading(table, rows') && Covered(table, rows', lo)
  {
    PageMeans(table, Condition(lo, hi, after), batch, page);
    forall i | 0 <= i < |rows'|
      ensures rows'[i] in table
    {
      assert rows'[i] in rows || rows'[i] in page;
    }
    forall t, i | t in table && 0 <= i < |rows'| && Before(t, rows'[i])
      ensures t in rows'
    {
      if rows'[i] in rows {
        assert t in rows;
      } else {
        assert rows'[i] in page;
        assert Condition(lo, hi, after)(t) ==> t in page;
      }
    }
  }

  lemma PageFollowsRows(table: seq<Row>, rows: seq<Row>, page: seq<Row>)
    requires Reading(table, rows)
    requires forall j :: 0 <= j < |page| ==> page[j] in table
    ensures forall i, j :: 0 <= i < |rows| && 0 <= j < |page| ==> page[j] in rows || Before(rows[i], page[j])
  {
    forall i, j | 0 <= i < |rows| && 0 <= j < |page|
      ensures page[j] in rows || Before(rows[i], page[j])
    {
      assert Before(page[j], rows[i]) ==> page[j] in rows;
      assert rows[i] in rows;
    }
  }

  /** The early exit: as many rows as the table has are all its rows. */
  lemma EnoughIsAll(table: seq<Row>, rows: seq<Row>)
    requires Reading(table, rows) && |rows| >= |table|
    ensures forall t :: t in table ==> t in rows
  {
    assert Distinct(rows);
    ElementsSize(rows);
    ElementsSize(table);
    assert Elements(rows) <= Elements(table);
    SubsetSize(Elements(rows), Elements(table));
    assert forall t :: t in table ==> t in Elements(table);
  }

  predicate Reached(expected: Option<nat>, rows: seq<Row>) {
    expected.Some? && expected.value > 0 && |rows| >= expected.value
  }

  /** Rows of the boundary group still to come, for termination. */
  ghost function Left(table: seq<Row>, lo: int, hi: int, after: Option<int>): nat {
    if after.None? then |table| + 1 else |Select(table, Condition(lo, hi, after))|
  }

  lemma GroupShrinks(table: seq<Row>, page: seq<Row>, lo: int, hi: int, after: Option<int>, batch: nat)
    requires Ordered(table) && PageOf(table, Condition(lo, hi, after), batch, page)
    requires page != [] && page[|page| - 1].anchor == lo
    ensures Left(table, lo, hi, Some(page[|page| - 1].tail)) < Left(table, lo, hi, after)
  {
    var last := page[|page| - 1];
    var next := Condition(lo, hi, Some(last.tail));
    PageMeans(table, Condition(lo, hi, after), batch, page);
    if after.None? {
      SelectSmaller(table, next, next);
    } else {
      SelectSmaller(table, Condition(lo, hi, after), next);
    }
  }

  /** The page and group loop over one window of ids. */
  method ReadWindow(table: seq<Row>, rows: seq<Row>, seen: set<Row>, lo: int, hi: int, batch: nat,
      expected: Option<nat>)
    returns (rows': seq<Row>, seen': set<Row>)
    requires Ordered(table) && batch >= 1 && lo < hi && (expected.Some? ==> expected.value == |table|)
    requires Reading(table, rows) && Covered(table, rows, lo) && forall r :: r in seen <==> r in rows
    ensures Reading(table, rows') && Covered(table, rows', hi) && forall r :: r in seen' <==> r in rows'
  {
    rows', seen' := rows, seen;
    var pageLo, after: Option<int> := lo, None;
    while true
      invariant lo <= pageLo < hi
      invariant Reading(table, rows') && Covered(table, rows', pageLo) && GroupCovered(table, rows', pageLo, after)
      invariant forall r :: r in seen' <==> r in rows'
      decreases hi - pageLo, Left(table, pageLo, hi, after)
    {
      var page := Query(table, Condition(pageLo, hi, after), batch);
      PageMeans(table, Condition(pageLo, hi, after), batch, page);
      if page == [] {
        if after.None? {
          assert Covered(table, rows', hi);
          break;
        }
        assert Covered(table, rows', pageLo + 1) by {
          assert forall t :: t in table && t.anchor == pageLo ==> !Condition(pageLo, hi, after)(t);
        }
        pageLo, after := pageLo + 1, None;
        if pageLo >= hi {
          break;
        }
        continue;
      }
      ghost var before := rows';
      PageFollowsRows(table, rows', page);
      rows', seen' := Absorb(rows', seen', page);
      AbsorbKeepsReading(table, before, page, rows', pageLo, hi, after, batch);
      if Reached(expected, rows') {
        EnoughIsAll(table, rows');
        break;
      }
      var last := page[|page| - 1];
      assert last in page && last in rows' && Condition(pageLo, hi, after)(last);
      assert forall t :: t in table && Before(t, last) ==> t in rows' by { CoveredUpTo(table, rows', last); }
      if last.anchor > pageLo {
        pageLo, after := last.anchor, None;
        continue;
      }
      GroupShrinks(table, page, pageLo, hi, after, batch);
      after := Some(last.tail);
    }
  }

  lemma CoveredUpTo(table: seq<Row>, rows: seq<Row>, last: Row)
    requires Reading(table, rows) && last in rows
    ensures forall t :: t in table && Before(t, last) ==> t in rows
  {
    var i :| 0 <= i < |rows| && rows[i] == last;
  }

  /** For every table, every batch size and every way of cutting pages short, the reader returns
      every row once, in order; it warns of truncation exactly when the table repeats a row. */
  method PagedRows(table: seq<Row>, batch: nat, expected: Option<nat>, loBound: Option<int>, hiBound: Option<int>)
    returns (rows: seq<Row>, truncated: bool)
    requires Ordered(table) && batch >= 1
    requires expected.Some? ==> expected.value == |table|
    requires forall t :: t in table ==> (if loBound.Some? then loBound.value else 0) <= t.anchor
    requires forall t :: t in table ==> t.anchor <= (if hiBound.Some? then hiBound.value else 0x3FFF_FFFF_FFFF_FFFF)
    ensures Strict(rows) && Elements(rows) == Elements(table)
    ensures truncated <==> expected.Some? && !Distinct(table)
  {
    var lo := if loBound.Some? then loBound.value else 0;
    var hi := if hiBound.Some? then hiBound.value + 1 else 0x4000_0000_0000_0000;
    var share := batch * (hi - lo) / (if expected.Some? && expected.value > 0 then expected.value else 1);
    var width := if share > WINDOW_MIN_IDS then share else WINDOW_MIN_IDS;
    rows := [];
    var seen: set<Row> := {};
    var windowLo := lo;
    while windowLo < hi
      invariant Reading(table, rows) && Covered(table, rows, windowLo) && forall r :: r in seen <==> r in rows
      decreases hi - windowLo
    {
      if Reached(expected, rows) {
        EnoughIsAll(table, rows);
        break;
      }
      var windowHi := if windowLo + width < hi then windowLo + width else hi;
      rows, seen := ReadWindow(table, rows, seen, windowLo, windowHi, batch, expected);
      windowLo := windowHi;
    }
    assert Elements(rows) == Elements(table) by {
      assert forall t :: t in table ==> t in rows;
      assert forall i :: 0 <= i < |rows| ==> rows[i] in table;
    }
    ElementsSize(rows);
    ElementsSize(table);
    assert Distinct(rows);
    truncated := expected.Some? && |rows| < expected.value;
  }

  /** The returned sequence is determined by the table: strict order leaves no choice. */
  lemma {:induction false} StrictIsUnique(a: seq<Row>, b: seq<Row>)
    requires Strict(a) && Strict(b) && Elements(a) == Elements(b)
    ensures a == b
  {
    ElementsSize(a);
    ElementsSize(b);
    if a != [] {
      var x, y := a[|a| - 1], b[|b| - 1];
      assert x in Elements(a) && y in Elements(b);
      assert x in b && y in a;
      assert x == y;
      var a', b' := a[..|a| - 1], b[..|b| - 1];
      assert Elements(a') == Elements(a) - {x} by { LastIsNew(a); }
      assert Elements(b') == Elements(b) - {x} by { LastIsNew(b); }
      StrictIsUnique(a', b');
    }
  }

  lemma LastIsNew(a: seq<Row>)
    requires Strict(a) && a != []
    ensures Elements(a[..|a| - 1]) == Elements(a) - {a[|a| - 1]}
  {
    assert a == a[..|a| - 1] + [a[|a| - 1]];
  }
}
