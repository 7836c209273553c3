/** SELECT: matching, ordering and limiting the rows of a view. */
module Selection {
  import opened Values
  import opened Schema
  import opened Plans

  // ---- the comparator ----

  /** Three-way form of the comparator: the first order column that differs decides. */
  function CompareRows(orders: seq<Order>, a: Row, b: Row): int {
    if orders == [] then 0
    else
      var c := CompareValue(Cell(a, orders[0].column), Cell(b, orders[0].column));
      if c != 0 then (if orders[0].descending then -c else c)
      else CompareRows(orders[1..], a, b)
  }

  /** Without ORDER BY the rows come in primary-key order. */
  function Orders(t: Table, plan: Plan): seq<Order> {
    if plan.order == [] then [Order(PrimaryKey(t), false)] else plan.order
  }

  /** Rows of one table agree on the type of every column. */
  ghost predicate SameTypes(a: Row, b: Row) {
    forall c :: Cell(a, c).typ == Cell(b, c).typ
  }

  lemma FittingRowsHaveSameTypes(t: Table, a: Row, b: Row)
    requires WellFormedTable(t) && RowFits(t, a) && RowFits(t, b)
    ensures SameTypes(a, b)
  {
    forall c ensures Cell(a, c).typ == Cell(b, c).typ {
      SameTypeAt(t, a, b, c);
    }
  }

  lemma SameTypeAt(t: Table, a: Row, b: Row, c: string)
    requires WellFormedTable(t) && RowFits(t, a) && RowFits(t, b)
    ensures Cell(a, c).typ == Cell(b, c).typ
  {
    FittingRowColumns(t, a);
    FittingRowColumns(t, b);
    if c in a || c in b {
      var i :| 0 <= i < |t.columns| && t.columns[i].column.name == c;
      assert CellFits(t.columns[i], a) && CellFits(t.columns[i], b);
    }
  }

  lemma CompareValueOrder(a: Value, b: Value, c: Value)
    requires a.typ == b.typ == c.typ
    ensures CompareValue(a, b) == -CompareValue(b, a)
    ensures CompareValue(a, b) <= 0 && CompareValue(b, c) <= 0 ==> CompareValue(a, c) <= 0
    ensures CompareValue(a, b) < 0 && CompareValue(b, c) <= 0 ==> CompareValue(a, c) < 0
    ensures CompareValue(a, b) <= 0 && CompareValue(b, c) < 0 ==> CompareValue(a, c) < 0
  {
    CompareTextOrder(TextOf(a), TextOf(b), TextOf(c));
  }

  /** The comparator is a total preorder on rows of one table: `less` is a strict weak order. */
  lemma {:induction false} CompareRowsOrder(orders: seq<Order>, a: Row, b: Row, c: Row)
    requires SameTypes(a, b) && SameTypes(b, c)
    ensures CompareRows(orders, a, b) == -CompareRows(orders, b, a)
    ensures CompareRows(orders, a, b) <= 0 && CompareRows(orders, b, c) <= 0 ==> CompareRows(orders, a, c) <= 0
    ensures CompareRows(orders, a, b) < 0 && CompareRows(orders, b, c) <= 0 ==> CompareRows(orders, a, c) < 0
    ensures CompareRows(orders, a, b) <= 0 && CompareRows(orders, b, c) < 0 ==> CompareRows(orders, a, c) < 0
  {
    if orders != [] {
      var name := orders[0].column;
      var x, y, z := Cell(a, name), Cell(b, name), Cell(c, name);
      assert x.typ == y.typ == z.typ;
      CompareValueOrder(x, y, z);
      CompareValueOrder(z, y, x);
      CompareValueOrder(y, x, z);
      CompareRowsOrder(orders[1..], a, b, c);
    }
  }

  /** The rows compare equal on the first `n` order columns. */
  ghost predicate Ties(orders: seq<Order>, a: Row, b: Row, n: nat)
    requires n <= |orders|
  {
    forall i :: 0 <= i < n ==> CompareValue(Cell(a, orders[i].column), Cell(b, orders[i].column)) == 0
  }

  /** In this column `a` comes before `b`. */
  predicate ComesFirst(o: Order, a: Row, b: Row) {
    if o.descending then CompareValue(Cell(b, o.column), Cell(a, o.column)) < 0
    else CompareValue(Cell(a, o.column), Cell(b, o.column)) < 0
  }

  /** Lexicographic order: a row comes before another exactly when it comes first in the first
      order column that tells them apart, ascending or descending as that column says. */
  lemma {:induction false} FirstDifferenceDecides(orders: seq<Order>, a: Row, b: Row)
    requires SameTypes(a, b)
    ensures CompareRows(orders, a, b) < 0 <==> exists k :: 0 <= k < |orders| && Ties(orders, a, b, k) && ComesFirst(orders[k], a, b)
    ensures CompareRows(orders, a, b) == 0 <==> Ties(orders, a, b, |orders|)
  {
    if orders != [] {
      var o, rest := orders[0], orders[1..];
      var x, y := Cell(a, o.column), Cell(b, o.column);
      assert x.typ == y.typ;
      CompareValueOrder(x, y, x);
      FirstDifferenceDecides(rest, a, b);
      hide CompareValue, Cell;
      if CompareValue(x, y) == 0 {
        forall k | 0 <= k <= |rest| ensures Ties(orders, a, b, k + 1) <==> Ties(rest, a, b, k) {
          TiesOneMore(orders, a, b, k);
        }
        if k :| 0 <= k < |rest| && Ties(rest, a, b, k) && ComesFirst(rest[k], a, b) {
          assert Ties(orders, a, b, k + 1) && ComesFirst(orders[k + 1], a, b);
        }
        if k :| 0 <= k < |orders| && Ties(orders, a, b, k) && ComesFirst(orders[k], a, b) {
          assert k > 0 && Ties(orders, a, b, k - 1 + 1) && Ties(rest, a, b, k - 1) && ComesFirst(rest[k - 1], a, b);
        }
      } else {
        assert forall k :: 0 < k <= |orders| ==> !Ties(orders, a, b, k);
        assert Ties(orders, a, b, 0);
      }
    }
  }

  lemma TiesOneMore(orders: seq<Order>, a: Row, b: Row, k: nat)
    requires orders != [] && k <= |orders| - 1
    requires CompareValue(Cell(a, orders[0].column), Cell(b, orders[0].column)) == 0
    ensures Ties(orders, a, b, k + 1) <==> Ties(orders[1..], a, b, k)
  {
    hide CompareValue, Cell;
    if Ties(orders, a, b, k + 1) {
      assert forall i :: 0 <= i < k ==> orders[1..][i] == orders[i + 1];
    }
    if Ties(orders[1..], a, b, k) {
      assert forall i :: 1 <= i <= k ==> orders[i] == orders[1..][i - 1];
    }
  }

  // ---- what a SELECT returns ----

  ghost function Matching(view: View, plan: Plan, params: seq<Value>): set<Id> {
    set id | id in view && id.table == plan.table && RowMatches(view[id], plan.predicates, params) == Some(true)
  }

  ghost predicate MatchError(view: View, plan: Plan, params: seq<Value>) {
    exists id :: id in view && id.table == plan.table && RowMatches(view[id], plan.predicates, params) == None
  }

  ghost predicate SortedBy(orders: seq<Order>, view: View, ids: seq<Id>)
    requires forall id :: id in ids ==> id in view
  {
    forall i, j :: 0 <= i < j < |ids| ==> CompareRows(orders, view[ids[i]], view[ids[j]]) <= 0
  }

  /** `ids` lists the given set without repetition, in order. */
  ghost predicate Ordering(orders: seq<Order>, view: View, matching: set<Id>, ids: seq<Id>) {
    && (forall id :: id in ids <==> id in matching)
    && (forall i, j :: 0 <= i < j < |ids| ==> ids[i] != ids[j])
    && matching <= view.Keys
    && SortedBy(orders, view, ids)
  }

  function Cut(limit: Option<nat>, n: nat): nat {
    match limit case None => n case Some(k) => if n > k then k else n
  }

  /** The records a SELECT may return: an ordering of the matching ones, cut to the limit. */
  ghost predicate Selects(t: Table, view: View, plan: Plan, params: seq<Value>, ids: seq<Id>) {
    exists all ::
      && Ordering(Orders(t, plan), view, Matching(view, plan, params), all)
      && ids == all[..Cut(plan.limit, |all|)]
  }

  // ---- how far the result is determined ----

  ghost function Range(ids: seq<Id>, n: nat): set<Id>
    requires n <= |ids|
  {
    set i | 0 <= i < n :: ids[i]
  }

  lemma {:induction false} RangeSize(ids: seq<Id>, n: nat)
    requires n <= |ids| && forall i, j :: 0 <= i < j < |ids| ==> ids[i] != ids[j]
    ensures |Range(ids, n)| == n
  {
    if n > 0 {
      RangeSize(ids, n - 1);
      assert Range(ids, n) == Range(ids, n - 1) + {ids[n - 1]};
    }
  }

  ghost predicate Uniform(view: View, matching: set<Id>) {
    matching <= view.Keys && forall a, b :: a in matching && b in matching ==> SameTypes(view[a], view[b])
  }

  /** A record at or before a[i] sorts before anything a[i] sorts before. */
  lemma BelowPosition(orders: seq<Order>, view: View, matching: set<Id>, a: seq<Id>, k: nat, i: nat, id: Id)
    requires Uniform(view, matching) && Ordering(orders, view, matching, a)
    requires k <= i < |a| && id in matching && CompareRows(orders, view[a[i]], view[id]) < 0
    ensures CompareRows(orders, view[a[k]], view[id]) < 0
  {
    assert a[k] in matching && a[i] in matching;
    CompareRowsOrder(orders, view[a[i]], view[a[i]], view[id]);
    CompareRowsOrder(orders, view[a[k]], view[a[i]], view[id]);
  }

  lemma PlacedBefore(orders: seq<Order>, view: View, matching: set<Id>, b: seq<Id>, id: Id, i: nat)
    requires Uniform(view, matching) && Ordering(orders, view, matching, b)
    requires i < |b| && id in matching && CompareRows(orders, view[id], view[b[i]]) < 0
    ensures id in Range(b, i)
  {
    hide CompareRows, SameTypes;
    var m :| 0 <= m < |b| && b[m] == id;
    assert b[i] in matching && b[m] in matching;
    CompareRowsOrder(orders, view[b[i]], view[b[m]], view[b[i]]);
    assert m < i;
  }

  lemma PrefixFitsBefore(orders: seq<Order>, view: View, matching: set<Id>, a: seq<Id>, b: seq<Id>, i: nat)
    requires Uniform(view, matching)
    requires Ordering(orders, view, matching, a) && Ordering(orders, view, matching, b)
    requires i < |a| && i < |b| && CompareRows(orders, view[a[i]], view[b[i]]) < 0
    ensures Range(a, i + 1) <= Range(b, i)
  {
    forall id | id in Range(a, i + 1) ensures id in Range(b, i) {
      var k :| 0 <= k <= i && a[k] == id;
      BelowPosition(orders, view, matching, a, k, i, b[i]);
      PlacedBefore(orders, view, matching, b, id, i);
    }
  }

  /** No position of one ordering can sort strictly before the same position of another:
      too many records would have to fit below it. */
  lemma NoPositionBefore(orders: seq<Order>, view: View, matching: set<Id>, a: seq<Id>, b: seq<Id>, i: nat)
    requires Uniform(view, matching)
    requires Ordering(orders, view, matching, a) && Ordering(orders, view, matching, b)
    requires i < |a| && i < |b|
    ensures CompareRows(orders, view[a[i]], view[b[i]]) >= 0
  {
    if CompareRows(orders, view[a[i]], view[b[i]]) < 0 {
      PrefixFitsBefore(orders, view, matching, a, b, i);
      RangeSize(a, i + 1);
      RangeSize(b, i);
      SubsetSize(Range(a, i + 1), Range(b, i));
    }
  }

  lemma SubsetSize<T>(a: set<T>, b: set<T>)
    requires a <= b
    ensures |a| <= |b|
  {
    assert b == a + (b - a);
  }

  /** Two orderings of the same records agree, position by position, on the order columns. */
  lemma OrderingsAgree(orders: seq<Order>, view: View, matching: set<Id>, a: seq<Id>, b: seq<Id>)
    requires Uniform(view, matching)
    requires Ordering(orders, view, matching, a) && Ordering(orders, view, matching, b)
    ensures |a| == |b|
    ensures forall i :: 0 <= i < |a| ==> CompareRows(orders, view[a[i]], view[b[i]]) == 0
  {
    RangeSize(a, |a|);
    RangeSize(b, |b|);
    assert Range(a, |a|) == matching == Range(b, |b|);
    forall i | 0 <= i < |a| ensures CompareRows(orders, view[a[i]], view[b[i]]) == 0 {
      NoPositionBefore(orders, view, matching, a, b, i);
      NoPositionBefore(orders, view, matching, b, a, i);
      CompareRowsOrder(orders, view[a[i]], view[b[i]], view[a[i]]);
    }
  }

  /** Fitting rows whose primary keys compare equal have the same key text. */
  lemma EqualKeysCompareEqual(t: Table, a: Row, b: Row)
    requires WellFormedTable(t) && RowFits(t, a) && RowFits(t, b)
    requires CompareValue(Cell(a, PrimaryKey(t)), Cell(b, PrimaryKey(t))) == 0
    ensures Cell(a, PrimaryKey(t)).AsString() == Cell(b, PrimaryKey(t)).AsString()
  {
    var f :| f in t.columns && f.column.name == PrimaryKey(t);
    var i :| 0 <= i < |t.columns| && t.columns[i] == f;
    assert CellFits(t.columns[i], a) && CellFits(t.columns[i], b);
    SameNumberSameText(f.column, Cell(a, PrimaryKey(t)), Cell(b, PrimaryKey(t)));
  }

  lemma SameNumberSameText(column: Column, a: Value, b: Value)
    requires Fits(column, a) && Fits(column, b) && !a.IsNull() && !b.IsNull() && CompareValue(a, b) == 0
    ensures a.AsString() == b.AsString()
  {
    hide ParseInt64, Decimal;
  }

  /** The rows of one table in a view fit it and are stored under their primary keys. */
  ghost predicate KeyedRows(t: Table, view: View) {
    forall id :: id in view && id.table == t.name ==>
      RowFits(t, view[id]) && Cell(view[id], PrimaryKey(t)).AsString() == Some(id.key)
  }

  lemma KeyedRowsAreUniform(t: Table, view: View, plan: Plan, params: seq<Value>)
    requires WellFormedTable(t) && t.name == plan.table && KeyedRows(t, view)
    ensures Uniform(view, Matching(view, plan, params))
  {
    forall a, b | a in Matching(view, plan, params) && b in Matching(view, plan, params)
      ensures SameTypes(view[a], view[b])
    {
      FittingRowsHaveSameTypes(t, view[a], view[b]);
    }
  }

  /** Without ORDER BY only a record itself stands in its place. */
  lemma SameKeySameRecord(t: Table, view: View, plan: Plan, x: Id, y: Id)
    requires WellFormedTable(t) && KeyedRows(t, view) && plan.order == []
    requires x in view && y in view && x.table == t.name == y.table
    requires CompareRows(Orders(t, plan), view[x], view[y]) == 0
    ensures x == y
  {
    EqualKeysCompareEqual(t, view[x], view[y]);
    hide RowFits, CompareValue;
  }

  /** Two runs of the same SELECT on the same view return equally long results that agree on the
      order columns at every position; without ORDER BY they are the same records in the same order. */
  lemma SelectIsDetermined(t: Table, view: View, plan: Plan, params: seq<Value>, x: seq<Id>, y: seq<Id>)
    requires WellFormedTable(t) && t.name == plan.table && KeyedRows(t, view)
    requires Selects(t, view, plan, params, x) && Selects(t, view, plan, params, y)
    ensures |x| == |y|
    ensures forall i :: 0 <= i < |x| ==>
              x[i] in view && y[i] in view && CompareRows(Orders(t, plan), view[x[i]], view[y[i]]) == 0
    ensures plan.order == [] ==> x == y
  {
    var orders, matching := Orders(t, plan), Matching(view, plan, params);
    var a :| Ordering(orders, view, matching, a) && x == a[..Cut(plan.limit, |a|)];
    var b :| Ordering(orders, view, matching, b) && y == b[..Cut(plan.limit, |b|)];
    KeyedRowsAreUniform(t, view, plan, params);
    OrderingsAgree(orders, view, matching, a, b);
    hide CompareRows, KeyedRows, RowMatches, WellFormedTable, SortedBy, Orders, SameTypes;
    forall i | 0 <= i < |x|
      ensures x[i] in view && y[i] in view && CompareRows(orders, view[x[i]], view[y[i]]) == 0
      ensures plan.order == [] ==> x[i] == y[i]
    {
      assert a[i] in matching && b[i] in matching;
      if plan.order == [] {
        SameKeySameRecord(t, view, plan, a[i], b[i]);
      }
    }
  }

  // ---- the algorithm ----

  /** Collects the matching records in whatever order the map yields them. */
  method Collect(view: View, plan: Plan, params: seq<Value>) returns (failed: bool, ids: seq<Id>)
    ensures failed <==> MatchError(view, plan, params)
    ensures !failed ==> forall id :: id in ids <==> id in Matching(view, plan, params)
    ensures !failed ==> forall i, j :: 0 <= i < j < |ids| ==> ids[i] != ids[j]
  {
    ids := [];
    var rest := set id | id in view && id.table == plan.table;
    while rest != {}
      invariant forall id :: id in rest ==> id in view && id.table == plan.table
      invariant forall id :: id in ids <==> id in Matching(view, plan, params) && id !in rest
      invariant forall i, j :: 0 <= i < j < |ids| ==> ids[i] != ids[j]
      invariant forall id :: id in view && id.table == plan.table && id !in rest ==>
                  RowMatches(view[id], plan.predicates, params) != None
    {
      var id :| id in rest;
      match RowMatches(view[id], plan.predicates, params) {
        case None =>
          return true, [];
        case Some(matches) =>
          if matches {
            ids := ids + [id];
          }
      }
      rest := rest - {id};
    }
    return false, ids;
  }

  ghost function IdSet(ids: seq<Id>): set<Id> {
    set id | id in ids
  }

  method SortIds(orders: seq<Order>, view: View, ids: seq<Id>) returns (sorted: seq<Id>)
    requires forall i, j :: 0 <= i < j < |ids| ==> ids[i] != ids[j]
    requires Uniform(view, IdSet(ids))
    ensures Ordering(orders, view, IdSet(ids), sorted)
  {
    sorted := [];
    var n := 0;
    while n < |ids|
      invariant 0 <= n <= |ids|
      invariant Ordering(orders, view, IdSet(ids[..n]), sorted)
    {
      assert ids[n] !in sorted;
      sorted := InsertId(orders, view, sorted, ids[n], IdSet(ids));
      assert ids[..n + 1] == ids[..n] + [ids[n]];
      n := n + 1;
    }
    assert ids[..n] == ids;
  }

  method InsertId(orders: seq<Order>, view: View, sorted: seq<Id>, id: Id, ghost all: set<Id>) returns (out: seq<Id>)
    requires Uniform(view, all) && id in all && id !in sorted
    requires IdSet(sorted) <= all && Ordering(orders, view, IdSet(sorted), sorted)
    ensures Ordering(orders, view, IdSet(sorted) + {id}, out)
  {
    hide CompareRows;
    var i := |sorted|;
    while i > 0 && CompareRows(orders, view[id], view[sorted[i - 1]]) < 0
      invariant 0 <= i <= |sorted|
      invariant forall j :: i <= j < |sorted| ==> CompareRows(orders, view[id], view[sorted[j]]) < 0
    {
      i := i - 1;
    }
    out := sorted[..i] + [id] + sorted[i..];
    PrefixBelowInserted(orders, view, sorted, id, all, i);
    InsertedIsOrdering(orders, view, sorted, id, i, out);
  }

  lemma PrefixBelowInserted(orders: seq<Order>, view: View, sorted: seq<Id>, id: Id, all: set<Id>, i: nat)
    requires Uniform(view, all) && id in all && IdSet(sorted) <= all && Ordering(orders, view, IdSet(sorted), sorted)
    requires i <= |sorted| && (i > 0 ==> CompareRows(orders, view[id], view[sorted[i - 1]]) >= 0)
    ensures forall j :: 0 <= j < i ==> CompareRows(orders, view[sorted[j]], view[id]) <= 0
  {
    forall j | 0 <= j < i ensures CompareRows(orders, view[sorted[j]], view[id]) <= 0 {
      assert sorted[j] in all && sorted[i - 1] in all;
      CompareRowsOrder(orders, view[id], view[sorted[i - 1]], view[id]);
      CompareRowsOrder(orders, view[sorted[j]], view[sorted[j]], view[id]);
      CompareRowsOrder(orders, view[sorted[j]], view[sorted[i - 1]], view[id]);
    }
  }

  lemma InsertedMembers(sorted: seq<Id>, id: Id, i: nat, out: seq<Id>)
    requires i <= |sorted| && out == sorted[..i] + [id] + sorted[i..]
    ensures forall x :: x in out <==> x == id || x in sorted
  {
    assert sorted == sorted[..i] + sorted[i..];
  }

  lemma InsertedPair(orders: seq<Order>, view: View, sorted: seq<Id>, id: Id, i: nat, out: seq<Id>, p: nat, q: nat)
    requires id in view && id !in sorted && Ordering(orders, view, IdSet(sorted), sorted)
    requires i <= |sorted| && out == sorted[..i] + [id] + sorted[i..] && p < q < |out|
    requires forall x :: x in out ==> x in view
    requires forall j :: 0 <= j < i ==> CompareRows(orders, view[sorted[j]], view[id]) <= 0
    requires forall j :: i <= j < |sorted| ==> CompareRows(orders, view[id], view[sorted[j]]) <= 0
    ensures out[p] != out[q] && CompareRows(orders, view[out[p]], view[out[q]]) <= 0
  {
    hide CompareRows;
    var p', q' := if p < i then p else p - 1, if q < i then q else q - 1;
    assert p == i || out[p] == sorted[p'];
    assert q == i || out[q] == sorted[q'];
  }

  lemma InsertedIsOrdering(orders: seq<Order>, view: View, sorted: seq<Id>, id: Id, i: nat, out: seq<Id>)
    requires id in view && id !in sorted && Ordering(orders, view, IdSet(sorted), sorted)
    requires i <= |sorted| && out == sorted[..i] + [id] + sorted[i..]
    requires forall j :: 0 <= j < i ==> CompareRows(orders, view[sorted[j]], view[id]) <= 0
    requires forall j :: i <= j < |sorted| ==> CompareRows(orders, view[id], view[sorted[j]]) <= 0
    ensures Ordering(orders, view, IdSet(sorted) + {id}, out)
  {
    hide CompareRows;
    InsertedMembers(sorted, id, i, out);
    forall p, q | 0 <= p < q < |out|
      ensures out[p] != out[q] && CompareRows(orders, view[out[p]], view[out[q]]) <= 0
    {
      InsertedPair(orders, view, sorted, id, i, out, p, q);
    }
  }

  datatype Selected = Selection(rows: seq<seq<Data>>) | NoSelection

  function RowData(row: Row, projection: seq<string>): (r: seq<Data>)
    ensures |r| == |projection|
  {
    seq(|projection|, i requires 0 <= i < |projection| => Cell(row, projection[i]).data)
  }

  function DataOf(view: View, projection: seq<string>, ids: seq<Id>): (rows: seq<seq<Data>>)
    requires forall id :: id in ids ==> id in view
    ensures |rows| == |ids|
  {
    seq(|ids|, i requires 0 <= i < |ids| => RowData(view[ids[i]], projection))
  }

  /** The length of the JSON text of a result with these columns and rows. */
  type TextSize = (seq<Column>, seq<seq<Data>>) -> nat

  const MAX_SIZE := 0x10_0000

  /** mysqlv1.ValidateRows on decoded cells. */
  predicate RowsValid(columns: seq<Column>, rows: seq<seq<Data>>, textSize: TextSize) {
    |rows| <= MAX_ROWS && textSize(columns, rows) <= MAX_SIZE && forall i :: 0 <= i < |rows| ==>
      |rows[i]| == |columns| && forall j :: 0 <= j < |columns| ==> Fits(columns[j], Value(columns[j].typ, rows[i][j]))
  }

  /** The SELECT branch of execute. */
  method Select(t: Table, view: View, plan: Plan, params: seq<Value>, textSize: TextSize) returns (r: Selected, ghost ids: seq<Id>)
    requires WellFormedTable(t) && t.name == plan.table && KeyedRows(t, view)
    ensures r.Selection? ==> !MatchError(view, plan, params) && Selects(t, view, plan, params, ids)
    ensures r.Selection? ==> (forall id :: id in ids ==> id in view) && r.rows == DataOf(view, plan.projection, ids)
    ensures r.Selection? ==> RowsValid(plan.columns, r.rows, textSize)
    ensures r.NoSelection? ==>
              (MatchError(view, plan, params)
               || (&& Selects(t, view, plan, params, ids) && (forall id :: id in ids ==> id in view)
                   && !RowsValid(plan.columns, DataOf(view, plan.projection, ids), textSize)))
  {
    var failed, found := Collect(view, plan, params);
    if failed {
      return NoSelection, [];
    }
    assert IdSet(found) == Matching(view, plan, params);
    KeyedRowsAreUniform(t, view, plan, params);
    var all := SortIds(Orders(t, plan), view, found);
    ids := all[..Cut(plan.limit, |all|)];
    var chosen := all[..Cut(plan.limit, |all|)];
    var rows: seq<seq<Data>> := [];
    var n := 0;
    while n < |chosen|
      invariant 0 <= n <= |chosen| && |rows| == n
      invariant forall i :: 0 <= i < n ==> rows[i] == RowData(view[chosen[i]], plan.projection)
    {
      rows := rows + [RowData(view[chosen[n]], plan.projection)];
      n := n + 1;
    }
    assert rows == DataOf(view, plan.projection, ids);
    if !RowsValid(plan.columns, rows, textSize) {
      return NoSelection, ids;
    }
    return Selection(rows), ids;
  }
}
