/** What an accepted SELECT answers, in terms of its syntax: which rows, which cells, in which order. */
module SelectMeaning {
  import opened Values
  import opened Schema
  import opened Plans
  import opened Selection
  import opened CompilerSpec
  import opened CompilerMeaning
  import opened StatementMeaning
  import StoreSpec
  import opened StepMeaning

  // ---- the order of values ----

  /** A proper prefix, or smaller in the first character that differs. */
  ghost predicate TextBelow(a: string, b: string) {
    (|a| < |b| && SameUpTo(a, b, |a|)) || exists k :: 0 <= k < |a| && k < |b| && SameUpTo(a, b, k) && a[k] < b[k]
  }

  ghost predicate SameUpTo(a: string, b: string, k: nat)
    requires k <= |a| && k <= |b|
  {
    forall i :: 0 <= i < k ==> a[i] == b[i]
  }

  lemma SameTails(a: string, b: string, k: nat)
    requires a != "" && b != "" && a[0] == b[0] && k < |a| && k < |b|
    ensures SameUpTo(a, b, k + 1) <==> SameUpTo(a[1..], b[1..], k)
  {
    assert forall i :: 0 <= i < |a| - 1 ==> a[1..][i] == a[i + 1];
    assert forall i :: 0 <= i < |b| - 1 ==> b[1..][i] == b[i + 1];
    if SameUpTo(a[1..], b[1..], k) {
      forall i | 0 <= i < k + 1 ensures a[i] == b[i] {
        assert i > 0 ==> a[1..][i - 1] == b[1..][i - 1];
      }
    }
  }

  lemma TextBelowTail(a: string, b: string)
    requires a != "" && b != "" && a[0] == b[0]
    ensures TextBelow(a, b) <==> TextBelow(a[1..], b[1..])
  {
    hide SameUpTo;
    var x, y := a[1..], b[1..];
    if |a| < |b| {
      SameTails(a, b, |a| - 1);
    }
    if k :| 0 < k < |a| && k < |b| && SameUpTo(a, b, k) && a[k] < b[k] {
      SameTails(a, b, k - 1);
      assert SameUpTo(x, y, k - 1) && x[k - 1] < y[k - 1];
    }
    if k :| 0 <= k < |x| && k < |y| && SameUpTo(x, y, k) && x[k] < y[k] {
      SameTails(a, b, k);
      assert SameUpTo(a, b, k + 1) && a[k + 1] < b[k + 1];
    }
  }

  lemma {:induction false} TextOrder(a: string, b: string)
    ensures CompareText(a, b) < 0 <==> TextBelow(a, b)
  {
    if a != "" && b != "" {
      if a[0] == b[0] {
        TextOrder(a[1..], b[1..]);
        TextBelowTail(a, b);
      } else {
        assert SameUpTo(a, b, 0);
      }
    }
  }

  /** NULL comes first, numbers come by size, texts in lexicographic order. */
  ghost predicate Below(a: Value, b: Value) {
    if a.IsNull() || b.IsNull() then a.IsNull() && !b.IsNull()
    else if a.typ == BIGINT then a.AsInt64().Some? && b.AsInt64().Some? && a.AsInt64().value < b.AsInt64().value
    else a.AsString().Some? && b.AsString().Some? && TextBelow(a.AsString().value, b.AsString().value)
  }

  /** The comparison of values puts the smaller one first, and ties only values that read alike. */
  lemma ValueOrder(column: Column, a: Value, b: Value)
    requires Fits(column, a) && Fits(column, b)
    ensures CompareValue(a, b) < 0 <==> Below(a, b)
    ensures CompareValue(a, b) == 0 <==> Alike(a, b)
  {
    if !a.IsNull() && !b.IsNull() {
      if a.typ == BIGINT {
        hide ParseInt64, Decimal;
      } else {
        TextOrder(TextOf(a), TextOf(b));
      }
    }
  }

  // ---- the order of rows ----

  /** The rows read alike in the first `k` order columns. */
  ghost predicate AlikeBefore(orders: seq<Order>, a: Row, b: Row, k: nat)
    requires k <= |orders|
  {
    forall i :: 0 <= i < k ==> Alike(Cell(a, orders[i].column), Cell(b, orders[i].column))
  }

  /** In this column `a` has the smaller value, or the larger one where it says descending. */
  ghost predicate SmallerIn(o: Order, a: Row, b: Row) {
    if o.descending then Below(Cell(b, o.column), Cell(a, o.column)) else Below(Cell(a, o.column), Cell(b, o.column))
  }

  /** `a` belongs before `b`: the first order column they differ in says so. */
  ghost predicate RowBelow(orders: seq<Order>, a: Row, b: Row) {
    exists k :: 0 <= k < |orders| && AlikeBefore(orders, a, b, k) && SmallerIn(orders[k], a, b)
  }

  ghost predicate HasColumn(t: Table, name: string) {
    exists f :: f in t.columns && f.column.name == name
  }

  ghost predicate OrderColumns(t: Table, orders: seq<Order>) {
    forall i :: 0 <= i < |orders| ==> HasColumn(t, orders[i].column)
  }

  lemma CellOrder(t: Table, orders: seq<Order>, a: Row, b: Row, i: nat)
    requires RowFits(t, a) && RowFits(t, b) && OrderColumns(t, orders) && i < |orders|
    ensures var x, y := Cell(a, orders[i].column), Cell(b, orders[i].column);
            && (CompareValue(x, y) < 0 <==> Below(x, y)) && (CompareValue(y, x) < 0 <==> Below(y, x))
            && (CompareValue(x, y) == 0 <==> Alike(x, y))
  {
    assert HasColumn(t, orders[i].column);
    var f :| f in t.columns && f.column.name == orders[i].column;
    FittingCell(t, a, f);
    FittingCell(t, b, f);
    ValueOrder(f.column, Cell(a, f.column.name), Cell(b, f.column.name));
    ValueOrder(f.column, Cell(b, f.column.name), Cell(a, f.column.name));
  }

  /** The comparator puts a row first exactly when it belongs before the other. */
  lemma RowOrder(t: Table, orders: seq<Order>, a: Row, b: Row)
    requires WellFormedTable(t) && RowFits(t, a) && RowFits(t, b) && OrderColumns(t, orders)
    ensures CompareRows(orders, a, b) < 0 <==> RowBelow(orders, a, b)
  {
    FittingRowsHaveSameTypes(t, a, b);
    FirstDifferenceDecides(orders, a, b);
    hide CompareRows, CompareValue, Below, Alike, Cell, RowFits, WellFormedTable, OrderColumns;
    forall k | 0 <= k < |orders|
      ensures (Ties(orders, a, b, k) <==> AlikeBefore(orders, a, b, k))
           && (ComesFirst(orders[k], a, b) <==> SmallerIn(orders[k], a, b))
    {
      forall i | 0 <= i <= k
        ensures CompareValue(Cell(a, orders[i].column), Cell(b, orders[i].column)) == 0
           <==> Alike(Cell(a, orders[i].column), Cell(b, orders[i].column))
      {
        CellOrder(t, orders, a, b, i);
      }
      CellOrder(t, orders, a, b, k);
    }
    if RowBelow(orders, a, b) {
      var k :| 0 <= k < |orders| && AlikeBefore(orders, a, b, k) && SmallerIn(orders[k], a, b);
      assert Ties(orders, a, b, k) && ComesFirst(orders[k], a, b);
    }
  }

  // ---- which rows, in which order ----

  /** The records are some of the given ones, each once, none before one it belongs behind, and none
      left out that belongs before one of them; as many as there are, up to the limit. */
  ghost predicate InOrder(orders: seq<Order>, view: View, matching: set<Id>, limit: Option<nat>, ids: seq<Id>) {
    && matching <= view.Keys && (forall id :: id in ids ==> id in matching)
    && (forall i, j :: 0 <= i < j < |ids| ==> ids[i] != ids[j])
    && |ids| == (if limit.Some? && limit.value < |matching| then limit.value else |matching|)
    && (forall i, j :: 0 <= i < j < |ids| ==> !RowBelow(orders, view[ids[j]], view[ids[i]]))
    && (forall id, i :: id in matching && id !in ids && 0 <= i < |ids| ==> !RowBelow(orders, view[id], view[ids[i]]))
  }

  lemma ListedSize(all: seq<Id>, matching: set<Id>)
    requires forall id :: id in all <==> id in matching
    requires forall i, j :: 0 <= i < j < |all| ==> all[i] != all[j]
    ensures |all| == |matching|
  {
    RangeSize(all, |all|);
    assert Range(all, |all|) == matching;
  }

  lemma SortedPair(t: Table, orders: seq<Order>, view: View, matching: set<Id>, all: seq<Id>, i: nat, j: nat)
    requires WellFormedTable(t) && OrderColumns(t, orders) && Ordering(orders, view, matching, all)
    requires forall id :: id in matching ==> RowFits(t, view[id])
    requires i < j < |all|
    ensures all[i] in view && all[j] in view && !RowBelow(orders, view[all[j]], view[all[i]])
  {
    var a, b := all[i], all[j];
    assert a in matching && b in matching;
    RowOrder(t, orders, view[b], view[a]);
    FittingRowsHaveSameTypes(t, view[a], view[b]);
    CompareRowsOrder(orders, view[a], view[b], view[a]);
  }

  lemma SelectsInOrder(t: Table, view: View, plan: Plan, params: seq<Value>, ids: seq<Id>)
    requires WellFormedTable(t) && t.name == plan.table && KeyedRows(t, view)
    requires OrderColumns(t, Orders(t, plan)) && Selects(t, view, plan, params, ids)
    ensures InOrder(Orders(t, plan), view, Matching(view, plan, params), plan.limit, ids)
  {
    var orders, matching := Orders(t, plan), Matching(view, plan, params);
    var all :| Ordering(orders, view, matching, all) && ids == all[..Cut(plan.limit, |all|)];
    ListedSize(all, matching);
    hide RowBelow, CompareRows, RowMatches, OrderColumns, Orders, RowFits, WellFormedTable, SortedBy;
    forall i, j | 0 <= i < j < |all| ensures all[i] in view && all[j] in view && !RowBelow(orders, view[all[j]], view[all[i]]) {
      SortedPair(t, orders, view, matching, all, i, j);
    }
    hide Matching;
    CutInOrder(orders, view, matching, plan.limit, all);
  }

  lemma CutInOrder(orders: seq<Order>, view: View, matching: set<Id>, limit: Option<nat>, all: seq<Id>)
    requires matching <= view.Keys && |all| == |matching| && forall id :: id in all <==> id in matching
    requires forall i, j :: 0 <= i < j < |all| ==> all[i] != all[j]
    requires forall i, j :: 0 <= i < j < |all| ==> !RowBelow(orders, view[all[j]], view[all[i]])
    ensures InOrder(orders, view, matching, limit, all[..Cut(limit, |all|)])
  {
    hide RowBelow;
    var ids := all[..Cut(limit, |all|)];
    forall id, i | id in matching && id !in ids && 0 <= i < |ids| ensures !RowBelow(orders, view[id], view[ids[i]]) {
      var j :| 0 <= j < |all| && all[j] == id;
      assert ids[i] == all[i] && |ids| <= j;
    }
  }

  // ---- columns, order and limit of the syntax ----

  /** The column's own name stands for it unless the query gives an alias. */
  ghost predicate ShowsField(env: Env, field: SelectField, name: string, shown: Column) {
    var f := ColumnOf(env, field.expr);
    && f.Some? && name == f.value.column.name && shown.typ == f.value.column.typ && shown.nullable == f.value.column.nullable
    && shown.name == if field.alias == "" then name else field.alias
  }

  lemma {:induction false} FieldsMean(env: Env, fields: seq<SelectField>)
    ensures CompileFields(env, fields).Some? <==> forall i :: 0 <= i < |fields| ==> ColumnOf(env, fields[i].expr).Some?
    ensures CompileFields(env, fields).Some? ==>
              var (names, columns) := CompileFields(env, fields).value;
              && |names| == |fields| == |columns|
              && forall i :: 0 <= i < |fields| ==> ShowsField(env, fields[i], names[i], columns[i])
    decreases |fields|
  {
    hide ColumnOf;
    if fields != [] {
      var front := fields[..|fields| - 1];
      FieldsMean(env, front);
      assert forall i :: 0 <= i < |front| ==> front[i] == fields[i];
    }
  }

  ghost predicate OrdersBy(env: Env, item: OrderItem, o: Order) {
    ColumnOf(env, item.expr).Some? && o.column == ColumnOf(env, item.expr).value.column.name && o.descending == item.descending
  }

  lemma {:induction false} OrderMeans(env: Env, items: seq<OrderItem>)
    ensures CompileOrder(env, items).Some? <==> forall i :: 0 <= i < |items| ==> ColumnOf(env, items[i].expr).Some?
    ensures CompileOrder(env, items).Some? ==>
              |CompileOrder(env, items).value| == |items|
              && forall i :: 0 <= i < |items| ==> OrdersBy(env, items[i], CompileOrder(env, items).value[i])
    decreases |items|
  {
    hide ColumnOf;
    if items != [] {
      var front := items[..|items| - 1];
      OrderMeans(env, front);
      assert forall i :: 0 <= i < |front| ==> front[i] == items[i];
    }
  }

  /** An offset reads as zero: the number 0, NULL, or a marker. */
  predicate NoOffset(offset: Option<Expr>) {
    match offset
    case None => true
    case Some(e) => e == Lit(IntLiteral(0)) || e == Lit(NullLiteral) || e.Marker?
  }

  /** A limit is a number of at most 1000 without an offset. */
  lemma LimitMeans(limit: Option<Limit>)
    ensures CompileLimit(limit)
         == match limit
            case None => Some(None)
            case Some(l) =>
              if NoOffset(l.offset) && l.count.Lit? && l.count.literal.IntLiteral? && l.count.literal.n <= 1000
              then Some(Some(l.count.literal.n)) else None
  {
    if limit.Some? {
      if limit.value.count.Lit? && limit.value.count.literal.IntLiteral? && limit.value.count.literal.n <= MAX_INT64 {
        IntIsExact(limit.value.count.literal.n);
      }
      if limit.value.offset.Some? && limit.value.offset.value.Lit? && limit.value.offset.value.literal.IntLiteral?
         && limit.value.offset.value.literal.n <= MAX_INT64 {
        IntIsExact(limit.value.offset.value.literal.n);
      }
      hide ParseInt64, Decimal;
    }
  }

  // ---- the whole statement ----

  /** ORDER BY as written; without one the primary key, ascending. */
  ghost function OrdersOf(env: Env, q: Query): seq<Order>
    requires q.SelectQuery? && forall i :: 0 <= i < |q.order| ==> ColumnOf(env, q.order[i].expr).Some?
  {
    if q.order == [] then [Order(PrimaryKey(env.table), false)]
    else seq(|q.order|, i requires 0 <= i < |q.order| =>
           Order(ColumnOf(env, q.order[i].expr).value.column.name, q.order[i].descending))
  }

  /** LIMIT as written. */
  function LimitOf(q: Query): Option<nat>
    requires q.SelectQuery?
  {
    match q.limit
    case None => None
    case Some(l) => if l.count.Lit? && l.count.literal.IntLiteral? then Some(l.count.literal.n) else None
  }

  /** Every cell of the answer is the value of its field in its record. */
  ghost predicate ShowsCells(env: Env, q: Query, view: View, params: seq<Value>, ids: seq<Id>, rows: seq<seq<Data>>)
    requires q.SelectQuery?
  {
    |rows| == |ids| && forall i :: 0 <= i < |ids| ==>
      && ids[i] in view && |rows[i]| == |q.fields|
      && forall j :: 0 <= j < |q.fields| ==>
           ValueIn(env, q.fields[j].expr, view[ids[i]], params).Some?
           && rows[i][j] == ValueIn(env, q.fields[j].expr, view[ids[i]], params).value.data
  }

  ghost predicate ShowsColumns(env: Env, q: Query, columns: seq<Column>)
    requires q.SelectQuery?
  {
    |columns| == |q.fields| && forall j :: 0 <= j < |q.fields| ==>
      ColumnOf(env, q.fields[j].expr).Some? && ShowsField(env, q.fields[j], ColumnOf(env, q.fields[j].expr).value.column.name, columns[j])
  }

  lemma PlanOfSelect(q: Query, declared: seq<Parameter>, tables: seq<Table>, database: string)
    requires WellFormed(tables) && q.SelectQuery? && Compile(q, declared, tables, database).Some?
    ensures var env, plan := EnvOf(q, declared, tables, database), Compile(q, declared, tables, database).value;
            && CompileFields(env, q.fields) == Some((plan.projection, plan.columns))
            && CompileOrder(env, q.order) == Some(plan.order) && CompileLimit(q.limit) == Some(plan.limit)
            && plan.table == env.table.name && plan.kind == Select && WellFormedTable(env.table)
  {
    KnownTable(q, tables, database);
    hide CompileWhere, CompileFields, CompileOrder, CompileLimit, QueryMarkers;
  }

  lemma OrdersAreWritten(env: Env, q: Query, plan: Plan)
    requires q.SelectQuery? && WellFormedTable(env.table) && CompileOrder(env, q.order) == Some(plan.order)
    ensures forall i :: 0 <= i < |q.order| ==> ColumnOf(env, q.order[i].expr).Some?
    ensures Orders(env.table, plan) == OrdersOf(env, q) && OrderColumns(env.table, Orders(env.table, plan))
  {
    OrderMeans(env, q.order);
    hide CompileOrder;
    assert HasColumn(env.table, PrimaryKey(env.table));
    forall i | 0 <= i < |plan.order| ensures HasColumn(env.table, plan.order[i].column) {
      assert OrdersBy(env, q.order[i], plan.order[i]);
      assert ColumnOf(env, q.order[i].expr).value in env.table.columns;
    }
  }

  lemma CellsAreShown(env: Env, q: Query, plan: Plan, view: View, params: seq<Value>, ids: seq<Id>)
    requires q.SelectQuery? && CompileFields(env, q.fields) == Some((plan.projection, plan.columns))
    requires forall id :: id in ids ==> id in view
    ensures ShowsCells(env, q, view, params, ids, DataOf(view, plan.projection, ids)) && ShowsColumns(env, q, plan.columns)
  {
    FieldsMean(env, q.fields);
    hide CompileFields, Cell;
    forall i, j | 0 <= i < |ids| && 0 <= j < |q.fields|
      ensures ValueIn(env, q.fields[j].expr, view[ids[i]], params)
           == Some(Cell(view[ids[i]], plan.projection[j]))
    {
      assert ShowsField(env, q.fields[j], plan.projection[j], plan.columns[j]);
    }
  }

  lemma TouchedAreMatching(q: Query, declared: seq<Parameter>, tables: seq<Table>, database: string, params: seq<Value>, view: View)
    requires WellFormed(tables) && q.SelectQuery? && Compile(q, declared, tables, database).Some?
    requires StoreSpec.ParamsFit(Compile(q, declared, tables, database).value, params)
    requires KeyedRows(TableOf(q, tables, database).value, view)
    ensures Touched(EnvOf(q, declared, tables, database), q, view, params)
         == Matching(view, Compile(q, declared, tables, database).value, params)
    ensures !MatchError(view, Compile(q, declared, tables, database).value, params)
  {
    var env, plan := EnvOf(q, declared, tables, database), Compile(q, declared, tables, database).value;
    PlanOfSelect(q, declared, tables, database);
    hide Compile, TableOf, Qualifies, RowMatches, RowFits, StoreSpec.ParamsFit, CompileFields, CompileOrder, CompileLimit, WellFormed,
         WellFormedTable, QueryMarkers;
    forall id | id in view && id.table == env.table.name
      ensures RowMatches(view[id], plan.predicates, params) == Some(Qualifies(env, q, view[id], params))
    {
      StatementTouchesTrueRows(q, declared, tables, database, view[id], params);
    }
  }

  /** An accepted SELECT answers with the rows in which its condition is true, in the order its ORDER
      BY asks for or by primary key, up to its limit, and shows in every cell the value of its field. */
  lemma SelectMeans(q: Query, declared: seq<Parameter>, tables: seq<Table>, database: string, params: seq<Value>,
                    view: View, ids: seq<Id>)
    requires WellFormed(tables) && q.SelectQuery? && Compile(q, declared, tables, database).Some?
    requires StoreSpec.ParamsFit(Compile(q, declared, tables, database).value, params)
    requires KeyedRows(TableOf(q, tables, database).value, view) && (forall id :: id in ids ==> id in view)
    requires Selects(TableOf(q, tables, database).value, view, Compile(q, declared, tables, database).value, params, ids)
    ensures var env, plan := EnvOf(q, declared, tables, database), Compile(q, declared, tables, database).value;
            && (forall i :: 0 <= i < |q.order| ==> ColumnOf(env, q.order[i].expr).Some?)
            && InOrder(OrdersOf(env, q), view, Touched(env, q, view, params), LimitOf(q), ids)
            && ShowsCells(env, q, view, params, ids, DataOf(view, plan.projection, ids)) && ShowsColumns(env, q, plan.columns)
            && (q.limit.Some? ==> LimitOf(q).Some? && LimitOf(q).value <= 1000)
  {
    var env, plan := EnvOf(q, declared, tables, database), Compile(q, declared, tables, database).value;
    PlanOfSelect(q, declared, tables, database);
    OrdersAreWritten(env, q, plan);
    CellsAreShown(env, q, plan, view, params, ids);
    LimitMeans(q.limit);
    TouchedAreMatching(q, declared, tables, database, params, view);
    SelectsInOrder(env.table, view, plan, params, ids);
    hide Compile, TableOf, CompileFields, CompileOrder, CompileLimit, InOrder, ShowsCells, ShowsColumns, Touched, Matching, OrdersOf, Orders,
         StoreSpec.ParamsFit, Selects, KeyedRows, WellFormed;
  }

  /** For one BIGINT column that is: the numbers never fall, NULLs first; descending, they never
      rise, NULLs last. */
  lemma NumbersInOrder(t: Table, o: Order, f: Field, view: View, matching: set<Id>, limit: Option<nat>, ids: seq<Id>, i: nat, j: nat)
    requires InOrder([o], view, matching, limit, ids) && i < j < |ids|
    requires f in t.columns && f.column.name == o.column && f.column.typ == BIGINT
    requires forall id :: id in matching ==> RowFits(t, view[id])
    ensures ids[i] in view && ids[j] in view
    ensures var x, y := Cell(view[ids[i]], o.column), Cell(view[ids[j]], o.column);
            var small, large := if o.descending then y else x, if o.descending then x else y;
            small.IsNull() || (!large.IsNull() && small.AsInt64().Some? && large.AsInt64().Some?
                               && small.AsInt64().value <= large.AsInt64().value)
  {
    assert ids[i] in matching && ids[j] in matching;
    FittingCell(t, view[ids[i]], f);
    FittingCell(t, view[ids[j]], f);
    var a, b := view[ids[i]], view[ids[j]];
    assert AlikeBefore([o], b, a, 0);
    assert !SmallerIn([o][0], b, a);
    hide ParseInt64, Decimal, RowFits;
  }

  lemma CellFitsColumn(t: Table, env: Env, field: SelectField, name: string, shown: Column, row: Row)
    requires WellFormedTable(t) && env.table == t && RowFits(t, row) && ShowsField(env, field, name, shown)
    ensures Fits(shown, Value(shown.typ, Cell(row, name).data))
  {
    FittingCell(t, row, ColumnOf(env, field.expr).value);
    hide ParseInt64, Decimal, RowFits, WellFormedTable;
  }

  /** Every cell of such an answer fits its column, so the answer is refused exactly when it has more than
      1000 rows or more than 1 MiB of JSON text. */
  lemma SelectSucceedsIff(q: Query, declared: seq<Parameter>, tables: seq<Table>, database: string, params: seq<Value>,
                          view: View, ids: seq<Id>, textSize: TextSize)
    requires WellFormed(tables) && q.SelectQuery? && Compile(q, declared, tables, database).Some?
    requires StoreSpec.ParamsFit(Compile(q, declared, tables, database).value, params)
    requires KeyedRows(TableOf(q, tables, database).value, view) && (forall id :: id in ids ==> id in view)
    requires Selects(TableOf(q, tables, database).value, view, Compile(q, declared, tables, database).value, params, ids)
    ensures var plan := Compile(q, declared, tables, database).value; var rows := DataOf(view, plan.projection, ids);
            RowsValid(plan.columns, rows, textSize) <==> |ids| <= 1000 && textSize(plan.columns, rows) <= 1_048_576
  {
    var env, plan := EnvOf(q, declared, tables, database), Compile(q, declared, tables, database).value;
    PlanOfSelect(q, declared, tables, database);
    SelectedFit(env.table, view, plan, params, ids);
    hide Compile, TableOf, CompileFields, CompileOrder, CompileLimit, Selects, WellFormed, RowFits, StoreSpec.ParamsFit, WellFormedTable;
    RowsFitColumns(env, q, plan, view, ids);
    hide *;
    SizesDecide(plan.columns, DataOf(view, plan.projection, ids), textSize);
  }

  lemma SelectedFit(t: Table, view: View, plan: Plan, params: seq<Value>, ids: seq<Id>)
    requires t.name == plan.table && KeyedRows(t, view) && Selects(t, view, plan, params, ids) && forall id :: id in ids ==> id in view
    ensures forall id :: id in ids ==> RowFits(t, view[id])
  {
    var matching := Matching(view, plan, params);
    var all :| Ordering(Orders(t, plan), view, matching, all) && ids == all[..Cut(plan.limit, |all|)];
    hide RowMatches, RowFits, SortedBy;
    assert forall id :: id in ids ==> id in matching;
  }

  ghost predicate AllFit(columns: seq<Column>, rows: seq<seq<Data>>) {
    forall i :: 0 <= i < |rows| ==>
      |rows[i]| == |columns| && forall j :: 0 <= j < |columns| ==> Fits(columns[j], Value(columns[j].typ, rows[i][j]))
  }

  lemma SizesDecide(columns: seq<Column>, rows: seq<seq<Data>>, textSize: TextSize)
    requires AllFit(columns, rows)
    ensures RowsValid(columns, rows, textSize) <==> |rows| <= 1000 && textSize(columns, rows) <= 1_048_576
  {
    hide Fits;
  }

  lemma RowsFitColumns(env: Env, q: Query, plan: Plan, view: View, ids: seq<Id>)
    requires q.SelectQuery? && WellFormedTable(env.table) && CompileFields(env, q.fields) == Some((plan.projection, plan.columns))
    requires forall id :: id in ids ==> id in view && RowFits(env.table, view[id])
    ensures AllFit(plan.columns, DataOf(view, plan.projection, ids))
  {
    FieldsMean(env, q.fields);
    hide CompileFields, Fits, RowFits, WellFormedTable, ShowsField, Cell;
    forall i, j | 0 <= i < |ids| && 0 <= j < |plan.columns|
      ensures Fits(plan.columns[j], Value(plan.columns[j].typ, DataOf(view, plan.projection, ids)[i][j]))
    {
      CellFitsColumn(env.table, env, q.fields[j], plan.projection[j], plan.columns[j], view[ids[i]]);
    }
  }
}
