/** Compiled statements and their effect on one row. */
module Plans {
  import opened Values
  import opened Schema

  /** A parameter index, a literal, or neither; the parameter takes precedence. */
  datatype Operand = Operand(parameter: Option<int>, literal: Option<Value>)

  datatype Predicate = Predicate(column: string, value: Operand)

  /** `addFrom` is empty for a plain assignment and names a column in `column = addFrom + value`. */
  datatype Assignment = Assignment(column: string, addFrom: string, value: Operand)

  datatype Order = Order(column: string, descending: bool)

  datatype Kind = Select | Insert | Update | Delete | OtherKind

  datatype Plan = Plan(
    kind: Kind,
    table: string,
    projection: seq<string>,
    columns: seq<Column>,
    predicates: seq<Predicate>,
    assignments: seq<Assignment>,
    order: seq<Order>,
    limit: Option<nat>,
    parameters: seq<Column>)

  function OperandValue(op: Operand, params: seq<Value>): Option<Value> {
    match op.parameter
    case Some(i) => if 0 <= i < |params| then Some(params[i]) else None
    case None => op.literal
  }

  /** rowMatches: `None` is an operand error, found only while all earlier predicates hold. */
  function RowMatches(row: Row, predicates: seq<Predicate>, params: seq<Value>): Option<bool> {
    if predicates == [] then Some(true)
    else
      match OperandValue(predicates[0].value, params)
      case None => None
      case Some(v) =>
        var cell := Cell(row, predicates[0].column);
        if v.IsNull() || cell.IsNull() || !EqualValue(cell, v) then Some(false)
        else RowMatches(row, predicates[1..], params)
  }

  /** cloneRow keeps types and NULLs and re-encodes everything else as text. */
  function CloneValue(v: Value): Value {
    if v.IsNull() then v else Value(v.typ, Text(TextOf(v)))
  }

  function Clone(row: Row): (r: Row)
    ensures r.Keys == row.Keys
  {
    map c | c in row :: CloneValue(row[c])
  }

  /** Every JSON string of the row is written as the program writes it. */
  predicate Canonical(row: Row) {
    forall c :: c in row ==> !row[c].data.Spelled?
  }

  lemma CloneIsCanonical(row: Row)
    ensures Canonical(Clone(row))
  {
  }

  /** A row of well-typed cells, canonically written, is its own clone, so copying stored rows
      changes nothing. */
  lemma CloneOfFittingRow(t: Table, row: Row)
    requires WellFormedTable(t) && RowFits(t, row) && Canonical(row)
    ensures Clone(row) == row
  {
    FittingRowColumns(t, row);
    forall c | c in row ensures CloneValue(row[c]) == row[c] {
      var i :| 0 <= i < |t.columns| && t.columns[i].column.name == c;
      assert CellFits(t.columns[i], row);
    }
  }

  /** A fitting row has exactly the table's columns. */
  lemma FittingRowColumns(t: Table, row: Row)
    requires WellFormedTable(t) && RowFits(t, row)
    ensures forall c :: c in row ==> exists i :: 0 <= i < |t.columns| && t.columns[i].column.name == c
  {
    var names := set i | 0 <= i < |t.columns| :: t.columns[i].column.name;
    ColumnCount(t.columns, |t.columns|);
    assert names <= row.Keys by {
      forall i | 0 <= i < |t.columns| ensures t.columns[i].column.name in row {
        assert CellFits(t.columns[i], row);
      }
    }
    assert |row.Keys| == |names|;
    SubsetOfSameSize(names, row.Keys);
  }

  lemma {:induction false} ColumnCount(columns: seq<Field>, n: nat)
    requires n <= |columns|
    requires forall i, j :: 0 <= i < j < |columns| ==> columns[i].column.name != columns[j].column.name
    ensures |set i | 0 <= i < n :: columns[i].column.name| == n
  {
    if n > 0 {
      ColumnCount(columns, n - 1);
      var front := set i | 0 <= i < n - 1 :: columns[i].column.name;
      assert (set i | 0 <= i < n :: columns[i].column.name) == front + {columns[n - 1].column.name};
    }
  }

  lemma SubsetOfSameSize<T>(a: set<T>, b: set<T>)
    requires a <= b && |a| == |b|
    ensures a == b
  {
    assert b == a + (b - a);
  }

  // ---- UPDATE on one row ----

  datatype Effect = Bad | Skip | Same | Put(row: Row)

  /** base + delta with the source's overflow guard. */
  function AddInt64(base: int, delta: int): (r: Option<int>)
    requires IsInt64(base) && IsInt64(delta)
    ensures r == if IsInt64(base + delta) then Some(base + delta) else None
  {
    if (delta > 0 && base > MAX_INT64 - delta) || (delta < 0 && base < MIN_INT64 - delta) then None
    else Some(base + delta)
  }

  function AssignedValue(row: Row, a: Assignment, params: seq<Value>): Option<Value> {
    match OperandValue(a.value, params)
    case None => None
    case Some(v) =>
      if a.addFrom == "" then Some(v)
      else
        match Cell(row, a.addFrom).AsInt64()
        case None => None
        case Some(base) =>
          match v.AsInt64()
          case None => None
          case Some(delta) =>
            match AddInt64(base, delta)
            case None => None
            case Some(sum) => Some(Int(sum))
  }

  datatype Assigned = Assigned(row: Row, different: bool)

  /** The assignments act one after the other on the row as changed so far. */
  function Assign(row: Row, different: bool, assignments: seq<Assignment>, params: seq<Value>): Option<Assigned>
    decreases |assignments|
  {
    if assignments == [] then Some(Assigned(row, different))
    else
      var a := assignments[0];
      match AssignedValue(row, a, params)
      case None => None
      case Some(v) =>
        Assign(row[a.column := v], different || !EqualValue(Cell(row, a.column), v), assignments[1..], params)
  }

  function UpdateEffect(plan: Plan, params: seq<Value>, row: Row): Effect {
    match RowMatches(row, plan.predicates, params)
    case None => Bad
    case Some(false) => Skip
    case Some(true) =>
      match Assign(row, false, plan.assignments, params)
      case None => Bad
      case Some(a) => if a.different then Put(Clone(a.row)) else Same
  }

  /** What each effect says about the predicates and the assignments. */
  lemma EffectMeans(plan: Plan, params: seq<Value>, row: Row)
    ensures UpdateEffect(plan, params, row) != Bad ==>
              (RowMatches(row, plan.predicates, params) == Some(true)
               <==> UpdateEffect(plan, params, row) == Same || UpdateEffect(plan, params, row).Put?)
  {
  }

  // ---- INSERT: building the row ----

  function DefaultRow(columns: seq<Field>): Row {
    if columns == [] then map[]
    else
      var rest := DefaultRow(columns[..|columns| - 1]);
      var f := columns[|columns| - 1];
      match f.default
      case Some(v) => rest[f.column.name := v]
      case None => if f.column.nullable then rest[f.column.name := NullOf(f.column.typ)] else rest
  }

  /** The result of filling AUTO_INCREMENT columns: the allocator may move even on a refusal. */
  datatype Filled =
    | Filled(row: Row, next: int, insertId: int)
    | Unfilled(next: int)

  function FillAuto(columns: seq<Field>, row: Row, next: int, insertId: int): Filled {
    if columns == [] then Filled(row, next, insertId)
    else
      var f := columns[0];
      if !f.autoIncrement then FillAuto(columns[1..], row, next, insertId)
      else
        var name := f.column.name;
        if name !in row || row[name].IsNull() then
          if next <= 0 || next == MAX_INT64 then Unfilled(next)
          else FillAuto(columns[1..], row[name := Int(next)], next + 1, next)
        else
          match row[name].AsInt64()
          case None => Unfilled(next)
          case Some(n) =>
            if n <= 0 then Unfilled(next)
            else if n >= next then
              if n == MAX_INT64 then Unfilled(next) else FillAuto(columns[1..], row, n + 1, insertId)
            else FillAuto(columns[1..], row, next, insertId)
  }
}
