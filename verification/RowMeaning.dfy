/** What UPDATE and INSERT make of a row, column by column. */
module RowMeaning {
  import opened Values
  import opened Schema
  import opened Plans
  import opened StoreSpec

  /** No column is assigned twice, and an addition reads only the column it assigns. */
  predicate Independent(assignments: seq<Assignment>) {
    && (forall i, j :: 0 <= i < j < |assignments| ==> assignments[i].column != assignments[j].column)
    && (forall i :: 0 <= i < |assignments| ==> assignments[i].addFrom == "" || assignments[i].addFrom == assignments[i].column)
  }

  predicate Targets(assignments: seq<Assignment>, column: string) {
    exists i :: 0 <= i < |assignments| && assignments[i].column == column
  }

  // ---- UPDATE ----

  /** The row after the assignments, all evaluated in the row as it was. */
  ghost predicate SetAtOnce(row: Row, assignments: seq<Assignment>, params: seq<Value>, after: Row) {
    && after.Keys == row.Keys + (set i | 0 <= i < |assignments| :: assignments[i].column)
    && (forall c :: c in row && !Targets(assignments, c) ==> after[c] == row[c])
    && (forall i :: 0 <= i < |assignments| ==>
          assignments[i].column in after && AssignedValue(row, assignments[i], params) == Some(after[assignments[i].column]))
  }

  ghost predicate Differs(row: Row, a: Assignment, params: seq<Value>) {
    AssignedValue(row, a, params).Some? && !EqualValue(Cell(row, a.column), AssignedValue(row, a, params).value)
  }

  /** An assignment to another column does not change what an assignment computes. */
  lemma AssignedElsewhere(row: Row, a: Assignment, params: seq<Value>, column: string, v: Value)
    requires a.column != column && (a.addFrom == "" || a.addFrom == a.column)
    ensures AssignedValue(row[column := v], a, params) == AssignedValue(row, a, params)
  {
  }

  /** One assignment after the other has the same effect as all at once: the loop fails exactly
      when some value cannot be computed from the old row, and reports a difference exactly when
      some assigned column differs from it. */
  lemma {:induction false} AssignIsSimultaneous(row: Row, different: bool, assignments: seq<Assignment>, params: seq<Value>)
    requires Independent(assignments)
    ensures var r := Assign(row, different, assignments, params);
            && (r.None? <==> exists i :: 0 <= i < |assignments| && AssignedValue(row, assignments[i], params).None?)
            && (r.Some? ==> SetAtOnce(row, assignments, params, r.value.row))
            && (r.Some? ==> (r.value.different
                             <==> different || exists i :: 0 <= i < |assignments| && Differs(row, assignments[i], params)))
    decreases |assignments|
  {
    hide AssignedValue, EqualValue;
    if assignments != [] {
      var a, rest := assignments[0], assignments[1..];
      var v := AssignedValue(row, a, params);
      if v.Some? {
        var row', different' := row[a.column := v.value], different || !EqualValue(Cell(row, a.column), v.value);
        AssignIsSimultaneous(row', different', rest, params);
        RestElsewhere(row, assignments, params, v.value);
        if Assign(row', different', rest, params).Some? {
          OneThenRest(row, assignments, params, v.value, Assign(row', different', rest, params).value.row);
        }
      }
    }
  }

  lemma RestElsewhere(row: Row, assignments: seq<Assignment>, params: seq<Value>, v: Value)
    requires assignments != [] && Independent(assignments)
    ensures var row', rest := row[assignments[0].column := v], assignments[1..];
            forall i :: 0 <= i < |rest| ==>
              && AssignedValue(row', rest[i], params) == AssignedValue(row, assignments[i + 1], params)
              && (Differs(row', rest[i], params) <==> Differs(row, assignments[i + 1], params))
  {
    var rest := assignments[1..];
    forall i | 0 <= i < |rest|
      ensures AssignedValue(row[assignments[0].column := v], rest[i], params) == AssignedValue(row, assignments[i + 1], params)
    {
      AssignedElsewhere(row, rest[i], params, assignments[0].column, v);
    }
    hide AssignedValue, EqualValue;
  }

  lemma OneThenRest(row: Row, assignments: seq<Assignment>, params: seq<Value>, v: Value, after: Row)
    requires assignments != [] && Independent(assignments) && AssignedValue(row, assignments[0], params) == Some(v)
    requires SetAtOnce(row[assignments[0].column := v], assignments[1..], params, after)
    requires forall i :: 1 <= i < |assignments| ==>
               AssignedValue(row[assignments[0].column := v], assignments[1..][i - 1], params) == AssignedValue(row, assignments[i], params)
    ensures SetAtOnce(row, assignments, params, after)
  {
    hide AssignedValue, Targets;
    var row', rest := row[assignments[0].column := v], assignments[1..];
    TargetNames(assignments);
    forall c | c in row && !Targets(assignments, c) ensures after[c] == row[c] {
      TargetsOneMore(assignments, c);
    }
    forall i | 0 <= i < |assignments|
      ensures assignments[i].column in after && AssignedValue(row, assignments[i], params) == Some(after[assignments[i].column])
    {
      if i == 0 {
        FirstIsNoTarget(assignments);
        assert after[assignments[0].column] == row'[assignments[0].column];
      } else {
        assert rest[i - 1] == assignments[i];
      }
    }
  }

  lemma FirstIsNoTarget(assignments: seq<Assignment>)
    requires assignments != [] && Independent(assignments)
    ensures !Targets(assignments[1..], assignments[0].column)
  {
  }

  lemma TargetNames(assignments: seq<Assignment>)
    requires assignments != []
    ensures (set i | 0 <= i < |assignments| :: assignments[i].column)
         == (set i | 0 <= i < |assignments[1..]| :: assignments[1..][i].column) + {assignments[0].column}
  {
    assert forall i :: 1 <= i < |assignments| ==> assignments[i] == assignments[1..][i - 1];
  }

  lemma TargetsOneMore(assignments: seq<Assignment>, c: string)
    requires assignments != []
    ensures Targets(assignments, c) <==> c == assignments[0].column || Targets(assignments[1..], c)
  {
    if Targets(assignments, c) {
      var i :| 0 <= i < |assignments| && assignments[i].column == c;
      assert i > 0 ==> assignments[1..][i - 1].column == c;
    }
  }

  /** An UPDATE of one row, in terms of the row as it was: it fails, skips the row, leaves it as it
      is because no assigned column differs, or puts the row with all assignments made at once. */
  lemma UpdateSetsAtOnce(plan: Plan, params: seq<Value>, row: Row)
    requires Independent(plan.assignments)
    ensures var matches := RowMatches(row, plan.predicates, params);
            var fails := exists i :: 0 <= i < |plan.assignments| && AssignedValue(row, plan.assignments[i], params).None?;
            var differs := exists i :: 0 <= i < |plan.assignments| && Differs(row, plan.assignments[i], params);
            match UpdateEffect(plan, params, row)
            case Bad => matches == None || (matches == Some(true) && fails)
            case Skip => matches == Some(false)
            case Same => matches == Some(true) && !fails && !differs
            case Put(after) => matches == Some(true) && !fails && differs
                               && exists r :: SetAtOnce(row, plan.assignments, params, r) && after == Clone(r)
  {
    hide AssignedValue, EqualValue, RowMatches, Clone, SetAtOnce, Differs;
    AssignIsSimultaneous(row, false, plan.assignments, params);
  }

  // ---- INSERT ----

  lemma {:induction false} DefaultCell(columns: seq<Field>, k: nat)
    requires k < |columns|
    requires forall i, j :: 0 <= i < j < |columns| ==> columns[i].column.name != columns[j].column.name
    ensures var f := columns[k]; var name := f.column.name;
            if f.default.Some? then name in DefaultRow(columns) && DefaultRow(columns)[name] == f.default.value
            else if f.column.nullable then name in DefaultRow(columns) && DefaultRow(columns)[name] == NullOf(f.column.typ)
            else name !in DefaultRow(columns)
  {
    var n := |columns| - 1;
    if k < n {
      DefaultCell(columns[..n], k);
    } else {
      DefaultNames(columns[..n], columns[n].column.name);
    }
  }

  lemma {:induction false} DefaultNames(columns: seq<Field>, name: string)
    requires forall i :: 0 <= i < |columns| ==> columns[i].column.name != name
    ensures name !in DefaultRow(columns)
  {
    if columns != [] {
      DefaultNames(columns[..|columns| - 1], name);
    }
  }

  /** Cells are given in any order; each assigned column gets its operand, the others stay. */
  lemma {:induction false} GivenIsSimultaneous(row: Row, assignments: seq<Assignment>, params: seq<Value>)
    requires forall i, j :: 0 <= i < j < |assignments| ==> assignments[i].column != assignments[j].column
    ensures var r := GivenCells(row, assignments, params);
            && (r.None? <==> exists i :: 0 <= i < |assignments| && OperandValue(assignments[i].value, params).None?)
            && (r.Some? ==> Gives(row, assignments, params, r.value))
    decreases |assignments|
  {
    if assignments != [] {
      var a := assignments[0];
      var v := OperandValue(a.value, params);
      if v.Some? {
        var r := GivenCells(row[a.column := v.value], assignments[1..], params);
        GivenIsSimultaneous(row[a.column := v.value], assignments[1..], params);
        if r.Some? {
          GivesOneMore(row, assignments, params, v.value, r.value);
        }
      }
      assert forall i :: 1 <= i < |assignments| ==> assignments[i] == assignments[1..][i - 1];
    }
  }

  ghost predicate Gives(row: Row, assignments: seq<Assignment>, params: seq<Value>, given: Row) {
    && (forall c :: !Targets(assignments, c) ==> (c in given <==> c in row) && (c in row ==> given[c] == row[c]))
    && (forall i :: 0 <= i < |assignments| ==>
          assignments[i].column in given && OperandValue(assignments[i].value, params) == Some(given[assignments[i].column]))
  }

  lemma GivesOneMore(row: Row, assignments: seq<Assignment>, params: seq<Value>, v: Value, given: Row)
    requires assignments != [] && OperandValue(assignments[0].value, params) == Some(v)
    requires forall i, j :: 0 <= i < j < |assignments| ==> assignments[i].column != assignments[j].column
    requires Gives(row[assignments[0].column := v], assignments[1..], params, given)
    ensures Gives(row, assignments, params, given)
  {
    var rest := assignments[1..];
    forall c ensures Targets(assignments, c) <==> c == assignments[0].column || Targets(rest, c) {
      TargetsOneMore(assignments, c);
    }
    assert !Targets(rest, assignments[0].column);
    forall i | 0 <= i < |assignments|
      ensures assignments[i].column in given && OperandValue(assignments[i].value, params) == Some(given[assignments[i].column])
    {
      assert i > 0 ==> rest[i - 1] == assignments[i];
    }
  }

  lemma {:induction false} FillAutoKeepsOthers(columns: seq<Field>, row: Row, next: int, insertId: int, column: string)
    requires FillAuto(columns, row, next, insertId).Filled?
    requires forall f :: f in columns && f.autoIncrement ==> f.column.name != column
    ensures var r := FillAuto(columns, row, next, insertId).row;
            (column in r <==> column in row) && (column in row ==> r[column] == row[column])
  {
    hide Int;
    if columns != [] {
      var f := columns[0];
      if !f.autoIncrement {
        FillAutoKeepsOthers(columns[1..], row, next, insertId, column);
      } else if f.column.name !in row || row[f.column.name].IsNull() {
        FillAutoKeepsOthers(columns[1..], row[f.column.name := Int(next)], next + 1, next, column);
      } else {
        var n := row[f.column.name].AsInt64().value;
        FillAutoKeepsOthers(columns[1..], row, if n >= next then n + 1 else next, insertId, column);
      }
    }
  }

  /** The value an INSERT gives a column that is not generated: the statement's, else the declared
      default, else NULL where that is allowed, else none. */
  ghost predicate InsertGives(f: Field, assignments: seq<Assignment>, params: seq<Value>, row: Row) {
    var name := f.column.name;
    if Targets(assignments, name)
    then name in row && forall i :: 0 <= i < |assignments| && assignments[i].column == name ==>
           OperandValue(assignments[i].value, params).Some? && row[name] == CloneValue(OperandValue(assignments[i].value, params).value)
    else if f.default.Some? then name in row && row[name] == CloneValue(f.default.value)
    else if f.column.nullable then name in row && row[name] == NullOf(f.column.typ)
    else name !in row
  }

  /** The same before the row is copied. */
  ghost predicate CellGiven(f: Field, assignments: seq<Assignment>, params: seq<Value>, row: Row) {
    var name := f.column.name;
    if Targets(assignments, name)
    then name in row && forall i :: 0 <= i < |assignments| && assignments[i].column == name ==>
           OperandValue(assignments[i].value, params) == Some(row[name])
    else if f.default.Some? then name in row && row[name] == f.default.value
    else if f.column.nullable then name in row && row[name] == NullOf(f.column.typ)
    else name !in row
  }

  lemma GivenMeans(t: Table, assignments: seq<Assignment>, params: seq<Value>, f: Field)
    requires WellFormedTable(t) && f in t.columns && GivenCells(DefaultRow(t.columns), assignments, params).Some?
    requires forall i, j :: 0 <= i < j < |assignments| ==> assignments[i].column != assignments[j].column
    ensures CellGiven(f, assignments, params, GivenCells(DefaultRow(t.columns), assignments, params).value)
  {
    var k :| 0 <= k < |t.columns| && t.columns[k] == f;
    DefaultCell(t.columns, k);
    GivenIsSimultaneous(DefaultRow(t.columns), assignments, params);
    hide DefaultRow, GivenCells;
  }

  lemma CopiedCell(f: Field, assignments: seq<Assignment>, params: seq<Value>, given: Row, row: Row)
    requires CellGiven(f, assignments, params, given)
    requires (f.column.name in row <==> f.column.name in given)
    requires f.column.name in given ==> row[f.column.name] == given[f.column.name]
    ensures InsertGives(f, assignments, params, Clone(row))
  {
  }

  /** The row an INSERT writes, column by column. */
  lemma InsertedRowMeans(t: Table, plan: Plan, params: seq<Value>, view: View, next: int, f: Field)
    requires WellFormedTable(t) && f in t.columns && !f.autoIncrement
    requires forall i, j :: 0 <= i < j < |plan.assignments| ==> plan.assignments[i].column != plan.assignments[j].column
    requires InsertOutcome(t, plan, params, view, next).Write?
    ensures var changes := InsertOutcome(t, plan, params, view, next).changes;
            |changes| == 1 && forall id :: id in changes ==>
              changes[id].Some? && InsertGives(f, plan.assignments, params, changes[id].value)
  {
    var given := GivenCells(DefaultRow(t.columns), plan.assignments, params).value;
    assert forall g :: g in t.columns && g.autoIncrement ==> g.column.name != f.column.name;
    FillAutoKeepsOthers(t.columns, given, next, 0, f.column.name);
    GivenMeans(t, plan.assignments, params, f);
    CopiedCell(f, plan.assignments, params, given, FillAuto(t.columns, given, next, 0).row);
    hide DefaultRow, GivenCells, FillAuto, RowFits, InsertGives, CellGiven, Clone, WellFormedTable;
  }
}
