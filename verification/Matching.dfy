/** Matching a query against the declared statements, and what a match preserves. */
module Matching {
  import opened Values
  import opened Schema
  import opened Plans
  import opened StoreSpec
  import opened Selection
  import opened CompilerSpec
  import opened CompilerMeaning

  datatype Statement = Statement(id: string, parameters: seq<Parameter>, plan: Option<Plan>)

  // ---- what it means for a query to match ----

  /** The declared operand takes its value, however written, from the query's one; while preparing,
      a parameter stands for itself. */
  predicate Unifies(want: Operand, got: Operand, args: seq<Value>, prepare: bool, values: seq<Value>) {
    match want.parameter
    case None => got.parameter.None? && want.literal.Some? && got.literal.Some? && EqualValue(want.literal.value, got.literal.value)
    case Some(i) =>
      0 <= i < |values| &&
      match got.parameter
      case Some(j) => i == j && (prepare || (j < |args| && Alike(values[i], args[j])))
      case None => got.literal.Some? && Alike(values[i], got.literal.value)
  }

  /** Everything but operands agrees. */
  predicate SameShape(p: Plan, a: Plan) {
    && p.kind == a.kind && p.table == a.table && p.projection == a.projection && p.columns == a.columns
    && p.order == a.order && p.limit == a.limit
    && |p.predicates| == |a.predicates| && |p.assignments| == |a.assignments|
  }

  /** The operands of a plan, predicates first, each with the names beside it. */
  datatype Place = Place(column: string, addFrom: string, operand: Operand)

  function Places(p: Plan): (ps: seq<Place>)
    ensures |ps| == |p.predicates| + |p.assignments|
  {
    seq(|p.predicates| + |p.assignments|, i requires 0 <= i < |p.predicates| + |p.assignments| =>
      if i < |p.predicates| then Place(p.predicates[i].column, "", p.predicates[i].value)
      else
        var a := p.assignments[i - |p.predicates|];
        Place(a.column, a.addFrom, a.value))
  }

  predicate PlaceUnifies(want: Place, got: Place, args: seq<Value>, prepare: bool, values: seq<Value>) {
    && want.column == got.column && want.addFrom == got.addFrom
    && Unifies(want.operand, got.operand, args, prepare, values)
  }

  /** Some place of the plan takes the i-th parameter and gets a value for it. */
  predicate Assigned(wants: seq<Place>, gots: seq<Place>, prepare: bool, i: nat, n: nat)
    requires n <= |wants| && |wants| == |gots|
  {
    exists k :: 0 <= k < n && wants[k].operand.parameter == Some(i) && (!prepare || gots[k].operand.parameter.None?)
  }

  predicate AllowedValue(p: Parameter, v: Value) {
    exists j :: 0 <= j < |p.allowed| && EqualValue(p.allowed[j], v)
  }

  /** The values make the query an instance of the declared plan, and are ones it may be run with. */
  ghost predicate Instance(s: Statement, p: Plan, a: Plan, markers: bool, args: seq<Value>, prepare: bool, values: seq<Value>) {
    && SameShape(p, a) && |values| == |s.parameters| == |p.parameters|
    && (forall k :: 0 <= k < |Places(p)| ==> PlaceUnifies(Places(p)[k], Places(a)[k], args, prepare, values))
    && (!prepare ==>
          && (markers ==> |args| == |values|)
          && (forall i :: 0 <= i < |values| ==>
                && Assigned(Places(p), Places(a), prepare, i, |Places(p)|)
                && Fits(p.parameters[i], values[i]) && AllowedValue(s.parameters[i], values[i])))
  }

  // ---- what a match preserves ----

  predicate AlikeOptions(v: Option<Value>, w: Option<Value>) {
    v.Some? == w.Some? && (v.Some? ==> Alike(v.value, w.value))
  }

  lemma UnifiedValue(want: Operand, got: Operand, args: seq<Value>, values: seq<Value>)
    requires Unifies(want, got, args, false, values)
    ensures OperandValue(want, values).Some? && AlikeOptions(OperandValue(want, values), OperandValue(got, args))
  {
  }

  /** Pairwise equal columns and alike operand values. */
  ghost predicate SamePredicates(ps: seq<Predicate>, values: seq<Value>, qs: seq<Predicate>, args: seq<Value>) {
    |ps| == |qs| && forall k :: 0 <= k < |ps| ==>
      ps[k].column == qs[k].column && AlikeOptions(OperandValue(ps[k].value, values), OperandValue(qs[k].value, args))
  }

  ghost predicate SameAssignments(ps: seq<Assignment>, values: seq<Value>, qs: seq<Assignment>, args: seq<Value>) {
    |ps| == |qs| && forall k :: 0 <= k < |ps| ==>
      && ps[k].column == qs[k].column && ps[k].addFrom == qs[k].addFrom
      && AlikeOptions(OperandValue(ps[k].value, values), OperandValue(qs[k].value, args))
  }

  /** A match gives every predicate and every assignment of the declared plan, under the returned
      values, the same column and value, up to its writing, as the query's own plan under its own
      arguments. */
  lemma InstanceGivesSameValues(s: Statement, p: Plan, a: Plan, markers: bool, args: seq<Value>, values: seq<Value>)
    requires Instance(s, p, a, markers, args, false, values)
    ensures SamePredicates(p.predicates, values, a.predicates, args)
    ensures SameAssignments(p.assignments, values, a.assignments, args)
  {
    forall k | 0 <= k < |p.predicates|
      ensures p.predicates[k].column == a.predicates[k].column
      ensures AlikeOptions(OperandValue(p.predicates[k].value, values), OperandValue(a.predicates[k].value, args))
    {
      assert PlaceUnifies(Places(p)[k], Places(a)[k], args, false, values);
      UnifiedValue(p.predicates[k].value, a.predicates[k].value, args, values);
    }
    forall k | 0 <= k < |p.assignments|
      ensures p.assignments[k].column == a.assignments[k].column && p.assignments[k].addFrom == a.assignments[k].addFrom
      ensures AlikeOptions(OperandValue(p.assignments[k].value, values), OperandValue(a.assignments[k].value, args))
    {
      var i := |p.predicates| + k;
      assert PlaceUnifies(Places(p)[i], Places(a)[i], args, false, values);
      UnifiedValue(p.assignments[k].value, a.assignments[k].value, args, values);
    }
  }

  lemma {:induction false} SameMatches(row: Row, ps: seq<Predicate>, values: seq<Value>, qs: seq<Predicate>, args: seq<Value>)
    requires SamePredicates(ps, values, qs, args)
    ensures RowMatches(row, ps, values) == RowMatches(row, qs, args)
  {
    if ps != [] {
      assert ps[0].column == qs[0].column && AlikeOptions(OperandValue(ps[0].value, values), OperandValue(qs[0].value, args));
      SameMatches(row, ps[1..], values, qs[1..], args);
    }
  }

  /** Rows with the same columns and alike values. */
  ghost predicate AlikeRows(a: Row, b: Row) {
    a.Keys == b.Keys && forall c :: c in a ==> Alike(a[c], b[c])
  }

  lemma AlikeClones(a: Row, b: Row)
    requires AlikeRows(a, b)
    ensures Clone(a) == Clone(b)
  {
    forall c | c in a ensures CloneValue(a[c]) == CloneValue(b[c]) {
    }
  }

  lemma AlikeCells(a: Row, b: Row, column: string)
    requires AlikeRows(a, b)
    ensures Alike(Cell(a, column), Cell(b, column))
  {
  }

  lemma AlikeUpdate(a: Row, b: Row, column: string, v: Value, w: Value)
    requires AlikeRows(a, b) && Alike(v, w)
    ensures AlikeRows(a[column := v], b[column := w])
  {
  }

  lemma SameAssigned(row: Row, row': Row, a: Assignment, values: seq<Value>, b: Assignment, args: seq<Value>)
    requires AlikeRows(row, row') && a.column == b.column && a.addFrom == b.addFrom
    requires AlikeOptions(OperandValue(a.value, values), OperandValue(b.value, args))
    ensures AlikeOptions(AssignedValue(row, a, values), AssignedValue(row', b, args))
  {
    AlikeCells(row, row', a.addFrom);
    hide ParseInt64, OperandValue, Cell;
  }

  predicate AlikeAssigned(x: Option<Assigned>, y: Option<Assigned>) {
    match (x, y)
    case (None, None) => true
    case (Some(a), Some(b)) => a.different == b.different && Clone(a.row) == Clone(b.row)
    case _ => false
  }

  lemma {:induction false} SameAssign(row: Row, row': Row, different: bool, ps: seq<Assignment>, values: seq<Value>,
                                      qs: seq<Assignment>, args: seq<Value>)
    requires AlikeRows(row, row') && SameAssignments(ps, values, qs, args)
    ensures AlikeAssigned(Assign(row, different, ps, values), Assign(row', different, qs, args))
    decreases |ps|
  {
    hide AssignedValue, Alike, EqualValue, Clone, OperandValue;
    if ps == [] {
      AlikeClones(row, row');
    } else {
      assert ps[0].column == qs[0].column && ps[0].addFrom == qs[0].addFrom
          && AlikeOptions(OperandValue(ps[0].value, values), OperandValue(qs[0].value, args));
      SameAssigned(row, row', ps[0], values, qs[0], args);
      var v, w := AssignedValue(row, ps[0], values), AssignedValue(row', qs[0], args);
      if v.Some? {
        AlikeUpdate(row, row', ps[0].column, v.value, w.value);
        AlikeCells(row, row', ps[0].column);
        SameEquality(Cell(row, ps[0].column), Cell(row', ps[0].column), v.value, w.value);
        SameAssign(row[ps[0].column := v.value], row'[ps[0].column := w.value],
                   different || !EqualValue(Cell(row, ps[0].column), v.value), ps[1..], values, qs[1..], args);
      }
    }
  }

  lemma SameEquality(a: Value, b: Value, v: Value, w: Value)
    requires Alike(a, b) && Alike(v, w)
    ensures EqualValue(a, v) == EqualValue(b, w)
  {
  }

  lemma {:induction false} SameGiven(row: Row, row': Row, ps: seq<Assignment>, values: seq<Value>, qs: seq<Assignment>, args: seq<Value>)
    requires AlikeRows(row, row') && SameAssignments(ps, values, qs, args)
    ensures var x, y := GivenCells(row, ps, values), GivenCells(row', qs, args);
            x.Some? == y.Some? && (x.Some? ==> AlikeRows(x.value, y.value))
    decreases |ps|
  {
    hide Alike, OperandValue;
    if ps != [] {
      assert ps[0].column == qs[0].column && AlikeOptions(OperandValue(ps[0].value, values), OperandValue(qs[0].value, args));
      if OperandValue(ps[0].value, values).Some? {
        var v, w := OperandValue(ps[0].value, values).value, OperandValue(qs[0].value, args).value;
        AlikeUpdate(row, row', ps[0].column, v, w);
        SameGiven(row[ps[0].column := v], row'[ps[0].column := w], ps[1..], values, qs[1..], args);
      }
    }
  }

  ghost predicate AlikeFilled(x: Filled, y: Filled) {
    match (x, y)
    case (Unfilled(n), Unfilled(m)) => n == m
    case (Filled(a, n, i), Filled(b, m, j)) =>
      n == m && i == j && Clone(a) == Clone(b) && AlikeRows(a, b)
    case _ => false
  }

  lemma {:induction false} SameFilled(columns: seq<Field>, row: Row, row': Row, next: int, insertId: int)
    requires AlikeRows(row, row')
    ensures AlikeFilled(FillAuto(columns, row, next, insertId), FillAuto(columns, row', next, insertId))
    decreases |columns|
  {
    hide Alike, ParseInt64, Clone, Int;
    if columns == [] {
      AlikeClones(row, row');
    } else {
      var f := columns[0];
      var name := f.column.name;
      if !f.autoIncrement {
        SameFilled(columns[1..], row, row', next, insertId);
      } else {
        AlikeParts(row, row', name);
        if name !in row || row[name].IsNull() {
          AlikeItself(Int(next));
          AlikeUpdate(row, row', name, Int(next), Int(next));
          SameFilled(columns[1..], row[name := Int(next)], row'[name := Int(next)], next + 1, next);
        } else if row[name].AsInt64().Some? {
          var n := row[name].AsInt64().value;
          SameFilled(columns[1..], row, row', if n >= next then n + 1 else next, insertId);
        }
      }
    }
  }

  lemma AlikeParts(row: Row, row': Row, name: string)
    requires AlikeRows(row, row')
    ensures name in row <==> name in row'
    ensures name in row ==> row[name].IsNull() == row'[name].IsNull() && row[name].AsInt64() == row'[name].AsInt64()
  {
  }

  lemma AlikeItself(v: Value)
    ensures Alike(v, v)
  {
  }

  /** The two plans act alike on one row. */
  lemma SameEffect(p: Plan, values: seq<Value>, a: Plan, args: seq<Value>, row: Row)
    requires SamePredicates(p.predicates, values, a.predicates, args) && SameAssignments(p.assignments, values, a.assignments, args)
    ensures RowMatches(row, p.predicates, values) == RowMatches(row, a.predicates, args)
    ensures UpdateEffect(p, values, row) == UpdateEffect(a, args, row)
  {
    SameMatches(row, p.predicates, values, a.predicates, args);
    AlikeToItself(row);
    SameAssign(row, row, false, p.assignments, values, a.assignments, args);
    hide RowMatches, Assign, Clone, SamePredicates, SameAssignments;
  }

  lemma AlikeToItself(row: Row)
    ensures AlikeRows(row, row)
  {
  }

  /** And insert the same row. */
  lemma SameInsert(p: Plan, values: seq<Value>, a: Plan, args: seq<Value>, t: Table, view: View, next: int)
    requires SameAssignments(p.assignments, values, a.assignments, args)
    ensures InsertOutcome(t, p, values, view, next) == InsertOutcome(t, a, args, view, next)
  {
    var row := DefaultRow(t.columns);
    AlikeToItself(row);
    SameGiven(row, row, p.assignments, values, a.assignments, args);
    hide DefaultRow, GivenCells, FillAuto, Clone;
    var x, y := GivenCells(row, p.assignments, values), GivenCells(row, a.assignments, args);
    if x.Some? {
      SameFilled(t.columns, x.value, y.value, next, 0);
      SameKey(FillAuto(t.columns, x.value, next, 0), FillAuto(t.columns, y.value, next, 0), PrimaryKey(t));
    }
  }

  lemma SameKey(x: Filled, y: Filled, column: string)
    requires AlikeFilled(x, y)
    ensures x.Filled? == y.Filled? && (x.Filled? ==> Cell(x.row, column).AsString() == Cell(y.row, column).AsString())
  {
    hide Clone;
  }

  lemma SameSets(p: Plan, values: seq<Value>, a: Plan, args: seq<Value>, t: Table, view: View)
    requires forall row {:trigger UpdateEffect(p, values, row)} {:trigger RowMatches(row, p.predicates, values)} ::
               RowMatches(row, p.predicates, values) == RowMatches(row, a.predicates, args)
               && UpdateEffect(p, values, row) == UpdateEffect(a, args, row)
    ensures MatchedIds(t, p, values, view) == MatchedIds(t, a, args, view)
    ensures UpdateChanges(t, p, values, view) == UpdateChanges(t, a, args, view)
    ensures UpdateFails(t, p, values, view) == UpdateFails(t, a, args, view)
    ensures MatchingFails(t, p, values, view) == MatchingFails(t, a, args, view)
  {
    hide UpdateEffect, RowMatches;
    assert forall id :: id in view ==> UpdateEffect(p, values, view[id]) == UpdateEffect(a, args, view[id]);
    assert forall id :: id in view ==> RowMatches(view[id], p.predicates, values) == RowMatches(view[id], a.predicates, args);
  }

  /** A matching statement writes the same rows as the query itself would, in every table and view. */
  lemma MatchWritesTheSame(s: Statement, p: Plan, a: Plan, markers: bool, args: seq<Value>, values: seq<Value>,
                           t: Table, view: View, next: int)
    requires Instance(s, p, a, markers, args, false, values)
    ensures StatementOutcome(t, p, values, view, next) == StatementOutcome(t, a, args, view, next)
  {
    InstanceGivesSameValues(s, p, a, markers, args, values);
    forall row
      ensures RowMatches(row, p.predicates, values) == RowMatches(row, a.predicates, args)
      ensures UpdateEffect(p, values, row) == UpdateEffect(a, args, row)
    {
      SameEffect(p, values, a, args, row);
    }
    SameSets(p, values, a, args, t, view);
    SameInsert(p, values, a, args, t, view, next);
    hide UpdateChanges, MatchedIds, UpdateFails, MatchingFails, InsertOutcome;
  }

  /** And it selects the same rows, in the same order, under the same column names. */
  lemma MatchSelectsTheSame(s: Statement, p: Plan, a: Plan, markers: bool, args: seq<Value>, values: seq<Value>,
                            t: Table, view: View, ids: seq<Id>)
    requires Instance(s, p, a, markers, args, false, values)
    ensures Selects(t, view, p, values, ids) <==> Selects(t, view, a, args, ids)
    ensures MatchError(view, p, values) <==> MatchError(view, a, args)
    ensures p.projection == a.projection && p.columns == a.columns
  {
    InstanceGivesSameValues(s, p, a, markers, args, values);
    forall row ensures RowMatches(row, p.predicates, values) == RowMatches(row, a.predicates, args) {
      SameEffect(p, values, a, args, row);
    }
    assert Selection.Matching(view, p, values) == Selection.Matching(view, a, args);
  }

  /** The returned values are ones the declared plan accepts. */
  lemma MatchedValuesFit(s: Statement, p: Plan, a: Plan, markers: bool, args: seq<Value>, values: seq<Value>)
    requires Instance(s, p, a, markers, args, false, values)
    ensures ParamsFit(p, values)
  {
  }

  ghost predicate AllAlike(v: seq<Value>, w: seq<Value>) {
    |v| == |w| && forall i :: 0 <= i < |v| ==> Alike(v[i], w[i])
  }

  /** There is at most one such list of values, up to their writing. */
  lemma InstanceIsUnique(s: Statement, p: Plan, a: Plan, markers: bool, args: seq<Value>, v: seq<Value>, w: seq<Value>)
    requires Instance(s, p, a, markers, args, false, v) && Instance(s, p, a, markers, args, false, w)
    ensures AllAlike(v, w)
  {
    forall i | 0 <= i < |v| ensures Alike(v[i], w[i]) {
      assert Assigned(Places(p), Places(a), false, i, |Places(p)|);
      var k :| 0 <= k < |Places(p)| && Places(p)[k].operand.parameter == Some(i);
      assert PlaceUnifies(Places(p)[k], Places(a)[k], args, false, v) && PlaceUnifies(Places(p)[k], Places(a)[k], args, false, w);
    }
  }

  // ---- matchStatement ----

  /** What is known while the operands are compared: the slots taken so far are those of the
      places seen, and hold the value that every instance must give them. */
  ghost predicate Agrees(s: Statement, p: Plan, a: Plan, markers: bool, args: seq<Value>, prepare: bool, n: nat,
                         values: seq<Value>, taken: seq<bool>)
    requires SameShape(p, a) && n <= |Places(p)|
  {
    && |values| == |taken| == |s.parameters|
    && (forall i :: 0 <= i < |taken| ==> (taken[i] <==> Assigned(Places(p), Places(a), prepare, i, n)))
    && (forall k :: 0 <= k < n ==> PlaceUnifies(Places(p)[k], Places(a)[k], args, prepare, values))
    && (forall vs, i :: Instance(s, p, a, markers, args, prepare, vs) && 0 <= i < |taken| && taken[i] ==> Alike(values[i], vs[i]))
  }

  /** No list of values makes the query an instance of the statement. */
  ghost predicate NoInstance(s: Statement, p: Plan, a: Plan, markers: bool, args: seq<Value>, prepare: bool) {
    forall vs :: !Instance(s, p, a, markers, args, prepare, vs)
  }

  /** The closure matchOperand, writing the values and flags in place. */
  method MatchOperand(want: Operand, got: Operand, args: seq<Value>, prepare: bool, values: array<Value>, taken: array<bool>)
    returns (ok: bool)
    requires OperandOk(want, values.Length) && values.Length == taken.Length
    modifies values, taken
    ensures ok ==> forall i :: 0 <= i < values.Length ==>
              taken[i] == (old(taken[i]) || (want.parameter == Some(i) && (!prepare || got.parameter.None?)))
    ensures ok ==> forall i :: 0 <= i < values.Length && old(taken[i]) ==> Alike(values[i], old(values[i]))
    ensures ok ==> Unifies(want, got, args, prepare, values[..])
    ensures !ok ==> forall vs: seq<Value> :: |vs| == values.Length && Unifies(want, got, args, prepare, vs) ==>
              exists i :: 0 <= i < values.Length && old(taken[i]) && !EqualValue(old(values[i]), vs[i])
  {
    if want.parameter.None? {
      return got.parameter.None? && want.literal.Some? && got.literal.Some? && EqualValue(want.literal.value, got.literal.value);
    }
    var index := want.parameter.value;
    var value: Value;
    if got.parameter.Some? {
      if got.parameter.value != index {
        return false;
      }
      if prepare {
        return true;
      }
      if index >= |args| {
        return false;
      }
      value := args[index];
    } else if got.literal.Some? {
      value := got.literal.value;
    } else {
      return false;
    }
    if taken[index] && !EqualValue(values[index], value) {
      return false;
    }
    values[index] := value;
    taken[index] := true;
    ok := true;
  }

  /** What one comparison of operands did to the slots. */
  ghost predicate Took(want: Operand, got: Operand, prepare: bool, before: seq<Value>, flags: seq<bool>,
                       after: seq<Value>, flags': seq<bool>)
  {
    && |before| == |flags| == |after| == |flags'|
    && (forall i :: 0 <= i < |flags| ==> flags'[i] == (flags[i] || (want.parameter == Some(i) && (!prepare || got.parameter.None?))))
    && (forall i :: 0 <= i < |flags| && flags[i] ==> Alike(after[i], before[i]))
  }

  lemma StillUnifies(want: Place, got: Place, args: seq<Value>, prepare: bool, before: seq<Value>, after: seq<Value>)
    requires PlaceUnifies(want, got, args, prepare, before) && |after| == |before|
    requires forall i :: 0 <= i < |before| && want.operand.parameter == Some(i) && (!prepare || got.operand.parameter.None?) ==>
               Alike(after[i], before[i])
    ensures PlaceUnifies(want, got, args, prepare, after)
  {
  }

  /** The slot gets its value from the place. */
  predicate Sets(want: Place, got: Place, prepare: bool, i: nat) {
    want.operand.parameter == Some(i) && (!prepare || got.operand.parameter.None?)
  }

  lemma AssignedOneMore(wants: seq<Place>, gots: seq<Place>, prepare: bool, i: nat, n: nat)
    requires n < |wants| == |gots|
    ensures Assigned(wants, gots, prepare, i, n + 1) <==> Assigned(wants, gots, prepare, i, n) || Sets(wants[n], gots[n], prepare, i)
    ensures forall k :: 0 <= k < n && Sets(wants[k], gots[k], prepare, i) ==> Assigned(wants, gots, prepare, i, n)
  {
    if Assigned(wants, gots, prepare, i, n) {
      var k :| 0 <= k < n && wants[k].operand.parameter == Some(i) && (!prepare || gots[k].operand.parameter.None?);
    }
  }

  lemma EarlierPlacesAgree(s: Statement, p: Plan, a: Plan, markers: bool, args: seq<Value>, prepare: bool, n: nat,
                           before: seq<Value>, flags: seq<bool>, after: seq<Value>, flags': seq<bool>, k: nat)
    requires SameShape(p, a) && k < n < |Places(p)| && Agrees(s, p, a, markers, args, prepare, n, before, flags)
    requires Took(Places(p)[n].operand, Places(a)[n].operand, prepare, before, flags, after, flags')
    ensures PlaceUnifies(Places(p)[k], Places(a)[k], args, prepare, after)
  {
    var wants, gots := Places(p), Places(a);
    forall i | 0 <= i < |before| && Sets(wants[k], gots[k], prepare, i) ensures Alike(after[i], before[i]) {
      AssignedOneMore(wants, gots, prepare, i, n);
    }
    StillUnifies(wants[k], gots[k], args, prepare, before, after);
  }

  lemma AgreesOneMore(s: Statement, p: Plan, a: Plan, markers: bool, args: seq<Value>, prepare: bool, n: nat,
                      before: seq<Value>, flags: seq<bool>, after: seq<Value>, flags': seq<bool>)
    requires SameShape(p, a) && n < |Places(p)| && Agrees(s, p, a, markers, args, prepare, n, before, flags)
    requires Took(Places(p)[n].operand, Places(a)[n].operand, prepare, before, flags, after, flags')
    requires PlaceUnifies(Places(p)[n], Places(a)[n], args, prepare, after)
    ensures Agrees(s, p, a, markers, args, prepare, n + 1, after, flags')
  {
    hide Assigned, PlaceUnifies;
    assert |Places(p)| == |Places(a)|;
    var wants, gots := Places(p), Places(a);
    forall k | 0 <= k < n ensures PlaceUnifies(wants[k], gots[k], args, prepare, after) {
      EarlierPlacesAgree(s, p, a, markers, args, prepare, n, before, flags, after, flags', k);
    }
    forall i | 0 <= i < |flags'| ensures flags'[i] <==> Assigned(wants, gots, prepare, i, n + 1) {
      AssignedOneMore(wants, gots, prepare, i, n);
    }
    forall vs, i | Instance(s, p, a, markers, args, prepare, vs) && 0 <= i < |flags'| && flags'[i] ensures Alike(after[i], vs[i]) {
      if !flags[i] {
        InstanceAt(s, p, a, markers, args, prepare, vs, n);
        SameTaken(wants[n], gots[n], args, prepare, after, vs, i);
      }
    }
  }

  lemma InstanceAt(s: Statement, p: Plan, a: Plan, markers: bool, args: seq<Value>, prepare: bool, vs: seq<Value>, n: nat)
    requires Instance(s, p, a, markers, args, prepare, vs) && n < |Places(p)|
    ensures |Places(a)| == |Places(p)| && |vs| == |s.parameters| && PlaceUnifies(Places(p)[n], Places(a)[n], args, prepare, vs)
  {
  }

  /** A place leaves no choice for the slot it fills. */
  lemma SameTaken(want: Place, got: Place, args: seq<Value>, prepare: bool, v: seq<Value>, w: seq<Value>, i: nat)
    requires PlaceUnifies(want, got, args, prepare, v) && PlaceUnifies(want, got, args, prepare, w)
    requires Sets(want, got, prepare, i) && i < |v| && i < |w|
    ensures Alike(v[i], w[i])
  {
  }

  /** A slot that every instance must fill holds a value that is equal to itself. */
  lemma InstanceValueIsProper(s: Statement, p: Plan, a: Plan, markers: bool, args: seq<Value>, prepare: bool, n: nat,
                              vs: seq<Value>, i: nat)
    requires Instance(s, p, a, markers, args, prepare, vs) && i < |vs| && n <= |Places(p)|
    requires Assigned(Places(p), Places(a), prepare, i, n)
    requires forall k :: 0 <= k < |Places(a)| && Places(a)[k].operand.parameter.None? ==>
               Places(a)[k].operand.literal.Some? && !Places(a)[k].operand.literal.value.data.Garbled?
    ensures EqualValue(vs[i], vs[i])
  {
    if prepare {
      var k :| 0 <= k < n && Places(p)[k].operand.parameter == Some(i) && Places(a)[k].operand.parameter.None?;
      assert PlaceUnifies(Places(p)[k], Places(a)[k], args, prepare, vs);
    } else {
      assert Fits(p.parameters[i], vs[i]);
    }
  }

  predicate OperandsOk(p: Plan, n: nat) {
    forall k :: 0 <= k < |Places(p)| ==> OperandOk(Places(p)[k].operand, n)
  }

  lemma PlanOperandsOk(p: Plan, declared: seq<Parameter>, tables: seq<Table>)
    requires PlanOk(p, declared, tables)
    ensures OperandsOk(p, |declared|) && |p.parameters| == |declared|
  {
  }

  /** A place that cannot agree with the slots rules out every instance. */
  lemma NoInstanceAt(s: Statement, p: Plan, a: Plan, markers: bool, args: seq<Value>, prepare: bool, n: nat,
                     values: seq<Value>, flags: seq<bool>, m: nat)
    requires SameShape(p, a) && n < |Places(p)| && Agrees(s, p, a, markers, args, prepare, n, values, flags)
    requires OperandsOk(a, m)
    requires var want, got := Places(p)[n], Places(a)[n];
             || want.column != got.column || want.addFrom != got.addFrom
             || forall vs: seq<Value> :: |vs| == |values| && Unifies(want.operand, got.operand, args, prepare, vs) ==>
                  exists i :: 0 <= i < |values| && flags[i] && !EqualValue(values[i], vs[i])
    ensures NoInstance(s, p, a, markers, args, prepare)
  {
    forall vs ensures !Instance(s, p, a, markers, args, prepare, vs) {
      if Instance(s, p, a, markers, args, prepare, vs) {
        assert PlaceUnifies(Places(p)[n], Places(a)[n], args, prepare, vs);
        var i :| 0 <= i < |values| && flags[i] && !EqualValue(values[i], vs[i]);
        InstanceValueIsProper(s, p, a, markers, args, prepare, n, vs, i);
        assert false;
      }
    }
  }

  /** One round of either loop. */
  method MatchPlace(s: Statement, p: Plan, a: Plan, ghost markers: bool, args: seq<Value>, prepare: bool, n: nat,
                    values: array<Value>, taken: array<bool>)
    returns (ok: bool)
    requires SameShape(p, a) && n < |Places(p)| && OperandsOk(p, |s.parameters|) && (exists m :: OperandsOk(a, m))
    requires Agrees(s, p, a, markers, args, prepare, n, values[..], taken[..])
    modifies values, taken
    ensures ok ==> Agrees(s, p, a, markers, args, prepare, n + 1, values[..], taken[..])
    ensures !ok ==> NoInstance(s, p, a, markers, args, prepare)
  {
    var want, got := Places(p)[n], Places(a)[n];
    ghost var before, flags := values[..], taken[..];
    ghost var m :| OperandsOk(a, m);
    if want.column != got.column || want.addFrom != got.addFrom {
      NoInstanceAt(s, p, a, markers, args, prepare, n, before, flags, m);
      return false;
    }
    ok := MatchOperand(want.operand, got.operand, args, prepare, values, taken);
    if ok {
      AgreesOneMore(s, p, a, markers, args, prepare, n, before, flags, values[..], taken[..]);
    } else {
      NoInstanceAt(s, p, a, markers, args, prepare, n, before, flags, m);
    }
  }

  /** The checks on the collected values: every slot taken, well typed, and in its allowed domain. */
  method CheckValues(s: Statement, p: Plan, values: seq<Value>, taken: seq<bool>) returns (ok: bool)
    requires |values| == |taken| == |s.parameters| == |p.parameters|
    ensures ok <==> forall i :: 0 <= i < |values| ==>
              taken[i] && Fits(p.parameters[i], values[i]) && AllowedValue(s.parameters[i], values[i])
  {
    hide Fits, EqualValue;
    for i := 0 to |values|
      invariant forall j :: 0 <= j < i ==> taken[j] && Fits(p.parameters[j], values[j]) && AllowedValue(s.parameters[j], values[j])
    {
      if !taken[i] || !Fits(p.parameters[i], values[i]) {
        return false;
      }
      var allowed := false;
      for k := 0 to |s.parameters[i].allowed|
        invariant allowed <==> exists j :: 0 <= j < k && EqualValue(s.parameters[i].allowed[j], values[i])
      {
        allowed := allowed || EqualValue(s.parameters[i].allowed[k], values[i]);
      }
      if !allowed {
        return false;
      }
    }
    ok := true;
  }

  lemma AgreesToInstance(s: Statement, p: Plan, a: Plan, markers: bool, args: seq<Value>, prepare: bool,
                         values: seq<Value>, taken: seq<bool>)
    requires SameShape(p, a) && |p.parameters| == |s.parameters|
    requires Agrees(s, p, a, markers, args, prepare, |Places(p)|, values, taken)
    ensures (prepare || ((markers ==> |args| == |values|)
                         && forall i :: 0 <= i < |values| ==>
                              taken[i] && Fits(p.parameters[i], values[i]) && AllowedValue(s.parameters[i], values[i])))
       ==> Instance(s, p, a, markers, args, prepare, values)
    ensures !prepare && !((markers ==> |args| == |values|)
                          && forall i :: 0 <= i < |values| ==>
                               taken[i] && Fits(p.parameters[i], values[i]) && AllowedValue(s.parameters[i], values[i]))
       ==> NoInstance(s, p, a, markers, args, prepare)
  {
    forall vs | Instance(s, p, a, markers, args, prepare, vs) && !prepare
      ensures AllAlike(values, vs) && (forall i :: 0 <= i < |values| ==> taken[i])
    {
      forall i | 0 <= i < |values| ensures taken[i] && Alike(values[i], vs[i]) {
        assert Assigned(Places(p), Places(a), prepare, i, |Places(p)|);
      }
    }
  }

  /** One declared plan against the query's own plan. */
  method MatchPlan(s: Statement, p: Plan, a: Plan, markers: bool, args: seq<Value>, prepare: bool) returns (r: Option<seq<Value>>)
    requires OperandsOk(p, |s.parameters|) && |p.parameters| == |s.parameters| && (exists m :: OperandsOk(a, m))
    ensures r.Some? ==> Instance(s, p, a, markers, args, prepare, r.value)
    ensures r.None? ==> NoInstance(s, p, a, markers, args, prepare)
  {
    if !SameShape(p, a) {
      return None;
    }
    var values := new Value[|s.parameters|](_ => ABSENT);
    var taken := new bool[|s.parameters|](_ => false);
    for n := 0 to |p.predicates|
      invariant Agrees(s, p, a, markers, args, prepare, n, values[..], taken[..])
    {
      var ok := MatchPlace(s, p, a, markers, args, prepare, n, values, taken);
      if !ok {
        return None;
      }
    }
    for n := 0 to |p.assignments|
      invariant Agrees(s, p, a, markers, args, prepare, |p.predicates| + n, values[..], taken[..])
    {
      var ok := MatchPlace(s, p, a, markers, args, prepare, |p.predicates| + n, values, taken);
      if !ok {
        return None;
      }
    }
    AgreesToInstance(s, p, a, markers, args, prepare, values[..], taken[..]);
    if !prepare {
      if markers && |args| != values.Length {
        return None;
      }
      var ok := CheckValues(s, p, values[..], taken[..]);
      if !ok {
        return None;
      }
    }
    r := Some(values[..]);
  }

  // ---- all statements ----

  /** The query's own plan, compiled with the parameters of the statement it is compared to. */
  function OwnPlan(q: Query, s: Statement, tables: seq<Table>, database: string): Option<Plan> {
    CompilerSpec.Compile(q, if QueryMarkers(q) == {} then [] else s.parameters, tables, database)
  }

  /** The statement, under these values, has the query as an instance. */
  ghost predicate Fitting(q: Query, s: Statement, tables: seq<Table>, database: string, args: seq<Value>, prepare: bool, values: seq<Value>) {
    && OwnPlan(q, s, tables, database).Some? && s.plan.Some?
    && Instance(s, s.plan.value, OwnPlan(q, s, tables, database).value, QueryMarkers(q) != {}, args, prepare, values)
  }

  /** Start accepts only plans that are the compiled form of their statements. */
  ghost predicate Declared(statements: seq<Statement>, tables: seq<Table>) {
    forall i :: 0 <= i < |statements| && statements[i].plan.Some? ==>
      PlanOk(statements[i].plan.value, statements[i].parameters, tables)
  }

  method MatchOne(tables: seq<Table>, database: string, s: Statement, q: Query, args: seq<Value>, prepare: bool)
    returns (r: Option<seq<Value>>)
    requires s.plan.Some? ==> PlanOk(s.plan.value, s.parameters, tables)
    ensures r.Some? ==> Fitting(q, s, tables, database, args, prepare, r.value)
    ensures r.None? ==> forall vs :: !Fitting(q, s, tables, database, args, prepare, vs)
  {
    hide Instance, PlanOk, OperandsOk;
    var own := OwnPlan(q, s, tables, database);
    if own.None? || s.plan.None? {
      return None;
    }
    ghost var declared := if QueryMarkers(q) == {} then [] else s.parameters;
    CompiledPlanIsOk(q, declared, tables, database);
    PlanOperandsOk(own.value, declared, tables);
    PlanOperandsOk(s.plan.value, s.parameters, tables);
    r := MatchPlan(s, s.plan.value, own.value, QueryMarkers(q) != {}, args, prepare);
  }

  /** The n-th statement is the first one of which the query is an instance. */
  ghost predicate FirstFitting(tables: seq<Table>, database: string, statements: seq<Statement>, q: Query, args: seq<Value>,
                               prepare: bool, n: nat, values: seq<Value>)
    requires n < |statements|
  {
    && Fitting(q, statements[n], tables, database, args, prepare, values)
    && forall k, vs :: 0 <= k < n ==> !Fitting(q, statements[k], tables, database, args, prepare, vs)
  }

  /** matchStatement: the first declared statement of which the query is an instance, with the
      values that make it one, or none if there is no such statement. */
  method MatchStatement(tables: seq<Table>, database: string, statements: seq<Statement>, q: Query, args: seq<Value>, prepare: bool)
    returns (r: Option<(Statement, seq<Value>)>)
    requires Declared(statements, tables)
    ensures r.Some? ==> exists n :: 0 <= n < |statements| && statements[n] == r.value.0
                                    && FirstFitting(tables, database, statements, q, args, prepare, n, r.value.1)
    ensures r.None? ==> forall k, vs :: 0 <= k < |statements| ==> !Fitting(q, statements[k], tables, database, args, prepare, vs)
  {
    hide Fitting, PlanOk;
    for n := 0 to |statements|
      invariant forall k, vs :: 0 <= k < n ==> !Fitting(q, statements[k], tables, database, args, prepare, vs)
    {
      var values := MatchOne(tables, database, statements[n], q, args, prepare);
      if values.Some? {
        assert FirstFitting(tables, database, statements, q, args, prepare, n, values.value);
        return Some((statements[n], values.value));
      }
    }
    r := None;
  }
}
