/** The change set a statement or a slot fill computes before anything is installed. */
module Statements {
  import opened Values
  import opened Schema
  import opened Plans
  import opened StoreSpec
  import opened StoreInvariant

  // ---- the change set of a write ----

  method InsertChanges(t: Table, plan: Plan, params: seq<Value>, view: View, next: int) returns (o: Outcome)
    ensures o == InsertOutcome(t, plan, params, view, next)
  {
    hide DefaultRow, GivenCells, FillAuto, Clone;
    var defaults := Defaults(t.columns);
    var given := Given(defaults, plan.assignments, params);
    if given.None? {
      return Refuse(Refused, next);
    }
    var filled := Generate(t.columns, given.value, next);
    if filled.Unfilled? {
      return Refuse(Refused, filled.next);
    }
    var key := Cell(filled.row, PrimaryKey(t)).AsString();
    if key.None? {
      return Refuse(Refused, filled.next);
    }
    if Id(t.name, key.value) in view {
      return Refuse(Constraint, filled.next);
    }
    return Write(map[Id(t.name, key.value) := Some(Clone(filled.row))], 1, 1, filled.insertId, filled.next);
  }

  /** Declared defaults, and NULL where a column allows it. */
  method Defaults(columns: seq<Field>) returns (row: Row)
    ensures row == DefaultRow(columns)
  {
    row := map[];
    for i := 0 to |columns|
      invariant row == DefaultRow(columns[..i])
    {
      var f := columns[i];
      assert columns[..i + 1][..i] == columns[..i];
      if f.default.Some? {
        row := row[f.column.name := f.default.value];
      } else if f.column.nullable {
        row := row[f.column.name := NullOf(f.column.typ)];
      }
    }
    assert columns[..|columns|] == columns;
  }

  method Given(defaults: Row, assignments: seq<Assignment>, params: seq<Value>) returns (given: Option<Row>)
    ensures given == GivenCells(defaults, assignments, params)
  {
    var row := defaults;
    for i := 0 to |assignments|
      invariant GivenCells(row, assignments[i..], params) == GivenCells(defaults, assignments, params)
    {
      var v := OperandValue(assignments[i].value, params);
      if v.None? {
        return None;
      }
      row := row[assignments[i].column := v.value];
    }
    given := Some(row);
  }

  /** The AUTO_INCREMENT columns: the allocator gives an id, or moves past an explicit one. */
  method Generate(columns: seq<Field>, given: Row, next: int) returns (filled: Filled)
    ensures filled == FillAuto(columns, given, next, 0)
  {
    hide ParseInt64, Int;
    var row, n, insertId := given, next, 0;
    for i := 0 to |columns|
      invariant FillAuto(columns[i..], row, n, insertId) == FillAuto(columns, given, next, 0)
    {
      var f := columns[i];
      if f.autoIncrement {
        var name := f.column.name;
        if name !in row || row[name].IsNull() {
          if n <= 0 || n == MAX_INT64 {
            return Unfilled(n);
          }
          row, insertId, n := row[name := Int(n)], n, n + 1;
        } else {
          var explicitId := row[name].AsInt64();
          if explicitId.None? || explicitId.value <= 0 {
            return Unfilled(n);
          }
          if explicitId.value >= n {
            if explicitId.value == MAX_INT64 {
              return Unfilled(n);
            }
            n := explicitId.value + 1;
          }
        }
      }
    }
    filled := Filled(row, n, insertId);
  }

  method UpdateRow(plan: Plan, params: seq<Value>, existing: Row) returns (e: Effect)
    ensures e == UpdateEffect(plan, params, existing)
  {
    hide RowMatches, AssignedValue, EqualValue, Clone;
    match RowMatches(existing, plan.predicates, params)
    case None => return Bad;
    case Some(matches) =>
      if !matches {
        return Skip;
      }
      var row, different := existing, false;
      var i := 0;
      while i < |plan.assignments|
        invariant 0 <= i <= |plan.assignments|
        invariant Assign(row, different, plan.assignments[i..], params) == Assign(existing, false, plan.assignments, params)
      {
        var a := plan.assignments[i];
        var v := AssignedValue(row, a, params);
        if v.None? {
          return Bad;
        }
        row, different := row[a.column := v.value], different || !EqualValue(Cell(row, a.column), v.value);
        i := i + 1;
      }
      return if different then Put(Clone(row)) else Same;
  }

  // An UPDATE seen through the effect it has on each row of the table.

  type Effects = map<Id, Effect>

  ghost function EffectsOf(t: Table, plan: Plan, params: seq<Value>, view: View): Effects {
    map id | id in view && id.table == t.name :: UpdateEffect(plan, params, view[id])
  }

  ghost function Puts(effects: Effects): Changes {
    map id | id in effects && effects[id].Put? :: Some(effects[id].row)
  }

  ghost function Hits(effects: Effects): set<Id> {
    set id | id in effects && (effects[id] == Same || effects[id].Put?)
  }

  lemma UpdateTotals(t: Table, plan: Plan, params: seq<Value>, view: View)
    ensures var effects := EffectsOf(t, plan, params, view);
            && (UpdateFails(t, plan, params, view) <==> exists id :: id in effects && effects[id] == Bad)
            && UpdateChanges(t, plan, params, view) == Puts(effects)
            && (!UpdateFails(t, plan, params, view) ==> MatchedIds(t, plan, params, view) == Hits(effects))
  {
    var effects := EffectsOf(t, plan, params, view);
    if UpdateFails(t, plan, params, view) {
      var id :| id in view && id.table == t.name && UpdateEffect(plan, params, view[id]) == Bad;
      assert effects[id] == Bad;
    } else {
      forall id | id in effects ensures id in MatchedIds(t, plan, params, view) <==> id in Hits(effects) {
        EffectMeans(plan, params, view[id]);
      }
    }
  }

  lemma HitsStep(effects: Effects, rest: set<Id>, id: Id)
    requires id in rest && rest <= effects.Keys
    ensures |Hits(effects - (rest - {id}))|
         == |Hits(effects - rest)| + if effects[id] == Same || effects[id].Put? then 1 else 0
    ensures Puts(effects - (rest - {id}))
         == if effects[id].Put? then Puts(effects - rest)[id := Some(effects[id].row)] else Puts(effects - rest)
  {
    var hit := effects[id] == Same || effects[id].Put?;
    assert Hits(effects - (rest - {id})) == Hits(effects - rest) + if hit then {id} else {};
  }

  method CollectUpdates(t: Table, plan: Plan, params: seq<Value>, view: View)
    returns (failed: bool, changes: Changes, matched: nat)
    ensures failed <==> UpdateFails(t, plan, params, view)
    ensures !failed ==> changes == UpdateChanges(t, plan, params, view)
    ensures !failed ==> matched == |MatchedIds(t, plan, params, view)|
  {
    UpdateTotals(t, plan, params, view);
    ghost var effects := EffectsOf(t, plan, params, view);
    changes, matched := map[], 0;
    var rest := set id | id in view && id.table == t.name;
    while rest != {}
      invariant rest <= effects.Keys
      invariant changes == Puts(effects - rest)
      invariant matched == |Hits(effects - rest)|
      invariant forall id :: id in effects && id !in rest ==> effects[id] != Bad
    {
      var id :| id in rest;
      var e := UpdateRow(plan, params, view[id]);
      assert effects[id] == e;
      if e == Bad {
        return true, map[], 0;
      }
      HitsStep(effects, rest, id);
      rest := rest - {id};
      if e != Skip {
        matched := matched + 1;
      }
      if e.Put? {
        changes := changes[id := Some(e.row)];
      }
    }
    assert effects - rest == effects;
    failed := false;
  }

  method CollectDeletes(t: Table, plan: Plan, params: seq<Value>, view: View)
    returns (failed: bool, changes: Changes)
    ensures failed <==> MatchingFails(t, plan, params, view)
    ensures !failed ==> changes == map id | id in MatchedIds(t, plan, params, view) :: None
  {
    changes := map[];
    var all := set id | id in view && id.table == t.name;
    var rest := all;
    while rest != {}
      invariant rest <= all
      invariant changes == map id | id in MatchedIds(t, plan, params, view) && id !in rest :: None
      invariant forall id :: id in all - rest ==> RowMatches(view[id], plan.predicates, params) != None
    {
      var id :| id in rest;
      rest := rest - {id};
      match RowMatches(view[id], plan.predicates, params) {
        case None => return true, map[];
        case Some(matches) =>
          if matches {
            changes := changes[id := None];
          }
      }
    }
    failed := false;
  }

  method PlanChanges(t: Table, plan: Plan, params: seq<Value>, view: View, next: int) returns (o: Outcome)
    ensures o == StatementOutcome(t, plan, params, view, next)
  {
    match plan.kind
    case Insert =>
      o := InsertChanges(t, plan, params, view, next);
    case Update =>
      var failed, changes, matched := CollectUpdates(t, plan, params, view);
      o := if failed then Refuse(Refused, next) else Write(changes, matched, |changes|, 0, next);
    case Delete =>
      var failed, changes := CollectDeletes(t, plan, params, view);
      assert !failed ==> changes.Keys == MatchedIds(t, plan, params, view);
      o := if failed then Refuse(Refused, next) else Write(changes, 0, |changes|, 0, next);
    case _ =>
      o := Refuse(Refused, next);
  }

  method Apply(view: View, changes: Changes) returns (after: View)
    ensures after == Overlay(view, changes)
  {
    after := view;
    var rest := changes.Keys;
    while rest != {}
      invariant rest <= changes.Keys
      invariant after == Overlay(view, changes - rest)
    {
      var id :| id in rest;
      after := if changes[id].None? then after - {id} else after[id := changes[id].value];
      rest := rest - {id};
    }
    assert changes - {} == changes;
  }

  // ---- the candidate rows of a slot ----

  function Prepend(taken: Changes, rest: Option<Changes>): Option<Changes> {
    match rest case None => None case Some(r) => Some(taken + r)
  }

  lemma TakeOne(t: Table, slot: Slot, open: set<string>, rows: seq<Row>, view: View, taken: Changes, id: Id)
    requires rows != [] && Cell(rows[0], PrimaryKey(t)).AsString() == Some(id.key) && id.table == t.name
    requires id.key in open && id !in view && FixedHolds(slot, rows[0]) && id !in taken
    ensures Prepend(taken, FillRows(t, slot, open, rows, view))
         == Prepend(taken[id := Some(Clone(rows[0]))], FillRows(t, slot, open - {id.key}, rows[1..], view[id := Clone(rows[0])]))
  {
    var rest := FillRows(t, slot, open - {id.key}, rows[1..], view[id := Clone(rows[0])]);
    if rest.Some? {
      FilledRowsAreKeyed(t, slot, open - {id.key}, rows[1..], view[id := Clone(rows[0])]);
      assert id !in rest.value;
      assert taken + rest.value[id := Some(Clone(rows[0]))] == taken[id := Some(Clone(rows[0]))] + rest.value;
    }
  }

  /** The loop of Complete over the candidate's rows. */
  method TakeRows(t: Table, slot: Slot, rows: seq<Row>, view: View) returns (changes: Option<Changes>)
    ensures changes == FillRows(t, slot, OpenKeys(slot), rows, view)
  {
    var open := OpenKeys(slot);
    ghost var all := FillRows(t, slot, open, rows, view);
    var v, taken: Changes := view, map[];
    var i := 0;
    assert rows[0..] == rows && Prepend(taken, all) == all by {
      if all.Some? {
        assert taken + all.value == all.value;
      }
    }
    while i < |rows|
      invariant 0 <= i <= |rows|
      invariant forall id :: id in taken ==> id in v
      invariant all == Prepend(taken, FillRows(t, slot, open, rows[i..], v))
    {
      var row := rows[i];
      var key := Cell(row, PrimaryKey(t)).AsString();
      if key.None? || key.value !in open || Id(t.name, key.value) in v || !FixedHolds(slot, row) {
        return None;
      }
      var id := Id(t.name, key.value);
      TakeOne(t, slot, open, rows[i..], v, taken, id);
      assert rows[i..][1..] == rows[i + 1..];
      open, v, taken := open - {id.key}, v[id := Clone(row)], taken[id := Some(Clone(row))];
      i := i + 1;
    }
    assert taken + map[] == taken;
    return Some(taken);
  }
}
