/** AUTO_INCREMENT: generated keys are new, increasing, and never collide. */
module AutoIncrement {
  import opened Values
  import opened Schema
  import opened Plans
  import opened StoreSpec
  import opened StoreInvariant
  import opened StoreRuns

  predicate Generates(t: Table) {
    exists i :: 0 <= i < |t.columns| && t.columns[i].autoIncrement
  }

  /** The key text is a number below the next id. */
  predicate KeyBelow(key: string, next: int) {
    ParseInt64(key).Some? && ParseInt64(key).value < next
  }

  ghost predicate KeysBelow(ids: set<Id>, table: string, next: int) {
    forall id :: id in ids && id.table == table ==> KeyBelow(id.key, next)
  }

  /** Every key the table ever had, tombstones and uncommitted ones included, is below the next id. */
  ghost predicate AutoSafe(s: State, t: Table) {
    && 1 <= NextId(s, t.name) <= MAX_INT64
    && KeysBelow(s.committed.Keys, t.name, NextId(s, t.name))
    && forall sid :: KeysBelow(SessionOf(s, sid).writes.Keys, t.name, NextId(s, t.name))
  }

  /** The table's AUTO_INCREMENT column is its primary key, the only one. */
  ghost predicate AutoColumns(columns: seq<Field>, pk: string) {
    && (forall i, j :: 0 <= i < j < |columns| ==> columns[i].column.name != columns[j].column.name)
    && (forall f :: f in columns && f.autoIncrement ==> f.column.name == pk)
  }

  // ---- the allocator on one row ----

  ghost predicate PlacedBelow(row: Row, pk: string, next: int) {
    Cell(row, pk).AsInt64().Some? && 0 < Cell(row, pk).AsInt64().value < next
  }

  lemma {:induction false} FillAutoPlaces(columns: seq<Field>, row: Row, next: int, insertId: int, pk: string)
    requires forall f :: f in columns && f.autoIncrement ==> f.column.name == pk
    requires next <= MAX_INT64 && FillAuto(columns, row, next, insertId).Filled?
    requires PlacedBelow(row, pk, next) || exists f :: f in columns && f.autoIncrement
    ensures var r := FillAuto(columns, row, next, insertId); PlacedBelow(r.row, pk, r.next)
  {
    if columns != [] {
      var f := columns[0];
      if !f.autoIncrement {
        FillAutoPlaces(columns[1..], row, next, insertId, pk);
      } else if pk !in row || row[pk].IsNull() {
        IntIsExact(next);
        FillAutoPlaces(columns[1..], row[pk := Int(next)], next + 1, next, pk);
      } else {
        var n := row[pk].AsInt64().value;
        FillAutoPlaces(columns[1..], row, if n >= next then n + 1 else next, insertId, pk);
      }
    }
  }

  /** The allocator never moves back and stays in range; an id it hands out lies between its
      old and its new position. */
  lemma {:induction false} FillAutoRange(columns: seq<Field>, row: Row, next: int, insertId: int)
    ensures var r := FillAuto(columns, row, next, insertId);
            && next <= r.next && (next <= MAX_INT64 ==> r.next <= MAX_INT64)
            && (r.Filled? ==> r.insertId == insertId || next <= r.insertId < r.next)
  {
    hide ParseInt64, Decimal;
    if columns != [] {
      var f := columns[0];
      var name := f.column.name;
      if !f.autoIncrement {
        FillAutoRange(columns[1..], row, next, insertId);
      } else if name !in row || row[name].IsNull() {
        FillAutoRange(columns[1..], row[name := Int(next)], next + 1, next);
      } else if row[name].AsInt64().Some? {
        var n := row[name].AsInt64().value;
        FillAutoRange(columns[1..], row, if n >= next then n + 1 else next, insertId);
      }
    }
  }

  lemma {:induction false} FillAutoNothing(columns: seq<Field>, row: Row, next: int, insertId: int)
    requires forall f :: f in columns ==> !f.autoIncrement
    ensures FillAuto(columns, row, next, insertId) == Filled(row, next, insertId)
  {
    if columns != [] {
      FillAutoNothing(columns[1..], row, next, insertId);
    }
  }

  /** Without an explicit key the column gets exactly the next id, unless the ids are exhausted. */
  lemma {:induction false} FillAutoGenerates(columns: seq<Field>, row: Row, next: int, pk: string)
    requires AutoColumns(columns, pk) && (exists f :: f in columns && f.autoIncrement)
    requires 1 <= next <= MAX_INT64 && (pk !in row || row[pk].IsNull())
    ensures FillAuto(columns, row, next, 0)
         == if next == MAX_INT64 then Unfilled(next) else Filled(row[pk := Int(next)], next + 1, next)
  {
    if columns[0].autoIncrement {
      assert forall f :: f in columns[1..] ==> !f.autoIncrement;
      FillAutoNothing(columns[1..], row[pk := Int(next)], next + 1, next);
    } else {
      FillAutoGenerates(columns[1..], row, next, pk);
    }
  }

  /** What the allocator makes of a row, said at once: a table without an AUTO_INCREMENT column keeps
      row and position; a missing or NULL key gets the next id; a given key has to be a positive
      number, and the position moves past it. The last int64 is never given and never passed. */
  function Allocated(t: Table, row: Row, next: int): Filled {
    var pk := PrimaryKey(t);
    if !Generates(t) then Filled(row, next, 0)
    else if pk !in row || row[pk].IsNull() then
      if 1 <= next < MAX_INT64 then Filled(row[pk := Int(next)], next + 1, next) else Unfilled(next)
    else if row[pk].AsInt64().None? || row[pk].AsInt64().value <= 0 then Unfilled(next)
    else if row[pk].AsInt64().value < next then Filled(row, next, 0)
    else if row[pk].AsInt64().value == MAX_INT64 then Unfilled(next)
    else Filled(row, row[pk].AsInt64().value + 1, 0)
  }

  lemma {:induction false} AllocatesOnce(columns: seq<Field>, t: Table, row: Row, next: int)
    requires AutoColumns(columns, PrimaryKey(t)) && Generates(t) && exists f :: f in columns && f.autoIncrement
    requires next <= MAX_INT64
    ensures FillAuto(columns, row, next, 0) == Allocated(t, row, next)
  {
    hide ParseInt64, Int, Generates;
    if columns[0].autoIncrement {
      assert forall f :: f in columns[1..] ==> !f.autoIncrement;
      var pk := PrimaryKey(t);
      assert columns[0] in columns && columns[0].column.name == pk;
      if pk !in row || row[pk].IsNull() {
        FillAutoNothing(columns[1..], row[pk := Int(next)], next + 1, next);
      } else if row[pk].AsInt64().Some? {
        var n := row[pk].AsInt64().value;
        FillAutoNothing(columns[1..], row, if n >= next then n + 1 else next, 0);
      }
    } else {
      AllocatesOnce(columns[1..], t, row, next);
    }
  }

  /** The loop over the columns is that. */
  lemma AllocatorMeans(t: Table, row: Row, next: int)
    requires WellFormedTable(t) && next <= MAX_INT64
    ensures FillAuto(t.columns, row, next, 0) == Allocated(t, row, next)
  {
    if Generates(t) {
      TableAutoColumns(t);
      AllocatesOnce(t.columns, t, row, next);
    } else {
      FillAutoNothing(t.columns, row, next, 0);
    }
  }

  lemma TableAutoColumns(t: Table)
    requires WellFormedTable(t) && Generates(t)
    ensures AutoColumns(t.columns, PrimaryKey(t)) && exists f :: f in t.columns && f.autoIncrement
  {
    var i :| 0 <= i < |t.columns| && t.columns[i].autoIncrement;
    assert t.columns[i] in t.columns;
  }

  // ---- the allocator over one statement ----

  lemma AllocatorRange(t: Table, plan: Plan, params: seq<Value>, view: View, next: int)
    ensures var o := StatementOutcome(t, plan, params, view, next);
            && next <= o.next && (next <= MAX_INT64 ==> o.next <= MAX_INT64)
            && (o.Write? && o.insertId != 0 ==> next <= o.insertId < o.next)
  {
    if plan.kind == Insert {
      match GivenCells(DefaultRow(t.columns), plan.assignments, params)
      case None =>
      case Some(given) => FillAutoRange(t.columns, given, next, 0);
    }
  }

  lemma InsertedKeyBelow(t: Table, plan: Plan, params: seq<Value>, view: View, next: int)
    requires WellFormedTable(t) && Generates(t) && InsertOutcome(t, plan, params, view, next).Write?
    requires next <= MAX_INT64
    ensures var o := InsertOutcome(t, plan, params, view, next);
            forall id :: id in o.changes ==> KeyBelow(id.key, o.next)
  {
    var given := GivenCells(DefaultRow(t.columns), plan.assignments, params).value;
    TableAutoColumns(t);
    FillAutoPlaces(t.columns, given, next, 0, PrimaryKey(t));
  }

  lemma ChangedTable(t: Table, plan: Plan, params: seq<Value>, view: View, next: int)
    requires StatementOutcome(t, plan, params, view, next).Write?
    ensures forall id :: id in StatementOutcome(t, plan, params, view, next).changes ==> id.table == t.name
  {
    if plan.kind == Insert {
      InsertedRowIsKeyed(t, plan, params, view, next);
    }
  }

  /** A change set holds keys already in the view, or a new key below the new next id. */
  lemma ChangedKeys(t: Table, plan: Plan, params: seq<Value>, view: View, next: int)
    requires WellFormedTable(t) && Generates(t) && next <= MAX_INT64
    requires StatementOutcome(t, plan, params, view, next).Write?
    ensures var o := StatementOutcome(t, plan, params, view, next);
            forall id :: id in o.changes ==> id in view || KeyBelow(id.key, o.next)
  {
    if plan.kind == Insert {
      InsertedKeyBelow(t, plan, params, view, next);
    }
  }

  /** A generated INSERT never meets a duplicate primary key: it gets exactly the next id,
      unless an operand is missing or the ids are exhausted. */
  lemma GeneratedKeyIsFree(s: State, t: Table, plan: Plan, params: seq<Value>, sid: string)
    requires WellFormed(s.tables) && t in s.tables && Generates(t) && AutoSafe(s, t)
    requires plan.kind == Insert
    requires var given := GivenCells(DefaultRow(t.columns), plan.assignments, params);
             given.Some? ==> Cell(given.value, PrimaryKey(t)).IsNull() || PrimaryKey(t) !in given.value
    ensures var next := NextId(s, t.name);
            var o := StatementOutcome(t, plan, params, ViewOf(s, sid), next);
            if next < MAX_INT64 && GivenCells(DefaultRow(t.columns), plan.assignments, params).Some?
            then o.Write? && o.insertId == next && o.next == next + 1 && o.changes.Keys == {Id(t.name, Decimal(next))}
            else o == Refuse(Refused, next)
  {
    var next := NextId(s, t.name);
    match GivenCells(DefaultRow(t.columns), plan.assignments, params)
    case None =>
    case Some(given) =>
      TableAutoColumns(t);
      FillAutoGenerates(t.columns, given, next, PrimaryKey(t));
      NextKeyIsFree(s, t, sid);
      hide GivenCells, DefaultRow, FillAuto, AutoColumns, ParseInt64, Decimal, AutoSafe, WellFormed, ViewOf, Generates;
  }

  /** Nobody holds the key that the allocator gives next. */
  lemma NextKeyIsFree(s: State, t: Table, sid: string)
    requires AutoSafe(s, t)
    ensures Id(t.name, Decimal(NextId(s, t.name))) !in ViewOf(s, sid)
  {
    var next := NextId(s, t.name);
    DecimalRoundTrip(next);
    var id := Id(t.name, Decimal(next));
    assert !KeyBelow(id.key, next);
    assert id !in s.committed.Keys && id !in SessionOf(s, sid).writes.Keys;
  }

  // ---- one step ----

  /** Reference fills never touch the table: slots belong only to tables no statement writes. */
  ghost predicate NoFill(e: Event, t: Table) {
    e.DoFill? ==> e.slot.table != t.name
  }

  lemma LandAllocates(s: State, sid: string, t: Table, plan: Plan, o: Outcome, allowed: bool, late: bool, name: string)
    requires sid in s.sessions
    ensures NextId(Land(s, sid, t, plan, o, allowed, late).0, name)
         == if plan.kind == Insert && name == t.name then o.next else NextId(s, name)
    ensures Land(s, sid, t, plan, o, allowed, late).1.Done? ==>
              o.Write? && Land(s, sid, t, plan, o, allowed, late).1.insertId == o.insertId
  {
  }

  /** A successful statement reports the id its outcome generated, and an INSERT moves the
      allocator of its table to the outcome's next id. */
  ghost predicate Counts(s: State, e: Event, v: Verdict, after: int, name: string)
    requires e.DoExecute? && FindTable(s.tables, e.plan.table).Some? && v.Done?
  {
    var o := OutcomeOf(s, e, FindTable(s.tables, e.plan.table).value);
    && o.Write? && v.insertId == o.insertId
    && (e.plan.kind == Insert && name == e.plan.table ==> after == o.next)
  }

  lemma StatementNextId(s: State, e: Event, name: string)
    requires WellFormed(s.tables) && e.DoExecute?
    ensures var (s', v) := Step(s, e);
            && NextId(s, name) <= NextId(s', name)
            && (NextId(s, name) <= MAX_INT64 ==> NextId(s', name) <= MAX_INT64)
            && (v.Done? ==> FindTable(s.tables, e.plan.table).Some? && Counts(s, e, v, NextId(s', name), name))
  {
    hide Step, StatementOutcome, Land, Allowed;
    if e.early || !ParamsFit(e.plan, e.params) || e.plan.kind == Select || Entered(s, e.sid).readOnly
       || FindTable(s.tables, e.plan.table).None? {
      ExecuteEnters(s, e);
    } else {
      ExecuteWrites(s, e);
      var t := FindTable(s.tables, e.plan.table).value;
      AllocatorRange(t, e.plan, e.params, ViewOf(s, e.sid), NextId(s, t.name));
      LandAllocates(SetSession(s, e.sid, Entered(s, e.sid)), e.sid, t, e.plan, OutcomeOf(s, e, t),
                    Allowed(s.tables, ViewOf(s, e.sid), OutcomeOf(s, e, t)), e.late, name);
    }
  }

  lemma ControlNextId(s: State, e: Event, name: string)
    requires WellFormed(s.tables) && !e.DoExecute?
    ensures NextId(Step(s, e).0, name) == NextId(s, name)
  {
  }

  lemma NextIdGrows(s: State, e: Event, name: string)
    requires WellFormed(s.tables)
    ensures NextId(s, name) <= NextId(Step(s, e).0, name)
    ensures NextId(s, name) <= MAX_INT64 ==> NextId(Step(s, e).0, name) <= MAX_INT64
  {
    if e.DoExecute? {
      StatementNextId(s, e, name);
    } else {
      ControlNextId(s, e, name);
    }
  }

  lemma ViewKeysBelow(s: State, t: Table, sid: string)
    requires AutoSafe(s, t)
    ensures KeysBelow(ViewOf(s, sid).Keys, t.name, NextId(s, t.name))
  {
    forall id | id in ViewOf(s, sid) && id.table == t.name ensures KeyBelow(id.key, NextId(s, t.name)) {
      assert id in s.committed.Keys || id in SessionOf(s, sid).writes.Keys;
    }
  }

  lemma OutcomeKeysBelow(t: Table, plan: Plan, params: seq<Value>, view: View, next: int)
    requires WellFormedTable(t) && Generates(t) && next <= MAX_INT64 && KeysBelow(view.Keys, t.name, next)
    requires StatementOutcome(t, plan, params, view, next).Write?
    ensures var o := StatementOutcome(t, plan, params, view, next); KeysBelow(o.changes.Keys, t.name, o.next)
  {
    ChangedTable(t, plan, params, view, next);
    ChangedKeys(t, plan, params, view, next);
    AllocatorRange(t, plan, params, view, next);
  }

  lemma StatementKeysBelow(s: State, e: Event, t: Table)
    requires WellFormed(s.tables) && t in s.tables && Generates(t) && AutoSafe(s, t) && e.DoExecute?
    requires Step(s, e).1.Done?
    ensures KeysBelow(ChangesOf(s, e).Keys, t.name, NextId(Step(s, e).0, t.name))
  {
    StatementNextId(s, e, t.name);
    var u := FindTable(s.tables, e.plan.table).value;
    if u.name == t.name {
      FindTableFinds(s.tables, t);
      ViewKeysBelow(s, t, e.sid);
      OutcomeKeysBelow(t, e.plan, e.params, ViewOf(s, e.sid), NextId(s, t.name));
      PlainOutcomeNext(t, e.plan, e.params, ViewOf(s, e.sid), NextId(s, t.name));
    } else {
      ChangedTable(u, e.plan, e.params, ViewOf(s, e.sid), NextId(s, u.name));
    }
  }

  lemma PlainOutcomeNext(t: Table, plan: Plan, params: seq<Value>, view: View, next: int)
    ensures plan.kind != Insert ==> StatementOutcome(t, plan, params, view, next).next == next
  {
  }

  lemma FilledKeys(s: State, e: Event)
    requires e.DoFill?
    ensures forall id :: id in FilledBy(s, e) ==> id.table == e.slot.table
  {
    match FindTable(s.tables, e.slot.table)
    case None =>
    case Some(t) =>
      if FillRows(t, e.slot, OpenKeys(e.slot), e.rows, Live(s.committed)).Some? {
        FilledRowsAreKeyed(t, e.slot, OpenKeys(e.slot), e.rows, Live(s.committed));
      }
  }

  lemma PublishedKeysBelow(s: State, e: Event, t: Table)
    requires WellFormed(s.tables) && t in s.tables && Generates(t) && AutoSafe(s, t) && NoFill(e, t)
    ensures var (s', v) := Step(s, e); KeysBelow(Shown(Published(s, e, v)).Keys, t.name, NextId(s', t.name))
  {
    NextIdGrows(s, e, t.name);
    if e.DoExecute? {
      if Step(s, e).1.Done? {
        StatementKeysBelow(s, e, t);
      }
    } else if e.DoFill? {
      FilledKeys(s, e);
    } else {
      assert KeysBelow(SessionOf(s, e.sid).writes.Keys, t.name, NextId(s, t.name));
    }
  }

  lemma CommittedKeysBelow(s: State, e: Event, t: Table)
    requires WellFormed(s.tables) && t in s.tables && Generates(t) && AutoSafe(s, t) && NoFill(e, t)
    ensures KeysBelow(Step(s, e).0.committed.Keys, t.name, NextId(Step(s, e).0, t.name))
  {
    var (s', v) := Step(s, e);
    NextIdGrows(s, e, t.name);
    PublishedKeysBelow(s, e, t);
    StepPublishes(s, e);
    forall id | id in s'.committed.Keys ensures id in s.committed.Keys || id in Shown(Published(s, e, v)).Keys {
    }
  }

  lemma WrittenKeysBelow(s: State, e: Event, t: Table, sid: string)
    requires WellFormed(s.tables) && t in s.tables && Generates(t) && AutoSafe(s, t)
    ensures KeysBelow(SessionOf(Step(s, e).0, sid).writes.Keys, t.name, NextId(Step(s, e).0, t.name))
  {
    NextIdGrows(s, e, t.name);
    StepKeepsOwnWrites(s, e, sid);
    assert KeysBelow(SessionOf(s, sid).writes.Keys, t.name, NextId(s, t.name));
    if Buffers(s, e, Step(s, e).1, sid) {
      StatementKeysBelow(s, e, t);
    }
  }

  // ---- runs ----

  /** Over a whole run every key that was ever committed or buffered is below the next id. */
  lemma {:induction false} AutoSafeAt(r: Run, n: nat, t: Table)
    requires IsRun(r) && n < |r.states| && t in r.states[0].tables && Generates(t) && AutoSafe(r.states[0], t)
    requires forall i :: 0 <= i < |r.events| ==> NoFill(r.events[i], t)
    ensures AutoSafe(r.states[n], t)
  {
    if n > 0 {
      AutoSafeAt(r, n - 1, t);
      InvAt(r, n - 1);
      AutoSafeStep(r, n - 1, t);
    }
  }

  /** A step that does not fill the table keeps every key below the next id. */
  lemma AutoSafeAfter(s: State, e: Event, t: Table)
    requires WellFormed(s.tables) && t in s.tables && Generates(t) && AutoSafe(s, t) && NoFill(e, t)
    ensures AutoSafe(Step(s, e).0, t)
  {
    NextIdGrows(s, e, t.name);
    CommittedKeysBelow(s, e, t);
    var after := Step(s, e).0;
    hide Step, WellFormed, Generates;
    forall sid: string {:trigger SessionOf(after, sid)}
      ensures KeysBelow(SessionOf(after, sid).writes.Keys, t.name, NextId(after, t.name))
    {
      WrittenKeysBelow(s, e, t, sid);
    }
  }

  lemma AutoSafeStep(r: Run, i: nat, t: Table)
    requires IsRun(r) && i < |r.events| && t in r.states[i].tables && Generates(t)
    requires AutoSafe(r.states[i], t) && NoFill(r.events[i], t)
    ensures AutoSafe(r.states[i + 1], t)
  {
    hide AutoSafe;
    assert Follows(r, i);
    AutoSafeAfter(r.states[i], r.events[i], t);
  }

  /** The event inserted a row into the table under a generated id. */
  predicate Generated(r: Run, i: nat, t: Table)
    requires Sized(r) && i < |r.events|
  {
    && r.events[i].DoExecute? && r.events[i].plan.table == t.name && r.events[i].plan.kind == Insert
    && r.verdicts[i].Done? && r.verdicts[i].insertId != 0
  }

  lemma GeneratedInRange(r: Run, i: nat, t: Table)
    requires IsRun(r) && i < |r.events| && Generated(r, i, t)
    ensures NextId(r.states[i], t.name) <= r.verdicts[i].insertId < NextId(r.states[i + 1], t.name)
  {
    assert Follows(r, i);
    var s, e := r.states[i], r.events[i];
    StatementNextId(s, e, t.name);
    AllocatorRange(FindTable(s.tables, e.plan.table).value, e.plan, e.params, ViewOf(s, e.sid), NextId(s, t.name));
  }

  lemma {:induction false} NextIdMonotone(r: Run, i: nat, j: nat, name: string)
    requires IsRun(r) && i <= j < |r.states|
    ensures NextId(r.states[i], name) <= NextId(r.states[j], name)
  {
    if i < j {
      NextIdMonotone(r, i, j - 1, name);
      assert Follows(r, j - 1);
      NextIdGrows(r.states[j - 1], r.events[j - 1], name);
    }
  }

  /** Generated ids strictly increase over the run, whichever sessions insert, and whatever is
      rolled back, refused, or inserted under an explicit key in between. */
  lemma GeneratedIdsIncrease(r: Run, i: nat, j: nat, t: Table)
    requires IsRun(r) && i < j < |r.events| && Generated(r, i, t) && Generated(r, j, t)
    ensures r.verdicts[i].insertId < r.verdicts[j].insertId
  {
    GeneratedInRange(r, i, t);
    NextIdMonotone(r, i + 1, j, t.name);
    GeneratedInRange(r, j, t);
  }

  /** The statement leaves the key to the allocator. */
  predicate LeavesKeyOut(t: Table, plan: Plan, params: seq<Value>) {
    && plan.kind == Insert
    && var given := GivenCells(DefaultRow(t.columns), plan.assignments, params);
       given.Some? ==> Cell(given.value, PrimaryKey(t)).IsNull() || PrimaryKey(t) !in given.value
  }

  /** Nobody holds the key the allocator gives next, so such an INSERT is refused for a missing
      operand or exhausted ids only, never as a duplicate. */
  ghost predicate NeverDuplicates(s: State, t: Table, plan: Plan, params: seq<Value>, sid: string, other: string) {
    var next := NextId(s, t.name);
    var o := StatementOutcome(t, plan, params, ViewOf(s, sid), next);
    && o != Refuse(Constraint, o.next)
    && Id(t.name, Decimal(next)) !in s.committed
    && Id(t.name, Decimal(next)) !in SessionOf(s, other).writes
  }

  lemma GeneratedInsertIsFree(s: State, t: Table, plan: Plan, params: seq<Value>, sid: string, other: string)
    requires WellFormed(s.tables) && t in s.tables && Generates(t) && AutoSafe(s, t) && LeavesKeyOut(t, plan, params)
    ensures NeverDuplicates(s, t, plan, params, sid, other)
  {
    var next := NextId(s, t.name);
    GeneratedKeyIsFree(s, t, plan, params, sid);
    DecimalRoundTrip(next);
    assert !KeyBelow(Decimal(next), next);
    assert KeysBelow(SessionOf(s, other).writes.Keys, t.name, next);
    assert Id(t.name, Decimal(next)) !in s.committed.Keys;
  }

  /** In every reachable state an INSERT that leaves the key to the allocator computes the row
      under a key nobody holds, or is refused for a missing operand or exhausted ids, never as a duplicate. */
  lemma GeneratedInsertNeverDuplicates(r: Run, n: nat, t: Table, plan: Plan, params: seq<Value>, sid: string, other: string)
    requires IsRun(r) && n < |r.states| && t in r.states[0].tables && Generates(t) && AutoSafe(r.states[0], t)
    requires forall i :: 0 <= i < |r.events| ==> NoFill(r.events[i], t)
    requires LeavesKeyOut(t, plan, params)
    ensures NeverDuplicates(r.states[n], t, plan, params, sid, other)
  {
    InvAt(r, n);
    AutoSafeAt(r, n, t);
    GeneratedInsertIsFree(r.states[n], t, plan, params, sid, other);
  }
}
