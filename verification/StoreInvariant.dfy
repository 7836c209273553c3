/** What every locked operation of the row store keeps. */
module StoreInvariant {
  import opened Values
  import opened Schema
  import opened Plans
  import opened StoreSpec

  // ---- algebra of views ----

  lemma LiveOfInstall(committed: map<Id, Record>, writes: Changes, version: nat)
    ensures Live(Install(committed, writes, version)) == Overlay(Live(committed), writes)
  {
  }

  lemma OverlayTwice(view: View, a: Changes, b: Changes)
    ensures Overlay(Overlay(view, a), b) == Overlay(view, a + b)
  {
  }

  lemma OverlayNothing(view: View)
    ensures Overlay(view, map[]) == view
  {
  }

  // ---- the invariant ----

  /** A stored row belongs to a known table, fits it, is canonically written, and is stored under its
      own primary key. */
  ghost predicate Tidy(tables: seq<Table>, id: Id, row: Row)
    requires WellFormed(tables)
  {
    match FindTable(tables, id.table)
    case None => false
    case Some(t) =>
      RowFits(t, row) && Canonical(row) && Cell(row, PrimaryKey(t)).AsString() == Some(id.key)
  }

  ghost predicate AllTidy(tables: seq<Table>, rows: View)
    requires WellFormed(tables)
  {
    forall id {:trigger Tidy(tables, id, rows[id])} :: id in rows ==> Tidy(tables, id, rows[id])
  }

  ghost predicate WritesTidy(tables: seq<Table>, writes: Changes)
    requires WellFormed(tables)
  {
    forall id {:trigger Tidy(tables, id, writes[id].value)} ::
      id in writes && writes[id].Some? ==> Tidy(tables, id, writes[id].value)
  }

  ghost predicate SessionOk(s: State, c: Session)
    requires WellFormed(s.tables)
  {
    && c.writes.Keys == c.base.Keys
    && (!c.active ==> c.writes == map[])
    && (forall id :: id in c.base ==> c.base[id] <= VersionOf(s.committed, id))
    && WritesTidy(s.tables, c.writes)
  }

  ghost predicate CommittedOk(tables: seq<Table>, view: View)
    requires WellFormed(tables)
  {
    AllTidy(tables, view) && ViewConsistent(tables, view)
  }

  ghost predicate Inv(s: State) {
    && WellFormed(s.tables)
    && (forall id :: id in s.committed ==> s.committed[id].version <= s.version)
    && (forall sid :: sid in s.sessions ==> SessionOk(s, s.sessions[sid]))
    && CommittedOk(s.tables, Live(s.committed))
  }

  /** Compile rejects an UPDATE that assigns the primary key. */
  ghost predicate KeepsKeys(tables: seq<Table>, plan: Plan)
    requires WellFormed(tables)
  {
    plan.kind == Update ==>
      match FindTable(tables, plan.table)
      case None => true
      case Some(t) => forall a :: a in plan.assignments ==> a.column != PrimaryKey(t)
  }

  ghost predicate EventOk(tables: seq<Table>, e: Event)
    requires WellFormed(tables)
  {
    e.DoExecute? ==> KeepsKeys(tables, e.plan)
  }

  lemma ViewIsTidy(s: State, sid: string)
    requires Inv(s)
    ensures SessionOk(s, SessionOf(s, sid)) && AllTidy(s.tables, ViewOf(s, sid))
  {
  }

  // ---- change sets keep rows tidy ----

  lemma {:induction false} AssignKeepsColumn(row: Row, different: bool, assignments: seq<Assignment>, params: seq<Value>, column: string)
    requires forall a :: a in assignments ==> a.column != column
    requires Assign(row, different, assignments, params).Some?
    ensures Cell(Assign(row, different, assignments, params).value.row, column) == Cell(row, column)
    decreases |assignments|
  {
    if assignments != [] {
      var a := assignments[0];
      var v := AssignedValue(row, a, params).value;
      AssignKeepsColumn(row[a.column := v], different || !EqualValue(Cell(row, a.column), v), assignments[1..], params, column);
    }
  }

  lemma ClonedKey(row: Row, column: string)
    requires Cell(row, column).AsString().Some?
    ensures Cell(Clone(row), column).AsString() == Cell(row, column).AsString()
  {
  }

  lemma InsertedRowIsKeyed(t: Table, plan: Plan, params: seq<Value>, view: View, next: int)
    requires InsertOutcome(t, plan, params, view, next).Write?
    ensures var o := InsertOutcome(t, plan, params, view, next);
            forall id :: id in o.changes ==>
              && id.table == t.name && id !in view && o.changes[id].Some? && Canonical(o.changes[id].value)
              && Cell(o.changes[id].value, PrimaryKey(t)).AsString() == Some(id.key)
  {
    var given := GivenCells(DefaultRow(t.columns), plan.assignments, params).value;
    var row := FillAuto(t.columns, given, next, 0).row;
    ClonedKey(row, PrimaryKey(t));
  }

  lemma UpdatedRowIsKeyed(t: Table, plan: Plan, params: seq<Value>, row: Row)
    requires UpdateEffect(plan, params, row).Put?
    requires forall a :: a in plan.assignments ==> a.column != PrimaryKey(t)
    requires Cell(row, PrimaryKey(t)).AsString().Some?
    ensures Cell(UpdateEffect(plan, params, row).row, PrimaryKey(t)).AsString() == Cell(row, PrimaryKey(t)).AsString()
  {
    AssignKeepsColumn(row, false, plan.assignments, params, PrimaryKey(t));
    ClonedKey(Assign(row, false, plan.assignments, params).value.row, PrimaryKey(t));
  }

  lemma PutIsCanonical(plan: Plan, params: seq<Value>, row: Row)
    requires UpdateEffect(plan, params, row).Put?
    ensures Canonical(UpdateEffect(plan, params, row).row)
  {
  }

  /** Every row of a change set is canonically written and stored under its own primary key. */
  lemma ChangesAreKeyed(tables: seq<Table>, t: Table, plan: Plan, params: seq<Value>, view: View, next: int)
    requires WellFormed(tables) && FindTable(tables, plan.table) == Some(t)
    requires KeepsKeys(tables, plan) && AllTidy(tables, view)
    requires StatementOutcome(t, plan, params, view, next).Write?
    ensures var changes := StatementOutcome(t, plan, params, view, next).changes;
            forall id :: id in changes && changes[id].Some? ==>
              id.table == t.name && Canonical(changes[id].value) && Cell(changes[id].value, PrimaryKey(t)).AsString() == Some(id.key)
  {
    match plan.kind
    case Insert => InsertedRowIsKeyed(t, plan, params, view, next);
    case Update =>
      hide UpdateEffect, RowMatches, Canonical, RowFits;
      forall id | id in UpdateChanges(t, plan, params, view)
        ensures Canonical(UpdateEffect(plan, params, view[id]).row)
        ensures Cell(UpdateEffect(plan, params, view[id]).row, PrimaryKey(t)).AsString() == Some(id.key)
      {
        assert Tidy(tables, id, view[id]);
        UpdatedRowIsKeyed(t, plan, params, view[id]);
        PutIsCanonical(plan, params, view[id]);
      }
    case _ =>
  }

  /** A keyed change set whose result satisfies the constraints holds only tidy rows. */
  lemma AllowedIsTidy(tables: seq<Table>, t: Table, view: View, changes: Changes)
    requires WellFormed(tables) && FindTable(tables, t.name) == Some(t)
    requires forall id :: id in changes && changes[id].Some? ==>
               id.table == t.name && Canonical(changes[id].value) && Cell(changes[id].value, PrimaryKey(t)).AsString() == Some(id.key)
    requires RowsAllowed(tables, Overlay(view, changes))
    ensures WritesTidy(tables, changes)
  {
    var after := Overlay(view, changes);
    forall id | id in changes && changes[id].Some? ensures Tidy(tables, id, changes[id].value) {
      assert id in after && after[id] == changes[id].value && RowAllowed(tables, id.table, after[id]);
    }
  }

  lemma {:induction false} FilledRowsAreKeyed(t: Table, slot: Slot, open: set<string>, rows: seq<Row>, view: View)
    requires FillRows(t, slot, open, rows, view).Some?
    ensures forall id :: id in FillRows(t, slot, open, rows, view).value ==>
              var w := FillRows(t, slot, open, rows, view).value[id];
              && id.table == t.name && id !in view && id.key in open && w.Some? && Canonical(w.value)
              && Cell(w.value, PrimaryKey(t)).AsString() == Some(id.key)
    decreases |rows|
  {
    if rows != [] {
      var key := Cell(rows[0], PrimaryKey(t)).AsString().value;
      ClonedKey(rows[0], PrimaryKey(t));
      FilledRowsAreKeyed(t, slot, open - {key}, rows[1..], view[Id(t.name, key) := Clone(rows[0])]);
    }
  }

  // ---- the building blocks keep the invariant ----

  lemma PublishedViewIs(s: State, changes: Changes)
    ensures Live(Publish(s, changes).committed) == Overlay(Live(s.committed), changes)
  {
    LiveOfInstall(s.committed, changes, s.version + 1);
  }

  lemma PublishKeepsInv(s: State, changes: Changes)
    requires Inv(s) && WritesTidy(s.tables, changes)
    requires ViewConsistent(s.tables, Overlay(Live(s.committed), changes))
    ensures Inv(Publish(s, changes))
  {
    PublishedViewIs(s, changes);
    TidyOverlay(s.tables, Live(s.committed), changes);
    PublishedVersions(s, changes);
    PublishKeepsSessions(s, changes);
  }

  lemma PublishKeepsSessions(s: State, changes: Changes)
    requires WellFormed(s.tables)
    requires forall id :: id in s.committed ==> s.committed[id].version <= s.version
    requires forall sid :: sid in s.sessions ==> SessionOk(s, s.sessions[sid])
    ensures forall sid :: sid in s.sessions ==> SessionOk(Publish(s, changes), s.sessions[sid])
  {
    forall sid | sid in s.sessions ensures SessionOk(Publish(s, changes), s.sessions[sid]) {
      PublishKeepsSession(s, changes, s.sessions[sid]);
    }
  }

  lemma PublishedVersions(s: State, changes: Changes)
    requires forall id :: id in s.committed ==> s.committed[id].version <= s.version
    ensures forall id :: id in Publish(s, changes).committed ==> Publish(s, changes).committed[id].version <= s.version + 1
  {
  }

  lemma TidyOverlay(tables: seq<Table>, view: View, changes: Changes)
    requires WellFormed(tables) && AllTidy(tables, view) && WritesTidy(tables, changes)
    ensures AllTidy(tables, Overlay(view, changes))
  {
  }

  lemma PublishKeepsSession(s: State, changes: Changes, c: Session)
    requires WellFormed(s.tables) && SessionOk(s, c)
    requires forall id :: id in s.committed ==> s.committed[id].version <= s.version
    ensures SessionOk(Publish(s, changes), c)
  {
    forall id | id in c.base ensures c.base[id] <= VersionOf(Publish(s, changes).committed, id) {
      assert c.base[id] <= VersionOf(s.committed, id);
    }
  }

  lemma SessionKeepsInv(s: State, sid: string, c: Session)
    requires Inv(s) && SessionOk(s, c)
    ensures Inv(SetSession(s, sid, c))
  {
    var s' := SetSession(s, sid, c);
    forall other | other in s'.sessions ensures SessionOk(s', s'.sessions[other]) {
      assert other != sid ==> SessionOk(s, s.sessions[other]);
    }
  }

  lemma AllocatorKeepsInv(s: State, nextIDs: map<string, int>)
    requires Inv(s)
    ensures Inv(s.(nextIDs := nextIDs))
  {
    var s' := s.(nextIDs := nextIDs);
    forall sid | sid in s'.sessions ensures SessionOk(s', s'.sessions[sid]) {
      assert SessionOk(s, s.sessions[sid]);
    }
  }

  lemma CommitKeepsInv(s: State, sid: string)
    requires Inv(s)
    ensures Inv(Commit(s, sid).0)
  {
    var c := SessionOf(s, sid);
    ViewIsTidy(s, sid);
    SessionKeepsInv(s, sid, Cleared(c));
    if CommitAllowed(s, c) {
      PublishKeepsInv(SetSession(s, sid, Cleared(c)), c.writes);
    }
  }

  lemma ExecuteKeepsInv(s: State, sid: string, plan: Plan, params: seq<Value>, early: bool, late: bool)
    requires Inv(s) && KeepsKeys(s.tables, plan)
    ensures Inv(Execute(s, sid, plan, params, early, late).0)
  {
    if early || !ParamsFit(plan, params) { return; }
    var c := Entered(s, sid);
    var s1 := SetSession(s, sid, c);
    ViewIsTidy(s, sid);
    SessionKeepsInv(s, sid, c);
    if plan.kind == Select || c.readOnly || FindTable(s.tables, plan.table).None? { return; }
    WrittenKeepsInv(s1, sid, FindTable(s.tables, plan.table).value, plan, params, late);
  }

  lemma WrittenKeepsInv(s: State, sid: string, t: Table, plan: Plan, params: seq<Value>, late: bool)
    requires Inv(s) && KeepsKeys(s.tables, plan) && sid in s.sessions && FindTable(s.tables, plan.table) == Some(t)
    ensures Inv(Written(s, sid, t, plan, params, late).0)
  {
    var c := s.sessions[sid];
    ViewIsTidy(s, sid);
    var view := Overlay(Live(s.committed), c.writes);
    var o := StatementOutcome(t, plan, params, view, NextId(s, t.name));
    var s2 := Allocate(s, plan, t, o.next);
    AllocatorKeepsInv(s, s2.nextIDs);
    assert Inv(s2);
    if o.Write? && ViewConsistent(s.tables, Overlay(view, o.changes)) && !late {
      ChangesAreKeyed(s.tables, t, plan, params, view, NextId(s, t.name));
      AllowedIsTidy(s.tables, t, view, o.changes);
      WriteKeepsInv(s2, sid, c, o.changes);
      var s3 := if c.active then Buffer(s2, sid, c, o.changes) else Publish(s2, o.changes);
      RememberKeepsInv(s3, sid, o.insertId);
    }
  }

  lemma RememberKeepsInv(s: State, sid: string, insertId: int)
    requires Inv(s) && sid in s.sessions
    ensures Inv(Remember(s, sid, insertId))
  {
    assert SessionOk(s, s.sessions[sid]);
    SessionKeepsInv(s, sid, s.sessions[sid].(lastInsert := insertId));
  }

  lemma WriteKeepsInv(s: State, sid: string, c: Session, changes: Changes)
    requires Inv(s) && sid in s.sessions && s.sessions[sid] == c && WritesTidy(s.tables, changes)
    requires ViewConsistent(s.tables, Overlay(Overlay(Live(s.committed), c.writes), changes))
    ensures Inv(if c.active then Buffer(s, sid, c, changes) else Publish(s, changes))
  {
    assert SessionOk(s, c);
    if c.active {
      var c' := c.(writes := c.writes + changes, base := Rebase(s.committed, c.base, changes));
      assert c'.writes.Keys == c'.base.Keys;
      SessionKeepsInv(s, sid, c');
    } else {
      OverlayNothing(Live(s.committed));
      PublishKeepsInv(s, changes);
    }
  }

  lemma FillKeepsInv(s: State, slot: Slot, rows: seq<Row>)
    requires Inv(s)
    ensures Inv(Fill(s, slot, rows).0)
  {
    if Fill(s, slot, rows).1.Done? {
      var t := FindTable(s.tables, slot.table).value;
        var open := OpenKeys(slot);
      var changes := FillRows(t, slot, open, rows, Live(s.committed)).value;
      FilledRowsAreKeyed(t, slot, open, rows, Live(s.committed));
      var after := Overlay(Live(s.committed), changes);
      forall id | id in changes && changes[id].Some? ensures Tidy(s.tables, id, changes[id].value) {
        assert after[id] == changes[id].value && RowAllowed(s.tables, id.table, after[id]);
      }
      PublishKeepsInv(s, changes);
    }
  }

  lemma BeginKeepsInv(s: State, sid: string)
    requires Inv(s)
    ensures Inv(Begin(s, sid).0)
  {
    ViewIsTidy(s, sid);
    SessionKeepsInv(s, sid, SessionOf(s, sid));
    SessionKeepsInv(s, sid, SessionOf(s, sid).(active := true));
  }

  lemma RollbackKeepsInv(s: State, sid: string)
    requires Inv(s)
    ensures Inv(Rollback(s, sid).0)
  {
    SessionKeepsInv(s, sid, Cleared(SessionOf(s, sid)));
  }

  lemma SetAutocommitKeepsInv(s: State, sid: string, on: bool)
    requires Inv(s)
    ensures Inv(SetAutocommit(s, sid, on).0)
  {
    ViewIsTidy(s, sid);
    var c := SessionOf(s, sid);
    SessionKeepsInv(s, sid, c.(autocommit := false));
    SessionKeepsInv(s, sid, c);
    CommitKeepsInv(s, sid);
    var s' := Commit(s, sid).0;
    ViewIsTidy(s', sid);
    SessionKeepsInv(s', sid, SessionOf(s', sid).(autocommit := true));
  }

  lemma CloseKeepsInv(s: State, sid: string)
    requires Inv(s)
    ensures Inv(Close(s, sid).0)
  {
    var s' := Close(s, sid).0;
    forall other | other in s'.sessions ensures SessionOk(s', s'.sessions[other]) {
      assert SessionOk(s, s.sessions[other]);
    }
  }

  lemma FlagKeepsInv(s: State, sid: string, on: bool)
    requires Inv(s)
    ensures Inv(SetReadOnly(s, sid, on).0) && Inv(Open(s, sid, on).0)
  {
    ViewIsTidy(s, sid);
    SessionKeepsInv(s, sid, SessionOf(s, sid).(readOnly := on));
    SessionKeepsInv(s, sid, SessionOf(s, sid).(foundRows := on));
  }

  /** Every operation of every session keeps the invariant. */
  lemma StepKeepsInv(s: State, e: Event)
    requires Inv(s) && EventOk(s.tables, e)
    ensures Inv(Step(s, e).0)
  {
    match e
    case DoExecute(sid, plan, params, early, late) => ExecuteKeepsInv(s, sid, plan, params, early, late);
    case DoBegin(sid) => BeginKeepsInv(s, sid);
    case DoCommit(sid) => CommitKeepsInv(s, sid);
    case DoRollback(sid) => RollbackKeepsInv(s, sid);
    case DoSetAutocommit(sid, on) => SetAutocommitKeepsInv(s, sid, on);
    case DoSetReadOnly(sid, on) => FlagKeepsInv(s, sid, on);
    case DoOpen(sid, foundRows) => FlagKeepsInv(s, sid, foundRows);
    case DoClose(sid) => CloseKeepsInv(s, sid);
    case DoFill(slot, rows) => FillKeepsInv(s, slot, rows);
  }
}
