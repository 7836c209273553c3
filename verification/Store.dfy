/** The row store as the object the plugin holds; every method is one locked section. */
module Store {
  import opened Values
  import opened Schema
  import opened Plans
  import opened StoreSpec
  import opened StoreInvariant
  import opened Constraints
  import opened Selection
  import opened Statements

  /** A SELECT answers with rows it may return; it fails only when an operand has no value or the
      rows do not fit the declared result columns. */
  ghost predicate Answers(tables: seq<Table>, view: View, plan: Plan, params: seq<Value>, reply: Selected, ids: seq<Id>,
                          textSize: TextSize)
  {
    match FindTable(tables, plan.table)
    case None => reply == if RowsValid(plan.columns, [], textSize) then Selection([]) else NoSelection
    case Some(t) =>
      if reply.Selection? then
        && !MatchError(view, plan, params) && Selects(t, view, plan, params, ids)
        && (forall id :: id in ids ==> id in view)
        && reply.rows == DataOf(view, plan.projection, ids) && RowsValid(plan.columns, reply.rows, textSize)
      else
        || MatchError(view, plan, params)
        || (&& Selects(t, view, plan, params, ids) && (forall id :: id in ids ==> id in view)
            && !RowsValid(plan.columns, DataOf(view, plan.projection, ids), textSize))
  }

  /** The live rows of the records no longer in `rest`. */
  ghost predicate Copied(committed: map<Id, Record>, rest: set<Id>, view: View) {
    && (forall id :: id in view <==> id in committed && id !in rest && committed[id].row.Some?)
    && (forall id :: id in view ==> view[id] == committed[id].row.value)
  }

  lemma ReplayEnds(before: View, writes: Changes)
    ensures Overlay(before, writes - writes.Keys) == before && writes - {} == writes
  {
  }

  lemma ReplayOne(before: View, writes: Changes, rest: set<Id>, id: Id)
    requires id in rest && rest <= writes.Keys
    ensures var view := Overlay(before, writes - rest);
            Overlay(before, writes - (rest - {id})) == if writes[id].None? then view - {id} else view[id := writes[id].value]
  {
  }

  lemma BufferEnds(committed: map<Id, Record>, c: Session, changes: Changes)
    ensures c.writes + (changes - changes.Keys) == c.writes && Rebase(committed, c.base, changes - changes.Keys) == c.base
    ensures changes - {} == changes
  {
  }

  lemma BufferOne(committed: map<Id, Record>, c: Session, changes: Changes, rest: set<Id>, id: Id)
    requires id in rest && rest <= changes.Keys
    ensures c.writes + (changes - (rest - {id})) == (c.writes + (changes - rest))[id := changes[id]]
    ensures var base := Rebase(committed, c.base, changes - rest);
            Rebase(committed, c.base, changes - (rest - {id})) == if id in base then base else base[id := VersionOf(committed, id)]
  {
  }

  lemma SetTwice(s: State, sid: string, c: Session, d: Session)
    ensures SetSession(SetSession(s, sid, c), sid, d) == SetSession(s, sid, d)
  {
    assert s.sessions[sid := c][sid := d] == s.sessions[sid := d];
  }

  class Store {
    const tables: seq<Table>
    const textSize: TextSize
    var committed: map<Id, Record>
    var sessions: map<string, Session>
    var nextIDs: map<string, int>
    var version: nat

    ghost function Abs(): State
      reads this
    {
      State(tables, committed, sessions, nextIDs, version)
    }

    ghost predicate Valid()
      reads this
    {
      Inv(Abs())
    }

    constructor (tables: seq<Table>, committed: map<Id, Record>, nextIDs: map<string, int>, textSize: TextSize)
      ensures Abs() == State(tables, committed, map[], nextIDs, 0)
    {
      this.tables := tables;
      this.textSize := textSize;
      this.committed := committed;
      this.sessions := map[];
      this.nextIDs := nextIDs;
      this.version := 0;
    }

    /** conn: the session, created on first use. */
    method Conn(sid: string) returns (c: Session)
      requires Valid()
      modifies this`sessions
      ensures Valid() && Abs() == SetSession(old(Abs()), sid, c)
      ensures c == SessionOf(old(Abs()), sid)
    {
      ViewIsTidy(Abs(), sid);
      SessionKeepsInv(Abs(), sid, SessionOf(Abs(), sid));
      if sid !in sessions {
        sessions := sessions[sid := NEW_SESSION];
      }
      c := sessions[sid];
      assert Abs().sessions == old(Abs()).sessions[sid := c];
    }

    /** view: copies the committed rows, then replays the session's writes over them. */
    method ReadView(c: Session) returns (view: View)
      ensures view == Overlay(Live(committed), c.writes)
    {
      view := map[];
      var rest := committed.Keys;
      while rest != {}
        invariant rest <= committed.Keys
        invariant Copied(committed, rest, view)
      {
        var id :| id in rest;
        if committed[id].row.Some? {
          view := view[id := committed[id].row.value];
        }
        rest := rest - {id};
      }
      assert view == Live(committed);
      view := Replay(view, c.writes);
    }

    method Replay(before: View, writes: Changes) returns (view: View)
      ensures view == Overlay(before, writes)
    {
      hide Overlay;
      view := before;
      var rest := writes.Keys;
      ReplayEnds(before, writes);
      while rest != {}
        invariant rest <= writes.Keys
        invariant view == Overlay(before, writes - rest)
      {
        var id :| id in rest;
        ReplayOne(before, writes, rest, id);
        view := if writes[id].None? then view - {id} else view[id := writes[id].value];
        rest := rest - {id};
      }
    }

    /** The loop that marks every written key with the version it was first written against. */
    method BufferWrites(sid: string, c: Session, changes: Changes)
      requires sid in sessions && sessions[sid] == c
      modifies this`sessions
      ensures Abs() == Buffer(old(Abs()), sid, c, changes)
    {
      hide Rebase;
      var writes, base := c.writes, c.base;
      var rest := changes.Keys;
      BufferEnds(committed, c, changes);
      while rest != {}
        invariant rest <= changes.Keys && sessions == old(sessions)
        invariant writes == c.writes + (changes - rest)
        invariant base == Rebase(committed, c.base, changes - rest)
      {
        var id :| id in rest;
        BufferOne(committed, c, changes, rest, id);
        if id !in base {
          base := base[id := VersionOf(committed, id)];
        }
        writes := writes[id := changes[id]];
        rest := rest - {id};
      }
      assert changes - rest == changes;
      sessions := sessions[sid := c.(writes := writes, base := base)];
    }

    method PublishWrites(changes: Changes)
      modifies this`committed, this`version
      ensures Abs() == Publish(old(Abs()), changes)
    {
      version := version + 1;
      var rest := changes.Keys;
      while rest != {}
        invariant rest <= changes.Keys
        invariant version == old(version) + 1
        invariant committed == Install(old(committed), changes - rest, version)
      {
        var id :| id in rest;
        committed := committed[id := Record(changes[id], version)];
        rest := rest - {id};
      }
      assert changes - {} == changes;
    }

    // ---- execute ----

    /** Starts a statement: the session, its activation, and the view it works on. */
    method Enter(sid: string) returns (c: Session, view: View)
      requires Valid()
      modifies this`sessions
      ensures Valid() && Abs() == SetSession(old(Abs()), sid, c) && c == Entered(old(Abs()), sid)
      ensures view == ViewOf(old(Abs()), sid) && AllTidy(tables, view)
    {
      ViewIsTidy(Abs(), sid);
      SessionKeepsInv(Abs(), sid, Entered(Abs(), sid));
      c := if sid in sessions then sessions[sid] else NEW_SESSION;
      if !c.autocommit {
        c := c.(active := true);
      }
      sessions := sessions[sid := c];
      view := ReadView(c);
    }

    /** The statement a session runs; `reply` and `ids` describe the rows of a SELECT. */
    method Execute(sid: string, plan: Plan, params: seq<Value>, early: bool, late: bool)
      returns (v: Verdict, reply: Selected, ghost ids: seq<Id>)
      requires Valid() && KeepsKeys(tables, plan)
      modifies this
      ensures Valid() && (Abs(), v) == StoreSpec.Execute(old(Abs()), sid, plan, params, early, late)
      ensures v == Reads ==> Answers(tables, ViewOf(old(Abs()), sid), plan, params, reply, ids, textSize)
    {
      ExecuteKeepsInv(Abs(), sid, plan, params, early, late);
      reply, ids := NoSelection, [];
      if early || !ParamsFit(plan, params) {
        return Aborted(Refused), reply, ids;
      }
      var c, view := Enter(sid);
      if plan.kind == Select {
        reply, ids := SelectRows(view, plan, params);
        return Reads, reply, ids;
      }
      if c.readOnly || FindTable(tables, plan.table).None? {
        return Aborted(Refused), reply, ids;
      }
      v := WriteRows(sid, c, FindTable(tables, plan.table).value, plan, params, view, late);
    }

    method SelectRows(view: View, plan: Plan, params: seq<Value>) returns (reply: Selected, ghost ids: seq<Id>)
      requires WellFormed(tables) && AllTidy(tables, view)
      ensures Answers(tables, view, plan, params, reply, ids, textSize)
    {
      match FindTable(tables, plan.table)
      case None =>
        // No table, no rows: only the column metadata is checked.
        return if RowsValid(plan.columns, [], textSize) then Selection([]) else NoSelection, [];
      case Some(t) =>
        assert KeyedRows(t, view) by {
          forall id | id in view && id.table == t.name
            ensures RowFits(t, view[id]) && Cell(view[id], PrimaryKey(t)).AsString() == Some(id.key)
          {
            assert Tidy(tables, id, view[id]);
          }
        }
        reply, ids := Selection.Select(t, view, plan, params, textSize);
    }

    /** The writing branch of execute, from the change set to its installation. */
    method WriteRows(sid: string, c: Session, t: Table, plan: Plan, params: seq<Value>, view: View, late: bool)
      returns (v: Verdict)
      requires WellFormed(tables) && FindTable(tables, plan.table) == Some(t) && plan.kind != Select && !c.readOnly
      requires sid in sessions && sessions[sid] == c && view == Overlay(Live(committed), c.writes)
      modifies this
      ensures (Abs(), v) == Written(old(Abs()), sid, t, plan, params, late)
    {
      hide ViewConsistent, StatementOutcome, Overlay, Live, Install, Rebase;
      var next := if t.name in nextIDs then nextIDs[t.name] else 0;
      var o := PlanChanges(t, plan, params, view, next);
      if plan.kind == Insert {
        nextIDs := nextIDs[t.name := o.next];
      }
      if o.Refuse? {
        return Aborted(o.failure);
      }
      var after := Apply(view, o.changes);
      var verdict := CheckView(tables, after);
      if verdict != Pass {
        return Aborted(Constraint);
      }
      if late {
        return Aborted(Refused);
      }
      if c.active {
        BufferWrites(sid, c, o.changes);
      } else {
        PublishWrites(o.changes);
      }
      if o.insertId != 0 {
        sessions := sessions[sid := sessions[sid].(lastInsert := o.insertId)];
      }
      v := Done(if c.foundRows && plan.kind == Update then o.matched else o.changed, o.insertId);
    }

    // ---- transaction control ----

    /** commit: version check, validation of the session's view, installation. */
    method CommitSession(sid: string, c: Session) returns (v: Verdict)
      requires Valid() && sid in sessions && sessions[sid] == c
      modifies this
      ensures Valid() && (Abs(), v) == StoreSpec.Commit(old(Abs()), sid)
    {
      CommitKeepsInv(Abs(), sid);
      ghost var s := Abs();
      sessions := sessions[sid := Cleared(c)];
      var rest := c.base.Keys;
      while rest != {}
        invariant rest <= c.base.Keys
        invariant forall id :: id in c.base && id !in rest ==> VersionOf(committed, id) == c.base[id]
      {
        var id :| id in rest;
        if VersionOf(committed, id) != c.base[id] {
          assert VersionConflict(s, c);
          return Aborted(Conflict);
        }
        rest := rest - {id};
      }
      assert !VersionConflict(s, c);
      var view := ReadView(c);
      var verdict := CheckView(tables, view);
      if verdict != Pass {
        return Aborted(Conflict);
      }
      PublishWrites(c.writes);
      v := Done(0, 0);
    }

    method Begin(sid: string) returns (v: Verdict)
      requires Valid()
      modifies this
      ensures Valid() && (Abs(), v) == StoreSpec.Begin(old(Abs()), sid)
    {
      BeginKeepsInv(Abs(), sid);
      hide Inv, SessionOf;
      var c := Conn(sid);
      if c.active {
        return Aborted(Refused);
      }
      SetTwice(old(Abs()), sid, c, c.(active := true));
      sessions := sessions[sid := c.(active := true)];
      v := Done(0, 0);
    }

    method Commit(sid: string) returns (v: Verdict)
      requires Valid()
      modifies this
      ensures Valid() && (Abs(), v) == StoreSpec.Commit(old(Abs()), sid)
    {
      var c := Conn(sid);
      ConnThenCommit(old(Abs()), sid, c);
      v := CommitSession(sid, c);
    }

    method Rollback(sid: string) returns (v: Verdict)
      requires Valid()
      modifies this
      ensures Valid() && (Abs(), v) == StoreSpec.Rollback(old(Abs()), sid)
    {
      RollbackKeepsInv(Abs(), sid);
      hide Inv, SessionOf;
      var c := Conn(sid);
      SetTwice(old(Abs()), sid, c, Cleared(c));
      sessions := sessions[sid := Cleared(c)];
      v := Done(0, 0);
    }

    method SetAutocommit(sid: string, on: bool) returns (v: Verdict)
      requires Valid()
      modifies this
      ensures Valid() && (Abs(), v) == StoreSpec.SetAutocommit(old(Abs()), sid, on)
    {
      SetAutocommitKeepsInv(Abs(), sid, on);
      var c := Conn(sid);
      if on && !c.autocommit {
        ConnThenCommit(old(Abs()), sid, c);
        v := CommitAndSwitch(sid, c);
      } else {
        PlainSwitch(old(Abs()), sid, c, on);
        sessions := sessions[sid := c.(autocommit := on)];
        v := Done(0, 0);
      }
    }

    method CommitAndSwitch(sid: string, c: Session) returns (v: Verdict)
      requires Valid() && sid in sessions && sessions[sid] == c && !c.autocommit
      modifies this
      ensures (Abs(), v) == StoreSpec.SetAutocommit(old(Abs()), sid, true)
    {
      v := CommitSession(sid, c);
      if v.Done? {
        sessions := sessions[sid := sessions[sid].(autocommit := true)];
      }
    }

    method Close(sid: string)
      requires Valid()
      modifies this`sessions
      ensures Valid() && Abs() == StoreSpec.Close(old(Abs()), sid).0
    {
      CloseKeepsInv(Abs(), sid);
      sessions := sessions - {sid};
    }

    method SetReadOnly(sid: string, on: bool)
      requires Valid()
      modifies this`sessions
      ensures Valid() && Abs() == StoreSpec.SetReadOnly(old(Abs()), sid, on).0
    {
      FlagKeepsInv(Abs(), sid, on);
      hide Inv, SessionOf;
      var c := Conn(sid);
      SetTwice(old(Abs()), sid, c, c.(readOnly := on));
      sessions := sessions[sid := c.(readOnly := on)];
    }

    /** connection.open. */
    method Open(sid: string, foundRows: bool)
      requires Valid()
      modifies this`sessions
      ensures Valid() && Abs() == StoreSpec.Open(old(Abs()), sid, foundRows).0
    {
      FlagKeepsInv(Abs(), sid, foundRows);
      hide Inv, SessionOf;
      var c := Conn(sid);
      SetTwice(old(Abs()), sid, c, c.(foundRows := foundRows));
      sessions := sessions[sid := c.(foundRows := foundRows)];
    }

    // ---- reference slots ----

    method Fill(slot: Slot, rows: seq<Row>) returns (v: Verdict)
      requires Valid()
      modifies this
      ensures Valid() && (Abs(), v) == StoreSpec.Fill(old(Abs()), slot, rows)
    {
      FillKeepsInv(Abs(), slot, rows);
      match FindTable(tables, slot.table)
      case None => v := Aborted(Refused);
      case Some(t) =>
        if |rows| != |slot.keys| {
          return Aborted(Refused);
        }
        var view := ReadView(NEW_SESSION);
        OverlayNothing(Live(committed));
        var taken := TakeRows(t, slot, rows, view);
        if taken.None? {
          return Aborted(Refused);
        }
        var after := Apply(view, taken.value);
        var verdict := CheckView(tables, after);
        if verdict != Pass {
          return Aborted(Constraint);
        }
        PublishWrites(taken.value);
        v := Done(0, 0);
    }
  }

  /** Unless it has to commit first, the switch only sets the flag. */
  lemma PlainSwitch(s: State, sid: string, c: Session, on: bool)
    requires WellFormed(s.tables) && c == SessionOf(s, sid) && !(on && !c.autocommit)
    ensures StoreSpec.SetAutocommit(s, sid, on)
         == (SetSession(SetSession(s, sid, c), sid, c.(autocommit := on)), Done(0, 0))
  {
    assert s.sessions[sid := c][sid := c.(autocommit := on)] == s.sessions[sid := c.(autocommit := on)];
    assert on ==> c.(autocommit := on) == c;
  }

  /** Creating the session first does not change what COMMIT does. */
  lemma ConnThenCommit(s: State, sid: string, c: Session)
    requires WellFormed(s.tables) && c == SessionOf(s, sid)
    ensures StoreSpec.Commit(SetSession(s, sid, c), sid) == StoreSpec.Commit(s, sid)
  {
    var s' := SetSession(s, sid, c);
    assert SetSession(s', sid, Cleared(c)) == SetSession(s, sid, Cleared(c));
  }
}
