/** Export over runs: every run runs its own scenario, and once it can export captures it always can. */
module ExportRuns {
  import opened Values
  import opened Schema
  import opened Plans
  import opened StoreSpec
  import opened StoreInvariant
  import opened Constraints
  import opened SlotFill
  import opened SlotSpec
  import opened SlotInvariant
  import opened SlotRuns
  import opened ExportSpec
  import C = Confirmation
  import L = Loading

  /** The run starts on the scenario's rows as the program stores them, and they meet the constraints. */
  ghost predicate StartsFrom(r: SlotRuns.Run, db: Listing)
    requires |r.states| > 0
  {
    var s := r.states[0].store;
    && WellFormed(s.tables) && Consistent(s.tables, db) && Consistent(s.tables, L.Normal(db))
    && L.TablesLoaded(s.tables, L.Normal(db), |s.tables|, s.committed)
  }

  lemma LoadedIsHeld(tables: seq<Table>, committed: map<Id, Record>, db: Listing, t: Table)
    requires WellFormed(tables) && Consistent(tables, L.Normal(db)) && FindTable(tables, t.name) == Some(t)
    requires L.TablesLoaded(tables, L.Normal(db), |tables|, committed)
    ensures HeldRows(t, RowsOf(db, t.name), Live(committed))
  {
    StoredAreDistinct(tables, db, t);
    hide WellFormed, Consistent, L.AllStored, L.KeysDistinct;
    var k :| 0 <= k < |tables| && tables[k] == t;
    assert L.AllStored(committed, tables[k], RowsOf(L.Normal(db), tables[k].name));
    StoredIsHeld(committed, t, RowsOf(db, t.name));
  }

  lemma StoredIsHeld(committed: map<Id, Record>, t: Table, rows: seq<Row>)
    requires L.AllStored(committed, t, L.Clones(rows)) && L.KeysDistinct(t, L.Clones(rows))
    ensures HeldRows(t, rows, Live(committed))
  {
    var stored := L.Clones(rows);
    hide L.Clones, L.KeyOf, Clone;
    forall i | 0 <= i < |rows| ensures HeldRow(t, rows[i], Live(committed)) {
      L.CloneKeepsKey(t, rows[i]);
      assert L.Stores(committed, t, stored[i]);
    }
    forall i, j | 0 <= i < j < |rows| ensures L.KeyOf(t, rows[i]) != L.KeyOf(t, rows[j]) {
      L.CloneKeepsKey(t, rows[i]);
      L.CloneKeepsKey(t, rows[j]);
      assert L.KeyOf(t, stored[i]) != L.KeyOf(t, stored[j]);
    }
  }

  lemma StoredAreDistinct(tables: seq<Table>, db: Listing, t: Table)
    requires WellFormed(tables) && Consistent(tables, L.Normal(db)) && FindTable(tables, t.name) == Some(t)
    ensures L.KeysDistinct(t, RowsOf(L.Normal(db), t.name))
  {
    L.NormalIsCanonical(db);
    hide TableConsistent, ReferencesConsistent, WellFormedTable, L.KeyOf;
    assert t in tables;
    if t.name in L.Normal(db) {
      assert TableConsistent(t, L.Normal(db)[t.name]);
      L.ConsistentIsDistinct(t, RowsOf(L.Normal(db), t.name));
    }
  }

  /** Rows of a table with slots stay held. */
  lemma StaysHeld(defs: seq<Slot>, a: State, b: State, listing: Listing)
    requires StoreMoves(defs, a, b) && HeldAll(a.tables, defs, listing, Live(a.committed))
    ensures HeldAll(b.tables, defs, listing, Live(b.committed))
  {
    hide Live, Clone, L.KeyOf;
    forall d | d in defs ensures HeldSlot(b.tables, d, listing, Live(b.committed)) {
      assert HeldSlot(a.tables, d, listing, Live(a.committed));
      var t := FindTable(a.tables, d.table).value;
      var rows := RowsOf(listing, d.table);
      forall i | 0 <= i < |rows| ensures HeldRow(t, rows[i], Live(b.committed)) {
        assert HeldRow(t, rows[i], Live(a.committed)) && L.IdOf(t, rows[i]).table == d.table;
      }
    }
  }

  /** Whatever sessions and requests do, what the scenario lists for its slot tables stays there. */
  lemma RunsItsOwn(r: SlotRuns.Run, db: Listing, n: nat)
    requires IsRun(r) && n < |r.states| && StartsFrom(r, db)
    ensures WellFormed(r.states[n].store.tables) && RunsOwn(r.states[n], db)
  {
    MovesOver(r, 0, n);
    var p := r.states[0];
    assert p.store.tables == r.states[n].store.tables && p.defs == r.states[n].defs && DefsOk(p.store.tables, p.defs);
    hide IsRun, Consistent, HeldRows, PluginOk, SlotsMove, WellFormed, Live, L.TablesLoaded;
    forall d | d in p.defs ensures HeldSlot(p.store.tables, d, db, Live(p.store.committed)) {
      LoadedIsHeld(p.store.tables, p.store.committed, db, FindTable(p.store.tables, d.table).value);
    }
    StaysHeld(p.defs, p.store, r.states[n].store, db);
  }

  lemma ConfirmedStay(p: SlotSpec.Plugin, q: SlotSpec.Plugin, captures: seq<Capture>)
    requires SlotsMove(p, q) && AllConfirmed(p, captures)
    ensures AllConfirmed(q, captures)
  {
    hide SlotsMove, C.Confirmed;
    forall i | 0 <= i < |captures|
      ensures C.Confirmed(q, captures[i].request, captures[i].candidate, captures[i].response)
    {
      C.ConfirmedStays(p, q, captures[i].request, captures[i].candidate, captures[i].response);
    }
  }

  lemma SameReferences(p: SlotSpec.Plugin, q: SlotSpec.Plugin, captures: seq<Capture>, db: Listing)
    requires p.defs == q.defs && p.store.tables == q.store.tables && WellFormed(p.store.tables)
    ensures ReferencesFound(p, captures, db) ==> ReferencesFound(q, captures, db)
  {
    hide FromCapture, Refers, KeyIn, L.KeyOf;
    assert forall name, row :: Added(p, captures, db, name, row) <==> Added(q, captures, db, name, row);
    hide Added;
    if ReferencesFound(p, captures, db) {
      forall t, fk, row | t in q.store.tables && fk in t.foreignKeys && Added(q, captures, db, t.name, row)
        ensures FindsReference(q, captures, db, fk, row)
      {
        assert FindsReference(p, captures, db, fk, row);
        var other :| InExport(p, captures, db, fk.table, other) && Refers(fk, row, other);
        assert InExport(q, captures, db, fk.table, other);
      }
    }
  }

  /** Captures that a run can export once, it can export ever after. */
  lemma ExportStaysPossible(r: SlotRuns.Run, db: Listing, captures: seq<Capture>, i: nat, j: nat)
    requires IsRun(r) && i <= j < |r.states|
    ensures WellFormed(r.states[i].store.tables) && WellFormed(r.states[j].store.tables)
    ensures Exportable(r.states[i], captures, db) ==> Exportable(r.states[j], captures, db)
  {
    MovesOver(r, i, j);
    var p, q := r.states[i], r.states[j];
    assert q.defs == p.defs && q.store.tables == p.store.tables && WellFormed(p.store.tables);
    hide IsRun, PluginOk, SlotsMove, StoreMoves, ReferencesFound, AllConfirmed, WellFormed;
    SameReferences(p, q, captures, db);
    if Exportable(p, captures, db) {
      ConfirmedStay(p, q, captures);
    }
  }
}
