/** AUTO_INCREMENT beside reference slots: no fill ever touches a table that takes inserts. */
module SlotAutoIncrement {
  import opened Values
  import opened Schema
  import opened Plans
  import opened StoreSpec
  import opened StoreInvariant
  import opened AutoIncrement
  import opened Api
  import opened SlotSpec
  import opened SlotInvariant
  import opened SlotRuns

  lemma SlotElsewhere(defs: seq<Slot>, slot: Slot, name: string)
    requires slot in defs && !SlotTable(defs, name)
    ensures slot.table != name
  {
  }

  lemma {:induction false} AutoSafeMeanwhile(s: State, defs: seq<Slot>, events: seq<StoreSpec.Event>, t: Table)
    requires WellFormed(s.tables) && SessionEvents(s.tables, defs, events)
    requires t in s.tables && Generates(t) && AutoSafe(s, t)
    ensures AutoSafe(Meanwhile(s, events), t)
  {
    hide AutoSafe, StoreSpec.Step, Generates;
    if events != [] {
      var n := |events| - 1;
      AutoSafeMeanwhile(s, defs, events[..n], t);
      assert SessionEvent(s.tables, defs, events[n]);
      AutoSafeAfter(Meanwhile(s, events[..n]), events[n], t);
    }
  }

  lemma AutoSafeInstall(p: Plugin, c: Continuation, payload: Json, a: Around, t: Table)
    requires WellFormed(p.store.tables) && c.slot in p.defs && !SlotTable(p.defs, t.name)
    requires t in p.store.tables && Generates(t) && AutoSafe(p.store, t)
    ensures AutoSafe(SlotSpec.Install(p, c, payload, a).0, t)
  {
    SlotElsewhere(p.defs, c.slot, t.name);
    hide AutoSafe, Fill, WellFormed, Generates, SlotTable;
    if payload.fill.Some? {
      AutoSafeAfter(p.store, DoFill(c.slot, payload.fill.value.rows), t);
    }
  }

  lemma AutoSafeAnswer(p: Plugin, c: Continuation, payload: Json, a: Around, t: Table)
    requires WellFormed(p.store.tables) && c.slot in p.defs && !SlotTable(p.defs, t.name)
    requires SessionEvents(p.store.tables, p.defs, a.between)
    requires t in p.store.tables && Generates(t) && AutoSafe(p.store, t)
    ensures AutoSafe(Answer(p, c, payload, a).0, t)
  {
    AutoSafeInstall(p, c, payload, a, t);
    InstallKeepsTables(p, c, payload, a);
    AutoSafeMeanwhile(SlotSpec.Install(p, c, payload, a).0, p.defs, a.between, t);
    var e := DoExecute(c.request.connection, c.plan, c.params, a.early, a.late);
    AutoSafeAfter(AtSelect(p, c, payload, a), e, t);
    hide AutoSafe, SlotSpec.Install, WellFormed, Generates, SlotTable, Meanwhile, StoreSpec.Execute, SessionEvents;
  }

  lemma AutoSafeComplete(p: Plugin, r: Resolution, a: Around, t: Table)
    requires PluginOk(p) && SessionEvents(p.store.tables, p.defs, a.between) && !SlotTable(p.defs, t.name)
    requires t in p.store.tables && Generates(t) && AutoSafe(p.store, t)
    ensures AutoSafe(Complete(p, r, a).0.store, t)
  {
    if r.continuation in p.pending {
      CompleteCases(p, r, a, r.continuation);
      assert ContinuationOk(p, r.continuation, p.pending[r.continuation]);
      hide AutoSafe, Answer, Complete, Generates, SlotTable;
      AutoSafeAnswer(p, p.pending[r.continuation], r.payload, a, t);
    }
  }

  /** Every locked section of the plugin, a fill included, keeps the keys of a generating table
      without slots below its next id. */
  lemma AutoSafeStepOfPlugin(p: Plugin, e: SlotSpec.Event, t: Table)
    requires PluginOk(p) && Enabled(p, e) && !SlotTable(p.defs, t.name)
    requires t in p.store.tables && Generates(t) && AutoSafe(p.store, t)
    ensures AutoSafe(SlotSpec.Step(p, e).store, t)
  {
    hide AutoSafe, Generates, SlotTable, Complete, Visit, StoreSpec.Step, Close, ReplyFits;
    match e
    case DoVisit(slot, q, plan, params, now) => VisitKeeps(p, slot, q, plan, params, now);
    case DoDisconnect(connection) =>
      AutoSafeAfter(p.store, DoClose(connection), t);
      CloseStep(p.store, connection);
    case DoStop =>
    case DoComplete(r, a) => AutoSafeComplete(p, r, a, t);
    case DoStore(x) => AutoSafeAfter(p.store, x, t);
  }

  lemma CloseStep(s: State, connection: string)
    requires WellFormed(s.tables)
    ensures StoreSpec.Step(s, DoClose(connection)).0 == Close(s, connection).0
  {
  }

  /** Over a whole run of the plugin, fills and all, every key that a generating table without slots
      ever had is below its next id. */
  lemma {:induction false} AutoSafeOverRuns(r: SlotRuns.Run, n: nat, t: Table)
    requires SlotRuns.IsRun(r) && n < |r.states| && t in r.states[0].store.tables && Generates(t)
    requires AutoSafe(r.states[0].store, t) && !SlotTable(r.states[0].defs, t.name)
    ensures AutoSafe(r.states[n].store, t)
  {
    hide AutoSafe, PluginOk, Generates, SlotTable, StoreMoves, Enabled, SlotSpec.Step;
    if n > 0 {
      AutoSafeOverRuns(r, n - 1, t);
      MovesOver(r, 0, n - 1);
      MovesDefs(r.states[0], r.states[n - 1]);
      assert SlotRuns.Follows(r, n - 1);
      AutoSafeStepOfPlugin(r.states[n - 1], r.events[n - 1], t);
    }
  }

  /** So in every reachable state of the plugin an INSERT that leaves the key to the allocator never
      meets a duplicate. */
  lemma InsertNeverDuplicates(r: SlotRuns.Run, n: nat, t: Table, plan: Plan, params: seq<Value>, sid: string, other: string)
    requires SlotRuns.IsRun(r) && n < |r.states| && t in r.states[0].store.tables && Generates(t)
    requires AutoSafe(r.states[0].store, t) && !SlotTable(r.states[0].defs, t.name)
    requires LeavesKeyOut(t, plan, params)
    ensures NeverDuplicates(r.states[n].store, t, plan, params, sid, other)
  {
    hide AutoSafe, Generates, SlotTable, StoreMoves, LeavesKeyOut, NeverDuplicates, SlotsOk;
    AutoSafeOverRuns(r, n, t);
    MovesOver(r, 0, n);
    MovesDefs(r.states[0], r.states[n]);
    GeneratedInsertIsFree(r.states[n].store, t, plan, params, sid, other);
  }
}
