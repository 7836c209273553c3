/** Export: the scenario of a finished run, with the confirmed candidates materialised in it. */
module Export {
  import opened Values
  import opened Schema
  import opened Plans
  import opened StoreSpec
  import opened Constraints
  import opened Api
  import opened SlotFill
  import opened SlotSpec
  import opened SlotInvariant
  import opened Plugin
  import opened ExportSpec
  import C = Confirmation
  import L = Loading

  // ---- the confirmed test ----

  ghost predicate ConfirmedAmong(pending: map<nat, Continuation>, tokens: set<nat>, capture: Capture) {
    exists t :: t in tokens && t in pending && C.ConfirmedBy(pending[t], capture.request, capture.candidate, capture.response)
  }

  /** `p` is the plugin whose continuations are searched. */
  method IsConfirmed(pending: map<nat, Continuation>, capture: Capture, ghost p: SlotSpec.Plugin) returns (confirmed: bool)
    requires PluginOk(p) && pending == p.pending
    ensures confirmed == C.Confirmed(p, capture.request, capture.candidate, capture.response)
  {
    hide PluginOk;
    confirmed := false;
    var rest := pending.Keys;
    while rest != {}
      invariant rest <= pending.Keys
      invariant confirmed <==> ConfirmedAmong(pending, pending.Keys - rest, capture)
    {
      var t :| t in rest;
      var c := pending[t];
      if c.request == capture.request && c.digest == Some(capture.candidate) && c.err.None? && c.result == capture.response
         && c.done > 0 {
        DoneOnce(p, t);
        confirmed := true;
      }
      rest := rest - {t};
    }
  }

  lemma DoneOnce(p: SlotSpec.Plugin, t: nat)
    requires PluginOk(p) && t in p.pending
    ensures p.pending[t].done <= 1
  {
    assert ContinuationOk(p, t, p.pending[t]);
  }

  // ---- materialising one candidate ----

  /** Adds one row unless its key is there already; a different row under its key is a conflict. */
  method AddRow(t: Table, before: seq<Row>, row: Row, key: string) returns (after: Option<seq<Row>>)
    ensures after.None? <==> Conflicts(t, before, row, key)
    ensures after.Some? ==> after.value == WithRow(t, before, row, key) && Present(after.value, row)
  {
    var existing := false;
    for i := 0 to |before|
      invariant forall j :: 0 <= j < i && L.KeyOf(t, before[j]) == key ==> Clone(before[j]) == Clone(row)
      invariant existing ==> Present(before, row)
      invariant existing <==> KeyIn(t, before[..i], key)
    {
      assert before[..i + 1] == before[..i] + [before[i]];
      if L.KeyOf(t, before[i]) == key {
        if Clone(before[i]) != Clone(row) {
          return None;
        }
        assert L.KeyOf(t, before[..i + 1][i]) == key;
        existing := true;
      }
    }
    assert before[..|before|] == before;
    if existing {
      return Some(before);
    }
    CloneTwice(row);
    assert (before + [Clone(row)])[|before|] == Clone(row);
    after := Some(before + [Clone(row)]);
  }

  /** The rows of a candidate for one slot: keys of the slot, each once, fixed cells respected. Rows
      that suit the slot and that a view holds are taken when the view holds the rows before, too. */
  method AddRows(t: Table, slot: Slot, before: seq<Row>, rows: seq<Row>, ghost view: View) returns (after: Option<seq<Row>>)
    ensures after.Some? ==> Extends(before, rows, after.value)
    ensures after.Some? ==> |rows| == |slot.keys| && Belong(t, slot, rows, |rows|)
    ensures HeldRows(t, before, view) && SuitLive(t, slot, rows, view) ==>
              after.Some? && HeldRows(t, after.value, view)
  {
    if |rows| != |slot.keys| {
      return None;
    }
    hide Extends, Belong, FixedHolds, KeyText, Present, HeldRows, SuitLive, WithRow, Conflicts, StillOpen, OpenKeys;
    var open := OpenKeys(slot);
    OpenKeysBelong(slot);
    var current := before;
    NothingAdded(before, rows);
    NothingBelongs(t, slot, rows);
    ghost var good := HeldRows(t, before, view) && SuitLive(t, slot, rows, view);
    if good {
      SuitsOpen(t, slot, rows, view);
    }
    for n := 0 to |rows|
      invariant forall k :: k in open ==> k in slot.keys
      invariant Extends(before, rows[..n], current)
      invariant good ==> HeldRows(t, current, view) && StillOpen(t, rows, n, open)
      invariant Belong(t, slot, rows, n)
    {
      if good {
        NextFits(t, slot, current, rows, n, open, view);
      }
      var key := KeyText(t, rows[n]);
      if key.None? || key.value !in open {
        return None;
      }
      open := open - {key.value};
      if !FixedHolds(slot, rows[n]) {
        return None;
      }
      var more := AddRow(t, current, rows[n], key.value);
      if more.None? {
        return None;
      }
      ExtendsOneMore(before, rows, n, current, more.value);
      BelongsOneMore(t, slot, rows, n);
      current := more.value;
    }
    assert rows[..|rows|] == rows;
    after := Some(current);
  }

  /** One capture: its candidate's rows are added to the table of the slot it names. A capture of
      what the store holds is always taken into a listing the store holds. */
  method Materialize(tables: seq<Table>, defs: seq<Slot>, initial: Listing, capture: Capture, ghost s: State)
    returns (ok: bool, defs': seq<Slot>, initial': Listing, ghost k: nat)
    requires WellFormed(tables) && DefsOk(tables, defs)
    ensures ok ==> Materializes(defs, initial, capture, defs', initial', k)
    ensures CaptureFits(tables, defs, capture, s) && HeldAll(tables, defs, initial, Live(s.committed)) ==>
              ok && HeldAll(tables, defs', initial', Live(s.committed))
  {
    hide HeldAll, Extends, CaptureFits, FindTable, DefsOk, HeldRows, SuitLive, Live;
    ghost var good := CaptureFits(tables, defs, capture, s) && HeldAll(tables, defs, initial, Live(s.committed));
    if good {
      FittingCapture(tables, defs, capture, s);
    }
    defs', initial', k := defs, initial, 0;
    if capture.candidate.fill.None? {
      return false, defs', initial', k;
    }
    var fill := capture.candidate.fill.value;
    var found := false;
    for i := 0 to |defs|
      invariant |defs'| == |defs|
      invariant if found then
                  && k < i && Names(capture, defs[k]) && defs' == defs[k := defs[k].(materialized := true)]
                  && initial' == initial[defs[k].table := RowsOf(initial', defs[k].table)]
                  && Extends(RowsOf(initial, defs[k].table), fill.rows, RowsOf(initial', defs[k].table))
                  && (good ==> HeldAll(tables, defs', initial', Live(s.committed)))
                else defs' == defs && initial' == initial && forall j :: 0 <= j < i ==> !Names(capture, defs[j])
    {
      if defs'[i].id == fill.slotId {
        OnlyOne(tables, defs, capture, k, i, found);
        found := true;
        var t := FindTable(tables, defs[i].table).value;
        if good {
          FittingSlot(tables, defs, capture, s, initial, i);
        }
        var after := AddRows(t, defs[i], RowsOf(initial', defs[i].table), fill.rows, Live(s.committed));
        if after.None? {
          return false, defs', initial', k;
        }
        k := i;
        initial' := initial'[defs[i].table := after.value];
        defs' := defs'[i := defs'[i].(materialized := true)];
        if good {
          HeldFlagged(tables, defs, defs', i, initial, initial', Live(s.committed));
        }
      }
    }
    ok := found;
  }

  method AnyOpen(defs: seq<Slot>) returns (open: bool)
    ensures open <==> exists i :: 0 <= i < |defs| && !defs[i].materialized
  {
    open := false;
    for i := 0 to |defs|
      invariant open <==> exists j :: 0 <= j < i && !defs[j].materialized
    {
      open := open || !defs[i].materialized;
    }
  }

  /** The loop over the captures. A run's own scenario takes all of them exactly when all are confirmed. */
  method MaterializeAll(tables: seq<Table>, before: seq<Slot>, pending: map<nat, Continuation>, initial: Listing,
                        captures: seq<Capture>, ghost p: SlotSpec.Plugin)
    returns (ok: bool, defs: seq<Slot>, current: Listing)
    requires WellFormed(tables) && DefsOk(tables, before) && PluginOk(p)
    requires pending == p.pending && before == p.defs && tables == p.store.tables
    ensures ok ==> AllConfirmed(p, captures)
    ensures ok ==> Flags(before, captures, defs) && Grown(before, captures, initial, current)
    ensures ok ==> OnlySlotTables(before, initial, current)
    ensures HeldAll(tables, before, initial, Live(p.store.committed)) ==>
              (ok <==> AllConfirmed(p, captures)) && (ok ==> HeldAll(tables, before, current, Live(p.store.committed)))
  {
    hide PluginOk, Flags, Grown, Materializes, C.Confirmed, WellFormed, Reached, DefsOk, HeldAll, CaptureFits, OnlySlotTables, Live;
    defs, current := before, initial;
    NothingReached(tables, before, initial, captures);
    ghost var held := HeldAll(tables, before, initial, Live(p.store.committed));
    for n := 0 to |captures|
      invariant forall i :: 0 <= i < n ==> C.Confirmed(p, captures[i].request, captures[i].candidate, captures[i].response)
      invariant Reached(tables, before, initial, captures, n, defs, current)
      invariant held ==> HeldAll(tables, defs, current, Live(p.store.committed))
    {
      var confirmed := IsConfirmed(pending, captures[n], p);
      if !confirmed {
        return false, defs, current;
      }
      ReachedDefs(tables, before, initial, captures, n, defs, current);
      NextIsConfirmed(p, initial, captures, n, defs, current);
      var one, defs', current', k := Materialize(tables, defs, current, captures[n], p.store);
      if !one {
        return false, defs, current;
      }
      ReachedOneMore(tables, before, initial, captures, n, defs, current, defs', current', k);
      defs, current := defs', current';
    }
    AllReached(tables, before, initial, captures, defs, current);
    if held {
      HeldByAnyFlags(tables, before, captures, defs, current, Live(p.store.committed));
    }
    ok := true;
  }

  /** Export succeeds only on confirmed captures. The exported scenario satisfies every constraint;
      its initial rows are the old ones followed by rows the captures offer, all of them, and every
      added row is a committed row of the run; the slots the captures name are materialised. On the
      run's own scenario it succeeds exactly when there are captures, all of them are confirmed and
      every foreign key of an added row finds its row. */
  method ExportScenario(right: RightPlugin, initial: Listing, captures: seq<Capture>) returns (r: Option<Exported>)
    requires right.Valid()
    ensures WellFormed(right.store.tables)
    ensures r.Some? ==> captures != [] && AllConfirmed(right.Abs(), captures)
    ensures r.Some? ==> Consistent(right.store.tables, r.value.initial)
    ensures r.Some? ==> Grown(right.defs, captures, initial, r.value.initial) && Flags(right.defs, captures, r.value.defs)
    ensures r.Some? ==> (r.value.requiresGeneration <==> exists i :: 0 <= i < |r.value.defs| && !r.value.defs[i].materialized)
    ensures r.Some? ==> forall name, k :: |RowsOf(initial, name)| <= k < |RowsOf(r.value.initial, name)| ==>
              Committed(right.store.Abs(), name, RowsOf(r.value.initial, name)[k])
    ensures RunsOwn(right.Abs(), initial) ==> (r.Some? <==> Exportable(right.Abs(), captures, initial))
  {
    ghost var p := right.Abs();
    assert StoreOk(p.store, p.defs);
    hide PluginOk, StoreOk, AllConfirmed, Flags, WellFormed, FromCapture, Shows, Consistent, HeldAll, OnlySlotTables, ReferencesFound;
    if captures == [] {
      return None;
    }
    var ok, defs, current := MaterializeAll(right.store.tables, right.defs, right.pending, initial, captures, p);
    if !ok {
      return None;
    }
    if RunsOwn(p, initial) {
      ExportConsistentIff(p, captures, initial, current);
    }
    var check := ValidateInitial(right.store.tables, current);
    if check != Pass {
      return None;
    }
    var open := AnyOpen(defs);
    AppendedAreCommitted(p, captures, initial, current);
    r := Some(Exported(current, defs, open));
  }
}
