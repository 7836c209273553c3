/** What Export adds to a scenario, and why a run's own scenario can take it. */
module ExportSpec {
  import opened Values
  import opened Schema
  import opened Plans
  import opened StoreSpec
  import opened StoreInvariant
  import opened Constraints
  import opened Api
  import opened SlotFill
  import opened SlotSpec
  import opened SlotInvariant
  import C = Confirmation
  import L = Loading

  /** A released capture with the request the daemon attached to it. */
  datatype Capture = Capture(request: Request, candidate: Json, response: Payload)

  datatype Exported = Exported(initial: Listing, defs: seq<Slot>, requiresGeneration: bool)

  // ---- materialising one candidate ----

  /** The row is among the rows, up to cloning. */
  predicate Present(rows: seq<Row>, row: Row) {
    exists i :: 0 <= i < |rows| && Clone(rows[i]) == Clone(row)
  }

  /** `after` continues `before` with clones of candidate rows only, and holds every candidate row. */
  ghost predicate Extends(before: seq<Row>, rows: seq<Row>, after: seq<Row>) {
    && before <= after
    && (forall i :: 0 <= i < |rows| ==> Present(after, rows[i]))
    && (forall k :: |before| <= k < |after| ==> exists i :: 0 <= i < |rows| && after[k] == Clone(rows[i]))
  }

  lemma CloneTwice(row: Row)
    ensures Clone(Clone(row)) == Clone(row)
  {
  }

  lemma ExtendsOneMore(before: seq<Row>, rows: seq<Row>, n: nat, middle: seq<Row>, after: seq<Row>)
    requires n < |rows| && Extends(before, rows[..n], middle)
    requires (after == middle || after == middle + [Clone(rows[n])]) && Present(after, rows[n])
    ensures Extends(before, rows[..n + 1], after)
  {
    var front := rows[..n + 1];
    forall i | 0 <= i < |front| ensures Present(after, front[i]) {
      if i < n {
        assert Present(middle, rows[..n][i]);
        var j :| 0 <= j < |middle| && Clone(middle[j]) == Clone(rows[i]);
        assert Clone(after[j]) == Clone(front[i]);
      }
    }
    forall k | |before| <= k < |after| ensures exists i :: 0 <= i < |front| && after[k] == Clone(front[i]) {
      if k < |middle| {
        var i :| 0 <= i < n && middle[k] == Clone(rows[..n][i]);
        assert after[k] == Clone(front[i]);
      } else {
        assert after[k] == Clone(front[n]);
      }
    }
  }

  lemma NothingAdded(before: seq<Row>, rows: seq<Row>)
    ensures Extends(before, rows[..0], before)
  {
  }

  // ---- all captures ----

  ghost predicate Names(capture: Capture, d: Slot) {
    capture.candidate.fill.Some? && capture.candidate.fill.value.slotId == d.id
  }

  /** A slot is materialised exactly when it was before or a capture names it. */
  ghost predicate Flags(defs: seq<Slot>, captures: seq<Capture>, after: seq<Slot>) {
    |after| == |defs| && forall i :: 0 <= i < |defs| ==>
      after[i] == defs[i].(materialized := defs[i].materialized || NamedBy(captures, defs[i]))
  }

  ghost predicate NamedBy(captures: seq<Capture>, d: Slot) {
    exists i :: 0 <= i < |captures| && Names(captures[i], d)
  }

  /** The row is a clone of a candidate row that a capture offers for a slot of the table. */
  ghost predicate FromCapture(defs: seq<Slot>, captures: seq<Capture>, table: string, row: Row) {
    exists i, d :: 0 <= i < |captures| && d in defs && Offers(captures[i], d, table, row)
  }

  ghost predicate Offers(capture: Capture, d: Slot, table: string, row: Row) {
    && Names(capture, d) && d.table == table
    && exists j :: 0 <= j < |capture.candidate.fill.value.rows| && row == Clone(capture.candidate.fill.value.rows[j])
  }

  /** Every candidate row of the capture is in the initial rows of its slot's table. */
  ghost predicate Shows(defs: seq<Slot>, capture: Capture, initial: Listing) {
    capture.candidate.fill.Some? &&
    forall d, j :: d in defs && Names(capture, d) && 0 <= j < |capture.candidate.fill.value.rows| ==>
      Present(RowsOf(initial, d.table), capture.candidate.fill.value.rows[j])
  }

  /** The initial rows only grow, by rows the captures offer, and hold all of those. */
  ghost predicate Grown(defs: seq<Slot>, captures: seq<Capture>, before: Listing, after: Listing) {
    && (forall name :: RowsOf(before, name) <= RowsOf(after, name))
    && (forall name, k :: |RowsOf(before, name)| <= k < |RowsOf(after, name)| ==>
          FromCapture(defs, captures, name, RowsOf(after, name)[k]))
    && (forall i :: 0 <= i < |captures| ==> Shows(defs, captures[i], after))
  }

  /** The k-th slot is the one the capture names: it is marked, and its table's rows are extended. */
  ghost predicate Materializes(defs: seq<Slot>, initial: Listing, capture: Capture, defs': seq<Slot>, initial': Listing, k: nat) {
    && k < |defs| && Names(capture, defs[k])
    && defs' == defs[k := defs[k].(materialized := true)]
    && initial' == initial[defs[k].table := RowsOf(initial', defs[k].table)]
    && Extends(RowsOf(initial, defs[k].table), capture.candidate.fill.value.rows, RowsOf(initial', defs[k].table))
  }

  /** `initial'` is `initial` with one table's rows extended. */
  lemma GrownOneMore(defs: seq<Slot>, captures: seq<Capture>, capture: Capture, d: Slot, before: Listing, middle: Listing, after: Listing)
    requires Grown(defs, captures, before, middle) && d in defs && Names(capture, d)
    requires forall x :: x in defs && x.id == d.id ==> x.table == d.table
    requires after == middle[d.table := RowsOf(after, d.table)]
    requires Extends(RowsOf(middle, d.table), capture.candidate.fill.value.rows, RowsOf(after, d.table))
    ensures Grown(defs, captures + [capture], before, after)
  {
    var more := captures + [capture];
    OtherTables(d.table, middle, after);
    forall name, k | |RowsOf(before, name)| <= k < |RowsOf(after, name)|
      ensures FromCapture(defs, more, name, RowsOf(after, name)[k])
    {
      if k < |RowsOf(middle, name)| {
        assert FromCapture(defs, captures, name, RowsOf(middle, name)[k]);
        FromOneMore(defs, captures, capture, name, RowsOf(middle, name)[k]);
      } else {
        FromThisOne(defs, captures, capture, d, RowsOf(middle, name), RowsOf(after, name), k);
      }
    }
    ShowsOneMore(defs, captures, capture, d, middle, after);
    hide FromCapture, Shows, Extends;
  }

  lemma OtherTables(table: string, middle: Listing, after: Listing)
    requires after == middle[table := RowsOf(after, table)]
    ensures forall name :: name != table ==> RowsOf(after, name) == RowsOf(middle, name)
  {
  }

  lemma FromThisOne(defs: seq<Slot>, captures: seq<Capture>, capture: Capture, d: Slot, before: seq<Row>, after: seq<Row>, k: nat)
    requires d in defs && Names(capture, d) && |before| <= k < |after|
    requires Extends(before, capture.candidate.fill.value.rows, after)
    ensures FromCapture(defs, captures + [capture], d.table, after[k])
  {
    assert Offers((captures + [capture])[|captures|], d, d.table, after[k]);
  }

  lemma FromOneMore(defs: seq<Slot>, captures: seq<Capture>, capture: Capture, table: string, row: Row)
    requires FromCapture(defs, captures, table, row)
    ensures FromCapture(defs, captures + [capture], table, row)
  {
    var i, x :| 0 <= i < |captures| && x in defs && Offers(captures[i], x, table, row);
    assert Offers((captures + [capture])[i], x, table, row);
  }

  lemma ShowsOneMore(defs: seq<Slot>, captures: seq<Capture>, capture: Capture, d: Slot, middle: Listing, after: Listing)
    requires forall i :: 0 <= i < |captures| ==> Shows(defs, captures[i], middle)
    requires d in defs && Names(capture, d) && forall x :: x in defs && x.id == d.id ==> x.table == d.table
    requires after == middle[d.table := RowsOf(after, d.table)]
    requires Extends(RowsOf(middle, d.table), capture.candidate.fill.value.rows, RowsOf(after, d.table))
    ensures forall i :: 0 <= i <= |captures| ==> Shows(defs, (captures + [capture])[i], after)
  {
    assert forall name :: RowsOf(middle, name) <= RowsOf(after, name);
    forall i | 0 <= i < |captures| ensures Shows(defs, captures[i], after) {
      StillShows(defs, captures[i], middle, after);
    }
    assert Shows(defs, capture, after);
  }

  lemma StillShows(defs: seq<Slot>, capture: Capture, middle: Listing, after: Listing)
    requires Shows(defs, capture, middle) && forall name :: RowsOf(middle, name) <= RowsOf(after, name)
    ensures Shows(defs, capture, after)
  {
    forall d, j | d in defs && Names(capture, d) && 0 <= j < |capture.candidate.fill.value.rows|
      ensures Present(RowsOf(after, d.table), capture.candidate.fill.value.rows[j])
    {
      var rows := RowsOf(middle, d.table);
      assert Present(rows, capture.candidate.fill.value.rows[j]);
      var i :| 0 <= i < |rows| && Clone(rows[i]) == Clone(capture.candidate.fill.value.rows[j]);
      assert RowsOf(after, d.table)[i] == rows[i];
    }
  }

  // ---- the exported rows are the run's rows ----

  /** What a confirmed candidate offers for its slot is what the store of the run holds there. */
  lemma ConfirmedIsLive(p: SlotSpec.Plugin, capture: Capture, d: Slot)
    requires PluginOk(p) && C.Confirmed(p, capture.request, capture.candidate, capture.response)
    requires d in p.defs && Names(capture, d)
    ensures RowsLive(p.store, d, capture.candidate.fill.value.rows) && KeysLive(p.store, d)
  {
    var t :| t in p.pending && C.ConfirmedBy(p.pending[t], capture.request, capture.candidate, capture.response);
    assert ContinuationOk(p, t, p.pending[t]);
    SlotIdsDiffer(p.store.tables, p.defs, p.pending[t].slot, d);
  }

  /** The row is one of the table's committed rows. */
  ghost predicate Committed(s: State, table: string, row: Row) {
    exists key :: Id(table, key) in Live(s.committed) && Live(s.committed)[Id(table, key)] == row
  }

  lemma AppendedIsCommitted(p: SlotSpec.Plugin, captures: seq<Capture>, table: string, row: Row)
    requires PluginOk(p) && FromCapture(p.defs, captures, table, row)
    requires forall i :: 0 <= i < |captures| ==>
               C.Confirmed(p, captures[i].request, captures[i].candidate, captures[i].response)
    ensures Committed(p.store, table, row)
  {
    var i, d :| 0 <= i < |captures| && d in p.defs && Offers(captures[i], d, table, row);
    ConfirmedIsLive(p, captures[i], d);
    var rows := captures[i].candidate.fill.value.rows;
    var j :| 0 <= j < |rows| && row == Clone(rows[j]);
    var t := FindTable(p.store.tables, d.table).value;
    assert RowLive(t, Live(p.store.committed), rows[j]);
  }

  lemma AppendedAreCommitted(p: SlotSpec.Plugin, captures: seq<Capture>, initial: Listing, current: Listing)
    requires PluginOk(p) && AllConfirmed(p, captures) && Grown(p.defs, captures, initial, current)
    ensures forall name, k :: |RowsOf(initial, name)| <= k < |RowsOf(current, name)| ==>
              Committed(p.store, name, RowsOf(current, name)[k])
  {
    hide PluginOk, FromCapture, Shows, C.Confirmed, Committed;
    forall name, k | |RowsOf(initial, name)| <= k < |RowsOf(current, name)|
      ensures Committed(p.store, name, RowsOf(current, name)[k])
    {
      AppendedIsCommitted(p, captures, name, RowsOf(current, name)[k]);
    }
  }

  lemma FlagsOneMore(defs: seq<Slot>, captures: seq<Capture>, capture: Capture, middle: seq<Slot>, after: seq<Slot>, k: nat)
    requires Flags(defs, captures, middle) && k < |defs| && Names(capture, defs[k])
    requires forall i, j :: 0 <= i < j < |defs| ==> defs[i].id != defs[j].id
    requires after == middle[k := middle[k].(materialized := true)]
    ensures Flags(defs, captures + [capture], after)
  {
    var more := captures + [capture];
    forall i | 0 <= i < |defs|
      ensures after[i] == defs[i].(materialized := defs[i].materialized || NamedBy(more, defs[i]))
    {
      assert NamedBy(captures, defs[i]) ==> NamedBy(more, defs[i]) by {
        if j :| 0 <= j < |captures| && Names(captures[j], defs[i]) {
          assert Names(more[j], defs[i]);
        }
      }
      if i == k {
        assert Names(more[|captures|], defs[i]);
      } else {
        assert NamedBy(more, defs[i]) ==> NamedBy(captures, defs[i]);
      }
    }
  }

  /** The flags do not matter to what a capture names. */
  lemma FlaggedDefs(tables: seq<Table>, defs: seq<Slot>, captures: seq<Capture>, after: seq<Slot>)
    requires DefsOk(tables, defs) && Flags(defs, captures, after)
    ensures DefsOk(tables, after)
  {
    forall d | d in after ensures FindTable(tables, d.table).Some? && d.keys != [] {
      var i :| 0 <= i < |after| && after[i] == d;
      assert defs[i] in defs;
    }
  }

  ghost predicate AllConfirmed(p: SlotSpec.Plugin, captures: seq<Capture>) {
    forall i :: 0 <= i < |captures| ==> C.Confirmed(p, captures[i].request, captures[i].candidate, captures[i].response)
  }

  /** The slots and rows after the first `n` captures. */
  ghost predicate Reached(tables: seq<Table>, defs: seq<Slot>, initial: Listing, captures: seq<Capture>, n: nat,
                          now: seq<Slot>, current: Listing)
    requires n <= |captures|
  {
    && DefsOk(tables, now) && Flags(defs, captures[..n], now) && Grown(defs, captures[..n], initial, current)
    && OnlySlotTables(defs, initial, current)
  }

  /** No table is listed anew except those with slots. */
  ghost predicate OnlySlotTables(defs: seq<Slot>, before: Listing, after: Listing) {
    forall name :: name in after ==> name in before || exists d :: d in defs && d.table == name
  }

  lemma ReachedOneMore(tables: seq<Table>, defs: seq<Slot>, initial: Listing, captures: seq<Capture>, n: nat,
                       now: seq<Slot>, current: Listing, now': seq<Slot>, current': Listing, k: nat)
    requires DefsOk(tables, defs) && n < |captures| && Reached(tables, defs, initial, captures, n, now, current)
    requires Materializes(now, current, captures[n], now', current', k)
    ensures Reached(tables, defs, initial, captures, n + 1, now', current')
  {
    hide Grown, FindTable;
    assert captures[..n + 1] == captures[..n] + [captures[n]];
    assert now[k] == defs[k].(materialized := now[k].materialized);
    FlagsOneMore(defs, captures[..n], captures[n], now, now', k);
    GrownOneMore(defs, captures[..n], captures[n], defs[k], initial, current, current');
    FlaggedDefs(tables, defs, captures[..n + 1], now');
    assert defs[k] in defs;
  }

  lemma NothingReached(tables: seq<Table>, defs: seq<Slot>, initial: Listing, captures: seq<Capture>)
    requires DefsOk(tables, defs)
    ensures Reached(tables, defs, initial, captures, 0, defs, initial)
  {
    assert captures[..0] == [];
    NothingGrown(defs, initial);
  }

  lemma AllReached(tables: seq<Table>, defs: seq<Slot>, initial: Listing, captures: seq<Capture>, now: seq<Slot>, current: Listing)
    requires Reached(tables, defs, initial, captures, |captures|, now, current)
    ensures Flags(defs, captures, now) && Grown(defs, captures, initial, current) && OnlySlotTables(defs, initial, current)
  {
    assert captures[..|captures|] == captures;
  }

  lemma ReachedDefs(tables: seq<Table>, defs: seq<Slot>, initial: Listing, captures: seq<Capture>, n: nat,
                    now: seq<Slot>, current: Listing)
    requires n <= |captures| && Reached(tables, defs, initial, captures, n, now, current)
    ensures DefsOk(tables, now)
  {
  }

  lemma NothingGrown(defs: seq<Slot>, initial: Listing)
    ensures Grown(defs, [], initial, initial) && Flags(defs, [], defs)
  {
  }

  // ---- the run's own scenario ----

  predicate KeyIn(t: Table, rows: seq<Row>, key: string) {
    exists i :: 0 <= i < |rows| && L.KeyOf(t, rows[i]) == key
  }

  /** A different row is listed under the key. */
  ghost predicate Conflicts(t: Table, rows: seq<Row>, row: Row, key: string) {
    exists i :: 0 <= i < |rows| && L.KeyOf(t, rows[i]) == key && Clone(rows[i]) != Clone(row)
  }

  /** The rows with this one, unless its key is there already. */
  function WithRow(t: Table, rows: seq<Row>, row: Row, key: string): (after: seq<Row>)
    ensures after == rows || after == rows + [Clone(row)]
  {
    if KeyIn(t, rows, key) then rows else rows + [Clone(row)]
  }

  /** The view holds a copy of the row under its key. */
  ghost predicate HeldRow(t: Table, row: Row, view: View) {
    L.IdOf(t, row) in view && view[L.IdOf(t, row)] == Clone(row)
  }

  /** The view holds copies of the rows, which have different keys. */
  ghost predicate HeldRows(t: Table, rows: seq<Row>, view: View) {
    && (forall i :: 0 <= i < |rows| ==> HeldRow(t, rows[i], view))
    && L.KeysDistinct(t, rows)
  }

  ghost predicate HeldSlot(tables: seq<Table>, d: Slot, listing: Listing, view: View) {
    FindTable(tables, d.table).Some? && HeldRows(FindTable(tables, d.table).value, RowsOf(listing, d.table), view)
  }

  ghost predicate HeldAll(tables: seq<Table>, defs: seq<Slot>, listing: Listing, view: View) {
    forall d :: d in defs ==> HeldSlot(tables, d, listing, view)
  }

  /** The listing is that of the scenario the plugin runs: consistent, and what it lists for the
      tables with slots is still there. */
  ghost predicate RunsOwn(p: SlotSpec.Plugin, initial: Listing)
    requires WellFormed(p.store.tables)
  {
    Consistent(p.store.tables, initial) && HeldAll(p.store.tables, p.defs, initial, Live(p.store.committed))
  }

  lemma TextKey(t: Table, row: Row)
    requires KeyText(t, row).Some?
    ensures L.KeyOf(t, row) == KeyText(t, row).value
  {
  }

  /** A row that is held under the same key is the same row. */
  lemma SameKeySameRow(t: Table, old_: Row, row: Row, view: View)
    requires HeldRow(t, old_, view) && RowLive(t, view, row) && L.KeyOf(t, old_) == KeyText(t, row).value
    ensures Clone(old_) == Clone(row)
  {
  }

  lemma AddedIsHeld(t: Table, before: seq<Row>, row: Row, view: View)
    requires HeldRows(t, before, view) && RowLive(t, view, row) && !KeyIn(t, before, KeyText(t, row).value)
    ensures HeldRows(t, before + [Clone(row)], view)
  {
    TextKey(t, row);
    L.CloneKeepsKey(t, row);
    CloneTwice(row);
    hide Clone, KeyText;
    var after := before + [Clone(row)];
    forall i | 0 <= i < |after| ensures HeldRow(t, after[i], view) {
      if i < |before| {
        assert HeldRow(t, before[i], view);
      }
    }
    forall i, j | 0 <= i < j < |after| ensures L.KeyOf(t, after[i]) != L.KeyOf(t, after[j]) {
      if j < |before| {
        assert L.KeyOf(t, before[i]) != L.KeyOf(t, before[j]);
      }
    }
  }

  /** The rows are the slot's, and the view holds them. */
  ghost predicate SuitLive(t: Table, slot: Slot, rows: seq<Row>, view: View) {
    Suits(t, slot, rows) && forall i :: 0 <= i < |rows| ==> RowLive(t, view, rows[i])
  }

  /** From the n-th on, the rows have keys that are still open, each its own. */
  ghost predicate StillOpen(t: Table, rows: seq<Row>, n: nat, open: set<string>) {
    && (forall i :: n <= i < |rows| ==> KeyText(t, rows[i]).Some? && KeyText(t, rows[i]).value in open)
    && (forall i, j :: n <= i < j < |rows| ==> KeyText(t, rows[i]) != KeyText(t, rows[j]))
  }

  lemma SuitsOpen(t: Table, slot: Slot, rows: seq<Row>, view: View)
    requires SuitLive(t, slot, rows, view)
    ensures StillOpen(t, rows, 0, OpenKeys(slot))
  {
  }

  /** The first `n` rows have keys of the slot and respect its fixed cells. */
  ghost predicate Belong(t: Table, slot: Slot, rows: seq<Row>, n: nat) {
    n <= |rows| && forall i :: 0 <= i < n ==>
      KeyText(t, rows[i]).Some? && KeyText(t, rows[i]).value in slot.keys && FixedHolds(slot, rows[i])
  }

  lemma BelongsOneMore(t: Table, slot: Slot, rows: seq<Row>, n: nat)
    requires Belong(t, slot, rows, n) && n < |rows|
    requires KeyText(t, rows[n]).Some? && KeyText(t, rows[n]).value in slot.keys && FixedHolds(slot, rows[n])
    ensures Belong(t, slot, rows, n + 1)
  {
  }

  lemma NothingBelongs(t: Table, slot: Slot, rows: seq<Row>)
    ensures Belong(t, slot, rows, 0)
  {
  }

  lemma OpenKeysBelong(slot: Slot)
    ensures forall k :: k in OpenKeys(slot) ==> k in slot.keys
  {
  }

  /** The next row passes every check, and the rows with it are held. */
  lemma NextFits(t: Table, slot: Slot, current: seq<Row>, rows: seq<Row>, n: nat, open: set<string>, view: View)
    requires SuitLive(t, slot, rows, view) && HeldRows(t, current, view) && StillOpen(t, rows, n, open) && n < |rows|
    ensures KeyText(t, rows[n]).Some? && KeyText(t, rows[n]).value in open && FixedHolds(slot, rows[n])
    ensures StillOpen(t, rows, n + 1, open - {KeyText(t, rows[n]).value})
    ensures !Conflicts(t, current, rows[n], KeyText(t, rows[n]).value)
    ensures HeldRows(t, WithRow(t, current, rows[n], KeyText(t, rows[n]).value), view)
  {
    assert RowLive(t, view, rows[n]);
    hide FixedHolds, Clone, L.KeyOf, KeyText, RowLive;
    forall i | 0 <= i < |current| && L.KeyOf(t, current[i]) == KeyText(t, rows[n]).value
      ensures Clone(current[i]) == Clone(rows[n])
    {
      SameKeySameRow(t, current[i], rows[n], view);
    }
    if !KeyIn(t, current, KeyText(t, rows[n]).value) {
      AddedIsHeld(t, current, rows[n], view);
    }
  }

  /** The capture names a slot, and what it offers is what the store holds there. */
  ghost predicate CaptureFits(tables: seq<Table>, defs: seq<Slot>, capture: Capture, s: State) {
    && s.tables == tables
    && (exists i :: 0 <= i < |defs| && Names(capture, defs[i]))
    && (forall i :: 0 <= i < |defs| && Names(capture, defs[i]) ==> FillLive(s, defs[i], capture.candidate))
  }

  lemma FittingCapture(tables: seq<Table>, defs: seq<Slot>, capture: Capture, s: State)
    requires CaptureFits(tables, defs, capture, s)
    ensures capture.candidate.fill.Some? && exists i :: 0 <= i < |defs| && Names(capture, defs[i])
  {
  }

  lemma FittingSlot(tables: seq<Table>, defs: seq<Slot>, capture: Capture, s: State, listing: Listing, i: nat)
    requires CaptureFits(tables, defs, capture, s) && HeldAll(tables, defs, listing, Live(s.committed))
    requires i < |defs| && Names(capture, defs[i])
    ensures FindTable(tables, defs[i].table).Some?
    ensures var t := FindTable(tables, defs[i].table).value;
            && HeldRows(t, RowsOf(listing, defs[i].table), Live(s.committed))
            && SuitLive(t, defs[i], capture.candidate.fill.value.rows, Live(s.committed))
  {
    hide Suits, HeldRows, Live;
    assert defs[i] in defs;
    assert HeldSlot(tables, defs[i], listing, Live(s.committed));
    assert FillLive(s, defs[i], capture.candidate);
  }

  /** Slot ids differ, so the scan finds at most one slot, and its table exists. */
  lemma OnlyOne(tables: seq<Table>, defs: seq<Slot>, capture: Capture, k: nat, i: nat, found: bool)
    requires DefsOk(tables, defs) && i < |defs| && Names(capture, defs[i]) && (found ==> k < i && Names(capture, defs[k]))
    ensures !found && FindTable(tables, defs[i].table).Some?
  {
    assert defs[i] in defs;
  }

  /** Every confirmed capture does. */
  lemma ConfirmedFits(p: SlotSpec.Plugin, captures: seq<Capture>, n: nat, capture: Capture, now: seq<Slot>)
    requires PluginOk(p) && C.Confirmed(p, capture.request, capture.candidate, capture.response)
    requires n <= |captures| && Flags(p.defs, captures[..n], now)
    ensures CaptureFits(p.store.tables, now, capture, p.store)
  {
    var t :| t in p.pending && C.ConfirmedBy(p.pending[t], capture.request, capture.candidate, capture.response);
    assert ContinuationOk(p, t, p.pending[t]);
    var slot := p.pending[t].slot;
    hide FillLive, NamedBy, Inv;
    var k :| 0 <= k < |p.defs| && p.defs[k] == slot;
    assert Names(capture, now[k]);
    forall i | 0 <= i < |now| && Names(capture, now[i]) ensures FillLive(p.store, now[i], capture.candidate) {
      assert p.defs[i] in p.defs && p.defs[i].id == slot.id;
      SlotIdsDiffer(p.store.tables, p.defs, slot, p.defs[i]);
      FlagDoesNotMatter(p.store, slot, now[i].materialized, capture.candidate);
    }
  }

  lemma FlagDoesNotMatter(s: State, slot: Slot, flag: bool, payload: Json)
    requires FillLive(s, slot, payload)
    ensures FillLive(s, slot.(materialized := flag), payload)
  {
  }

  lemma HeldFlagged(tables: seq<Table>, defs: seq<Slot>, now: seq<Slot>, k: nat, before: Listing, after: Listing, view: View)
    requires HeldAll(tables, defs, before, view) && k < |defs| && now == defs[k := defs[k].(materialized := true)]
    requires after == before[defs[k].table := RowsOf(after, defs[k].table)]
    requires HeldSlot(tables, defs[k], after, view)
    ensures HeldAll(tables, now, after, view)
  {
    hide HeldRows;
    OtherTables(defs[k].table, before, after);
    forall d | d in now ensures HeldSlot(tables, d, after, view) {
      var i :| 0 <= i < |now| && now[i] == d;
      assert defs[i] in defs && defs[i].table == d.table;
      assert HeldSlot(tables, defs[i], before, view);
    }
  }

  /** The flags do not matter to what is held. */
  lemma HeldByAnyFlags(tables: seq<Table>, defs: seq<Slot>, captures: seq<Capture>, now: seq<Slot>, listing: Listing, view: View)
    requires Flags(defs, captures, now) && HeldAll(tables, now, listing, view)
    ensures HeldAll(tables, defs, listing, view)
  {
    hide HeldRows, NamedBy;
    forall d | d in defs ensures HeldSlot(tables, d, listing, view) {
      var i :| 0 <= i < |defs| && defs[i] == d;
      assert now[i] in now && now[i].table == d.table;
      assert HeldSlot(tables, now[i], listing, view);
    }
  }

  /** A confirmed capture can be materialised next. */
  lemma NextIsConfirmed(p: SlotSpec.Plugin, initial: Listing, captures: seq<Capture>, n: nat, now: seq<Slot>, current: Listing)
    requires PluginOk(p) && n < |captures|
    requires C.Confirmed(p, captures[n].request, captures[n].candidate, captures[n].response)
    requires Reached(p.store.tables, p.defs, initial, captures, n, now, current)
    ensures CaptureFits(p.store.tables, now, captures[n], p.store)
  {
    hide PluginOk, Flags, Grown, OnlySlotTables, CaptureFits, DefsOk, C.Confirmed;
    ConfirmedFits(p, captures, n, captures[n], now);
  }

  // ---- when the exported scenario is consistent ----

  /** The export adds this row: a capture offers it, and its key is not in the scenario yet. */
  ghost predicate Added(p: SlotSpec.Plugin, captures: seq<Capture>, initial: Listing, name: string, row: Row) {
    && FromCapture(p.defs, captures, name, row) && FindTable(p.store.tables, name).Some?
    && !KeyIn(FindTable(p.store.tables, name).value, RowsOf(initial, name), L.KeyOf(FindTable(p.store.tables, name).value, row))
  }

  ghost predicate InExport(p: SlotSpec.Plugin, captures: seq<Capture>, initial: Listing, name: string, row: Row) {
    row in RowsOf(initial, name) || Added(p, captures, initial, name, row)
  }

  ghost predicate FindsReference(p: SlotSpec.Plugin, captures: seq<Capture>, initial: Listing, fk: ForeignKey, row: Row)
    requires |fk.columns| == |fk.references|
  {
    exists other :: InExport(p, captures, initial, fk.table, other) && Refers(fk, row, other)
  }

  /** Every foreign key of an added row finds its row among the scenario's and the added ones. */
  ghost predicate ReferencesFound(p: SlotSpec.Plugin, captures: seq<Capture>, initial: Listing)
    requires WellFormed(p.store.tables)
  {
    forall t, fk, row {:trigger t in p.store.tables, FindsReference(p, captures, initial, fk, row)} ::
      t in p.store.tables && fk in t.foreignKeys && Added(p, captures, initial, t.name, row) ==>
      FindsReference(p, captures, initial, fk, row)
  }

  /** When a run can export its own scenario. */
  ghost predicate Exportable(p: SlotSpec.Plugin, captures: seq<Capture>, initial: Listing)
    requires WellFormed(p.store.tables)
  {
    captures != [] && AllConfirmed(p, captures) && ReferencesFound(p, captures, initial)
  }

  /** The exported rows of a table are exactly these. */
  lemma ExportedRows(p: SlotSpec.Plugin, captures: seq<Capture>, initial: Listing, current: Listing, t: Table, row: Row)
    requires WellFormed(p.store.tables) && DefsOk(p.store.tables, p.defs) && t in p.store.tables
    requires Grown(p.defs, captures, initial, current) && HeldAll(p.store.tables, p.defs, current, Live(p.store.committed))
    ensures row in RowsOf(current, t.name) <==> InExport(p, captures, initial, t.name, row)
  {
    FindTableFinds(p.store.tables, t);
    if row in RowsOf(current, t.name) {
      ListedIsInExport(p, captures, initial, current, t, row);
    }
    if Added(p, captures, initial, t.name, row) {
      AddedIsListed(p, captures, initial, current, t, row);
    }
    if row in RowsOf(initial, t.name) {
      var i :| 0 <= i < |RowsOf(initial, t.name)| && RowsOf(initial, t.name)[i] == row;
      assert RowsOf(current, t.name)[i] == row;
    }
  }

  lemma ListedIsInExport(p: SlotSpec.Plugin, captures: seq<Capture>, initial: Listing, current: Listing, t: Table, row: Row)
    requires FindTable(p.store.tables, t.name) == Some(t) && row in RowsOf(current, t.name)
    requires Grown(p.defs, captures, initial, current) && HeldAll(p.store.tables, p.defs, current, Live(p.store.committed))
    ensures InExport(p, captures, initial, t.name, row)
  {
    var rows := RowsOf(current, t.name);
    var i :| 0 <= i < |rows| && rows[i] == row;
    if i >= |RowsOf(initial, t.name)| {
      assert FromCapture(p.defs, captures, t.name, row);
      var c, d :| 0 <= c < |captures| && d in p.defs && Offers(captures[c], d, t.name, row);
      assert HeldSlot(p.store.tables, d, current, Live(p.store.committed));
      hide FromCapture, HeldRow, L.KeyOf;
      forall j | 0 <= j < |RowsOf(initial, t.name)| ensures L.KeyOf(t, RowsOf(initial, t.name)[j]) != L.KeyOf(t, row) {
        assert rows[j] == RowsOf(initial, t.name)[j];
      }
    } else {
      assert row == RowsOf(initial, t.name)[i];
    }
  }

  lemma AddedIsListed(p: SlotSpec.Plugin, captures: seq<Capture>, initial: Listing, current: Listing, t: Table, row: Row)
    requires FindTable(p.store.tables, t.name) == Some(t) && Added(p, captures, initial, t.name, row)
    requires Grown(p.defs, captures, initial, current)
    ensures row in RowsOf(current, t.name)
  {
    var c, d :| 0 <= c < |captures| && d in p.defs && Offers(captures[c], d, t.name, row);
    var offered := captures[c].candidate.fill.value.rows;
    var j :| 0 <= j < |offered| && row == Clone(offered[j]);
    var rows := RowsOf(current, t.name);
    assert Shows(p.defs, captures[c], current);
    assert Present(rows, offered[j]);
    var i :| 0 <= i < |rows| && Clone(rows[i]) == Clone(offered[j]);
    L.CloneKeepsKey(t, rows[i]);
    L.CloneKeepsKey(t, offered[j]);
    assert L.KeyOf(t, rows[i]) == L.KeyOf(t, row);
    if i >= |RowsOf(initial, t.name)| {
      assert FromCapture(p.defs, captures, t.name, rows[i]);
      OfferedIsClone(p.defs, captures, t.name, rows[i]);
    }
  }

  lemma OfferedIsClone(defs: seq<Slot>, captures: seq<Capture>, name: string, row: Row)
    requires FromCapture(defs, captures, name, row)
    ensures Clone(row) == row
  {
    var c, d :| 0 <= c < |captures| && d in defs && Offers(captures[c], d, name, row);
    var j :| 0 <= j < |captures[c].candidate.fill.value.rows| && row == Clone(captures[c].candidate.fill.value.rows[j]);
    CloneTwice(captures[c].candidate.fill.value.rows[j]);
  }

  lemma ClashOfClones(t: Table, k: nat, a: Row, b: Row)
    requires WellFormedTable(t) && RowFits(t, a) && RowFits(t, b) && k < |Keys(t)|
    ensures Clash(t, k, a, b) ==> Clash(t, k, Clone(a), Clone(b))
  {
    SameColumns(t, a, b);
    if Clash(t, k, a, b) {
      ClonesAgree(a, b, Keys(t)[k]);
      hide Project, Clone;
    }
  }

  lemma SameColumns(t: Table, a: Row, b: Row)
    requires WellFormedTable(t) && RowFits(t, a) && RowFits(t, b)
    ensures a.Keys == b.Keys
  {
    NoMoreColumns(t, a, b);
    NoMoreColumns(t, b, a);
  }

  lemma NoMoreColumns(t: Table, a: Row, b: Row)
    requires WellFormedTable(t) && RowFits(t, a) && RowFits(t, b)
    ensures a.Keys <= b.Keys
  {
    FittingRowColumns(t, a);
    hide WellFormedTable, Fits, TooLong;
    forall c | c in a ensures c in b {
      var i :| 0 <= i < |t.columns| && t.columns[i].column.name == c;
      assert CellFits(t.columns[i], b);
    }
  }

  lemma ClonesAgree(a: Row, b: Row, names: seq<string>)
    requires a.Keys == b.Keys && Project(a, names) == Project(b, names)
    ensures Project(Clone(a), names) == Project(Clone(b), names)
    ensures HasNull(Clone(a), names) == HasNull(a, names) && HasNull(Clone(b), names) == HasNull(b, names)
  {
    forall i | 0 <= i < |names|
      ensures Cell(Clone(a), names[i]) == Cell(Clone(b), names[i])
      ensures Cell(Clone(a), names[i]).IsNull() == Cell(a, names[i]).IsNull()
      ensures Cell(Clone(b), names[i]).IsNull() == Cell(b, names[i]).IsNull()
    {
      assert Project(a, names)[i] == Project(b, names)[i];
    }
  }

  /** Held rows satisfy the constraints of their table, because the committed rows do. */
  lemma HeldIsConsistent(tables: seq<Table>, t: Table, rows: seq<Row>, view: View)
    requires WellFormed(tables) && FindTable(tables, t.name) == Some(t) && ViewConsistent(tables, view) && HeldRows(t, rows, view)
    requires forall i :: 0 <= i < |rows| ==> RowFits(t, rows[i])
    ensures TableConsistent(t, rows)
  {
    HeldSize(t, rows, view);
    hide Clone, L.KeyOf, RowFits;
    forall i, j, k | 0 <= i < j < |rows| && 0 <= k < |Keys(t)| ensures !Clash(t, k, rows[i], rows[j]) {
      assert HeldRow(t, rows[i], view) && HeldRow(t, rows[j], view);
      var a, b := L.IdOf(t, rows[i]), L.IdOf(t, rows[j]);
      assert t in tables && a != b && a.table == t.name == b.table;
      assert !Clash(t, k, view[a], view[b]);
      ClashOfClones(t, k, rows[i], rows[j]);
    }
  }

  lemma HeldSize(t: Table, rows: seq<Row>, view: View)
    requires HeldRows(t, rows, view) && SizesBounded(view)
    ensures |rows| <= MAX_ROWS
  {
    if rows != [] {
      var keys := seq(|rows|, i requires 0 <= i < |rows| => L.KeyOf(t, rows[i]));
      ListedIds(view, t.name, keys);
      var ids := set i | 0 <= i < |keys| :: Id(t.name, keys[i]);
      assert HeldRow(t, rows[0], view);
      forall id | id in ids ensures id in IdsOf(view, t.name) {
        var i :| 0 <= i < |keys| && id == Id(t.name, keys[i]);
        assert HeldRow(t, rows[i], view);
      }
      Fewer(ids, IdsOf(view, t.name));
      assert L.IdOf(t, rows[0]) in view;
    }
  }

  lemma Fewer(a: set<Id>, b: set<Id>)
    requires a <= b
    ensures |a| <= |b|
  {
    assert b == a + (b - a);
  }

  /** Every table of the exported scenario satisfies its own constraints. */
  lemma ExportedTables(p: SlotSpec.Plugin, captures: seq<Capture>, initial: Listing, current: Listing)
    requires PluginOk(p) && Consistent(p.store.tables, initial)
    requires Grown(p.defs, captures, initial, current) && HeldAll(p.store.tables, p.defs, current, Live(p.store.committed))
    requires AllConfirmed(p, captures) && OnlySlotTables(p.defs, initial, current)
    ensures TablesConsistent(p.store.tables, current)
  {
    hide SlotsOk, AllConfirmed, ReferencesConsistent, HeldRows;
    forall name | name in current
      ensures FindTable(p.store.tables, name).Some? && TableConsistent(FindTable(p.store.tables, name).value, current[name])
    {
      ExportedTable(p, captures, initial, current, name);
    }
  }

  lemma ExportedTable(p: SlotSpec.Plugin, captures: seq<Capture>, initial: Listing, current: Listing, name: string)
    requires PluginOk(p) && Consistent(p.store.tables, initial) && name in current
    requires Grown(p.defs, captures, initial, current) && HeldAll(p.store.tables, p.defs, current, Live(p.store.committed))
    requires AllConfirmed(p, captures) && (name in initial || exists d :: d in p.defs && d.table == name)
    ensures FindTable(p.store.tables, name).Some? && TableConsistent(FindTable(p.store.tables, name).value, current[name])
  {
    if d :| d in p.defs && d.table == name {
      assert HeldSlot(p.store.tables, d, current, Live(p.store.committed));
      var t := FindTable(p.store.tables, name).value;
      forall i | 0 <= i < |current[name]| ensures RowFits(t, current[name][i]) {
        ExportedRowFits(p, captures, initial, current, t, i);
      }
      HeldIsConsistent(p.store.tables, t, current[name], Live(p.store.committed));
    } else {
      hide SlotsOk;
      UntouchedTable(p.defs, captures, initial, current, name);
    }
  }

  lemma UntouchedTable(defs: seq<Slot>, captures: seq<Capture>, initial: Listing, current: Listing, name: string)
    requires Grown(defs, captures, initial, current) && forall d :: d in defs ==> d.table != name
    ensures RowsOf(current, name) == RowsOf(initial, name)
  {
    assert |RowsOf(initial, name)| < |RowsOf(current, name)| ==>
             FromCapture(defs, captures, name, RowsOf(current, name)[|RowsOf(initial, name)|]);
  }

  lemma ExportedRowFits(p: SlotSpec.Plugin, captures: seq<Capture>, initial: Listing, current: Listing, t: Table, i: nat)
    requires PluginOk(p) && Consistent(p.store.tables, initial) && FindTable(p.store.tables, t.name) == Some(t)
    requires Grown(p.defs, captures, initial, current) && AllConfirmed(p, captures) && i < |RowsOf(current, t.name)|
    ensures RowFits(t, RowsOf(current, t.name)[i])
  {
    var row := RowsOf(current, t.name)[i];
    if i < |RowsOf(initial, t.name)| {
      hide SlotsOk, Inv;
      assert row == RowsOf(initial, t.name)[i];
    } else {
      AppendedIsCommitted(p, captures, t.name, row);
      CommittedFits(p.store, t, row);
    }
  }

  lemma CommittedFits(s: State, t: Table, row: Row)
    requires Inv(s) && FindTable(s.tables, t.name) == Some(t) && Committed(s, t.name, row)
    ensures RowFits(t, row)
  {
    var key :| Id(t.name, key) in Live(s.committed) && Live(s.committed)[Id(t.name, key)] == row;
    assert Tidy(s.tables, Id(t.name, key), Live(s.committed)[Id(t.name, key)]);
  }

  lemma SameReference(p: SlotSpec.Plugin, captures: seq<Capture>, initial: Listing, current: Listing, fk: ForeignKey, row: Row)
    requires WellFormed(p.store.tables) && DefsOk(p.store.tables, p.defs) && |fk.columns| == |fk.references|
    requires Grown(p.defs, captures, initial, current) && HeldAll(p.store.tables, p.defs, current, Live(p.store.committed))
    requires forall name :: name in current ==> FindTable(p.store.tables, name).Some?
    ensures HasReference(current, fk, row) <==> FindsReference(p, captures, initial, fk, row)
  {
    hide Refers, Grown, HeldAll, Added;
    if HasReference(current, fk, row) {
      var j :| 0 <= j < |RowsOf(current, fk.table)| && Refers(fk, row, RowsOf(current, fk.table)[j]);
      ExportedRows(p, captures, initial, current, FindTable(p.store.tables, fk.table).value, RowsOf(current, fk.table)[j]);
    }
    if FindsReference(p, captures, initial, fk, row) {
      var other :| InExport(p, captures, initial, fk.table, other) && Refers(fk, row, other);
      InExportIsListed(p, captures, initial, current, fk.table, other);
      var j :| 0 <= j < |RowsOf(current, fk.table)| && RowsOf(current, fk.table)[j] == other;
      assert Refers(fk, row, RowsOf(current, fk.table)[j]);
    }
  }

  lemma InExportIsListed(p: SlotSpec.Plugin, captures: seq<Capture>, initial: Listing, current: Listing, name: string, row: Row)
    requires WellFormed(p.store.tables) && DefsOk(p.store.tables, p.defs) && InExport(p, captures, initial, name, row)
    requires Grown(p.defs, captures, initial, current) && HeldAll(p.store.tables, p.defs, current, Live(p.store.committed))
    ensures row in RowsOf(current, name)
  {
    if row in RowsOf(initial, name) {
      var i :| 0 <= i < |RowsOf(initial, name)| && RowsOf(initial, name)[i] == row;
      assert RowsOf(current, name)[i] == row;
    } else {
      AddedIsListed(p, captures, initial, current, FindTable(p.store.tables, name).value, row);
    }
  }

  /** The exported scenario is consistent exactly when every foreign key of an added row finds its
      row: nothing else can go wrong. */
  lemma ExportConsistentIff(p: SlotSpec.Plugin, captures: seq<Capture>, initial: Listing, current: Listing)
    requires PluginOk(p) && Consistent(p.store.tables, initial)
    requires Grown(p.defs, captures, initial, current) && HeldAll(p.store.tables, p.defs, current, Live(p.store.committed))
    requires AllConfirmed(p, captures) && OnlySlotTables(p.defs, initial, current)
    ensures WellFormed(p.store.tables)
    ensures Consistent(p.store.tables, current) <==> ReferencesFound(p, captures, initial)
  {
    ExportedTables(p, captures, initial, current);
    hide SlotsOk, AllConfirmed, Grown, HeldAll, OnlySlotTables, Added, TableConsistent, HasReference, FindsReference;
    var tables := p.store.tables;
    if ReferencesFound(p, captures, initial) {
      forall t | t in tables ensures RowsRefer(t, current) {
        RowsReferIf(p, captures, initial, current, t);
      }
    }
    if Consistent(tables, current) {
      forall t, fk, row | t in tables && fk in t.foreignKeys && Added(p, captures, initial, t.name, row)
        ensures FindsReference(p, captures, initial, fk, row)
      {
        AddedRefers(p, captures, initial, current, t, fk, row);
      }
    }
  }

  lemma AddedRefers(p: SlotSpec.Plugin, captures: seq<Capture>, initial: Listing, current: Listing,
                    t: Table, fk: ForeignKey, row: Row)
    requires WellFormed(p.store.tables) && DefsOk(p.store.tables, p.defs) && Consistent(p.store.tables, current)
    requires Grown(p.defs, captures, initial, current) && HeldAll(p.store.tables, p.defs, current, Live(p.store.committed))
    requires t in p.store.tables && fk in t.foreignKeys && Added(p, captures, initial, t.name, row)
    ensures FindsReference(p, captures, initial, fk, row)
  {
    hide Grown, HeldAll, Added, TableConsistent, HasReference, FindsReference;
    assert RowsRefer(t, current);
    InExportIsListed(p, captures, initial, current, t.name, row);
    var i :| 0 <= i < |RowsOf(current, t.name)| && RowsOf(current, t.name)[i] == row;
    assert HasReference(current, fk, RowsOf(current, t.name)[i]);
    SameReference(p, captures, initial, current, fk, row);
  }

  lemma RowsReferIf(p: SlotSpec.Plugin, captures: seq<Capture>, initial: Listing, current: Listing, t: Table)
    requires WellFormed(p.store.tables) && DefsOk(p.store.tables, p.defs) && t in p.store.tables
    requires Consistent(p.store.tables, initial) && ReferencesFound(p, captures, initial)
    requires Grown(p.defs, captures, initial, current) && HeldAll(p.store.tables, p.defs, current, Live(p.store.committed))
    requires forall name :: name in current ==> FindTable(p.store.tables, name).Some?
    ensures RowsRefer(t, current)
  {
    hide TablesConsistent, HeldAll;
    forall i, fk | 0 <= i < |RowsOf(current, t.name)| && fk in t.foreignKeys
      ensures HasReference(current, fk, RowsOf(current, t.name)[i])
    {
      var row := RowsOf(current, t.name)[i];
      ExportedRows(p, captures, initial, current, t, row);
      SameReference(p, captures, initial, current, fk, row);
      if row in RowsOf(initial, t.name) {
        InitialRefers(p.store.tables, p.defs, captures, initial, current, t, fk, row);
      }
    }
  }

  lemma InitialRefers(tables: seq<Table>, defs: seq<Slot>, captures: seq<Capture>, initial: Listing, current: Listing,
                      t: Table, fk: ForeignKey, row: Row)
    requires WellFormed(tables) && Consistent(tables, initial) && Grown(defs, captures, initial, current)
    requires t in tables && fk in t.foreignKeys && row in RowsOf(initial, t.name)
    ensures HasReference(current, fk, row)
  {
    hide TablesConsistent, FromCapture, Shows;
    assert RowsRefer(t, initial);
    var i :| 0 <= i < |RowsOf(initial, t.name)| && RowsOf(initial, t.name)[i] == row;
    assert HasReference(initial, fk, RowsOf(initial, t.name)[i]);
    var j :| 0 <= j < |RowsOf(initial, fk.table)| && Refers(fk, row, RowsOf(initial, fk.table)[j]);
    assert RowsOf(current, fk.table)[j] == RowsOf(initial, fk.table)[j];
  }
}
