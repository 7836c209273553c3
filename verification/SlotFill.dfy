/** When a candidate's rows fill a slot, and what that does to the store. */
module SlotFill {
  import opened Values
  import opened Schema
  import opened Plans
  import opened StoreSpec
  import opened StoreInvariant
  import opened StoreRuns
  import opened AutoIncrement
  import opened Api

  // ---- the rows of a candidate against the keys of the slot ----

  function KeyText(t: Table, row: Row): Option<string> {
    Cell(row, PrimaryKey(t)).AsString()
  }

  /** The row has a readable key among the open ones, nobody holds it yet, and the fixed cells agree. */
  predicate RowTakes(t: Table, slot: Slot, open: set<string>, row: Row, view: View) {
    && KeyText(t, row).Some? && KeyText(t, row).value in open
    && Id(t.name, KeyText(t, row).value) !in view && FixedHolds(slot, row)
  }

  /** The rows are taken exactly when every row takes a key and no two rows take the same one. */
  predicate RowsTake(t: Table, slot: Slot, open: set<string>, rows: seq<Row>, view: View) {
    && (forall i :: 0 <= i < |rows| ==> RowTakes(t, slot, open, rows[i], view))
    && (forall i, j :: 0 <= i < j < |rows| ==> KeyText(t, rows[i]) != KeyText(t, rows[j]))
  }

  lemma {:induction false} FillRowsIff(t: Table, slot: Slot, open: set<string>, rows: seq<Row>, view: View)
    ensures FillRows(t, slot, open, rows, view).Some? <==> RowsTake(t, slot, open, rows, view)
    decreases |rows|
  {
    if rows != [] && RowTakes(t, slot, open, rows[0], view) {
      var key := KeyText(t, rows[0]).value;
      var id := Id(t.name, key);
      FillRowsIff(t, slot, open - {key}, rows[1..], view[id := Clone(rows[0])]);
      TakeOne(t, slot, open, rows, view);
    }
  }

  lemma TakeOne(t: Table, slot: Slot, open: set<string>, rows: seq<Row>, view: View)
    requires rows != [] && RowTakes(t, slot, open, rows[0], view)
    ensures var key := KeyText(t, rows[0]).value;
            RowsTake(t, slot, open, rows, view)
            <==> RowsTake(t, slot, open - {key}, rows[1..], view[Id(t.name, key) := Clone(rows[0])])
  {
    var key := KeyText(t, rows[0]).value;
    var rest, open', view' := rows[1..], open - {key}, view[Id(t.name, key) := Clone(rows[0])];
    if RowsTake(t, slot, open', rest, view') {
      forall i | 0 <= i < |rows| ensures RowTakes(t, slot, open, rows[i], view) {
        if i > 0 {
          assert RowTakes(t, slot, open', rest[i - 1], view');
        }
      }
      forall i, j | 0 <= i < j < |rows| ensures KeyText(t, rows[i]) != KeyText(t, rows[j]) {
        assert RowTakes(t, slot, open', rest[j - 1], view');
        if i > 0 {
          assert KeyText(t, rest[i - 1]) != KeyText(t, rest[j - 1]);
        }
      }
    }
  }

  /** Each row is there, cloned, under its own key. */
  ghost predicate Cloned(t: Table, rows: seq<Row>, changes: Changes) {
    forall i :: 0 <= i < |rows| ==> ClonedRow(t, rows[i], changes)
  }

  ghost predicate ClonedRow(t: Table, row: Row, changes: Changes) {
    && KeyText(t, row).Some? && Id(t.name, KeyText(t, row).value) in changes
    && changes[Id(t.name, KeyText(t, row).value)] == Some(Clone(row))
  }

  /** What is taken: each row, cloned, under its own key. */
  lemma {:induction false} TakenRows(t: Table, slot: Slot, open: set<string>, rows: seq<Row>, view: View)
    requires FillRows(t, slot, open, rows, view).Some?
    ensures var changes := FillRows(t, slot, open, rows, view).value;
            && |changes.Keys| == |rows| && Cloned(t, rows, changes)
            && forall id :: id in changes ==> id.table == t.name && id.key in open && id !in view && changes[id].Some?
    decreases |rows|
  {
    if rows != [] {
      var key := KeyText(t, rows[0]).value;
      var id := Id(t.name, key);
      TakenRows(t, slot, open - {key}, rows[1..], view[id := Clone(rows[0])]);
      var rest := FillRows(t, slot, open - {key}, rows[1..], view[id := Clone(rows[0])]).value;
      var changes := FillRows(t, slot, open, rows, view).value;
      assert changes.Keys == rest.Keys + {id};
      forall i | 0 <= i < |rows| ensures ClonedRow(t, rows[i], changes) {
        if i > 0 {
          assert ClonedRow(t, rows[1..][i - 1], rest);
        }
      }
    }
  }

  lemma {:induction false} OpenKeysSize(keys: seq<string>)
    ensures |set k | k in keys| <= |keys|
  {
    if keys != [] {
      OpenKeysSize(keys[1..]);
      assert (set k | k in keys) == (set k | k in keys[1..]) + {keys[0]};
    }
  }

  lemma {:induction false} KeyTextsOfIds(ids: set<Id>, name: string) returns (texts: set<string>)
    requires forall id :: id in ids ==> id.table == name
    ensures |texts| == |ids| && forall k :: k in texts <==> Id(name, k) in ids
    decreases |ids|
  {
    texts := {};
    if ids != {} {
      var id :| id in ids;
      var rest := KeyTextsOfIds(ids - {id}, name);
      texts := rest + {id.key};
      assert forall k :: Id(name, k) in ids <==> k == id.key || Id(name, k) in ids - {id};
    }
  }

  /** As many rows as keys: a fill that succeeds uses every key of the slot. */
  lemma TakenKeys(t: Table, slot: Slot, rows: seq<Row>, view: View)
    requires |rows| == |slot.keys| && FillRows(t, slot, OpenKeys(slot), rows, view).Some?
    ensures var changes := FillRows(t, slot, OpenKeys(slot), rows, view).value;
            && (forall k :: k in slot.keys ==> Id(t.name, k) in changes)
            && |OpenKeys(slot)| == |slot.keys|
  {
    var changes := FillRows(t, slot, OpenKeys(slot), rows, view).value;
    TakenRows(t, slot, OpenKeys(slot), rows, view);
    OpenKeysSize(slot.keys);
    var texts := KeyTextsOfIds(changes.Keys, t.name);
    assert texts <= OpenKeys(slot);
    SmallerSubset(texts, OpenKeys(slot));
    assert forall k :: k in slot.keys ==> k in texts;
  }

  lemma SmallerSubset(a: set<string>, b: set<string>)
    requires a <= b && |b| <= |a|
    ensures a == b
  {
    assert b == a + (b - a);
  }

  // ---- the store after a fill ----

  ghost predicate KeysLive(s: State, slot: Slot) {
    forall k :: k in slot.keys ==> Id(slot.table, k) in Live(s.committed)
  }

  /** The rows are live, cloned, under their own keys. */
  ghost predicate RowsLive(s: State, slot: Slot, rows: seq<Row>) {
    FindTable(s.tables, slot.table).Some? &&
    forall i :: 0 <= i < |rows| ==> RowLive(FindTable(s.tables, slot.table).value, Live(s.committed), rows[i])
  }

  ghost predicate RowLive(t: Table, view: View, row: Row) {
    && KeyText(t, row).Some? && Id(t.name, KeyText(t, row).value) in view
    && view[Id(t.name, KeyText(t, row).value)] == Clone(row)
  }

  /** The rows are the slot's: as many as keys, each under a key of its own, fixed cells respected. */
  ghost predicate Suits(t: Table, slot: Slot, rows: seq<Row>) {
    && |rows| == |slot.keys|
    && (forall i :: 0 <= i < |rows| ==>
          KeyText(t, rows[i]).Some? && KeyText(t, rows[i]).value in slot.keys && FixedHolds(slot, rows[i]))
    && (forall i, j :: 0 <= i < j < |rows| ==> KeyText(t, rows[i]) != KeyText(t, rows[j]))
  }

  /** The slot holds exactly what the candidate offered for it. */
  ghost predicate FillLive(s: State, slot: Slot, payload: Json) {
    && payload.fill.Some? && payload.fill.value.slotId == slot.id
    && KeysLive(s, slot) && RowsLive(s, slot, payload.fill.value.rows)
    && Suits(FindTable(s.tables, slot.table).value, slot, payload.fill.value.rows)
  }

  /** Rows stay as they are, and new ones may appear. */
  ghost predicate Grows(a: View, b: View) {
    forall id :: id in a ==> id in b && b[id] == a[id]
  }

  lemma FillShape(s: State, slot: Slot, rows: seq<Row>) returns (t: Table, changes: Changes)
    requires WellFormed(s.tables) && Fill(s, slot, rows).1.Done?
    ensures t.name == slot.table && |rows| == |slot.keys| && FindTable(s.tables, slot.table) == Some(t)
    ensures FillRows(t, slot, OpenKeys(slot), rows, Live(s.committed)) == Some(changes)
    ensures Fill(s, slot, rows).0 == Publish(s, changes)
  {
    t := FindTable(s.tables, slot.table).value;
    changes := FillRows(t, slot, OpenKeys(slot), rows, Live(s.committed)).value;
  }

  /** What a fill does to the committed view. */
  ghost predicate Filling(slot: Slot, a: View, b: View) {
    && (forall k :: k in slot.keys ==> Id(slot.table, k) in b && Id(slot.table, k) !in a)
    && Grows(a, b)
    && (forall id :: id in b && id !in a ==> id.table == slot.table && id.key in slot.keys)
  }

  lemma OverlayFills(slot: Slot, a: View, changes: Changes)
    requires forall id :: id in changes ==> id.table == slot.table && id.key in OpenKeys(slot) && id !in a && changes[id].Some?
    requires forall k :: k in slot.keys ==> Id(slot.table, k) in changes
    ensures Filling(slot, a, Overlay(a, changes))
  {
  }

  lemma OverlayHolds(t: Table, rows: seq<Row>, a: View, changes: Changes)
    requires Cloned(t, rows, changes)
    ensures forall i :: 0 <= i < |rows| ==> RowLive(t, Overlay(a, changes), rows[i])
  {
    forall i | 0 <= i < |rows| ensures RowLive(t, Overlay(a, changes), rows[i]) {
      assert ClonedRow(t, rows[i], changes);
    }
  }

  lemma TakenSuit(t: Table, slot: Slot, rows: seq<Row>, view: View)
    requires |rows| == |slot.keys| && RowsTake(t, slot, OpenKeys(slot), rows, view)
    ensures Suits(t, slot, rows)
  {
  }

  /** A slot is filled only when none of its keys is live, and then all of them are; nothing else
      changes in the committed rows, and no session is touched. */
  lemma FillIsComplete(s: State, slot: Slot, rows: seq<Row>)
    requires WellFormed(s.tables) && Fill(s, slot, rows).1.Done?
    ensures var s' := Fill(s, slot, rows).0;
            && Filling(slot, Live(s.committed), Live(s'.committed)) && |OpenKeys(slot)| == |slot.keys|
            && RowsLive(s', slot, rows) && Suits(FindTable(s'.tables, slot.table).value, slot, rows)
            && s'.sessions == s.sessions && s'.tables == s.tables && s'.version == s.version + 1
  {
    hide Fill, FillRows, Filling, Live, Overlay, Install, OpenKeys, WellFormed, Cloned, RowLive, FindTable, Suits, RowsTake;
    var t, changes := FillShape(s, slot, rows);
    FillRowsIff(t, slot, OpenKeys(slot), rows, Live(s.committed));
    TakenSuit(t, slot, rows, Live(s.committed));
    TakenRows(t, slot, OpenKeys(slot), rows, Live(s.committed));
    TakenKeys(t, slot, rows, Live(s.committed));
    LiveOfInstall(s.committed, changes, s.version + 1);
    OverlayFills(slot, Live(s.committed), changes);
    OverlayHolds(t, rows, Live(s.committed), changes);
  }

  /** A slot with a live key, or with a repeated key, cannot be filled by any candidate. */
  lemma BlockedSlot(s: State, slot: Slot, rows: seq<Row>)
    requires WellFormed(s.tables)
    requires (exists k :: k in slot.keys && Id(slot.table, k) in Live(s.committed)) || |OpenKeys(slot)| < |slot.keys|
    ensures Fill(s, slot, rows).1.Aborted? && Fill(s, slot, rows).0 == s
  {
    if Fill(s, slot, rows).1.Done? {
      FillIsComplete(s, slot, rows);
    }
  }

  // ---- tables no statement writes ----

  /** No session has pending writes in the table. */
  ghost predicate Unwritten(s: State, name: string) {
    forall sid, id: Id :: sid in s.sessions && id in s.sessions[sid].writes ==> id.table != name
  }

  ghost predicate SameRows(a: View, b: View, name: string) {
    forall id: Id :: id.table == name ==> (id in a <==> id in b) && (id in a ==> a[id] == b[id])
  }

  predicate Spares(e: Event, name: string) {
    !e.DoFill? && (e.DoExecute? && e.plan.kind != Select ==> e.plan.table != name)
  }

  ghost predicate Avoids(changes: Changes, name: string) {
    forall id :: id in changes ==> id.table != name
  }

  lemma ChangesAvoid(s: State, e: Event, name: string)
    requires WellFormed(s.tables) && e.DoExecute? && Spares(e, name) && Step(s, e).1.Done?
    ensures Avoids(ChangesOf(s, e), name)
  {
    if e.plan.kind == Select {
      ExecuteEnters(s, e);
    } else if FindTable(s.tables, e.plan.table).Some? {
      var t := FindTable(s.tables, e.plan.table).value;
      if OutcomeOf(s, e, t).Write? {
        ChangedTable(t, e.plan, e.params, ViewOf(s, e.sid), NextId(s, t.name));
      }
    }
  }

  lemma PublishedAvoid(s: State, e: Event, name: string)
    requires WellFormed(s.tables) && Spares(e, name) && Unwritten(s, name)
    ensures Avoids(Shown(Published(s, e, Step(s, e).1)), name)
  {
    if e.DoExecute? && Step(s, e).1.Done? {
      ChangesAvoid(s, e, name);
    }
  }

  /** Steps of sessions leave the rows of a never-written table alone. */
  lemma SparedRows(s: State, e: Event, name: string)
    requires WellFormed(s.tables) && Spares(e, name) && Unwritten(s, name)
    ensures SameRows(Live(s.committed), Live(Step(s, e).0.committed), name)
  {
    PublishedAvoid(s, e, name);
    StepPublishes(s, e);
    LiveOfInstall(s.committed, Shown(Published(s, e, Step(s, e).1)), s.version + 1);
  }

  lemma SparedWrites(s: State, e: Event, name: string)
    requires WellFormed(s.tables) && Spares(e, name) && Unwritten(s, name)
    ensures Unwritten(Step(s, e).0, name)
  {
    var s' := Step(s, e).0;
    forall sid, id: Id | sid in s'.sessions && id in s'.sessions[sid].writes ensures id.table != name {
      StepKeepsOwnWrites(s, e, sid);
      if Buffers(s, e, Step(s, e).1, sid) {
        ChangesAvoid(s, e, name);
      }
      assert id in SessionOf(s', sid).writes;
    }
  }
}
