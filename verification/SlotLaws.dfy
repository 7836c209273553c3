/** What each request finds at the right plugin: waiting, filling, closing, stopping. */
module SlotLaws {
  import opened Values
  import opened Schema
  import opened Plans
  import opened StoreSpec
  import opened StoreInvariant
  import opened Selection
  import opened SlotFill
  import opened Api
  import opened SlotSpec
  import opened SlotInvariant
  import opened SlotRuns

  // ---- a connection closes, the plugin stops ----

  /** Open continuations of the connection end cancelled, all others stay exactly as they were. */
  ghost predicate CancelsOnly(before: map<nat, Continuation>, after: map<nat, Continuation>, concerned: Continuation -> bool) {
    after.Keys == before.Keys && forall t :: t in before ==>
      after[t] == if before[t].done == 0 && concerned(before[t]) then before[t].(done := 1, err := Some(CANCELLED)) else before[t]
  }

  /** Closing a connection cancels its own open continuations and nobody else's, ends its session and
      no other, and changes no committed row. */
  lemma DisconnectMeans(r: Run, i: nat)
    requires IsRun(r) && i < |r.events| && r.events[i].DoDisconnect?
    ensures var p, q, connection := r.states[i], r.states[i + 1], r.events[i].connection;
            && CancelsOnly(p.pending, q.pending, (c: Continuation) => c.request.connection == connection)
            && q.closed == p.closed + {connection} && q.running == p.running && q.slots == p.slots
            && q.store == p.store.(sessions := p.store.sessions - {connection})
  {
    assert Follows(r, i);
  }

  /** Stop cancels every open continuation and leaves the rows alone. */
  lemma StopMeans(r: Run, i: nat)
    requires IsRun(r) && i < |r.events| && r.events[i].DoStop?
    ensures var p, q := r.states[i], r.states[i + 1];
            && CancelsOnly(p.pending, q.pending, (c: Continuation) => true)
            && !q.running && q.closed == p.closed && q.slots == p.slots && q.store == p.store
  {
    assert Follows(r, i);
  }

  // ---- a SELECT comes to a slot ----

  /** The slot's current continuation succeeded, or is waited for and not overdue. */
  ghost predicate Stands(p: Plugin, slot: Slot, now: int) {
    && slot.id in p.slots && p.slots[slot.id] in p.pending
    && var c := p.pending[p.slots[slot.id]];
       if c.done > 0 then c.err.None? else now < c.request.deadline
  }

  ghost predicate Overdue(p: Plugin, slot: Slot, now: int, t: nat) {
    && t in p.pending && slot.id in p.slots && p.slots[slot.id] == t
    && p.pending[t].done == 0 && p.pending[t].request.deadline <= now
  }

  /** An overdue continuation of the slot ends with DEADLINE_EXCEEDED, the others stay. */
  ghost predicate OverdueEnds(p: Plugin, q: Plugin, slot: Slot, now: int) {
    forall t :: t in p.pending ==>
      t in q.pending
      && q.pending[t] == if Overdue(p, slot, now, t) then p.pending[t].(done := 1, err := Some(DEADLINE_EXCEEDED)) else p.pending[t]
  }

  ghost predicate OtherSlotsStay(p: Plugin, q: Plugin, slot: Slot) {
    forall id :: id != slot.id ==> (id in q.slots <==> id in p.slots) && (id in p.slots ==> q.slots[id] == p.slots[id])
  }

  /** The SELECT became the slot's continuation, under a token never used before. */
  ghost predicate Becomes(p: Plugin, q: Plugin, e: SlotSpec.Event)
    requires e.DoVisit?
  {
    var t := p.minted + 1;
    && t !in p.pending && q.minted == t && q.pending.Keys == p.pending.Keys + {t}
    && e.slot.id in q.slots && q.slots[e.slot.id] == t
    && q.pending[t] == Continuation(e.request, e.plan, e.params, e.slot, 0, None, None, NoPayload)
  }

  lemma RecycleMeans(p: Plugin, slot: Slot, now: int)
    requires SlotsPoint(p)
    ensures var q := Recycle(p, slot.id, now);
            && q == p.(pending := q.pending, slots := q.slots) && q.pending.Keys == p.pending.Keys
            && (if Stands(p, slot, now) then q == p else slot.id !in q.slots)
            && OverdueEnds(p, q, slot, now) && OtherSlotsStay(p, q, slot)
  {
  }

  ghost predicate VisitFinds(p: Plugin, q: Plugin, e: SlotSpec.Event, found: Visited)
    requires e.DoVisit?
  {
    if Stands(p, e.slot, e.now) then
      q == p && found == if p.pending[p.slots[e.slot.id]].done > 0 then Passes else Waits(p.slots[e.slot.id])
    else if !p.generating then found == Turned(UNMATCHED_REQUEST) && q.pending.Keys == p.pending.Keys && e.slot.id !in q.slots
    else if |p.pending| >= 128 then found == Turned(QUEUE_FULL) && q.pending.Keys == p.pending.Keys && e.slot.id !in q.slots
    else found == Needs(p.minted + 1) && Becomes(p, q, e)
  }

  lemma AdmitFinds(p: Plugin, q: Plugin, e: SlotSpec.Event)
    requires e.DoVisit? && SlotsPoint(q) && p.minted + 1 !in p.pending
    requires q == p.(pending := q.pending, slots := q.slots) && q.pending.Keys == p.pending.Keys
    requires if Stands(p, e.slot, e.now) then q == p else e.slot.id !in q.slots
    ensures VisitFinds(p, Admit(q, e.slot, e.request, e.plan, e.params).0, e, Admit(q, e.slot, e.request, e.plan, e.params).1)
  {
    assert |q.pending| == |q.pending.Keys| && |p.pending| == |p.pending.Keys|;
    if Stands(p, e.slot, e.now) {
      StandingFound(p, e);
    } else {
      hide Stands, Becomes, SlotsPoint;
      if p.generating && |p.pending| < 128 {
        NowBecomes(p, q, e);
      }
    }
  }

  lemma StandingFound(p: Plugin, e: SlotSpec.Event)
    requires e.DoVisit? && SlotsPoint(p) && Stands(p, e.slot, e.now)
    ensures Admit(p, e.slot, e.request, e.plan, e.params)
         == (p, if p.pending[p.slots[e.slot.id]].done > 0 then Passes else Waits(p.slots[e.slot.id]))
  {
  }

  lemma NewKey<T>(m: map<nat, T>, t: nat, c: T)
    ensures m[t := c].Keys == m.Keys + {t}
  {
  }

  lemma NowBecomes(p: Plugin, q: Plugin, e: SlotSpec.Event)
    requires e.DoVisit? && SlotsPoint(q) && p.minted + 1 !in p.pending
    requires q == p.(pending := q.pending, slots := q.slots) && q.pending.Keys == p.pending.Keys
    requires e.slot.id !in q.slots && q.generating && |q.pending| < 128
    ensures var (q', found) := Admit(q, e.slot, e.request, e.plan, e.params);
            found == Needs(p.minted + 1) && Becomes(p, q', e)
  {
    hide SlotsPoint;
    var t, c := p.minted + 1, Continuation(e.request, e.plan, e.params, e.slot, 0, None, None, NoPayload);
    NewKey(q.pending, t, c);
    assert Admit(q, e.slot, e.request, e.plan, e.params)
        == (q.(pending := q.pending[t := c], slots := q.slots[e.slot.id := t], minted := t), Needs(t));
    hide Admit;
  }

  /** Becoming the continuation leaves what was there. */
  lemma AdmitFrames(p: Plugin, q: Plugin, e: SlotSpec.Event)
    requires e.DoVisit? && SlotsPoint(q) && p.minted + 1 !in p.pending
    requires q.minted == p.minted && OverdueEnds(p, q, e.slot, e.now) && OtherSlotsStay(p, q, e.slot)
    ensures var q' := Admit(q, e.slot, e.request, e.plan, e.params).0;
            && OverdueEnds(p, q', e.slot, e.now) && OtherSlotsStay(p, q', e.slot)
            && q' == q.(pending := q'.pending, slots := q'.slots, minted := q'.minted)
  {
    hide Overdue;
  }

  /** A SELECT passes a slot whose continuation succeeded and waits for one that is open; where there
      is none, or it failed or is overdue, the SELECT becomes the slot's continuation itself, unless
      the scenario does not generate or 128 continuations were opened already. Nothing else changes. */
  lemma VisitMeans(r: Run, i: nat)
    requires IsRun(r) && i < |r.events| && r.events[i].DoVisit? && SlotsPoint(r.states[i])
    ensures var p, q, e := r.states[i], r.states[i + 1], r.events[i];
            && VisitFinds(p, q, e, Visit(p, e.slot, e.request, e.plan, e.params, e.now).1)
            && OverdueEnds(p, q, e.slot, e.now) && OtherSlotsStay(p, q, e.slot)
            && q == p.(pending := q.pending, slots := q.slots, minted := q.minted)
  {
    var p, e := r.states[i], r.events[i];
    OkAt(r, i);
    KnownTokens(p);
    assert Follows(r, i);
    RecyclePoints(p, e.slot.id, e.now);
    hide PluginOk, Stands, OverdueEnds, OtherSlotsStay, VisitFinds, Recycle, Admit, Enabled, SlotsPoint, IsRun;
    RecycleMeans(p, e.slot, e.now);
    AdmitFinds(p, Recycle(p, e.slot.id, e.now), e);
    AdmitFrames(p, Recycle(p, e.slot.id, e.now), e);
  }

  // ---- a candidate arrives ----

  /** The rows are the slot's own and none of their keys is live. */
  ghost predicate FreeRows(t: Table, slot: Slot, rows: seq<Row>, view: View) {
    Suits(t, slot, rows) && forall i :: 0 <= i < |rows| ==> Id(t.name, KeyText(t, rows[i]).value) !in view
  }

  /** `after` is the view with these rows, each under its own key. */
  ghost predicate WithRows(t: Table, rows: seq<Row>, view: View, after: View) {
    && (forall i :: 0 <= i < |rows| ==> RowLive(t, after, rows[i]))
    && (forall id :: id in view ==> id in after && after[id] == view[id])
    && (forall id :: id in after && id !in view ==> ComesFrom(t, rows, id))
  }

  ghost predicate ComesFrom(t: Table, rows: seq<Row>, id: Id) {
    id.table == t.name && exists i :: 0 <= i < |rows| && KeyText(t, rows[i]) == Some(id.key)
  }

  /** The request is still wanted: its connection open, not cancelled, not overdue, the plugin running. */
  ghost predicate Wanted(p: Plugin, c: Continuation, a: Around) {
    c.request.connection !in p.closed && !a.cancelled && a.now < c.request.deadline && p.running
  }

  lemma TakesFreeRows(t: Table, slot: Slot, rows: seq<Row>, view: View)
    requires |rows| == |slot.keys|
    ensures FillRows(t, slot, OpenKeys(slot), rows, view).Some? <==> FreeRows(t, slot, rows, view)
  {
    FillRowsIff(t, slot, OpenKeys(slot), rows, view);
    hide KeyText, FixedHolds;
    if FreeRows(t, slot, rows, view) {
      forall i | 0 <= i < |rows| ensures RowTakes(t, slot, OpenKeys(slot), rows[i], view) {
      }
    }
    if RowsTake(t, slot, OpenKeys(slot), rows, view) {
      forall i | 0 <= i < |rows|
        ensures KeyText(t, rows[i]).Some? && KeyText(t, rows[i]).value in slot.keys && FixedHolds(slot, rows[i])
        ensures Id(t.name, KeyText(t, rows[i]).value) !in view
      {
        assert RowTakes(t, slot, OpenKeys(slot), rows[i], view);
      }
    }
  }

  lemma {:induction false} TakenFrom(t: Table, slot: Slot, open: set<string>, rows: seq<Row>, view: View, id: Id)
    requires FillRows(t, slot, open, rows, view).Some? && id in FillRows(t, slot, open, rows, view).value
    ensures ComesFrom(t, rows, id)
    decreases |rows|
  {
    if rows != [] {
      var key := KeyText(t, rows[0]).value;
      if id.key == key {
        TakenRows(t, slot, open, rows, view);
        assert KeyText(t, rows[0]) == Some(id.key);
      } else {
        TakenFrom(t, slot, open - {key}, rows[1..], view[Id(t.name, key) := Clone(rows[0])], id);
        var i :| 0 <= i < |rows[1..]| && KeyText(t, rows[1..][i]) == Some(id.key);
        assert KeyText(t, rows[i + 1]) == Some(id.key);
      }
    }
  }

  lemma FilledView(t: Table, slot: Slot, rows: seq<Row>, view: View)
    requires FillRows(t, slot, OpenKeys(slot), rows, view).Some?
    ensures WithRows(t, rows, view, Overlay(view, FillRows(t, slot, OpenKeys(slot), rows, view).value))
  {
    var changes := FillRows(t, slot, OpenKeys(slot), rows, view).value;
    TakenRows(t, slot, OpenKeys(slot), rows, view);
    OverlayHolds(t, rows, view, changes);
    forall id | id in changes ensures ComesFrom(t, rows, id) {
      TakenFrom(t, slot, OpenKeys(slot), rows, view, id);
    }
    OverlayAdds(view, changes);
    hide FillRows, ComesFrom, RowLive, OpenKeys, Cloned, Overlay;
  }

  lemma OverlayAdds(view: View, changes: Changes)
    requires forall id :: id in changes ==> id !in view && changes[id].Some?
    ensures forall id :: id in view ==> id in Overlay(view, changes) && Overlay(view, changes)[id] == view[id]
    ensures forall id :: id in Overlay(view, changes) && id !in view ==> id in changes
  {
  }

  /** A fill succeeds exactly when the rows are the slot's own, their keys are free, and the committed
      rows with them satisfy the constraints; then they are the committed rows. */
  lemma FillMeans(s: State, slot: Slot, rows: seq<Row>) returns (after: View)
    requires WellFormed(s.tables) && FindTable(s.tables, slot.table).Some?
    ensures var t := FindTable(s.tables, slot.table).value; var (s', v) := Fill(s, slot, rows);
            if FreeRows(t, slot, rows, Live(s.committed)) then
              && WithRows(t, rows, Live(s.committed), after)
              && (v.Done? <==> ViewConsistent(s.tables, after))
              && Live(s'.committed) == if v.Done? then after else Live(s.committed)
            else v.Aborted? && s' == s
  {
    hide FillRows, ViewConsistent, Overlay, Live, StoreSpec.Install, WithRows, FreeRows, OpenKeys, WellFormed;
    var t, view := FindTable(s.tables, slot.table).value, Live(s.committed);
    after := view;
    SizesDiffer(t, slot, rows, view);
    if |rows| == |slot.keys| {
      TakesFreeRows(t, slot, rows, view);
      if FillRows(t, slot, OpenKeys(slot), rows, view).Some? {
        FilledView(t, slot, rows, view);
        var changes := FillRows(t, slot, OpenKeys(slot), rows, view).value;
        after := Overlay(view, changes);
        LiveOfInstall(s.committed, changes, s.version + 1);
      }
    }
  }

  lemma SizesDiffer(t: Table, slot: Slot, rows: seq<Row>, view: View)
    ensures FreeRows(t, slot, rows, view) ==> |rows| == |slot.keys|
  {
  }

  /** A Complete for an open continuation succeeds exactly when it names its request, the request is
      still wanted, the candidate decodes to rows for its slot, these can be filled in, and the
      SELECT afterwards answers. */
  lemma CompleteSucceedsIff(p: Plugin, r: Resolution, a: Around, t: nat) returns (after: View)
    requires PluginOk(p) && r.continuation == t && t in p.pending && p.pending[t].done == 0
    ensures FindTable(p.store.tables, p.pending[t].slot.table).Some?
    ensures var c := p.pending[t]; var table := FindTable(p.store.tables, c.slot.table).value; var fill := r.payload.fill;
            (fill.Some? && FreeRows(table, c.slot, fill.value.rows, Live(p.store.committed)) ==>
               WithRows(table, fill.value.rows, Live(p.store.committed), after))
            && (Complete(p, r, a).1.Ok? <==>
                  && r.requestId == c.request.id && r.version == 0 && Wanted(p, c, a)
                  && fill.Some? && fill.value.slotId == c.slot.id
                  && FreeRows(table, c.slot, fill.value.rows, Live(p.store.committed)) && ViewConsistent(p.store.tables, after)
                  && !a.early && ParamsFit(c.plan, c.params) && a.reply.Selection?)
  {
    var c := p.pending[t];
    assert ContinuationOk(p, t, c);
    CompleteCases(p, r, a, t);
    after := Live(p.store.committed);
    if r.payload.fill.Some? {
      after := FillMeans(p.store, c.slot, r.payload.fill.value.rows);
    }
    AnswerOkIff(p, c, r.payload, a);
    hide Fill, FreeRows, WithRows, ViewConsistent, Live, Complete, Answer, PluginOk, ContinuationOk, SlotsOk;
  }

  lemma AnswerOkIff(p: Plugin, c: Continuation, payload: Json, a: Around)
    requires WellFormed(p.store.tables) && c.plan.kind == Select
    ensures Answer(p, c, payload, a).1.Ok? <==>
              && Wanted(p, c, a) && payload.fill.Some? && payload.fill.value.slotId == c.slot.id
              && |payload.fill.value.rows| == |c.slot.keys| && Fill(p.store, c.slot, payload.fill.value.rows).1.Done?
              && !a.early && ParamsFit(c.plan, c.params) && a.reply.Selection?
  {
    hide Fill, AtSelect, WellFormed, ParamsFit;
  }

  /** Why an open continuation's Complete is refused before anything is installed. */
  ghost function RefusalOf(p: Plugin, c: Continuation, payload: Json, a: Around): Option<Code>
    requires WellFormed(p.store.tables)
  {
    if c.request.connection in p.closed || a.cancelled then Some(CANCELLED)
    else if c.request.deadline <= a.now then Some(DEADLINE_EXCEEDED)
    else if payload.fill.None? then Some(INVALID_ARGUMENT)
    else if payload.fill.value.slotId != c.slot.id || |payload.fill.value.rows| != |c.slot.keys| then Some(INVALID_RESULT)
    else if !p.running then Some(CANCELLED)
    else if !Fill(p.store, c.slot, payload.fill.value.rows).1.Done? then Some(INVALID_RESULT)
    else None
  }

  /** A Complete for an open continuation ends just that one, with what it answers: the rows of its
      SELECT, or the reason it failed for; a refused one leaves the rows alone. */
  lemma CompleteRecords(p: Plugin, r: Resolution, a: Around, t: nat)
    requires PluginOk(p) && r.continuation == t && t in p.pending && p.pending[t].done == 0
    requires r.requestId == p.pending[t].request.id && r.version == 0
    ensures var (q, reply) := Complete(p, r, a); var c := p.pending[t];
            && q == p.(store := q.store, pending := p.pending[t := q.pending[t]])
            && q.pending[t] == (match reply
                                case Ok(raw) => c.(done := 1, digest := Some(r.payload), result := raw)
                                case Err(code) => c.(done := 1, err := Some(code), digest := Some(r.payload), result := NoPayload))
            && (match reply
                case Ok(raw) => RefusalOf(p, c, r.payload, a).None? && a.reply.Selection? && raw == Rows(a.reply.rows)
                case Err(code) => code == if RefusalOf(p, c, r.payload, a).Some? then RefusalOf(p, c, r.payload, a).value else OTHER_CODE)
            && (RefusalOf(p, c, r.payload, a).Some? ==> q.store == p.store)
  {
    var c := p.pending[t];
    assert ContinuationOk(p, t, c);
    FreshContinuation(p, t);
    CompleteIs(p, r, a);
    RefusalIs(p, c, r.payload, a);
    hide Fill, PluginOk, ContinuationOk, RefusalOf, SlotSpec.Install, AtSelect;
  }

  lemma CompleteIs(p: Plugin, r: Resolution, a: Around)
    requires WellFormed(p.store.tables) && r.continuation in p.pending && p.pending[r.continuation].done == 0
    requires r.requestId == p.pending[r.continuation].request.id && r.version == 0
    ensures var c := p.pending[r.continuation]; var (s, reply) := Answer(p, c, r.payload, a);
            Complete(p, r, a) == (p.(store := s, pending := p.pending[r.continuation := Finished(c, r.payload, reply)]), reply)
  {
    hide Answer, Finished, WellFormed;
  }

  /** An open continuation has neither an error nor a result. */
  lemma FreshContinuation(p: Plugin, t: nat)
    requires PluginOk(p) && t in p.pending && p.pending[t].done == 0
    ensures p.pending[t].err.None? && WellFormed(p.store.tables) && p.pending[t].plan.kind == Select
  {
    assert ContinuationOk(p, t, p.pending[t]);
  }

  lemma RefusalIs(p: Plugin, c: Continuation, payload: Json, a: Around)
    requires WellFormed(p.store.tables) && c.plan.kind == Select
    ensures SlotSpec.Install(p, c, payload, a).1 == RefusalOf(p, c, payload, a)
    ensures RefusalOf(p, c, payload, a).Some? ==> Answer(p, c, payload, a) == (p.store, Err(RefusalOf(p, c, payload, a).value))
    ensures RefusalOf(p, c, payload, a).None? ==>
              Answer(p, c, payload, a).1 == Err(OTHER_CODE)
              || (a.reply.Selection? && Answer(p, c, payload, a).1 == Ok(Rows(a.reply.rows)))
  {
    hide Fill, WellFormed, AtSelect;
  }
}
