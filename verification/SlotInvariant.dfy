/** What every locked section of the right plugin keeps. */
module SlotInvariant {
  import opened Values
  import opened Schema
  import opened Plans
  import opened StoreSpec
  import opened StoreInvariant
  import opened StoreRuns
  import opened Selection
  import opened SlotFill
  import opened Api
  import opened SlotSpec

  // ---- continuations ----

  /** An open continuation is its slot's current one; a successful one recorded its candidate and
      the rows it answered with, and all keys of its slot are live. */
  ghost predicate ContinuationOk(p: Plugin, token: nat, c: Continuation) {
    && token <= p.minted && c.done <= 1
    && c.slot in p.defs && c.plan.kind == Select && c.plan.table == c.slot.table
    && (c.done == 0 ==> c.err.None? && c.digest.None? && c.slot.id in p.slots && p.slots[c.slot.id] == token)
    && (c.done == 1 && c.err.None? ==> c.digest.Some? && c.result.Rows? && FillLive(p.store, c.slot, c.digest.value))
  }

  /** The store satisfies its invariant, and no session has writes for a slot's table. */
  ghost predicate StoreOk(s: State, defs: seq<Slot>) {
    Inv(s) && DefsOk(s.tables, defs) && forall d :: d in defs ==> Unwritten(s, d.table)
  }

  ghost predicate SlotsOk(p: Plugin) {
    && SlotsPoint(p)
    && (forall id :: id in p.slots ==> p.pending[p.slots[id]].slot.id == id)
    && (forall t {:trigger ContinuationOk(p, t, p.pending[t])} :: t in p.pending ==> ContinuationOk(p, t, p.pending[t]))
    && |p.pending.Keys| <= MAX_PENDING
  }

  ghost predicate PluginOk(p: Plugin) {
    StoreOk(p.store, p.defs) && SlotsOk(p)
  }

  /** A finished continuation never changes again; the rest of it never changes at all. */
  ghost predicate Settles(c: Continuation, d: Continuation) {
    && d.request == c.request && d.plan == c.plan && d.params == c.params && d.slot == c.slot
    && c.done <= d.done && (c.done > 0 ==> d == c)
  }

  /** The rows of slot tables stay. */
  ghost predicate StoreMoves(defs: seq<Slot>, a: State, b: State) {
    && b.tables == a.tables
    && forall d, id: Id :: d in defs && id.table == d.table && id in Live(a.committed) ==>
         id in Live(b.committed) && Live(b.committed)[id] == Live(a.committed)[id]
  }

  /** Continuations are kept and settle, connections stay closed, a stopped plugin stays stopped. */
  ghost predicate SlotsMove(p: Plugin, q: Plugin) {
    && q.defs == p.defs && q.generating == p.generating
    && p.closed <= q.closed && (q.running ==> p.running) && p.minted <= q.minted
    && (forall t :: t in p.pending ==> t in q.pending && Settles(p.pending[t], q.pending[t]))
  }

  ghost predicate Moves(p: Plugin, q: Plugin) {
    SlotsMove(p, q) && StoreMoves(p.defs, p.store, q.store)
  }

  lemma SettlesTransitive(a: Continuation, b: Continuation, c: Continuation)
    requires Settles(a, b) && Settles(b, c)
    ensures Settles(a, c)
  {
  }

  lemma StoreMovesTransitive(defs: seq<Slot>, a: State, b: State, c: State)
    requires StoreMoves(defs, a, b) && StoreMoves(defs, b, c)
    ensures StoreMoves(defs, a, c)
  {
  }

  lemma StoreMovesItself(defs: seq<Slot>, s: State)
    ensures StoreMoves(defs, s, s)
  {
  }

  lemma MovesTransitive(a: Plugin, b: Plugin, c: Plugin)
    requires Moves(a, b) && Moves(b, c)
    ensures Moves(a, c)
  {
    StoreMovesTransitive(a.defs, a.store, b.store, c.store);
    hide StoreMoves;
    forall t | t in a.pending ensures t in c.pending && Settles(a.pending[t], c.pending[t]) {
      SettlesTransitive(a.pending[t], b.pending[t], c.pending[t]);
    }
  }

  lemma MovesItself(p: Plugin)
    ensures Moves(p, p)
  {
    StoreMovesItself(p.defs, p.store);
  }

  lemma LiveKeysStay(defs: seq<Slot>, a: State, b: State, slot: Slot)
    requires StoreMoves(defs, a, b) && slot in defs && KeysLive(a, slot)
    ensures KeysLive(b, slot)
  {
  }

  lemma LiveFillStays(defs: seq<Slot>, a: State, b: State, slot: Slot, payload: Json)
    requires StoreMoves(defs, a, b) && slot in defs && FillLive(a, slot, payload)
    ensures FillLive(b, slot, payload)
  {
  }

  lemma SlotIdsDiffer(tables: seq<Table>, defs: seq<Slot>, a: Slot, b: Slot)
    requires DefsOk(tables, defs) && a in defs && b in defs && a.id == b.id
    ensures a == b
  {
  }

  // ---- changes to the continuations ----

  /** Continuations may settle while the store moves on. */
  lemma SettleKeeps(p: Plugin, q: Plugin)
    requires SlotsOk(p) && SlotsMove(p, q) && StoreMoves(p.defs, p.store, q.store) && SlotsPoint(q)
    requires q.pending.Keys == p.pending.Keys
    requires forall id :: id in q.slots ==> id in p.slots && q.slots[id] == p.slots[id]
    requires forall t :: t in q.pending && q.pending[t] != p.pending[t] ==> Closes(q, q.pending[t])
    requires forall id :: id in p.slots && id !in q.slots ==> q.pending[p.slots[id]].done > 0
    ensures SlotsOk(q)
  {
    hide StoreMoves, FillLive;
    forall t | t in q.pending ensures ContinuationOk(q, t, q.pending[t]) {
      assert ContinuationOk(p, t, p.pending[t]) && Settles(p.pending[t], q.pending[t]);
      if q.pending[t] == p.pending[t] && p.pending[t].done == 1 && p.pending[t].err.None? {
        LiveFillStays(p.defs, p.store, q.store, p.pending[t].slot, p.pending[t].digest.value);
      }
    }
  }

  /** The continuation has just been closed, in good order. */
  ghost predicate Closes(q: Plugin, c: Continuation) {
    c.done == 1 && (c.err.None? ==> c.digest.Some? && c.result.Rows? && FillLive(q.store, c.slot, c.digest.value))
  }

  // ---- visits ----

  /** A recycled slot loses its continuation, which is closed by then. */
  lemma RecycleCases(p: Plugin, slotId: string, now: int)
    requires SlotsPoint(p)
    ensures var q := Recycle(p, slotId, now);
            q == p || (&& slotId in p.slots && q == p.(pending := q.pending, slots := p.slots - {slotId})
                       && var c := p.pending[p.slots[slotId]];
                          q.pending == p.pending[p.slots[slotId] := Abandon(c, DEADLINE_EXCEEDED)])
  {
    if slotId in p.slots {
      assert p.pending == p.pending[p.slots[slotId] := p.pending[p.slots[slotId]]];
    }
  }

  lemma FreedKeeps(p: Plugin, slotId: string, q: Plugin)
    requires SlotsOk(p) && slotId in p.slots && q == p.(pending := q.pending, slots := p.slots - {slotId})
    requires q.pending == p.pending[p.slots[slotId] := Abandon(p.pending[p.slots[slotId]], DEADLINE_EXCEEDED)]
    ensures SlotsOk(q) && Moves(p, q)
  {
    hide FillLive, StoreMoves;
    StoreMovesItself(p.defs, p.store);
    assert ContinuationOk(p, p.slots[slotId], p.pending[p.slots[slotId]]);
    assert q.pending.Keys == p.pending.Keys;
    SettleKeeps(p, q);
  }

  lemma RecycleKeeps(p: Plugin, slotId: string, now: int)
    requires SlotsOk(p)
    ensures SlotsOk(Recycle(p, slotId, now)) && Moves(p, Recycle(p, slotId, now))
    ensures slotId in Recycle(p, slotId, now).slots ==> Recycle(p, slotId, now) == p
    ensures Recycle(p, slotId, now).minted == p.minted && Recycle(p, slotId, now).store == p.store
  {
    RecycleCases(p, slotId, now);
    SlotsOkPoints(p);
    MovesItself(p);
    hide Recycle, SlotsOk, Moves;
    var q := Recycle(p, slotId, now);
    if q != p {
      FreedKeeps(p, slotId, q);
    }
  }

  lemma KnownTokens(p: Plugin)
    requires SlotsOk(p)
    ensures forall t :: t in p.pending ==> t <= p.minted
  {
    forall t | t in p.pending ensures t <= p.minted {
      assert ContinuationOk(p, t, p.pending[t]);
    }
  }

  /** An open continuation is added under a fresh token for a slot that has none. */
  ghost predicate Opens(p: Plugin, c: Continuation, q: Plugin) {
    && c.slot.id !in p.slots && |p.pending.Keys| < MAX_PENDING
    && c.done == 0 && c.err.None? && c.digest.None? && c.slot in p.defs
    && c.plan.kind == Select && c.plan.table == c.slot.table
    && q == p.(pending := p.pending[p.minted + 1 := c], slots := p.slots[c.slot.id := p.minted + 1], minted := p.minted + 1)
  }

  lemma OpenedContinuation(p: Plugin, c: Continuation, q: Plugin, t: nat)
    requires SlotsOk(p) && Opens(p, c, q) && t in p.pending && t <= p.minted
    ensures t in q.pending && q.pending[t] == p.pending[t] && ContinuationOk(q, t, q.pending[t])
  {
    hide FillLive;
    assert ContinuationOk(p, t, p.pending[t]);
  }

  lemma OpenedSlots(p: Plugin, c: Continuation, q: Plugin)
    requires SlotsPoint(p) && (forall id :: id in p.slots ==> p.pending[p.slots[id]].slot.id == id)
    requires Opens(p, c, q) && p.minted + 1 !in p.pending
    ensures SlotsPoint(q) && forall id :: id in q.slots ==> q.pending[q.slots[id]].slot.id == id
  {
    forall id | id in q.slots ensures q.slots[id] in q.pending && q.pending[q.slots[id]].slot.id == id {
      if id != c.slot.id {
        assert p.slots[id] in p.pending;
      }
    }
  }

  lemma OpenedMoves(p: Plugin, c: Continuation, q: Plugin)
    requires Opens(p, c, q) && p.minted + 1 !in p.pending
    ensures Moves(p, q)
  {
    StoreMovesItself(p.defs, p.store);
    hide StoreMoves;
  }

  lemma OpenKeeps(p: Plugin, c: Continuation, q: Plugin)
    requires SlotsOk(p) && Opens(p, c, q)
    ensures SlotsOk(q) && Moves(p, q)
  {
    KnownTokens(p);
    OpenedContinuations(p, c, q);
    hide ContinuationOk, Moves;
    OpenedMoves(p, c, q);
    OpenedCount(p.pending, p.minted + 1, c);
    OpenedSlots(p, c, q);
  }

  lemma OpenedContinuations(p: Plugin, c: Continuation, q: Plugin)
    requires SlotsOk(p) && Opens(p, c, q) && forall t :: t in p.pending ==> t <= p.minted
    ensures forall t {:trigger ContinuationOk(q, t, q.pending[t])} :: t in q.pending ==> ContinuationOk(q, t, q.pending[t])
  {
    hide FillLive, SlotsOk;
    forall t | t in q.pending ensures ContinuationOk(q, t, q.pending[t]) {
      if t != p.minted + 1 {
        OpenedContinuation(p, c, q, t);
      }
    }
  }

  lemma OpenedCount(pending: map<nat, Continuation>, token: nat, c: Continuation)
    requires token !in pending
    ensures |pending[token := c].Keys| == |pending.Keys| + 1
  {
    assert pending[token := c].Keys == pending.Keys + {token};
  }

  lemma VisitKeeps(p: Plugin, slot: Slot, q: Request, plan: Plan, params: seq<Value>, now: int)
    requires PluginOk(p) && slot in p.defs && plan.kind == Select && plan.table == slot.table
    ensures PluginOk(Visit(p, slot, q, plan, params, now).0) && Moves(p, Visit(p, slot, q, plan, params, now).0)
    ensures Visit(p, slot, q, plan, params, now).0.store == p.store
  {
    hide StoreOk, SlotsOk, Moves, Recycle;
    SlotsOkPoints(p);
    var p1 := Recycle(p, slot.id, now);
    RecycleKeeps(p, slot.id, now);
    assert p1.defs == p.defs && p1.generating == p.generating by { MovesDefs(p, p1); }
    assert |p1.pending| == |p1.pending.Keys|;
    if slot.id !in p1.slots && p.generating && |p1.pending| < MAX_PENDING {
      var c := Continuation(q, plan, params, slot, 0, None, None, NoPayload);
      OpenKeeps(p1, c, Visit(p, slot, q, plan, params, now).0);
      MovesTransitive(p, p1, Visit(p, slot, q, plan, params, now).0);
    }
  }

  lemma SlotsOkPoints(p: Plugin)
    requires SlotsOk(p)
    ensures SlotsPoint(p)
  {
  }

  lemma MovesDefs(p: Plugin, q: Plugin)
    requires Moves(p, q)
    ensures q.defs == p.defs && q.generating == p.generating && q.store.tables == p.store.tables
  {
  }

  // ---- close and stop ----

  lemma AbandonAllKeeps(p: Plugin, q: Plugin)
    requires SlotsOk(p) && StoreMoves(p.defs, p.store, q.store)
    requires q.defs == p.defs && q.generating == p.generating && q.slots == p.slots && q.minted == p.minted
    requires p.closed <= q.closed && (q.running ==> p.running)
    requires q.pending.Keys == p.pending.Keys
    requires forall t :: t in p.pending ==> q.pending[t] == p.pending[t] || q.pending[t] == Abandon(p.pending[t], CANCELLED)
    ensures SlotsOk(q) && Moves(p, q)
  {
    hide StoreMoves, FillLive;
    forall t | t in p.pending
      ensures Settles(p.pending[t], q.pending[t]) && (q.pending[t] != p.pending[t] ==> Closes(q, q.pending[t]))
    {
      assert ContinuationOk(p, t, p.pending[t]);
    }
    SettleKeeps(p, q);
  }

  lemma ClosedStore(s: State, defs: seq<Slot>, connection: string)
    requires StoreOk(s, defs)
    ensures StoreOk(Close(s, connection).0, defs) && StoreMoves(defs, s, Close(s, connection).0)
  {
    CloseKeepsInv(s, connection);
    forall d | d in defs ensures Unwritten(Close(s, connection).0, d.table) {
      assert Unwritten(s, d.table);
    }
  }

  lemma DisconnectKeeps(p: Plugin, connection: string)
    requires PluginOk(p)
    ensures PluginOk(Disconnect(p, connection)) && Moves(p, Disconnect(p, connection))
  {
    ClosedStore(p.store, p.defs, connection);
    hide StoreOk, StoreMoves, Close, SlotsOk;
    AbandonAllKeeps(p, Disconnect(p, connection));
  }

  lemma StopKeeps(p: Plugin)
    requires PluginOk(p)
    ensures PluginOk(Stop(p)) && Moves(p, Stop(p))
  {
    StoreMovesItself(p.defs, p.store);
    hide StoreOk, StoreMoves, SlotsOk;
    AbandonAllKeeps(p, Stop(p));
  }

  // ---- completion ----

  /** A refused fill leaves the store alone; an installed one makes every key of the slot live,
      where none was, and changes nothing else. */
  lemma InstallFacts(p: Plugin, c: Continuation, payload: Json, a: Around)
    requires Inv(p.store)
    ensures var (s, refused) := SlotSpec.Install(p, c, payload, a);
            && Inv(s) && s.tables == p.store.tables && s.sessions == p.store.sessions
            && (refused.Some? ==> s == p.store)
            && (refused.None? ==>
                  && c.request.connection !in p.closed && a.now < c.request.deadline && p.running
                  && FillLive(s, c.slot, payload) && Filling(c.slot, Live(p.store.committed), Live(s.committed)))
            && Grows(Live(p.store.committed), Live(s.committed))
  {
    if SlotSpec.Install(p, c, payload, a).1.None? {
      FillIsComplete(p.store, c.slot, payload.fill.value.rows);
      FillKeepsInv(p.store, c.slot, payload.fill.value.rows);
    }
  }

  lemma EnteredWrites(s: State, sid: string, name: string)
    requires Unwritten(s, name)
    ensures Unwritten(SetSession(s, sid, Entered(s, sid)), name)
  {
    var s' := SetSession(s, sid, Entered(s, sid));
    forall x, id: Id | x in s'.sessions && id in s'.sessions[x].writes ensures id.table != name {
      assert x in s.sessions && id in s.sessions[x].writes;
    }
  }

  /** A SELECT changes no data: at most it enters its session. */
  lemma SelectOnlyEnters(s: State, e: StoreSpec.Event, defs: seq<Slot>)
    requires StoreOk(s, defs) && e.DoExecute? && e.plan.kind == Select
    ensures var (s', v) := StoreSpec.Step(s, e);
            StoreOk(s', defs) && s'.tables == s.tables && s'.committed == s.committed && !v.Done?
  {
    hide Unwritten;
    StepKeepsInv(s, e);
    ExecuteEnters(s, e);
    forall d | d in defs ensures Unwritten(StoreSpec.Step(s, e).0, d.table) {
      EnteredWrites(s, e.sid, d.table);
    }
  }

  lemma GrowthMoves(defs: seq<Slot>, a: State, b: State)
    requires b.tables == a.tables && Grows(Live(a.committed), Live(b.committed))
    ensures StoreMoves(defs, a, b)
  {
  }

  lemma InstalledStore(p: Plugin, c: Continuation, payload: Json, a: Around)
    requires StoreOk(p.store, p.defs)
    ensures var (s, refused) := SlotSpec.Install(p, c, payload, a);
            StoreOk(s, p.defs) && StoreMoves(p.defs, p.store, s) && s.tables == p.store.tables
            && (refused.None? ==> FillLive(s, c.slot, payload))
  {
    hide SlotSpec.Install, FillLive;
    InstallFacts(p, c, payload, a);
    var s := SlotSpec.Install(p, c, payload, a).0;
    GrowthMoves(p.defs, p.store, s);
    forall d | d in p.defs ensures Unwritten(s, d.table) {
      assert Unwritten(p.store, d.table);
    }
  }

  lemma {:induction false} MeanwhileKeeps(s: State, defs: seq<Slot>, events: seq<StoreSpec.Event>)
    requires StoreOk(s, defs) && SessionEvents(s.tables, defs, events)
    ensures StoreOk(Meanwhile(s, events), defs) && StoreMoves(defs, s, Meanwhile(s, events))
  {
    hide StoreOk, StoreMoves, StoreSpec.Step, SessionEvent;
    StoreMovesItself(defs, s);
    StoreTables(s, s, defs);
    if events != [] {
      var n := |events| - 1;
      MeanwhileKeeps(s, defs, events[..n]);
      var before := Meanwhile(s, events[..n]);
      StoreTables(s, before, defs);
      SessionStore(before, defs, events[n]);
      StoreMovesTransitive(defs, s, before, StoreSpec.Step(before, events[n]).0);
    }
  }

  lemma StoreTables(a: State, b: State, defs: seq<Slot>)
    requires StoreOk(a, defs) && StoreMoves(defs, a, b)
    ensures WellFormed(a.tables) && b.tables == a.tables
  {
  }

  /** The store between installation and SELECT. */
  lemma BetweenFacts(p: Plugin, c: Continuation, payload: Json, a: Around)
    requires StoreOk(p.store, p.defs) && SessionEvents(p.store.tables, p.defs, a.between) && c.slot in p.defs
    ensures var (s, refused) := SlotSpec.Install(p, c, payload, a); var s' := AtSelect(p, c, payload, a);
            && StoreOk(s', p.defs) && StoreMoves(p.defs, p.store, s') && StoreMoves(p.defs, s, s')
            && (refused.None? ==> FillLive(s', c.slot, payload))
  {
    InstalledStore(p, c, payload, a);
    var (s, refused) := SlotSpec.Install(p, c, payload, a);
    var s' := AtSelect(p, c, payload, a);
    hide StoreOk, StoreMoves, FillLive, SlotSpec.Install, SessionEvents, Meanwhile;
    MeanwhileKeeps(s, p.defs, a.between);
    StoreMovesTransitive(p.defs, p.store, s, s');
    if refused.None? {
      LiveFillStays(p.defs, s, s', c.slot, payload);
    }
  }

  lemma AnswerFacts(p: Plugin, c: Continuation, payload: Json, a: Around)
    requires StoreOk(p.store, p.defs) && c.plan.kind == Select && c.slot in p.defs
    requires SessionEvents(p.store.tables, p.defs, a.between)
    ensures var (s, reply) := Answer(p, c, payload, a);
            && StoreOk(s, p.defs) && StoreMoves(p.defs, p.store, s)
            && (SlotSpec.Install(p, c, payload, a).1.None? ==>
                  FillLive(s, c.slot, payload) && s.committed == AtSelect(p, c, payload, a).committed)
            && (reply.Ok? ==> reply.value.Rows? && FillLive(s, c.slot, payload))
            && (SlotSpec.Install(p, c, payload, a).1.Some? ==> s == p.store && reply.Err?)
  {
    BetweenFacts(p, c, payload, a);
    StoreMovesItself(p.defs, p.store);
    var s, refused := AtSelect(p, c, payload, a), SlotSpec.Install(p, c, payload, a).1;
    if refused.None? {
      var e := StoreSpec.DoExecute(c.request.connection, c.plan, c.params, a.early, a.late);
      SelectOnlyEnters(s, e, p.defs);
      SameCommitted(p.defs, p.store, s, StoreSpec.Step(s, e).0, c.slot, payload);
      hide StoreOk, StoreMoves, FillLive, SlotSpec.Install, Execute, AtSelect, SessionEvents;
    }
  }

  lemma SameCommitted(defs: seq<Slot>, a: State, b: State, c: State, slot: Slot, payload: Json)
    requires StoreMoves(defs, a, b) && c.committed == b.committed && c.tables == b.tables
    ensures StoreMoves(defs, a, c) && (FillLive(b, slot, payload) ==> FillLive(c, slot, payload))
  {
  }

  lemma FinishKeeps(p: Plugin, token: nat, s: State, payload: Json, reply: Reply<Payload>)
    requires SlotsOk(p) && token in p.pending && p.pending[token].done == 0 && StoreMoves(p.defs, p.store, s)
    requires reply.Ok? ==> reply.value.Rows? && FillLive(s, p.pending[token].slot, payload)
    ensures var q := p.(store := s, pending := p.pending[token := Finished(p.pending[token], payload, reply)]);
            SlotsOk(q) && Moves(p, q)
  {
    hide StoreMoves, FillLive;
    var q := p.(store := s, pending := p.pending[token := Finished(p.pending[token], payload, reply)]);
    assert ContinuationOk(p, token, p.pending[token]);
    assert q.pending.Keys == p.pending.Keys;
    SettleKeeps(p, q);
  }

  lemma CompleteKeeps(p: Plugin, r: Resolution, a: Around)
    requires PluginOk(p) && SessionEvents(p.store.tables, p.defs, a.between)
    ensures PluginOk(Complete(p, r, a).0) && Moves(p, Complete(p, r, a).0)
  {
    MovesItself(p);
    if r.continuation in p.pending && p.pending[r.continuation].request.id == r.requestId && r.version == 0 {
      var c := p.pending[r.continuation];
      assert ContinuationOk(p, r.continuation, c);
      if c.done == 0 {
        hide StoreOk, Moves, Answer, StoreMoves;
        AnswerFacts(p, c, r.payload, a);
        var (s, reply) := Answer(p, c, r.payload, a);
        FinishKeeps(p, r.continuation, s, r.payload, reply);
      }
    }
  }

  // ---- sessions ----

  lemma SessionStore(s: State, defs: seq<Slot>, e: StoreSpec.Event)
    requires StoreOk(s, defs) && SessionEvent(s.tables, defs, e)
    ensures StoreOk(StoreSpec.Step(s, e).0, defs) && StoreMoves(defs, s, StoreSpec.Step(s, e).0)
  {
    hide StoreSpec.Step, Unwritten, Inv;
    StepKeepsInv(s, e);
    StepTables(s, e);
    var s' := StoreSpec.Step(s, e).0;
    forall d | d in defs ensures Unwritten(s', d.table) && SameRows(Live(s.committed), Live(s'.committed), d.table) {
      assert SlotTable(defs, d.table);
      InvWellFormed(s);
      SparedRows(s, e, d.table);
      SparedWrites(s, e, d.table);
    }
  }

  lemma InvWellFormed(s: State)
    requires Inv(s)
    ensures WellFormed(s.tables)
  {
  }

  lemma StepTables(s: State, e: StoreSpec.Event)
    requires Inv(s)
    ensures StoreSpec.Step(s, e).0.tables == s.tables
  {
    StepPublishes(s, e);
  }

  lemma SessionStepKeeps(p: Plugin, e: StoreSpec.Event)
    requires PluginOk(p) && SessionEvent(p.store.tables, p.defs, e)
    ensures var q := p.(store := StoreSpec.Step(p.store, e).0); PluginOk(q) && Moves(p, q)
  {
    SessionStore(p.store, p.defs, e);
    hide StoreOk, StoreMoves, StoreSpec.Step, FillLive;
    SettleKeeps(p, p.(store := StoreSpec.Step(p.store, e).0));
  }

  /** Every locked section of the plugin keeps the invariant, and only lets it move on. */
  lemma StepKeepsPlugin(p: Plugin, e: SlotSpec.Event)
    requires PluginOk(p) && Enabled(p, e)
    ensures PluginOk(SlotSpec.Step(p, e)) && Moves(p, SlotSpec.Step(p, e))
  {
    match e
    case DoVisit(slot, q, plan, params, now) => VisitKeeps(p, slot, q, plan, params, now);
    case DoDisconnect(connection) => DisconnectKeeps(p, connection);
    case DoStop => StopKeeps(p);
    case DoComplete(r, a) => CompleteKeeps(p, r, a);
    case DoStore(x) => SessionStepKeeps(p, x);
  }
}
