/** The right plugin as an object: its reference slots beside its row store. */
module Plugin {
  import opened Values
  import opened Schema
  import opened Plans
  import opened StoreSpec
  import opened StoreInvariant
  import opened Selection
  import opened Api
  import opened SlotSpec
  import opened SlotInvariant
  import S = Store

  class RightPlugin {
    const store: S.Store
    const defs: seq<Slot>
    const generating: bool
    var running: bool
    var pending: map<nat, Continuation>
    var slots: map<string, nat>
    var closed: set<string>
    var minted: nat

    ghost function Abs(): SlotSpec.Plugin
      reads this, store
    {
      SlotSpec.Plugin(store.Abs(), running, defs, generating, pending, slots, closed, minted)
    }

    ghost predicate Valid()
      reads this, store
    {
      PluginOk(Abs())
    }

    /** Start. */
    constructor (store: S.Store, defs: seq<Slot>, generating: bool)
      requires store.Valid() && store.sessions == map[] && DefsOk(store.tables, defs)
      ensures Valid() && Abs() == SlotSpec.Plugin(store.Abs(), true, defs, generating, map[], map[], {}, 0)
      ensures this.store == store
    {
      this.store, this.defs, this.generating, this.running := store, defs, generating, true;
      this.pending, this.slots, this.closed, this.minted := map[], map[], {}, 0;
    }

    /** A failed continuation frees its slot, and so does one whose deadline passed. */
    method RecycleSlot(slotId: string, now: int)
      requires SlotsPoint(Abs())
      modifies this`pending, this`slots
      ensures Abs() == Recycle(old(Abs()), slotId, now)
    {
      if slotId !in slots {
        return;
      }
      var token := slots[slotId];
      var c := pending[token];
      if c.done > 0 {
        if c.err.Some? {
          slots := slots - {slotId};
        }
      } else if c.request.deadline <= now {
        pending := pending[token := c.(done := c.done + 1, err := Some(DEADLINE_EXCEEDED))];
        slots := slots - {slotId};
      }
    }

    /** Join the slot's continuation or become it. */
    method Admit(slot: Slot, q: Request, plan: Plan, params: seq<Value>) returns (v: Visited)
      requires SlotsPoint(Abs())
      modifies this`pending, this`slots, this`minted
      ensures (Abs(), v) == SlotSpec.Admit(old(Abs()), slot, q, plan, params)
    {
      if slot.id in slots {
        return if pending[slots[slot.id]].done > 0 then Passes else Waits(slots[slot.id]);
      }
      if !generating {
        return Turned(UNMATCHED_REQUEST);
      }
      if |pending| >= MAX_PENDING {
        return Turned(QUEUE_FULL);
      }
      minted := minted + 1;
      pending := pending[minted := Continuation(q, plan, params, slot, 0, None, None, NoPayload)];
      slots := slots[slot.id := minted];
      v := Needs(minted);
    }

    /** One round of a SELECT's loop over the slots of its table. */
    method Visit(slot: Slot, q: Request, plan: Plan, params: seq<Value>, now: int) returns (v: Visited)
      requires Valid() && slot in defs && plan.kind == Select && plan.table == slot.table
      modifies this
      ensures Valid() && (Abs(), v) == SlotSpec.Visit(old(Abs()), slot, q, plan, params, now)
    {
      VisitKeeps(Abs(), slot, q, plan, params, now);
      assert SlotsPoint(Abs());
      RecyclePoints(Abs(), slot.id, now);
      hide PluginOk, Moves, Recycle, SlotSpec.Admit, SlotsPoint;
      RecycleSlot(slot.id, now);
      v := Admit(slot, q, plan, params);
    }

    /** Cancels every open continuation of the connection, or every open one at all. */
    method AbandonAll(connection: Option<string>)
      modifies this`pending
      ensures pending == Abandoned(old(pending), connection)
    {
      var rest := pending.Keys;
      while rest != {}
        invariant rest <= pending.Keys && pending.Keys == old(pending).Keys
        invariant forall t :: t in rest ==> pending[t] == old(pending)[t]
        invariant forall t :: t in pending && t !in rest ==> pending[t] == Abandoned(old(pending), connection)[t]
      {
        var t :| t in rest;
        var c := pending[t];
        if (connection == None || connection == Some(c.request.connection)) && c.done == 0 {
          pending := pending[t := c.(done := 1, err := Some(CANCELLED))];
        }
        rest := rest - {t};
      }
    }

    /** connection.close. */
    method Disconnect(connection: string)
      requires Valid()
      modifies this, store
      ensures Valid() && Abs() == SlotSpec.Disconnect(old(Abs()), connection)
    {
      ghost var p := Abs();
      DisconnectKeeps(p, connection);
      PluginParts(p);
      hide PluginOk, Moves, Inv, Abandoned, Close, WellFormed, ViewOf, SlotsPoint, DefsOk;
      closed := closed + {connection};
      AbandonAll(Some(connection));
      assert Abs() == p.(closed := p.closed + {connection}, pending := Abandoned(p.pending, Some(connection)));
      store.Close(connection);
      assert Abs() == SlotSpec.Disconnect(p, connection);
    }

    method Stop()
      requires Valid()
      modifies this
      ensures Valid() && Abs() == SlotSpec.Stop(old(Abs()))
    {
      StopKeeps(Abs());
      hide PluginOk, Moves, Abandoned;
      AbandonAll(None);
      running := false;
    }

    /** The checks of Complete up to the installation of the rows. */
    method Install(c: Continuation, payload: Json, now: int, cancelled: bool, ghost a: Around)
      returns (refused: Option<Code>)
      requires store.Valid() && a.now == now && a.cancelled == cancelled
      modifies store
      ensures store.Valid() && (store.Abs(), refused) == SlotSpec.Install(old(Abs()), c, payload, a)
    {
      if c.request.connection in closed || cancelled {
        return Some(CANCELLED);
      }
      if now >= c.request.deadline {
        return Some(DEADLINE_EXCEEDED);
      }
      var fill := payload.fill;
      if fill.None? {
        return Some(INVALID_ARGUMENT);
      }
      if fill.value.slotId != c.slot.id || |fill.value.rows| != |c.slot.keys| {
        return Some(INVALID_RESULT);
      }
      if !running {
        return Some(CANCELLED);
      }
      var v := store.Fill(c.slot, fill.value.rows);
      refused := if v.Done? then None else Some(INVALID_RESULT);
    }

    /** Complete: `a` gathers what the surroundings decided, the rows the SELECT collected included;
        `between` is what sessions do while the store's lock is free. */
    method Complete(r: Resolution, now: int, cancelled: bool, early: bool, late: bool, between: seq<StoreSpec.Event>)
      returns (reply: Reply<Payload>, ghost a: Around)
      requires Valid() && SessionEvents(store.tables, defs, between)
      modifies this, store
      ensures Valid() && (Abs(), reply) == SlotSpec.Complete(old(Abs()), r, a)
      ensures Enabled(old(Abs()), DoComplete(r, a))
      ensures a == Around(now, cancelled, early, late, between, a.reply)
    {
      a := Around(now, cancelled, early, late, between, NoSelection);
      ghost var p := Abs();
      PluginParts(p);
      CompleteIs(p, r, a);
      NothingFits(p, r, a);
      hide PluginOk, Answer, SlotSpec.Complete, AtSelect, ReplyFits, Inv, WellFormed, Finished, SessionEvents;
      if r.continuation !in pending || pending[r.continuation].request.id != r.requestId || r.version != 0 {
        return Err(STATE_CONFLICT), a;
      }
      var c := pending[r.continuation];
      if c.done > 0 {
        return if c.err.None? && c.digest == Some(r.payload) then Ok(c.result) else Err(STATE_CONFLICT), a;
      }
      reply, a := Settle(r, now, cancelled, early, late, between);
    }

    /** Completes an open continuation: answers it and records the answer in it. */
    method Settle(r: Resolution, now: int, cancelled: bool, early: bool, late: bool, between: seq<StoreSpec.Event>)
      returns (reply: Reply<Payload>, ghost a: Around)
      requires Valid() && Addressed(Abs(), r) && pending[r.continuation].done == 0
      requires SessionEvents(store.tables, defs, between)
      modifies this, store
      ensures Valid() && (Abs(), reply) == SlotSpec.Complete(old(Abs()), r, a)
      ensures Enabled(old(Abs()), DoComplete(r, a))
      ensures a == Around(now, cancelled, early, late, between, a.reply)
    {
      ghost var p := Abs();
      PluginParts(p);
      SelectPlan(p, r.continuation);
      hide PluginOk, Moves, Answer, SlotSpec.Complete, AtSelect, ReplyFits, Inv, WellFormed, Finished, SessionEvents;
      var c := pending[r.continuation];
      reply, a := Run(c, r.payload, now, cancelled, early, late, between);
      CompleteIs(p, r, a);
      CompleteKeeps(p, r, a);
      pending := pending[r.continuation := Finished(c, r.payload, reply)];
    }

    /** Installs the rows and answers with the rows of the continuation's SELECT. */
    method Run(c: Continuation, payload: Json, now: int, cancelled: bool, early: bool, late: bool,
               between: seq<StoreSpec.Event>)
      returns (reply: Reply<Payload>, ghost a: Around)
      requires store.Valid() && c.plan.kind == Select && SessionEvents(store.tables, defs, between)
      modifies store
      ensures store.Valid() && (store.Abs(), reply) == Answer(old(Abs()), c, payload, a)
      ensures ReplyFits(AtSelect(old(Abs()), c, payload, a), c, a.reply)
      ensures a == Around(now, cancelled, early, late, between, a.reply)
    {
      a := Around(now, cancelled, early, late, between, NoSelection);
      ghost var p := Abs();
      var refused := Install(c, payload, now, cancelled, a);
      if refused.Some? {
        return Err(refused.value), a;
      }
      Meanwhile(between);
      assert store.Abs() == AtSelect(p, c, payload, a);
      SameAtSelect(p, c, payload, a);
      hide SlotSpec.Install, SlotSpec.Meanwhile, AtSelect, StoreSpec.Execute, SessionEvents, Selects, DataOf, RowsValid, MatchError;
      var v, rows, ids := store.Execute(c.request.connection, c.plan, c.params, early, late);
      if v == Reads && rows.Selection? {
        a := a.(reply := rows);
        return Ok(Rows(rows.rows)), a;
      }
      reply := Err(OTHER_CODE);
    }

    /** What sessions do with the store while its lock is free. */
    method Meanwhile(events: seq<StoreSpec.Event>)
      requires store.Valid() && SessionEvents(store.tables, defs, events)
      modifies store
      ensures store.Valid() && store.Abs() == SlotSpec.Meanwhile(old(store.Abs()), events)
    {
      ghost var s := store.Abs();
      hide StoreSpec.Step, Inv;
      for i := 0 to |events|
        invariant store.Valid() && WellFormed(s.tables) && store.Abs() == SlotSpec.Meanwhile(s, events[..i])
      {
        assert events[..i + 1][..i] == events[..i];
        assert SessionEvent(s.tables, defs, events[i]);
        Perform(store, events[i]);
      }
      assert events[..|events|] == events;
    }
  }

  /** One operation of a session. */
  method Perform(store: S.Store, e: StoreSpec.Event)
    requires store.Valid() && EventOk(store.tables, e) && !e.DoFill?
    modifies store
    ensures store.Valid() && store.Abs() == StoreSpec.Step(old(store.Abs()), e).0
  {
    hide Inv, StoreSpec.Execute, StoreSpec.Commit, StoreSpec.SetAutocommit, KeepsKeys;
    match e
    case DoExecute(sid, plan, params, early, late) =>
      var v, reply, ids := store.Execute(sid, plan, params, early, late);
    case DoBegin(sid) =>
      var v := store.Begin(sid);
    case DoCommit(sid) =>
      var v := store.Commit(sid);
    case DoRollback(sid) =>
      var v := store.Rollback(sid);
    case DoSetAutocommit(sid, on) =>
      var v := store.SetAutocommit(sid, on);
    case DoSetReadOnly(sid, on) =>
      store.SetReadOnly(sid, on);
    case DoOpen(sid, foundRows) =>
      store.Open(sid, foundRows);
    case DoClose(sid) =>
      store.Close(sid);
    case DoFill(_, _) =>
      assert false;
  }

  /** No rows at all always fit. */
  lemma NothingFits(p: SlotSpec.Plugin, r: Resolution, a: Around)
    requires WellFormed(p.store.tables) && a.reply == NoSelection && SessionEvents(p.store.tables, p.defs, a.between)
    ensures Enabled(p, DoComplete(r, a))
  {
  }

  /** The rows the SELECT collects have no influence on the store it runs on. */
  lemma SameAtSelect(p: SlotSpec.Plugin, c: Continuation, payload: Json, a: Around)
    requires WellFormed(p.store.tables)
    ensures forall reply ::
              && AtSelect(p, c, payload, a.(reply := reply)) == AtSelect(p, c, payload, a)
              && SlotSpec.Install(p, c, payload, a.(reply := reply)) == SlotSpec.Install(p, c, payload, a)
  {
  }

  predicate Addressed(p: SlotSpec.Plugin, r: Resolution) {
    r.continuation in p.pending && p.pending[r.continuation].request.id == r.requestId && r.version == 0
  }

  /** The three ways a Complete can go: it addresses no continuation, a finished one, or an open one. */
  lemma CompleteIs(p: SlotSpec.Plugin, r: Resolution, a: Around)
    requires WellFormed(p.store.tables)
    ensures !Addressed(p, r) ==> SlotSpec.Complete(p, r, a) == (p, Err(STATE_CONFLICT))
    ensures Addressed(p, r) ==>
              var c := p.pending[r.continuation];
              if c.done > 0 then
                SlotSpec.Complete(p, r, a) == (p, if c.err.None? && c.digest == Some(r.payload) then Ok(c.result) else Err(STATE_CONFLICT))
              else
                var (s, reply) := Answer(p, c, r.payload, a);
                SlotSpec.Complete(p, r, a) == (p.(store := s, pending := p.pending[r.continuation := Finished(c, r.payload, reply)]), reply)
  {
    hide Answer, Finished, WellFormed;
  }

  lemma PluginParts(p: SlotSpec.Plugin)
    requires PluginOk(p)
    ensures Inv(p.store) && WellFormed(p.store.tables)
  {
  }

  lemma SelectPlan(p: SlotSpec.Plugin, t: nat)
    requires PluginOk(p) && t in p.pending
    ensures p.pending[t].plan.kind == Select
  {
    assert ContinuationOk(p, t, p.pending[t]);
  }
}
