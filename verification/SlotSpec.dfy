/** The reference slots of the right plugin: continuations that wait for rows, as steps on a value. */
module SlotSpec {
  import opened Values
  import opened Schema
  import opened Plans
  import opened StoreSpec
  import opened StoreInvariant
  import opened Selection
  import opened Api
  import StoreRuns

  /** `deadline` is in milliseconds; `body` is everything else of the request. */
  datatype Request = Request(id: string, connection: string, deadline: int, body: string)

  /** `done` counts how often the done channel was closed. */
  datatype Continuation = Continuation(
    request: Request,
    plan: Plan,
    params: seq<Value>,
    slot: Slot,
    done: nat,
    err: Option<Code>,
    digest: Option<Json>,
    result: Payload)

  /** `slots` names the current continuation of a slot; `pending` keeps all there ever were.
      Tokens are drawn from the counter `minted`. */
  datatype Plugin = Plugin(
    store: State,
    running: bool,
    defs: seq<Slot>,
    generating: bool,
    pending: map<nat, Continuation>,
    slots: map<string, nat>,
    closed: set<string>,
    minted: nat)

  const MAX_PENDING := 128

  predicate SlotsPoint(p: Plugin) {
    forall id :: id in p.slots ==> p.slots[id] in p.pending
  }

  function Abandon(c: Continuation, code: Code): Continuation {
    if c.done > 0 then c else c.(done := c.done + 1, err := Some(code))
  }

  // ---- a SELECT meets a slot ----

  /** The slot is filled; somebody else's continuation is open; the request fails; or it became
      the one that needs the rows. */
  datatype Visited = Passes | Waits(token: nat) | Turned(code: Code) | Needs(token: nat)

  /** A failed continuation frees its slot, and so does one whose deadline passed. */
  function Recycle(p: Plugin, slotId: string, now: int): Plugin
    requires SlotsPoint(p)
  {
    if slotId !in p.slots then p
    else
      var token := p.slots[slotId];
      var c := p.pending[token];
      if c.done > 0 then (if c.err.None? then p else p.(slots := p.slots - {slotId}))
      else if c.request.deadline <= now then
        p.(pending := p.pending[token := Abandon(c, DEADLINE_EXCEEDED)], slots := p.slots - {slotId})
      else p
  }

  /** The rest of the round: join the slot's continuation or become it. */
  function Admit(p: Plugin, slot: Slot, q: Request, plan: Plan, params: seq<Value>): (Plugin, Visited)
    requires SlotsPoint(p)
  {
    if slot.id in p.slots then
      (p, if p.pending[p.slots[slot.id]].done > 0 then Passes else Waits(p.slots[slot.id]))
    else if !p.generating then (p, Turned(UNMATCHED_REQUEST))
    else if |p.pending| >= MAX_PENDING then (p, Turned(QUEUE_FULL))
    else
      var token := p.minted + 1;
      var c := Continuation(q, plan, params, slot, 0, None, None, NoPayload);
      (p.(pending := p.pending[token := c], slots := p.slots[slot.id := token], minted := token), Needs(token))
  }

  lemma RecyclePoints(p: Plugin, slotId: string, now: int)
    requires SlotsPoint(p)
    ensures SlotsPoint(Recycle(p, slotId, now))
  {
  }

  /** One round of a SELECT's loop over the slots of its table. */
  function Visit(p: Plugin, slot: Slot, q: Request, plan: Plan, params: seq<Value>, now: int): (Plugin, Visited)
    requires SlotsPoint(p)
  {
    RecyclePoints(p, slot.id, now);
    Admit(Recycle(p, slot.id, now), slot, q, plan, params)
  }

  // ---- connection.close and Stop ----

  /** Every open continuation of the connection is cancelled, or every open one at all. */
  function Abandoned(pending: map<nat, Continuation>, connection: Option<string>): map<nat, Continuation> {
    map t | t in pending ::
      if connection == None || connection == Some(pending[t].request.connection) then Abandon(pending[t], CANCELLED)
      else pending[t]
  }

  function Disconnect(p: Plugin, connection: string): Plugin {
    p.(closed := p.closed + {connection},
       pending := Abandoned(p.pending, Some(connection)),
       store := Close(p.store, connection).0)
  }

  function Stop(p: Plugin): Plugin {
    p.(running := false, pending := Abandoned(p.pending, None))
  }

  // ---- Complete ----

  datatype Resolution = Resolution(continuation: nat, requestId: string, version: int, payload: Json)

  /** What the surroundings decide during one Complete: the clock in milliseconds, cancellation at
      its three checks, what sessions do between the installation and the SELECT, when the store's
      lock is free, and the rows the SELECT collects. */
  datatype Around = Around(
    now: int,
    cancelled: bool,
    early: bool,
    late: bool,
    between: seq<StoreSpec.Event>,
    reply: Selected)

  /** Filling the slot, up to the installation of the rows; `Err` leaves the store alone. */
  ghost function Install(p: Plugin, c: Continuation, payload: Json, a: Around): (State, Option<Code>)
    requires WellFormed(p.store.tables)
  {
    if c.request.connection in p.closed then (p.store, Some(CANCELLED))
    else if a.cancelled then (p.store, Some(CANCELLED))
    else if a.now >= c.request.deadline then (p.store, Some(DEADLINE_EXCEEDED))
    else
      match payload.fill
      case None => (p.store, Some(INVALID_ARGUMENT))
      case Some(fill) =>
        if fill.slotId != c.slot.id || |fill.rows| != |c.slot.keys| then (p.store, Some(INVALID_RESULT))
        else if !p.running then (p.store, Some(CANCELLED))
        else
          var (s, v) := Fill(p.store, c.slot, fill.rows);
          if v.Done? then (s, None) else (p.store, Some(INVALID_RESULT))
  }

  lemma InstallKeepsTables(p: Plugin, c: Continuation, payload: Json, a: Around)
    requires WellFormed(p.store.tables)
    ensures Install(p, c, payload, a).0.tables == p.store.tables
  {
  }

  /** The store after the events, one after the other. */
  ghost function Meanwhile(s: State, events: seq<StoreSpec.Event>): (s': State)
    requires WellFormed(s.tables)
    ensures s'.tables == s.tables
  {
    if events == [] then s
    else
      var before := Meanwhile(s, events[..|events| - 1]);
      StoreRuns.StepPublishes(before, events[|events| - 1]);
      StoreSpec.Step(before, events[|events| - 1]).0
  }

  /** The store the SELECT of a completed continuation runs on. */
  ghost function AtSelect(p: Plugin, c: Continuation, payload: Json, a: Around): (s: State)
    requires WellFormed(p.store.tables)
    ensures s.tables == p.store.tables
  {
    InstallKeepsTables(p, c, payload, a);
    Meanwhile(Install(p, c, payload, a).0, a.between)
  }

  /** The body of Complete for an open continuation: install the rows, then run its SELECT. The
      plugin's lock is held throughout, the store's lock is released once in between. */
  ghost function Answer(p: Plugin, c: Continuation, payload: Json, a: Around): (State, Reply<Payload>)
    requires WellFormed(p.store.tables)
  {
    match Install(p, c, payload, a).1
    case Some(code) => (p.store, Err(code))
    case None =>
      var (s2, v) := Execute(AtSelect(p, c, payload, a), c.request.connection, c.plan, c.params, a.early, a.late);
      (s2, if v == Reads && a.reply.Selection? then Ok(Rows(a.reply.rows)) else Err(OTHER_CODE))
  }

  function Finished(c: Continuation, payload: Json, reply: Reply<Payload>): Continuation {
    match reply
    case Ok(raw) => c.(done := c.done + 1, err := None, digest := Some(payload), result := raw)
    case Err(code) => c.(done := c.done + 1, err := Some(code), digest := Some(payload), result := NoPayload)
  }

  ghost function Complete(p: Plugin, r: Resolution, a: Around): (Plugin, Reply<Payload>)
    requires WellFormed(p.store.tables)
  {
    if r.continuation !in p.pending || p.pending[r.continuation].request.id != r.requestId || r.version != 0 then
      (p, Err(STATE_CONFLICT))
    else
      var c := p.pending[r.continuation];
      if c.done > 0 then
        (p, if c.err.None? && c.digest == Some(r.payload) then Ok(c.result) else Err(STATE_CONFLICT))
      else
        var (s, reply) := Answer(p, c, r.payload, a);
        (p.(store := s, pending := p.pending[r.continuation := Finished(c, r.payload, reply)]), reply)
  }

  // ---- the transition system ----

  datatype Event =
    | DoVisit(slot: Slot, request: Request, plan: Plan, params: seq<Value>, now: int)
    | DoDisconnect(connection: string)
    | DoStop
    | DoComplete(r: Resolution, a: Around)
    | DoStore(e: StoreSpec.Event)

  /** Prepare: slots have distinct ids, belong to known tables, and name at least one key. */
  ghost predicate DefsOk(tables: seq<Table>, defs: seq<Slot>) {
    && (forall i, j :: 0 <= i < j < |defs| ==> defs[i].id != defs[j].id)
    && (forall d :: d in defs ==> FindTable(tables, d.table).Some? && d.keys != [])
  }

  predicate SlotTable(defs: seq<Slot>, name: string) {
    exists i :: 0 <= i < |defs| && defs[i].table == name
  }

  /** The statement writes no table that has slots. */
  ghost predicate LeavesSlotTables(defs: seq<Slot>, e: StoreSpec.Event) {
    e.DoExecute? && e.plan.kind != Select ==> !SlotTable(defs, e.plan.table)
  }

  /** What sessions do with the store never fills, and writes no table that has slots. */
  ghost predicate SessionEvent(tables: seq<Table>, defs: seq<Slot>, e: StoreSpec.Event)
    requires WellFormed(tables)
  {
    !e.DoFill? && EventOk(tables, e) && LeavesSlotTables(defs, e)
  }

  ghost predicate SessionEvents(tables: seq<Table>, defs: seq<Slot>, events: seq<StoreSpec.Event>)
    requires WellFormed(tables)
  {
    forall i :: 0 <= i < |events| ==> SessionEvent(tables, defs, events[i])
  }

  /** The rows of a SELECT are rows it may return. */
  ghost predicate ReplyFits(s: State, c: Continuation, reply: Selected) {
    reply.Selection? && FindTable(s.tables, c.plan.table).Some? ==>
      exists ids ::
        && Selects(FindTable(s.tables, c.plan.table).value, ViewOf(s, c.request.connection), c.plan, c.params, ids)
        && (forall id :: id in ids ==> id in ViewOf(s, c.request.connection))
        && reply.rows == DataOf(ViewOf(s, c.request.connection), c.plan.projection, ids)
  }

  /** What the callers guarantee: statements come from the compiled scenario, SELECTs visit the
      unfilled slots of their own table, and store steps of sessions never fill. */
  ghost predicate Enabled(p: Plugin, e: Event)
    requires WellFormed(p.store.tables)
  {
    match e
    case DoVisit(slot, _, plan, _, _) => slot in p.defs && !slot.materialized && plan.kind == Select && plan.table == slot.table
    case DoStore(x) => SessionEvent(p.store.tables, p.defs, x)
    case DoComplete(r, a) =>
      && SessionEvents(p.store.tables, p.defs, a.between)
      && (r.continuation in p.pending ==>
            ReplyFits(AtSelect(p, p.pending[r.continuation], r.payload, a), p.pending[r.continuation], a.reply))
    case _ => true
  }

  ghost function Step(p: Plugin, e: Event): Plugin
    requires WellFormed(p.store.tables) && SlotsPoint(p)
  {
    match e
    case DoVisit(slot, q, plan, params, now) => Visit(p, slot, q, plan, params, now).0
    case DoDisconnect(connection) => Disconnect(p, connection)
    case DoStop => Stop(p)
    case DoComplete(r, a) => Complete(p, r, a).0
    case DoStore(x) => p.(store := StoreSpec.Step(p.store, x).0)
  }
}
