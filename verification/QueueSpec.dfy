/** The generation queue as a value, and every locked section as one step on it. */
module QueueSpec {
  import opened Values
  import opened Sorting
  import opened Api

  /** `deadline` is in milliseconds; every other time is in nanoseconds. */
  datatype Need = Need(requestId: string, continuation: string, deadline: int, schema: string, context: Json)

  datatype Phase = Pending | Leased | Resolving | Resolved | Cancelled | Expired | Failed

  predicate Terminal(p: Phase) {
    p == Resolved || p == Cancelled || p == Expired || p == Failed
  }

  /** `sent` lists everything put on the delivery channel and `taken` counts what was received
      from it; `closed` counts how often the done channel was closed. Lease 0 is no lease. */
  datatype Entry = Entry(
    run: string,
    need: Need,
    phase: Phase,
    lease: nat,
    hash: Option<string>,
    leaseExpiry: int,
    epoch: int,
    candidate: Json,
    sent: seq<Json>,
    taken: nat,
    closed: nat,
    response: Payload,
    error: Option<Code>)

  datatype Owner = Owner(token: nat, epoch: int)

  const NOBODY := Owner(0, 0)

  /** Entries live under handles that are never reused; `index` finds the one of a request id.
      Tokens are drawn from the counter `minted`. */
  datatype Queue = Queue(heap: seq<Entry>, index: map<string, nat>, owners: map<string, Owner>, minted: nat)

  const EMPTY := Queue([], map[], map[], 0)

  const NANOS_PER_MILLI := 1_000_000
  const LEASE_NANOS := 15_000_000_000
  const MAX_ACTIVE := 512
  const MAX_ACTIVE_PER_RUN := 128
  const MAX_PER_RUN := 4096

  /** Time.UnixMilli. */
  function Millis(t: int): int {
    t / NANOS_PER_MILLI
  }

  predicate Indexed(q: Queue) {
    forall id :: id in q.index ==> q.index[id] < |q.heap| && q.heap[q.index[id]].need.requestId == id
  }

  predicate Listed(q: Queue, h: nat) {
    h < |q.heap| && q.heap[h].need.requestId in q.index && q.index[q.heap[h].need.requestId] == h
  }

  function OwnerOf(q: Queue, run: string): Owner {
    if run in q.owners then q.owners[run] else NOBODY
  }

  function RunIds(q: Queue, run: string): set<string>
    requires Indexed(q)
  {
    set id | id in q.index && q.heap[q.index[id]].run == run
  }

  function ActiveIds(q: Queue): set<string>
    requires Indexed(q)
  {
    set id | id in q.index && !Terminal(q.heap[q.index[id]].phase)
  }

  // ---- one entry ----

  /** finish: the first terminal state stays. */
  function Finish(e: Entry, phase: Phase, raw: Payload, err: Option<Code>): Entry {
    if Terminal(e.phase) then e else e.(phase := phase, response := raw, error := err, closed := e.closed + 1)
  }

  function Returned(e: Entry): Entry {
    e.(phase := Pending, lease := 0)
  }

  function LeaseEnd(e: Entry, now: int): int {
    var deadline := e.need.deadline * NANOS_PER_MILLI;
    if deadline < now + LEASE_NANOS then deadline else now + LEASE_NANOS
  }

  function Lease(e: Entry, epoch: int, token: nat, now: int): Entry {
    e.(phase := Leased, lease := token, epoch := epoch, leaseExpiry := LeaseEnd(e, now))
  }

  /** An entry whose deadline passed is finished; one whose lease ran out is pending again. */
  function Aged(e: Entry, now: int): Entry {
    if Terminal(e.phase) then e
    else if now >= e.need.deadline * NANOS_PER_MILLI then Finish(e, Expired, NoPayload, Some(DEADLINE_EXCEEDED))
    else if e.phase == Leased && now >= e.leaseExpiry then Returned(e)
    else e
  }

  // ---- Enqueue ----

  function NewEntry(run: string, need: Need): Entry {
    Entry(run, need, Pending, 0, None, 0, 0, NO_JSON, [], 0, 0, NoPayload, None)
  }

  predicate Full(q: Queue, run: string)
    requires Indexed(q)
  {
    || |ActiveIds(q)| >= MAX_ACTIVE
    || |ActiveIds(q) * RunIds(q, run)| >= MAX_ACTIVE_PER_RUN
    || |RunIds(q, run)| >= MAX_PER_RUN
  }

  /** The clock is read before the lock is taken, at `checkedAt`. */
  function Enqueue(q: Queue, run: string, need: Need, checkedAt: int): (Queue, Reply<nat>)
    requires Indexed(q)
  {
    if run == "" || need.requestId == "" || need.continuation == "" || need.deadline <= Millis(checkedAt) then
      (q, Err(DEADLINE_EXCEEDED))
    else if need.requestId in q.index then (q, Err(STATE_CONFLICT))
    else if Full(q, run) then (q, Err(QUEUE_FULL))
    else
      (q.(heap := q.heap + [NewEntry(run, need)], index := q.index[need.requestId := |q.heap|]), Ok(|q.heap|))
  }

  // ---- Next ----

  datatype NextCall = NextCall(run: string, token: nat, limit: int, wait: int, takeover: bool, expectedEpoch: int)

  datatype Grant = Grant(handle: nat, need: Need, lease: nat, expiry: int)

  datatype Batch = Batch(owner: Owner, grants: seq<Grant>)

  predicate Committing(q: Queue, run: string)
    requires Indexed(q)
  {
    exists id :: id in q.index && q.heap[q.index[id]].run == run && q.heap[q.index[id]].phase == Resolving
  }

  function ReleaseRun(q: Queue, run: string): seq<Entry> {
    seq(|q.heap|, h requires 0 <= h < |q.heap| =>
      if Listed(q, h) && q.heap[h].run == run && q.heap[h].phase == Leased then Returned(q.heap[h]) else q.heap[h])
  }

  /** The first part of Next: become, stay, or fail to be the owner of the run. */
  function Claim(q: Queue, call: NextCall): (Queue, Reply<Owner>)
    requires Indexed(q)
  {
    var o := OwnerOf(q, call.run);
    if call.takeover then
      if call.run !in q.owners || o.epoch != call.expectedEpoch then (q, Err(STATE_CONFLICT))
      else if Committing(q, call.run) then (q, Err(STATE_CONFLICT))
      else
        var mine := Owner(q.minted + 1, o.epoch + 1);
        (q.(heap := ReleaseRun(q, call.run), owners := q.owners[call.run := mine], minted := q.minted + 1), Ok(mine))
    else if call.run !in q.owners then
      if call.token != 0 then (q, Err(OWNER_CONFLICT))
      else
        var mine := Owner(q.minted + 1, 1);
        (q.(owners := q.owners[call.run := mine], minted := q.minted + 1), Ok(mine))
    else if call.token != o.token then (q, Err(OWNER_CONFLICT))
    else (q, Ok(o))
  }

  datatype Scanned = Scanned(heap: seq<Entry>, minted: nat, grants: seq<Grant>)

  /** One entry of the scan: aged, and leased when it is pending and the batch has room. */
  function ScanOne(s: Scanned, h: nat, epoch: int, limit: int, now: int): Scanned
    requires h < |s.heap|
  {
    var e := Aged(s.heap[h], now);
    if e.phase == Pending && |s.grants| < limit then
      var l := Lease(e, epoch, s.minted + 1, now);
      Scanned(s.heap[h := l], s.minted + 1, s.grants + [Grant(h, l.need, l.lease, Millis(l.leaseExpiry))])
    else Scanned(s.heap[h := e], s.minted, s.grants)
  }

  function ScanIds(q: Queue, ids: seq<string>, epoch: int, limit: int, now: int): (s: Scanned)
    requires Indexed(q) && forall id :: id in ids ==> id in q.index
    ensures |s.heap| == |q.heap|
  {
    if ids == [] then Scanned(q.heap, q.minted, [])
    else
      ScanOne(ScanIds(q, ids[..|ids| - 1], epoch, limit, now), q.index[ids[|ids| - 1]], epoch, limit, now)
  }

  /** One pass of Next over the entries of the run in request-id order, by a caller who believes
      to be the owner `o`. */
  ghost function Pass(q: Queue, run: string, o: Owner, limit: int, now: int): (Queue, Reply<Batch>)
    requires Indexed(q)
  {
    if OwnerOf(q, run) != o then (q, Err(OWNER_CONFLICT))
    else
      var s := ScanIds(q, SortedKeys(RunIds(q, run)), o.epoch, limit, now);
      (q.(heap := s.heap, minted := s.minted), Ok(Batch(o, s.grants)))
  }

  lemma ClaimKeepsIndexed(q: Queue, call: NextCall)
    requires Indexed(q)
    ensures Indexed(Claim(q, call).0)
  {
  }

  predicate WellFormedCall(call: NextCall) {
    call.run != "" && 1 <= call.limit <= 8 && 0 <= call.wait <= 2000
  }

  /** The first locked section of Next: the claim and, if it succeeds, the first pass. */
  ghost function Next(q: Queue, call: NextCall, now: int): (Queue, Reply<Batch>)
    requires Indexed(q)
  {
    if !WellFormedCall(call) then (q, Err(INVALID_ARGUMENT))
    else
      var (claimed, o) := Claim(q, call);
      ClaimKeepsIndexed(q, call);
      match o
      case Err(code) => (claimed, Err(code))
      case Ok(owner) => Pass(claimed, call.run, owner, call.limit, now)
  }

  // ---- Resolve ----

  datatype ResolveRequest = ResolveRequest(run: string, requestId: string, owner: nat, lease: nat, candidate: Json)

  /** What a Resolve call remembers while the schema is checked without the lock. */
  datatype Ticket = Ticket(handle: nat, request: ResolveRequest, owner: Owner)

  /** `Awaits` joins the outcome of an already accepted candidate. */
  datatype Checked = Rejected(code: Code) | Awaits(handle: nat) | Passed(ticket: Ticket)

  predicate LeaseUsable(e: Entry, lease: nat, now: int) {
    e.phase == Leased && e.lease == lease && now < e.leaseExpiry && Millis(now) < e.need.deadline
  }

  /** The first locked section of Resolve. */
  function ResolveCheck(q: Queue, r: ResolveRequest, now: int): Checked
    requires Indexed(q)
  {
    if r.requestId !in q.index then Rejected(OWNER_CONFLICT)
    else
      var e := q.heap[q.index[r.requestId]];
      var o := OwnerOf(q, r.run);
      if e.run != r.run || o.token == 0 || o.token != r.owner then Rejected(OWNER_CONFLICT)
      else if r.candidate.canonical.None? then Rejected(INVALID_ARGUMENT)
      else if e.hash.Some? then
        if e.hash != r.candidate.canonical || e.epoch != o.epoch || e.lease != r.lease then Rejected(STATE_CONFLICT)
        else Awaits(q.index[r.requestId])
      else if !LeaseUsable(e, r.lease, now) || e.epoch != o.epoch then Rejected(STATE_CONFLICT)
      else Passed(Ticket(q.index[r.requestId], r, o))
  }

  function Accept(e: Entry, candidate: Json): Entry {
    e.(hash := candidate.canonical, candidate := candidate, phase := Resolving, sent := e.sent + [candidate])
  }

  /** The second locked section, once the candidate conforms to the schema. */
  function ResolveCommit(q: Queue, t: Ticket, now: int): (Queue, Reply<nat>)
    requires t.handle < |q.heap|
  {
    var e := q.heap[t.handle];
    if !LeaseUsable(e, t.request.lease, now) || OwnerOf(q, t.request.run) != t.owner then (q, Err(STATE_CONFLICT))
    else (q.(heap := q.heap[t.handle := Accept(e, t.request.candidate)]), Ok(t.handle))
  }

  // ---- outcomes and cancellation ----

  function Update(q: Queue, id: string, e: Entry): Queue
    requires Indexed(q) && id in q.index
  {
    q.(heap := q.heap[q.index[id] := e])
  }

  function ReportOutcome(q: Queue, id: string, raw: Payload, err: Option<Code>): Queue
    requires Indexed(q)
  {
    if id !in q.index then q
    else
      var e := q.heap[q.index[id]];
      if Terminal(e.phase) then q
      else if err.Some? then Update(q, id, Finish(e, Failed, raw, err))
      else if e.phase == Resolving then Update(q, id, Finish(e, Resolved, raw, None))
      else q
  }

  function CancelRequest(q: Queue, id: string, code: Code): Queue
    requires Indexed(q)
  {
    if id !in q.index then q
    else
      Update(q, id, Finish(q.heap[q.index[id]], if code == DEADLINE_EXCEEDED then Expired else Cancelled, NoPayload, Some(code)))
  }

  function CancelRun(q: Queue, run: string, code: Code): Queue {
    q.(heap := seq(|q.heap|, h requires 0 <= h < |q.heap| =>
      if Listed(q, h) && q.heap[h].run == run then Finish(q.heap[h], Cancelled, NoPayload, Some(code)) else q.heap[h]))
  }

  /** The second locked section of Forget; the first one is CancelRun. */
  function Drop(q: Queue, run: string): Queue
    requires Indexed(q)
  {
    q.(index := q.index - RunIds(q, run), owners := q.owners - {run})
  }

  datatype Capture = Capture(candidate: Json, context: Json, response: Payload)

  function CaptureOf(q: Queue, run: string, id: string): Reply<Capture>
    requires Indexed(q)
  {
    if id !in q.index || q.heap[q.index[id]].run != run || q.heap[q.index[id]].phase != Resolved then Err(INVALID_RESULT)
    else
      var e := q.heap[q.index[id]];
      Ok(Capture(e.candidate, e.need.context, e.response))
  }

  /** The enqueuing caller receives from the delivery channel. */
  function Receive(q: Queue, h: nat): Queue
    requires h < |q.heap|
  {
    q.(heap := q.heap[h := q.heap[h].(taken := q.heap[h].taken + 1)])
  }

  // ---- the transition system ----

  datatype Event =
    | DoEnqueue(run: string, need: Need, checkedAt: int)
    | DoNext(call: NextCall, now: int)
    | DoPass(run: string, owner: Owner, limit: nat, now: int)
    | DoCheck(request: ResolveRequest, now: int)
    | DoCommit(ticket: Ticket, now: int)
    | DoReport(id: string, raw: Payload, err: Option<Code>)
    | DoCancel(id: string, code: Code)
    | DoCancelRun(run: string, code: Code)
    | DoDrop(run: string)
    | DoReceive(handle: nat)

  /** The queue together with the tickets of Resolve calls between their two sections. */
  datatype System = System(q: Queue, tickets: set<Ticket>)

  /** A later pass needs an owner from a claim, a commit a ticket from a check, a receive
      something to receive. */
  predicate Enabled(s: System, e: Event) {
    && (e.DoPass? ==> e.owner.token != 0)
    && (e.DoCommit? ==> e.ticket in s.tickets && e.ticket.handle < |s.q.heap|)
    && (e.DoReceive? ==> e.handle < |s.q.heap| && s.q.heap[e.handle].taken < |s.q.heap[e.handle].sent|)
  }

  ghost function QueueStep(s: System, e: Event): Queue
    requires Indexed(s.q) && Enabled(s, e)
  {
    match e
    case DoEnqueue(run, need, at) => Enqueue(s.q, run, need, at).0
    case DoNext(call, now) => Next(s.q, call, now).0
    case DoPass(run, o, limit, now) => Pass(s.q, run, o, limit, now).0
    case DoCheck(_, _) => s.q
    case DoCommit(t, now) => ResolveCommit(s.q, t, now).0
    case DoReport(id, raw, err) => ReportOutcome(s.q, id, raw, err)
    case DoCancel(id, code) => CancelRequest(s.q, id, code)
    case DoCancelRun(run, code) => CancelRun(s.q, run, code)
    case DoDrop(run) => Drop(s.q, run)
    case DoReceive(h) => Receive(s.q, h)
  }

  function TicketsAfter(s: System, e: Event): set<Ticket>
    requires Indexed(s.q)
  {
    if e.DoCheck? && ResolveCheck(s.q, e.request, e.now).Passed?
    then s.tickets + {ResolveCheck(s.q, e.request, e.now).ticket}
    else s.tickets
  }

  ghost function Step(s: System, e: Event): System
    requires Indexed(s.q) && Enabled(s, e)
  {
    System(QueueStep(s, e), TicketsAfter(s, e))
  }

  /** The batch a step hands out, if it is a successful pass. */
  ghost function BatchOf(s: System, e: Event): Option<Batch>
    requires Indexed(s.q)
  {
    var reply := if e.DoNext? then Next(s.q, e.call, e.now).1
                 else if e.DoPass? then Pass(s.q, e.run, e.owner, e.limit, e.now).1
                 else Err(OTHER_CODE);
    if reply.Ok? then Some(reply.value) else None
  }
}
