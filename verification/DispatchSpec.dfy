/** The join: dispatched requests between the right plugin and the generation queue. */
module DispatchSpec {
  import opened Values
  import opened Plans
  import opened Schema
  import opened StoreSpec
  import opened Api
  import Q = QueueSpec
  import QI = QueueInvariant
  import P = SlotSpec
  import PI = SlotInvariant

  /** Where a dispatched request is: executing on the right plugin; asked for data; enqueued; given a
      candidate; finished but not yet reported; reported. */
  datatype Stage =
    | Executing
    | Needing(token: nat)
    | Waiting(token: nat, handle: nat)
    | Holding(token: nat, candidate: Json)
    | Ending(out: Reply<Payload>)
    | Ended(out: Reply<Payload>)

  datatype Thread = Thread(request: P.Request, stage: Stage)

  datatype World = World(queue: Q.System, plugin: P.Plugin, threads: map<string, Thread>)

  /** Steps of dispatched requests, of the queue's other callers, and of the plugin's. */
  datatype Event =
    | Dispatches(request: P.Request)
    | Visits(id: string, slot: Slot, plan: Plan, params: seq<Value>, now: int)
    | Finishes(id: string, out: Reply<Payload>)
    | Enqueues(id: string, run: string, need: Q.Need, checkedAt: int)
    | Receives(id: string)
    | SeesDone(id: string)
    | GivesUp(id: string, code: Code)
    | Completes(id: string, around: P.Around, lost: bool)
    | Reports(id: string)
    | QueueMoves(queueEvent: Q.Event)
    | PluginMoves(pluginEvent: P.Event)

  /** Entries are enqueued, received and reported only by the request they belong to. */
  predicate OthersMay(e: Q.Event) {
    !e.DoEnqueue? && !e.DoReceive? && !e.DoReport?
  }

  function StageOf(w: World, id: string): Option<Stage> {
    if id in w.threads then Some(w.threads[id].stage) else None
  }

  function At(w: World, id: string, stage: Stage): map<string, Thread>
    requires id in w.threads
  {
    w.threads[id := w.threads[id].(stage := stage)]
  }

  ghost predicate Sound(w: World) {
    Q.Indexed(w.queue.q) && WellFormed(w.plugin.store.tables) && P.SlotsPoint(w.plugin)
  }

  ghost predicate Enabled(w: World, e: Event)
    requires Sound(w)
  {
    match e
    case Dispatches(request) => request.id !in w.threads
    case Visits(id, slot, plan, params, now) =>
      StageOf(w, id) == Some(Executing) && P.Enabled(w.plugin, P.DoVisit(slot, w.threads[id].request, plan, params, now))
    case Finishes(id, out) => StageOf(w, id) == Some(Executing)
    case Enqueues(id, run, need, at) =>
      id in w.threads && w.threads[id].stage.Needing? && need.requestId == id
    case Receives(id) =>
      id in w.threads && w.threads[id].stage.Waiting?
      && Q.Enabled(w.queue, Q.DoReceive(w.threads[id].stage.handle))
    case SeesDone(id) =>
      id in w.threads && w.threads[id].stage.Waiting?
      && w.threads[id].stage.handle < |w.queue.q.heap| && w.queue.q.heap[w.threads[id].stage.handle].closed > 0
    case GivesUp(id, code) =>
      id in w.threads && (w.threads[id].stage.Needing? || w.threads[id].stage.Waiting? || w.threads[id].stage.Holding?)
    case Completes(id, around, lost) =>
      id in w.threads && w.threads[id].stage.Holding?
      && P.Enabled(w.plugin, P.DoComplete(ResolutionOf(id, w.threads[id].stage), around))
    case Reports(id) => id in w.threads && w.threads[id].stage.Ending?
    case QueueMoves(x) => OthersMay(x) && Q.Enabled(w.queue, x)
    case PluginMoves(x) => !x.DoVisit? && P.Enabled(w.plugin, x)
  }

  function ResolutionOf(id: string, stage: Stage): P.Resolution
    requires stage.Holding?
  {
    P.Resolution(stage.token, id, 0, stage.candidate)
  }

  function AfterVisit(v: P.Visited): Stage {
    match v
    case Needs(token) => Needing(token)
    case Turned(code) => Ending(Err(code))
    case _ => Executing
  }

  /** What the enqueuing caller makes of a closed done channel: the recorded error, or no candidate. */
  function AfterDone(token: nat, err: Option<Code>): Stage {
    match err
    case Some(code) => Ending(Err(code))
    case None => Holding(token, NO_JSON)
  }

  function RawOf(out: Reply<Payload>): Payload {
    match out case Ok(raw) => raw case Err(_) => NoPayload
  }

  function ErrorOf(out: Reply<Payload>): Option<Code> {
    match out case Ok(_) => None case Err(code) => Some(code)
  }

  function WithQueue(w: World, q: Q.Queue): Q.System {
    Q.System(q, w.queue.tickets)
  }

  // ---- one step of a request ----

  function Dispatch(w: World, request: P.Request): World {
    w.(threads := w.threads[request.id := Thread(request, Executing)])
  }

  function Visit(w: World, id: string, slot: Slot, plan: Plan, params: seq<Value>, now: int): World
    requires P.SlotsPoint(w.plugin) && id in w.threads
  {
    var (p, v) := P.Visit(w.plugin, slot, w.threads[id].request, plan, params, now);
    w.(plugin := p, threads := At(w, id, AfterVisit(v)))
  }

  function Finish(w: World, id: string, out: Reply<Payload>): World
    requires id in w.threads
  {
    w.(threads := At(w, id, Ending(out)))
  }

  function Enqueue(w: World, id: string, run: string, need: Q.Need, at: int): World
    requires Q.Indexed(w.queue.q) && id in w.threads && w.threads[id].stage.Needing?
  {
    var (q, reply) := Q.Enqueue(w.queue.q, run, need, at);
    w.(queue := WithQueue(w, q),
       threads := At(w, id, match reply case Ok(h) => Waiting(w.threads[id].stage.token, h) case Err(code) => Ending(Err(code))))
  }

  function Receive(w: World, id: string): World
    requires id in w.threads && w.threads[id].stage.Waiting? && Q.Enabled(w.queue, Q.DoReceive(w.threads[id].stage.handle))
  {
    var s := w.threads[id].stage;
    var entry := w.queue.q.heap[s.handle];
    w.(queue := WithQueue(w, Q.Receive(w.queue.q, s.handle)), threads := At(w, id, Holding(s.token, entry.sent[entry.taken])))
  }

  function SeeDone(w: World, id: string): World
    requires id in w.threads && w.threads[id].stage.Waiting? && w.threads[id].stage.handle < |w.queue.q.heap|
  {
    var s := w.threads[id].stage;
    w.(threads := At(w, id, AfterDone(s.token, w.queue.q.heap[s.handle].error)))
  }

  /** The request's context ended: a waiting request cancels its entry by id. */
  function GiveUp(w: World, id: string, code: Code): World
    requires Q.Indexed(w.queue.q) && id in w.threads
  {
    w.(queue := WithQueue(w, if w.threads[id].stage.Waiting? then Q.CancelRequest(w.queue.q, id, CANCELLED) else w.queue.q),
       threads := At(w, id, Ending(Err(code))))
  }

  /** `lost`: the plugin completed, but its answer did not make it back. */
  ghost function Complete(w: World, id: string, around: P.Around, lost: bool): World
    requires WellFormed(w.plugin.store.tables) && id in w.threads && w.threads[id].stage.Holding?
  {
    var (p, reply) := P.Complete(w.plugin, ResolutionOf(id, w.threads[id].stage), around);
    w.(plugin := p, threads := At(w, id, Ending(if lost then Err(OTHER_CODE) else reply)))
  }

  function Report(w: World, id: string): World
    requires Q.Indexed(w.queue.q) && id in w.threads && w.threads[id].stage.Ending?
  {
    var out := w.threads[id].stage.out;
    w.(queue := WithQueue(w, Q.ReportOutcome(w.queue.q, id, RawOf(out), ErrorOf(out))), threads := At(w, id, Ended(out)))
  }

  ghost function Step(w: World, e: Event): World
    requires Sound(w) && Enabled(w, e)
  {
    match e
    case Dispatches(request) => Dispatch(w, request)
    case Visits(id, slot, plan, params, now) => Visit(w, id, slot, plan, params, now)
    case Finishes(id, out) => Finish(w, id, out)
    case Enqueues(id, run, need, at) => Enqueue(w, id, run, need, at)
    case Receives(id) => Receive(w, id)
    case SeesDone(id) => SeeDone(w, id)
    case GivesUp(id, code) => GiveUp(w, id, code)
    case Completes(id, around, lost) => Complete(w, id, around, lost)
    case Reports(id) => Report(w, id)
    case QueueMoves(x) => w.(queue := Q.Step(w.queue, x))
    case PluginMoves(x) => w.(plugin := P.Step(w.plugin, x))
  }
}
