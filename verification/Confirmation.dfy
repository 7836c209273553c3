/** End-to-end confirmation: a resolved entry is a finished continuation, for good. */
module Confirmation {
  import opened Values
  import opened Sorting
  import opened Plans
  import opened Schema
  import ST = StoreSpec
  import opened Api
  import opened DispatchSpec
  import Q = QueueSpec
  import QI = QueueInvariant
  import QF = QueueFrames
  import QR = QueueRuns
  import P = SlotSpec
  import PI = SlotInvariant
  import PR = SlotRuns

  // ---- the queue's other callers neither receive nor resolve ----

  ghost predicate Quiet(e: Q.Entry, f: Q.Entry) {
    f.taken == e.taken && (f.phase == Q.Resolved ==> e.phase == Q.Resolved)
  }

  ghost predicate AllQuiet(a: seq<Q.Entry>, b: seq<Q.Entry>) {
    |b| == |a| && forall h :: 0 <= h < |a| ==> Quiet(a[h], b[h])
  }

  lemma QuietTransitive(a: seq<Q.Entry>, b: seq<Q.Entry>, c: seq<Q.Entry>)
    requires AllQuiet(a, b) && AllQuiet(b, c)
    ensures AllQuiet(a, c)
  {
    forall h | 0 <= h < |a| ensures Quiet(a[h], c[h]) {
      assert Quiet(a[h], b[h]) && Quiet(b[h], c[h]);
    }
  }

  lemma ReplaceQuiet(a: seq<Q.Entry>, h: nat, f: Q.Entry)
    requires h < |a| && Quiet(a[h], f)
    ensures AllQuiet(a, a[h := f])
  {
  }

  lemma {:induction false} ScanQuiet(q: Q.Queue, ids: seq<string>, epoch: int, limit: int, now: int)
    requires Q.Indexed(q) && forall id :: id in ids ==> id in q.index
    ensures AllQuiet(q.heap, Q.ScanIds(q, ids, epoch, limit, now).heap)
    decreases |ids|
  {
    if ids != [] {
      var front, h := ids[..|ids| - 1], q.index[ids[|ids| - 1]];
      ScanQuiet(q, front, epoch, limit, now);
      var s := Q.ScanIds(q, front, epoch, limit, now);
      var r := Q.ScanOne(s, h, epoch, limit, now);
      assert r.heap == s.heap[h := r.heap[h]];
      ReplaceQuiet(s.heap, h, r.heap[h]);
      QuietTransitive(q.heap, s.heap, r.heap);
    }
  }

  lemma PassQuiet(q: Q.Queue, run: string, o: Q.Owner, limit: int, now: int)
    requires Q.Indexed(q)
    ensures AllQuiet(q.heap, Q.Pass(q, run, o, limit, now).0.heap)
  {
    if Q.OwnerOf(q, run) == o {
      ScanQuiet(q, SortedKeys(Q.RunIds(q, run)), o.epoch, limit, now);
    }
  }

  lemma ClaimQuiet(q: Q.Queue, call: Q.NextCall)
    requires Q.Indexed(q)
    ensures AllQuiet(q.heap, Q.Claim(q, call).0.heap)
  {
  }

  lemma NextQuiet(q: Q.Queue, call: Q.NextCall, now: int)
    requires Q.Indexed(q)
    ensures AllQuiet(q.heap, Q.Next(q, call, now).0.heap)
  {
    if Q.WellFormedCall(call) {
      var (c, o) := Q.Claim(q, call);
      ClaimQuiet(q, call);
      Q.ClaimKeepsIndexed(q, call);
      if o.Ok? {
        PassQuiet(c, call.run, o.value, call.limit, now);
        QuietTransitive(q.heap, c.heap, Q.Pass(c, call.run, o.value, call.limit, now).0.heap);
      }
    }
  }

  lemma CancelRunQuiet(q: Q.Queue, run: string, code: Code)
    ensures AllQuiet(q.heap, Q.CancelRun(q, run, code).heap)
  {
  }

  lemma OthersStayQuiet(s: Q.System, e: Q.Event)
    requires Q.Indexed(s.q) && Q.Enabled(s, e) && OthersMay(e)
    ensures AllQuiet(s.q.heap, Q.QueueStep(s, e).heap)
  {
    match e
    case DoNext(call, now) => NextQuiet(s.q, call, now);
    case DoPass(run, o, limit, now) => PassQuiet(s.q, run, o, limit, now);
    case DoCheck(_, _) =>
    case DoCommit(t, now) => ReplaceQuiet(s.q.heap, t.handle, Q.Accept(s.q.heap[t.handle], t.request.candidate));
    case DoCancel(id, code) => CancelQuiet(s.q, id, code);
    case DoCancelRun(run, code) => CancelRunQuiet(s.q, run, code);
    case DoDrop(_) =>
  }

  lemma CancelQuiet(q: Q.Queue, id: string, code: Code)
    requires Q.Indexed(q)
    ensures AllQuiet(q.heap, Q.CancelRequest(q, id, code).heap)
  {
    if id in q.index {
      ReplaceQuiet(q.heap, q.index[id], Q.CancelRequest(q, id, code).heap[q.index[id]]);
    }
  }

  // ---- confirmation ----

  /** The continuation finished without error, for this request and candidate, with this answer. */
  ghost predicate ConfirmedBy(c: P.Continuation, request: P.Request, candidate: Json, raw: Payload) {
    c.done == 1 && c.err.None? && c.request == request && c.digest == Some(candidate) && c.result == raw
  }

  ghost predicate Confirmed(p: P.Plugin, request: P.Request, candidate: Json, raw: Payload) {
    exists t :: t in p.pending && ConfirmedBy(p.pending[t], request, candidate, raw)
  }

  lemma ConfirmedStays(p: P.Plugin, q: P.Plugin, request: P.Request, candidate: Json, raw: Payload)
    requires PI.SlotsMove(p, q) && Confirmed(p, request, candidate, raw)
    ensures Confirmed(q, request, candidate, raw)
  {
    var t :| t in p.pending && ConfirmedBy(p.pending[t], request, candidate, raw);
    assert PI.Settles(p.pending[t], q.pending[t]);
    assert ConfirmedBy(q.pending[t], request, candidate, raw);
  }

  // ---- the invariant of the join ----

  /** The thread's continuation was opened for its own request. */
  ghost predicate ThreadOk(p: P.Plugin, id: string, t: Thread) {
    && t.request.id == id
    && (t.stage.Needing? || t.stage.Waiting? || t.stage.Holding? ==>
          t.stage.token in p.pending && p.pending[t.stage.token].request == t.request)
  }

  /** How far an entry is, seen from the stage of its request. */
  ghost predicate EntryFits(p: P.Plugin, h: nat, e: Q.Entry, t: Thread) {
    match t.stage
    case Executing => false
    case Needing(_) => false
    case Waiting(_, k) => k == h && e.taken == 0 && e.phase != Q.Resolved
    case Holding(_, candidate) => e.phase != Q.Resolved && e.taken == 1 && candidate == e.candidate
    case Ending(out) => e.phase != Q.Resolved && (out.Ok? ==> e.taken == 1 && Confirmed(p, t.request, e.candidate, out.value))
    case Ended(out) => e.phase == Q.Resolved ==> out == Ok(e.response) && Confirmed(p, t.request, e.candidate, e.response)
  }

  ghost predicate EntryOwned(w: World, h: nat)
    requires h < |w.queue.q.heap|
  {
    var e := w.queue.q.heap[h];
    e.need.requestId in w.threads && EntryFits(w.plugin, h, e, w.threads[e.need.requestId])
  }

  /** A waiting request waits on its own entry. */
  ghost predicate HandleOk(heap: seq<Q.Entry>, id: string, t: Thread) {
    t.stage.Waiting? ==> t.stage.handle < |heap| && heap[t.stage.handle].need.requestId == id
  }

  ghost predicate OneEntryEach(heap: seq<Q.Entry>) {
    forall h, k :: 0 <= h < k < |heap| ==> heap[h].need.requestId != heap[k].need.requestId
  }

  ghost predicate WorldOk(w: World) {
    && QI.SystemOk(w.queue) && PI.PluginOk(w.plugin)
    && (forall id :: id in w.threads ==> ThreadOk(w.plugin, id, w.threads[id]) && HandleOk(w.queue.q.heap, id, w.threads[id]))
    && (forall h :: 0 <= h < |w.queue.q.heap| ==> EntryOwned(w, h))
    && OneEntryEach(w.queue.q.heap)
  }

  // ---- frames ----

  lemma ThreadStays(p: P.Plugin, q: P.Plugin, id: string, t: Thread)
    requires PI.SlotsMove(p, q) && ThreadOk(p, id, t)
    ensures ThreadOk(q, id, t)
  {
  }

  lemma EntryStays(p: P.Plugin, q: P.Plugin, h: nat, e: Q.Entry, t: Thread)
    requires PI.SlotsMove(p, q) && EntryFits(p, h, e, t)
    ensures EntryFits(q, h, e, t)
  {
    match t.stage
    case Ending(out) =>
      if out.Ok? {
        ConfirmedStays(p, q, t.request, e.candidate, out.value);
      }
    case Ended(out) =>
      if e.phase == Q.Resolved {
        ConfirmedStays(p, q, t.request, e.candidate, e.response);
      }
    case _ =>
  }

  /** At most the thread of `id` is new or has another stage. */
  ghost predicate ThreadsBut(w: World, v: World, id: Option<string>) {
    match id
    case None => v.threads == w.threads
    case Some(x) => x in v.threads && v.threads == w.threads[x := v.threads[x]]
  }

  /** The plugin moves on, and at most one thread changes its stage. */
  lemma PluginFrame(w: World, v: World, id: Option<string>)
    requires WorldOk(w) && v.queue == w.queue && PI.PluginOk(v.plugin) && PI.SlotsMove(w.plugin, v.plugin)
    requires ThreadsBut(w, v, id)
    requires id.Some? ==> ThreadOk(v.plugin, id.value, v.threads[id.value]) && HandleOk(v.queue.q.heap, id.value, v.threads[id.value])
    requires id.Some? ==> forall h :: 0 <= h < |w.queue.q.heap| && w.queue.q.heap[h].need.requestId == id.value ==>
               EntryFits(v.plugin, h, w.queue.q.heap[h], v.threads[id.value])
    ensures WorldOk(v)
  {
    hide EntryFits, ThreadOk, HandleOk, PI.SlotsMove, PI.PluginOk, QI.SystemOk;
    forall other | other in v.threads
      ensures ThreadOk(v.plugin, other, v.threads[other]) && HandleOk(v.queue.q.heap, other, v.threads[other])
    {
      if Some(other) != id {
        ThreadStays(w.plugin, v.plugin, other, w.threads[other]);
      }
    }
    forall h | 0 <= h < |v.queue.q.heap| ensures EntryOwned(v, h) {
      assert EntryOwned(w, h);
      var e := w.queue.q.heap[h];
      if Some(e.need.requestId) != id {
        EntryStays(w.plugin, v.plugin, h, e, w.threads[e.need.requestId]);
      }
    }
  }

  lemma EntryMoves(p: P.Plugin, h: nat, e: Q.Entry, f: Q.Entry, t: Thread)
    requires QI.EntryOk(e) && QI.Evolves(e, f) && Quiet(e, f) && EntryFits(p, h, e, t)
    ensures EntryFits(p, h, f, t)
  {
  }

  lemma HandleStays(a: seq<Q.Entry>, b: seq<Q.Entry>, id: string, t: Thread)
    requires |a| <= |b| && (forall h :: 0 <= h < |a| ==> b[h].need == a[h].need) && HandleOk(a, id, t)
    ensures HandleOk(b, id, t)
  {
  }

  /** The queue moves on quietly, except for the entry of one request, whose thread may change its stage. */
  lemma QueueFrame(w: World, v: World, id: Option<string>)
    requires WorldOk(w) && v.plugin == w.plugin && QI.SystemOk(v.queue) && QI.Advances(w.queue.q, v.queue.q)
    requires |v.queue.q.heap| == |w.queue.q.heap|
    requires forall h :: 0 <= h < |w.queue.q.heap| && Some(w.queue.q.heap[h].need.requestId) != id ==>
               Quiet(w.queue.q.heap[h], v.queue.q.heap[h])
    requires ThreadsBut(w, v, id)
    requires id.Some? ==> ThreadOk(v.plugin, id.value, v.threads[id.value]) && HandleOk(v.queue.q.heap, id.value, v.threads[id.value])
    requires forall h :: 0 <= h < |v.queue.q.heap| && Some(v.queue.q.heap[h].need.requestId) == id ==> EntryOwned(v, h)
    ensures WorldOk(v)
  {
    hide EntryFits, ThreadOk, HandleOk, PI.PluginOk, QI.QueueOk;
    var a, b := w.queue.q.heap, v.queue.q.heap;
    forall h | 0 <= h < |b| ensures b[h].need == a[h].need {
      assert QI.Evolves(a[h], b[h]);
    }
    forall other | other in v.threads && Some(other) != id ensures HandleOk(b, other, v.threads[other]) {
      HandleStays(a, b, other, w.threads[other]);
    }
    forall h | 0 <= h < |b| && Some(b[h].need.requestId) != id ensures EntryOwned(v, h) {
      assert EntryOwned(w, h);
      EntryOkAt(w.queue.q, h);
      EntryMoves(w.plugin, h, a[h], b[h], w.threads[a[h].need.requestId]);
    }
  }

  lemma EntryOkAt(q: Q.Queue, h: nat)
    requires QI.QueueOk(q) && h < |q.heap|
    ensures QI.EntryOk(q.heap[h])
  {
  }

  lemma SoundWorld(w: World)
    requires WorldOk(w)
    ensures Sound(w)
  {
  }

  // ---- steps of the plugin side ----

  /** The entry of the request, as its thread sees it now. */
  lemma OwnEntry(w: World, id: string, h: nat)
    requires WorldOk(w) && h < |w.queue.q.heap| && w.queue.q.heap[h].need.requestId == id
    ensures id in w.threads && EntryFits(w.plugin, h, w.queue.q.heap[h], w.threads[id]) && QI.EntryOk(w.queue.q.heap[h])
  {
    assert EntryOwned(w, h);
    EntryOkAt(w.queue.q, h);
  }

  /** A request that has not enqueued has no entry. */
  lemma NoEntryYet(w: World, id: string)
    requires WorldOk(w)
    requires id !in w.threads || w.threads[id].stage.Executing? || w.threads[id].stage.Needing?
    ensures forall h :: 0 <= h < |w.queue.q.heap| ==> w.queue.q.heap[h].need.requestId != id
  {
    forall h | 0 <= h < |w.queue.q.heap| ensures w.queue.q.heap[h].need.requestId != id {
      assert EntryOwned(w, h);
    }
  }

  lemma DispatchKeeps(w: World, request: P.Request)
    requires WorldOk(w) && request.id !in w.threads
    ensures WorldOk(Dispatch(w, request))
  {
    NoEntryYet(w, request.id);
    PI.MovesItself(w.plugin);
    PluginFrame(w, Dispatch(w, request), Some(request.id));
  }

  lemma VisitOpens(p: P.Plugin, slot: ST.Slot, q: P.Request, plan: Plan, params: seq<Value>, now: int)
    requires P.SlotsPoint(p)
    ensures var (p', v) := P.Visit(p, slot, q, plan, params, now);
            v.Needs? ==> v.token in p'.pending && p'.pending[v.token].request == q
  {
  }

  lemma VisitKeeps(w: World, id: string, slot: ST.Slot, plan: Plan, params: seq<Value>, now: int)
    requires WorldOk(w) && id in w.threads && w.threads[id].stage.Executing?
    requires slot in w.plugin.defs && plan.kind == Select && plan.table == slot.table
    ensures WorldOk(Visit(w, id, slot, plan, params, now))
  {
    SoundWorld(w);
    hide P.Visit, PI.PluginOk, QI.SystemOk, EntryFits;
    NoEntryYet(w, id);
    var q := w.threads[id].request;
    assert ThreadOk(w.plugin, id, w.threads[id]);
    PI.VisitKeeps(w.plugin, slot, q, plan, params, now);
    VisitOpens(w.plugin, slot, q, plan, params, now);
    PluginFrame(w, Visit(w, id, slot, plan, params, now), Some(id));
  }

  lemma FinishKeeps(w: World, id: string, out: Reply<Payload>)
    requires WorldOk(w) && id in w.threads && w.threads[id].stage.Executing?
    ensures WorldOk(Finish(w, id, out))
  {
    NoEntryYet(w, id);
    assert ThreadOk(w.plugin, id, w.threads[id]);
    PI.MovesItself(w.plugin);
    PluginFrame(w, Finish(w, id, out), Some(id));
  }

  /** A Complete that succeeds confirms its candidate with its answer, whether it fills the slot
      now or repeats an earlier success. */
  lemma CompleteConfirms(p: P.Plugin, r: P.Resolution, a: P.Around)
    requires PI.PluginOk(p) && P.Complete(p, r, a).1.Ok?
    ensures r.continuation in p.pending
    ensures Confirmed(P.Complete(p, r, a).0, p.pending[r.continuation].request, r.payload, P.Complete(p, r, a).1.value)
  {
    var t := r.continuation;
    var c := p.pending[t];
    assert PI.ContinuationOk(p, t, c);
    PR.CompleteCases(p, r, a, t);
    var (q, reply) := P.Complete(p, r, a);
    assert ConfirmedBy(q.pending[t], c.request, r.payload, reply.value);
  }

  lemma CompletedWorld(w: World, v: World, id: string, p: P.Plugin, out: Reply<Payload>)
    requires WorldOk(w) && id in w.threads && w.threads[id].stage.Holding?
    requires PI.PluginOk(p) && PI.SlotsMove(w.plugin, p) && v == w.(plugin := p, threads := At(w, id, Ending(out)))
    requires out.Ok? ==> Confirmed(p, w.threads[id].request, w.threads[id].stage.candidate, out.value)
    ensures WorldOk(v)
  {
    hide PI.PluginOk, QI.SystemOk, Confirmed;
    assert ThreadOk(w.plugin, id, w.threads[id]);
    forall h | 0 <= h < |w.queue.q.heap| && w.queue.q.heap[h].need.requestId == id
      ensures EntryFits(p, h, w.queue.q.heap[h], v.threads[id])
    {
      OwnEntry(w, id, h);
    }
    PluginFrame(w, v, Some(id));
  }

  lemma CompleteKeeps(w: World, id: string, around: P.Around, lost: bool)
    requires WorldOk(w) && id in w.threads && w.threads[id].stage.Holding?
    requires P.SessionEvents(w.plugin.store.tables, w.plugin.defs, around.between)
    ensures WorldOk(Complete(w, id, around, lost))
  {
    var r := ResolutionOf(id, w.threads[id].stage);
    PI.CompleteKeeps(w.plugin, r, around);
    var (p, reply) := P.Complete(w.plugin, r, around);
    if reply.Ok? {
      CompleteConfirms(w.plugin, r, around);
      assert ThreadOk(w.plugin, id, w.threads[id]);
    }
    hide P.Complete, WorldOk, Confirmed, PI.PluginOk;
    CompletedWorld(w, Complete(w, id, around, lost), id, p, if lost then Err(OTHER_CODE) else reply);
  }

  lemma PluginMovesKeep(w: World, x: P.Event)
    requires WorldOk(w) && !x.DoVisit? && P.Enabled(w.plugin, x)
    ensures WorldOk(w.(plugin := P.Step(w.plugin, x)))
  {
    PI.StepKeepsPlugin(w.plugin, x);
    hide P.Step, PI.PluginOk, QI.SystemOk;
    PluginFrame(w, w.(plugin := P.Step(w.plugin, x)), None);
  }

  // ---- steps of the queue side ----

  lemma SeeDoneKeeps(w: World, id: string)
    requires WorldOk(w) && id in w.threads && w.threads[id].stage.Waiting?
    requires w.threads[id].stage.handle < |w.queue.q.heap| && w.queue.q.heap[w.threads[id].stage.handle].closed > 0
    ensures WorldOk(SeeDone(w, id))
  {
    var th := w.threads[id];
    assert ThreadOk(w.plugin, id, th) && HandleOk(w.queue.q.heap, id, th);
    OwnEntry(w, id, th.stage.handle);
    PI.MovesItself(w.plugin);
    forall h | 0 <= h < |w.queue.q.heap| && w.queue.q.heap[h].need.requestId == id
      ensures EntryFits(w.plugin, h, w.queue.q.heap[h], SeeDone(w, id).threads[id])
    {
      OwnEntry(w, id, h);
    }
    PluginFrame(w, SeeDone(w, id), Some(id));
  }

  lemma QueueMovesKeep(w: World, x: Q.Event)
    requires WorldOk(w) && OthersMay(x) && Q.Enabled(w.queue, x)
    ensures WorldOk(w.(queue := Q.Step(w.queue, x)))
  {
    QI.StepKeepsQueue(w.queue, x);
    QF.StepKeepsSystem(w.queue, x);
    OthersStayQuiet(w.queue, x);
    hide Q.QueueStep, QI.SystemOk, QI.Advances, Quiet;
    QueueFrame(w, w.(queue := Q.Step(w.queue, x)), None);
  }

  /** The system after a step of the queue that leaves the tickets alone. */
  lemma QueueSide(w: World, x: Q.Event)
    requires QI.SystemOk(w.queue) && Q.Enabled(w.queue, x) && !x.DoCheck?
    ensures QI.SystemOk(WithQueue(w, Q.QueueStep(w.queue, x))) && QI.Advances(w.queue.q, Q.QueueStep(w.queue, x))
  {
    QI.StepKeepsQueue(w.queue, x);
    QF.StepKeepsSystem(w.queue, x);
  }

  /** A step of the queue that changes at most the request's own entry, and its stage. */
  lemma OwnStepKeeps(w: World, v: World, id: string)
    requires WorldOk(w) && v.plugin == w.plugin && QI.SystemOk(v.queue) && QI.Advances(w.queue.q, v.queue.q)
    requires |v.queue.q.heap| == |w.queue.q.heap| && ThreadsBut(w, v, Some(id)) && id in w.threads
    requires v.threads[id].request == w.threads[id].request
    requires v.threads[id].stage.Holding? ==> w.threads[id].stage.Waiting? && v.threads[id].stage.token == w.threads[id].stage.token
    requires v.threads[id].stage.Holding? || v.threads[id].stage.Ending? || v.threads[id].stage.Ended?
    requires forall h :: 0 <= h < |w.queue.q.heap| ==>
               if w.queue.q.heap[h].need.requestId == id then EntryFits(v.plugin, h, v.queue.q.heap[h], v.threads[id])
               else Quiet(w.queue.q.heap[h], v.queue.q.heap[h])
    ensures WorldOk(v)
  {
    hide QI.SystemOk, PI.PluginOk, Quiet;
    assert ThreadOk(w.plugin, id, w.threads[id]);
    forall h | 0 <= h < |v.queue.q.heap| && Some(v.queue.q.heap[h].need.requestId) == Some(id) ensures EntryOwned(v, h) {
      NeedsStay(w.queue.q, v.queue.q, h);
    }
    QueueFrame(w, v, Some(id));
  }

  lemma NeedsStay(q: Q.Queue, p: Q.Queue, h: nat)
    requires QI.Advances(q, p) && h < |q.heap|
    ensures h < |p.heap| && p.heap[h].need == q.heap[h].need
  {
    assert QI.Evolves(q.heap[h], p.heap[h]);
  }

  lemma ReceivedEntry(p: P.Plugin, h: nat, e: Q.Entry, t: Thread)
    requires QI.EntryOk(e) && t.stage.Waiting? && EntryFits(p, h, e, t) && e.taken < |e.sent|
    ensures EntryFits(p, h, e.(taken := e.taken + 1), t.(stage := Holding(t.stage.token, e.sent[e.taken])))
  {
  }

  lemma ReceiveKeeps(w: World, id: string)
    requires WorldOk(w) && id in w.threads && w.threads[id].stage.Waiting?
    requires Q.Enabled(w.queue, Q.DoReceive(w.threads[id].stage.handle))
    ensures WorldOk(Receive(w, id))
  {
    hide QI.SystemOk, PI.PluginOk, QI.Advances, EntryFits, ThreadOk, QI.EntryOk;
    var k := w.threads[id].stage.handle;
    assert HandleOk(w.queue.q.heap, id, w.threads[id]);
    QueueSide(w, Q.DoReceive(k));
    OwnEntry(w, id, k);
    ReceivedEntry(w.plugin, k, w.queue.q.heap[k], w.threads[id]);
    var v := Receive(w, id);
    forall h | 0 <= h < |w.queue.q.heap| && h != k ensures w.queue.q.heap[h].need.requestId != id {
      assert OneEntryEach(w.queue.q.heap);
    }
    OwnStepKeeps(w, v, id);
  }

  /** Finishing by id changes the entry the id names, and nothing else. */
  ghost predicate OnlyNamed(q: Q.Queue, p: Q.Queue, id: string) {
    |p.heap| == |q.heap| && forall h :: 0 <= h < |q.heap| && q.heap[h].need.requestId != id ==> p.heap[h] == q.heap[h]
  }

  lemma CancelNames(q: Q.Queue, id: string, code: Code)
    requires Q.Indexed(q)
    ensures OnlyNamed(q, Q.CancelRequest(q, id, code), id)
    ensures AllQuiet(q.heap, Q.CancelRequest(q, id, code).heap)
  {
  }

  lemma GiveUpKeeps(w: World, id: string, code: Code)
    requires WorldOk(w) && id in w.threads
    requires w.threads[id].stage.Needing? || w.threads[id].stage.Waiting? || w.threads[id].stage.Holding?
    ensures WorldOk(GiveUp(w, id, code))
  {
    if w.threads[id].stage.Waiting? {
      CancelKeeps(w, id, code);
    } else {
      var v := GiveUp(w, id, code);
      assert ThreadOk(w.plugin, id, w.threads[id]);
      PI.MovesItself(w.plugin);
      forall h | 0 <= h < |w.queue.q.heap| && w.queue.q.heap[h].need.requestId == id
        ensures EntryFits(w.plugin, h, w.queue.q.heap[h], v.threads[id])
      {
        OwnEntry(w, id, h);
      }
      hide QI.SystemOk, PI.PluginOk;
      PluginFrame(w, v, Some(id));
    }
  }

  lemma GivenUpEntry(p: P.Plugin, h: nat, e: Q.Entry, f: Q.Entry, t: Thread, code: Code)
    requires EntryFits(p, h, e, t) && t.stage.Waiting? && Quiet(e, f)
    ensures EntryFits(p, h, f, t.(stage := Ending(Err(code))))
  {
  }

  lemma CancelSide(w: World, id: string)
    requires WorldOk(w)
    ensures Sound(w)
    ensures var p := Q.CancelRequest(w.queue.q, id, CANCELLED);
            && QI.SystemOk(WithQueue(w, p)) && QI.Advances(w.queue.q, p)
            && OnlyNamed(w.queue.q, p, id) && AllQuiet(w.queue.q.heap, p.heap)
  {
    SoundWorld(w);
    QueueSide(w, Q.DoCancel(id, CANCELLED));
    CancelNames(w.queue.q, id, CANCELLED);
    hide Q.CancelRequest, QI.SystemOk, PI.PluginOk, QI.Advances, OnlyNamed, AllQuiet;
  }

  lemma CancelKeeps(w: World, id: string, code: Code)
    requires WorldOk(w) && id in w.threads && w.threads[id].stage.Waiting?
    ensures WorldOk(GiveUp(w, id, code))
  {
    hide WorldOk, Q.CancelRequest, QI.SystemOk, PI.PluginOk, QI.Advances, EntryFits, Quiet, ThreadOk, HandleOk;
    CancelSide(w, id);
    var v := GiveUp(w, id, code);
    forall h | 0 <= h < |w.queue.q.heap|
      ensures if w.queue.q.heap[h].need.requestId == id then EntryFits(v.plugin, h, v.queue.q.heap[h], v.threads[id])
              else Quiet(w.queue.q.heap[h], v.queue.q.heap[h])
    {
      assert Quiet(w.queue.q.heap[h], v.queue.q.heap[h]);
      if w.queue.q.heap[h].need.requestId == id {
        OwnEntry(w, id, h);
        GivenUpEntry(w.plugin, h, w.queue.q.heap[h], v.queue.q.heap[h], w.threads[id], code);
      }
    }
    OwnStepKeeps(w, v, id);
  }

  lemma ReportNames(q: Q.Queue, id: string, raw: Payload, err: Option<Code>, h: nat)
    requires Q.Indexed(q) && h < |q.heap|
    ensures var p := Q.ReportOutcome(q, id, raw, err);
            && OnlyNamed(q, p, id)
            && (p.heap[h].phase == Q.Resolved && q.heap[h].phase != Q.Resolved ==>
                  err.None? && p.heap[h] == q.heap[h].(phase := Q.Resolved, response := raw, error := None, closed := q.heap[h].closed + 1))
  {
  }

  lemma ReportKeeps(w: World, id: string)
    requires WorldOk(w) && id in w.threads && w.threads[id].stage.Ending?
    ensures WorldOk(Report(w, id))
  {
    SoundWorld(w);
    hide QI.SystemOk, PI.PluginOk, QI.Advances, Confirmed;
    var out := w.threads[id].stage.out;
    QueueSide(w, Q.DoReport(id, RawOf(out), ErrorOf(out)));
    var v := Report(w, id);
    forall h | 0 <= h < |w.queue.q.heap|
      ensures if w.queue.q.heap[h].need.requestId == id then EntryFits(v.plugin, h, v.queue.q.heap[h], v.threads[id])
              else Quiet(w.queue.q.heap[h], v.queue.q.heap[h])
    {
      ReportNames(w.queue.q, id, RawOf(out), ErrorOf(out), h);
      if w.queue.q.heap[h].need.requestId == id {
        OwnEntry(w, id, h);
      }
    }
    hide QI.SystemOk, PI.PluginOk, QI.Advances, Q.ReportOutcome;
    OwnStepKeeps(w, v, id);
  }

  // ---- enqueuing ----

  lemma EnqueueCases(q: Q.Queue, run: string, need: Q.Need, at: int)
    requires Q.Indexed(q)
    ensures var (p, reply) := Q.Enqueue(q, run, need, at);
            if reply.Ok? then reply == Ok(|q.heap|) && p.heap == q.heap + [Q.NewEntry(run, need)] else p == q
  {
  }

  lemma AppendedKeeps(w: World, v: World, id: string, run: string, need: Q.Need)
    requires WorldOk(w) && id in w.threads && w.threads[id].stage.Needing? && need.requestId == id
    requires v.plugin == w.plugin && QI.SystemOk(v.queue) && v.queue.q.heap == w.queue.q.heap + [Q.NewEntry(run, need)]
    requires v.threads == At(w, id, Waiting(w.threads[id].stage.token, |w.queue.q.heap|))
    ensures WorldOk(v)
  {
    hide QI.SystemOk, PI.PluginOk;
    NoEntryYet(w, id);
    var a, b := w.queue.q.heap, v.queue.q.heap;
    assert ThreadOk(w.plugin, id, w.threads[id]);
    forall other | other in v.threads && other != id ensures HandleOk(b, other, v.threads[other]) {
      HandleStays(a, b, other, w.threads[other]);
    }
    forall h | 0 <= h < |b| ensures EntryOwned(v, h) {
      if h < |a| {
        assert EntryOwned(w, h);
      }
    }
  }

  lemma EnqueueKeeps(w: World, id: string, run: string, need: Q.Need, at: int)
    requires WorldOk(w) && id in w.threads && w.threads[id].stage.Needing? && need.requestId == id
    ensures WorldOk(Enqueue(w, id, run, need, at))
  {
    SoundWorld(w);
    hide Q.Enqueue, QI.SystemOk, PI.PluginOk, EntryFits, Q.Indexed;
    EnqueueCases(w.queue.q, run, need, at);
    QueueSide(w, Q.DoEnqueue(run, need, at));
    var (q, reply) := Q.Enqueue(w.queue.q, run, need, at);
    var v := Enqueue(w, id, run, need, at);
    if reply.Ok? {
      AppendedKeeps(w, v, id, run, need);
    } else {
      NoEntryYet(w, id);
      assert ThreadOk(w.plugin, id, w.threads[id]);
      PI.MovesItself(w.plugin);
      PluginFrame(w, v, Some(id));
    }
  }

  // ---- runs ----

  /** Every step of the join keeps its invariant. */
  lemma StepKeepsWorld(w: World, e: Event)
    requires WorldOk(w) && Sound(w) && Enabled(w, e)
    ensures WorldOk(Step(w, e))
  {
    hide WorldOk;
    match e
    case Dispatches(request) => DispatchKeeps(w, request);
    case Visits(id, slot, plan, params, now) => VisitKeeps(w, id, slot, plan, params, now);
    case Finishes(id, out) => FinishKeeps(w, id, out);
    case Enqueues(id, run, need, at) => EnqueueKeeps(w, id, run, need, at);
    case Receives(id) => ReceiveKeeps(w, id);
    case SeesDone(id) => SeeDoneKeeps(w, id);
    case GivesUp(id, code) => GiveUpKeeps(w, id, code);
    case Completes(id, around, lost) => CompleteKeeps(w, id, around, lost);
    case Reports(id) => ReportKeeps(w, id);
    case QueueMoves(x) => QueueMovesKeep(w, x);
    case PluginMoves(x) => PluginMovesKeep(w, x);
  }

  datatype Run = Run(states: seq<World>, events: seq<Event>)

  ghost predicate Follows(r: Run, i: nat)
    requires |r.states| == |r.events| + 1 && i < |r.events|
  {
    Sound(r.states[i]) && Enabled(r.states[i], r.events[i]) && r.states[i + 1] == Step(r.states[i], r.events[i])
  }

  /** Any interleaving of dispatched requests, queue callers and plugin calls, from an empty queue
      and a freshly started plugin. */
  ghost predicate IsRun(r: Run) {
    && |r.states| == |r.events| + 1
    && r.states[0].queue == Q.System(Q.EMPTY, {}) && r.states[0].threads == map[]
    && PI.PluginOk(r.states[0].plugin)
    && forall i {:trigger Follows(r, i)} :: 0 <= i < |r.events| ==> Follows(r, i)
  }

  lemma StartOk(w: World)
    requires w.queue == Q.System(Q.EMPTY, {}) && w.threads == map[] && PI.PluginOk(w.plugin)
    ensures WorldOk(w)
  {
    hide PI.PluginOk;
    QR.EmptyIsOk();
  }

  lemma StepOk(r: Run, i: nat)
    requires IsRun(r) && i < |r.events| && WorldOk(r.states[i])
    ensures WorldOk(r.states[i + 1])
  {
    hide WorldOk, Step, Enabled, PI.PluginOk;
    assert Follows(r, i);
    StepKeepsWorld(r.states[i], r.events[i]);
  }

  lemma {:induction false} OkAt(r: Run, n: nat)
    requires IsRun(r) && n < |r.states|
    ensures WorldOk(r.states[n])
  {
    hide WorldOk, Follows, PI.PluginOk;
    if n > 0 {
      OkAt(r, n - 1);
      StepOk(r, n - 1);
    } else {
      StartOk(r.states[0]);
    }
  }

  // ---- what is confirmed ----

  lemma StepMovesPlugin(w: World, e: Event)
    requires WorldOk(w) && Sound(w) && Enabled(w, e)
    ensures PI.SlotsMove(w.plugin, Step(w, e).plugin)
    ensures forall id :: id in w.threads ==> id in Step(w, e).threads && Step(w, e).threads[id].request == w.threads[id].request
  {
    hide PI.PluginOk, QI.SystemOk, P.Visit, P.Complete, P.Step, Q.Step, Q.Enqueue, PI.SlotsMove;
    PI.MovesItself(w.plugin);
    match e
    case Visits(id, slot, plan, params, now) => PI.VisitKeeps(w.plugin, slot, w.threads[id].request, plan, params, now);
    case Completes(id, around, lost) => PI.CompleteKeeps(w.plugin, ResolutionOf(id, w.threads[id].stage), around);
    case PluginMoves(x) => PI.StepKeepsPlugin(w.plugin, x);
    case _ =>
  }

  lemma {:induction false} PluginMovesOver(r: Run, i: nat, j: nat, request: P.Request, candidate: Json, raw: Payload)
    requires IsRun(r) && i <= j < |r.states| && Confirmed(r.states[i].plugin, request, candidate, raw)
    ensures Confirmed(r.states[j].plugin, request, candidate, raw)
  {
    hide WorldOk, Sound, Enabled, Step, PI.PluginOk, Confirmed, PI.SlotsMove;
    if i < j {
      PluginMovesOver(r, i, j - 1, request, candidate, raw);
      OkAt(r, j - 1);
      assert Follows(r, j - 1);
      StepMovesPlugin(r.states[j - 1], r.events[j - 1]);
      ConfirmedStays(r.states[j - 1].plugin, r.states[j].plugin, request, candidate, raw);
    }
  }

  /** A queue entry is resolved only after its own request was answered by the right plugin, which
      finished that request's continuation without error for exactly the delivered candidate and
      answered with exactly the recorded response. */
  lemma ResolvedIsConfirmed(r: Run, n: nat, h: nat)
    requires IsRun(r) && n < |r.states| && h < |r.states[n].queue.q.heap|
    requires r.states[n].queue.q.heap[h].phase == Q.Resolved
    ensures var e := r.states[n].queue.q.heap[h]; var id := e.need.requestId;
            && id in r.states[n].threads && r.states[n].threads[id].stage == Ended(Ok(e.response))
            && Confirmed(r.states[n].plugin, r.states[n].threads[id].request, e.candidate, e.response)
            && e.sent == [e.candidate]
  {
    OkAt(r, n);
    OwnEntry(r.states[n], r.states[n].queue.q.heap[h].need.requestId, h);
  }

  /** A capture released at any time passes the confirmed test of Export then and ever after, when
      it carries the dispatched request. */
  lemma CaptureStaysConfirmed(r: Run, i: nat, j: nat, run: string, id: string)
    requires IsRun(r) && i <= j < |r.states|
    ensures Q.Indexed(r.states[i].queue.q)
    ensures Q.CaptureOf(r.states[i].queue.q, run, id).Ok? ==>
              var capture := Q.CaptureOf(r.states[i].queue.q, run, id).value;
              && id in r.states[i].threads
              && Confirmed(r.states[j].plugin, r.states[i].threads[id].request, capture.candidate, capture.response)
  {
    OkAt(r, i);
    var q := r.states[i].queue.q;
    if Q.CaptureOf(q, run, id).Ok? {
      ResolvedIsConfirmed(r, i, q.index[id]);
      PluginMovesOver(r, i, j, r.states[i].threads[id].request, q.heap[q.index[id]].candidate, q.heap[q.index[id]].response);
    }
  }

  /** The converse fails: an answered request resolves its entry exactly when the entry is still
      listed and resolving at that moment; a cancellation or expiry in between wins, although the
      plugin has finished the continuation. */
  lemma ReportResolvesIff(w: World, id: string, h: nat, raw: Payload)
    requires WorldOk(w) && id in w.threads && w.threads[id].stage == Ending(Ok(raw))
    requires h < |w.queue.q.heap| && w.queue.q.heap[h].need.requestId == id
    ensures Q.Indexed(w.queue.q)
    ensures Confirmed(w.plugin, w.threads[id].request, w.queue.q.heap[h].candidate, raw)
    ensures Report(w, id).queue.q.heap[h].phase == Q.Resolved
       <==> Q.Listed(w.queue.q, h) && w.queue.q.heap[h].phase == Q.Resolving
  {
    OwnEntry(w, id, h);
  }
}
