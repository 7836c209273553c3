/** What a dispatched request is answered with, and what its queue entry says about it. */
module Outcomes {
  import opened Values
  import opened Plans
  import opened Schema
  import opened Api
  import opened DispatchSpec
  import opened Confirmation
  import Q = QueueSpec
  import QI = QueueInvariant
  import QL = QueueLaws
  import QR = QueueRuns
  import P = SlotSpec
  import PI = SlotInvariant

  // ---- requests only move forward ----

  function Rank(s: Stage): nat {
    match s
    case Executing => 0
    case Needing(_) => 1
    case Waiting(_, _) => 2
    case Holding(_, _) => 3
    case Ending(_) => 4
    case Ended(_) => 5
  }

  /** A later stage, and once there is an outcome, the same outcome. */
  ghost predicate Advances(a: Stage, b: Stage) {
    && Rank(a) <= Rank(b)
    && (a.Ending? && b.Ending? ==> a == b) && (a.Ending? && b.Ended? ==> b.out == a.out) && (a.Ended? ==> b == a)
  }

  lemma StepAdvances(w: World, e: Event, id: string)
    requires Sound(w) && Enabled(w, e) && id in w.threads
    ensures id in Step(w, e).threads && Advances(w.threads[id].stage, Step(w, e).threads[id].stage)
  {
    hide Sound, P.Enabled, Q.Enabled, P.Visit, P.Complete, P.Step, Q.Step, Q.Enqueue, Q.CancelRequest, Q.ReportOutcome, Q.Receive;
  }

  /** A request goes through its stages in order, skipping some, and its outcome is fixed by the step that
      first gives it one. */
  lemma {:induction false} StagesAdvance(r: Run, i: nat, j: nat, id: string)
    requires IsRun(r) && i <= j < |r.states| && id in r.states[i].threads
    ensures id in r.states[j].threads && Advances(r.states[i].threads[id].stage, r.states[j].threads[id].stage)
  {
    hide WorldOk, Follows, Sound, Enabled, Step, PI.PluginOk, Advances;
    if i < j {
      StagesAdvance(r, i, j - 1, id);
      FollowsAt(r, j - 1);
      StepAdvances(r.states[j - 1], r.events[j - 1], id);
      AdvancesTransitive(r.states[i].threads[id].stage, r.states[j - 1].threads[id].stage, r.states[j].threads[id].stage);
    } else {
      AdvancesItself(r.states[i].threads[id].stage);
    }
  }

  lemma AdvancesItself(a: Stage)
    ensures Advances(a, a)
  {
  }

  lemma AdvancesTransitive(a: Stage, b: Stage, c: Stage)
    requires Advances(a, b) && Advances(b, c)
    ensures Advances(a, c)
  {
  }

  lemma FollowsAt(r: Run, i: nat)
    requires IsRun(r) && i < |r.events|
    ensures Sound(r.states[i]) && Enabled(r.states[i], r.events[i]) && r.states[i + 1] == Step(r.states[i], r.events[i])
  {
    hide Sound, Enabled, Step, PI.PluginOk;
    assert Follows(r, i);
  }

  // ---- what gives a request its outcome ----

  /** Why an Enqueue is refused. */
  ghost function EnqueueRefusal(q: Q.Queue, run: string, need: Q.Need, at: int): Option<Code>
    requires Q.Indexed(q)
  {
    if !QL.Asks(run, need, at) then Some(DEADLINE_EXCEEDED)
    else if need.requestId in q.index then Some(STATE_CONFLICT)
    else if !QL.HasRoom(q, run) then Some(QUEUE_FULL) else None
  }

  /** The outcome the step gives the request: the answer of its execution; the plugin turning it away; the
      queue refusing it or closing its entry; its context ending; or the answer to its candidate, if
      that makes it back. */
  ghost function OutcomeOf(w: World, e: Event, id: string): Option<Reply<Payload>>
    requires Sound(w) && Enabled(w, e)
  {
    if e.Finishes? && e.id == id then Some(e.out)
    else if e.Visits? && e.id == id then
      match P.Visit(w.plugin, e.slot, w.threads[id].request, e.plan, e.params, e.now).1
      case Turned(code) => Some(Err(code))
      case _ => None
    else if e.Enqueues? && e.id == id && EnqueueRefusal(w.queue.q, e.run, e.need, e.checkedAt).Some? then
      Some(Err(EnqueueRefusal(w.queue.q, e.run, e.need, e.checkedAt).value))
    else if e.SeesDone? && e.id == id then
      var error := w.queue.q.heap[w.threads[id].stage.handle].error;
      if error.Some? then Some(Err(error.value)) else None
    else if e.GivesUp? && e.id == id then Some(Err(e.code))
    else if e.Completes? && e.id == id then
      Some(if e.lost then Err(OTHER_CODE) else P.Complete(w.plugin, ResolutionOf(id, w.threads[id].stage), e.around).1)
    else None
  }

  lemma RefusedIff(q: Q.Queue, run: string, need: Q.Need, at: int)
    requires Q.Indexed(q)
    ensures var refusal := EnqueueRefusal(q, run, need, at); var reply := Q.Enqueue(q, run, need, at).1;
            reply == if refusal.Some? then Err(refusal.value) else Ok(|q.heap|)
  {
    QL.EnqueueMeans(q, run, need, at);
    hide Q.Enqueue, QL.HasRoom;
  }

  /** A request without an outcome gets one exactly by these steps. */
  lemma EndsIff(w: World, e: Event, id: string)
    requires Sound(w) && Enabled(w, e) && id in w.threads && !w.threads[id].stage.Ending? && !w.threads[id].stage.Ended?
    ensures id in Step(w, e).threads
    ensures Step(w, e).threads[id].stage.Ending? <==> OutcomeOf(w, e, id).Some?
    ensures OutcomeOf(w, e, id).Some? ==> Step(w, e).threads[id].stage == Ending(OutcomeOf(w, e, id).value)
    ensures !Step(w, e).threads[id].stage.Ended?
  {
    if e.Enqueues? {
      RefusedIff(w.queue.q, e.run, e.need, e.checkedAt);
    }
    hide EnqueueRefusal, Sound, P.Visit, P.Complete, P.Step, Q.Step, Q.Enqueue, Q.CancelRequest, Q.ReportOutcome, Q.Receive, QL.HasRoom, P.Enabled, Q.Enabled;
  }

  // ---- what the entry says ----

  /** The step of the queue that a step of the join takes, if any. */
  ghost function QueueSideOf(w: World, e: Event): Option<Q.Event>
    requires Sound(w) && Enabled(w, e)
  {
    match e
    case Enqueues(id, run, need, at) => Some(Q.DoEnqueue(run, need, at))
    case Receives(id) => Some(Q.DoReceive(w.threads[id].stage.handle))
    case GivesUp(id, code) => if w.threads[id].stage.Waiting? then Some(Q.DoCancel(id, CANCELLED)) else None
    case Reports(id) =>
      Some(Q.DoReport(id, RawOf(w.threads[id].stage.out), ErrorOf(w.threads[id].stage.out)))
    case QueueMoves(x) => Some(x)
    case _ => None
  }

  lemma QueueSideIs(w: World, e: Event)
    requires Sound(w) && Enabled(w, e)
    ensures var x := QueueSideOf(w, e);
            if x.Some? then Q.Enabled(w.queue, x.value) && Step(w, e).queue.q == Q.QueueStep(w.queue, x.value)
            else Step(w, e).queue.q == w.queue.q
  {
    hide Q.Enqueue, Q.CancelRequest, Q.ReportOutcome, P.Visit, P.Complete, P.Step, P.Enabled;
  }

  /** A failed entry records the error its request ended with, and a listed entry of a request that has been
      reported is over. */
  ghost predicate Tells(w: World, h: nat)
    requires h < |w.queue.q.heap|
  {
    var x := w.queue.q.heap[h];
    && x.need.requestId in w.threads
    && var s := w.threads[x.need.requestId].stage;
       && (x.phase == Q.Failed ==> x.error.Some? && s == Ended(Err(x.error.value)))
       && (s.Ended? && Q.Listed(w.queue.q, h) ==> Q.Terminal(x.phase))
  }

  lemma ReportedStage(w: World, e: Event, id: string)
    requires Sound(w) && Enabled(w, e) && id in w.threads
    ensures id in Step(w, e).threads
    ensures var a, b := w.threads[id].stage, Step(w, e).threads[id].stage;
            if e == Reports(id) then a.Ending? && b == Ended(a.out) else b.Ended? ==> a.Ended?
  {
    hide Sound, P.Visit, P.Complete, P.Step, Q.Step, Q.Enqueue, Q.CancelRequest, Q.ReportOutcome, Q.Receive, P.Enabled, Q.Enabled;
  }

  lemma EntryStep(s: Q.System, x: Q.Event, h: nat)
    requires QI.SystemOk(s) && Q.Enabled(s, x) && h < |s.q.heap|
    ensures var p := Q.QueueStep(s, x); var e := s.q.heap[h];
            && h < |p.heap| && QI.Evolves(e, p.heap[h]) && (Q.Listed(p, h) ==> Q.Listed(s.q, h))
            && var f := p.heap[h];
               && (f.phase == Q.Failed && e.phase != Q.Failed ==>
                     x.DoReport? && x.id == e.need.requestId && x.err.Some? && f.error == x.err)
               && (x.DoReport? && x.id == e.need.requestId && Q.Listed(s.q, h) && (x.err.Some? || e.phase == Q.Resolving) ==>
                     Q.Terminal(f.phase))
  {
    QI.StepKeepsQueue(s, x);
    QL.StepOnEntry(s, x, h);
    QL.ListingMeans(s, x);
    EndedEntry(s, x, h, Q.QueueStep(s, x).heap[h]);
    hide Q.QueueStep, QI.SystemOk, QL.Becomes, Q.Enabled;
  }

  lemma EndedEntry(s: Q.System, x: Q.Event, h: nat, f: Q.Entry)
    requires Q.Indexed(s.q) && h < |s.q.heap| && QL.Becomes(s, x, h, f) && QI.Evolves(s.q.heap[h], f)
    ensures var e := s.q.heap[h];
            && (f.phase == Q.Failed && e.phase != Q.Failed ==>
                  x.DoReport? && x.id == e.need.requestId && x.err.Some? && f.error == x.err)
            && (x.DoReport? && x.id == e.need.requestId && Q.Listed(s.q, h) && (x.err.Some? || e.phase == Q.Resolving) ==>
                  Q.Terminal(f.phase))
  {
    hide QL.PassesOver, QL.GrantsIt, QL.AcceptsIt, QL.Frees, Q.Listed;
  }

  /** Entry and stage before and after a step, in the words of EntryStep and ReportedStage. */
  lemma TellsOn(w: World, e: Event, h: nat, x: Q.Entry, f: Q.Entry, a: Stage, b: Stage, before: bool, after: bool)
    requires x.phase == Q.Failed ==> x.error.Some? && a == Ended(Err(x.error.value))
    requires a.Ended? && before ==> Q.Terminal(x.phase)
    requires (after ==> before) && QI.Evolves(x, f) && Advances(a, b)
    requires if e == Reports(x.need.requestId) then a.Ending? && b == Ended(a.out) else b.Ended? ==> a.Ended?
    requires f.phase == Q.Failed && x.phase != Q.Failed ==> e == Reports(x.need.requestId) && a.Ending? && f.error == ErrorOf(a.out) && f.error.Some?
    requires e == Reports(x.need.requestId) && a.Ending? && before && (a.out.Err? || x.phase == Q.Resolving) ==> Q.Terminal(f.phase)
    requires a.Ending? && a.out.Ok? ==> x.phase == Q.Resolving || Q.Terminal(x.phase)
    ensures f.phase == Q.Failed ==> f.error.Some? && b == Ended(Err(f.error.value))
    ensures b.Ended? && after ==> Q.Terminal(f.phase)
  {
  }

  lemma AnsweredEntry(w: World, h: nat)
    requires WorldOk(w) && h < |w.queue.q.heap|
    ensures var x := w.queue.q.heap[h];
            && x.need.requestId in w.threads
            && (w.threads[x.need.requestId].stage.Ending? && w.threads[x.need.requestId].stage.out.Ok? ==>
                  x.phase == Q.Resolving || Q.Terminal(x.phase))
  {
    OwnEntry(w, w.queue.q.heap[h].need.requestId, h);
  }

  lemma EntryMoved(w: World, e: Event, h: nat)
    requires WorldOk(w) && Sound(w) && Enabled(w, e) && h < |w.queue.q.heap|
    ensures h < |Step(w, e).queue.q.heap| && w.queue.q.heap[h].need.requestId in w.threads
    ensures var x, f := w.queue.q.heap[h], Step(w, e).queue.q.heap[h]; var a := w.threads[x.need.requestId].stage;
            && QI.Evolves(x, f) && (Q.Listed(Step(w, e).queue.q, h) ==> Q.Listed(w.queue.q, h))
            && (f.phase == Q.Failed && x.phase != Q.Failed ==>
                  e == Reports(x.need.requestId) && a.Ending? && f.error == ErrorOf(a.out) && f.error.Some?)
            && (e == Reports(x.need.requestId) && a.Ending? && Q.Listed(w.queue.q, h) && (a.out.Err? || x.phase == Q.Resolving) ==>
                  Q.Terminal(f.phase))
  {
    AnsweredEntry(w, h);
    QueueSideIs(w, e);
    if QueueSideOf(w, e).Some? {
      EntryStep(w.queue, QueueSideOf(w, e).value, h);
    }
    hide Step, WorldOk, Sound, Q.QueueStep, Q.Listed, P.Enabled;
  }

  lemma TellsStep(w: World, e: Event, h: nat)
    requires WorldOk(w) && Sound(w) && Enabled(w, e) && h < |w.queue.q.heap| && Tells(w, h)
    ensures h < |Step(w, e).queue.q.heap| && Tells(Step(w, e), h)
  {
    var id := w.queue.q.heap[h].need.requestId;
    AnsweredEntry(w, h);
    EntryMoved(w, e, h);
    StepAdvances(w, e, id);
    ReportedStage(w, e, id);
    hide Step, WorldOk, Sound, Enabled, Q.Listed, Advances;
    TellsOn(w, e, h, w.queue.q.heap[h], Step(w, e).queue.q.heap[h], w.threads[id].stage, Step(w, e).threads[id].stage,
            Q.Listed(w.queue.q, h), Q.Listed(Step(w, e).queue.q, h));
  }

  lemma NewEntryTells(w: World, e: Event, h: nat)
    requires WorldOk(w) && Sound(w) && Enabled(w, e) && |w.queue.q.heap| <= h < |Step(w, e).queue.q.heap|
    ensures Tells(Step(w, e), h)
  {
    QueueSideIs(w, e);
    if e.Enqueues? {
      QL.EnqueueMeans(w.queue.q, e.run, e.need, e.checkedAt);
    } else if QueueSideOf(w, e).Some? {
      QR.HeapGrowsOnlyByEnqueue(w.queue, QueueSideOf(w, e).value);
    }
    hide WorldOk, Sound, Q.Enqueue, QL.HasRoom;
  }

  /** A failed entry records exactly the error its request ended with, and the entry of a reported request
      is over as long as it is listed: together with ResolvedIsConfirmed, what the queue tells about
      a request is what its caller was told, unless the entry was cancelled or expired before. */
  lemma {:induction false} EntriesTell(r: Run, n: nat, h: nat)
    requires IsRun(r) && n < |r.states| && h < |r.states[n].queue.q.heap|
    ensures Tells(r.states[n], h)
  {
    hide WorldOk, Follows, Sound, Enabled, Step, PI.PluginOk, Tells;
    if n > 0 {
      var w, e := r.states[n - 1], r.events[n - 1];
      OkAt(r, n - 1);
      FollowsAt(r, n - 1);
      if h < |w.queue.q.heap| {
        EntriesTell(r, n - 1, h);
        TellsStep(w, e, h);
      } else {
        NewEntryTells(w, e, h);
      }
    }
  }
}
