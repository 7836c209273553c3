/** Runs of the right plugin: at most one open continuation per slot, and fills that count once. */
module SlotRuns {
  import opened Values
  import opened Schema
  import opened Plans
  import opened StoreSpec
  import opened StoreInvariant
  import opened Selection
  import opened SlotFill
  import opened Api
  import opened SlotSpec
  import opened SlotInvariant

  /** Any interleaving of the plugin's locked sections, of any number of requests. */
  datatype Run = Run(states: seq<Plugin>, events: seq<SlotSpec.Event>)

  ghost predicate Follows(r: Run, i: nat)
    requires |r.states| == |r.events| + 1 && i < |r.events|
  {
    && WellFormed(r.states[i].store.tables) && SlotsPoint(r.states[i])
    && Enabled(r.states[i], r.events[i]) && r.states[i + 1] == SlotSpec.Step(r.states[i], r.events[i])
  }

  ghost predicate IsRun(r: Run) {
    && |r.states| == |r.events| + 1
    && PluginOk(r.states[0])
    && forall i {:trigger Follows(r, i)} :: 0 <= i < |r.events| ==> Follows(r, i)
  }

  /** Start: nothing pending, nothing closed, no session. */
  lemma StartIsOk(s: State, defs: seq<Slot>, generating: bool)
    requires Inv(s) && s.sessions == map[] && DefsOk(s.tables, defs)
    ensures PluginOk(Plugin(s, true, defs, generating, map[], map[], {}, 0))
  {
    hide Inv, DefsOk;
  }

  lemma StepFacts(r: Run, i: nat)
    requires IsRun(r) && i < |r.events| && PluginOk(r.states[i])
    ensures PluginOk(r.states[i + 1]) && Moves(r.states[i], r.states[i + 1])
  {
    hide SlotSpec.Step, PluginOk, Moves, Enabled;
    assert Follows(r, i);
    StepKeepsPlugin(r.states[i], r.events[i]);
  }

  lemma {:induction false} OkAt(r: Run, n: nat)
    requires IsRun(r) && n < |r.states|
    ensures PluginOk(r.states[n])
  {
    hide Follows, PluginOk;
    if n > 0 {
      OkAt(r, n - 1);
      StepFacts(r, n - 1);
    }
  }

  lemma {:induction false} MovesOver(r: Run, i: nat, j: nat)
    requires IsRun(r) && i <= j < |r.states|
    ensures PluginOk(r.states[i]) && PluginOk(r.states[j]) && Moves(r.states[i], r.states[j])
  {
    hide Follows, PluginOk, Moves;
    OkAt(r, i);
    if i < j {
      MovesOver(r, i, j - 1);
      StepFacts(r, j - 1);
      MovesTransitive(r.states[i], r.states[j - 1], r.states[j]);
    } else {
      MovesItself(r.states[i]);
    }
  }

  // ---- continuations ----

  /** In every reachable state a slot has at most one open continuation. */
  lemma OneOpenPerSlot(r: Run, n: nat, a: nat, b: nat)
    requires IsRun(r) && n < |r.states| && a in r.states[n].pending && b in r.states[n].pending
    requires r.states[n].pending[a].done == 0 && r.states[n].pending[b].done == 0
    requires r.states[n].pending[a].slot.id == r.states[n].pending[b].slot.id
    ensures a == b
  {
    OkAt(r, n);
    assert ContinuationOk(r.states[n], a, r.states[n].pending[a]);
    assert ContinuationOk(r.states[n], b, r.states[n].pending[b]);
  }

  /** A continuation is kept, its done channel is closed at most once, and from then on nothing
      about it changes; what it was opened for never changes. */
  lemma ContinuationsSettle(r: Run, i: nat, j: nat, t: nat)
    requires IsRun(r) && i <= j < |r.states| && t in r.states[i].pending
    ensures t in r.states[j].pending && Settles(r.states[i].pending[t], r.states[j].pending[t])
    ensures r.states[j].pending[t].done <= 1
  {
    MovesOver(r, i, j);
    assert ContinuationOk(r.states[j], t, r.states[j].pending[t]);
  }

  /** Continuations are never forgotten, and there are never more than 128. */
  lemma PendingIsBounded(r: Run, i: nat, j: nat)
    requires IsRun(r) && i <= j < |r.states|
    ensures r.states[i].pending.Keys <= r.states[j].pending.Keys && |r.states[j].pending.Keys| <= MAX_PENDING
  {
    MovesOver(r, i, j);
  }

  // ---- late fills ----

  /** The i-th step is a Complete for this continuation. */
  ghost predicate Completes(r: Run, i: nat, t: nat)
    requires IsRun(r) && i < |r.events|
  {
    r.events[i].DoComplete? && r.events[i].r.continuation == t && t in r.states[i].pending
  }

  ghost function ReplyAt(r: Run, i: nat): Reply<Payload>
    requires IsRun(r) && i < |r.events| && r.events[i].DoComplete?
  {
    OkAt(r, i);
    Complete(r.states[i], r.events[i].r, r.events[i].a).1
  }

  lemma CompleteCases(p: Plugin, r: Resolution, a: Around, t: nat)
    requires PluginOk(p) && r.continuation == t && t in p.pending
    ensures var (q, reply) := Complete(p, r, a); var c := p.pending[t];
            if r.requestId != c.request.id || r.version != 0 then q == p && reply == Err(STATE_CONFLICT)
            else if c.done > 0 then
              q == p && reply == if c.err.None? && c.digest == Some(r.payload) then Ok(c.result) else Err(STATE_CONFLICT)
            else
              && q.store == Answer(p, c, r.payload, a).0 && reply == Answer(p, c, r.payload, a).1
              && q.pending == p.pending[t := Finished(c, r.payload, reply)]
  {
    hide Answer;
  }

  lemma LateComplete(p: Plugin, r: Resolution, a: Around, t: nat)
    requires PluginOk(p) && r.continuation == t && t in p.pending && SessionEvents(p.store.tables, p.defs, a.between)
    requires p.pending[t].request.connection in p.closed || !p.running || a.now >= p.pending[t].request.deadline
    ensures Complete(p, r, a).0.store == p.store
    ensures Complete(p, r, a).1.Ok? ==> p.pending[t].done == 1 && p.pending[t].err.None?
  {
    assert ContinuationOk(p, t, p.pending[t]);
    CompleteCases(p, r, a, t);
    InstallFacts(p, p.pending[t], r.payload, a);
    AnswerFacts(p, p.pending[t], r.payload, a);
  }

  /** A fill that arrives after its connection was closed, after its deadline, or after Stop changes
      nothing in the store, and is answered with an error unless it repeats an earlier success. */
  lemma LateFillChangesNothing(r: Run, k: nat, i: nat, t: nat)
    requires IsRun(r) && k <= i < |r.events| && Completes(r, i, t)
    requires var c := r.states[i].pending[t];
             || c.request.connection in r.states[k].closed
             || !r.states[k].running
             || r.events[i].a.now >= c.request.deadline
    ensures r.states[i + 1].store == r.states[i].store
    ensures ReplyAt(r, i).Ok? ==> r.states[i].pending[t].done == 1 && r.states[i].pending[t].err.None?
  {
    hide PluginOk, Complete, StoreMoves, ReplyFits;
    MovesOver(r, k, i);
    assert Follows(r, i);
    LateComplete(r.states[i], r.events[i].r, r.events[i].a, t);
  }

  // ---- retries ----

  /** After a Complete that succeeded, repeating it gives the same rows, at any time, whatever
      happened since, and changes nothing. */
  lemma RetryReturnsTheResult(r: Run, i: nat, j: nat, t: nat)
    requires IsRun(r) && i < j < |r.events| && Completes(r, i, t) && ReplyAt(r, i).Ok?
    requires r.events[j].DoComplete? && r.events[j].r == r.events[i].r
    ensures ReplyAt(r, j) == ReplyAt(r, i) && r.states[j + 1] == r.states[j]
  {
    var p, e := r.states[i], r.events[i];
    assert Follows(r, i) && Follows(r, j);
    OkAt(r, i);
    CompleteCases(p, e.r, e.a, t);
    assert ContinuationOk(p, t, p.pending[t]);
    ContinuationsSettle(r, i + 1, j, t);
    OkAt(r, j);
    CompleteCases(r.states[j], e.r, r.events[j].a, t);
  }

  /** A successful Complete recorded exactly this candidate and this answer, and they stay. */
  lemma SuccessIsRecorded(r: Run, i: nat, j: nat, t: nat)
    requires IsRun(r) && i < |r.events| && i < j < |r.states| && Completes(r, i, t) && ReplyAt(r, i).Ok?
    ensures t in r.states[j].pending
    ensures var c := r.states[j].pending[t];
            && c.done == 1 && c.err.None? && c.digest == Some(r.events[i].r.payload) && c.result == ReplyAt(r, i).value
            && c.request == r.states[i].pending[t].request && c.request.id == r.events[i].r.requestId
  {
    var p, e := r.states[i], r.events[i];
    assert Follows(r, i);
    OkAt(r, i);
    CompleteCases(p, e.r, e.a, t);
    assert ContinuationOk(p, t, p.pending[t]);
    ContinuationsSettle(r, i + 1, j, t);
  }

  // ---- each slot is filled once ----

  /** The i-th step installs rows for the slot. */
  ghost predicate InstallsAt(r: Run, i: nat, slot: Slot)
    requires IsRun(r) && i < |r.events|
  {
    && r.events[i].DoComplete? && r.events[i].r.continuation in r.states[i].pending
    && var c := r.states[i].pending[r.events[i].r.continuation];
       && c.done == 0 && c.slot == slot && r.events[i].r.requestId == c.request.id && r.events[i].r.version == 0
       && WellFormed(r.states[i].store.tables) && SlotSpec.Install(r.states[i], c, r.events[i].r.payload, r.events[i].a).1.None?
  }

  lemma InstalledNow(p: Plugin, r: Resolution, a: Around, t: nat)
    requires PluginOk(p) && r.continuation == t && t in p.pending && p.pending[t].done == 0
    requires r.requestId == p.pending[t].request.id && r.version == 0
    requires SessionEvents(p.store.tables, p.defs, a.between) && SlotSpec.Install(p, p.pending[t], r.payload, a).1.None?
    ensures p.pending[t].slot in p.defs && KeysLive(Complete(p, r, a).0.store, p.pending[t].slot)
  {
    assert ContinuationOk(p, t, p.pending[t]);
    CompleteCases(p, r, a, t);
    InstallFacts(p, p.pending[t], r.payload, a);
    AnswerFacts(p, p.pending[t], r.payload, a);
  }

  lemma InstalledNext(r: Run, i: nat, slot: Slot)
    requires IsRun(r) && i < |r.events| && InstallsAt(r, i, slot)
    ensures slot in r.states[i].defs && KeysLive(r.states[i + 1].store, slot)
  {
    var p, e := r.states[i], r.events[i];
    var t := e.r.continuation;
    hide PluginOk, KeysLive, SlotSpec.Install, Complete, StoreMoves, ReplyFits;
    assert Follows(r, i);
    OkAt(r, i);
    InstalledNow(p, e.r, e.a, t);
  }

  /** Rows installed for a slot make all its keys live for good. */
  lemma InstalledKeysStay(r: Run, i: nat, j: nat, slot: Slot)
    requires IsRun(r) && i < |r.events| && i < j < |r.states| && InstallsAt(r, i, slot)
    ensures slot in r.states[i].defs && KeysLive(r.states[j].store, slot)
  {
    hide PluginOk, KeysLive, InstallsAt, StoreMoves, Follows;
    InstalledNext(r, i, slot);
    MovesOver(r, i, i + 1);
    MovesOver(r, i + 1, j);
    LiveKeysStay(r.states[i + 1].defs, r.states[i + 1].store, r.states[j].store, slot);
  }

  /** Each slot is installed at most once, and no two slots install the same key. */
  lemma KeysAreInstalledOnce(r: Run, i: nat, j: nat, a: Slot, b: Slot, k: string)
    requires IsRun(r) && i < j < |r.events| && InstallsAt(r, i, a) && InstallsAt(r, j, b)
    requires k in a.keys && k in b.keys
    ensures a.table != b.table
  {
    InstalledKeysStay(r, i, j, a);
    OkAt(r, j);
    var c := r.states[j].pending[r.events[j].r.continuation];
    InstallFacts(r.states[j], c, r.events[j].r.payload, r.events[j].a);
    assert Filling(b, Live(r.states[j].store.committed), Live(SlotSpec.Install(r.states[j], c, r.events[j].r.payload, r.events[j].a).0.committed));
  }

  /** Once rows were installed for a slot, no open continuation for it can ever be completed: if
      the SELECT after the installation failed, the slot is asked for again but stays stuck. */
  lemma InstalledSlotRefusesFills(r: Run, i: nat, j: nat, slot: Slot, t: nat)
    requires IsRun(r) && i < j < |r.events| && InstallsAt(r, i, slot)
    requires Completes(r, j, t) && r.states[j].pending[t].slot == slot && r.states[j].pending[t].done == 0
    ensures ReplyAt(r, j).Err? && r.states[j + 1].store == r.states[j].store
  {
    InstalledKeysStay(r, i, j, slot);
    assert Follows(r, j);
    OkAt(r, j);
    hide PluginOk, KeysLive, Complete;
    BlockedComplete(r.states[j], r.events[j].r, r.events[j].a, t);
  }

  lemma BlockedComplete(p: Plugin, r: Resolution, a: Around, t: nat)
    requires PluginOk(p) && r.continuation == t && t in p.pending && p.pending[t].done == 0
    requires KeysLive(p.store, p.pending[t].slot) && SessionEvents(p.store.tables, p.defs, a.between)
    ensures Complete(p, r, a).1.Err? && Complete(p, r, a).0.store == p.store
  {
    assert ContinuationOk(p, t, p.pending[t]);
    BlockedInstall(p, p.pending[t], r.payload, a);
    AnswerFacts(p, p.pending[t], r.payload, a);
    CompleteCases(p, r, a, t);
  }

  lemma BlockedInstall(p: Plugin, c: Continuation, payload: Json, a: Around)
    requires PluginOk(p) && c.slot in p.defs && KeysLive(p.store, c.slot)
    ensures SlotSpec.Install(p, c, payload, a).1.Some?
  {
    InstallFacts(p, c, payload, a);
    assert c.slot.keys != [];
    assert c.slot.keys[0] in c.slot.keys;
  }

  /** That failure is possible: a request cancelled between the installation and its SELECT keeps
      the rows and fails. */
  lemma CancelledAfterInstall(p: Plugin, c: Continuation, payload: Json, a: Around)
    requires PluginOk(p) && c.slot in p.defs && SessionEvents(p.store.tables, p.defs, a.between)
    requires c.plan.kind == Select && SlotSpec.Install(p, c, payload, a).1.None? && a.early
    ensures Answer(p, c, payload, a).1.Err? && KeysLive(Answer(p, c, payload, a).0, c.slot)
  {
    AnswerFacts(p, c, payload, a);
  }

  // ---- what a SELECT finds ----

  lemma PassedSlotIsLive(p: Plugin, slot: Slot, q: Request, plan: Plan, params: seq<Value>, now: int)
    requires PluginOk(p) && slot in p.defs && Visit(p, slot, q, plan, params, now).1 == Passes
    ensures KeysLive(p.store, slot)
  {
    hide KeysLive, RowsLive, Inv;
    RecycleCases(p, slot.id, now);
    var t := p.slots[slot.id];
    assert ContinuationOk(p, t, p.pending[t]);
    SlotIdsDiffer(p.store.tables, p.defs, p.pending[t].slot, slot);
  }

  /** A SELECT gets past a slot at once only when the slot was filled by a successful continuation,
      so all its reference rows are there, then and ever after. */
  lemma PassedSlotIsFilled(r: Run, i: nat, j: nat)
    requires IsRun(r) && i < |r.events| && i <= j < |r.states| && r.events[i].DoVisit?
    requires SlotsPoint(r.states[i])
    requires var e := r.events[i]; Visit(r.states[i], e.slot, e.request, e.plan, e.params, e.now).1 == Passes
    ensures KeysLive(r.states[j].store, r.events[i].slot)
  {
    hide PluginOk, KeysLive, StoreMoves, Visit;
    var p, e := r.states[i], r.events[i];
    assert Follows(r, i);
    MovesOver(r, i, j);
    PassedSlotIsLive(p, e.slot, e.request, e.plan, e.params, e.now);
    LiveKeysStay(p.defs, p.store, r.states[j].store, e.slot);
  }

  lemma WaitsForTheSlot(p: Plugin, slot: Slot, q: Request, plan: Plan, params: seq<Value>, now: int, t: nat)
    requires PluginOk(p) && slot in p.defs && Visit(p, slot, q, plan, params, now).1 == Waits(t)
    ensures t in p.pending && p.pending[t].slot == slot && p.pending[t].done == 0
  {
    hide KeysLive, RowsLive, Inv;
    RecycleCases(p, slot.id, now);
    assert t == p.slots[slot.id] && ContinuationOk(p, t, p.pending[t]);
    SlotIdsDiffer(p.store.tables, p.defs, p.pending[t].slot, slot);
  }

  lemma FinishedSlotIsLive(p: Plugin, t: nat)
    requires PluginOk(p) && t in p.pending && p.pending[t].done > 0 && p.pending[t].err.None?
    ensures p.pending[t].slot in p.defs && KeysLive(p.store, p.pending[t].slot)
  {
    assert ContinuationOk(p, t, p.pending[t]);
  }

  /** Nor does a SELECT that waited for somebody else's continuation get past the slot before that
      continuation has ended without an error: from then on all the reference rows are there. */
  lemma AwaitedSlotIsFilled(r: Run, i: nat, m: nat, j: nat, t: nat)
    requires IsRun(r) && i < |r.events| && i <= m <= j < |r.states| && r.events[i].DoVisit?
    requires SlotsPoint(r.states[i])
    requires var e := r.events[i]; Visit(r.states[i], e.slot, e.request, e.plan, e.params, e.now).1 == Waits(t)
    ensures t in r.states[m].pending
    ensures r.states[m].pending[t].done > 0 && r.states[m].pending[t].err.None? ==>
              KeysLive(r.states[j].store, r.events[i].slot)
  {
    hide PluginOk, KeysLive, StoreMoves, Visit;
    var p, e := r.states[i], r.events[i];
    assert Follows(r, i);
    MovesOver(r, i, m);
    MovesOver(r, m, j);
    WaitsForTheSlot(p, e.slot, e.request, e.plan, e.params, e.now, t);
    if r.states[m].pending[t].done > 0 && r.states[m].pending[t].err.None? {
      FinishedSlotIsLive(r.states[m], t);
      LiveKeysStay(r.states[m].defs, r.states[m].store, r.states[j].store, e.slot);
    }
  }

  // ---- what a Complete answers ----

  /** Whatever sessions do between the installation of the rows and the SELECT, every store in
      between satisfies the constraints and holds the candidate's rows. */
  lemma RowsStayMeanwhile(p: Plugin, c: Continuation, payload: Json, a: Around, n: nat)
    requires PluginOk(p) && c.slot in p.defs && SessionEvents(p.store.tables, p.defs, a.between) && n <= |a.between|
    requires SlotSpec.Install(p, c, payload, a).1.None?
    ensures var s := Meanwhile(SlotSpec.Install(p, c, payload, a).0, a.between[..n]);
            StoreOk(s, p.defs) && FillLive(s, c.slot, payload)
  {
    hide StoreOk, StoreMoves, FillLive, SessionEvent;
    var a' := a.(between := a.between[..n]);
    BetweenFacts(p, c, payload, a');
  }

  /** A successful Complete installed its rows, and the rows it answers with are rows its SELECT may
      return from the view of its session at that moment, as the store promises of every SELECT. */
  lemma AnswerIsTheSelection(r: Run, i: nat, t: nat)
    requires IsRun(r) && i < |r.events| && Completes(r, i, t) && r.states[i].pending[t].done == 0 && ReplyAt(r, i).Ok?
    ensures WellFormed(r.states[i].store.tables)
    ensures var c := r.states[i].pending[t]; var s := AtSelect(r.states[i], c, r.events[i].r.payload, r.events[i].a);
            && FillLive(s, c.slot, r.events[i].r.payload) && r.states[i + 1].store.committed == s.committed
            && ReplyAt(r, i).value.Rows? && r.events[i].a.reply == Selection(ReplyAt(r, i).value.rows)
            && ReplyFits(s, c, r.events[i].a.reply)
  {
    hide ReplyFits;
    var p, e := r.states[i], r.events[i];
    assert Follows(r, i);
    OkAt(r, i);
    assert ContinuationOk(p, t, p.pending[t]);
    CompleteCases(p, e.r, e.a, t);
    InstallFacts(p, p.pending[t], e.r.payload, e.a);
    AnswerFacts(p, p.pending[t], e.r.payload, e.a);
    BetweenFacts(p, p.pending[t], e.r.payload, e.a);
  }

  /** A live row of a table nobody has pending writes in is in every session's view. */
  lemma LiveRowIsSeen(s: State, sid: string, id: Id, row: Row)
    requires Unwritten(s, id.table) && id in Live(s.committed) && Live(s.committed)[id] == row
    ensures id in ViewOf(s, sid) && ViewOf(s, sid)[id] == row
  {
  }

  /** The answer shows the candidate: without a limit every row of the candidate that the SELECT
      matches is among the rows of the answer. */
  lemma AnswerShowsTheCandidate(r: Run, i: nat, t: nat, k: nat)
    requires IsRun(r) && i < |r.events| && Completes(r, i, t) && r.states[i].pending[t].done == 0 && ReplyAt(r, i).Ok?
    requires var c := r.states[i].pending[t]; var payload := r.events[i].r.payload;
             && c.plan.limit == None && payload.fill.Some? && k < |payload.fill.value.rows|
             && RowMatches(Clone(payload.fill.value.rows[k]), c.plan.predicates, c.params) == Some(true)
    ensures ReplyAt(r, i).value.Rows?
    ensures RowData(Clone(r.events[i].r.payload.fill.value.rows[k]), r.states[i].pending[t].plan.projection) in ReplyAt(r, i).value.rows
  {
    AnswerIsTheSelection(r, i, t);
    var p, e := r.states[i], r.events[i];
    SelectStore(r, i, t);
    hide *;
    CandidateIsSelected(AtSelect(p, p.pending[t], e.r.payload, e.a), p.defs, p.pending[t], e.r.payload, e.a.reply, k);
  }

  /** The store a completed continuation's SELECT runs on satisfies the invariant. */
  lemma SelectStore(r: Run, i: nat, t: nat)
    requires IsRun(r) && i < |r.events| && Completes(r, i, t)
    ensures var p, e := r.states[i], r.events[i]; var c := p.pending[t];
            && WellFormed(p.store.tables) && c.slot in p.defs && c.plan.table == c.slot.table
            && StoreOk(AtSelect(p, c, e.r.payload, e.a), p.defs)
  {
    hide ReplyFits, Complete;
    var p, e := r.states[i], r.events[i];
    assert Follows(r, i);
    OkAt(r, i);
    assert ContinuationOk(p, t, p.pending[t]);
    BetweenFacts(p, p.pending[t], e.r.payload, e.a);
  }

  lemma CandidateIsLive(s: State, defs: seq<Slot>, slot: Slot, payload: Json, k: nat, sid: string) returns (id: Id)
    requires StoreOk(s, defs) && slot in defs && FillLive(s, slot, payload) && k < |payload.fill.value.rows|
    ensures id.table == slot.table && id in ViewOf(s, sid) && ViewOf(s, sid)[id] == Clone(payload.fill.value.rows[k])
  {
    var row := payload.fill.value.rows[k];
    var t := FindTable(s.tables, slot.table).value;
    assert RowLive(t, Live(s.committed), row);
    id := Id(t.name, KeyText(t, row).value);
    hide ViewOf, Inv, FillLive, Clone;
    LiveRowIsSeen(s, sid, id, Clone(row));
  }

  /** Without a limit every matching record is selected. */
  lemma MatchingIsSelected(t: Table, view: View, plan: Plan, params: seq<Value>, ids: seq<Id>, id: Id)
    requires Selects(t, view, plan, params, ids) && plan.limit == None && id in Matching(view, plan, params)
    ensures id in ids
  {
    hide Matching, Orders, SortedBy;
    var all :| Ordering(Orders(t, plan), view, Matching(view, plan, params), all) && ids == all[..Cut(plan.limit, |all|)];
    assert ids == all;
  }

  lemma SelectedIsShown(view: View, projection: seq<string>, ids: seq<Id>, id: Id)
    requires (forall x :: x in ids ==> x in view) && id in ids
    ensures RowData(view[id], projection) in DataOf(view, projection, ids)
  {
    var n :| 0 <= n < |ids| && ids[n] == id;
    assert DataOf(view, projection, ids)[n] == RowData(view[id], projection);
  }

  lemma CandidateIsSelected(s: State, defs: seq<Slot>, c: Continuation, payload: Json, reply: Selected, k: nat)
    requires StoreOk(s, defs) && c.slot in defs && c.plan.table == c.slot.table && FillLive(s, c.slot, payload)
    requires reply.Selection? && ReplyFits(s, c, reply) && c.plan.limit == None && k < |payload.fill.value.rows|
    requires RowMatches(Clone(payload.fill.value.rows[k]), c.plan.predicates, c.params) == Some(true)
    ensures RowData(Clone(payload.fill.value.rows[k]), c.plan.projection) in reply.rows
  {
    var t, view := FindTable(s.tables, c.slot.table).value, ViewOf(s, c.request.connection);
    var id := CandidateIsLive(s, defs, c.slot, payload, k, c.request.connection);
    hide StoreOk, FillLive, ViewOf, RowMatches, RowData, Selects, Clone, DataOf;
    var ids :| Selects(t, view, c.plan, c.params, ids) && (forall x :: x in ids ==> x in view) && reply.rows == DataOf(view, c.plan.projection, ids);
    MatchingIsSelected(t, view, c.plan, c.params, ids, id);
    SelectedIsShown(view, c.plan.projection, ids, id);
  }
}
