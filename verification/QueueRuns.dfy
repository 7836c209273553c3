/** Runs of the generation queue: who may resolve a request, and what an accepted result is. */
module QueueRuns {
  import opened Values
  import opened Sorting
  import opened Api
  import opened QueueSpec
  import opened QueueInvariant
  import opened QueueFrames

  // ---- what a step hands out ----

  /** The batch of a step: distinct fresh leases on listed entries of the owner's run. */
  ghost predicate BatchOk(q: Queue, p: Queue, b: Batch) {
    && b.owner.token != 0
    && (forall i :: 0 <= i < |b.grants| ==> BatchGrantOk(q, p, b.owner, b.grants[i]))
    && (forall i, j :: 0 <= i < j < |b.grants| ==> b.grants[i].lease < b.grants[j].lease)
  }

  ghost predicate BatchGrantOk(q: Queue, p: Queue, o: Owner, g: Grant) {
    && g.handle < |q.heap| <= |p.heap| && Listed(p, g.handle)
    && q.minted < g.lease <= p.minted
    && var e := p.heap[g.handle];
       && e.phase == Leased && e.lease == g.lease && e.need == g.need && g.expiry == Millis(e.leaseExpiry)
       && OwnerOf(p, e.run) == o && e.epoch == o.epoch
  }

  /** A step that gives an entry another lease hands that lease out. */
  ghost predicate Covered(q: Queue, p: Queue, b: Option<Batch>) {
    && (forall h :: 0 <= h < |q.heap| <= |p.heap| ==>
          SameLease(q.heap[h], p.heap[h]) || p.heap[h].lease == 0 || (b.Some? && GrantedIn(b.value.grants, h)))
    && (forall h :: |q.heap| <= h < |p.heap| ==> p.heap[h].lease == 0)
  }

  lemma PassGrants(q: Queue, run: string, o: Owner, limit: int, now: int)
    requires QueueOk(q) && o.token != 0 && limit >= 0
    requires Pass(q, run, o, limit, now).1.Ok?
    ensures var (p, b) := Pass(q, run, o, limit, now);
            BatchOk(q, p, b.value) && Covered(q, p, Some(b.value)) && |b.value.grants| <= limit
  {
    var ids := SortedKeys(RunIds(q, run));
    SortedIsDistinct(ids);
    ScanGrants(q, run, ids, o.epoch, limit, now);
    ScanFrames(q, ids, o.epoch, limit, now);
    var s := ScanIds(q, ids, o.epoch, limit, now);
    var p := After(q, s);
    assert forall h :: 0 <= h < |q.heap| ==> Listed(p, h) == Listed(q, h);
    forall i | 0 <= i < |s.grants| ensures BatchGrantOk(q, p, o, s.grants[i]) {
      assert GrantOk(q, s, run, o.epoch, s.grants[i]);
    }
    forall h | 0 <= h < |q.heap|
      ensures SameLease(q.heap[h], p.heap[h]) || p.heap[h].lease == 0 || GrantedIn(s.grants, h)
    {
    }
  }

  lemma BatchAfterClaim(q: Queue, c: Queue, p: Queue, b: Batch)
    requires q.minted <= c.minted && |q.heap| == |c.heap| == |p.heap|
    requires forall h :: 0 <= h < |q.heap| ==> SameLease(q.heap[h], c.heap[h]) || c.heap[h].lease == 0
    requires BatchOk(c, p, b) && Covered(c, p, Some(b))
    ensures BatchOk(q, p, b) && Covered(q, p, Some(b))
  {
    forall i | 0 <= i < |b.grants| ensures BatchGrantOk(q, p, b.owner, b.grants[i]) {
      assert BatchGrantOk(c, p, b.owner, b.grants[i]);
    }
  }

  lemma NextGrants(q: Queue, call: NextCall, now: int)
    requires QueueOk(q)
    ensures var (p, b) := Next(q, call, now);
            if b.Ok? then BatchOk(q, p, b.value) && Covered(q, p, Some(b.value)) && |b.value.grants| <= call.limit
            else Covered(q, p, None)
  {
    if WellFormedCall(call) {
      var (c, o) := Claim(q, call);
      ClaimKeeps(q, call);
      ClaimKeepsHandles(q, call);
      ClaimKeepsLeases(q, call);
      if o.Ok? {
        PassGrants(c, call.run, o.value, call.limit, now);
        PassKeepsOwners(c, call.run, o.value, call.limit, now);
        BatchAfterClaim(q, c, Pass(c, call.run, o.value, call.limit, now).0, Pass(c, call.run, o.value, call.limit, now).1.value);
      }
    }
  }

  lemma ClaimKeepsLeases(q: Queue, call: NextCall)
    requires Indexed(q)
    ensures forall h :: 0 <= h < |q.heap| ==>
              SameLease(q.heap[h], Claim(q, call).0.heap[h]) || Claim(q, call).0.heap[h].lease == 0
    ensures Claim(q, call).1.Err? ==> Claim(q, call).0 == q
  {
  }

  lemma ReplaceKeepsLeases(q: Queue, h: nat, f: Entry)
    requires h < |q.heap| && SameLease(q.heap[h], f)
    ensures Covered(q, q.(heap := q.heap[h := f]), None)
  {
  }

  lemma EnqueueKeepsLeases(q: Queue, run: string, need: Need, at: int)
    requires Indexed(q)
    ensures Covered(q, Enqueue(q, run, need, at).0, None)
  {
  }

  lemma CancelRunKeepsLeases(q: Queue, run: string, code: Code)
    ensures Covered(q, CancelRun(q, run, code), None)
  {
  }

  lemma ReportKeepsLeases(q: Queue, id: string, raw: Payload, err: Option<Code>)
    requires Indexed(q)
    ensures Covered(q, ReportOutcome(q, id, raw, err), None)
  {
    if id in q.index {
      var h := q.index[id];
      ReplaceKeepsLeases(q, h, Finish(q.heap[h], Failed, raw, err));
      ReplaceKeepsLeases(q, h, Finish(q.heap[h], Resolved, raw, None));
    }
  }

  lemma OtherStepsKeepLeases(s: System, e: Event)
    requires SystemOk(s) && Enabled(s, e) && !e.DoNext? && !e.DoPass?
    ensures Covered(s.q, QueueStep(s, e), None)
  {
    match e
    case DoEnqueue(run, need, at) => EnqueueKeepsLeases(s.q, run, need, at);
    case DoCheck(_, _) =>
    case DoCommit(t, _) => ReplaceKeepsLeases(s.q, t.handle, Accept(s.q.heap[t.handle], t.request.candidate));
    case DoReport(id, raw, err) => ReportKeepsLeases(s.q, id, raw, err);
    case DoCancel(id, code) =>
      if id in s.q.index {
        ReplaceKeepsLeases(s.q, s.q.index[id], CancelRequest(s.q, id, code).heap[s.q.index[id]]);
      }
    case DoCancelRun(run, code) => CancelRunKeepsLeases(s.q, run, code);
    case DoDrop(_) =>
    case DoReceive(h) => ReplaceKeepsLeases(s.q, h, Receive(s.q, h).heap[h]);
  }

  lemma StepBatch(s: System, e: Event)
    requires SystemOk(s) && Enabled(s, e)
    ensures BatchOf(s, e).Some? ==> BatchOk(s.q, QueueStep(s, e), BatchOf(s, e).value)
    ensures Covered(s.q, QueueStep(s, e), BatchOf(s, e))
  {
    if e.DoNext? {
      NextGrants(s.q, e.call, e.now);
    } else if e.DoPass? {
      if OwnerOf(s.q, e.run) == e.owner {
        PassGrants(s.q, e.run, e.owner, e.limit, e.now);
      }
    } else {
      OtherStepsKeepLeases(s, e);
    }
  }

  // ---- runs ----

  datatype Run = Run(states: seq<System>, events: seq<Event>, batches: seq<Option<Batch>>)

  ghost predicate Follows(r: Run, i: nat)
    requires |r.states| == |r.events| + 1 == |r.batches| + 1 && i < |r.events|
  {
    && Indexed(r.states[i].q) && Enabled(r.states[i], r.events[i])
    && r.states[i + 1] == Step(r.states[i], r.events[i])
    && r.batches[i] == BatchOf(r.states[i], r.events[i])
  }

  /** Any interleaving of locked sections, from the empty queue. */
  ghost predicate IsRun(r: Run) {
    && |r.states| == |r.events| + 1 == |r.batches| + 1
    && r.states[0] == System(EMPTY, {})
    && forall i {:trigger Follows(r, i)} :: 0 <= i < |r.events| ==> Follows(r, i)
  }

  lemma EmptyIsOk()
    ensures SystemOk(System(EMPTY, {}))
  {
  }

  lemma StepOk(r: Run, i: nat)
    requires IsRun(r) && i < |r.events| && SystemOk(r.states[i])
    ensures SystemOk(r.states[i + 1])
  {
    hide QueueStep, TicketsAfter, BatchOf, QueueOk;
    assert Follows(r, i);
    StepKeepsSystem(r.states[i], r.events[i]);
  }

  lemma {:induction false} OkAt(r: Run, n: nat)
    requires IsRun(r) && n < |r.states|
    ensures SystemOk(r.states[n])
  {
    hide SystemOk, Follows;
    if n > 0 {
      OkAt(r, n - 1);
      StepOk(r, n - 1);
    } else {
      EmptyIsOk();
    }
  }

  /** Everything the step lemmas say about the i-th step. */
  lemma StepFacts(r: Run, i: nat)
    requires IsRun(r) && i < |r.events|
    ensures SystemOk(r.states[i]) && SystemOk(r.states[i + 1])
    ensures Frames(r.states[i].q, r.states[i + 1].q) && Advances(r.states[i].q, r.states[i + 1].q)
    ensures r.batches[i].Some? ==> BatchOk(r.states[i].q, r.states[i + 1].q, r.batches[i].value)
    ensures Covered(r.states[i].q, r.states[i + 1].q, r.batches[i])
    ensures r.states[i].tickets <= r.states[i + 1].tickets
  {
    hide QueueStep, BatchOf;
    assert Follows(r, i);
    OkAt(r, i);
    OkAt(r, i + 1);
    StepKeepsQueue(r.states[i], r.events[i]);
    StepFrames(r.states[i], r.events[i]);
    StepBatch(r.states[i], r.events[i]);
  }

  // ---- entries over a run ----

  /** From any state to any later one an entry only evolves: terminal states absorb, a resolving
      entry can only become terminal, an accepted hash and candidate are final. */
  lemma {:induction false} EntriesEvolve(r: Run, i: nat, j: nat, h: nat)
    requires IsRun(r) && i <= j < |r.states| && h < |r.states[i].q.heap|
    ensures h < |r.states[j].q.heap| && Evolves(r.states[i].q.heap[h], r.states[j].q.heap[h])
    ensures r.states[i].q.minted <= r.states[j].q.minted
    ensures r.states[i].tickets <= r.states[j].tickets
  {
    if i < j {
      EntriesEvolve(r, i, j - 1, h);
      StepFacts(r, j - 1);
      EvolvesTransitive(r.states[i].q.heap[h], r.states[j - 1].q.heap[h], r.states[j].q.heap[h]);
    }
  }

  /** Over the whole life of an entry at most one candidate is sent, the accepted one, and the done
      channel is closed once, exactly when the entry becomes terminal. */
  lemma DeliveredAtMostOnce(r: Run, n: nat, h: nat)
    requires IsRun(r) && n < |r.states| && h < |r.states[n].q.heap|
    ensures var e := r.states[n].q.heap[h];
            && |e.sent| <= 1 && (e.hash.Some? <==> e.sent == [e.candidate])
            && e.closed <= 1 && (e.closed == 1 <==> Terminal(e.phase))
            && (e.phase == Resolved ==> e.sent == [e.candidate] && e.hash == e.candidate.canonical)
  {
    OkAt(r, n);
    assert EntryOk(r.states[n].q.heap[h]);
  }

  ghost predicate Accepts(r: Run, n: nat)
    requires IsRun(r) && n < |r.events|
  {
    && r.events[n].DoCommit? && r.events[n].ticket.handle < |r.states[n].q.heap|
    && ResolveCommit(r.states[n].q, r.events[n].ticket, r.events[n].now).1.Ok?
  }

  lemma AcceptFacts(r: Run, n: nat)
    requires IsRun(r) && n < |r.events| && Accepts(r, n)
    ensures var t, q := r.events[n].ticket, r.states[n].q;
            && SystemOk(r.states[n]) && t in r.states[n].tickets && TicketOk(q, t) && Listed(q, t.handle)
            && t.handle < |r.states[n + 1].q.heap|
            && OwnerOf(q, t.request.run) == t.owner && LeaseUsable(q.heap[t.handle], t.request.lease, r.events[n].now)
            && r.states[n + 1].q.heap[t.handle] == Accept(q.heap[t.handle], t.request.candidate)
  {
    assert Follows(r, n);
    OkAt(r, n);
  }

  /** The send on the delivery channel of capacity one never blocks: the channel is empty and was
      never used before. */
  lemma SendNeverBlocks(r: Run, n: nat)
    requires IsRun(r) && n < |r.events| && Accepts(r, n)
    ensures var t, before, after := r.events[n].ticket, r.states[n].q.heap, r.states[n + 1].q.heap;
            && t.handle < |before| && before[t.handle].sent == []
            && t.handle < |after| && after[t.handle].sent == [t.request.candidate]
  {
    AcceptFacts(r, n);
    assert EntryOk(r.states[n].q.heap[r.events[n].ticket.handle]);
  }

  // ---- leases ----

  /** The m-th step handed out this lease on this entry. */
  ghost predicate GrantedAt(r: Run, m: nat, i: nat, h: nat, lease: nat)
    requires |r.batches| == |r.events| && m < |r.events|
  {
    && r.batches[m].Some? && i < |r.batches[m].value.grants|
    && r.batches[m].value.grants[i].handle == h && r.batches[m].value.grants[i].lease == lease
  }

  lemma {:induction false} MintedGrows(r: Run, i: nat, j: nat)
    requires IsRun(r) && i <= j < |r.states|
    ensures r.states[i].q.minted <= r.states[j].q.minted
  {
    if i < j {
      MintedGrows(r, i, j - 1);
      StepFacts(r, j - 1);
    }
  }

  lemma GrantRange(r: Run, m: nat, i: nat, h: nat, lease: nat)
    requires IsRun(r) && m < |r.events| && GrantedAt(r, m, i, h, lease)
    ensures r.states[m].q.minted < lease <= r.states[m + 1].q.minted
    ensures BatchGrantOk(r.states[m].q, r.states[m + 1].q, r.batches[m].value.owner, r.batches[m].value.grants[i])
  {
    StepFacts(r, m);
  }

  /** No lease token is ever handed out twice. */
  lemma GrantIsUnique(r: Run, m: nat, i: nat, h: nat, m': nat, i': nat, h': nat, lease: nat)
    requires IsRun(r) && m < |r.events| && m' < |r.events|
    requires GrantedAt(r, m, i, h, lease) && GrantedAt(r, m', i', h', lease)
    ensures m == m' && i == i' && h == h'
  {
    GrantRange(r, m, i, h, lease);
    GrantRange(r, m', i', h', lease);
    if m < m' {
      MintedGrows(r, m + 1, m');
    } else if m' < m {
      MintedGrows(r, m' + 1, m);
    } else {
      StepFacts(r, m);
    }
  }

  /** Every lease in an entry was handed out by some earlier step, with the entry's epoch and expiry. */
  lemma {:induction false} LeaseWasGranted(r: Run, n: nat, h: nat) returns (m: nat, i: nat)
    requires IsRun(r) && n < |r.states| && h < |r.states[n].q.heap| && r.states[n].q.heap[h].lease != 0
    ensures m < n && GrantedAt(r, m, i, h, r.states[n].q.heap[h].lease)
    ensures r.batches[m].value.owner.epoch == r.states[n].q.heap[h].epoch
    ensures r.batches[m].value.grants[i].expiry == Millis(r.states[n].q.heap[h].leaseExpiry)
  {
    if n > 0 {
      StepFacts(r, n - 1);
      var q, p := r.states[n - 1].q, r.states[n].q;
      if h < |q.heap| && SameLease(q.heap[h], p.heap[h]) {
        m, i := LeaseWasGranted(r, n - 1, h);
      } else {
        m := n - 1;
        assert GrantedIn(r.batches[m].value.grants, h);
        i :| 0 <= i < |r.batches[m].value.grants| && r.batches[m].value.grants[i].handle == h;
        assert BatchGrantOk(q, p, r.batches[m].value.owner, r.batches[m].value.grants[i]);
      }
    }
  }

  /** In the k-th state the lease is the entry's, and its owner the run's. */
  ghost predicate Holds(r: Run, k: nat, h: nat, lease: nat, o: Owner)
    requires k < |r.states|
  {
    var q := r.states[k].q;
    && h < |q.heap| && Listed(q, h) && q.heap[h].phase == Leased && q.heap[h].lease == lease
    && OwnerOf(q, q.heap[h].run) == o
  }

  lemma {:induction false} HeldSince(r: Run, m: nat, k: nat, n: nat, h: nat, lease: nat, o: Owner)
    requires IsRun(r) && m <= k <= n < |r.states| && lease <= r.states[m].q.minted
    requires h < |r.states[m].q.heap| && Holds(r, n, h, lease, o)
    ensures Holds(r, k, h, lease, o) && r.states[k].q.heap[h] == r.states[n].q.heap[h]
    decreases n - k
  {
    if k < n {
      HeldSince(r, m, k + 1, n, h, lease, o);
      MintedGrows(r, m, k);
      EntriesEvolve(r, m, k, h);
      StepFacts(r, k);
      assert LeaseHolds(r.states[k].q, r.states[k + 1].q, h) && ListedMoves(r.states[k].q, r.states[k + 1].q, h);
    }
  }

  /** Lease exclusivity: a candidate is accepted only from the holder of the one lease that was
      handed out to the run's owner by a unique earlier step; between that step and the acceptance
      the entry stayed leased to it and the run kept the owner, and the lease has not expired. */
  lemma AcceptedOnlyFromTheHolder(r: Run, n: nat) returns (m: nat, i: nat)
    requires IsRun(r) && n < |r.events| && Accepts(r, n)
    ensures var t := r.events[n].ticket;
            && m < n && GrantedAt(r, m, i, t.handle, t.request.lease) && r.batches[m].value.owner == t.owner
            && (forall k :: m < k <= n ==> Holds(r, k, t.handle, t.request.lease, t.owner))
            && Millis(r.events[n].now) <= r.batches[m].value.grants[i].expiry
            && t.handle < |r.states[m + 1].q.heap| && r.events[n].now < r.states[m + 1].q.heap[t.handle].leaseExpiry
  {
    var t := r.events[n].ticket;
    AcceptFacts(r, n);
    assert EntryOk(r.states[n].q.heap[t.handle]);
    m, i := LeaseWasGranted(r, n, t.handle);
    GrantRange(r, m, i, t.handle, t.request.lease);
    forall k | m < k <= n
      ensures Holds(r, k, t.handle, t.request.lease, t.owner)
      ensures r.states[k].q.heap[t.handle] == r.states[n].q.heap[t.handle]
    {
      HeldSince(r, m + 1, k, n, t.handle, t.request.lease, t.owner);
    }
    assert Holds(r, m + 1, t.handle, t.request.lease, t.owner);
  }

  // ---- owners ----

  /** While a run stays known its owner epochs only grow, and an epoch identifies the owner. */
  lemma {:induction false} EpochsGrow(r: Run, i: nat, j: nat, run: string)
    requires IsRun(r) && i <= j < |r.states| && forall k :: i <= k <= j ==> run in r.states[k].q.owners
    ensures r.states[i].q.owners[run].epoch <= r.states[j].q.owners[run].epoch
    ensures r.states[i].q.owners[run].epoch == r.states[j].q.owners[run].epoch ==>
              r.states[i].q.owners[run] == r.states[j].q.owners[run]
  {
    if i < j {
      EpochsGrow(r, i, j - 1, run);
      StepFacts(r, j - 1);
      assert OwnerMoves(r.states[j - 1].q, r.states[j].q, run);
    }
  }

  /** While one of its entries is resolving a run cannot change hands. */
  lemma NoTakeoverWhileResolving(r: Run, i: nat, run: string)
    requires IsRun(r) && i < |r.events| && run in r.states[i].q.owners && run in r.states[i + 1].q.owners
    requires Indexed(r.states[i].q) && Committing(r.states[i].q, run)
    ensures r.states[i + 1].q.owners[run] == r.states[i].q.owners[run]
  {
    StepFacts(r, i);
    assert OwnerMoves(r.states[i].q, r.states[i + 1].q, run);
  }

  /** The i-th step gave the run a new owner. */
  ghost predicate NewOwner(r: Run, i: nat, run: string)
    requires i + 1 < |r.states|
  {
    run in r.states[i + 1].q.owners && OwnerOf(r.states[i + 1].q, run) != OwnerOf(r.states[i].q, run)
  }

  lemma {:induction false} OwnersStayFresh(r: Run, i: nat, j: nat, run: string)
    requires IsRun(r) && i < j < |r.states| && NewOwner(r, i, run)
    ensures run in r.states[j].q.owners ==> r.states[j].q.owners[run].token > r.states[i].q.minted
  {
    StepFacts(r, j - 1);
    assert OwnerMoves(r.states[j - 1].q, r.states[j].q, run);
    if i + 1 < j {
      OwnersStayFresh(r, i, j - 1, run);
      MintedGrows(r, i, j - 1);
    }
  }

  /** After a takeover no Resolve that carries an owner or lease token from before it gets past
      either locked section, a retry of an accepted candidate included. */
  lemma TakeoverEndsOldTokens(r: Run, i: nat, j: nat, run: string, q: ResolveRequest, now: int)
    requires IsRun(r) && i < j < |r.states| && NewOwner(r, i, run) && q.run == run
    ensures SystemOk(r.states[j])
    ensures !ResolveCheck(r.states[j].q, q, now).Rejected? ==>
              q.owner > r.states[i].q.minted && q.lease > r.states[i].q.minted
  {
    OkAt(r, j);
    OwnersStayFresh(r, i, j, run);
    if !ResolveCheck(r.states[j].q, q, now).Rejected? {
      var h := r.states[j].q.index[q.requestId];
      assert EntryOk(r.states[j].q.heap[h]) && Listed(r.states[j].q, h);
    }
  }

  lemma TakeoverEndsOldTickets(r: Run, i: nat, j: nat, run: string)
    requires IsRun(r) && i < j < |r.events| && NewOwner(r, i, run)
    requires Accepts(r, j) && r.events[j].ticket.request.run == run
    ensures r.events[j].ticket.owner.token > r.states[i].q.minted
    ensures r.events[j].ticket.request.lease > r.states[i].q.minted
  {
    AcceptFacts(r, j);
    OwnersStayFresh(r, i, j, run);
    assert EntryOk(r.states[j].q.heap[r.events[j].ticket.handle]);
  }

  /** Every token known at a state is at most its `minted`, so "old" above means every earlier token. */
  lemma KnownTokensAreOld(r: Run, i: nat, m: nat, k: nat, h: nat, lease: nat, run: string)
    requires IsRun(r) && m < i < |r.states| && GrantedAt(r, m, k, h, lease)
    ensures lease <= r.states[i].q.minted && OwnerOf(r.states[i].q, run).token <= r.states[i].q.minted
  {
    GrantRange(r, m, k, h, lease);
    MintedGrows(r, m + 1, i);
    OkAt(r, i);
    assert OwnerOk(r.states[i].q, run);
  }

  // ---- idempotent resolve ----

  /** Once a candidate is accepted, repeating the call with the same tokens and an equal candidate
      joins the recorded outcome for as long as the owner is unchanged, at any time, whatever
      happened to the entry since; another candidate under the same tokens is refused. */
  lemma ResolveIsIdempotent(r: Run, n: nat, j: nat, q: ResolveRequest, now: int)
    requires IsRun(r) && n < j < |r.states| && n < |r.events| && Accepts(r, n)
    requires var t := r.events[n].ticket;
             && q == t.request.(candidate := q.candidate) && q.candidate.canonical.Some?
             && OwnerOf(r.states[j].q, q.run) == t.owner
    ensures SystemOk(r.states[j])
    ensures ResolveCheck(r.states[j].q, q, now)
         == if q.candidate.canonical == r.events[n].ticket.request.candidate.canonical then Awaits(r.events[n].ticket.handle)
            else Rejected(STATE_CONFLICT)
  {
    var t := r.events[n].ticket;
    AcceptFacts(r, n);
    assert EntryOk(r.states[n].q.heap[t.handle]);
    EntriesEvolve(r, n + 1, j, t.handle);
    EntriesEvolve(r, n, j, t.handle);
    OkAt(r, j);
    assert TicketOk(r.states[j].q, t);
  }

  // ---- capacity ----

  ghost predicate WithinCapacity(q: Queue)
    requires Indexed(q)
  {
    && |ActiveIds(q)| <= MAX_ACTIVE
    && forall run :: |ActiveIds(q) * RunIds(q, run)| <= MAX_ACTIVE_PER_RUN && |RunIds(q, run)| <= MAX_PER_RUN
  }

  lemma IdsShrink(q: Queue, p: Queue, run: string)
    requires QueueOk(q) && QueueOk(p) && Frames(q, p) && Advances(q, p) && |p.heap| == |q.heap|
    ensures ActiveIds(p) <= ActiveIds(q) && RunIds(p, run) <= RunIds(q, run)
  {
    forall id | id in p.index
      ensures id in q.index && q.index[id] == p.index[id] && Evolves(q.heap[p.index[id]], p.heap[p.index[id]])
    {
      var h := p.index[id];
      assert Listed(p, h) && ListedMoves(q, p, h);
    }
  }

  lemma SmallerSet(a: set<string>, b: set<string>)
    requires a <= b
    ensures |a| <= |b|
  {
    assert b == a + (b - a);
  }

  lemma ShrinkKeepsCapacity(q: Queue, p: Queue)
    requires QueueOk(q) && QueueOk(p) && Frames(q, p) && Advances(q, p) && |p.heap| == |q.heap| && WithinCapacity(q)
    ensures WithinCapacity(p)
  {
    IdsShrink(q, p, "");
    SmallerSet(ActiveIds(p), ActiveIds(q));
    forall run ensures |ActiveIds(p) * RunIds(p, run)| <= MAX_ACTIVE_PER_RUN && |RunIds(p, run)| <= MAX_PER_RUN {
      IdsShrink(q, p, run);
      SmallerSet(ActiveIds(p) * RunIds(p, run), ActiveIds(q) * RunIds(q, run));
      SmallerSet(RunIds(p, run), RunIds(q, run));
    }
  }

  lemma EnqueuedIds(q: Queue, run: string, need: Need, p: Queue)
    requires Indexed(q) && need.requestId !in q.index
    requires p == q.(heap := q.heap + [NewEntry(run, need)], index := q.index[need.requestId := |q.heap|])
    ensures Indexed(p) && ActiveIds(p) == ActiveIds(q) + {need.requestId}
    ensures forall other :: RunIds(p, other) == if other == run then RunIds(q, run) + {need.requestId} else RunIds(q, other)
  {
    assert forall id :: id in q.index ==> p.heap[p.index[id]] == q.heap[q.index[id]];
  }

  lemma OneMore(a: set<string>, b: set<string>, id: string, limit: nat)
    requires |a| < limit && b <= a + {id}
    ensures |b| <= limit
  {
    SmallerSet(b, a + {id});
  }

  lemma OtherRunKeepsCapacity(q: Queue, p: Queue, id: string, other: string)
    requires Indexed(q) && Indexed(p) && WithinCapacity(q) && id !in RunIds(q, other)
    requires ActiveIds(p) == ActiveIds(q) + {id} && RunIds(p, other) == RunIds(q, other)
    ensures |ActiveIds(p) * RunIds(p, other)| <= MAX_ACTIVE_PER_RUN && |RunIds(p, other)| <= MAX_PER_RUN
  {
    hide ActiveIds, RunIds;
    assert ActiveIds(p) * RunIds(p, other) == ActiveIds(q) * RunIds(q, other);
  }

  lemma AppendKeepsCapacity(q: Queue, run: string, need: Need, p: Queue)
    requires Indexed(q) && WithinCapacity(q) && need.requestId !in q.index && !Full(q, run)
    requires p == q.(heap := q.heap + [NewEntry(run, need)], index := q.index[need.requestId := |q.heap|])
    ensures Indexed(p) && WithinCapacity(p)
  {
    var id := need.requestId;
    EnqueuedIds(q, run, need, p);
    assert forall other :: id !in RunIds(q, other);
    hide ActiveIds, RunIds, Indexed;
    OneMore(ActiveIds(q), ActiveIds(p), id, MAX_ACTIVE);
    OneMore(ActiveIds(q) * RunIds(q, run), ActiveIds(p) * RunIds(p, run), id, MAX_ACTIVE_PER_RUN);
    OneMore(RunIds(q, run), RunIds(p, run), id, MAX_PER_RUN);
    forall other | other != run
      ensures |ActiveIds(p) * RunIds(p, other)| <= MAX_ACTIVE_PER_RUN && |RunIds(p, other)| <= MAX_PER_RUN
    {
      OtherRunKeepsCapacity(q, p, id, other);
    }
  }

  lemma EnqueueKeepsCapacity(q: Queue, run: string, need: Need, at: int)
    requires QueueOk(q) && WithinCapacity(q)
    ensures Indexed(Enqueue(q, run, need, at).0) && WithinCapacity(Enqueue(q, run, need, at).0)
  {
    hide Full, Millis, WithinCapacity;
    if need.requestId !in q.index && !Full(q, run) {
      AppendKeepsCapacity(q, run, need, q.(heap := q.heap + [NewEntry(run, need)], index := q.index[need.requestId := |q.heap|]));
    }
  }

  lemma NextKeepsSize(q: Queue, call: NextCall, now: int)
    requires Indexed(q)
    ensures |Next(q, call, now).0.heap| == |q.heap|
  {
    hide Committing;
  }

  lemma HeapGrowsOnlyByEnqueue(s: System, e: Event)
    requires SystemOk(s) && Enabled(s, e) && !e.DoEnqueue?
    ensures |QueueStep(s, e).heap| == |s.q.heap|
  {
    hide Next;
    if e.DoNext? {
      NextKeepsSize(s.q, e.call, e.now);
    }
  }

  lemma StepKeepsCapacity(s: System, e: Event)
    requires SystemOk(s) && Enabled(s, e) && WithinCapacity(s.q)
    ensures Indexed(QueueStep(s, e)) && WithinCapacity(QueueStep(s, e))
  {
    if e.DoEnqueue? {
      EnqueueKeepsCapacity(s.q, e.run, e.need, e.checkedAt);
    } else {
      hide QueueStep;
      StepKeepsQueue(s, e);
      StepFrames(s, e);
      HeapGrowsOnlyByEnqueue(s, e);
      ShrinkKeepsCapacity(s.q, QueueStep(s, e));
    }
  }

  lemma EmptyIsWithinCapacity()
    ensures WithinCapacity(EMPTY)
  {
    assert ActiveIds(EMPTY) == {} && forall run :: RunIds(EMPTY, run) == {};
  }

  /** In every reachable state at most 512 entries are active, 128 of one run, and 4096 of one run
      are kept at all. */
  lemma {:induction false} CapacityHolds(r: Run, n: nat)
    requires IsRun(r) && n < |r.states|
    ensures SystemOk(r.states[n]) && WithinCapacity(r.states[n].q)
  {
    hide QueueStep, TicketsAfter, BatchOf;
    OkAt(r, n);
    if n > 0 {
      CapacityHolds(r, n - 1);
      assert Follows(r, n - 1);
      StepKeepsCapacity(r.states[n - 1], r.events[n - 1]);
    } else {
      EmptyIsWithinCapacity();
    }
  }

  // ---- what a pass hands out ----

  /** The ids, in order, whose entries are free for the taking at this time. */
  function Available(q: Queue, ids: seq<string>, now: int): seq<string>
    requires Indexed(q) && forall id :: id in ids ==> id in q.index
  {
    if ids == [] then []
    else
      var front := Available(q, ids[..|ids| - 1], now);
      var last := ids[|ids| - 1];
      if Aged(q.heap[q.index[last]], now).phase == Pending then front + [last] else front
  }

  /** The grants are the first `limit` of the free ids. */
  ghost predicate TakesFirst(q: Queue, free: seq<string>, grants: seq<Grant>, limit: nat) {
    && |grants| == (if |free| < limit then |free| else limit)
    && forall i :: 0 <= i < |grants| ==> grants[i].need.requestId == free[i]
  }

  lemma ScanOneTakes(q: Queue, s: Scanned, id: string, free: seq<string>, epoch: int, limit: nat, now: int)
    requires Indexed(q) && id in q.index && q.index[id] < |s.heap| && s.heap[q.index[id]] == q.heap[q.index[id]]
    requires TakesFirst(q, free, s.grants, limit)
    ensures TakesFirst(q, if Aged(q.heap[q.index[id]], now).phase == Pending then free + [id] else free,
                       ScanOne(s, q.index[id], epoch, limit, now).grants, limit)
  {
  }

  /** A scan hands out the first available ids, as many as the limit allows. */
  lemma {:induction false} ScanTakesTheFirst(q: Queue, ids: seq<string>, epoch: int, limit: nat, now: int)
    requires QueueOk(q) && Distinct(ids) && forall id :: id in ids ==> id in q.index
    ensures TakesFirst(q, Available(q, ids, now), ScanIds(q, ids, epoch, limit, now).grants, limit)
    decreases |ids|
  {
    hide ScanOne;
    if ids != [] {
      var front, last := ids[..|ids| - 1], ids[|ids| - 1];
      ScanTakesTheFirst(q, front, epoch, limit, now);
      ScanFrames(q, front, epoch, limit, now);
      assert last !in front;
      var s := ScanIds(q, front, epoch, limit, now);
      assert s.heap[q.index[last]] == q.heap[q.index[last]];
      ScanOneTakes(q, s, last, Available(q, front, now), epoch, limit, now);
    }
  }

  lemma PassTakesTheFirst(q: Queue, run: string, o: Owner, limit: nat, now: int)
    requires QueueOk(q) && Pass(q, run, o, limit, now).1.Ok?
    ensures TakesFirst(q, Available(q, SortedKeys(RunIds(q, run)), now), Pass(q, run, o, limit, now).1.value.grants, limit)
  {
    SortedIsDistinct(SortedKeys(RunIds(q, run)));
    ScanTakesTheFirst(q, SortedKeys(RunIds(q, run)), o.epoch, limit, now);
  }

  // ---- how long a lease runs ----

  /** A lease taken at `now`: for fifteen seconds, or to the deadline of the request if that is
      earlier, and not past it already. */
  ghost predicate Runs(e: Entry, now: int) {
    && now < e.leaseExpiry && now < e.need.deadline * NANOS_PER_MILLI
    && e.leaseExpiry <= now + LEASE_NANOS && e.leaseExpiry <= e.need.deadline * NANOS_PER_MILLI
    && (e.leaseExpiry == now + LEASE_NANOS || e.leaseExpiry == e.need.deadline * NANOS_PER_MILLI)
  }

  ghost predicate OldOrRuns(e: Entry, f: Entry, now: int) {
    SameLease(e, f) || f.lease == 0 || Runs(f, now)
  }

  lemma ScanOneRuns(e: Entry, s: Scanned, h: nat, epoch: int, limit: int, now: int)
    requires h < |s.heap| && OldOrRuns(e, s.heap[h], now)
    ensures OldOrRuns(e, ScanOne(s, h, epoch, limit, now).heap[h], now)
  {
  }

  lemma {:induction false} ScanRuns(q: Queue, ids: seq<string>, epoch: int, limit: int, now: int, h: nat)
    requires Indexed(q) && h < |q.heap| && forall id :: id in ids ==> id in q.index
    ensures OldOrRuns(q.heap[h], ScanIds(q, ids, epoch, limit, now).heap[h], now)
    decreases |ids|
  {
    hide OldOrRuns;
    if ids == [] {
      StaysOld(q.heap[h], now);
    } else {
      var s := ScanIds(q, ids[..|ids| - 1], epoch, limit, now);
      ScanRuns(q, ids[..|ids| - 1], epoch, limit, now, h);
      if q.index[ids[|ids| - 1]] == h {
        ScanOneRuns(q.heap[h], s, h, epoch, limit, now);
      }
    }
  }

  lemma StaysOld(e: Entry, now: int)
    ensures OldOrRuns(e, e, now)
  {
  }

  /** Every lease a pass hands out is usable at once, and runs out fifteen seconds later or with
      the request, whichever is first. */
  lemma GrantedLeaseRuns(q: Queue, run: string, o: Owner, limit: int, now: int, i: nat)
    requires QueueOk(q) && o.token != 0 && limit >= 0
    requires Pass(q, run, o, limit, now).1.Ok? && i < |Pass(q, run, o, limit, now).1.value.grants|
    ensures var (p, b) := Pass(q, run, o, limit, now); var g := b.value.grants[i];
            g.handle < |p.heap| && Runs(p.heap[g.handle], now) && LeaseUsable(p.heap[g.handle], g.lease, now)
  {
    var (p, b) := Pass(q, run, o, limit, now);
    var g := b.value.grants[i];
    PassGrants(q, run, o, limit, now);
    assert BatchGrantOk(q, p, o, g);
    ScanRuns(q, SortedKeys(RunIds(q, run)), o.epoch, limit, now, g.handle);
    assert q.heap[g.handle].lease <= q.minted;
  }
}
