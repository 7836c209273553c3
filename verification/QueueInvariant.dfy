/** What every locked section of the generation queue keeps. */
module QueueInvariant {
  import opened Values
  import opened Sorting
  import opened Api
  import opened QueueSpec

  // ---- one entry ----

  /** The done channel is closed exactly when the entry is terminal, and once; the delivery
      channel carries the accepted candidate, once, and nothing else. */
  ghost predicate EntryOk(e: Entry) {
    && e.closed == (if Terminal(e.phase) then 1 else 0)
    && (if e.hash.Some? then e.sent == [e.candidate] && e.hash == e.candidate.canonical && e.lease != 0
        else e.sent == [] && e.phase != Resolving && e.phase != Resolved)
    && (e.phase == Pending || e.phase == Leased ==> e.hash.None?)
    && (e.phase == Leased ==> e.lease != 0 && e.leaseExpiry <= e.need.deadline * NANOS_PER_MILLI)
    && e.taken <= |e.sent|
    && (Terminal(e.phase) && e.error.None? ==> e.phase == Resolved)
    && e.epoch >= 0
    && (e.epoch == 0 ==> e.lease == 0)
  }

  ghost predicate SameAcceptance(e: Entry, f: Entry) {
    f.hash == e.hash && f.candidate == e.candidate && f.sent == e.sent && f.lease == e.lease && f.epoch == e.epoch
  }

  /** What any number of steps may do to an entry. */
  ghost predicate Evolves(e: Entry, f: Entry) {
    && f.run == e.run && f.need == e.need
    && e.closed <= f.closed && e.sent <= f.sent && e.taken <= f.taken
    && (Terminal(e.phase) ==> f == e.(taken := f.taken))
    && (e.hash.Some? ==> SameAcceptance(e, f))
    && (e.phase == Resolving ==> f.phase == Resolving || Terminal(f.phase))
  }

  lemma EvolvesTransitive(a: Entry, b: Entry, c: Entry)
    requires Evolves(a, b) && Evolves(b, c)
    ensures Evolves(a, c)
  {
  }

  // ---- entries against their run's owner ----

  /** A listed entry was leased only under owners of its run that are known: the last lease is no
      newer than the current epoch, and under the current epoch it was minted after the owner. */
  ghost predicate LeaseOk(e: Entry, o: Owner) {
    && e.epoch <= o.epoch
    && (e.epoch == o.epoch && e.lease != 0 ==> e.lease > o.token)
    && (e.phase == Leased || e.phase == Resolving ==> e.epoch == o.epoch)
  }

  ghost predicate OwnerOk(q: Queue, run: string) {
    run in q.owners ==> 1 <= q.owners[run].epoch && 1 <= q.owners[run].token <= q.minted
  }

  ghost predicate TicketOk(q: Queue, t: Ticket) {
    && t.handle < |q.heap| && 0 < t.owner.token <= q.minted && q.heap[t.handle].run == t.request.run
    && q.heap[t.handle].need.requestId == t.request.requestId
    && t.request.candidate.canonical.Some? && t.request.owner == t.owner.token
    && (OwnerOf(q, t.request.run) == t.owner ==> Listed(q, t.handle))
  }

  ghost predicate QueueOk(q: Queue) {
    && Indexed(q)
    && (forall h :: 0 <= h < |q.heap| ==> EntryOk(q.heap[h]) && q.heap[h].lease <= q.minted)
    && (forall h :: 0 <= h < |q.heap| && Listed(q, h) ==> LeaseOk(q.heap[h], OwnerOf(q, q.heap[h].run)))
    && (forall run :: OwnerOk(q, run))
  }

  ghost predicate SystemOk(s: System) {
    && QueueOk(s.q)
    && forall t :: t in s.tickets ==> TicketOk(s.q, t)
  }

  // ---- what one step does to the heap ----

  /** The handles stay, the entries evolve, tokens only get minted. */
  ghost predicate Advances(q: Queue, p: Queue) {
    && |q.heap| <= |p.heap| && q.minted <= p.minted
    && forall h :: 0 <= h < |q.heap| ==> Evolves(q.heap[h], p.heap[h])
  }

  // ---- one entry at a time ----

  ghost predicate Fine(q: Queue, h: nat, f: Entry, minted: nat)
    requires h < |q.heap|
  {
    && EntryOk(f) && Evolves(q.heap[h], f) && f.lease <= minted
    && (Listed(q, h) ==> LeaseOk(f, OwnerOf(q, f.run)))
  }

  lemma ReplaceKeeps(q: Queue, h: nat, f: Entry, minted: nat)
    requires QueueOk(q) && h < |q.heap| && q.minted <= minted && Fine(q, h, f, minted)
    ensures var p := q.(heap := q.heap[h := f], minted := minted); QueueOk(p) && Advances(q, p)
    ensures forall k {:trigger Listed(q.(heap := q.heap[h := f], minted := minted), k)} ::
              Listed(q.(heap := q.heap[h := f], minted := minted), k) == Listed(q, k)
  {
    var p := q.(heap := q.heap[h := f], minted := minted);
    assert forall k :: Listed(p, k) == Listed(q, k);
    assert forall run :: OwnerOk(q, run) ==> OwnerOk(p, run);
  }

  lemma FinishIsFine(q: Queue, h: nat, phase: Phase, raw: Payload, err: Option<Code>)
    requires QueueOk(q) && h < |q.heap| && Terminal(phase)
    requires phase == Resolved ==> q.heap[h].phase == Resolving || Terminal(q.heap[h].phase)
    requires err.None? ==> phase == Resolved
    ensures Fine(q, h, Finish(q.heap[h], phase, raw, err), q.minted)
  {
  }

  lemma AgedIsFine(q: Queue, h: nat, now: int)
    requires QueueOk(q) && h < |q.heap|
    ensures Fine(q, h, Aged(q.heap[h], now), q.minted)
  {
  }

  lemma LeaseIsFine(q: Queue, h: nat, now: int, later: int, o: Owner)
    requires QueueOk(q) && h < |q.heap| && o == OwnerOf(q, q.heap[h].run) && o.token != 0
    requires Aged(q.heap[h], now).phase == Pending
    ensures Fine(q, h, Lease(Aged(q.heap[h], now), o.epoch, q.minted + 1, later), q.minted + 1)
  {
    assert OwnerOk(q, q.heap[h].run);
  }

  lemma AcceptIsFine(q: Queue, h: nat, candidate: Json)
    requires QueueOk(q) && h < |q.heap| && q.heap[h].phase == Leased && candidate.canonical.Some?
    ensures Fine(q, h, Accept(q.heap[h], candidate), q.minted)
  {
  }

  lemma ReceiveIsFine(q: Queue, h: nat)
    requires QueueOk(q) && h < |q.heap| && q.heap[h].taken < |q.heap[h].sent|
    ensures Fine(q, h, Receive(q, h).heap[h], q.minted)
  {
  }

  // ---- the scan ----

  function After(q: Queue, s: Scanned): Queue {
    q.(heap := s.heap, minted := s.minted)
  }

  lemma ScanOneKeeps(q: Queue, s: Scanned, h: nat, o: Owner, limit: int, now: int)
    requires QueueOk(After(q, s)) && h < |s.heap| && o == OwnerOf(q, s.heap[h].run) && o.token != 0
    ensures QueueOk(After(q, ScanOne(s, h, o.epoch, limit, now)))
    ensures Advances(After(q, s), After(q, ScanOne(s, h, o.epoch, limit, now)))
  {
    var q1 := After(q, s);
    if Aged(s.heap[h], now).phase == Pending && |s.grants| < limit {
      LeaseIsFine(q1, h, now, now, o);
      ReplaceKeeps(q1, h, Lease(Aged(s.heap[h], now), o.epoch, s.minted + 1, now), s.minted + 1);
    } else {
      AgedIsFine(q1, h, now);
      ReplaceKeeps(q1, h, Aged(s.heap[h], now), s.minted);
    }
  }

  lemma AdvancesTransitive(a: Queue, b: Queue, c: Queue)
    requires Advances(a, b) && Advances(b, c)
    ensures Advances(a, c)
  {
    forall h | 0 <= h < |a.heap| ensures Evolves(a.heap[h], c.heap[h]) {
      EvolvesTransitive(a.heap[h], b.heap[h], c.heap[h]);
    }
  }

  lemma {:induction false} ScanKeeps(q: Queue, run: string, ids: seq<string>, o: Owner, limit: int, now: int)
    requires QueueOk(q) && o == OwnerOf(q, run) && o.token != 0
    requires forall id :: id in ids ==> id in q.index && id in RunIds(q, run)
    ensures QueueOk(After(q, ScanIds(q, ids, o.epoch, limit, now)))
    ensures Advances(q, After(q, ScanIds(q, ids, o.epoch, limit, now)))
    decreases |ids|
  {
    if ids != [] {
      var front := ids[..|ids| - 1];
      ScanKeeps(q, run, front, o, limit, now);
      var s := ScanIds(q, front, o.epoch, limit, now);
      var h := q.index[ids[|ids| - 1]];
      assert ids[|ids| - 1] in RunIds(q, run) && Evolves(q.heap[h], s.heap[h]);
      ScanOneKeeps(q, s, h, o, limit, now);
      AdvancesTransitive(q, After(q, s), After(q, ScanOne(s, h, o.epoch, limit, now)));
    }
  }

  // ---- the operations ----

  lemma AppendKeeps(q: Queue, run: string, need: Need, p: Queue)
    requires QueueOk(q) && need.requestId !in q.index
    requires p == q.(heap := q.heap + [NewEntry(run, need)], index := q.index[need.requestId := |q.heap|])
    ensures QueueOk(p) && Advances(q, p)
  {
    assert forall h :: 0 <= h < |q.heap| ==> Listed(p, h) == Listed(q, h) && p.heap[h] == q.heap[h];
    forall r ensures OwnerOk(p, r) {
      assert OwnerOk(q, r);
    }
    NewEntryIsOk(q, run, need);
    forall h | 0 <= h < |p.heap|
      ensures EntryOk(p.heap[h]) && p.heap[h].lease <= p.minted
      ensures Listed(p, h) ==> LeaseOk(p.heap[h], OwnerOf(p, p.heap[h].run))
      ensures h < |q.heap| ==> Evolves(q.heap[h], p.heap[h])
    {
      if h < |q.heap| {
        Unchanged(q.heap[h]);
      }
    }
    hide EntryOk, LeaseOk, Evolves, OwnerOk, Listed;
  }

  lemma Unchanged(e: Entry)
    ensures Evolves(e, e)
  {
  }

  lemma NewEntryIsOk(q: Queue, run: string, need: Need)
    requires OwnerOk(q, run)
    ensures EntryOk(NewEntry(run, need)) && LeaseOk(NewEntry(run, need), OwnerOf(q, run))
  {
  }

  lemma EnqueueKeeps(q: Queue, run: string, need: Need, at: int)
    requires QueueOk(q)
    ensures QueueOk(Enqueue(q, run, need, at).0) && Advances(q, Enqueue(q, run, need, at).0)
  {
    hide Full, Millis;
    if need.requestId !in q.index {
      AppendKeeps(q, run, need, q.(heap := q.heap + [NewEntry(run, need)], index := q.index[need.requestId := |q.heap|]));
    }
  }

  lemma TakeoverKeeps(q: Queue, run: string, p: Queue)
    requires QueueOk(q) && run in q.owners && !Committing(q, run)
    requires p == q.(heap := ReleaseRun(q, run), owners := q.owners[run := Owner(q.minted + 1, q.owners[run].epoch + 1)],
                     minted := q.minted + 1)
    ensures QueueOk(p) && Advances(q, p)
  {
    forall h | 0 <= h < |p.heap|
      ensures EntryOk(p.heap[h]) && Evolves(q.heap[h], p.heap[h]) && Listed(p, h) == Listed(q, h)
      ensures Listed(p, h) ==> LeaseOk(p.heap[h], OwnerOf(p, p.heap[h].run))
    {
      assert EntryOk(q.heap[h]);
    }
    assert forall r :: OwnerOk(q, r) ==> OwnerOk(p, r);
  }

  lemma ClaimKeeps(q: Queue, call: NextCall)
    requires QueueOk(q)
    ensures QueueOk(Claim(q, call).0) && Advances(q, Claim(q, call).0)
    ensures Claim(q, call).1.Ok? ==>
              Claim(q, call).1.value == OwnerOf(Claim(q, call).0, call.run) && Claim(q, call).1.value.token != 0
  {
    var p := Claim(q, call).0;
    assert OwnerOk(q, call.run);
    if call.takeover && p != q {
      TakeoverKeeps(q, call.run, p);
    } else if p != q {
      assert forall h :: 0 <= h < |p.heap| ==> Listed(p, h) == Listed(q, h);
      assert forall r :: OwnerOk(q, r) ==> OwnerOk(p, r);
    }
  }

  lemma PassKeeps(q: Queue, run: string, o: Owner, limit: int, now: int)
    requires QueueOk(q) && o.token != 0
    ensures QueueOk(Pass(q, run, o, limit, now).0) && Advances(q, Pass(q, run, o, limit, now).0)
  {
    if OwnerOf(q, run) == o {
      ScanKeeps(q, run, SortedKeys(RunIds(q, run)), o, limit, now);
    }
  }

  lemma NextKeeps(q: Queue, call: NextCall, now: int)
    requires QueueOk(q)
    ensures QueueOk(Next(q, call, now).0) && Advances(q, Next(q, call, now).0)
  {
    if WellFormedCall(call) {
      var (claimed, o) := Claim(q, call);
      ClaimKeeps(q, call);
      if o.Ok? {
        PassKeeps(claimed, call.run, o.value, call.limit, now);
        AdvancesTransitive(q, claimed, Pass(claimed, call.run, o.value, call.limit, now).0);
      }
    }
  }

  lemma CommitKeeps(q: Queue, t: Ticket, now: int)
    requires QueueOk(q) && TicketOk(q, t)
    ensures QueueOk(ResolveCommit(q, t, now).0) && Advances(q, ResolveCommit(q, t, now).0)
  {
    if ResolveCommit(q, t, now).1.Ok? {
      AcceptIsFine(q, t.handle, t.request.candidate);
      ReplaceKeeps(q, t.handle, Accept(q.heap[t.handle], t.request.candidate), q.minted);
    }
  }

  lemma FinishKeeps(q: Queue, id: string, phase: Phase, raw: Payload, err: Option<Code>)
    requires QueueOk(q) && id in q.index && Terminal(phase)
    requires phase == Resolved ==> q.heap[q.index[id]].phase == Resolving || Terminal(q.heap[q.index[id]].phase)
    requires err.None? ==> phase == Resolved
    ensures var p := Update(q, id, Finish(q.heap[q.index[id]], phase, raw, err)); QueueOk(p) && Advances(q, p)
  {
    var h := q.index[id];
    FinishIsFine(q, h, phase, raw, err);
    ReplaceKeeps(q, h, Finish(q.heap[h], phase, raw, err), q.minted);
  }

  lemma ReportKeeps(q: Queue, id: string, raw: Payload, err: Option<Code>)
    requires QueueOk(q)
    ensures QueueOk(ReportOutcome(q, id, raw, err)) && Advances(q, ReportOutcome(q, id, raw, err))
  {
    if id in q.index {
      if err.Some? {
        FinishKeeps(q, id, Failed, raw, err);
      } else if q.heap[q.index[id]].phase == Resolving {
        FinishKeeps(q, id, Resolved, raw, None);
      }
    }
  }

  lemma CancelKeeps(q: Queue, id: string, code: Code)
    requires QueueOk(q)
    ensures QueueOk(CancelRequest(q, id, code)) && Advances(q, CancelRequest(q, id, code))
  {
    if id in q.index {
      FinishKeeps(q, id, if code == DEADLINE_EXCEEDED then Expired else Cancelled, NoPayload, Some(code));
    }
  }

  lemma CancelRunKeeps(q: Queue, run: string, code: Code)
    requires QueueOk(q)
    ensures QueueOk(CancelRun(q, run, code)) && Advances(q, CancelRun(q, run, code))
  {
    var p := CancelRun(q, run, code);
    forall h | 0 <= h < |p.heap|
      ensures EntryOk(p.heap[h]) && Evolves(q.heap[h], p.heap[h]) && Listed(p, h) == Listed(q, h)
      ensures Listed(p, h) ==> LeaseOk(p.heap[h], OwnerOf(p, p.heap[h].run))
    {
      FinishIsFine(q, h, Cancelled, NoPayload, Some(code));
    }
    assert forall r :: OwnerOk(q, r) ==> OwnerOk(p, r);
  }

  lemma DropKeeps(q: Queue, run: string)
    requires QueueOk(q)
    ensures QueueOk(Drop(q, run)) && Advances(q, Drop(q, run))
  {
    var p := Drop(q, run);
    forall h | 0 <= h < |p.heap| && Listed(p, h) ensures Listed(q, h) && q.heap[h].run != run {
      assert q.heap[h].need.requestId !in RunIds(q, run);
    }
    assert forall r :: OwnerOk(q, r) ==> OwnerOk(p, r);
  }

  lemma ReceiveKeeps(q: Queue, h: nat)
    requires QueueOk(q) && h < |q.heap| && q.heap[h].taken < |q.heap[h].sent|
    ensures QueueOk(Receive(q, h)) && Advances(q, Receive(q, h))
  {
    ReceiveIsFine(q, h);
    ReplaceKeeps(q, h, Receive(q, h).heap[h], q.minted);
  }

  /** Every locked section keeps the invariant of the queue, and only lets entries evolve. */
  lemma StepKeepsQueue(s: System, e: Event)
    requires SystemOk(s) && Enabled(s, e)
    ensures QueueOk(QueueStep(s, e)) && Advances(s.q, QueueStep(s, e))
  {
    match e
    case DoEnqueue(run, need, at) => EnqueueKeeps(s.q, run, need, at);
    case DoNext(call, now) => NextKeeps(s.q, call, now);
    case DoPass(run, o, limit, now) => PassKeeps(s.q, run, o, limit, now);
    case DoCheck(_, _) =>
    case DoCommit(t, now) => CommitKeeps(s.q, t, now);
    case DoReport(id, raw, err) => ReportKeeps(s.q, id, raw, err);
    case DoCancel(id, code) => CancelKeeps(s.q, id, code);
    case DoCancelRun(run, code) => CancelRunKeeps(s.q, run, code);
    case DoDrop(run) => DropKeeps(s.q, run);
    case DoReceive(h) => ReceiveKeeps(s.q, h);
  }
}
