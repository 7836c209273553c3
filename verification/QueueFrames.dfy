/** Who may change owners, leases and the index, one locked section at a time. */
module QueueFrames {
  import opened Values
  import opened Sorting
  import opened Api
  import opened QueueSpec
  import opened QueueInvariant

  /** A run keeps its owner, is forgotten, or gets a new owner with a fresh token; a known run gets
      one only while none of its entries is resolving, under the next epoch. */
  ghost predicate OwnerMoves(q: Queue, p: Queue, run: string)
    requires Indexed(q)
  {
    || ((run in p.owners <==> run in q.owners) && OwnerOf(p, run) == OwnerOf(q, run))
    || run !in p.owners
    || (p.owners[run].token > q.minted
        && (run in q.owners ==> p.owners[run].epoch == q.owners[run].epoch + 1 && !Committing(q, run)))
  }

  /** Entries are delisted only together with their run's owner, and never listed again. */
  ghost predicate ListedMoves(q: Queue, p: Queue, h: nat)
    requires h < |q.heap|
  {
    && (Listed(p, h) ==> Listed(q, h))
    && (Listed(q, h) ==> Listed(p, h) || q.heap[h].run !in p.owners)
  }

  /** An entry leased under an old token is the very entry it was, under the same owner. */
  ghost predicate LeaseHolds(q: Queue, p: Queue, h: nat)
    requires h < |q.heap| <= |p.heap|
  {
    p.heap[h].phase == Leased && p.heap[h].lease <= q.minted ==>
      q.heap[h] == p.heap[h] && (Listed(p, h) ==> OwnerOf(p, q.heap[h].run) == OwnerOf(q, q.heap[h].run))
  }

  ghost predicate Frames(q: Queue, p: Queue) {
    && Indexed(q) && |q.heap| <= |p.heap| && q.minted <= p.minted
    && (forall run :: OwnerMoves(q, p, run))
    && (forall h :: 0 <= h < |q.heap| ==> ListedMoves(q, p, h) && LeaseHolds(q, p, h))
    && (forall h :: |q.heap| <= h < |p.heap| ==> p.heap[h].lease == 0)
  }

  // ---- single entries ----

  lemma ReplaceFrames(q: Queue, h: nat, f: Entry)
    requires QueueOk(q) && h < |q.heap| && Evolves(q.heap[h], f)
    requires f.phase == Leased ==> f == q.heap[h]
    ensures Frames(q, q.(heap := q.heap[h := f]))
  {
    var p := q.(heap := q.heap[h := f]);
    assert forall k :: Listed(p, k) == Listed(q, k);
    assert forall run :: OwnerMoves(q, p, run);
  }

  lemma AppendFrames(q: Queue, run: string, need: Need, p: Queue)
    requires Indexed(q) && need.requestId !in q.index
    requires p == q.(heap := q.heap + [NewEntry(run, need)], index := q.index[need.requestId := |q.heap|])
    ensures Frames(q, p)
  {
    assert forall h :: 0 <= h < |q.heap| ==> Listed(p, h) == Listed(q, h) && p.heap[h] == q.heap[h];
    assert forall r :: OwnerMoves(q, p, r);
  }

  lemma EnqueueFrames(q: Queue, run: string, need: Need, at: int)
    requires QueueOk(q)
    ensures Frames(q, Enqueue(q, run, need, at).0)
  {
    hide Full, Millis, Frames;
    SameFrames(q);
    if need.requestId !in q.index {
      AppendFrames(q, run, need, q.(heap := q.heap + [NewEntry(run, need)], index := q.index[need.requestId := |q.heap|]));
    }
  }

  lemma CancelRunFrames(q: Queue, run: string, code: Code)
    requires QueueOk(q)
    ensures Frames(q, CancelRun(q, run, code))
  {
    var p := CancelRun(q, run, code);
    assert forall h :: 0 <= h < |q.heap| ==> Listed(p, h) == Listed(q, h);
    assert forall r :: OwnerMoves(q, p, r);
  }

  lemma DropFrames(q: Queue, run: string)
    requires QueueOk(q)
    ensures Frames(q, Drop(q, run))
  {
    var p := Drop(q, run);
    forall h | 0 <= h < |q.heap| ensures ListedMoves(q, p, h) {
      assert Listed(q, h) && !Listed(p, h) ==> q.heap[h].need.requestId in RunIds(q, run);
    }
    forall h | 0 <= h < |q.heap| && Listed(p, h) ensures q.heap[h].run != run {
      assert q.heap[h].need.requestId !in RunIds(q, run);
    }
    assert forall r :: OwnerMoves(q, p, r);
  }

  // ---- claims ----

  lemma TakeoverFrames(q: Queue, run: string, p: Queue)
    requires QueueOk(q) && run in q.owners && !Committing(q, run)
    requires p == q.(heap := ReleaseRun(q, run), owners := q.owners[run := Owner(q.minted + 1, q.owners[run].epoch + 1)],
                     minted := q.minted + 1)
    ensures Frames(q, p)
  {
    assert forall h :: 0 <= h < |q.heap| ==> Listed(p, h) == Listed(q, h);
    assert forall r :: OwnerMoves(q, p, r);
    forall h | 0 <= h < |q.heap| ensures LeaseHolds(q, p, h) {
    }
  }

  lemma FirstClaimFrames(q: Queue, run: string, p: Queue)
    requires QueueOk(q) && run !in q.owners
    requires p == q.(owners := q.owners[run := Owner(q.minted + 1, 1)], minted := q.minted + 1)
    ensures Frames(q, p)
  {
    assert forall h :: 0 <= h < |q.heap| ==> Listed(p, h) == Listed(q, h);
    assert forall r :: OwnerMoves(q, p, r);
    forall h | 0 <= h < |q.heap| ensures LeaseHolds(q, p, h) {
      assert EntryOk(q.heap[h]);
    }
  }

  lemma ClaimFrames(q: Queue, call: NextCall)
    requires QueueOk(q)
    ensures Frames(q, Claim(q, call).0)
  {
    var p := Claim(q, call).0;
    if p == q {
      SameFrames(q);
    } else if call.takeover {
      TakeoverFrames(q, call.run, p);
    } else {
      FirstClaimFrames(q, call.run, p);
    }
  }

  lemma SameFrames(q: Queue)
    requires QueueOk(q)
    ensures Frames(q, q)
  {
    assert forall r :: OwnerMoves(q, q, r);
  }

  // ---- the scan ----

  /** What a scan grants: distinct fresh leases, recorded in the entries, at most `limit` of them;
      a lease that the scan changed is a granted one or gone. */
  ghost predicate Grants(q: Queue, s: Scanned, run: string, epoch: int, limit: int) {
    && |s.heap| == |q.heap| && |s.grants| <= limit
    && (forall i :: 0 <= i < |s.grants| ==> GrantOk(q, s, run, epoch, s.grants[i]))
    && (forall i, j :: 0 <= i < j < |s.grants| ==> s.grants[i].lease < s.grants[j].lease)
    && (forall h {:trigger GrantedIn(s.grants, h)} :: 0 <= h < |q.heap| ==>
          SameLease(q.heap[h], s.heap[h]) || s.heap[h].lease == 0 || GrantedIn(s.grants, h))
  }

  ghost predicate SameLease(e: Entry, f: Entry) {
    f.lease == e.lease && f.epoch == e.epoch && f.leaseExpiry == e.leaseExpiry
  }

  ghost predicate GrantedIn(grants: seq<Grant>, h: nat) {
    exists i :: 0 <= i < |grants| && grants[i].handle == h
  }

  ghost predicate GrantOk(q: Queue, s: Scanned, run: string, epoch: int, g: Grant) {
    && g.handle < |s.heap| && Listed(q, g.handle)
    && var e := s.heap[g.handle];
       && e.run == run && e.need == g.need && e.phase == Leased && e.lease == g.lease && e.epoch == epoch
       && q.minted < g.lease <= s.minted && g.expiry == Millis(e.leaseExpiry)
  }

  /** Entries outside the scanned ids are untouched; leases that were not granted just now are old. */
  ghost predicate ScanFrame(q: Queue, s: Scanned, ids: seq<string>)
    requires Indexed(q) && forall id :: id in ids ==> id in q.index
  {
    && |s.heap| == |q.heap| && q.minted <= s.minted
    && (forall h :: 0 <= h < |q.heap| && (!Listed(q, h) || q.heap[h].need.requestId !in ids) ==> s.heap[h] == q.heap[h])
    && (forall h :: 0 <= h < |q.heap| ==> s.heap[h].need == q.heap[h].need && s.heap[h].run == q.heap[h].run)
    && (forall h :: 0 <= h < |q.heap| && s.heap[h].phase == Leased && s.heap[h].lease <= q.minted ==> s.heap[h] == q.heap[h])
  }

  /** One scanned entry: leased with the next token and granted, or aged and nothing else. */
  ghost predicate Scans(s: Scanned, r: Scanned, h: nat, epoch: int, limit: int)
    requires h < |s.heap|
  {
    && |r.heap| == |s.heap| && r.heap == s.heap[h := r.heap[h]]
    && r.heap[h].need == s.heap[h].need && r.heap[h].run == s.heap[h].run
    && if r.minted == s.minted
       then r.grants == s.grants && (r.heap[h] == s.heap[h] || r.heap[h].phase != Leased)
            && (SameLease(s.heap[h], r.heap[h]) || r.heap[h].lease == 0)
       else r.minted == s.minted + 1 && |s.grants| < limit
            && r.heap[h].phase == Leased && r.heap[h].lease == s.minted + 1 && r.heap[h].epoch == epoch
            && r.grants == s.grants + [Grant(h, r.heap[h].need, s.minted + 1, Millis(r.heap[h].leaseExpiry))]
  }

  lemma ScanOneScans(s: Scanned, h: nat, epoch: int, limit: int, now: int)
    requires h < |s.heap|
    ensures Scans(s, ScanOne(s, h, epoch, limit, now), h, epoch, limit)
  {
  }

  lemma OneMoreFrame(q: Queue, s: Scanned, r: Scanned, front: seq<string>, last: string, epoch: int, limit: int)
    requires Indexed(q) && last in q.index && forall id :: id in front ==> id in q.index
    requires ScanFrame(q, s, front) && Scans(s, r, q.index[last], epoch, limit)
    ensures ScanFrame(q, r, front + [last])
  {
    assert last in front + [last];
  }

  lemma {:induction false} ScanFrames(q: Queue, ids: seq<string>, epoch: int, limit: int, now: int)
    requires QueueOk(q) && forall id :: id in ids ==> id in q.index
    ensures ScanFrame(q, ScanIds(q, ids, epoch, limit, now), ids)
    decreases |ids|
  {
    if ids != [] {
      var front, last := ids[..|ids| - 1], ids[|ids| - 1];
      ScanFrames(q, front, epoch, limit, now);
      var s := ScanIds(q, front, epoch, limit, now);
      ScanOneScans(s, q.index[last], epoch, limit, now);
      OneMoreFrame(q, s, ScanOne(s, q.index[last], epoch, limit, now), front, last, epoch, limit);
      assert front + [last] == ids;
    }
  }

  lemma {:induction false} ScanGrants(q: Queue, run: string, ids: seq<string>, epoch: int, limit: int, now: int)
    requires QueueOk(q) && Distinct(ids) && limit >= 0
    requires forall id :: id in ids ==> id in q.index && id in RunIds(q, run)
    ensures Grants(q, ScanIds(q, ids, epoch, limit, now), run, epoch, limit)
    ensures ScanIds(q, ids, epoch, limit, now).minted == q.minted + |ScanIds(q, ids, epoch, limit, now).grants|
    decreases |ids|
  {
    if ids != [] {
      var front, last := ids[..|ids| - 1], ids[|ids| - 1];
      ScanGrants(q, run, front, epoch, limit, now);
      ScanFrames(q, front, epoch, limit, now);
      var s := ScanIds(q, front, epoch, limit, now);
      var h := q.index[last];
      assert last !in front && last in RunIds(q, run);
      assert s.heap[h] == q.heap[h];
      assert forall i :: 0 <= i < |s.grants| ==> s.grants[i].handle != h by {
        assert s.heap[h].lease <= q.minted;
      }
      ScanOneScans(s, h, epoch, limit, now);
      OneMoreGrant(q, s, ScanOne(s, h, epoch, limit, now), run, h, epoch, limit);
    }
  }

  lemma MoreGrantedIn(s: Scanned, r: Scanned, h: nat, epoch: int, limit: int, k: nat)
    requires h < |s.heap| && Scans(s, r, h, epoch, limit) && k < |s.heap|
    requires (r.heap[k] == s.heap[k] && GrantedIn(s.grants, k)) || (k == h && r.minted > s.minted)
    ensures GrantedIn(r.grants, k)
  {
    if r.minted > s.minted && k == h {
      assert r.grants[|s.grants|].handle == h;
    } else {
      var i :| 0 <= i < |s.grants| && s.grants[i].handle == k;
      assert r.grants[i].handle == k;
    }
  }

  lemma OneMoreGrant(q: Queue, s: Scanned, r: Scanned, run: string, h: nat, epoch: int, limit: int)
    requires h < |q.heap| && Listed(q, h) && q.heap[h].run == run && q.heap[h].lease <= q.minted
    requires Grants(q, s, run, epoch, limit) && s.minted == q.minted + |s.grants| && s.heap[h] == q.heap[h]
    requires Scans(s, r, h, epoch, limit)
    requires forall i :: 0 <= i < |s.grants| ==> s.grants[i].handle != h
    ensures Grants(q, r, run, epoch, limit) && r.minted == q.minted + |r.grants|
  {
    hide GrantedIn;
    forall i | 0 <= i < |r.grants| ensures GrantOk(q, r, run, epoch, r.grants[i]) {
      if i < |s.grants| {
        assert GrantOk(q, s, run, epoch, s.grants[i]);
      }
    }
    forall k | 0 <= k < |q.heap| && !SameLease(q.heap[k], r.heap[k]) && r.heap[k].lease != 0
      ensures GrantedIn(r.grants, k)
    {
      assert k != h ==> SameLease(q.heap[k], s.heap[k]) || s.heap[k].lease == 0 || GrantedIn(s.grants, k);
      MoreGrantedIn(s, r, h, epoch, limit, k);
    }
  }

  lemma ScanQueueFrames(q: Queue, s: Scanned, ids: seq<string>)
    requires QueueOk(q) && (forall id :: id in ids ==> id in q.index) && ScanFrame(q, s, ids)
    ensures Frames(q, After(q, s))
  {
    var p := After(q, s);
    assert forall h :: 0 <= h < |q.heap| ==> Listed(p, h) == Listed(q, h);
    assert forall r :: OwnerMoves(q, p, r);
  }

  lemma PassFrames(q: Queue, run: string, o: Owner, limit: int, now: int)
    requires QueueOk(q)
    ensures Frames(q, Pass(q, run, o, limit, now).0)
  {
    if OwnerOf(q, run) == o {
      var ids := SortedKeys(RunIds(q, run));
      SortedIsDistinct(ids);
      ScanFrames(q, ids, o.epoch, limit, now);
      ScanQueueFrames(q, ScanIds(q, ids, o.epoch, limit, now), ids);
    } else {
      SameFrames(q);
    }
  }

  lemma PassKeepsOwners(q: Queue, run: string, o: Owner, limit: int, now: int)
    requires QueueOk(q)
    ensures var p := Pass(q, run, o, limit, now).0;
            p.owners == q.owners && p.index == q.index && |p.heap| == |q.heap|
            && forall h :: 0 <= h < |q.heap| ==> p.heap[h].need == q.heap[h].need && p.heap[h].run == q.heap[h].run
  {
    if OwnerOf(q, run) == o {
      ScanFrames(q, SortedKeys(RunIds(q, run)), o.epoch, limit, now);
    }
  }

  /** A claim followed by a pass frames like one step. */
  lemma ClaimThenPass(q: Queue, b: Queue, p: Queue)
    requires Frames(q, b) && Frames(b, p) && |b.heap| == |q.heap| == |p.heap|
    requires p.owners == b.owners && p.index == b.index
    requires forall h :: 0 <= h < |b.heap| ==> p.heap[h].need == b.heap[h].need && p.heap[h].run == b.heap[h].run
    requires forall h :: 0 <= h < |q.heap| ==> q.heap[h].run == b.heap[h].run
    ensures Frames(q, p)
  {
    assert forall h :: 0 <= h < |q.heap| ==> Listed(p, h) == Listed(b, h);
    forall run ensures OwnerMoves(q, p, run) {
      assert OwnerMoves(q, b, run);
    }
    forall h | 0 <= h < |q.heap| ensures ListedMoves(q, p, h) && LeaseHolds(q, p, h) {
      assert ListedMoves(q, b, h) && LeaseHolds(q, b, h) && LeaseHolds(b, p, h);
      assert ListedMoves(b, p, h) && OwnerOf(p, q.heap[h].run) == OwnerOf(b, q.heap[h].run);
    }
  }

  lemma ClaimKeepsHandles(q: Queue, call: NextCall)
    requires Indexed(q)
    ensures var p := Claim(q, call).0;
            |p.heap| == |q.heap| && p.index == q.index
            && forall h :: 0 <= h < |q.heap| ==> p.heap[h].run == q.heap[h].run && p.heap[h].need == q.heap[h].need
  {
  }

  lemma NextFrames(q: Queue, call: NextCall, now: int)
    requires QueueOk(q)
    ensures Frames(q, Next(q, call, now).0)
  {
    if !WellFormedCall(call) {
      SameFrames(q);
    } else {
      ClaimFrames(q, call);
      var (b, o) := Claim(q, call);
      if o.Ok? {
        ClaimKeeps(q, call);
        ClaimKeepsHandles(q, call);
        PassFrames(b, call.run, o.value, call.limit, now);
        PassKeepsOwners(b, call.run, o.value, call.limit, now);
        ClaimThenPass(q, b, Pass(b, call.run, o.value, call.limit, now).0);
      }
    }
  }

  // ---- steps ----

  lemma UpdateFrames(q: Queue, id: string, phase: Phase, raw: Payload, err: Option<Code>)
    requires QueueOk(q) && id in q.index && Terminal(phase)
    requires phase == Resolved ==> q.heap[q.index[id]].phase == Resolving || Terminal(q.heap[q.index[id]].phase)
    requires err.None? ==> phase == Resolved
    ensures Frames(q, Update(q, id, Finish(q.heap[q.index[id]], phase, raw, err)))
  {
    var h := q.index[id];
    FinishIsFine(q, h, phase, raw, err);
    ReplaceFrames(q, h, Finish(q.heap[h], phase, raw, err));
  }

  lemma ReportFrames(q: Queue, id: string, raw: Payload, err: Option<Code>)
    requires QueueOk(q)
    ensures Frames(q, ReportOutcome(q, id, raw, err))
  {
    SameFrames(q);
    if id in q.index && !Terminal(q.heap[q.index[id]].phase) {
      if err.Some? {
        UpdateFrames(q, id, Failed, raw, err);
      } else if q.heap[q.index[id]].phase == Resolving {
        UpdateFrames(q, id, Resolved, raw, None);
      }
    }
  }

  lemma CancelFrames(q: Queue, id: string, code: Code)
    requires QueueOk(q)
    ensures Frames(q, CancelRequest(q, id, code))
  {
    SameFrames(q);
    if id in q.index {
      UpdateFrames(q, id, if code == DEADLINE_EXCEEDED then Expired else Cancelled, NoPayload, Some(code));
    }
  }

  lemma CommitFrames(q: Queue, t: Ticket, now: int)
    requires QueueOk(q) && TicketOk(q, t)
    ensures Frames(q, ResolveCommit(q, t, now).0)
  {
    SameFrames(q);
    if ResolveCommit(q, t, now).1.Ok? {
      AcceptIsFine(q, t.handle, t.request.candidate);
      ReplaceFrames(q, t.handle, Accept(q.heap[t.handle], t.request.candidate));
    }
  }

  lemma ReceiveFrames(q: Queue, h: nat)
    requires QueueOk(q) && h < |q.heap| && q.heap[h].taken < |q.heap[h].sent|
    ensures Frames(q, Receive(q, h))
  {
    ReceiveIsFine(q, h);
    ReplaceFrames(q, h, Receive(q, h).heap[h]);
  }

  lemma StepFrames(s: System, e: Event)
    requires SystemOk(s) && Enabled(s, e)
    ensures Frames(s.q, QueueStep(s, e))
  {
    match e
    case DoEnqueue(run, need, at) => EnqueueFrames(s.q, run, need, at);
    case DoNext(call, now) => NextFrames(s.q, call, now);
    case DoPass(run, o, limit, now) => PassFrames(s.q, run, o, limit, now);
    case DoCheck(_, _) => SameFrames(s.q);
    case DoCommit(t, now) => CommitFrames(s.q, t, now);
    case DoReport(id, raw, err) => ReportFrames(s.q, id, raw, err);
    case DoCancel(id, code) => CancelFrames(s.q, id, code);
    case DoCancelRun(run, code) => CancelRunFrames(s.q, run, code);
    case DoDrop(run) => DropFrames(s.q, run);
    case DoReceive(h) => ReceiveFrames(s.q, h);
  }

  // ---- tickets ----

  lemma TicketStays(q: Queue, p: Queue, t: Ticket)
    requires QueueOk(q) && QueueOk(p) && TicketOk(q, t) && Frames(q, p) && Advances(q, p)
    ensures TicketOk(p, t)
  {
    assert OwnerMoves(q, p, t.request.run) && ListedMoves(q, p, t.handle);
    assert Evolves(q.heap[t.handle], p.heap[t.handle]);
  }

  lemma NewTicketIsOk(q: Queue, r: ResolveRequest, now: int)
    requires QueueOk(q) && ResolveCheck(q, r, now).Passed?
    ensures TicketOk(q, ResolveCheck(q, r, now).ticket)
  {
    assert OwnerOk(q, r.run);
  }

  /** Every locked section keeps the invariant of the whole system. */
  lemma StepKeepsSystem(s: System, e: Event)
    requires SystemOk(s) && Enabled(s, e)
    ensures SystemOk(Step(s, e))
  {
    StepKeepsQueue(s, e);
    StepFrames(s, e);
    var p := QueueStep(s, e);
    forall t | t in TicketsAfter(s, e) ensures TicketOk(p, t) {
      if t in s.tickets {
        TicketStays(s.q, p, t);
      } else {
        NewTicketIsOk(s.q, e.request, e.now);
      }
    }
  }
}
