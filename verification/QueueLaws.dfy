/** What each step does to each entry of the queue, and which calls succeed. */
module QueueLaws {
  import opened Values
  import opened Sorting
  import opened Api
  import opened QueueSpec
  import opened QueueInvariant
  import opened QueueFrames
  import opened QueueRuns

  // ---- how entries end ----

  datatype Ending = Ending(phase: Phase, response: Payload, error: Option<Code>)

  /** The step is a successful pass over this run at this time. */
  ghost predicate PassesOver(s: System, e: Event, run: string, now: int)
    requires Indexed(s.q)
  {
    BatchOf(s, e).Some? && ((e.DoNext? && e.call.run == run && e.now == now) || (e.DoPass? && e.run == run && e.now == now))
  }

  ghost function TimeOf(e: Event): int {
    if e.DoNext? || e.DoPass? then e.now else 0
  }

  /** How the step ends the entry: a report of an error fails it, a report of a response resolves it
      once its candidate was accepted, a cancellation names it or its run, and a pass over its run
      expires it when its deadline is over. Nothing else ends an entry. */
  ghost function EndingOf(s: System, e: Event, h: nat): Option<Ending>
    requires Indexed(s.q) && h < |s.q.heap|
  {
    var x := s.q.heap[h];
    if Terminal(x.phase) || !Listed(s.q, h) then None
    else if e.DoReport? && e.id == x.need.requestId then
      if e.err.Some? then Some(Ending(Failed, e.raw, e.err))
      else if x.phase == Resolving then Some(Ending(Resolved, e.raw, None)) else None
    else if e.DoCancel? && e.id == x.need.requestId then
      Some(Ending(if e.code == DEADLINE_EXCEEDED then Expired else Cancelled, NoPayload, Some(e.code)))
    else if e.DoCancelRun? && e.run == x.run then Some(Ending(Cancelled, NoPayload, Some(e.code)))
    else if PassesOver(s, e, x.run, TimeOf(e)) && TimeOf(e) >= x.need.deadline * 1_000_000 then
      Some(Ending(Expired, NoPayload, Some(DEADLINE_EXCEEDED)))
    else None
  }

  /** The step returns the entry's lease: its run is taken over, or a pass finds it run out. */
  ghost predicate Frees(s: System, e: Event, h: nat)
    requires Indexed(s.q) && h < |s.q.heap|
  {
    var x := s.q.heap[h];
    && x.phase == Leased && Listed(s.q, h) && PassesOver(s, e, x.run, TimeOf(e))
    && ((e.DoNext? && e.call.takeover) || TimeOf(e) >= x.leaseExpiry)
  }

  ghost predicate GrantsIt(s: System, e: Event, h: nat)
    requires Indexed(s.q)
  {
    BatchOf(s, e).Some? && GrantedIn(BatchOf(s, e).value.grants, h)
  }

  ghost predicate AcceptsIt(s: System, e: Event, h: nat) {
    e.DoCommit? && e.ticket.handle == h && h < |s.q.heap| && ResolveCommit(s.q, e.ticket, e.now).1.Ok?
  }

  /** What the step makes of the entry. */
  ghost predicate Becomes(s: System, e: Event, h: nat, f: Entry)
    requires Indexed(s.q) && h < |s.q.heap|
  {
    var x := s.q.heap[h];
    if EndingOf(s, e, h).Some? then
      var y := EndingOf(s, e, h).value;
      f == x.(phase := y.phase, response := y.response, error := y.error, closed := x.closed + 1, lease := f.lease)
    else if GrantsIt(s, e, h) then
      && (x.phase == Pending || Frees(s, e, h)) && f.phase == Leased && f.lease > s.q.minted
      && f == x.(phase := Leased, lease := f.lease, epoch := f.epoch, leaseExpiry := f.leaseExpiry)
    else if Frees(s, e, h) then f == x.(phase := Pending, lease := 0)
    else if AcceptsIt(s, e, h) then
      var c := e.ticket.request.candidate;
      f == x.(phase := Resolving, hash := c.canonical, candidate := c, sent := x.sent + [c])
    else if e == DoReceive(h) then f == x.(taken := x.taken + 1)
    else f == x
  }

  // ---- passes ----

  /** What a scan makes of one entry: aged, and leased when it is handed out. */
  ghost predicate Scanned1(x: Entry, f: Entry, now: int, minted: nat, granted: bool) {
    var a := Aged(x, now);
    if granted then
      && a.phase == Pending && f.lease > minted
      && f == a.(phase := Leased, lease := f.lease, epoch := f.epoch, leaseExpiry := f.leaseExpiry)
    else f == a
  }

  lemma ScanOneEntry(s: Scanned, h: nat, epoch: int, limit: int, now: int)
    requires h < |s.heap|
    ensures var s' := ScanOne(s, h, epoch, limit, now); var granted := |s'.grants| > |s.grants|;
            && Scanned1(s.heap[h], s'.heap[h], now, s.minted, granted)
            && s.grants <= s'.grants && (granted ==> s'.grants == s.grants + [s'.grants[|s.grants|]] && s'.grants[|s.grants|].handle == h)
            && (!granted ==> s'.grants == s.grants) && s.minted <= s'.minted
            && (forall k :: 0 <= k < |s.heap| && k != h ==> s'.heap[k] == s.heap[k])
  {
    hide Aged;
  }

  lemma {:induction false} ScanEntry(q: Queue, ids: seq<string>, epoch: int, limit: int, now: int, h: nat)
    requires Indexed(q) && Distinct(ids) && h < |q.heap| && forall id :: id in ids ==> id in q.index
    ensures var s := ScanIds(q, ids, epoch, limit, now);
            && q.minted <= s.minted
            && if h in Handles(q, ids) then Scanned1(q.heap[h], s.heap[h], now, q.minted, GrantedIn(s.grants, h))
               else s.heap[h] == q.heap[h] && !GrantedIn(s.grants, h)
    decreases |ids|
  {
    hide ScanOne, Aged;
    if ids != [] {
      var front, last := ids[..|ids| - 1], ids[|ids| - 1];
      var s := ScanIds(q, front, epoch, limit, now);
      ScanEntry(q, front, epoch, limit, now, h);
      ScanOneEntry(s, q.index[last], epoch, limit, now);
      ScanLast(q, ids);
      var s' := ScanOne(s, q.index[last], epoch, limit, now);
      assert GrantedIn(s'.grants, h) <==> GrantedIn(s.grants, h) || (|s'.grants| > |s.grants| && q.index[last] == h) by {
        if GrantedIn(s.grants, h) {
          var i :| 0 <= i < |s.grants| && s.grants[i].handle == h;
          assert s'.grants[i].handle == h;
        }
        if |s'.grants| > |s.grants| {
          assert s'.grants[|s.grants|].handle == q.index[last];
        }
      }
    }
  }

  function Handles(q: Queue, ids: seq<string>): set<nat>
    requires forall id :: id in ids ==> id in q.index
  {
    set i | 0 <= i < |ids| :: q.index[ids[i]]
  }

  lemma ScanLast(q: Queue, ids: seq<string>)
    requires Indexed(q) && Distinct(ids) && ids != [] && forall id :: id in ids ==> id in q.index
    ensures var front, last := ids[..|ids| - 1], ids[|ids| - 1];
            && Handles(q, ids) == Handles(q, front) + {q.index[last]} && q.index[last] !in Handles(q, front)
  {
    var front, last := ids[..|ids| - 1], ids[|ids| - 1];
    assert forall i :: 0 <= i < |front| ==> front[i] == ids[i];
  }

  lemma PassEntry(q: Queue, run: string, o: Owner, limit: int, now: int, h: nat)
    requires QueueOk(q) && Pass(q, run, o, limit, now).1.Ok? && h < |q.heap|
    ensures var (p, b) := Pass(q, run, o, limit, now);
            if Listed(q, h) && q.heap[h].run == run
            then Scanned1(q.heap[h], p.heap[h], now, q.minted, GrantedIn(b.value.grants, h))
            else p.heap[h] == q.heap[h] && !GrantedIn(b.value.grants, h)
  {
    var ids := SortedKeys(RunIds(q, run));
    SortedIsDistinct(ids);
    ScanEntry(q, ids, o.epoch, limit, now, h);
    hide Aged, ScanIds;
    if Listed(q, h) && q.heap[h].run == run {
      var id := q.heap[h].need.requestId;
      assert id in ids;
      var i :| 0 <= i < |ids| && ids[i] == id;
      assert q.index[ids[i]] in Handles(q, ids);
    }
    if h in Handles(q, ids) {
      var i :| 0 <= i < |ids| && q.index[ids[i]] == h;
      assert ids[i] in RunIds(q, run);
    }
  }

  /** What a claim makes of an entry of its run: a takeover returns its lease. */
  ghost function Claimed(x: Entry, released: bool): Entry {
    if released && x.phase == Leased then x.(phase := Pending, lease := 0) else x
  }

  lemma ClaimEntry(q: Queue, call: NextCall, h: nat)
    requires Indexed(q) && Claim(q, call).1.Ok? && h < |q.heap|
    ensures var c := Claim(q, call).0;
            && |c.heap| == |q.heap| && c.index == q.index && q.minted <= c.minted && (Listed(c, h) <==> Listed(q, h))
            && c.heap[h] == Claimed(q.heap[h], call.takeover && Listed(q, h) && q.heap[h].run == call.run)
  {
    hide Committing;
  }

  lemma NextEntry(q: Queue, call: NextCall, now: int, h: nat)
    requires QueueOk(q) && Next(q, call, now).1.Ok? && h < |q.heap|
    ensures var (p, b) := Next(q, call, now);
            if Listed(q, h) && q.heap[h].run == call.run
            then Scanned1(Claimed(q.heap[h], call.takeover), p.heap[h], now, q.minted, GrantedIn(b.value.grants, h))
            else p.heap[h] == q.heap[h] && !GrantedIn(b.value.grants, h)
  {
    var (c, o) := Claim(q, call);
    ClaimKeeps(q, call);
    ClaimEntry(q, call, h);
    PassEntry(c, call.run, o.value, call.limit, now, h);
    hide Claim, Pass, Aged, QueueOk, Claimed;
  }

  /** Together: the entry expires, is handed out, goes back, or stays. */
  lemma ScannedBecomes(x: Entry, f: Entry, released: bool, now: int, minted: nat, granted: bool)
    requires EntryOk(x) && Scanned1(Claimed(x, released), f, now, minted, granted)
    ensures var freed := x.phase == Leased && (released || now >= x.leaseExpiry);
            if !Terminal(x.phase) && now >= x.need.deadline * 1_000_000 then
              !granted && f == x.(phase := Expired, response := NoPayload, error := Some(DEADLINE_EXCEEDED), closed := x.closed + 1, lease := f.lease)
            else if granted then
              && (x.phase == Pending || freed) && f.phase == Leased && f.lease > minted
              && f == x.(phase := Leased, lease := f.lease, epoch := f.epoch, leaseExpiry := f.leaseExpiry)
            else if freed then f == x.(phase := Pending, lease := 0)
            else f == x
  {
  }

  lemma NextBecomes(s: System, e: Event, h: nat)
    requires SystemOk(s) && Enabled(s, e) && h < |s.q.heap| && e.DoNext?
    ensures h < |QueueStep(s, e).heap| && Becomes(s, e, h, QueueStep(s, e).heap[h])
  {
    var x := s.q.heap[h];
    assert EntryOk(x);
    NextKeepsSize(s.q, e.call, e.now);
    hide Next, EntryOk, Scanned1, QueueOk, AcceptsIt, Listed, Terminal, Becomes;
    if Next(s.q, e.call, e.now).1.Ok? {
      var f := QueueStep(s, e).heap[h];
      NextEntry(s.q, e.call, e.now, h);
      if Listed(s.q, h) && x.run == e.call.run {
        ScannedBecomes(x, f, e.call.takeover, e.now, s.q.minted, GrantsIt(s, e, h));
      }
      PassedBecomes(s, e, h, f);
    } else {
      RefusedNext(s.q, e.call, e.now);
      NothingBecomes(s, e, h);
    }
  }

  lemma NothingBecomes(s: System, e: Event, h: nat)
    requires Indexed(s.q) && h < |s.q.heap| && e.DoNext? && BatchOf(s, e).None?
    ensures Becomes(s, e, h, s.q.heap[h])
  {
    hide BatchOf, Listed, Terminal;
  }

  lemma PassedBecomes(s: System, e: Event, h: nat, f: Entry)
    requires Indexed(s.q) && h < |s.q.heap| && e.DoNext? && BatchOf(s, e).Some?
    requires var x := s.q.heap[h];
             if Listed(s.q, h) && x.run == e.call.run then
               var freed := x.phase == Leased && (e.call.takeover || e.now >= x.leaseExpiry);
               if !Terminal(x.phase) && e.now >= x.need.deadline * 1_000_000 then
                 f == x.(phase := Expired, response := NoPayload, error := Some(DEADLINE_EXCEEDED), closed := x.closed + 1, lease := f.lease)
               else if GrantsIt(s, e, h) then
                 && (x.phase == Pending || freed) && f.phase == Leased && f.lease > s.q.minted
                 && f == x.(phase := Leased, lease := f.lease, epoch := f.epoch, leaseExpiry := f.leaseExpiry)
               else if freed then f == x.(phase := Pending, lease := 0)
               else f == x
             else f == x && !GrantsIt(s, e, h)
    ensures Becomes(s, e, h, f)
  {
    hide BatchOf, GrantsIt, Listed, Terminal;
  }

  lemma RefusedNext(q: Queue, call: NextCall, now: int)
    requires QueueOk(q) && Next(q, call, now).1.Err?
    ensures Next(q, call, now).0 == q
  {
    hide Committing, ScanIds, SortedKeys, RunIds, ReleaseRun;
  }

  lemma PassBecomes(s: System, e: Event, h: nat)
    requires SystemOk(s) && Enabled(s, e) && h < |s.q.heap| && e.DoPass?
    ensures h < |QueueStep(s, e).heap| && Becomes(s, e, h, QueueStep(s, e).heap[h])
  {
    var x := s.q.heap[h];
    assert EntryOk(x);
    PassSize(s.q, e.run, e.owner, e.limit, e.now);
    hide Pass, EntryOk, Scanned1, QueueOk;
    if Pass(s.q, e.run, e.owner, e.limit, e.now).1.Ok? {
      PassEntry(s.q, e.run, e.owner, e.limit, e.now, h);
      if Listed(s.q, h) && x.run == e.run {
        ScannedBecomes(x, QueueStep(s, e).heap[h], false, e.now, s.q.minted, GrantsIt(s, e, h));
      }
    }
  }

  lemma PassSize(q: Queue, run: string, o: Owner, limit: int, now: int)
    requires Indexed(q)
    ensures |Pass(q, run, o, limit, now).0.heap| == |q.heap|
    ensures Pass(q, run, o, limit, now).1.Err? ==> Pass(q, run, o, limit, now).0 == q
  {
  }

  // ---- every step, every entry ----

  lemma CommitBecomes(s: System, e: Event, h: nat)
    requires SystemOk(s) && Enabled(s, e) && h < |s.q.heap| && e.DoCommit?
    ensures h < |QueueStep(s, e).heap| && Becomes(s, e, h, QueueStep(s, e).heap[h])
  {
    hide QueueOk, LeaseUsable;
  }

  lemma ReportBecomes(s: System, e: Event, h: nat)
    requires SystemOk(s) && Enabled(s, e) && h < |s.q.heap| && (e.DoReport? || e.DoCancel?)
    ensures h < |QueueStep(s, e).heap| && Becomes(s, e, h, QueueStep(s, e).heap[h])
  {
    assert Indexed(s.q);
    hide QueueOk;
    if e.DoReport? {
      ReportsOne(s.q, e.id, e.raw, e.err, h);
    } else {
      CancelsOne(s.q, e.id, e.code, h);
    }
    hide ReportOutcome, CancelRequest;
  }

  lemma ReportsOne(q: Queue, id: string, raw: Payload, err: Option<Code>, h: nat)
    requires Indexed(q) && h < |q.heap|
    ensures var p, x := ReportOutcome(q, id, raw, err), q.heap[h];
            && |p.heap| == |q.heap|
            && p.heap[h] == if !Listed(q, h) || x.need.requestId != id || Terminal(x.phase) then x
                            else if err.Some? then x.(phase := Failed, response := raw, error := err, closed := x.closed + 1)
                            else if x.phase == Resolving then x.(phase := Resolved, response := raw, error := None, closed := x.closed + 1)
                            else x
  {
  }

  lemma CancelsOne(q: Queue, id: string, code: Code, h: nat)
    requires Indexed(q) && h < |q.heap|
    ensures var p, x := CancelRequest(q, id, code), q.heap[h];
            && |p.heap| == |q.heap|
            && p.heap[h] == if !Listed(q, h) || x.need.requestId != id || Terminal(x.phase) then x
                            else x.(phase := if code == DEADLINE_EXCEEDED then Expired else Cancelled,
                                    response := NoPayload, error := Some(code), closed := x.closed + 1)
  {
  }

  lemma CancelRunBecomes(s: System, e: Event, h: nat)
    requires SystemOk(s) && Enabled(s, e) && h < |s.q.heap| && e.DoCancelRun?
    ensures h < |QueueStep(s, e).heap| && Becomes(s, e, h, QueueStep(s, e).heap[h])
  {
    hide QueueOk;
  }

  lemma PlainBecomes(s: System, e: Event, h: nat)
    requires SystemOk(s) && Enabled(s, e) && h < |s.q.heap| && (e.DoEnqueue? || e.DoCheck? || e.DoDrop? || e.DoReceive?)
    ensures h < |QueueStep(s, e).heap| && Becomes(s, e, h, QueueStep(s, e).heap[h])
  {
    hide QueueOk, Full;
  }

  /** Every entry that was there before the step is afterwards exactly this: ended, handed out,
      returned, accepted, received, or as it was. */
  lemma StepOnEntry(s: System, e: Event, h: nat)
    requires SystemOk(s) && Enabled(s, e) && h < |s.q.heap|
    ensures h < |QueueStep(s, e).heap| && Becomes(s, e, h, QueueStep(s, e).heap[h])
  {
    hide Becomes, QueueStep, SystemOk;
    if e.DoNext? {
      NextBecomes(s, e, h);
    } else if e.DoPass? {
      PassBecomes(s, e, h);
    } else if e.DoCommit? {
      CommitBecomes(s, e, h);
    } else if e.DoReport? || e.DoCancel? {
      ReportBecomes(s, e, h);
    } else if e.DoCancelRun? {
      CancelRunBecomes(s, e, h);
    } else {
      PlainBecomes(s, e, h);
    }
  }

  // ---- what is listed, and new entries ----

  /** What an Enqueue asks for: a run, both names, and a deadline that is still to come. */
  predicate Asks(run: string, need: Need, at: int) {
    run != "" && need.requestId != "" && need.continuation != "" && Millis(at) < need.deadline
  }

  /** Fewer than 512 active entries, fewer than 128 of the run, and fewer than 4096 of it at all. */
  ghost predicate HasRoom(q: Queue, run: string)
    requires Indexed(q)
  {
    |ActiveIds(q)| < 512 && |ActiveIds(q) * RunIds(q, run)| < 128 && |RunIds(q, run)| < 4096
  }

  /** An Enqueue succeeds exactly when it asks properly, its id is new and there is room; it adds one
      pending entry with exactly its need, and a refused one changes nothing. */
  lemma EnqueueMeans(q: Queue, run: string, need: Need, at: int)
    requires Indexed(q)
    ensures var (p, reply) := Enqueue(q, run, need, at);
            if Asks(run, need, at) && need.requestId !in q.index && HasRoom(q, run) then
              && reply == Ok(|q.heap|) && p == q.(heap := p.heap, index := p.index)
              && |p.heap| == |q.heap| + 1 && p.heap[..|q.heap|] == q.heap && p.index == q.index[need.requestId := |q.heap|]
              && var f := p.heap[|q.heap|];
                 f.run == run && f.need == need && f.phase == Pending && f.lease == 0 && f.hash == None && f.sent == [] && f.closed == 0
            else
              p == q && reply == Err(if !Asks(run, need, at) then DEADLINE_EXCEEDED
                                     else if need.requestId in q.index then STATE_CONFLICT else QUEUE_FULL)
  {
    hide ActiveIds, RunIds;
  }

  /** Only an accepted Enqueue lists an id, only dropping its run unlists it; a drop forgets exactly the
      run's ids and its owner. */
  lemma ListingMeans(s: System, e: Event)
    requires SystemOk(s) && Enabled(s, e)
    ensures QueueStep(s, e).index
         == (if e.DoEnqueue? && Enqueue(s.q, e.run, e.need, e.checkedAt).1.Ok? then s.q.index[e.need.requestId := |s.q.heap|]
             else if e.DoDrop? then map id | id in s.q.index && s.q.heap[s.q.index[id]].run != e.run :: s.q.index[id]
             else s.q.index)
    ensures e.DoDrop? ==> QueueStep(s, e).owners == s.q.owners - {e.run} && QueueStep(s, e).heap == s.q.heap
  {
    hide Full;
    if e.DoNext? {
      NextListing(s.q, e.call, e.now);
    }
    hide Next, ScanIds, SortedKeys, QueueOk;
  }

  lemma NextListing(q: Queue, call: NextCall, now: int)
    requires Indexed(q)
    ensures Next(q, call, now).0.index == q.index
  {
    hide Committing, ScanIds, SortedKeys, ReleaseRun;
  }

  // ---- who may resolve ----

  /** The request names a listed entry of its run and shows the token of the run's owner. */
  ghost predicate ShowsOwner(q: Queue, r: ResolveRequest)
    requires Indexed(q)
  {
    && r.requestId in q.index && q.heap[q.index[r.requestId]].run == r.run
    && r.run in q.owners && q.owners[r.run].token == r.owner
  }

  /** The first section of Resolve, exactly: a stranger is refused, then a candidate that is no JSON;
      a repeat of the accepted candidate under the accepted lease, while the owner is the same, joins
      its outcome; and a first candidate passes exactly while the entry is leased under that lease and the
      lease has not run out. */
  lemma CheckMeans(s: System, r: ResolveRequest, now: int)
    requires SystemOk(s)
    ensures ResolveCheck(s.q, r, now)
         == if !ShowsOwner(s.q, r) then Rejected(OWNER_CONFLICT)
            else if r.candidate.canonical.None? then Rejected(INVALID_ARGUMENT)
            else
              var h := s.q.index[r.requestId];
              var x := s.q.heap[h];
              if x.hash.Some? then
                if x.candidate.canonical == r.candidate.canonical && x.lease == r.lease && x.epoch == s.q.owners[r.run].epoch
                then Awaits(h) else Rejected(STATE_CONFLICT)
              else if x.phase == Leased && x.lease == r.lease && now < x.leaseExpiry then Passed(Ticket(h, r, s.q.owners[r.run]))
              else Rejected(STATE_CONFLICT)
  {
    assert OwnerOk(s.q, r.run);
    if r.requestId in s.q.index {
      var h := s.q.index[r.requestId];
      assert EntryOk(s.q.heap[h]) && Listed(s.q, h);
      assert LeaseOk(s.q.heap[h], OwnerOf(s.q, s.q.heap[h].run));
    }
  }

  /** The second section accepts exactly when the entry is still leased under that lease, the lease has
      not run out, and the run has not changed hands; a refusal changes nothing. */
  lemma CommitMeans(s: System, t: Ticket, now: int)
    requires SystemOk(s) && t in s.tickets && t.handle < |s.q.heap|
    ensures var (p, reply) := ResolveCommit(s.q, t, now); var x := s.q.heap[t.handle];
            if x.phase == Leased && x.lease == t.request.lease && now < x.leaseExpiry && OwnerOf(s.q, t.request.run) == t.owner
            then reply == Ok(t.handle) else reply == Err(STATE_CONFLICT) && p == s.q
  {
    assert EntryOk(s.q.heap[t.handle]);
  }

  // ---- the story of a capture ----

  lemma EntryStep(r: Run, i: nat, h: nat)
    requires IsRun(r) && i < |r.events| && h < |r.states[i].q.heap|
    ensures SystemOk(r.states[i]) && h < |r.states[i + 1].q.heap|
    ensures Becomes(r.states[i], r.events[i], h, r.states[i + 1].q.heap[h])
  {
    OkAt(r, i);
    assert Follows(r, i);
    hide QueueStep, SystemOk, Becomes;
    StepOnEntry(r.states[i], r.events[i], h);
  }

  lemma EntriesOfStep(r: Run, i: nat)
    requires IsRun(r) && i < |r.events|
    ensures SystemOk(r.states[i])
    ensures var q, p, e := r.states[i].q, r.states[i + 1].q, r.events[i];
            |p.heap| == |q.heap| ||
            (e.DoEnqueue? && |p.heap| == |q.heap| + 1 && p.heap[|q.heap|].run == e.run && p.heap[|q.heap|].need == e.need
             && p.heap[|q.heap|].hash == None && p.heap[|q.heap|].phase == Pending)
  {
    OkAt(r, i);
    assert Follows(r, i);
    var s, e := r.states[i], r.events[i];
    if e.DoEnqueue? {
      EnqueueMeans(s.q, e.run, e.need, e.checkedAt);
    } else {
      HeapGrowsOnlyByEnqueue(s, e);
    }
    hide Enqueue, SystemOk, HasRoom;
  }

  /** Every entry is there because of one Enqueue, and keeps its run and need for good. */
  lemma {:induction false} EnqueuedBy(r: Run, n: nat, h: nat) returns (i: nat)
    requires IsRun(r) && n < |r.states| && h < |r.states[n].q.heap|
    ensures i < n && r.events[i].DoEnqueue? && |r.states[i].q.heap| == h
    ensures r.events[i].run == r.states[n].q.heap[h].run && r.events[i].need == r.states[n].q.heap[h].need
  {
    hide Follows, SystemOk;
    if n > 0 {
      EntriesOfStep(r, n - 1);
      if h < |r.states[n - 1].q.heap| {
        i := EnqueuedBy(r, n - 1, h);
        StepFacts(r, n - 1);
      } else {
        i := n - 1;
      }
    }
  }

  /** Its candidate was accepted by one Resolve. */
  lemma {:induction false} AcceptedBy(r: Run, n: nat, h: nat) returns (j: nat)
    requires IsRun(r) && n < |r.states| && h < |r.states[n].q.heap| && r.states[n].q.heap[h].hash.Some?
    ensures j < n && j < |r.events| && Accepts(r, j) && r.events[j].ticket.handle == h && h < |r.states[j].q.heap|
    ensures r.events[j].ticket.request.candidate == r.states[n].q.heap[h].candidate
  {
    hide Follows, SystemOk, ResolveCommit;
    if n > 0 {
      EntriesOfStep(r, n - 1);
      if h < |r.states[n - 1].q.heap| {
        EntryStep(r, n - 1, h);
        if r.states[n - 1].q.heap[h].hash.Some? {
          j := AcceptedBy(r, n - 1, h);
          StepFacts(r, n - 1);
        } else {
          j := n - 1;
        }
      }
    }
  }

  /** It was resolved by one report of a response, after its candidate had been accepted. */
  lemma {:induction false} ResolvedBy(r: Run, n: nat, h: nat) returns (k: nat)
    requires IsRun(r) && n < |r.states| && h < |r.states[n].q.heap| && r.states[n].q.heap[h].phase == Resolved
    ensures k < n && h < |r.states[k].q.heap| && r.states[k].q.heap[h].phase == Resolving
    ensures r.events[k] == DoReport(r.states[n].q.heap[h].need.requestId, r.states[n].q.heap[h].response, None)
  {
    hide Follows, SystemOk, ResolveCommit;
    if n > 0 {
      EntriesOfStep(r, n - 1);
      if h < |r.states[n - 1].q.heap| {
        EntryStep(r, n - 1, h);
        if r.states[n - 1].q.heap[h].phase == Resolved {
          k := ResolvedBy(r, n - 1, h);
          StepFacts(r, n - 1);
        } else {
          k := n - 1;
        }
      }
    }
  }

  /** A capture is released exactly for a resolved entry listed under the id for this run, and it tells what
      happened: the context of the Enqueue that brought the request, the candidate of the Resolve that
      was accepted for it after that, and the response of the report that came after that. */
  lemma CaptureTells(r: Run, n: nat, run: string, id: string) returns (i: nat, j: nat, k: nat)
    requires IsRun(r) && n < |r.states|
    ensures SystemOk(r.states[n])
    ensures var q := r.states[n].q;
            CaptureOf(q, run, id).Ok? <==> id in q.index && q.heap[q.index[id]].run == run && q.heap[q.index[id]].phase == Resolved
    ensures CaptureOf(r.states[n].q, run, id).Ok? ==>
              var c := CaptureOf(r.states[n].q, run, id).value;
              && i < j < k < n
              && r.events[i].DoEnqueue? && r.events[i].run == run && r.events[i].need.requestId == id && r.events[i].need.context == c.context
              && Accepts(r, j) && r.events[j].ticket.request.requestId == id && r.events[j].ticket.request.candidate == c.candidate
              && r.events[k] == DoReport(id, c.response, None)
  {
    OkAt(r, n);
    i, j, k := 0, 0, 0;
    var q := r.states[n].q;
    if CaptureOf(q, run, id).Ok? {
      var h := q.index[id];
      assert EntryOk(q.heap[h]);
      k := ResolvedBy(r, n, h);
      OkAt(r, k);
      assert EntryOk(r.states[k].q.heap[h]);
      EntriesEvolve(r, k, n, h);
      j := AcceptedBy(r, k, h);
      AcceptFacts(r, j);
      EntriesEvolve(r, j, k, h);
      i := EnqueuedBy(r, j, h);
      EntriesEvolve(r, j, n, h);
    }
  }
}
