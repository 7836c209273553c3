/** The generation queue as the object the daemon holds; every method is one locked section. */
module Queue {
  import opened Values
  import opened Sorting
  import opened Api
  import opened QueueSpec
  import opened QueueInvariant

  class GenerationQueue {
    var heap: seq<Entry>
    var index: map<string, nat>
    var owners: map<string, Owner>
    var minted: nat

    function Abs(): QueueSpec.Queue
      reads this
    {
      QueueSpec.Queue(heap, index, owners, minted)
    }

    ghost predicate Valid()
      reads this
    {
      QueueOk(Abs())
    }

    constructor ()
      ensures Valid() && Abs() == EMPTY
    {
      heap, index, owners, minted := [], map[], map[], 0;
    }

    /** binding.ID(): a token never seen before. */
    method Mint() returns (token: nat)
      modifies this`minted
      ensures token == minted == old(minted) + 1
    {
      minted := minted + 1;
      token := minted;
    }

    /** finish: the first terminal state stays. */
    method Finish(h: nat, phase: Phase, raw: Payload, err: Option<Code>)
      requires h < |heap|
      modifies this`heap
      ensures heap == old(heap)[h := QueueSpec.Finish(old(heap)[h], phase, raw, err)]
    {
      var e := heap[h];
      if Terminal(e.phase) {
        return;
      }
      heap := heap[h := e.(phase := phase, response := raw, error := err, closed := e.closed + 1)];
    }

    // ---- Enqueue ----

    /** Counts the active entries, the run's active ones, and all of the run's. */
    method Count(run: string) returns (active: nat, own: nat, total: nat)
      requires Indexed(Abs())
      ensures active == |ActiveIds(Abs())| && total == |RunIds(Abs(), run)|
      ensures own == |ActiveIds(Abs()) * RunIds(Abs(), run)|
    {
      ghost var q := Abs();
      active, own, total := 0, 0, 0;
      CountAll(q, run, 0, 0, 0);
      hide Counted;
      var rest := index.Keys;
      while rest != {}
        invariant rest <= index.Keys
        invariant Counted(q, run, rest, active, own, total)
      {
        var id :| id in rest;
        var e := heap[index[id]];
        CountOne(q, run, rest, active, own, total, id);
        if e.run == run {
          total := total + 1;
        }
        if !Terminal(e.phase) {
          active := active + 1;
          if e.run == run {
            own := own + 1;
          }
        }
        rest := rest - {id};
      }
      CountAll(q, run, active, own, total);
    }

    method IsFull(run: string) returns (full: bool)
      requires Indexed(Abs())
      ensures full == Full(Abs(), run)
    {
      var active, own, total := Count(run);
      full := active >= MAX_ACTIVE || own >= MAX_ACTIVE_PER_RUN || total >= MAX_PER_RUN;
    }

    method Enqueue(run: string, need: Need, checkedAt: int) returns (reply: Reply<nat>)
      requires Valid()
      modifies this`heap, this`index
      ensures Valid() && (Abs(), reply) == QueueSpec.Enqueue(old(Abs()), run, need, checkedAt)
    {
      EnqueueKeeps(Abs(), run, need, checkedAt);
      assert Indexed(Abs());
      hide QueueOk, Full, Indexed, Advances;
      if run == "" || need.requestId == "" || need.continuation == "" || need.deadline <= Millis(checkedAt) {
        return Err(DEADLINE_EXCEEDED);
      }
      if need.requestId in index {
        return Err(STATE_CONFLICT);
      }
      var full := IsFull(run);
      if full {
        return Err(QUEUE_FULL);
      }
      reply := Ok(|heap|);
      index := index[need.requestId := |heap|];
      heap := heap + [NewEntry(run, need)];
    }

    // ---- Next ----

    method FindCommitting(run: string) returns (found: bool)
      requires Indexed(Abs())
      ensures found == Committing(Abs(), run)
    {
      var rest := index.Keys;
      while rest != {}
        invariant rest <= index.Keys
        invariant forall id :: id in index && id !in rest ==> !(heap[index[id]].run == run && heap[index[id]].phase == Resolving)
      {
        var id :| id in rest;
        if heap[index[id]].run == run && heap[index[id]].phase == Resolving {
          return true;
        }
        rest := rest - {id};
      }
      found := false;
    }

    method ReleaseLeases(run: string)
      requires Indexed(Abs())
      modifies this`heap
      ensures heap == ReleaseRun(old(Abs()), run)
    {
      ghost var q := Abs();
      var rest := index.Keys;
      while rest != {}
        invariant rest <= index.Keys && |heap| == |q.heap|
        invariant forall h :: 0 <= h < |heap| ==>
                    heap[h] == if Listed(q, h) && q.heap[h].need.requestId !in rest && q.heap[h].run == run && q.heap[h].phase == Leased
                               then Returned(q.heap[h]) else q.heap[h]
      {
        var id :| id in rest;
        var h := index[id];
        assert Listed(q, h);
        if heap[h].run == run && heap[h].phase == Leased {
          heap := heap[h := heap[h].(phase := Pending, lease := 0)];
        }
        rest := rest - {id};
      }
    }

    method Claim(call: NextCall) returns (reply: Reply<Owner>)
      requires Valid()
      modifies this
      ensures Valid() && (Abs(), reply) == QueueSpec.Claim(old(Abs()), call)
    {
      ClaimKeeps(Abs(), call);
      assert Indexed(Abs());
      hide QueueOk;
      var known := call.run in owners;
      if call.takeover {
        if !known || owners[call.run].epoch != call.expectedEpoch {
          return Err(STATE_CONFLICT);
        }
        var busy := FindCommitting(call.run);
        if busy {
          return Err(STATE_CONFLICT);
        }
        ReleaseLeases(call.run);
        var token := Mint();
        var o := Owner(token, owners[call.run].epoch + 1);
        owners := owners[call.run := o];
        return Ok(o);
      }
      if !known {
        if call.token != 0 {
          return Err(OWNER_CONFLICT);
        }
        var token := Mint();
        owners := owners[call.run := Owner(token, 1)];
        return Ok(Owner(token, 1));
      }
      if call.token != owners[call.run].token {
        return Err(OWNER_CONFLICT);
      }
      reply := Ok(owners[call.run]);
    }

    /** The body of the scan for one entry. */
    method Offer(h: nat, epoch: int, limit: int, now: int, grants: seq<Grant>) returns (out: seq<Grant>)
      requires h < |heap|
      modifies this`heap, this`minted
      ensures Scanned(heap, minted, out) == ScanOne(Scanned(old(heap), old(minted), grants), h, epoch, limit, now)
    {
      out := grants;
      if Terminal(heap[h].phase) {
        assert heap == heap[h := heap[h]];
        return;
      }
      if now >= heap[h].need.deadline * NANOS_PER_MILLI {
        Finish(h, Expired, NoPayload, Some(DEADLINE_EXCEEDED));
        return;
      }
      if heap[h].phase == Leased && now >= heap[h].leaseExpiry {
        heap := heap[h := heap[h].(phase := Pending, lease := 0)];
      }
      if heap[h].phase == Pending && |grants| < limit {
        var token := Mint();
        var e := heap[h].(phase := Leased, lease := token, epoch := epoch, leaseExpiry := now + LEASE_NANOS);
        if e.need.deadline * NANOS_PER_MILLI < e.leaseExpiry {
          e := e.(leaseExpiry := e.need.deadline * NANOS_PER_MILLI);
        }
        heap := heap[h := e];
        out := grants + [Grant(h, e.need, e.lease, Millis(e.leaseExpiry))];
      }
      assert heap == old(heap)[h := heap[h]];
    }

    /** The request ids of the run, sorted. */
    method Ids(run: string) returns (ids: seq<string>)
      requires Indexed(Abs())
      ensures ids == SortedKeys(RunIds(Abs(), run))
      ensures forall id :: id in ids ==> id in index
    {
      ids := SortKeys(RunIds(Abs(), run));
      assert forall id :: id in ids ==> id in RunIds(Abs(), run);
    }

    /** The scan over the entries in the given order. */
    method Scan(ids: seq<string>, epoch: int, limit: int, now: int) returns (grants: seq<Grant>)
      requires Indexed(Abs()) && forall id :: id in ids ==> id in index
      modifies this`heap, this`minted
      ensures Scanned(heap, minted, grants) == ScanIds(old(Abs()), ids, epoch, limit, now)
    {
      ghost var q := Abs();
      ScanEnds(q, ids, epoch, limit, now);
      hide ScanOne, ScanTo, ScanIds, Indexed;
      grants := [];
      for i := 0 to |ids|
        invariant |heap| == |q.heap|
        invariant Scanned(heap, minted, grants) == ScanTo(q, ids, i, epoch, limit, now)
      {
        ScanNext(q, ids, i, epoch, limit, now);
        assert ids[i] in ids;
        grants := Offer(index[ids[i]], epoch, limit, now, grants);
      }
    }

    method Pass(run: string, o: Owner, limit: int, now: int) returns (reply: Reply<Batch>)
      requires Valid() && o.token != 0
      modifies this`heap, this`minted
      ensures Valid() && (Abs(), reply) == QueueSpec.Pass(old(Abs()), run, o, limit, now)
    {
      PassKeeps(Abs(), run, o, limit, now);
      var current := if run in owners then owners[run] else NOBODY;
      if current != o {
        return Err(OWNER_CONFLICT);
      }
      var ids := Ids(run);
      var grants := Scan(ids, o.epoch, limit, now);
      reply := Ok(Batch(o, grants));
    }

    /** The first locked section of Next; a caller that waits repeats Pass with its owner. */
    method Next(call: NextCall, now: int) returns (reply: Reply<Batch>)
      requires Valid()
      modifies this
      ensures Valid() && (Abs(), reply) == QueueSpec.Next(old(Abs()), call, now)
    {
      if !WellFormedCall(call) {
        return Err(INVALID_ARGUMENT);
      }
      ClaimKeeps(Abs(), call);
      var o := Claim(call);
      match o
      case Err(code) => reply := Err(code);
      case Ok(mine) => reply := Pass(call.run, mine, call.limit, now);
    }

    // ---- Resolve ----

    method ResolveCheck(r: ResolveRequest, now: int) returns (c: Checked)
      requires Valid()
      ensures c == QueueSpec.ResolveCheck(Abs(), r, now)
    {
      if r.requestId !in index {
        return Rejected(OWNER_CONFLICT);
      }
      var h := index[r.requestId];
      var e := heap[h];
      var o := if r.run in owners then owners[r.run] else NOBODY;
      if e.run != r.run || o.token == 0 || o.token != r.owner {
        return Rejected(OWNER_CONFLICT);
      }
      if r.candidate.canonical.None? {
        return Rejected(INVALID_ARGUMENT);
      }
      if e.hash.Some? {
        if e.hash != r.candidate.canonical || e.epoch != o.epoch || e.lease != r.lease {
          return Rejected(STATE_CONFLICT);
        }
        return Awaits(h);
      }
      if e.phase != Leased || e.lease != r.lease || e.epoch != o.epoch || now >= e.leaseExpiry || Millis(now) >= e.need.deadline {
        return Rejected(STATE_CONFLICT);
      }
      c := Passed(Ticket(h, r, o));
    }

    method ResolveCommit(t: Ticket, now: int) returns (reply: Reply<nat>)
      requires Valid() && TicketOk(Abs(), t)
      modifies this`heap
      ensures Valid() && (Abs(), reply) == QueueSpec.ResolveCommit(old(Abs()), t, now)
    {
      CommitKeeps(Abs(), t, now);
      var e := heap[t.handle];
      var o := if t.request.run in owners then owners[t.request.run] else NOBODY;
      if e.phase != Leased || o != t.owner || e.lease != t.request.lease || now >= e.leaseExpiry || Millis(now) >= e.need.deadline {
        return Err(STATE_CONFLICT);
      }
      e := e.(hash := t.request.candidate.canonical, candidate := t.request.candidate, phase := Resolving);
      heap := heap[t.handle := e.(sent := e.sent + [e.candidate])];
      reply := Ok(t.handle);
    }

    // ---- outcomes, cancellation, capture ----

    method ReportOutcome(id: string, raw: Payload, err: Option<Code>)
      requires Valid()
      modifies this`heap
      ensures Valid() && Abs() == QueueSpec.ReportOutcome(old(Abs()), id, raw, err)
    {
      ReportKeeps(Abs(), id, raw, err);
      if id !in index || Terminal(heap[index[id]].phase) {
        return;
      }
      if err.Some? {
        Finish(index[id], Failed, raw, err);
      } else if heap[index[id]].phase == Resolving {
        Finish(index[id], Resolved, raw, None);
      }
    }

    method CancelRequest(id: string, code: Code)
      requires Valid()
      modifies this`heap
      ensures Valid() && Abs() == QueueSpec.CancelRequest(old(Abs()), id, code)
    {
      CancelKeeps(Abs(), id, code);
      if id in index {
        Finish(index[id], if code == DEADLINE_EXCEEDED then Expired else Cancelled, NoPayload, Some(code));
      }
    }

    method FinishRun(run: string, code: Code)
      requires Indexed(Abs())
      modifies this`heap
      ensures heap == QueueSpec.CancelRun(old(Abs()), run, code).heap
    {
      ghost var q := Abs();
      var rest := index.Keys;
      while rest != {}
        invariant rest <= index.Keys && |heap| == |q.heap|
        invariant forall h :: 0 <= h < |heap| ==>
                    heap[h] == if Listed(q, h) && q.heap[h].need.requestId !in rest && q.heap[h].run == run
                               then QueueSpec.Finish(q.heap[h], Cancelled, NoPayload, Some(code)) else q.heap[h]
      {
        var id :| id in rest;
        assert Listed(q, index[id]);
        if heap[index[id]].run == run {
          Finish(index[id], Cancelled, NoPayload, Some(code));
        }
        rest := rest - {id};
      }
    }

    method CancelRun(run: string, code: Code)
      requires Valid()
      modifies this`heap
      ensures Valid() && Abs() == QueueSpec.CancelRun(old(Abs()), run, code)
    {
      CancelRunKeeps(Abs(), run, code);
      FinishRun(run, code);
    }

    method DeleteEntries(run: string)
      requires Indexed(Abs())
      modifies this`index
      ensures index == old(index) - RunIds(old(Abs()), run)
    {
      ghost var q := Abs();
      ghost var mine := RunIds(q, run);
      var rest := index.Keys;
      while rest != {}
        invariant rest <= q.index.Keys
        invariant index == q.index - (mine - rest)
      {
        var id :| id in rest;
        if heap[index[id]].run == run {
          index := index - {id};
        }
        rest := rest - {id};
      }
      assert mine - {} == mine;
    }

    /** The second locked section of Forget. */
    method Drop(run: string)
      requires Valid()
      modifies this`index, this`owners
      ensures Valid() && Abs() == QueueSpec.Drop(old(Abs()), run)
    {
      DropKeeps(Abs(), run);
      DeleteEntries(run);
      owners := owners - {run};
    }

    method Capture(run: string, id: string) returns (reply: Reply<QueueSpec.Capture>)
      requires Valid()
      ensures reply == CaptureOf(Abs(), run, id)
    {
      if id !in index || heap[index[id]].run != run || heap[index[id]].phase != Resolved {
        return Err(INVALID_RESULT);
      }
      var e := heap[index[id]];
      reply := Ok(QueueSpec.Capture(e.candidate, e.need.context, e.response));
    }

    method Receive(h: nat) returns (raw: Json)
      requires Valid() && h < |heap| && heap[h].taken < |heap[h].sent|
      modifies this`heap
      ensures Valid() && Abs() == QueueSpec.Receive(old(Abs()), h)
      ensures raw == old(heap)[h].candidate
    {
      ReceiveKeeps(Abs(), h);
      assert heap[h].sent == [heap[h].candidate] by {
        assert EntryOk(heap[h]);
      }
      raw := heap[h].sent[heap[h].taken];
      heap := heap[h := heap[h].(taken := heap[h].taken + 1)];
    }
  }

  /** The three counts over the ids no longer in `rest`. */
  ghost predicate Counted(q: QueueSpec.Queue, run: string, rest: set<string>, active: nat, own: nat, total: nat)
    requires Indexed(q)
  {
    && active == |ActiveIds(q) - rest| && total == |RunIds(q, run) - rest|
    && own == |ActiveIds(q) * RunIds(q, run) - rest|
  }

  lemma CountOne(q: QueueSpec.Queue, run: string, rest: set<string>, active: nat, own: nat, total: nat, id: string)
    requires Indexed(q) && id in rest && id in q.index && Counted(q, run, rest, active, own, total)
    ensures var e := q.heap[q.index[id]]; var live, mine := !Terminal(e.phase), e.run == run;
            Counted(q, run, rest - {id}, if live then active + 1 else active, if live && mine then own + 1 else own,
                    if mine then total + 1 else total)
  {
    OneRemoved(ActiveIds(q), rest, id);
    OneRemoved(RunIds(q, run), rest, id);
    OneRemoved(ActiveIds(q) * RunIds(q, run), rest, id);
  }

  lemma CountAll(q: QueueSpec.Queue, run: string, active: nat, own: nat, total: nat)
    requires Indexed(q)
    ensures Counted(q, run, q.index.Keys, 0, 0, 0)
    ensures Counted(q, run, {}, active, own, total) ==>
              active == |ActiveIds(q)| && total == |RunIds(q, run)| && own == |ActiveIds(q) * RunIds(q, run)|
  {
    CountEnds(ActiveIds(q), q.index.Keys);
    CountEnds(RunIds(q, run), q.index.Keys);
    CountEnds(ActiveIds(q) * RunIds(q, run), q.index.Keys);
  }

  lemma CountEnds(all: set<string>, keys: set<string>)
    requires all <= keys
    ensures |all - keys| == 0 && |all - {}| == |all|
  {
    assert all - keys == {} && all - {} == all;
  }

  /** The scan of the first `n` ids. */
  ghost function ScanTo(q: QueueSpec.Queue, ids: seq<string>, n: nat, epoch: int, limit: int, now: int): Scanned
    requires Indexed(q) && n <= |ids| && forall id :: id in ids ==> id in q.index
  {
    ScanIds(q, ids[..n], epoch, limit, now)
  }

  lemma ScanEnds(q: QueueSpec.Queue, ids: seq<string>, epoch: int, limit: int, now: int)
    requires Indexed(q) && forall id :: id in ids ==> id in q.index
    ensures ScanTo(q, ids, 0, epoch, limit, now) == Scanned(q.heap, q.minted, [])
    ensures ScanTo(q, ids, |ids|, epoch, limit, now) == ScanIds(q, ids, epoch, limit, now)
  {
    assert ids[..|ids|] == ids;
  }

  lemma ScanNext(q: QueueSpec.Queue, ids: seq<string>, i: nat, epoch: int, limit: int, now: int)
    requires Indexed(q) && i < |ids| && forall id :: id in ids ==> id in q.index
    ensures |ScanTo(q, ids, i, epoch, limit, now).heap| == |q.heap| && q.index[ids[i]] < |q.heap|
    ensures ScanTo(q, ids, i + 1, epoch, limit, now)
         == ScanOne(ScanTo(q, ids, i, epoch, limit, now), q.index[ids[i]], epoch, limit, now)
  {
    hide ScanOne;
    assert ids[..i + 1][..i] == ids[..i];
  }

  lemma OneRemoved(all: set<string>, rest: set<string>, id: string)
    requires id in rest
    ensures |all - (rest - {id})| == |all - rest| + if id in all then 1 else 0
  {
    if id in all {
      assert all - (rest - {id}) == (all - rest) + {id};
    } else {
      assert all - (rest - {id}) == all - rest;
    }
  }
}
