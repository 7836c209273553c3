/** Who may be given a batch: the owner of the run, and how one becomes it. */
module QueueOwners {
  import opened Values
  import opened Sorting
  import opened Api
  import opened QueueSpec
  import opened QueueInvariant
  import opened QueueFrames
  import opened QueueRuns

  // ---- one call ----

  /** An entry of the run is between its acceptance and its outcome. */
  ghost predicate InFlight(q: Queue, run: string) {
    exists h :: 0 <= h < |q.heap| && Listed(q, h) && q.heap[h].run == run && q.heap[h].phase == Resolving
  }

  /** A takeover needs the current epoch and no candidate in flight; a known run needs its owner's
      token; an unknown run is there for who shows no token. */
  ghost predicate MayClaim(q: Queue, call: NextCall) {
    if call.takeover then call.run in q.owners && q.owners[call.run].epoch == call.expectedEpoch && !InFlight(q, call.run)
    else if call.run in q.owners then call.token == q.owners[call.run].token
    else call.token == 0
  }

  /** The owner such a call becomes or stays: a takeover raises the epoch, a new run starts at 1, and
      both draw the next token. */
  ghost function OwnerFor(q: Queue, call: NextCall): Owner {
    if call.takeover then Owner(q.minted + 1, OwnerOf(q, call.run).epoch + 1)
    else if call.run in q.owners then q.owners[call.run]
    else Owner(q.minted + 1, 1)
  }

  /** A call asks for one to eight entries of a named run and waits for at most two seconds. */
  ghost predicate Proper(call: NextCall) {
    call.run != "" && 1 <= call.limit <= 8 && 0 <= call.wait <= 2000
  }

  ghost function Refusal(call: NextCall): Code {
    if !Proper(call) then INVALID_ARGUMENT else if call.takeover then STATE_CONFLICT else OWNER_CONFLICT
  }

  lemma InFlightIsCommitting(q: Queue, run: string)
    requires Indexed(q)
    ensures InFlight(q, run) <==> Committing(q, run)
  {
    if InFlight(q, run) {
      var h :| 0 <= h < |q.heap| && Listed(q, h) && q.heap[h].run == run && q.heap[h].phase == Resolving;
      var id := q.heap[h].need.requestId;
      assert id in q.index && q.heap[q.index[id]].run == run;
    }
    if Committing(q, run) {
      var id :| id in q.index && q.heap[q.index[id]].run == run && q.heap[q.index[id]].phase == Resolving;
      assert Listed(q, q.index[id]);
    }
  }

  /** A call gets a batch exactly when it may claim the run. It is then the run's owner, and otherwise
      the refused call leaves the queue as it was. */
  lemma BatchOnlyForTheOwner(q: Queue, call: NextCall, now: int)
    requires QueueOk(q)
    ensures var (p, reply) := Next(q, call, now);
            if Proper(call) && MayClaim(q, call) then
              && reply.Ok? && reply.value.owner == OwnerFor(q, call)
              && call.run in p.owners && p.owners[call.run] == OwnerFor(q, call)
              && (forall other :: other != call.run ==> (other in p.owners <==> other in q.owners) && OwnerOf(p, other) == OwnerOf(q, other))
            else p == q && reply == Err(Refusal(call))
  {
    InFlightIsCommitting(q, call.run);
    hide Committing, ScanIds, SortedKeys, RunIds, ReleaseRun, QueueOk;
  }

  // ---- runs ----

  /** The i-th step gave the batch to this call. */
  ghost predicate GaveTo(r: Run, i: nat, call: NextCall)
    requires |r.events| == |r.batches| && i < |r.events|
  {
    r.events[i].DoNext? && r.events[i].call == call && r.batches[i].Some?
  }

  lemma NextIs(r: Run, i: nat)
    requires IsRun(r) && i < |r.events| && r.events[i].DoNext?
    ensures QueueOk(r.states[i].q)
    ensures var (p, reply) := Next(r.states[i].q, r.events[i].call, r.events[i].now);
            p == r.states[i + 1].q && r.batches[i] == if reply.Ok? then Some(reply.value) else None
  {
    OkAt(r, i);
    assert Follows(r, i);
    hide Next, QueueOk;
  }

  /** Over a run every call of Next is answered as it may claim, so a stranger gets neither the
      owner's token nor a lease. */
  lemma BatchesGoToOwners(r: Run, i: nat)
    requires IsRun(r) && i < |r.events| && r.events[i].DoNext?
    ensures var q, call := r.states[i].q, r.events[i].call;
            if Proper(call) && MayClaim(q, call)
            then r.batches[i].Some? && r.batches[i].value.owner == OwnerFor(q, call) == OwnerOf(r.states[i + 1].q, call.run)
            else r.batches[i].None? && r.states[i + 1].q == q
  {
    NextIs(r, i);
    BatchOnlyForTheOwner(r.states[i].q, r.events[i].call, r.events[i].now);
    hide Next, MayClaim, QueueOk;
  }

  /** A later pass of a call that waits goes to the owner it was told, while it still is. */
  lemma PassesGoToOwners(r: Run, i: nat)
    requires IsRun(r) && i < |r.events| && r.events[i].DoPass?
    ensures var q, e := r.states[i].q, r.events[i];
            if OwnerOf(q, e.run) == e.owner then r.batches[i].Some? && r.batches[i].value.owner == e.owner
            else r.batches[i].None? && r.states[i + 1].q == q
  {
    assert Follows(r, i);
    hide ScanIds, SortedKeys;
  }

  /** Besides claims only dropping the run changes its owner. */
  lemma OwnerStays(r: Run, i: nat, run: string)
    requires IsRun(r) && i < |r.events|
    requires !(r.events[i].DoNext? && r.events[i].call.run == run) && !(r.events[i].DoDrop? && r.events[i].run == run)
    ensures (run in r.states[i + 1].q.owners <==> run in r.states[i].q.owners)
    ensures OwnerOf(r.states[i + 1].q, run) == OwnerOf(r.states[i].q, run)
  {
    OkAt(r, i);
    assert Follows(r, i);
    if r.events[i].DoNext? {
      BatchOnlyForTheOwner(r.states[i].q, r.events[i].call, r.events[i].now);
    }
    hide Next, QueueOk, ScanIds, SortedKeys, Full, Committing;
  }

  /** Who owns a run was told so, with the token, in the batch of an earlier call for that run. */
  lemma {:induction false} OwnerWasTold(r: Run, n: nat, run: string) returns (m: nat)
    requires IsRun(r) && n < |r.states| && run in r.states[n].q.owners
    ensures m < n && r.events[m].DoNext? && r.events[m].call.run == run
    ensures r.batches[m].Some? && r.batches[m].value.owner == r.states[n].q.owners[run]
    ensures r.batches[m].value.owner.token > r.states[m].q.minted
    decreases n, 0
  {
    hide Follows, MayClaim, OwnerFor;
    var e := r.events[n - 1];
    if e.DoNext? && e.call.run == run {
      m := ToldNow(r, n - 1);
    } else {
      if e.DoDrop? && e.run == run {
        DropsForget(r, n - 1, run);
      }
      OwnerStays(r, n - 1, run);
      m := OwnerWasTold(r, n - 1, run);
    }
  }

  lemma DropsForget(r: Run, i: nat, run: string)
    requires IsRun(r) && i < |r.events| && r.events[i].DoDrop? && r.events[i].run == run
    ensures run !in r.states[i + 1].q.owners
  {
    assert Follows(r, i);
  }

  lemma {:induction false} ToldNow(r: Run, i: nat) returns (m: nat)
    requires IsRun(r) && i < |r.events| && r.events[i].DoNext? && r.events[i].call.run in r.states[i + 1].q.owners
    ensures var run := r.events[i].call.run;
            && m <= i && r.events[m].DoNext? && r.events[m].call.run == run
            && r.batches[m].Some? && r.batches[m].value.owner == r.states[i + 1].q.owners[run]
            && r.batches[m].value.owner.token > r.states[m].q.minted
    decreases i, 1
  {
    var q, call := r.states[i].q, r.events[i].call;
    BatchesGoToOwners(r, i);
    m := i;
    if call.run in q.owners && (!MayClaim(q, call) || !Proper(call) || !call.takeover) {
      m := OwnerWasTold(r, i, call.run);
    }
  }

  /** So nobody can get into a run without its token: a batch that does not take the run over, or
      open it, goes to a call that shows the token of an earlier batch of the same run. */
  lemma TokensComeFromBatches(r: Run, i: nat) returns (m: nat)
    requires IsRun(r) && i < |r.events| && r.events[i].DoNext? && r.batches[i].Some? && !r.events[i].call.takeover
    requires r.events[i].call.run in r.states[i].q.owners
    ensures m < i && r.events[m].DoNext? && r.events[m].call.run == r.events[i].call.run && r.batches[m].Some?
    ensures r.batches[m].value.owner == r.batches[i].value.owner && r.events[i].call.token == r.batches[m].value.owner.token
  {
    BatchesGoToOwners(r, i);
    m := OwnerWasTold(r, i, r.events[i].call.run);
  }
}
