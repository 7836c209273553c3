/** Runs: arbitrarily interleaved locked operations of any number of sessions. */
module StoreRuns {
  import opened Values
  import opened Schema
  import opened Plans
  import opened StoreSpec
  import opened StoreInvariant

  // ---- the shape of one statement ----

  ghost function OutcomeOf(s: State, e: Event, t: Table): Outcome
    requires e.DoExecute?
  {
    StatementOutcome(t, e.plan, e.params, ViewOf(s, e.sid), NextId(s, t.name))
  }

  /** The change set a statement computes in the current state. */
  ghost function ChangesOf(s: State, e: Event): Changes
    requires e.DoExecute?
  {
    match FindTable(s.tables, e.plan.table)
    case None => map[]
    case Some(t) => if OutcomeOf(s, e, t).Write? then OutcomeOf(s, e, t).changes else map[]
  }

  /** A statement that fails before its change set, or only reads, at most enters its session. */
  lemma ExecuteEnters(s: State, e: Event)
    requires WellFormed(s.tables) && e.DoExecute?
    requires e.early || !ParamsFit(e.plan, e.params) || e.plan.kind == Select || Entered(s, e.sid).readOnly
          || FindTable(s.tables, e.plan.table).None?
    ensures !Step(s, e).1.Done?
    ensures Step(s, e).0 == s || Step(s, e).0 == SetSession(s, e.sid, Entered(s, e.sid))
  {
  }

  lemma ExecuteWrites(s: State, e: Event)
    requires WellFormed(s.tables) && e.DoExecute?
    requires !e.early && ParamsFit(e.plan, e.params) && e.plan.kind != Select && !Entered(s, e.sid).readOnly
    requires FindTable(s.tables, e.plan.table).Some?
    ensures var t := FindTable(s.tables, e.plan.table).value; var o := OutcomeOf(s, e, t);
            Step(s, e) == Land(SetSession(s, e.sid, Entered(s, e.sid)), e.sid, t, e.plan, o,
                               Allowed(s.tables, ViewOf(s, e.sid), o), e.late)
  {
  }

  ghost predicate Lands(s: State, s': State, sid: string, changes: Changes)
    requires sid in s.sessions
  {
    var c := s.sessions[sid];
    && sid in s'.sessions && s'.tables == s.tables
    && s'.sessions == s.sessions[sid := s'.sessions[sid]]
    && s'.sessions[sid].active == c.active && s'.sessions[sid].autocommit == c.autocommit
    && (if c.active then
          && s'.committed == s.committed && s'.version == s.version
          && s'.sessions[sid].writes == c.writes + changes
          && s'.sessions[sid].base == Rebase(s.committed, c.base, changes)
        else
          && s'.committed == Install(s.committed, changes, s.version + 1) && s'.version == s.version + 1
          && s'.sessions[sid].writes == c.writes && s'.sessions[sid].base == c.base)
  }

  lemma LandShape(s: State, sid: string, t: Table, plan: Plan, o: Outcome, allowed: bool, late: bool)
    requires sid in s.sessions
    ensures var (s', v) := Land(s, sid, t, plan, o, allowed, late);
            if v.Done? then o.Write? && Lands(s, s', sid, o.changes) else s' == s.(nextIDs := s'.nextIDs)
  {
    var s2 := Allocate(s, plan, t, o.next);
    if o.Write? && allowed && !late {
      LandedShape(s, s2, sid, o.changes, o.insertId);
    }
    hide Install, Rebase, Lands;
  }

  lemma LandedShape(s: State, s2: State, sid: string, changes: Changes, insertId: int)
    requires sid in s.sessions && s2 == s.(nextIDs := s2.nextIDs)
    ensures var c := s.sessions[sid];
            var s3 := if c.active then Buffer(s2, sid, c, changes) else Publish(s2, changes);
            sid in s3.sessions && Lands(s, Remember(s3, sid, insertId), sid, changes)
  {
    hide Install, Rebase;
  }

  /** A statement either lands its change set or leaves everything but the allocator,
      its session's existence and its active flag alone. */
  lemma ExecuteShape(s: State, e: Event)
    requires WellFormed(s.tables) && e.DoExecute?
    ensures var entered := SetSession(s, e.sid, Entered(s, e.sid)); var s' := Step(s, e).0;
            if Step(s, e).1.Done? then Lands(entered, s', e.sid, ChangesOf(s, e))
            else s' == s || s' == entered.(nextIDs := s'.nextIDs)
  {
    if e.early || !ParamsFit(e.plan, e.params) || e.plan.kind == Select || Entered(s, e.sid).readOnly
       || FindTable(s.tables, e.plan.table).None? {
      ExecuteEnters(s, e);
    } else {
      ExecuteWrites(s, e);
      var t := FindTable(s.tables, e.plan.table).value;
      var o := OutcomeOf(s, e, t);
      LandShape(SetSession(s, e.sid, Entered(s, e.sid)), e.sid, t, e.plan, o, Allowed(s.tables, ViewOf(s, e.sid), o), e.late);
    }
  }

  // ---- which steps publish, and what ----

  ghost function FilledBy(s: State, e: Event): Changes
    requires e.DoFill?
  {
    match FindTable(s.tables, e.slot.table)
    case None => map[]
    case Some(t) =>
      match FillRows(t, e.slot, OpenKeys(e.slot), e.rows, Live(s.committed))
      case None => map[]
      case Some(changes) => changes
  }

  /** The statements of the session belong to a transaction: one was begun, or autocommit is off. */
  predicate InTransaction(s: State, sid: string) {
    SessionOf(s, sid).active || !SessionOf(s, sid).autocommit
  }

  /** The event asks its session to commit. */
  predicate Commits(s: State, e: Event) {
    e.DoCommit? || (e.DoSetAutocommit? && e.on && !SessionOf(s, e.sid).autocommit)
  }

  /** What a step with verdict `v` makes visible to everybody; `None` when it publishes nothing. */
  ghost function Published(s: State, e: Event, v: Verdict): Option<Changes> {
    if !v.Done? then None
    else if e.DoExecute? && !InTransaction(s, e.sid) then Some(ChangesOf(s, e))
    else if Commits(s, e) then Some(SessionOf(s, e.sid).writes)
    else if e.DoFill? then Some(FilledBy(s, e))
    else None
  }

  /** What a step with verdict `v` does to the committed rows. */
  ghost predicate Publishes(s: State, s': State, published: Option<Changes>) {
    && s'.tables == s.tables
    && match published
       case None => s'.committed == s.committed && s'.version == s.version
       case Some(c) => s'.committed == Install(s.committed, c, s.version + 1) && s'.version == s.version + 1
  }

  lemma CommitPublishes(s: State, sid: string)
    requires WellFormed(s.tables)
    ensures var (s', v) := Commit(s, sid); var c := SessionOf(s, sid);
            && Publishes(s, s', if v.Done? then Some(c.writes) else None)
            && s'.sessions == s.sessions[sid := Cleared(c)]
            && (v == Done(0, 0) || v == Aborted(Conflict))
  {
  }

  lemma SwitchPublishes(s: State, sid: string, on: bool)
    requires WellFormed(s.tables)
    ensures var (s', v) := SetAutocommit(s, sid, on); var c := SessionOf(s, sid);
            if on && !c.autocommit then
              && Publishes(s, s', if v.Done? then Some(c.writes) else None)
              && s'.sessions == s.sessions[sid := Cleared(c).(autocommit := v.Done?)]
            else
              s' == SetSession(s, sid, c.(autocommit := on)) && v == Done(0, 0)
  {
    CommitPublishes(s, sid);
    var c := SessionOf(s, sid);
    assert c.autocommit && on ==> c.(autocommit := on) == c;
    assert !c.autocommit ==> Cleared(c).(autocommit := false) == Cleared(c);
    assert s.sessions[sid := Cleared(c)][sid := Cleared(c).(autocommit := true)] == s.sessions[sid := Cleared(c).(autocommit := true)];
  }

  lemma FillPublishes(s: State, e: Event)
    requires WellFormed(s.tables) && e.DoFill?
    ensures var (s', v) := Fill(s, e.slot, e.rows);
            Publishes(s, s', if v.Done? then Some(FilledBy(s, e)) else None) && s'.sessions == s.sessions
  {
  }

  /** Committed data changes only by publishing, and then all at once under one new version. */
  lemma StepPublishes(s: State, e: Event)
    requires WellFormed(s.tables)
    ensures Publishes(s, Step(s, e).0, Published(s, e, Step(s, e).1))
  {
    hide Step, ChangesOf, Install;
    if e.DoExecute? {
      ExecuteShape(s, e);
    } else {
      ControlPublishes(s, e);
    }
  }

  lemma ControlPublishes(s: State, e: Event)
    requires WellFormed(s.tables) && !e.DoExecute?
    ensures Publishes(s, Step(s, e).0, Published(s, e, Step(s, e).1))
  {
    match e
    case DoCommit(sid) => CommitPublishes(s, sid);
    case DoSetAutocommit(sid, on) => SwitchPublishes(s, sid, on);
    case DoFill(_, _) => FillPublishes(s, e);
    case _ =>
  }

  ghost function SidOf(e: Event): Option<string> {
    if e.DoFill? then None else Some(e.sid)
  }

  /** The event ends the session's transaction. */
  predicate Ends(s: State, e: Event, sid: string) {
    !e.DoFill? && e.sid == sid && (e.DoRollback? || e.DoClose? || Commits(s, e))
  }

  /** A step other than a statement leaves every overlay alone, or ends its own session's transaction. */
  lemma ControlKeepsOverlays(s: State, e: Event, sid: string)
    requires WellFormed(s.tables) && !e.DoExecute?
    ensures var c, c' := SessionOf(s, sid), SessionOf(Step(s, e).0, sid);
            && (SidOf(e) != Some(sid) ==> c' == c)
            && (if Ends(s, e, sid) then c'.writes == map[] && c'.base == map[] && !c'.active
                else c'.writes == c.writes && c'.base == c.base)
  {
    hide Publishes, Commit, SetAutocommit, Fill;
    match e
    case DoCommit(x) => CommitPublishes(s, x);
    case DoSetAutocommit(x, on) => SwitchPublishes(s, x, on);
    case DoFill(_, _) => FillPublishes(s, e);
    case _ => SettingKeepsOverlays(s, e, sid);
  }

  lemma SettingKeepsOverlays(s: State, e: Event, sid: string)
    requires WellFormed(s.tables) && !e.DoExecute? && !e.DoCommit? && !e.DoSetAutocommit? && !e.DoFill?
    ensures var c, c' := SessionOf(s, sid), SessionOf(Step(s, e).0, sid);
            && (SidOf(e) != Some(sid) ==> c' == c)
            && (if Ends(s, e, sid) then c'.writes == map[] && c'.base == map[] && !c'.active
                else c'.writes == c.writes && c'.base == c.base)
  {
  }

  /** A step touches no session but its own. */
  lemma OthersKeepSession(s: State, e: Event, sid: string)
    requires WellFormed(s.tables) && SidOf(e) != Some(sid)
    ensures SessionOf(Step(s, e).0, sid) == SessionOf(s, sid)
  {
    if e.DoExecute? {
      ExecuteShape(s, e);
    } else {
      ControlKeepsOverlays(s, e, sid);
    }
  }

  // ---- statement atomicity ----

  /** A failing statement leaves the data, the version and every session's writes and bases as
      they were; only the allocator, session creation and the active flag may have moved. */
  lemma FailedStatementChangesNothing(s: State, e: Event)
    requires WellFormed(s.tables) && e.DoExecute? && Step(s, e).1.Aborted?
    ensures var s' := Step(s, e).0;
            && s'.tables == s.tables && s'.committed == s.committed && s'.version == s.version
            && (forall sid :: SessionOf(s', sid) == SessionOf(s, sid)
                           || (sid == e.sid && SessionOf(s', sid) == SessionOf(s, sid).(active := true)))
  {
    ExecuteShape(s, e);
  }

  /** A transaction that wrote nothing always commits. */
  lemma ReadOnlyCommitSucceeds(s: State, sid: string)
    requires Inv(s) && SessionOf(s, sid).writes == map[]
    ensures Commit(s, sid).1 == Done(0, 0)
  {
    ViewIsTidy(s, sid);
    OverlayNothing(Live(s.committed));
  }

  // ---- runs ----

  /** States and the events between them, each with its verdict, the change set its statement
      computed, and what it published. */
  datatype Run = Run(
    states: seq<State>,
    events: seq<Event>,
    verdicts: seq<Verdict>,
    computed: seq<Changes>,
    published: seq<Option<Changes>>)

  predicate Sized(r: Run) {
    |r.states| == |r.events| + 1 == |r.verdicts| + 1 == |r.computed| + 1 == |r.published| + 1
  }

  ghost predicate Follows(r: Run, i: nat)
    requires Sized(r) && i < |r.events|
  {
    && WellFormed(r.states[i].tables)
    && EventOk(r.states[i].tables, r.events[i])
    && (r.states[i + 1], r.verdicts[i]) == Step(r.states[i], r.events[i])
    && r.computed[i] == (if r.events[i].DoExecute? then ChangesOf(r.states[i], r.events[i]) else map[])
    && r.published[i] == Published(r.states[i], r.events[i], r.verdicts[i])
  }

  ghost predicate IsRun(r: Run) {
    && Sized(r)
    && Inv(r.states[0])
    && forall i {:trigger Follows(r, i)} :: 0 <= i < |r.events| ==> Follows(r, i)
  }

  /** The run starts with no session. */
  ghost predicate Starts(r: Run) {
    IsRun(r) && r.states[0].sessions == map[]
  }

  lemma {:induction false} InvAt(r: Run, n: nat)
    requires IsRun(r) && n < |r.states|
    ensures Inv(r.states[n]) && r.states[n].tables == r.states[0].tables
  {
    hide Step, Inv, EventOk;
    if n > 0 {
      InvAt(r, n - 1);
      assert Follows(r, n - 1);
      StepKeepsInv(r.states[n - 1], r.events[n - 1]);
      StepPublishes(r.states[n - 1], r.events[n - 1]);
    }
  }

  /** Every reachable committed view satisfies every constraint of the schema. */
  lemma CommittedAlwaysConsistent(r: Run, n: nat)
    requires IsRun(r) && n < |r.states|
    ensures ViewConsistent(r.states[0].tables, Live(r.states[n].committed))
    ensures AllTidy(r.states[0].tables, Live(r.states[n].committed))
  {
    InvAt(r, n);
  }

  function Shown(published: Option<Changes>): Changes {
    match published case None => map[] case Some(c) => c
  }

  lemma HistoryStep(r: Run, i: nat)
    requires IsRun(r) && i < |r.events|
    ensures Live(r.states[i + 1].committed) == Overlay(Live(r.states[i].committed), Shown(r.published[i]))
  {
    hide Step, Live, Overlay, Install, EventOk;
    assert Follows(r, i);
    var s := r.states[i];
    StepPublishes(s, r.events[i]);
    LiveOfInstall(s.committed, Shown(r.published[i]), s.version + 1);
    OverlayNothing(Live(s.committed));
  }

  // ---- READ COMMITTED ----

  /** Another session's step changes what a session reads exactly by what it publishes,
      and under the session's own writes. */
  lemma OnlyPublishingIsVisible(r: Run, i: nat, sid: string)
    requires IsRun(r) && i < |r.events| && SidOf(r.events[i]) != Some(sid)
    ensures ViewOf(r.states[i + 1], sid)
         == Overlay(Overlay(Live(r.states[i].committed), Shown(r.published[i])), SessionOf(r.states[i], sid).writes)
    ensures r.published[i].None? ==> ViewOf(r.states[i + 1], sid) == ViewOf(r.states[i], sid)
  {
    assert Follows(r, i);
    HistoryStep(r, i);
    OthersKeepSession(r.states[i], r.events[i], sid);
    OverlayNothing(Live(r.states[i].committed));
  }

  /** A successful commit makes the committed view exactly what the session read, and a failed
      one drops the session's writes and leaves the committed rows alone. */
  lemma CommitPublishesTheView(s: State, e: Event)
    requires WellFormed(s.tables) && Commits(s, e)
    ensures var (s', v) := Step(s, e);
            && (v.Done? ==> Live(s'.committed) == ViewOf(s, e.sid))
            && (v.Aborted? ==> s'.committed == s.committed && s'.version == s.version)
            && SessionOf(s', e.sid).writes == map[] && SessionOf(s', e.sid).base == map[] && !SessionOf(s', e.sid).active
            && ViewOf(s', e.sid) == Live(s'.committed)
  {
    hide Step, Live, Overlay, Install;
    StepPublishes(s, e);
    ControlKeepsOverlays(s, e, e.sid);
    LiveOfInstall(s.committed, SessionOf(s, e.sid).writes, s.version + 1);
    OverlayNothing(Live(Step(s, e).0.committed));
    CommitVerdictShape(s, e);
  }

  lemma CommitVerdictShape(s: State, e: Event)
    requires WellFormed(s.tables) && Commits(s, e)
    ensures Step(s, e).1 == Done(0, 0) || Step(s, e).1 == Aborted(Conflict)
  {
  }

  lemma LandedView(s: State, s': State, sid: string, changes: Changes)
    requires sid in s.sessions && Lands(s, s', sid, changes)
    requires !s.sessions[sid].active ==> s.sessions[sid].writes == map[]
    ensures ViewOf(s', sid) == Overlay(ViewOf(s, sid), changes)
  {
    hide Live, Overlay, Install, Rebase;
    if s.sessions[sid].active {
      OverlayTwice(Live(s.committed), s.sessions[sid].writes, changes);
    } else {
      LiveOfInstall(s.committed, changes, s.version + 1);
      OverlayNothing(Live(s.committed));
      OverlayNothing(Live(s'.committed));
    }
  }

  /** A successful statement changes what its session reads by exactly its change set; inside a
      transaction nobody else can see it. */
  lemma StatementChangesTheView(r: Run, i: nat)
    requires IsRun(r) && i < |r.events| && r.events[i].DoExecute? && r.verdicts[i].Done?
    ensures ViewOf(r.states[i + 1], r.events[i].sid) == Overlay(ViewOf(r.states[i], r.events[i].sid), r.computed[i])
    ensures InTransaction(r.states[i], r.events[i].sid) ==> r.states[i + 1].committed == r.states[i].committed
  {
    var s, e := r.states[i], r.events[i];
    InvAt(r, i);
    ViewIsTidy(s, e.sid);
    assert Follows(r, i);
    ExecuteShape(s, e);
    LandedView(SetSession(s, e.sid, Entered(s, e.sid)), r.states[i + 1], e.sid, r.computed[i]);
  }

  /** The event buffers a change set in the session's overlay. */
  predicate Buffers(s: State, e: Event, v: Verdict, sid: string) {
    e.DoExecute? && e.sid == sid && v.Done? && InTransaction(s, sid)
  }

  lemma StepKeepsOwnWrites(s: State, e: Event, sid: string)
    requires WellFormed(s.tables)
    ensures SessionOf(Step(s, e).0, sid).writes ==
            if Ends(s, e, sid) then map[]
            else if Buffers(s, e, Step(s, e).1, sid) then SessionOf(s, sid).writes + ChangesOf(s, e)
            else SessionOf(s, sid).writes
  {
    hide Step, ChangesOf, Install, Rebase;
    if e.DoExecute? {
      ExecuteShape(s, e);
    } else {
      ControlKeepsOverlays(s, e, sid);
    }
  }

  /** The rows everybody sees, from the history alone: the initial rows under the published
      change sets in order. */
  ghost function CommittedHistory(r: Run, n: nat): View
    requires Sized(r) && n < |r.states|
  {
    if n == 0 then Live(r.states[0].committed) else Overlay(CommittedHistory(r, n - 1), Shown(r.published[n - 1]))
  }

  /** What event `i` does to a session's own writes so far. */
  ghost function OwnStep(r: Run, i: nat, sid: string, own: Changes): Changes
    requires Sized(r) && i < |r.events|
  {
    if Ends(r.states[i], r.events[i], sid) then map[]
    else if Buffers(r.states[i], r.events[i], r.verdicts[i], sid) then own + r.computed[i]
    else own
  }

  /** A session's own uncommitted writes, from the history alone. */
  ghost function OwnWrites(r: Run, n: nat, sid: string): Changes
    requires Sized(r) && n < |r.states|
  {
    if n == 0 then map[] else OwnStep(r, n - 1, sid, OwnWrites(r, n - 1, sid))
  }

  lemma OwnWritesStep(r: Run, i: nat, sid: string)
    requires IsRun(r) && i < |r.events|
    ensures SessionOf(r.states[i + 1], sid).writes == OwnStep(r, i, sid, SessionOf(r.states[i], sid).writes)
  {
    assert Follows(r, i);
    StepKeepsOwnWrites(r.states[i], r.events[i], sid);
  }

  lemma {:induction false} OwnWritesAreTheOverlay(r: Run, n: nat, sid: string)
    requires Starts(r) && n < |r.states|
    ensures SessionOf(r.states[n], sid).writes == OwnWrites(r, n, sid)
  {
    if n > 0 {
      OwnWritesAreTheOverlay(r, n - 1, sid);
      OwnWritesStep(r, n - 1, sid);
    }
  }

  lemma {:induction false} HistoryIsTheCommittedView(r: Run, n: nat)
    requires IsRun(r) && n < |r.states|
    ensures Live(r.states[n].committed) == CommittedHistory(r, n)
  {
    if n > 0 {
      HistoryIsTheCommittedView(r, n - 1);
      HistoryStep(r, n - 1);
    }
  }

  /** READ COMMITTED: after any run a session reads the latest committed rows, as the history
      published them, overlaid with its own writes of the current transaction. */
  lemma ReadCommitted(r: Run, n: nat, sid: string)
    requires Starts(r) && n < |r.states|
    ensures Live(r.states[n].committed) == CommittedHistory(r, n)
    ensures ViewOf(r.states[n], sid) == Overlay(CommittedHistory(r, n), OwnWrites(r, n, sid))
  {
    HistoryIsTheCommittedView(r, n);
    OwnWritesAreTheOverlay(r, n, sid);
  }

  // ---- first committer wins ----

  function RecordOf(s: State, id: Id): Option<Record> {
    if id in s.committed then Some(s.committed[id]) else None
  }

  /** A step either leaves a record alone or gives it a strictly larger version. */
  lemma RecordStep(r: Run, i: nat, id: Id)
    requires IsRun(r) && i < |r.events|
    ensures RecordOf(r.states[i + 1], id) == RecordOf(r.states[i], id)
         || VersionOf(r.states[i + 1].committed, id) > VersionOf(r.states[i].committed, id)
  {
    assert Follows(r, i);
    InvAt(r, i);
    StepPublishes(r.states[i], r.events[i]);
  }

  /** Versions never go back, and a version identifies the record: deleting and reinserting a
      row cannot bring an old version back. */
  lemma {:induction false} VersionIdentifiesRecord(r: Run, i: nat, j: nat, id: Id)
    requires IsRun(r) && i <= j < |r.states|
    ensures VersionOf(r.states[i].committed, id) <= VersionOf(r.states[j].committed, id)
    ensures VersionOf(r.states[i].committed, id) == VersionOf(r.states[j].committed, id) ==>
              RecordOf(r.states[i], id) == RecordOf(r.states[j], id)
  {
    if i < j {
      VersionIdentifiesRecord(r, i, j - 1, id);
      RecordStep(r, j - 1, id);
    }
  }

  /** No step from the i-th up to the n-th changed the committed record of `id`. */
  ghost predicate Untouched(r: Run, i: nat, n: nat, id: Id)
    requires i <= n < |r.states|
  {
    forall j :: i <= j <= n ==> RecordOf(r.states[j], id) == RecordOf(r.states[i], id)
  }

  lemma UntouchedIffSameVersion(r: Run, i: nat, n: nat, id: Id)
    requires IsRun(r) && i <= n < |r.states|
    ensures Untouched(r, i, n, id) <==> VersionOf(r.states[i].committed, id) == VersionOf(r.states[n].committed, id)
  {
    if VersionOf(r.states[i].committed, id) == VersionOf(r.states[n].committed, id) {
      forall j | i <= j <= n ensures RecordOf(r.states[j], id) == RecordOf(r.states[i], id) {
        VersionIdentifiesRecord(r, i, j, id);
        VersionIdentifiesRecord(r, j, n, id);
      }
    }
  }

  /** The event during which the session's current transaction first wrote `id`. */
  ghost function FirstWrite(r: Run, n: nat, sid: string, id: Id): (i: nat)
    requires n < |r.states|
    ensures i <= n
  {
    if n == 0 then 0
    else if id in SessionOf(r.states[n - 1], sid).writes then FirstWrite(r, n - 1, sid, id)
    else n - 1
  }

  /** A key enters the bases with the version committed at that moment and keeps it. */
  lemma StepKeepsBase(s: State, e: Event, sid: string, id: Id)
    requires WellFormed(s.tables) && id in SessionOf(Step(s, e).0, sid).base
    ensures SessionOf(Step(s, e).0, sid).base[id]
         == if id in SessionOf(s, sid).base then SessionOf(s, sid).base[id] else VersionOf(s.committed, id)
  {
    if e.DoExecute? {
      ExecuteShape(s, e);
    } else {
      ControlKeepsOverlays(s, e, sid);
    }
  }

  lemma BaseStep(r: Run, i: nat, sid: string, id: Id)
    requires IsRun(r) && i < |r.events| && id in SessionOf(r.states[i + 1], sid).base
    ensures SessionOf(r.states[i + 1], sid).base[id]
         == if id in SessionOf(r.states[i], sid).base then SessionOf(r.states[i], sid).base[id]
            else VersionOf(r.states[i].committed, id)
  {
    assert Follows(r, i);
    StepKeepsBase(r.states[i], r.events[i], sid, id);
  }

  lemma WritesHaveBases(r: Run, n: nat, sid: string)
    requires IsRun(r) && n < |r.states|
    ensures SessionOf(r.states[n], sid).writes.Keys == SessionOf(r.states[n], sid).base.Keys
  {
    InvAt(r, n);
    ViewIsTidy(r.states[n], sid);
  }

  lemma {:induction false} BaseIsFirstSeen(r: Run, n: nat, sid: string, id: Id)
    requires Starts(r) && n < |r.states| && id in SessionOf(r.states[n], sid).base
    ensures SessionOf(r.states[n], sid).base[id] == VersionOf(r.states[FirstWrite(r, n, sid, id)].committed, id)
  {
    if n > 0 {
      BaseStep(r, n - 1, sid, id);
      WritesHaveBases(r, n - 1, sid);
      if id in SessionOf(r.states[n - 1], sid).writes {
        BaseIsFirstSeen(r, n - 1, sid, id);
      }
    }
  }

  lemma CommitVerdict(r: Run, n: nat)
    requires IsRun(r) && n < |r.events| && Commits(r.states[n], r.events[n])
    ensures WellFormed(r.states[n].tables)
    ensures r.verdicts[n].Done? <==> CommitAllowed(r.states[n], SessionOf(r.states[n], r.events[n].sid))
  {
    assert Follows(r, n);
  }

  /** First committer wins, with no ABA: a COMMIT succeeds exactly when no step since the first
      write of each of its keys changed that key's committed record — by update, insert, delete,
      or delete and reinsert — and the resulting rows satisfy the constraints. */
  lemma FirstCommitterWins(r: Run, n: nat)
    requires Starts(r) && n < |r.events| && Commits(r.states[n], r.events[n])
    ensures WellFormed(r.states[n].tables)
    ensures var s, sid := r.states[n], r.events[n].sid;
            r.verdicts[n].Done? <==>
            && (forall id :: id in SessionOf(s, sid).writes ==> Untouched(r, FirstWrite(r, n, sid, id), n, id))
            && ViewConsistent(s.tables, ViewOf(s, sid))
  {
    var s, sid := r.states[n], r.events[n].sid;
    var c := SessionOf(s, sid);
    CommitVerdict(r, n);
    WritesHaveBases(r, n, sid);
    forall id | id in c.base
      ensures VersionOf(s.committed, id) == c.base[id] <==> Untouched(r, FirstWrite(r, n, sid, id), n, id)
    {
      BaseIsFirstSeen(r, n, sid, id);
      UntouchedIffSameVersion(r, FirstWrite(r, n, sid, id), n, id);
    }
  }
}
