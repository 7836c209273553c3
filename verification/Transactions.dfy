/** Transactions over runs: a session's settings from its own history, and rollback without a trace. */
module Transactions {
  import opened Values
  import opened Schema
  import opened Plans
  import opened StoreSpec
  import opened StoreInvariant
  import opened StoreRuns

  // ---- what a session is set to ----

  /** `begun` says that a transaction is open. */
  datatype Settings = Settings(autocommit: bool, begun: bool, foundRows: bool, readOnly: bool, lastInsert: int)

  const FRESH := Settings(true, false, false, false, 0)

  /** A statement that is cancelled or called with wrong parameters does not reach its session. */
  predicate Reaches(e: Event)
    requires e.DoExecute?
  {
    !e.early && ParamsFit(e.plan, e.params)
  }

  /** What an event of the session itself, with its verdict, does to the settings. */
  function Set(g: Settings, e: Event, v: Verdict): Settings {
    match e
    case DoBegin(_) => g.(begun := true)
    case DoCommit(_) => g.(begun := false)
    case DoRollback(_) => g.(begun := false)
    case DoClose(_) => FRESH
    case DoOpen(_, foundRows) => g.(foundRows := foundRows)
    case DoSetReadOnly(_, on) => g.(readOnly := on)
    case DoSetAutocommit(_, on) =>
      if !on then g.(autocommit := false)
      else if g.autocommit then g
      else g.(autocommit := v.Done?, begun := false)
    case DoExecute(_, _, _, _, _) =>
      var h := if Reaches(e) && !g.autocommit then g.(begun := true) else g;
      if v.Done? && v.insertId != 0 then h.(lastInsert := v.insertId) else h
    case DoFill(_, _) => g
  }

  /** The settings of a session after `n` events, from its own events and their verdicts alone. */
  ghost function SettingsAfter(r: Run, n: nat, sid: string): Settings
    requires Sized(r) && n < |r.states|
  {
    if n == 0 then FRESH
    else if SidOf(r.events[n - 1]) != Some(sid) then SettingsAfter(r, n - 1, sid)
    else Set(SettingsAfter(r, n - 1, sid), r.events[n - 1], r.verdicts[n - 1])
  }

  function SettingsOf(c: Session): Settings {
    Settings(c.autocommit, c.active, c.foundRows, c.readOnly, c.lastInsert)
  }

  lemma LandSets(s: State, sid: string, t: Table, plan: Plan, o: Outcome, allowed: bool, late: bool)
    requires sid in s.sessions
    ensures var (s', v) := Land(s, sid, t, plan, o, allowed, late); var c := s.sessions[sid];
            sid in s'.sessions && SettingsOf(s'.sessions[sid])
              == if v.Done? && v.insertId != 0 then SettingsOf(c).(lastInsert := v.insertId) else SettingsOf(c)
  {
    hide Install, Rebase;
  }

  lemma ExecuteSets(s: State, e: Event)
    requires WellFormed(s.tables) && e.DoExecute?
    ensures SettingsOf(SessionOf(Step(s, e).0, e.sid)) == Set(SettingsOf(SessionOf(s, e.sid)), e, Step(s, e).1)
  {
    hide StatementOutcome, Land;
    if Reaches(e) && e.plan.kind != Select && !Entered(s, e.sid).readOnly && FindTable(s.tables, e.plan.table).Some? {
      ExecuteWrites(s, e);
      var t := FindTable(s.tables, e.plan.table).value;
      var o := OutcomeOf(s, e, t);
      LandSets(SetSession(s, e.sid, Entered(s, e.sid)), e.sid, t, e.plan, o, Allowed(s.tables, ViewOf(s, e.sid), o), e.late);
    }
  }

  lemma ControlSets(s: State, e: Event)
    requires WellFormed(s.tables) && !e.DoExecute? && !e.DoFill?
    ensures SettingsOf(SessionOf(Step(s, e).0, e.sid)) == Set(SettingsOf(SessionOf(s, e.sid)), e, Step(s, e).1)
  {
    hide Commit, SetAutocommit, Publishes;
    match e
    case DoCommit(sid) => CommitPublishes(s, sid);
    case DoSetAutocommit(sid, on) => SwitchPublishes(s, sid, on);
    case _ =>
  }

  /** Every session is set as its own events say, whatever the other sessions do. */
  lemma {:induction false} SettingsAreHistory(r: Run, n: nat, sid: string)
    requires Starts(r) && n < |r.states|
    ensures SettingsOf(SessionOf(r.states[n], sid)) == SettingsAfter(r, n, sid)
  {
    hide Step, Inv, EventOk, ChangesOf, Published;
    if n > 0 {
      SettingsAreHistory(r, n - 1, sid);
      var s, e := r.states[n - 1], r.events[n - 1];
      assert Follows(r, n - 1);
      if SidOf(e) != Some(sid) {
        OthersKeepSession(s, e, sid);
      } else if e.DoExecute? {
        ExecuteSets(s, e);
      } else {
        ControlSets(s, e);
      }
    }
  }

  /** BEGIN is refused exactly inside a transaction that was begun; rollback, close and the
      settings never fail. */
  lemma ControlVerdicts(r: Run, i: nat)
    requires Starts(r) && i < |r.events| && !r.events[i].DoExecute? && !r.events[i].DoFill?
    ensures var e, v := r.events[i], r.verdicts[i];
            && (e.DoBegin? ==> (v == if SettingsAfter(r, i, e.sid).begun then Aborted(Refused) else Done(0, 0)))
            && (!e.DoBegin? && !Commits(r.states[i], e) ==> v == Done(0, 0))
  {
    SettingsAreHistory(r, i, r.events[i].sid);
    assert Follows(r, i);
  }

  // ---- a statement inside a transaction ----

  ghost predicate KeepsToItself(s: State, s': State, sid: string, changes: Changes, inside: bool) {
    var c := SessionOf(s', sid);
    if inside then
      && s'.committed == s.committed && s'.version == s.version
      && c.active && c.writes == SessionOf(s, sid).writes + changes
    else
      && Live(s'.committed) == Overlay(Live(s.committed), changes)
      && !c.active && c.writes == map[]
  }

  lemma StatementKeepsToItself(s: State, e: Event)
    requires Inv(s) && e.DoExecute? && Step(s, e).1.Done?
    ensures KeepsToItself(s, Step(s, e).0, e.sid, ChangesOf(s, e), InTransaction(s, e.sid))
  {
    ExecuteShape(s, e);
    ViewIsTidy(s, e.sid);
    hide *;
    LandedKeepsToItself(s, Step(s, e).0, e.sid, ChangesOf(s, e));
  }

  lemma LandedKeepsToItself(s: State, s': State, sid: string, changes: Changes)
    requires Lands(SetSession(s, sid, Entered(s, sid)), s', sid, changes)
    requires WellFormed(s.tables) && SessionOk(s, SessionOf(s, sid))
    ensures KeepsToItself(s, s', sid, changes, InTransaction(s, sid))
  {
    LiveOfInstall(s.committed, changes, s.version + 1);
    hide Live, Overlay, Install, Rebase, WritesTidy, VersionOf, WellFormed;
  }

  /** A successful statement of a session in a transaction leaves the committed rows alone, and the
      session in its transaction, with the change set among its own writes; outside a transaction the
      change set is committed at once. */
  lemma TransactionKeepsToItself(r: Run, i: nat)
    requires Starts(r) && i < |r.events| && r.events[i].DoExecute? && r.verdicts[i].Done?
    ensures var sid := r.events[i].sid; var g := SettingsAfter(r, i, sid);
            KeepsToItself(r.states[i], r.states[i + 1], sid, r.computed[i], g.begun || !g.autocommit)
  {
    SettingsAreHistory(r, i, r.events[i].sid);
    InvAt(r, i);
    assert Follows(r, i);
    hide Step, ChangesOf, Inv, EventOk, Published, KeepsToItself;
    StatementKeepsToItself(r.states[i], r.events[i]);
  }

  // ---- rollback ----

  /** From the i-th state on the session is in one transaction, which no event before the n-th ends. */
  ghost predicate OneTransaction(r: Run, i: nat, n: nat, sid: string)
    requires Sized(r) && i <= n < |r.states|
  {
    InTransaction(r.states[i], sid) && forall k :: i <= k < n ==> !Ends(r.states[k], r.events[k], sid)
  }

  lemma TransactionGoesOn(r: Run, i: nat, sid: string)
    requires IsRun(r) && i < |r.events| && InTransaction(r.states[i], sid) && !Ends(r.states[i], r.events[i], sid)
    ensures InTransaction(r.states[i + 1], sid)
  {
    var s, e := r.states[i], r.events[i];
    assert Follows(r, i);
    if SidOf(e) != Some(sid) {
      OthersKeepSession(s, e, sid);
    } else if e.DoExecute? {
      ExecuteSets(s, e);
    } else {
      ControlSets(s, e);
    }
    hide Step;
  }

  lemma {:induction false} StillInTransaction(r: Run, i: nat, n: nat, sid: string)
    requires IsRun(r) && i <= n < |r.states| && OneTransaction(r, i, n, sid)
    ensures InTransaction(r.states[n], sid)
  {
    if i < n {
      StillInTransaction(r, i, n - 1, sid);
      TransactionGoesOn(r, n - 1, sid);
    }
  }

  /** The committed rows of the i-th state under what everybody but the session published since. */
  ghost function WithoutSession(r: Run, i: nat, n: nat, sid: string): View
    requires Sized(r) && i <= n < |r.states|
  {
    if n == i then Live(r.states[i].committed)
    else if SidOf(r.events[n - 1]) == Some(sid) then WithoutSession(r, i, n - 1, sid)
    else Overlay(WithoutSession(r, i, n - 1, sid), Shown(r.published[n - 1]))
  }

  lemma OwnStepShowsNothing(r: Run, i: nat, sid: string)
    requires IsRun(r) && i < |r.events| && SidOf(r.events[i]) == Some(sid) && InTransaction(r.states[i], sid)
    requires Ends(r.states[i], r.events[i], sid) ==> r.events[i].DoRollback? || r.events[i].DoClose?
    ensures r.published[i].None?
  {
    assert Follows(r, i);
    hide Step, ChangesOf;
  }

  /** Nobody else ever sees a transaction that is rolled back or left by a disconnect: up to its end
      and after it the committed rows are those of its beginning under what others published, and
      the session reads just those. */
  lemma {:induction false} RollbackLeavesNoTrace(r: Run, i: nat, n: nat, sid: string)
    requires IsRun(r) && i <= n < |r.events| && OneTransaction(r, i, n, sid)
    requires SidOf(r.events[n]) == Some(sid) && (r.events[n].DoRollback? || r.events[n].DoClose?)
    ensures forall m :: i <= m <= n + 1 ==> Live(r.states[m].committed) == WithoutSession(r, i, m, sid)
    ensures ViewOf(r.states[n + 1], sid) == WithoutSession(r, i, n + 1, sid)
  {
    forall m | i <= m <= n ensures Live(r.states[m].committed) == WithoutSession(r, i, m, sid) {
      OthersAlonePublish(r, i, m, sid);
    }
    StillInTransaction(r, i, n, sid);
    hide Step, Live, Overlay, Follows, InTransaction, Ends, EventOk;
    EndsUnseen(r, n, sid);
  }

  /** A rollback or close shows nothing to anybody and leaves the session with the committed rows. */
  lemma EndsUnseen(r: Run, n: nat, sid: string)
    requires IsRun(r) && n < |r.events| && InTransaction(r.states[n], sid)
    requires SidOf(r.events[n]) == Some(sid) && (r.events[n].DoRollback? || r.events[n].DoClose?)
    ensures Live(r.states[n + 1].committed) == Live(r.states[n].committed)
    ensures ViewOf(r.states[n + 1], sid) == Live(r.states[n + 1].committed)
  {
    OwnStepShowsNothing(r, n, sid);
    HistoryStep(r, n);
    OverlayNothing(Live(r.states[n].committed));
    assert Follows(r, n);
    ControlKeepsOverlays(r.states[n], r.events[n], sid);
    OverlayNothing(Live(r.states[n + 1].committed));
    hide Step, Live, Overlay, Follows;
  }

  lemma {:induction false} OthersAlonePublish(r: Run, i: nat, n: nat, sid: string)
    requires IsRun(r) && i <= n < |r.states| && OneTransaction(r, i, n, sid)
    ensures Live(r.states[n].committed) == WithoutSession(r, i, n, sid)
  {
    hide Step, Live, Overlay, Follows;
    if i < n {
      OthersAlonePublish(r, i, n - 1, sid);
      HistoryStep(r, n - 1);
      if SidOf(r.events[n - 1]) == Some(sid) {
        StillInTransaction(r, i, n - 1, sid);
        OwnStepShowsNothing(r, n - 1, sid);
        OverlayNothing(Live(r.states[n - 1].committed));
      }
    }
  }
}
