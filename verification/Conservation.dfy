/** Conservation of increments over every interleaved run. */
module Conservation {
  import opened Values
  import opened Schema
  import opened Plans
  import opened StoreSpec
  import opened StoreInvariant
  import opened StoreRuns

  // ---- one column of one record ----

  /** The record and the BIGINT column that is followed. */
  datatype Counter = Counter(id: Id, column: string)

  function Num(k: Counter, row: Row): Option<int> {
    Cell(row, k.column).AsInt64()
  }

  /** The amount an assignment adds to the column. */
  function DeltaOne(k: Counter, a: Assignment, params: seq<Value>): int {
    if a.column != k.column then 0
    else match OperandValue(a.value, params) case None => 0 case Some(v) => NumberOf(v)
  }

  /** The amount a list of assignments adds to the column. */
  function DeltaOf(k: Counter, assignments: seq<Assignment>, params: seq<Value>): int
    decreases |assignments|
  {
    if assignments == [] then 0 else DeltaOne(k, assignments[0], params) + DeltaOf(k, assignments[1..], params)
  }

  /** Assignments write the column only as `column = column + value`. */
  ghost predicate Disciplined(k: Counter, assignments: seq<Assignment>) {
    k.column != "" && forall i :: 0 <= i < |assignments| && assignments[i].column == k.column ==> assignments[i].addFrom == k.column
  }

  lemma AssignedSum(k: Counter, row: Row, a: Assignment, params: seq<Value>, v: Value)
    requires a.column == a.addFrom == k.column != "" && AssignedValue(row, a, params) == Some(v)
    ensures Num(k, row).Some? && v.AsInt64() == Some(Num(k, row).value + DeltaOne(k, a, params))
  {
    var sum := Cell(row, a.addFrom).AsInt64().value + NumberOf(OperandValue(a.value, params).value);
    hide Value.AsInt64;
    IntIsExact(sum);
  }

  lemma AssignOne(k: Counter, row: Row, a: Assignment, params: seq<Value>, v: Value)
    requires k.column != "" && (a.column == k.column ==> a.addFrom == k.column)
    requires Num(k, row).Some? && AssignedValue(row, a, params) == Some(v)
    ensures Num(k, row[a.column := v]) == Some(Num(k, row).value + DeltaOne(k, a, params))
  {
    hide AssignedValue, Value.AsInt64;
    if a.column == k.column {
      AssignedSum(k, row, a, params, v);
      hide DeltaOne;
      assert Cell(row[a.column := v], k.column) == v;
    } else {
      assert Cell(row[a.column := v], k.column) == Cell(row, k.column);
    }
  }

  lemma {:induction false} AssignAdds(k: Counter, row: Row, different: bool, assignments: seq<Assignment>, params: seq<Value>,
                                      result: Assigned)
    requires Disciplined(k, assignments)
    requires Num(k, row).Some? && Assign(row, different, assignments, params) == Some(result)
    ensures Num(k, result.row) == Some(Num(k, row).value + DeltaOf(k, assignments, params))
    decreases |assignments|
  {
    hide AssignedValue;
    if assignments != [] {
      var a := assignments[0];
      var v := AssignedValue(row, a, params).value;
      AssignOne(k, row, a, params, v);
      AssignAdds(k, row[a.column := v], different || !EqualValue(Cell(row, a.column), v), assignments[1..], params, result);
    }
  }

  /** Without a difference the column reads the same afterwards. */
  lemma {:induction false} AssignSame(k: Counter, row: Row, different: bool, assignments: seq<Assignment>, params: seq<Value>,
                                      result: Assigned)
    requires Assign(row, different, assignments, params) == Some(result) && !result.different
    ensures !different && Cell(result.row, k.column).AsString() == Cell(row, k.column).AsString()
    decreases |assignments|
  {
    hide AssignedValue;
    if assignments != [] {
      var a := assignments[0];
      var v := AssignedValue(row, a, params).value;
      AssignSame(k, row[a.column := v], different || !EqualValue(Cell(row, a.column), v), assignments[1..], params, result);
    }
  }

  lemma CloneKeepsNum(k: Counter, row: Row)
    ensures Num(k, row).Some? ==> Num(k, Clone(row)) == Num(k, row)
  {
  }

  predicate MatchesRow(k: Counter, plan: Plan, params: seq<Value>, row: Row) {
    plan.kind == Update && plan.table == k.id.table && RowMatches(row, plan.predicates, params) == Some(true)
  }

  ghost predicate EffectAdds(k: Counter, row: Row, e: Effect, delta: int) {
    match e
    case Bad => true
    case Put(r) => Num(k, row).Some? && Num(k, r) == Some(Num(k, row).value + delta)
    case _ => delta == 0
  }

  lemma AssignedAdds(k: Counter, assignments: seq<Assignment>, params: seq<Value>, row: Row, result: Assigned)
    requires Disciplined(k, assignments) && Num(k, row).Some?
    requires Assign(row, false, assignments, params) == Some(result)
    ensures Num(k, Clone(result.row)) == Some(Num(k, row).value + DeltaOf(k, assignments, params))
    ensures !result.different ==> DeltaOf(k, assignments, params) == 0
  {
    AssignAdds(k, row, false, assignments, params, result);
    CloneKeepsNum(k, result.row);
    if !result.different {
      AssignSame(k, row, false, assignments, params, result);
    }
  }

  /** An UPDATE that matches the row adds exactly its delta, also when it ends up changing nothing. */
  lemma UpdateAdds(k: Counter, plan: Plan, params: seq<Value>, row: Row)
    requires Disciplined(k, plan.assignments) && Num(k, row).Some?
    ensures EffectAdds(k, row, UpdateEffect(plan, params, row),
                       if RowMatches(row, plan.predicates, params) == Some(true) then DeltaOf(k, plan.assignments, params) else 0)
  {
    hide Assign;
    match Assign(row, false, plan.assignments, params)
    case None =>
    case Some(result) => AssignedAdds(k, plan.assignments, params, row, result);
  }

  /** What a change set does to the followed record when the statement adds `delta`. */
  ghost predicate Adds(k: Counter, changes: Changes, row: Row, delta: int) {
    if k.id in changes
    then changes[k.id].Some? && Num(k, row).Some? && Num(k, changes[k.id].value) == Some(Num(k, row).value + delta)
    else delta == 0
  }

  /** The predicates of an UPDATE or DELETE on the table hold of the record. */
  predicate Reaches(k: Counter, plan: Plan, params: seq<Value>, row: Row) {
    && (plan.kind == Update || plan.kind == Delete) && plan.table == k.id.table
    && RowMatches(row, plan.predicates, params) == Some(true)
  }

  /** A statement that reaches the record is an UPDATE that writes the column only by increments. */
  ghost predicate OnlyIncrements(k: Counter, plan: Plan, params: seq<Value>, row: Row) {
    Reaches(k, plan, params, row) ==> plan.kind == Update && Disciplined(k, plan.assignments)
  }

  /** What the change set of a statement does to the followed record of the view. */
  lemma OutcomeAdds(k: Counter, t: Table, plan: Plan, params: seq<Value>, view: View, next: int)
    requires k.column != "" && t.name == plan.table
    requires StatementOutcome(t, plan, params, view, next).Write?
    requires k.id in view && Num(k, view[k.id]).Some? && OnlyIncrements(k, plan, params, view[k.id])
    ensures Adds(k, StatementOutcome(t, plan, params, view, next).changes, view[k.id],
                 if MatchesRow(k, plan, params, view[k.id]) then DeltaOf(k, plan.assignments, params) else 0)
  {
    match plan.kind
    case Insert => InsertedRowIsKeyed(t, plan, params, view, next);
    case Update => UpdateChangesAdd(k, t, plan, params, view);
    case _ =>
  }

  lemma UpdateChangesAdd(k: Counter, t: Table, plan: Plan, params: seq<Value>, view: View)
    requires k.column != "" && t.name == plan.table && plan.kind == Update
    requires !UpdateFails(t, plan, params, view)
    requires k.id in view && Num(k, view[k.id]).Some? && OnlyIncrements(k, plan, params, view[k.id])
    ensures Adds(k, UpdateChanges(t, plan, params, view), view[k.id],
                 if MatchesRow(k, plan, params, view[k.id]) then DeltaOf(k, plan.assignments, params) else 0)
  {
    hide UpdateEffect, RowMatches, Num;
    var row := view[k.id];
    EffectMeans(plan, params, row);
    if plan.table == k.id.table {
      assert UpdateEffect(plan, params, row) != Bad;
      if MatchesRow(k, plan, params, row) {
        UpdateAdds(k, plan, params, row);
      }
    }
  }

  /** The statement is an UPDATE whose predicates hold of the record in its session's view. */
  predicate Matches(k: Counter, s: State, e: Event) {
    e.DoExecute? && k.id in ViewOf(s, e.sid) && MatchesRow(k, e.plan, e.params, ViewOf(s, e.sid)[k.id])
  }

  // ---- the followed run ----

  /** What event `i` adds to the column in its session's view: nothing unless it is a successful
      UPDATE that matches the record. */
  ghost function Delta(k: Counter, r: Run, i: nat): int
    requires Sized(r) && i < |r.events|
  {
    if r.verdicts[i].Done? && Matches(k, r.states[i], r.events[i])
    then DeltaOf(k, r.events[i].plan.assignments, r.events[i].params)
    else 0
  }

  /** A successful statement that finds the record in its session's view only increments it. */
  ghost predicate Respects(k: Counter, r: Run, i: nat)
    requires Sized(r) && i < |r.events|
  {
    var e, view := r.events[i], if r.events[i].DoExecute? then ViewOf(r.states[i], r.events[i].sid) else map[];
    e.DoExecute? && r.verdicts[i].Done? && k.id in view ==> OnlyIncrements(k, e.plan, e.params, view[k.id])
  }

  /** The record is live with a number in the column at first, and the statements that are committed
      by event `n` only increment it; whatever is rolled back, refused or lost in a conflict is free. */
  ghost predicate Counts(k: Counter, r: Run, n: nat) {
    && Starts(r) && n < |r.states| && k.column != "" && Counted(k, r.states[0])
    && forall i :: 0 <= i < n && CommittedBy(r, i, n) ==> Respects(k, r, i)
  }

  lemma DeltaIs(k: Counter, r: Run, i: nat, row: Row)
    requires Sized(r) && i < |r.events| && r.events[i].DoExecute? && r.verdicts[i].Done?
    requires k.id in ViewOf(r.states[i], r.events[i].sid) && ViewOf(r.states[i], r.events[i].sid)[k.id] == row
    ensures Delta(k, r, i) == if MatchesRow(k, r.events[i].plan, r.events[i].params, row)
                              then DeltaOf(k, r.events[i].plan.assignments, r.events[i].params) else 0
  {
  }

  /** The statement of event `i` changes the record only by its delta. */
  lemma ComputedAdds(k: Counter, r: Run, i: nat, row: Row)
    requires IsRun(r) && i < |r.events| && r.events[i].DoExecute? && r.verdicts[i].Done?
    requires k.column != "" && Respects(k, r, i)
    requires k.id in ViewOf(r.states[i], r.events[i].sid) && ViewOf(r.states[i], r.events[i].sid)[k.id] == row
    requires Num(k, row).Some?
    ensures Adds(k, r.computed[i], row, Delta(k, r, i))
  {
    DeltaIs(k, r, i, row);
    var t, view, next, o := ComputedIs(r, i);
    OutcomeAdds(k, t, r.events[i].plan, r.events[i].params, view, next);
  }

  /** The recorded change set of a successful statement is the one its table's outcome holds. */
  lemma ComputedIs(r: Run, i: nat) returns (t: Table, view: View, next: int, o: Outcome)
    requires IsRun(r) && i < |r.events| && r.events[i].DoExecute? && r.verdicts[i].Done?
    ensures t.name == r.events[i].plan.table && view == ViewOf(r.states[i], r.events[i].sid)
    ensures o == StatementOutcome(t, r.events[i].plan, r.events[i].params, view, next)
    ensures o.Write? && r.computed[i] == o.changes
  {
    var s, e := r.states[i], r.events[i];
    assert Follows(r, i);
    if e.early || !ParamsFit(e.plan, e.params) || e.plan.kind == Select || Entered(s, e.sid).readOnly
       || FindTable(s.tables, e.plan.table).None? {
      ExecuteEnters(s, e);
    } else {
      ExecuteWrites(s, e);
    }
    t := FindTable(s.tables, e.plan.table).value;
    view, next, o := ViewOf(s, e.sid), NextId(s, t.name), OutcomeOf(s, e, t);
  }

  // ---- the ledger ----

  /** The session's deltas not yet committed or dropped. */
  ghost function Pending(k: Counter, r: Run, n: nat, sid: string): int
    requires Sized(r) && n < |r.states|
  {
    if n == 0 then 0
    else if Ends(r.states[n - 1], r.events[n - 1], sid) then 0
    else if Buffers(r.states[n - 1], r.events[n - 1], r.verdicts[n - 1], sid)
    then Pending(k, r, n - 1, sid) + Delta(k, r, n - 1)
    else Pending(k, r, n - 1, sid)
  }

  predicate CommitDone(r: Run, i: nat)
    requires Sized(r) && i < |r.events|
  {
    Commits(r.states[i], r.events[i]) && r.verdicts[i].Done?
  }

  predicate AutocommitDone(r: Run, i: nat)
    requires Sized(r) && i < |r.events|
  {
    r.events[i].DoExecute? && r.verdicts[i].Done? && !InTransaction(r.states[i], r.events[i].sid)
  }

  /** The deltas that reached the committed rows. */
  ghost function Total(k: Counter, r: Run, n: nat): int
    requires Sized(r) && n < |r.states|
  {
    if n == 0 then 0
    else if CommitDone(r, n - 1) then Total(k, r, n - 1) + Pending(k, r, n - 1, r.events[n - 1].sid)
    else if AutocommitDone(r, n - 1) then Total(k, r, n - 1) + Delta(k, r, n - 1)
    else Total(k, r, n - 1)
  }

  /** A session whose base is still current holds the committed number plus its pending deltas;
      a session that never touched the record has none pending. */
  ghost predicate Ledger(k: Counter, s: State, c: Session, pending: int) {
    && k.id in Live(s.committed) && Num(k, Live(s.committed)[k.id]).Some?
    && (k.id in c.writes ==>
          && k.id in c.base && c.writes[k.id].Some? && Num(k, c.writes[k.id].value).Some?
          && (c.base[k.id] == VersionOf(s.committed, k.id) ==>
                Num(k, c.writes[k.id].value).value == Num(k, Live(s.committed)[k.id]).value + pending))
    && (k.id !in c.writes ==> pending == 0)
  }

  /** So far the session's open transaction only increments. */
  ghost predicate Clean(k: Counter, r: Run, n: nat, sid: string)
    requires Sized(r) && n < |r.states|
  {
    forall i :: 0 <= i < n && StillOpen(r, i, n, sid) ==> Respects(k, r, i)
  }

  ghost predicate LedgerAt(k: Counter, r: Run, n: nat, sid: string)
    requires Sized(r) && n < |r.states|
  {
    Clean(k, r, n, sid) ==> Ledger(k, r.states[n], SessionOf(r.states[n], sid), Pending(k, r, n, sid))
  }

  /** The followed record of a session's view. */
  lemma ViewedRow(k: Counter, s: State, sid: string, pending: int)
    requires Ledger(k, s, SessionOf(s, sid), pending)
    ensures k.id in ViewOf(s, sid) && Num(k, ViewOf(s, sid)[k.id]).Some?
    ensures var c := SessionOf(s, sid);
            ViewOf(s, sid)[k.id] == if k.id in c.writes then c.writes[k.id].value else Live(s.committed)[k.id]
  {
  }

  ghost predicate Counted(k: Counter, s: State) {
    k.id in Live(s.committed) && Num(k, Live(s.committed)[k.id]).Some?
  }

  ghost function Number(k: Counter, s: State): int
    requires Counted(k, s)
  {
    Num(k, Live(s.committed)[k.id]).value
  }

  lemma InstallOne(k: Counter, committed: map<Id, Record>, c: Changes, version: nat)
    requires k.id in Live(committed) && (k.id in c ==> c[k.id].Some?)
    ensures k.id in Live(Install(committed, c, version))
    ensures Live(Install(committed, c, version))[k.id] == if k.id in c then c[k.id].value else Live(committed)[k.id]
  {
  }

  /** What an event publishes, in terms of the event. */
  lemma PublishedWhat(r: Run, i: nat)
    requires IsRun(r) && i < |r.events|
    ensures AutocommitDone(r, i) ==> r.published[i] == Some(r.computed[i])
    ensures CommitDone(r, i) ==> r.published[i] == Some(SessionOf(r.states[i], r.events[i].sid).writes)
    ensures !AutocommitDone(r, i) && !CommitDone(r, i) && r.published[i].Some? ==>
              r.events[i].DoFill? && r.published[i] == Some(FilledBy(r.states[i], r.events[i]))
  {
    assert Follows(r, i);
  }

  lemma FillMisses(k: Counter, s: State, e: Event)
    requires e.DoFill? && k.id in Live(s.committed)
    ensures k.id !in FilledBy(s, e)
  {
    if FindTable(s.tables, e.slot.table).Some? {
      var t := FindTable(s.tables, e.slot.table).value;
      if FillRows(t, e.slot, OpenKeys(e.slot), e.rows, Live(s.committed)).Some? {
        FilledRowsAreKeyed(t, e.slot, OpenKeys(e.slot), e.rows, Live(s.committed));
      }
    }
  }

  /** An autocommit session has no overlay. */
  lemma AutocommitReadsCommitted(r: Run, i: nat)
    requires IsRun(r) && i < |r.events| && AutocommitDone(r, i)
    ensures SessionOf(r.states[i], r.events[i].sid).writes == map[]
    ensures ViewOf(r.states[i], r.events[i].sid) == Live(r.states[i].committed)
  {
    InvAt(r, i);
    ViewIsTidy(r.states[i], r.events[i].sid);
    OverlayNothing(Live(r.states[i].committed));
  }

  /** A transaction that commits was clean. */
  lemma CommittedIsClean(k: Counter, r: Run, i: nat)
    requires i < |r.events| && Counts(k, r, i + 1)
    ensures CommitDone(r, i) ==> Clean(k, r, i, r.events[i].sid)
    ensures AutocommitDone(r, i) ==> Respects(k, r, i)
  {
    if CommitDone(r, i) {
      forall j | 0 <= j < i && StillOpen(r, j, i, r.events[i].sid) ensures Respects(k, r, j) {
        assert CommittedBy(r, j, i + 1);
      }
    }
    if AutocommitDone(r, i) {
      assert CommittedBy(r, i, i + 1);
    }
  }

  /** The committed number moves by exactly what the total moves by. */
  lemma CommittedStep(k: Counter, r: Run, i: nat)
    requires i < |r.events| && Counts(k, r, i + 1) && Counted(k, r.states[i])
    requires forall sid :: LedgerAt(k, r, i, sid)
    ensures Counted(k, r.states[i + 1])
    ensures Number(k, r.states[i + 1]) == Number(k, r.states[i]) + Total(k, r, i + 1) - Total(k, r, i)
  {
    PublishedWhat(r, i);
    PublishedCommits(r, i);
    CommittedIsClean(k, r, i);
    var s := r.states[i];
    hide Clean, CommittedBy, Respects;
    if r.published[i].Some? {
      if AutocommitDone(r, i) {
        AutocommitReadsCommitted(r, i);
        ComputedAdds(k, r, i, Live(s.committed)[k.id]);
      } else if CommitDone(r, i) {
        assert LedgerAt(k, r, i, r.events[i].sid);
        CommitVerdict(r, i);
      } else {
        FillMisses(k, s, r.events[i]);
      }
      InstallOne(k, s.committed, r.published[i].value, s.version + 1);
    }
  }

  lemma PublishedCommits(r: Run, i: nat)
    requires IsRun(r) && i < |r.events|
    ensures Publishes(r.states[i], r.states[i + 1], r.published[i])
  {
    assert Follows(r, i);
    StepPublishes(r.states[i], r.events[i]);
  }

  lemma CleanBefore(k: Counter, r: Run, i: nat, sid: string)
    requires Sized(r) && i < |r.events| && Clean(k, r, i + 1, sid) && !EndsAt(r, i, sid)
    ensures Clean(k, r, i, sid) && (BuffersAt(r, i, sid) ==> Respects(k, r, i))
  {
    hide Respects;
    forall j | 0 <= j < i && StillOpen(r, j, i, sid) ensures Respects(k, r, j) {
      StillOpenNext(r, j, i, sid);
    }
    if BuffersAt(r, i, sid) {
      assert StillOpen(r, i, i + 1, sid);
    }
  }

  /** Every session's ledger survives the step. */
  lemma SessionStep(k: Counter, r: Run, i: nat, sid: string)
    requires i < |r.events| && Starts(r) && k.column != ""
    requires LedgerAt(k, r, i, sid) && Counted(k, r.states[i + 1])
    ensures LedgerAt(k, r, i + 1, sid)
  {
    if Clean(k, r, i + 1, sid) {
      if EndsAt(r, i, sid) {
        OwnWritesStep(r, i, sid);
      } else {
        CleanBefore(k, r, i, sid);
        CleanStep(k, r, i, sid);
      }
    }
  }

  lemma CleanStep(k: Counter, r: Run, i: nat, sid: string)
    requires i < |r.events| && Starts(r) && k.column != "" && !EndsAt(r, i, sid)
    requires Ledger(k, r.states[i], SessionOf(r.states[i], sid), Pending(k, r, i, sid)) && Counted(k, r.states[i + 1])
    requires BuffersAt(r, i, sid) ==> Respects(k, r, i)
    ensures Ledger(k, r.states[i + 1], SessionOf(r.states[i + 1], sid), Pending(k, r, i + 1, sid))
  {
    hide Respects;
    var s, e := r.states[i], r.events[i];
    OwnWritesStep(r, i, sid);
    WritesHaveBases(r, i + 1, sid);
    WritesHaveBases(r, i, sid);
    RecordStep(r, i, k.id);
    BaseBound(r, i, sid, k.id);
    var c' := SessionOf(r.states[i + 1], sid);
    if k.id in c'.writes {
      BaseStep(r, i, sid, k.id);
      if Buffers(s, e, r.verdicts[i], sid) {
        ViewedRow(k, s, sid, Pending(k, r, i, sid));
        ComputedAdds(k, r, i, ViewOf(s, sid)[k.id]);
        BufferedKeepsCommitted(r, i, sid);
      }
    } else if Buffers(s, e, r.verdicts[i], sid) {
      ViewedRow(k, s, sid, Pending(k, r, i, sid));
      ComputedAdds(k, r, i, ViewOf(s, sid)[k.id]);
    }
  }

  lemma BaseBound(r: Run, n: nat, sid: string, id: Id)
    requires IsRun(r) && n < |r.states|
    ensures id in SessionOf(r.states[n], sid).base ==>
              SessionOf(r.states[n], sid).base[id] <= VersionOf(r.states[n].committed, id)
  {
    InvAt(r, n);
    ViewIsTidy(r.states[n], sid);
  }

  lemma BufferedKeepsCommitted(r: Run, i: nat, sid: string)
    requires IsRun(r) && i < |r.events| && Buffers(r.states[i], r.events[i], r.verdicts[i], sid)
    ensures r.states[i + 1].committed == r.states[i].committed
  {
    StatementChangesTheView(r, i);
  }

  lemma CountsBefore(k: Counter, r: Run, n: nat)
    requires Counts(k, r, n) && n > 0
    ensures Counts(k, r, n - 1)
  {
    hide Respects;
    forall i | 0 <= i < n - 1 && CommittedBy(r, i, n - 1) ensures Respects(k, r, i) {
      CommittedByNext(r, i, n - 1);
    }
  }

  /** After every step of every run the committed number is the initial one plus the total. */
  lemma {:induction false} LedgerHolds(k: Counter, r: Run, n: nat)
    requires Counts(k, r, n)
    ensures Counted(k, r.states[n]) && Number(k, r.states[n]) == Number(k, r.states[0]) + Total(k, r, n)
    ensures forall sid :: LedgerAt(k, r, n, sid)
  {
    if n > 0 {
      CountsBefore(k, r, n);
      LedgerHolds(k, r, n - 1);
      CommittedStep(k, r, n - 1);
      forall sid ensures LedgerAt(k, r, n, sid) {
        SessionStep(k, r, n - 1, sid);
      }
    }
  }

  // ---- the declarative account ----

  /** Event `m` ends the transaction of `sid`. */
  predicate EndsAt(r: Run, m: nat, sid: string)
    requires Sized(r) && m < |r.events|
  {
    Ends(r.states[m], r.events[m], sid)
  }

  predicate BuffersAt(r: Run, i: nat, sid: string)
    requires Sized(r) && i < |r.events|
  {
    Buffers(r.states[i], r.events[i], r.verdicts[i], sid)
  }

  /** Statement `i` sits in the overlay of `sid` and no event up to `n` ended that transaction. */
  ghost predicate StillOpen(r: Run, i: nat, n: nat, sid: string)
    requires Sized(r) && i < n < |r.states|
  {
    BuffersAt(r, i, sid) && forall m :: i < m < n ==> !EndsAt(r, m, sid)
  }

  /** Statement `i` was executed in autocommit, or in a transaction whose own COMMIT came before
      event `n` and succeeded. */
  ghost predicate CommittedBy(r: Run, i: nat, n: nat)
    requires Sized(r) && i < n < |r.states|
  {
    AutocommitDone(r, i)
    || exists m :: i < m < n && CommitDone(r, m) && StillOpen(r, i, m, r.events[m].sid)
  }

  ghost function KeptSum(k: Counter, r: Run, n: nat, m: nat): int
    requires Sized(r) && m <= n < |r.states|
  {
    if m == 0 then 0
    else KeptSum(k, r, n, m - 1) + if CommittedBy(r, m - 1, n) then Delta(k, r, m - 1) else 0
  }

  ghost function OpenSum(k: Counter, r: Run, sid: string, n: nat, m: nat): int
    requires Sized(r) && m <= n < |r.states|
  {
    if m == 0 then 0
    else OpenSum(k, r, sid, n, m - 1) + if StillOpen(r, m - 1, n, sid) then Delta(k, r, m - 1) else 0
  }

  lemma StillOpenNext(r: Run, i: nat, n: nat, sid: string)
    requires Sized(r) && i < n < |r.events|
    ensures StillOpen(r, i, n + 1, sid) <==> StillOpen(r, i, n, sid) && !EndsAt(r, n, sid)
  {
  }

  /** A statement becomes committed at event `n` exactly when `n` commits the transaction it is still open in. */
  lemma CommittedByNext(r: Run, i: nat, n: nat)
    requires Sized(r) && i < n < |r.events|
    ensures CommittedBy(r, i, n + 1) <==>
              CommittedBy(r, i, n) || (CommitDone(r, n) && StillOpen(r, i, n, r.events[n].sid))
    ensures !(CommittedBy(r, i, n) && CommitDone(r, n) && StillOpen(r, i, n, r.events[n].sid))
  {
    if CommittedBy(r, i, n) && CommitDone(r, n) && StillOpen(r, i, n, r.events[n].sid) {
      var m :| i < m < n && CommitDone(r, m) && StillOpen(r, i, m, r.events[m].sid);
      assert EndsAt(r, m, r.events[m].sid);
    }
  }

  lemma {:induction false} OpenSumNext(k: Counter, r: Run, sid: string, n: nat, m: nat)
    requires Sized(r) && m <= n < |r.events|
    ensures OpenSum(k, r, sid, n + 1, m) == if EndsAt(r, n, sid) then 0 else OpenSum(k, r, sid, n, m)
  {
    if m > 0 {
      OpenSumNext(k, r, sid, n, m - 1);
      StillOpenNext(r, m - 1, n, sid);
    }
  }

  lemma {:induction false} KeptSumNext(k: Counter, r: Run, n: nat, m: nat)
    requires Sized(r) && m <= n < |r.events|
    ensures KeptSum(k, r, n + 1, m)
         == KeptSum(k, r, n, m) + if CommitDone(r, n) then OpenSum(k, r, r.events[n].sid, n, m) else 0
  {
    if m > 0 {
      KeptSumNext(k, r, n, m - 1);
      CommittedByNext(r, m - 1, n);
    }
  }

  lemma {:induction false} PendingIsOpenSum(k: Counter, r: Run, n: nat, sid: string)
    requires Sized(r) && n < |r.states|
    ensures Pending(k, r, n, sid) == OpenSum(k, r, sid, n, n)
  {
    if n > 0 {
      PendingIsOpenSum(k, r, n - 1, sid);
      OpenSumNext(k, r, sid, n - 1, n - 1);
      assert StillOpen(r, n - 1, n, sid) <==> BuffersAt(r, n - 1, sid);
      assert BuffersAt(r, n - 1, sid) ==> !EndsAt(r, n - 1, sid);
    }
  }

  lemma {:induction false} TotalIsKeptSum(k: Counter, r: Run, n: nat)
    requires Sized(r) && n < |r.states|
    ensures Total(k, r, n) == KeptSum(k, r, n, n)
  {
    if n > 0 {
      TotalIsKeptSum(k, r, n - 1);
      KeptSumNext(k, r, n - 1, n - 1);
      assert CommittedBy(r, n - 1, n) <==> AutocommitDone(r, n - 1);
      if CommitDone(r, n - 1) {
        PendingIsOpenSum(k, r, n - 1, r.events[n - 1].sid);
      }
    }
  }

  /** Conservation of increments. After any interleaving of any number of sessions the committed
      number is the initial one plus the amounts of exactly those successful matching UPDATEs that
      ran in autocommit or in a transaction whose COMMIT succeeded: rollbacks, conflicts, overflows,
      failed statements and disconnects contribute nothing, and no increment is lost. Only statements
      that are committed and reach this very record have to be increments. */
  lemma ConservationOfIncrements(k: Counter, r: Run, n: nat)
    requires Counts(k, r, n)
    ensures Counted(k, r.states[n])
    ensures Number(k, r.states[n]) == Number(k, r.states[0]) + KeptSum(k, r, n, n)
  {
    LedgerHolds(k, r, n);
    TotalIsKeptSum(k, r, n);
  }
}
