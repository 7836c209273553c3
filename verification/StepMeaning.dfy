/** What accepted statements do to what their session reads, and when they succeed. */
module StepMeaning {
  import opened Values
  import opened Schema
  import opened Plans
  import opened StoreSpec
  import opened StoreInvariant
  import opened CompilerSpec
  import opened CompilerMeaning
  import opened StatementMeaning
  import StoreRuns
  import A = AutoIncrement
  import RowMeaning

  // ---- one statement of a session ----

  /** The event executes the compiled statement. */
  ghost predicate Runs(s: State, e: Event, q: Query, declared: seq<Parameter>, database: string) {
    e.DoExecute? && Compile(q, declared, s.tables, database) == Some(e.plan)
  }

  /** The statement is cancelled at its start, called with wrong parameters, or writes in a session
      that may only read. */
  predicate TurnedAway(s: State, e: Event)
    requires e.DoExecute?
  {
    e.early || !ParamsFit(e.plan, e.params) || SessionOf(s, e.sid).readOnly
  }

  /** What the statement answers when it would turn its session's view into `after`. */
  ghost function Answered(s: State, e: Event, after: View, affected: nat, insertId: int): Verdict
    requires e.DoExecute? && WellFormed(s.tables)
  {
    if !ViewConsistent(s.tables, after) then Aborted(Constraint)
    else if e.late then Aborted(Refused)
    else Done(affected, insertId)
  }

  ghost predicate Reads(s: State, e: Event, s': State, v: Verdict, after: View)
    requires e.DoExecute?
  {
    ViewOf(s', e.sid) == if v.Done? then after else ViewOf(s, e.sid)
  }

  lemma DoneView(s: State, e: Event)
    requires Inv(s) && e.DoExecute?
    ensures StoreSpec.Step(s, e).1.Done? ==>
              ViewOf(StoreSpec.Step(s, e).0, e.sid) == Overlay(ViewOf(s, e.sid), StoreRuns.ChangesOf(s, e))
    ensures !StoreSpec.Step(s, e).1.Done? ==> ViewOf(StoreSpec.Step(s, e).0, e.sid) == ViewOf(s, e.sid)
  {
    StoreRuns.ExecuteShape(s, e);
    ViewIsTidy(s, e.sid);
    hide StoreSpec.Step, StoreRuns.ChangesOf, Live, Overlay, Inv, AllTidy, Install, Rebase;
    if StoreSpec.Step(s, e).1.Done? {
      StoreRuns.LandedView(SetSession(s, e.sid, Entered(s, e.sid)), StoreSpec.Step(s, e).0, e.sid, StoreRuns.ChangesOf(s, e));
    }
  }

  lemma TurnedAwayFails(s: State, e: Event)
    requires WellFormed(s.tables) && e.DoExecute? && TurnedAway(s, e) && e.plan.kind != Select
    ensures StoreSpec.Step(s, e).1 == Aborted(Refused)
  {
  }

  lemma WritingVerdict(s: State, e: Event, t: Table)
    requires WellFormed(s.tables) && e.DoExecute? && !TurnedAway(s, e) && e.plan.kind != Select
    requires FindTable(s.tables, e.plan.table) == Some(t)
    ensures var o := StoreRuns.OutcomeOf(s, e, t);
            StoreSpec.Step(s, e).1
            == if o.Refuse? then Aborted(o.failure)
               else Answered(s, e, Overlay(ViewOf(s, e.sid), o.changes),
                             if SessionOf(s, e.sid).foundRows && e.plan.kind == Update then o.matched else o.changed, o.insertId)
  {
    StoreRuns.ExecuteWrites(s, e);
    hide StatementOutcome, ViewConsistent, Install, Rebase, Overlay, Live;
  }

  // ---- DELETE ----

  /** The rows of the statement's table in which its condition is true. */
  ghost function Touched(env: Env, q: Query, view: View, params: seq<Value>): set<Id> {
    set id | id in view && id.table == env.table.name && Qualifies(env, q, view[id], params)
  }

  lemma TouchedAreMatched(s: State, e: Event, q: Query, declared: seq<Parameter>, database: string)
    requires Inv(s) && Runs(s, e, q, declared, database) && ParamsFit(e.plan, e.params) && !q.InsertQuery?
    ensures TableOf(q, s.tables, database).Some?
    ensures var t, view := TableOf(q, s.tables, database).value, ViewOf(s, e.sid);
            && FindTable(s.tables, e.plan.table) == Some(t)
            && Touched(EnvOf(q, declared, s.tables, database), q, view, e.params) == MatchedIds(t, e.plan, e.params, view)
            && !MatchingFails(t, e.plan, e.params, view)
  {
    var t, view := TableOf(q, s.tables, database).value, ViewOf(s, e.sid);
    PlanTable(q, declared, s.tables, database);
    ViewIsTidy(s, e.sid);
    hide Compile, TableOf, Qualifies, RowMatches, RowFits, ViewOf, Inv, ParamsFit;
    forall id | id in view && id.table == t.name
      ensures RowMatches(view[id], e.plan.predicates, e.params)
           == Some(Qualifies(EnvOf(q, declared, s.tables, database), q, view[id], e.params))
    {
      assert Tidy(s.tables, id, view[id]);
      StatementTouchesTrueRows(q, declared, s.tables, database, view[id], e.params);
    }
  }

  lemma PlanTable(q: Query, declared: seq<Parameter>, tables: seq<Table>, database: string)
    requires WellFormed(tables) && Compile(q, declared, tables, database).Some?
    ensures TableOf(q, tables, database).Some?
    ensures var plan, t := Compile(q, declared, tables, database).value, TableOf(q, tables, database).value;
            && FindTable(tables, plan.table) == Some(t)
            && plan.kind == (match q case SelectQuery(_, _, _, _, _, _) => Select case InsertQuery(_, _, _, _) => Insert
                                     case UpdateQuery(_, _, _, _) => Update case DeleteQuery(_, _, _) => Delete
                                     case OtherQuery(_) => OtherKind)
  {
    FindTableFinds(tables, TableOf(q, tables, database).value);
    hide CompileWhere, CompileSets, CompileInserts, CompileFields, CompileOrder, CompileLimit, QueryMarkers;
  }

  ghost function WithoutRows(view: View, gone: set<Id>): View {
    map id | id in view && id !in gone :: view[id]
  }

  /** A DELETE takes away exactly the rows of its table in which its condition is true and answers
      how many they are; every other record stays as it is. It succeeds exactly when it is not
      turned away and what is left satisfies the constraints. */
  lemma DeleteMeans(s: State, e: Event, q: Query, declared: seq<Parameter>, database: string)
    requires Inv(s) && q.DeleteQuery? && Runs(s, e, q, declared, database)
    ensures TableOf(q, s.tables, database).Some?
    ensures var (s', v) := StoreSpec.Step(s, e);
            var gone := Touched(EnvOf(q, declared, s.tables, database), q, ViewOf(s, e.sid), e.params);
            var after := WithoutRows(ViewOf(s, e.sid), gone);
            && v == (if TurnedAway(s, e) then Aborted(Refused) else Answered(s, e, after, |gone|, 0))
            && Reads(s, e, s', v, after)
  {
    PlanTable(q, declared, s.tables, database);
    DoneView(s, e);
    if TurnedAway(s, e) {
      TurnedAwayFails(s, e);
    } else {
      var t, view := TableOf(q, s.tables, database).value, ViewOf(s, e.sid);
      TouchedAreMatched(s, e, q, declared, database);
      DeleteVerdict(s, e, t);
      TakenAway(view, MatchedIds(t, e.plan, e.params, view));
      hide StoreSpec.Step, ViewOf, Overlay, ViewConsistent, TableOf, Touched, MatchedIds, Compile, Inv, ParamsFit, TurnedAway, StoreRuns.ChangesOf;
    }
  }

  lemma DeleteVerdict(s: State, e: Event, t: Table)
    requires WellFormed(s.tables) && e.DoExecute? && !TurnedAway(s, e) && e.plan.kind == Delete
    requires FindTable(s.tables, e.plan.table) == Some(t) && !MatchingFails(t, e.plan, e.params, ViewOf(s, e.sid))
    ensures var gone := MatchedIds(t, e.plan, e.params, ViewOf(s, e.sid)); var changes: Changes := map id | id in gone :: None;
            && StoreSpec.Step(s, e).1 == Answered(s, e, Overlay(ViewOf(s, e.sid), changes), |gone|, 0)
            && StoreRuns.ChangesOf(s, e) == changes
  {
    WritingVerdict(s, e, t);
    hide StoreSpec.Step, ViewOf, Overlay, ViewConsistent, MatchedIds, MatchingFails, ParamsFit, Answered;
    var gone := MatchedIds(t, e.plan, e.params, ViewOf(s, e.sid));
    var changes: Changes := map id | id in gone :: None;
    assert changes.Keys == gone;
  }

  lemma TakenAway(view: View, gone: set<Id>)
    ensures Overlay(view, map id | id in gone :: None) == WithoutRows(view, gone)
  {
  }

  // ---- UPDATE ----

  /** The touched rows that some SET clause gives a value they do not hold yet. */
  ghost function Changed(env: Env, q: Query, view: View, params: seq<Value>): set<Id>
    requires q.UpdateQuery?
  {
    set id | id in Touched(env, q, view, params) && SetDiffers(env, q.sets, view[id], params)
  }

  ghost predicate Fails(env: Env, q: Query, view: View, params: seq<Value>)
    requires q.UpdateQuery?
  {
    exists id :: id in Touched(env, q, view, params) && SetFails(env, q.sets, view[id], params)
  }

  /** The view with every changed row set at once, and nothing else. */
  ghost predicate UpdatedView(env: Env, q: Query, view: View, params: seq<Value>, after: View)
    requires q.UpdateQuery?
  {
    after.Keys == view.Keys && forall id :: id in view ==>
      if id in Changed(env, q, view, params)
      then exists row :: Updated(env, q.sets, view[id], params, row) && after[id] == Clone(row)
      else after[id] == view[id]
  }

  /** What the compiled UPDATE does to one record of the view. */
  ghost predicate EffectFits(env: Env, q: Query, view: View, params: seq<Value>, id: Id, effect: Effect)
    requires q.UpdateQuery? && id in view
  {
    match effect
    case Bad => id in Touched(env, q, view, params) && SetFails(env, q.sets, view[id], params)
    case Skip => id !in Touched(env, q, view, params)
    case Same => id in Touched(env, q, view, params) && !SetFails(env, q.sets, view[id], params) && id !in Changed(env, q, view, params)
    case Put(r) => id in Changed(env, q, view, params) && !SetFails(env, q.sets, view[id], params)
                   && exists row :: Updated(env, q.sets, view[id], params, row) && r == Clone(row)
  }

  lemma EffectsFit(s: State, e: Event, q: Query, declared: seq<Parameter>, database: string)
    requires Inv(s) && q.UpdateQuery? && Runs(s, e, q, declared, database) && ParamsFit(e.plan, e.params)
    requires Named(TableOf(q, s.tables, database).value)
    ensures var t, view := TableOf(q, s.tables, database).value, ViewOf(s, e.sid);
            forall id {:trigger view[id]} :: id in view && id.table == t.name ==>
              EffectFits(EnvOf(q, declared, s.tables, database), q, view, e.params, id, UpdateEffect(e.plan, e.params, view[id]))
  {
    var t, view := TableOf(q, s.tables, database).value, ViewOf(s, e.sid);
    PlanTable(q, declared, s.tables, database);
    ViewIsTidy(s, e.sid);
    hide Compile, TableOf, Qualifies, UpdateEffect, RowFits, ViewOf, Inv, ParamsFit, SetFails, SetDiffers, Updated, Clone;
    forall id | id in view && id.table == t.name
      ensures EffectFits(EnvOf(q, declared, s.tables, database), q, view, e.params, id, UpdateEffect(e.plan, e.params, view[id]))
    {
      assert Tidy(s.tables, id, view[id]);
      UpdateMeans(q, declared, s.tables, database, view[id], e.params);
    }
  }

  lemma EffectsUpdate(env: Env, q: Query, plan: Plan, view: View, params: seq<Value>)
    requires q.UpdateQuery?
    requires forall id {:trigger view[id]} :: id in view && id.table == env.table.name ==>
               EffectFits(env, q, view, params, id, UpdateEffect(plan, params, view[id]))
    ensures UpdateFails(env.table, plan, params, view) <==> Fails(env, q, view, params)
    ensures !Fails(env, q, view, params) ==>
              && UpdateChanges(env.table, plan, params, view).Keys == Changed(env, q, view, params)
              && UpdatedView(env, q, view, params, Overlay(view, UpdateChanges(env.table, plan, params, view)))
  {
    hide Qualifies, UpdateEffect, SetFails, SetDiffers, Updated, Clone;
    if Fails(env, q, view, params) {
      var id :| id in Touched(env, q, view, params) && SetFails(env, q.sets, view[id], params);
      assert EffectFits(env, q, view, params, id, UpdateEffect(plan, params, view[id]));
    }
  }

  lemma UpdateVerdict(s: State, e: Event, t: Table)
    requires WellFormed(s.tables) && e.DoExecute? && !TurnedAway(s, e) && e.plan.kind == Update
    requires FindTable(s.tables, e.plan.table) == Some(t)
    ensures var view := ViewOf(s, e.sid); var v := StoreSpec.Step(s, e).1;
            if UpdateFails(t, e.plan, e.params, view) then v == Aborted(Refused)
            else
              var changes := UpdateChanges(t, e.plan, e.params, view);
              && v == Answered(s, e, Overlay(view, changes),
                               if SessionOf(s, e.sid).foundRows then |MatchedIds(t, e.plan, e.params, view)| else |changes|, 0)
              && StoreRuns.ChangesOf(s, e) == changes
  {
    WritingVerdict(s, e, t);
    hide StoreSpec.Step, ViewOf, Overlay, ViewConsistent, MatchedIds, UpdateFails, UpdateChanges, ParamsFit, Answered;
  }

  /** An UPDATE sets every touched row at once and leaves the others alone; it counts the rows it
      changed, or all touched ones where the client asked for found rows. It succeeds exactly when it
      is not turned away, every SET clause has a value in every touched row, and the result
      satisfies the constraints. */
  lemma UpdateInView(s: State, e: Event, q: Query, declared: seq<Parameter>, database: string) returns (after: View)
    requires Inv(s) && q.UpdateQuery? && Runs(s, e, q, declared, database)
    requires Named(TableOf(q, s.tables, database).value)
    ensures TableOf(q, s.tables, database).Some?
    ensures var (s', v) := StoreSpec.Step(s, e);
            var env, view := EnvOf(q, declared, s.tables, database), ViewOf(s, e.sid);
            && Reads(s, e, s', v, after)
            && if TurnedAway(s, e) || Fails(env, q, view, e.params) then v == Aborted(Refused)
               else
                 && UpdatedView(env, q, view, e.params, after)
                 && v == Answered(s, e, after, if SessionOf(s, e.sid).foundRows then |Touched(env, q, view, e.params)|
                                               else |Changed(env, q, view, e.params)|, 0)
  {
    after := ViewOf(s, e.sid);
    PlanTable(q, declared, s.tables, database);
    DoneView(s, e);
    if TurnedAway(s, e) {
      TurnedAwayFails(s, e);
    } else {
      var t, view, env := TableOf(q, s.tables, database).value, ViewOf(s, e.sid), EnvOf(q, declared, s.tables, database);
      UpdateVerdict(s, e, t);
      TouchedAreMatched(s, e, q, declared, database);
      EffectsFit(s, e, q, declared, database);
      EffectsUpdate(env, q, e.plan, view, e.params);
      after := Overlay(view, UpdateChanges(t, e.plan, e.params, view));
      hide StoreSpec.Step, ViewOf, Overlay, ViewConsistent, TableOf, Fails, Touched, Changed, UpdatedView, MatchedIds, UpdateFails,
           UpdateChanges, Compile, Inv, ParamsFit, EffectFits, TurnedAway, StoreRuns.ChangesOf, Answered;
      assert |UpdateChanges(t, e.plan, e.params, view)| == |UpdateChanges(t, e.plan, e.params, view).Keys|;
    }
  }

  // ---- INSERT ----

  /** What the statement gives, column by column: its expression's value, the default, NULL, or nothing. */
  ghost predicate GivenBy(env: Env, q: Query, params: seq<Value>, row: Row)
    requires q.InsertQuery?
  {
    |q.columns| == |q.values| && forall f :: f in env.table.columns ==> Inserted(env, q.columns, q.values, f, params, row)
  }

  lemma InsertGiven(q: Query, declared: seq<Parameter>, tables: seq<Table>, database: string, params: seq<Value>) returns (given: Row)
    requires WellFormed(tables) && q.InsertQuery? && Compile(q, declared, tables, database).Some?
    requires ParamsFit(Compile(q, declared, tables, database).value, params)
    ensures var t := TableOf(q, tables, database).value;
            GivenCells(DefaultRow(t.columns), Compile(q, declared, tables, database).value.assignments, params) == Some(given)
    ensures GivenBy(EnvOf(q, declared, tables, database), q, params, Clone(given))
  {
    var t, env, plan := TableOf(q, tables, database).value, EnvOf(q, declared, tables, database), Compile(q, declared, tables, database).value;
    CompiledPlanIsOk(q, declared, tables, database);
    CompiledRendersInsert(q, declared, tables, database, params);
    KnownTable(q, tables, database);
    RowMeaning.GivenIsSimultaneous(DefaultRow(t.columns), plan.assignments, params);
    assert forall i :: 0 <= i < |plan.assignments| ==> GivenMeans(plan.assignments[i], env, q.values[i], params);
    given := GivenCells(DefaultRow(t.columns), plan.assignments, params).value;
    hide Compile, DefaultRow, GivenCells, ColumnOf, Inserted, TableOf, Clone, ParamsFit, RowMeaning.InsertGives, RowMeaning.CellGiven, QueryMarkers;
    forall f | f in t.columns ensures Inserted(env, q.columns, q.values, f, params, Clone(given)) {
      RowMeaning.GivenMeans(t, plan.assignments, params, f);
      RowMeaning.CopiedCell(f, plan.assignments, params, given, given);
      GivesIsInserted(env, q.columns, q.values, plan.assignments, params, f, Clone(given));
    }
  }

  /** What an INSERT of the row answers, and the view it would leave. */
  ghost function InsertAnswer(s: State, e: Event, t: Table, row: Row, insertId: int): (Verdict, View)
    requires e.DoExecute? && WellFormed(s.tables)
  {
    var view := ViewOf(s, e.sid);
    match Cell(row, PrimaryKey(t)).AsString()
    case None => (Aborted(Refused), view)
    case Some(key) =>
      var after := view[Id(t.name, key) := Clone(row)];
      if Id(t.name, key) in view then (Aborted(Constraint), view) else (Answered(s, e, after, 1, insertId), after)
  }

  lemma InsertedOutcome(s: State, e: Event, t: Table, given: Row)
    requires WellFormedTable(t) && e.DoExecute? && e.plan.kind == Insert && NextId(s, t.name) <= MAX_INT64
    requires GivenCells(DefaultRow(t.columns), e.plan.assignments, e.params) == Some(given)
    ensures var o, view := StoreRuns.OutcomeOf(s, e, t), ViewOf(s, e.sid);
            match A.Allocated(t, given, NextId(s, t.name))
            case Unfilled(n) => o == Refuse(Refused, n)
            case Filled(row, n, insertId) =>
              match Cell(row, PrimaryKey(t)).AsString()
              case None => o == Refuse(Refused, n)
              case Some(key) =>
                if Id(t.name, key) in view then o == Refuse(Constraint, n)
                else o == Write(map[Id(t.name, key) := Some(Clone(row))], 1, 1, insertId, n)
  {
    A.AllocatorMeans(t, given, NextId(s, t.name));
    hide A.Allocated, FillAuto, Clone, GivenCells, DefaultRow, ViewOf, WellFormedTable;
  }

  lemma NextOfInsert(s: State, e: Event, t: Table)
    requires WellFormed(s.tables) && e.DoExecute? && !TurnedAway(s, e) && e.plan.kind == Insert
    requires FindTable(s.tables, e.plan.table) == Some(t)
    ensures NextId(StoreSpec.Step(s, e).0, t.name) == StoreRuns.OutcomeOf(s, e, t).next
  {
    StoreRuns.ExecuteWrites(s, e);
    var o := StoreRuns.OutcomeOf(s, e, t);
    A.LandAllocates(SetSession(s, e.sid, Entered(s, e.sid)), e.sid, t, e.plan, o, Allowed(s.tables, ViewOf(s, e.sid), o), e.late, t.name);
    hide StatementOutcome, Allowed, Land, StoreSpec.Step;
  }

  lemma OneRowAdded(view: View, id: Id, row: Row)
    ensures Overlay(view, map[id := Some(row)]) == view[id := row]
  {
  }

  /** An INSERT adds the one row its values, the defaults and the allocator make up, under that row's
      key, and nothing else changes. It succeeds exactly when it is not turned away, the allocator
      has an id or accepts the given one, the row has a key nobody the session sees holds, and
      the result satisfies the constraints; the allocator moves even when it does not. */
  lemma InsertInView(s: State, e: Event, q: Query, declared: seq<Parameter>, database: string) returns (given: Row)
    requires Inv(s) && q.InsertQuery? && Runs(s, e, q, declared, database)
    requires NextId(s, TableOf(q, s.tables, database).value.name) <= MAX_INT64
    ensures TableOf(q, s.tables, database).Some?
    ensures var (s', v) := StoreSpec.Step(s, e); var t := TableOf(q, s.tables, database).value;
            if TurnedAway(s, e) then v == Aborted(Refused) && ViewOf(s', e.sid) == ViewOf(s, e.sid)
            else
              && GivenBy(EnvOf(q, declared, s.tables, database), q, e.params, Clone(given))
              && match A.Allocated(t, given, NextId(s, t.name))
                 case Unfilled(n) => v == Aborted(Refused) && NextId(s', t.name) == n && ViewOf(s', e.sid) == ViewOf(s, e.sid)
                 case Filled(row, n, insertId) =>
                   var (answer, after) := InsertAnswer(s, e, t, row, insertId);
                   v == answer && NextId(s', t.name) == n && Reads(s, e, s', v, after)
  {
    given := map[];
    PlanTable(q, declared, s.tables, database);
    DoneView(s, e);
    if TurnedAway(s, e) {
      TurnedAwayFails(s, e);
    } else {
      var t, view := TableOf(q, s.tables, database).value, ViewOf(s, e.sid);
      KnownTable(q, s.tables, database);
      given := InsertGiven(q, declared, s.tables, database, e.params);
      WritingVerdict(s, e, t);
      NextOfInsert(s, e, t);
      InsertedOutcome(s, e, t, given);
      hide StoreSpec.Step, ViewOf, Overlay, ViewConsistent, TableOf, GivenBy, GivenCells, DefaultRow, Compile, Inv, ParamsFit,
           A.Allocated, StatementOutcome, Clone;
      match A.Allocated(t, given, NextId(s, t.name))
      case Unfilled(_) =>
      case Filled(row, _, _) =>
        match Cell(row, PrimaryKey(t)).AsString()
        case None =>
        case Some(key) => OneRowAdded(view, Id(t.name, key), Clone(row));
    }
  }
}
