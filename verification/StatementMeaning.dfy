/** What accepted statements do, in terms of their syntax: the rows they touch and what they put there. */
module StatementMeaning {
  import opened Values
  import opened Schema
  import opened Plans
  import opened StoreSpec
  import opened CompilerSpec
  import opened CompilerMeaning
  import RowMeaning
  import StoreInvariant

  /** Compiled plans meet what the row store asks of its statements. */
  lemma CompiledPlansKeepKeys(plan: Plan, declared: seq<Parameter>, tables: seq<Table>)
    requires WellFormed(tables) && PlanOk(plan, declared, tables)
    ensures StoreInvariant.KeepsKeys(tables, plan)
    ensures plan.kind == Update || plan.kind == Insert ==> RowMeaning.Independent(plan.assignments)
  {
    if plan.kind == Update {
      var t := FindTable(tables, plan.table).value;
      assert forall i :: 0 <= i < |plan.assignments| ==> plan.assignments[i].column != PrimaryKey(t) && AdditionOk(t, plan.assignments[i]);
    }
  }

  // ---- which rows a statement touches ----

  function WhereOf(q: Query): Option<Expr> {
    match q
    case SelectQuery(_, _, _, where, _, _) => where
    case UpdateQuery(_, _, _, where) => where
    case DeleteQuery(_, _, where) => where
    case _ => None
  }

  /** The statement's condition is true in the row; without a condition every row qualifies. */
  predicate Qualifies(env: Env, q: Query, row: Row, params: seq<Value>) {
    WhereOf(q).None? || TruthIn(env, WhereOf(q).value, row, params) == Some(True3)
  }

  lemma ClauseMeans(env: Env, metadata: seq<Column>, q: Query, row: Row, params: seq<Value>)
    requires |metadata| == |env.declared| && ParamsTyped(env, params) && RowFits(env.table, row)
    requires CompileWhere(env, metadata, WhereOf(q)).Compiled?
    ensures RowMatches(row, CompileWhere(env, metadata, WhereOf(q)).value, params) == Some(Qualifies(env, q, row, params))
  {
    if WhereOf(q).Some? {
      WhereMeans(env, metadata, WhereOf(q).value, row, params);
    }
  }

  lemma BodyTouches(env: Env, metadata: seq<Column>, q: Query, row: Row, params: seq<Value>)
    requires |metadata| == |env.declared| && ParamsTyped(env, params) && RowFits(env.table, row)
    requires Body(env, metadata, q).Compiled? && !q.InsertQuery?
    ensures RowMatches(row, Body(env, metadata, q).value.predicates, params) == Some(Qualifies(env, q, row, params))
  {
    hide RowMatches, Qualifies, CompileWhere, CompileSets, CompileFields, CompileOrder, CompileLimit, RowFits, ParamsTyped;
    var before := if q.UpdateQuery? then CompileSets(env, metadata, q.sets).metadata else metadata;
    ClauseMeans(env, before, q, row, params);
  }

  function EnvOf(q: Query, declared: seq<Parameter>, tables: seq<Table>, database: string): Env
    requires TableOf(q, tables, database).Some?
  {
    Env(TableOf(q, tables, database).value, database, declared, QueryMarkers(q))
  }

  lemma ParamsAreTyped(q: Query, declared: seq<Parameter>, tables: seq<Table>, database: string, params: seq<Value>)
    requires Compile(q, declared, tables, database).Some?
    requires ParamsFit(Compile(q, declared, tables, database).value, params)
    ensures ParamsTyped(EnvOf(q, declared, tables, database), params)
  {
    CompiledPlanIsOk(q, declared, tables, database);
  }

  /** An accepted SELECT, UPDATE or DELETE touches exactly the rows in which its condition is true
      under SQL's three-valued logic. */
  lemma StatementTouchesTrueRows(q: Query, declared: seq<Parameter>, tables: seq<Table>, database: string,
                                 row: Row, params: seq<Value>)
    requires Compile(q, declared, tables, database).Some? && !q.InsertQuery?
    requires ParamsFit(Compile(q, declared, tables, database).value, params)
    requires RowFits(TableOf(q, tables, database).value, row)
    ensures RowMatches(row, Compile(q, declared, tables, database).value.predicates, params)
         == Some(Qualifies(EnvOf(q, declared, tables, database), q, row, params))
  {
    ParamsAreTyped(q, declared, tables, database, params);
    var env := EnvOf(q, declared, tables, database);
    BodyTouches(env, Unbound(|declared|), q, row, params);
    hide RowMatches, Qualifies, Body, QueryMarkers, RowFits, ParamsTyped;
  }

  // ---- what an UPDATE puts there ----

  /** What a SET clause gives in a row: for `column + e` the sum of the two numbers. Unlike in SQL,
      where it is NULL, a sum with a NULL has no value, and neither has one out of range. */
  function SetValue(env: Env, s: SetClause, row: Row, params: seq<Value>): Option<Value> {
    if s.value.Binary? then
      match (ValueIn(env, s.value.left, row, params), ValueIn(env, s.value.right, row, params))
      case (Some(a), Some(b)) =>
        if a.AsInt64().Some? && b.AsInt64().Some? && IsInt64(a.AsInt64().value + b.AsInt64().value)
        then Some(Int(a.AsInt64().value + b.AsInt64().value)) else None
      case _ => None
    else ValueIn(env, s.value, row, params)
  }

  /** The SQL parser accepts no empty column name. */
  ghost predicate Named(t: Table) {
    forall f :: f in t.columns ==> f.column.name != ""
  }

  /** The same value, but for the type a NULL carries. */
  predicate SameValue(v: Option<Value>, w: Option<Value>) {
    v.Some? == w.Some? && (v.Some? ==> v.value.IsNull() == w.value.IsNull() && (!v.value.IsNull() ==> Alike(v.value, w.value)))
  }

  predicate HasType(v: Option<Value>, typ: Type) {
    v.Some? ==> v.value.typ == typ
  }

  /** A compiled SET clause assigns to its column the value of its expression in the row. */
  lemma SetMeans(env: Env, metadata: seq<Column>, before: seq<Assignment>, s: SetClause, row: Row, params: seq<Value>)
    requires |metadata| == |env.declared| && ParamsTyped(env, params)
    requires Named(env.table) && CompileSet(env, metadata, before, s).Compiled?
    ensures ColumnOf(env, s.column).Some?
    ensures CompileSet(env, metadata, before, s).value.column == ColumnOf(env, s.column).value.column.name
    ensures SameValue(AssignedValue(row, CompileSet(env, metadata, before, s).value, params), SetValue(env, s, row, params))
    ensures HasType(AssignedValue(row, CompileSet(env, metadata, before, s).value, params), ColumnOf(env, s.column).value.column.typ)
  {
    var f := ColumnOf(env, s.column).value;
    var a := CompileSet(env, metadata, before, s).value;
    if s.value.Binary? {
      OperandMeans(env, metadata, s.value.right, f, row, params);
      SumMeans(row, a, params, ValueIn(env, s.value.left, row, params).value, ValueIn(env, s.value.right, row, params).value);
    } else {
      PlainMeans(env, metadata, s.value, f, row, params);
    }
  }

  lemma PlainMeans(env: Env, metadata: seq<Column>, e: Expr, f: Field, row: Row, params: seq<Value>)
    requires |metadata| == |env.declared| && ParamsTyped(env, params)
    requires CompileOperand(env, metadata, e, f.column).Compiled?
    ensures SameValue(OperandValue(CompileOperand(env, metadata, e, f.column).value, params), ValueIn(env, e, row, params))
    ensures HasType(OperandValue(CompileOperand(env, metadata, e, f.column).value, params), f.column.typ)
  {
    OperandMeans(env, metadata, e, f, row, params);
    hide ValueIn, CompileOperand;
  }

  /** The guarded addition is the sum of the numbers, where there is one. */
  lemma SumMeans(row: Row, a: Assignment, params: seq<Value>, left: Value, right: Value)
    requires a.addFrom != "" && Cell(row, a.addFrom) == left
    requires OperandValue(a.value, params).Some?
    requires var v := OperandValue(a.value, params).value; v.IsNull() == right.IsNull() && (!v.IsNull() ==> v == right)
    ensures AssignedValue(row, a, params)
         == if left.AsInt64().Some? && right.AsInt64().Some? && IsInt64(left.AsInt64().value + right.AsInt64().value)
            then Some(Int(left.AsInt64().value + right.AsInt64().value)) else None
  {
  }

  lemma {:induction false} SetsMean(env: Env, metadata: seq<Column>, sets: seq<SetClause>, i: nat, row: Row, params: seq<Value>)
    requires |metadata| == |env.declared| && ParamsTyped(env, params)
    requires Named(env.table) && CompileSets(env, metadata, sets).Compiled? && i < |sets|
    ensures |CompileSets(env, metadata, sets).value| == |sets| && ColumnOf(env, sets[i].column).Some?
    ensures CompileSets(env, metadata, sets).value[i].column == ColumnOf(env, sets[i].column).value.column.name
    ensures SameValue(AssignedValue(row, CompileSets(env, metadata, sets).value[i], params), SetValue(env, sets[i], row, params))
    ensures HasType(AssignedValue(row, CompileSets(env, metadata, sets).value[i], params), ColumnOf(env, sets[i].column).value.column.typ)
    decreases |sets|
  {
    hide CompileSet, AssignedValue, SetValue, ColumnOf, ParamsTyped, SameValue, HasType;
    var n := |sets| - 1;
    var before := CompileSets(env, metadata, sets[..n]);
    SetsCount(env, metadata, sets);
    if i < n {
      SetsMean(env, metadata, sets[..n], i, row, params);
    } else {
      SetMeans(env, before.metadata, before.value, sets[n], row, params);
    }
  }

  lemma {:induction false} SetsCount(env: Env, metadata: seq<Column>, sets: seq<SetClause>)
    requires CompileSets(env, metadata, sets).Compiled?
    ensures |CompileSets(env, metadata, sets).value| == |sets|
    ensures sets != [] ==> |CompileSets(env, metadata, sets[..|sets| - 1]).value| == |sets| - 1
    decreases |sets|
  {
    hide CompileSet;
    if sets != [] {
      SetsCount(env, metadata, sets[..|sets| - 1]);
    }
  }

  /** The row with every SET clause evaluated in the row as it was, the other columns untouched. */
  ghost predicate Updated(env: Env, sets: seq<SetClause>, row: Row, params: seq<Value>, after: Row) {
    && (forall i :: 0 <= i < |sets| ==>
          && ColumnOf(env, sets[i].column).Some?
          && ColumnOf(env, sets[i].column).value.column.name in after
          && SameValue(Some(after[ColumnOf(env, sets[i].column).value.column.name]), SetValue(env, sets[i], row, params)))
    && (forall c :: c in row && (forall i :: 0 <= i < |sets| && ColumnOf(env, sets[i].column).Some? ==>
                                   ColumnOf(env, sets[i].column).value.column.name != c) ==>
          c in after && after[c] == row[c])
  }

  ghost predicate SetFails(env: Env, sets: seq<SetClause>, row: Row, params: seq<Value>) {
    exists i :: 0 <= i < |sets| && SetValue(env, sets[i], row, params).None?
  }

  /** The two values are told apart: one is NULL and the other is not, or neither is and they are
      not equal. */
  predicate IsDistinct(a: Value, b: Value) {
    if a.IsNull() || b.IsNull() then a.IsNull() != b.IsNull() else !EqualValue(a, b)
  }

  /** Some SET clause has a value that the row does not hold yet. */
  ghost predicate SetDiffers(env: Env, sets: seq<SetClause>, row: Row, params: seq<Value>) {
    exists i :: 0 <= i < |sets| && ClauseDiffers(env, sets[i], row, params)
  }

  predicate ClauseDiffers(env: Env, s: SetClause, row: Row, params: seq<Value>) {
    && ColumnOf(env, s.column).Some? && SetValue(env, s, row, params).Some?
    && IsDistinct(Cell(row, ColumnOf(env, s.column).value.column.name), SetValue(env, s, row, params).value)
  }

  lemma AssignmentsOfUpdate(q: Query, declared: seq<Parameter>, tables: seq<Table>, database: string)
    requires q.UpdateQuery? && Compile(q, declared, tables, database).Some?
    ensures var env := EnvOf(q, declared, tables, database);
            && CompileSets(env, Unbound(|declared|), q.sets).Compiled?
            && Compile(q, declared, tables, database).value.assignments == CompileSets(env, Unbound(|declared|), q.sets).value
            && Compile(q, declared, tables, database).value.kind == Update
  {
    hide CompileSets, QueryMarkers, CompileWhere;
  }

  /** The assignments are the SET clauses, with the same values in this row. */
  ghost predicate Renders(env: Env, sets: seq<SetClause>, assignments: seq<Assignment>, row: Row, params: seq<Value>) {
    |assignments| == |sets| && forall i :: 0 <= i < |sets| ==>
      && ColumnOf(env, sets[i].column).Some?
      && assignments[i].column == ColumnOf(env, sets[i].column).value.column.name
      && SameValue(AssignedValue(row, assignments[i], params), SetValue(env, sets[i], row, params))
      && HasType(AssignedValue(row, assignments[i], params), ColumnOf(env, sets[i].column).value.column.typ)
  }

  lemma SetAtOnceIsUpdated(env: Env, sets: seq<SetClause>, assignments: seq<Assignment>, row: Row, params: seq<Value>, after: Row)
    requires Renders(env, sets, assignments, row, params) && RowMeaning.SetAtOnce(row, assignments, params, after)
    ensures Updated(env, sets, row, params, after)
  {
    hide AssignedValue, SetValue, ColumnOf;
    forall c | c in row && (forall i :: 0 <= i < |sets| && ColumnOf(env, sets[i].column).Some? ==>
                              ColumnOf(env, sets[i].column).value.column.name != c)
      ensures c in after && after[c] == row[c]
    {
      assert !RowMeaning.Targets(assignments, c);
    }
  }

  lemma CompiledRenders(q: Query, declared: seq<Parameter>, tables: seq<Table>, database: string, row: Row, params: seq<Value>)
    requires q.UpdateQuery? && Compile(q, declared, tables, database).Some?
    requires ParamsFit(Compile(q, declared, tables, database).value, params) && Named(TableOf(q, tables, database).value)
    ensures Renders(EnvOf(q, declared, tables, database), q.sets, Compile(q, declared, tables, database).value.assignments, row, params)
  {
    var env, plan := EnvOf(q, declared, tables, database), Compile(q, declared, tables, database).value;
    ParamsAreTyped(q, declared, tables, database, params);
    AssignmentsOfUpdate(q, declared, tables, database);
    SetsCount(env, Unbound(|declared|), q.sets);
    hide Compile, CompileSets, AssignedValue, SetValue, ColumnOf, TableOf, QueryMarkers, ParamsFit, SameValue, HasType;
    forall i | 0 <= i < |q.sets|
      ensures ColumnOf(env, q.sets[i].column).Some?
      ensures plan.assignments[i].column == ColumnOf(env, q.sets[i].column).value.column.name
      ensures SameValue(AssignedValue(row, plan.assignments[i], params), SetValue(env, q.sets[i], row, params))
      ensures HasType(AssignedValue(row, plan.assignments[i], params), ColumnOf(env, q.sets[i].column).value.column.typ)
    {
      SetsMean(env, Unbound(|declared|), q.sets, i, row, params);
    }
  }

  lemma SameFailures(env: Env, sets: seq<SetClause>, assignments: seq<Assignment>, row: Row, params: seq<Value>)
    requires Renders(env, sets, assignments, row, params)
    ensures SetFails(env, sets, row, params)
       <==> exists i :: 0 <= i < |assignments| && AssignedValue(row, assignments[i], params).None?
  {
    hide AssignedValue, SetValue, ColumnOf;
    if i :| 0 <= i < |assignments| && AssignedValue(row, assignments[i], params).None? {
      assert SetValue(env, sets[i], row, params).None?;
    }
  }

  lemma SameDifference(env: Env, s: SetClause, a: Assignment, row: Row, params: seq<Value>)
    requires ColumnOf(env, s.column).Some? && a.column == ColumnOf(env, s.column).value.column.name
    requires SameValue(AssignedValue(row, a, params), SetValue(env, s, row, params))
    requires HasType(AssignedValue(row, a, params), ColumnOf(env, s.column).value.column.typ)
    requires RowFits(env.table, row)
    ensures RowMeaning.Differs(row, a, params) <==> ClauseDiffers(env, s, row, params)
  {
    FittingCell(env.table, row, ColumnOf(env, s.column).value);
    hide AssignedValue, SetValue, RowFits;
  }

  lemma SameDifferences(env: Env, sets: seq<SetClause>, assignments: seq<Assignment>, row: Row, params: seq<Value>)
    requires Renders(env, sets, assignments, row, params) && RowFits(env.table, row)
    ensures SetDiffers(env, sets, row, params)
       <==> exists i :: 0 <= i < |assignments| && RowMeaning.Differs(row, assignments[i], params)
  {
    hide AssignedValue, SetValue, ColumnOf, ClauseDiffers, RowMeaning.Differs, SameValue, HasType, RowFits;
    forall i | 0 <= i < |sets| ensures RowMeaning.Differs(row, assignments[i], params) <==> ClauseDiffers(env, sets[i], row, params) {
      SameDifference(env, sets[i], assignments[i], row, params);
    }
  }

  /** An accepted UPDATE, on one row, in SQL's terms: rows in which the condition is not true are
      skipped; otherwise it fails exactly when some SET clause has no value in the row, writes the
      row exactly when some clause has a value the row does not hold yet, and a row it writes has
      every clause's value, all evaluated in the row as it was. */
  lemma UpdateMeans(q: Query, declared: seq<Parameter>, tables: seq<Table>, database: string, row: Row, params: seq<Value>)
    requires WellFormed(tables) && q.UpdateQuery? && Compile(q, declared, tables, database).Some?
    requires ParamsFit(Compile(q, declared, tables, database).value, params)
    requires Named(TableOf(q, tables, database).value) && RowFits(TableOf(q, tables, database).value, row)
    ensures var env := EnvOf(q, declared, tables, database);
            match UpdateEffect(Compile(q, declared, tables, database).value, params, row)
            case Skip => !Qualifies(env, q, row, params)
            case Bad => Qualifies(env, q, row, params) && SetFails(env, q.sets, row, params)
            case Same => Qualifies(env, q, row, params) && !SetFails(env, q.sets, row, params)
                         && !SetDiffers(env, q.sets, row, params)
            case Put(r) => Qualifies(env, q, row, params) && !SetFails(env, q.sets, row, params)
                           && SetDiffers(env, q.sets, row, params)
                           && exists after :: Updated(env, q.sets, row, params, after) && r == Clone(after)
  {
    var env, plan := EnvOf(q, declared, tables, database), Compile(q, declared, tables, database).value;
    CompiledPlanIsOk(q, declared, tables, database);
    CompiledPlansKeepKeys(plan, declared, tables);
    AssignmentsOfUpdate(q, declared, tables, database);
    StatementTouchesTrueRows(q, declared, tables, database, row, params);
    CompiledRenders(q, declared, tables, database, row, params);
    SameFailures(env, q.sets, plan.assignments, row, params);
    SameDifferences(env, q.sets, plan.assignments, row, params);
    RowMeaning.UpdateSetsAtOnce(plan, params, row);
    hide *;
    if UpdateEffect(plan, params, row).Put? {
      var after :| RowMeaning.SetAtOnce(row, plan.assignments, params, after) && UpdateEffect(plan, params, row).row == Clone(after);
      SetAtOnceIsUpdated(env, q.sets, plan.assignments, row, params, after);
    }
  }

  // ---- what an INSERT puts there ----

  lemma {:induction false} InsertsCount(env: Env, metadata: seq<Column>, columns: seq<Expr>, values: seq<Expr>)
    requires |columns| == |values| && CompileInserts(env, metadata, columns, values).Compiled?
    ensures |CompileInserts(env, metadata, columns, values).value| == |columns|
    decreases |columns|
  {
    hide InsertOne;
    if columns != [] {
      var n := |columns| - 1;
      InsertsCount(env, metadata, columns[..n], values[..n]);
    }
  }

  lemma InsertOneMeans(env: Env, metadata: seq<Column>, before: seq<Assignment>, column: Expr, value: Expr, params: seq<Value>)
    requires |metadata| == |env.declared| && ParamsTyped(env, params)
    requires InsertOne(env, metadata, before, column, value).Compiled?
    ensures var a := InsertOne(env, metadata, before, column, value).value;
            && ColumnOf(env, column).Some? && a.column == ColumnOf(env, column).value.column.name
            && GivenMeans(a, env, value, params)
  {
    OperandMeans(env, metadata, value, ColumnOf(env, column).value, map[], params);
  }

  /** The assignment gives the value of the expression; a copy of it is the same value. */
  ghost predicate GivenMeans(a: Assignment, env: Env, value: Expr, params: seq<Value>) {
    && OperandValue(a.value, params).Some?
    && SameValue(Some(CloneValue(OperandValue(a.value, params).value)), ValueIn(env, value, map[], params))
  }

  lemma {:induction false} InsertsMean(env: Env, metadata: seq<Column>, columns: seq<Expr>, values: seq<Expr>, i: nat, params: seq<Value>)
    requires |metadata| == |env.declared| && ParamsTyped(env, params) && |columns| == |values|
    requires CompileInserts(env, metadata, columns, values).Compiled? && i < |columns|
    ensures |CompileInserts(env, metadata, columns, values).value| == |columns| && ColumnOf(env, columns[i]).Some?
    ensures CompileInserts(env, metadata, columns, values).value[i].column == ColumnOf(env, columns[i]).value.column.name
    ensures GivenMeans(CompileInserts(env, metadata, columns, values).value[i], env, values[i], params)
    decreases |columns|
  {
    hide InsertOne, GivenMeans, ColumnOf, ParamsTyped;
    var n := |columns| - 1;
    var before := CompileInserts(env, metadata, columns[..n], values[..n]);
    InsertsCount(env, metadata, columns, values);
    InsertsCount(env, metadata, columns[..n], values[..n]);
    if i < n {
      InsertsMean(env, metadata, columns[..n], values[..n], i, params);
    } else {
      InsertOneMeans(env, before.metadata, before.value, columns[n], values[n], params);
    }
  }

  lemma AssignmentsOfInsert(q: Query, declared: seq<Parameter>, tables: seq<Table>, database: string)
    requires q.InsertQuery? && Compile(q, declared, tables, database).Some?
    ensures var env := EnvOf(q, declared, tables, database);
            && |q.columns| == |q.values| && CompileInserts(env, Unbound(|declared|), q.columns, q.values).Compiled?
            && Compile(q, declared, tables, database).value.assignments
               == CompileInserts(env, Unbound(|declared|), q.columns, q.values).value
            && Compile(q, declared, tables, database).value.kind == Insert
  {
    hide CompileInserts, QueryMarkers;
  }

  /** The statement names the column in this position. */
  predicate NamesAt(env: Env, columns: seq<Expr>, i: nat, name: string)
    requires i < |columns|
  {
    ColumnOf(env, columns[i]).Some? && ColumnOf(env, columns[i]).value.column.name == name
  }

  /** What the row holds in a column that is not generated: the value of the statement's expression,
      else the declared default, else NULL where that is allowed, else nothing. */
  ghost predicate Inserted(env: Env, columns: seq<Expr>, values: seq<Expr>, f: Field, params: seq<Value>, row: Row)
    requires |columns| == |values|
  {
    var name := f.column.name;
    if exists i :: 0 <= i < |columns| && NamesAt(env, columns, i, name)
    then name in row && forall i :: 0 <= i < |columns| && NamesAt(env, columns, i, name) ==>
           SameValue(Some(row[name]), ValueIn(env, values[i], map[], params))
    else if f.default.Some? then name in row && row[name] == CloneValue(f.default.value)
    else if f.column.nullable then name in row && row[name] == NullOf(f.column.typ)
    else name !in row
  }

  /** The assignments are the statement's columns with their values. */
  ghost predicate RendersInsert(env: Env, columns: seq<Expr>, values: seq<Expr>, assignments: seq<Assignment>, params: seq<Value>)
    requires |columns| == |values|
  {
    |assignments| == |columns| && forall i :: 0 <= i < |columns| ==>
      NamesAt(env, columns, i, assignments[i].column) && GivenMeans(assignments[i], env, values[i], params)
  }

  lemma CompiledRendersInsert(q: Query, declared: seq<Parameter>, tables: seq<Table>, database: string, params: seq<Value>)
    requires q.InsertQuery? && Compile(q, declared, tables, database).Some?
    requires ParamsFit(Compile(q, declared, tables, database).value, params)
    ensures |q.columns| == |q.values|
    ensures RendersInsert(EnvOf(q, declared, tables, database), q.columns, q.values,
                          Compile(q, declared, tables, database).value.assignments, params)
  {
    var env, plan := EnvOf(q, declared, tables, database), Compile(q, declared, tables, database).value;
    ParamsAreTyped(q, declared, tables, database, params);
    AssignmentsOfInsert(q, declared, tables, database);
    InsertsCount(env, Unbound(|declared|), q.columns, q.values);
    hide Compile, CompileInserts, ColumnOf, TableOf, QueryMarkers, ParamsFit, GivenMeans;
    forall i | 0 <= i < |q.columns|
      ensures NamesAt(env, q.columns, i, plan.assignments[i].column) && GivenMeans(plan.assignments[i], env, q.values[i], params)
    {
      InsertsMean(env, Unbound(|declared|), q.columns, q.values, i, params);
    }
  }

  lemma GivesIsInserted(env: Env, columns: seq<Expr>, values: seq<Expr>, assignments: seq<Assignment>, params: seq<Value>, f: Field, row: Row)
    requires |columns| == |values| && RendersInsert(env, columns, values, assignments, params)
    requires RowMeaning.InsertGives(f, assignments, params, row)
    ensures Inserted(env, columns, values, f, params, row)
  {
    hide ColumnOf, ValueIn, CloneValue;
    if i :| 0 <= i < |columns| && NamesAt(env, columns, i, f.column.name) {
      assert assignments[i].column == f.column.name;
    }
  }

  /** An accepted INSERT that succeeds writes one row, and in every column that is not generated the
      row holds what the statement says. */
  lemma InsertMeans(q: Query, declared: seq<Parameter>, tables: seq<Table>, database: string, params: seq<Value>,
                    view: View, next: int, f: Field)
    requires WellFormed(tables) && q.InsertQuery? && Compile(q, declared, tables, database).Some?
    requires ParamsFit(Compile(q, declared, tables, database).value, params)
    requires var t := TableOf(q, tables, database).value;
             && f in t.columns && !f.autoIncrement
             && InsertOutcome(t, Compile(q, declared, tables, database).value, params, view, next).Write?
    ensures |q.columns| == |q.values|
    ensures var t := TableOf(q, tables, database).value;
            var changes := InsertOutcome(t, Compile(q, declared, tables, database).value, params, view, next).changes;
            |changes| == 1 && forall id :: id in changes ==>
              changes[id].Some? && Inserted(EnvOf(q, declared, tables, database), q.columns, q.values, f, params, changes[id].value)
  {
    var t, env, plan := TableOf(q, tables, database).value, EnvOf(q, declared, tables, database), Compile(q, declared, tables, database).value;
    CompiledPlanIsOk(q, declared, tables, database);
    CompiledPlansKeepKeys(plan, declared, tables);
    AssignmentsOfInsert(q, declared, tables, database);
    CompiledRendersInsert(q, declared, tables, database, params);
    KnownTable(q, tables, database);
    RowMeaning.InsertedRowMeans(t, plan, params, view, next, f);
    hide *;
    var changes := InsertOutcome(t, plan, params, view, next).changes;
    forall id | id in changes ensures changes[id].Some? && Inserted(env, q.columns, q.values, f, params, changes[id].value) {
      GivesIsInserted(env, q.columns, q.values, plan.assignments, params, f, changes[id].value);
    }
  }

  lemma KnownTable(q: Query, tables: seq<Table>, database: string)
    requires WellFormed(tables) && TableOf(q, tables, database).Some?
    ensures WellFormedTable(TableOf(q, tables, database).value)
  {
  }
}
