/** What compiled plans mean: SQL's three-valued truth, and the restrictions on every plan. */
module CompilerMeaning {
  import opened Values
  import opened Schema
  import opened Plans
  import opened CompilerSpec

  // ---- three-valued logic (SQL-92, sections 8.2 and 8.12) ----

  datatype Truth = True3 | False3 | Unknown3

  function And3(a: Truth, b: Truth): Truth {
    if a == False3 || b == False3 then False3 else if a == Unknown3 || b == Unknown3 then Unknown3 else True3
  }

  /** The comparison `a = b`: unknown with a NULL, else by number or by text. */
  function Equal3(a: Value, b: Value): Truth {
    if a.IsNull() || b.IsNull() then Unknown3
    else if a.typ != b.typ then False3
    else if a.typ == BIGINT then (if a.AsInt64() == b.AsInt64() then True3 else False3)
    else if a.AsString() == b.AsString() then True3 else False3
  }

  /** The value of an operand in a row; `None` outside the subset. */
  function ValueIn(env: Env, e: Expr, row: Row, params: seq<Value>): Option<Value> {
    match e
    case Col(_, _, _) => (match ColumnOf(env, e) case None => None case Some(f) => Some(Cell(row, f.column.name)))
    case Marker(o) => if Rank(env.markers, o) < |params| then Some(params[Rank(env.markers, o)]) else None
    case Lit(NullLiteral) => Some(NullOf(OTHER_TYPE))
    case Lit(IntLiteral(n)) => Some(Int(n))
    case Lit(TextLiteral(s)) => Some(Value(VARCHAR, Text(s)))
    case _ => None
  }

  /** The truth of a condition in a row; `None` outside the subset. */
  function TruthIn(env: Env, e: Expr, row: Row, params: seq<Value>): Option<Truth> {
    match e
    case Paren(inner) => TruthIn(env, inner, row, params)
    case Binary(And, l, r) =>
      var a, b := TruthIn(env, l, row, params), TruthIn(env, r, row, params);
      if a.Some? && b.Some? then Some(And3(a.value, b.value)) else None
    case Binary(Eq, l, r) =>
      var a, b := ValueIn(env, l, row, params), ValueIn(env, r, row, params);
      if a.Some? && b.Some? then Some(Equal3(a.value, b.value)) else None
    case _ => None
  }

  ghost predicate ParamsTyped(env: Env, params: seq<Value>) {
    |params| == |env.declared| && forall i :: 0 <= i < |params| ==> Fits(DeclaredColumn(env.declared[i]), params[i])
  }

  /** The expression names this column of the statement's table: unqualified, or qualified by that
      table and by the scenario's own database. */
  predicate Resolves(env: Env, e: Expr, f: Field) {
    && e.Col? && (e.schema == "" || e.schema == env.database) && (e.qualifier == "" || e.qualifier == env.table.name)
    && f in env.table.columns && f.column.name == e.name
  }

  lemma ColumnOfResolves(env: Env, e: Expr, f: Field)
    requires WellFormedTable(env.table)
    ensures ColumnOf(env, e) == Some(f) <==> Resolves(env, e, f)
  {
  }

  // ---- ranks of markers ----

  /** Later markers get larger indexes, and all indexes lie below the number of markers. */
  lemma RankOrder(markers: set<nat>, a: nat, b: nat)
    requires a in markers && b in markers && a < b
    ensures Rank(markers, a) < Rank(markers, b) < |markers|
  {
    var below, less := Before(markers, a), Before(markers, b);
    assert below + {a} <= less && a !in below;
    assert less + {b} <= markers && b !in less;
    Smaller(below + {a}, less);
    Smaller(less + {b}, markers);
  }

  lemma Smaller(a: set<nat>, b: set<nat>)
    requires a <= b
    ensures |a| <= |b|
  {
    assert b == a + (b - a);
  }

  // ---- one comparison ----

  /** Fitting values of one type are equal as stored exactly when they are equal in SQL. */
  lemma StoredEquality(a: Value, b: Value, c: Column, d: Column)
    requires c.typ == d.typ && Fits(c, a) && Fits(d, b)
    ensures !a.IsNull() && !b.IsNull() ==> (EqualValue(a, b) <==> Equal3(a, b) == True3)
  {
  }

  lemma FittingCell(t: Table, row: Row, f: Field)
    requires RowFits(t, row) && f in t.columns
    ensures Fits(f.column, Cell(row, f.column.name))
  {
    var i :| 0 <= i < |t.columns| && t.columns[i] == f;
    assert CellFits(t.columns[i], row);
  }

  /** A compiled operand has, in every row, the value of its expression; only the type of a NULL
      literal is taken from the column. */
  lemma OperandMeans(env: Env, metadata: seq<Column>, e: Expr, f: Field, row: Row, params: seq<Value>)
    requires |metadata| == |env.declared| && ParamsTyped(env, params)
    requires CompileOperand(env, metadata, e, f.column).Compiled?
    ensures OperandValue(CompileOperand(env, metadata, e, f.column).value, params).Some?
    ensures ValueIn(env, e, row, params).Some?
    ensures var v := OperandValue(CompileOperand(env, metadata, e, f.column).value, params).value;
            var w := ValueIn(env, e, row, params).value;
            && v.typ == f.column.typ && v.IsNull() == w.IsNull() && (!v.IsNull() ==> v == w)
            && exists c: Column :: c.typ == f.column.typ && Fits(c, v)
  {
    if e.Marker? {
      var i := Rank(env.markers, e.offset);
      assert Fits(DeclaredColumn(env.declared[i]), params[i]);
    } else {
      var v := LiteralValue(e, f.column.typ).value;
      assert Fits(f.column, v);
    }
  }

  lemma ComparisonMeans(env: Env, metadata: seq<Column>, e: Expr, row: Row, params: seq<Value>)
    requires e.Binary? && e.op == Eq && |metadata| == |env.declared| && ParamsTyped(env, params) && RowFits(env.table, row)
    requires CompilePredicates(env, metadata, e).Compiled?
    ensures Means(env, metadata, e, row, params)
  {
    var f := ColumnOf(env, e.left).value;
    var op := CompileOperand(env, metadata, e.right, f.column).value;
    OperandMeans(env, metadata, e.right, f, row, params);
    FittingCell(env.table, row, f);
    var v, w := OperandValue(op, params).value, ValueIn(env, e.right, row, params).value;
    var cell := Cell(row, f.column.name);
    var c: Column :| c.typ == f.column.typ && Fits(c, v);
    StoredEquality(cell, v, f.column, c);
    var preds := CompilePredicates(env, metadata, e).value;
    assert preds == [Predicate(f.column.name, op)] && preds[1..] == [];
    assert RowMatches(row, preds[1..], params) == Some(true);
  }

  // ---- conditions ----

  lemma {:induction false} MatchesBoth(row: Row, a: seq<Predicate>, b: seq<Predicate>, params: seq<Value>)
    ensures RowMatches(row, a + b, params)
         == if RowMatches(row, a, params) == Some(true) then RowMatches(row, b, params) else RowMatches(row, a, params)
  {
    if a == [] {
      assert a + b == b;
    } else {
      assert (a + b)[1..] == a[1..] + b && (a + b)[0] == a[0];
      MatchesBoth(row, a[1..], b, params);
    }
  }

  /** The compiled predicates hold of the row exactly when the condition is true in it. */
  ghost predicate Means(env: Env, metadata: seq<Column>, e: Expr, row: Row, params: seq<Value>)
    requires CompilePredicates(env, metadata, e).Compiled?
  {
    && TruthIn(env, e, row, params).Some?
    && RowMatches(row, CompilePredicates(env, metadata, e).value, params)
       == Some(TruthIn(env, e, row, params).value == True3)
  }

  /** The WHERE compiler preserves three-valued logic: on every condition it accepts, nested
      parentheses and NULL operands included, the flat predicate list accepts exactly the rows for
      which the condition is true, and never fails. */
  lemma {:induction false} WhereMeans(env: Env, metadata: seq<Column>, e: Expr, row: Row, params: seq<Value>)
    requires |metadata| == |env.declared| && ParamsTyped(env, params) && RowFits(env.table, row)
    requires CompilePredicates(env, metadata, e).Compiled?
    ensures Means(env, metadata, e, row, params)
    decreases e
  {
    match e
    case Paren(inner) => WhereMeans(env, metadata, inner, row, params);
    case Binary(And, l, r) =>
      var a := CompilePredicates(env, metadata, l);
      WhereMeans(env, metadata, l, row, params);
      WhereMeans(env, a.metadata, r, row, params);
      MatchesBoth(row, a.value, CompilePredicates(env, a.metadata, r).value, params);
    case Binary(Eq, _, _) => ComparisonMeans(env, metadata, e, row, params);
    case _ =>
  }

  // ---- which conditions are accepted ----

  predicate AcceptsOperand(env: Env, e: Expr, column: Column) {
    if e.Marker? then
      var i := Rank(env.markers, e.offset);
      i < |env.declared| && env.declared[i].typ == column.typ && AllowedFit(env.declared[i])
    else LiteralValue(e, column.typ).Some? && Fits(column, LiteralValue(e, column.typ).value)
  }

  /** Conjunctions, in any nesting, of equalities between a column and a fitting operand. */
  predicate Accepts(env: Env, e: Expr) {
    match e
    case Paren(inner) => Accepts(env, inner)
    case Binary(And, l, r) => Accepts(env, l) && Accepts(env, r)
    case Binary(Eq, l, r) => ColumnOf(env, l).Some? && AcceptsOperand(env, r, ColumnOf(env, l).value.column)
    case _ => false
  }

  /** The compiler accepts exactly these conditions and rejects every other tree. */
  lemma {:induction false} AcceptedConditions(env: Env, metadata: seq<Column>, e: Expr)
    requires |metadata| == |env.declared|
    ensures CompilePredicates(env, metadata, e).Compiled? <==> Accepts(env, e)
    decreases e
  {
    match e
    case Paren(inner) => AcceptedConditions(env, metadata, inner);
    case Binary(And, l, r) =>
      AcceptedConditions(env, metadata, l);
      if CompilePredicates(env, metadata, l).Compiled? {
        AcceptedConditions(env, CompilePredicates(env, metadata, l).metadata, r);
      }
    case _ =>
  }

  // ---- parameters ----

  /** A parameter that is bound is bound to its own declaration. */
  ghost predicate BoundAsDeclared(env: Env, metadata: seq<Column>) {
    |metadata| == |env.declared| &&
    forall i :: 0 <= i < |metadata| ==> metadata[i] == UNBOUND || metadata[i] == DeclaredColumn(env.declared[i])
  }

  predicate OperandOk(op: Operand, n: nat) {
    match op.parameter
    case Some(i) => 0 <= i < n && op.literal.None?
    case None => op.literal.Some? && !op.literal.value.data.Garbled?
  }

  predicate PredicatesOk(ps: seq<Predicate>, n: nat) {
    forall i :: 0 <= i < |ps| ==> OperandOk(ps[i].value, n)
  }

  predicate AssignmentsOk(as_: seq<Assignment>, n: nat) {
    forall i :: 0 <= i < |as_| ==> OperandOk(as_[i].value, n)
  }

  lemma OperandBinds(env: Env, metadata: seq<Column>, e: Expr, column: Column)
    requires BoundAsDeclared(env, metadata) && CompileOperand(env, metadata, e, column).Compiled?
    ensures var r := CompileOperand(env, metadata, e, column);
            BoundAsDeclared(env, r.metadata) && OperandOk(r.value, |env.declared|)
  {
  }

  lemma {:induction false} PredicatesBind(env: Env, metadata: seq<Column>, e: Expr)
    requires BoundAsDeclared(env, metadata) && CompilePredicates(env, metadata, e).Compiled?
    ensures var r := CompilePredicates(env, metadata, e);
            BoundAsDeclared(env, r.metadata) && PredicatesOk(r.value, |env.declared|)
    decreases e
  {
    match e
    case Paren(inner) => PredicatesBind(env, metadata, inner);
    case Binary(And, l, r) =>
      PredicatesBind(env, metadata, l);
      PredicatesBind(env, CompilePredicates(env, metadata, l).metadata, r);
    case Binary(Eq, l, r) => OperandBinds(env, metadata, r, ColumnOf(env, l).value.column);
    case _ =>
  }

  lemma WhereBinds(env: Env, metadata: seq<Column>, where: Option<Expr>)
    requires BoundAsDeclared(env, metadata) && CompileWhere(env, metadata, where).Compiled?
    ensures var r := CompileWhere(env, metadata, where);
            BoundAsDeclared(env, r.metadata) && PredicatesOk(r.value, |env.declared|)
  {
    if where.Some? {
      PredicatesBind(env, metadata, where.value);
    }
  }

  // ---- assignments ----

  /** Distinct columns. */
  predicate Once(as_: seq<Assignment>) {
    forall i, j :: 0 <= i < j < |as_| ==> as_[i].column != as_[j].column
  }

  /** A plain value, or a BIGINT column added to itself. */
  predicate AdditionOk(t: Table, a: Assignment) {
    a.addFrom == "" || (a.addFrom == a.column && FindField(t.columns, a.column).Some?
                        && FindField(t.columns, a.column).value.column.typ == BIGINT)
  }

  /** What every UPDATE plan keeps to: no primary key, no repeated target, addition only in place. */
  ghost predicate SetsOk(t: Table, as_: seq<Assignment>) {
    Once(as_) && forall i :: 0 <= i < |as_| ==> as_[i].column != PrimaryKey(t) && AdditionOk(t, as_[i])
  }

  lemma {:induction false} InsertsBind(env: Env, metadata: seq<Column>, columns: seq<Expr>, values: seq<Expr>)
    requires |columns| == |values| && BoundAsDeclared(env, metadata)
    requires CompileInserts(env, metadata, columns, values).Compiled?
    ensures var r := CompileInserts(env, metadata, columns, values);
            && BoundAsDeclared(env, r.metadata) && AssignmentsOk(r.value, |env.declared|)
            && Once(r.value) && (forall i :: 0 <= i < |r.value| ==> r.value[i].addFrom == "")
    decreases |columns|
  {
    if columns != [] {
      var n := |columns| - 1;
      InsertsBind(env, metadata, columns[..n], values[..n]);
      var before := CompileInserts(env, metadata, columns[..n], values[..n]);
      OperandBinds(env, before.metadata, values[n], ColumnOf(env, columns[n]).value.column);
    }
  }

  lemma SetBinds(env: Env, metadata: seq<Column>, before: seq<Assignment>, s: SetClause)
    requires BoundAsDeclared(env, metadata) && CompileSet(env, metadata, before, s).Compiled?
    ensures var r := CompileSet(env, metadata, before, s);
            && BoundAsDeclared(env, r.metadata) && OperandOk(r.value.value, |env.declared|)
            && !Assigns(before, r.value.column) && r.value.column != PrimaryKey(env.table) && AdditionOk(env.table, r.value)
  {
    var f := ColumnOf(env, s.column).value;
    OperandBinds(env, metadata, if s.value.Binary? then s.value.right else s.value, f.column);
  }

  lemma {:induction false} SetsBind(env: Env, metadata: seq<Column>, sets: seq<SetClause>)
    requires BoundAsDeclared(env, metadata) && CompileSets(env, metadata, sets).Compiled?
    ensures var r := CompileSets(env, metadata, sets);
            && BoundAsDeclared(env, r.metadata) && AssignmentsOk(r.value, |env.declared|) && SetsOk(env.table, r.value)
    decreases |sets|
  {
    if sets != [] {
      var n := |sets| - 1;
      SetsBind(env, metadata, sets[..n]);
      var before := CompileSets(env, metadata, sets[..n]);
      SetBinds(env, before.metadata, before.value, sets[n]);
    }
  }

  // ---- whole plans ----

  /** What every compiled plan keeps to. */
  ghost predicate PlanOk(plan: Plan, declared: seq<Parameter>, tables: seq<Table>) {
    && FindTable(tables, plan.table).Some?
    && PredicatesOk(plan.predicates, |declared|) && AssignmentsOk(plan.assignments, |declared|)
    && |plan.parameters| == |declared|
    && (forall i :: 0 <= i < |declared| ==> plan.parameters[i] == DeclaredColumn(declared[i]))
    && (plan.kind == Update ==> SetsOk(FindTable(tables, plan.table).value, plan.assignments))
    && (plan.kind == Insert ==> Once(plan.assignments) && forall i :: 0 <= i < |plan.assignments| ==> plan.assignments[i].addFrom == "")
    && (plan.kind == Select || plan.kind == Delete ==> plan.assignments == [])
  }

  lemma BodyOk(env: Env, metadata: seq<Column>, q: Query)
    requires BoundAsDeclared(env, metadata) && Body(env, metadata, q).Compiled?
    ensures var r := Body(env, metadata, q);
            && BoundAsDeclared(env, r.metadata) && r.value.table == env.table.name
            && PredicatesOk(r.value.predicates, |env.declared|) && AssignmentsOk(r.value.assignments, |env.declared|)
            && (r.value.kind == Update ==> SetsOk(env.table, r.value.assignments))
            && (r.value.kind == Insert ==> Once(r.value.assignments) && forall i :: 0 <= i < |r.value.assignments| ==> r.value.assignments[i].addFrom == "")
            && (r.value.kind == Select || r.value.kind == Delete ==> r.value.assignments == [])
  {
    match q
    case SelectQuery(_, _, _, where, _, _) => WhereBinds(env, metadata, where);
    case InsertQuery(_, _, columns, values) => InsertsBind(env, metadata, columns, values);
    case UpdateQuery(_, _, sets, where) =>
      SetsBind(env, metadata, sets);
      WhereBinds(env, CompileSets(env, metadata, sets).metadata, where);
    case DeleteQuery(_, _, where) => WhereBinds(env, metadata, where);
    case OtherQuery(_) =>
  }

  /** Every accepted statement compiles to a plan that binds each parameter to its own declaration,
      uses only bound parameters, never assigns a primary key or one column twice, and adds only a
      BIGINT column to itself. */
  lemma CompiledPlanIsOk(q: Query, declared: seq<Parameter>, tables: seq<Table>, database: string)
    requires Compile(q, declared, tables, database).Some?
    ensures PlanOk(Compile(q, declared, tables, database).value, declared, tables)
  {
    var t := TableOf(q, tables, database).value;
    var env := Env(t, database, declared, QueryMarkers(q));
    BodyOk(env, Unbound(|declared|), q);
    var r := Body(env, Unbound(|declared|), q);
    forall i | 0 <= i < |declared| ensures r.metadata[i] == DeclaredColumn(declared[i]) {
      assert r.metadata[i] != UNBOUND;
    }
  }
}
