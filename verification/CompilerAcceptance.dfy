/** Which statements the compiler accepts. */
module CompilerAcceptance {
  import opened Values
  import opened Schema
  import opened Plans
  import opened CompilerSpec
  import opened CompilerMeaning
  import opened StatementMeaning
  import SelectMeaning

  // ---- operands ----

  /** A marker stands for the declared parameter of its rank, which has the column's type and only allows
      values that fit its declaration; NULL needs a nullable column, a number a BIGINT, a text a VARCHAR. */
  predicate Takes(env: Env, e: Expr, column: Column) {
    match e
    case Marker(o) =>
      var i := Rank(env.markers, o);
      && i < |env.declared| && env.declared[i].typ == column.typ
      && forall j :: 0 <= j < |env.declared[i].allowed| ==> Fits(DeclaredColumn(env.declared[i]), env.declared[i].allowed[j])
    case Lit(NullLiteral) => column.nullable && column.typ != OTHER_TYPE
    case Lit(IntLiteral(n)) => column.typ == BIGINT && n <= MAX_INT64
    case Lit(TextLiteral(_)) => column.typ == VARCHAR
    case _ => false
  }

  lemma TakesOperands(env: Env, e: Expr, column: Column)
    ensures AcceptsOperand(env, e, column) <==> Takes(env, e, column)
  {
    if e.Lit? && e.literal.IntLiteral? && e.literal.n <= MAX_INT64 {
      DecimalRoundTrip(e.literal.n);
    }
    hide ParseInt64, Decimal;
  }

  lemma CompilesOperand(env: Env, metadata: seq<Column>, e: Expr, column: Column)
    requires |metadata| == |env.declared|
    ensures CompileOperand(env, metadata, e, column).Compiled? <==> Takes(env, e, column)
  {
    TakesOperands(env, e, column);
  }

  // ---- which parameters get bound ----

  function MarkerOf(e: Expr): set<nat> {
    if e.Marker? then {e.offset} else {}
  }

  /** The markers of a condition that stand for an operand. */
  function InCondition(e: Expr): set<nat> {
    match e
    case Paren(inner) => InCondition(inner)
    case Binary(And, l, r) => InCondition(l) + InCondition(r)
    case Binary(Eq, _, r) => MarkerOf(r)
    case _ => {}
  }

  function InWhere(where: Option<Expr>): set<nat> {
    match where case None => {} case Some(e) => InCondition(e)
  }

  function InValues(values: seq<Expr>): set<nat> {
    if values == [] then {} else InValues(values[..|values| - 1]) + MarkerOf(values[|values| - 1])
  }

  function InSets(sets: seq<SetClause>): set<nat> {
    if sets == [] then {}
    else
      var v := sets[|sets| - 1].value;
      InSets(sets[..|sets| - 1]) + MarkerOf(if v.Binary? then v.right else v)
  }

  function OperandMarkers(q: Query): set<nat> {
    match q
    case SelectQuery(_, _, _, where, _, _) => InWhere(where)
    case InsertQuery(_, _, _, values) => InValues(values)
    case UpdateQuery(_, _, sets, where) => InSets(sets) + InWhere(where)
    case DeleteQuery(_, _, where) => InWhere(where)
    case OtherQuery(_) => {}
  }

  /** Exactly the parameters of these markers were bound, each to its declaration. */
  ghost predicate Binds(env: Env, before: seq<Column>, markers: set<nat>, after: seq<Column>) {
    && |before| == |after| == |env.declared|
    && forall i :: 0 <= i < |after| ==>
         after[i] == if exists o :: o in markers && Rank(env.markers, o) == i then DeclaredColumn(env.declared[i]) else before[i]
  }

  lemma BindsTwice(env: Env, a: seq<Column>, ms: set<nat>, b: seq<Column>, ns: set<nat>, c: seq<Column>)
    requires Binds(env, a, ms, b) && Binds(env, b, ns, c)
    ensures Binds(env, a, ms + ns, c)
  {
    hide Rank, DeclaredColumn;
    forall i | 0 <= i < |c|
      ensures c[i] == if exists o :: o in ms + ns && Rank(env.markers, o) == i then DeclaredColumn(env.declared[i]) else a[i]
    {
      if o :| o in ns && Rank(env.markers, o) == i {
        assert o in ms + ns;
      } else if o :| o in ms && Rank(env.markers, o) == i {
        assert o in ms + ns;
      }
    }
  }

  lemma OperandBound(env: Env, metadata: seq<Column>, e: Expr, column: Column)
    requires |metadata| == |env.declared| && CompileOperand(env, metadata, e, column).Compiled?
    ensures Binds(env, metadata, MarkerOf(e), CompileOperand(env, metadata, e, column).metadata)
  {
    hide Rank, LiteralValue;
    if e.Marker? {
      assert e.offset in MarkerOf(e);
    }
  }

  lemma {:induction false} ConditionBound(env: Env, metadata: seq<Column>, e: Expr)
    requires |metadata| == |env.declared| && CompilePredicates(env, metadata, e).Compiled?
    ensures Binds(env, metadata, InCondition(e), CompilePredicates(env, metadata, e).metadata)
    decreases e
  {
    hide Binds, ColumnOf, CompileOperand;
    match e
    case Paren(inner) => ConditionBound(env, metadata, inner);
    case Binary(And, l, r) =>
      var a := CompilePredicates(env, metadata, l);
      ConditionBound(env, metadata, l);
      ConditionBound(env, a.metadata, r);
      BindsTwice(env, metadata, InCondition(l), a.metadata, InCondition(r), CompilePredicates(env, a.metadata, r).metadata);
    case Binary(Eq, l, r) => OperandBound(env, metadata, r, ColumnOf(env, l).value.column);
    case _ =>
  }

  lemma BindsNothing(env: Env, metadata: seq<Column>)
    requires |metadata| == |env.declared|
    ensures Binds(env, metadata, {}, metadata)
  {
  }

  lemma WhereBound(env: Env, metadata: seq<Column>, where: Option<Expr>)
    requires |metadata| == |env.declared| && CompileWhere(env, metadata, where).Compiled?
    ensures Binds(env, metadata, InWhere(where), CompileWhere(env, metadata, where).metadata)
  {
    BindsNothing(env, metadata);
    if where.Some? {
      ConditionBound(env, metadata, where.value);
    }
  }

  predicate AcceptsWhere(env: Env, where: Option<Expr>) {
    where.Some? ==> Accepts(env, where.value)
  }

  lemma WhereAccepted(env: Env, metadata: seq<Column>, where: Option<Expr>)
    requires |metadata| == |env.declared|
    ensures CompileWhere(env, metadata, where).Compiled? <==> AcceptsWhere(env, where)
  {
    if where.Some? {
      AcceptedConditions(env, metadata, where.value);
    }
  }

  // ---- INSERT ----

  /** The i-th column exists, was not named before, and takes its value. */
  ghost predicate AcceptsCell(env: Env, columns: seq<Expr>, values: seq<Expr>, i: nat)
    requires |columns| == |values| && i < |columns|
  {
    && ColumnOf(env, columns[i]).Some? && Takes(env, values[i], ColumnOf(env, columns[i]).value.column)
    && forall j :: 0 <= j < i && ColumnOf(env, columns[j]).Some? ==>
         ColumnOf(env, columns[j]).value.column.name != ColumnOf(env, columns[i]).value.column.name
  }

  ghost predicate AcceptsCells(env: Env, columns: seq<Expr>, values: seq<Expr>)
    requires |columns| == |values|
  {
    forall i :: 0 <= i < |columns| ==> AcceptsCell(env, columns, values, i)
  }

  /** The assignments so far have the columns' names. */
  ghost predicate NamesOf(env: Env, columns: seq<Expr>, as_: seq<Assignment>) {
    |as_| == |columns| && forall i :: 0 <= i < |columns| ==>
      ColumnOf(env, columns[i]).Some? && as_[i].column == ColumnOf(env, columns[i]).value.column.name
  }

  lemma CellsFront(env: Env, columns: seq<Expr>, values: seq<Expr>)
    requires |columns| == |values| && columns != []
    ensures var n := |columns| - 1;
            AcceptsCells(env, columns, values) <==> AcceptsCells(env, columns[..n], values[..n]) && AcceptsCell(env, columns, values, n)
  {
    hide ColumnOf, Takes;
    var n := |columns| - 1;
    forall i | 0 <= i < n ensures AcceptsCell(env, columns[..n], values[..n], i) <==> AcceptsCell(env, columns, values, i) {
      assert forall j :: 0 <= j < n ==> columns[..n][j] == columns[j];
    }
  }

  lemma InsertOneAccepted(env: Env, metadata: seq<Column>, columns: seq<Expr>, values: seq<Expr>, before: seq<Assignment>)
    requires |metadata| == |env.declared| && |columns| == |values| && columns != []
    requires NamesOf(env, columns[..|columns| - 1], before)
    ensures var n := |columns| - 1; var r := InsertOne(env, metadata, before, columns[n], values[n]);
            && (r.Compiled? <==> AcceptsCell(env, columns, values, n))
            && (r.Compiled? ==> NamesOf(env, columns, before + [r.value]) && Binds(env, metadata, MarkerOf(values[n]), r.metadata))
  {
    hide Takes, CompileOperand;
    var n := |columns| - 1;
    assert forall j :: 0 <= j < n ==> columns[..n][j] == columns[j];
    if ColumnOf(env, columns[n]).Some? {
      var f := ColumnOf(env, columns[n]).value;
      CompilesOperand(env, metadata, values[n], f.column);
      if CompileOperand(env, metadata, values[n], f.column).Compiled? {
        OperandBound(env, metadata, values[n], f.column);
      }
      assert Assigns(before, f.column.name) <==> exists j :: 0 <= j < n && ColumnOf(env, columns[j]).value.column.name == f.column.name by {
        if j :| 0 <= j < n && ColumnOf(env, columns[j]).value.column.name == f.column.name {
          assert before[j].column == f.column.name;
        }
      }
    }
    hide ColumnOf, Binds;
  }

  lemma {:induction false} InsertsAccepted(env: Env, metadata: seq<Column>, columns: seq<Expr>, values: seq<Expr>)
    requires |metadata| == |env.declared| && |columns| == |values|
    ensures var r := CompileInserts(env, metadata, columns, values);
            && (r.Compiled? <==> AcceptsCells(env, columns, values))
            && (r.Compiled? ==> NamesOf(env, columns, r.value) && Binds(env, metadata, InValues(values), r.metadata))
    decreases |columns|
  {
    hide InsertOne, Binds, NamesOf, AcceptsCells, AcceptsCell, ColumnOf, Takes;
    if columns != [] {
      var n := |columns| - 1;
      var before := CompileInserts(env, metadata, columns[..n], values[..n]);
      InsertsAccepted(env, metadata, columns[..n], values[..n]);
      CellsFront(env, columns, values);
      if before.Compiled? {
        InsertOneAccepted(env, before.metadata, columns, values, before.value);
        var last := InsertOne(env, before.metadata, before.value, columns[n], values[n]);
        if last.Compiled? {
          BindsTwice(env, metadata, InValues(values[..n]), before.metadata, MarkerOf(values[n]), last.metadata);
        }
      }
    } else {
      NoCells(env, metadata);
    }
  }

  lemma NoCells(env: Env, metadata: seq<Column>)
    requires |metadata| == |env.declared|
    ensures AcceptsCells(env, [], []) && NamesOf(env, [], []) && Binds(env, metadata, {}, metadata)
  {
  }

  // ---- UPDATE ----

  /** `column = value`, or `column = column + value` on a BIGINT column. */
  ghost predicate AcceptsValue(env: Env, f: Field, e: Expr) {
    if e.Binary? then
      && e.op == Plus && f.column.typ == BIGINT && Takes(env, e.right, f.column)
      && ColumnOf(env, e.left).Some? && ColumnOf(env, e.left).value.column.name == f.column.name
    else Takes(env, e, f.column)
  }

  /** The i-th column exists, is not the primary key, was not set before, and takes its value. */
  ghost predicate AcceptsSet(env: Env, sets: seq<SetClause>, i: nat)
    requires i < |sets|
  {
    var f := ColumnOf(env, sets[i].column);
    && f.Some? && f.value.column.name != PrimaryKey(env.table) && AcceptsValue(env, f.value, sets[i].value)
    && forall j :: 0 <= j < i && ColumnOf(env, sets[j].column).Some? ==>
         ColumnOf(env, sets[j].column).value.column.name != f.value.column.name
  }

  ghost predicate AcceptsSets(env: Env, sets: seq<SetClause>) {
    forall i :: 0 <= i < |sets| ==> AcceptsSet(env, sets, i)
  }

  ghost predicate TargetsOf(env: Env, sets: seq<SetClause>, as_: seq<Assignment>) {
    |as_| == |sets| && forall i :: 0 <= i < |sets| ==>
      ColumnOf(env, sets[i].column).Some? && as_[i].column == ColumnOf(env, sets[i].column).value.column.name
  }

  lemma SetsFront(env: Env, sets: seq<SetClause>)
    requires sets != []
    ensures var n := |sets| - 1; AcceptsSets(env, sets) <==> AcceptsSets(env, sets[..n]) && AcceptsSet(env, sets, n)
  {
    hide ColumnOf, AcceptsValue;
    var n := |sets| - 1;
    forall i | 0 <= i < n ensures AcceptsSet(env, sets[..n], i) <==> AcceptsSet(env, sets, i) {
      assert forall j :: 0 <= j < n ==> sets[..n][j] == sets[j];
    }
  }

  function OperandOf(s: SetClause): Expr {
    if s.value.Binary? then s.value.right else s.value
  }

  lemma SetAccepted(env: Env, metadata: seq<Column>, sets: seq<SetClause>, before: seq<Assignment>)
    requires |metadata| == |env.declared| && sets != [] && TargetsOf(env, sets[..|sets| - 1], before)
    ensures var n := |sets| - 1; var r := CompileSet(env, metadata, before, sets[n]);
            && (r.Compiled? <==> AcceptsSet(env, sets, n))
            && (r.Compiled? ==> TargetsOf(env, sets, before + [r.value]) && Binds(env, metadata, MarkerOf(OperandOf(sets[n])), r.metadata))
  {
    hide Takes, CompileOperand;
    var n := |sets| - 1;
    assert forall j :: 0 <= j < n ==> sets[..n][j] == sets[j];
    if ColumnOf(env, sets[n].column).Some? {
      var f := ColumnOf(env, sets[n].column).value;
      CompilesOperand(env, metadata, OperandOf(sets[n]), f.column);
      if CompileOperand(env, metadata, OperandOf(sets[n]), f.column).Compiled? {
        OperandBound(env, metadata, OperandOf(sets[n]), f.column);
      }
      assert Assigns(before, f.column.name) <==> exists j :: 0 <= j < n && ColumnOf(env, sets[j].column).value.column.name == f.column.name by {
        if j :| 0 <= j < n && ColumnOf(env, sets[j].column).value.column.name == f.column.name {
          assert before[j].column == f.column.name;
        }
      }
    }
    hide ColumnOf, Binds;
  }

  lemma {:induction false} SetsAccepted(env: Env, metadata: seq<Column>, sets: seq<SetClause>)
    requires |metadata| == |env.declared|
    ensures var r := CompileSets(env, metadata, sets);
            && (r.Compiled? <==> AcceptsSets(env, sets))
            && (r.Compiled? ==> TargetsOf(env, sets, r.value) && Binds(env, metadata, InSets(sets), r.metadata))
    decreases |sets|
  {
    hide CompileSet, Binds, TargetsOf, AcceptsSets, AcceptsSet, ColumnOf, Takes;
    if sets != [] {
      var n := |sets| - 1;
      var before := CompileSets(env, metadata, sets[..n]);
      SetsAccepted(env, metadata, sets[..n]);
      SetsFront(env, sets);
      if before.Compiled? {
        SetAccepted(env, before.metadata, sets, before.value);
        var last := CompileSet(env, before.metadata, before.value, sets[n]);
        if last.Compiled? {
          BindsTwice(env, metadata, InSets(sets[..n]), before.metadata, MarkerOf(OperandOf(sets[n])), last.metadata);
        }
      }
    } else {
      NoSets(env, metadata);
    }
  }

  lemma NoSets(env: Env, metadata: seq<Column>)
    requires |metadata| == |env.declared|
    ensures AcceptsSets(env, []) && TargetsOf(env, [], []) && Binds(env, metadata, {}, metadata)
  {
  }

  // ---- whole statements ----

  /** A limit is a number of at most 1000, an offset reads as zero. */
  predicate AcceptsLimit(limit: Option<Limit>) {
    limit.Some? ==>
      && SelectMeaning.NoOffset(limit.value.offset)
      && limit.value.count.Lit? && limit.value.count.literal.IntLiteral? && limit.value.count.literal.n <= 1000
  }

  /** UPDATE and DELETE need a condition, an INSERT as many values as columns, and at least one. */
  ghost predicate AcceptsBody(env: Env, q: Query) {
    match q
    case SelectQuery(_, _, fields, where, order, limit) =>
      && (forall i :: 0 <= i < |fields| ==> ColumnOf(env, fields[i].expr).Some?)
      && (forall i :: 0 <= i < |order| ==> ColumnOf(env, order[i].expr).Some?)
      && AcceptsWhere(env, where) && AcceptsLimit(limit)
    case InsertQuery(_, _, columns, values) => columns != [] && |columns| == |values| && AcceptsCells(env, columns, values)
    case UpdateQuery(_, _, sets, where) => where.Some? && AcceptsWhere(env, where) && AcceptsSets(env, sets)
    case DeleteQuery(_, _, where) => where.Some? && AcceptsWhere(env, where)
    case OtherQuery(_) => false
  }

  lemma BodyAccepted(env: Env, metadata: seq<Column>, q: Query)
    requires |metadata| == |env.declared|
    ensures var r := Body(env, metadata, q);
            && (r.Compiled? <==> AcceptsBody(env, q))
            && (r.Compiled? ==> Binds(env, metadata, OperandMarkers(q), r.metadata))
  {
    hide CompileFields, CompileOrder, CompileLimit, CompileWhere, CompileInserts, CompileSets, Binds, AcceptsCells, AcceptsSets, Accepts, ColumnOf;
    match q
    case SelectQuery(_, _, fields, where, order, limit) =>
      SelectMeaning.FieldsMean(env, fields);
      SelectMeaning.OrderMeans(env, order);
      SelectMeaning.LimitMeans(limit);
      WhereAccepted(env, metadata, where);
      if CompileWhere(env, metadata, where).Compiled? {
        WhereBound(env, metadata, where);
      }
    case InsertQuery(_, _, columns, values) =>
      if |columns| == |values| {
        InsertsAccepted(env, metadata, columns, values);
      }
    case UpdateQuery(_, _, sets, where) =>
      SetsAccepted(env, metadata, sets);
      var m := CompileSets(env, metadata, sets);
      if m.Compiled? {
        WhereAccepted(env, m.metadata, where);
        if CompileWhere(env, m.metadata, where).Compiled? {
          WhereBound(env, m.metadata, where);
          BindsTwice(env, metadata, InSets(sets), m.metadata, InWhere(where), CompileWhere(env, m.metadata, where).metadata);
        }
      }
    case DeleteQuery(_, _, where) =>
      WhereAccepted(env, metadata, where);
      if CompileWhere(env, metadata, where).Compiled? {
        WhereBound(env, metadata, where);
      }
    case OtherQuery(_) =>
  }

  // ---- every parameter is bound ----

  lemma {:induction false} ConditionMarkers(e: Expr)
    ensures InCondition(e) <= Markers(e)
    decreases e
  {
    match e
    case Paren(inner) => ConditionMarkers(inner);
    case Binary(And, l, r) =>
      ConditionMarkers(l);
      ConditionMarkers(r);
    case _ =>
  }

  lemma {:induction false} ValueMarkers(values: seq<Expr>)
    ensures InValues(values) <= MarkersOf(values)
    decreases |values|
  {
    if values != [] {
      var n := |values| - 1;
      ValueMarkers(values[..n]);
      MarkersAppend(values[..n], values[n]);
      assert values == values[..n] + [values[n]];
    }
  }

  lemma {:induction false} MarkersAppend(es: seq<Expr>, e: Expr)
    ensures MarkersOf(es + [e]) == MarkersOf(es) + Markers(e)
    decreases |es|
  {
    if es == [] {
      assert [e][1..] == [];
    } else {
      assert (es + [e])[1..] == es[1..] + [e];
      MarkersAppend(es[1..], e);
    }
  }

  function SetValues(sets: seq<SetClause>): seq<Expr> {
    seq(|sets|, i requires 0 <= i < |sets| => sets[i].value)
  }

  lemma {:induction false} SetMarkers(sets: seq<SetClause>)
    ensures InSets(sets) <= MarkersOf(SetValues(sets))
    decreases |sets|
  {
    if sets != [] {
      var n := |sets| - 1;
      SetMarkers(sets[..n]);
      assert SetValues(sets) == SetValues(sets[..n]) + [sets[n].value];
      MarkersAppend(SetValues(sets[..n]), sets[n].value);
    }
  }

  lemma OperandsAreMarkers(q: Query)
    ensures OperandMarkers(q) <= QueryMarkers(q)
  {
    match q
    case SelectQuery(_, _, _, where, _, _) => if where.Some? { ConditionMarkers(where.value); }
    case InsertQuery(_, _, _, values) => ValueMarkers(values);
    case UpdateQuery(_, _, sets, where) =>
      SetMarkers(sets);
      assert SetValues(sets) == seq(|sets|, i requires 0 <= i < |sets| => sets[i].value);
      if where.Some? { ConditionMarkers(where.value); }
    case DeleteQuery(_, _, where) => if where.Some? { ConditionMarkers(where.value); }
    case OtherQuery(_) =>
  }

  lemma {:induction false} RankedSize(markers: set<nat>, some: set<nat>)
    requires some <= markers
    ensures |set o | o in some :: Rank(markers, o)| == |some|
    decreases |some|
  {
    hide Rank;
    if some != {} {
      var o :| o in some;
      var rest := some - {o};
      RankedSize(markers, rest);
      var ranks := set x | x in rest :: Rank(markers, x);
      assert (set x | x in some :: Rank(markers, x)) == ranks + {Rank(markers, o)};
      forall x | x in rest ensures Rank(markers, x) != Rank(markers, o) {
        if x < o { RankOrder(markers, x, o); } else { RankOrder(markers, o, x); }
      }
    }
  }

  lemma RankBelow(markers: set<nat>, o: nat)
    requires o in markers
    ensures Rank(markers, o) < |markers|
  {
    var below := Before(markers, o);
    assert below + {o} <= markers && o !in below;
    Smaller(below + {o}, markers);
  }

  function UpTo(n: nat): (s: set<nat>)
    ensures |s| == n && forall i: nat :: i in s <==> i < n
  {
    if n == 0 then {} else UpTo(n - 1) + {n - 1}
  }

  /** Every index below the number of markers is the rank of one. */
  lemma EveryRankIsTaken(markers: set<nat>, i: nat) returns (o: nat)
    requires i < |markers|
    ensures o in markers && Rank(markers, o) == i
  {
    var ranks, all := set x | x in markers :: Rank(markers, x), UpTo(|markers|);
    RankedSize(markers, markers);
    forall x | x in markers ensures Rank(markers, x) in all {
      RankBelow(markers, x);
    }
    hide Rank;
    SubsetOfSameSize(ranks, all);
    assert i in all;
    o :| o in markers && Rank(markers, o) == i;
  }

  lemma AllBoundIff(env: Env, bound: set<nat>, after: seq<Column>)
    requires bound <= env.markers && |env.markers| == |env.declared| && Binds(env, Unbound(|env.declared|), bound, after)
    ensures AllBound(after) <==> bound == env.markers && forall i :: 0 <= i < |env.declared| ==> env.declared[i].name != ""
  {
    hide Rank;
    if AllBound(after) {
      forall o | o in env.markers ensures o in bound {
        RankBelow(env.markers, o);
        var i := Rank(env.markers, o);
        assert after[i].name != "";
        var x :| x in bound && Rank(env.markers, x) == i;
        if x < o { RankOrder(env.markers, x, o); } else if o < x { RankOrder(env.markers, o, x); }
      }
    }
    if bound == env.markers {
      forall i | 0 <= i < |env.declared| ensures after[i] == DeclaredColumn(env.declared[i]) {
        var o := EveryRankIsTaken(env.markers, i);
      }
    }
  }

  /** The compiler accepts exactly these statements: a plain one of a known table, with as many markers as
      declared parameters, every marker in an operand's place and every parameter named, whose parts are
      all of the kinds described above. */
  ghost predicate Acceptable(q: Query, declared: seq<Parameter>, tables: seq<Table>, database: string) {
    && !q.OtherQuery? && q.plain && q.from.Some? && (q.from.value.schema == "" || q.from.value.schema == database)
    && (exists t :: t in tables && t.name == q.from.value.name)
    && |QueryMarkers(q)| == |declared| && OperandMarkers(q) == QueryMarkers(q)
    && (forall i :: 0 <= i < |declared| ==> declared[i].name != "")
    && TableOf(q, tables, database).Some? && AcceptsBody(EnvOf(q, declared, tables, database), q)
  }

  lemma TableIsNamed(q: Query, tables: seq<Table>, database: string)
    ensures TableOf(q, tables, database).Some?
       <==> !q.OtherQuery? && q.plain && q.from.Some? && (q.from.value.schema == "" || q.from.value.schema == database)
            && exists t :: t in tables && t.name == q.from.value.name
    ensures TableOf(q, tables, database).Some? ==>
              TableOf(q, tables, database).value in tables && TableOf(q, tables, database).value.name == q.from.value.name
  {
  }

  /** A statement gets a plan exactly when it is one of these. */
  lemma AcceptedStatements(q: Query, declared: seq<Parameter>, tables: seq<Table>, database: string)
    ensures Compile(q, declared, tables, database).Some? <==> Acceptable(q, declared, tables, database)
  {
    TableIsNamed(q, tables, database);
    if TableOf(q, tables, database).Some? && |QueryMarkers(q)| == |declared| {
      var env := EnvOf(q, declared, tables, database);
      BodyAccepted(env, Unbound(|declared|), q);
      OperandsAreMarkers(q);
      hide Body, TableOf, AcceptsBody, QueryMarkers, OperandMarkers, Binds, AllBound;
      if Body(env, Unbound(|declared|), q).Compiled? {
        AllBoundIff(env, OperandMarkers(q), Body(env, Unbound(|declared|), q).metadata);
      }
    }
  }
}
