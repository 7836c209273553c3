/** The compiler as the object that fills parameter metadata in place while it walks the tree. */
module Compiler {
  import opened Values
  import opened Schema
  import opened Plans
  import opened CompilerSpec
  import opened CompilerMeaning

  // ---- ranks of markers ----

  ghost predicate Ascending(ns: seq<nat>) {
    forall i, j :: 0 <= i < j < |ns| ==> ns[i] < ns[j]
  }

  function ToSet(ns: seq<nat>): set<nat> {
    set n | n in ns
  }

  lemma NoneYet()
    ensures ToSet([]) == {}
  {
  }

  lemma NotYet(front: seq<nat>, x: nat)
    requires forall j :: 0 <= j < |front| ==> front[j] < x
    ensures x !in ToSet(front)
  {
  }

  lemma OneMore(front: seq<nat>, x: nat)
    ensures ToSet(front + [x]) == ToSet(front) + {x}
  {
  }

  lemma {:induction false} PrefixSize(ns: seq<nat>, i: nat)
    requires Ascending(ns) && i <= |ns|
    ensures |ToSet(ns[..i])| == i
  {
    hide ToSet;
    if i == 0 {
      NoneYet();
    } else {
      PrefixSize(ns, i - 1);
      var front, x := ns[..i - 1], ns[i - 1];
      assert ns[..i] == front + [x];
      OneMore(front, x);
      assert forall j :: 0 <= j < |front| ==> front[j] < x;
      NotYet(front, x);

    }
  }

  /** In ascending order the position of a marker is its rank. */
  lemma PositionIsRank(ns: seq<nat>, i: nat)
    requires Ascending(ns) && i < |ns|
    ensures Rank(ToSet(ns), ns[i]) == i
  {
    PrefixSize(ns, i);
    var below := Before(ToSet(ns), ns[i]);
    forall m: nat ensures m in below <==> m in ToSet(ns[..i]) {
      if m in below {
        var j :| 0 <= j < |ns| && ns[j] == m;
        assert ns[..i][j] == m;
      }
    }
    assert below == ToSet(ns[..i]);
  }

  /** sort.Slice by offset. */
  method SortOffsets(nodes: seq<nat>) returns (sorted: seq<nat>)
    requires forall i, j :: 0 <= i < j < |nodes| ==> nodes[i] != nodes[j]
    ensures Ascending(sorted) && |sorted| == |nodes| && ToSet(sorted) == ToSet(nodes)
  {
    sorted := [];
    assert ToSet(nodes[..0]) == {};
    for n := 0 to |nodes|
      invariant Ascending(sorted) && |sorted| == n && ToSet(sorted) == ToSet(nodes[..n])
    {
      assert nodes[n] !in nodes[..n];
      assert nodes[n] !in ToSet(sorted);
      assert nodes[..n + 1] == nodes[..n] + [nodes[n]];
      sorted := InsertOffset(sorted, nodes[n]);
      assert ToSet(sorted) == ToSet(nodes[..n]) + {nodes[n]};
    }
    assert nodes[..|nodes|] == nodes;
  }

  method InsertOffset(sorted: seq<nat>, x: nat) returns (out: seq<nat>)
    requires Ascending(sorted) && x !in sorted
    ensures Ascending(out) && |out| == |sorted| + 1 && ToSet(out) == ToSet(sorted) + {x}
  {
    var i := |sorted|;
    while i > 0 && x < sorted[i - 1]
      invariant 0 <= i <= |sorted|
      invariant forall j :: i <= j < |sorted| ==> x < sorted[j]
    {
      i := i - 1;
    }
    assert i > 0 ==> sorted[i - 1] in sorted;
    out := sorted[..i] + [x] + sorted[i..];
    InsertedMembers(sorted, i, x, out);
    InsertedAscending(sorted, i, x, out);
  }

  lemma InsertedMembers(sorted: seq<nat>, i: nat, x: nat, out: seq<nat>)
    requires i <= |sorted| && out == sorted[..i] + [x] + sorted[i..]
    ensures ToSet(out) == ToSet(sorted) + {x}
  {
    assert sorted == sorted[..i] + sorted[i..];
    assert forall n :: n in out <==> n == x || n in sorted;
  }

  lemma InsertedAscending(sorted: seq<nat>, i: nat, x: nat, out: seq<nat>)
    requires Ascending(sorted) && i <= |sorted| && out == sorted[..i] + [x] + sorted[i..]
    requires (forall j :: i <= j < |sorted| ==> x < sorted[j]) && (i > 0 ==> sorted[i - 1] < x)
    ensures Ascending(out)
  {
    assert forall j :: 0 <= j < i ==> out[j] == sorted[j] <= sorted[i - 1];
    assert forall j :: i < j < |out| ==> out[j] == sorted[j - 1];
  }

  // ---- the compiler ----

  class Compilation {
    const env: Env
    const indexes: map<nat, nat>
    const metadata: array<Column>

    ghost predicate Valid()
      reads this
    {
      && metadata.Length == |env.declared| == |env.markers|
      && (forall m :: m in env.markers ==> m in indexes && indexes[m] == Rank(env.markers, m))
    }

    /** `nodes` are the markers of the statement, in the order of the visit. */
    constructor (table: Table, database: string, declared: seq<Parameter>, nodes: seq<nat>)
      requires forall i, j :: 0 <= i < j < |nodes| ==> nodes[i] != nodes[j]
      requires |nodes| == |declared|
      ensures Valid() && env == Env(table, database, declared, ToSet(nodes))
      ensures fresh(metadata) && metadata[..] == Unbound(|declared|)
    {
      var sorted := SortOffsets(nodes);
      var positions: map<nat, nat> := map[];
      for i := 0 to |sorted|
        invariant positions.Keys == ToSet(sorted[..i])
        invariant forall j :: 0 <= j < i ==> sorted[j] in positions && positions[sorted[j]] == j
      {
        assert sorted[..i + 1] == sorted[..i] + [sorted[i]];
        positions := positions[sorted[i] := i];
      }
      assert sorted[..|sorted|] == sorted;
      env := Env(table, database, declared, ToSet(nodes));
      indexes := positions;
      metadata := new Column[|declared|](_ => UNBOUND);
      forall m | m in ToSet(nodes) ensures m in positions && positions[m] == Rank(ToSet(nodes), m) {
        var i :| 0 <= i < |sorted| && sorted[i] == m;
        PositionIsRank(sorted, i);
      }
      PrefixSize(sorted, |sorted|);
    }

    /** operand. */
    method Operand(e: Expr, column: Column) returns (r: Option<Plans.Operand>)
      requires Valid() && (e.Marker? ==> e.offset in env.markers)
      modifies metadata
      ensures Follows(CompileOperand(env, old(metadata[..]), e, column), r, metadata[..])
    {
      if e.Marker? {
        RankBelow(env.markers, e.offset);
        var i := indexes[e.offset];
        var declared := env.declared[i];
        if declared.typ != column.typ {
          return None;
        }
        metadata[i] := DeclaredColumn(declared);
        for k := 0 to |declared.allowed|
          invariant forall j :: 0 <= j < k ==> Fits(DeclaredColumn(declared), declared.allowed[j])
        {
          if !Fits(metadata[i], declared.allowed[k]) {
            return None;
          }
        }
        return Some(Plans.Operand(Some(i), None));
      }
      var value := LiteralValue(e, column.typ);
      if value.None? || !Fits(column, value.value) {
        return None;
      }
      r := Some(Plans.Operand(None, value));
    }

    /** predicates: parentheses and conjunctions are flattened, everything but equality is refused. */
    method Predicates(e: Expr) returns (r: Option<seq<Predicate>>)
      requires Valid() && Markers(e) <= env.markers
      modifies metadata
      ensures Follows(CompilePredicates(env, old(metadata[..]), e), r, metadata[..])
      decreases e
    {
      match e
      case Paren(inner) =>
        r := Predicates(inner);
      case Binary(And, left, right) =>
        var a := Predicates(left);
        if a.None? {
          return None;
        }
        var b := Predicates(right);
        if b.None? {
          return None;
        }
        r := Some(a.value + b.value);
      case Binary(Eq, left, right) =>
        var f := ColumnOf(env, left);
        if f.None? {
          return None;
        }
        var op := Operand(right, f.value.column);
        if op.None? {
          return None;
        }
        r := Some([Predicate(f.value.column.name, op.value)]);
      case _ =>
        r := None;
    }

    /** The columns and values of an INSERT. */
    method Inserts(columns: seq<Expr>, values: seq<Expr>) returns (r: Option<seq<Assignment>>)
      requires Valid() && |columns| == |values| && MarkersOf(values) <= env.markers
      modifies metadata
      ensures Follows(CompileInserts(env, old(metadata[..]), columns, values), r, metadata[..])
    {
      var done: seq<Assignment> := [];
      ghost var before := metadata[..];
      assert columns[..0] == [] && values[..0] == [];
      for n := 0 to |columns|
        invariant CompileInserts(env, before, columns[..n], values[..n]) == Compiled(done, metadata[..])
      {
        InsertsNext(env, before, columns, values, n, done, metadata[..]);
        PartMarkers(values, n);
        var a := InsertValue(done, columns[n], values[n]);
        if a.None? {
          InsertsStay(env, before, columns, values, n + 1);
          return None;
        }
        done := done + [a.value];
      }
      assert columns[..|columns|] == columns && values[..|values|] == values;
      r := Some(done);
    }

    method InsertValue(done: seq<Assignment>, column: Expr, value: Expr) returns (r: Option<Assignment>)
      requires Valid() && Markers(value) <= env.markers
      modifies metadata
      ensures Follows(InsertOne(env, old(metadata[..]), done, column, value), r, metadata[..])
    {
      var f := ColumnOf(env, column);
      if f.None? || Assigns(done, f.value.column.name) {
        return None;
      }
      var op := Operand(value, f.value.column);
      if op.None? {
        return None;
      }
      r := Some(Assignment(f.value.column.name, "", op.value));
    }

    /** One SET clause of an UPDATE. */
    method Set(done: seq<Assignment>, s: SetClause) returns (r: Option<Assignment>)
      requires Valid() && Markers(s.value) <= env.markers
      modifies metadata
      ensures Follows(CompileSet(env, old(metadata[..]), done, s), r, metadata[..])
    {
      var f := ColumnOf(env, s.column);
      if f.None? || Assigns(done, f.value.column.name) || f.value.column.name == PrimaryKey(env.table) {
        return None;
      }
      var column := f.value.column;
      var addFrom, value := "", s.value;
      if s.value.Binary? {
        var from := ColumnOf(env, s.value.left);
        if s.value.op != Plus || column.typ != BIGINT || from.None? || from.value.column.name != column.name {
          return None;
        }
        addFrom, value := column.name, s.value.right;
      }
      var op := Operand(value, column);
      if op.None? {
        return None;
      }
      r := Some(Assignment(column.name, addFrom, op.value));
    }

    method Sets(sets: seq<SetClause>) returns (r: Option<seq<Assignment>>)
      requires Valid() && forall i :: 0 <= i < |sets| ==> Markers(sets[i].value) <= env.markers
      modifies metadata
      ensures Follows(CompileSets(env, old(metadata[..]), sets), r, metadata[..])
    {
      var done: seq<Assignment> := [];
      ghost var before := metadata[..];
      assert sets[..0] == [];
      for n := 0 to |sets|
        invariant CompileSets(env, before, sets[..n]) == Compiled(done, metadata[..])
      {
        assert sets[..n + 1][..n] == sets[..n];
        var a := Set(done, sets[n]);
        if a.None? {
          SetsStay(env, before, sets, n + 1);
          return None;
        }
        done := done + [a.value];
      }
      assert sets[..|sets|] == sets;
      r := Some(done);
    }

    method Where(where: Option<Expr>) returns (r: Option<seq<Predicate>>)
      requires Valid() && OptionMarkers(where) <= env.markers
      modifies metadata
      ensures Follows(CompileWhere(env, old(metadata[..]), where), r, metadata[..])
    {
      if where.None? {
        return Some([]);
      }
      r := Predicates(where.value);
    }

    /** The statement kinds. */
    method Statement(q: Query) returns (r: Option<Plan>)
      requires Valid() && QueryMarkers(q) == env.markers
      modifies metadata
      ensures Follows(Body(env, old(metadata[..]), q), r, metadata[..])
    {
      var name := env.table.name;
      match q
      case SelectQuery(_, _, fields, where, order, limit) =>
        var shown := CompileFields(env, fields);
        var orders := CompileOrder(env, order);
        var cut := CompileLimit(limit);
        var predicates := Where(where);
        if shown.None? || predicates.None? || orders.None? || cut.None? {
          return None;
        }
        r := Some(Plan(Select, name, shown.value.0, shown.value.1, predicates.value, [], orders.value, cut.value, []));
      case InsertQuery(_, _, columns, values) =>
        if columns == [] || |columns| != |values| {
          return None;
        }
        var assignments := Inserts(columns, values);
        if assignments.None? {
          return None;
        }
        r := Some(Plan(Insert, name, [], [], [], assignments.value, [], None, []));
      case UpdateQuery(_, _, sets, where) =>
        if where.None? {
          return None;
        }
        SetMarkers(q);
        var assignments := Sets(sets);
        if assignments.None? {
          return None;
        }
        var predicates := Where(where);
        if predicates.None? {
          return None;
        }
        r := Some(Plan(Update, name, [], [], predicates.value, assignments.value, [], None, []));
      case DeleteQuery(_, _, where) =>
        if where.None? {
          return None;
        }
        var predicates := Where(where);
        if predicates.None? {
          return None;
        }
        r := Some(Plan(Delete, name, [], [], predicates.value, [], [], None, []));
      case OtherQuery(_) =>
        r := None;
    }
  }

  lemma SetMarkers(q: Query)
    requires q.UpdateQuery?
    ensures forall i :: 0 <= i < |q.sets| ==> Markers(q.sets[i].value) <= QueryMarkers(q)
  {
    var values := seq(|q.sets|, i requires 0 <= i < |q.sets| => q.sets[i].value);
    forall i | 0 <= i < |q.sets| ensures Markers(q.sets[i].value) <= QueryMarkers(q) {
      PartMarkers(values, i);
    }
  }

  /** Compile: `nodes` are the statement's markers in the order of the visit. */
  method Compile(q: Query, nodes: seq<nat>, declared: seq<Parameter>, tables: seq<Table>, database: string)
    returns (plan: Option<Plan>)
    requires ToSet(nodes) == QueryMarkers(q) && |nodes| == |QueryMarkers(q)|
    requires forall i, j :: 0 <= i < j < |nodes| ==> nodes[i] != nodes[j]
    ensures plan == CompilerSpec.Compile(q, declared, tables, database)
  {
    hide Body, QueryMarkers, AllBound, TableOf;
    if |nodes| != |declared| {
      return None;
    }
    var t := TableOf(q, tables, database);
    if t.None? {
      return None;
    }
    var c := new Compilation(t.value, database, declared, nodes);
    var body := c.Statement(q);
    if body.None? {
      return None;
    }
    var metadata := c.metadata[..];
    var bound := CheckBound(metadata);
    plan := if bound then Some(body.value.(parameters := metadata)) else None;
  }

  method CheckBound(metadata: seq<Column>) returns (bound: bool)
    ensures bound == AllBound(metadata)
  {
    for i := 0 to |metadata|
      invariant forall j :: 0 <= j < i ==> metadata[j].name != ""
    {
      if metadata[i].name == "" {
        return false;
      }
    }
    bound := true;
  }

  /** The method's answer is the specification's, and on success the metadata too. */
  ghost predicate Follows<T>(spec: Compiled<T>, r: Option<T>, metadata: seq<Column>) {
    match spec case Rejected => r == None case Compiled(v, m) => r == Some(v) && metadata == m
  }

  lemma RankBelow(markers: set<nat>, offset: nat)
    requires offset in markers
    ensures Rank(markers, offset) < |markers|
  {
    assert Before(markers, offset) + {offset} <= markers && offset !in Before(markers, offset);
    Smaller(Before(markers, offset) + {offset}, markers);
  }

  lemma {:induction false} PartMarkers(es: seq<Expr>, i: nat)
    requires i < |es|
    ensures Markers(es[i]) <= MarkersOf(es)
  {
    if i > 0 {
      PartMarkers(es[1..], i - 1);
    }
  }

  lemma InsertsNext(env: Env, metadata: seq<Column>, columns: seq<Expr>, values: seq<Expr>, n: nat,
                    done: seq<Assignment>, m: seq<Column>)
    requires |columns| == |values| && n < |columns|
    requires CompileInserts(env, metadata, columns[..n], values[..n]) == Compiled(done, m)
    ensures CompileInserts(env, metadata, columns[..n + 1], values[..n + 1])
         == match InsertOne(env, m, done, columns[n], values[n])
            case Rejected => Rejected
            case Compiled(a, m') => Compiled(done + [a], m')
  {
    hide InsertOne;
    assert columns[..n + 1][..n] == columns[..n] && values[..n + 1][..n] == values[..n];
  }

  /** A rejected prefix rejects the whole. */
  lemma {:induction false} InsertsStay(env: Env, metadata: seq<Column>, columns: seq<Expr>, values: seq<Expr>, n: nat)
    requires |columns| == |values| && n <= |columns|
    requires CompileInserts(env, metadata, columns[..n], values[..n]).Rejected?
    ensures CompileInserts(env, metadata, columns, values).Rejected?
    decreases |columns| - n
  {
    if n < |columns| {
      assert columns[..n + 1][..n] == columns[..n] && values[..n + 1][..n] == values[..n];
      InsertsStay(env, metadata, columns, values, n + 1);
    } else {
      assert columns[..n] == columns && values[..n] == values;
    }
  }

  lemma {:induction false} SetsStay(env: Env, metadata: seq<Column>, sets: seq<SetClause>, n: nat)
    requires n <= |sets| && CompileSets(env, metadata, sets[..n]).Rejected?
    ensures CompileSets(env, metadata, sets).Rejected?
    decreases |sets| - n
  {
    if n < |sets| {
      assert sets[..n + 1][..n] == sets[..n];
      SetsStay(env, metadata, sets, n + 1);
    } else {
      assert sets[..n] == sets;
    }
  }
}
