/** The SQL subset as syntax trees, and its compilation to flat plans. */
module CompilerSpec {
  import opened Values
  import opened Schema
  import opened Plans

  // ---- syntax ----

  datatype Literal = NullLiteral | IntLiteral(n: nat) | TextLiteral(s: string) | OtherLiteral

  datatype Op = And | Eq | Plus | OtherOp

  /** `Other` stands for every node the compiler rejects, with its children. */
  datatype Expr =
    | Marker(offset: nat)
    | Lit(literal: Literal)
    | Col(schema: string, qualifier: string, name: string)
    | Binary(op: Op, left: Expr, right: Expr)
    | Paren(inner: Expr)
    | Other(parts: seq<Expr>)

  datatype TableRef = TableRef(schema: string, name: string)

  datatype SelectField = SelectField(expr: Expr, alias: string)

  datatype OrderItem = OrderItem(expr: Expr, descending: bool)

  datatype Limit = Limit(count: Expr, offset: Option<Expr>)

  datatype SetClause = SetClause(column: Expr, value: Expr)

  /** `plain` is false when the statement has any clause the compiler refuses outright. */
  datatype Query =
    | SelectQuery(plain: bool, from: Option<TableRef>, fields: seq<SelectField>, where: Option<Expr>,
                  order: seq<OrderItem>, limit: Option<Limit>)
    | InsertQuery(plain: bool, from: Option<TableRef>, columns: seq<Expr>, values: seq<Expr>)
    | UpdateQuery(plain: bool, from: Option<TableRef>, sets: seq<SetClause>, where: Option<Expr>)
    | DeleteQuery(plain: bool, from: Option<TableRef>, where: Option<Expr>)
    | OtherQuery(parts: seq<Expr>)

  datatype Parameter = Parameter(name: string, typ: Type, nullable: bool, allowed: seq<Value>)

  // ---- parameter markers ----

  function Markers(e: Expr): (ms: set<nat>) {
    match e
    case Marker(o) => {o}
    case Binary(_, l, r) => Markers(l) + Markers(r)
    case Paren(i) => Markers(i)
    case Other(parts) => MarkersOf(parts)
    case _ => {}
  }

  function MarkersOf(es: seq<Expr>): (ms: set<nat>) {
    if es == [] then {} else Markers(es[0]) + MarkersOf(es[1..])
  }

  function OptionMarkers(e: Option<Expr>): set<nat> {
    match e case None => {} case Some(x) => Markers(x)
  }

  function QueryMarkers(q: Query): set<nat> {
    match q
    case SelectQuery(_, _, fields, where, order, limit) =>
      MarkersOf(seq(|fields|, i requires 0 <= i < |fields| => fields[i].expr)) + OptionMarkers(where)
      + MarkersOf(seq(|order|, i requires 0 <= i < |order| => order[i].expr))
      + (match limit case None => {} case Some(l) => Markers(l.count) + OptionMarkers(l.offset))
    case InsertQuery(_, _, columns, values) => MarkersOf(columns) + MarkersOf(values)
    case UpdateQuery(_, _, sets, where) =>
      MarkersOf(seq(|sets|, i requires 0 <= i < |sets| => sets[i].value)) + OptionMarkers(where)
    case DeleteQuery(_, _, where) => OptionMarkers(where)
    case OtherQuery(parts) => MarkersOf(parts)
  }

  /** The position of a marker among all markers in text order. */
  function Rank(markers: set<nat>, offset: nat): nat {
    |Before(markers, offset)|
  }

  function Before(markers: set<nat>, offset: nat): set<nat> {
    set m | m in markers && m < offset
  }

  // ---- compilation ----

  /** What a compiler run knows throughout. */
  datatype Env = Env(table: Table, database: string, declared: seq<Parameter>, markers: set<nat>)

  const UNBOUND := Column("", OTHER_TYPE, false)

  function DeclaredColumn(p: Parameter): Column {
    Column(p.name, p.typ, p.nullable)
  }

  function ColumnOf(env: Env, e: Expr): Option<Field> {
    if !e.Col? then None
    else if e.schema != "" && e.schema != env.database then None
    else if e.qualifier != "" && e.qualifier != env.table.name then None
    else FindField(env.table.columns, e.name)
  }

  /** literalValue; a marker counts as a NULL literal there. */
  function LiteralValue(e: Expr, typ: Type): Option<Value> {
    match e
    case Marker(_) => Some(NullOf(typ))
    case Lit(NullLiteral) => Some(NullOf(typ))
    case Lit(IntLiteral(n)) => if typ == BIGINT && n <= MAX_INT64 then Some(Int(n)) else None
    case Lit(TextLiteral(s)) => if typ == VARCHAR then Some(Value(VARCHAR, Text(s))) else None
    case _ => None
  }

  predicate AllowedFit(p: Parameter) {
    forall i :: 0 <= i < |p.allowed| ==> Fits(DeclaredColumn(p), p.allowed[i])
  }

  datatype Compiled<+T> = Compiled(value: T, metadata: seq<Column>) | Rejected

  /** operand: a marker binds its parameter to the declaration of its rank, a literal must fit. */
  function CompileOperand(env: Env, metadata: seq<Column>, e: Expr, column: Column): (r: Compiled<Operand>)
    ensures r.Compiled? ==> |r.metadata| == |metadata|
  {
    if e.Marker? then
      var i := Rank(env.markers, e.offset);
      if i >= |env.declared| || i >= |metadata| || env.declared[i].typ != column.typ then Rejected
      else if !AllowedFit(env.declared[i]) then Rejected
      else Compiled(Operand(Some(i), None), metadata[i := DeclaredColumn(env.declared[i])])
    else
      match LiteralValue(e, column.typ)
      case None => Rejected
      case Some(v) => if Fits(column, v) then Compiled(Operand(None, Some(v)), metadata) else Rejected
  }

  function CompilePredicates(env: Env, metadata: seq<Column>, e: Expr): (r: Compiled<seq<Predicate>>)
    ensures r.Compiled? ==> |r.metadata| == |metadata|
    decreases e
  {
    match e
    case Paren(inner) => CompilePredicates(env, metadata, inner)
    case Binary(And, left, right) =>
      (match CompilePredicates(env, metadata, left)
       case Rejected => Rejected
       case Compiled(a, m) =>
         match CompilePredicates(env, m, right)
         case Rejected => Rejected
         case Compiled(b, m') => Compiled(a + b, m'))
    case Binary(Eq, left, right) =>
      (match ColumnOf(env, left)
       case None => Rejected
       case Some(f) =>
         match CompileOperand(env, metadata, right, f.column)
         case Rejected => Rejected
         case Compiled(op, m) => Compiled([Predicate(f.column.name, op)], m))
    case _ => Rejected
  }

  function CompileWhere(env: Env, metadata: seq<Column>, where: Option<Expr>): (r: Compiled<seq<Predicate>>)
    ensures r.Compiled? ==> |r.metadata| == |metadata|
  {
    match where case None => Compiled([], metadata) case Some(e) => CompilePredicates(env, metadata, e)
  }

  function CompileFields(env: Env, fields: seq<SelectField>): Option<(seq<string>, seq<Column>)>
    decreases |fields|
  {
    if fields == [] then Some(([], []))
    else
      match CompileFields(env, fields[..|fields| - 1])
      case None => None
      case Some((names, columns)) =>
        var last := fields[|fields| - 1];
        match ColumnOf(env, last.expr)
        case None => None
        case Some(f) =>
          var shown := if last.alias == "" then f.column else f.column.(name := last.alias);
          Some((names + [f.column.name], columns + [shown]))
  }

  function CompileOrder(env: Env, items: seq<OrderItem>): Option<seq<Order>>
    decreases |items|
  {
    if items == [] then Some([])
    else
      match CompileOrder(env, items[..|items| - 1])
      case None => None
      case Some(orders) =>
        var last := items[|items| - 1];
        match ColumnOf(env, last.expr)
        case None => None
        case Some(f) => Some(orders + [Order(f.column.name, last.descending)])
  }

  /** A limit is a literal of at most 1000, an offset must read as zero. */
  function CompileLimit(limit: Option<Limit>): Option<Option<nat>> {
    match limit
    case None => Some(None)
    case Some(l) =>
      if l.offset.Some? && LiteralValue(l.offset.value, BIGINT).None? then None
      else if l.offset.Some? && NumberOf(LiteralValue(l.offset.value, BIGINT).value) != 0 then None
      else
        match LiteralValue(l.count, BIGINT)
        case None => None
        case Some(v) =>
          match v.AsInt64()
          case None => None
          case Some(n) => if 0 <= n <= 1000 then Some(Some(n)) else None
  }

  /** One column and value of an INSERT. */
  function InsertOne(env: Env, metadata: seq<Column>, before: seq<Assignment>, column: Expr, value: Expr): (r: Compiled<Assignment>)
    ensures r.Compiled? ==> |r.metadata| == |metadata|
  {
    match ColumnOf(env, column)
    case None => Rejected
    case Some(f) =>
      if Assigns(before, f.column.name) then Rejected
      else
        match CompileOperand(env, metadata, value, f.column)
        case Rejected => Rejected
        case Compiled(op, m) => Compiled(Assignment(f.column.name, "", op), m)
  }

  function CompileInserts(env: Env, metadata: seq<Column>, columns: seq<Expr>, values: seq<Expr>): (r: Compiled<seq<Assignment>>)
    requires |columns| == |values|
    ensures r.Compiled? ==> |r.metadata| == |metadata|
    decreases |columns|
  {
    if columns == [] then Compiled([], metadata)
    else
      var n := |columns| - 1;
      match CompileInserts(env, metadata, columns[..n], values[..n])
      case Rejected => Rejected
      case Compiled(before, m) =>
        match InsertOne(env, m, before, columns[n], values[n])
        case Rejected => Rejected
        case Compiled(a, m') => Compiled(before + [a], m')
  }

  /** Some assignment already targets the column. */
  predicate Assigns(assignments: seq<Assignment>, name: string) {
    exists i :: 0 <= i < |assignments| && assignments[i].column == name
  }

  /** `column = value`, or `column = column + value` on a BIGINT column; never the primary key. */
  function CompileSet(env: Env, metadata: seq<Column>, before: seq<Assignment>, s: SetClause): (r: Compiled<Assignment>)
    ensures r.Compiled? ==> |r.metadata| == |metadata|
  {
    match ColumnOf(env, s.column)
    case None => Rejected
    case Some(f) =>
      var name := f.column.name;
      if Assigns(before, name) || name == PrimaryKey(env.table) then Rejected
      else if s.value.Binary? then
        if s.value.op != Plus || f.column.typ != BIGINT then Rejected
        else if ColumnOf(env, s.value.left).None? || ColumnOf(env, s.value.left).value.column.name != name then Rejected
        else
          match CompileOperand(env, metadata, s.value.right, f.column)
          case Rejected => Rejected
          case Compiled(op, m) => Compiled(Assignment(name, name, op), m)
      else
        match CompileOperand(env, metadata, s.value, f.column)
        case Rejected => Rejected
        case Compiled(op, m) => Compiled(Assignment(name, "", op), m)
  }

  function CompileSets(env: Env, metadata: seq<Column>, sets: seq<SetClause>): (r: Compiled<seq<Assignment>>)
    ensures r.Compiled? ==> |r.metadata| == |metadata|
    decreases |sets|
  {
    if sets == [] then Compiled([], metadata)
    else
      var n := |sets| - 1;
      match CompileSets(env, metadata, sets[..n])
      case Rejected => Rejected
      case Compiled(before, m) =>
        match CompileSet(env, m, before, sets[n])
        case Rejected => Rejected
        case Compiled(a, m') => Compiled(before + [a], m')
  }

  function Body(env: Env, metadata: seq<Column>, q: Query): (r: Compiled<Plan>)
    ensures r.Compiled? ==> |r.metadata| == |metadata|
  {
    var name := env.table.name;
    match q
    case SelectQuery(_, _, fields, where, order, limit) =>
      (match CompileFields(env, fields)
       case None => Rejected
       case Some((projection, columns)) =>
         match CompileWhere(env, metadata, where)
         case Rejected => Rejected
         case Compiled(predicates, m) =>
           match CompileOrder(env, order)
           case None => Rejected
           case Some(orders) =>
             match CompileLimit(limit)
             case None => Rejected
             case Some(cut) => Compiled(Plan(Select, name, projection, columns, predicates, [], orders, cut, []), m))
    case InsertQuery(_, _, columns, values) =>
      if columns == [] || |columns| != |values| then Rejected
      else
        (match CompileInserts(env, metadata, columns, values)
         case Rejected => Rejected
         case Compiled(assignments, m) => Compiled(Plan(Insert, name, [], [], [], assignments, [], None, []), m))
    case UpdateQuery(_, _, sets, where) =>
      if where.None? then Rejected
      else
        (match CompileSets(env, metadata, sets)
         case Rejected => Rejected
         case Compiled(assignments, m) =>
           match CompileWhere(env, m, where)
           case Rejected => Rejected
           case Compiled(predicates, m') => Compiled(Plan(Update, name, [], [], predicates, assignments, [], None, []), m'))
    case DeleteQuery(_, _, where) =>
      if where.None? then Rejected
      else
        (match CompileWhere(env, metadata, where)
         case Rejected => Rejected
         case Compiled(predicates, m) => Compiled(Plan(Delete, name, [], [], predicates, [], [], None, []), m))
    case OtherQuery(_) => Rejected
  }

  function TableOf(q: Query, tables: seq<Table>, database: string): Option<Table> {
    if q.OtherQuery? || !q.plain then None
    else
      match q.from
      case None => None
      case Some(ref) => if ref.schema != "" && ref.schema != database then None else FindTable(tables, ref.name)
  }

  function Unbound(n: nat): (m: seq<Column>)
    ensures |m| == n && forall i :: 0 <= i < n ==> m[i] == UNBOUND
  {
    seq(n, _ => UNBOUND)
  }

  predicate AllBound(metadata: seq<Column>) {
    forall i :: 0 <= i < |metadata| ==> metadata[i].name != ""
  }

  /** Compile. */
  function Compile(q: Query, declared: seq<Parameter>, tables: seq<Table>, database: string): Option<Plan> {
    if |QueryMarkers(q)| != |declared| then None
    else
      match TableOf(q, tables, database)
      case None => None
      case Some(t) =>
        match Body(Env(t, database, declared, QueryMarkers(q)), Unbound(|declared|), q)
        case Rejected => None
        case Compiled(plan, metadata) => if AllBound(metadata) then Some(plan.(parameters := metadata)) else None
  }
}
