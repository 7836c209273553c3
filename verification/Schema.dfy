/** Table definitions, rows, and what it means for a database to satisfy its DDL. */
module Schema {
  import opened Values

  type Row = map<string, Value>

  datatype Field = Field(column: Column, maxLength: int, default: Option<Value>, autoIncrement: bool)

  datatype ForeignKey = ForeignKey(columns: seq<string>, table: string, references: seq<string>)

  datatype Table = Table(
    name: string,
    columns: seq<Field>,
    primaryKey: seq<string>,
    unique: seq<seq<string>>,
    foreignKeys: seq<ForeignKey>)

  /** Identity of a record: its table and the text of its primary key. */
  datatype Id = Id(table: string, key: string)

  function FindTable(tables: seq<Table>, name: string): (r: Option<Table>)
    ensures r.Some? ==> r.value in tables && r.value.name == name
    ensures r.None? ==> forall t :: t in tables ==> t.name != name
  {
    if tables == [] then None
    else if tables[0].name == name then Some(tables[0])
    else FindTable(tables[1..], name)
  }

  function FindField(columns: seq<Field>, name: string): (r: Option<Field>)
    ensures r.Some? ==> r.value in columns && r.value.column.name == name
    ensures r.None? ==> forall f :: f in columns ==> f.column.name != name
  {
    if columns == [] then None
    else if columns[0].column.name == name then Some(columns[0])
    else FindField(columns[1..], name)
  }

  /** The one primary-key column that ParseDDL insists on. */
  function PrimaryKey(t: Table): string {
    if t.primaryKey == [] then "" else t.primaryKey[0]
  }

  // ---- what ParseDDL guarantees about the tables it returns ----

  ghost predicate WellFormedTable(t: Table) {
    && |t.primaryKey| == 1
    && (forall i, j :: 0 <= i < j < |t.columns| ==> t.columns[i].column.name != t.columns[j].column.name)
    && (exists f :: f in t.columns && f.column.name == PrimaryKey(t))
    && (forall f :: f in t.columns && f.column.name == PrimaryKey(t) ==> !f.column.nullable)
    && (forall f :: f in t.columns && f.autoIncrement ==> f.column.name == PrimaryKey(t) && f.column.typ == BIGINT)
    && (forall fk :: fk in t.foreignKeys ==> |fk.columns| == |fk.references|)
  }

  ghost predicate WellFormed(tables: seq<Table>) {
    && (forall t :: t in tables ==> WellFormedTable(t))
    && (forall i, j :: 0 <= i < j < |tables| ==> tables[i].name != tables[j].name)
  }

  lemma FindTableFinds(tables: seq<Table>, t: Table)
    requires WellFormed(tables) && t in tables
    ensures FindTable(tables, t.name) == Some(t)
  {
  }

  // ---- rows ----

  /** A Go map read: a missing column reads as the zero value. */
  function Cell(row: Row, name: string): Value {
    if name in row then row[name] else ABSENT
  }

  function Project(row: Row, names: seq<string>): (vs: seq<Value>)
    ensures |vs| == |names|
    ensures forall i :: 0 <= i < |names| ==> vs[i] == Cell(row, names[i])
  {
    seq(|names|, i requires 0 <= i < |names| => Cell(row, names[i]))
  }

  predicate HasNull(row: Row, names: seq<string>) {
    exists i :: 0 <= i < |names| && Cell(row, names[i]).IsNull()
  }

  predicate TooLong(f: Field, v: Value) {
    f.column.typ == VARCHAR && !v.IsNull() && v.AsString().Some? && |v.AsString().value| > f.maxLength
  }

  predicate CellFits(f: Field, row: Row) {
    f.column.name in row && Fits(f.column, row[f.column.name]) && !TooLong(f, row[f.column.name])
  }

  /** The row has exactly as many cells as the table has columns, each well typed. */
  predicate RowFits(t: Table, row: Row) {
    |row| == |t.columns| && forall i :: 0 <= i < |t.columns| ==> CellFits(t.columns[i], row)
  }

  /** The primary key first, then the unique keys, in index order. */
  function Keys(t: Table): (ks: seq<seq<string>>)
    ensures |ks| == 1 + |t.unique|
  {
    [t.primaryKey] + t.unique
  }

  /** Unique keys, unlike the primary key, do not constrain rows holding a NULL. */
  predicate Constrains(t: Table, k: nat, row: Row)
    requires k < |Keys(t)|
  {
    k == 0 || !HasNull(row, Keys(t)[k])
  }

  predicate Clash(t: Table, k: nat, a: Row, b: Row)
    requires k < |Keys(t)|
  {
    Constrains(t, k, a) && Constrains(t, k, b) && Project(a, Keys(t)[k]) == Project(b, Keys(t)[k])
  }

  /** The source compares whole values, so a NULL foreign key needs a NULL referenced value. */
  predicate Refers(fk: ForeignKey, row: Row, other: Row)
    requires |fk.columns| == |fk.references|
  {
    forall i :: 0 <= i < |fk.columns| ==> Cell(row, fk.columns[i]) == Cell(other, fk.references[i])
  }

  const MAX_ROWS := 1000

  // ---- declarative constraints on a listing: table name to rows ----

  type Listing = map<string, seq<Row>>

  function RowsOf(db: Listing, name: string): seq<Row> {
    if name in db then db[name] else []
  }

  ghost predicate TableConsistent(t: Table, rows: seq<Row>) {
    && |rows| <= MAX_ROWS
    && (forall i :: 0 <= i < |rows| ==> RowFits(t, rows[i]))
    && (forall i, j, k :: 0 <= i < j < |rows| && 0 <= k < |Keys(t)| ==> !Clash(t, k, rows[i], rows[j]))
  }

  ghost predicate TablesConsistent(tables: seq<Table>, db: Listing) {
    forall name :: name in db ==>
      FindTable(tables, name).Some? && TableConsistent(FindTable(tables, name).value, db[name])
  }

  ghost predicate HasReference(db: Listing, fk: ForeignKey, row: Row)
    requires |fk.columns| == |fk.references|
  {
    exists j :: 0 <= j < |RowsOf(db, fk.table)| && Refers(fk, row, RowsOf(db, fk.table)[j])
  }

  ghost predicate RowsRefer(t: Table, db: Listing)
    requires WellFormedTable(t)
  {
    forall i, fk {:trigger HasReference(db, fk, RowsOf(db, t.name)[i])} ::
      0 <= i < |RowsOf(db, t.name)| && fk in t.foreignKeys ==> HasReference(db, fk, RowsOf(db, t.name)[i])
  }

  ghost predicate ReferencesConsistent(tables: seq<Table>, db: Listing)
    requires WellFormed(tables)
  {
    forall t :: t in tables ==> RowsRefer(t, db)
  }

  ghost predicate Consistent(tables: seq<Table>, db: Listing)
    requires WellFormed(tables)
  {
    TablesConsistent(tables, db) && ReferencesConsistent(tables, db)
  }

  // ---- the same constraints on a keyed view ----

  type View = map<Id, Row>

  ghost function IdsOf(view: View, table: string): set<Id> {
    set id | id in view && id.table == table
  }

  ghost predicate RowAllowed(tables: seq<Table>, name: string, row: Row) {
    FindTable(tables, name).Some? && RowFits(FindTable(tables, name).value, row)
  }

  ghost predicate RowsAllowed(tables: seq<Table>, view: View) {
    forall id {:trigger RowAllowed(tables, id.table, view[id])} :: id in view ==> RowAllowed(tables, id.table, view[id])
  }

  ghost predicate KeysUnique(tables: seq<Table>, view: View) {
    forall t, k, a, b {:trigger t in tables, Clash(t, k, view[a], view[b])} ::
      (t in tables && 0 <= k < |Keys(t)| && a in view && b in view && a != b && a.table == t.name == b.table) ==>
      !Clash(t, k, view[a], view[b])
  }

  ghost predicate Referenced(view: View, fk: ForeignKey, row: Row)
    requires |fk.columns| == |fk.references|
  {
    exists id :: id in view && id.table == fk.table && Refers(fk, row, view[id])
  }

  ghost predicate ForeignKeysHold(tables: seq<Table>, view: View)
    requires WellFormed(tables)
  {
    forall t, id, fk {:trigger t in tables, Referenced(view, fk, view[id])} ::
      t in tables && id in view && id.table == t.name && fk in t.foreignKeys ==>
      Referenced(view, fk, view[id])
  }

  ghost predicate SizesBounded(view: View) {
    forall id {:trigger IdsOf(view, id.table)} :: id in view ==> |IdsOf(view, id.table)| <= MAX_ROWS
  }

  /** Every column, primary-key, unique, foreign-key and row-count constraint holds. */
  ghost predicate ViewConsistent(tables: seq<Table>, view: View)
    requires WellFormed(tables)
  {
    RowsAllowed(tables, view) && SizesBounded(view) && KeysUnique(tables, view) && ForeignKeysHold(tables, view)
  }
}
