/** newState: from a validated scenario to a store that satisfies every invariant. */
module Loading {
  import opened Values
  import opened Schema
  import opened Plans
  import opened StoreSpec
  import opened StoreInvariant
  import opened Constraints
  import opened Sorting
  import opened AutoIncrement
  import Selection
  import S = Store

  function KeyOf(t: Table, row: Row): string {
    TextOf(Cell(row, PrimaryKey(t)))
  }

  function IdOf(t: Table, row: Row): Id {
    Id(t.name, KeyOf(t, row))
  }

  ghost predicate Stores(committed: map<Id, Record>, t: Table, row: Row) {
    IdOf(t, row) in committed && committed[IdOf(t, row)] == Record(Some(row), 0)
  }

  /** The record is that of one of the first `n` rows. */
  ghost predicate Comes(t: Table, rows: seq<Row>, n: nat, id: Id, record: Record)
    requires n <= |rows|
  {
    exists i :: 0 <= i < n && id == IdOf(t, rows[i]) && record == Record(Some(rows[i]), 0)
  }

  ghost predicate AllStored(committed: map<Id, Record>, t: Table, rows: seq<Row>) {
    forall i :: 0 <= i < |rows| ==> Stores(committed, t, rows[i])
  }

  ghost predicate KeysDistinct(t: Table, rows: seq<Row>) {
    forall i, j :: 0 <= i < j < |rows| ==> KeyOf(t, rows[i]) != KeyOf(t, rows[j])
  }

  /** Nothing of other tables changed. */
  ghost predicate Keeps(before: map<Id, Record>, after: map<Id, Record>, name: string) {
    forall id :: id in before && id.table != name ==> id in after && after[id] == before[id]
  }

  /** The first `n` rows of the table on top of `before`, in version 0, each under its own key if
      their keys are distinct; of two rows with one key the later one replaces the earlier. */
  ghost predicate RowsLoaded(t: Table, rows: seq<Row>, n: nat, before: map<Id, Record>, after: map<Id, Record>)
    requires n <= |rows|
  {
    && (KeysDistinct(t, rows[..n]) ==> AllStored(after, t, rows[..n]))
    && Keeps(before, after, t.name)
    && forall id :: id in after ==> (id in before && after[id] == before[id]) || Comes(t, rows, n, id, after[id])
  }

  ghost predicate ComesFrom(tables: seq<Table>, db: Listing, n: nat, id: Id, record: Record)
    requires n <= |tables|
  {
    exists k :: 0 <= k < n && Comes(tables[k], RowsOf(db, tables[k].name), |RowsOf(db, tables[k].name)|, id, record)
  }

  /** The records of the first `n` tables, and nothing else. */
  ghost predicate TablesLoaded(tables: seq<Table>, db: Listing, n: nat, committed: map<Id, Record>)
    requires n <= |tables|
  {
    && (forall k :: 0 <= k < n ==>
          (KeysDistinct(tables[k], RowsOf(db, tables[k].name)) ==> AllStored(committed, tables[k], RowsOf(db, tables[k].name))))
    && (forall id :: id in committed ==> ComesFrom(tables, db, n, id, committed[id]))
  }

  // ---- the scenario as it is stored ----

  /** cloneRow on every row. */
  function Clones(rows: seq<Row>): (out: seq<Row>)
    ensures |out| == |rows| && forall i :: 0 <= i < |rows| ==> out[i] == Clone(rows[i])
  {
    seq(|rows|, i requires 0 <= i < |rows| => Clone(rows[i]))
  }

  /** The scenario with every text written as the program writes it. */
  function Normal(db: Listing): (out: Listing)
    ensures out.Keys == db.Keys && forall name :: RowsOf(out, name) == Clones(RowsOf(db, name))
  {
    var out := map name | name in db :: Clones(db[name]);
    assert Clones([]) == [];
    out
  }

  lemma CloneKeepsKey(t: Table, row: Row)
    ensures IdOf(t, Clone(row)) == IdOf(t, row)
  {
  }

  lemma CloneFits(t: Table, row: Row)
    requires RowFits(t, row)
    ensures RowFits(t, Clone(row))
  {
    forall i | 0 <= i < |t.columns| ensures CellFits(t.columns[i], Clone(row)) {
      assert CellFits(t.columns[i], row);
    }
    assert Clone(row).Keys == row.Keys;
  }

  // ---- the id allocator ----

  predicate AutoBelow(t: Table, row: Row, next: int) {
    forall f :: f in t.columns && f.autoIncrement ==> NumberOf(Cell(row, f.column.name)) < next
  }

  /** Every stored id is below `next`. */
  predicate AllBelow(t: Table, rows: seq<Row>, next: int) {
    forall i :: 0 <= i < |rows| ==> AutoBelow(t, rows[i], next)
  }

  /** The smallest positive id above every stored one. */
  ghost predicate FirstFree(t: Table, rows: seq<Row>, next: int) {
    1 <= next <= MAX_INT64 && AllBelow(t, rows, next) && forall m :: 1 <= m && AllBelow(t, rows, m) ==> next <= m
  }

  /** No stored id is the last int64, and a seed, if there is one, is a number above every stored id. */
  ghost predicate Loadable(t: Table, rows: seq<Row>, seeds: map<string, string>) {
    && AllBelow(t, rows, MAX_INT64)
    && (t.name in seeds ==>
          ParseInt64(seeds[t.name]).Some? && 1 <= ParseInt64(seeds[t.name]).value
          && AllBelow(t, rows, ParseInt64(seeds[t.name]).value))
  }

  ghost predicate Seeded(t: Table, rows: seq<Row>, seeds: map<string, string>, next: int) {
    if t.name in seeds then ParseInt64(seeds[t.name]) == Some(next) else FirstFree(t, rows, next)
  }

  /** The allocator moves past the ids of one row. */
  method PassRow(t: Table, row: Row, before: int) returns (ok: bool, next: int)
    requires 1 <= before <= MAX_INT64
    ensures ok <==> AutoBelow(t, row, MAX_INT64)
    ensures ok ==> before <= next <= MAX_INT64 && AutoBelow(t, row, next)
    ensures ok ==> forall m :: before <= m && AutoBelow(t, row, m) ==> next <= m
  {
    next := before;
    for i := 0 to |t.columns|
      invariant before <= next <= MAX_INT64
      invariant forall f :: f in t.columns[..i] && f.autoIncrement ==>
                  NumberOf(Cell(row, f.column.name)) < next && NumberOf(Cell(row, f.column.name)) < MAX_INT64
      invariant forall m :: before <= m && AutoBelow(t, row, m) ==> next <= m
    {
      var f := t.columns[i];
      if f.autoIncrement {
        var n := NumberOf(Cell(row, f.column.name));
        if n >= MAX_INT64 {
          return false, next;
        }
        if n >= next {
          next := n + 1;
        }
      }
    }
    ok := true;
  }

  lemma StoredOneMore(t: Table, rows: seq<Row>, i: nat, committed: map<Id, Record>)
    requires i < |rows| && AllStored(committed, t, rows[..i]) && KeysDistinct(t, rows[..i + 1])
    ensures AllStored(committed[IdOf(t, rows[i]) := Record(Some(rows[i]), 0)], t, rows[..i + 1])
  {
    hide KeyOf;
    var after := committed[IdOf(t, rows[i]) := Record(Some(rows[i]), 0)];
    var front := rows[..i + 1];
    forall j | 0 <= j < |front| ensures Stores(after, t, front[j]) {
      if j < i {
        assert rows[..i][j] == rows[j] && Stores(committed, t, rows[..i][j]);
        assert KeyOf(t, front[j]) != KeyOf(t, front[i]);
      }
    }
  }

  lemma DistinctFront(t: Table, rows: seq<Row>, i: nat)
    requires i < |rows| && KeysDistinct(t, rows[..i + 1])
    ensures KeysDistinct(t, rows[..i])
  {
    hide KeyOf;
    forall j, k | 0 <= j < k < i ensures KeyOf(t, rows[..i][j]) != KeyOf(t, rows[..i][k]) {
      assert rows[..i + 1][j] == rows[..i][j] && rows[..i + 1][k] == rows[..i][k];
    }
  }

  lemma RowsExtend(t: Table, rows: seq<Row>, i: nat, before: map<Id, Record>, committed: map<Id, Record>)
    requires i < |rows| && RowsLoaded(t, rows, i, before, committed)
    ensures RowsLoaded(t, rows, i + 1, before, committed[IdOf(t, rows[i]) := Record(Some(rows[i]), 0)])
  {
    hide KeyOf, AllStored, KeysDistinct;
    var after := committed[IdOf(t, rows[i]) := Record(Some(rows[i]), 0)];
    if KeysDistinct(t, rows[..i + 1]) {
      DistinctFront(t, rows, i);
      StoredOneMore(t, rows, i, committed);
    }
    forall id | id in after ensures (id in before && after[id] == before[id]) || Comes(t, rows, i + 1, id, after[id]) {
      if id != IdOf(t, rows[i]) && !(id in before && after[id] == before[id]) {
        assert Comes(t, rows, i, id, committed[id]);
      }
    }
  }

  lemma FirstFreeStep(t: Table, rows: seq<Row>, i: nat, previous: int, next: int)
    requires i < |rows| && AllBelow(t, rows[..i], previous) && previous <= next && AutoBelow(t, rows[i], next)
    requires forall m :: 1 <= m && AllBelow(t, rows, m) ==> previous <= m
    requires forall m :: previous <= m && AutoBelow(t, rows[i], m) ==> next <= m
    ensures AllBelow(t, rows[..i + 1], next)
    ensures forall m :: 1 <= m && AllBelow(t, rows, m) ==> next <= m
  {
    forall m | 1 <= m && AllBelow(t, rows, m) ensures next <= m {
      assert previous <= m && AutoBelow(t, rows[i], m);
    }
    forall j | 0 <= j < i + 1 ensures AutoBelow(t, rows[j], next) {
      assert j < i ==> rows[..i][j] == rows[j];
    }
  }

  method LoadRows(t: Table, rows: seq<Row>, before: map<Id, Record>) returns (ok: bool, committed: map<Id, Record>, next: int)
    requires forall id :: id in before ==> id.table != t.name
    ensures ok <==> AllBelow(t, rows, MAX_INT64)
    ensures ok ==> RowsLoaded(t, Clones(rows), |rows|, before, committed) && FirstFree(t, rows, next)
  {
    committed, next := before, 1;
    ghost var stored := Clones(rows);
    assert RowsLoaded(t, stored, 0, before, committed);
    hide RowsLoaded, Clone;
    for i := 0 to |rows|
      invariant RowsLoaded(t, stored, i, before, committed)
      invariant 1 <= next <= MAX_INT64 && AllBelow(t, rows[..i], next)
      invariant forall m :: 1 <= m && AllBelow(t, rows, m) ==> next <= m
    {
      CloneKeepsKey(t, rows[i]);
      RowsExtend(t, stored, i, before, committed);
      committed := committed[IdOf(t, rows[i]) := Record(Some(Clone(rows[i])), 0)];
      var passed, past := PassRow(t, rows[i], next);
      if !passed {
        return false, committed, next;
      }
      FirstFreeStep(t, rows, i, next, past);
      next := past;
    }
    assert rows[..|rows|] == rows;
    ok := true;
  }

  /** The text of a fitting primary key determines the key. */
  lemma KeyTextIsTheKey(t: Table, row: Row)
    requires WellFormedTable(t) && RowFits(t, row)
    ensures Cell(row, PrimaryKey(t)).AsString() == Some(KeyOf(t, row))
    ensures Canonical(row) ==> Cell(row, PrimaryKey(t)).data == Text(KeyOf(t, row))
    ensures exists f :: f in t.columns && f.column.name == PrimaryKey(t) && f.column.typ == Cell(row, PrimaryKey(t)).typ
  {
    var f :| f in t.columns && f.column.name == PrimaryKey(t);
    var i :| 0 <= i < |t.columns| && t.columns[i] == f;
    assert CellFits(t.columns[i], row);
  }

  lemma SameColumn(t: Table, f: Field, g: Field)
    requires WellFormedTable(t) && f in t.columns && g in t.columns && f.column.name == g.column.name
    ensures f == g
  {
  }

  ghost predicate CanonicalRows(rows: seq<Row>) {
    forall i :: 0 <= i < |rows| ==> Canonical(rows[i])
  }

  ghost predicate CanonicalListing(db: Listing) {
    forall name :: CanonicalRows(RowsOf(db, name))
  }

  lemma NormalIsCanonical(db: Listing)
    ensures CanonicalListing(Normal(db))
  {
    forall name ensures CanonicalRows(RowsOf(Normal(db), name)) {
      var rows := RowsOf(db, name);
      forall i | 0 <= i < |rows| ensures Canonical(Clones(rows)[i]) {
        CloneIsCanonical(rows[i]);
      }
    }
  }

  lemma KeysDiffer(t: Table, rows: seq<Row>, i: nat)
    requires WellFormedTable(t) && TableConsistent(t, rows) && CanonicalRows(rows) && i < |rows|
    ensures forall j :: 0 <= j < i ==> KeyOf(t, rows[j]) != KeyOf(t, rows[i])
  {
    forall j | 0 <= j < i ensures KeyOf(t, rows[j]) != KeyOf(t, rows[i]) {
      KeyTextIsTheKey(t, rows[i]);
      KeyTextIsTheKey(t, rows[j]);
      var f :| f in t.columns && f.column.name == PrimaryKey(t) && f.column.typ == Cell(rows[i], PrimaryKey(t)).typ;
      var g :| g in t.columns && g.column.name == PrimaryKey(t) && g.column.typ == Cell(rows[j], PrimaryKey(t)).typ;
      SameColumn(t, f, g);
      assert !Clash(t, 0, rows[j], rows[i]);
      assert Keys(t)[0] == [PrimaryKey(t)];
      assert Project(rows[j], [PrimaryKey(t)]) != Project(rows[i], [PrimaryKey(t)]);
    }
  }

  lemma ConsistentIsDistinct(t: Table, rows: seq<Row>)
    requires WellFormedTable(t) && TableConsistent(t, rows) && CanonicalRows(rows)
    ensures KeysDistinct(t, rows)
  {
    forall i, j | 0 <= i < j < |rows| ensures KeyOf(t, rows[i]) != KeyOf(t, rows[j]) {
      KeysDiffer(t, rows, j);
    }
  }

  // ---- the loaded state ----

  /** The key texts of the listed rows, table by table. */
  function KeysOf(tables: seq<Table>, db: Listing): (keys: map<string, seq<string>>)
    ensures keys.Keys == db.Keys
    ensures forall name :: name in keys ==> |keys[name]| == |db[name]|
  {
    map name | name in db ::
      seq(|db[name]|, i requires 0 <= i < |db[name]| =>
        match FindTable(tables, name) case None => "" case Some(t) => KeyOf(t, db[name][i]))
  }

  lemma LoadedRow(tables: seq<Table>, db: Listing, committed: map<Id, Record>, name: string, i: nat)
    requires WellFormed(tables) && TablesConsistent(tables, db) && TablesLoaded(tables, db, |tables|, committed)
    requires CanonicalListing(db) && name in db && i < |db[name]|
    ensures var id := Id(name, KeysOf(tables, db)[name][i]); id in committed && committed[id].row == Some(db[name][i])
  {
    var t := FindTable(tables, name).value;
    var k :| 0 <= k < |tables| && tables[k] == t;
    assert CanonicalRows(RowsOf(db, name));
    ConsistentIsDistinct(t, db[name]);
    assert AllStored(committed, tables[k], RowsOf(db, tables[k].name));
    assert Stores(committed, t, db[name][i]);
  }

  lemma LoadedKey(tables: seq<Table>, db: Listing, committed: map<Id, Record>, id: Id) returns (t: Table, i: nat)
    requires WellFormed(tables) && TablesLoaded(tables, db, |tables|, committed) && id in committed
    ensures t in tables && t.name == id.table && FindTable(tables, id.table) == Some(t)
    ensures i < |RowsOf(db, t.name)| && id == IdOf(t, RowsOf(db, t.name)[i])
    ensures committed[id] == Record(Some(RowsOf(db, t.name)[i]), 0)
  {
    assert ComesFrom(tables, db, |tables|, id, committed[id]);
    var k :| 0 <= k < |tables| && Comes(tables[k], RowsOf(db, tables[k].name), |RowsOf(db, tables[k].name)|, id, committed[id]);
    t := tables[k];
    i :| 0 <= i < |RowsOf(db, t.name)| && id == IdOf(t, RowsOf(db, t.name)[i]) && committed[id] == Record(Some(RowsOf(db, t.name)[i]), 0);
    FindTableFinds(tables, t);
  }

  lemma LoadedId(tables: seq<Table>, db: Listing, committed: map<Id, Record>, id: Id)
    requires WellFormed(tables) && TablesConsistent(tables, db) && TablesLoaded(tables, db, |tables|, committed)
    requires CanonicalListing(db) && id in Live(committed)
    ensures id.table in db && id.key in KeysOf(tables, db)[id.table] && Tidy(tables, id, Live(committed)[id])
  {
    var t, i := LoadedKey(tables, db, committed, id);
    assert KeysOf(tables, db)[id.table][i] == id.key;
    KeyTextIsTheKey(t, RowsOf(db, t.name)[i]);
  }

  lemma KeysAreDistinct(tables: seq<Table>, db: Listing, name: string)
    requires WellFormed(tables) && TablesConsistent(tables, db) && CanonicalListing(db) && name in db
    ensures Distinct(KeysOf(tables, db)[name])
  {
    var t := FindTable(tables, name).value;
    assert CanonicalRows(RowsOf(db, name));
    forall i, j | 0 <= i < j < |db[name]| ensures KeysOf(tables, db)[name][i] != KeysOf(tables, db)[name][j] {
      KeysDiffer(t, db[name], j);
    }
  }

  lemma LoadedViewLists(tables: seq<Table>, db: Listing, committed: map<Id, Record>)
    requires WellFormed(tables) && TablesConsistent(tables, db) && TablesLoaded(tables, db, |tables|, committed)
    requires CanonicalListing(db)
    ensures Lists(Live(committed), db, KeysOf(tables, db))
    ensures AllTidy(tables, Live(committed))
  {
    hide TablesLoaded, TablesConsistent, KeysOf, CanonicalListing;
    var keys := KeysOf(tables, db);
    forall name | name in db ensures Distinct(keys[name]) {
      KeysAreDistinct(tables, db, name);
    }
    forall name, i | name in db && 0 <= i < |db[name]|
      ensures Id(name, keys[name][i]) in Live(committed) && db[name][i] == Live(committed)[Id(name, keys[name][i])]
    {
      LoadedRow(tables, db, committed, name, i);
    }
    forall id | id in Live(committed)
      ensures id.table in keys && id.key in keys[id.table] && Tidy(tables, id, Live(committed)[id])
    {
      LoadedId(tables, db, committed, id);
    }
  }

  /** The loaded state of a consistent, canonically written scenario satisfies every invariant of the store. */
  lemma LoadedIsValid(tables: seq<Table>, db: Listing, committed: map<Id, Record>, nextIDs: map<string, int>)
    requires WellFormed(tables) && Consistent(tables, db) && TablesLoaded(tables, db, |tables|, committed)
    requires CanonicalListing(db)
    ensures Inv(State(tables, committed, map[], nextIDs, 0))
  {
    LoadedViewLists(tables, db, committed);
    ListingIsFaithful(tables, Live(committed), db, KeysOf(tables, db));
  }

  /** A key of a generating table, as text, is below an allocator above its number. */
  lemma AutoKeyBelow(t: Table, row: Row, next: int)
    requires WellFormedTable(t) && Generates(t) && RowFits(t, row) && AutoBelow(t, row, next)
    ensures KeyBelow(KeyOf(t, row), next)
  {
    var c :| 0 <= c < |t.columns| && t.columns[c].autoIncrement;
    assert t.columns[c] in t.columns && CellFits(t.columns[c], row);
    KeyTextIsTheKey(t, row);
  }

  /** Seeded allocators are safe: every loaded key of a generating table is below its next id. */
  lemma LoadedIsAutoSafe(tables: seq<Table>, db: Listing, committed: map<Id, Record>, t: Table, next: int)
    requires WellFormed(tables) && TablesLoaded(tables, db, |tables|, committed)
    requires t in tables && Generates(t) && AllBelow(t, RowsOf(db, t.name), next)
    requires forall i :: 0 <= i < |RowsOf(db, t.name)| ==> RowFits(t, RowsOf(db, t.name)[i])
    ensures KeysBelow(committed.Keys, t.name, next)
  {
    forall id | id in committed && id.table == t.name ensures KeyBelow(id.key, next) {
      var u, i := LoadedKey(tables, db, committed, id);
      FindTableFinds(tables, t);
      AutoKeyBelow(t, RowsOf(db, t.name)[i], next);
    }
  }

  lemma StoredExtend(tables: seq<Table>, db: Listing, n: nat, before: map<Id, Record>, after: map<Id, Record>, k: nat)
    requires WellFormed(tables) && k <= n < |tables| && TablesLoaded(tables, db, n, before)
    requires RowsLoaded(tables[n], RowsOf(db, tables[n].name), |RowsOf(db, tables[n].name)|, before, after)
    requires KeysDistinct(tables[k], RowsOf(db, tables[k].name))
    ensures AllStored(after, tables[k], RowsOf(db, tables[k].name))
  {
    var rows := RowsOf(db, tables[n].name);
    if k < n {
      hide AllStored;
      StillStored(tables[k], RowsOf(db, tables[k].name), before, after, tables[n].name);
    } else {
      assert rows[..|rows|] == rows;
    }
  }

  lemma ComesExtend(tables: seq<Table>, db: Listing, n: nat, before: map<Id, Record>, after: map<Id, Record>, id: Id)
    requires n < |tables| && TablesLoaded(tables, db, n, before) && id in after
    requires RowsLoaded(tables[n], RowsOf(db, tables[n].name), |RowsOf(db, tables[n].name)|, before, after)
    ensures ComesFrom(tables, db, n + 1, id, after[id])
  {
    hide AllStored, Keeps, Comes, KeysDistinct;
    if id in before && after[id] == before[id] {
      assert ComesFrom(tables, db, n, id, before[id]);
      var k :| 0 <= k < n && Comes(tables[k], RowsOf(db, tables[k].name), |RowsOf(db, tables[k].name)|, id, before[id]);
    } else {
      assert Comes(tables[n], RowsOf(db, tables[n].name), |RowsOf(db, tables[n].name)|, id, after[id]);
    }
  }

  lemma TablesExtend(tables: seq<Table>, db: Listing, n: nat, before: map<Id, Record>, after: map<Id, Record>)
    requires WellFormed(tables) && n < |tables| && TablesLoaded(tables, db, n, before)
    requires RowsLoaded(tables[n], RowsOf(db, tables[n].name), |RowsOf(db, tables[n].name)|, before, after)
    ensures TablesLoaded(tables, db, n + 1, after)
  {
    forall k | 0 <= k <= n && KeysDistinct(tables[k], RowsOf(db, tables[k].name))
      ensures AllStored(after, tables[k], RowsOf(db, tables[k].name))
    {
      StoredExtend(tables, db, n, before, after, k);
    }
    forall id | id in after ensures ComesFrom(tables, db, n + 1, id, after[id]) {
      ComesExtend(tables, db, n, before, after, id);
    }
    hide AllStored, ComesFrom, RowsLoaded, WellFormed, KeysDistinct;
  }

  lemma StillStored(t: Table, rows: seq<Row>, before: map<Id, Record>, after: map<Id, Record>, name: string)
    requires AllStored(before, t, rows) && Keeps(before, after, name) && t.name != name
    ensures AllStored(after, t, rows)
  {
    forall i | 0 <= i < |rows| ensures Stores(after, t, rows[i]) {
      assert Stores(before, t, rows[i]);
    }
  }

  /** One table of the scenario: its rows and its allocator, a seed included. */
  method LoadTable(t: Table, rows: seq<Row>, seeds: map<string, string>, before: map<Id, Record>)
    returns (ok: bool, committed: map<Id, Record>, next: int)
    requires forall id :: id in before ==> id.table != t.name
    ensures ok <==> Loadable(t, rows, seeds)
    ensures ok ==> RowsLoaded(t, Clones(rows), |rows|, before, committed) && Seeded(t, rows, seeds, next)
    ensures ok ==> 1 <= next <= MAX_INT64 && AllBelow(t, rows, next)
  {
    ok, committed, next := LoadRows(t, rows, before);
    if ok && t.name in seeds {
      match ParseInt64(seeds[t.name])
      case None =>
        ok := false;
      case Some(n) =>
        ok := n >= next;
        assert ok ==> AllBelow(t, rows, n);
        next := n;
    }
  }

  lemma NoRowsYet(tables: seq<Table>, db: Listing, n: nat, committed: map<Id, Record>)
    requires WellFormed(tables) && n < |tables| && TablesLoaded(tables, db, n, committed)
    ensures forall id :: id in committed ==> id.table != tables[n].name
  {
  }

  ghost predicate Allocated(t: Table, rows: seq<Row>, seeds: map<string, string>, nextIDs: map<string, int>) {
    && t.name in nextIDs && 1 <= nextIDs[t.name] <= MAX_INT64
    && Loadable(t, rows, seeds) && Seeded(t, rows, seeds, nextIDs[t.name]) && AllBelow(t, rows, nextIDs[t.name])
  }

  method LoadTables(tables: seq<Table>, db: Listing, seeds: map<string, string>)
    returns (ok: bool, committed: map<Id, Record>, nextIDs: map<string, int>)
    requires WellFormed(tables)
    ensures ok <==> forall t :: t in tables ==> Loadable(t, RowsOf(db, t.name), seeds)
    ensures ok ==> TablesLoaded(tables, Normal(db), |tables|, committed)
    ensures ok ==> forall t :: t in tables ==> Allocated(t, RowsOf(db, t.name), seeds, nextIDs)
  {
    committed, nextIDs := map[], map[];
    ghost var stored := Normal(db);
    hide TablesLoaded, RowsLoaded, Loadable, Seeded, Clones;
    NothingLoaded(tables, stored);
    for k := 0 to |tables|
      invariant TablesLoaded(tables, stored, k, committed)
      invariant forall t :: t in tables[..k] ==> Allocated(t, RowsOf(db, t.name), seeds, nextIDs)
    {
      var t := tables[k];
      NoRowsYet(tables, stored, k, committed);
      var loaded, after, next := LoadTable(t, RowsOf(db, t.name), seeds, committed);
      if !loaded {
        return false, committed, nextIDs;
      }
      TablesExtend(tables, stored, k, committed, after);
      AllocatedOne(t, RowsOf(db, t.name), seeds, next);
      AllocatedExtend(tables, db, k, seeds, nextIDs, next);
      committed, nextIDs := after, nextIDs[t.name := next];
    }
    ok := true;
  }

  lemma NothingLoaded(tables: seq<Table>, db: Listing)
    ensures TablesLoaded(tables, db, 0, map[])
  {
  }

  lemma AllocatedOne(t: Table, rows: seq<Row>, seeds: map<string, string>, next: int)
    requires Loadable(t, rows, seeds) && Seeded(t, rows, seeds, next) && 1 <= next <= MAX_INT64 && AllBelow(t, rows, next)
    ensures Allocated(t, rows, seeds, map[t.name := next])
  {
  }

  lemma AllocatedExtend(tables: seq<Table>, db: Listing, k: nat, seeds: map<string, string>, nextIDs: map<string, int>, next: int)
    requires WellFormed(tables) && k < |tables|
    requires forall t :: t in tables[..k] ==> Allocated(t, RowsOf(db, t.name), seeds, nextIDs)
    requires Allocated(tables[k], RowsOf(db, tables[k].name), seeds, map[tables[k].name := next])
    ensures forall t :: t in tables[..k + 1] ==> Allocated(t, RowsOf(db, t.name), seeds, nextIDs[tables[k].name := next])
  {
    var after := nextIDs[tables[k].name := next];
    forall t | t in tables[..k + 1] ensures Allocated(t, RowsOf(db, t.name), seeds, after) {
      if t != tables[k] {
        assert t in tables[..k] && t.name != tables[k].name;
      }
    }
  }

  lemma AllocatedForClones(t: Table, rows: seq<Row>, next: int)
    requires AllBelow(t, rows, next)
    ensures AllBelow(t, Clones(rows), next)
  {
    forall i | 0 <= i < |rows| ensures AutoBelow(t, Clone(rows[i]), next) {
      assert AutoBelow(t, rows[i], next);
      forall f | f in t.columns ensures NumberOf(Cell(Clone(rows[i]), f.column.name)) == NumberOf(Cell(rows[i], f.column.name)) {
      }
    }
  }

  lemma NormalRowsFit(tables: seq<Table>, db: Listing, t: Table, i: nat)
    requires WellFormed(tables) && TablesConsistent(tables, db) && t in tables && i < |RowsOf(db, t.name)|
    ensures RowFits(t, RowsOf(Normal(db), t.name)[i])
  {
    FindTableFinds(tables, t);
    CloneFits(t, RowsOf(db, t.name)[i]);
  }

  lemma LoadedIsSafe(tables: seq<Table>, db: Listing, seeds: map<string, string>, committed: map<Id, Record>,
                     nextIDs: map<string, int>, t: Table)
    requires WellFormed(tables) && TablesConsistent(tables, db) && TablesLoaded(tables, Normal(db), |tables|, committed)
    requires t in tables && Generates(t) && Allocated(t, RowsOf(db, t.name), seeds, nextIDs)
    ensures AutoSafe(State(tables, committed, map[], nextIDs, 0), t)
  {
    AllocatedForClones(t, RowsOf(db, t.name), nextIDs[t.name]);
    forall i | 0 <= i < |RowsOf(db, t.name)| ensures RowFits(t, RowsOf(Normal(db), t.name)[i]) {
      NormalRowsFit(tables, db, t, i);
    }
    LoadedIsAutoSafe(tables, Normal(db), committed, t, nextIDs[t.name]);
  }

  // ---- when the loaded store is sound ----

  /** The committed rows are exactly the scenario's, each with a record of its own. */
  ghost predicate Holds(tables: seq<Table>, db: Listing, committed: map<Id, Record>) {
    Lists(Live(committed), Normal(db), KeysOf(tables, Normal(db)))
  }

  lemma HeldTable(tables: seq<Table>, view: View, db: Listing, keys: map<string, seq<string>>, name: string)
    requires WellFormed(tables) && Lists(view, db, keys) && name in db && FindTable(tables, name).Some?
    requires ViewConsistent(tables, view)
    ensures TableConsistent(FindTable(tables, name).value, db[name])
  {
    if db[name] != [] {
      ViewGivesTable(tables, view, db, keys, name);
    }
  }

  lemma HeldIsConsistent(tables: seq<Table>, view: View, db: Listing, keys: map<string, seq<string>>)
    requires WellFormed(tables) && Lists(view, db, keys) && ViewConsistent(tables, view)
    requires forall name :: name in db ==> FindTable(tables, name).Some?
    ensures Consistent(tables, db)
  {
    forall name | name in db ensures FindTable(tables, name).Some? && TableConsistent(FindTable(tables, name).value, db[name]) {
      HeldTable(tables, view, db, keys, name);
    }
    ReferencesAgree(tables, view, db, keys);
    ReferencesOfView(tables, view);
    hide Lists, ViewConsistent, ForeignKeysHold, ReferencesConsistent, TableConsistent, WellFormed;
  }

  lemma NormalIsSound(tables: seq<Table>, db: Listing, committed: map<Id, Record>, nextIDs: map<string, int>)
    requires WellFormed(tables) && Consistent(tables, Normal(db)) && TablesLoaded(tables, Normal(db), |tables|, committed)
    ensures Inv(State(tables, committed, map[], nextIDs, 0)) && Holds(tables, db, committed)
  {
    hide TablesLoaded, Lists, CanonicalListing, Inv, ReferencesConsistent, TablesConsistent;
    NormalIsCanonical(db);
    LoadedIsValid(tables, Normal(db), committed, nextIDs);
    ConsistentTables(tables, Normal(db));
    LoadedViewLists(tables, Normal(db), committed);
  }

  lemma ConsistentTables(tables: seq<Table>, db: Listing)
    requires WellFormed(tables) && Consistent(tables, db)
    ensures TablesConsistent(tables, db)
    ensures forall name :: name in db ==> FindTable(tables, name).Some?
  {
  }

  lemma ValidView(s: State)
    requires Inv(s)
    ensures ViewConsistent(s.tables, Live(s.committed))
  {
  }

  /** The store of a scenario that passes the checker satisfies its invariant and holds every row
      exactly when the scenario is still consistent once its texts are written in one way. */
  lemma SoundIffNormal(tables: seq<Table>, db: Listing, committed: map<Id, Record>, nextIDs: map<string, int>)
    requires WellFormed(tables) && Consistent(tables, db) && TablesLoaded(tables, Normal(db), |tables|, committed)
    ensures Inv(State(tables, committed, map[], nextIDs, 0)) && Holds(tables, db, committed) <==> Consistent(tables, Normal(db))
  {
    ConsistentTables(tables, db);
    hide TablesLoaded, Consistent, ViewConsistent, Inv, Lists, KeysOf;
    if Consistent(tables, Normal(db)) {
      NormalIsSound(tables, db, committed, nextIDs);
    }
    if Inv(State(tables, committed, map[], nextIDs, 0)) && Holds(tables, db, committed) {
      ValidView(State(tables, committed, map[], nextIDs, 0));
      HeldIsConsistent(tables, Live(committed), Normal(db), KeysOf(tables, Normal(db)));
    }
  }

  lemma ReferencesOfView(tables: seq<Table>, view: View)
    requires WellFormed(tables)
    ensures ViewConsistent(tables, view) ==> ForeignKeysHold(tables, view)
  {
  }

  /** newState: a store exactly for a consistent scenario with usable ids, with safe allocators. The
      checker compares texts as they are written, so the store is sound, satisfying its invariant
      and holding every row, exactly when the scenario stays consistent with its texts rewritten. */
  method NewStore(tables: seq<Table>, db: Listing, seeds: map<string, string>, textSize: Selection.TextSize)
    returns (store: S.Store?)
    requires WellFormed(tables)
    ensures store != null <==>
              Consistent(tables, db) && forall t :: t in tables ==> Loadable(t, RowsOf(db, t.name), seeds)
    ensures store != null ==>
              && fresh(store) && store.tables == tables && store.sessions == map[] && store.version == 0
              && TablesLoaded(tables, Normal(db), |tables|, store.committed)
              && (forall t :: t in tables ==> Allocated(t, RowsOf(db, t.name), seeds, store.nextIDs))
              && (forall t :: t in tables && Generates(t) ==> AutoSafe(store.Abs(), t))
              && (store.Valid() && Holds(tables, db, store.committed) <==> Consistent(tables, Normal(db)))
  {
    var check := ValidateInitial(tables, db);
    if check != Pass {
      return null;
    }
    var ok, committed, nextIDs := LoadTables(tables, db, seeds);
    if !ok {
      return null;
    }
    SoundIffNormal(tables, db, committed, nextIDs);
    hide TablesLoaded, Holds, Inv, Consistent, Normal;
    store := new S.Store(tables, committed, nextIDs, textSize);
    forall t | t in tables && Generates(t) ensures AutoSafe(store.Abs(), t) {
      LoadedIsSafe(tables, db, seeds, committed, nextIDs, t);
    }
  }
}
