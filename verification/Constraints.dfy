/** The one-pass constraint checker and the listing of a view it is applied to. */
module Constraints {
  import opened Values
  import opened Schema
  import opened Sorting

  datatype Violation = DuplicateKey | MissingReference | OtherViolation

  datatype Check = Pass | Reject(violation: Violation)

  // ---- listing a keyed view ----

  /** `db` holds, table by table, exactly the rows of `view`; `keys` names their keys. */
  ghost predicate Lists(view: View, db: Listing, keys: map<string, seq<string>>) {
    && db.Keys == keys.Keys
    && (forall name :: name in keys ==> |keys[name]| == |db[name]| && Distinct(keys[name]))
    && (forall name, i :: name in keys && 0 <= i < |keys[name]| ==>
          Id(name, keys[name][i]) in view && db[name][i] == view[Id(name, keys[name][i])])
    && (forall id :: id in view ==> id.table in keys && id.key in keys[id.table])
  }

  /** asInitial never lists a table without rows. */
  ghost predicate Compact(db: Listing) {
    forall name :: name in db ==> db[name] != []
  }

  lemma {:induction false} ListedIds(view: View, table: string, keys: seq<string>)
    requires Distinct(keys)
    ensures |set i | 0 <= i < |keys| :: Id(table, keys[i])| == |keys|
  {
    if keys != [] {
      var n := |keys| - 1;
      ListedIds(view, table, keys[..n]);
      var front := set i | 0 <= i < n :: Id(table, keys[..n][i]);
      assert (set i | 0 <= i < |keys| :: Id(table, keys[i])) == front + {Id(table, keys[n])};
    }
  }

  lemma SizesAgree(view: View, db: Listing, keys: map<string, seq<string>>, name: string)
    requires Lists(view, db, keys) && name in keys
    ensures |IdsOf(view, name)| == |db[name]|
  {
    ListedIds(view, name, keys[name]);
    var ks := keys[name];
    assert IdsOf(view, name) == set i | 0 <= i < |ks| :: Id(name, ks[i]);
  }

  lemma ListingGivesRow(tables: seq<Table>, view: View, db: Listing, keys: map<string, seq<string>>, id: Id)
    requires WellFormed(tables) && Lists(view, db, keys) && TablesConsistent(tables, db) && id in view
    ensures RowAllowed(tables, id.table, view[id])
    ensures |IdsOf(view, id.table)| <= MAX_ROWS
  {
    SizesAgree(view, db, keys, id.table);
    var i :| 0 <= i < |keys[id.table]| && keys[id.table][i] == id.key;
    assert db[id.table][i] == view[id];
  }

  /** Where a record is listed. */
  lemma ListedAt(view: View, db: Listing, keys: map<string, seq<string>>, id: Id) returns (i: nat)
    requires Lists(view, db, keys) && id in view
    ensures id.table in db && id.table in keys && i < |db[id.table]| == |keys[id.table]|
    ensures keys[id.table][i] == id.key && db[id.table][i] == view[id]
  {
    i :| 0 <= i < |keys[id.table]| && keys[id.table][i] == id.key;
  }

  lemma NoClashAt(t: Table, rows: seq<Row>, i: nat, j: nat, k: nat)
    requires TableConsistent(t, rows) && i < |rows| && j < |rows| && i != j && k < |Keys(t)|
    ensures !Clash(t, k, rows[i], rows[j])
  {
    hide Keys, Constrains;
    assert if i < j then !Clash(t, k, rows[i], rows[j]) else !Clash(t, k, rows[j], rows[i]);
  }

  lemma ListingGivesNoClash(tables: seq<Table>, view: View, db: Listing, keys: map<string, seq<string>>,
                            t: Table, k: nat, a: Id, b: Id)
    requires WellFormed(tables) && Lists(view, db, keys) && TablesConsistent(tables, db)
    requires t in tables && k < |Keys(t)| && a in view && b in view && a != b && a.table == t.name == b.table
    ensures !Clash(t, k, view[a], view[b])
  {
    hide Clash, Lists, TableConsistent;
    FindTableFinds(tables, t);
    var i := ListedAt(view, db, keys, a);
    var j := ListedAt(view, db, keys, b);
    NoClashAt(t, db[t.name], i, j, k);
  }

  lemma ViewGivesTable(tables: seq<Table>, view: View, db: Listing, keys: map<string, seq<string>>, name: string)
    requires WellFormed(tables) && Lists(view, db, keys) && name in db && db[name] != []
    requires RowsAllowed(tables, view) && SizesBounded(view) && KeysUnique(tables, view)
    ensures FindTable(tables, name).Some? && TableConsistent(FindTable(tables, name).value, db[name])
  {
    var ks, rows := keys[name], db[name];
    SizesAgree(view, db, keys, name);
    var first := Id(name, ks[0]);
    assert first in view && RowAllowed(tables, first.table, view[first]);
    var t := FindTable(tables, name).value;
    assert |IdsOf(view, first.table)| <= MAX_ROWS;
    forall i | 0 <= i < |rows| ensures RowFits(t, rows[i]) {
      assert Id(name, ks[i]) in view && RowAllowed(tables, name, view[Id(name, ks[i])]);
    }
    forall i, j, k | 0 <= i < j < |rows| && 0 <= k < |Keys(t)|
      ensures !Clash(t, k, rows[i], rows[j])
    {
      var a, b := Id(name, ks[i]), Id(name, ks[j]);
      assert a in view && b in view && a != b && rows[i] == view[a] && rows[j] == view[b];
    }
  }

  lemma ListingGivesKeys(tables: seq<Table>, view: View, db: Listing, keys: map<string, seq<string>>)
    requires WellFormed(tables) && Lists(view, db, keys) && TablesConsistent(tables, db)
    ensures RowsAllowed(tables, view) && SizesBounded(view) && KeysUnique(tables, view)
  {
    forall id | id in view
      ensures RowAllowed(tables, id.table, view[id])
      ensures |IdsOf(view, id.table)| <= MAX_ROWS
    {
      ListingGivesRow(tables, view, db, keys, id);
    }
    forall t, k, a, b | t in tables && 0 <= k < |Keys(t)| && a in view && b in view && a != b && a.table == t.name == b.table
      ensures !Clash(t, k, view[a], view[b])
    {
      ListingGivesNoClash(tables, view, db, keys, t, k, a, b);
    }
  }

  lemma TablesAgree(tables: seq<Table>, view: View, db: Listing, keys: map<string, seq<string>>)
    requires WellFormed(tables) && Lists(view, db, keys) && Compact(db)
    ensures TablesConsistent(tables, db)
       <==> RowsAllowed(tables, view) && SizesBounded(view) && KeysUnique(tables, view)
  {
    if TablesConsistent(tables, db) {
      ListingGivesKeys(tables, view, db, keys);
    }
    if RowsAllowed(tables, view) && SizesBounded(view) && KeysUnique(tables, view) {
      forall name | name in db
        ensures FindTable(tables, name).Some? && TableConsistent(FindTable(tables, name).value, db[name])
      {
        ViewGivesTable(tables, view, db, keys, name);
      }
    }
  }

  lemma ReferenceAgrees(view: View, db: Listing, keys: map<string, seq<string>>, fk: ForeignKey, row: Row)
    requires Lists(view, db, keys) && |fk.columns| == |fk.references|
    ensures HasReference(db, fk, row) <==> Referenced(view, fk, row)
  {
    if HasReference(db, fk, row) {
      var j :| 0 <= j < |RowsOf(db, fk.table)| && Refers(fk, row, RowsOf(db, fk.table)[j]);
      var id := Id(fk.table, keys[fk.table][j]);
      assert id in view && Refers(fk, row, view[id]);
    }
    if Referenced(view, fk, row) {
      var id :| id in view && id.table == fk.table && Refers(fk, row, view[id]);
      var j :| 0 <= j < |keys[id.table]| && keys[id.table][j] == id.key;
      assert Refers(fk, row, RowsOf(db, fk.table)[j]);
    }
  }

  lemma ReferencesAgree(tables: seq<Table>, view: View, db: Listing, keys: map<string, seq<string>>)
    requires WellFormed(tables) && Lists(view, db, keys)
    ensures ReferencesConsistent(tables, db) <==> ForeignKeysHold(tables, view)
  {
    if ReferencesConsistent(tables, db) {
      forall t, id, fk | t in tables && id in view && id.table == t.name && fk in t.foreignKeys
        ensures Referenced(view, fk, view[id])
      {
        var i :| 0 <= i < |keys[id.table]| && keys[id.table][i] == id.key;
        assert view[id] == RowsOf(db, t.name)[i] && RowsRefer(t, db);
        assert HasReference(db, fk, RowsOf(db, t.name)[i]);
        ReferenceAgrees(view, db, keys, fk, view[id]);
      }
    }
    if ForeignKeysHold(tables, view) {
      forall t | t in tables ensures RowsRefer(t, db) {
        forall i, fk | 0 <= i < |RowsOf(db, t.name)| && fk in t.foreignKeys
          ensures HasReference(db, fk, RowsOf(db, t.name)[i])
        {
          var id := Id(t.name, keys[t.name][i]);
          assert id in view && view[id] == RowsOf(db, t.name)[i];
          assert Referenced(view, fk, view[id]);
          ReferenceAgrees(view, db, keys, fk, view[id]);
        }
      }
    }
  }

  /** A listing is consistent exactly when the view it lists is. */
  lemma ListingIsFaithful(tables: seq<Table>, view: View, db: Listing, keys: map<string, seq<string>>)
    requires WellFormed(tables) && Lists(view, db, keys)
    ensures Consistent(tables, db) ==> ViewConsistent(tables, view)
    ensures Compact(db) && ViewConsistent(tables, view) ==> Consistent(tables, db)
  {
    if TablesConsistent(tables, db) {
      ListingGivesKeys(tables, view, db, keys);
    }
    if Compact(db) {
      TablesAgree(tables, view, db, keys);
    }
    ReferencesAgree(tables, view, db, keys);
  }

  function KeyTexts(view: View, name: string): (texts: set<string>)
    ensures forall k :: k in texts <==> Id(name, k) in view
  {
    var texts := set id | id in view && id.table == name :: id.key;
    assert forall k :: Id(name, k) in view ==> Id(name, k).key in texts;
    texts
  }

  /** The rows of one table in key order. */
  method ListTable(view: View, name: string) returns (rows: seq<Row>, ghost keys: seq<string>)
    ensures |keys| == |rows| && Sorted(keys)
    ensures forall i :: 0 <= i < |keys| ==> Id(name, keys[i]) in view && rows[i] == view[Id(name, keys[i])]
    ensures forall id :: id in view && id.table == name ==> id.key in keys
  {
    var ks := SortKeys(KeyTexts(view, name));
    assert forall i :: 0 <= i < |ks| ==> ks[i] in KeyTexts(view, name);
    rows, keys := [], ks;
    for i := 0 to |ks|
      invariant |rows| == i
      invariant forall j :: 0 <= j < i ==> rows[j] == view[Id(name, ks[j])]
    {
      rows := rows + [view[Id(name, ks[i])]];
    }
    forall id | id in view && id.table == name ensures id.key in keys {
      assert Id(name, id.key) == id;
    }
  }

  /** asInitial: every table's rows in key order; tables without rows are not listed. */
  method AsInitial(view: View) returns (db: Listing, ghost keys: map<string, seq<string>>)
    ensures Lists(view, db, keys) && Compact(db)
    ensures forall name :: name in keys ==> Sorted(keys[name])
  {
    db, keys := map[], map[];
    var tables := TableNames(view);
    var rest := tables;
    while rest != {}
      invariant rest <= tables
      invariant db.Keys == keys.Keys == tables - rest
      invariant forall name :: name in keys ==> ListsTable(view, name, db[name], keys[name])
    {
      var name :| name in rest;
      var rows, ks := ListTable(view, name);
      ListedTable(view, name, rows, ks);
      db, keys := db[name := rows], keys[name := ks];
      rest := rest - {name};
    }
    TablesList(view, db, keys);
  }

  function TableNames(view: View): (names: set<string>)
    ensures forall id :: id in view ==> id.table in names
  {
    set id | id in view :: id.table
  }

  /** The rows of one table, in key order, at least one. */
  ghost predicate ListsTable(view: View, name: string, rows: seq<Row>, keys: seq<string>) {
    && |keys| == |rows| > 0 && Sorted(keys)
    && (forall i :: 0 <= i < |keys| ==> Id(name, keys[i]) in view && rows[i] == view[Id(name, keys[i])])
    && (forall id :: id in view && id.table == name ==> id.key in keys)
  }

  lemma ListedTable(view: View, name: string, rows: seq<Row>, keys: seq<string>)
    requires name in TableNames(view) && |keys| == |rows| && Sorted(keys)
    requires forall i :: 0 <= i < |keys| ==> Id(name, keys[i]) in view && rows[i] == view[Id(name, keys[i])]
    requires forall id :: id in view && id.table == name ==> id.key in keys
    ensures ListsTable(view, name, rows, keys)
  {
    var id :| id in view && id.table == name;
    assert id.key in keys;
  }

  lemma TablesList(view: View, db: Listing, keys: map<string, seq<string>>)
    requires db.Keys == keys.Keys == TableNames(view)
    requires forall name :: name in keys ==> ListsTable(view, name, db[name], keys[name])
    ensures Lists(view, db, keys) && Compact(db) && forall name :: name in keys ==> Sorted(keys[name])
  {
    forall name | name in keys ensures Distinct(keys[name]) {
      assert ListsTable(view, name, db[name], keys[name]);
      SortedIsDistinct(keys[name]);
    }
    forall id | id in view ensures id.table in keys && id.key in keys[id.table] {
      assert ListsTable(view, id.table, db[id.table], keys[id.table]);
    }
  }

  // ---- validateInitial ----

  method CheckRow(t: Table, row: Row) returns (r: Check)
    ensures r.Pass? <==> RowFits(t, row)
    ensures r != Reject(DuplicateKey) && r != Reject(MissingReference)
  {
    hide CellFits;
    if |row| != |t.columns| {
      return Reject(OtherViolation);
    }
    var i := 0;
    while i < |t.columns|
      invariant 0 <= i <= |t.columns|
      invariant forall j :: 0 <= j < i ==> CellFits(t.columns[j], row)
    {
      if !CellFits(t.columns[i], row) {
        return Reject(OtherViolation);
      }
      i := i + 1;
    }
    return Pass;
  }

  type Entry = (nat, seq<Value>)

  /** What a row puts into the seen-key set: for every key that constrains it,
      the key's index and the row's values under that key. */
  ghost function EntriesOf(t: Table, row: Row): set<Entry> {
    set k: nat | k < |Keys(t)| && Constrains(t, k, row) :: (k, Project(row, Keys(t)[k]))
  }

  /** Two rows clash under some key exactly when they share an entry. */
  lemma SharedEntry(t: Table, a: Row, b: Row)
    ensures EntriesOf(t, a) !! EntriesOf(t, b) <==> forall k :: 0 <= k < |Keys(t)| ==> !Clash(t, k, a, b)
  {
    if e :| e in EntriesOf(t, a) && e in EntriesOf(t, b) {
      assert Clash(t, e.0, a, b);
    }
    if k :| 0 <= k < |Keys(t)| && Clash(t, k, a, b) {
      assert (k, Project(a, Keys(t)[k])) in EntriesOf(t, a);
      assert (k, Project(b, Keys(t)[k])) in EntriesOf(t, b);
    }
  }

  // ---- entries as the texts the program keeps ----

  /** The text of an entry: the index of the key, then the JSON text of the list of values. */
  function SeenText(k: nat, json: string): string {
    Decimal(k) + json
  }

  lemma DigitsBefore(k: nat, json: string, l: nat, other: string)
    requires json != "" && json[0] == '[' && other != "" && other[0] == '['
    requires SeenText(k, json) == SeenText(l, other)
    ensures |Decimal(k)| <= |Decimal(l)|
  {
    assert SeenText(l, other)[|Decimal(l)|] == other[0];
  }

  /** The index can be told from the list that follows it, so equal texts are equal entries. */
  lemma SeenTextsDiffer(k: nat, json: string, l: nat, other: string)
    requires json != "" && json[0] == '[' && other != "" && other[0] == '['
    ensures SeenText(k, json) == SeenText(l, other) <==> k == l && json == other
  {
    if SeenText(k, json) == SeenText(l, other) {
      DigitsBefore(k, json, l, other);
      DigitsBefore(l, other, k, json);
      var n := |Decimal(k)|;
      assert Decimal(k) == SeenText(k, json)[..n] == SeenText(l, other)[..n] == Decimal(l);
      assert json == SeenText(k, json)[n..] && other == SeenText(l, other)[n..];
      NaturalRoundTrip(k);
      NaturalRoundTrip(l);
    }
  }

  /** Looking an entry up among texts gives the same answer as among entries, for any JSON encoding
      that writes lists in brackets and tells the lists at hand apart. */
  lemma TextsDecideEntries(json: seq<Value> -> string, seen: set<Entry>, e: Entry)
    requires forall vs :: json(vs) != "" && json(vs)[0] == '['
    requires forall s :: s in seen && json(s.1) == json(e.1) ==> s.1 == e.1
    ensures SeenText(e.0, json(e.1)) in (set s | s in seen :: SeenText(s.0, json(s.1))) <==> e in seen
  {
    var texts := set s | s in seen :: SeenText(s.0, json(s.1));
    if SeenText(e.0, json(e.1)) in texts {
      var s :| s in seen && SeenText(s.0, json(s.1)) == SeenText(e.0, json(e.1));
      SeenTextsDiffer(s.0, json(s.1), e.0, json(e.1));
    }
  }

  /** Enters the keys of a row one by one, stopping at the first one already seen. */
  method EnterKeys(t: Table, row: Row, before: set<Entry>) returns (duplicate: bool, seen: set<Entry>)
    ensures duplicate <==> !(EntriesOf(t, row) !! before)
    ensures !duplicate ==> seen == before + EntriesOf(t, row)
  {
    seen := before;
    var ks := Keys(t);
    var k: nat := 0;
    while k < |ks|
      invariant 0 <= k <= |ks|
      invariant seen == before + set c: nat | c < k && Constrains(t, c, row) :: (c, Project(row, ks[c]))
      invariant forall c: nat :: c < k && Constrains(t, c, row) ==> (c, Project(row, ks[c])) !in before
    {
      if Constrains(t, k, row) {
        var entry := (k, Project(row, ks[k]));
        if entry in seen {
          assert entry in EntriesOf(t, row) && entry in before;
          return true, seen;
        }
        seen := seen + {entry};
      }
      k := k + 1;
    }
    return false, seen;
  }

  ghost predicate Records(t: Table, rows: seq<Row>, n: nat, seen: set<Entry>)
    requires n <= |rows|
  {
    forall e :: e in seen <==> exists i :: 0 <= i < n && e in EntriesOf(t, rows[i])
  }

  ghost predicate GoodPrefix(t: Table, rows: seq<Row>, n: nat)
    requires n <= |rows|
  {
    && (forall i :: 0 <= i < n ==> RowFits(t, rows[i]))
    && (forall i, j, k :: 0 <= i < j < n && 0 <= k < |Keys(t)| ==> !Clash(t, k, rows[i], rows[j]))
  }

  lemma NextRow(t: Table, rows: seq<Row>, n: nat, seen: set<Entry>)
    requires n < |rows| && Records(t, rows, n, seen) && GoodPrefix(t, rows, n)
    ensures RowFits(t, rows[n]) && EntriesOf(t, rows[n]) !! seen <==> GoodPrefix(t, rows, n + 1)
    ensures Records(t, rows, n + 1, seen + EntriesOf(t, rows[n]))
  {
    forall i | 0 <= i < n
      ensures EntriesOf(t, rows[i]) !! EntriesOf(t, rows[n]) <==> forall k :: 0 <= k < |Keys(t)| ==> !Clash(t, k, rows[i], rows[n])
    {
      SharedEntry(t, rows[i], rows[n]);
    }
    if e :| e in EntriesOf(t, rows[n]) && e in seen {
      var i :| 0 <= i < n && e in EntriesOf(t, rows[i]);
      assert !(EntriesOf(t, rows[i]) !! EntriesOf(t, rows[n]));
    } else {
      forall i | 0 <= i < n ensures EntriesOf(t, rows[i]) !! EntriesOf(t, rows[n]) {
        forall e | e in EntriesOf(t, rows[i]) ensures e !in EntriesOf(t, rows[n]) {
          assert e in seen;
        }
      }
    }
  }

  method CheckTable(t: Table, rows: seq<Row>) returns (r: Check)
    ensures r.Pass? <==> TableConsistent(t, rows)
    ensures r != Reject(MissingReference)
  {
    if |rows| > MAX_ROWS {
      return Reject(OtherViolation);
    }
    var seen: set<Entry> := {};
    var n: nat := 0;
    while n < |rows|
      invariant 0 <= n <= |rows|
      invariant Records(t, rows, n, seen)
      invariant GoodPrefix(t, rows, n)
    {
      NextRow(t, rows, n, seen);
      assert GoodPrefix(t, rows, |rows|) ==> GoodPrefix(t, rows, n + 1);
      var fits := CheckRow(t, rows[n]);
      if fits != Pass {
        return fits;
      }
      var duplicate, entered := EnterKeys(t, rows[n], seen);
      if duplicate {
        return Reject(DuplicateKey);
      }
      seen := entered;
      n := n + 1;
    }
    return Pass;
  }

  /** The inner scan: it looks at every candidate and keeps a `found` flag. */
  method FindReference(db: Listing, fk: ForeignKey, row: Row) returns (found: bool)
    requires |fk.columns| == |fk.references|
    ensures found <==> HasReference(db, fk, row)
  {
    var others := RowsOf(db, fk.table);
    found := false;
    var j := 0;
    while j < |others|
      invariant 0 <= j <= |others|
      invariant found <==> exists m :: 0 <= m < j && Refers(fk, row, others[m])
    {
      var equal := true;
      var i := 0;
      while i < |fk.columns|
        invariant 0 <= i <= |fk.columns|
        invariant equal <==> forall c :: 0 <= c < i ==> Cell(row, fk.columns[c]) == Cell(others[j], fk.references[c])
      {
        equal := equal && Cell(row, fk.columns[i]) == Cell(others[j], fk.references[i]);
        i := i + 1;
      }
      assert equal == Refers(fk, row, others[j]);
      found := found || equal;
      j := j + 1;
    }
  }

  method CheckReferences(t: Table, db: Listing) returns (ok: bool)
    requires WellFormedTable(t)
    ensures ok <==> RowsRefer(t, db)
  {
    var rows := RowsOf(db, t.name);
    var n := 0;
    while n < |rows|
      invariant 0 <= n <= |rows|
      invariant forall i, fk :: 0 <= i < n && fk in t.foreignKeys ==> HasReference(db, fk, rows[i])
    {
      var k := 0;
      while k < |t.foreignKeys|
        invariant 0 <= k <= |t.foreignKeys|
        invariant forall c :: 0 <= c < k ==> HasReference(db, t.foreignKeys[c], rows[n])
      {
        var found := FindReference(db, t.foreignKeys[k], rows[n]);
        if !found {
          return false;
        }
        k := k + 1;
      }
      n := n + 1;
    }
    return true;
  }

  method CheckAllReferences(tables: seq<Table>, db: Listing) returns (ok: bool)
    requires WellFormed(tables)
    ensures ok <==> ReferencesConsistent(tables, db)
  {
    var n := 0;
    while n < |tables|
      invariant 0 <= n <= |tables|
      invariant forall m :: 0 <= m < n ==> RowsRefer(tables[m], db)
    {
      assert WellFormedTable(tables[n]);
      ok := CheckReferences(tables[n], db);
      if !ok {
        return;
      }
      n := n + 1;
    }
    return true;
  }

  /** validateInitial accepts exactly the consistent databases; a missing reference is
      reported only when every table is consistent on its own. */
  method ValidateInitial(tables: seq<Table>, db: Listing) returns (r: Check)
    requires WellFormed(tables)
    ensures r.Pass? <==> Consistent(tables, db)
    ensures r == Reject(MissingReference) <==> TablesConsistent(tables, db) && !ReferencesConsistent(tables, db)
  {
    var rest := db.Keys;
    while rest != {}
      invariant rest <= db.Keys
      invariant forall name :: name in db.Keys - rest ==>
                  FindTable(tables, name).Some? && TableConsistent(FindTable(tables, name).value, db[name])
    {
      var name :| name in rest;
      match FindTable(tables, name)
      case None =>
        return Reject(OtherViolation);
      case Some(t) =>
        var v := CheckTable(t, db[name]);
        if v != Pass {
          return v;
        }
      rest := rest - {name};
    }
    assert TablesConsistent(tables, db);
    var ok := CheckAllReferences(tables, db);
    return if ok then Pass else Reject(MissingReference);
  }

  /** The verdict of the checker on a view, through its listing. */
  method CheckView(tables: seq<Table>, view: View) returns (r: Check)
    requires WellFormed(tables)
    ensures r.Pass? <==> ViewConsistent(tables, view)
    ensures r == Reject(MissingReference) ==> !ForeignKeysHold(tables, view)
  {
    var db, keys := AsInitial(view);
    r := ValidateInitial(tables, db);
    ListingIsFaithful(tables, view, db, keys);
    ReferencesAgree(tables, view, db, keys);
  }
}
