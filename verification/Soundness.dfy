/** What every reachable database holds, said without the checker's words. */
module Soundness {
  import opened Values
  import opened Schema
  import opened Plans
  import opened StoreSpec
  import opened StoreInvariant
  import opened StoreRuns

  /** The cell is NULL only where that is allowed; otherwise a BIGINT is an int64 as the program writes
      it, and a VARCHAR is no longer than declared. */
  ghost predicate SoundCell(f: Field, v: Value) {
    && v.typ == f.column.typ && (v.typ == BIGINT || v.typ == VARCHAR)
    && match v.data
       case Null => f.column.nullable
       case Text(s) =>
         if v.typ == BIGINT then exists n :: IsInt64(n) && s == Decimal(n) else |s| <= f.maxLength
       case _ => false
  }

  /** The row has the table's columns and no other. */
  ghost predicate SoundRow(t: Table, row: Row) {
    && (forall c :: c in row <==> exists f :: f in t.columns && f.column.name == c)
    && (forall f :: f in t.columns && f.column.name in row ==> SoundCell(f, row[f.column.name]))
  }

  /** Some of the columns tells the rows apart. */
  ghost predicate Differ(a: Row, b: Row, columns: seq<string>) {
    exists i :: 0 <= i < |columns| && Cell(a, columns[i]) != Cell(b, columns[i])
  }

  ghost predicate SomeNull(row: Row, columns: seq<string>) {
    exists i :: 0 <= i < |columns| && Cell(row, columns[i]).data == Null
  }

  /** A row of the referenced table has, column by column, the same values. */
  ghost predicate FindsRow(view: View, fk: ForeignKey, row: Row)
    requires |fk.columns| == |fk.references|
  {
    exists id :: id in view && id.table == fk.table
      && forall i :: 0 <= i < |fk.columns| ==> Cell(row, fk.columns[i]) == Cell(view[id], fk.references[i])
  }

  ghost predicate SoundRecord(t: Table, view: View, id: Id)
    requires WellFormedTable(t) && id in view
  {
    && SoundRow(t, view[id]) && Cell(view[id], t.primaryKey[0]).data == Text(id.key)
    && (forall fk :: fk in t.foreignKeys ==> FindsRow(view, fk, view[id]))
  }

  ghost predicate SoundPair(t: Table, a: Row, b: Row) {
    forall u :: u in t.unique ==> Differ(a, b, u) || SomeNull(a, u)
  }

  lemma CellIsSound(f: Field, v: Value)
    requires Fits(f.column, v) && !TooLong(f, v) && !v.data.Spelled?
    ensures SoundCell(f, v)
  {
    FitsMeans(f.column, v);
    hide Fits, ParseInt64, Decimal;
  }

  lemma FieldFits(t: Table, row: Row, f: Field)
    requires RowFits(t, row) && f in t.columns
    ensures CellFits(f, row)
  {
    var i :| 0 <= i < |t.columns| && t.columns[i] == f;
    assert CellFits(t.columns[i], row);
  }

  lemma OnlyColumns(t: Table, row: Row)
    requires WellFormedTable(t) && RowFits(t, row)
    ensures forall c :: c in row ==> exists f :: f in t.columns && f.column.name == c
  {
    FittingRowColumns(t, row);
    hide RowFits, WellFormedTable;
    forall c | c in row ensures exists f :: f in t.columns && f.column.name == c {
      var i :| 0 <= i < |t.columns| && t.columns[i].column.name == c;
      assert t.columns[i] in t.columns;
    }
  }

  lemma RowIsSound(t: Table, row: Row)
    requires WellFormedTable(t) && RowFits(t, row) && Canonical(row)
    ensures SoundRow(t, row)
  {
    OnlyColumns(t, row);
    hide Fits, TooLong, WellFormedTable, RowFits, SoundCell;
    forall f | f in t.columns ensures f.column.name in row && SoundCell(f, row[f.column.name]) {
      FieldFits(t, row, f);
      CellIsSound(f, row[f.column.name]);
    }
  }

  lemma KeyIsText(t: Table, row: Row, key: string)
    requires WellFormedTable(t) && SoundRow(t, row) && Cell(row, PrimaryKey(t)).AsString() == Some(key)
    ensures Cell(row, t.primaryKey[0]).data == Text(key)
  {
    var f :| f in t.columns && f.column.name == PrimaryKey(t);
    assert f.column.name in row;
    assert SoundCell(f, row[f.column.name]);
  }

  lemma RecordIsSound(tables: seq<Table>, t: Table, view: View, id: Id)
    requires WellFormed(tables) && t in tables && id in view && id.table == t.name
    requires AllTidy(tables, view) && ForeignKeysHold(tables, view)
    ensures SoundRecord(t, view, id)
  {
    FindTableFinds(tables, t);
    assert Tidy(tables, id, view[id]);
    RowIsSound(t, view[id]);
    KeyIsText(t, view[id], id.key);
    hide SoundRow, AllTidy, RowFits, Canonical;
    forall fk | fk in t.foreignKeys ensures FindsRow(view, fk, view[id]) {
      assert Referenced(view, fk, view[id]);
    }
  }

  lemma PairIsSound(tables: seq<Table>, t: Table, view: View, a: Id, b: Id)
    requires t in tables && KeysUnique(tables, view) && a in view && b in view && a != b && a.table == t.name == b.table
    ensures SoundPair(t, view[a], view[b])
  {
    forall u | u in t.unique ensures Differ(view[a], view[b], u) || SomeNull(view[a], u) {
      var i :| 0 <= i < |t.unique| && t.unique[i] == u;
      assert Keys(t)[i + 1] == u && !Clash(t, i + 1, view[a], view[b]);
      if !Differ(view[a], view[b], u) {
        assert Project(view[a], u) == Project(view[b], u);
        assert HasNull(view[a], u) || HasNull(view[b], u);
      }
    }
  }

  // ---- and nothing more ----

  /** A database that is sound in all these respects. */
  ghost predicate Sound(tables: seq<Table>, view: View)
    requires WellFormed(tables)
  {
    && (forall id :: id in view ==> exists t :: t in tables && t.name == id.table)
    && (forall t, id {:trigger SoundRecord(t, view, id)} :: t in tables && id in view && id.table == t.name ==> SoundRecord(t, view, id))
    && (forall t, a, b {:trigger SoundPair(t, view[a], view[b])} ::
          t in tables && a in view && b in view && a != b && a.table == t.name == b.table ==> SoundPair(t, view[a], view[b]))
    && (forall t :: t in tables ==> |IdsOf(view, t.name)| <= 1000)
  }

  lemma SoundCellFits(f: Field, row: Row)
    requires f.column.name in row && SoundCell(f, row[f.column.name])
    ensures CellFits(f, row) && !row[f.column.name].data.Spelled?
  {
    FitsMeans(f.column, row[f.column.name]);
    hide Fits, ParseInt64, Decimal;
  }

  lemma SoundRowFits(t: Table, row: Row)
    requires WellFormedTable(t) && SoundRow(t, row)
    ensures RowFits(t, row) && Canonical(row)
  {
    var names := set i | 0 <= i < |t.columns| :: t.columns[i].column.name;
    ColumnCount(t.columns, |t.columns|);
    hide SoundCell, WellFormedTable;
    forall c ensures c in row <==> c in names {
      if c in row {
        var f :| f in t.columns && f.column.name == c;
        var i :| 0 <= i < |t.columns| && t.columns[i] == f;
      }
    }
    assert row.Keys == names;
    forall i | 0 <= i < |t.columns| ensures CellFits(t.columns[i], row) {
      assert t.columns[i] in t.columns;
      SoundCellFits(t.columns[i], row);
    }
    forall c | c in row ensures !row[c].data.Spelled? {
      var f :| f in t.columns && f.column.name == c;
      SoundCellFits(f, row);
    }
  }

  lemma SoundRows(tables: seq<Table>, view: View)
    requires WellFormed(tables) && Sound(tables, view)
    ensures RowsAllowed(tables, view) && AllTidy(tables, view) && SizesBounded(view) && ForeignKeysHold(tables, view)
  {
    hide SoundRow, RowFits, Canonical, SoundPair;
    forall id | id in view ensures Tidy(tables, id, view[id]) && RowAllowed(tables, id.table, view[id]) && |IdsOf(view, id.table)| <= MAX_ROWS {
      var t :| t in tables && t.name == id.table;
      FindTableFinds(tables, t);
      assert SoundRecord(t, view, id);
      SoundRowFits(t, view[id]);
    }
    forall t, id, fk | t in tables && id in view && id.table == t.name && fk in t.foreignKeys ensures Referenced(view, fk, view[id]) {
      assert SoundRecord(t, view, id) && FindsRow(view, fk, view[id]);
      var other :| other in view && other.table == fk.table
        && forall i :: 0 <= i < |fk.columns| ==> Cell(view[id], fk.columns[i]) == Cell(view[other], fk.references[i]);
      assert Refers(fk, view[id], view[other]);
    }
  }

  lemma SoundKeys(tables: seq<Table>, view: View)
    requires WellFormed(tables) && Sound(tables, view)
    ensures KeysUnique(tables, view)
  {
    hide SoundRow, FindsRow;
    forall t, k, a, b | t in tables && 0 <= k < |Keys(t)| && a in view && b in view && a != b && a.table == t.name == b.table
      ensures !Clash(t, k, view[a], view[b])
    {
      assert SoundRecord(t, view, a) && SoundRecord(t, view, b) && SoundPair(t, view[a], view[b]);
      NoClash(t, k, view[a], view[b], a.key, b.key);
    }
  }

  lemma NoClash(t: Table, k: nat, a: Row, b: Row, x: string, y: string)
    requires WellFormedTable(t) && k < |Keys(t)| && x != y && SoundPair(t, a, b)
    requires Cell(a, t.primaryKey[0]).data == Text(x) && Cell(b, t.primaryKey[0]).data == Text(y)
    ensures !Clash(t, k, a, b)
  {
    var ks := Keys(t)[k];
    if k == 0 {
      assert ks == t.primaryKey && Project(a, ks)[0].data != Project(b, ks)[0].data;
    } else {
      assert ks == t.unique[k - 1] && ks in t.unique;
      if Differ(a, b, ks) {
        var i :| 0 <= i < |ks| && Cell(a, ks[i]) != Cell(b, ks[i]);
        assert Project(a, ks)[i] != Project(b, ks)[i];
      } else {
        var i :| 0 <= i < |ks| && Cell(a, ks[i]).data == Null;
        assert HasNull(a, ks);
      }
    }
  }

  /** The constraints that are checked are exactly these. */
  lemma ConsistentIffSound(tables: seq<Table>, view: View)
    requires WellFormed(tables)
    ensures ViewConsistent(tables, view) && AllTidy(tables, view) <==> Sound(tables, view)
  {
    if Sound(tables, view) {
      SoundRows(tables, view);
      SoundKeys(tables, view);
    }
    if ViewConsistent(tables, view) && AllTidy(tables, view) {
      forall id | id in view ensures exists t :: t in tables && t.name == id.table {
        assert Tidy(tables, id, view[id]);
        assert FindTable(tables, id.table).value in tables;
      }
      hide SoundRecord, SoundPair, AllTidy;
      forall t, id | t in tables && id in view && id.table == t.name ensures SoundRecord(t, view, id) {
        RecordIsSound(tables, t, view, id);
      }
      forall t, a, b | t in tables && a in view && b in view && a != b && a.table == t.name == b.table ensures SoundPair(t, view[a], view[b]) {
        PairIsSound(tables, t, view, a, b);
      }
      forall t | t in tables ensures |IdsOf(view, t.name)| <= 1000 {
        TableSize(view, t.name);
      }
    }
  }

  /** In every reachable state each committed row has exactly its table's columns with values of their
      kinds and lies under its own key; under no unique key are two rows alike, unless a NULL exempts
      them; every foreign key, NULL or not, finds its row; and no table has more than 1000 rows. */
  lemma CommittedIsSound(r: Run, n: nat)
    requires IsRun(r) && n < |r.states|
    ensures WellFormed(r.states[n].tables) && Sound(r.states[n].tables, Live(r.states[n].committed))
  {
    InvAt(r, n);
    hide IsRun, Sound, Live, ViewConsistent, AllTidy;
    ConsistentIffSound(r.states[n].tables, Live(r.states[n].committed));
  }

  lemma TableSize(view: View, name: string)
    requires SizesBounded(view)
    ensures |IdsOf(view, name)| <= 1000
  {
    if IdsOf(view, name) != {} {
      var id :| id in IdsOf(view, name);
      assert |IdsOf(view, id.table)| <= MAX_ROWS;
    }
  }
}
