/** A scenario that loads into a store that violates its own constraints. */
module Spellings {
  import opened Values
  import opened Schema
  import opened Plans
  import opened StoreSpec
  import opened StoreInvariant
  import opened Loading
  import opened SessionViews

  /** The same name, written with an escape. */
  const ESCAPED := Value(VARCHAR, Spelled("same", "\"\\u0073ame\""))

  const TWO_SPELLINGS: Listing := map["people" := [Person("a"), Person("b")["name" := ESCAPED]]]

  lemma EscapedFits()
    ensures RowFits(PEOPLE, Person("a")) && RowFits(PEOPLE, Person("b")["name" := ESCAPED])
  {
    PersonFits("a");
    PersonFits("b");
    var row := Person("b")["name" := ESCAPED];
    assert row.Keys == {"id", "name"};
    assert CellFits(KEY_COLUMN, row) && CellFits(NAME_COLUMN, row);
  }

  lemma SpellingsDiffer()
    ensures TableConsistent(PEOPLE, TWO_SPELLINGS["people"])
  {
    EscapedFits();
    var x, y := Person("a"), Person("b")["name" := ESCAPED];
    assert Keys(PEOPLE)[0] == ["id"] && Keys(PEOPLE)[1] == ["name"];
    assert Project(x, ["id"])[0] != Project(y, ["id"])[0];
    assert Project(x, ["name"])[0] != Project(y, ["name"])[0];
  }

  lemma RewrittenClash()
    ensures !TableConsistent(PEOPLE, Clones(TWO_SPELLINGS["people"]))
  {
    var rows := Clones(TWO_SPELLINGS["people"]);
    assert rows[0] == Clone(Person("a")) && rows[1] == Clone(Person("b")["name" := ESCAPED]);
    assert Keys(PEOPLE)[1] == ["name"];
    assert Project(rows[0], ["name"]) == Project(rows[1], ["name"]);
    assert Clash(PEOPLE, 1, rows[0], rows[1]);
  }

  lemma RawIsConsistent()
    ensures WellFormed([PEOPLE]) && Consistent([PEOPLE], TWO_SPELLINGS)
  {
    NobodyIsConsistent();
    SpellingsDiffer();
    hide TableConsistent;
    assert TWO_SPELLINGS.Keys == {"people"};
    assert PEOPLE.foreignKeys == [];
  }

  lemma RewrittenIsNot()
    ensures WellFormed([PEOPLE]) && !Consistent([PEOPLE], Normal(TWO_SPELLINGS))
  {
    NobodyIsConsistent();
    RewrittenClash();
    hide TableConsistent, Clones, RowsRefer;
    var out := Normal(TWO_SPELLINGS);
    assert "people" in out && RowsOf(out, "people") == Clones(RowsOf(TWO_SPELLINGS, "people"));
    assert FindTable([PEOPLE], "people").value == PEOPLE;
    assert !TableConsistent(FindTable([PEOPLE], "people").value, out["people"]);
  }

  /** Two rows whose unique names differ in their escapes only pass the checker, which compares the
      texts as they are written. The store that is made of them either violates its invariant or
      has lost a row. */
  lemma SpellingsSlipThrough(committed: map<Id, Record>, nextIDs: map<string, int>)
    requires TablesLoaded([PEOPLE], Normal(TWO_SPELLINGS), 1, committed)
    ensures WellFormed([PEOPLE]) && Consistent([PEOPLE], TWO_SPELLINGS) && Loadable(PEOPLE, TWO_SPELLINGS["people"], map[])
    ensures !(Inv(State([PEOPLE], committed, map[], nextIDs, 0)) && Holds([PEOPLE], TWO_SPELLINGS, committed))
  {
    RawIsConsistent();
    RewrittenIsNot();
    hide Consistent, TablesLoaded, Inv, Holds, Normal, WellFormed;
    SoundIffNormal([PEOPLE], TWO_SPELLINGS, committed, nextIDs);
  }
}
