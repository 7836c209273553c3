/** A run in which two transactions, each valid on its own, cannot both commit. */
module SessionViews {
  import opened Values
  import opened Schema
  import opened Plans
  import opened StoreSpec
  import opened StoreInvariant
  import opened StoreRuns

  // ---- why COMMIT validates again ----

  const KEY_COLUMN := Field(Column("id", VARCHAR, false), 10, None, false)
  const NAME_COLUMN := Field(Column("name", VARCHAR, false), 10, None, false)
  const PEOPLE := Table("people", [KEY_COLUMN, NAME_COLUMN], ["id"], [["name"]], [])

  function Person(key: string): Row {
    map["id" := Value(VARCHAR, Text(key)), "name" := Value(VARCHAR, Text("same"))]
  }

  const BEGUN := NEW_SESSION.(active := true)

  function Writer(key: string): Session {
    BEGUN.(writes := map[Id("people", key) := Some(Person(key))], base := map[Id("people", key) := 0])
  }

  const NOBODY := State([PEOPLE], map[], map[], map["people" := 1], 0)

  /** Two transactions that insert different keys with the same unique name. */
  const TWO_WRITERS := NOBODY.(sessions := map["A" := Writer("a"), "B" := Writer("b")])

  function OnePerson(key: string): View {
    map[Id("people", key) := Person(key)]
  }

  lemma PersonFits(key: string)
    requires |key| == 1
    ensures RowFits(PEOPLE, Person(key))
  {
    assert Person(key).Keys == {"id", "name"};
    assert CellFits(KEY_COLUMN, Person(key)) && CellFits(NAME_COLUMN, Person(key));
  }

  lemma OnePersonIsConsistent(key: string)
    requires |key| == 1
    ensures WellFormed([PEOPLE]) && ViewConsistent([PEOPLE], OnePerson(key))
    ensures AllTidy([PEOPLE], OnePerson(key)) && WritesTidy([PEOPLE], Writer(key).writes)
  {
    PersonFits(key);
    assert KEY_COLUMN in PEOPLE.columns;
    forall id | id in OnePerson(key) ensures |IdsOf(OnePerson(key), id.table)| <= MAX_ROWS {
      assert IdsOf(OnePerson(key), id.table) == {Id("people", key)};
    }
  }

  lemma WriterReadsOne(key: string)
    ensures Overlay(Live(map[]), Writer(key).writes) == OnePerson(key)
    ensures Overlay(Live(map[]), map[]) == map[]
  {
  }

  lemma NobodyIsConsistent()
    ensures WellFormed([PEOPLE]) && CommittedOk([PEOPLE], Live(map[]))
  {
    assert KEY_COLUMN in PEOPLE.columns;
  }

  lemma SameNameClashes(view: View)
    requires Id("people", "a") in view && Id("people", "b") in view
    requires view[Id("people", "a")] == Person("a") && view[Id("people", "b")] == Person("b")
    ensures WellFormed([PEOPLE]) && !ViewConsistent([PEOPLE], view)
  {
    NobodyIsConsistent();
    assert Keys(PEOPLE)[1] == ["name"];
    assert Project(Person("a"), ["name"]) == Project(Person("b"), ["name"]);
    assert PEOPLE in [PEOPLE] && Clash(PEOPLE, 1, view[Id("people", "a")], view[Id("people", "b")]);
  }

  // ---- the run ----

  /** INSERT INTO people (id, name) VALUES (?, 'same'). */
  const ADD := Plan(Insert, "people", [], [], [],
                    [Assignment("id", "", Operand(Some(0), None)),
                     Assignment("name", "", Operand(None, Some(Value(VARCHAR, Text("same")))))],
                    [], None, [Column("id", VARCHAR, false)])

  function Adds(sid: string, key: string): Event {
    DoExecute(sid, ADD, [Value(VARCHAR, Text(key))], false, false)
  }

  lemma PersonGiven(key: string)
    ensures DefaultRow(PEOPLE.columns) == map[]
    ensures GivenCells(map[], ADD.assignments, [Value(VARCHAR, Text(key))]) == Some(Person(key))
  {
    assert PEOPLE.columns[..1] == [KEY_COLUMN] && [KEY_COLUMN][..0] == [];
    assert DefaultRow([KEY_COLUMN]) == map[];
    var params := [Value(VARCHAR, Text(key))];
    var half: Row := map["id" := Value(VARCHAR, Text(key))];
    assert ADD.assignments[1..][1..] == [];
    assert GivenCells(half, ADD.assignments[1..], params) == Some(Person(key));
  }

  lemma PersonInserted(key: string)
    ensures InsertOutcome(PEOPLE, ADD, [Value(VARCHAR, Text(key))], map[], 1)
         == Write(map[Id("people", key) := Some(Person(key))], 1, 1, 0, 1)
  {
    PersonGiven(key);
    assert FillAuto(PEOPLE.columns[1..], Person(key), 1, 0) == Filled(Person(key), 1, 0) by {
      assert PEOPLE.columns[1..][1..] == [];
    }
    assert Clone(Person(key)) == Person(key);
    hide DefaultRow, GivenCells;
  }

  lemma AddSteps(s: State, sid: string, key: string)
    requires |key| == 1 && s == NOBODY.(sessions := s.sessions) && sid in s.sessions && s.sessions[sid] == BEGUN
    ensures Step(s, Adds(sid, key)) == (s.(sessions := s.sessions[sid := Writer(key)]), Done(1, 0))
  {
    NobodyIsConsistent();
    PersonInserted(key);
    OnePersonIsConsistent(key);
    WriterReadsOne(key);
    assert s.sessions[sid := BEGUN] == s.sessions;
    AddLands(s, sid, key);
    hide InsertOutcome, ViewConsistent, Overlay, Live;
  }

  lemma AddLands(s: State, sid: string, key: string)
    requires s == NOBODY.(sessions := s.sessions) && sid in s.sessions && s.sessions[sid] == BEGUN
    ensures Allocate(s, ADD, PEOPLE, 1) == s
    ensures Buffer(s, sid, BEGUN, map[Id("people", key) := Some(Person(key))]) == s.(sessions := s.sessions[sid := Writer(key)])
  {
    assert s.nextIDs["people" := 1] == s.nextIDs;
    var changes: Changes := map[Id("people", key) := Some(Person(key))];
    assert BEGUN.writes + changes == Writer(key).writes;
    assert Rebase(s.committed, BEGUN.base, changes) == Writer(key).base;
  }

  const EVENTS := [DoBegin("A"), Adds("A", "a"), DoBegin("B"), Adds("B", "b"), DoCommit("B"), DoCommit("A")]

  const A_BEGUN := NOBODY.(sessions := map["A" := BEGUN])
  const A_WRITES := NOBODY.(sessions := map["A" := Writer("a")])
  const B_BEGUN := NOBODY.(sessions := map["A" := Writer("a"), "B" := BEGUN])

  lemma BeginSteps(s: State, sid: string)
    requires WellFormed(s.tables) && sid !in s.sessions
    ensures Step(s, DoBegin(sid)) == (s.(sessions := s.sessions[sid := BEGUN]), Done(0, 0))
  {
  }

  lemma FourSteps()
    ensures WellFormed([PEOPLE])
    ensures Step(NOBODY, EVENTS[0]) == (A_BEGUN, Done(0, 0)) && Step(A_BEGUN, EVENTS[1]) == (A_WRITES, Done(1, 0))
    ensures Step(A_WRITES, EVENTS[2]) == (B_BEGUN, Done(0, 0)) && Step(B_BEGUN, EVENTS[3]) == (TWO_WRITERS, Done(1, 0))
  {
    NobodyIsConsistent();
    hide Step;
    BeginSteps(NOBODY, "A");
    assert NOBODY.sessions["A" := BEGUN] == A_BEGUN.sessions;
    AddSteps(A_BEGUN, "A", "a");
    assert A_BEGUN.sessions["A" := Writer("a")] == A_WRITES.sessions;
    BeginSteps(A_WRITES, "B");
    assert A_WRITES.sessions["B" := BEGUN] == B_BEGUN.sessions;
    AddSteps(B_BEGUN, "B", "b");
    assert B_BEGUN.sessions["B" := Writer("b")] == TWO_WRITERS.sessions;
  }

  lemma BreaksAfterCommit()
    ensures WellFormed([PEOPLE])
    ensures ViewConsistent([PEOPLE], ViewOf(TWO_WRITERS, "A")) && ViewConsistent([PEOPLE], ViewOf(TWO_WRITERS, "B"))
    ensures var (s, v) := Commit(TWO_WRITERS, "B");
            && v == Done(0, 0) && s.tables == [PEOPLE]
            && !ViewConsistent([PEOPLE], ViewOf(s, "A")) && !VersionConflict(s, SessionOf(s, "A"))
            && Commit(s, "A").1 == Aborted(Conflict)
  {
    OnePersonIsConsistent("a");
    OnePersonIsConsistent("b");
    WriterReadsOne("a");
    WriterReadsOne("b");
    var (s, v) := Commit(TWO_WRITERS, "B");
    assert SessionOf(s, "A") == Writer("a");
    assert VersionOf(s.committed, Id("people", "a")) == 0;
    SameNameClashes(ViewOf(s, "A"));
  }

  ghost predicate Steps(s: State, e: Event, v: Verdict, s': State) {
    WellFormed(s.tables) && EventOk(s.tables, e) && (s', v) == Step(s, e)
  }

  /** The run with these states, events and verdicts. */
  lemma RunThrough(states: seq<State>, events: seq<Event>, verdicts: seq<Verdict>) returns (r: Run)
    requires |states| == |events| + 1 == |verdicts| + 1 && Inv(states[0])
    requires forall i :: 0 <= i < |events| ==> Steps(states[i], events[i], verdicts[i], states[i + 1])
    ensures IsRun(r) && r.states == states && r.events == events && r.verdicts == verdicts
  {
    hide Inv, EventOk, Step, ChangesOf, Published;
    var n := |events|;
    var computed := seq(n, i requires 0 <= i < n => if events[i].DoExecute? then ChangesOf(states[i], events[i]) else map[]);
    var published := seq(n, i requires 0 <= i < n => Published(states[i], events[i], verdicts[i]));
    r := Run(states, events, verdicts, computed, published);
    forall i | 0 <= i < n ensures Follows(r, i) {
      assert Steps(states[i], events[i], verdicts[i], states[i + 1]);
    }
  }

  /** A session's own view can become invalid although it wrote nothing wrong: in this run, from an
      empty store, A and B insert different keys with the same unique name, both views are
      consistent, and B commits. Then A reads two rows with one unique name, and its COMMIT is
      refused, although no committed record of a key it wrote has changed. */
  lemma OwnViewMayBreak() returns (r: Run)
    ensures Starts(r) && r.events == EVENTS && r.states[0] == NOBODY
    ensures ViewConsistent([PEOPLE], ViewOf(r.states[4], "A")) && ViewConsistent([PEOPLE], ViewOf(r.states[4], "B"))
    ensures r.verdicts[4] == Done(0, 0) && !ViewConsistent([PEOPLE], ViewOf(r.states[5], "A"))
    ensures r.verdicts[5] == Aborted(Conflict) && !VersionConflict(r.states[5], SessionOf(r.states[5], "A"))
  {
    NobodyIsValid();
    FourSteps();
    BreaksAfterCommit();
    hide Step, ChangesOf, ViewConsistent, Commit, Inv, EventOk, WellFormed, ViewOf, VersionConflict, SessionOf, Adds, IsRun;
    var e, f := Step(TWO_WRITERS, EVENTS[4]), Commit(Commit(TWO_WRITERS, "B").0, "A");
    CommitSteps(TWO_WRITERS, "B");
    CommitSteps(e.0, "A");
    var states := [NOBODY, A_BEGUN, A_WRITES, B_BEGUN, TWO_WRITERS, e.0, f.0];
    var verdicts := [Done(0, 0), Done(1, 0), Done(0, 0), Done(1, 0), e.1, f.1];
    forall i | 0 <= i < 6 ensures Steps(states[i], EVENTS[i], verdicts[i], states[i + 1]) {
      EventsAreOk(i);
    }
    r := RunThrough(states, EVENTS, verdicts);
    RunStarts(r);
  }

  lemma RunStarts(r: Run)
    requires IsRun(r) && r.states[0].sessions == map[]
    ensures Starts(r)
  {
  }

  lemma NobodyIsValid()
    ensures Inv(NOBODY)
  {
    NobodyIsConsistent();
  }

  lemma CommitSteps(s: State, sid: string)
    requires WellFormed(s.tables)
    ensures Step(s, DoCommit(sid)) == Commit(s, sid)
  {
  }

  lemma EventsAreOk(i: nat)
    requires i < 6
    ensures WellFormed([PEOPLE]) && EventOk([PEOPLE], EVENTS[i])
  {
    NobodyIsConsistent();
  }
}
