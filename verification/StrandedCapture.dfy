/** A run with a confirmed capture that cannot be exported alone. */
module StrandedCapture {
  import opened Values
  import opened Schema
  import opened Plans
  import opened StoreSpec
  import opened StoreInvariant
  import opened Selection
  import opened SlotFill
  import opened Api
  import opened SlotSpec
  import opened SlotInvariant
  import opened SlotRuns
  import opened ExportSpec
  import C = Confirmation
  import L = Loading

  // ---- a tree with a slot for each of two nodes ----

  const ID_FIELD := Field(Column("id", VARCHAR, false), 10, None, false)
  const PARENT_FIELD := Field(Column("parent", VARCHAR, false), 10, None, false)
  const PARENT := ForeignKey(["parent"], "nodes", ["id"])
  const NODES := Table("nodes", [ID_FIELD, PARENT_FIELD], ["id"], [], [PARENT])

  /** A node under the root "a", which is its own parent. */
  function Node(key: string): Row {
    map["id" := Value(VARCHAR, Text(key)), "parent" := Value(VARCHAR, Text("a"))]
  }

  function NodeSlot(key: string): Slot {
    Slot(key, "nodes", [key], map[], false)
  }

  const DEFS := [NodeSlot("a"), NodeSlot("b")]

  /** SELECT id FROM nodes WHERE id = key. */
  function Asking(key: string): Plan {
    Plan(Select, "nodes", ["id"], [ID_FIELD.column], [Predicate("id", Operand(None, Some(Value(VARCHAR, Text(key)))))], [], [], None, [])
  }

  function Asked(key: string): Request {
    Request(key, "c", 1, "")
  }

  function Candidate(key: string): Json {
    Json(key, None, Some(EntityFill(key, [Node(key)])))
  }

  function IdRow(key: string): seq<seq<Data>> {
    [[Text(key)]]
  }

  function Calm(key: string): Around {
    Around(0, false, false, false, [], Selection(IdRow(key)))
  }

  function Opened(key: string): Continuation {
    Continuation(Asked(key), Asking(key), [], NodeSlot(key), 0, None, None, NoPayload)
  }

  function Closed(key: string): Continuation {
    Finished(Opened(key), Candidate(key), Ok(Rows(IdRow(key))))
  }

  // ---- views of the tree ----

  /** Nodes "a" and "b" at most, and "a" among them. */
  ghost predicate IsTree(view: View) {
    && Id("nodes", "a") in view
    && forall id :: id in view ==> id.table == "nodes" && (id.key == "a" || id.key == "b") && view[id] == Node(id.key)
  }

  lemma NodesWellFormed()
    ensures WellFormed([NODES])
  {
    assert ID_FIELD in NODES.columns;
  }

  lemma NodeFits(key: string)
    requires |key| == 1
    ensures RowFits(NODES, Node(key)) && Clone(Node(key)) == Node(key)
  {
    assert Node(key).Keys == {"id", "parent"};
    assert CellFits(ID_FIELD, Node(key)) && CellFits(PARENT_FIELD, Node(key));
  }

  lemma TreeRows(view: View)
    requires IsTree(view) && WellFormed([NODES])
    ensures AllTidy([NODES], view) && RowsAllowed([NODES], view)
  {
    NodeFits("a");
    NodeFits("b");
    hide RowFits;
    assert FindTable([NODES], "nodes") == Some(NODES);
    forall id | id in view ensures RowFits(NODES, view[id]) && Tidy([NODES], id, view[id]) {
      assert view[id] == Node(id.key);
    }
  }

  lemma TreeSize(view: View)
    requires IsTree(view)
    ensures SizesBounded(view)
  {
    forall id | id in view ensures |IdsOf(view, id.table)| <= MAX_ROWS {
      Fewer(IdsOf(view, id.table), {Id("nodes", "a"), Id("nodes", "b")});
    }
  }

  lemma TreeKeys(view: View)
    requires IsTree(view)
    ensures KeysUnique([NODES], view)
  {
    assert Keys(NODES) == [["id"]];
    forall x, y | x in view && y in view && x != y ensures !Clash(NODES, 0, view[x], view[y]) {
      assert Project(view[x], ["id"])[0] == Value(VARCHAR, Text(x.key));
      assert Project(view[y], ["id"])[0] == Value(VARCHAR, Text(y.key));
    }
  }

  lemma NodeRefers(key: string)
    ensures Refers(PARENT, Node(key), Node("a"))
  {
  }

  lemma TreeRefers(view: View)
    requires IsTree(view) && WellFormed([NODES])
    ensures ForeignKeysHold([NODES], view)
  {
    hide Refers, Node, WellFormed;
    forall t, id, fk | t in [NODES] && id in view && id.table == t.name && fk in t.foreignKeys
      ensures Referenced(view, fk, view[id])
    {
      NodeRefers(id.key);
      assert fk == PARENT;
      assert Refers(PARENT, view[id], view[Id("nodes", "a")]);
    }
  }

  lemma TreeIsConsistent(view: View)
    requires IsTree(view)
    ensures WellFormed([NODES]) && ViewConsistent([NODES], view) && AllTidy([NODES], view)
  {
    NodesWellFormed();
    TreeRows(view);
    TreeSize(view);
    TreeKeys(view);
    TreeRefers(view);
    hide RowsAllowed, SizesBounded, KeysUnique, ForeignKeysHold, IsTree, WellFormed, AllTidy;
  }

  // ---- one fill ----

  function NodeId(key: string): Id {
    Id("nodes", key)
  }

  /** The slot of the node can be filled: the node is not there, and with it the rows are a tree. */
  ghost predicate Fillable(s: State, key: string) {
    && s.tables == [NODES] && SessionOf(s, "c") == NEW_SESSION
    && NodeId(key) !in Live(s.committed) && IsTree(Live(s.committed)[NodeId(key) := Node(key)])
  }

  ghost function AfterFill(s: State, key: string): State {
    Publish(s, map[NodeId(key) := Some(Node(key))])
  }

  lemma NodeTaken(key: string, view: View)
    requires NodeId(key) !in view
    ensures FillRows(NODES, NodeSlot(key), OpenKeys(NodeSlot(key)), [Node(key)], view) == Some(map[NodeId(key) := Some(Node(key))])
  {
    assert Cell(Node(key), PrimaryKey(NODES)).AsString() == Some(key);
    assert key in NodeSlot(key).keys;
    assert [Node(key)][1..] == [];
    assert Clone(Node(key)) == Node(key);
  }

  lemma FillSucceeds(s: State, t: Table, slot: Slot, rows: seq<Row>, changes: Changes)
    requires WellFormed(s.tables) && FindTable(s.tables, slot.table) == Some(t) && |rows| == |slot.keys|
    requires FillRows(t, slot, OpenKeys(slot), rows, Live(s.committed)) == Some(changes)
    requires ViewConsistent(s.tables, Overlay(Live(s.committed), changes))
    ensures Fill(s, slot, rows) == (Publish(s, changes), Done(0, 0))
  {
    hide FillRows, ViewConsistent, Live, Overlay, Publish;
  }

  lemma FillStep(s: State, key: string)
    requires Fillable(s, key)
    ensures WellFormed(s.tables) && Fill(s, NodeSlot(key), [Node(key)]) == (AfterFill(s, key), Done(0, 0))
    ensures Live(AfterFill(s, key).committed) == Live(s.committed)[NodeId(key) := Node(key)]
  {
    NodesWellFormed();
    hide FillRows, ViewConsistent, IsTree, Node, OpenKeys, Live, WellFormed, Fill, Publish;
    var view, changes: Changes := Live(s.committed), map[NodeId(key) := Some(Node(key))];
    NodeTaken(key, view);
    assert Overlay(view, changes) == view[NodeId(key) := Node(key)];
    TreeIsConsistent(view[NodeId(key) := Node(key)]);
    LiveAfterFill(s, key);
    FillSucceeds(s, NODES, NodeSlot(key), [Node(key)], changes);
  }

  lemma LiveAfterFill(s: State, key: string)
    ensures Live(AfterFill(s, key).committed) == Live(s.committed)[NodeId(key) := Node(key)]
  {
    hide Node;
  }

  // ---- its SELECT ----

  lemma OnlyThisNode(view: View, key: string)
    requires IsTree(view) && NodeId(key) in view
    ensures Matching(view, Asking(key), []) == {NodeId(key)}
  {
    var plan := Asking(key);
    assert plan.predicates[1..] == [];
    forall id | id in view ensures RowMatches(view[id], plan.predicates, []) == Some(id.key == key) {
      assert Cell(view[id], "id") == Value(VARCHAR, Text(id.key));
    }
  }

  lemma SelectStep(s: State, key: string)
    requires s.tables == [NODES] && SessionOf(s, "c") == NEW_SESSION
    requires IsTree(Live(s.committed)) && NodeId(key) in Live(s.committed)
    ensures WellFormed(s.tables)
    ensures Execute(s, "c", Asking(key), [], false, false) == (s.(sessions := s.sessions["c" := NEW_SESSION]), Reads)
    ensures ReplyFits(s, Opened(key), Selection(IdRow(key)))
  {
    NodesWellFormed();
    var view, ids := ViewOf(s, "c"), [NodeId(key)];
    assert view == Live(s.committed);
    OnlyThisNode(view, key);
    assert Ordering(Orders(NODES, Asking(key)), view, Matching(view, Asking(key), []), ids);
    assert ids == ids[..Cut(Asking(key).limit, |ids|)];
    assert Selects(NODES, view, Asking(key), [], ids);
    assert RowData(Node(key), ["id"]) == [Text(key)];
    assert DataOf(view, ["id"], ids) == IdRow(key);
  }

  // ---- the run ----

  ghost predicate Goes(p: Plugin, e: SlotSpec.Event, q: Plugin) {
    WellFormed(p.store.tables) && SlotsPoint(p) && Enabled(p, e) && q == SlotSpec.Step(p, e)
  }

  /** The SELECT for a node comes to a slot. */
  function Meets(key: string, slot: string): SlotSpec.Event {
    DoVisit(NodeSlot(slot), Asked(key), Asking(key), [], 0)
  }

  function Resolves(t: nat, key: string): SlotSpec.Event {
    DoComplete(Resolution(t, key, 0, Candidate(key)), Calm(key))
  }

  ghost function AfterComplete(s: State, key: string): State {
    AfterFill(s, key).(sessions := s.sessions["c" := NEW_SESSION])
  }

  function OpenFor(p: Plugin, key: string): Plugin {
    p.(pending := p.pending[p.minted + 1 := Opened(key)], slots := p.slots[key := p.minted + 1], minted := p.minted + 1)
  }

  ghost function AnswerFor(p: Plugin, t: nat, key: string): Plugin {
    p.(store := AfterComplete(p.store, key), pending := p.pending[t := Closed(key)])
  }

  lemma CompleteStep(p: Plugin, t: nat, key: string)
    requires Fillable(p.store, key) && p.running && p.closed == {} && t in p.pending && p.pending[t] == Opened(key)
    requires SlotsPoint(p)
    ensures Goes(p, Resolves(t, key), AnswerFor(p, t, key))
  {
    NodesWellFormed();
    AnswerStep(p, key);
    OpenCompletes(p, Resolution(t, key, 0, Candidate(key)), Calm(key));
    hide Fillable, WellFormed, SlotsPoint, ReplyFits, Answer, AtSelect, AfterComplete, Asking, IdRow, Node, Complete, Finished;
  }

  lemma OpenCompletes(p: Plugin, r: Resolution, a: Around)
    requires WellFormed(p.store.tables) && r.continuation in p.pending && p.pending[r.continuation].done == 0
    requires p.pending[r.continuation].request.id == r.requestId && r.version == 0
    ensures var c := p.pending[r.continuation]; var (s, reply) := Answer(p, c, r.payload, a);
            Complete(p, r, a).0 == p.(store := s, pending := p.pending[r.continuation := Finished(c, r.payload, reply)])
  {
    hide WellFormed, Answer, Finished;
  }

  lemma AnswerStep(p: Plugin, key: string)
    requires Fillable(p.store, key) && p.running && p.closed == {}
    ensures WellFormed(p.store.tables)
    ensures ReplyFits(AtSelect(p, Opened(key), Candidate(key), Calm(key)), Opened(key), Selection(IdRow(key)))
    ensures Answer(p, Opened(key), Candidate(key), Calm(key)) == (AfterComplete(p.store, key), Ok(Rows(IdRow(key))))
  {
    FillStep(p.store, key);
    SelectStep(AfterFill(p.store, key), key);
    InstallStep(p, key);
    hide Fill, Execute, ReplyFits, SlotSpec.Install, Fillable, IsTree, Asking, Node, WellFormed, IdRow;
  }

  lemma InstallStep(p: Plugin, key: string)
    requires WellFormed(p.store.tables) && p.running && p.closed == {}
    requires Fill(p.store, NodeSlot(key), [Node(key)]) == (AfterFill(p.store, key), Done(0, 0))
    ensures SlotSpec.Install(p, Opened(key), Candidate(key), Calm(key)) == (AfterFill(p.store, key), None)
  {
    hide Fill, AfterFill, Node, WellFormed;
  }

  lemma VisitStep(p: Plugin, key: string)
    requires p.store.tables == [NODES] && SlotsPoint(p) && NodeSlot(key) in p.defs
    requires key !in p.slots && p.generating && |p.pending| < MAX_PENDING
    ensures Goes(p, Meets(key, key), OpenFor(p, key))
  {
    NodesWellFormed();
    hide WellFormed;
  }

  const EMPTY := State([NODES], map[], map[], map[], 0)
  const START := Plugin(EMPTY, true, DEFS, true, map[], map[], {}, 0)

  const A_OPEN := OpenFor(START, "a")
  ghost const A_DONE := AnswerFor(A_OPEN, 1, "a")
  ghost const B_OPEN := OpenFor(A_DONE, "b")
  ghost const B_DONE := AnswerFor(B_OPEN, 2, "b")

  /** The SELECT for "a" waits for its slot and is answered; the one for "b" passes that slot, waits
      for its own and is answered. */
  const EVENTS := [Meets("a", "a"), Resolves(1, "a"), Meets("b", "a"), Meets("b", "b"), Resolves(2, "b")]

  lemma RootFillable()
    ensures Fillable(EMPTY, "a")
  {
  }

  /** The store once "a" is there. */
  ghost predicate HoldsRoot(s: State) {
    s.tables == [NODES] && SessionOf(s, "c") == NEW_SESSION && Live(s.committed) == map[NodeId("a") := Node("a")]
  }

  lemma RootIsThere()
    ensures HoldsRoot(AfterComplete(EMPTY, "a"))
  {
    LiveAfterFill(EMPTY, "a");
    hide Node, Live;
    assert Live(EMPTY.committed) == map[] by { EmptyIsEmpty(); }
  }

  lemma EmptyIsEmpty()
    ensures Live(EMPTY.committed) == map[]
  {
  }

  lemma LeafFillable(s: State)
    requires HoldsRoot(s)
    ensures Fillable(s, "b")
  {
    hide Node, Live;
  }

  lemma FirstFill()
    ensures Goes(START, Meets("a", "a"), A_OPEN) && Goes(A_OPEN, Resolves(1, "a"), A_DONE)
  {
    RootFillable();
    VisitStep(START, "a");
    hide Fillable, Goes, Meets, Resolves, Closed, Opened;
    CompleteStep(A_OPEN, 1, "a");
  }

  lemma SecondFill()
    ensures Goes(A_DONE, Meets("b", "b"), B_OPEN) && Goes(B_OPEN, Resolves(2, "b"), B_DONE)
  {
    RootIsThere();
    LeafFillable(A_DONE.store);
    hide Fillable, HoldsRoot, Goes, Meets, Resolves, AfterComplete, Closed, Opened;
    VisitStep(A_DONE, "b");
    CompleteStep(B_OPEN, 2, "b");
  }

  lemma PassStep(p: Plugin, key: string, slot: string)
    requires p.store.tables == [NODES] && SlotsPoint(p) && NodeSlot(slot) in p.defs && slot in p.slots
    requires p.pending[p.slots[slot]].done > 0 && p.pending[p.slots[slot]].err.None?
    ensures Goes(p, Meets(key, slot), p)
  {
    NodesWellFormed();
    hide WellFormed;
  }

  lemma RootPasses()
    ensures Goes(A_DONE, Meets("b", "a"), A_DONE)
  {
    hide Goes, Meets;
    assert A_DONE.slots == map["a" := 1] && A_DONE.pending[1] == Closed("a");
    PassStep(A_DONE, "b", "a");
  }

  lemma StartIsFine()
    ensures PluginOk(START)
  {
    NodesWellFormed();
    StartSlots();
    assert CommittedOk([NODES], Live(map[]));
    hide DefsOk, PluginOk;
    assert Inv(EMPTY);
    assert START == Plugin(EMPTY, true, DEFS, true, map[], map[], {}, 0);
    StartIsOk(EMPTY, DEFS, true);
  }

  lemma StartSlots()
    ensures DefsOk([NODES], DEFS)
  {
    assert FindTable([NODES], "nodes").Some?;
    assert forall d :: d in DEFS ==> d.table == "nodes" && |d.keys| == 1;
  }

  // ---- the export ----

  function Captured(key: string): Capture {
    Capture(Asked(key), Candidate(key), Rows(IdRow(key)))
  }

  lemma BothConfirmed()
    ensures AllConfirmed(B_DONE, [Captured("b")]) && AllConfirmed(B_DONE, [Captured("a"), Captured("b")])
  {
    assert B_DONE.pending[1] == Closed("a") && B_DONE.pending[2] == Closed("b");
    assert C.ConfirmedBy(B_DONE.pending[1], Asked("a"), Candidate("a"), Rows(IdRow("a")));
    assert C.ConfirmedBy(B_DONE.pending[2], Asked("b"), Candidate("b"), Rows(IdRow("b")));
  }

  /** The captures offer their own node and nothing else. */
  lemma OffersItsNode(key: string, d: Slot, row: Row)
    ensures Offers(Captured(key), d, "nodes", row) <==> d.id == key && d.table == "nodes" && row == Node(key)
  {
    assert Clone(Node(key)) == Node(key);
    assert Captured(key).candidate.fill.value.rows[0] == Node(key);
  }

  lemma AddedAre(p: Plugin, captures: seq<Capture>, keys: seq<string>, row: Row)
    requires p.defs == DEFS && p.store.tables == [NODES] && |keys| == |captures|
    requires forall i :: 0 <= i < |keys| ==> (keys[i] == "a" || keys[i] == "b") && captures[i] == Captured(keys[i])
    ensures Added(p, captures, map[], "nodes", row) <==> exists i :: 0 <= i < |keys| && row == Node(keys[i])
  {
    hide Offers, Captured, Node, L.KeyOf;
    if Added(p, captures, map[], "nodes", row) {
      var i, d :| 0 <= i < |captures| && d in p.defs && Offers(captures[i], d, "nodes", row);
      OffersItsNode(keys[i], d, row);
    }
    if i :| 0 <= i < |keys| && row == Node(keys[i]) {
      var d := NodeSlot(keys[i]);
      OffersItsNode(keys[i], d, row);
      assert d in p.defs && Offers(captures[i], d, "nodes", row);
    }
  }

  lemma ParentIsRoot(key: string, other: string)
    ensures Refers(PARENT, Node(key), Node(other)) <==> other == "a"
  {
    assert Cell(Node(key), PARENT.columns[0]) == Value(VARCHAR, Text("a"));
    assert Cell(Node(other), PARENT.references[0]) == Value(VARCHAR, Text(other));
  }

  lemma LeafAloneIsStranded(p: Plugin)
    requires p.defs == DEFS && p.store.tables == [NODES]
    ensures WellFormed(p.store.tables) && !ReferencesFound(p, [Captured("b")], map[])
  {
    NodesWellFormed();
    hide Added, Node, WellFormed, Refers, Captured;
    AddedAre(p, [Captured("b")], ["b"], Node("b"));
    assert Node("b") == Node(["b"][0]) && PARENT in NODES.foreignKeys;
    if ReferencesFound(p, [Captured("b")], map[]) {
      assert NODES in p.store.tables && FindsReference(p, [Captured("b")], map[], PARENT, Node("b"));
      var other :| InExport(p, [Captured("b")], map[], "nodes", other) && Refers(PARENT, Node("b"), other);
      AddedAre(p, [Captured("b")], ["b"], other);
      assert other == Node("b");
      LeafIsNoParent();
    }
  }

  lemma LeafIsNoParent()
    ensures !Refers(PARENT, Node("b"), Node("b"))
  {
    ParentIsRoot("b", "b");
    assert "a"[0] != "b"[0];
  }

  lemma BothFindTheirParent(p: Plugin)
    requires p.defs == DEFS && p.store.tables == [NODES]
    ensures WellFormed(p.store.tables) && ReferencesFound(p, [Captured("a"), Captured("b")], map[])
  {
    NodesWellFormed();
    hide Added, Node, WellFormed, Refers, Captured;
    var captures, keys := [Captured("a"), Captured("b")], ["a", "b"];
    AddedAre(p, captures, keys, Node("a"));
    assert Node("a") == Node(keys[0]);
    forall t, fk, row | t in [NODES] && fk in t.foreignKeys && Added(p, captures, map[], t.name, row)
      ensures FindsReference(p, captures, map[], fk, row)
    {
      AddedAre(p, captures, keys, row);
      var i :| 0 <= i < 2 && row == Node(keys[i]);
      assert t == NODES && fk == PARENT;
      ParentIsRoot(keys[i], "a");
      assert InExport(p, captures, map[], fk.table, Node("a")) && Refers(fk, row, Node("a"));
    }
  }

  lemma NothingListed(p: Plugin)
    requires p.defs == DEFS && p.store.tables == [NODES]
    ensures WellFormed(p.store.tables) && RunsOwn(p, map[])
  {
    NodesWellFormed();
    StartSlots();
    hide WellFormed, Live;
  }

  /** Not every confirmed capture can be exported on its own: in this run the agent fills "a" and then
      "b" under it. Both captures are confirmed and can be exported together, but "b" alone refers to
      a row that only the run has. */
  lemma CaptureMayBeStranded() returns (r: SlotRuns.Run)
    ensures IsRun(r) && r.states[0] == START && r.events == EVENTS
    ensures var p := r.states[5];
            && WellFormed(p.store.tables) && RunsOwn(p, map[]) && AllConfirmed(p, [Captured("b")])
            && !Exportable(p, [Captured("b")], map[]) && Exportable(p, [Captured("a"), Captured("b")], map[])
  {
    r := Run([START, A_OPEN, A_DONE, A_DONE, B_OPEN, B_DONE], EVENTS);
    StartIsFine();
    AllFollow(r);
    hide PluginOk, Follows, AllConfirmed, ReferencesFound, RunsOwn, WellFormed, B_DONE;
    BothConfirmed();
    EndsWith();
    NothingListed(B_DONE);
    LeafAloneIsStranded(B_DONE);
    BothFindTheirParent(B_DONE);
  }

  lemma EndsWith()
    ensures B_DONE.defs == DEFS && B_DONE.store.tables == [NODES]
  {
  }

  lemma AllFollow(r: SlotRuns.Run)
    requires r.states == [START, A_OPEN, A_DONE, A_DONE, B_OPEN, B_DONE] && r.events == EVENTS
    ensures forall i {:trigger Follows(r, i)} :: 0 <= i < 5 ==> Follows(r, i)
  {
    FirstFill();
    RootPasses();
    SecondFill();
    hide Goes, Follows, Meets, Resolves, START, A_OPEN, A_DONE, B_OPEN, B_DONE;
    forall i | 0 <= i < 5 ensures Follows(r, i) {
      GoesFollows(r, i);
    }
  }

  lemma GoesFollows(r: SlotRuns.Run, i: nat)
    requires |r.states| == |r.events| + 1 && i < |r.events| && Goes(r.states[i], r.events[i], r.states[i + 1])
    ensures Follows(r, i)
  {
  }
}
