/** The row store as a value, and every locked operation as one step on it. */
module StoreSpec {
  import opened Values
  import opened Schema
  import opened Plans

  /** A record without a row is a deletion tombstone that keeps its version. */
  datatype Record = Record(row: Option<Row>, version: nat)

  /** `writes` is the private overlay (`None` deletes); `base` holds, for every key of the
      overlay, the committed version found when the key was first written. */
  datatype Session = Session(
    autocommit: bool,
    active: bool,
    foundRows: bool,
    readOnly: bool,
    lastInsert: int,
    writes: Changes,
    base: map<Id, nat>)

  type Changes = map<Id, Option<Row>>

  datatype State = State(
    tables: seq<Table>,
    committed: map<Id, Record>,
    sessions: map<string, Session>,
    nextIDs: map<string, int>,
    version: nat)

  /** Conflict: 1213. Constraint: a duplicate, reference or column violation. Refused: everything else. */
  datatype Failure = Conflict | Constraint | Refused

  /** `Reads` is a SELECT that reached the point of collecting rows. */
  datatype Verdict = Done(affected: nat, insertId: int) | Reads | Aborted(failure: Failure)

  // ---- views ----

  function VersionOf(committed: map<Id, Record>, id: Id): nat {
    if id in committed then committed[id].version else 0
  }

  function Live(committed: map<Id, Record>): View {
    map id | id in committed && committed[id].row.Some? :: committed[id].row.value
  }

  function Overlay(view: View, writes: Changes): View {
    map id | id in view.Keys + writes.Keys && (id in writes ==> writes[id].Some?) ::
      if id in writes then writes[id].value else view[id]
  }

  function Install(committed: map<Id, Record>, writes: Changes, version: nat): map<Id, Record> {
    map id | id in committed.Keys + writes.Keys ::
      if id in writes then Record(writes[id], version) else committed[id]
  }

  const NEW_SESSION := Session(true, false, false, false, 0, map[], map[])

  /** The session as it is, or as it is created on first use. */
  function SessionOf(s: State, sid: string): Session {
    if sid in s.sessions then s.sessions[sid] else NEW_SESSION
  }

  /** What the session reads: the latest committed rows under its own writes. */
  function ViewOf(s: State, sid: string): View {
    Overlay(Live(s.committed), SessionOf(s, sid).writes)
  }

  function NextId(s: State, table: string): int {
    if table in s.nextIDs then s.nextIDs[table] else 0
  }

  // ---- the change set of a statement ----

  /** `next` is the allocator of the statement's table afterwards. */
  datatype Outcome =
    | Refuse(failure: Failure, next: int)
    | Write(changes: Changes, matched: nat, changed: nat, insertId: int, next: int)

  /** Cells given by the statement; `None` when an operand has no value. */
  function GivenCells(row: Row, assignments: seq<Assignment>, params: seq<Value>): Option<Row>
    decreases |assignments|
  {
    if assignments == [] then Some(row)
    else
      match OperandValue(assignments[0].value, params)
      case None => None
      case Some(v) => GivenCells(row[assignments[0].column := v], assignments[1..], params)
  }

  function InsertOutcome(t: Table, plan: Plan, params: seq<Value>, view: View, next: int): Outcome
  {
    match GivenCells(DefaultRow(t.columns), plan.assignments, params)
    case None => Refuse(Refused, next)
    case Some(given) =>
      match FillAuto(t.columns, given, next, 0)
      case Unfilled(n) => Refuse(Refused, n)
      case Filled(row, n, insertId) =>
        match Cell(row, PrimaryKey(t)).AsString()
        case None => Refuse(Refused, n)
        case Some(key) =>
          if Id(t.name, key) in view then Refuse(Constraint, n)
          else Write(map[Id(t.name, key) := Some(Clone(row))], 1, 1, insertId, n)
  }

  ghost predicate UpdateFails(t: Table, plan: Plan, params: seq<Value>, view: View) {
    exists id :: id in view && id.table == t.name && UpdateEffect(plan, params, view[id]) == Bad
  }

  ghost function UpdateChanges(t: Table, plan: Plan, params: seq<Value>, view: View): Changes {
    map id | id in view && id.table == t.name && UpdateEffect(plan, params, view[id]).Put? ::
      Some(UpdateEffect(plan, params, view[id]).row)
  }

  ghost function MatchedIds(t: Table, plan: Plan, params: seq<Value>, view: View): set<Id> {
    set id | id in view && id.table == t.name && RowMatches(view[id], plan.predicates, params) == Some(true)
  }

  ghost predicate MatchingFails(t: Table, plan: Plan, params: seq<Value>, view: View) {
    exists id :: id in view && id.table == t.name && RowMatches(view[id], plan.predicates, params) == None
  }

  ghost function StatementOutcome(t: Table, plan: Plan, params: seq<Value>, view: View, next: int): Outcome
  {
    match plan.kind
    case Insert => InsertOutcome(t, plan, params, view, next)
    case Update =>
      if UpdateFails(t, plan, params, view) then Refuse(Refused, next)
      else
        var changes := UpdateChanges(t, plan, params, view);
        Write(changes, |MatchedIds(t, plan, params, view)|, |changes|, 0, next)
    case Delete =>
      if MatchingFails(t, plan, params, view) then Refuse(Refused, next)
      else
        var ids := MatchedIds(t, plan, params, view);
        Write(map id | id in ids :: None, 0, |ids|, 0, next)
    case _ => Refuse(Refused, next)
  }

  // ---- execute ----

  predicate ParamsFit(plan: Plan, params: seq<Value>) {
    |params| == |plan.parameters| && forall i :: 0 <= i < |params| ==> Fits(plan.parameters[i], params[i])
  }

  /** The session once a statement has started in it. */
  function Entered(s: State, sid: string): Session {
    var c := SessionOf(s, sid);
    if c.autocommit then c else c.(active := true)
  }

  /** Every key of the overlay keeps the version it was first written against. */
  function Rebase(committed: map<Id, Record>, base: map<Id, nat>, changes: Changes): map<Id, nat> {
    map id | id in base.Keys + changes.Keys ::
      if id in base then base[id] else VersionOf(committed, id)
  }

  function Buffer(s: State, sid: string, c: Session, changes: Changes): State {
    s.(sessions := s.sessions[sid := c.(writes := c.writes + changes, base := Rebase(s.committed, c.base, changes))])
  }

  function Publish(s: State, changes: Changes): State {
    s.(version := s.version + 1, committed := Install(s.committed, changes, s.version + 1))
  }

  function Remember(s: State, sid: string, insertId: int): State
    requires sid in s.sessions
  {
    if insertId == 0 then s else s.(sessions := s.sessions[sid := s.sessions[sid].(lastInsert := insertId)])
  }

  /** Only an INSERT touches the allocator. */
  function Allocate(s: State, plan: Plan, t: Table, next: int): State {
    if plan.kind == Insert then s.(nextIDs := s.nextIDs[t.name := next]) else s
  }

  /** What becomes of a change set: refused, rejected by the constraints, or landed in the
      session's overlay or in the committed rows. */
  function Land(s: State, sid: string, t: Table, plan: Plan, o: Outcome, allowed: bool, late: bool): (State, Verdict)
    requires sid in s.sessions
  {
    var s2 := Allocate(s, plan, t, o.next);
    var c := s.sessions[sid];
    match o
    case Refuse(f, _) => (s2, Aborted(f))
    case Write(changes, matched, changed, insertId, _) =>
      if !allowed then (s2, Aborted(Constraint))
      else if late then (s2, Aborted(Refused))
      else
        var s3 := if c.active then Buffer(s2, sid, c, changes) else Publish(s2, changes);
        (Remember(s3, sid, insertId),
         Done(if c.foundRows && plan.kind == Update then matched else changed, insertId))
  }

  ghost predicate Allowed(tables: seq<Table>, view: View, o: Outcome)
    requires WellFormed(tables)
  {
    o.Write? && ViewConsistent(tables, Overlay(view, o.changes))
  }

  /** A writing statement, once its session has entered and its table is known. */
  ghost function Written(s: State, sid: string, t: Table, plan: Plan, params: seq<Value>, late: bool): (State, Verdict)
    requires WellFormed(s.tables) && sid in s.sessions
  {
    var view := Overlay(Live(s.committed), s.sessions[sid].writes);
    var o := StatementOutcome(t, plan, params, view, NextId(s, t.name));
    Land(s, sid, t, plan, o, Allowed(s.tables, view, o), late)
  }

  /** `early` and `late`: whether the request is already cancelled at the two checks. */
  ghost function Execute(s: State, sid: string, plan: Plan, params: seq<Value>, early: bool, late: bool): (State, Verdict)
    requires WellFormed(s.tables)
  {
    if early || !ParamsFit(plan, params) then (s, Aborted(Refused))
    else
      var c := Entered(s, sid);
      var s1 := s.(sessions := s.sessions[sid := c]);
      if plan.kind == Select then (s1, Reads)
      else if c.readOnly then (s1, Aborted(Refused))
      else
        match FindTable(s.tables, plan.table)
        case None => (s1, Aborted(Refused))
        case Some(t) => Written(s1, sid, t, plan, params, late)
  }

  // ---- transaction control ----

  function Cleared(c: Session): Session {
    c.(active := false, writes := map[], base := map[])
  }

  /** Some key the session wrote has a committed version other than its base version. */
  ghost predicate VersionConflict(s: State, c: Session) {
    exists id :: id in c.base && VersionOf(s.committed, id) != c.base[id]
  }

  ghost predicate CommitAllowed(s: State, c: Session)
    requires WellFormed(s.tables)
  {
    !VersionConflict(s, c) && ViewConsistent(s.tables, Overlay(Live(s.committed), c.writes))
  }

  ghost function Commit(s: State, sid: string): (State, Verdict)
    requires WellFormed(s.tables)
  {
    var c := SessionOf(s, sid);
    var cleared := s.(sessions := s.sessions[sid := Cleared(c)]);
    if CommitAllowed(s, c) then (Publish(cleared, c.writes), Done(0, 0)) else (cleared, Aborted(Conflict))
  }

  function SetSession(s: State, sid: string, c: Session): State {
    s.(sessions := s.sessions[sid := c])
  }

  function Begin(s: State, sid: string): (State, Verdict) {
    var c := SessionOf(s, sid);
    if c.active then (SetSession(s, sid, c), Aborted(Refused))
    else (SetSession(s, sid, c.(active := true)), Done(0, 0))
  }

  function Rollback(s: State, sid: string): (State, Verdict) {
    (SetSession(s, sid, Cleared(SessionOf(s, sid))), Done(0, 0))
  }

  /** Switching autocommit back on commits the pending writes first. */
  ghost function SetAutocommit(s: State, sid: string, on: bool): (State, Verdict)
    requires WellFormed(s.tables)
  {
    var c := SessionOf(s, sid);
    if !on then (SetSession(s, sid, c.(autocommit := false)), Done(0, 0))
    else if c.autocommit then (SetSession(s, sid, c), Done(0, 0))
    else
      var (s', v) := Commit(s, sid);
      if v.Aborted? then (s', v)
      else (SetSession(s', sid, SessionOf(s', sid).(autocommit := true)), Done(0, 0))
  }

  function SetReadOnly(s: State, sid: string, on: bool): (State, Verdict) {
    (SetSession(s, sid, SessionOf(s, sid).(readOnly := on)), Done(0, 0))
  }

  function Open(s: State, sid: string, foundRows: bool): (State, Verdict) {
    (SetSession(s, sid, SessionOf(s, sid).(foundRows := foundRows)), Done(0, 0))
  }

  function Close(s: State, sid: string): (State, Verdict) {
    (s.(sessions := s.sessions - {sid}), Done(0, 0))
  }

  // ---- filling a reference slot ----

  datatype Slot = Slot(id: string, table: string, keys: seq<string>, fixed: Row, materialized: bool)

  function OpenKeys(slot: Slot): set<string> {
    set k | k in slot.keys
  }

  predicate FixedHolds(slot: Slot, row: Row) {
    forall c :: c in slot.fixed ==> EqualValue(slot.fixed[c], Cell(row, c))
  }

  /** The rows taken one by one against the keys still open and the view so far. */
  function FillRows(t: Table, slot: Slot, open: set<string>, rows: seq<Row>, view: View): Option<Changes>
    decreases |rows|
  {
    if rows == [] then Some(map[])
    else
      match Cell(rows[0], PrimaryKey(t)).AsString()
      case None => None
      case Some(key) =>
        var id := Id(t.name, key);
        if key !in open || id in view || !FixedHolds(slot, rows[0]) then None
        else
          match FillRows(t, slot, open - {key}, rows[1..], view[id := Clone(rows[0])])
          case None => None
          case Some(rest) => Some(rest[id := Some(Clone(rows[0]))])
  }

  /** The part of Complete that installs a candidate's rows. */
  ghost function Fill(s: State, slot: Slot, rows: seq<Row>): (State, Verdict)
    requires WellFormed(s.tables)
  {
    match FindTable(s.tables, slot.table)
    case None => (s, Aborted(Refused))
    case Some(t) =>
      if |rows| != |slot.keys| then (s, Aborted(Refused))
      else
        match FillRows(t, slot, OpenKeys(slot), rows, Live(s.committed))
        case None => (s, Aborted(Refused))
        case Some(changes) =>
          if ViewConsistent(s.tables, Overlay(Live(s.committed), changes)) then (Publish(s, changes), Done(0, 0))
          else (s, Aborted(Constraint))
  }

  // ---- the transition system ----

  datatype Event =
    | DoExecute(sid: string, plan: Plan, params: seq<Value>, early: bool, late: bool)
    | DoBegin(sid: string)
    | DoCommit(sid: string)
    | DoRollback(sid: string)
    | DoSetAutocommit(sid: string, on: bool)
    | DoSetReadOnly(sid: string, on: bool)
    | DoOpen(sid: string, foundRows: bool)
    | DoClose(sid: string)
    | DoFill(slot: Slot, rows: seq<Row>)

  ghost function Step(s: State, e: Event): (State, Verdict)
    requires WellFormed(s.tables)
  {
    match e
    case DoExecute(sid, plan, params, early, late) => Execute(s, sid, plan, params, early, late)
    case DoBegin(sid) => Begin(s, sid)
    case DoCommit(sid) => Commit(s, sid)
    case DoRollback(sid) => Rollback(s, sid)
    case DoSetAutocommit(sid, on) => SetAutocommit(s, sid, on)
    case DoSetReadOnly(sid, on) => SetReadOnly(s, sid, on)
    case DoOpen(sid, foundRows) => Open(s, sid, foundRows)
    case DoClose(sid) => Close(s, sid)
    case DoFill(slot, rows) => Fill(s, slot, rows)
  }
}
