/**
 The leased job queue (store.py) as a specification: the three tables, and what each atomic store
 method makes of them. The class in Store.dfy is proved to do exactly this.
 */
module Queue {
  import opened Wrappers
  import opened Catalog
  import opened Lanes
  import opened Provenance

  datatype Cell = Cell(lane: string, scenario: string)

  datatype Status = Queued | Running | Complete | Unknown | Superseded

  /** The `completion_key` column: a digest of accepted evidence, or the token of a failed lease. */
  datatype Key = NoKey | Evidence(payload: Payload) | Lease(token: nat)

  datatype Task = Task(
    group: nat, cell: Cell, ordinal: nat, kind: ExecutionClass, status: Status, token: Option<nat>,
    owner: Option<string>, expiresAt: Option<int>, build: Option<string>, attempts: nat, key: Key,
    startedAt: Option<int>, finishedAt: Option<int>, error: Option<string>)

  /** The group statuses `queued`, `running` and `complete`. */
  datatype GroupStatus = Waiting | Active | Finished

  datatype Group = Group(
    status: GroupStatus, createdAt: int, startedAt: Option<int>, finishedAt: Option<int>,
    lanes: seq<string>, scenarios: seq<string>)

  /** A row of `observations`; its times are those of the payload. */
  datatype Row = Row(group: nat, cell: Cell, payload: Payload)

  /**
   The database. `nextTask` is the AUTOINCREMENT counter. `uuids` counts the uuid4 values drawn so
   far: draw number n is the value n, so no draw repeats. Observation ids of submitted payloads are
   the worker's choice and may be any value.
   */
  datatype Db = Db(tasks: map<nat, Task>, groups: map<nat, Group>, rows: map<nat, Row>, nextTask: nat, uuids: nat)

  datatype Config = Config(defs: seq<Definition>, maxPending: nat)

  /**
   `unknown_observation` for a cell, a time and a drawn id, as one call of the store sees it: the
   lane descriptors and the scenario catalogue are fixed inside. None stands for an exception.
   */
  type Reporter = (Cell, int, nat) -> Option<Payload>

  /** Reports are ineligible observations of their own time; whether one can be made depends on the cell alone. */
  ghost predicate Honest(report: Reporter) {
    forall cell, now, id :: HonestAt(report, cell, now, id)
  }

  predicate HonestAt(report: Reporter, cell: Cell, now: int, id: nat) {
    && (report(cell, now, id).Some? <==> report(cell, 0, 0).Some?)
    && (report(cell, now, id).Some? ==> IsReport(report(cell, now, id).value, now, id))
  }

  predicate IsReport(o: Payload, now: int, id: nat) {
    o.id == id && o.observedAt == now && o.freshUntil == now + DAY && o.availability == Inconclusive && !o.eligible
  }

  /** The reporter for a set of published lanes and the observer's own evaluator build. */
  function ReporterFor(defs: seq<Definition>, lanes: map<string, Descriptor>, build: string): Reporter {
    (cell: Cell, now: int, id: nat) =>
      if cell.lane in lanes
      then UnknownObservation(defs, lanes[cell.lane], Canonical(defs, cell.scenario), now, id, build)
      else None
  }

  lemma ReporterIsHonest(defs: seq<Definition>, lanes: map<string, Descriptor>, build: string)
    ensures Honest(ReporterFor(defs, lanes, build))
  {
    var report := ReporterFor(defs, lanes, build);
    forall cell: Cell, now: int, id: nat
      ensures HonestAt(report, cell, now, id)
    {
      if cell.lane in lanes {
        var d, scenario := lanes[cell.lane], Canonical(defs, cell.scenario);
        ReportableDecides(defs, d, scenario, now, id, build);
        ReportableDecides(defs, d, scenario, 0, 0, build);
      }
    }
  }

  /** The descriptors of the configured lanes, as `expire_leases` and the restart hand them to the store. */
  function PublicLanes(defs: seq<Definition>, lanes: map<string, Lane>): map<string, Descriptor> {
    map id | id in lanes :: Public(defs, lanes[id])
  }

  predicate AllLoaded(defs: seq<Definition>, lanes: map<string, Lane>) {
    WellFormed(defs) && forall id | id in lanes :: Loaded(defs, lanes[id])
  }

  /** An observer can report about a cell of a known scenario exactly when the cell's lane is configured. */
  lemma ReportsConfiguredLanes(
      defs: seq<Definition>, lanes: map<string, Lane>, build: string, cell: Cell, now: int, id: nat)
    requires AllLoaded(defs, lanes) && Known(defs, cell.scenario)
    ensures ReporterFor(defs, PublicLanes(defs, lanes), build)(cell, now, id).None? <==> cell.lane !in lanes
  {
    if cell.lane in lanes {
      var d, scenario := Public(defs, lanes[cell.lane]), Canonical(defs, cell.scenario);
      CanonicalNamesRoundTrip(defs, cell.scenario);
      assert lanes[cell.lane].regionRaw.None? ==> lanes[cell.lane].region.None?;
      ReportableDecides(defs, d, scenario, now, id, build);
    }
  }

  const MAX_ATTEMPTS: nat := 2

  const EMPTY: Db := Db(map[], map[], map[], 0, 0)

  predicate Pending(t: Task) {
    t.status == Queued || t.status == Running
  }

  predicate Terminal(t: Task) {
    !Pending(t)
  }

  predicate GroupPending(tasks: map<nat, Task>, g: nat) {
    exists k | k in tasks :: tasks[k].group == g && Pending(tasks[k])
  }

  function OpenGroups(db: Db): set<nat> {
    set g | g in db.groups && db.groups[g].status != Finished
  }

  function PendingCells(db: Db): set<Cell> {
    set k | k in db.tasks && Pending(db.tasks[k]) :: db.tasks[k].cell
  }

  // ----- create_group

  function CellsOfLane(lane: string, scenarios: seq<string>): (r: seq<Cell>)
    ensures |r| == |scenarios|
    ensures forall i | 0 <= i < |r| :: r[i] == Cell(lane, scenarios[i])
  {
    seq(|scenarios|, i requires 0 <= i < |scenarios| => Cell(lane, scenarios[i]))
  }

  /** Lane by lane, and within a lane scenario by scenario. */
  function Cells(lanes: seq<string>, scenarios: seq<string>): seq<Cell> {
    if lanes == [] then [] else CellsOfLane(lanes[0], scenarios) + Cells(lanes[1..], scenarios)
  }

  predicate DistinctCells(cells: seq<Cell>) {
    forall i, j | 0 <= i < j < |cells| :: cells[i] != cells[j]
  }

  function KindOf(defs: seq<Definition>, scenario: string): ExecutionClass {
    match ById(defs, scenario)
    case Some(d) => d.kind
    case None => Light
  }

  function NewTask(defs: seq<Definition>, g: nat, cell: Cell, ordinal: nat): Task {
    Task(g, cell, ordinal, KindOf(defs, cell.scenario), Queued, None, None, None, None, 0, NoKey, None, None, None)
  }

  function NewTasks(defs: seq<Definition>, g: nat, cells: seq<Cell>, first: nat): (r: map<nat, Task>)
    ensures forall k :: k in r <==> first <= k < first + |cells|
    ensures forall k :: k in r ==> r[k] == NewTask(defs, g, cells[k - first], k - first)
  {
    if cells == [] then map[]
    else
      var n := |cells| - 1;
      NewTasks(defs, g, cells[..n], first)[first + n := NewTask(defs, g, cells[n], n)]
  }

  datatype Submission = Created(group: nat) | QueueFull | Rejected

  /** A lane or scenario named twice breaks the UNIQUE constraint; an unknown scenario has no execution class. */
  predicate Insertable(defs: seq<Definition>, cells: seq<Cell>) {
    DistinctCells(cells) && forall c | c in cells :: Known(defs, c.scenario)
  }

  function Submit(cfg: Config, db: Db, lanes: seq<string>, scenarios: seq<string>, now: int): (Db, Submission) {
    var cells := Cells(lanes, scenarios);
    if |OpenGroups(db)| >= cfg.maxPending then (db, QueueFull)
    else if !Insertable(cfg.defs, cells) then (db, Rejected)
    else
      var g := db.uuids;
      (db.(tasks := db.tasks + NewTasks(cfg.defs, g, cells, db.nextTask),
           groups := db.groups[g := Group(Waiting, now, None, None, lanes, scenarios)],
           nextTask := db.nextTask + |cells|,
           uuids := g + 1),
       Created(g))
  }

  // ----- claim_task

  /** `ORDER BY g.created_at, t.ordinal, t.id` */
  predicate Before(db: Db, a: nat, b: nat)
    requires a in db.tasks && db.tasks[a].group in db.groups
    requires b in db.tasks && db.tasks[b].group in db.groups
  {
    var s, t := db.tasks[a], db.tasks[b];
    var x, y := db.groups[s.group].createdAt, db.groups[t.group].createdAt;
    x < y || (x == y && (s.ordinal < t.ordinal || (s.ordinal == t.ordinal && a < b)))
  }

  predicate Joined(db: Db, ids: set<nat>) {
    forall k | k in ids :: k in db.tasks && db.tasks[k].group in db.groups
  }

  predicate Leads(db: Db, ids: set<nat>, k: nat)
    requires Joined(db, ids)
  {
    k in ids && forall j | j in ids :: j == k || Before(db, k, j)
  }

  lemma {:induction false} FirstExists(db: Db, ids: set<nat>)
    requires ids != {} && Joined(db, ids)
    ensures exists k :: Leads(db, ids, k)
    decreases |ids|
  {
    var a :| a in ids;
    var rest := ids - {a};
    assert ids == rest + {a};
    if rest == {} {
      assert Leads(db, ids, a);
    } else {
      FirstExists(db, rest);
      var k :| Leads(db, rest, k);
      if Before(db, a, k) {
        assert Leads(db, ids, a);
      } else {
        assert Leads(db, ids, k);
      }
    }
  }

  function First(db: Db, ids: set<nat>): (k: nat)
    requires ids != {} && Joined(db, ids)
    ensures Leads(db, ids, k)
  {
    FirstExists(db, ids);
    var k :| k in ids && Leads(db, ids, k);
    k
  }

  function Claimable(db: Db, kind: ExecutionClass): (ids: set<nat>)
    ensures Joined(db, ids)
  {
    set k | k in db.tasks && db.tasks[k].group in db.groups
            && db.tasks[k].status == Queued && db.tasks[k].kind == kind && db.tasks[k].attempts < MAX_ATTEMPTS
  }

  function StartedAt(previous: Option<int>, now: int): Option<int> {
    Some(previous.GetOr(now))
  }

  function LeasedTask(t: Task, token: nat, worker: string, lease: int, build: Option<string>, now: int): Task {
    t.(status := Running, startedAt := StartedAt(t.startedAt, now), token := Some(token), owner := Some(worker),
       expiresAt := Some(now + lease), build := build, attempts := t.attempts + 1)
  }

  function Activate(db: Db, g: nat, now: int): Db {
    if g in db.groups then
      var row := db.groups[g];
      db.(groups := db.groups[g := row.(status := Active, startedAt := StartedAt(row.startedAt, now))])
    else db
  }

  /** The claimed task, if any queued task fits the worker class. */
  function Claim(db: Db, worker: string, kind: ExecutionClass, lease: int, build: Option<string>, now: int): (Db,
      Option<nat>) {
    var ids := Claimable(db, kind);
    if ids == {} then (db, None)
    else
      var k := First(db, ids);
      var t := db.tasks[k];
      var claimed := db.(tasks := db.tasks[k := LeasedTask(t, db.uuids, worker, lease, build, now)],
                         uuids := db.uuids + 1);
      (Activate(claimed, t.group, now), Some(k))
  }

  // ----- expire_leases

  predicate Overdue(t: Task, now: int) {
    t.status == Running && t.token.Some? && t.expiresAt.Some? && t.expiresAt.value <= now
  }

  function Reconcile(db: Db, g: nat, now: int): Db {
    if g in db.groups && !GroupPending(db.tasks, g) then
      db.(groups := db.groups[g := db.groups[g].(status := Finished, finishedAt := Some(now))])
    else db
  }

  function Requeued(t: Task): Task {
    t.(status := Queued, token := None, owner := None, expiresAt := None,
       error := Some("worker lease expired; bounded retry queued"))
  }

  function Abandoned(t: Task, now: int): Task {
    t.(status := Unknown, finishedAt := Some(now), error := Some("worker lease expired after bounded retry"))
  }

  /** Closes a task with its observation; INSERT OR REPLACE makes the payload id win over an older row. */
  function Close(db: Db, k: nat, closed: Task, payload: Payload, now: int): Db {
    Reconcile(db.(tasks := db.tasks[k := closed], rows := db.rows[payload.id := Row(closed.group, closed.cell,
        payload)]),
              closed.group, now)
  }

  /** One overdue row: a first attempt is queued again, a second one is closed with an `unknown` observation. */
  function ExpireRow(report: Reporter, db: Db, k: nat, now: int): Db
    requires k in db.tasks
  {
    var t := db.tasks[k];
    if t.attempts < MAX_ATTEMPTS then db.(tasks := db.tasks[k := Requeued(t)])
    else
      match report(t.cell, now, db.uuids)
      case None => db
      case Some(payload) => Close(db, k, Abandoned(t, now), payload, now).(uuids := db.uuids + 1)
  }

  /** The overdue rows with id below n, in id order. */
  function ExpireBelow(report: Reporter, db: Db, n: nat, now: int): Db {
    if n == 0 then db
    else
      var d := ExpireBelow(report, db, n - 1, now);
      if n - 1 in d.tasks && Overdue(d.tasks[n - 1], now) then ExpireRow(report, d, n - 1, now) else d
  }

  predicate OverdueForGood(t: Task, now: int) {
    Overdue(t, now) && t.attempts >= MAX_ATTEMPTS
  }

  /** Some overdue second attempt cannot be reported: the whole transaction raises. */
  predicate ExpiryRaises(report: Reporter, db: Db, now: int) {
    exists k | k in db.tasks :: OverdueForGood(db.tasks[k], now) && report(db.tasks[k].cell, 0, 0).None?
  }

  function Expire(report: Reporter, db: Db, now: int): Db {
    if ExpiryRaises(report, db, now) then db else ExpireBelow(report, db, db.nextTask, now)
  }

  // ----- complete_leased_task and fail_leased_task

  datatype Disposition = Accepted | Duplicate | Conflict | NotFound | Raised

  function CompletedTask(t: Task, payload: Payload, now: int): Task {
    t.(status := Complete, finishedAt := Some(now), key := Evidence(payload))
  }

  function FailedTask(t: Task, token: nat, error: string, now: int): Task {
    t.(status := Unknown, finishedAt := Some(now), error := Some(error), key := Lease(token))
  }

  function CompleteLeased(db: Db, k: nat, token: nat, payload: Payload, now: int): (Db, Disposition) {
    if k !in db.tasks then (db, NotFound)
    else
      var t := db.tasks[k];
      if t.status == Complete || t.status == Unknown then
        (db, if t.key == Evidence(payload) then Duplicate else Conflict)
      else if t.status != Running || t.token != Some(token) then (db, Conflict)
      else if t.expiresAt.None? then (db, Raised)
      else if t.expiresAt.value <= now then (db, Conflict)
      else (Close(db, k, CompletedTask(t, payload, now), payload, now), Accepted)
  }

  function FailLeased(report: Reporter, db: Db, k: nat, token: nat, error: string, now: int): (Db, Disposition) {
    if k !in db.tasks then (db, NotFound)
    else
      var t := db.tasks[k];
      if t.status == Unknown && t.key == Lease(token) then (db, Duplicate)
      else if t.status != Running || t.token != Some(token) then (db, Conflict)
      else
        match report(t.cell, now, db.uuids)
        case None => (db, Raised)
        case Some(payload) =>
          (Close(db, k, FailedTask(t, token, error, now), payload, now).(uuids := db.uuids + 1), Accepted)
  }

  // ----- prune

  /** Deleting groups cascades to their tasks and observations. */
  function DeleteGroups(db: Db, doomed: set<nat>): Db {
    db.(groups := map g | g in db.groups && g !in doomed :: db.groups[g],
        tasks := map k | k in db.tasks && db.tasks[k].group !in doomed :: db.tasks[k],
        rows := map o | o in db.rows && db.rows[o].group !in doomed :: db.rows[o])
  }

  function Aged(db: Db, cutoff: int): set<nat> {
    set g | g in db.groups && db.groups[g].status == Finished
            && db.groups[g].finishedAt.Some? && db.groups[g].finishedAt.value < cutoff
  }

  function FinishedGroups(db: Db): set<nat> {
    set g | g in db.groups && db.groups[g].status == Finished
  }
}
