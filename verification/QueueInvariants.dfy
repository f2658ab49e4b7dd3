/** What every queue operation keeps, and what each of them does to a task's one outcome. */
module QueueInvariants {
  import opened Wrappers
  import opened Catalog
  import opened Lanes
  import opened Provenance
  import opened Queue

  /** Ids are below the counters they are drawn from, and foreign keys resolve. */
  predicate Keyed(db: Db) {
    && (forall k | k in db.tasks :: k < db.nextTask && db.tasks[k].group in db.groups)
    && (forall k | k in db.tasks :: db.tasks[k].token.Some? ==> db.tasks[k].token.value < db.uuids)
    && (forall g | g in db.groups :: g < db.uuids)
    && (forall o | o in db.rows :: o < db.uuids && db.rows[o].payload.id == o)
  }

  /** UNIQUE(group_id, lane_id, scenario_id) */
  predicate UniqueCells(tasks: map<nat, Task>) {
    forall j, k | j in tasks && k in tasks ::
      tasks[j].group == tasks[k].group && tasks[j].cell == tasks[k].cell ==> j == k
  }

  /** A group is complete exactly when it has no queued or running task. */
  predicate GroupsAgree(tasks: map<nat, Task>, groups: map<nat, Group>) {
    forall g | g in groups ::
      && (groups[g].status == Finished <==> !GroupPending(tasks, g))
      && (groups[g].status == Finished ==> groups[g].finishedAt.Some?)
  }

  /** The attempt bound, and what a running task of the leased mode carries. */
  predicate Bounded(t: Task) {
    && t.attempts <= MAX_ATTEMPTS
    && (t.status == Queued ==> t.attempts < MAX_ATTEMPTS)
    && (t.status == Running ==> t.token.Some? && t.expiresAt.Some? && 1 <= t.attempts)
  }

  predicate Leased(tasks: map<nat, Task>) {
    forall k | k in tasks :: Bounded(tasks[k])
  }

  predicate Settled(t: Task) {
    t.status == Complete || t.status == Unknown
  }

  predicate FiledFor(r: Row, t: Task) {
    r.group == t.group && r.cell == t.cell
  }

  predicate HasRow(rows: map<nat, Row>, t: Task) {
    exists o | o in rows :: FiledFor(rows[o], t)
  }

  predicate HasSettledTask(tasks: map<nat, Task>, r: Row) {
    exists k | k in tasks :: FiledFor(r, tasks[k]) && Settled(tasks[k])
  }

  predicate UniqueRows(rows: map<nat, Row>) {
    forall o, p | o in rows && p in rows ::
      rows[o].group == rows[p].group && rows[o].cell == rows[p].cell ==> o == p
  }

  /** Observations and settled tasks correspond one to one. */
  predicate Ledger(tasks: map<nat, Task>, rows: map<nat, Row>) {
    && (forall k {:trigger HasRow(rows, tasks[k])} | k in tasks :: Settled(tasks[k]) ==> HasRow(rows, tasks[k]))
    && (forall o {:trigger HasSettledTask(tasks, rows[o])} | o in rows :: HasSettledTask(tasks, rows[o]))
    && UniqueRows(rows)
  }

  predicate WithinCap(cfg: Config, db: Db) {
    |OpenGroups(db)| <= cfg.maxPending
  }

  /** What holds whatever observation ids the workers choose. */
  predicate Core(cfg: Config, db: Db) {
    && Keyed(db)
    && UniqueCells(db.tasks)
    && GroupsAgree(db.tasks, db.groups)
    && Leased(db.tasks)
    && WithinCap(cfg, db)
  }

  /** The ledger is kept too, as long as no submitted observation id is already stored. */
  predicate KeepsLedger(db: Db, d: Db) {
    Ledger(db.tasks, db.rows) ==> Ledger(d.tasks, d.rows)
  }

  lemma EmptyCore(cfg: Config)
    ensures Core(cfg, EMPTY) && Ledger(EMPTY.tasks, EMPTY.rows)
  {
    assert OpenGroups(EMPTY) == {};
  }

  lemma SubsetSize(a: set<nat>, b: set<nat>)
    requires a <= b
    ensures |a| <= |b|
  {
    assert b == a + (b - a);
  }

  // ----- Closing a task: completion, failure, and the second expiry.

  /** Replacing one task by another of its group changes no other group's pending tasks. */
  lemma OtherGroupsPending(tasks: map<nat, Task>, k: nat, t: Task, g: nat)
    requires k in tasks && t.group == tasks[k].group && g != t.group
    ensures GroupPending(tasks[k := t], g) <==> GroupPending(tasks, g)
  {
    var after := tasks[k := t];
    if GroupPending(tasks, g) {
      var j :| j in tasks && tasks[j].group == g && Pending(tasks[j]);
      assert after[j] == tasks[j];
    }
    if GroupPending(after, g) {
      var j :| j in after && after[j].group == g && Pending(after[j]);
      assert after[j] == tasks[j];
    }
  }

  lemma CloseKeepsGroups(db: Db, k: nat, closed: Task, payload: Payload, now: int)
    requires Keyed(db) && GroupsAgree(db.tasks, db.groups)
    requires k in db.tasks && Pending(db.tasks[k])
    requires closed.group == db.tasks[k].group && Settled(closed)
    ensures var d := Close(db, k, closed, payload, now);
            GroupsAgree(d.tasks, d.groups) && OpenGroups(d) <= OpenGroups(db)
  {
    var d := Close(db, k, closed, payload, now);
    forall g | g in d.groups
      ensures d.groups[g].status == Finished <==> !GroupPending(d.tasks, g)
      ensures d.groups[g].status == Finished ==> d.groups[g].finishedAt.Some?
      ensures d.groups[g].status != Finished ==> db.groups[g].status != Finished
    {
      if g != closed.group {
        OtherGroupsPending(db.tasks, k, closed, g);
      } else {
        assert GroupPending(db.tasks, g);
      }
    }
  }

  /** The observation is new, so the ledger gains the task and its row and loses nothing. */
  lemma CloseKeepsLedger(tasks: map<nat, Task>, rows: map<nat, Row>, k: nat, closed: Task, payload: Payload)
    requires Ledger(tasks, rows) && UniqueCells(tasks)
    requires k in tasks && Pending(tasks[k])
    requires closed.group == tasks[k].group && closed.cell == tasks[k].cell && Settled(closed)
    requires payload.id !in rows
    ensures Ledger(tasks[k := closed], rows[payload.id := Row(closed.group, closed.cell, payload)])
  {
    var after, filed := tasks[k := closed], rows[payload.id := Row(closed.group, closed.cell, payload)];
    forall o | o in rows
      ensures !FiledFor(rows[o], closed)
      ensures HasSettledTask(after, rows[o])
    {
      assert HasSettledTask(tasks, rows[o]);
      var j :| j in tasks && FiledFor(rows[o], tasks[j]) && Settled(tasks[j]);
      assert j != k && after[j] == tasks[j];
    }
    assert FiledFor(filed[payload.id], closed);
    forall j | j in after && Settled(after[j])
      ensures HasRow(filed, after[j])
    {
      if j == k {
        assert FiledFor(filed[payload.id], after[j]);
      } else {
        assert HasRow(rows, tasks[j]);
        var o :| o in rows && FiledFor(rows[o], tasks[j]);
        assert FiledFor(filed[o], after[j]);
      }
    }
    assert after[k] == closed;
    assert HasSettledTask(after, filed[payload.id]);
  }

  lemma ReplaceKeepsCells(tasks: map<nat, Task>, k: nat, t: Task)
    requires UniqueCells(tasks) && k in tasks
    requires t.group == tasks[k].group && t.cell == tasks[k].cell
    ensures UniqueCells(tasks[k := t])
  {
    var after := tasks[k := t];
    forall i, j | i in after && j in after && after[i].group == after[j].group && after[i].cell == after[j].cell
      ensures i == j
    {
      assert tasks[i].group == after[i].group && tasks[j].group == after[j].group;
      assert tasks[i].cell == after[i].cell && tasks[j].cell == after[j].cell;
    }
  }

  lemma CloseKeepsKeys(db: Db, k: nat, closed: Task, payload: Payload, now: int, uuids: nat)
    requires Keyed(db) && Leased(db.tasks)
    requires k in db.tasks && closed.group == db.tasks[k].group
    requires closed.token == db.tasks[k].token && closed.attempts == db.tasks[k].attempts && Settled(closed)
    requires payload.id < uuids && db.uuids <= uuids
    ensures var d := Close(db, k, closed, payload, now).(uuids := uuids); Keyed(d) && Leased(d.tasks)
  {
    var d := Close(db, k, closed, payload, now);
    assert d.groups.Keys == db.groups.Keys;
    assert Bounded(db.tasks[k]);
    assert Leased(d.tasks);
  }

  lemma CloseKeeps(cfg: Config, db: Db, k: nat, closed: Task, payload: Payload, now: int, uuids: nat)
    requires Core(cfg, db)
    requires k in db.tasks && Pending(db.tasks[k])
    requires closed.group == db.tasks[k].group && closed.cell == db.tasks[k].cell
    requires closed.token == db.tasks[k].token && closed.attempts == db.tasks[k].attempts && Settled(closed)
    requires payload.id < uuids && db.uuids <= uuids
    ensures var d := Close(db, k, closed, payload, now).(uuids := uuids);
            Core(cfg, d) && (payload.id !in db.rows ==> KeepsLedger(db, d))
  {
    var c := Close(db, k, closed, payload, now);
    hide Keyed, UniqueCells, GroupsAgree, Leased, Ledger;
    CloseKeepsKeys(db, k, closed, payload, now, uuids);
    ReplaceKeepsCells(db.tasks, k, closed);
    CloseKeepsGroups(db, k, closed, payload, now);
    if Ledger(db.tasks, db.rows) && payload.id !in db.rows {
      CloseKeepsLedger(db.tasks, db.rows, k, closed, payload);
    }
    SubsetSize(OpenGroups(c), OpenGroups(db));
    assert OpenGroups(c.(uuids := uuids)) == OpenGroups(c);
  }

  // ----- create_group

  lemma {:induction false} CellsAre(lanes: seq<string>, scenarios: seq<string>, c: Cell)
    ensures c in Cells(lanes, scenarios) <==> c.lane in lanes && c.scenario in scenarios
  {
    if lanes != [] {
      var head, tail := CellsOfLane(lanes[0], scenarios), Cells(lanes[1..], scenarios);
      CellsAre(lanes[1..], scenarios, c);
      assert c in head <==> c.lane == lanes[0] && c.scenario in scenarios by {
        if c.lane == lanes[0] && c.scenario in scenarios {
          var i :| 0 <= i < |scenarios| && scenarios[i] == c.scenario;
          assert head[i] == c;
        }
      }
    }
  }

  lemma {:induction false} CellCount(lanes: seq<string>, scenarios: seq<string>)
    ensures |Cells(lanes, scenarios)| == |lanes| * |scenarios|
  {
    if lanes != [] {
      CellCount(lanes[1..], scenarios);
    }
  }

  /** Tasks are laid out lane by lane, and within a lane scenario by scenario. */
  lemma {:induction false} CellsAreLaneMajor(lanes: seq<string>, scenarios: seq<string>, i: nat, j: nat)
    requires i < |lanes| && j < |scenarios|
    ensures i * |scenarios| + j < |Cells(lanes, scenarios)|
    ensures Cells(lanes, scenarios)[i * |scenarios| + j] == Cell(lanes[i], scenarios[j])
  {
    if i > 0 {
      CellsAreLaneMajor(lanes[1..], scenarios, i - 1, j);
      assert i * |scenarios| + j == |scenarios| + ((i - 1) * |scenarios| + j);
    }
  }

  /** A task nobody has worked on yet, of the worker class its scenario needs. */
  predicate IsFresh(defs: seq<Definition>, t: Task, g: nat, cell: Cell, ordinal: nat) {
    && t.group == g && t.cell == cell && t.ordinal == ordinal && t.status == Queued && t.attempts == 0 && t.token.None?
    && ById(defs, cell.scenario).Some? && t.kind == ById(defs, cell.scenario).value.kind
  }

  predicate HoldsFresh(defs: seq<Definition>, tasks: map<nat, Task>, k: int, g: nat, cell: Cell, ordinal: int) {
    0 <= k && 0 <= ordinal && k in tasks && IsFresh(defs, tasks[k], g, cell, ordinal)
  }

  lemma NewTaskIsFresh(defs: seq<Definition>, g: nat, cell: Cell, ordinal: nat)
    requires Known(defs, cell.scenario)
    ensures IsFresh(defs, NewTask(defs, g, cell, ordinal), g, cell, ordinal)
  {
  }

  lemma NewTaskAt(defs: seq<Definition>, tasks: map<nat, Task>, g: nat, cells: seq<Cell>, first: nat, n: nat)
    requires n < |cells| && forall k | k in tasks :: k < first
    ensures var all := tasks + NewTasks(defs, g, cells, first);
            && first + n in all && all[first + n] == NewTask(defs, g, cells[n], n)
            && forall k | k in tasks :: k in all && all[k] == tasks[k]
  {
  }

  lemma CreatedTables(cfg: Config, db: Db, lanes: seq<string>, scenarios: seq<string>, now: int)
    requires Submit(cfg, db, lanes, scenarios, now).1.Created?
    ensures var (d, reply) := Submit(cfg, db, lanes, scenarios, now);
            && reply.group == db.uuids && d.rows == db.rows
            && d.groups == db.groups[db.uuids := Group(Waiting, now, None, None, lanes, scenarios)]
            && d.tasks == db.tasks + NewTasks(cfg.defs, db.uuids, Cells(lanes, scenarios), db.nextTask)
            && forall c | c in Cells(lanes, scenarios) :: Known(cfg.defs, c.scenario)
  {
    hide Cells, NewTasks, Known;
  }

  /**
   A created group is waiting, and holds one fresh queued task for each requested lane and scenario, of
   the scenario's worker class, numbered lane by lane; nothing else changes.
   */
  lemma CreatedGroupHoldsItsCells(cfg: Config, db: Db, lanes: seq<string>, scenarios: seq<string>, now: int, i: nat,
      j: nat)
    requires Keyed(db) && Submit(cfg, db, lanes, scenarios, now).1.Created?
    requires i < |lanes| && j < |scenarios|
    ensures var (d, reply) := Submit(cfg, db, lanes, scenarios, now);
            var ordinal := i * |scenarios| + j;
            && reply.group !in db.groups && reply.group in d.groups
            && d.groups[reply.group].status == Waiting && d.groups[reply.group].createdAt == now
            && HoldsFresh(cfg.defs, d.tasks, db.nextTask + ordinal, reply.group, Cell(lanes[i], scenarios[j]), ordinal)
    ensures var d := Submit(cfg, db, lanes, scenarios, now).0;
            && d.rows == db.rows && (forall k | k in db.tasks :: k in d.tasks && d.tasks[k] == db.tasks[k])
            && (forall g | g in db.groups :: g in d.groups && d.groups[g] == db.groups[g])
  {
    hide Cells, Submit, NewTask, NewTasks, IsFresh, Known;
    var cells, n := Cells(lanes, scenarios), i * |scenarios| + j;
    CellsAreLaneMajor(lanes, scenarios, i, j);
    CreatedTables(cfg, db, lanes, scenarios, now);
    assert cells[n] in cells;
    NewTaskAt(cfg.defs, db.tasks, db.uuids, cells, db.nextTask, n);
    NewTaskIsFresh(cfg.defs, db.uuids, cells[n], n);
  }

  lemma CellsEmpty(lanes: seq<string>, scenarios: seq<string>)
    ensures Cells(lanes, scenarios) == [] <==> lanes == [] || scenarios == []
  {
    CellCount(lanes, scenarios);
  }

  /** No UNIQUE violation can come from lists without repetition. */
  lemma {:induction false} CellsDistinct(lanes: seq<string>, scenarios: seq<string>)
    requires Distinct(lanes) && Distinct(scenarios)
    ensures DistinctCells(Cells(lanes, scenarios))
  {
    if lanes != [] {
      var head, tail := CellsOfLane(lanes[0], scenarios), Cells(lanes[1..], scenarios);
      CellsDistinct(lanes[1..], scenarios);
      forall i, j | 0 <= i < |head| && 0 <= j < |tail|
        ensures head[i] != tail[j]
      {
        CellsAre(lanes[1..], scenarios, tail[j]);
      }
    }
  }

  lemma SubmitKeepsCells(tasks: map<nat, Task>, defs: seq<Definition>, g: nat, cells: seq<Cell>, first: nat)
    requires UniqueCells(tasks) && DistinctCells(cells)
    requires forall k | k in tasks :: tasks[k].group != g && k < first
    ensures UniqueCells(tasks + NewTasks(defs, g, cells, first))
  {
    var added := NewTasks(defs, g, cells, first);
    var after := tasks + added;
    forall i, j | i in after && j in after && after[i].group == after[j].group && after[i].cell == after[j].cell
      ensures i == j
    {
      if i in added && j in added {
        assert cells[i - first] == cells[j - first];
      }
    }
  }

  lemma OlderGroupsPending(tasks: map<nat, Task>, defs: seq<Definition>, g: nat, cells: seq<Cell>, first: nat, h: nat)
    requires h != g && forall k | k in tasks :: k < first
    ensures GroupPending(tasks + NewTasks(defs, g, cells, first), h) <==> GroupPending(tasks, h)
  {
    var after := tasks + NewTasks(defs, g, cells, first);
    if GroupPending(tasks, h) {
      var k :| k in tasks && tasks[k].group == h && Pending(tasks[k]);
      assert after[k] == tasks[k];
    }
    if GroupPending(after, h) {
      var k :| k in after && after[k].group == h && Pending(after[k]);
      assert k in tasks && after[k] == tasks[k];
    }
  }

  lemma SubmitKeepsGroups(tasks: map<nat, Task>, groups: map<nat, Group>, defs: seq<Definition>, g: nat,
                          cells: seq<Cell>, first: nat, row: Group)
    requires GroupsAgree(tasks, groups) && g !in groups && row.status == Waiting
    requires forall k | k in tasks :: tasks[k].group != g && k < first
    ensures GroupsAgree(tasks + NewTasks(defs, g, cells, first), groups[g := row]) <==> cells != []
  {
    var added := NewTasks(defs, g, cells, first);
    var after := tasks + added;
    forall h | h in groups
      ensures GroupPending(after, h) <==> GroupPending(tasks, h)
    {
      OlderGroupsPending(tasks, defs, g, cells, first, h);
    }
    if cells != [] {
      assert first in added && after[first] == added[first];
      assert GroupPending(after, g);
    } else {
      assert !GroupPending(after, g);
      assert g in groups[g := row];
    }
  }

  lemma SubmitKeepsLedger(tasks: map<nat, Task>, rows: map<nat, Row>, defs: seq<Definition>, g: nat,
                          cells: seq<Cell>, first: nat)
    requires Ledger(tasks, rows)
    requires forall k | k in tasks :: k < first
    ensures Ledger(tasks + NewTasks(defs, g, cells, first), rows)
  {
    var after := tasks + NewTasks(defs, g, cells, first);
    forall o | o in rows
      ensures HasSettledTask(after, rows[o])
    {
      assert HasSettledTask(tasks, rows[o]);
      var k :| k in tasks && FiledFor(rows[o], tasks[k]) && Settled(tasks[k]);
      assert after[k] == tasks[k];
    }
    forall k | k in after && Settled(after[k])
      ensures HasRow(rows, after[k])
    {
      assert k in tasks && after[k] == tasks[k];
    }
  }

  lemma SubmitKeepsKeys(cfg: Config, db: Db, lanes: seq<string>, scenarios: seq<string>, now: int)
    requires Keyed(db) && Leased(db.tasks)
    ensures var d := Submit(cfg, db, lanes, scenarios, now).0; Keyed(d) && Leased(d.tasks)
  {
  }

  lemma SubmitKeepsCap(cfg: Config, db: Db, lanes: seq<string>, scenarios: seq<string>, now: int)
    requires Keyed(db) && WithinCap(cfg, db)
    ensures WithinCap(cfg, Submit(cfg, db, lanes, scenarios, now).0)
  {
    var (d, reply) := Submit(cfg, db, lanes, scenarios, now);
    if reply.Created? {
      assert OpenGroups(d) == OpenGroups(db) + {db.uuids};
    }
  }

  /** A created group keeps the queue consistent exactly when it holds at least one cell. */
  lemma SubmitKeeps(cfg: Config, db: Db, lanes: seq<string>, scenarios: seq<string>, now: int)
    requires Core(cfg, db)
    ensures var (d, reply) := Submit(cfg, db, lanes, scenarios, now);
            if reply.Created? then Core(cfg, d) <==> lanes != [] && scenarios != [] else d == db
  {
    SubmitKeepsKeys(cfg, db, lanes, scenarios, now);
    SubmitKeepsCap(cfg, db, lanes, scenarios, now);
    var (d, reply) := Submit(cfg, db, lanes, scenarios, now);
    if reply.Created? {
      var cells, g := Cells(lanes, scenarios), db.uuids;
      var row := Group(Waiting, now, None, None, lanes, scenarios);
      SubmitKeepsCells(db.tasks, cfg.defs, g, cells, db.nextTask);
      SubmitKeepsGroups(db.tasks, db.groups, cfg.defs, g, cells, db.nextTask, row);
      CellsEmpty(lanes, scenarios);
      assert Core(cfg, d) <==> GroupsAgree(d.tasks, d.groups);
    }
  }

  lemma SubmitKeepsRows(cfg: Config, db: Db, lanes: seq<string>, scenarios: seq<string>, now: int)
    requires Keyed(db)
    ensures KeepsLedger(db, Submit(cfg, db, lanes, scenarios, now).0)
  {
    hide Ledger, Cells, NewTasks;
    if Submit(cfg, db, lanes, scenarios, now).1.Created? && Ledger(db.tasks, db.rows) {
      SubmitKeepsLedger(db.tasks, db.rows, cfg.defs, db.uuids, Cells(lanes, scenarios), db.nextTask);
    }
  }

  // ----- claim_task

  /** Leasing or requeueing a pending task: it stays pending, so nothing outside its own row moves. */
  lemma StayPendingKeeps(tasks: map<nat, Task>, groups: map<nat, Group>, rows: map<nat, Row>, k: nat, t: Task)
    requires UniqueCells(tasks) && GroupsAgree(tasks, groups) && Leased(tasks)
    requires k in tasks && Pending(tasks[k]) && Pending(t) && Bounded(t)
    requires t.group == tasks[k].group && t.cell == tasks[k].cell
    ensures var after := tasks[k := t];
            && UniqueCells(after) && GroupsAgree(after, groups) && Leased(after)
            && (Ledger(tasks, rows) ==> Ledger(after, rows))
  {
    var after := tasks[k := t];
    ReplaceKeepsCells(tasks, k, t);
    forall g | g in groups
      ensures GroupPending(after, g) <==> GroupPending(tasks, g)
    {
      if g == t.group {
        assert Pending(after[k]) && Pending(tasks[k]);
      } else {
        OtherGroupsPending(tasks, k, t, g);
      }
    }
    forall o | o in rows && HasSettledTask(tasks, rows[o])
      ensures HasSettledTask(after, rows[o])
    {
      assert HasSettledTask(tasks, rows[o]);
      var j :| j in tasks && FiledFor(rows[o], tasks[j]) && Settled(tasks[j]);
      assert after[j] == tasks[j];
    }
    assert forall j | j in after && Settled(after[j]) :: after[j] == tasks[j];
  }

  lemma ActivateKeeps(db: Db, g: nat, now: int)
    requires GroupsAgree(db.tasks, db.groups) && GroupPending(db.tasks, g)
    ensures var d := Activate(db, g, now); GroupsAgree(d.tasks, d.groups) && OpenGroups(d) == OpenGroups(db)
  {
  }

  lemma ClaimKeepsKeys(db: Db, k: nat, t: Task, now: int)
    requires Keyed(db) && k in db.tasks && t.group == db.tasks[k].group && t.token == Some(db.uuids)
    ensures Keyed(Activate(db.(tasks := db.tasks[k := t], uuids := db.uuids + 1), t.group, now))
  {
  }

  /** A claim moves one queued task and never revives a completed group. */
  lemma ClaimKeeps(cfg: Config, db: Db, worker: string, kind: ExecutionClass, lease: int, build: Option<string>,
      now: int)
    requires Core(cfg, db)
    ensures var (d, claimed) := Claim(db, worker, kind, lease, build, now);
            Core(cfg, d) && KeepsLedger(db, d) && OpenGroups(d) == OpenGroups(db)
  {
    var ids := Claimable(db, kind);
    if ids != {} {
      var k := First(db, ids);
      var t := db.tasks[k];
      var leased := LeasedTask(t, db.uuids, worker, lease, build, now);
      assert Bounded(t);
      assert Pending(t) && Pending(leased) && Bounded(leased);
      StayPendingKeeps(db.tasks, db.groups, db.rows, k, leased);
      var mid := db.(tasks := db.tasks[k := leased], uuids := db.uuids + 1);
      assert mid.tasks[k] == leased;
      assert OpenGroups(mid) == OpenGroups(db);
      ActivateKeeps(mid, t.group, now);
      ClaimKeepsKeys(db, k, leased, now);
    }
  }

  /**
   A claim finds work if and only if a queued task of the worker's class exists. It takes the one
   whose group was created first, then the one with the smallest ordinal, then with the smallest id, under
   a token that no task carries, and leaves every other task alone.
   */
  lemma ClaimTakesTheOldest(cfg: Config, db: Db, worker: string, kind: ExecutionClass, lease: int,
      build: Option<string>, now: int)
    requires Core(cfg, db)
    ensures var (d, claimed) := Claim(db, worker, kind, lease, build, now);
            && (claimed.None? <==>
                  forall k | k in db.tasks :: !(db.tasks[k].status == Queued && db.tasks[k].kind == kind))
            && (claimed.None? ==> d == db)
            && (claimed.Some? ==>
                  var k := claimed.value;
                  && k in db.tasks && db.tasks[k].status == Queued && db.tasks[k].kind == kind
                  && d.tasks.Keys == db.tasks.Keys && d.tasks[k].status == Running
                  && d.tasks[k].token == Some(db.uuids) && d.tasks[k].build == build
                      && d.tasks[k].expiresAt == Some(now + lease)
                  && d.tasks[k].owner == Some(worker) && d.tasks[k].attempts == db.tasks[k].attempts + 1
                  && d.tasks[k].startedAt == (if db.tasks[k].startedAt.Some? then db.tasks[k].startedAt else Some(now))
                  && d.tasks[k].group in d.groups && d.groups[d.tasks[k].group].status == Active
                  && (forall j | j in db.tasks && j != k ::
                        d.tasks[j] == db.tasks[j] && db.tasks[j].token != Some(db.uuids)))
    ensures var claimed := Claim(db, worker, kind, lease, build, now).1;
            claimed.Some? && claimed.value in db.tasks ==>
              var k := claimed.value;
              forall j | j in db.tasks && j != k && db.tasks[j].status == Queued && db.tasks[j].kind == kind ::
                && db.tasks[j].group in db.groups && db.tasks[k].group in db.groups
                && var s, t := db.tasks[k], db.tasks[j];
                   var x, y := db.groups[s.group].createdAt, db.groups[t.group].createdAt;
                   x < y || (x == y && (s.ordinal < t.ordinal || (s.ordinal == t.ordinal && k < j)))
  {
    hide GroupsAgree, UniqueCells, WithinCap;
    var ids := Claimable(db, kind);
    forall k | k in db.tasks && db.tasks[k].status == Queued && db.tasks[k].kind == kind
      ensures k in ids
    {
      assert Bounded(db.tasks[k]);
    }
  }

  // ----- expire_leases

  lemma RequeueKeepsKeys(db: Db, k: nat)
    requires Keyed(db) && k in db.tasks
    ensures Keyed(db.(tasks := db.tasks[k := Requeued(db.tasks[k])]))
  {
  }

  lemma RequeueKeeps(cfg: Config, db: Db, k: nat)
    requires Core(cfg, db) && k in db.tasks && Pending(db.tasks[k]) && db.tasks[k].attempts < MAX_ATTEMPTS
    ensures var d := db.(tasks := db.tasks[k := Requeued(db.tasks[k])]); Core(cfg, d) && KeepsLedger(db, d)
  {
    hide UniqueCells, GroupsAgree, Leased, Ledger, Keyed;
    var d := db.(tasks := db.tasks[k := Requeued(db.tasks[k])]);
    RequeueKeepsKeys(db, k);
    StayPendingKeeps(db.tasks, db.groups, db.rows, k, Requeued(db.tasks[k]));
    assert OpenGroups(d) == OpenGroups(db);
  }

  /** A drawn uuid is new to the observations table. */
  lemma DrawIsNew(cfg: Config, db: Db)
    requires Core(cfg, db)
    ensures db.uuids !in db.rows
  {
    hide UniqueCells, GroupsAgree, Leased;
  }

  lemma AbandonKeeps(cfg: Config, db: Db, k: nat, payload: Payload, now: int)
    requires Core(cfg, db) && k in db.tasks && Pending(db.tasks[k]) && payload.id == db.uuids
    ensures var d := Close(db, k, Abandoned(db.tasks[k], now), payload, now).(uuids := db.uuids + 1);
            Core(cfg, d) && KeepsLedger(db, d)
  {
    DrawIsNew(cfg, db);
    CloseKeeps(cfg, db, k, Abandoned(db.tasks[k], now), payload, now, db.uuids + 1);
  }

  lemma ExpireRowKeeps(cfg: Config, report: Reporter, db: Db, k: nat, now: int)
    requires Core(cfg, db) && Honest(report) && k in db.tasks && Overdue(db.tasks[k], now)
    ensures var d := ExpireRow(report, db, k, now); Core(cfg, d) && KeepsLedger(db, d)
  {
    hide Close, Core, Ledger;
    var t, made := db.tasks[k], report(db.tasks[k].cell, now, db.uuids);
    if t.attempts < MAX_ATTEMPTS {
      RequeueKeeps(cfg, db, k);
    } else if made.Some? {
      assert HonestAt(report, t.cell, now, db.uuids);
      AbandonKeeps(cfg, db, k, made.value, now);
    }
  }

  lemma {:induction false} ExpireBelowKeeps(cfg: Config, report: Reporter, db: Db, n: nat, now: int)
    requires Core(cfg, db) && Honest(report)
    ensures var d := ExpireBelow(report, db, n, now); Core(cfg, d) && KeepsLedger(db, d)
  {
    hide Core, Ledger, ExpireRow;
    if n > 0 {
      ExpireBelowKeeps(cfg, report, db, n - 1, now);
      var d, e := ExpireBelow(report, db, n - 1, now), ExpireBelow(report, db, n, now);
      if n - 1 in d.tasks && Overdue(d.tasks[n - 1], now) {
        ExpireRowKeeps(cfg, report, d, n - 1, now);
        assert e == ExpireRow(report, d, n - 1, now);
      } else {
        assert e == d;
      }
    }
  }

  lemma ExpireKeeps(cfg: Config, report: Reporter, db: Db, now: int)
    requires Core(cfg, db) && Honest(report)
    ensures var d := Expire(report, db, now); Core(cfg, d) && KeepsLedger(db, d)
  {
    ExpireBelowKeeps(cfg, report, db, db.nextTask, now);
  }

  // ----- completion and failure

  lemma CompleteKeeps(cfg: Config, db: Db, k: nat, token: nat, payload: Payload, now: int)
    requires Core(cfg, db) && payload.id < db.uuids
    ensures var d := CompleteLeased(db, k, token, payload, now).0;
            && Core(cfg, d)
            && (payload.id !in db.rows ==> KeepsLedger(db, d))
            && (CompleteLeased(db, k, token, payload, now).1 == Accepted && Ledger(db.tasks, db.rows) ==>
                  (Ledger(d.tasks, d.rows) <==> payload.id !in db.rows))
  {
    if CompleteLeased(db, k, token, payload, now).1 == Accepted {
      hide Core, Ledger, Close;
      var closed := CompletedTask(db.tasks[k], payload, now);
      CloseKeeps(cfg, db, k, closed, payload, now, db.uuids);
      if payload.id in db.rows && Ledger(db.tasks, db.rows) {
        ReplacedRowBreaksLedger(cfg, db, k, closed, payload);
        CloseTables(db, k, closed, payload, now);
      }
    }
  }

  lemma CloseTables(db: Db, k: nat, closed: Task, payload: Payload, now: int)
    ensures var d := Close(db, k, closed, payload, now);
            && d.tasks == db.tasks[k := closed]
            && d.rows == db.rows[payload.id := Row(closed.group, closed.cell, payload)]
  {
  }

  /** The task whose row is replaced is left without its observation. */
  lemma ReplacedRowBreaksLedger(cfg: Config, db: Db, k: nat, closed: Task, payload: Payload)
    requires Core(cfg, db) && Ledger(db.tasks, db.rows) && payload.id in db.rows
    requires k in db.tasks && Pending(db.tasks[k])
    requires closed.group == db.tasks[k].group && closed.cell == db.tasks[k].cell
    ensures !Ledger(db.tasks[k := closed], db.rows[payload.id := Row(closed.group, closed.cell, payload)])
  {
    hide GroupsAgree, Leased, WithinCap, Keyed;
    var o := payload.id;
    var after, filed := db.tasks[k := closed], db.rows[o := Row(closed.group, closed.cell, payload)];
    assert HasSettledTask(db.tasks, db.rows[o]);
    var j :| j in db.tasks && FiledFor(db.rows[o], db.tasks[j]) && Settled(db.tasks[j]);
    assert j != k && after[j] == db.tasks[j];
    assert !HasRow(filed, after[j]);
  }

  lemma FailKeeps(cfg: Config, report: Reporter, db: Db, k: nat, token: nat, error: string, now: int)
    requires Core(cfg, db) && Honest(report)
    ensures var d := FailLeased(report, db, k, token, error, now).0; Core(cfg, d) && KeepsLedger(db, d)
  {
    if FailLeased(report, db, k, token, error, now).1 == Accepted {
      var t := db.tasks[k];
      assert HonestAt(report, t.cell, now, db.uuids);
      var payload := report(t.cell, now, db.uuids).value;
      CloseKeeps(cfg, db, k, FailedTask(t, token, error, now), payload, now, db.uuids + 1);
    }
  }

  // ----- prune

  lemma DeleteKeepsLedger(db: Db, doomed: set<nat>)
    ensures KeepsLedger(db, DeleteGroups(db, doomed))
  {
    hide HasRow, HasSettledTask, Settled;
    var d := DeleteGroups(db, doomed);
    if Ledger(db.tasks, db.rows) {
      forall o | o in d.rows
        ensures HasSettledTask(d.tasks, d.rows[o])
      {
        assert HasSettledTask(db.tasks, db.rows[o]);
        SurvivingRow(db, doomed, o);
      }
      forall k | k in d.tasks && Settled(d.tasks[k])
        ensures HasRow(d.rows, d.tasks[k])
      {
        assert HasRow(db.rows, db.tasks[k]);
        SurvivingTask(db, doomed, k);
      }
    }
  }

  lemma SurvivingRow(db: Db, doomed: set<nat>, o: nat)
    requires o in DeleteGroups(db, doomed).rows && HasSettledTask(db.tasks, db.rows[o])
    ensures HasSettledTask(DeleteGroups(db, doomed).tasks, db.rows[o])
  {
    var d := DeleteGroups(db, doomed);
    var k :| k in db.tasks && FiledFor(db.rows[o], db.tasks[k]) && Settled(db.tasks[k]);
    assert d.tasks[k] == db.tasks[k];
  }

  lemma SurvivingTask(db: Db, doomed: set<nat>, k: nat)
    requires k in DeleteGroups(db, doomed).tasks && HasRow(db.rows, db.tasks[k])
    ensures HasRow(DeleteGroups(db, doomed).rows, db.tasks[k])
  {
    var d := DeleteGroups(db, doomed);
    var o :| o in db.rows && FiledFor(db.rows[o], db.tasks[k]);
    assert d.rows[o] == db.rows[o];
  }

  lemma DeleteKeepsGroups(db: Db, doomed: set<nat>)
    requires GroupsAgree(db.tasks, db.groups)
    ensures var d := DeleteGroups(db, doomed); GroupsAgree(d.tasks, d.groups)
  {
    var d := DeleteGroups(db, doomed);
    forall g | g in d.groups
      ensures GroupPending(d.tasks, g) <==> GroupPending(db.tasks, g)
    {
      if GroupPending(db.tasks, g) {
        var k :| k in db.tasks && db.tasks[k].group == g && Pending(db.tasks[k]);
        assert d.tasks[k] == db.tasks[k];
      }
      if GroupPending(d.tasks, g) {
        var k :| k in d.tasks && d.tasks[k].group == g && Pending(d.tasks[k]);
        assert d.tasks[k] == db.tasks[k];
      }
    }
  }

  lemma DeleteKeepsTables(db: Db, doomed: set<nat>)
    requires Keyed(db) && UniqueCells(db.tasks) && Leased(db.tasks)
    ensures var d := DeleteGroups(db, doomed); Keyed(d) && UniqueCells(d.tasks) && Leased(d.tasks)
  {
    var d := DeleteGroups(db, doomed);
    assert forall k | k in d.tasks :: k in db.tasks && d.tasks[k] == db.tasks[k];
  }

  /** Deleting complete groups, whichever they are, leaves the open groups alone. */
  lemma DeleteKeeps(cfg: Config, db: Db, doomed: set<nat>)
    requires Core(cfg, db) && doomed <= FinishedGroups(db)
    ensures var d := DeleteGroups(db, doomed); Core(cfg, d) && KeepsLedger(db, d) && OpenGroups(d) == OpenGroups(db)
  {
    hide UniqueCells, GroupsAgree, Leased, Ledger, Keyed;
    DeleteKeepsGroups(db, doomed);
    DeleteKeepsTables(db, doomed);
    DeleteKeepsLedger(db, doomed);
    assert OpenGroups(DeleteGroups(db, doomed)) == OpenGroups(db);
  }

  // ----- The ledger as a count.

  function SettledTasks(tasks: map<nat, Task>): set<nat> {
    set k | k in tasks && Settled(tasks[k])
  }

  /** The settled task an observation was filed for. */
  ghost function Filer(db: Db, o: nat): (k: nat)
    requires o in db.rows && Ledger(db.tasks, db.rows)
    ensures k in db.tasks && FiledFor(db.rows[o], db.tasks[k]) && Settled(db.tasks[k])
  {
    assert HasSettledTask(db.tasks, db.rows[o]);
    var k :| k in db.tasks && FiledFor(db.rows[o], db.tasks[k]) && Settled(db.tasks[k]);
    k
  }

  /** An injective relation between two finite sets that covers both makes them equally large. */
  lemma {:induction false} InjectiveSize(m: map<nat, nat>, image: set<nat>)
    requires forall o, p | o in m && p in m && m[o] == m[p] :: o == p
    requires forall k :: k in image <==> exists o | o in m :: m[o] == k
    ensures |image| == |m|
    decreases |m|
  {
    if m.Keys == {} {
      assert m == map[];
    } else {
      var o :| o in m;
      var rest := m - {o};
      assert |rest| == |m| - 1 by {
        assert rest.Keys == m.Keys - {o};
      }
      forall k
        ensures k in image - {m[o]} <==> exists p | p in rest :: rest[p] == k
      {
        if k in image - {m[o]} {
          var p :| p in m && m[p] == k;
          assert p in rest && rest[p] == k;
        }
        if p :| p in rest && rest[p] == k {
          assert p in m && m[p] == k;
        }
      }
      InjectiveSize(rest, image - {m[o]});
    }
  }

  /** Conservation: there are as many stored observations as complete and unknown tasks. */
  lemma ObservationsCountSettledTasks(db: Db)
    requires UniqueCells(db.tasks) && Ledger(db.tasks, db.rows)
    ensures |db.rows| == |SettledTasks(db.tasks)|
  {
    var filers := map o | o in db.rows :: Filer(db, o);
    forall o, p | o in filers && p in filers && filers[o] == filers[p]
      ensures o == p
    {
      assert FiledFor(db.rows[o], db.tasks[filers[o]]) && FiledFor(db.rows[p], db.tasks[filers[o]]);
    }
    forall k | k in SettledTasks(db.tasks)
      ensures exists o | o in filers :: filers[o] == k
    {
      assert HasRow(db.rows, db.tasks[k]);
      var o :| o in db.rows && FiledFor(db.rows[o], db.tasks[k]);
      assert FiledFor(db.rows[o], db.tasks[filers[o]]);
      assert filers[o] == k;
    }
    InjectiveSize(filers, SettledTasks(db.tasks));
    assert db.rows.Keys == filers.Keys;
    assert |db.rows| == |db.rows.Keys| && |filers| == |filers.Keys|;
  }
}
