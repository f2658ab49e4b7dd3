/**
 Restart recovery (`Store.recover` and its helpers): un-leased running tasks are closed as unknown,
 groups without a live lease go back to the queue, legacy rows are repaired, queued work of removed
 lanes and duplicate queued cells are superseded, and emptied groups complete.
 */
module Recovery {
  import opened Wrappers
  import opened Catalog
  import opened Lanes
  import opened Provenance
  import opened Queue
  import opened QueueInvariants

  /** One row of the provenance repair, with lanes and catalogue fixed inside; None stands for an exception. */
  type Repairer = (Cell, Payload) -> Option<Payload>

  predicate RepairsOnlyProvenance(repair: Repairer, cell: Cell, o: Payload) {
    repair(cell, o).Some? ==>
      && SameEvidence(o, repair(cell, o).value)
      && repair(cell, repair(cell, o).value) == repair(cell, o)
  }

  /** Evidence survives the repair, and a repaired row needs none. */
  ghost predicate Steady(repair: Repairer) {
    forall cell, o :: RepairsOnlyProvenance(repair, cell, o)
  }

  /** Rows of removed lanes or unknown scenarios are left alone. */
  function RepairerFor(defs: seq<Definition>, lanes: map<string, Descriptor>, build: string): Repairer {
    (cell: Cell, o: Payload) =>
      if cell.lane in lanes && Known(defs, cell.scenario)
      then Repair(defs, o, lanes[cell.lane], cell.scenario, build)
      else Some(o)
  }

  /** The descriptors are the published ones of loaded lanes. */
  ghost predicate Published(defs: seq<Definition>, lanes: map<string, Descriptor>) {
    forall id | id in lanes :: exists lane: Lane :: Loaded(defs, lane) && Public(defs, lane) == lanes[id]
  }

  lemma RepairerIsSteady(defs: seq<Definition>, lanes: map<string, Descriptor>, build: string)
    requires WellFormed(defs) && Published(defs, lanes)
    ensures Steady(RepairerFor(defs, lanes, build))
    ensures forall cell, o :: RepairerFor(defs, lanes, build)(cell, o).Some?
  {
    var repair := RepairerFor(defs, lanes, build);
    forall cell: Cell, o: Payload
      ensures RepairsOnlyProvenance(repair, cell, o) && repair(cell, o).Some?
    {
      if cell.lane in lanes && Known(defs, cell.scenario) {
        var lane: Lane :| Loaded(defs, lane) && Public(defs, lane) == lanes[cell.lane];
        RepairIsIdempotent(defs, lane, cell.scenario, o, build, build);
      }
    }
  }

  predicate Unleased(t: Task) {
    t.status == Running && t.token.None?
  }

  predicate LiveLease(t: Task) {
    t.status == Running && t.token.Some?
  }

  function Interrupted(t: Task, now: int): Task {
    t.(status := Unknown, finishedAt := Some(now), error := Some("observer restarted during embedded probe"))
  }

  function CloseUnleasedRow(report: Reporter, db: Db, k: nat, now: int): Db
    requires k in db.tasks
  {
    var t := db.tasks[k];
    match report(t.cell, now, db.uuids)
    case None => db
    case Some(payload) =>
      db.(tasks := db.tasks[k := Interrupted(t, now)],
          rows := db.rows[payload.id := Row(t.group, t.cell, payload)],
          uuids := db.uuids + 1)
  }

  /** The un-leased running rows with id below n, in id order. */
  function CloseUnleasedBelow(report: Reporter, db: Db, n: nat, now: int): Db {
    if n == 0 then db
    else
      var d := CloseUnleasedBelow(report, db, n - 1, now);
      if n - 1 in d.tasks && Unleased(d.tasks[n - 1]) then CloseUnleasedRow(report, d, n - 1, now) else d
  }

  predicate HasLiveLease(tasks: map<nat, Task>, g: nat) {
    exists k | k in tasks :: tasks[k].group == g && LiveLease(tasks[k])
  }

  function ResetGroups(tasks: map<nat, Task>, groups: map<nat, Group>): map<nat, Group> {
    map g | g in groups ::
      if groups[g].status == Active && !HasLiveLease(tasks, g)
      then groups[g].(status := Waiting, startedAt := None) else groups[g]
  }

  function RepairRow(repair: Repairer, r: Row): Row {
    r.(payload := repair(r.cell, r.payload).GetOr(r.payload))
  }

  function RepairRows(repair: Repairer, rows: map<nat, Row>): map<nat, Row> {
    map o | o in rows :: RepairRow(repair, rows[o])
  }

  function SupersededTask(t: Task, reason: string, now: int): Task {
    t.(status := Superseded, finishedAt := Some(now), error := Some(reason))
  }

  const REMOVED := "lane removed from evaluator allowlist"
  const DUPLICATE := "duplicate pending scheduler cell"

  predicate Removed(t: Task, configured: set<string>) {
    t.status == Queued && t.cell.lane !in configured
  }

  function DropRemoved(tasks: map<nat, Task>, configured: set<string>, now: int): map<nat, Task> {
    map k | k in tasks :: if Removed(tasks[k], configured) then SupersededTask(tasks[k], REMOVED, now) else tasks[k]
  }

  predicate PendingIn(db: Db, k: nat) {
    k in db.tasks && db.tasks[k].group in db.groups && Pending(db.tasks[k])
  }

  /** An older queued or running copy of the cell exists. */
  predicate HasElder(db: Db, k: nat) {
    && PendingIn(db, k)
    && exists j | j in db.tasks :: PendingIn(db, j) && db.tasks[j].cell == db.tasks[k].cell && Before(db, j, k)
  }

  function DropDuplicates(db: Db, now: int): map<nat, Task> {
    map k | k in db.tasks ::
      if db.tasks[k].status == Queued && HasElder(db, k)
      then SupersededTask(db.tasks[k], DUPLICATE, now) else db.tasks[k]
  }

  function FinishEmpty(tasks: map<nat, Task>, groups: map<nat, Group>, now: int): map<nat, Group> {
    map g | g in groups ::
      if groups[g].status == Waiting && !GroupPending(tasks, g)
      then groups[g].(status := Finished, finishedAt := Some(now)) else groups[g]
  }

  /** The transaction raises when lost work cannot be reported or a legacy row cannot be upgraded. */
  predicate RecoveryRaises(report: Reporter, repair: Repairer, db: Db) {
    || (exists k | k in db.tasks :: Unleased(db.tasks[k]) && report(db.tasks[k].cell, 0, 0).None?)
    || (exists o | o in db.rows :: repair(db.rows[o].cell, db.rows[o].payload).None?)
  }

  /** After the rows are closed and repaired and the groups reset. */
  function Reopened(report: Reporter, repair: Repairer, db: Db, now: int): Db {
    var s := CloseUnleasedBelow(report, db, db.nextTask, now);
    s.(groups := ResetGroups(s.tasks, s.groups), rows := RepairRows(repair, s.rows))
  }

  /** After queued work of removed lanes is superseded too. */
  function Allowed(report: Reporter, repair: Repairer, configured: set<string>, db: Db, now: int): Db {
    var s := Reopened(report, repair, db, now);
    s.(tasks := DropRemoved(s.tasks, configured, now))
  }

  function Deduplicated(db: Db, now: int): Db {
    var tasks := DropDuplicates(db, now);
    db.(tasks := tasks, groups := FinishEmpty(tasks, db.groups, now))
  }

  function Recover(report: Reporter, repair: Repairer, configured: set<string>, db: Db, now: int): Db {
    if RecoveryRaises(report, repair, db) then db
    else Deduplicated(Allowed(report, repair, configured, db, now), now)
  }

  // ----- Closing the un-leased rows.

  /** What closing the rows below n does: only un-leased rows move, each gains exactly one new observation. */
  predicate ClosedBelow(db: Db, d: Db, n: nat, now: int) {
    && d.groups == db.groups && d.nextTask == db.nextTask && d.tasks.Keys == db.tasks.Keys
    && (forall k | k in db.tasks ::
          d.tasks[k] == (if k < n && Unleased(db.tasks[k]) then Interrupted(db.tasks[k], now) else db.tasks[k]))
    && db.rows.Keys <= d.rows.Keys && db.uuids <= d.uuids
    && (forall o | o in db.rows :: d.rows[o] == db.rows[o])
    && (forall o | o in d.rows && o !in db.rows :: db.uuids <= o < d.uuids && IsReport(d.rows[o].payload, now, o))
  }

  lemma CloseUnleasedRowShape(report: Reporter, d: Db, k: nat, now: int)
    requires Honest(report) && k in d.tasks && report(d.tasks[k].cell, 0, 0).Some?
    ensures var e := CloseUnleasedRow(report, d, k, now);
            && e.tasks == d.tasks[k := Interrupted(d.tasks[k], now)]
            && e.groups == d.groups && e.nextTask == d.nextTask && e.uuids == d.uuids + 1
            && d.uuids in e.rows && e.rows == d.rows[d.uuids := e.rows[d.uuids]]
            && IsReport(e.rows[d.uuids].payload, now, d.uuids)
  {
    assert HonestAt(report, d.tasks[k].cell, now, d.uuids);
  }

  lemma ClosedNoMore(db: Db, d: Db, n: nat, now: int)
    requires 0 < n && ClosedBelow(db, d, n - 1, now)
    requires n - 1 in d.tasks ==> !Unleased(d.tasks[n - 1])
    ensures ClosedBelow(db, d, n, now)
  {
  }

  lemma ClosedOneMore(db: Db, d: Db, e: Db, n: nat, now: int)
    requires 0 < n && ClosedBelow(db, d, n - 1, now) && n - 1 in d.tasks && Unleased(db.tasks[n - 1])
    requires forall o | o in db.rows :: o < db.uuids
    requires e.tasks == d.tasks[n - 1 := Interrupted(db.tasks[n - 1], now)]
    requires e.groups == d.groups && e.nextTask == d.nextTask && e.uuids == d.uuids + 1
    requires d.uuids in e.rows && e.rows == d.rows[d.uuids := e.rows[d.uuids]]
    requires IsReport(e.rows[d.uuids].payload, now, d.uuids)
    ensures ClosedBelow(db, e, n, now)
  {
    assert d.uuids !in d.rows;
    forall o | o in e.rows && o !in db.rows
      ensures db.uuids <= o < e.uuids && IsReport(e.rows[o].payload, now, o)
    {
      assert o == d.uuids || o in d.rows;
    }
  }

  lemma {:induction false} CloseUnleasedExact(report: Reporter, db: Db, n: nat, now: int)
    requires Honest(report)
    requires forall o | o in db.rows :: o < db.uuids
    requires forall k | k in db.tasks && Unleased(db.tasks[k]) :: report(db.tasks[k].cell, 0, 0).Some?
    ensures ClosedBelow(db, CloseUnleasedBelow(report, db, n, now), n, now)
  {
    if n > 0 {
      CloseUnleasedExact(report, db, n - 1, now);
      var d, e := CloseUnleasedBelow(report, db, n - 1, now), CloseUnleasedBelow(report, db, n, now);
      if n - 1 in d.tasks && Unleased(d.tasks[n - 1]) {
        assert d.tasks[n - 1] == db.tasks[n - 1];
        CloseUnleasedRowShape(report, d, n - 1, now);
        ClosedOneMore(db, d, e, n, now);
      } else {
        ClosedNoMore(db, d, n, now);
      }
    }
  }

  lemma {:induction false} NothingUnleased(report: Reporter, db: Db, n: nat, now: int)
    requires forall k | k in db.tasks :: !Unleased(db.tasks[k])
    ensures CloseUnleasedBelow(report, db, n, now) == db
  {
    if n > 0 {
      NothingUnleased(report, db, n - 1, now);
    }
  }

  // ----- Deduplication.

  /** The oldest pending copy of a cell is never superseded, so the cell stays pending. */
  lemma ElderSurvives(db: Db, k: nat, now: int)
    requires PendingIn(db, k)
    ensures exists j | j in db.tasks ::
              PendingIn(db, j) && db.tasks[j].cell == db.tasks[k].cell && DropDuplicates(db, now)[j] == db.tasks[j]
  {
    var ids := set j | j in db.tasks && PendingIn(db, j) && db.tasks[j].cell == db.tasks[k].cell;
    assert k in ids && Joined(db, ids);
    var first := First(db, ids);
    assert !HasElder(db, first) by {
      forall j | j in db.tasks && PendingIn(db, j) && db.tasks[j].cell == db.tasks[first].cell
        ensures !Before(db, j, first)
      {
        assert j in ids;
      }
    }
    assert DropDuplicates(db, now)[first] == db.tasks[first];
  }

  /** At most one queued copy of a cell is left, and it is older than every other pending copy. */
  lemma QueuedSurvivorIsOldest(db: Db, j: nat, k: nat, now: int)
    requires PendingIn(db, j) && PendingIn(db, k) && j != k && db.tasks[j].cell == db.tasks[k].cell
    requires DropDuplicates(db, now)[k].status == Queued
    ensures Before(db, k, j)
    ensures DropDuplicates(db, now)[j].status != Queued
  {
    assert !HasElder(db, k);
    assert !Before(db, j, k);
    assert Before(db, k, j);
    assert HasElder(db, j);
  }

  // ----- Recovery as a whole.

  predicate Recoverable(report: Reporter, repair: Repairer, db: Db) {
    && Keyed(db) && !RecoveryRaises(report, repair, db)
  }

  /** What recovery makes of one task, given the state with the queued work of removed lanes gone. */
  lemma RecoveredTask(report: Reporter, repair: Repairer, configured: set<string>, db: Db, now: int, k: nat)
    requires Honest(report) && Recoverable(report, repair, db) && k in db.tasks
    ensures var s := Allowed(report, repair, configured, db, now);
            var d := Recover(report, repair, configured, db, now);
            var t := db.tasks[k];
            && s.tasks.Keys == d.tasks.Keys == db.tasks.Keys && s.groups.Keys == db.groups.Keys
            && s.tasks[k] == (if Unleased(t) then Interrupted(t, now)
                              else if Removed(t, configured) then SupersededTask(t, REMOVED, now) else t)
            && d.tasks == DropDuplicates(s, now)
            && d.tasks[k] == (if s.tasks[k].status == Queued && HasElder(s, k)
                              then SupersededTask(t, DUPLICATE, now) else s.tasks[k])
  {
    CloseUnleasedExact(report, db, db.nextTask, now);
  }

  /** Lost work becomes unknown, superseded work is superseded, and everything else is as it was. */
  lemma RecoveredStatus(report: Reporter, repair: Repairer, configured: set<string>, db: Db, now: int, k: nat)
    requires Honest(report) && Recoverable(report, repair, db) && k in db.tasks
    ensures var s, d, t := Allowed(report, repair, configured, db, now), Recover(report, repair, configured, db,
        now), db.tasks[k];
            && k in d.tasks && d.tasks[k].cell == t.cell && d.tasks[k].group == t.group
            && (if Unleased(t) then d.tasks[k].status == Unknown && d.tasks[k].finishedAt == Some(now)
                else if t.status == Queued && (t.cell.lane !in configured || HasElder(s, k)) then
                  d.tasks[k].status == Superseded && d.tasks[k].finishedAt == Some(now)
                else d.tasks[k] == t)
  {
    RecoveredTask(report, repair, configured, db, now, k);
  }

  /** A report of this restart for the task is stored. */
  predicate HasReport(rows: map<nat, Row>, t: Task, now: int) {
    exists o | o in rows :: FiledFor(rows[o], t) && IsReport(rows[o].payload, now, o)
  }

  lemma ReportStays(report: Reporter, d: Db, k: nat, now: int, t: Task)
    requires Honest(report) && k in d.tasks && report(d.tasks[k].cell, 0, 0).Some?
    requires HasReport(d.rows, t, now) && forall o | o in d.rows :: o < d.uuids
    ensures HasReport(CloseUnleasedRow(report, d, k, now).rows, t, now)
  {
    hide CloseUnleasedRow;
    CloseUnleasedRowShape(report, d, k, now);
    var o :| o in d.rows && FiledFor(d.rows[o], t) && IsReport(d.rows[o].payload, now, o);
    assert CloseUnleasedRow(report, d, k, now).rows[o] == d.rows[o];
  }

  lemma ReportIsFiled(report: Reporter, d: Db, k: nat, now: int)
    requires Honest(report) && k in d.tasks && report(d.tasks[k].cell, 0, 0).Some?
    ensures HasReport(CloseUnleasedRow(report, d, k, now).rows, d.tasks[k], now)
  {
    assert HonestAt(report, d.tasks[k].cell, now, d.uuids);
    var e := CloseUnleasedRow(report, d, k, now);
    assert FiledFor(e.rows[d.uuids], d.tasks[k]);
  }

  /** Every un-leased running row that is closed gets its observation. */
  lemma {:induction false} LostWorkIsReported(report: Reporter, db: Db, n: nat, now: int, k: nat)
    requires Honest(report) && k < n && k in db.tasks && Unleased(db.tasks[k])
    requires forall o | o in db.rows :: o < db.uuids
    requires forall j | j in db.tasks && Unleased(db.tasks[j]) :: report(db.tasks[j].cell, 0, 0).Some?
    ensures HasReport(CloseUnleasedBelow(report, db, n, now).rows, db.tasks[k], now)
  {
    hide CloseUnleasedRow, HasReport;
    CloseUnleasedExact(report, db, n - 1, now);
    var d := CloseUnleasedBelow(report, db, n - 1, now);
    if k < n - 1 {
      LostWorkIsReported(report, db, n - 1, now, k);
      if n - 1 in d.tasks && Unleased(d.tasks[n - 1]) {
        ReportStays(report, d, n - 1, now, db.tasks[k]);
      }
    } else {
      ReportIsFiled(report, d, k, now);
    }
  }

  /** After a restart every un-leased running task has an `unknown` observation of this restart. */
  lemma RecoveryReportsLostWork(report: Reporter, repair: Repairer, configured: set<string>, db: Db, now: int, k: nat)
    requires Honest(report) && Steady(repair) && Recoverable(report, repair, db) && k in db.tasks
        && Unleased(db.tasks[k])
    ensures HasReport(Recover(report, repair, configured, db, now).rows, db.tasks[k], now)
  {
    hide CloseUnleasedBelow;
    LostWorkIsReported(report, db, db.nextTask, now, k);
    var closed := CloseUnleasedBelow(report, db, db.nextTask, now);
    var o :| o in closed.rows && FiledFor(closed.rows[o], db.tasks[k]) && IsReport(closed.rows[o].payload, now, o);
    assert RepairsOnlyProvenance(repair, closed.rows[o].cell, closed.rows[o].payload);
    var d := Recover(report, repair, configured, db, now);
    assert d.rows == RepairRows(repair, closed.rows);
    assert FiledFor(d.rows[o], db.tasks[k]) && IsReport(d.rows[o].payload, now, o);
  }

  /** Running leases and finished tasks are untouched. */
  lemma RecoveryKeepsLeases(report: Reporter, repair: Repairer, configured: set<string>, db: Db, now: int, k: nat)
    requires Honest(report) && Recoverable(report, repair, db)
    requires k in db.tasks && (LiveLease(db.tasks[k]) || Terminal(db.tasks[k]))
    ensures var d := Recover(report, repair, configured, db, now);
            k in d.tasks && d.tasks[k] == db.tasks[k]
  {
    RecoveredTask(report, repair, configured, db, now, k);
  }

  /** A cell of a configured lane that was pending, other than through an un-leased running row, is pending still. */
  lemma RecoveryKeepsPendingCells(report: Reporter, repair: Repairer, configured: set<string>, db: Db, now: int, k: nat)
    requires Honest(report) && Recoverable(report, repair, db)
    requires k in db.tasks && Pending(db.tasks[k]) && !Unleased(db.tasks[k])
    requires db.tasks[k].cell.lane in configured
    ensures db.tasks[k].cell in PendingCells(Recover(report, repair, configured, db, now))
  {
    var s := Allowed(report, repair, configured, db, now);
    var d := Recover(report, repair, configured, db, now);
    RecoveredTask(report, repair, configured, db, now, k);
    ElderSurvives(s, k, now);
    var j :| j in s.tasks && PendingIn(s, j) && s.tasks[j].cell == s.tasks[k].cell
             && DropDuplicates(s, now)[j] == s.tasks[j];
    assert d.tasks[j].cell == db.tasks[k].cell && Pending(d.tasks[j]);
  }

  /** Everything `ORDER BY g.created_at, t.ordinal, t.id` looks at is the same in both states. */
  predicate SameAges(db: Db, s: Db) {
    && s.tasks.Keys == db.tasks.Keys && s.groups.Keys == db.groups.Keys
    && (forall k | k in db.tasks :: s.tasks[k].group == db.tasks[k].group && s.tasks[k].ordinal == db.tasks[k].ordinal)
    && (forall g | g in db.groups :: s.groups[g].createdAt == db.groups[g].createdAt)
  }

  lemma AllowedKeepsAges(report: Reporter, repair: Repairer, configured: set<string>, db: Db, now: int)
    requires Honest(report) && Recoverable(report, repair, db)
    ensures SameAges(db, Allowed(report, repair, configured, db, now))
  {
    CloseUnleasedExact(report, db, db.nextTask, now);
  }

  /** Recovery does not change which of two tasks is the older one. */
  lemma SameAge(db: Db, s: Db, j: nat, k: nat)
    requires SameAges(db, s) && j in db.tasks && k in db.tasks
    requires db.tasks[j].group in db.groups && db.tasks[k].group in db.groups
    ensures s.tasks[j].group in s.groups && s.tasks[k].group in s.groups
    ensures Before(s, j, k) <==> Before(db, j, k)
  {
  }

  /**
   After recovery a cell has at most one queued task. Its group was created before that of any other
   pending copy of the cell, or at the same time and its ordinal, or then its id, is smaller.
   */
  lemma RecoveryLeavesOldestQueued(report: Reporter, repair: Repairer, configured: set<string>, db: Db, now: int,
      j: nat, k: nat)
    requires Honest(report) && Recoverable(report, repair, db)
    requires j in db.tasks && k in db.tasks && j != k && db.tasks[j].cell == db.tasks[k].cell
    requires var d := Recover(report, repair, configured, db, now);
             k in d.tasks && d.tasks[k].status == Queued
    requires Pending(db.tasks[j]) && !Unleased(db.tasks[j])
    ensures db.tasks[k] == Recover(report, repair, configured, db, now).tasks[k]
    ensures db.tasks[k].cell.lane in configured
    ensures db.tasks[j].group in db.groups && db.tasks[k].group in db.groups
    ensures var s, t := db.tasks[k], db.tasks[j];
            var x, y := db.groups[s.group].createdAt, db.groups[t.group].createdAt;
            x < y || (x == y && (s.ordinal < t.ordinal || (s.ordinal == t.ordinal && k < j)))
    ensures var d := Recover(report, repair, configured, db, now);
            j in d.tasks && d.tasks[j].status != Queued
  {
    var s := Allowed(report, repair, configured, db, now);
    RecoveredTask(report, repair, configured, db, now, j);
    RecoveredTask(report, repair, configured, db, now, k);
    AllowedKeepsAges(report, repair, configured, db, now);
    SameAge(db, s, k, j);
    assert s.tasks[k] == db.tasks[k] && db.tasks[k].cell.lane in configured;
    assert s.tasks[j] == db.tasks[j];
    QueuedSurvivorIsOldest(s, j, k, now);
  }

  /** Stored evidence is never changed or lost; every added row is an `unknown` report of this very restart. */
  lemma RecoveryKeepsEvidence(report: Reporter, repair: Repairer, configured: set<string>, db: Db, now: int, o: nat)
    requires Honest(report) && Steady(repair) && Recoverable(report, repair, db)
    ensures var d := Recover(report, repair, configured, db, now);
            && (o in db.rows ==>
                  && o in d.rows && d.rows[o].group == db.rows[o].group && d.rows[o].cell == db.rows[o].cell
                  && SameEvidence(db.rows[o].payload, d.rows[o].payload))
            && (o in d.rows && o !in db.rows ==> IsReport(d.rows[o].payload, now, o))
  {
    var closed := CloseUnleasedBelow(report, db, db.nextTask, now);
    CloseUnleasedExact(report, db, db.nextTask, now);
    if o in closed.rows {
      assert RepairsOnlyProvenance(repair, closed.rows[o].cell, closed.rows[o].payload);
    }
  }

  lemma DropRemovedGroups(tasks: map<nat, Task>, configured: set<string>, now: int, g: nat)
    ensures GroupPending(DropRemoved(tasks, configured, now), g) ==> GroupPending(tasks, g)
    ensures HasLiveLease(tasks, g) ==> GroupPending(DropRemoved(tasks, configured, now), g)
    ensures HasLiveLease(DropRemoved(tasks, configured, now), g) <==> HasLiveLease(tasks, g)
  {
    var after := DropRemoved(tasks, configured, now);
    if GroupPending(after, g) {
      var k :| k in after && after[k].group == g && Pending(after[k]);
      assert tasks[k] == after[k];
    }
    if HasLiveLease(tasks, g) {
      var k :| k in tasks && tasks[k].group == g && LiveLease(tasks[k]);
      assert tasks[k] == after[k] && Pending(after[k]);
    }
    if HasLiveLease(after, g) {
      var k :| k in after && after[k].group == g && LiveLease(after[k]);
      assert tasks[k] == after[k];
    }
  }

  lemma DropDuplicatesGroups(db: Db, now: int, g: nat)
    ensures GroupPending(DropDuplicates(db, now), g) ==> GroupPending(db.tasks, g)
    ensures HasLiveLease(db.tasks, g) ==> GroupPending(DropDuplicates(db, now), g)
    ensures HasLiveLease(DropDuplicates(db, now), g) <==> HasLiveLease(db.tasks, g)
  {
    var after := DropDuplicates(db, now);
    if GroupPending(after, g) {
      var k :| k in after && after[k].group == g && Pending(after[k]);
      assert db.tasks[k] == after[k];
    }
    if HasLiveLease(db.tasks, g) {
      var k :| k in db.tasks && db.tasks[k].group == g && LiveLease(db.tasks[k]);
      assert db.tasks[k] == after[k] && Pending(after[k]);
    }
    if HasLiveLease(after, g) {
      var k :| k in after && after[k].group == g && LiveLease(after[k]);
      assert db.tasks[k] == after[k];
    }
  }

  lemma CloseUnleasedGroups(report: Reporter, db: Db, now: int, g: nat)
    requires Honest(report) && Keyed(db)
    requires forall k | k in db.tasks && Unleased(db.tasks[k]) :: report(db.tasks[k].cell, 0, 0).Some?
    ensures var s := CloseUnleasedBelow(report, db, db.nextTask, now);
            && (GroupPending(s.tasks, g) ==> GroupPending(db.tasks, g))
            && (HasLiveLease(s.tasks, g) <==> HasLiveLease(db.tasks, g))
  {
    var s := CloseUnleasedBelow(report, db, db.nextTask, now);
    CloseUnleasedExact(report, db, db.nextTask, now);
    if GroupPending(s.tasks, g) {
      var k :| k in s.tasks && s.tasks[k].group == g && Pending(s.tasks[k]);
      assert db.tasks[k] == s.tasks[k];
    }
    if HasLiveLease(s.tasks, g) {
      var k :| k in s.tasks && s.tasks[k].group == g && LiveLease(s.tasks[k]);
      assert db.tasks[k] == s.tasks[k];
    }
    if HasLiveLease(db.tasks, g) {
      var k :| k in db.tasks && db.tasks[k].group == g && LiveLease(db.tasks[k]);
      assert db.tasks[k] == s.tasks[k];
    }
  }

  /** What an interrupted observer may have left behind: a complete group has no pending task. */
  predicate NoPendingInFinished(db: Db) {
    forall g | g in db.groups && db.groups[g].status == Finished ::
      !GroupPending(db.tasks, g) && db.groups[g].finishedAt.Some?
  }

  /** Recovery restores the agreement of groups and tasks, and leaves exactly the leased groups running. */
  lemma RecoveryRestoresGroups(report: Reporter, repair: Repairer, configured: set<string>, db: Db, now: int)
    requires Honest(report) && Recoverable(report, repair, db) && NoPendingInFinished(db)
    ensures var d := Recover(report, repair, configured, db, now);
            && GroupsAgree(d.tasks, d.groups) && OpenGroups(d) <= OpenGroups(db)
            && (forall g | g in d.groups && d.groups[g].status == Active :: HasLiveLease(d.tasks, g))
            && (forall g | g in d.groups && g in db.groups && db.groups[g].status == Active ::
                  d.groups[g].status == Waiting ==> d.groups[g].startedAt.None?)
  {
    hide CloseUnleasedBelow, DropDuplicates, DropRemoved, GroupPending, HasLiveLease;
    var r := Reopened(report, repair, db, now);
    var s := Allowed(report, repair, configured, db, now);
    var d := Recover(report, repair, configured, db, now);
    CloseUnleasedExact(report, db, db.nextTask, now);
    forall g | g in d.groups
      ensures d.groups[g].status == Finished <==> !GroupPending(d.tasks, g)
      ensures d.groups[g].status == Finished ==> d.groups[g].finishedAt.Some?
      ensures d.groups[g].status == Active ==> HasLiveLease(d.tasks, g)
      ensures d.groups[g].status != Finished ==> db.groups[g].status != Finished
      ensures db.groups[g].status == Active && d.groups[g].status == Waiting ==> d.groups[g].startedAt.None?
    {
      CloseUnleasedGroups(report, db, now, g);
      DropRemovedGroups(r.tasks, configured, now, g);
      DropDuplicatesGroups(s, now, g);
    }
  }

  /** Supersession keeps the task table well formed: only queued tasks change, and only to superseded. */
  predicate OnlySuperseded(before: map<nat, Task>, after: map<nat, Task>) {
    && before.Keys == after.Keys
    && forall k | k in before ::
         || after[k] == before[k]
         || (before[k].status == Queued && after[k].status == Superseded
             && after[k] == before[k].(status := Superseded, finishedAt := after[k].finishedAt,
                 error := after[k].error))
  }

  lemma SupersedingKeepsTables(before: map<nat, Task>, after: map<nat, Task>, rows: map<nat, Row>)
    requires OnlySuperseded(before, after)
    requires UniqueCells(before) && Leased(before)
    ensures UniqueCells(after) && Leased(after) && (Ledger(before, rows) ==> Ledger(after, rows))
  {
    forall k | k in after
      ensures Bounded(after[k])
      ensures Settled(after[k]) ==> after[k] == before[k]
    {
      assert Bounded(before[k]);
    }
    forall i, j | i in after && j in after && after[i].group == after[j].group && after[i].cell == after[j].cell
      ensures i == j
    {
      assert before[i].group == before[j].group && before[i].cell == before[j].cell;
    }
    forall o | o in rows && HasSettledTask(before, rows[o])
      ensures HasSettledTask(after, rows[o])
    {
      assert HasSettledTask(before, rows[o]);
      var k :| k in before && FiledFor(rows[o], before[k]) && Settled(before[k]);
      assert after[k] == before[k];
    }
  }

  lemma RepairKeepsLedger(repair: Repairer, tasks: map<nat, Task>, rows: map<nat, Row>)
    requires Steady(repair)
    requires forall o | o in rows :: rows[o].payload.id == o
    ensures var after := RepairRows(repair, rows);
            && (forall o | o in after :: after[o].payload.id == o)
            && (Ledger(tasks, rows) ==> Ledger(tasks, after))
  {
    var after := RepairRows(repair, rows);
    forall o | o in after
      ensures after[o].payload.id == o
    {
      assert RepairsOnlyProvenance(repair, rows[o].cell, rows[o].payload);
    }
    if Ledger(tasks, rows) {
      KeptRowsKeepLedger(tasks, rows, after);
    }
  }

  predicate RowKept(r: Row, s: Row) {
    r.group == s.group && r.cell == s.cell && SameEvidence(r.payload, s.payload)
  }

  lemma KeptRowsKeepLedger(tasks: map<nat, Task>, rows: map<nat, Row>, after: map<nat, Row>)
    requires Ledger(tasks, rows) && forall o :: o in rows <==> o in after
    requires forall o | o in rows :: after[o].group == rows[o].group && after[o].cell == rows[o].cell
    ensures Ledger(tasks, after)
  {
    forall o, p | o in after && p in after && after[o].group == after[p].group && after[o].cell == after[p].cell
      ensures o == p
    {
      assert rows[o].group == rows[p].group && rows[o].cell == rows[p].cell;
    }
    forall o | o in after
      ensures HasSettledTask(tasks, after[o])
    {
      assert HasSettledTask(tasks, rows[o]);
      var k :| k in tasks && FiledFor(rows[o], tasks[k]) && Settled(tasks[k]);
      assert FiledFor(after[o], tasks[k]);
    }
    forall k | k in tasks && Settled(tasks[k])
      ensures HasRow(after, tasks[k])
    {
      assert HasRow(rows, tasks[k]);
      var o :| o in rows && FiledFor(rows[o], tasks[k]);
      assert FiledFor(after[o], tasks[k]);
    }
  }

  /** In leased mode a restart only supersedes queued tasks, resets groups and repairs rows. */
  lemma LeasedRecovery(report: Reporter, repair: Repairer, configured: set<string>, db: Db, now: int)
    requires Leased(db.tasks)
    ensures var d := Recover(report, repair, configured, db, now);
            && OnlySuperseded(db.tasks, d.tasks) && d.groups.Keys == db.groups.Keys
            && d.nextTask == db.nextTask && d.uuids == db.uuids
            && (d == db || d.rows == RepairRows(repair, db.rows))
  {
    hide HasElder, Before, PendingIn, GroupPending, HasLiveLease, RecoveryRaises, RepairRow;
    assert forall k | k in db.tasks :: Bounded(db.tasks[k]);
    NothingUnleased(report, db, db.nextTask, now);
  }

  lemma RecoverKeeps(cfg: Config, report: Reporter, repair: Repairer, configured: set<string>, db: Db, now: int)
    requires Core(cfg, db) && Honest(report) && Steady(repair)
    ensures var d := Recover(report, repair, configured, db, now); Core(cfg, d) && KeepsLedger(db, d)
  {
    var d := Recover(report, repair, configured, db, now);
    if !RecoveryRaises(report, repair, db) {
      LeasedRecovery(report, repair, configured, db, now);
      RecoveryRestoresGroups(report, repair, configured, db, now);
      SubsetSize(OpenGroups(d), OpenGroups(db));
      RepairKeepsLedger(repair, db.tasks, db.rows);
      SupersedingKeepsTables(db.tasks, d.tasks, RepairRows(repair, db.rows));
      NothingUnleasedRows(report, repair, configured, db, now);
      KeysAfterRecovery(repair, db, d);
    }
  }

  lemma NothingUnleasedRows(report: Reporter, repair: Repairer, configured: set<string>, db: Db, now: int)
    requires Leased(db.tasks) && !RecoveryRaises(report, repair, db)
    ensures Recover(report, repair, configured, db, now).rows == RepairRows(repair, db.rows)
  {
    assert forall k | k in db.tasks :: Bounded(db.tasks[k]);
    NothingUnleased(report, db, db.nextTask, now);
  }

  lemma KeysAfterRecovery(repair: Repairer, db: Db, d: Db)
    requires Keyed(db) && OnlySuperseded(db.tasks, d.tasks)
    requires d.groups.Keys == db.groups.Keys && d.nextTask == db.nextTask && d.uuids == db.uuids
    requires d.rows == RepairRows(repair, db.rows) && forall o | o in d.rows :: d.rows[o].payload.id == o
    ensures Keyed(d)
  {
    forall k | k in d.tasks
      ensures k < d.nextTask && d.tasks[k].group in d.groups
      ensures d.tasks[k].token.Some? ==> d.tasks[k].token.value < d.uuids
    {
      assert db.tasks[k].group in db.groups;
    }
  }

  // ----- A second recovery.

  lemma SecondPassTasks(report: Reporter, repair: Repairer, configured: set<string>, db: Db, now: int, k: nat)
    requires Honest(report) && Recoverable(report, repair, db) && k in db.tasks
    ensures var d := Recover(report, repair, configured, db, now);
            k in d.tasks && !Unleased(d.tasks[k]) && !Removed(d.tasks[k], configured)
  {
    RecoveredTask(report, repair, configured, db, now, k);
  }

  lemma FinalStepKeepsAge(s: Db, now: int, j: nat, k: nat)
    requires var d := Deduplicated(s, now); PendingIn(d, j) && PendingIn(d, k)
    ensures var d := Deduplicated(s, now);
            && PendingIn(s, j) && PendingIn(s, k) && s.tasks[j] == d.tasks[j] && s.tasks[k] == d.tasks[k]
            && (Before(s, j, k) <==> Before(d, j, k))
  {
  }

  /** A queued task that survived has no pending elder left. */
  lemma NoEldersLeft(s: Db, now: int, k: nat)
    requires var d := Deduplicated(s, now); k in d.tasks && d.tasks[k].status == Queued
    ensures !HasElder(Deduplicated(s, now), k)
  {
    var d := Deduplicated(s, now);
    if HasElder(d, k) {
      var j :| j in d.tasks && PendingIn(d, j) && d.tasks[j].cell == d.tasks[k].cell && Before(d, j, k);
      FinalStepKeepsAge(s, now, j, k);
      assert HasElder(s, k);
    }
  }

  lemma SecondPassRows(report: Reporter, repair: Repairer, configured: set<string>, db: Db, now: int)
    requires Honest(report) && Steady(repair) && Recoverable(report, repair, db)
    requires forall cell, o :: repair(cell, o).Some?
    ensures var rows := Recover(report, repair, configured, db, now).rows; RepairRows(repair, rows) == rows
  {
    var d := Recover(report, repair, configured, db, now);
    var closed := CloseUnleasedBelow(report, db, db.nextTask, now);
    assert d.rows == RepairRows(repair, closed.rows);
    forall o | o in d.rows
      ensures RepairRow(repair, d.rows[o]) == d.rows[o]
    {
      assert RepairsOnlyProvenance(repair, closed.rows[o].cell, closed.rows[o].payload);
      assert repair(closed.rows[o].cell, closed.rows[o].payload).Some?;
    }
  }

  lemma SecondPassGroups(report: Reporter, repair: Repairer, configured: set<string>, db: Db, now: int, later: int)
    requires Honest(report) && Recoverable(report, repair, db) && NoPendingInFinished(db)
    ensures var d := Recover(report, repair, configured, db, now);
            && ResetGroups(d.tasks, d.groups) == d.groups
            && FinishEmpty(d.tasks, d.groups, later) == d.groups
  {
    RecoveryRestoresGroups(report, repair, configured, db, now);
  }

  /** A second recovery with the same lanes changes nothing, at whatever later time it runs. */
  lemma RecoveryIsIdempotent(report: Reporter, repair: Repairer, configured: set<string>, db: Db, now: int, later: int)
    requires Honest(report) && Steady(repair) && Recoverable(report, repair, db) && NoPendingInFinished(db)
    requires forall cell, o :: repair(cell, o).Some?
    ensures var d := Recover(report, repair, configured, db, now);
            Recover(report, repair, configured, d, later) == d
  {
    var d := Recover(report, repair, configured, db, now);
    CloseUnleasedExact(report, db, db.nextTask, now);
    forall k | k in d.tasks
      ensures !Unleased(d.tasks[k]) && !Removed(d.tasks[k], configured)
      ensures d.tasks[k].status == Queued ==> !HasElder(d, k)
    {
      assert k in db.tasks;
      SecondPassTasks(report, repair, configured, db, now, k);
      if d.tasks[k].status == Queued {
        NoEldersLeft(Allowed(report, repair, configured, db, now), now, k);
      }
    }
    SecondPassRows(report, repair, configured, db, now);
    SecondPassGroups(report, repair, configured, db, now, later);
    SecondPassChangesNothing(report, repair, configured, d, later);
  }

  lemma SecondPassChangesNothing(report: Reporter, repair: Repairer, configured: set<string>, d: Db, later: int)
    requires forall k | k in d.tasks ::
               && !Unleased(d.tasks[k]) && !Removed(d.tasks[k], configured)
               && (d.tasks[k].status == Queued ==> !HasElder(d, k))
    requires RepairRows(repair, d.rows) == d.rows
    requires ResetGroups(d.tasks, d.groups) == d.groups && FinishEmpty(d.tasks, d.groups, later) == d.groups
    ensures Recover(report, repair, configured, d, later) == d
  {
    NothingUnleased(report, d, d.nextTask, later);
    assert Reopened(report, repair, d, later) == d;
    assert DropRemoved(d.tasks, configured, later) == d.tasks;
    assert Allowed(report, repair, configured, d, later) == d;
    assert DropDuplicates(d, later) == d.tasks;
  }
}
