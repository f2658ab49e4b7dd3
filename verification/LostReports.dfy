/**
 How the observer's own reports about lost and failed work are read back (api.py: `cell_summary` and
 `egresses`): they carry the observer's evaluator build, and are compared with the build of the lease.
 */
module LostReports {
  import opened Wrappers
  import opened Catalog
  import opened Lanes
  import opened Provenance
  import opened Queue
  import opened QueueInvariants
  import opened Recovery
  import opened QueueRuns
  import opened QueueTheorems
  import opened Evidence
  import opened Discovery
  import opened Expiry
  import Freshness

  // ----- What an expiry or a failure files.

  ghost predicate ReportedBy(e: Timed, report: Reporter) {
    e.event == ExpireLeases(report) || (e.event.FailJob? && e.event.report == report)
  }

  /** Row o is the report about task k. */
  predicate ReportsTask(report: Reporter, db: Db, now: int, k: nat, o: nat, r: Row) {
    && k in db.tasks && db.tasks[k].status == Running && FiledFor(r, db.tasks[k])
    && report(db.tasks[k].cell, now, o) == Some(r.payload)
  }

  predicate Abandons(report: Reporter, db: Db, now: int, k: nat, o: nat, r: Row) {
    ReportsTask(report, db, now, k, o, r) && OverdueForGood(db.tasks[k], now)
  }

  /** Every new row of an expiry pass reports one of the second attempts it gives up. */
  lemma {:induction false} ExpiryReports(report: Reporter, db: Db, n: nat, now: int, o: nat)
    requires Honest(report) && Keyed(db) && !ExpiryRaises(report, db, now)
    requires o !in db.rows && o in ExpireBelow(report, db, n, now).rows
    ensures exists k: nat | k < n :: Abandons(report, db, now, k, o, ExpireBelow(report, db, n, now).rows[o])
  {
    hide ExpireRow, Abandons, Honest, Keyed, ExpiryRaises, ExpiredBelow;
    var d, e := ExpireBelow(report, db, n - 1, now), ExpireBelow(report, db, n, now);
    ExpireExact(report, db, n - 1, now);
    if o in d.rows {
      ExpiryReports(report, db, n - 1, now, o);
      var k: nat :| k < n - 1 && Abandons(report, db, now, k, o, d.rows[o]);
    }
    if e != d {
      UntouchedBelow(db, d, n - 1, now);
      ExpireRowRows(report, db, d, n - 1, now, o);
    }
  }

  /** The next task is still as it was, and observation ids are below the number of draws. */
  lemma UntouchedBelow(db: Db, d: Db, n: nat, now: int)
    requires Keyed(db) && ExpiredBelow(db, d, n, now)
    ensures n in d.tasks ==> n in db.tasks && d.tasks[n] == db.tasks[n]
    ensures forall p | p in d.rows :: p < d.uuids
  {
    forall p | p in d.rows
      ensures p < d.uuids
    {
      assert p in db.rows || p < d.uuids;
    }
  }

  lemma ExpireRowRows(report: Reporter, db: Db, d: Db, k: nat, now: int, o: nat)
    requires Honest(report) && k in d.tasks && k in db.tasks && d.tasks[k] == db.tasks[k] && Overdue(d.tasks[k], now)
    requires forall p | p in d.rows :: p < d.uuids
    requires o in ExpireRow(report, d, k, now).rows
    ensures if o in d.rows then ExpireRow(report, d, k, now).rows[o] == d.rows[o]
            else Abandons(report, db, now, k, o, ExpireRow(report, d, k, now).rows[o])
  {
    assert HonestAt(report, d.tasks[k].cell, now, d.uuids);
  }

  /** A row that an expiry or failure adds reports one task, which it leaves unknown under its recorded build. */
  lemma NewRowIsReport(cfg: Config, db: Db, e: Timed, report: Reporter, o: nat)
    requires Core(cfg, db) && Honest(report) && ReportedBy(e, report)
    requires o !in db.rows && o in Apply(cfg, db, e).rows
    ensures exists k: nat :: ReportsTask(report, db, e.now, k, o, Apply(cfg, db, e).rows[o])
                        && LeavesUnknown(db, Apply(cfg, db, e), k)
  {
    hide Core, ExpireBelow, Honest, FailLeased, Close, UniqueCells, Leased, Keyed;
    var d := Apply(cfg, db, e);
    if e.event.ExpireLeases? {
      KeyedCore(cfg, db);
      ExpiryReports(report, db, db.nextTask, e.now, o);
      var k: nat :| k < db.nextTask && Abandons(report, db, e.now, k, o, d.rows[o]);
      ExpireExact(report, db, db.nextTask, e.now);
      assert LeavesUnknown(db, d, k);
    } else {
      FailureReports(report, db, e, o);
    }
  }

  predicate LeavesUnknown(db: Db, d: Db, k: nat) {
    && k in db.tasks && k in d.tasks && d.tasks[k].status == Unknown
    && d.tasks[k].build == db.tasks[k].build && d.tasks[k].group == db.tasks[k].group
    && d.tasks[k].cell == db.tasks[k].cell
  }

  lemma KeyedCore(cfg: Config, db: Db)
    requires Core(cfg, db)
    ensures Keyed(db) && Leased(db.tasks) && UniqueCells(db.tasks)
  {
  }

  lemma FailureReports(report: Reporter, db: Db, e: Timed, o: nat)
    requires Honest(report) && e.event.FailJob? && e.event.report == report
    requires var d := FailLeased(report, db, e.event.task, e.event.token, e.event.error, e.now).0;
             o !in db.rows && o in d.rows
    ensures var d := FailLeased(report, db, e.event.task, e.event.token, e.event.error, e.now).0;
            ReportsTask(report, db, e.now, e.event.task, o, d.rows[o]) && LeavesUnknown(db, d, e.event.task)
  {
    var k := e.event.task;
    assert HonestAt(report, db.tasks[k].cell, e.now, db.uuids);
  }

  // ----- The report as long as it is stored.

  /** A finished task stays as it is for as long as its group exists. */
  lemma {:induction false} FinishedTaskStays(cfg: Config, trace: Trace, i: nat, j: nat, k: nat)
    requires Reaches(cfg, EMPTY, trace) && i <= j <= |trace|
    requires var s := After(cfg, EMPTY, trace, i);
             k in s.tasks && Terminal(s.tasks[k]) && s.tasks[k].group < s.uuids
             && s.tasks[k].group in After(cfg, EMPTY, trace, j).groups
    ensures k in After(cfg, EMPTY, trace, j).tasks
    ensures After(cfg, EMPTY, trace, j).tasks[k] == After(cfg, EMPTY, trace, i).tasks[k]
  {
    hide After, Core, Reaches;
    if i < j {
      StepAt(cfg, EMPTY, trace, j - 1, k, After(cfg, EMPTY, trace, i).tasks[k].group, 0);
      NextTaskGrows(cfg, EMPTY, trace, i, j - 1);
      FinishedTaskStays(cfg, trace, i, j - 1, k);
    }
  }

  lemma StateAt(cfg: Config, trace: Trace, i: nat)
    requires Reaches(cfg, EMPTY, trace) && i <= |trace|
    ensures Core(cfg, After(cfg, EMPTY, trace, i))
    ensures Keyed(After(cfg, EMPTY, trace, i)) && UniqueCells(After(cfg, EMPTY, trace, i).tasks)
  {
    hide After;
    CoreHoldsThroughout(cfg, EMPTY, trace, i);
  }

  /** Event i, an expiry or a worker failure reported by this reporter, adds row o for task k. */
  ghost predicate AddsReport(cfg: Config, trace: Trace, i: nat, report: Reporter, k: nat, o: nat)
    requires i < |trace|
  {
    var s, t := After(cfg, EMPTY, trace, i), After(cfg, EMPTY, trace, i + 1);
    && ReportedBy(trace[i], report) && o !in s.rows && o in t.rows
    && k in s.tasks && FiledFor(t.rows[o], s.tasks[k])
  }

  /** Neither replaced, repaired nor deleted. */
  predicate RowStays(cfg: Config, trace: Trace, i: nat, j: nat, o: nat)
    requires i < j <= |trace|
  {
    var t, u := After(cfg, EMPTY, trace, i + 1), After(cfg, EMPTY, trace, j);
    o in t.rows && o in u.rows && u.rows[o] == t.rows[o]
  }

  lemma SameTask(tasks: map<nat, Task>, r: Row, j: nat, k: nat)
    requires UniqueCells(tasks) && j in tasks && k in tasks && FiledFor(r, tasks[j]) && FiledFor(r, tasks[k])
    ensures j == k
  {
  }

  /** The stored report is the reporter's own, and its task keeps the evaluator build of its last lease. */
  lemma ReportKeepsBuild(cfg: Config, trace: Trace, i: nat, j: nat, report: Reporter, k: nat, o: nat)
    requires Reaches(cfg, EMPTY, trace) && i < j <= |trace| && Honest(report)
    requires AddsReport(cfg, trace, i, report, k, o) && RowStays(cfg, trace, i, j, o)
    ensures var s, u := After(cfg, EMPTY, trace, i), After(cfg, EMPTY, trace, j);
            && ReportsTask(report, s, trace[i].now, k, o, u.rows[o])
            && BuildOf(u.tasks, u.rows[o]) == s.tasks[k].build
  {
    hide After, Core, Reaches, ReportedBy, Keyed, UniqueCells, BuildOf, Honest, Apply;
    var s, t, u := After(cfg, EMPTY, trace, i), After(cfg, EMPTY, trace, i + 1), After(cfg, EMPTY, trace, j);
    StateAt(cfg, trace, i);
    StateAt(cfg, trace, i + 1);
    StateAt(cfg, trace, j);
    NextState(cfg, EMPTY, trace, i);
    NewRowIsReport(cfg, s, trace[i], report, o);
    var m: nat :| ReportsTask(report, s, trace[i].now, m, o, t.rows[o]) && LeavesUnknown(s, t, m);
    SameTask(s.tasks, t.rows[o], m, k);
    Freshness.RowsHaveGroups(cfg, trace, j, o);
    GroupDrawn(t, k);
    FinishedTaskStays(cfg, trace, i + 1, j, k);
    BuildIsUnique(u.tasks, u.rows[o], k);
  }

  lemma GroupDrawn(db: Db, k: nat)
    requires Keyed(db) && k in db.tasks
    ensures db.tasks[k].group < db.uuids
  {
  }

  // ----- What the report is worth.

  /** A catalogue scenario whose canonical id is long enough for the schema and not the short id of another one. */
  predicate Nameable(defs: seq<Definition>, scenario: string) {
    && Known(defs, scenario) && |Canonical(defs, scenario)| >= 3
    && (Known(defs, Canonical(defs, scenario)) ==> Canonical(defs, scenario) == scenario)
  }

  /** The standing of a report under the observer's build `own` about a lease that recorded the given build. */
  function ReportStanding(own: string, build: Option<string>, writtenAt: int, now: int): Standing {
    if own == "" || (build.Some? && build.value != own) then Invalid
    else if writtenAt + 86400 <= now then Expired
    else Current(Inconclusive)
  }

  lemma ReportIsWorth(rt: Observer, own: string, cell: Cell, at: int, o: nat, payload: Payload, build: Option<string>,
      now: int)
    requires AllLoaded(rt.defs, rt.lanes) && Nameable(rt.defs, cell.scenario)
    requires ReporterFor(rt.defs, PublicLanes(rt.defs, rt.lanes), own)(cell, at, o) == Some(payload)
    ensures cell.lane in rt.lanes
    ensures Assess(rt, Some(Record(payload, payload.freshUntil, build)), cell, now)
            == ReportStanding(own, build, at, now)
  {
    hide Validates, Loaded, UnknownObservation, Public, Canonical, Known, WellFormed;
    var lane := rt.lanes[cell.lane];
    UnknownObservationValidates(rt.defs, lane, cell.scenario, at, o, own, build);
    UnknownIsInconclusive(rt.defs, Public(rt.defs, lane), Canonical(rt.defs, cell.scenario), at, o, own);
  }

  lemma UnknownIsInconclusive(defs: seq<Definition>, lane: Descriptor, scenarioId: string, now: int, id: nat,
      build: string)
    ensures var r := UnknownObservation(defs, lane, scenarioId, now, id, build);
            r.Some? ==> r.value.freshUntil == now + DAY && r.value.availability == Inconclusive
  {
  }

  /**
   Lost and failed work, read back. For as long as the observer's report of an expiry or failure is stored,
   the cell that has it as its newest evidence counts as broken evidence if and only if the claim that
   leased the task recorded another evaluator build than the observer's; otherwise it is current and
   undecided for a day.
   */
  lemma LostWorkStandsByBuild(cfg: Config, trace: Trace, i: nat, j: nat, k: nat, token: nat, build: Option<string>,
                              o: nat, rt: Observer, own: string, order: seq<nat>, now: int)
    requires Reaches(cfg, EMPTY, trace) && i < j <= |trace| && AllLoaded(cfg.defs, rt.lanes) && rt.defs == cfg.defs
    requires AddsReport(cfg, trace, i, Reports(cfg, rt.lanes, own), k, o) && RowStays(cfg, trace, i, j, o)
    requires HoldsWith(After(cfg, EMPTY, trace, i), k, token, build)
    requires Nameable(cfg.defs, After(cfg, EMPTY, trace, i).tasks[k].cell.scenario)
    requires var c := After(cfg, EMPTY, trace, i).tasks[k].cell;
             LastOf(order, Newest(After(cfg, EMPTY, trace, j).rows, c)) == Some(o)
    ensures ClaimedBefore(cfg, EMPTY, trace, i, k, token, build)
    ensures var c := After(cfg, EMPTY, trace, i).tasks[k].cell;
            && c.lane in rt.lanes
            && StandingOf(rt, After(cfg, EMPTY, trace, j), order, c, now)
               == ReportStanding(own, build, trace[i].now, now)
  {
    hide After, Core, Reaches, AddsReport, RowStays, Reports, BuildOf, Newest, Assess, AllLoaded, Nameable;
    hide ClaimedBefore;
    var report, s, u := Reports(cfg, rt.lanes, own), After(cfg, EMPTY, trace, i), After(cfg, EMPTY, trace, j);
    ReportsHonestly(cfg, rt.lanes, own);
    ReportKeepsBuild(cfg, trace, i, j, report, k, o);
    RowIsThere(cfg, trace, i, j, o);
    TokensComeFromClaims(cfg, EMPTY, trace, i, k, token, build);
    ReportIsTheReporters(cfg, rt, own, s.tasks[k].cell, trace[i].now, o, u.rows[o].payload);
    ReportIsWorth(rt, own, s.tasks[k].cell, trace[i].now, o, u.rows[o].payload, build, now);
  }

  lemma RowIsThere(cfg: Config, trace: Trace, i: nat, j: nat, o: nat)
    requires i < j <= |trace| && RowStays(cfg, trace, i, j, o)
    ensures o in After(cfg, EMPTY, trace, j).rows
  {
  }

  lemma ReportIsTheReporters(cfg: Config, rt: Observer, own: string, cell: Cell, at: int, o: nat, payload: Payload)
    requires rt.defs == cfg.defs && Reports(cfg, rt.lanes, own)(cell, at, o) == Some(payload)
    ensures ReporterFor(rt.defs, PublicLanes(rt.defs, rt.lanes), own)(cell, at, o) == Some(payload)
  {
  }

  /** While one declared cell stands on broken evidence the observer's node is not covered, and nothing is on track. */
  lemma BrokenCellIsOffTrack(rt: Observer, db: Db, order: seq<nat>, now: int, nodes: seq<Node>, i: nat,
                             failures: nat, alerts: nat, migrated: bool, c: Cell)
    requires i < |nodes| && nodes[i].cells == CountsOf(rt, db, order, rt.lanes.Keys, now)
    requires c in Declared(rt, rt.lanes.Keys) && StandingOf(rt, db, order, c, now) == Invalid
    ensures HealthFor(nodes, failures, alerts, migrated) == OffTrack
  {
    hide StandingOf, CountsOf, Declared;
    CoveredMeansCurrent(rt, db, order, now, nodes[i]);
    assert Uncovered(nodes[i]);
  }
}
