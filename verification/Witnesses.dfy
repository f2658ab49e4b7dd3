/**
 Runs from the empty database that show where the queue does not keep a promise: a stale pass that is
 served again, and a removed lane that stops every worker. Every request in them is one the API accepts.
 */
module Witnesses {
  import opened Wrappers
  import opened Catalog
  import opened Lanes
  import opened Provenance
  import opened Queue
  import opened QueueInvariants
  import opened Recovery
  import opened QueueRuns
  import opened QueueTheorems
  import opened Evidence
  import opened Discovery
  import opened Expiry
  import opened Freshness
  import L = LostReports

  // ----- One task at a time.

  /** Who claims, with which evaluator build, and what it says when it fails. */
  datatype Worker = Worker(name: string, build: Option<string>, complaint: string)

  /** Nothing is pending and no group is open. */
  predicate Resting(db: Db) {
    && (forall k | k in db.tasks :: k < db.nextTask && Terminal(db.tasks[k]))
    && (forall g | g in db.groups :: g < db.uuids && db.groups[g].status == Finished)
  }

  function Enqueued(cfg: Config, db: Db, cell: Cell, now: int): Db {
    var k, g := db.nextTask, db.uuids;
    Db(db.tasks[k := NewTask(cfg.defs, g, cell, 0)],
       db.groups[g := Group(Waiting, now, None, None, [cell.lane], [cell.scenario])], db.rows, k + 1, g + 1)
  }

  lemma Enqueues(cfg: Config, db: Db, cell: Cell, now: int)
    requires Resting(db) && cfg.maxPending >= 1 && Known(cfg.defs, cell.scenario)
    ensures Submit(cfg, db, [cell.lane], [cell.scenario], now).0 == Enqueued(cfg, db, cell, now)
  {
    var lanes, scenarios := [cell.lane], [cell.scenario];
    assert OpenGroups(db) == {};
    assert lanes[1..] == [] && Cells([], scenarios) == [];
    assert Cells(lanes, scenarios) == CellsOfLane(cell.lane, scenarios) == [cell];
    hide Cells, OpenGroups, Known;
    var added := NewTasks(cfg.defs, db.uuids, [cell], db.nextTask);
    assert added == map[db.nextTask := NewTask(cfg.defs, db.uuids, cell, 0)];
  }

  /** The task of a group made for one cell, under its lease, whose token is the number after the group's. */
  function LeasedOnce(cfg: Config, db: Db, cell: Cell, w: Worker, now: int): Task {
    LeasedTask(NewTask(cfg.defs, db.uuids, cell, 0), db.uuids + 1, w.name, 600, w.build, now)
  }

  /** One cell enqueued and leased at once. */
  function Working(cfg: Config, db: Db, cell: Cell, w: Worker, now: int): Db {
    var k, g := db.nextTask, db.uuids;
    Db(db.tasks[k := LeasedOnce(cfg, db, cell, w, now)],
       db.groups[g := Group(Active, now, Some(now), None, [cell.lane], [cell.scenario])], db.rows, k + 1, g + 2)
  }

  lemma Leases(cfg: Config, db: Db, cell: Cell, w: Worker, now: int)
    requires Resting(db)
    ensures Claim(Enqueued(cfg, db, cell, now), w.name, KindOf(cfg.defs, cell.scenario), 600, w.build, now).0
            == Working(cfg, db, cell, w, now)
  {
    hide KindOf;
    var d, kind := Enqueued(cfg, db, cell, now), KindOf(cfg.defs, cell.scenario);
    forall k | k in Claimable(d, kind)
      ensures k == db.nextTask
    {
      assert k in db.tasks ==> Terminal(db.tasks[k]);
    }
    assert db.nextTask in Claimable(d, kind);
    assert First(d, Claimable(d, kind)) == db.nextTask;
  }

  /** The leased task closed with an observation, and with it its group. */
  function Closed(cfg: Config, db: Db, cell: Cell, closed: Task, payload: Payload, uuids: nat, now: int): Db {
    var g := Group(Finished, now, Some(now), Some(now), [cell.lane], [cell.scenario]);
    Db(db.tasks[db.nextTask := closed], db.groups[db.uuids := g], db.rows[payload.id := Row(db.uuids, cell, payload)],
       db.nextTask + 1, uuids)
  }

  lemma Closes(cfg: Config, db: Db, cell: Cell, w: Worker, closed: Task, payload: Payload, uuids: nat, now: int)
    requires Resting(db) && closed.group == db.uuids && closed.cell == cell && Terminal(closed) && uuids > db.uuids
    ensures Close(Working(cfg, db, cell, w, now).(uuids := uuids), db.nextTask, closed, payload, now)
            == Closed(cfg, db, cell, closed, payload, uuids, now)
    ensures Resting(Closed(cfg, db, cell, closed, payload, uuids, now))
  {
    var d := Working(cfg, db, cell, w, now);
    assert !GroupPending(d.tasks[db.nextTask := closed], db.uuids);
  }

  function Completed(cfg: Config, db: Db, cell: Cell, w: Worker, payload: Payload, uuids: nat, now: int): Db {
    Closed(cfg, db, cell, CompletedTask(LeasedOnce(cfg, db, cell, w, now), payload, now), payload, uuids, now)
  }

  lemma Completes(cfg: Config, db: Db, cell: Cell, w: Worker, payload: Payload, uuids: nat, now: int)
    requires Resting(db) && uuids > db.uuids
    ensures CompleteLeased(Working(cfg, db, cell, w, now).(uuids := uuids), db.nextTask, db.uuids + 1, payload, now)
            == (Completed(cfg, db, cell, w, payload, uuids, now), Accepted)
    ensures Resting(Completed(cfg, db, cell, w, payload, uuids, now))
  {
    hide Close, Closed;
    Closes(cfg, db, cell, w, CompletedTask(LeasedOnce(cfg, db, cell, w, now), payload, now), payload, uuids, now);
  }

  function Lost(cfg: Config, db: Db, cell: Cell, w: Worker, payload: Payload, now: int): Db {
    Closed(cfg, db, cell, FailedTask(LeasedOnce(cfg, db, cell, w, now), db.uuids + 1, w.complaint, now), payload,
           db.uuids + 3, now)
  }

  lemma Fails(cfg: Config, report: Reporter, db: Db, cell: Cell, w: Worker, now: int)
    requires Resting(db) && report(cell, now, db.uuids + 2).Some?
    ensures FailLeased(report, Working(cfg, db, cell, w, now), db.nextTask, db.uuids + 1, w.complaint, now)
            == (Lost(cfg, db, cell, w, report(cell, now, db.uuids + 2).value, now), Accepted)
    ensures Resting(Lost(cfg, db, cell, w, report(cell, now, db.uuids + 2).value, now))
  {
    hide Close;
    var payload := report(cell, now, db.uuids + 2).value;
    var failed := FailedTask(LeasedOnce(cfg, db, cell, w, now), db.uuids + 1, w.complaint, now);
    Closes(cfg, db, cell, w, failed, payload, db.uuids + 2, now);
  }

  // ----- A stale pass that is served again.

  /** An observer, two of its lanes, a scenario, an evaluator build, and room for one group. */
  datatype Setup = Setup(rt: Observer, a: string, b: string, scenario: string, build: string, maxPending: nat,
      worker: string, complaint: string) {

    predicate Valid() {
      && WellFormed(rt.defs) && rt.Valid() && a in rt.lanes && b in rt.lanes && a != b && maxPending >= 1
      && Known(rt.defs, scenario) && |Canonical(rt.defs, scenario)| >= 3 && build != ""
    }

    function Cfg(): Config {
      Config(rt.defs, maxPending)
    }

    function W(): Worker {
      Worker(worker, Some(build), complaint)
    }

    function A(): Cell {
      Cell(a, scenario)
    }

    function B(): Cell {
      Cell(b, scenario)
    }

    function Report(): Reporter {
      Reports(Cfg(), rt.lanes, build)
    }

    function Enqueue(id: string): Event {
      QueueRuns.Enqueue([id], [scenario])
    }

    function Claim(): Event {
      ClaimJob(worker, KindOf(rt.defs, scenario), 600, Some(build))
    }
  }

  function Emitted(x: Setup, observation: nat, now: int): Payload {
    var nothing := LanePart(None, None, None, None, None, None, None, None, None, None);
    var subject := Subject(None, None, None, None, None, None, None, None);
    Payload(1, observation, now, now + DAY, Some(Canonical(x.rt.defs, x.scenario)), None, subject, nothing, Available,
            true, "available", "none", "")
  }

  /** A worker's pass for one of the lanes, upgraded with the lane's descriptor. */
  function Pass(x: Setup, id: string, observation: nat, now: int): Payload
    requires id in x.rt.lanes
  {
    var emitted := Emitted(x, observation, now);
    ObservationV2(x.rt.defs, emitted, Public(x.rt.defs, x.rt.lanes[id]), x.scenario, x.build).GetOr(emitted)
  }

  /**
   A pass of lane a at time 0, a failure of lane a an hour later, and another hour later a pass of lane
   b under the observation id of that failure.
   */
  function Revival(x: Setup): Trace
    requires x.Valid()
  {
    [At(0, x.Enqueue(x.a)), At(0, x.Claim()), At(0, Mint), At(0, CompleteJob(0, 1, Pass(x, x.a, 2, 0))),
     At(HOUR, x.Enqueue(x.a)), At(HOUR, x.Claim()), At(HOUR, FailJob(1, 4, x.Report(), x.complaint)),
     At(2 * HOUR, x.Enqueue(x.b)), At(2 * HOUR, x.Claim()), At(2 * HOUR, CompleteJob(2, 7, Pass(x, x.b, 5, 2 * HOUR)))]
  }

  lemma PassIsValid(x: Setup, id: string, observation: nat, now: int)
    requires x.Valid() && id in x.rt.lanes
    ensures var p := Pass(x, id, observation, now);
            && p.id == observation && p.observedAt == now && p.freshUntil == now + DAY && p.availability == Available
            && Validates(x.rt.defs, p, Public(x.rt.defs, x.rt.lanes[id]), x.scenario, Some(x.build))
  {
    hide Validates, MeetsSchema, Public, ObservationV2, Known, Canonical;
    var emitted := Emitted(x, observation, now);
    DescriptorRoundTrip(x.rt.defs, x.rt.lanes[id], Light);
    WorkerObservationAccepted(x.rt.defs, x.rt.lanes[id], Light, x.scenario, emitted, x.build, Some(x.build));
  }

  /** The database after the first pass, after the failure, and after the second pass. */
  function Passed(x: Setup): Db
    requires x.Valid()
  {
    Completed(x.Cfg(), EMPTY, x.A(), x.W(), Pass(x, x.a, 2, 0), 3, 0)
  }

  function Failed(x: Setup): Db
    requires x.Valid()
  {
    Lost(x.Cfg(), Passed(x), x.A(), x.W(), x.Report()(x.A(), HOUR, 5).GetOr(Pass(x, x.a, 5, HOUR)), HOUR)
  }

  function Replaced(x: Setup): Db
    requires x.Valid()
  {
    Completed(x.Cfg(), Failed(x), x.B(), x.W(), Pass(x, x.b, 5, 2 * HOUR), 8, 2 * HOUR)
  }

  lemma Starts(cfg: Config, trace: Trace, i: nat, db: Db, cell: Cell, w: Worker, now: int)
    requires i + 1 < |trace| && After(cfg, EMPTY, trace, i) == db
    requires Resting(db) && cfg.maxPending >= 1 && Known(cfg.defs, cell.scenario)
    requires trace[i] == At(now, Enqueue([cell.lane], [cell.scenario]))
    requires trace[i + 1] == At(now, ClaimJob(w.name, KindOf(cfg.defs, cell.scenario), 600, w.build))
    ensures After(cfg, EMPTY, trace, i + 2) == Working(cfg, db, cell, w, now)
  {
    hide After, Submit, Claim, Working, Enqueued, Resting, KindOf, Known;
    Enqueues(cfg, db, cell, now);
    Leases(cfg, db, cell, w, now);
    NextState(cfg, EMPTY, trace, i);
    NextState(cfg, EMPTY, trace, i + 1);
  }

  lemma Ends(cfg: Config, trace: Trace, i: nat, db: Db, cell: Cell, w: Worker, payload: Payload,
             uuids: nat, now: int)
    requires i < |trace| && After(cfg, EMPTY, trace, i) == Working(cfg, db, cell, w, now).(uuids := uuids)
    requires Resting(db) && uuids > db.uuids
    requires trace[i] == At(now, CompleteJob(db.nextTask, db.uuids + 1, payload))
    ensures After(cfg, EMPTY, trace, i + 1) == Completed(cfg, db, cell, w, payload, uuids, now)
    ensures !Spares(After(cfg, EMPTY, trace, i), trace[i], payload.id)
  {
    hide After, CompleteLeased, Working, Resting, Completed;
    Completes(cfg, db, cell, w, payload, uuids, now);
    NextState(cfg, EMPTY, trace, i);
  }

  lemma EmptyAtFirst(cfg: Config, trace: Trace)
    ensures After(cfg, EMPTY, trace, 0) == EMPTY && Resting(EMPTY)
  {
  }

  lemma WorkingCounts(cfg: Config, db: Db, cell: Cell, w: Worker, now: int)
    ensures Working(cfg, db, cell, w, now).uuids == db.uuids + 2
  {
  }

  lemma CompletedCounts(cfg: Config, db: Db, cell: Cell, w: Worker, payload: Payload, uuids: nat, now: int)
    ensures var d := Completed(cfg, db, cell, w, payload, uuids, now);
            d.nextTask == db.nextTask + 1 && d.uuids == uuids
  {
  }

  lemma Requests(x: Setup)
    requires x.Valid()
    ensures var run := Revival(x);
            && |run| == 10 && run[2] == At(0, Mint)
            && run[0] == At(0, x.Enqueue(x.a)) && run[4] == At(HOUR, x.Enqueue(x.a))
            && run[1] == At(0, x.Claim()) && run[5] == At(HOUR, x.Claim()) && run[8] == At(2 * HOUR, x.Claim())
            && run[3] == At(0, CompleteJob(0, 1, Pass(x, x.a, 2, 0)))
            && run[6] == At(HOUR, FailJob(1, 4, x.Report(), x.complaint))
            && run[7] == At(2 * HOUR, x.Enqueue(x.b))
            && run[9] == At(2 * HOUR, CompleteJob(2, 7, Pass(x, x.b, 5, 2 * HOUR)))
  {
    hide Pass, Reports;
  }

  lemma FirstRound(x: Setup)
    requires x.Valid()
    ensures After(x.Cfg(), EMPTY, Revival(x), 3).uuids == 3 && After(x.Cfg(), EMPTY, Revival(x), 4) == Passed(x)
    ensures Resting(Passed(x)) && Passed(x).nextTask == 1 && Passed(x).uuids == 3
  {
    hide After, Working, Revival, KindOf, Known, Pass, Completed, Resting;
    var cfg, run := x.Cfg(), Revival(x);
    Requests(x);
    EmptyAtFirst(cfg, run);
    Starts(cfg, run, 0, EMPTY, x.A(), x.W(), 0);
    WorkingCounts(cfg, EMPTY, x.A(), x.W(), 0);
    NextState(cfg, EMPTY, run, 2);
    Ends(cfg, run, 3, EMPTY, x.A(), x.W(), Pass(x, x.a, 2, 0), 3, 0);
    Completes(cfg, EMPTY, x.A(), x.W(), Pass(x, x.a, 2, 0), 3, 0);
    CompletedCounts(cfg, EMPTY, x.A(), x.W(), Pass(x, x.a, 2, 0), 3, 0);
  }

  lemma SecondRound(x: Setup)
    requires x.Valid()
    ensures After(x.Cfg(), EMPTY, Revival(x), 6) == Working(x.Cfg(), Passed(x), x.A(), x.W(), HOUR)
    ensures x.Report()(x.A(), HOUR, 5).Some? && After(x.Cfg(), EMPTY, Revival(x), 7) == Failed(x)
    ensures Resting(Failed(x)) && Failed(x).nextTask == 2 && Failed(x).uuids == 6
  {
    hide After, Working, Passed, FailLeased, Reports, Resting, Revival, KindOf, Known, Pass;
    var cfg, run := x.Cfg(), Revival(x);
    Requests(x);
    FirstRound(x);
    Starts(cfg, run, 4, Passed(x), x.A(), x.W(), HOUR);
    LaneIsReportable(x, x.A(), HOUR, 5);
    Fails(cfg, x.Report(), Passed(x), x.A(), x.W(), HOUR);
    NextState(cfg, EMPTY, run, 6);
  }

  lemma LaneIsReportable(x: Setup, cell: Cell, now: int, id: nat)
    requires x.Valid() && cell.lane in x.rt.lanes && cell.scenario == x.scenario
    ensures x.Report()(cell, now, id).Some? && IsReport(x.Report()(cell, now, id).value, now, id)
  {
    ReportsConfiguredLanes(x.rt.defs, x.rt.lanes, x.build, cell, now, id);
  }

  lemma ThirdRound(x: Setup)
    requires x.Valid()
    ensures After(x.Cfg(), EMPTY, Revival(x), 9) == Working(x.Cfg(), Failed(x), x.B(), x.W(), 2 * HOUR)
    ensures !Spares(After(x.Cfg(), EMPTY, Revival(x), 9), Revival(x)[9], 5)
    ensures After(x.Cfg(), EMPTY, Revival(x), 10) == Replaced(x)
  {
    hide After, Working, Failed, Spares, Completed, Resting, Revival, KindOf, Known, Pass;
    var cfg, run := x.Cfg(), Revival(x);
    Requests(x);
    SecondRound(x);
    PassIsValid(x, x.b, 5, 2 * HOUR);
    Starts(cfg, run, 7, Failed(x), x.B(), x.W(), 2 * HOUR);
    WorkingCounts(cfg, Failed(x), x.B(), x.W(), 2 * HOUR);
    Ends(cfg, run, 9, Failed(x), x.B(), x.W(), Pass(x, x.b, 5, 2 * HOUR), 8, 2 * HOUR);
  }

  /** The observations along the run. */
  lemma EvidenceOfRun(x: Setup)
    requires x.Valid()
    ensures var first, lost, second := Row(0, x.A(), Pass(x, x.a, 2, 0)), x.Report()(x.A(), HOUR, 5),
                                       Row(6, x.B(), Pass(x, x.b, 5, 2 * HOUR));
            && lost.Some? && IsReport(lost.value, HOUR, 5)
            && Passed(x).rows == map[2 := first]
            && Failed(x).rows == map[2 := first, 5 := Row(3, x.A(), lost.value)]
            && Replaced(x).rows == map[2 := first, 5 := second]
  {
    hide Pass, Reports, KindOf, Known, Canonical, Loaded, WellFormed, Validates;
    PassIsValid(x, x.a, 2, 0);
    PassIsValid(x, x.b, 5, 2 * HOUR);
    LaneIsReportable(x, x.A(), HOUR, 5);
  }

  lemma RevivalIsLegal(x: Setup)
    requires x.Valid()
    ensures Reaches(x.Cfg(), EMPTY, Revival(x)) && TimelyRun(Revival(x))
  {
    hide After, Pass, Reports, Revival, Core, Honest, KindOf, Known, Validates;
    hide Passed, Failed, Replaced, Resting, Working;
    var cfg, run := x.Cfg(), Revival(x);
    Requests(x);
    FirstRound(x);
    SecondRound(x);
    ThirdRound(x);
    WorkingCounts(cfg, Failed(x), x.B(), x.W(), 2 * HOUR);
    PassIsValid(x, x.a, 2, 0);
    PassIsValid(x, x.b, 5, 2 * HOUR);
    ReportsHonestly(cfg, x.rt.lanes, x.build);
    EmptyCore(cfg);
    forall i | 0 <= i < |run|
      ensures Legal(After(cfg, EMPTY, run, i), run[i]) && TimelyEvent(run[i])
      ensures run[i].now == if i < 4 then 0 else if i < 7 then HOUR else 2 * HOUR
    {
      assert i == 0 || i == 1 || i == 2 || i == 3 || i == 4 || i == 5 || i == 6 || i == 7 || i == 8 || i == 9;
    }
  }

  /** Event 6 displaces the pass. */
  lemma FailureDisplaces(x: Setup)
    requires x.Valid()
    ensures WritesUnknown(x.Cfg(), Revival(x), 6, x.A(), 5)
  {
    hide After, Pass, Reports, Revival, KindOf, Known, Passed, Failed, Replaced, Resting, Validates;
    Requests(x);
    SecondRound(x);
    EvidenceOfRun(x);
    PassIsValid(x, x.a, 2, 0);
  }

  /** Nothing before event 9 uncovers the pass, and event 9 is no evidence of lane a. */
  lemma NothingElseHappens(x: Setup)
    requires x.Valid()
    ensures QuietBetween(x.Cfg(), EMPTY, Revival(x), 7, 10, x.A(), HOUR)
    ensures SparedBetween(x.Cfg(), EMPTY, Revival(x), 7, 9, 5)
  {
    hide After, Pass, Reports, Revival, KindOf, Known, Failed, CompleteLeased, Resting;
    Requests(x);
    SecondRound(x);
    ThirdRound(x);
  }

  /** Afterwards the pass of time 0 is the only evidence of lane a. */
  lemma OldPassIsAllThatIsLeft(x: Setup)
    requires x.Valid()
    ensures var d := Replaced(x);
            && Newest(d.rows, x.A()) == {2} && 2 in d.rows && d.rows[2] == Row(0, x.A(), Pass(x, x.a, 2, 0))
            && 0 in d.tasks && FiledFor(d.rows[2], d.tasks[0]) && d.tasks[0].build == Some(x.build)
  {
    hide Pass, Reports, KindOf, Known, Validates;
    EvidenceOfRun(x);
  }

  lemma LaneIsServedAgain(x: Setup, order: seq<nat>)
    requires x.Valid() && 2 in order && UniqueCells(Replaced(x).tasks)
    ensures x.a in Offered(x.rt, Replaced(x), order, x.scenario, 2 * HOUR)
  {
    hide Pass, Reports, KindOf, Known, Validates, Replaced, Newest;
    var d := Replaced(x);
    PassIsValid(x, x.a, 2, 0);
    OldPassIsAllThatIsLeft(x);
    BuildIsUnique(d.tasks, d.rows[2], 0);
    assert LastOf(order, {2}) == Some(2);
  }

  /**
   The run is legal and every observation in it validates, and yet it ends with lane a discovered through
   a pass that newer `unknown` evidence had displaced.
   */
  lemma StalePassRevived(x: Setup, order: seq<nat>)
    requires x.Valid() && 2 in order
    ensures var cfg, run := x.Cfg(), Revival(x);
            && Reaches(cfg, EMPTY, run) && TimelyRun(run) && WritesUnknown(cfg, run, 6, x.A(), 5)
            && QuietBetween(cfg, EMPTY, run, 7, 10, x.A(), HOUR)
            && x.a !in Offered(x.rt, After(cfg, EMPTY, run, 9), order, x.scenario, 2 * HOUR)
            && x.a in Offered(x.rt, After(cfg, EMPTY, run, 10), order, x.scenario, 2 * HOUR)
    ensures Validates(x.rt.defs, Pass(x, x.a, 2, 0), Public(x.rt.defs, x.rt.lanes[x.a]), x.scenario, Some(x.build))
    ensures Validates(x.rt.defs, Pass(x, x.b, 5, 2 * HOUR), Public(x.rt.defs, x.rt.lanes[x.b]), x.scenario,
                      Some(x.build))
  {
    hide After, Pass, Reports, Revival, Core, Validates, WritesUnknown, QuietEvent, Spares, Replaced, Offered;
    var cfg, run := x.Cfg(), Revival(x);
    Requests(x);
    RevivalIsLegal(x);
    FailureDisplaces(x);
    NothingElseHappens(x);
    StalePassesStayHidden(cfg, run, 6, 9, x.A(), 5, x.rt, order, 2 * HOUR);
    PassIsValid(x, x.a, 2, 0);
    PassIsValid(x, x.b, 5, 2 * HOUR);
    ThirdRound(x);
    CoreHoldsThroughout(cfg, EMPTY, run, 10);
    CoreHasUniqueCells(cfg, Replaced(x));
    LaneIsServedAgain(x, order);
  }

  // ----- Failed work of a worker that runs another build than the observer.

  function OtherWorker(x: Setup, theirs: string): Worker {
    Worker(x.worker, Some(theirs), x.complaint)
  }

  /** A cell is enqueued, claimed under a build, and the worker reports a failure. */
  function Mismatch(x: Setup, theirs: string): Trace {
    [At(0, x.Enqueue(x.a)), At(0, ClaimJob(x.worker, KindOf(x.rt.defs, x.scenario), 600, Some(theirs))),
     At(0, FailJob(0, 1, x.Report(), x.complaint))]
  }

  lemma MismatchStates(x: Setup, theirs: string)
    requires x.Valid()
    ensures var cfg, run, w, made := x.Cfg(), Mismatch(x, theirs), OtherWorker(x, theirs), x.Report()(x.A(), 0, 2);
            && made.Some? && IsReport(made.value, 0, 2)
            && After(cfg, EMPTY, run, 2) == Working(cfg, EMPTY, x.A(), w, 0)
            && After(cfg, EMPTY, run, 3) == Lost(cfg, EMPTY, x.A(), w, made.value, 0)
  {
    hide After, Working, FailLeased, Reports, KindOf, Known, Lost;
    var cfg, run, w := x.Cfg(), Mismatch(x, theirs), OtherWorker(x, theirs);
    EmptyAtFirst(cfg, run);
    Starts(cfg, run, 0, EMPTY, x.A(), w, 0);
    LaneIsReportable(x, x.A(), 0, 2);
    Fails(cfg, x.Report(), EMPTY, x.A(), w, 0);
    NextState(cfg, EMPTY, run, 2);
  }

  lemma MismatchIsLegal(x: Setup, theirs: string)
    requires x.Valid()
    ensures Reaches(x.Cfg(), EMPTY, Mismatch(x, theirs))
  {
    hide After, Core, Honest, Reports, KindOf;
    EmptyCore(x.Cfg());
    ReportsHonestly(x.Cfg(), x.rt.lanes, x.build);
  }

  lemma MismatchReports(x: Setup, theirs: string)
    requires x.Valid()
    ensures var cfg, run := x.Cfg(), Mismatch(x, theirs);
            && L.AddsReport(cfg, run, 2, x.Report(), 0, 2) && L.RowStays(cfg, run, 2, 3, 2)
            && HoldsWith(After(cfg, EMPTY, run, 2), 0, 1, Some(theirs))
            && After(cfg, EMPTY, run, 2).tasks[0].cell == x.A()
            && Newest(After(cfg, EMPTY, run, 3).rows, x.A()) == {2}
  {
    hide After, Reports, KindOf, Known;
    MismatchStates(x, theirs);
  }

  /**
   The run is legal, and yet the cell it leaves behind counts as broken evidence, whatever the time, and
   keeps the observer from being on track.
   */
  lemma FailedWorkIsBrokenEvidence(x: Setup, theirs: string, order: seq<nat>, now: int, nodes: seq<Node>, n: nat,
                                   failures: nat, alerts: nat, migrated: bool)
    requires x.Valid() && L.Nameable(x.rt.defs, x.scenario) && theirs != x.build && 2 in order
    requires x.A() in Declared(x.rt, x.rt.lanes.Keys) && n < |nodes|
    requires nodes[n].cells
             == CountsOf(x.rt, After(x.Cfg(), EMPTY, Mismatch(x, theirs), 3), order, x.rt.lanes.Keys, now)
    ensures Reaches(x.Cfg(), EMPTY, Mismatch(x, theirs))
    ensures StandingOf(x.rt, After(x.Cfg(), EMPTY, Mismatch(x, theirs), 3), order, x.A(), now) == Invalid
    ensures HealthFor(nodes, failures, alerts, migrated) == OffTrack
  {
    hide After, Core, Reports, StandingOf, CountsOf, Declared, HealthFor, Newest, HoldsWith;
    hide L.AddsReport, L.RowStays;
    var cfg, run := x.Cfg(), Mismatch(x, theirs);
    MismatchIsLegal(x, theirs);
    MismatchReports(x, theirs);
    assert LastOf(order, {2}) == Some(2);
    L.LostWorkStandsByBuild(cfg, run, 2, 3, 0, 1, Some(theirs), 2, x.rt, x.build, order, now);
    L.BrokenCellIsOffTrack(x.rt, After(cfg, EMPTY, run, 3), order, now, nodes, n, failures, alerts, migrated, x.A());
  }

  /** Such observers exist: two direct lanes of the shipped catalogue. */
  function DirectLane(id: string): Lane {
    Lane(id, "socks5h://gost:1080", "instance", "node", "direct", "warp", None, None, "image", "digest", "origin",
         "direct", None, "warp", "v4", "digest", None, ["youtube"])
  }

  function TwoLanes(): Setup {
    var lanes := map["a" := DirectLane("a"), "b" := DirectLane("b")];
    Setup(Observer(CATALOG, ["a", "b"], lanes, ["youtube"]), "a", "b", "youtube", "build", 1, "worker", "error")
  }

  lemma DirectLaneLoads(id: string)
    requires id == "a" || id == "b"
    ensures Loaded(CATALOG, DirectLane(id)) && DirectLane(id).id == id
  {
    var lane := DirectLane(id);
    assert lane.substrate == "direct" && |lane.substrate| == 6;
    assert ById(CATALOG, "youtube") == Some(CATALOG[0]);
  }

  lemma CanonicalIsNoShortId()
    ensures !Known(CATALOG, CATALOG[0].scenarioId)
  {
    var name := CATALOG[0].scenarioId;
    ByIdFinds(CATALOG, name);
    forall d | d in CATALOG
      ensures d.id != name
    {
      assert |d.id| < |name|;
    }
  }

  lemma SuchObserversExist()
    ensures TwoLanes().Valid() && L.Nameable(TwoLanes().rt.defs, TwoLanes().scenario)
    ensures TwoLanes().A() in Declared(TwoLanes().rt, TwoLanes().rt.lanes.Keys)
  {
    hide Loaded, Canonical, Known, WellFormed, CATALOG;
    CatalogWellFormed();
    DirectLaneLoads("a");
    DirectLaneLoads("b");
    assert "a"[0] != "b"[0];
    YoutubeIsNameable();
  }

  lemma YoutubeIsNameable()
    ensures L.Nameable(CATALOG, "youtube")
  {
    assert ById(CATALOG, "youtube") == Some(CATALOG[0]);
    assert |CATALOG[0].scenarioId| >= 3;
    CanonicalIsNoShortId();
  }

  // ----- A removed lane that stops every worker.

  /** Time 600 is when the first lease of `Working` runs out, and 1200 when the second one does. */
  function Requeue(cfg: Config, cell: Cell, w: Worker): Db {
    var d := Working(cfg, EMPTY, cell, w, 0);
    d.(tasks := map[0 := Requeued(LeasedOnce(cfg, EMPTY, cell, w, 0))])
  }

  function SecondAttempt(cfg: Config, cell: Cell, w: Worker): Db {
    var d := Working(cfg, EMPTY, cell, w, 0);
    var t := LeasedTask(Requeued(LeasedOnce(cfg, EMPTY, cell, w, 0)), 2, w.name, 600, w.build, 600);
    d.(tasks := map[0 := t], uuids := 3)
  }

  lemma RestartKeepsLease(cfg: Config, cell: Cell, w: Worker, report: Reporter, repair: Repairer, lanes: set<string>,
                          now: int)
    ensures var d := Working(cfg, EMPTY, cell, w, 0); Recover(report, repair, lanes, d, now) == d
  {
    hide Before, LeasedOnce, GroupPending;
    var d := Working(cfg, EMPTY, cell, w, 0);
    var t := LeasedOnce(cfg, EMPTY, cell, w, 0);
    assert d.tasks == map[0 := t] && LiveLease(t) && t.group == 0 by {
      LeaseIsLive(cfg, cell, w);
    }
    NothingUnleased(report, d, d.nextTask, now);
    assert HasLiveLease(d.tasks, 0);
  }

  lemma LeaseIsLive(cfg: Config, cell: Cell, w: Worker)
    ensures LiveLease(LeasedOnce(cfg, EMPTY, cell, w, 0)) && LeasedOnce(cfg, EMPTY, cell, w, 0).group == 0
  {
  }

  lemma ExpiryRequeues(cfg: Config, cell: Cell, w: Worker, report: Reporter)
    ensures Expire(report, Working(cfg, EMPTY, cell, w, 0), 600) == Requeue(cfg, cell, w)
    ensures !ExpiryRaises(report, Working(cfg, EMPTY, cell, w, 0), 600)
  {
    hide KindOf;
    var d := Working(cfg, EMPTY, cell, w, 0);
    assert d.nextTask == 1 && ExpireBelow(report, d, 0, 600) == d;
    assert d.tasks[0].attempts == 1 && Overdue(d.tasks[0], 600);
    assert ExpireBelow(report, d, 1, 600) == ExpireRow(report, d, 0, 600);
  }

  lemma ClaimsAgain(cfg: Config, cell: Cell, w: Worker)
    ensures Claim(Requeue(cfg, cell, w), w.name, KindOf(cfg.defs, cell.scenario), 600, w.build, 600)
            == (SecondAttempt(cfg, cell, w), Some(0))
  {
    hide KindOf;
    var d, kind := Requeue(cfg, cell, w), KindOf(cfg.defs, cell.scenario);
    assert Claimable(d, kind) == {0};
    assert First(d, {0}) == 0;
    var e := Claim(d, w.name, kind, 600, w.build, 600).0;
    assert e.tasks == SecondAttempt(cfg, cell, w).tasks && e.groups == d.groups;
  }

  /** A cell is leased, its lane is removed by a restart, the lease runs out, and a worker claims. */
  function Removal(cfg: Config, lanes: map<string, Lane>, build: string, cell: Cell, w: Worker): Trace {
    var kind := KindOf(cfg.defs, cell.scenario);
    var report, repair := Reports(cfg, lanes, build), RepairerFor(cfg.defs, PublicLanes(cfg.defs, lanes), build);
    [At(0, Enqueue([cell.lane], [cell.scenario])), At(0, ClaimJob(w.name, kind, 600, w.build)),
     At(60, Restart(report, repair, lanes.Keys)), At(600, ExpireLeases(report)),
     At(600, ClaimJob(w.name, kind, 600, w.build))]
  }

  lemma RemovalStates(cfg: Config, lanes: map<string, Lane>, build: string, cell: Cell, w: Worker)
    requires cfg.maxPending >= 1 && Known(cfg.defs, cell.scenario)
    ensures var run := Removal(cfg, lanes, build, cell, w);
            && After(cfg, EMPTY, run, 3) == Working(cfg, EMPTY, cell, w, 0)
            && After(cfg, EMPTY, run, 5) == SecondAttempt(cfg, cell, w)
  {
    hide After, Working, Reports, RepairerFor, PublicLanes, KindOf, Known;
    hide Recover, Expire, Claim, Requeue, SecondAttempt;
    var run, report := Removal(cfg, lanes, build, cell, w), Reports(cfg, lanes, build);
    EmptyAtFirst(cfg, run);
    Starts(cfg, run, 0, EMPTY, cell, w, 0);
    RestartKeepsLease(cfg, cell, w, report, RepairerFor(cfg.defs, PublicLanes(cfg.defs, lanes), build), lanes.Keys, 60);
    ExpiryRequeues(cfg, cell, w, report);
    ClaimsAgain(cfg, cell, w);
    NextState(cfg, EMPTY, run, 2);
    NextState(cfg, EMPTY, run, 3);
    NextState(cfg, EMPTY, run, 4);
  }

  lemma RemovalIsLegal(cfg: Config, lanes: map<string, Lane>, build: string, cell: Cell, w: Worker)
    requires AllLoaded(cfg.defs, lanes)
    ensures Reaches(cfg, EMPTY, Removal(cfg, lanes, build, cell, w))
  {
    hide After, Core, Honest, Steady, Reports, RepairerFor, KindOf;
    var run := Removal(cfg, lanes, build, cell, w);
    EmptyCore(cfg);
    ReportsHonestly(cfg, lanes, build);
    assert Published(cfg.defs, PublicLanes(cfg.defs, lanes));
    RepairerIsSteady(cfg.defs, PublicLanes(cfg.defs, lanes), build);
    forall i | 0 <= i < |run|
      ensures Legal(After(cfg, EMPTY, run, i), run[i]) && run[i].now == if i < 2 then 0 else if i < 3 then 60 else 600
    {
      assert i == 0 || i == 1 || i == 2 || i == 3 || i == 4;
    }
  }

  /**
   A lane removed while its work is leased. The first claim after the lease ran out is answered by an
   error and yet takes a second lease; once that one runs out too, every claim of every worker is
   answered by an error and changes nothing.
   */
  lemma RemovedLaneStopsWorkers(cfg: Config, lanes: map<string, Lane>, build: string, cell: Cell, w: Worker,
                                other: string, kind: ExecutionClass, lease: int, leased: Option<string>, now: int)
    requires AllLoaded(cfg.defs, lanes) && cfg.maxPending >= 1 && Known(cfg.defs, cell.scenario)
    requires cell.lane !in lanes && 1200 <= now
    ensures var run := Removal(cfg, lanes, build, cell, w);
            var s, d := After(cfg, EMPTY, run, 3), After(cfg, EMPTY, run, 5);
            && Reaches(cfg, EMPTY, run)
            && Expiry.ClaimJob(cfg, lanes, build, s, w.name, KindOf(cfg.defs, cell.scenario), 600, w.build, 600)
               == (d, ServerError)
            && HasOrphan(d, lanes.Keys, now)
            && Expiry.ClaimJob(cfg, lanes, build, d, other, kind, lease, leased, now) == (d, ServerError)
  {
    hide After, Core, Working, Reports, KindOf, Known, Expire, ExpiryRaises, Claim, Requeue, SecondAttempt;
    RemovalIsLegal(cfg, lanes, build, cell, w);
    RemovalStates(cfg, lanes, build, cell, w);
    ExpiryRequeues(cfg, cell, w, Reports(cfg, lanes, build));
    ClaimsAgain(cfg, cell, w);
    SecondAttemptIsOrphaned(cfg, lanes, cell, w, now);
    OrphanRaises(cfg, lanes, build, SecondAttempt(cfg, cell, w), 0, now);
  }

  lemma SecondAttemptIsOrphaned(cfg: Config, lanes: map<string, Lane>, cell: Cell, w: Worker, now: int)
    requires cell.lane !in lanes && 1200 <= now
    ensures var d := SecondAttempt(cfg, cell, w);
            && 0 in d.tasks && d.tasks[0].cell == cell
            && Orphaned(d.tasks[0], lanes.Keys, now) && HasOrphan(d, lanes.Keys, now)
  {
    hide KindOf;
    var d := SecondAttempt(cfg, cell, w);
    assert Orphaned(d.tasks[0], lanes.Keys, now);
  }
}
