/**
 What becomes of expired leases when the allowlist changes: an expiry call is all or nothing, and a
 second attempt on a lane that is no longer configured stops it, and with it the claims of all workers
 (api.py: `expire_leases` and `claim_job`).
 */
module Expiry {
  import opened Wrappers
  import opened Catalog
  import opened Lanes
  import opened Provenance
  import opened Queue
  import opened QueueInvariants
  import opened Recovery
  import opened QueueRuns
  import opened QueueTheorems
  import S = Store

  // ----- Every task is for a scenario of the catalogue.

  predicate KnownScenarios(defs: seq<Definition>, tasks: map<nat, Task>) {
    forall k | k in tasks :: Known(defs, tasks[k].cell.scenario)
  }

  lemma SubmittedScenariosAreKnown(cfg: Config, db: Db, lanes: seq<string>, scenarios: seq<string>, now: int, k: nat)
    requires k !in db.tasks && k in Submit(cfg, db, lanes, scenarios, now).0.tasks
    ensures Known(cfg.defs, Submit(cfg, db, lanes, scenarios, now).0.tasks[k].cell.scenario)
  {
    hide Cells;
    var cells := Cells(lanes, scenarios);
    var added := NewTasks(cfg.defs, db.uuids, cells, db.nextTask);
    assert k in added && added[k].cell == cells[k - db.nextTask];
  }

  lemma {:induction false} ScenariosStayKnown(cfg: Config, trace: Trace, i: nat, k: nat)
    requires Reaches(cfg, EMPTY, trace) && i <= |trace| && k in After(cfg, EMPTY, trace, i).tasks
    ensures Known(cfg.defs, After(cfg, EMPTY, trace, i).tasks[k].cell.scenario)
  {
    hide After, Core, Reaches, Submit;
    if i == 0 {
      NothingAtFirst(cfg, trace);
    } else {
      var s, e := After(cfg, EMPTY, trace, i - 1), trace[i - 1];
      StepAt(cfg, EMPTY, trace, i - 1, k, 0, 0);
      NextState(cfg, EMPTY, trace, i - 1);
      if k in s.tasks {
        ScenariosStayKnown(cfg, trace, i - 1, k);
      } else {
        SubmittedScenariosAreKnown(cfg, s, e.event.lanes, e.event.scenarios, e.now, k);
      }
    }
  }

  lemma NothingAtFirst(cfg: Config, trace: Trace)
    ensures After(cfg, EMPTY, trace, 0).tasks == map[]
  {
  }

  // ----- Expiry is all or nothing.

  /** An overdue second attempt on a lane that is not configured. */
  predicate Orphaned(t: Task, lanes: set<string>, now: int) {
    OverdueForGood(t, now) && t.cell.lane !in lanes
  }

  predicate HasOrphan(db: Db, lanes: set<string>, now: int) {
    exists k | k in db.tasks :: Orphaned(db.tasks[k], lanes, now)
  }

  /** What an observer with these lanes hands to the store. */
  function Reports(cfg: Config, lanes: map<string, Lane>, build: string): Reporter {
    ReporterFor(cfg.defs, PublicLanes(cfg.defs, lanes), build)
  }

  lemma OrphansRaise(cfg: Config, lanes: map<string, Lane>, build: string, db: Db, now: int)
    requires AllLoaded(cfg.defs, lanes) && KnownScenarios(cfg.defs, db.tasks)
    ensures ExpiryRaises(Reports(cfg, lanes, build), db, now) <==> HasOrphan(db, lanes.Keys, now)
  {
    hide Reports;
    var report := Reports(cfg, lanes, build);
    forall k | k in db.tasks
      ensures report(db.tasks[k].cell, 0, 0).None? <==> db.tasks[k].cell.lane !in lanes.Keys
    {
      ReportNeedsLane(cfg, lanes, build, db.tasks[k].cell);
    }
    if HasOrphan(db, lanes.Keys, now) {
      var k :| k in db.tasks && Orphaned(db.tasks[k], lanes.Keys, now);
      assert OverdueForGood(db.tasks[k], now) && report(db.tasks[k].cell, 0, 0).None?;
    }
    if ExpiryRaises(report, db, now) {
      var k :| k in db.tasks && OverdueForGood(db.tasks[k], now) && report(db.tasks[k].cell, 0, 0).None?;
      assert Orphaned(db.tasks[k], lanes.Keys, now);
    }
  }

  lemma ReportNeedsLane(cfg: Config, lanes: map<string, Lane>, build: string, cell: Cell)
    requires AllLoaded(cfg.defs, lanes) && Known(cfg.defs, cell.scenario)
    ensures Reports(cfg, lanes, build)(cell, 0, 0).None? <==> cell.lane !in lanes.Keys
  {
    ReportsConfiguredLanes(cfg.defs, lanes, build, cell, 0, 0);
  }

  /** Queued again: the lease is gone, the attempt stays counted. */
  predicate FreedAgain(t: Task, u: Task) {
    && SameIdentity(t, u) && u.status == Queued && u.token.None? && u.owner.None? && u.expiresAt.None?
    && u.attempts == t.attempts && u.build == t.build && u.key == t.key && u.startedAt == t.startedAt
    && u.finishedAt == t.finishedAt && u.error == Some("worker lease expired; bounded retry queued")
  }

  predicate GivenUp(t: Task, u: Task, now: int) {
    && SameIdentity(t, u) && u.status == Unknown && u.token == t.token && u.owner == t.owner
    && u.expiresAt == t.expiresAt && u.attempts == t.attempts && u.build == t.build && u.key == t.key
    && u.startedAt == t.startedAt && u.finishedAt == Some(now)
    && u.error == Some("worker lease expired after bounded retry")
  }

  /** No overdue lease is left, first attempts are queued again, second ones closed, and nothing else changes. */
  predicate AllSettled(db: Db, d: Db, now: int) {
    d.tasks.Keys == db.tasks.Keys
    && forall k | k in db.tasks ::
         && !Overdue(d.tasks[k], now)
         && (if !Overdue(db.tasks[k], now) then d.tasks[k] == db.tasks[k]
             else if db.tasks[k].attempts < 2 then FreedAgain(db.tasks[k], d.tasks[k])
             else GivenUp(db.tasks[k], d.tasks[k], now))
  }

  lemma ExpiryEffect(report: Reporter, db: Db, now: int)
    requires Honest(report) && Keyed(db)
    ensures if ExpiryRaises(report, db, now) then Expire(report, db, now) == db else AllSettled(db, Expire(report, db,
        now), now)
  {
    hide ExpireBelow, Honest;
    if !ExpiryRaises(report, db, now) {
      ExpireExact(report, db, db.nextTask, now);
    }
  }

  /**
   In every reachable state a call of `expire_leases` leaves no overdue lease behind if and only if no
   second attempt on an unconfigured lane is overdue; if one is, the call changes nothing at all.
   */
  lemma ExpirySettlesAllOrNone(cfg: Config, trace: Trace, i: nat, lanes: map<string, Lane>, build: string, now: int)
    requires Reaches(cfg, EMPTY, trace) && i <= |trace| && AllLoaded(cfg.defs, lanes)
    ensures var s := After(cfg, EMPTY, trace, i);
            var d := Expire(Reports(cfg, lanes, build), s, now);
            if HasOrphan(s, lanes.Keys, now) then d == s && exists k | k in d.tasks :: Overdue(d.tasks[k], now)
            else AllSettled(s, d, now)
  {
    hide After, Core, Reports, Expire, ExpiryRaises;
    var s, report := After(cfg, EMPTY, trace, i), Reports(cfg, lanes, build);
    forall k | k in s.tasks
      ensures Known(cfg.defs, s.tasks[k].cell.scenario)
    {
      ScenariosStayKnown(cfg, trace, i, k);
    }
    OrphansRaise(cfg, lanes, build, s, now);
    ReportsHonestly(cfg, lanes, build);
    KeyedAt(cfg, EMPTY, trace, i);
    ExpiryEffect(report, s, now);
    if HasOrphan(s, lanes.Keys, now) {
      var k :| k in s.tasks && Orphaned(s.tasks[k], lanes.Keys, now);
      assert Overdue(s.tasks[k], now);
    }
  }

  lemma ReportsHonestly(cfg: Config, lanes: map<string, Lane>, build: string)
    ensures Honest(Reports(cfg, lanes, build))
  {
    ReporterIsHonest(cfg.defs, PublicLanes(cfg.defs, lanes), build);
  }

  lemma KeyedAt(cfg: Config, db: Db, trace: Trace, i: nat)
    requires Reaches(cfg, db, trace) && i <= |trace|
    ensures Keyed(After(cfg, db, trace, i)) && Leased(After(cfg, db, trace, i).tasks)
  {
    hide After;
    CoreHoldsThroughout(cfg, db, trace, i);
  }

  // ----- A removed lane stops expiry and claims.

  /** The reporter of an observer whose allowlist does not have the lane. */
  ghost predicate MadeWithout(cfg: Config, report: Reporter, lane: string) {
    exists lanes, build :: lane !in lanes && report == Reports(cfg, lanes, build)
  }

  lemma CannotReport(cfg: Config, report: Reporter, cell: Cell)
    requires MadeWithout(cfg, report, cell.lane)
    ensures report(cell, 0, 0).None?
  {
  }

  /** Expiry calls, and failures of the task, come from observers whose allowlist does not have the lane. */
  ghost predicate LaneIsGone(cfg: Config, e: Timed, k: nat, lane: string) {
    match e.event
    case ExpireLeases(report) => MadeWithout(cfg, report, lane)
    case FailJob(task, _, report, _) => task == k ==> MadeWithout(cfg, report, lane)
    case _ => true
  }

  /** One event, seen by an overdue second attempt whose lane is gone. */
  lemma StuckStep(cfg: Config, db: Db, e: Timed, k: nat)
    requires Core(cfg, db) && Legal(db, e) && k in db.tasks && OverdueForGood(db.tasks[k], e.now)
    requires LaneIsGone(cfg, e, k, db.tasks[k].cell.lane)
    ensures k in Apply(cfg, db, e).tasks && Apply(cfg, db, e).tasks[k] == db.tasks[k]
    ensures e.event.ExpireLeases? ==> Apply(cfg, db, e) == db
  {
    hide Core, Submit, Claim, CompleteLeased, FailLeased, Recover, DeleteGroups, ExpireBelow, MadeWithout;
    var cell := db.tasks[k].cell;
    match e.event
    case Mint =>
    case Enqueue(lanes, scenarios) => StuckInSubmit(cfg, db, lanes, scenarios, e.now, k);
    case ClaimJob(worker, kind, lease, build) => StuckInClaim(db, worker, kind, lease, build, e.now, k);
    case ExpireLeases(report) => CannotReport(cfg, report, cell);
    case CompleteJob(task, token, payload) => StuckInComplete(db, task, token, payload, e.now, k);
    case FailJob(task, token, report, error) =>
      if task == k {
        CannotReport(cfg, report, cell);
      }
      StuckInFail(report, db, task, token, error, e.now, k);
    case Retain(cutoff, evicted) => StuckInRetain(cfg, db, Aged(db, cutoff) + evicted * FinishedGroups(db), k);
    case Restart(report, repair, configured) => StuckInRecover(cfg, report, repair, configured, db, e.now, k);
  }

  lemma StuckInSubmit(cfg: Config, db: Db, lanes: seq<string>, scenarios: seq<string>, now: int, k: nat)
    requires Core(cfg, db) && k in db.tasks
    ensures var d := Submit(cfg, db, lanes, scenarios, now).0; k in d.tasks && d.tasks[k] == db.tasks[k]
  {
    hide UniqueCells, GroupsAgree, Leased;
  }

  lemma StuckInClaim(db: Db, worker: string, kind: ExecutionClass, lease: int, build: Option<string>, now: int, k: nat)
    requires k in db.tasks && db.tasks[k].status == Running
    ensures var d := Claim(db, worker, kind, lease, build, now).0; k in d.tasks && d.tasks[k] == db.tasks[k]
  {
  }

  lemma StuckInComplete(db: Db, task: nat, token: nat, payload: Payload, now: int, k: nat)
    requires k in db.tasks && Overdue(db.tasks[k], now)
    ensures var d := CompleteLeased(db, task, token, payload, now).0; k in d.tasks && d.tasks[k] == db.tasks[k]
  {
  }

  lemma StuckInFail(report: Reporter, db: Db, task: nat, token: nat, error: string, now: int, k: nat)
    requires k in db.tasks && Honest(report) && (task == k ==> report(db.tasks[k].cell, 0, 0).None?)
    ensures var d := FailLeased(report, db, task, token, error, now).0; k in d.tasks && d.tasks[k] == db.tasks[k]
  {
    assert HonestAt(report, db.tasks[k].cell, now, db.uuids);
  }

  lemma StuckInRetain(cfg: Config, db: Db, doomed: set<nat>, k: nat)
    requires Core(cfg, db) && k in db.tasks && Pending(db.tasks[k]) && doomed <= FinishedGroups(db)
    ensures var d := DeleteGroups(db, doomed); k in d.tasks && d.tasks[k] == db.tasks[k]
  {
    assert GroupPending(db.tasks, db.tasks[k].group);
  }

  lemma StuckInRecover(cfg: Config, report: Reporter, repair: Repairer, configured: set<string>, db: Db, now: int,
      k: nat)
    requires Core(cfg, db) && Honest(report) && k in db.tasks && LiveLease(db.tasks[k])
    ensures var d := Recover(report, repair, configured, db, now); k in d.tasks && d.tasks[k] == db.tasks[k]
  {
    hide UniqueCells, GroupsAgree, Leased, WithinCap, Recover;
    if !RecoveryRaises(report, repair, db) {
      RecoveryKeepsLeases(report, repair, configured, db, now, k);
    } else {
      RaisedRecovery(report, repair, configured, db, now);
    }
  }

  lemma RaisedRecovery(report: Reporter, repair: Repairer, configured: set<string>, db: Db, now: int)
    requires RecoveryRaises(report, repair, db)
    ensures Recover(report, repair, configured, db, now) == db
  {
  }

  /**
   A lane removed while its second attempt runs stops all expiry: once that lease is overdue, no expiry
   call changes anything any more, for any lane, and the task stays running, in every run in which the
   lane does not come back.
   */
  lemma {:induction false} RemovedLaneStopsExpiry(cfg: Config, db: Db, trace: Trace, i: nat, j: nat, k: nat)
    requires Reaches(cfg, db, trace) && i <= j <= |trace| && i < |trace|
    requires var s := After(cfg, db, trace, i); k in s.tasks && OverdueForGood(s.tasks[k], trace[i].now)
    requires forall m | i <= m < j :: LaneIsGone(cfg, trace[m], k, After(cfg, db, trace, i).tasks[k].cell.lane)
    ensures k in After(cfg, db, trace, j).tasks
    ensures After(cfg, db, trace, j).tasks[k] == After(cfg, db, trace, i).tasks[k]
    ensures forall m | i <= m < j && trace[m].event.ExpireLeases? ::
              After(cfg, db, trace, m + 1) == After(cfg, db, trace, m)
  {
    hide After, Core, Apply, Legal, LaneIsGone;
    if i < j {
      RemovedLaneStopsExpiry(cfg, db, trace, i, j - 1, k);
      CoreHoldsThroughout(cfg, db, trace, j - 1);
      NextState(cfg, db, trace, j - 1);
      StuckStep(cfg, After(cfg, db, trace, j - 1), trace[j - 1], k);
    }
  }

  // ----- The claim request.

  datatype Reply = ServerError | NoJob | Job(task: nat)

  /** `claim_job`: expiry first, then the claim, then the lookup of the claimed task's lane. */
  function ClaimJob(cfg: Config, lanes: map<string, Lane>, build: string, db: Db, worker: string, kind: ExecutionClass,
                    lease: int, leased: Option<string>, now: int): (Db, Reply) {
    var report := Reports(cfg, lanes, build);
    if ExpiryRaises(report, db, now) then (db, ServerError)
    else
      var (d, claimed) := Claim(Expire(report, db, now), worker, kind, lease, leased, now);
      match claimed
      case None => (d, NoJob)
      case Some(k) => (d, if k in d.tasks && d.tasks[k].cell.lane in lanes then Job(k) else ServerError)
  }

  method HandleClaim(store: S.Store, lanes: map<string, Lane>, build: string, worker: string, kind: ExecutionClass,
                     lease: int, leased: Option<string>, now: int) returns (reply: Reply)
    requires Keyed(store.Contents())
    modifies store
    ensures (store.Contents(), reply) == ClaimJob(store.cfg, lanes, build, old(store.Contents()), worker, kind, lease,
                                                  leased, now)
  {
    hide Claim, Expire, ExpiryRaises, Reports;
    ReportsHonestly(store.cfg, lanes, build);
    RaisedExpiry(Reports(store.cfg, lanes, build), store.Contents(), now);
    var expired := store.ExpireLeases(Reports(store.cfg, lanes, build), now);
    if expired.None? {
      return ServerError;
    }
    var claimed := store.ClaimTask(worker, kind, lease, leased, now);
    if claimed.None? {
      return NoJob;
    }
    var k := claimed.value;
    reply := if k in store.tasks && store.tasks[k].cell.lane in lanes then Job(k) else ServerError;
  }

  lemma RaisedExpiry(report: Reporter, db: Db, now: int)
    ensures ExpiryRaises(report, db, now) ==> Expire(report, db, now) == db
  {
  }

  /** While an orphaned lease stands, every claim of every worker is answered by an error and changes nothing. */
  lemma RemovedLaneStopsClaims(cfg: Config, trace: Trace, i: nat, j: nat, k: nat, lanes: map<string, Lane>,
      build: string, worker: string, kind: ExecutionClass, lease: int, leased: Option<string>, now: int)
    requires Reaches(cfg, EMPTY, trace) && i <= j <= |trace| && i < |trace|
    requires var s := After(cfg, EMPTY, trace, i); k in s.tasks && OverdueForGood(s.tasks[k], trace[i].now)
    requires forall m | i <= m < j :: LaneIsGone(cfg, trace[m], k, After(cfg, EMPTY, trace, i).tasks[k].cell.lane)
    requires trace[i].now <= now && After(cfg, EMPTY, trace, i).tasks[k].cell.lane !in lanes
    ensures var s := After(cfg, EMPTY, trace, j);
            ClaimJob(cfg, lanes, build, s, worker, kind, lease, leased, now) == (s, ServerError)
  {
    hide After, Core, LaneIsGone, Claim, Expire, Reports;
    RemovedLaneStopsExpiry(cfg, EMPTY, trace, i, j, k);
    var s := After(cfg, EMPTY, trace, j);
    OrphanRaises(cfg, lanes, build, s, k, now);
  }

  lemma OrphanRaises(cfg: Config, lanes: map<string, Lane>, build: string, s: Db, k: nat, now: int)
    requires k in s.tasks && Orphaned(s.tasks[k], lanes.Keys, now)
    ensures ExpiryRaises(Reports(cfg, lanes, build), s, now)
  {
    assert OverdueForGood(s.tasks[k], now) && Reports(cfg, lanes, build)(s.tasks[k].cell, 0, 0).None?;
  }

  /** The task is queued, or will be once its overdue first lease is taken back. */
  predicate Offerable(t: Task, kind: ExecutionClass, now: int) {
    t.kind == kind && (t.status == Queued || (Overdue(t, now) && t.attempts < MAX_ATTEMPTS))
  }

  /** The offerable task that comes first: by creation of its group, then by ordinal, then by id. */
  predicate NextOffered(s: Db, kind: ExecutionClass, now: int, k: nat) {
    && k in s.tasks && s.tasks[k].group in s.groups && Offerable(s.tasks[k], kind, now)
    && forall j | j in s.tasks && s.tasks[j].group in s.groups && Offerable(s.tasks[j], kind, now) ::
         j == k ||
         var x, y := s.groups[s.tasks[k].group].createdAt, s.groups[s.tasks[j].group].createdAt;
         x < y || (x == y && (s.tasks[k].ordinal < s.tasks[j].ordinal
                              || (s.tasks[k].ordinal == s.tasks[j].ordinal && k < j)))
  }

  /** The next task of the class is on a lane that is not configured. */
  predicate NextIsForeign(s: Db, lanes: set<string>, kind: ExecutionClass, now: int) {
    exists k | k in s.tasks :: NextOffered(s, kind, now, k) && s.tasks[k].cell.lane !in lanes
  }

  /**
   The reply to every claim, from the state before it. It is an error exactly when an overdue second
   attempt is orphaned or the next task of the class is on a lane that is not configured; it is no job
   exactly when nothing is orphaned and no task of the class is queued or has an overdue first lease;
   and otherwise it is the next task.
   */
  lemma ClaimAnswersExactly(cfg: Config, trace: Trace, i: nat, lanes: map<string, Lane>, build: string,
      worker: string, kind: ExecutionClass, lease: int, leased: Option<string>, now: int)
    requires Reaches(cfg, EMPTY, trace) && i <= |trace| && AllLoaded(cfg.defs, lanes)
    ensures var s := After(cfg, EMPTY, trace, i);
            var reply := ClaimJob(cfg, lanes, build, s, worker, kind, lease, leased, now).1;
            && (reply.ServerError? <==> HasOrphan(s, lanes.Keys, now) || NextIsForeign(s, lanes.Keys, kind, now))
            && (reply.NoJob? <==>
                  !HasOrphan(s, lanes.Keys, now) && forall k | k in s.tasks :: !Offerable(s.tasks[k], kind, now))
            && (reply.Job? ==> reply.task in s.tasks && NextOffered(s, kind, now, reply.task)
                               && s.tasks[reply.task].cell.lane in lanes)
  {
    hide After, Core, Reports, Expire, ExpiryRaises, Claim, Keyed, Leased, Settles, HasOrphan, NextOffered, Offerable;
    var s, report := After(cfg, EMPTY, trace, i), Reports(cfg, lanes, build);
    forall k | k in s.tasks
      ensures Known(cfg.defs, s.tasks[k].cell.scenario)
    {
      ScenariosStayKnown(cfg, trace, i, k);
    }
    OrphansRaise(cfg, lanes, build, s, now);
    if !HasOrphan(s, lanes.Keys, now) {
      ReportsHonestly(cfg, lanes, build);
      KeyedAt(cfg, EMPTY, trace, i);
      ExpirySettles(report, s, now);
      var d := Expire(report, s, now);
      ClaimTakesNext(s, d, worker, kind, lease, leased, now);
      var claim := Claim(d, worker, kind, lease, leased, now);
      forall j | j in s.tasks && NextOffered(s, kind, now, j)
        ensures Offerable(s.tasks[j], kind, now) && claim.1 == Some(j)
      {
        NextIsOfferable(s, kind, now, j);
        OneIsNext(s, kind, now, j, claim.1.value);
      }
    }
  }

  /**
   When every pending task is on a configured lane, no claim fails, and a worker is sent away without a
   job exactly when no task of its class is queued or has an overdue first lease.
   */
  lemma ConfiguredClaimsAreServed(cfg: Config, trace: Trace, i: nat, lanes: map<string, Lane>, build: string,
      worker: string, kind: ExecutionClass, lease: int, leased: Option<string>, now: int)
    requires Reaches(cfg, EMPTY, trace) && i <= |trace| && AllLoaded(cfg.defs, lanes)
    requires var s := After(cfg, EMPTY, trace, i);
             forall k | k in s.tasks && Pending(s.tasks[k]) :: s.tasks[k].cell.lane in lanes
    ensures var s := After(cfg, EMPTY, trace, i);
            var reply := ClaimJob(cfg, lanes, build, s, worker, kind, lease, leased, now).1;
            && !reply.ServerError?
            && (reply.NoJob? <==> forall k | k in s.tasks :: !Offerable(s.tasks[k], kind, now))
            && (reply.Job? ==> reply.task in s.tasks && Offerable(s.tasks[reply.task], kind, now))
  {
    hide After, Core, Reaches, ClaimJob, Before;
    ClaimAnswersExactly(cfg, trace, i, lanes, build, worker, kind, lease, leased, now);
  }

  /** What an expiry call leaves of the tasks, and that it keeps the order of the queue. */
  predicate Settles(db: Db, d: Db, now: int) {
    && d.tasks.Keys == db.tasks.Keys && d.groups.Keys == db.groups.Keys
    && (forall k | k in db.tasks :: d.tasks[k] == ExpiredTask(db.tasks[k], now))
    && (forall g | g in db.groups :: d.groups[g].createdAt == db.groups[g].createdAt)
  }

  lemma ExpirySettles(report: Reporter, db: Db, now: int)
    requires Honest(report) && Keyed(db) && !ExpiryRaises(report, db, now)
    ensures Settles(db, Expire(report, db, now), now)
  {
    hide ExpireBelow, Honest;
    ExpireExact(report, db, db.nextTask, now);
  }

  lemma ClaimableAfterExpiry(db: Db, d: Db, kind: ExecutionClass, now: int, k: nat)
    requires Keyed(db) && Leased(db.tasks) && Settles(db, d, now) && k in db.tasks
    ensures k in Claimable(d, kind) <==> Offerable(db.tasks[k], kind, now)
    ensures d.tasks[k].cell == db.tasks[k].cell && d.tasks[k].ordinal == db.tasks[k].ordinal
    ensures d.tasks[k].group == db.tasks[k].group && db.tasks[k].group in d.groups && db.tasks[k].group in db.groups
    ensures d.groups[db.tasks[k].group].createdAt == db.groups[db.tasks[k].group].createdAt
  {
    assert Bounded(db.tasks[k]);
  }

  lemma NextIsOfferable(s: Db, kind: ExecutionClass, now: int, j: nat)
    requires NextOffered(s, kind, now, j)
    ensures Offerable(s.tasks[j], kind, now)
  {
  }

  lemma OneIsNext(s: Db, kind: ExecutionClass, now: int, j: nat, k: nat)
    requires NextOffered(s, kind, now, j) && NextOffered(s, kind, now, k)
    ensures j == k
  {
  }

  lemma ClaimTakesFirst(db: Db, worker: string, kind: ExecutionClass, lease: int, leased: Option<string>, now: int)
    ensures var (d, claimed) := Claim(db, worker, kind, lease, leased, now);
            && (claimed.None? <==> Claimable(db, kind) == {})
            && (claimed.Some? ==> Leads(db, Claimable(db, kind), claimed.value) && claimed.value in d.tasks
                                  && d.tasks[claimed.value].cell == db.tasks[claimed.value].cell)
  {
  }

  lemma ClaimTakesNext(db: Db, d: Db, worker: string, kind: ExecutionClass, lease: int, leased: Option<string>,
      now: int)
    requires Keyed(db) && Leased(db.tasks) && Settles(db, d, now)
    ensures var (e, claimed) := Claim(d, worker, kind, lease, leased, now);
            && (claimed.None? <==> forall k | k in db.tasks :: !Offerable(db.tasks[k], kind, now))
            && (claimed.Some? ==> claimed.value in db.tasks && NextOffered(db, kind, now, claimed.value)
                                  && claimed.value in e.tasks
                                  && e.tasks[claimed.value].cell == db.tasks[claimed.value].cell)
  {
    hide Claim, Offerable, Keyed, Leased, ExpiredTask;
    ClaimTakesFirst(d, worker, kind, lease, leased, now);
    forall k | k in db.tasks
      ensures k in Claimable(d, kind) <==> Offerable(db.tasks[k], kind, now)
      ensures d.tasks[k].cell == db.tasks[k].cell && d.tasks[k].ordinal == db.tasks[k].ordinal
      ensures d.tasks[k].group == db.tasks[k].group && db.tasks[k].group in d.groups && db.tasks[k].group in db.groups
      ensures d.groups[db.tasks[k].group].createdAt == db.groups[db.tasks[k].group].createdAt
    {
      ClaimableAfterExpiry(db, d, kind, now, k);
    }
  }
}
