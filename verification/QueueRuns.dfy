/**
 Whole runs of the queue. Every store method is one transaction under one lock, so a run is a
 sequence of atomic events with a clock that does not go backwards; the steps of several requests
 interleave freely.
 */
module QueueRuns {
  import opened Wrappers
  import opened Catalog
  import opened Lanes
  import opened Provenance
  import opened Queue
  import opened QueueInvariants
  import opened Recovery

  datatype Event =
    | Mint                                           // somebody else draws a uuid4, such as an observation id
    | Enqueue(lanes: seq<string>, scenarios: seq<string>)
    | ClaimJob(worker: string, kind: ExecutionClass, lease: int, build: Option<string>)
    | ExpireLeases(report: Reporter)
    | CompleteJob(task: nat, token: nat, payload: Payload)
    | FailJob(task: nat, token: nat, report: Reporter, error: string)
    | Retain(cutoff: int, evicted: set<nat>)         // age-based deletion, then size-based eviction
    | Restart(report: Reporter, repair: Repairer, configured: set<string>)

  datatype Timed = At(now: int, event: Event)

  type Trace = seq<Timed>

  function Apply(cfg: Config, db: Db, e: Timed): Db {
    match e.event
    case Mint => db.(uuids := db.uuids + 1)
    case Enqueue(lanes, scenarios) => Submit(cfg, db, lanes, scenarios, e.now).0
    case ClaimJob(worker, kind, lease, build) => Claim(db, worker, kind, lease, build, e.now).0
    case ExpireLeases(report) => Expire(report, db, e.now)
    case CompleteJob(task, token, payload) => CompleteLeased(db, task, token, payload, e.now).0
    case FailJob(task, token, report, error) => FailLeased(report, db, task, token, error, e.now).0
    case Retain(cutoff, evicted) => DeleteGroups(db, Aged(db, cutoff) + evicted * FinishedGroups(db))
    case Restart(report, repair, configured) => Recover(report, repair, configured, db, e.now)
  }

  /** What the surroundings guarantee: non-empty requests, and ids that some earlier draw produced. */
  ghost predicate Legal(db: Db, e: Timed) {
    match e.event
    case Enqueue(lanes, scenarios) => lanes != [] && scenarios != []
    case ExpireLeases(report) => Honest(report)
    case CompleteJob(task, token, payload) => payload.id < db.uuids
    case FailJob(task, token, report, error) => Honest(report)
    case Restart(report, repair, configured) => Honest(report) && Steady(repair)
    case _ => true
  }

  /** The submitted observation id is not stored yet: INSERT OR REPLACE replaces nothing. */
  predicate ReplacesNothing(db: Db, e: Timed) {
    e.event.CompleteJob? ==> e.event.payload.id !in db.rows
  }

  /** The state after the first i events. */
  function After(cfg: Config, db: Db, trace: Trace, i: nat): Db
    requires i <= |trace|
  {
    if i == 0 then db else Apply(cfg, After(cfg, db, trace, i - 1), trace[i - 1])
  }

  predicate ClockRuns(trace: Trace) {
    forall i, j | 0 <= i <= j < |trace| :: trace[i].now <= trace[j].now
  }

  ghost predicate LegalRun(cfg: Config, db: Db, trace: Trace) {
    ClockRuns(trace) && forall i | 0 <= i < |trace| :: Legal(After(cfg, db, trace, i), trace[i])
  }

  predicate NeverReplaces(cfg: Config, db: Db, trace: Trace) {
    forall i | 0 <= i < |trace| :: ReplacesNothing(After(cfg, db, trace, i), trace[i])
  }

  // ----- Invariants over whole runs.

  lemma StepKeeps(cfg: Config, db: Db, e: Timed)
    requires Core(cfg, db) && Legal(db, e)
    ensures var d := Apply(cfg, db, e); Core(cfg, d) && (ReplacesNothing(db, e) ==> KeepsLedger(db, d))
  {
    match e.event
    case Mint =>
      var d := Apply(cfg, db, e);
      assert OpenGroups(d) == OpenGroups(db);
    case Enqueue(lanes, scenarios) =>
      SubmitKeeps(cfg, db, lanes, scenarios, e.now);
      SubmitKeepsRows(cfg, db, lanes, scenarios, e.now);
    case ClaimJob(worker, kind, lease, build) => ClaimKeeps(cfg, db, worker, kind, lease, build, e.now);
    case ExpireLeases(report) => ExpireKeeps(cfg, report, db, e.now);
    case CompleteJob(task, token, payload) => CompleteKeeps(cfg, db, task, token, payload, e.now);
    case FailJob(task, token, report, error) => FailKeeps(cfg, report, db, task, token, error, e.now);
    case Retain(cutoff, evicted) => DeleteKeeps(cfg, db, Aged(db, cutoff) + evicted * FinishedGroups(db));
    case Restart(report, repair, configured) => RecoverKeeps(cfg, report, repair, configured, db, e.now);
  }

  /**
   In every reachable state groups agree with their tasks, attempts are bounded, open groups stay
   within the cap; and when no observation id is reused, observations match settled tasks one to one.
   */
  lemma {:induction false} CoreHoldsThroughout(cfg: Config, db: Db, trace: Trace, i: nat)
    requires Core(cfg, db) && LegalRun(cfg, db, trace) && i <= |trace|
    ensures Core(cfg, After(cfg, db, trace, i))
    ensures NeverReplaces(cfg, db, trace) ==> KeepsLedger(db, After(cfg, db, trace, i))
  {
    hide Core, Ledger, Apply, Legal;
    if i > 0 {
      CoreHoldsThroughout(cfg, db, trace, i - 1);
      StepKeeps(cfg, After(cfg, db, trace, i - 1), trace[i - 1]);
      assert After(cfg, db, trace, i) == Apply(cfg, After(cfg, db, trace, i - 1), trace[i - 1]);
    }
  }

  // ----- What one event does to one task, one group and one row.

  predicate SameIdentity(t: Task, u: Task) {
    t.group == u.group && t.cell == u.cell && t.ordinal == u.ordinal && t.kind == u.kind
  }

  /** Only an accepted completion completes a task, under its own evidence; a failure or an expiry leaves it unknown. */
  predicate ClosedAs(e: Timed, t: Task) {
    if e.event.CompleteJob? then t.status == Complete && t.key == Evidence(e.event.payload)
    else (e.event.FailJob? || e.event.ExpireLeases?) && t.status == Unknown
  }

  /** The moves an event may make with a task; `drawn` is the number of uuids drawn before it. */
  predicate TaskMove(e: Timed, t: Task, u: Task, drawn: nat) {
    && SameIdentity(t, u)
    && Pending(t)
    && ( // claimed under a fresh token, with the build of the claim on record
        || (e.event.ClaimJob? && t.status == Queued && u.status == Running && u.token == Some(drawn)
            && u.build == e.event.build && u.attempts == t.attempts + 1)
        // requeued after its first expiry
        || (e.event.ExpireLeases? && t.status == Running && u.status == Queued && u.token.None?
            && u.attempts == t.attempts && u.attempts < MAX_ATTEMPTS)
        // closed by an accepted completion, and otherwise by failure or the second expiry
        || (t.status == Running && u.token == t.token && u.build == t.build && u.attempts == t.attempts
            && ClosedAs(e, u))
        // superseded by a restart
        || (e.event.Restart? && t.status == Queued && u.status == Superseded && u.token == t.token
            && u.build == t.build && u.attempts == t.attempts))
  }

  function ExpiredTask(t: Task, now: int): Task {
    if !Overdue(t, now) then t else if t.attempts < MAX_ATTEMPTS then Requeued(t) else Abandoned(t, now)
  }

  predicate GroupMove(x: Group, y: Group, now: int) {
    && y.createdAt == x.createdAt && (y.finishedAt == x.finishedAt || y.finishedAt == Some(now))
    && (y.status == Finished ==> x.status == Finished || y.finishedAt == Some(now))
  }

  /** What expiring the rows below n does. */
  predicate ExpiredBelow(db: Db, d: Db, n: nat, now: int) {
    && d.nextTask == db.nextTask && d.tasks.Keys == db.tasks.Keys && d.groups.Keys == db.groups.Keys
    && (forall k | k in db.tasks :: d.tasks[k] == if k < n then ExpiredTask(db.tasks[k], now) else db.tasks[k])
    && (forall g | g in db.groups :: GroupMove(db.groups[g], d.groups[g], now))
    && db.uuids <= d.uuids && db.rows.Keys <= d.rows.Keys
    && (forall o | o in db.rows :: d.rows[o] == db.rows[o])
    && (forall o | o in d.rows && o !in db.rows :: db.uuids <= o < d.uuids && LostWork(db, d.rows[o], now, o))
  }

  /** An observation that reports work found unfinished. */
  predicate LostWork(db: Db, r: Row, now: int, o: nat) {
    IsReport(r.payload, now, o) && HasRunningTask(db.tasks, r)
  }

  predicate HasRunningTask(tasks: map<nat, Task>, r: Row) {
    exists k | k in tasks :: FiledFor(r, tasks[k]) && tasks[k].status == Running
  }

  lemma ExpireRowShape(report: Reporter, d: Db, k: nat, now: int)
    requires Honest(report) && k in d.tasks && Overdue(d.tasks[k], now)
    requires OverdueForGood(d.tasks[k], now) ==> report(d.tasks[k].cell, 0, 0).Some?
    ensures var e, t := ExpireRow(report, d, k, now), d.tasks[k];
            && e.tasks == d.tasks[k := ExpiredTask(t, now)] && e.nextTask == d.nextTask
            && e.groups.Keys == d.groups.Keys
            && (forall g | g in d.groups :: GroupMove(d.groups[g], e.groups[g], now))
            && (if t.attempts < MAX_ATTEMPTS then e.rows == d.rows && e.uuids == d.uuids
                else && e.uuids == d.uuids + 1 && d.uuids in e.rows
                     && e.rows == d.rows[d.uuids := e.rows[d.uuids]]
                     && FiledFor(e.rows[d.uuids], t) && IsReport(e.rows[d.uuids].payload, now, d.uuids))
  {
    assert HonestAt(report, d.tasks[k].cell, now, d.uuids);
  }

  lemma ExpiredNoMore(db: Db, d: Db, n: nat, now: int)
    requires 0 < n && ExpiredBelow(db, d, n - 1, now)
    requires n - 1 in d.tasks ==> !Overdue(d.tasks[n - 1], now)
    ensures ExpiredBelow(db, d, n, now)
  {
  }

  lemma MovesChain(x: Group, y: Group, z: Group, now: int)
    requires GroupMove(x, y, now) && GroupMove(y, z, now)
    ensures GroupMove(x, z, now)
  {
  }

  lemma ExpiredOneMore(db: Db, d: Db, e: Db, n: nat, now: int)
    requires 0 < n && ExpiredBelow(db, d, n - 1, now) && n - 1 in db.tasks
    requires forall o | o in db.rows :: o < db.uuids
    requires e.tasks == d.tasks[n - 1 := ExpiredTask(db.tasks[n - 1], now)] && e.nextTask == d.nextTask
    requires e.groups.Keys == d.groups.Keys && forall g | g in d.groups :: GroupMove(d.groups[g], e.groups[g], now)
    requires || (e.rows == d.rows && e.uuids == d.uuids)
             || (&& e.uuids == d.uuids + 1 && d.uuids in e.rows && e.rows == d.rows[d.uuids := e.rows[d.uuids]]
                 && LostWork(db, e.rows[d.uuids], now, d.uuids))
    ensures ExpiredBelow(db, e, n, now)
  {
    hide GroupMove, LostWork, ExpiredTask;
    forall g | g in db.groups
      ensures GroupMove(db.groups[g], e.groups[g], now)
    {
      MovesChain(db.groups[g], d.groups[g], e.groups[g], now);
    }
    forall o | o in e.rows && o !in db.rows
      ensures db.uuids <= o < e.uuids && LostWork(db, e.rows[o], now, o)
    {
      assert o == d.uuids || o in d.rows;
    }
  }

  lemma ExpiredNext(report: Reporter, db: Db, d: Db, n: nat, now: int)
    requires Honest(report) && Keyed(db) && !ExpiryRaises(report, db, now)
    requires 0 < n && ExpiredBelow(db, d, n - 1, now) && n - 1 in d.tasks && Overdue(d.tasks[n - 1], now)
    ensures ExpiredBelow(db, ExpireRow(report, d, n - 1, now), n, now)
  {
    hide ExpireRow, GroupMove;
    var e := ExpireRow(report, d, n - 1, now);
    assert d.tasks[n - 1] == db.tasks[n - 1];
    ExpireRowShape(report, d, n - 1, now);
    assert e.rows == d.rows || HasRunningTask(db.tasks, e.rows[d.uuids]);
    ExpiredOneMore(db, d, e, n, now);
  }

  lemma {:induction false} ExpireExact(report: Reporter, db: Db, n: nat, now: int)
    requires Honest(report) && Keyed(db) && !ExpiryRaises(report, db, now)
    ensures ExpiredBelow(db, ExpireBelow(report, db, n, now), n, now)
  {
    if n > 0 {
      ExpireExact(report, db, n - 1, now);
      var d := ExpireBelow(report, db, n - 1, now);
      if n - 1 in d.tasks && Overdue(d.tasks[n - 1], now) {
        ExpiredNext(report, db, d, n, now);
      } else {
        ExpiredNoMore(db, d, n, now);
      }
    }
  }

  predicate IsNew(t: Task) {
    t.status == Queued && t.attempts == 0 && t.token.None? && t.build.None? && t.key == NoKey
  }

  /** What one event may do to the task with id k. */
  predicate TaskStep(db: Db, d: Db, e: Timed, k: nat) {
    && (k in d.tasks ==>
          if k in db.tasks then d.tasks[k] == db.tasks[k] || TaskMove(e, db.tasks[k], d.tasks[k], db.uuids)
          else e.event.Enqueue? && db.nextTask <= k < d.nextTask && IsNew(d.tasks[k]) && db.uuids <= d.tasks[k].group)
    && (k in db.tasks && db.tasks[k].group in d.groups ==> k in d.tasks)
  }

  /** What one event may do to the group with id g. */
  predicate GroupStep(db: Db, d: Db, g: nat, now: int) {
    && (g in d.groups ==>
          if g in db.groups then GroupMove(db.groups[g], d.groups[g], now)
          else db.uuids <= g < d.uuids && d.groups[g].createdAt == now && d.groups[g].finishedAt.None?)
    && (g in db.groups && g !in d.groups ==> db.groups[g].status == Finished)
  }

  lemma RecoverGroupStep(report: Reporter, repair: Repairer, configured: set<string>, db: Db, now: int, g: nat)
    requires Leased(db.tasks) && g in db.groups
    ensures var d := Recover(report, repair, configured, db, now);
            g in d.groups && GroupMove(db.groups[g], d.groups[g], now)
  {
    assert forall k | k in db.tasks :: Bounded(db.tasks[k]);
    NothingUnleased(report, db, db.nextTask, now);
  }

  /** The row an accepted completion files. */
  predicate FiledBy(db: Db, e: Timed, o: nat, r: Row) {
    && e.event.CompleteJob?
    && CompleteLeased(db, e.event.task, e.event.token, e.event.payload, e.now).1 == Accepted
    && o == e.event.payload.id && e.event.task in db.tasks
    && r == Row(db.tasks[e.event.task].group, db.tasks[e.event.task].cell, e.event.payload)
  }

  /** What one event may do to the observation with id o. */
  predicate RowStep(db: Db, d: Db, e: Timed, o: nat) {
    && (o in d.rows ==>
          || (o in db.rows && RowKept(db.rows[o], d.rows[o]))
          || (o !in db.rows && LostWork(db, d.rows[o], e.now, o))
          || FiledBy(db, e, o, d.rows[o]))
    && (o in db.rows && o !in d.rows ==> e.event.Retain? && db.rows[o].group !in d.groups)
    && (o in d.rows && d.rows[o].group in db.groups ==> d.rows[o].group in d.groups)
  }

  lemma RecoverRowStep(report: Reporter, repair: Repairer, configured: set<string>, db: Db, now: int, o: nat)
    requires Leased(db.tasks) && Steady(repair)
    ensures var d := Recover(report, repair, configured, db, now);
            (o in db.rows <==> o in d.rows) && (o in db.rows ==> RowKept(db.rows[o], d.rows[o]))
  {
    LeasedRecovery(report, repair, configured, db, now);
    if o in db.rows {
      assert RepairsOnlyProvenance(repair, db.rows[o].cell, db.rows[o].payload);
    }
  }

  /** One event, looked at through one task id, one group id and one observation id. */
  predicate Step(db: Db, d: Db, e: Timed, k: nat, g: nat, o: nat) {
    && TaskStep(db, d, e, k) && GroupStep(db, d, g, e.now) && RowStep(db, d, e, o)
    && db.nextTask <= d.nextTask && db.uuids <= d.uuids
  }

  lemma EnqueueStep(cfg: Config, db: Db, e: Timed, k: nat, g: nat, o: nat)
    requires Core(cfg, db) && e.event.Enqueue?
    ensures Step(db, Submit(cfg, db, e.event.lanes, e.event.scenarios, e.now).0, e, k, g, o)
  {
  }

  lemma ClaimStep(cfg: Config, db: Db, e: Timed, k: nat, g: nat, o: nat)
    requires Core(cfg, db) && e.event.ClaimJob?
    ensures var c := e.event; Step(db, Claim(db, c.worker, c.kind, c.lease, c.build, e.now).0, e, k, g, o)
  {
    hide UniqueCells, GroupsAgree, WithinCap, Before, Joined, Leads, OpenGroups;
    if k in db.tasks {
      assert Bounded(db.tasks[k]);
    }
  }

  lemma ExpiredSteps(db: Db, d: Db, e: Timed, k: nat, g: nat, o: nat)
    requires e.event.ExpireLeases? && Keyed(db) && Leased(db.tasks) && ExpiredBelow(db, d, db.nextTask, e.now)
    ensures Step(db, d, e, k, g, o)
  {
    if k in db.tasks {
      assert Bounded(db.tasks[k]) && k < db.nextTask;
      assert d.tasks[k] == ExpiredTask(db.tasks[k], e.now);
    }
  }

  lemma ExpiryStep(cfg: Config, db: Db, e: Timed, k: nat, g: nat, o: nat)
    requires Core(cfg, db) && e.event.ExpireLeases? && Honest(e.event.report)
    ensures Step(db, Expire(e.event.report, db, e.now), e, k, g, o)
  {
    hide Step, Honest, UniqueCells, GroupsAgree, WithinCap, Keyed, Leased;
    if ExpiryRaises(e.event.report, db, e.now) {
      NothingStep(cfg, db, e, k, g, o);
    } else {
      ExpireExact(e.event.report, db, db.nextTask, e.now);
      ExpiredSteps(db, Expire(e.event.report, db, e.now), e, k, g, o);
    }
  }

  lemma NothingStep(cfg: Config, db: Db, e: Timed, k: nat, g: nat, o: nat)
    requires Core(cfg, db)
    ensures Step(db, db, e, k, g, o)
  {
  }

  /** Completion, failure and second expiry all close one pending task with one payload. */
  lemma CloseStep(cfg: Config, db: Db, e: Timed, k: nat, closed: Task, payload: Payload, now: int, g: nat, j: nat)
    requires Core(cfg, db) && k in db.tasks && db.tasks[k].status == Running
    requires SameIdentity(db.tasks[k], closed) && ClosedAs(e, closed)
    requires closed.token == db.tasks[k].token && closed.build == db.tasks[k].build
        && closed.attempts == db.tasks[k].attempts
    ensures var d := Close(db, k, closed, payload, now);
            && TaskStep(db, d, e, j) && GroupStep(db, d, g, now)
            && d.rows == db.rows[payload.id := Row(closed.group, closed.cell, payload)]
            && d.nextTask == db.nextTask && d.uuids == db.uuids && d.groups.Keys == db.groups.Keys
  {
    hide UniqueCells, GroupsAgree, Leased, WithinCap, GroupPending;
  }

  lemma CompletionStep(cfg: Config, db: Db, e: Timed, k: nat, g: nat, o: nat)
    requires Core(cfg, db) && e.event.CompleteJob?
    ensures var c := e.event; Step(db, CompleteLeased(db, c.task, c.token, c.payload, e.now).0, e, k, g, o)
  {
    hide Core, Close, TaskStep, GroupStep, UniqueCells, GroupsAgree, Leased, WithinCap, Keyed;
    var c := e.event;
    if CompleteLeased(db, c.task, c.token, c.payload, e.now).1 != Accepted {
      NothingStep(cfg, db, e, k, g, o);
    } else {
      CloseStep(cfg, db, e, c.task, CompletedTask(db.tasks[c.task], c.payload, e.now), c.payload, e.now, g, k);
    }
  }

  lemma DrawStep(db: Db, d: Db, e: Timed, k: nat, g: nat)
    requires TaskStep(db, d, e, k) && GroupStep(db, d, g, e.now)
    ensures TaskStep(db, d.(uuids := d.uuids + 1), e, k) && GroupStep(db, d.(uuids := d.uuids + 1), g, e.now)
  {
  }

  lemma FailureStep(cfg: Config, db: Db, e: Timed, k: nat, g: nat, o: nat)
    requires Core(cfg, db) && e.event.FailJob? && Honest(e.event.report)
    ensures var c := e.event; Step(db, FailLeased(c.report, db, c.task, c.token, c.error, e.now).0, e, k, g, o)
  {
    hide Core, Close, TaskStep, GroupStep, UniqueCells, GroupsAgree, Leased, WithinCap, Keyed;
    var c := e.event;
    DrawIsNew(cfg, db);
    if FailLeased(c.report, db, c.task, c.token, c.error, e.now).1 != Accepted {
      NothingStep(cfg, db, e, k, g, o);
    } else {
      var t := db.tasks[c.task];
      assert HonestAt(c.report, t.cell, e.now, db.uuids);
      var payload := c.report(t.cell, e.now, db.uuids).value;
      var failed := FailedTask(t, c.token, c.error, e.now);
      CloseStep(cfg, db, e, c.task, failed, payload, e.now, g, k);
      DrawStep(db, Close(db, c.task, failed, payload, e.now), e, k, g);
      assert HasRunningTask(db.tasks, Row(t.group, t.cell, payload));
    }
  }

  lemma RetentionStep(cfg: Config, db: Db, e: Timed, k: nat, g: nat, o: nat)
    requires Core(cfg, db) && e.event.Retain?
    ensures var c := e.event;
            Step(db, DeleteGroups(db, Aged(db, c.cutoff) + c.evicted * FinishedGroups(db)), e, k, g, o)
  {
  }

  lemma SupersededSteps(db: Db, d: Db, e: Timed, k: nat)
    requires e.event.Restart? && OnlySuperseded(db.tasks, d.tasks)
    ensures TaskStep(db, d, e, k)
  {
  }

  lemma RestartStep(cfg: Config, db: Db, e: Timed, k: nat, g: nat, o: nat)
    requires Core(cfg, db) && e.event.Restart? && Honest(e.event.report) && Steady(e.event.repair)
    ensures var c := e.event; Step(db, Recover(c.report, c.repair, c.configured, db, e.now), e, k, g, o)
  {
    hide Recover, OnlySuperseded, Honest, Steady, TaskStep, Keyed, UniqueCells, GroupsAgree, Leased, WithinCap;
    var c := e.event;
    LeasedRecovery(c.report, c.repair, c.configured, db, e.now);
    SupersededSteps(db, Recover(c.report, c.repair, c.configured, db, e.now), e, k);
    RecoverRowStep(c.report, c.repair, c.configured, db, e.now, o);
    if g in db.groups {
      RecoverGroupStep(c.report, c.repair, c.configured, db, e.now, g);
    }
  }

  /** What every event of the leased mode does, whichever task, group and observation one looks at. */
  lemma StepFacts(cfg: Config, db: Db, e: Timed, k: nat, g: nat, o: nat)
    requires Core(cfg, db) && Legal(db, e)
    ensures Step(db, Apply(cfg, db, e), e, k, g, o)
  {
    hide Core, Step, Submit, Claim, Expire, CompleteLeased, FailLeased, Recover, DeleteGroups;
    match e.event
    case Mint => MintStep(cfg, db, e, k, g, o);
    case Enqueue(_, _) => EnqueueStep(cfg, db, e, k, g, o);
    case ClaimJob(_, _, _, _) => ClaimStep(cfg, db, e, k, g, o);
    case ExpireLeases(_) => ExpiryStep(cfg, db, e, k, g, o);
    case CompleteJob(_, _, _) => CompletionStep(cfg, db, e, k, g, o);
    case FailJob(_, _, _, _) => FailureStep(cfg, db, e, k, g, o);
    case Retain(_, _) => RetentionStep(cfg, db, e, k, g, o);
    case Restart(_, _, _) => RestartStep(cfg, db, e, k, g, o);
  }

  lemma MintStep(cfg: Config, db: Db, e: Timed, k: nat, g: nat, o: nat)
    requires Core(cfg, db)
    ensures Step(db, db.(uuids := db.uuids + 1), e, k, g, o)
  {
  }
}
