/**
 A lease from its claim to its end: in which order tasks are leased, exactly when a completion or a
 failure is accepted, and that a worker who completes in time is always heard.
 */
module LeaseLife {
  import opened Wrappers
  import opened Catalog
  import opened Lanes
  import opened Provenance
  import opened Queue
  import opened QueueInvariants
  import opened Recovery
  import opened QueueRuns
  import opened QueueTheorems
  import opened Expiry

  // ----- First come, first served.

  /** A created task belongs to a group created by the same event. */
  lemma BornWithGroup(cfg: Config, trace: Trace, a: nat, k: nat)
    requires Reaches(cfg, EMPTY, trace) && a < |trace| && Enqueued(cfg, trace, a, k)
    ensures var t := After(cfg, EMPTY, trace, a + 1);
            && k in t.tasks && t.tasks[k].group in t.groups && t.tasks[k].group < t.uuids
            && t.groups[t.tasks[k].group].createdAt == trace[a].now
  {
    hide After, Core, Reaches;
    var t := After(cfg, EMPTY, trace, a + 1);
    KeyedAt(cfg, EMPTY, trace, a);
    KeyedAt(cfg, EMPTY, trace, a + 1);
    StepAt(cfg, EMPTY, trace, a, k, t.tasks[k].group, 0);
  }

  /** A group keeps its creation time for as long as it exists, and is never replaced by another one. */
  lemma {:induction false} CreationIsKept(cfg: Config, trace: Trace, i: nat, j: nat, g: nat)
    requires Reaches(cfg, EMPTY, trace) && i <= j <= |trace|
    requires g < After(cfg, EMPTY, trace, i).uuids && g in After(cfg, EMPTY, trace, j).groups
    ensures g in After(cfg, EMPTY, trace, i).groups
    ensures After(cfg, EMPTY, trace, j).groups[g].createdAt == After(cfg, EMPTY, trace, i).groups[g].createdAt
  {
    hide After, Core, Reaches;
    if i < j {
      NextTaskGrows(cfg, EMPTY, trace, i, j - 1);
      StepAt(cfg, EMPTY, trace, j - 1, 0, g, 0);
      CreationIsKept(cfg, trace, i, j - 1, g);
    }
  }

  lemma AgeOfTask(cfg: Config, trace: Trace, a: nat, c: nat, k: nat)
    requires Reaches(cfg, EMPTY, trace) && a < c <= |trace| && Enqueued(cfg, trace, a, k)
    requires k in After(cfg, EMPTY, trace, c).tasks
    ensures var s := After(cfg, EMPTY, trace, c);
            s.tasks[k].group in s.groups && s.groups[s.tasks[k].group].createdAt == trace[a].now
  {
    hide After, Core, Reaches;
    BornWithGroup(cfg, trace, a, k);
    IdentityIsKept(cfg, EMPTY, trace, a + 1, c, k);
    KeyedAt(cfg, EMPTY, trace, c);
    CreationIsKept(cfg, trace, a + 1, c, After(cfg, EMPTY, trace, c).tasks[k].group);
  }

  /**
   No queued task is overtaken by work of its class that was enqueued at a later time, whatever retries,
   restarts and other requests happened in between.
   */
  lemma FirstComeFirstServed(cfg: Config, trace: Trace, a: nat, b: nat, c: nat, k: nat, j: nat)
    requires Reaches(cfg, EMPTY, trace) && a < c < |trace| && b < c && trace[c].event.ClaimJob?
    requires Enqueued(cfg, trace, a, k) && Enqueued(cfg, trace, b, j) && trace[a].now < trace[b].now
    requires var s := After(cfg, EMPTY, trace, c);
             && k in s.tasks && s.tasks[k].status == Queued && s.tasks[k].kind == trace[c].event.kind
             && j in s.tasks
    ensures var s, e := After(cfg, EMPTY, trace, c), trace[c].event;
            Claim(s, e.worker, e.kind, e.lease, e.build, trace[c].now).1 != Some(j)
  {
    hide After, Core, Reaches, Claim, Enqueued;
    var s, e := After(cfg, EMPTY, trace, c), trace[c].event;
    AgeOfTask(cfg, trace, a, c, k);
    AgeOfTask(cfg, trace, b, c, j);
    ReachesCore(cfg, EMPTY, trace);
    CoreHoldsThroughout(cfg, EMPTY, trace, c);
    ClaimTakesTheOldest(cfg, s, e.worker, e.kind, e.lease, e.build, trace[c].now);
  }

  lemma ReachesCore(cfg: Config, db: Db, trace: Trace)
    requires Reaches(cfg, db, trace)
    ensures Core(cfg, db) && LegalRun(cfg, db, trace)
  {
  }

  // ----- Exactly when a worker is heard.

  /** The lease is running under this token. */
  predicate Leases(db: Db, k: nat, token: nat) {
    k in db.tasks && db.tasks[k].status == Running && db.tasks[k].token == Some(token)
  }

  /** Every reply to a completion from the fields of the task, and what each leaves behind. */
  lemma CompletionAnswersExactly(db: Db, k: nat, token: nat, payload: Payload, now: int)
    ensures var reply := CompleteLeased(db, k, token, payload, now).1;
            && (reply == NotFound <==> k !in db.tasks)
            && (reply == Accepted <==>
                  Leases(db, k, token) && db.tasks[k].expiresAt.Some? && now < db.tasks[k].expiresAt.value)
            && (reply == Duplicate <==>
                  && k in db.tasks && (db.tasks[k].status == Complete || db.tasks[k].status == Unknown)
                  && db.tasks[k].key == Evidence(payload))
            && (reply == Raised <==> Leases(db, k, token) && db.tasks[k].expiresAt.None?)
            && (reply == Conflict <==>
                  && k in db.tasks
                  && match db.tasks[k].status
                     case Complete => db.tasks[k].key != Evidence(payload)
                     case Unknown => db.tasks[k].key != Evidence(payload)
                     case Running => db.tasks[k].token != Some(token)
                                     || (db.tasks[k].expiresAt.Some? && db.tasks[k].expiresAt.value <= now)
                     case _ => true)
    ensures var (d, reply) := CompleteLeased(db, k, token, payload, now);
            if reply != Accepted then d == db
            else && k in d.tasks && d.tasks[k].status == Complete && d.tasks[k].key == Evidence(payload)
                 && d.tasks[k].finishedAt == Some(now) && SameIdentity(db.tasks[k], d.tasks[k])
                 && d.tasks == db.tasks[k := d.tasks[k]]
                 && d.rows == db.rows[payload.id := Row(db.tasks[k].group, db.tasks[k].cell, payload)]
                 && d.groups.Keys == db.groups.Keys && d.nextTask == db.nextTask && d.uuids == db.uuids
                 && forall g | g in db.groups ::
                      d.groups[g] == if g == db.tasks[k].group && !GroupPending(d.tasks, g)
                                     then db.groups[g].(status := Finished, finishedAt := Some(now)) else db.groups[g]
  {
  }

  /** The same of a reported failure; it is heard even after the lease's time, as long as the token is the task's. */
  lemma FailureAnswersExactly(report: Reporter, db: Db, k: nat, token: nat, error: string, now: int)
    ensures var reply := FailLeased(report, db, k, token, error, now).1;
            && (reply == NotFound <==> k !in db.tasks)
            && (reply == Accepted <==> Leases(db, k, token) && report(db.tasks[k].cell, now, db.uuids).Some?)
            && (reply == Raised <==> Leases(db, k, token) && report(db.tasks[k].cell, now, db.uuids).None?)
            && (reply == Duplicate <==>
                  k in db.tasks && db.tasks[k].status == Unknown && db.tasks[k].key == Lease(token))
            && (reply == Conflict <==>
                  && k in db.tasks && !Leases(db, k, token)
                  && !(db.tasks[k].status == Unknown && db.tasks[k].key == Lease(token)))
    ensures var (d, reply) := FailLeased(report, db, k, token, error, now);
            if reply != Accepted then d == db
            else var payload := report(db.tasks[k].cell, now, db.uuids).value;
                 && k in d.tasks && d.tasks[k].status == Unknown && d.tasks[k].key == Lease(token)
                 && d.tasks[k].error == Some(error) && d.tasks[k].finishedAt == Some(now)
                 && SameIdentity(db.tasks[k], d.tasks[k]) && d.tasks == db.tasks[k := d.tasks[k]]
                 && d.rows == db.rows[payload.id := Row(db.tasks[k].group, db.tasks[k].cell, payload)]
                 && d.groups.Keys == db.groups.Keys && d.nextTask == db.nextTask && d.uuids == db.uuids + 1
                 && forall g | g in db.groups ::
                      d.groups[g] == if g == db.tasks[k].group && !GroupPending(d.tasks, g)
                                     then db.groups[g].(status := Finished, finishedAt := Some(now)) else db.groups[g]
  {
  }

  // ----- A lease from its claim to its end.

  /** The event is no accepted completion or failure of task k. */
  predicate LeavesOpen(db: Db, e: Timed, k: nat) {
    match e.event
    case CompleteJob(task, token, payload) =>
      task == k ==> CompleteLeased(db, task, token, payload, e.now).1 != Accepted
    case FailJob(task, token, report, error) =>
      task == k ==> FailLeased(report, db, task, token, error, e.now).1 != Accepted
    case _ => true
  }

  /** Until it runs out, nothing but its own completion or failure touches a leased task. */
  lemma LeaseStep(cfg: Config, db: Db, e: Timed, k: nat)
    requires Core(cfg, db) && Legal(db, e) && LeavesOpen(db, e, k)
    requires k in db.tasks && LiveLease(db.tasks[k])
    requires db.tasks[k].expiresAt.Some? && e.now < db.tasks[k].expiresAt.value
    ensures k in Apply(cfg, db, e).tasks && Apply(cfg, db, e).tasks[k] == db.tasks[k]
  {
    hide Core, Submit, Claim, CompleteLeased, FailLeased, Recover, DeleteGroups, Expire;
    match e.event
    case Mint =>
    case Enqueue(lanes, scenarios) => StuckInSubmit(cfg, db, lanes, scenarios, e.now, k);
    case ClaimJob(worker, kind, lease, build) => StuckInClaim(db, worker, kind, lease, build, e.now, k);
    case ExpireLeases(report) =>
      IdsOf(cfg, db);
      ExpiryEffect(report, db, e.now);
      SettledStays(report, db, e.now, k);
    case CompleteJob(task, token, payload) => CompletionAnswersExactly(db, task, token, payload, e.now);
    case FailJob(task, token, report, error) => FailureAnswersExactly(report, db, task, token, error, e.now);
    case Retain(cutoff, evicted) => StuckInRetain(cfg, db, Aged(db, cutoff) + evicted * FinishedGroups(db), k);
    case Restart(report, repair, configured) => StuckInRecover(cfg, report, repair, configured, db, e.now, k);
  }

  lemma IdsOf(cfg: Config, db: Db)
    requires Core(cfg, db)
    ensures Keyed(db)
  {
  }

  lemma SettledStays(report: Reporter, db: Db, now: int, k: nat)
    requires Expire(report, db, now) == db || AllSettled(db, Expire(report, db, now), now)
    requires k in db.tasks && !Overdue(db.tasks[k], now)
    ensures k in Expire(report, db, now).tasks && Expire(report, db, now).tasks[k] == db.tasks[k]
  {
    hide Expire;
  }

  /** Event i leases task k for some seconds, under the token drawn by the claim. */
  predicate LeasesAt(cfg: Config, db: Db, trace: Trace, i: nat, k: nat)
    requires i < |trace|
  {
    var s, e := After(cfg, db, trace, i), trace[i].event;
    e.ClaimJob? && Claim(s, e.worker, e.kind, e.lease, e.build, trace[i].now).1 == Some(k)
  }

  lemma LeaseBegins(cfg: Config, db: Db, trace: Trace, i: nat, k: nat)
    requires Reaches(cfg, db, trace) && i < |trace| && LeasesAt(cfg, db, trace, i, k)
    ensures var s, t := After(cfg, db, trace, i), After(cfg, db, trace, i + 1);
            && k in t.tasks && LiveLease(t.tasks[k]) && t.tasks[k].token == Some(s.uuids)
            && t.tasks[k].expiresAt == Some(trace[i].now + trace[i].event.lease)
  {
    hide After, Core, Claim;
    var e := trace[i].event;
    CoreHoldsThroughout(cfg, db, trace, i);
    NextState(cfg, db, trace, i);
    ClaimTakesTheOldest(cfg, After(cfg, db, trace, i), e.worker, e.kind, e.lease, e.build, trace[i].now);
  }

  predicate OpenBetween(cfg: Config, db: Db, trace: Trace, i: nat, j: nat, k: nat)
    requires j <= |trace|
  {
    forall m | i <= m < j :: LeavesOpen(After(cfg, db, trace, m), trace[m], k)
  }

  /** A lease lasts for the time it was given, whatever else happens: no expiry, restart or retention takes it away. */
  lemma {:induction false} LeaseLasts(cfg: Config, db: Db, trace: Trace, i: nat, j: nat, k: nat)
    requires Reaches(cfg, db, trace) && i < j <= |trace| && LeasesAt(cfg, db, trace, i, k)
    requires OpenBetween(cfg, db, trace, i + 1, j, k)
    requires forall m | i < m < j :: trace[m].now < trace[i].now + trace[i].event.lease
    ensures k in After(cfg, db, trace, j).tasks
    ensures After(cfg, db, trace, j).tasks[k] == After(cfg, db, trace, i + 1).tasks[k]
  {
    hide After, Core, Apply, Legal, LeasesAt, LeavesOpen;
    LeaseBegins(cfg, db, trace, i, k);
    if i + 1 < j {
      LeaseLasts(cfg, db, trace, i, j - 1, k);
      CoreHoldsThroughout(cfg, db, trace, j - 1);
      NextState(cfg, db, trace, j - 1);
      LeaseStep(cfg, After(cfg, db, trace, j - 1), trace[j - 1], k);
    }
  }

  /**
   A worker that answers in time is always heard. If a claim leased the task for some seconds, and the
   task was neither completed nor failed since, then a completion under the claim's token before that
   time is accepted, whatever the observation, and a failure is unless the cell cannot be reported.
   */
  lemma TimelyAnswersAreHeard(cfg: Config, db: Db, trace: Trace, i: nat, j: nat, k: nat, payload: Payload,
                              report: Reporter, error: string, now: int)
    requires Reaches(cfg, db, trace) && i < j <= |trace| && LeasesAt(cfg, db, trace, i, k)
    requires OpenBetween(cfg, db, trace, i + 1, j, k)
    requires trace[j - 1].now <= now < trace[i].now + trace[i].event.lease
    ensures var s, token := After(cfg, db, trace, j), After(cfg, db, trace, i).uuids;
            && CompleteLeased(s, k, token, payload, now).1 == Accepted
            && k in s.tasks
            && (FailLeased(report, s, k, token, error, now).1 == Accepted
                <==> report(s.tasks[k].cell, now, s.uuids).Some?)
  {
    hide After, Core, Apply, Legal, LeasesAt, LeavesOpen, CompleteLeased, FailLeased;
    var s, token := After(cfg, db, trace, j), After(cfg, db, trace, i).uuids;
    LeaseBegins(cfg, db, trace, i, k);
    forall m | i < m < j
      ensures trace[m].now <= now
    {
      assert trace[m].now <= trace[j - 1].now;
    }
    LeaseLasts(cfg, db, trace, i, j, k);
    CompletionAnswersExactly(s, k, token, payload, now);
    FailureAnswersExactly(report, s, k, token, error, now);
  }
}
