/** Properties of whole runs of the queue: one outcome per task, fencing by lease token, bounded work. */
module QueueTheorems {
  import opened Wrappers
  import opened Catalog
  import opened Lanes
  import opened Provenance
  import opened Queue
  import opened QueueInvariants
  import opened Recovery
  import opened QueueRuns

  /** A legal run from a consistent state. */
  ghost predicate Reaches(cfg: Config, db: Db, trace: Trace) {
    Core(cfg, db) && LegalRun(cfg, db, trace)
  }

  lemma StepAt(cfg: Config, db: Db, trace: Trace, i: nat, k: nat, g: nat, o: nat)
    requires Reaches(cfg, db, trace) && i < |trace|
    ensures Core(cfg, After(cfg, db, trace, i)) && Core(cfg, After(cfg, db, trace, i + 1))
    ensures Step(After(cfg, db, trace, i), After(cfg, db, trace, i + 1), trace[i], k, g, o)
  {
    hide Core, Step, Apply, Legal;
    CoreHoldsThroughout(cfg, db, trace, i);
    CoreHoldsThroughout(cfg, db, trace, i + 1);
    StepFacts(cfg, After(cfg, db, trace, i), trace[i], k, g, o);
    assert After(cfg, db, trace, i + 1) == Apply(cfg, After(cfg, db, trace, i), trace[i]);
  }

  // ----- Absorbing outcomes.

  /** Ids are never reused: a deleted task does not come back. */
  lemma {:induction false} NoRebirth(cfg: Config, db: Db, trace: Trace, i: nat, j: nat, k: nat)
    requires Reaches(cfg, db, trace) && i <= j <= |trace|
    requires var s := After(cfg, db, trace, i); k < s.nextTask && k !in s.tasks
    ensures var s := After(cfg, db, trace, j); k < s.nextTask && k !in s.tasks
  {
    hide After, Core;
    if i < j {
      NoRebirth(cfg, db, trace, i, j - 1, k);
      StepAt(cfg, db, trace, j - 1, k, 0, 0);
    }
  }

  lemma KnownIds(cfg: Config, db: Db, trace: Trace, i: nat, k: nat)
    requires Reaches(cfg, db, trace) && i <= |trace| && k in After(cfg, db, trace, i).tasks
    ensures k < After(cfg, db, trace, i).nextTask && Bounded(After(cfg, db, trace, i).tasks[k])
  {
    hide After;
    CoreHoldsThroughout(cfg, db, trace, i);
  }

  /** A task present at two points of a run was present all the time in between. */
  lemma PresentBetween(cfg: Config, db: Db, trace: Trace, i: nat, m: nat, j: nat, k: nat)
    requires Reaches(cfg, db, trace) && i <= m <= j <= |trace|
    requires k in After(cfg, db, trace, i).tasks && k in After(cfg, db, trace, j).tasks
    ensures k in After(cfg, db, trace, m).tasks
  {
    hide After, Core;
    KnownIds(cfg, db, trace, i, k);
    NextTaskGrows(cfg, db, trace, i, m);
    if k !in After(cfg, db, trace, m).tasks {
      NoRebirth(cfg, db, trace, m, j, k);
    }
  }

  lemma {:induction false} NextTaskGrows(cfg: Config, db: Db, trace: Trace, i: nat, j: nat)
    requires Reaches(cfg, db, trace) && i <= j <= |trace|
    ensures After(cfg, db, trace, i).nextTask <= After(cfg, db, trace, j).nextTask
    ensures After(cfg, db, trace, i).uuids <= After(cfg, db, trace, j).uuids
  {
    hide After, Core;
    if i < j {
      NextTaskGrows(cfg, db, trace, i, j - 1);
      StepAt(cfg, db, trace, j - 1, 0, 0, 0);
    }
  }

  /** Complete, unknown and superseded are absorbing: the whole row is frozen for as long as it exists. */
  lemma {:induction false} OutcomesAreFinal(cfg: Config, db: Db, trace: Trace, i: nat, j: nat, k: nat)
    requires Reaches(cfg, db, trace) && i <= j <= |trace|
    requires k in After(cfg, db, trace, i).tasks && k in After(cfg, db, trace, j).tasks
    requires Terminal(After(cfg, db, trace, i).tasks[k])
    ensures After(cfg, db, trace, j).tasks[k] == After(cfg, db, trace, i).tasks[k]
  {
    hide After, Core;
    if i < j {
      PresentBetween(cfg, db, trace, i, j - 1, j, k);
      OutcomesAreFinal(cfg, db, trace, i, j - 1, k);
      StepAt(cfg, db, trace, j - 1, k, 0, 0);
    }
  }

  /** A task keeps its group, cell, ordinal and worker class. */
  lemma {:induction false} IdentityIsKept(cfg: Config, db: Db, trace: Trace, i: nat, j: nat, k: nat)
    requires Reaches(cfg, db, trace) && i <= j <= |trace|
    requires k in After(cfg, db, trace, i).tasks && k in After(cfg, db, trace, j).tasks
    ensures SameIdentity(After(cfg, db, trace, i).tasks[k], After(cfg, db, trace, j).tasks[k])
  {
    hide After, Core;
    if i < j {
      PresentBetween(cfg, db, trace, i, j - 1, j, k);
      IdentityIsKept(cfg, db, trace, i, j - 1, k);
      StepAt(cfg, db, trace, j - 1, k, 0, 0);
    }
  }

  /** Event a created task k. */
  predicate Enqueued(cfg: Config, trace: Trace, a: nat, k: nat)
    requires a < |trace|
  {
    trace[a].event.Enqueue? && k !in After(cfg, EMPTY, trace, a).tasks && k in After(cfg, EMPTY, trace, a + 1).tasks
  }

  // ----- Bounded work.

  /** How many effective steps a task has left at most. */
  function Rank(t: Task): int {
    if Terminal(t) then 0 else 2 * (MAX_ATTEMPTS - t.attempts) + (if t.status == Running then 1 else 0)
  }

  lemma MoveLowersRank(e: Timed, t: Task, u: Task, drawn: nat)
    requires TaskMove(e, t, u, drawn) && Bounded(t) && Bounded(u)
    ensures 0 <= Rank(u) < Rank(t)
  {
  }

  /** The events of [i, j) that changed the task. */
  function Changes(cfg: Config, db: Db, trace: Trace, i: nat, j: nat, k: nat): nat
    requires i <= j <= |trace|
  {
    if i == j then 0
    else
      var s, t := After(cfg, db, trace, j - 1), After(cfg, db, trace, j);
      Changes(cfg, db, trace, i, j - 1, k)
      + (if k in s.tasks && k in t.tasks && s.tasks[k] != t.tasks[k] then 1 else 0)
  }

  /** Every change of a task uses up rank, so a task created with rank four changes at most four times in any run. */
  lemma {:induction false} WorkIsBounded(cfg: Config, db: Db, trace: Trace, i: nat, j: nat, k: nat)
    requires Reaches(cfg, db, trace) && i <= j <= |trace|
    requires k in After(cfg, db, trace, i).tasks && k in After(cfg, db, trace, j).tasks
    ensures Changes(cfg, db, trace, i, j, k) + Rank(After(cfg, db, trace, j).tasks[k])
            <= Rank(After(cfg, db, trace, i).tasks[k]) <= 4
    ensures 0 <= Rank(After(cfg, db, trace, j).tasks[k])
  {
    hide After, Core;
    KnownIds(cfg, db, trace, i, k);
    if i < j {
      PresentBetween(cfg, db, trace, i, j - 1, j, k);
      WorkIsBounded(cfg, db, trace, i, j - 1, k);
      StepAt(cfg, db, trace, j - 1, k, 0, 0);
      KnownIds(cfg, db, trace, j - 1, k);
      KnownIds(cfg, db, trace, j, k);
      var s, t := After(cfg, db, trace, j - 1), After(cfg, db, trace, j);
      if s.tasks[k] != t.tasks[k] {
        MoveLowersRank(trace[j - 1], s.tasks[k], t.tasks[k], s.uuids);
      }
    }
  }

  /** The rank of the whole queue: all tasks with id below n. */
  function TotalRank(tasks: map<nat, Task>, n: nat): int {
    if n == 0 then 0
    else TotalRank(tasks, n - 1) + (if n - 1 in tasks then Rank(tasks[n - 1]) else 0)
  }

  lemma {:induction false} TotalRankFalls(s: map<nat, Task>, t: map<nat, Task>, n: nat)
    requires forall k | k in t :: k < n ==> k in s && Rank(t[k]) <= Rank(s[k])
    requires forall k | k in s :: 0 <= Rank(s[k])
    ensures TotalRank(t, n) <= TotalRank(s, n)
    ensures (exists k | k in t :: k < n && Rank(t[k]) < Rank(s[k])) ==> TotalRank(t, n) < TotalRank(s, n)
  {
    if n > 0 {
      TotalRankFalls(s, t, n - 1);
    }
  }

  /** An event that creates no task never raises the queue's rank, and lowers it whenever it changes some task. */
  lemma QueueRankFalls(cfg: Config, db: Db, trace: Trace, i: nat)
    requires Reaches(cfg, db, trace) && i < |trace|
    requires After(cfg, db, trace, i + 1).nextTask == After(cfg, db, trace, i).nextTask
    ensures var s, t := After(cfg, db, trace, i), After(cfg, db, trace, i + 1);
            && TotalRank(t.tasks, t.nextTask) <= TotalRank(s.tasks, s.nextTask)
            && ((exists k | k in s.tasks && k in t.tasks :: s.tasks[k] != t.tasks[k]) ==>
                  TotalRank(t.tasks, t.nextTask) < TotalRank(s.tasks, s.nextTask))
  {
    hide After, Core, TotalRank;
    var s, t := After(cfg, db, trace, i), After(cfg, db, trace, i + 1);
    forall k | k in s.tasks
      ensures 0 <= Rank(s.tasks[k])
    {
      KnownIds(cfg, db, trace, i, k);
    }
    forall k | k in t.tasks
      ensures k in s.tasks && Rank(t.tasks[k]) <= Rank(s.tasks[k])
      ensures t.tasks[k] == s.tasks[k] || Rank(t.tasks[k]) < Rank(s.tasks[k])
      ensures k < t.nextTask
    {
      StepAt(cfg, db, trace, i, k, 0, 0);
      KnownIds(cfg, db, trace, i + 1, k);
      KnownIds(cfg, db, trace, i, k);
      if t.tasks[k] != s.tasks[k] {
        MoveLowersRank(trace[i], s.tasks[k], t.tasks[k], s.uuids);
      }
    }
    TotalRankFalls(s.tasks, t.tasks, t.nextTask);
  }

  // ----- Groups.

  /** Pending work of a group that exists is never created after the group. */
  lemma NoNewPending(cfg: Config, db: Db, trace: Trace, i: nat, g: nat)
    requires Reaches(cfg, db, trace) && i < |trace| && g < After(cfg, db, trace, i).uuids
    requires GroupPending(After(cfg, db, trace, i + 1).tasks, g)
    ensures GroupPending(After(cfg, db, trace, i).tasks, g)
  {
    hide After, Core;
    var s, t := After(cfg, db, trace, i), After(cfg, db, trace, i + 1);
    var k :| k in t.tasks && t.tasks[k].group == g && Pending(t.tasks[k]);
    StepAt(cfg, db, trace, i, k, g, 0);
    assert k in s.tasks && s.tasks[k].group == g && Pending(s.tasks[k]);
  }

  lemma AgreementAt(cfg: Config, db: Db, trace: Trace, i: nat, g: nat)
    requires Reaches(cfg, db, trace) && i <= |trace| && g in After(cfg, db, trace, i).groups
    ensures var s := After(cfg, db, trace, i);
            g < s.uuids && (s.groups[g].status == Finished <==> !GroupPending(s.tasks, g))
  {
    hide After;
    CoreHoldsThroughout(cfg, db, trace, i);
  }

  /** A completed group is never revived. */
  lemma {:induction false} FinishedGroupsStayFinished(cfg: Config, db: Db, trace: Trace, i: nat, j: nat, g: nat)
    requires Reaches(cfg, db, trace) && i <= j <= |trace|
    requires var s := After(cfg, db, trace, i); g in s.groups && s.groups[g].status == Finished
    ensures var s := After(cfg, db, trace, j); g in s.groups ==> s.groups[g].status == Finished
    ensures g < After(cfg, db, trace, j).uuids && !GroupPending(After(cfg, db, trace, j).tasks, g)
  {
    hide After, Core, GroupPending;
    AgreementAt(cfg, db, trace, i, g);
    if i < j {
      FinishedGroupsStayFinished(cfg, db, trace, i, j - 1, g);
      StepAt(cfg, db, trace, j - 1, 0, g, 0);
      if GroupPending(After(cfg, db, trace, j).tasks, g) {
        NoNewPending(cfg, db, trace, j - 1, g);
      }
      if g in After(cfg, db, trace, j).groups {
        AgreementAt(cfg, db, trace, j, g);
      }
    }
  }

  // ----- Fencing by lease token.

  predicate Holds(db: Db, k: nat, token: nat) {
    k in db.tasks && db.tasks[k].token == Some(token)
  }

  /** A token that a task no longer carries, or never carried although it was drawn, never comes back to it. */
  lemma {:induction false} LostTokensStayLost(cfg: Config, db: Db, trace: Trace, i: nat, j: nat, k: nat, token: nat)
    requires Reaches(cfg, db, trace) && i <= j <= |trace|
    requires token < After(cfg, db, trace, i).uuids && !Holds(After(cfg, db, trace, i), k, token)
    ensures token < After(cfg, db, trace, j).uuids && !Holds(After(cfg, db, trace, j), k, token)
  {
    hide After, Core;
    if i < j {
      LostTokensStayLost(cfg, db, trace, i, j - 1, k, token);
      StepAt(cfg, db, trace, j - 1, k, 0, 0);
    }
  }

  /** A worker whose lease was lost can neither complete nor fail the task afterwards, whatever happened since. */
  lemma StaleWorkersAreFenced(cfg: Config, db: Db, trace: Trace, i: nat, j: nat, k: nat, token: nat,
                              payload: Payload, report: Reporter, error: string, now: int)
    requires Reaches(cfg, db, trace) && i <= j <= |trace|
    requires token < After(cfg, db, trace, i).uuids && !Holds(After(cfg, db, trace, i), k, token)
    ensures var s := After(cfg, db, trace, j);
            && CompleteLeased(s, k, token, payload, now).1 != Accepted
            && FailLeased(report, s, k, token, error, now).1 != Accepted
            && CompleteLeased(s, k, token, payload, now).0 == s
            && FailLeased(report, s, k, token, error, now).0 == s
  {
    hide After, Core;
    LostTokensStayLost(cfg, db, trace, i, j, k, token);
  }

  /** While a task keeps a token it keeps the evaluator build recorded with it. */
  lemma {:induction false} BuildTravelsWithToken(cfg: Config, db: Db, trace: Trace, i: nat, j: nat, k: nat, token: nat)
    requires Reaches(cfg, db, trace) && i <= j <= |trace|
    requires token < After(cfg, db, trace, i).uuids && Holds(After(cfg, db, trace, j), k, token)
    ensures Holds(After(cfg, db, trace, i), k, token)
    ensures After(cfg, db, trace, j).tasks[k].build == After(cfg, db, trace, i).tasks[k].build
    ensures After(cfg, db, trace, j).tasks[k].cell == After(cfg, db, trace, i).tasks[k].cell
  {
    hide After, Core;
    if !Holds(After(cfg, db, trace, i), k, token) {
      LostTokensStayLost(cfg, db, trace, i, j, k, token);
    }
    if i < j {
      NextTaskGrows(cfg, db, trace, i, j - 1);
      if !Holds(After(cfg, db, trace, j - 1), k, token) {
        LostTokensStayLost(cfg, db, trace, j - 1, j, k, token);
      }
      BuildTravelsWithToken(cfg, db, trace, i, j - 1, k, token);
      StepAt(cfg, db, trace, j - 1, k, 0, 0);
    }
  }

  /** The claim of event m leased task k under this token and recorded this build. */
  predicate LeasedBy(cfg: Config, db: Db, trace: Trace, m: nat, k: nat, token: nat, build: Option<string>)
    requires m < |trace|
  {
    && trace[m].event.ClaimJob? && trace[m].event.build == build
    && token == After(cfg, db, trace, m).uuids
    && Holds(After(cfg, db, trace, m + 1), k, token)
  }

  predicate HoldsWith(db: Db, k: nat, token: nat, build: Option<string>) {
    Holds(db, k, token) && db.tasks[k].build == build
  }

  predicate ClaimedBefore(cfg: Config, db: Db, trace: Trace, j: nat, k: nat, token: nat, build: Option<string>)
    requires j <= |trace|
  {
    exists m | 0 <= m < j :: LeasedBy(cfg, db, trace, m, k, token, build)
  }

  lemma HeldTokensAreDrawn(cfg: Config, db: Db, trace: Trace, i: nat, k: nat, token: nat)
    requires Reaches(cfg, db, trace) && i <= |trace| && Holds(After(cfg, db, trace, i), k, token)
    ensures token < After(cfg, db, trace, i).uuids
  {
    hide After;
    CoreHoldsThroughout(cfg, db, trace, i);
  }

  lemma NewTokenIsClaimed(cfg: Config, db: Db, trace: Trace, i: nat, k: nat, token: nat, build: Option<string>)
    requires Reaches(cfg, db, trace) && i < |trace|
    requires !Holds(After(cfg, db, trace, i), k, token) && HoldsWith(After(cfg, db, trace, i + 1), k, token, build)
    ensures LeasedBy(cfg, db, trace, i, k, token, build)
  {
    hide After, Core;
    StepAt(cfg, db, trace, i, k, 0, 0);
  }

  lemma KeptTokenKeepsBuild(cfg: Config, db: Db, trace: Trace, i: nat, k: nat, token: nat, build: Option<string>)
    requires Reaches(cfg, db, trace) && i < |trace|
    requires Holds(After(cfg, db, trace, i), k, token) && HoldsWith(After(cfg, db, trace, i + 1), k, token, build)
    ensures HoldsWith(After(cfg, db, trace, i), k, token, build)
  {
    hide After, Core;
    HeldTokensAreDrawn(cfg, db, trace, i, k, token);
    BuildTravelsWithToken(cfg, db, trace, i, i + 1, k, token);
  }

  lemma NothingHeldAtFirst(cfg: Config, db: Db, trace: Trace, k: nat, token: nat)
    requires db.tasks == map[]
    ensures !Holds(After(cfg, db, trace, 0), k, token)
  {
  }

  /** Every token a task carries was issued to it by one claim, whose evaluator build is the one on record. */
  lemma {:induction false} TokensComeFromClaims(
      cfg: Config, db: Db, trace: Trace, j: nat, k: nat, token: nat, build: Option<string>)
    requires Reaches(cfg, db, trace) && db.tasks == map[] && j <= |trace|
    requires HoldsWith(After(cfg, db, trace, j), k, token, build)
    ensures ClaimedBefore(cfg, db, trace, j, k, token, build)
  {
    hide After, Core, Holds, LeasedBy, Reaches;
    if j == 0 {
      NothingHeldAtFirst(cfg, db, trace, k, token);
    } else if Holds(After(cfg, db, trace, j - 1), k, token) {
      KeptTokenKeepsBuild(cfg, db, trace, j - 1, k, token, build);
      TokensComeFromClaims(cfg, db, trace, j - 1, k, token, build);
    } else {
      NewTokenIsClaimed(cfg, db, trace, j - 1, k, token, build);
    }
  }

  /**
   Check-then-complete is safe under any interleaving. The handler reads the task's recorded build at
   point i and validates the observation against it; it completes at a later point j, with any claims
   and expiries in between. If the completion is accepted, then the request's token, drawn before the
   check, was the task's token at both points, it was issued by a claim before the check, and the
   accepted observation names the evaluator build of that claim.
   */
  lemma AcceptedBuildIsTheLeasedBuild(
      cfg: Config, db: Db, trace: Trace, i: nat, j: nat, k: nat, token: nat, payload: Payload, lane: Descriptor,
      build: Option<string>)
    requires Reaches(cfg, db, trace) && db.tasks == map[] && i <= j < |trace|
    requires token < After(cfg, db, trace, i).uuids
    requires Checked(cfg, After(cfg, db, trace, i), k, payload, lane, build)
    requires CompleteLeased(After(cfg, db, trace, j), k, token, payload, trace[j].now).1 == Accepted
    ensures HoldsWith(After(cfg, db, trace, i), k, token, build) && HoldsWith(After(cfg, db, trace, j), k, token, build)
    ensures ClaimedBefore(cfg, db, trace, i, k, token, build)
    ensures build.Some? ==> payload.subject.build == build
  {
    hide After, Core, Validates, ClaimedBefore;
    BuildTravelsWithToken(cfg, db, trace, i, j, k, token);
    TokensComeFromClaims(cfg, db, trace, i, k, token, build);
    ValidatedBuild(cfg, After(cfg, db, trace, i), k, payload, lane, build);
  }

  /** The handler's first step: the observation validates against the task's cell and recorded build. */
  predicate Checked(cfg: Config, db: Db, k: nat, payload: Payload, lane: Descriptor, build: Option<string>) {
    && k in db.tasks && db.tasks[k].build == build
    && Validates(cfg.defs, payload, lane, db.tasks[k].cell.scenario, build)
  }

  lemma ValidatedBuild(cfg: Config, db: Db, k: nat, payload: Payload, lane: Descriptor, build: Option<string>)
    requires Checked(cfg, db, k, payload, lane, build)
    ensures build.Some? ==> payload.subject.build == build
  {
  }

  // ----- Idempotent completion and failure.

  /** The task's row is frozen right after event i closed it. */
  lemma ClosedForGood(cfg: Config, db: Db, trace: Trace, i: nat, j: nat, k: nat, t: Task)
    requires Reaches(cfg, db, trace) && i < j <= |trace| && Terminal(t)
    requires var s := After(cfg, db, trace, i + 1); k in s.tasks && s.tasks[k] == t
    requires k in After(cfg, db, trace, j).tasks
    ensures After(cfg, db, trace, j).tasks[k] == t
  {
    hide After, Core;
    OutcomesAreFinal(cfg, db, trace, i + 1, j, k);
  }

  lemma AcceptedCompletion(cfg: Config, db: Db, e: Timed)
    requires e.event.CompleteJob?
    requires CompleteLeased(db, e.event.task, e.event.token, e.event.payload, e.now).1 == Accepted
    ensures var c := e.event;
            && c.task in db.tasks
            && c.task in Apply(cfg, db, e).tasks
            && Apply(cfg, db, e).tasks[c.task] == CompletedTask(db.tasks[c.task], c.payload, e.now)
  {
  }

  /**
   For as long as the task exists after an accepted completion, the same evidence is a duplicate
   under any token, other evidence and failures conflict, and neither changes the state.
   */
  lemma CompletionIsIdempotent(cfg: Config, db: Db, trace: Trace, i: nat, j: nat,
                               token: nat, payload: Payload, report: Reporter, error: string, now: int)
    requires Reaches(cfg, db, trace) && i < j <= |trace| && trace[i].event.CompleteJob?
    requires var c := trace[i].event;
             && CompleteLeased(After(cfg, db, trace, i), c.task, c.token, c.payload, trace[i].now).1 == Accepted
             && c.task in After(cfg, db, trace, j).tasks
    ensures var c, s := trace[i].event, After(cfg, db, trace, j);
            && CompleteLeased(s, c.task, token, payload, now) == (s,
                if payload == c.payload then Duplicate else Conflict)
            && FailLeased(report, s, c.task, token, error, now) == (s, Conflict)
  {
    var c, before := trace[i].event, After(cfg, db, trace, i);
    AcceptedCompletion(cfg, before, trace[i]);
    assert After(cfg, db, trace, i + 1) == Apply(cfg, before, trace[i]);
    hide After, Core, Apply;
    ClosedForGood(cfg, db, trace, i, j, c.task, CompletedTask(before.tasks[c.task], c.payload, trace[i].now));
  }

  lemma AcceptedFailure(cfg: Config, db: Db, e: Timed)
    requires e.event.FailJob?
    requires FailLeased(e.event.report, db, e.event.task, e.event.token, e.event.error, e.now).1 == Accepted
    ensures var c := e.event;
            && c.task in db.tasks
            && c.task in Apply(cfg, db, e).tasks
            && Apply(cfg, db, e).tasks[c.task] == FailedTask(db.tasks[c.task], c.token, c.error, e.now)
  {
  }

  /** After an accepted failure the same token is a duplicate failure; another token, or any completion, conflicts. */
  lemma FailureIsIdempotent(cfg: Config, db: Db, trace: Trace, i: nat, j: nat,
                            token: nat, payload: Payload, report: Reporter, error: string, now: int)
    requires Reaches(cfg, db, trace) && i < j <= |trace| && trace[i].event.FailJob?
    requires var c := trace[i].event;
             && FailLeased(c.report, After(cfg, db, trace, i), c.task, c.token, c.error, trace[i].now).1 == Accepted
             && c.task in After(cfg, db, trace, j).tasks
    ensures var c, s := trace[i].event, After(cfg, db, trace, j);
            && FailLeased(report, s, c.task, token, error, now) == (s, if token == c.token then Duplicate else Conflict)
            && CompleteLeased(s, c.task, token, payload, now) == (s, Conflict)
  {
    var c, before := trace[i].event, After(cfg, db, trace, i);
    AcceptedFailure(cfg, before, trace[i]);
    assert After(cfg, db, trace, i + 1) == Apply(cfg, before, trace[i]);
    hide After, Core, Apply;
    ClosedForGood(cfg, db, trace, i, j, c.task, FailedTask(before.tasks[c.task], c.token, c.error, trace[i].now));
  }

  // ----- One observation per outcome.

  /** A stored observation exists exactly for the complete and unknown tasks, and there is only one of it. */
  lemma ExactlyOneObservation(cfg: Config, trace: Trace, i: nat, k: nat)
    requires LegalRun(cfg, EMPTY, trace) && NeverReplaces(cfg, EMPTY, trace) && i <= |trace|
    requires k in After(cfg, EMPTY, trace, i).tasks
    ensures var s := After(cfg, EMPTY, trace, i);
            && (Settled(s.tasks[k]) <==> HasRow(s.rows, s.tasks[k]))
            && (forall o, p | o in s.rows && p in s.rows && FiledFor(s.rows[o], s.tasks[k]) && FiledFor(s.rows[p],
                s.tasks[k]) ::
                  o == p)
            && |s.rows| == |SettledTasks(s.tasks)|
  {
    EmptyCore(cfg);
    CoreHoldsThroughout(cfg, EMPTY, trace, i);
    hide After;
    LedgerAtTask(After(cfg, EMPTY, trace, i), k);
    ObservationsCountSettledTasks(After(cfg, EMPTY, trace, i));
  }

  lemma LedgerAtTask(s: Db, k: nat)
    requires UniqueCells(s.tasks) && Ledger(s.tasks, s.rows) && k in s.tasks
    ensures Settled(s.tasks[k]) <==> HasRow(s.rows, s.tasks[k])
    ensures forall o, p | o in s.rows && p in s.rows && FiledFor(s.rows[o], s.tasks[k]) && FiledFor(s.rows[p],
        s.tasks[k]) ::
              o == p
  {
    assert Settled(s.tasks[k]) ==> HasRow(s.rows, s.tasks[k]);
    if HasRow(s.rows, s.tasks[k]) {
      var o :| o in s.rows && FiledFor(s.rows[o], s.tasks[k]);
      assert HasSettledTask(s.tasks, s.rows[o]);
      var j :| j in s.tasks && FiledFor(s.rows[o], s.tasks[j]) && Settled(s.tasks[j]);
      assert j == k;
    }
  }

  /** An accepted completion files its observation, and adds to their number exactly when its id is not stored yet. */
  lemma CompletionAddsOneRow(db: Db, k: nat, token: nat, payload: Payload, now: int)
    requires CompleteLeased(db, k, token, payload, now).1 == Accepted
    ensures var d := CompleteLeased(db, k, token, payload, now).0;
            && payload.id in d.rows && d.rows[payload.id] == Row(db.tasks[k].group, db.tasks[k].cell, payload)
            && (|d.rows| == |db.rows| + 1 <==> payload.id !in db.rows)
  {
    var d := CompleteLeased(db, k, token, payload, now).0;
    assert d.rows == db.rows[payload.id := Row(db.tasks[k].group, db.tasks[k].cell, payload)];
    assert d.rows.Keys == db.rows.Keys + {payload.id};
    assert |d.rows| == |d.rows.Keys| && |db.rows| == |db.rows.Keys|;
  }

  lemma NextState(cfg: Config, db: Db, trace: Trace, i: nat)
    requires i < |trace|
    ensures After(cfg, db, trace, i + 1) == Apply(cfg, After(cfg, db, trace, i), trace[i])
  {
  }
}
