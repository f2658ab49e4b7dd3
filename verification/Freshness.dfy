/**
 Discovery over time: age-based retention never changes what is discovered, and a pass that newer
 `unknown` evidence has displaced is never served again.
 */
module Freshness {
  import opened Wrappers
  import opened Catalog
  import opened Lanes
  import opened Provenance
  import opened Queue
  import opened QueueInvariants
  import opened Recovery
  import opened QueueRuns
  import opened QueueTheorems
  import opened Evidence
  import opened Discovery

  // ----- Retention.

  predicate FinishedNoEarlier(g: Group, time: int) {
    g.status == Finished && g.finishedAt.Some? ==> time <= g.finishedAt.value
  }

  /** Evidence lives at most a day, and is observed no later than its group finishes. */
  predicate Timely(db: Db, o: nat)
    requires o in db.rows
  {
    var r := db.rows[o];
    && r.payload.freshUntil <= r.payload.observedAt + DAY
    && (r.group in db.groups ==> FinishedNoEarlier(db.groups[r.group], r.payload.observedAt))
  }

  predicate AllTimely(db: Db) {
    forall o | o in db.rows :: Timely(db, o)
  }

  function Pruned(db: Db, days: nat, now: int): Db {
    DeleteGroups(db, Aged(db, now - days * DAY))
  }

  /** No row that is as new as some unexpired row is old enough to be deleted. */
  lemma RecentRowsStay(db: Db, days: nat, now: int, later: int, p: nat, q: nat)
    requires AllTimely(db) && days >= 1 && now <= later
    requires p in db.rows && q in db.rows && db.rows[p].payload.freshUntil > later
    requires db.rows[p].payload.observedAt <= db.rows[q].payload.observedAt
    ensures q in Pruned(db, days, now).rows
  {
    assert Timely(db, p) && Timely(db, q);
  }

  lemma FreshNewestStay(db: Db, days: nat, now: int, later: int, c: Cell, p: nat)
    requires AllTimely(db) && days >= 1 && now <= later
    requires p in db.rows && db.rows[p].cell == c && db.rows[p].payload.freshUntil > later
    ensures Newest(Pruned(db, days, now).rows, c) == Newest(db.rows, c)
  {
    var d := Pruned(db, days, now);
    forall q | q in Newest(db.rows, c)
      ensures q in Newest(d.rows, c)
    {
      RecentRowsStay(db, days, now, later, p, q);
    }
    RecentRowsStay(db, days, now, later, p, p);
    forall q | q in Newest(d.rows, c)
      ensures q in Newest(db.rows, c)
    {
      forall r | r in db.rows && db.rows[r].cell == c
        ensures db.rows[r].payload.observedAt <= db.rows[q].payload.observedAt
      {
        assert d.rows[p].payload.observedAt <= d.rows[q].payload.observedAt;
        if db.rows[p].payload.observedAt <= db.rows[r].payload.observedAt {
          RecentRowsStay(db, days, now, later, p, r);
          assert d.rows[r] == db.rows[r];
        }
      }
    }
  }

  /** A surviving row keeps the task it was filed for, and with it the evaluator build. */
  lemma BuildStays(db: Db, days: nat, now: int, o: nat)
    requires UniqueCells(db.tasks) && o in Pruned(db, days, now).rows
    ensures BuildOf(Pruned(db, days, now).tasks, db.rows[o]) == BuildOf(db.tasks, db.rows[o])
  {
    var d := Pruned(db, days, now);
    if k :| k in db.tasks && FiledFor(db.rows[o], db.tasks[k]) {
      assert d.tasks[k] == db.tasks[k];
      BuildIsUnique(db.tasks, db.rows[o], k);
      BuildIsUnique(d.tasks, db.rows[o], k);
    }
  }

  /** Whatever is unexpired, before or after the deletion, is the newest evidence both before and after it. */
  lemma UnexpiredEvidenceStays(db: Db, order: seq<nat>, days: nat, now: int, later: int, c: Cell)
    requires UniqueCells(db.tasks) && AllTimely(db) && days >= 1 && now <= later
    requires || (Latest(db, order, c).Some? && Latest(db, order, c).value.freshUntil > later)
             || (Latest(Pruned(db, days, now), order, c).Some? && Latest(Pruned(db, days, now), order,
                 c).value.freshUntil > later)
    ensures Latest(Pruned(db, days, now), order, c) == Latest(db, order, c)
  {
    var d := Pruned(db, days, now);
    var p := if Latest(db, order, c).Some? && Latest(db, order, c).value.freshUntil > later
             then LastOf(order, Newest(db.rows, c)).value else LastOf(order, Newest(d.rows, c)).value;
    assert p in db.rows && db.rows[p].cell == c && db.rows[p].payload.freshUntil > later;
    FreshNewestStay(db, days, now, later, c, p);
    var o := LastOf(order, Newest(db.rows, c)).value;
    assert o in d.rows && d.rows[o] == db.rows[o];
    BuildStays(db, days, now, o);
  }

  lemma CurrentStandingStays(rt: Observer, db: Db, order: seq<nat>, days: nat, now: int, later: int, c: Cell)
    requires UniqueCells(db.tasks) && AllTimely(db) && days >= 1 && now <= later && c.lane in rt.lanes
    ensures var s, t := StandingOf(rt, db, order, c, later), StandingOf(rt, Pruned(db, days, now), order, c, later);
            s.Current? || t.Current? ==> s == t && Latest(Pruned(db, days, now), order, c) == Latest(db, order, c)
  {
    hide Latest, Pruned, Validates;
    var s, t := StandingOf(rt, db, order, c, later), StandingOf(rt, Pruned(db, days, now), order, c, later);
    if s.Current? || t.Current? {
      UnexpiredEvidenceStays(db, order, days, now, later, c);
    }
  }

  lemma SameCounts(m: map<Cell, Standing>, n: map<Cell, Standing>)
    requires m.Keys == n.Keys
    requires forall c | c in m :: m[c].Current? || n[c].Current? ==> m[c] == n[c]
    ensures var s, t := Tally(m), Tally(n);
            t == s.(evaluated := t.evaluated)
  {
    assert Where(m, Any) == Where(n, Any);
    assert Where(m, Judged) == Where(n, Judged);
    assert Where(m, Up) == Where(n, Up);
    assert Where(m, Down) == Where(n, Down);
    assert Where(m, Undecided) == Where(n, Undecided);
  }

  /** Age-based retention changes no discovered egress, neither now nor later. */
  lemma RetentionKeepsEgresses(rt: Observer, db: Db, order: seq<nat>, days: nat, now: int, later: int, scenario: string)
    requires UniqueCells(db.tasks) && AllTimely(db) && days >= 1 && now <= later
    ensures Offered(rt, Pruned(db, days, now), order, scenario, later) == Offered(rt, db, order, scenario, later)
    ensures forall id | id in Offered(rt, db, order, scenario, later) ::
              && Latest(db, order, Cell(id, scenario)).Some?
              && Latest(Pruned(db, days, now), order, Cell(id, scenario)) == Latest(db, order, Cell(id, scenario))
  {
    forall id | id in rt.lanes
      ensures var c := Cell(id, scenario);
              var s, t := StandingOf(rt, db, order, c, later), StandingOf(rt, Pruned(db, days, now), order, c, later);
              s.Current? || t.Current? ==> s == t && Latest(Pruned(db, days, now), order, c) == Latest(db, order, c)
    {
      CurrentStandingStays(rt, db, order, days, now, later, Cell(id, scenario));
    }
    hide Latest, Pruned, Validates;
  }

  /** Nor does it change the fresh, available, unavailable and unknown counts; only stale evidence can disappear. */
  lemma RetentionKeepsCounts(rt: Observer, db: Db, order: seq<nat>, days: nat, now: int, later: int)
    requires UniqueCells(db.tasks) && AllTimely(db) && days >= 1 && now <= later
    ensures var s, t := CountsOf(rt, db, order, rt.lanes.Keys, later), CountsOf(rt, Pruned(db, days, now), order,
        rt.lanes.Keys, later);
            t == s.(evaluated := t.evaluated)
  {
    hide StandingOf, Tally, Pruned;
    var d, cells := Pruned(db, days, now), Declared(rt, rt.lanes.Keys);
    var m, n := Standings(rt, db, order, cells, later), Standings(rt, d, order, cells, later);
    forall c | c in m
      ensures m[c].Current? || n[c].Current? ==> m[c] == n[c]
    {
      CurrentStandingStays(rt, db, order, days, now, later, c);
    }
    SameCounts(m, n);
  }

  // ----- Timeliness over whole runs.

  /** The worker's clock is not ahead, and its evidence lives at most a day. */
  predicate TimelyEvent(e: Timed) {
    e.event.CompleteJob? ==>
      e.event.payload.observedAt <= e.now && e.event.payload.freshUntil <= e.event.payload.observedAt + DAY
  }

  predicate TimelyRun(trace: Trace) {
    forall i | 0 <= i < |trace| :: TimelyEvent(trace[i])
  }

  lemma RunningTaskOpensGroup(cfg: Config, db: Db, r: Row)
    requires Core(cfg, db) && HasRunningTask(db.tasks, r)
    ensures r.group in db.groups && db.groups[r.group].status != Finished
  {
    var k :| k in db.tasks && FiledFor(r, db.tasks[k]) && db.tasks[k].status == Running;
    assert GroupPending(db.tasks, r.group);
  }

  /** A row added by an event belongs to a group that was open before it, and so finishes no earlier. */
  lemma AddedRowsOpenGroup(cfg: Config, db: Db, e: Timed, o: nat, r: Row)
    requires Core(cfg, db) && (LostWork(db, r, e.now, o) || FiledBy(db, e, o, r))
    ensures r.group in db.groups && db.groups[r.group].status != Finished
  {
    hide Core;
    if FiledBy(db, e, o, r) {
      assert FiledFor(r, db.tasks[e.event.task]) && db.tasks[e.event.task].status == Running;
      assert HasRunningTask(db.tasks, r);
    }
    RunningTaskOpensGroup(cfg, db, r);
  }

  lemma TimelyStep(cfg: Config, db: Db, d: Db, e: Timed, o: nat)
    requires Core(cfg, db) && o in d.rows && TimelyEvent(e)
    requires Step(db, d, e, 0, d.rows[o].group, o)
    requires o in db.rows ==> Timely(db, o) && db.rows[o].payload.observedAt <= e.now
    ensures Timely(d, o) && d.rows[o].payload.observedAt <= e.now
  {
    hide Core;
    var r := d.rows[o];
    if LostWork(db, r, e.now, o) || FiledBy(db, e, o, r) {
      AddedRowsOpenGroup(cfg, db, e, o, r);
    }
  }

  /** In every state of a run with timely workers, every observation is timely. */
  lemma {:induction false} TimelinessHolds(cfg: Config, trace: Trace, i: nat, o: nat)
    requires Reaches(cfg, EMPTY, trace) && TimelyRun(trace) && i <= |trace| && o in After(cfg, EMPTY, trace, i).rows
    ensures Timely(After(cfg, EMPTY, trace, i), o)
    ensures forall m | i <= m < |trace| :: After(cfg, EMPTY, trace, i).rows[o].payload.observedAt <= trace[m].now
  {
    hide After, Core, Step, Timely;
    if i == 0 {
      NoRowsAtFirst(cfg, trace);
    } else {
      var s, t := After(cfg, EMPTY, trace, i - 1), After(cfg, EMPTY, trace, i);
      if o in s.rows {
        TimelinessHolds(cfg, trace, i - 1, o);
      }
      StepAt(cfg, EMPTY, trace, i - 1, 0, t.rows[o].group, o);
      TimelyStep(cfg, s, t, trace[i - 1], o);
    }
  }

  lemma NoRowsAtFirst(cfg: Config, trace: Trace)
    ensures After(cfg, EMPTY, trace, 0).rows == map[]
  {
  }

  /** So in every reachable state of such runs, retention leaves discovery alone, for good. */
  lemma RetentionNeverChangesDiscovery(cfg: Config, trace: Trace, i: nat, rt: Observer, order: seq<nat>, days: nat,
                                       now: int, later: int, scenario: string)
    requires Reaches(cfg, EMPTY, trace) && TimelyRun(trace) && i <= |trace| && days >= 1 && now <= later
    ensures var db := After(cfg, EMPTY, trace, i);
            var d := Pruned(db, days, now);
            && Offered(rt, d, order, scenario, later) == Offered(rt, db, order, scenario, later)
            && (var s, t := CountsOf(rt, db, order, rt.lanes.Keys, later), CountsOf(rt, d, order, rt.lanes.Keys, later);
                t == s.(evaluated := t.evaluated))
  {
    hide After, Offered, CountsOf, Pruned, Timely;
    var db := After(cfg, EMPTY, trace, i);
    forall o | o in db.rows
      ensures Timely(db, o)
    {
      TimelinessHolds(cfg, trace, i, o);
    }
    CoreHoldsThroughout(cfg, EMPTY, trace, i);
    RetentionKeepsEgresses(rt, db, order, days, now, later, scenario);
    RetentionKeepsCounts(rt, db, order, days, now, later);
  }

  // ----- No stale pass.

  /** An event that neither files newer evidence of the cell nor deletes groups younger than a day. */
  predicate QuietEvent(db: Db, e: Timed, c: Cell, t: int) {
    match e.event
    case CompleteJob(task, token, payload) =>
      !(task in db.tasks && db.tasks[task].cell == c && payload.observedAt >= t
        && CompleteLeased(db, task, token, payload, e.now).1 == Accepted)
    case Retain(cutoff, evicted) => cutoff <= e.now - DAY && evicted == {}
    case _ => true
  }

  predicate QuietBetween(cfg: Config, db: Db, trace: Trace, i: nat, j: nat, c: Cell, t: int)
    requires j <= |trace|
  {
    forall m | i <= m < j :: QuietEvent(After(cfg, db, trace, m), trace[m], c, t)
  }

  /** The `unknown` row still stands in the way of anything older. */
  predicate Blocks(db: Db, c: Cell, t: int, o: nat) {
    && o in db.rows && db.rows[o].cell == c && db.rows[o].payload.observedAt == t
    && db.rows[o].group in db.groups && FinishedNoEarlier(db.groups[db.rows[o].group], t)
  }

  /** The event is no accepted completion under observation id o, so INSERT OR REPLACE leaves row o alone. */
  predicate Spares(db: Db, e: Timed, o: nat) {
    match e.event
    case CompleteJob(task, token, payload) =>
      payload.id == o ==> CompleteLeased(db, task, token, payload, e.now).1 != Accepted
    case _ => true
  }

  predicate SparedBetween(cfg: Config, db: Db, trace: Trace, i: nat, j: nat, o: nat)
    requires j <= |trace|
  {
    forall m | i <= m < j :: Spares(After(cfg, db, trace, m), trace[m], o)
  }

  predicate Harmless(r: Row, c: Cell, t: int) {
    r.cell == c && r.payload.observedAt >= t ==> r.payload.availability != Available
  }

  lemma HarmlessStep(db: Db, d: Db, e: Timed, c: Cell, t: int, p: nat, g: nat)
    requires Step(db, d, e, 0, g, p) && QuietEvent(db, e, c, t) && p in d.rows
    requires p in db.rows ==> Harmless(db.rows[p], c, t)
    ensures Harmless(d.rows[p], c, t)
  {
  }

  lemma BlockerStep(db: Db, d: Db, e: Timed, c: Cell, t: int, o: nat)
    requires Blocks(db, c, t, o) && Step(db, d, e, 0, db.rows[o].group, o)
    requires t <= e.now && Spares(db, e, o) && QuietEvent(db, e, c, t)
    requires e.event.Retain? ==> d == DeleteGroups(db, Aged(db, e.event.cutoff) + e.event.evicted * FinishedGroups(db))
    ensures Blocks(d, c, t, o) || (e.event.Retain? && t + DAY < e.now)
  {
  }

  /** Event i, an expiry or a worker failure, writes `unknown` row o for cell c, newer than all evidence of the cell. */
  predicate WritesUnknown(cfg: Config, trace: Trace, i: nat, c: Cell, o: nat)
    requires i < |trace|
  {
    var s, t := After(cfg, EMPTY, trace, i), After(cfg, EMPTY, trace, i + 1);
    && (trace[i].event.ExpireLeases? || trace[i].event.FailJob?)
    && o !in s.rows && o in t.rows && t.rows[o].cell == c
    && forall p | p in s.rows && s.rows[p].cell == c :: s.rows[p].payload.observedAt < trace[i].now
  }

  /** The foreign key of observations holds in every reachable state, whatever observation ids workers choose. */
  lemma {:induction false} RowsHaveGroups(cfg: Config, trace: Trace, i: nat, o: nat)
    requires Reaches(cfg, EMPTY, trace) && i <= |trace| && o in After(cfg, EMPTY, trace, i).rows
    ensures After(cfg, EMPTY, trace, i).rows[o].group in After(cfg, EMPTY, trace, i).groups
  {
    hide After, Core, Reaches, LostWork, FiledBy;
    if i == 0 {
      NoRowsAtFirst(cfg, trace);
    } else {
      var s, t := After(cfg, EMPTY, trace, i - 1), After(cfg, EMPTY, trace, i);
      if o in s.rows {
        RowsHaveGroups(cfg, trace, i - 1, o);
      }
      StepAt(cfg, EMPTY, trace, i - 1, 0, t.rows[o].group, o);
      if LostWork(s, t.rows[o], trace[i - 1].now, o) || FiledBy(s, trace[i - 1], o, t.rows[o]) {
        AddedRowsOpenGroup(cfg, s, trace[i - 1], o, t.rows[o]);
      }
    }
  }

  // Evidence that lasts a day at most, which is needed only where retention deletes.

  predicate NoRetention(trace: Trace, i: nat, j: nat)
    requires j <= |trace|
  {
    forall m | i <= m < j :: !trace[m].event.Retain?
  }

  predicate LastsADay(r: Row) {
    r.payload.freshUntil <= r.payload.observedAt + DAY
  }

  /** No completion of a task of this cell is accepted with evidence that lives longer than a day. */
  predicate ShortEvent(db: Db, e: Timed, c: Cell) {
    match e.event
    case CompleteJob(task, token, payload) =>
      task in db.tasks && db.tasks[task].cell == c && CompleteLeased(db, task, token, payload, e.now).1 == Accepted
      ==> payload.freshUntil <= payload.observedAt + DAY
    case _ => true
  }

  predicate ShortBefore(cfg: Config, trace: Trace, j: nat, c: Cell)
    requires j <= |trace|
  {
    forall m | 0 <= m < j :: ShortEvent(After(cfg, EMPTY, trace, m), trace[m], c)
  }

  lemma ShortStep(db: Db, d: Db, e: Timed, c: Cell, o: nat)
    requires o in d.rows && d.rows[o].cell == c && Step(db, d, e, 0, 0, o) && ShortEvent(db, e, c)
    requires o in db.rows && db.rows[o].cell == c ==> LastsADay(db.rows[o])
    ensures LastsADay(d.rows[o])
  {
  }

  /** Then every observation of the cell lasts a day at most. */
  lemma {:induction false} ShortThroughout(cfg: Config, trace: Trace, j: nat, c: Cell, o: nat)
    requires Reaches(cfg, EMPTY, trace) && j <= |trace| && ShortBefore(cfg, trace, j, c)
    requires o in After(cfg, EMPTY, trace, j).rows && After(cfg, EMPTY, trace, j).rows[o].cell == c
    ensures LastsADay(After(cfg, EMPTY, trace, j).rows[o])
  {
    hide After, Core, Reaches, Step, LastsADay, ShortEvent;
    if j == 0 {
      NoRowsAtFirst(cfg, trace);
    } else {
      var s := After(cfg, EMPTY, trace, j - 1);
      if o in s.rows && s.rows[o].cell == c {
        ShortThroughout(cfg, trace, j - 1, c, o);
      }
      StepAt(cfg, EMPTY, trace, j - 1, 0, 0, o);
      ShortStep(s, After(cfg, EMPTY, trace, j), trace[j - 1], c, o);
    }
  }

  predicate AllHarmless(db: Db, c: Cell, t: int) {
    forall p | p in db.rows :: Harmless(db.rows[p], c, t)
  }

  lemma UnknownIsWritten(cfg: Config, trace: Trace, i: nat, c: Cell, o: nat)
    requires Reaches(cfg, EMPTY, trace) && i < |trace| && WritesUnknown(cfg, trace, i, c, o)
    ensures Blocks(After(cfg, EMPTY, trace, i + 1), c, trace[i].now, o)
    ensures AllHarmless(After(cfg, EMPTY, trace, i + 1), c, trace[i].now)
  {
    hide After, Core, Reaches;
    var s, t := After(cfg, EMPTY, trace, i), After(cfg, EMPTY, trace, i + 1);
    StepAt(cfg, EMPTY, trace, i, 0, t.rows[o].group, o);
    AddedRowsOpenGroup(cfg, s, trace[i], o, t.rows[o]);
    RowsHaveGroups(cfg, trace, i + 1, o);
    forall p | p in t.rows
      ensures Harmless(t.rows[p], c, trace[i].now)
    {
      StepAt(cfg, EMPTY, trace, i, 0, 0, p);
    }
  }

  lemma RetainDeletes(cfg: Config, db: Db, trace: Trace, i: nat)
    requires i < |trace| && trace[i].event.Retain?
    ensures var s, e := After(cfg, db, trace, i), trace[i].event;
            After(cfg, db, trace, i + 1) == DeleteGroups(s, Aged(s, e.cutoff) + e.evicted * FinishedGroups(s))
  {
  }

  /** The displacing row stays, or is deleted only when everything older has expired. */
  lemma {:induction false} UnknownKeepsBlocking(cfg: Config, trace: Trace, i: nat, j: nat, c: Cell, o: nat)
    requires Reaches(cfg, EMPTY, trace) && i < j <= |trace| && WritesUnknown(cfg, trace, i, c, o)
    requires QuietBetween(cfg, EMPTY, trace, i + 1, j, c, trace[i].now)
    requires SparedBetween(cfg, EMPTY, trace, i + 1, j, o)
    ensures Blocks(After(cfg, EMPTY, trace, j), c, trace[i].now, o)
            || (!NoRetention(trace, i + 1, j) && trace[i].now + DAY < trace[j - 1].now)
    ensures AllHarmless(After(cfg, EMPTY, trace, j), c, trace[i].now)
  {
    hide After, Core, WritesUnknown, Step, Blocks, QuietEvent, Spares;
    if j == i + 1 {
      UnknownIsWritten(cfg, trace, i, c, o);
    } else {
      UnknownKeepsBlocking(cfg, trace, i, j - 1, c, o);
      var s, t, e := After(cfg, EMPTY, trace, j - 1), After(cfg, EMPTY, trace, j), trace[j - 1];
      assert QuietEvent(s, e, c, trace[i].now) && Spares(s, e, o);
      forall p | p in t.rows
        ensures Harmless(t.rows[p], c, trace[i].now)
      {
        StepAt(cfg, EMPTY, trace, j - 1, 0, 0, p);
        HarmlessStep(s, t, e, c, trace[i].now, p, 0);
      }
      if Blocks(s, c, trace[i].now, o) {
        BlockingStep(cfg, trace, i, j - 1, c, o);
      }
    }
  }

  lemma BlockingStep(cfg: Config, trace: Trace, i: nat, m: nat, c: Cell, o: nat)
    requires Reaches(cfg, EMPTY, trace) && i < m < |trace|
    requires Blocks(After(cfg, EMPTY, trace, m), c, trace[i].now, o)
    requires Spares(After(cfg, EMPTY, trace, m), trace[m], o)
    requires QuietEvent(After(cfg, EMPTY, trace, m), trace[m], c, trace[i].now)
    ensures Blocks(After(cfg, EMPTY, trace, m + 1), c, trace[i].now, o)
            || (trace[m].event.Retain? && trace[i].now + DAY < trace[m].now)
  {
    hide After, Core, Step, Blocks, QuietEvent, Spares;
    var s, t := After(cfg, EMPTY, trace, m), After(cfg, EMPTY, trace, m + 1);
    BlockerIsThere(s, c, trace[i].now, o);
    StepAt(cfg, EMPTY, trace, m, 0, s.rows[o].group, o);
    if trace[m].event.Retain? {
      RetainDeletes(cfg, EMPTY, trace, m);
    }
    BlockerStep(s, t, trace[m], c, trace[i].now, o);
  }

  lemma BlockerIsThere(db: Db, c: Cell, t: int, o: nat)
    requires Blocks(db, c, t, o)
    ensures o in db.rows
  {
  }

  /** Every observation of the cell that is left lasts a day at most. */
  predicate AllShort(db: Db, c: Cell) {
    forall p | p in db.rows && db.rows[p].cell == c :: LastsADay(db.rows[p])
  }

  /** With the displacing row in place, or everything older expired, the cell is not offered. */
  lemma DisplacedIsNotOffered(rt: Observer, db: Db, order: seq<nat>, c: Cell, t: int, o: nat, later: int)
    requires c.lane in rt.lanes && AllHarmless(db, c, t)
    requires Blocks(db, c, t, o) || (AllShort(db, c) && t + DAY <= later)
    ensures StandingOf(rt, db, order, c, later) != Current(Available)
  {
    var last := LastOf(order, Newest(db.rows, c));
    if last.Some? {
      var r := db.rows[last.value];
      assert Harmless(r, c, t);
      assert Blocks(db, c, t, o) ==> t <= r.payload.observedAt;
    }
  }

  /**
   No stale pass is revived. After an expiry or worker failure wrote `unknown` for a cell, the cell is
   discovered in no later state of the run, at no later time, until newer evidence of it is accepted or
   a completion carries the id of that very row. Age-based retention may run in between if no evidence
   of the cell was accepted that lives longer than a day; without retention nothing is asked of workers.
   */
  lemma StalePassesStayHidden(cfg: Config, trace: Trace, i: nat, j: nat, c: Cell, o: nat, rt: Observer,
                              order: seq<nat>, later: int)
    requires Reaches(cfg, EMPTY, trace)
    requires i < j <= |trace| && WritesUnknown(cfg, trace, i, c, o)
    requires NoRetention(trace, i + 1, j) || ShortBefore(cfg, trace, j, c)
    requires QuietBetween(cfg, EMPTY, trace, i + 1, j, c, trace[i].now)
    requires SparedBetween(cfg, EMPTY, trace, i + 1, j, o)
    requires trace[j - 1].now <= later && c.lane in rt.lanes
    ensures StandingOf(rt, After(cfg, EMPTY, trace, j), order, c, later) != Current(Available)
    ensures c.lane !in Offered(rt, After(cfg, EMPTY, trace, j), order, c.scenario, later)
  {
    hide After, Core, WritesUnknown, Blocks, QuietEvent, StandingOf, Spares, ShortEvent, LastsADay;
    UnknownKeepsBlocking(cfg, trace, i, j, c, o);
    var db := After(cfg, EMPTY, trace, j);
    if ShortBefore(cfg, trace, j, c) {
      forall p | p in db.rows && db.rows[p].cell == c
        ensures LastsADay(db.rows[p])
      {
        ShortThroughout(cfg, trace, j, c, p);
      }
    }
    DisplacedIsNotOffered(rt, db, order, c, trace[i].now, o, later);
  }

  // ----- When a stale pass does come back.

  function Without(db: Db, o: nat): Db {
    db.(rows := db.rows - {o})
  }

  lemma CompletionKeepsBuild(db: Db, k: nat, token: nat, payload: Payload, now: int, r: Row)
    requires CompleteLeased(db, k, token, payload, now).1 == Accepted && UniqueCells(db.tasks)
    ensures BuildOf(CompleteLeased(db, k, token, payload, now).0.tasks, r) == BuildOf(db.tasks, r)
  {
    var d := CompleteLeased(db, k, token, payload, now).0;
    assert d.tasks == db.tasks[k := CompletedTask(db.tasks[k], payload, now)];
    ReplaceKeepsCells(db.tasks, k, d.tasks[k]);
    if j :| j in db.tasks && FiledFor(r, db.tasks[j]) {
      assert FiledFor(r, d.tasks[j]);
      BuildIsUnique(db.tasks, r, j);
      BuildIsUnique(d.tasks, r, j);
    }
  }

  lemma CompletedRows(db: Db, k: nat, token: nat, payload: Payload, now: int)
    requires CompleteLeased(db, k, token, payload, now).1 == Accepted
    ensures k in db.tasks
    ensures CompleteLeased(db, k, token, payload, now).0.rows
            == db.rows[payload.id := Row(db.tasks[k].group, db.tasks[k].cell, payload)]
  {
  }

  /** To every other cell, a completion under a stored observation id is the deletion of that observation. */
  lemma ReusedIdDeletesEvidence(db: Db, k: nat, token: nat, payload: Payload, now: int, c: Cell, order: seq<nat>)
    requires CompleteLeased(db, k, token, payload, now).1 == Accepted && UniqueCells(db.tasks) && c != db.tasks[k].cell
    ensures Latest(CompleteLeased(db, k, token, payload, now).0, order, c) == Latest(Without(db, payload.id), order, c)
  {
    hide BuildOf, CompleteLeased;
    CompletedRows(db, k, token, payload, now);
    var d, w := CompleteLeased(db, k, token, payload, now).0, Without(db, payload.id);
    assert forall p :: p in d.rows && d.rows[p].cell == c <==> p in w.rows && w.rows[p].cell == c;
    assert Newest(d.rows, c) == Newest(w.rows, c);
    var last := LastOf(order, Newest(w.rows, c));
    if last.Some? {
      CompletionKeepsBuild(db, k, token, payload, now, w.rows[last.value]);
    }
  }

  /** The evidence of cell c once task k is completed under id o: without row o, but with the new one if it is of c. */
  function Remaining(db: Db, k: nat, payload: Payload, c: Cell): Db
    requires k in db.tasks
  {
    if db.tasks[k].cell == c then db.(rows := db.rows[payload.id := Row(db.tasks[k].group, c, payload)])
    else Without(db, payload.id)
  }

  lemma RemainingEvidence(db: Db, k: nat, token: nat, payload: Payload, now: int, c: Cell, order: seq<nat>)
    requires CompleteLeased(db, k, token, payload, now).1 == Accepted && UniqueCells(db.tasks)
    ensures Latest(CompleteLeased(db, k, token, payload, now).0, order, c)
            == Latest(Remaining(db, k, payload, c), order, c)
  {
    if db.tasks[k].cell != c {
      ReusedIdDeletesEvidence(db, k, token, payload, now, c, order);
    } else {
      hide BuildOf, CompleteLeased;
      CompletedRows(db, k, token, payload, now);
      var d := CompleteLeased(db, k, token, payload, now).0;
      var last := LastOf(order, Newest(d.rows, c));
      if last.Some? {
        CompletionKeepsBuild(db, k, token, payload, now, d.rows[last.value]);
      }
    }
  }

  /**
   The exact condition. Event m is the first after i that might uncover the cell. It does so if and only if
   it is an accepted completion under the id of the displacing row, and the newest of the evidence that
   remains is a current pass.
   */
  lemma StalePassReturnsExactly(cfg: Config, trace: Trace, i: nat, m: nat, c: Cell, o: nat, rt: Observer,
                                order: seq<nat>, later: int)
    requires Reaches(cfg, EMPTY, trace)
    requires i < m < |trace| && WritesUnknown(cfg, trace, i, c, o)
    requires NoRetention(trace, i + 1, m + 1) || ShortBefore(cfg, trace, m + 1, c)
    requires QuietBetween(cfg, EMPTY, trace, i + 1, m + 1, c, trace[i].now)
    requires SparedBetween(cfg, EMPTY, trace, i + 1, m, o)
    requires trace[m].now <= later && c.lane in rt.lanes
    ensures var s, e := After(cfg, EMPTY, trace, m), trace[m];
            c.lane in Offered(rt, After(cfg, EMPTY, trace, m + 1), order, c.scenario, later)
            <==> && !Spares(s, e, o) && e.event.task in s.tasks
                 && var left := Remaining(s, e.event.task, e.event.payload, c);
                    StandingOf(rt, left, order, c, later) == Current(Available)
  {
    hide After, Core, WritesUnknown, QuietEvent, Latest, Remaining, CompleteLeased;
    var s, e := After(cfg, EMPTY, trace, m), trace[m];
    if Spares(s, e, o) {
      StalePassesStayHidden(cfg, trace, i, m + 1, c, o, rt, order, later);
    } else {
      CompletedRows(s, e.event.task, e.event.token, e.event.payload, e.now);
      NextState(cfg, EMPTY, trace, m);
      CoreHoldsThroughout(cfg, EMPTY, trace, m);
      CoreHasUniqueCells(cfg, s);
      RemainingEvidence(s, e.event.task, e.event.token, e.event.payload, e.now, c, order);
    }
  }

  lemma CoreHasUniqueCells(cfg: Config, db: Db)
    requires Core(cfg, db)
    ensures UniqueCells(db.tasks)
  {
  }
}
