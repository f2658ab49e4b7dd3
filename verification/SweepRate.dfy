/** The scheduler over whole runs, among other requests: how often it enqueues a cell, and what a pass covers. */
module SweepRate {
  import opened Wrappers
  import opened Catalog
  import opened Provenance
  import opened Queue
  import opened QueueInvariants
  import opened Recovery
  import opened QueueRuns
  import opened QueueTheorems
  import opened Evidence
  import opened Discovery
  import opened Scheduler
  import Freshness

  /** A worker that completes task k observed it no earlier than time t. */
  predicate ObservedSince(trace: Trace, k: nat, t: int) {
    forall m | 0 <= m < |trace| :: trace[m].event.CompleteJob? && trace[m].event.task == k
        ==> trace[m].event.payload.observedAt >= t
  }

  /** Every row filed for the task was observed since. */
  predicate RowSince(s: Db, k: nat, t: int, o: nat) {
    o in s.rows && k in s.tasks && FiledFor(s.rows[o], s.tasks[k]) ==> s.rows[o].payload.observedAt >= t
  }

  lemma NoRowAtFirst(cfg: Config, trace: Trace, a: nat, k: nat, t: int, o: nat)
    requires Reaches(cfg, EMPTY, trace) && a < |trace| && Enqueued(cfg, trace, a, k)
    ensures RowSince(After(cfg, EMPTY, trace, a + 1), k, t, o)
  {
    hide After, Core, Reaches;
    var s, d := After(cfg, EMPTY, trace, a), After(cfg, EMPTY, trace, a + 1);
    if o in d.rows && FiledFor(d.rows[o], d.tasks[k]) {
      StepAt(cfg, EMPTY, trace, a, k, 0, o);
      if o in s.rows {
        Freshness.RowsHaveGroups(cfg, trace, a, o);
        AgreementAt(cfg, EMPTY, trace, a, s.rows[o].group);
      } else {
        Freshness.RunningTaskOpensGroup(cfg, s, d.rows[o]);
        AgreementAt(cfg, EMPTY, trace, a, d.rows[o].group);
      }
    }
  }

  /** A completion that files a row for a task is a completion of that task. */
  lemma FilesForItsTask(s: Db, e: Timed, k: nat, o: nat, r: Row)
    requires UniqueCells(s.tasks) && FiledBy(s, e, o, r) && k in s.tasks && FiledFor(r, s.tasks[k])
    ensures e.event.task == k && r.payload == e.event.payload
  {
  }

  lemma RowStaysSince(cfg: Config, trace: Trace, a: nat, m: nat, k: nat, o: nat)
    requires Reaches(cfg, EMPTY, trace) && a <= m < |trace| && ObservedSince(trace, k, trace[a].now)
    requires k in After(cfg, EMPTY, trace, m).tasks
    requires RowSince(After(cfg, EMPTY, trace, m), k, trace[a].now, o)
    ensures RowSince(After(cfg, EMPTY, trace, m + 1), k, trace[a].now, o)
  {
    hide After, Core;
    StepAt(cfg, EMPTY, trace, m, k, 0, o);
    CoreHoldsThroughout(cfg, EMPTY, trace, m);
    var s, d := After(cfg, EMPTY, trace, m), After(cfg, EMPTY, trace, m + 1);
    UniqueAt(cfg, s);
    if k in d.tasks && o in d.rows && FiledBy(s, trace[m], o, d.rows[o]) && FiledFor(d.rows[o], d.tasks[k]) {
      FilesForItsTask(s, trace[m], k, o, d.rows[o]);
    }
  }

  lemma UniqueAt(cfg: Config, s: Db)
    requires Core(cfg, s)
    ensures UniqueCells(s.tasks)
  {
  }

  /** The observation of a task is never older than the event that created the task. */
  lemma {:induction false} EvidenceIsNoOlder(cfg: Config, trace: Trace, a: nat, j: nat, k: nat, o: nat)
    requires Reaches(cfg, EMPTY, trace)
    requires a < j <= |trace| && Enqueued(cfg, trace, a, k) && ObservedSince(trace, k, trace[a].now)
    requires k in After(cfg, EMPTY, trace, j).tasks
    ensures RowSince(After(cfg, EMPTY, trace, j), k, trace[a].now, o)
  {
    hide After, Core, Enqueued, ObservedSince, RowSince;
    if j == a + 1 {
      NoRowAtFirst(cfg, trace, a, k, trace[a].now, o);
    } else {
      TaskAfterEnqueue(cfg, trace, a, k);
      PresentBetween(cfg, EMPTY, trace, a + 1, j - 1, j, k);
      EvidenceIsNoOlder(cfg, trace, a, j - 1, k, o);
      RowStaysSince(cfg, trace, a, j - 1, k, o);
    }
  }

  lemma TaskAfterEnqueue(cfg: Config, trace: Trace, a: nat, k: nat)
    requires a < |trace| && Enqueued(cfg, trace, a, k)
    ensures k in After(cfg, EMPTY, trace, a + 1).tasks
  {
  }

  /**
   A task that left the queue with an outcome has evidence, no older than the task, at any later time at
   which its own observation has not been replaced under a reused id.
   */
  lemma SettledTaskHasRecentEvidence(cfg: Config, trace: Trace, a: nat, j: nat, k: nat, order: seq<nat>)
    requires Reaches(cfg, EMPTY, trace)
    requires a < j <= |trace| && Enqueued(cfg, trace, a, k) && ObservedSince(trace, k, trace[a].now)
    requires var s := After(cfg, EMPTY, trace, j); k in s.tasks && HasRow(s.rows, s.tasks[k]) && Lists(order, s.rows)
    ensures var s := After(cfg, EMPTY, trace, j);
            var r := Latest(s, order, s.tasks[k].cell);
            r.Some? && r.value.payload.observedAt >= trace[a].now
  {
    hide After, Core, Reaches, Enqueued, ObservedSince, Latest;
    var s := After(cfg, EMPTY, trace, j);
    var c := s.tasks[k].cell;
    var o :| o in s.rows && FiledFor(s.rows[o], s.tasks[k]);
    EvidenceIsNoOlder(cfg, trace, a, j, k, o);
    LatestIsNewest(s, order, c);
    var n :| n in s.rows && IsNewest(s.rows, c, n) && Latest(s, order, c).value == RecordOf(s.tasks, s.rows[n]);
  }

  /**
   The rate bound. Event a enqueued task k for a cell. A later pass reads the pending cells at point p
   without finding the cell, finds the cell due at point d, and enqueues it at event b. If task k was
   neither superseded nor deleted, and its observation not replaced under a reused id, then the two
   enqueues are at least the lane's cadence apart: half the sweep interval for the quickest tier, four
   intervals for a quarantined lane.
   */
  lemma SweepsAreSpaced(cfg: Config, trace: Trace, a: nat, p: nat, d: nat, b: nat, k: nat, rt: Observer,
                        order: seq<nat>, pass: Pass)
    requires Reaches(cfg, EMPTY, trace)
    requires a < p <= d <= b < |trace| && Enqueued(cfg, trace, a, k) && ObservedSince(trace, k, trace[a].now)
    requires StillFiled(After(cfg, EMPTY, trace, d), k) && Lists(order, After(cfg, EMPTY, trace, d).rows)
    requires After(cfg, EMPTY, trace, d).tasks[k].cell !in PendingCells(After(cfg, EMPTY, trace, p))
    requires IsDue(rt, After(cfg, EMPTY, trace, d), order, pass, After(cfg, EMPTY, trace, d).tasks[k].cell)
    requires pass.now <= trace[b].now
    ensures var c := After(cfg, EMPTY, trace, d).tasks[k].cell;
            2 * (trace[b].now - trace[a].now) >= pass.Wait(c.lane) >= pass.interval
  {
    hide After, Core, Enqueued, ObservedSince, Latest;
    var s := After(cfg, EMPTY, trace, d);
    var c := s.tasks[k].cell;
    TaskAfterEnqueue(cfg, trace, a, k);
    PresentBetween(cfg, EMPTY, trace, a + 1, p, d, k);
    IdentityIsKept(cfg, EMPTY, trace, p, d, k);
    NotPendingIsTerminal(After(cfg, EMPTY, trace, p), k);
    OutcomesAreFinal(cfg, EMPTY, trace, p, d, k);
    SettledTaskHasRecentEvidence(cfg, trace, a, d, k, order);
    CadenceIsAtLeastHalf(pass, c.lane);
  }

  /** The task exists, was not superseded, and its observation, once it has one, is still stored. */
  predicate StillFiled(s: Db, k: nat) {
    k in s.tasks && s.tasks[k].status != Superseded && (Settled(s.tasks[k]) ==> HasRow(s.rows, s.tasks[k]))
  }

  /** Without reused ids every task that exists and was not superseded is still filed. */
  lemma FiledWithoutReuse(cfg: Config, trace: Trace, i: nat, k: nat)
    requires Reaches(cfg, EMPTY, trace) && NeverReplaces(cfg, EMPTY, trace) && i <= |trace|
    requires k in After(cfg, EMPTY, trace, i).tasks && After(cfg, EMPTY, trace, i).tasks[k].status != Superseded
    ensures StillFiled(After(cfg, EMPTY, trace, i), k)
  {
    hide After;
    ExactlyOneObservation(cfg, trace, i, k);
  }

  /** A pass that plans the cell has found it neither pending nor recently observed, so its groups keep the rate. */
  lemma PlannedSweepsAreSpaced(cfg: Config, trace: Trace, a: nat, d: nat, b: nat, k: nat, rt: Observer,
                               order: seq<nat>, pass: Pass, chunk: nat)
    requires Reaches(cfg, EMPTY, trace) && rt.Valid() && chunk > 0
    requires a < d <= b < |trace| && Enqueued(cfg, trace, a, k) && ObservedSince(trace, k, trace[a].now)
    requires StillFiled(After(cfg, EMPTY, trace, d), k) && Lists(order, After(cfg, EMPTY, trace, d).rows)
    requires After(cfg, EMPTY, trace, d).tasks[k].cell in PlanCells(SweepPlan(rt, After(cfg, EMPTY, trace, d), order,
        pass, chunk))
    requires pass.now <= trace[b].now
    ensures 2 * (trace[b].now - trace[a].now) >= pass.Wait(After(cfg, EMPTY, trace, d).tasks[k].cell.lane)
    ensures pass.Wait(After(cfg, EMPTY, trace, d).tasks[k].cell.lane) >= pass.interval
  {
    hide After, Core, Enqueued, ObservedSince, SweepPlan, PlanCells, PendingCells, StillFiled;
    SweepPlanIsExact(rt, After(cfg, EMPTY, trace, d), order, pass, chunk);
    SweepsAreSpaced(cfg, trace, a, d, d, b, k, rt, order, pass);
  }

  lemma NotPendingIsTerminal(s: Db, k: nat)
    requires k in s.tasks && s.tasks[k].cell !in PendingCells(s)
    ensures Terminal(s.tasks[k])
  {
  }

  lemma CadenceIsAtLeastHalf(pass: Pass, id: string)
    ensures pass.Wait(id) >= pass.interval
  {
    var factor := if id in pass.tiers then DoubleCadence(pass.tiers[id]) else 2;
    assert pass.interval * factor >= pass.interval * 1;
  }

  // ----- A pass whose groups interleave with other requests.

  /** The cells of the tasks that came into being between two states. */
  function NewCells(s: Db, t: Db): set<Cell> {
    set k | k in t.tasks && k !in s.tasks :: t.tasks[k].cell
  }

  /** The pass asks for the n-th planned group at event at[n], in order, after it read the store at point d. */
  ghost predicate AsksFor(trace: Trace, plan: seq<Batch>, d: nat, at: seq<nat>) {
    && |at| <= |plan|
    && (forall n | 0 <= n < |at| ::
          d <= at[n] < |trace| && trace[at[n]].event == Enqueue(plan[n].lanes, plan[n].scenarios))
    && (forall m, n | 0 <= m < n < |at| :: at[m] < at[n])
  }

  lemma NewTasksOfBatch(defs: seq<Definition>, tasks: map<nat, Task>, g: nat, cells: seq<Cell>, first: nat)
    requires forall k | k in tasks :: k < first
    ensures var all := tasks + NewTasks(defs, g, cells, first);
            (set k | k in all && k !in tasks :: all[k].cell) == set c | c in cells
  {
    var added := NewTasks(defs, g, cells, first);
    var all := tasks + added;
    forall c | c in cells
      ensures exists k :: k in all && k !in tasks && all[k].cell == c
    {
      var n :| 0 <= n < |cells| && cells[n] == c;
      assert first + n in added && all[first + n] == added[first + n];
    }
    forall k | k in all && k !in tasks
      ensures all[k].cell in cells
    {
      assert k in added;
    }
  }

  /** A planned group is refused only for want of room, and otherwise creates a task for exactly its cells. */
  lemma BatchIsCreated(cfg: Config, db: Db, b: Batch, now: int)
    requires Core(cfg, db) && Sound(cfg.defs, b)
    ensures var d := Submit(cfg, db, b.lanes, b.scenarios, now).0;
            if |OpenGroups(db)| >= cfg.maxPending then d == db else NewCells(db, d) == BatchCells(b)
  {
    hide Core, Sound, Cells, NewTasks, OpenGroups, Insertable, BatchCells;
    SoundIsInsertable(cfg.defs, b);
    CellsOfBatch(b);
    IdsAreBelow(cfg, db);
    NewTasksOfBatch(cfg.defs, db.tasks, db.uuids, Cells(b.lanes, b.scenarios), db.nextTask);
  }

  lemma IdsAreBelow(cfg: Config, db: Db)
    requires Core(cfg, db)
    ensures forall k | k in db.tasks :: k < db.nextTask
  {
  }

  predicate HasRoom(cfg: Config, trace: Trace, i: nat)
    requires i < |trace|
  {
    |OpenGroups(After(cfg, EMPTY, trace, i))| < cfg.maxPending
  }

  /** Event i creates a task for exactly the cells of the batch, or changes nothing because the queue is full. */
  predicate Creates(cfg: Config, trace: Trace, i: nat, b: Batch)
    requires i < |trace|
  {
    var s, t := After(cfg, EMPTY, trace, i), After(cfg, EMPTY, trace, i + 1);
    if HasRoom(cfg, trace, i) then NewCells(s, t) == BatchCells(b) else t == s
  }

  lemma GroupIsCreated(cfg: Config, trace: Trace, i: nat, b: Batch)
    requires Reaches(cfg, EMPTY, trace) && i < |trace| && Sound(cfg.defs, b)
    requires trace[i].event == Enqueue(b.lanes, b.scenarios)
    ensures Creates(cfg, trace, i, b)
  {
    hide After, Core, Submit, NewCells, BatchCells, OpenGroups, Sound;
    CoreHoldsThroughout(cfg, EMPTY, trace, i);
    NextState(cfg, EMPTY, trace, i);
    BatchIsCreated(cfg, After(cfg, EMPTY, trace, i), b, trace[i].now);
  }

  lemma PlannedCell(plan: seq<Batch>, c: Cell)
    requires c in PlanCells(plan)
    ensures exists n :: 0 <= n < |plan| && c in BatchCells(plan[n])
  {
    var b :| b in plan && c.lane in b.lanes && c.scenario in b.scenarios;
    var n :| 0 <= n < |plan| && plan[n] == b;
    assert c in BatchCells(plan[n]);
  }

  /** Some group of the pass created a task for the cell. */
  predicate CreatedByPass(cfg: Config, trace: Trace, at: seq<nat>, c: Cell)
    requires forall n | 0 <= n < |at| :: at[n] < |trace|
  {
    exists n | 0 <= n < |at| :: c in NewCells(After(cfg, EMPTY, trace, at[n]), After(cfg, EMPTY, trace, at[n] + 1))
  }

  /**
   A scheduler pass among other requests. Each of its groups is refused exactly when the queue is full at
   that moment, and otherwise creates a task for exactly its cells, none of which another group of the pass
   asks for. If all are accepted, every cell that was due when the pass read the store was pending then or
   got its task from the pass, and no other cell did.
   */
  lemma InterleavedPassCovers(cfg: Config, trace: Trace, d: nat, rt: Observer, order: seq<nat>, pass: Pass, chunk: nat,
                              at: seq<nat>)
    requires Reaches(cfg, EMPTY, trace) && rt.Valid() && rt.defs == cfg.defs && chunk > 0 && d <= |trace|
    requires AsksFor(trace, SweepPlan(rt, After(cfg, EMPTY, trace, d), order, pass, chunk), d, at)
    ensures var plan := SweepPlan(rt, After(cfg, EMPTY, trace, d), order, pass, chunk);
            && Apart(plan) && (forall n | 0 <= n < |at| :: Creates(cfg, trace, at[n], plan[n]))
            && (|at| == |plan| && (forall n | 0 <= n < |at| :: HasRoom(cfg, trace, at[n])) ==>
                  var s := After(cfg, EMPTY, trace, d);
                  forall c :: CreatedByPass(cfg, trace, at, c) <==>
                              c in DueCells(rt, s, order, pass) && c !in PendingCells(s))
  {
    hide After, Core, Reaches, SweepPlan, PlanCells, DueCells, PendingCells, Creates, HasRoom;
    hide Sound, Apart, CreatedByPass, PendingOnce;
    var s := After(cfg, EMPTY, trace, d);
    var plan := SweepPlan(rt, s, order, pass, chunk);
    SweepPlanIsExact(rt, s, order, pass, chunk);
    forall n | 0 <= n < |at|
      ensures Creates(cfg, trace, at[n], plan[n])
    {
      assert plan[n] in plan;
      GroupIsCreated(cfg, trace, at[n], plan[n]);
    }
    if |at| == |plan| && forall n | 0 <= n < |at| :: HasRoom(cfg, trace, at[n]) {
      forall c
        ensures CreatedByPass(cfg, trace, at, c) <==> c in PlanCells(plan)
      {
        AllAreCreated(cfg, trace, plan, at, c);
      }
    }
  }

  lemma AllAreCreated(cfg: Config, trace: Trace, plan: seq<Batch>, at: seq<nat>, c: Cell)
    requires |at| == |plan| && forall n | 0 <= n < |at| :: at[n] < |trace|
    requires forall n | 0 <= n < |at| :: HasRoom(cfg, trace, at[n]) && Creates(cfg, trace, at[n], plan[n])
    ensures CreatedByPass(cfg, trace, at, c) <==> c in PlanCells(plan)
  {
    hide After, PlanCells, BatchCells, NewCells, HasRoom;
    PlannedIff(plan, c);
    if c in PlanCells(plan) {
      var n :| 0 <= n < |plan| && c in BatchCells(plan[n]);
      assert c in NewCells(After(cfg, EMPTY, trace, at[n]), After(cfg, EMPTY, trace, at[n] + 1));
    }
  }

  lemma PlannedIff(plan: seq<Batch>, c: Cell)
    ensures c in PlanCells(plan) <==> exists n :: 0 <= n < |plan| && c in BatchCells(plan[n])
  {
    if c in PlanCells(plan) {
      PlannedCell(plan, c);
    }
  }
}
