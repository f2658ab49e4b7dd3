/**
 The store itself (store.py): a class whose methods update the tables row by row, each proved to
 make of the database exactly what the specification in Queue.dfy and Recovery.dfy says.
 */
module Store {
  import opened Wrappers
  import opened Catalog
  import opened Lanes
  import opened Provenance
  import opened Queue
  import opened QueueInvariants
  import opened Recovery
  import opened Evidence

  class Store {
    const cfg: Config
    var tasks: map<nat, Task>
    var groups: map<nat, Group>
    var rows: map<nat, Row>
    var nextTask: nat
    var uuids: nat

    constructor (cfg: Config)
      ensures this.cfg == cfg && Contents() == EMPTY
    {
      this.cfg := cfg;
      tasks, groups, rows, nextTask, uuids := map[], map[], map[], 0, 0;
    }

    function Contents(): Db
      reads this
    {
      Db(tasks, groups, rows, nextTask, uuids)
    }

    /** Leaving `with self.db` through an exception rolls the transaction back. */
    method RollBack(saved: Db)
      modifies this
      ensures Contents() == saved
    {
      tasks, groups, rows, nextTask, uuids := saved.tasks, saved.groups, saved.rows, saved.nextTask, saved.uuids;
    }

    method Uuid4() returns (drawn: nat)
      modifies this`uuids
      ensures drawn == old(uuids) && uuids == old(uuids) + 1
    {
      drawn := uuids;
      uuids := uuids + 1;
    }

    method InsertObservation(g: nat, cell: Cell, payload: Payload)
      modifies this`rows
      ensures rows == old(rows)[payload.id := Row(g, cell, payload)]
    {
      rows := rows[payload.id := Row(g, cell, payload)];
    }

    method ReconcileGroup(g: nat, now: int)
      modifies this`groups
      ensures Contents() == Reconcile(old(Contents()), g, now)
    {
      var pending := set k | k in tasks && tasks[k].group == g && Pending(tasks[k]);
      assert GroupPending(tasks, g) <==> pending != {} by {
        if GroupPending(tasks, g) {
          var k :| k in tasks && tasks[k].group == g && Pending(tasks[k]);
          assert k in pending;
        }
      }
      if pending == {} && g in groups {
        groups := groups[g := groups[g].(status := Finished, finishedAt := Some(now))];
      }
    }

    /** The tasks of one lane, after those of the lanes before it; a failed insert reports false. */
    method InsertLane(g: nat, lane: string, scenarios: seq<string>, ghost base: map<nat, Task>, first: nat,
        prior: seq<Cell>)
      returns (ok: bool)
      requires tasks == base + NewTasks(cfg.defs, g, prior, first) && Insertable(cfg.defs, prior)
      modifies this`tasks
      ensures var all := prior + CellsOfLane(lane, scenarios);
              && (ok <==> Insertable(cfg.defs, all))
              && (ok ==> tasks == base + NewTasks(cfg.defs, g, all, first))
    {
      var cells := prior;
      hide NewTasks, Insertable;
      for j := 0 to |scenarios|
        invariant cells == prior + CellsOfLane(lane, scenarios)[..j]
        invariant tasks == base + NewTasks(cfg.defs, g, cells, first) && Insertable(cfg.defs, cells)
      {
        var cell := Cell(lane, scenarios[j]);
        InsertableAppend(cfg.defs, cells, cell);
        assert cells + [cell] == prior + CellsOfLane(lane, scenarios)[..j + 1];
        if !Known(cfg.defs, cell.scenario) || cell in cells {
          PrefixInsertable(cfg.defs, cells + [cell], prior + CellsOfLane(lane, scenarios));
          return false;
        }
        NewTasksAppend(cfg.defs, g, cells, cell, first, base);
        tasks := tasks[first + |cells| := NewTask(cfg.defs, g, cell, |cells|)];
        cells := cells + [cell];
      }
      assert CellsOfLane(lane, scenarios)[..|scenarios|] == CellsOfLane(lane, scenarios);
      ok := true;
    }

    /** The tasks of a group, lane by lane and scenario by scenario. */
    method InsertTasks(g: nat, lanes: seq<string>, scenarios: seq<string>, first: nat) returns (ok: bool)
      modifies this`tasks
      ensures ok <==> Insertable(cfg.defs, Cells(lanes, scenarios))
      ensures ok ==> tasks == old(tasks) + NewTasks(cfg.defs, g, Cells(lanes, scenarios), first)
    {
      ghost var base := tasks;
      var cells: seq<Cell> := [];
      NoNewTasks(cfg.defs, g, first, base);
      hide NewTasks, Insertable;
      for i := 0 to |lanes|
        invariant cells == Cells(lanes[..i], scenarios)
        invariant tasks == base + NewTasks(cfg.defs, g, cells, first) && Insertable(cfg.defs, cells)
      {
        CellsAppend(lanes[..i], lanes[i], scenarios);
        assert lanes[..i] + [lanes[i]] == lanes[..i + 1];
        ok := InsertLane(g, lanes[i], scenarios, base, first, cells);
        cells := cells + CellsOfLane(lanes[i], scenarios);
        if !ok {
          CellsPrefix(lanes, i + 1, scenarios);
          PrefixInsertable(cfg.defs, cells, Cells(lanes, scenarios));
          return false;
        }
      }
      assert lanes[..|lanes|] == lanes;
      ok := true;
    }

    /** QueueFull and a failed insert leave nothing behind. */
    method CreateGroup(lanes: seq<string>, scenarios: seq<string>, now: int) returns (reply: Submission)
      modifies this
      ensures (Contents(), reply) == Submit(cfg, old(Contents()), lanes, scenarios, now)
    {
      hide NewTasks, Insertable, Cells;
      var saved := Contents();
      if |OpenGroups(saved)| >= cfg.maxPending {
        return QueueFull;
      }
      var g := Uuid4();
      groups := groups[g := Group(Waiting, now, None, None, lanes, scenarios)];
      var ok := InsertTasks(g, lanes, scenarios, nextTask);
      if !ok {
        RollBack(saved);
        return Rejected;
      }
      nextTask := nextTask + |Cells(lanes, scenarios)|;
      reply := Created(g);
    }

    /** The oldest queued task of the worker's class is leased under a fresh token. */
    method ClaimTask(worker: string, kind: ExecutionClass, lease: int, build: Option<string>, now: int)
      returns (claimed: Option<nat>)
      modifies this
      ensures (Contents(), claimed) == Claim(old(Contents()), worker, kind, lease, build, now)
    {
      var candidates := Claimable(Contents(), kind);
      if candidates == {} {
        return None;
      }
      var k := First(Contents(), candidates);
      var token := Uuid4();
      var t := tasks[k];
      tasks := tasks[k := LeasedTask(t, token, worker, lease, build, now)];
      if t.group in groups {
        var row := groups[t.group];
        groups := groups[t.group := row.(status := Active, startedAt := StartedAt(row.startedAt, now))];
      }
      claimed := Some(k);
    }

    /** One overdue row; false stands for the exception of an unreportable cell. */
    method ExpireOne(report: Reporter, k: nat, now: int) returns (ok: bool)
      requires k in tasks
      modifies this
      ensures Contents() == ExpireRow(report, old(Contents()), k, now)
      ensures ok <==> old(tasks)[k].attempts < MAX_ATTEMPTS || report(old(tasks)[k].cell, now, old(uuids)).Some?
    {
      var t := tasks[k];
      if t.attempts < MAX_ATTEMPTS {
        tasks := tasks[k := Requeued(t)];
        return true;
      }
      var made := report(t.cell, now, uuids);
      if made.None? {
        return false;
      }
      CloseTask(k, Abandoned(t, now), made.value, now);
      var _ := Uuid4();
      ok := true;
    }

    /** Requeues or closes every overdue lease; an unreportable one rolls the whole call back. */
    method ExpireLeases(report: Reporter, now: int) returns (expired: Option<nat>)
      requires Honest(report)
      requires forall k | k in tasks :: k < nextTask
      modifies this
      ensures Contents() == Expire(report, old(Contents()), now)
      ensures expired.None? <==> ExpiryRaises(report, old(Contents()), now)
      ensures expired.Some? ==> expired.value == |OverdueBelow(old(tasks), old(nextTask), now)|
    {
      hide ExpireRow, ExpireBelow, OverdueBelow;
      var saved := Contents();
      var count := 0;
      NothingExpired(report, saved, now);
      for k := 0 to saved.nextTask
        invariant Contents() == ExpireBelow(report, saved, k, now)
        invariant tasks.Keys == saved.tasks.Keys
        invariant forall j | j in tasks && k <= j :: tasks[j] == saved.tasks[j]
        invariant forall j | j in saved.tasks && j < k && OverdueForGood(saved.tasks[j], now) ::
                    report(saved.tasks[j].cell, 0, 0).Some?
        invariant count == |OverdueBelow(saved.tasks, k, now)|
      {
        CountOverdue(saved.tasks, k, now);
        ExpireNext(report, saved, k, now);
        if k in tasks && Overdue(tasks[k], now) {
          assert HonestAt(report, tasks[k].cell, now, uuids);
          count := count + 1;
          label before:
          var ok := ExpireOne(report, k, now);
          ExpireRowTasks(report, old@before(Contents()), k, now);
          if !ok {
            assert OverdueForGood(saved.tasks[k], now);
            RollBack(saved);
            return None;
          }
        }
      }
      expired := Some(count);
    }

    /** Observation, task and group of one closing task. */
    method CloseTask(k: nat, closed: Task, payload: Payload, now: int)
      requires k in tasks && closed.group == tasks[k].group
      modifies this
      ensures Contents() == Close(old(Contents()), k, closed, payload, now)
    {
      InsertObservation(closed.group, closed.cell, payload);
      tasks := tasks[k := closed];
      ReconcileGroup(closed.group, now);
    }

    method CompleteLeasedTask(k: nat, token: nat, payload: Payload, now: int) returns (r: Disposition)
      modifies this
      ensures (Contents(), r) == CompleteLeased(old(Contents()), k, token, payload, now)
    {
      if k !in tasks {
        return NotFound;
      }
      var t := tasks[k];
      if t.status == Complete || t.status == Unknown {
        return if t.key == Evidence(payload) then Duplicate else Conflict;
      }
      if t.status != Running || t.token != Some(token) {
        return Conflict;
      }
      if t.expiresAt.None? {
        return Raised;
      }
      if t.expiresAt.value <= now {
        return Conflict;
      }
      CloseTask(k, CompletedTask(t, payload, now), payload, now);
      r := Accepted;
    }

    method FailLeasedTask(report: Reporter, k: nat, token: nat, error: string, now: int) returns (r: Disposition)
      modifies this
      ensures (Contents(), r) == FailLeased(report, old(Contents()), k, token, error, now)
    {
      if k !in tasks {
        return NotFound;
      }
      var t := tasks[k];
      if t.status == Unknown && t.key == Lease(token) {
        return Duplicate;
      }
      if t.status != Running || t.token != Some(token) {
        return Conflict;
      }
      var made := report(t.cell, now, uuids);
      if made.None? {
        return Raised;
      }
      CloseTask(k, FailedTask(t, token, error, now), made.value, now);
      var _ := Uuid4();
      r := Accepted;
    }

    // ----- reading

    /** Cells with a queued or running task. */
    method ListPending() returns (cells: set<Cell>)
      ensures cells == PendingCells(Contents())
    {
      cells := PendingCells(Contents());
    }

    /** The newest evidence of every scenario of a lane: a later row of the query overwrites an earlier one. */
    method LatestByScenario(lane: string, order: seq<nat>) returns (latest: map<string, Record>)
      requires UniqueCells(tasks)
      ensures forall s :: s in latest <==> Latest(Contents(), order, Cell(lane, s)).Some?
      ensures forall s | s in latest :: latest[s] == Latest(Contents(), order, Cell(lane, s)).value
    {
      latest := map[];
      hide Newest, BuildOf;
      for i := 0 to |order|
        invariant forall s :: s in latest <==> LastOf(order[..i], Newest(rows, Cell(lane, s))).Some?
        invariant forall s | s in latest ::
                    var o := LastOf(order[..i], Newest(rows, Cell(lane, s))).value;
                    o in rows && latest[s] == RecordOf(tasks, rows[o])
      {
        assert order[..i + 1][..i] == order[..i];
        NewestOfLane(rows, lane, order[i]);
        if order[i] in rows {
          var row := rows[order[i]];
          if row.cell.lane == lane && IsNewest(rows, row.cell, order[i]) {
            var build := EvaluatorBuild(row);
            latest := latest[row.cell.scenario := Record(row.payload, row.payload.freshUntil, build)];
          }
        }
      }
      assert order[..|order|] == order;
    }

    /** The scalar subquery for the evaluator build; NULL when the task is gone. */
    method EvaluatorBuild(row: Row) returns (build: Option<string>)
      requires UniqueCells(tasks)
      ensures build == BuildOf(tasks, row)
    {
      if k :| k in tasks && FiledFor(row, tasks[k]) {
        BuildIsUnique(tasks, row, k);
        return tasks[k].build;
      }
      build := None;
    }

    // ----- prune

    /** `_delete_group`: the foreign keys cascade. */
    method DeleteGroup(g: nat)
      modifies this`tasks, this`groups, this`rows
      ensures Contents() == DeleteGroups(old(Contents()), {g})
    {
      groups := map h | h in groups && h != g :: groups[h];
      tasks := map k | k in tasks && tasks[k].group != g :: tasks[k];
      rows := map o | o in rows && rows[o].group != g :: rows[o];
    }

    /** Deletes every complete group that finished before the cutoff. */
    method PruneAged(cutoff: int)
      modifies this`tasks, this`groups, this`rows
      ensures Contents() == DeleteGroups(old(Contents()), Aged(old(Contents()), cutoff))
    {
      var saved := Contents();
      var expired := Aged(saved, cutoff);
      var deleted := {};
      DeleteNothing(saved);
      hide DeleteGroups;
      while deleted != expired
        invariant deleted <= expired
        invariant Contents() == DeleteGroups(saved, deleted)
        decreases |expired - deleted|
      {
        var g :| g in expired - deleted;
        DeleteMore(saved, deleted, g);
        assert expired - (deleted + {g}) == expired - deleted - {g};
        DeleteGroup(g);
        deleted := deleted + {g};
      }
    }

    /**
     Evicts the oldest complete group until the state fits: `size` is the state directory's size once
     the artifacts of the given groups are gone too. The reply is the set of evicted groups.
     */
    method PruneToSize(maxBytes: nat, size: set<nat> -> nat) returns (evicted: set<nat>)
      requires FinishTimesKnown(groups)
      modifies this`tasks, this`groups, this`rows
      ensures Contents() == DeleteGroups(old(Contents()), evicted)
      ensures evicted <= FinishedGroups(old(Contents()))
      ensures size(evicted) <= maxBytes || FinishedGroups(Contents()) == {}
      ensures OldestFirst(old(groups), evicted)
      ensures LastWasNeeded(size, maxBytes, evicted)
    {
      var saved := Contents();
      evicted := {};
      DeleteNothing(saved);
      hide DeleteGroups, OldestFirst, LastWasNeeded, IsOldest, FinishedGroups;
      NothingEvicted(saved.groups, size, maxBytes);
      while size(evicted) > maxBytes && FinishedGroups(Contents()) != {}
        invariant evicted <= FinishedGroups(saved)
        invariant Contents() == DeleteGroups(saved, evicted)
        invariant OldestFirst(saved.groups, evicted)
        invariant LastWasNeeded(size, maxBytes, evicted)
        decreases |FinishedGroups(saved) - evicted|
      {
        SurvivorsAreTheRest(saved, evicted);
        FinishedTimes(saved);
        var g := OldestOf(saved.groups, FinishedGroups(Contents()));
        DeleteMore(saved, evicted, g);
        EvictingTheOldest(saved, evicted, g, size, maxBytes);
        assert FinishedGroups(saved) - (evicted + {g}) == FinishedGroups(saved) - evicted - {g};
        DeleteGroup(g);
        evicted := evicted + {g};
      }
    }

    /** Age first, then size; the whole call is one `Retain` event of a run. */
    method Prune(cutoff: int, maxBytes: nat, size: set<nat> -> nat) returns (evicted: set<nat>)
      requires FinishTimesKnown(groups)
      modifies this`tasks, this`groups, this`rows
      ensures var kept := DeleteGroups(old(Contents()), Aged(old(Contents()), cutoff));
              && evicted <= FinishedGroups(kept) <= FinishedGroups(old(Contents()))
              && OldestFirst(kept.groups, evicted)
      ensures Contents() == DeleteGroups(old(Contents()), Aged(old(Contents()), cutoff) + evicted)
      ensures size(evicted) <= maxBytes || FinishedGroups(Contents()) == {}
      ensures LastWasNeeded(size, maxBytes, evicted)
    {
      PruneAged(cutoff);
      evicted := PruneToSize(maxBytes, size);
      SurvivorsAreTheRest(old(Contents()), Aged(old(Contents()), cutoff));
      DeleteBoth(old(Contents()), Aged(old(Contents()), cutoff), evicted);
    }

    // ----- recover

    /** The observations of the un-leased running rows; false stands for the exception of an unreportable one. */
    method ReportUnleased(report: Reporter, now: int) returns (ok: bool)
      requires Honest(report)
      modifies this`rows, this`uuids
      ensures ok <==> ReportableBelow(report, tasks, nextTask)
      ensures ok ==> var d := CloseUnleasedBelow(report, old(Contents()), nextTask, now);
                     rows == d.rows && uuids == d.uuids
    {
      var saved := Contents();
      for k := 0 to nextTask
        invariant var d := CloseUnleasedBelow(report, saved, k, now); rows == d.rows && uuids == d.uuids
        invariant ReportableBelow(report, tasks, k)
      {
        UnleasedBelow(report, saved, k, now);
        ReportableStep(report, tasks, k);
        ReportableMonotone(report, tasks, k + 1, nextTask);
        if k in tasks && Unleased(tasks[k]) {
          assert HonestAt(report, tasks[k].cell, now, uuids);
          var made := report(tasks[k].cell, now, uuids);
          if made.None? {
            return false;
          }
          InsertObservation(tasks[k].group, tasks[k].cell, made.value);
          var _ := Uuid4();
        }
      }
      ok := true;
    }

    method InterruptUnleased(now: int)
      modifies this`tasks
      ensures tasks == InterruptedTasks(old(tasks), now)
    {
      var saved := tasks;
      var todo := set k | k in tasks && Unleased(tasks[k]);
      while todo != {}
        invariant todo <= saved.Keys == tasks.Keys
        invariant forall k | k in todo :: Unleased(saved[k])
        invariant forall k | k in saved ::
                    tasks[k] == if k in todo then saved[k] else InterruptedTasks(saved, now)[k]
      {
        var k :| k in todo;
        tasks := tasks[k := Interrupted(tasks[k], now)];
        todo := todo - {k};
      }
    }

    /** Observations first, statuses after. */
    method CloseUnleased(report: Reporter, now: int) returns (ok: bool)
      requires Honest(report)
      requires forall k | k in tasks :: k < nextTask
      modifies this
      ensures ok <==> ReportableBelow(report, old(tasks), old(nextTask))
      ensures ok ==> Contents() == CloseUnleasedBelow(report, old(Contents()), old(nextTask), now)
    {
      ok := ReportUnleased(report, now);
      if ok {
        UnleasedBelow(report, old(Contents()), nextTask, now);
        InterruptUnleased(now);
      }
    }

    /** `_backfill_observation_provenance`, row by row. */
    method Backfill(repair: Repairer) returns (ok: bool)
      modifies this`rows
      ensures ok <==> forall o | o in old(rows) :: repair(old(rows)[o].cell, old(rows)[o].payload).Some?
      ensures ok ==> rows == RepairRows(repair, old(rows))
    {
      var saved := rows;
      var todo := rows.Keys;
      while todo != {}
        invariant todo <= saved.Keys == rows.Keys
        invariant forall o | o in saved ::
                    rows[o] == if o in todo then saved[o] else RepairRow(repair, saved[o])
        invariant forall o | o in saved && o !in todo :: repair(saved[o].cell, saved[o].payload).Some?
      {
        var o :| o in todo;
        var row := rows[o];
        var repaired := repair(row.cell, row.payload);
        if repaired.None? {
          return false;
        }
        rows := rows[o := row.(payload := repaired.value)];
        todo := todo - {o};
      }
      ok := true;
    }

    /** `_supersede_unconfigured_pending_tasks` */
    method SupersedeUnconfigured(configured: set<string>, now: int)
      modifies this`tasks
      ensures tasks == DropRemoved(old(tasks), configured, now)
    {
      var saved := tasks;
      var todo := set k | k in tasks && tasks[k].status == Queued;
      while todo != {}
        invariant todo <= saved.Keys == tasks.Keys
        invariant forall k | k in todo :: saved[k].status == Queued
        invariant forall k | k in saved ::
                    tasks[k] == if k in todo then saved[k] else DropRemoved(saved, configured, now)[k]
      {
        var k :| k in todo;
        if saved[k].cell.lane !in configured {
          tasks := tasks[k := SupersededTask(saved[k], REMOVED, now)];
        }
        todo := todo - {k};
      }
    }

    /** `_supersede_duplicate_pending_tasks`: the first pending copy of a cell, in queue order, claims it. */
    method SupersedeDuplicates(now: int)
      modifies this`tasks
      ensures tasks == DropDuplicates(old(Contents()), now)
    {
      hide HasElder, Before, InOrder, ClaimedBy, Leads;
      var saved := Contents();
      var pending := set k | k in tasks && PendingIn(saved, k);
      ElderlyArePending(saved);
      var todo := pending;
      var claimed: set<Cell> := {};
      NothingClaimed(saved, pending);
      while todo != {}
        invariant todo <= pending && InOrder(saved, pending, todo)
        invariant ClaimedBy(saved, pending - todo, claimed)
        invariant tasks.Keys == saved.tasks.Keys
        invariant forall k | k in saved.tasks ::
                    tasks[k] == if k in todo then saved.tasks[k] else DropDuplicates(saved, now)[k]
      {
        var k := First(saved, todo);
        var t := saved.tasks[k];
        ClaimedMeansElder(saved, pending, todo, k, claimed);
        NextInOrder(saved, pending, todo, k, claimed);
        ghost var before := claimed;
        if t.cell !in claimed {
          claimed := claimed + {t.cell};
        } else if t.status == Queued {
          tasks := tasks[k := SupersededTask(t, DUPLICATE, now)];
        }
        assert claimed == before + {t.cell};
        todo := todo - {k};
      }
    }

    /** The whole restart; false stands for the exception that rolls it back. */
    method Recover(report: Reporter, repair: Repairer, configured: set<string>, now: int) returns (ok: bool)
      requires Honest(report) && Keyed(Contents())
      requires forall cell, at, id :: RepairsReport(report, repair, cell, at, id)
      modifies this
      ensures Contents() == Recovery.Recover(report, repair, configured, old(Contents()), now)
      ensures ok <==> !RecoveryRaises(report, repair, old(Contents()))
    {
      var saved := Contents();
      ok := CloseUnleased(report, now);
      RecoveryRaisesWhen(report, repair, saved, now);
      if ok {
        groups := ResetGroups(tasks, groups);
        ok := Backfill(repair);
      }
      if !ok {
        RollBack(saved);
        return false;
      }
      SupersedeUnconfigured(configured, now);
      SupersedeDuplicates(now);
      groups := FinishEmpty(tasks, groups, now);
    }
  }

  predicate FinishTimesKnown(groups: map<nat, Group>) {
    forall g | g in groups :: groups[g].status == Finished ==> groups[g].finishedAt.Some?
  }

  /** No evicted group finished after a complete group that was kept. */
  predicate OldestFirst(groups: map<nat, Group>, evicted: set<nat>) {
    forall g, h | g in evicted && g in groups && h in groups && h !in evicted && groups[h].status == Finished ::
      NotAfter(groups[g], groups[h])
  }

  /** Eviction stops as soon as the state fits: some evicted group had to go. */
  predicate LastWasNeeded(size: set<nat> -> nat, maxBytes: nat, evicted: set<nat>) {
    evicted == {} || exists g | g in evicted :: size(evicted - {g}) > maxBytes
  }

  predicate NotAfter(x: Group, y: Group) {
    x.finishedAt.Some? && y.finishedAt.Some? && x.finishedAt.value <= y.finishedAt.value
  }

  predicate IsOldest(groups: map<nat, Group>, ids: set<nat>, g: nat)
    requires forall h | h in ids :: h in groups
  {
    g in ids && forall h | h in ids :: NotAfter(groups[g], groups[h])
  }

  lemma {:induction false} OldestExists(groups: map<nat, Group>, ids: set<nat>)
    requires ids != {} && forall h | h in ids :: h in groups && groups[h].finishedAt.Some?
    ensures exists g :: IsOldest(groups, ids, g)
    decreases |ids|
  {
    var a :| a in ids;
    var rest := ids - {a};
    if rest == {} {
      assert ids == {a};
      assert IsOldest(groups, ids, a);
    } else {
      OldestExists(groups, rest);
      var g :| IsOldest(groups, rest, g);
      assert IsOldest(groups, ids, if NotAfter(groups[a], groups[g]) then a else g);
    }
  }

  /** `ORDER BY finished_at LIMIT 1` */
  method OldestOf(groups: map<nat, Group>, ids: set<nat>) returns (g: nat)
    requires ids != {} && forall h | h in ids :: h in groups && groups[h].finishedAt.Some?
    ensures IsOldest(groups, ids, g)
  {
    OldestExists(groups, ids);
    g :| g in ids && IsOldest(groups, ids, g);
  }

  lemma DeleteNothing(db: Db)
    ensures DeleteGroups(db, {}) == db
  {
    var d := DeleteGroups(db, {});
    assert d.groups == db.groups && d.tasks == db.tasks && d.rows == db.rows;
  }

  lemma DeleteBoth(db: Db, a: set<nat>, b: set<nat>)
    ensures DeleteGroups(DeleteGroups(db, a), b) == DeleteGroups(db, a + b)
  {
    var d, e := DeleteGroups(DeleteGroups(db, a), b), DeleteGroups(db, a + b);
    assert d.groups == e.groups && d.tasks == e.tasks && d.rows == e.rows;
  }

  lemma DeleteMore(db: Db, deleted: set<nat>, g: nat)
    ensures DeleteGroups(DeleteGroups(db, deleted), {g}) == DeleteGroups(db, deleted + {g})
  {
    DeleteBoth(db, deleted, {g});
  }

  lemma NothingEvicted(groups: map<nat, Group>, size: set<nat> -> nat, maxBytes: nat)
    ensures OldestFirst(groups, {}) && LastWasNeeded(size, maxBytes, {})
  {
  }

  lemma EvictingTheOldest(db: Db, evicted: set<nat>, g: nat, size: set<nat> -> nat, maxBytes: nat)
    requires OldestFirst(db.groups, evicted) && evicted <= FinishedGroups(db) && size(evicted) > maxBytes
    requires IsOldest(db.groups, FinishedGroups(db) - evicted, g)
    ensures OldestFirst(db.groups, evicted + {g}) && LastWasNeeded(size, maxBytes, evicted + {g})
    ensures g in FinishedGroups(db) - evicted
  {
    assert evicted + {g} - {g} == evicted;
    assert forall h | h in db.groups && h !in evicted && db.groups[h].status == Finished ::
        h in FinishedGroups(db) - evicted;
  }

  lemma FinishedTimes(db: Db)
    requires FinishTimesKnown(db.groups)
    ensures forall g | g in FinishedGroups(db) :: g in db.groups && db.groups[g].finishedAt.Some?
  {
  }

  lemma SurvivorsAreTheRest(db: Db, deleted: set<nat>)
    ensures FinishedGroups(DeleteGroups(db, deleted)) == FinishedGroups(db) - deleted
  {
  }

  lemma NewestOfLane(rows: map<nat, Row>, lane: string, o: nat)
    ensures forall s :: o in Newest(rows, Cell(lane, s)) <==>
                        o in rows && rows[o].cell == Cell(lane, s) && IsNewest(rows, rows[o].cell, o)
  {
  }

  ghost predicate ReportableBelow(report: Reporter, tasks: map<nat, Task>, n: nat) {
    forall k | k in tasks && k < n && Unleased(tasks[k]) :: report(tasks[k].cell, 0, 0).Some?
  }

  lemma ReportableStep(report: Reporter, tasks: map<nat, Task>, n: nat)
    ensures ReportableBelow(report, tasks, n + 1)
            <==> ReportableBelow(report, tasks, n)
                 && (n in tasks && Unleased(tasks[n]) ==> report(tasks[n].cell, 0, 0).Some?)
  {
  }

  lemma ReportableMonotone(report: Reporter, tasks: map<nat, Task>, m: nat, n: nat)
    requires m <= n
    ensures ReportableBelow(report, tasks, n) ==> ReportableBelow(report, tasks, m)
  {
  }

  function InterruptedTasks(tasks: map<nat, Task>, now: int): map<nat, Task> {
    map k | k in tasks :: if Unleased(tasks[k]) then Interrupted(tasks[k], now) else tasks[k]
  }

  predicate Repairable(repair: Repairer, r: Row) {
    repair(r.cell, r.payload).Some?
  }

  /** The rows that a restart adds can be repaired, so only a stored row can stop it. */
  lemma {:induction false} AddedRowsAreRepairable(report: Reporter, repair: Repairer, db: Db, n: nat, now: int, o: nat)
    requires forall cell, at, id :: RepairsReport(report, repair, cell, at, id)
    requires o in CloseUnleasedBelow(report, db, n, now).rows
    ensures var r := CloseUnleasedBelow(report, db, n, now).rows[o];
            Repairable(repair, r) || (o in db.rows && r == db.rows[o])
  {
    if n > 0 {
      var d := CloseUnleasedBelow(report, db, n - 1, now);
      if o in d.rows {
        AddedRowsAreRepairable(report, repair, db, n - 1, now, o);
      }
      if n - 1 in d.tasks {
        assert RepairsReport(report, repair, d.tasks[n - 1].cell, now, d.uuids);
      }
    }
  }

  lemma RecoveryRaisesWhen(report: Reporter, repair: Repairer, db: Db, now: int)
    requires Honest(report) && Keyed(db)
    requires forall cell, at, id :: RepairsReport(report, repair, cell, at, id)
    ensures !ReportableBelow(report, db.tasks, db.nextTask) ==> RecoveryRaises(report, repair, db)
    ensures ReportableBelow(report, db.tasks, db.nextTask) ==>
              (RecoveryRaises(report, repair, db) <==>
               exists o | o in CloseUnleasedBelow(report, db, db.nextTask, now).rows ::
                 !Repairable(repair, CloseUnleasedBelow(report, db, db.nextTask, now).rows[o]))
  {
    if ReportableBelow(report, db.tasks, db.nextTask) {
      CloseUnleasedExact(report, db, db.nextTask, now);
      var d := CloseUnleasedBelow(report, db, db.nextTask, now);
      if o :| o in d.rows && !Repairable(repair, d.rows[o]) {
        AddedRowsAreRepairable(report, repair, db, db.nextTask, now, o);
      }
      if o :| o in db.rows && !Repairable(repair, db.rows[o]) {
        assert d.rows[o] == db.rows[o];
      }
    }
  }

  /** The repair can read what the restart itself reports. */
  ghost predicate RepairsReport(report: Reporter, repair: Repairer, cell: Cell, now: int, id: nat) {
    report(cell, now, id).Some? ==> repair(cell, report(cell, now, id).value).Some?
  }

  /** Closing un-leased rows touches nothing of the rows still to come. */
  lemma {:induction false} UnleasedBelow(report: Reporter, db: Db, n: nat, now: int)
    requires Honest(report) && ReportableBelow(report, db.tasks, n)
    ensures var d := CloseUnleasedBelow(report, db, n, now);
            && d.groups == db.groups && d.nextTask == db.nextTask && d.tasks.Keys == db.tasks.Keys
            && (forall k | k in db.tasks ::
                  d.tasks[k] == if k < n && Unleased(db.tasks[k]) then Interrupted(db.tasks[k], now) else db.tasks[k])
  {
    if n > 0 {
      UnleasedBelow(report, db, n - 1, now);
      if n - 1 in db.tasks {
        assert HonestAt(report, db.tasks[n - 1].cell, now, CloseUnleasedBelow(report, db, n - 1, now).uuids);
      }
    }
  }

  /** Everything handled comes before everything still to do. */
  predicate InOrder(db: Db, pending: set<nat>, todo: set<nat>)
    requires Joined(db, pending) && todo <= pending
  {
    forall j, k | j in pending - todo && k in todo :: Before(db, j, k)
  }

  predicate ClaimedBy(db: Db, done: set<nat>, claimed: set<Cell>)
    requires forall j | j in done :: j in db.tasks
  {
    claimed == set j | j in done :: db.tasks[j].cell
  }

  lemma ElderlyArePending(db: Db)
    ensures forall k | HasElder(db, k) :: PendingIn(db, k)
  {
  }

  lemma NothingClaimed(db: Db, pending: set<nat>)
    requires Joined(db, pending)
    ensures InOrder(db, pending, pending) && ClaimedBy(db, pending - pending, {})
  {
  }

  /** When k comes next in queue order, its cell is claimed already exactly if an elder of it is pending. */
  lemma ClaimedMeansElder(db: Db, pending: set<nat>, todo: set<nat>, k: nat, claimed: set<Cell>)
    requires forall j :: j in pending <==> PendingIn(db, j)
    requires todo <= pending && Joined(db, pending) && Leads(db, todo, k)
    requires InOrder(db, pending, todo) && ClaimedBy(db, pending - todo, claimed)
    ensures HasElder(db, k) <==> db.tasks[k].cell in claimed
  {
    if HasElder(db, k) {
      var j :| j in db.tasks && PendingIn(db, j) && db.tasks[j].cell == db.tasks[k].cell && Before(db, j, k);
      assert j in pending - todo;
    }
    if db.tasks[k].cell in claimed {
      var j :| j in pending - todo && db.tasks[j].cell == db.tasks[k].cell;
      assert PendingIn(db, j) && Before(db, j, k);
    }
  }

  lemma NextInOrder(db: Db, pending: set<nat>, todo: set<nat>, k: nat, claimed: set<Cell>)
    requires todo <= pending && Joined(db, pending) && Leads(db, todo, k)
    requires InOrder(db, pending, todo) && ClaimedBy(db, pending - todo, claimed)
    ensures InOrder(db, pending, todo - {k}) && ClaimedBy(db, pending - (todo - {k}), claimed + {db.tasks[k].cell})
  {
    assert pending - (todo - {k}) == pending - todo + {k};
  }

  function OverdueBelow(tasks: map<nat, Task>, n: nat, now: int): set<nat> {
    set k | k in tasks && k < n && Overdue(tasks[k], now)
  }

  lemma CountOverdue(tasks: map<nat, Task>, n: nat, now: int)
    ensures |OverdueBelow(tasks, n + 1, now)|
            == |OverdueBelow(tasks, n, now)| + (if n in tasks && Overdue(tasks[n], now) then 1 else 0)
  {
    var a, b := OverdueBelow(tasks, n, now), OverdueBelow(tasks, n + 1, now);
    if n in tasks && Overdue(tasks[n], now) {
      assert b == a + {n};
    } else {
      assert b == a;
    }
  }

  lemma NothingExpired(report: Reporter, db: Db, now: int)
    ensures ExpireBelow(report, db, 0, now) == db && OverdueBelow(db.tasks, 0, now) == {}
  {
  }

  lemma ExpireNext(report: Reporter, db: Db, n: nat, now: int)
    ensures var d := ExpireBelow(report, db, n, now);
            ExpireBelow(report, db, n + 1, now)
            == if n in d.tasks && Overdue(d.tasks[n], now) then ExpireRow(report, d, n, now) else d
  {
  }

  lemma ExpireRowTasks(report: Reporter, db: Db, k: nat, now: int)
    requires k in db.tasks
    ensures var d := ExpireRow(report, db, k, now);
            d.tasks.Keys == db.tasks.Keys && forall j | j in db.tasks && j != k :: d.tasks[j] == db.tasks[j]
  {
  }

  lemma {:induction false} CellsAppend(lanes: seq<string>, lane: string, scenarios: seq<string>)
    ensures Cells(lanes + [lane], scenarios) == Cells(lanes, scenarios) + CellsOfLane(lane, scenarios)
  {
    if lanes == [] {
      assert [lane][1..] == [];
    } else {
      CellsAppend(lanes[1..], lane, scenarios);
      assert (lanes + [lane])[1..] == lanes[1..] + [lane];
    }
  }

  lemma {:induction false} CellsPrefix(lanes: seq<string>, n: nat, scenarios: seq<string>)
    requires n <= |lanes|
    ensures Cells(lanes[..n], scenarios) <= Cells(lanes, scenarios)
  {
    if n > 0 {
      CellsPrefix(lanes[1..], n - 1, scenarios);
      assert lanes[..n][1..] == lanes[1..][..n - 1];
    }
  }

  lemma PrefixInsertable(defs: seq<Definition>, prefix: seq<Cell>, cells: seq<Cell>)
    requires prefix <= cells
    ensures Insertable(defs, cells) ==> Insertable(defs, prefix)
  {
  }

  lemma InsertableAppend(defs: seq<Definition>, cells: seq<Cell>, cell: Cell)
    ensures Insertable(defs, cells + [cell])
            <==> Insertable(defs, cells) && Known(defs, cell.scenario) && cell !in cells
  {
    var all := cells + [cell];
    assert all[|cells|] == cell;
    assert forall i | 0 <= i < |cells| :: all[i] == cells[i];
    if cell in cells {
      var i :| 0 <= i < |cells| && cells[i] == cell;
      assert all[i] == all[|cells|];
    }
    assert forall c :: c in all <==> c in cells || c == cell;
  }

  lemma NoNewTasks(defs: seq<Definition>, g: nat, first: nat, base: map<nat, Task>)
    ensures base + NewTasks(defs, g, [], first) == base && Insertable(defs, [])
  {
  }

  lemma NewTasksAppend(defs: seq<Definition>, g: nat, cells: seq<Cell>, cell: Cell, first: nat, base: map<nat, Task>)
    ensures base + NewTasks(defs, g, cells + [cell], first)
            == (base + NewTasks(defs, g, cells, first))[first + |cells| := NewTask(defs, g, cell, |cells|)]
  {
    assert (cells + [cell])[..|cells|] == cells;
  }
}
