/**
 The deduplicating sweep scheduler (api.py): which scenarios of a lane are due, and how one pass turns
 the due cells that are not pending yet into run groups of bounded size.
 */
module Scheduler {
  import opened Wrappers
  import opened Catalog
  import opened Lanes
  import opened Provenance
  import opened Queue
  import opened QueueInvariants
  import opened Evidence
  import opened Discovery
  import S = Store

  datatype Tier = Preferred | Usable | Unrated | Degraded | Quarantined

  /** Twice the TIER_CADENCE multiplier, so that it is whole. */
  function DoubleCadence(tier: Tier): nat {
    match tier
    case Preferred => 2
    case Usable => 2
    case Unrated => 1
    case Degraded => 1
    case Quarantined => 8
  }

  /** What one pass is given: the lanes' tiers, the sweep interval in seconds and the clock. */
  datatype Pass = Pass(tiers: map<string, Tier>, interval: nat, now: int) {

    function Wait(id: string): nat {
      interval * (if id in tiers then DoubleCadence(tiers[id]) else 2)
    }
  }

  /** The newest evidence is missing, or older than the lane's cadence. */
  predicate NeedsSweep(pass: Pass, id: string, latest: Option<Record>) {
    match latest
    case None => true
    case Some(r) => 2 * r.payload.observedAt <= 2 * pass.now - pass.Wait(id)
  }

  ghost predicate IsDue(rt: Observer, db: Db, order: seq<nat>, pass: Pass, c: Cell) {
    && c.lane in rt.lanes && c.scenario in rt.lanes[c.lane].scenarios && c.scenario in rt.enabled
    && NeedsSweep(pass, c.lane, Latest(db, order, c))
  }

  /** The observation is at least a cadence old: half the interval, the interval, or four intervals, by tier. */
  predicate LongAgo(pass: Pass, id: string, observedAt: int) {
    match if id in pass.tiers then pass.tiers[id] else Usable
    case Preferred => observedAt + pass.interval <= pass.now
    case Usable => observedAt + pass.interval <= pass.now
    case Unrated => 2 * observedAt + pass.interval <= 2 * pass.now
    case Degraded => 2 * observedAt + pass.interval <= 2 * pass.now
    case Quarantined => observedAt + 4 * pass.interval <= pass.now
  }

  /** Said of the stored rows: a declared, enabled cell is due exactly when every row of it, if any, is that old. */
  predicate DueOnRows(rt: Observer, db: Db, pass: Pass, c: Cell) {
    && c.lane in rt.lanes && c.scenario in rt.lanes[c.lane].scenarios && c.scenario in rt.enabled
    && forall o | o in db.rows && db.rows[o].cell == c :: LongAgo(pass, c.lane, db.rows[o].payload.observedAt)
  }

  lemma DueExactly(rt: Observer, db: Db, order: seq<nat>, pass: Pass, c: Cell)
    requires Lists(order, db.rows)
    ensures IsDue(rt, db, order, pass, c) <==> DueOnRows(rt, db, pass, c)
  {
    hide Latest, RecordOf;
    LatestIsNewest(db, order, c);
    LongAgoMeans(pass, c.lane);
    var r := Latest(db, order, c);
    if r.Some? {
      var o :| && o in db.rows && db.rows[o].cell == c && r.value == RecordOf(db.tasks, db.rows[o])
               && forall p | p in db.rows && db.rows[p].cell == c ::
                    db.rows[p].payload.observedAt <= db.rows[o].payload.observedAt;
      RecordHolds(db.tasks, db.rows[o]);
    }
  }

  lemma RecordHolds(tasks: map<nat, Task>, r: Row)
    ensures RecordOf(tasks, r).payload == r.payload
  {
  }

  lemma LongAgoMeans(pass: Pass, id: string)
    ensures forall t :: LongAgo(pass, id, t) <==> 2 * t <= 2 * pass.now - pass.Wait(id)
  {
  }

  ghost function DueCells(rt: Observer, db: Db, order: seq<nat>, pass: Pass): set<Cell> {
    set c | c in Declared(rt, rt.lanes.Keys) && IsDue(rt, db, order, pass, c)
  }

  /** The due names of a lane, in the declared order. */
  ghost function DueNames(rt: Observer, db: Db, order: seq<nat>, pass: Pass, id: string,
      names: seq<string>): (due: seq<string>)
    ensures forall s :: s in due <==> s in names && IsDue(rt, db, order, pass, Cell(id, s))
    ensures Distinct(names) ==> Distinct(due)
  {
    if names == [] then []
    else
      var n := |names| - 1;
      DueNames(rt, db, order, pass, id, names[..n])
      + (if IsDue(rt, db, order, pass, Cell(id, names[n])) then [names[n]] else [])
  }

  lemma NextDue(rt: Observer, db: Db, order: seq<nat>, pass: Pass, id: string, names: seq<string>)
    ensures DueNames(rt, db, order, pass, id, []) == []
    ensures forall j | 0 <= j < |names| ::
              DueNames(rt, db, order, pass, id, names[..j + 1])
              == DueNames(rt, db, order, pass, id, names[..j]) + (if IsDue(rt, db, order, pass, Cell(id,
                  names[j])) then [names[j]] else [])
  {
    assert forall j | 0 <= j < |names| :: names[..j + 1][..j] == names[..j];
  }

  /** `due_scenarios` */
  method DueScenarios(store: S.Store, rt: Observer, id: string, order: seq<nat>, pass: Pass) returns (due: seq<string>)
    requires id in rt.lanes && UniqueCells(store.tasks)
    ensures due == DueNames(rt, store.Contents(), order, pass, id, rt.lanes[id].scenarios)
    ensures Lists(order, store.rows) ==>
              forall s :: s in due <==> DueOnRows(rt, store.Contents(), pass, Cell(id, s))
  {
    var latest := store.LatestByScenario(id, order);
    var names := rt.lanes[id].scenarios;
    ghost var db := store.Contents();
    due := [];
    assert names[..0] == [];
    NextDue(rt, db, order, pass, id, names);
    hide Latest, DueNames;
    for j := 0 to |names|
      invariant due == DueNames(rt, db, order, pass, id, names[..j])
    {
      if names[j] in rt.enabled && NeedsSweep(pass, id, if names[j] in latest then Some(latest[names[j]]) else None) {
        due := due + [names[j]];
      }
    }
    assert names[..|names|] == names;
    DueNamesExactly(rt, db, order, pass, id);
  }

  lemma DueNamesExactly(rt: Observer, db: Db, order: seq<nat>, pass: Pass, id: string)
    requires id in rt.lanes
    ensures Lists(order, db.rows) ==>
              forall s :: s in DueNames(rt, db, order, pass, id, rt.lanes[id].scenarios)
                          <==> DueOnRows(rt, db, pass, Cell(id, s))
  {
    hide DueOnRows;
    if Lists(order, db.rows) {
      forall s
        ensures IsDue(rt, db, order, pass, Cell(id, s)) <==> DueOnRows(rt, db, pass, Cell(id, s))
      {
        DueExactly(rt, db, order, pass, Cell(id, s));
      }
    }
  }

  // ----- Grouping the lanes by their due scenarios.

  /** The names whose cell is not pending. */
  function NotPending(id: string, names: seq<string>, pending: set<Cell>): (rest: seq<string>)
    ensures forall s :: s in rest <==> s in names && Cell(id, s) !in pending
    ensures Distinct(names) ==> Distinct(rest)
  {
    if names == [] then []
    else
      var n := |names| - 1;
      NotPending(id, names[..n], pending) + (if Cell(id, names[n]) in pending then [] else [names[n]])
  }

  /** What each lane should be swept for. */
  ghost function Wanted(rt: Observer, db: Db, order: seq<nat>, pass: Pass): map<string, seq<string>> {
    map id | id in rt.lanes ::
      NotPending(id, DueNames(rt, db, order, pass, id, rt.lanes[id].scenarios), PendingCells(db))
  }

  type Wishes = map<string, seq<string>>

  /** The lanes with one due list, in order. */
  function LanesWanting(ids: seq<string>, wanted: Wishes, key: seq<string>): (r: seq<string>)
    ensures forall id :: id in r <==> id in ids && id in wanted && wanted[id] == key
    ensures Distinct(ids) ==> Distinct(r)
  {
    if ids == [] then []
    else
      var n := |ids| - 1;
      LanesWanting(ids[..n], wanted, key) + (if ids[n] in wanted && wanted[ids[n]] == key then [ids[n]] else [])
  }

  /** The different non-empty due lists, in the order of their first lane. */
  function KeysOf(ids: seq<string>, wanted: Wishes): (keys: seq<seq<string>>)
    ensures forall k :: k in keys <==> k != [] && exists id | id in ids :: id in wanted && wanted[id] == k
    ensures forall i, j | 0 <= i < j < |keys| :: keys[i] != keys[j]
  {
    if ids == [] then []
    else
      var n := |ids| - 1;
      var keys := KeysOf(ids[..n], wanted);
      assert forall id :: id in ids <==> id in ids[..n] || id == ids[n];
      if ids[n] !in wanted || wanted[ids[n]] == [] || wanted[ids[n]] in keys then keys else keys + [wanted[ids[n]]]
  }

  function TableOf(ids: seq<string>, wanted: Wishes): map<seq<string>, seq<string>> {
    map k | k in KeysOf(ids, wanted) :: LanesWanting(ids, wanted, k)
  }

  /** One entry of the dictionary updated for one more lane. */
  function WithLane(table: map<seq<string>, seq<string>>, due: seq<string>, id: string): map<seq<string>, seq<string>> {
    if due == [] then table else table[due := (if due in table then table[due] else []) + [id]]
  }

  lemma NextKeys(ids: seq<string>, i: nat, wanted: Wishes)
    requires i < |ids| && ids[i] in wanted
    ensures var due, keys := wanted[ids[i]], KeysOf(ids[..i], wanted);
            KeysOf(ids[..i + 1], wanted) == if due == [] || due in keys then keys else keys + [due]
  {
    assert ids[..i + 1][..i] == ids[..i];
  }

  lemma NextLanes(ids: seq<string>, i: nat, wanted: Wishes, k: seq<string>)
    requires i < |ids| && ids[i] in wanted
    ensures LanesWanting(ids[..i + 1], wanted, k)
            == LanesWanting(ids[..i], wanted, k) + (if wanted[ids[i]] == k then [ids[i]] else [])
  {
    assert ids[..i + 1][..i] == ids[..i];
  }

  lemma NobodyWants(ids: seq<string>, wanted: Wishes, k: seq<string>)
    requires k != [] && k !in KeysOf(ids, wanted)
    ensures LanesWanting(ids, wanted, k) == []
  {
    SomeMember(LanesWanting(ids, wanted, k));
  }

  lemma SomeMember(ids: seq<string>)
    ensures ids != [] ==> exists id :: id in ids
  {
    if ids != [] {
      assert ids[0] in ids;
    }
  }

  lemma NextTable(ids: seq<string>, i: nat, wanted: Wishes)
    requires i < |ids| && ids[i] in wanted
    ensures TableOf(ids[..i + 1], wanted) == WithLane(TableOf(ids[..i], wanted), wanted[ids[i]], ids[i])
  {
    hide KeysOf, LanesWanting;
    NextKeys(ids, i, wanted);
    var after, expected := TableOf(ids[..i + 1], wanted), WithLane(TableOf(ids[..i], wanted), wanted[ids[i]], ids[i]);
    forall k | k in after
      ensures k in expected && after[k] == expected[k]
    {
      NextLanes(ids, i, wanted, k);
      if k !in KeysOf(ids[..i], wanted) {
        NobodyWants(ids[..i], wanted, k);
      }
    }
    assert after.Keys == expected.Keys;
  }

  lemma NoLanes(wanted: Wishes)
    ensures KeysOf([], wanted) == [] && TableOf([], wanted) == map[]
  {
  }

  lemma SameKeys(ids: seq<string>, wanted: Wishes)
    ensures forall k :: k in KeysOf(ids, wanted) <==> k in TableOf(ids, wanted)
  {
  }

  /** The first loop of `enqueue_due_sweeps`: a dictionary from due lists to lanes, in insertion order. */
  method GroupByScenarios(store: S.Store, rt: Observer, order: seq<nat>, pass: Pass, pending: set<Cell>)
    returns (keys: seq<seq<string>>, table: map<seq<string>, seq<string>>)
    requires rt.Valid() && UniqueCells(store.tasks) && pending == PendingCells(store.Contents())
    ensures var wanted := Wanted(rt, store.Contents(), order, pass);
            keys == KeysOf(rt.ids, wanted) && table == TableOf(rt.ids, wanted)
  {
    ghost var wanted := Wanted(rt, store.Contents(), order, pass);
    keys, table := [], map[];
    assert rt.ids[..0] == [];
    hide DueNames, NotPending, Loaded, Distinct, KeysOf, TableOf, LanesWanting, WithLane;
    NoLanes(wanted);
    for i := 0 to |rt.ids|
      invariant keys == KeysOf(rt.ids[..i], wanted) && table == TableOf(rt.ids[..i], wanted)
    {
      var id := rt.ids[i];
      var names := DueScenarios(store, rt, id, order, pass);
      var due := NotPending(id, names, pending);
      assert due == wanted[id];
      NextKeys(rt.ids, i, wanted);
      NextTable(rt.ids, i, wanted);
      SameKeys(rt.ids[..i], wanted);
      if due != [] && due !in table {
        keys := keys + [due];
      }
      table := WithLane(table, due, id);
    }
    assert rt.ids[..|rt.ids|] == rt.ids;
  }

  // ----- Chunking.

  /** One run group to be created. */
  datatype Batch = Batch(lanes: seq<string>, scenarios: seq<string>)

  /** The lanes of one due list in slices of at most `chunk` lanes. */
  function BatchesOf(lanes: seq<string>, scenarios: seq<string>, chunk: nat): seq<Batch>
    requires chunk > 0
    decreases |lanes|
  {
    if lanes == [] then []
    else if |lanes| <= chunk then [Batch(lanes, scenarios)]
    else [Batch(lanes[..chunk], scenarios)] + BatchesOf(lanes[chunk..], scenarios, chunk)
  }

  /** The run groups of a pass, in the order in which they are created. */
  function PlanOf(keys: seq<seq<string>>, table: map<seq<string>, seq<string>>, chunk: nat): seq<Batch>
    requires chunk > 0
  {
    if keys == [] then []
    else
      var n := |keys| - 1;
      PlanOf(keys[..n], table, chunk) + (if keys[n] in table then BatchesOf(table[keys[n]], keys[n], chunk) else [])
  }

  ghost function SweepPlan(rt: Observer, db: Db, order: seq<nat>, pass: Pass, chunk: nat): seq<Batch>
    requires chunk > 0
  {
    var wanted := Wanted(rt, db, order, pass);
    PlanOf(KeysOf(rt.ids, wanted), TableOf(rt.ids, wanted), chunk)
  }

  function CeilDiv(a: nat, b: nat): nat
    requires b > 0
  {
    (a + b - 1) / b
  }

  function PlannedGroups(keys: seq<seq<string>>, table: map<seq<string>, seq<string>>, chunk: nat): nat
    requires chunk > 0
  {
    if keys == [] then 0
    else
      var n := |keys| - 1;
      PlannedGroups(keys[..n], table, chunk) + (if keys[n] in table then CeilDiv(|table[keys[n]]|, chunk) else 0)
  }

  lemma CeilDivStep(a: nat, b: nat)
    requires b > 0
    ensures CeilDiv(a + b, b) == CeilDiv(a, b) + 1
  {
    var x := a + b - 1;
    var q, r := x / b, x % b;
    assert x + b == b * (q + 1) + r;
    QuotientIs(x + b, b, q + 1, r);
  }

  lemma MultiplesDiffer(b: nat, p: nat, q: nat)
    requires b > 0 && p < q
    ensures b * p + b <= b * q
  {
    var d := q - p - 1;
    assert b * q == b * p + b + b * d;
  }

  lemma QuotientIs(x: nat, b: nat, q: nat, r: nat)
    requires b > 0 && x == b * q + r && r < b
    ensures x / b == q
  {
    var p := x / b;
    assert x == b * p + x % b;
    if p < q {
      MultiplesDiffer(b, p, q);
    } else if q < p {
      MultiplesDiffer(b, q, p);
    }
  }

  /** As many groups as the sum over the due lists of ceil(lanes / chunk), each of at most `chunk` lanes. */
  lemma {:induction false} BatchCount(lanes: seq<string>, scenarios: seq<string>, chunk: nat)
    requires chunk > 0
    ensures |BatchesOf(lanes, scenarios, chunk)| == CeilDiv(|lanes|, chunk)
    ensures forall b | b in BatchesOf(lanes, scenarios, chunk) :: 0 < |b.lanes| <= chunk && b.scenarios == scenarios
    decreases |lanes|
  {
    if lanes == [] {
      QuotientIs(chunk - 1, chunk, 0, chunk - 1);
    } else if |lanes| <= chunk {
      QuotientIs(|lanes| + chunk - 1, chunk, 1, |lanes| - 1);
    } else {
      BatchCount(lanes[chunk..], scenarios, chunk);
      CeilDivStep(|lanes| - chunk, chunk);
    }
  }

  lemma {:induction false} PlanCount(keys: seq<seq<string>>, table: map<seq<string>, seq<string>>, chunk: nat)
    requires chunk > 0
    ensures |PlanOf(keys, table, chunk)| == PlannedGroups(keys, table, chunk)
    ensures forall b | b in PlanOf(keys, table, chunk) :: 0 < |b.lanes| <= chunk
  {
    if keys != [] {
      var n := |keys| - 1;
      PlanCount(keys[..n], table, chunk);
      if keys[n] in table {
        BatchCount(table[keys[n]], keys[n], chunk);
      }
    }
  }

  // ----- What the plan covers.

  function BatchCells(b: Batch): set<Cell> {
    set l, s | l in b.lanes && s in b.scenarios :: Cell(l, s)
  }

  function PlanCells(plan: seq<Batch>): set<Cell> {
    set b, l, s | b in plan && l in b.lanes && s in b.scenarios :: Cell(l, s)
  }

  /** Each cell is in one batch at most. */
  predicate Apart(plan: seq<Batch>) {
    forall i, j | 0 <= i < j < |plan| :: BatchCells(plan[i]) !! BatchCells(plan[j])
  }

  /** Batches the store accepts: no repetition, nothing empty, nothing unknown. */
  predicate Sound(defs: seq<Definition>, b: Batch) {
    && b.lanes != [] && b.scenarios != [] && Distinct(b.lanes) && Distinct(b.scenarios)
    && forall s | s in b.scenarios :: Known(defs, s)
  }

  lemma PlanCellsSplit(a: seq<Batch>, b: seq<Batch>)
    ensures PlanCells(a + b) == PlanCells(a) + PlanCells(b)
  {
    assert forall x :: x in a + b <==> x in a || x in b;
  }

  lemma LanesSplit(lanes: seq<string>, scenarios: seq<string>, n: nat)
    requires n <= |lanes|
    ensures BatchCells(Batch(lanes, scenarios)) == BatchCells(Batch(lanes[..n],
        scenarios)) + BatchCells(Batch(lanes[n..], scenarios))
  {
    assert lanes == lanes[..n] + lanes[n..];
    assert forall l :: l in lanes <==> l in lanes[..n] || l in lanes[n..];
  }

  lemma OneBatch(b: Batch)
    ensures PlanCells([b]) == BatchCells(b)
  {
  }

  /** Slicing the lanes loses no cell. */
  lemma {:induction false} BatchesCover(lanes: seq<string>, scenarios: seq<string>, chunk: nat)
    requires chunk > 0
    ensures PlanCells(BatchesOf(lanes, scenarios, chunk)) == BatchCells(Batch(lanes, scenarios))
    decreases |lanes|
  {
    hide PlanCells, BatchCells;
    if lanes == [] {
      NoBatches(scenarios);
    } else if |lanes| <= chunk {
      OneBatch(Batch(lanes, scenarios));
    } else {
      BatchesCover(lanes[chunk..], scenarios, chunk);
      LanesSplit(lanes, scenarios, chunk);
      OneBatch(Batch(lanes[..chunk], scenarios));
      PlanCellsSplit([Batch(lanes[..chunk], scenarios)], BatchesOf(lanes[chunk..], scenarios, chunk));
    }
  }

  lemma NoBatches(scenarios: seq<string>)
    ensures PlanCells([]) == {} && BatchCells(Batch([], scenarios)) == {}
  {
  }

  /** Each slice repeats nothing, and different slices share no lane. */
  lemma {:induction false} BatchesAreApart(lanes: seq<string>, scenarios: seq<string>, chunk: nat)
    requires chunk > 0 && Distinct(lanes)
    ensures forall b | b in BatchesOf(lanes, scenarios, chunk) ::
              Distinct(b.lanes) && b.scenarios == scenarios && forall l | l in b.lanes :: l in lanes
    ensures Apart(BatchesOf(lanes, scenarios, chunk))
    decreases |lanes|
  {
    if |lanes| > chunk {
      var head, rest := Batch(lanes[..chunk], scenarios), BatchesOf(lanes[chunk..], scenarios, chunk);
      BatchesAreApart(lanes[chunk..], scenarios, chunk);
      HeadIsApart(lanes, chunk, head, rest);
      assert forall l | l in lanes[chunk..] :: l in lanes;
    }
  }

  lemma HeadIsApart(lanes: seq<string>, n: nat, head: Batch, rest: seq<Batch>)
    requires n <= |lanes| && Distinct(lanes) && head.lanes == lanes[..n] && Apart(rest)
    requires forall b | b in rest :: forall l | l in b.lanes :: l in lanes[n..]
    ensures Apart([head] + rest)
  {
    assert forall l | l in lanes[..n] :: l !in lanes[n..];
    forall j | 0 <= j < |rest|
      ensures BatchCells(head) !! BatchCells(rest[j])
    {
      assert rest[j] in rest;
    }
  }

  function TableCells(keys: seq<seq<string>>, table: map<seq<string>, seq<string>>): set<Cell> {
    set k, l, s | k in keys && k in table && l in table[k] && s in k :: Cell(l, s)
  }

  lemma TableCellsNext(keys: seq<seq<string>>, table: map<seq<string>, seq<string>>)
    requires keys != []
    ensures var n := |keys| - 1;
            TableCells(keys, table)
            == TableCells(keys[..n], table) + (if keys[n] in table then BatchCells(Batch(table[keys[n]],
                keys[n])) else {})
  {
    assert forall k :: k in keys <==> k in keys[..|keys| - 1] || k == keys[|keys| - 1];
  }

  lemma {:induction false} PlanCovers(keys: seq<seq<string>>, table: map<seq<string>, seq<string>>, chunk: nat)
    requires chunk > 0
    ensures PlanCells(PlanOf(keys, table, chunk)) == TableCells(keys, table)
  {
    if keys == [] {
      assert PlanCells([]) == {} && TableCells(keys, table) == {};
    } else {
      hide PlanCells, TableCells, BatchCells;
      var n := |keys| - 1;
      PlanCovers(keys[..n], table, chunk);
      TableCellsNext(keys, table);
      if keys[n] in table {
        BatchesCover(table[keys[n]], keys[n], chunk);
        PlanCellsSplit(PlanOf(keys[..n], table, chunk), BatchesOf(table[keys[n]], keys[n], chunk));
      }
    }
  }

  /** Different due lists have no lane in common. */
  predicate LanesOnce(table: map<seq<string>, seq<string>>) {
    && (forall k | k in table :: Distinct(table[k]))
    && (forall k, m, l | k in table && m in table && l in table[k] && l in table[m] :: k == m)
  }

  lemma PlansApart(a: seq<Batch>, b: seq<Batch>)
    requires Apart(a) && Apart(b)
    requires forall x, y, l | x in a && y in b && l in x.lanes :: l !in y.lanes
    ensures Apart(a + b)
  {
    forall i, j | 0 <= i < |a| && 0 <= j < |b|
      ensures BatchCells(a[i]) !! BatchCells(b[j])
    {
      assert a[i] in a && b[j] in b;
    }
  }

  lemma {:induction false} PlanIsApart(keys: seq<seq<string>>, table: map<seq<string>, seq<string>>, chunk: nat)
    requires chunk > 0 && LanesOnce(table)
    requires forall i, j | 0 <= i < j < |keys| :: keys[i] != keys[j]
    ensures Apart(PlanOf(keys, table, chunk))
    ensures forall b | b in PlanOf(keys, table, chunk) ::
              && b.scenarios in keys && b.scenarios in table && Distinct(b.lanes)
              && forall l | l in b.lanes :: l in table[b.scenarios]
  {
    if keys != [] {
      var n := |keys| - 1;
      PlanIsApart(keys[..n], table, chunk);
      assert forall k | k in keys[..n] :: k in keys && k != keys[n];
      if keys[n] in table {
        BatchesAreApart(table[keys[n]], keys[n], chunk);
        hide Apart;
        PlansApart(PlanOf(keys[..n], table, chunk), BatchesOf(table[keys[n]], keys[n], chunk));
      }
    }
  }

  /** Wishes a pass can have: named lanes, and names the catalogue knows, without repetition. */
  predicate Sensible(defs: seq<Definition>, wanted: Wishes) {
    forall id | id in wanted :: Distinct(wanted[id]) && forall s | s in wanted[id] :: Known(defs, s)
  }

  function WishedCells(ids: seq<string>, wanted: Wishes): set<Cell> {
    set id, s | id in ids && id in wanted && s in wanted[id] :: Cell(id, s)
  }

  lemma TableCoversWishes(ids: seq<string>, wanted: Wishes)
    ensures TableCells(KeysOf(ids, wanted), TableOf(ids, wanted)) == WishedCells(ids, wanted)
  {
    var keys, table := KeysOf(ids, wanted), TableOf(ids, wanted);
    forall id, s | id in ids && id in wanted && s in wanted[id]
      ensures Cell(id, s) in TableCells(keys, table)
    {
      assert wanted[id] in keys && id in table[wanted[id]];
    }
  }

  /** The plan covers exactly the wished cells, each once, with batches the store accepts. */
  lemma PlanIsExact(defs: seq<Definition>, ids: seq<string>, wanted: Wishes, chunk: nat)
    requires chunk > 0 && Distinct(ids) && Sensible(defs, wanted)
    ensures var plan := PlanOf(KeysOf(ids, wanted), TableOf(ids, wanted), chunk);
            && PlanCells(plan) == WishedCells(ids, wanted) && Apart(plan)
            && (forall b | b in plan :: Sound(defs, b) && |b.lanes| <= chunk)
            && |plan| == PlannedGroups(KeysOf(ids, wanted), TableOf(ids, wanted), chunk)
  {
    var keys, table := KeysOf(ids, wanted), TableOf(ids, wanted);
    TableIsApart(ids, wanted);
    hide TableOf, KeysOf, TableCells, WishedCells, PlanCells, Apart, LanesOnce, LanesWanting;
    PlanCovers(keys, table, chunk);
    TableCoversWishes(ids, wanted);
    PlanIsApart(keys, table, chunk);
    PlanCount(keys, table, chunk);
  }

  lemma TableIsApart(ids: seq<string>, wanted: Wishes)
    requires Distinct(ids)
    ensures LanesOnce(TableOf(ids, wanted))
  {
  }

  // ----- Submitting the plan.

  function SubmitAll(cfg: Config, db: Db, plan: seq<Batch>, now: int): Db {
    if plan == [] then db
    else
      var n := |plan| - 1;
      Submit(cfg, SubmitAll(cfg, db, plan[..n], now), plan[n].lanes, plan[n].scenarios, now).0
  }

  /** No cell is pending twice. */
  predicate PendingOnce(tasks: map<nat, Task>) {
    forall j, k | j in tasks && k in tasks && Pending(tasks[j]) && Pending(tasks[k])
        && tasks[j].cell == tasks[k].cell :: j == k
  }

  lemma SoundIsInsertable(defs: seq<Definition>, b: Batch)
    requires Sound(defs, b)
    ensures Insertable(defs, Cells(b.lanes, b.scenarios)) && b.lanes != [] && b.scenarios != []
  {
    CellsDistinct(b.lanes, b.scenarios);
    forall c | c in Cells(b.lanes, b.scenarios)
      ensures Known(defs, c.scenario)
    {
      CellsAre(b.lanes, b.scenarios, c);
    }
  }

  lemma PendingUnion(tasks: map<nat, Task>, added: map<nat, Task>, db: Db, d: Db)
    requires tasks.Keys !! added.Keys && db.tasks == tasks && d.tasks == tasks + added
    ensures PendingCells(d) == PendingCells(db) + PendingCells(db.(tasks := added))
  {
    forall c | c in PendingCells(db)
      ensures c in PendingCells(d)
    {
      var k :| k in tasks && Pending(tasks[k]) && tasks[k].cell == c;
      assert d.tasks[k] == tasks[k];
    }
    forall c | c in PendingCells(db.(tasks := added))
      ensures c in PendingCells(d)
    {
      var k :| k in added && Pending(added[k]) && added[k].cell == c;
      assert d.tasks[k] == added[k];
    }
  }

  lemma NewTasksArePending(db: Db, defs: seq<Definition>, g: nat, cells: seq<Cell>, first: nat)
    ensures PendingCells(db.(tasks := NewTasks(defs, g, cells, first))) == set c | c in cells
  {
    var added := NewTasks(defs, g, cells, first);
    forall c | c in cells
      ensures c in PendingCells(db.(tasks := added))
    {
      var i :| 0 <= i < |cells| && cells[i] == c;
      assert added[first + i].cell == c;
    }
  }

  lemma NewTasksPending(db: Db, d: Db, defs: seq<Definition>, g: nat, cells: seq<Cell>)
    requires forall k | k in db.tasks :: k < db.nextTask
    requires d.tasks == db.tasks + NewTasks(defs, g, cells, db.nextTask)
    ensures PendingCells(d) == PendingCells(db) + set c | c in cells
  {
    hide PendingCells;
    PendingUnion(db.tasks, NewTasks(defs, g, cells, db.nextTask), db, d);
    NewTasksArePending(db, defs, g, cells, db.nextTask);
  }

  lemma NewTasksOnce(db: Db, defs: seq<Definition>, g: nat, cells: seq<Cell>)
    requires forall k | k in db.tasks :: k < db.nextTask
    requires PendingOnce(db.tasks) && DistinctCells(cells) && forall c | c in cells :: c !in PendingCells(db)
    ensures PendingOnce(db.tasks + NewTasks(defs, g, cells, db.nextTask))
  {
    var added := NewTasks(defs, g, cells, db.nextTask);
    var tasks := db.tasks + added;
    forall j, k | j in tasks && k in tasks && Pending(tasks[j]) && Pending(tasks[k]) && tasks[j].cell == tasks[k].cell
      ensures j == k
    {
      assert j in added <==> tasks[j].cell in cells;
      assert k in added <==> tasks[k].cell in cells;
      if j in added && k in added {
        assert cells[j - db.nextTask] == cells[k - db.nextTask];
      }
    }
  }

  lemma CellsOfBatch(b: Batch)
    ensures (set c | c in Cells(b.lanes, b.scenarios)) == BatchCells(b)
  {
    forall c
      ensures c in Cells(b.lanes, b.scenarios) <==> c in BatchCells(b)
    {
      CellsAre(b.lanes, b.scenarios, c);
    }
  }

  lemma OpensOne(db: Db, d: Db, g: nat, row: Group)
    requires g !in db.groups && row.status != Finished && d.groups == db.groups[g := row]
    ensures |OpenGroups(d)| == |OpenGroups(db)| + 1
  {
    assert OpenGroups(d) == OpenGroups(db) + {g};
  }

  /** One more run group, when there is room for it. */
  predicate Submitted(cfg: Config, db: Db, b: Batch, d: Db) {
    && Core(cfg, d)
    && PendingCells(d) == PendingCells(db) + BatchCells(b)
    && |OpenGroups(d)| == |OpenGroups(db)| + 1
    && (PendingOnce(db.tasks) && BatchCells(b) !! PendingCells(db) ==> PendingOnce(d.tasks))
  }

  lemma SubmitEffect(cfg: Config, db: Db, b: Batch, now: int)
    requires Core(cfg, db) && Sound(cfg.defs, b)
    ensures var (d, reply) := Submit(cfg, db, b.lanes, b.scenarios, now);
            if |OpenGroups(db)| >= cfg.maxPending then d == db && reply == QueueFull
            else reply.Created? && Submitted(cfg, db, b, d)
  {
    hide Core, Sound, Cells, NewTasks, PendingCells, PendingOnce, OpenGroups, BatchCells, Insertable;
    SoundIsInsertable(cfg.defs, b);
    SubmitKeeps(cfg, db, b.lanes, b.scenarios, now);
    var (d, reply) := Submit(cfg, db, b.lanes, b.scenarios, now);
    if |OpenGroups(db)| < cfg.maxPending {
      CellsOfBatch(b);
      CreatedTables(cfg, db, Cells(b.lanes, b.scenarios), Group(Waiting, now, None, None, b.lanes, b.scenarios), d);
    }
  }

  lemma CreatedTables(cfg: Config, db: Db, cells: seq<Cell>, row: Group, d: Db)
    requires Core(cfg, db) && Insertable(cfg.defs, cells) && row.status == Waiting
    requires d.tasks == db.tasks + NewTasks(cfg.defs, db.uuids, cells, db.nextTask)
    requires d.groups == db.groups[db.uuids := row]
    ensures PendingCells(d) == PendingCells(db) + set c | c in cells
    ensures |OpenGroups(d)| == |OpenGroups(db)| + 1
    ensures PendingOnce(db.tasks) && (set c | c in cells) !! PendingCells(db) ==> PendingOnce(d.tasks)
  {
    assert Keyed(db);
    hide Core, NewTasks, PendingCells, PendingOnce, OpenGroups;
    NewTasksPending(db, d, cfg.defs, db.uuids, cells);
    OpensOne(db, d, db.uuids, row);
    if PendingOnce(db.tasks) && (set c | c in cells) !! PendingCells(db) {
      assert forall c | c in cells :: c in set c | c in cells;
      NewTasksOnce(db, cfg.defs, db.uuids, cells);
    }
  }

  lemma {:induction false} SubmitAllEffect(cfg: Config, db: Db, plan: seq<Batch>, now: int)
    requires Core(cfg, db) && Apart(plan) && |OpenGroups(db)| + |plan| <= cfg.maxPending
    requires forall b | b in plan :: Sound(cfg.defs, b)
    ensures var d := SubmitAll(cfg, db, plan, now);
            && Core(cfg, d)
            && PendingCells(d) == PendingCells(db) + PlanCells(plan)
            && |OpenGroups(d)| == |OpenGroups(db)| + |plan|
            && (PendingOnce(db.tasks) && PlanCells(plan) !! PendingCells(db) ==> PendingOnce(d.tasks))
  {
    if plan == [] {
      assert PlanCells([]) == {};
    } else {
      var n := |plan| - 1;
      var d, e := SubmitAll(cfg, db, plan[..n], now), SubmitAll(cfg, db, plan, now);
      assert e == Submit(cfg, d, plan[n].lanes, plan[n].scenarios, now).0;
      hide Core, Sound, PendingCells, PendingOnce, OpenGroups, BatchCells, PlanCells, Apart, Submit, SubmitAll;
      LastBatch(plan);
      SubmitAllEffect(cfg, db, plan[..n], now);
      SubmitEffect(cfg, d, plan[n], now);
      StillApart(PlanCells(plan[..n]), BatchCells(plan[n]), PendingCells(db));
    }
  }

  lemma StillApart(a: set<Cell>, b: set<Cell>, pending: set<Cell>)
    ensures a !! b && (a + b) !! pending ==> a !! pending && b !! (pending + a)
    ensures pending + a + b == pending + (a + b)
  {
  }

  lemma LastBatch(plan: seq<Batch>)
    requires plan != []
    ensures var n := |plan| - 1;
            PlanCells(plan) == PlanCells(plan[..n]) + BatchCells(plan[n])
            && (Apart(plan) ==> PlanCells(plan[..n]) !! BatchCells(plan[n]) && Apart(plan[..n]))
            && plan[n] in plan && forall b | b in plan[..n] :: b in plan
  {
    var n := |plan| - 1;
    assert plan == plan[..n] + [plan[n]];
    PlanCellsSplit(plan[..n], [plan[n]]);
    OneBatch(plan[n]);
    if Apart(plan) {
      forall c | c in PlanCells(plan[..n])
        ensures c !in BatchCells(plan[n])
      {
        var b, l, s :| b in plan[..n] && l in b.lanes && s in b.scenarios && c == Cell(l, s);
        var i :| 0 <= i < n && plan[i] == b;
        assert c in BatchCells(plan[i]);
      }
    }
  }

  // ----- What a pass promises.

  lemma WantedIsSensible(rt: Observer, db: Db, order: seq<nat>, pass: Pass)
    requires rt.Valid()
    ensures Sensible(rt.defs, Wanted(rt, db, order, pass))
  {
  }

  lemma WishesAreDueAndNotPending(rt: Observer, db: Db, order: seq<nat>, pass: Pass)
    requires rt.Valid()
    ensures WishedCells(rt.ids, Wanted(rt, db, order, pass)) == DueCells(rt, db, order, pass) - PendingCells(db)
  {
    hide PendingCells, Latest;
    var wanted := Wanted(rt, db, order, pass);
    forall c
      ensures c in WishedCells(rt.ids, wanted) <==> c in DueCells(rt, db, order, pass) && c !in PendingCells(db)
    {
      assert c in WishedCells(rt.ids, wanted) <==> c.lane in wanted && c.scenario in wanted[c.lane];
      assert c == Cell(c.lane, c.scenario);
    }
  }

  /**
   The plan of a pass covers exactly the due cells that are not pending, each once, in
   sum-of-ceil(lanes / chunk) groups of at most `chunk` lanes.
   */
  lemma SweepPlanIsExact(rt: Observer, db: Db, order: seq<nat>, pass: Pass, chunk: nat)
    requires rt.Valid() && chunk > 0
    ensures var plan, wanted := SweepPlan(rt, db, order, pass, chunk), Wanted(rt, db, order, pass);
            && PlanCells(plan) == DueCells(rt, db, order, pass) - PendingCells(db) && Apart(plan)
            && (forall b | b in plan :: Sound(rt.defs, b) && |b.lanes| <= chunk)
            && |plan| == PlannedGroups(KeysOf(rt.ids, wanted), TableOf(rt.ids, wanted), chunk)
  {
    WantedIsSensible(rt, db, order, pass);
    WishesAreDueAndNotPending(rt, db, order, pass);
    hide Wanted, DueCells, PendingCells, PlanCells, KeysOf, TableOf, Sound, Apart;
    PlanIsExact(rt.defs, rt.ids, Wanted(rt, db, order, pass), chunk);
  }

  /** What a pass that created the first n planned groups leaves behind. */
  ghost predicate Swept(cfg: Config, rt: Observer, db: Db, order: seq<nat>, pass: Pass, chunk: nat, n: nat, d: Db)
    requires chunk > 0
  {
    var plan := SweepPlan(rt, db, order, pass, chunk);
    && n <= |plan| && d == SubmitAll(cfg, db, plan[..n], pass.now) && Core(cfg, d)
    && |OpenGroups(d)| == |OpenGroups(db)| + n
    && PendingCells(d) == PendingCells(db) + PlanCells(plan[..n])
    && (n == |plan| ==> PendingCells(d) == PendingCells(db) + DueCells(rt, db, order, pass))
    && (PendingOnce(db.tasks) ==> PendingOnce(d.tasks))
  }

  predicate HasPending(db: Db, c: Cell) {
    exists k | k in db.tasks :: db.tasks[k].cell == c && (db.tasks[k].status == Queued || db.tasks[k].status == Running)
  }

  /**
   Said of the stored tables: after a pass that found room for all its groups, a cell is pending exactly
   if it was before or all its rows are old. In particular every declared, enabled cell without evidence is.
   */
  lemma FullPassOnRows(cfg: Config, rt: Observer, db: Db, order: seq<nat>, pass: Pass, chunk: nat, d: Db, c: Cell)
    requires chunk > 0 && Lists(order, db.rows)
    requires Swept(cfg, rt, db, order, pass, chunk, |SweepPlan(rt, db, order, pass, chunk)|, d)
    ensures HasPending(d, c) <==> HasPending(db, c) || DueOnRows(rt, db, pass, c)
  {
    hide SweepPlan, Core, PendingCells, DueOnRows, HasPending, PendingOnce, OpenGroups, SubmitAll, PlanCells;
    DueExactly(rt, db, order, pass, c);
    PendingOnTasks(d, c);
    PendingOnTasks(db, c);
  }

  lemma PendingOnTasks(db: Db, c: Cell)
    ensures HasPending(db, c) <==> c in PendingCells(db)
  {
  }

  lemma PrefixOfPlan(plan: seq<Batch>, n: nat)
    requires n <= |plan| && Apart(plan)
    ensures Apart(plan[..n]) && PlanCells(plan[..n]) <= PlanCells(plan)
    ensures forall b | b in plan[..n] :: b in plan
    ensures n == |plan| ==> plan[..n] == plan
  {
    assert forall b | b in plan[..n] :: b in plan;
  }

  lemma WishesComplete(pending: set<Cell>, due: set<Cell>, planned: set<Cell>, part: set<Cell>)
    requires planned == due - pending && part <= planned
    ensures part !! pending && pending + planned == pending + due
  {
  }

  lemma PrefixIsSwept(cfg: Config, rt: Observer, db: Db, order: seq<nat>, pass: Pass, chunk: nat, n: nat)
    requires rt.Valid() && chunk > 0 && cfg.defs == rt.defs && Core(cfg, db)
    requires n <= |SweepPlan(rt, db, order, pass, chunk)| && |OpenGroups(db)| + n <= cfg.maxPending
    ensures Swept(cfg, rt, db, order, pass, chunk, n,
                  SubmitAll(cfg, db, SweepPlan(rt, db, order, pass, chunk)[..n], pass.now))
  {
    var plan := SweepPlan(rt, db, order, pass, chunk);
    SweepPlanIsExact(rt, db, order, pass, chunk);
    PrefixOfPlan(plan, n);
    WishesComplete(PendingCells(db), DueCells(rt, db, order, pass), PlanCells(plan), PlanCells(plan[..n]));
    hide SweepPlan, DueCells, PendingCells, PlanCells, OpenGroups, Core, Sound, Apart, SubmitAll, PendingOnce,
        Loaded, Distinct;
    SubmitAllEffect(cfg, db, plan[..n], pass.now);
  }

  // ----- One scheduler pass.

  /** Every group of the plan so far found room. */
  predicate AllCreated(cfg: Config, db: Db, plan: seq<Batch>, now: int) {
    if plan == [] then true
    else
      var n := |plan| - 1;
      AllCreated(cfg, db, plan[..n], now)
      && Submit(cfg, SubmitAll(cfg, db, plan[..n], now), plan[n].lanes, plan[n].scenarios, now).1.Created?
  }

  /** The first n groups of the plan have been created, and `pending` has grown with them. */
  ghost predicate Progress(cfg: Config, db: Db, plan: seq<Batch>, n: nat, now: int, d: Db, pending: set<Cell>) {
    && n <= |plan| && AllCreated(cfg, db, plan[..n], now) && d == SubmitAll(cfg, db, plan[..n], now)
    && pending == PendingCells(db) + PlanCells(plan[..n])
  }

  /** The next group of the plan got this reply instead of being created. */
  ghost predicate Stopped(cfg: Config, db: Db, plan: seq<Batch>, n: nat, now: int, reply: Submission) {
    && n < |plan| && !reply.Created?
    && Submit(cfg, SubmitAll(cfg, db, plan[..n], now), plan[n].lanes, plan[n].scenarios, now).1 == reply
  }

  lemma NoProgress(cfg: Config, db: Db, plan: seq<Batch>, now: int)
    ensures Progress(cfg, db, plan, 0, now, db, PendingCells(db))
  {
    assert plan[..0] == [];
  }

  /** One step of the plan. */
  lemma NextProgress(cfg: Config, db: Db, plan: seq<Batch>, n: nat, now: int, d: Db, pending: set<Cell>, b: Batch)
    requires Progress(cfg, db, plan, n, now, d, pending) && n < |plan| && plan[n] == b
    ensures var (e, reply) := Submit(cfg, d, b.lanes, b.scenarios, now);
            if reply.Created? then Progress(cfg, db, plan, n + 1, now, e, pending + BatchCells(b))
            else e == d && Stopped(cfg, db, plan, n, now, reply)
  {
    hide PendingCells, PlanCells, BatchCells, NewTasks, Cells, Insertable, OpenGroups;
    assert plan[..n + 1][..n] == plan[..n] && plan[..n + 1] == plan[..n] + [plan[n]];
    PlanCellsSplit(plan[..n], [plan[n]]);
    OneBatch(plan[n]);
  }

  /** `lane_ids[index : index + chunk]` */
  function BatchAt(lanes: seq<string>, index: nat, scenarios: seq<string>, chunk: nat): Batch
    requires index < |lanes|
  {
    Batch(if index + chunk < |lanes| then lanes[index..index + chunk] else lanes[index..], scenarios)
  }

  /** The batches from number n on are those of the lanes from `index` on. */
  ghost predicate Remaining(lanes: seq<string>, index: nat, scenarios: seq<string>, chunk: nat, batches: seq<Batch>,
      n: nat)
    requires chunk > 0
  {
    n <= |batches| && batches[n..] == if index < |lanes| then BatchesOf(lanes[index..], scenarios, chunk) else []
  }

  lemma AllRemain(lanes: seq<string>, scenarios: seq<string>, chunk: nat)
    requires chunk > 0
    ensures Remaining(lanes, 0, scenarios, chunk, BatchesOf(lanes, scenarios, chunk), 0)
  {
    assert lanes[0..] == lanes && BatchesOf(lanes, scenarios, chunk)[0..] == BatchesOf(lanes, scenarios, chunk);
  }

  lemma NoneRemain(lanes: seq<string>, index: nat, scenarios: seq<string>, chunk: nat, batches: seq<Batch>, n: nat)
    requires chunk > 0 && Remaining(lanes, index, scenarios, chunk, batches, n) && |lanes| <= index
    ensures n == |batches|
  {
  }

  lemma NextSlice(lanes: seq<string>, index: nat, scenarios: seq<string>, chunk: nat, batches: seq<Batch>, n: nat,
                  plan: seq<Batch>, start: nat)
    requires chunk > 0 && index < |lanes| && Remaining(lanes, index, scenarios, chunk, batches, n)
    requires start + |batches| <= |plan| && batches == plan[start..start + |batches|]
    ensures n < |batches| && Remaining(lanes, index + chunk, scenarios, chunk, batches, n + 1)
    ensures plan[start + n] == BatchAt(lanes, index, scenarios, chunk)
  {
    var rest := lanes[index..];
    var b := BatchesOf(rest, scenarios, chunk);
    assert b[0] == batches[n] && batches[n + 1..] == b[1..];
    if index + chunk < |lanes| {
      assert rest[..chunk] == lanes[index..index + chunk] && rest[chunk..] == lanes[index + chunk..];
    }
  }

  /** The chunks of one due list are the groups of the plan from position `start` on. */
  ghost predicate PlannedAt(plan: seq<Batch>, start: nat, batches: seq<Batch>) {
    start + |batches| <= |plan| && batches == plan[start..start + |batches|]
  }

  /** The inner loop: the chunks of one due list, one group each, up to the first that is not created. */
  method CreateBatches(store: S.Store, ghost db: Db, ghost plan: seq<Batch>, ghost start: nat, lanes: seq<string>,
                       scenarios: seq<string>, chunk: nat, now: int, known: set<Cell>)
    returns (created: nat, stop: Option<Submission>, pending: set<Cell>)
    requires chunk > 0 && Progress(store.cfg, db, plan, start, now, store.Contents(), known)
    requires PlannedAt(plan, start, BatchesOf(lanes, scenarios, chunk))
    modifies store
    ensures Progress(store.cfg, db, plan, start + created, now, store.Contents(), pending)
    ensures if stop.Some? then Stopped(store.cfg, db, plan, start + created, now, stop.value)
            else created == |BatchesOf(lanes, scenarios, chunk)|
  {
    hide Progress, PlannedAt, BatchesOf, BatchAt, Remaining, Stopped, Submit, SubmitAll, AllCreated, PlanCells,
        PendingCells, BatchCells;
    created, stop, pending := 0, None, known;
    AllRemain(lanes, scenarios, chunk);
    var index := 0;
    while index < |lanes| && stop.None?
      invariant Progress(store.cfg, db, plan, start + created, now, store.Contents(), pending)
      invariant if stop.Some? then Stopped(store.cfg, db, plan, start + created, now, stop.value)
                else Remaining(lanes, index, scenarios, chunk, BatchesOf(lanes, scenarios, chunk), created)
      decreases |lanes| - index, stop.None?
    {
      NextPlanned(plan, start, lanes, index, scenarios, chunk, created);
      var b := BatchAt(lanes, index, scenarios, chunk);
      NextProgress(store.cfg, db, plan, start + created, now, store.Contents(), pending, b);
      var reply := store.CreateGroup(b.lanes, b.scenarios, now);
      if reply.Created? {
        pending := pending + BatchCells(b);
        created := created + 1;
        index := index + chunk;
      } else {
        stop := Some(reply);
      }
    }
    if stop.None? {
      NoneRemain(lanes, index, scenarios, chunk, BatchesOf(lanes, scenarios, chunk), created);
    }
  }

  lemma NextPlanned(plan: seq<Batch>, start: nat, lanes: seq<string>, index: nat,
                    scenarios: seq<string>, chunk: nat, n: nat)
    requires chunk > 0 && PlannedAt(plan, start, BatchesOf(lanes, scenarios, chunk)) && index < |lanes|
    requires Remaining(lanes, index, scenarios, chunk, BatchesOf(lanes, scenarios, chunk), n)
    ensures Remaining(lanes, index + chunk, scenarios, chunk, BatchesOf(lanes, scenarios, chunk), n + 1)
    ensures start + n < |plan| && plan[start + n] == BatchAt(lanes, index, scenarios, chunk)
  {
    hide BatchesOf, BatchAt, Remaining;
    NextSlice(lanes, index, scenarios, chunk, BatchesOf(lanes, scenarios, chunk), n, plan, start);
  }

  lemma PlanNext(keys: seq<seq<string>>, i: nat, table: map<seq<string>, seq<string>>, chunk: nat)
    requires i < |keys| && keys[i] in table && chunk > 0
    ensures var plan, start, more := PlanOf(keys, table, chunk), |PlanOf(keys[..i], table, chunk)|,
                                     BatchesOf(table[keys[i]], keys[i], chunk);
            && |PlanOf(keys[..i + 1], table, chunk)| == start + |more| <= |plan|
            && more == plan[start..start + |more|]
  {
    PlanPrefix(keys, i + 1, table, chunk);
    assert keys[..i + 1][..i] == keys[..i];
    assert PlanOf(keys[..i + 1], table, chunk) == PlanOf(keys[..i], table, chunk) + BatchesOf(table[keys[i]],
        keys[i], chunk);
  }

  lemma {:induction false} PlanPrefix(keys: seq<seq<string>>, n: nat, table: map<seq<string>, seq<string>>, chunk: nat)
    requires n <= |keys| && chunk > 0
    ensures PlanOf(keys[..n], table, chunk) <= PlanOf(keys, table, chunk)
    decreases |keys| - n
  {
    if n < |keys| {
      PlanPrefix(keys, n + 1, table, chunk);
      assert keys[..n + 1][..n] == keys[..n];
      assert PlanOf(keys[..n], table, chunk) <= PlanOf(keys[..n + 1], table, chunk);
    } else {
      assert keys[..n] == keys;
    }
  }

  /** The outer loop: due list by due list. */
  method CreatePlanned(store: S.Store, keys: seq<seq<string>>, table: map<seq<string>, seq<string>>, chunk: nat,
                       now: int, known: set<Cell>)
    returns (created: nat, stop: Option<Submission>, pending: set<Cell>)
    requires chunk > 0 && known == PendingCells(store.Contents())
    requires forall k | k in keys :: k in table
    modifies store
    ensures Progress(store.cfg, old(store.Contents()), PlanOf(keys, table, chunk), created, now, store.Contents(),
        pending)
    ensures if stop.Some? then Stopped(store.cfg, old(store.Contents()), PlanOf(keys, table, chunk), created, now,
        stop.value)
            else created == |PlanOf(keys, table, chunk)|
  {
    ghost var db := store.Contents();
    ghost var plan := PlanOf(keys, table, chunk);
    created, stop, pending := 0, None, known;
    assert PlanOf([], table, chunk) == [] && keys[..0] == [];
    NoProgress(store.cfg, db, plan, now);
    hide PendingCells, PlanOf, BatchesOf, Progress, PlannedAt, Stopped;
    var i := 0;
    while i < |keys| && stop.None?
      invariant i <= |keys|
      invariant if stop.Some? then Stopped(store.cfg, db, plan, created, now, stop.value)
                else created == |PlanOf(keys[..i], table, chunk)|
      invariant Progress(store.cfg, db, plan, created, now, store.Contents(), pending)
    {
      PlanNext(keys, i, table, chunk);
      var more: nat;
      more, stop, pending := CreateBatches(store, db, plan, created, table[keys[i]], keys[i], chunk, now, pending);
      created := created + more;
      i := i + 1;
    }
    assert keys[..|keys|] == keys;
  }

  /** When every group finds room, or the first that does not meets a full queue, the counts are exact. */
  lemma CoreHasRoom(cfg: Config, db: Db)
    requires Core(cfg, db)
    ensures |OpenGroups(db)| <= cfg.maxPending
  {
  }

  lemma CreatedHadRoom(cfg: Config, db: Db, b: Batch, now: int)
    requires Submit(cfg, db, b.lanes, b.scenarios, now).1.Created?
    ensures |OpenGroups(db)| < cfg.maxPending
  {
  }

  lemma {:induction false} CreatedCounts(cfg: Config, db: Db, plan: seq<Batch>, now: int)
    requires Core(cfg, db) && Apart(plan) && (forall b | b in plan :: Sound(cfg.defs, b)) && AllCreated(cfg, db,
        plan, now)
    ensures |OpenGroups(db)| + |plan| <= cfg.maxPending
  {
    hide Core, Sound, OpenGroups, PendingCells, PendingOnce, PlanCells, BatchCells, Apart, Submit, SubmitAll;
    CoreHasRoom(cfg, db);
    if plan != [] {
      var n := |plan| - 1;
      LastBatch(plan);
      CreatedHadRoom(cfg, SubmitAll(cfg, db, plan[..n], now), plan[n], now);
      CreatedCounts(cfg, db, plan[..n], now);
      SubmitAllEffect(cfg, db, plan[..n], now);
    }
  }

  lemma StoppedByFullQueue(cfg: Config, db: Db, plan: seq<Batch>, n: nat, now: int, reply: Submission)
    requires Core(cfg, db) && Apart(plan) && (forall b | b in plan :: Sound(cfg.defs, b))
    requires Stopped(cfg, db, plan, n, now, reply) && |OpenGroups(db)| + n <= cfg.maxPending
    ensures reply == QueueFull && |OpenGroups(db)| + n == cfg.maxPending
  {
    hide Core, Sound, OpenGroups, PendingCells, PendingOnce, PlanCells, BatchCells, Apart, Submit;
    PrefixOfPlan(plan, n);
    SubmitAllEffect(cfg, db, plan[..n], now);
    SubmitEffect(cfg, SubmitAll(cfg, db, plan[..n], now), plan[n], now);
  }

  /**
   `enqueue_due_sweeps`. The pass creates the planned groups in order and stops at the first one the
   store has no room for: with room for all, every due cell is pending afterwards, otherwise exactly a
   prefix of the groups exists and the queue is full.
   */
  method EnqueueDueSweeps(store: S.Store, rt: Observer, order: seq<nat>, pass: Pass, chunk: nat)
    returns (created: nat, full: bool)
    requires rt.Valid() && store.cfg.defs == rt.defs && chunk > 0 && Core(store.cfg, store.Contents())
    modifies store
    ensures Swept(store.cfg, rt, old(store.Contents()), order, pass, chunk, created, store.Contents())
    ensures var planned, room := |SweepPlan(rt, old(store.Contents()), order, pass, chunk)|,
                                 store.cfg.maxPending - |OpenGroups(old(store.Contents()))|;
            if full then created == room < planned else created == planned <= room
  {
    ghost var db := store.Contents();
    ghost var plan := SweepPlan(rt, db, order, pass, chunk);
    assert UniqueCells(store.tasks);
    var pending := store.ListPending();
    var keys, table := GroupByScenarios(store, rt, order, pass, pending);
    assert plan == PlanOf(keys, table, chunk);
    var stop;
    created, stop, pending := CreatePlanned(store, keys, table, chunk, pass.now, pending);
    PassOutcome(store.cfg, rt, db, order, pass, chunk, created, stop, store.Contents(), pending);
    full := stop == Some(QueueFull);
  }

  lemma PassOutcome(cfg: Config, rt: Observer, db: Db, order: seq<nat>, pass: Pass, chunk: nat, created: nat,
                    stop: Option<Submission>, d: Db, pending: set<Cell>)
    requires rt.Valid() && cfg.defs == rt.defs && chunk > 0 && Core(cfg, db)
    requires var plan := SweepPlan(rt, db, order, pass, chunk);
             && Progress(cfg, db, plan, created, pass.now, d, pending)
             && (if stop.Some? then Stopped(cfg, db, plan, created, pass.now, stop.value) else created == |plan|)
    ensures Swept(cfg, rt, db, order, pass, chunk, created, d)
    ensures var planned, room := |SweepPlan(rt, db, order, pass, chunk)|, cfg.maxPending - |OpenGroups(db)|;
            if stop.Some? then stop == Some(QueueFull) && created == room < planned else created == planned <= room
  {
    var plan := SweepPlan(rt, db, order, pass, chunk);
    SweepPlanIsExact(rt, db, order, pass, chunk);
    PrefixOfPlan(plan, created);
    hide SweepPlan, DueCells, PendingCells, PlanCells, OpenGroups, Core, Sound, Apart, Loaded, Distinct, Swept, Submit;
    CreatedCounts(cfg, db, plan[..created], pass.now);
    PrefixIsSwept(cfg, rt, db, order, pass, chunk, created);
    if stop.Some? {
      StoppedByFullQueue(cfg, db, plan, created, pass.now, stop.value);
    }
  }
}
