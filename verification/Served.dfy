/**
 What the read side serves, said of the stored rows and their fields: which evidence counts for the
 active deployment of a lane, which lanes are listed as egresses, and what age-based retention deletes.
 */
module Served {
  import opened Wrappers
  import opened Catalog
  import opened Lanes
  import opened Provenance
  import opened Queue
  import opened QueueInvariants
  import opened Evidence
  import opened Discovery
  import opened Freshness

  /** The cell is of a configured lane and of a scenario whose canonical id the schema admits. */
  predicate Readable(rt: Observer, c: Cell) {
    && c.lane in rt.lanes && Loaded(rt.defs, rt.lanes[c.lane])
    && Known(rt.defs, c.scenario) && |Canonical(rt.defs, c.scenario)| >= 3
  }

  /**
   The observation is evidence of this cell in the active deployment: every recorded part of its subject,
   lane and scenario is the lane's own, its result is sound, and it names the build its lease recorded.
   */
  predicate Ours(rt: Observer, c: Cell, p: Payload, leased: Option<string>)
    requires c.lane in rt.lanes
  {
    var d := Public(rt.defs, rt.lanes[c.lane]);
    && p.version == 2 && p.scenarioId == Some(Canonical(rt.defs, c.scenario))
    && p.entry == ScenarioEntry(rt.defs, c.scenario)
    && p.subject == Subject(Some(d.origin), Some(d.instanceId), Some(d.nodeId), p.subject.runtime, Some(d.image),
                            Some(d.generation), Some(d.digest), p.subject.build)
    && p.lane == LanePart(Some(d.id), Some(d.capability), Some(d.composition), Some(d.transport), Some(d.substrate),
                          d.profile, d.region, d.regionRaw, Some(d.proto), Some(d.stack))
    && (p.eligible <==> p.availability != Inconclusive) && p.resultClass != "" && p.failureLayer != ""
    && p.subject.build.Some? && p.subject.build != Some("") && (leased.Some? ==> leased == p.subject.build)
  }

  lemma OursValidates(rt: Observer, c: Cell, p: Payload, leased: Option<string>)
    requires Readable(rt, c)
    ensures Validates(rt.defs, p, Public(rt.defs, rt.lanes[c.lane]), c.scenario, leased) <==> Ours(rt, c, p, leased)
  {
    hide Validates, Loaded, Public, ScenarioEntry;
    OnlyCopiesValidate(rt.defs, rt.lanes[c.lane], c.scenario, p, leased);
  }

  /** The row the query returns last among the newest ones of the cell. */
  predicate Chosen(db: Db, order: seq<nat>, c: Cell, o: nat) {
    LastOf(order, Newest(db.rows, c)) == Some(o)
  }

  /** What a cell counts as, from the fields of its newest row. */
  lemma StandingExactly(rt: Observer, db: Db, order: seq<nat>, c: Cell, now: int, o: nat)
    requires Readable(rt, c) && Chosen(db, order, c, o)
    ensures o in db.rows && db.rows[o].cell == c
    ensures forall p | p in db.rows && db.rows[p].cell == c ::
              db.rows[p].payload.observedAt <= db.rows[o].payload.observedAt
    ensures var r := db.rows[o];
            StandingOf(rt, db, order, c, now)
            == if !Ours(rt, c, r.payload, BuildOf(db.tasks, r)) then Invalid
               else if r.payload.freshUntil <= now then Expired
               else Current(r.payload.availability)
  {
    hide Validates, Readable, BuildOf, Ours;
    assert c.lane in rt.lanes by {
      ReadableLane(rt, c);
    }
    OursValidates(rt, c, db.rows[o].payload, BuildOf(db.tasks, db.rows[o]));
  }

  lemma ReadableLane(rt: Observer, c: Cell)
    requires Readable(rt, c)
    ensures c.lane in rt.lanes
  {
  }

  /** A cell is missing exactly when it has no row, and otherwise some newest row of it is chosen. */
  lemma MissingExactly(rt: Observer, db: Db, order: seq<nat>, c: Cell, now: int)
    requires c.lane in rt.lanes && Lists(order, db.rows)
    ensures StandingOf(rt, db, order, c, now) == Missing <==> forall o | o in db.rows :: db.rows[o].cell != c
    ensures StandingOf(rt, db, order, c, now) != Missing ==> exists o :: Chosen(db, order, c, o)
  {
    hide Validates;
    LatestIsNewest(db, order, c);
    var last := LastOf(order, Newest(db.rows, c));
    if last.Some? {
      assert Chosen(db, order, c, last.value);
    }
  }

  /** A lane is an egress for a scenario exactly when the newest row of the cell is its own, unexpired, and a pass. */
  lemma ListedExactly(rt: Observer, db: Db, order: seq<nat>, scenario: string, now: int, id: string, o: nat)
    requires var c := Cell(id, scenario); Readable(rt, c) && Chosen(db, order, c, o)
    ensures o in db.rows && id in rt.lanes
    ensures var r := db.rows[o];
            id in Offered(rt, db, order, scenario, now)
            <==> && Ours(rt, Cell(id, scenario), r.payload, BuildOf(db.tasks, r))
                 && now < r.payload.freshUntil && r.payload.availability == Available
  {
    hide StandingOf, BuildOf, Ours;
    StandingExactly(rt, db, order, Cell(id, scenario), now, o);
  }

  /** A lane without a row of the scenario is no egress for it. */
  lemma UnseenIsNotListed(rt: Observer, db: Db, order: seq<nat>, scenario: string, now: int, id: string)
    requires id in rt.lanes && forall o | o in db.rows :: db.rows[o].cell != Cell(id, scenario)
    ensures id !in Offered(rt, db, order, scenario, now)
  {
  }

  /** The reply of the egress endpoint, lane by lane: listed exactly if asked for and offered. */
  lemma RepliesExactly(rt: Observer, db: Db, order: seq<nat>, scenario: string, capability: Option<string>,
                       origin: Option<string>, now: int, list: seq<Egress>, id: string)
    requires rt.Valid() && id in rt.lanes
    requires ListsEgresses(rt, db, order, scenario,
                           AskedAndOffered(rt, db, order, scenario, capability, origin, rt.ids, now), list)
    ensures var lane := rt.lanes[id];
            (exists e | e in list :: e.lane.id == id)
            <==> && id in Offered(rt, db, order, scenario, now)
                 && (capability.Some? ==>
                       capability.value == CapabilityId(lane.substrate, lane.region, lane.proto, lane.stack))
                 && (origin.Some? ==> origin.value == lane.origin)
  {
    hide Offered, Latest, Loaded, Distinct;
    var ids := AskedAndOffered(rt, db, order, scenario, capability, origin, rt.ids, now);
    if id in ids {
      EgressNamesLane(rt, db, order, scenario, id);
      assert EgressOf(rt, db, order, scenario, id) in list;
    }
  }

  /** What the reply says about a lane: its public descriptor, and id and times of the newest row of the cell. */
  lemma EntryExactly(rt: Observer, db: Db, order: seq<nat>, scenario: string, ids: set<string>, list: seq<Egress>,
                     e: Egress, o: nat)
    requires ListsEgresses(rt, db, order, scenario, ids, list) && e in list
    requires Chosen(db, order, Cell(e.lane.id, scenario), o)
    ensures e.lane.id in rt.lanes && o in db.rows
    ensures var p := db.rows[o].payload;
            && e.lane == Public(rt.defs, rt.lanes[e.lane.id]) && e.scenario == scenario
            && e.id == p.id && e.observedAt == p.observedAt && e.freshUntil == p.freshUntil
  {
    hide Public;
  }

  // ----- The counters.

  /** The cells with one standing. */
  function Those(m: map<Cell, Standing>, s: Standing): set<Cell> {
    set c | c in m && m[c] == s
  }

  /** Each counter of the summary as the number of declared cells with a standing. */
  lemma SummaryExactly(rt: Observer, db: Db, order: seq<nat>, now: int)
    ensures OnLanes(rt, Declared(rt, rt.lanes.Keys))
    ensures var m, r := Standings(rt, db, order, Declared(rt, rt.lanes.Keys), now),
                        CountsOf(rt, db, order, rt.lanes.Keys, now);
            && r.expected == |Declared(rt, rt.lanes.Keys)|
            && r.evaluated == |m.Keys - Those(m, Missing)|
            && r.available == |Those(m, Current(Available))|
            && r.unavailable == |Those(m, Current(Unavailable))|
            && r.current == |m.Keys - Those(m, Missing) - Those(m, Invalid) - Those(m, Expired)|
            && r.unknown == r.expected - r.available - r.unavailable
  {
    hide StandingOf, Tally;
    var m := Standings(rt, db, order, Declared(rt, rt.lanes.Keys), now);
    assert m.Keys == Declared(rt, rt.lanes.Keys);
    TallyExactly(m);
  }

  lemma TallyExactly(m: map<Cell, Standing>)
    ensures var r := Tally(m);
            && r.expected == |m.Keys| && r.evaluated == |m.Keys - Those(m, Missing)|
            && r.available == |Those(m, Current(Available))| && r.unavailable == |Those(m, Current(Unavailable))|
            && r.current == |m.Keys - Those(m, Missing) - Those(m, Invalid) - Those(m, Expired)|
            && r.unknown == r.expected - r.available - r.unavailable
  {
    hide Count;
    TallyNests(m);
    CountIs(m, Any, m.Keys);
    CountIs(m, Seen, m.Keys - Those(m, Missing));
    CountIs(m, Up, Those(m, Current(Available)));
    CountIs(m, Down, Those(m, Current(Unavailable)));
    CountIs(m, Judged, m.Keys - Those(m, Missing) - Those(m, Invalid) - Those(m, Expired));
  }

  lemma CountIs(m: map<Cell, Standing>, p: Standing -> bool, cells: set<Cell>)
    requires cells <= m.Keys && forall c | c in m :: p(m[c]) <==> c in cells
    ensures Count(m, p) == |cells|
  {
    assert Where(m, p) == cells;
  }

  // ----- A lane that was deployed anew.

  /**
   Evidence that a worker upgraded on another descriptor of the lane, such as that of an older deployment,
   is broken evidence, whatever it says and for however long it would live: unless the two descriptors
   agree on everything but their scenarios, the cell is never current.
   */
  lemma OtherDeploymentIsInvalid(rt: Observer, c: Cell, theirs: seq<Definition>, former: Lane, o: Payload,
                                 build: string, leased: Option<string>, now: int)
    requires Readable(rt, c) && Loaded(theirs, former) && Known(theirs, c.scenario)
    ensures var sent := ObservationV2(theirs, o, Public(theirs, former), c.scenario, build);
            var d := Public(rt.defs, rt.lanes[c.lane]);
            && sent.Some?
            && (Public(theirs, former).(scenarios := d.scenarios) != d ==>
                  Assess(rt, Some(Record(sent.value, sent.value.freshUntil, leased)), c, now) == Invalid)
  {
    hide Validates, Loaded, Public, ObservationV2, ScenarioEntry, Upgraded;
    EntryExists(theirs, c.scenario);
    UpgradeCopiesLoadedLane(theirs, former, c.scenario, o, build);
    CopyValidates(rt.defs, rt.lanes[c.lane], c.scenario, theirs, former, c.scenario, o, build, leased);
  }

  // ----- What retention deletes.

  /** Exactly the groups that are complete and finished before the cutoff go, with all their tasks and observations. */
  lemma RetentionDeletesExactly(db: Db, days: nat, now: int, g: nat, k: nat, o: nat)
    requires g in db.groups && k in db.tasks && o in db.rows
    ensures var d := Pruned(db, days, now);
            && (g !in d.groups <==> Gone(db, days, now, g))
            && (k !in d.tasks <==> Gone(db, days, now, db.tasks[k].group))
            && (o !in d.rows <==> Gone(db, days, now, db.rows[o].group))
            && (g in d.groups ==> d.groups[g] == db.groups[g]) && (k in d.tasks ==> d.tasks[k] == db.tasks[k])
            && (o in d.rows ==> d.rows[o] == db.rows[o])
  {
  }

  predicate Gone(db: Db, days: nat, now: int, g: nat) {
    && g in db.groups && db.groups[g].status == Finished
    && db.groups[g].finishedAt.Some? && db.groups[g].finishedAt.value + days * 86400 < now
  }
}
