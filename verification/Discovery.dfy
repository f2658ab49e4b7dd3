/**
 What the API reads out of the store (api.py): the cell summary behind the platform metrics, the
 discovered egresses, and the health verdict the reporter draws from the summary (reporter.py).
 */
module Discovery {
  import opened Wrappers
  import opened Catalog
  import opened Lanes
  import opened Provenance
  import opened Queue
  import opened QueueInvariants
  import opened Evidence
  import S = Store

  /** The configured lanes, in the order of the allowlist, and the scenarios this observer runs. */
  datatype Observer = Observer(defs: seq<Definition>, ids: seq<string>, lanes: map<string, Lane>,
      enabled: seq<string>) {

    predicate Valid() {
      && Distinct(ids) && Distinct(enabled)
      && (forall id | id in ids :: id in lanes) && (forall id | id in lanes :: id in ids)
      && (forall id | id in lanes :: lanes[id].id == id && Loaded(defs, lanes[id]))
    }
  }

  /** What the newest evidence of a cell is worth at some time. */
  datatype Standing = Missing | Invalid | Expired | Current(availability: Availability)

  function Assess(rt: Observer, latest: Option<Record>, c: Cell, now: int): Standing
    requires c.lane in rt.lanes
  {
    match latest
    case None => Missing
    case Some(r) =>
      if !Validates(rt.defs, r.payload, Public(rt.defs, rt.lanes[c.lane]), c.scenario, r.build) then Invalid
      else if r.freshUntil <= now then Expired
      else Current(r.payload.availability)
  }

  ghost function StandingOf(rt: Observer, db: Db, order: seq<nat>, c: Cell, now: int): Standing
    requires c.lane in rt.lanes
  {
    Assess(rt, Latest(db, order, c), c, now)
  }

  /** The cells that lanes of this observer declare for scenarios it runs. */
  function Declared(rt: Observer, ids: set<string>): set<Cell> {
    set id, s | id in ids && id in rt.lanes && s in rt.lanes[id].scenarios && s in rt.enabled :: Cell(id, s)
  }

  predicate OnLanes(rt: Observer, cells: set<Cell>) {
    forall c | c in cells :: c.lane in rt.lanes
  }

  ghost function Standings(rt: Observer, db: Db, order: seq<nat>, cells: set<Cell>, now: int): map<Cell, Standing>
    requires OnLanes(rt, cells)
  {
    map c | c in cells :: StandingOf(rt, db, order, c, now)
  }

  datatype Summary = Summary(expected: nat, evaluated: nat, current: nat, available: nat, unavailable: nat,
      unknown: nat)

  function Plus(a: Summary, b: Summary): Summary {
    Summary(a.expected + b.expected, a.evaluated + b.evaluated, a.current + b.current,
            a.available + b.available, a.unavailable + b.unavailable, a.unknown + b.unknown)
  }

  const NOTHING := Summary(0, 0, 0, 0, 0, 0)

  predicate Any(s: Standing) {
    true
  }

  predicate Seen(s: Standing) {
    !s.Missing?
  }

  predicate Judged(s: Standing) {
    s.Current?
  }

  predicate Up(s: Standing) {
    s == Current(Available)
  }

  predicate Down(s: Standing) {
    s == Current(Unavailable)
  }

  predicate Undecided(s: Standing) {
    !Up(s) && !Down(s)
  }

  function Where(m: map<Cell, Standing>, p: Standing -> bool): set<Cell> {
    set c | c in m && p(m[c])
  }

  function Count(m: map<Cell, Standing>, p: Standing -> bool): nat {
    |Where(m, p)|
  }

  /** The summary as cardinalities of sets of cells. */
  function Tally(m: map<Cell, Standing>): Summary {
    Summary(Count(m, Any), Count(m, Seen), Count(m, Judged), Count(m, Up), Count(m, Down), Count(m, Undecided))
  }

  /** The contribution of one cell. */
  function One(s: Standing): Summary {
    Summary(1, if Seen(s) then 1 else 0, if Judged(s) then 1 else 0, if Up(s) then 1 else 0, if Down(s) then 1 else 0,
            if Undecided(s) then 1 else 0)
  }

  lemma TallyEmpty()
    ensures Tally(map[]) == NOTHING
  {
  }

  lemma DisjointSize(a: set<Cell>, b: set<Cell>, c: set<Cell>)
    requires c == a + b && a !! b
    ensures |c| == |a| + |b|
  {
  }

  lemma CountUnion(a: map<Cell, Standing>, b: map<Cell, Standing>, p: Standing -> bool)
    requires a.Keys !! b.Keys
    ensures Count(a + b, p) == Count(a, p) + Count(b, p)
  {
    DisjointSize(Where(a, p), Where(b, p), Where(a + b, p));
  }

  /** Tallies of disjoint sets of cells add up. */
  lemma TallyUnion(a: map<Cell, Standing>, b: map<Cell, Standing>)
    requires a.Keys !! b.Keys
    ensures Tally(a + b) == Plus(Tally(a), Tally(b))
  {
    hide Count;
    CountUnion(a, b, Any);
    CountUnion(a, b, Seen);
    CountUnion(a, b, Judged);
    CountUnion(a, b, Up);
    CountUnion(a, b, Down);
    CountUnion(a, b, Undecided);
  }

  lemma CountOne(c: Cell, s: Standing, p: Standing -> bool)
    ensures Count(map[c := s], p) == if p(s) then 1 else 0
  {
    assert Where(map[c := s], p) == if p(s) then {c} else {};
  }

  lemma TallyOne(c: Cell, s: Standing)
    ensures Tally(map[c := s]) == One(s)
  {
    hide Count;
    CountOne(c, s, Any);
    CountOne(c, s, Seen);
    CountOne(c, s, Judged);
    CountOne(c, s, Up);
    CountOne(c, s, Down);
    CountOne(c, s, Undecided);
  }

  lemma TallyAdd(m: map<Cell, Standing>, c: Cell, s: Standing)
    requires c !in m
    ensures Tally(m[c := s]) == Plus(Tally(m), One(s))
  {
    assert m[c := s] == m + map[c := s];
    TallyUnion(m, map[c := s]);
    TallyOne(c, s);
  }

  lemma CountSplit(m: map<Cell, Standing>, p: Standing -> bool, q: Standing -> bool, either: Standing -> bool)
    requires forall s :: either(s) <==> p(s) || q(s)
    requires forall s :: !(p(s) && q(s))
    ensures Count(m, either) == Count(m, p) + Count(m, q)
  {
    DisjointSize(Where(m, p), Where(m, q), Where(m, either));
  }

  lemma CountMonotone(m: map<Cell, Standing>, p: Standing -> bool, q: Standing -> bool)
    requires forall s :: p(s) ==> q(s)
    ensures Count(m, p) <= Count(m, q)
  {
    Within(Where(m, p), Where(m, q));
  }

  predicate Decided(s: Standing) {
    Up(s) || Down(s)
  }

  /** The three buckets sum to the expected cells, and the counts are nested. */
  lemma TallyNests(m: map<Cell, Standing>)
    ensures var t := Tally(m);
            && t.available + t.unavailable + t.unknown == t.expected
            && t.available + t.unavailable <= t.current <= t.evaluated <= t.expected
  {
    hide Count;
    CountSplit(m, Up, Down, Decided);
    CountSplit(m, Decided, Undecided, Any);
    CountMonotone(m, Decided, Judged);
    CountMonotone(m, Judged, Seen);
    CountMonotone(m, Seen, Any);
  }

  lemma Within(a: set<Cell>, b: set<Cell>)
    requires a <= b
    ensures |a| <= |b|
    ensures |a| == |b| ==> a == b
  {
    DisjointSize(a, b - a, b);
  }

  /** `cell_summary`: the counters are the sizes of the sets of cells they speak of. */
  method CellSummary(store: S.Store, rt: Observer, ids: seq<string>, order: seq<nat>, now: int) returns (r: Summary)
    requires rt.Valid() && Distinct(ids) && forall id | id in ids :: id in rt.lanes
    requires UniqueCells(store.tasks)
    ensures OnLanes(rt, Declared(rt, IdSet(ids)))
    ensures r == Tally(Standings(rt, store.Contents(), order, Declared(rt, IdSet(ids)), now))
  {
    ghost var db := store.Contents();
    r := NOTHING;
    ghost var done: set<Cell> := {};
    NoCells(rt, db, order, now);
    assert ids[..0] == [];
    hide Tally, Standings, Declared, OnLanes, IdSet;
    for i := 0 to |ids|
      invariant done == Declared(rt, IdSet(ids[..i])) && OnLanes(rt, done)
      invariant r == Tally(Standings(rt, db, order, done, now))
    {
      NextLane(rt, ids, i);
      var counted := LaneSummary(store, rt, ids[i], order, now);
      ghost var more := Declared(rt, {ids[i]});
      AddCells(rt, db, order, done, more, now);
      r := Plus(r, counted);
      done := done + more;
    }
    assert ids[..|ids|] == ids;
  }

  function IdSet(ids: seq<string>): set<string> {
    set id | id in ids
  }

  lemma NextLane(rt: Observer, ids: seq<string>, i: nat)
    requires Distinct(ids) && i < |ids|
    ensures Declared(rt, IdSet(ids[..i + 1])) == Declared(rt, IdSet(ids[..i])) + Declared(rt, {ids[i]})
    ensures Declared(rt, IdSet(ids[..i])) !! Declared(rt, {ids[i]})
    ensures OnLanes(rt, Declared(rt, {ids[i]}))
  {
    assert IdSet(ids[..i + 1]) == IdSet(ids[..i]) + {ids[i]};
    assert ids[i] !in IdSet(ids[..i]);
  }

  /** The body of the loop over the lanes: one query, then one count per declared scenario. */
  method LaneSummary(store: S.Store, rt: Observer, id: string, order: seq<nat>, now: int) returns (r: Summary)
    requires id in rt.lanes && Distinct(rt.lanes[id].scenarios) && UniqueCells(store.tasks)
    ensures OnLanes(rt, Declared(rt, {id}))
    ensures r == Tally(Standings(rt, store.Contents(), order, Declared(rt, {id}), now))
  {
    ghost var db := store.Contents();
    var lane := rt.lanes[id];
    r := NOTHING;
    var latest := store.LatestByScenario(id, order);
    ghost var done: set<Cell> := {};
    NoCells(rt, db, order, now);
    assert lane.scenarios[..0] == [];
    hide Tally, Standings, Assess, One, Latest, Declared, OnLanes, DeclaredAmong, Public, Distinct;
    for j := 0 to |lane.scenarios|
      invariant done == DeclaredAmong(rt, id, lane.scenarios[..j]) && OnLanes(rt, done)
      invariant r == Tally(Standings(rt, db, order, done, now))
    {
      var scenario := lane.scenarios[j];
      NextScenario(rt, id, lane.scenarios, j);
      if scenario !in rt.enabled {
        continue;
      }
      ghost var c := Cell(id, scenario);
      AddCell(rt, db, order, done, c, now);
      done := done + {c};
      r := CountCell(rt, id, scenario, if scenario in latest then Some(latest[scenario]) else None, now, r);
    }
    assert lane.scenarios[..|lane.scenarios|] == lane.scenarios;
    AllScenarios(rt, id);
  }

  /** The counters after one more cell. Its standing alone decides: conclusive evidence that validates is eligible. */
  method CountCell(rt: Observer, id: string, scenario: string, latest: Option<Record>, now: int, before: Summary)
    returns (r: Summary)
    requires id in rt.lanes
    ensures r == Plus(before, One(Assess(rt, latest, Cell(id, scenario), now)))
  {
    r := before.(expected := before.expected + 1);
    if latest.None? {
      return r.(unknown := r.unknown + 1);
    }
    var record := latest.value;
    r := r.(evaluated := r.evaluated + 1);
    if !Validates(rt.defs, record.payload, Public(rt.defs, rt.lanes[id]), scenario, record.build) {
      return r.(unknown := r.unknown + 1);
    }
    if record.freshUntil <= now {
      return r.(unknown := r.unknown + 1);
    }
    r := r.(current := r.current + 1);
    match if record.payload.eligible then record.payload.availability else Inconclusive
    case Available => r := r.(available := r.available + 1);
    case Unavailable => r := r.(unavailable := r.unavailable + 1);
    case Inconclusive => r := r.(unknown := r.unknown + 1);
  }

  function DeclaredAmong(rt: Observer, id: string, names: seq<string>): (cells: set<Cell>)
    ensures forall c | c in cells :: c.lane == id
  {
    set s | s in names && s in rt.enabled :: Cell(id, s)
  }

  lemma AllScenarios(rt: Observer, id: string)
    requires id in rt.lanes
    ensures DeclaredAmong(rt, id, rt.lanes[id].scenarios) == Declared(rt, {id})
  {
  }

  lemma NextScenario(rt: Observer, id: string, names: seq<string>, j: nat)
    requires Distinct(names) && j < |names|
    ensures Cell(id, names[j]) !in DeclaredAmong(rt, id, names[..j])
    ensures DeclaredAmong(rt, id, names[..j + 1])
            == DeclaredAmong(rt, id, names[..j]) + (if names[j] in rt.enabled then {Cell(id, names[j])} else {})
  {
    assert forall s :: s in names[..j + 1] <==> s in names[..j] || s == names[j];
  }

  lemma NoCells(rt: Observer, db: Db, order: seq<nat>, now: int)
    ensures OnLanes(rt, {}) && Tally(Standings(rt, db, order, {}, now)) == NOTHING
    ensures Declared(rt, IdSet([])) == {} && forall id :: DeclaredAmong(rt, id, []) == {}
  {
    assert Standings(rt, db, order, {}, now) == map[];
    TallyEmpty();
  }

  lemma AddCells(rt: Observer, db: Db, order: seq<nat>, done: set<Cell>, more: set<Cell>, now: int)
    requires OnLanes(rt, done) && OnLanes(rt, more) && done !! more
    ensures OnLanes(rt, done + more)
    ensures Tally(Standings(rt, db, order, done + more, now))
            == Plus(Tally(Standings(rt, db, order, done, now)), Tally(Standings(rt, db, order, more, now)))
  {
    assert Standings(rt, db, order, done + more, now)
           == Standings(rt, db, order, done, now) + Standings(rt, db, order, more, now);
    TallyUnion(Standings(rt, db, order, done, now), Standings(rt, db, order, more, now));
  }

  lemma AddCell(rt: Observer, db: Db, order: seq<nat>, done: set<Cell>, c: Cell, now: int)
    requires OnLanes(rt, done) && c.lane in rt.lanes && c !in done
    ensures OnLanes(rt, done + {c})
    ensures Tally(Standings(rt, db, order, done + {c}, now))
            == Plus(Tally(Standings(rt, db, order, done, now)), One(StandingOf(rt, db, order, c, now)))
  {
    hide StandingOf, Tally;
    var m := Standings(rt, db, order, done, now);
    assert Standings(rt, db, order, done + {c}, now) == m[c := StandingOf(rt, db, order, c, now)];
    TallyAdd(m, c, StandingOf(rt, db, order, c, now));
  }

  // ----- egresses

  datatype Egress = Egress(lane: Descriptor, scenario: string, id: nat, observedAt: int, freshUntil: int)

  predicate Asked(rt: Observer, id: string, capability: Option<string>, origin: Option<string>)
    requires id in rt.lanes
  {
    && (capability.Some? ==> Public(rt.defs, rt.lanes[id]).capability == capability.value)
    && (origin.Some? ==> rt.lanes[id].origin == origin.value)
  }

  /** The lanes whose newest evidence for a scenario is valid, unexpired and says available. */
  ghost function Offered(rt: Observer, db: Db, order: seq<nat>, scenario: string, now: int): set<string> {
    set id | id in rt.lanes && StandingOf(rt, db, order, Cell(id, scenario), now) == Current(Available)
  }

  ghost function EgressOf(rt: Observer, db: Db, order: seq<nat>, scenario: string, id: string): Egress
    requires id in rt.lanes && Latest(db, order, Cell(id, scenario)).Some?
  {
    var o := Latest(db, order, Cell(id, scenario)).value.payload;
    Egress(Public(rt.defs, rt.lanes[id]), scenario, o.id, o.observedAt, o.freshUntil)
  }

  /** The list holds exactly one entry for each given lane, made from the newest evidence of the lane. */
  ghost predicate ListsEgresses(rt: Observer, db: Db, order: seq<nat>, scenario: string, ids: set<string>,
      list: seq<Egress>) {
    && |list| == |ids|
    && (forall id | id in ids :: id in rt.lanes && Latest(db, order, Cell(id, scenario)).Some?)
    && (forall id | id in ids :: EgressOf(rt, db, order, scenario, id) in list)
    && (forall e | e in list :: e.lane.id in ids && e == EgressOf(rt, db, order, scenario, e.lane.id))
  }

  ghost function AskedAndOffered(rt: Observer, db: Db, order: seq<nat>, scenario: string, capability: Option<string>,
                                 origin: Option<string>, ids: seq<string>, now: int): set<string> {
    set id | id in ids && id in rt.lanes && Asked(rt, id, capability, origin) && id in Offered(rt, db, order,
        scenario, now)
  }

  lemma EgressNamesLane(rt: Observer, db: Db, order: seq<nat>, scenario: string, id: string)
    requires rt.Valid() && id in rt.lanes && Latest(db, order, Cell(id, scenario)).Some?
    ensures EgressOf(rt, db, order, scenario, id).lane.id == id
  {
    hide Latest, Loaded, Distinct;
  }

  lemma MoreEgresses(rt: Observer, db: Db, order: seq<nat>, scenario: string, ids: set<string>, list: seq<Egress>,
      id: string)
    requires rt.Valid() && ListsEgresses(rt, db, order, scenario, ids, list)
    requires id in rt.lanes && id !in ids && Latest(db, order, Cell(id, scenario)).Some?
    ensures ListsEgresses(rt, db, order, scenario, ids + {id}, list + [EgressOf(rt, db, order, scenario, id)])
  {
    hide EgressOf, Latest, Loaded, Distinct;
    var e := EgressOf(rt, db, order, scenario, id);
    EgressNamesLane(rt, db, order, scenario, id);
    assert forall f | f in list + [e] :: f in list || f == e;
    assert (list + [e])[|list|] == e;
    forall i | i in ids + {id}
      ensures EgressOf(rt, db, order, scenario, i) in list + [e]
    {
      assert i == id || EgressOf(rt, db, order, scenario, i) in list;
    }
  }

  /** `GET /v2/egresses`; None stands for the 422 reply. */
  method Egresses(store: S.Store, rt: Observer, scenario: string, capability: Option<string>, origin: Option<string>,
                  order: seq<nat>, now: int) returns (r: Option<seq<Egress>>)
    requires rt.Valid() && UniqueCells(store.tasks)
    ensures r.None? <==> scenario !in rt.enabled
    ensures r.Some? ==>
              ListsEgresses(rt, store.Contents(), order, scenario,
                            AskedAndOffered(rt, store.Contents(), order, scenario, capability, origin, rt.ids, now),
                                r.value)
  {
    if scenario !in rt.enabled {
      return None;
    }
    ghost var db := store.Contents();
    var discovered: seq<Egress> := [];
    NoEgresses(rt, db, order, scenario, capability, origin, now);
    for i := 0 to |rt.ids|
      invariant ListsOffers(rt, db, order, scenario, capability, origin, i, now, discovered)
    {
      hide ListsOffers, EntryFor, Loaded, Distinct;
      var offer := OfferOf(store, rt, scenario, capability, origin, rt.ids[i], order, now);
      NextOffer(rt, db, order, scenario, capability, origin, i, now, discovered, offer);
      if offer.Some? {
        discovered := discovered + [offer.value];
      }
    }
    assert rt.ids[..|rt.ids|] == rt.ids;
    r := Some(discovered);
  }

  ghost predicate ListsOffers(rt: Observer, db: Db, order: seq<nat>, scenario: string, capability: Option<string>,
                              origin: Option<string>, i: nat, now: int, list: seq<Egress>)
    requires i <= |rt.ids|
  {
    ListsEgresses(rt, db, order, scenario,
                  AskedAndOffered(rt, db, order, scenario, capability, origin, rt.ids[..i], now), list)
  }

  /** What the loop body finds out about one lane. */
  ghost predicate EntryFor(rt: Observer, db: Db, order: seq<nat>, scenario: string, capability: Option<string>,
                           origin: Option<string>, id: string, now: int, e: Option<Egress>)
    requires id in rt.lanes
  {
    if Asked(rt, id, capability, origin) && StandingOf(rt, db, order, Cell(id, scenario), now) == Current(Available)
    then Latest(db, order, Cell(id, scenario)).Some? && e == Some(EgressOf(rt, db, order, scenario, id))
    else e == None
  }

  /** One lane's entry, if it is asked for and its newest evidence says available. */
  method OfferOf(store: S.Store, rt: Observer, scenario: string, capability: Option<string>, origin: Option<string>,
                 id: string, order: seq<nat>, now: int) returns (e: Option<Egress>)
    requires id in rt.lanes && UniqueCells(store.tasks)
    ensures EntryFor(rt, store.Contents(), order, scenario, capability, origin, id, now, e)
  {
    hide Latest, Validates, Public, UniqueCells;
    if !Asked(rt, id, capability, origin) {
      return None;
    }
    var latest := store.LatestByScenario(id, order);
    if scenario !in latest {
      return None;
    }
    var record := latest[scenario];
    var o := record.payload;
    RecordTimes(store.Contents(), order, Cell(id, scenario));
    if !Validates(rt.defs, o, Public(rt.defs, rt.lanes[id]), scenario, record.build) || o.freshUntil <= now {
      return None;
    }
    AvailableIsEligible(rt.defs, o, Public(rt.defs, rt.lanes[id]), scenario, record.build);
    if o.availability != Available || !o.eligible {
      return None;
    }
    e := Some(Egress(Public(rt.defs, rt.lanes[id]), scenario, o.id, o.observedAt, o.freshUntil));
  }

  lemma NoEgresses(rt: Observer, db: Db, order: seq<nat>, scenario: string, capability: Option<string>,
                   origin: Option<string>, now: int)
    ensures ListsOffers(rt, db, order, scenario, capability, origin, 0, now, [])
  {
    assert AskedAndOffered(rt, db, order, scenario, capability, origin, rt.ids[..0], now) == {};
  }

  lemma AskedNext(rt: Observer, db: Db, order: seq<nat>, scenario: string, capability: Option<string>,
                  origin: Option<string>, i: nat, now: int)
    requires Distinct(rt.ids) && i < |rt.ids| && rt.ids[i] in rt.lanes
    ensures var id := rt.ids[i];
            var before := AskedAndOffered(rt, db, order, scenario, capability, origin, rt.ids[..i], now);
            && id !in before
            && AskedAndOffered(rt, db, order, scenario, capability, origin, rt.ids[..i + 1], now)
               == before + (if Asked(rt, id, capability, origin)
                               && StandingOf(rt, db, order, Cell(id, scenario),
                                   now) == Current(Available) then {id} else {})
  {
    hide StandingOf, Asked;
    assert forall id :: id in rt.ids[..i + 1] <==> id in rt.ids[..i] || id == rt.ids[i];
    assert rt.ids[i] !in rt.ids[..i];
  }

  lemma NextOffer(rt: Observer, db: Db, order: seq<nat>, scenario: string, capability: Option<string>,
                  origin: Option<string>, i: nat, now: int, list: seq<Egress>, e: Option<Egress>)
    requires rt.Valid() && i < |rt.ids|
    requires ListsOffers(rt, db, order, scenario, capability, origin, i, now, list)
    requires EntryFor(rt, db, order, scenario, capability, origin, rt.ids[i], now, e)
    ensures ListsOffers(rt, db, order, scenario, capability, origin, i + 1, now,
        if e.Some? then list + [e.value] else list)
  {
    var before := AskedAndOffered(rt, db, order, scenario, capability, origin, rt.ids[..i], now);
    AskedNext(rt, db, order, scenario, capability, origin, i, now);
    hide ListsEgresses, AskedAndOffered, Latest, StandingOf, EgressOf, Asked, Loaded, Distinct;
    if e.Some? {
      MoreEgresses(rt, db, order, scenario, before, list, rt.ids[i]);
    } else {
      assert before + {} == before;
    }
  }

  /** The `fresh_until` column repeats the payload's field. */
  lemma RecordTimes(db: Db, order: seq<nat>, c: Cell)
    ensures var r := Latest(db, order, c); r.Some? ==> r.value.freshUntil == r.value.payload.freshUntil
  {
  }

  lemma AvailableIsEligible(defs: seq<Definition>, o: Payload, lane: Descriptor, scenario: string,
      build: Option<string>)
    requires Validates(defs, o, lane, scenario, build)
    ensures o.availability == Available ==> o.eligible
  {
  }

  // ----- Summary and discovery agree.

  /** The lanes that declare a scenario this observer runs. */
  function Declaring(rt: Observer, scenario: string): set<string> {
    set id | id in rt.lanes && scenario in rt.lanes[id].scenarios && scenario in rt.enabled
  }

  ghost function OfferedTotal(rt: Observer, db: Db, order: seq<nat>, names: seq<string>, now: int): nat {
    if names == [] then 0
    else
      var n := |names| - 1;
      OfferedTotal(rt, db, order, names[..n], now)
      + |Offered(rt, db, order, names[n], now) * Declaring(rt, names[n])|
  }

  ghost function OfferedCells(rt: Observer, db: Db, order: seq<nat>, names: seq<string>, now: int): set<Cell> {
    set c | c in Declared(rt, rt.lanes.Keys) && c.scenario in names && StandingOf(rt, db, order, c,
        now) == Current(Available)
  }

  function LaneCells(ids: set<string>, scenario: string): set<Cell> {
    set id | id in ids :: Cell(id, scenario)
  }

  lemma {:induction false} LaneCellsCount(ids: set<string>, scenario: string)
    ensures |LaneCells(ids, scenario)| == |ids|
  {
    if ids != {} {
      var a :| a in ids;
      LaneCellsCount(ids - {a}, scenario);
      assert LaneCells(ids, scenario) == LaneCells(ids - {a}, scenario) + {Cell(a, scenario)};
    }
  }

  lemma OfferedCellsStep(rt: Observer, db: Db, order: seq<nat>, names: seq<string>, n: nat, now: int)
    requires Distinct(names) && n < |names| && names[n] in rt.enabled
    ensures var more := LaneCells(Offered(rt, db, order, names[n], now) * Declaring(rt, names[n]), names[n]);
            && OfferedCells(rt, db, order, names[..n + 1], now) == OfferedCells(rt, db, order, names[..n], now) + more
            && OfferedCells(rt, db, order, names[..n], now) !! more
  {
    hide StandingOf;
    assert forall s :: s in names[..n + 1] <==> s in names[..n] || s == names[n];
    assert names[n] !in names[..n];
  }

  lemma {:induction false} OfferedCellsCount(rt: Observer, db: Db, order: seq<nat>, names: seq<string>, now: int)
    requires Distinct(names) && forall s | s in names :: s in rt.enabled
    ensures |OfferedCells(rt, db, order, names, now)| == OfferedTotal(rt, db, order, names, now)
  {
    if names == [] {
      assert OfferedCells(rt, db, order, names, now) == {};
    } else {
      hide OfferedCells, Offered, Declaring, LaneCells;
      var n := |names| - 1;
      OfferedCellsCount(rt, db, order, names[..n], now);
      OfferedCellsStep(rt, db, order, names, n, now);
      assert names[..n + 1] == names;
      var ids := Offered(rt, db, order, names[n], now) * Declaring(rt, names[n]);
      LaneCellsCount(ids, names[n]);
      DisjointSize(OfferedCells(rt, db, order, names[..n], now), LaneCells(ids, names[n]),
                   OfferedCells(rt, db, order, names, now));
    }
  }

  /**
   The `available` count of the summary is the number of discovered egresses, summed over the
   scenarios the observer runs and restricted to the lanes that declare them.
   */
  lemma AvailableIsDiscovered(rt: Observer, db: Db, order: seq<nat>, now: int)
    requires rt.Valid()
    ensures OnLanes(rt, Declared(rt, rt.lanes.Keys))
    ensures Tally(Standings(rt, db, order, Declared(rt, rt.lanes.Keys), now)).available
            == OfferedTotal(rt, db, order, rt.enabled, now)
  {
    OfferedCellsCount(rt, db, order, rt.enabled, now);
    hide StandingOf;
    assert Where(Standings(rt, db, order, Declared(rt, rt.lanes.Keys), now), Up)
           == OfferedCells(rt, db, order, rt.enabled, now);
  }

  // ----- The partition by node and origin in the metrics.

  datatype Origin = Origin(node: string, deployment: string)

  function OriginOf(lane: Lane): Origin {
    Origin(lane.nodeId, lane.origin)
  }

  function Origins(rt: Observer): set<Origin> {
    set id | id in rt.lanes :: OriginOf(rt.lanes[id])
  }

  function OriginSet(origins: seq<Origin>): set<Origin> {
    set o | o in origins
  }

  function LanesFrom(rt: Observer, origins: set<Origin>): (ids: set<string>)
    ensures ids <= rt.lanes.Keys
  {
    set id | id in rt.lanes && OriginOf(rt.lanes[id]) in origins
  }

  ghost function CountsOf(rt: Observer, db: Db, order: seq<nat>, ids: set<string>, now: int): Summary
    requires ids <= rt.lanes.Keys
  {
    Tally(Standings(rt, db, order, Declared(rt, ids), now))
  }

  /** The partition counts of the metrics, added up. */
  ghost function SumOfParts(rt: Observer, db: Db, order: seq<nat>, origins: seq<Origin>, now: int): Summary {
    if origins == [] then NOTHING
    else
      var n := |origins| - 1;
      Plus(SumOfParts(rt, db, order, origins[..n], now), CountsOf(rt, db, order, LanesFrom(rt, {origins[n]}), now))
  }

  lemma CountsAdd(rt: Observer, db: Db, order: seq<nat>, a: set<string>, b: set<string>, now: int)
    requires a + b <= rt.lanes.Keys && a !! b
    ensures CountsOf(rt, db, order, a + b, now) == Plus(CountsOf(rt, db, order, a, now), CountsOf(rt, db, order, b,
        now))
  {
    assert Declared(rt, a + b) == Declared(rt, a) + Declared(rt, b);
    AddCells(rt, db, order, Declared(rt, a), Declared(rt, b), now);
  }

  lemma NextOrigin(rt: Observer, origins: seq<Origin>)
    requires origins != [] && forall i, j | 0 <= i < j < |origins| :: origins[i] != origins[j]
    ensures var n := |origins| - 1;
            var some, last := LanesFrom(rt, OriginSet(origins[..n])), LanesFrom(rt, {origins[n]});
            LanesFrom(rt, OriginSet(origins)) == some + last && some !! last
  {
    var n := |origins| - 1;
    var some := OriginSet(origins[..n]);
    assert OriginSet(origins) == some + {origins[n]} && origins[n] !in some;
  }

  lemma NoOrigins(rt: Observer, db: Db, order: seq<nat>, now: int)
    ensures CountsOf(rt, db, order, LanesFrom(rt, OriginSet([])), now) == NOTHING
  {
    NoCells(rt, db, order, now);
    assert Declared(rt, LanesFrom(rt, OriginSet([]))) == {};
  }

  lemma {:induction false} PartsOfOrigins(rt: Observer, db: Db, order: seq<nat>, origins: seq<Origin>, now: int)
    requires forall i, j | 0 <= i < j < |origins| :: origins[i] != origins[j]
    ensures SumOfParts(rt, db, order, origins, now) == CountsOf(rt, db, order, LanesFrom(rt, OriginSet(origins)), now)
  {
    hide CountsOf, LanesFrom, OriginSet;
    if origins == [] {
      NoOrigins(rt, db, order, now);
    } else {
      var n := |origins| - 1;
      PartsOfOrigins(rt, db, order, origins[..n], now);
      NextOrigin(rt, origins);
      CountsAdd(rt, db, order, LanesFrom(rt, OriginSet(origins[..n])), LanesFrom(rt, {origins[n]}), now);
    }
  }

  /** Whatever the order of the partitions, their counts add up to the summary of the whole observer. */
  lemma PartitionsAddUp(rt: Observer, db: Db, order: seq<nat>, origins: seq<Origin>, now: int)
    requires forall i, j | 0 <= i < j < |origins| :: origins[i] != origins[j]
    requires forall id | id in rt.lanes :: OriginOf(rt.lanes[id]) in origins
    ensures SumOfParts(rt, db, order, origins, now) == CountsOf(rt, db, order, rt.lanes.Keys, now)
  {
    hide CountsOf, SumOfParts, LanesFrom, OriginSet;
    PartsOfOrigins(rt, db, order, origins, now);
    AllOrigins(rt, origins);
  }

  lemma AllOrigins(rt: Observer, origins: seq<Origin>)
    requires forall id | id in rt.lanes :: OriginOf(rt.lanes[id]) in origins
    ensures LanesFrom(rt, OriginSet(origins)) == rt.lanes.Keys
  {
  }

  /** The per-origin loop of `metrics`: one summary for every origin of a configured lane. */
  method PartitionSummaries(store: S.Store, rt: Observer, order: seq<nat>, now: int) returns (parts: map<Origin,
      Summary>)
    requires rt.Valid() && UniqueCells(store.tasks)
    ensures parts.Keys == Origins(rt)
    ensures forall o | o in parts :: parts[o] == CountsOf(rt, store.Contents(), order, LanesFrom(rt, {o}), now)
  {
    parts := map[];
    hide CountsOf, LanesFrom;
    var todo := Origins(rt);
    while todo != {}
      invariant todo <= Origins(rt) && parts.Keys == Origins(rt) - todo
      invariant forall o | o in parts :: parts[o] == CountsOf(rt, store.Contents(), order, LanesFrom(rt, {o}), now)
    {
      var o :| o in todo;
      var ids := Partition(rt, o);
      var part := SummaryOf(store, rt, ids, LanesFrom(rt, {o}), order, now);
      parts := parts[o := part];
      todo := todo - {o};
    }
  }

  /** The lanes of one origin, in the order of the allowlist. */
  method Partition(rt: Observer, o: Origin) returns (ids: seq<string>)
    requires rt.Valid()
    ensures Distinct(ids) && IdSet(ids) == LanesFrom(rt, {o})
    ensures forall id | id in ids :: id in rt.lanes
  {
    hide Loaded, OriginOf;
    ids := [];
    for i := 0 to |rt.ids|
      invariant Distinct(ids)
      invariant forall id :: id in ids <==> id in rt.ids[..i] && OriginOf(rt.lanes[id]) == o
    {
      if OriginOf(rt.lanes[rt.ids[i]]) == o {
        ids := ids + [rt.ids[i]];
      }
    }
    assert rt.ids[..|rt.ids|] == rt.ids;
  }

  method SummaryOf(store: S.Store, rt: Observer, ids: seq<string>, ghost lanes: set<string>, order: seq<nat>, now: int)
    returns (r: Summary)
    requires rt.Valid() && UniqueCells(store.tasks)
    requires Distinct(ids) && IdSet(ids) == lanes && forall id | id in ids :: id in rt.lanes
    ensures lanes <= rt.lanes.Keys && r == CountsOf(rt, store.Contents(), order, lanes, now)
  {
    r := CellSummary(store, rt, ids, order, now);
  }

  // ----- health_for (reporter.py)

  /** The snapshot of one observer; `background` counts its background failures. */
  datatype Node = Node(up: bool, background: nat, mismatch: int, workers: map<string, nat>, required: seq<string>,
                       cells: Summary, telemetryAge: Option<int>, sweepAge: Option<int>)

  datatype Health = OffTrack | AtRisk | OnTrack

  predicate Lacking(n: Node) {
    exists w | w in n.required :: w !in n.workers || n.workers[w] < 1
  }

  predicate Uncovered(n: Node) {
    n.cells.evaluated != n.cells.expected || n.cells.current != n.cells.expected
  }

  predicate Silent(age: Option<int>, limit: int) {
    age.None? || age.value > limit
  }

  function HealthFor(nodes: seq<Node>, failures: nat, alerts: nat, migrated: bool): Health {
    if failures > 0 || exists n | n in nodes :: !n.up then OffTrack
    else if exists n | n in nodes :: n.background > 0 then OffTrack
    else if exists n | n in nodes :: n.mismatch != 0 then OffTrack
    else if exists n | n in nodes :: Lacking(n) then OffTrack
    else if exists n | n in nodes :: Uncovered(n) then OffTrack
    else if exists n | n in nodes :: Silent(n.telemetryAge, 900) then OffTrack
    else if exists n | n in nodes :: Silent(n.sweepAge, 86400) then OffTrack
    else if alerts > 0 || !migrated then AtRisk
    else OnTrack
  }

  /** A node that gives no reason for concern; ages are in seconds. */
  predicate Healthy(n: Node) {
    && n.up && n.background == 0 && n.mismatch == 0
    && (forall w | w in n.required :: w in n.workers && n.workers[w] >= 1)
    && n.cells.evaluated == n.cells.expected && n.cells.current == n.cells.expected
    && n.telemetryAge.Some? && n.telemetryAge.value <= 900
    && n.sweepAge.Some? && n.sweepAge.value <= 86400
  }

  /** Each verdict as a condition on the nodes. */
  lemma HealthExactly(nodes: seq<Node>, failures: nat, alerts: nat, migrated: bool)
    ensures var h, sound := HealthFor(nodes, failures, alerts, migrated),
                            failures == 0 && forall n | n in nodes :: Healthy(n);
            && (h == OnTrack <==> sound && alerts == 0 && migrated)
            && (h == AtRisk <==> sound && (alerts > 0 || !migrated))
            && (h == OffTrack <==> !sound)
  {
    forall n | n in nodes
      ensures Healthy(n) <==> !(!n.up || n.background > 0 || n.mismatch != 0 || Lacking(n) || Uncovered(n)
                                || Silent(n.telemetryAge, 900) || Silent(n.sweepAge, 86400))
    {
    }
  }

  lemma FullCount(m: map<Cell, Standing>)
    ensures var t := Tally(m);
            (t.evaluated == t.expected && t.current == t.expected) <==> forall c | c in m :: m[c].Current?
  {
    Within(Where(m, Judged), Where(m, Any));
    Within(Where(m, Seen), Where(m, Any));
    if forall c | c in m :: m[c].Current? {
      assert Where(m, Judged) == Where(m, Seen) == Where(m, Any);
    } else {
      var c :| c in m && !m[c].Current?;
      assert c in Where(m, Any) && c !in Where(m, Judged);
    }
  }

  /** A node counts as covered exactly when each declared cell's newest evidence validates and is unexpired. */
  lemma CoveredMeansCurrent(rt: Observer, db: Db, order: seq<nat>, now: int, n: Node)
    requires n.cells == CountsOf(rt, db, order, rt.lanes.Keys, now)
    ensures OnLanes(rt, Declared(rt, rt.lanes.Keys))
    ensures !Uncovered(n) <==> forall c | c in Declared(rt, rt.lanes.Keys) :: StandingOf(rt, db, order, c, now).Current?
  {
    var m := Standings(rt, db, order, Declared(rt, rt.lanes.Keys), now);
    FullCount(m);
    hide StandingOf, Tally, Declared;
    forall c | c in Declared(rt, rt.lanes.Keys)
      ensures c in m && m[c] == StandingOf(rt, db, order, c, now)
    {
    }
  }

  /** On track means, of every reporting node, that all its declared cells have current evidence. */
  lemma OnTrackMeansCovered(rt: Observer, db: Db, order: seq<nat>, now: int, nodes: seq<Node>, i: nat,
                            failures: nat, alerts: nat, migrated: bool, c: Cell)
    requires i < |nodes| && nodes[i].cells == CountsOf(rt, db, order, rt.lanes.Keys, now)
    requires HealthFor(nodes, failures, alerts, migrated) == OnTrack
    requires c in Declared(rt, rt.lanes.Keys)
    ensures c.lane in rt.lanes
    ensures var r := Latest(db, order, c);
            && r.Some? && r.value.freshUntil > now
            && Validates(rt.defs, r.value.payload, Public(rt.defs, rt.lanes[c.lane]), c.scenario, r.value.build)
  {
    CoveredMeansCurrent(rt, db, order, now, nodes[i]);
    assert nodes[i] in nodes;
    assert StandingOf(rt, db, order, c, now).Current?;
  }
}
