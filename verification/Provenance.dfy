/**
 Observation provenance (provenance.py): upgrading an emitted observation to version 2 against a
 lane descriptor, and validating a submitted one against the active descriptor. Also the `unknown`
 observation that store.py writes for lost and failed work, and the repair of legacy rows.
 */
module Provenance {
  import opened Wrappers
  import opened Catalog
  import opened Lanes
  import T = Text
  import C = Capability

  datatype Availability = Available | Unavailable | Inconclusive

  datatype Subject = Subject(
    origin: Option<string>, instance: Option<string>, node: Option<string>, runtime: Option<string>,
    image: Option<string>, generation: Option<string>, digest: Option<string>, build: Option<string>)

  datatype LanePart = LanePart(
    laneId: Option<string>, capability: Option<string>, composition: Option<string>,
    transport: Option<string>, substrate: Option<string>, profile: Option<string>,
    region: Option<string>, regionRaw: Option<string>, proto: Option<string>, stack: Option<string>)

  /** `scenario_provenance`: the digest is of the definition, so the definition stands for it. */
  datatype CatalogEntry = CatalogEntry(catalog: string, scenarioId: string, digestOf: Definition)

  /** An observation payload. `facts` is the evidence no code here reads or changes. */
  datatype Payload = Payload(
    version: int, id: nat, observedAt: int, freshUntil: int, scenarioId: Option<string>,
    entry: Option<CatalogEntry>, subject: Subject, lane: LanePart, availability: Availability,
    eligible: bool, resultClass: string, failureLayer: string, facts: string)

  const HOUR: int := 3600
  const DAY: int := 24 * HOUR

  /** None is the StopIteration for a name that is neither a short nor a canonical id. */
  function ScenarioEntry(defs: seq<Definition>, scenario: string): Option<CatalogEntry> {
    var d :- if ById(defs, scenario).Some? then ById(defs, scenario) else ByScenarioId(defs, scenario);
    Some(CatalogEntry("scenarios-v1", d.scenarioId, d))
  }

  predicate Filled(value: Option<string>) {
    value.Some? && value.value != ""
  }

  /** The facts of contracts/observation-v2.schema.json about the fields modelled here. */
  predicate MeetsSchema(o: Payload) {
    && o.version == 2
    && o.scenarioId.Some? && |o.scenarioId.value| >= 3
    && o.entry.Some? && o.entry.value.catalog == "scenarios-v1" && |o.entry.value.scenarioId| >= 3
    && Filled(o.subject.origin) && Filled(o.subject.instance) && Filled(o.subject.node)
    && Filled(o.subject.image) && Filled(o.subject.generation) && Filled(o.subject.digest)
    && Filled(o.subject.build)
    && Filled(o.lane.laneId) && Filled(o.lane.composition) && Filled(o.lane.transport)
    && Filled(o.lane.substrate)
    && o.lane.capability.Some? && C.FitsPattern(o.lane.capability.value)
    && (o.lane.region.Some? ==> T.RegionCode(o.lane.region.value))
    && (o.lane.proto == Some("warp") || o.lane.proto == Some("masque"))
    && (o.lane.stack == Some("v4") || o.lane.stack == Some("v6"))
    && (o.eligible <==> o.availability != Inconclusive)
    && o.resultClass != "" && o.failureLayer != ""
  }

  /** `validate_observation_v2`: false stands for any exception it raises. */
  predicate Validates(defs: seq<Definition>, o: Payload, lane: Descriptor, scenario: string, evaluator: Option<string>)
  {
    var expected := ScenarioEntry(defs, scenario);
    && MeetsSchema(o)
    && expected.Some?
    && o.scenarioId == Some(expected.value.scenarioId)
    && o.entry == expected
    && o.subject.origin == Some(lane.origin)
    && o.subject.instance == Some(lane.instanceId)
    && o.subject.node == Some(lane.nodeId)
    && o.subject.image == Some(lane.image)
    && o.subject.generation == Some(lane.generation)
    && o.subject.digest == Some(lane.digest)
    && (evaluator.Some? ==> o.subject.build == evaluator)
    && o.lane == LanePart(Some(lane.id), Some(lane.capability), Some(lane.composition),
                          Some(lane.transport), Some(lane.substrate), lane.profile, lane.region,
                          lane.regionRaw, Some(lane.proto), Some(lane.stack))
  }

  /** `value or fallback` on a text that may be empty. */
  function Or(value: string, fallback: string): string {
    if value != "" then value else fallback
  }

  /** Equal in identity, times, result and failure layer: everything but provenance. */
  predicate SameEvidence(a: Payload, b: Payload) {
    && a.id == b.id && a.observedAt == b.observedAt && a.freshUntil == b.freshUntil
    && a.availability == b.availability && a.eligible == b.eligible
    && a.resultClass == b.resultClass && a.failureLayer == b.failureLayer && a.facts == b.facts
  }

  /** `observation_v2`; None stands for the ValueError of an unreadable region or an unknown scenario. */
  function ObservationV2(defs: seq<Definition>, o: Payload, lane: Descriptor, scenario: string, build: string)
    : (r: Option<Payload>)
    ensures r.Some? ==> SameEvidence(o, r.value)
  {
    var entry :- ScenarioEntry(defs, scenario);
    var raw := if Filled(lane.regionRaw) then lane.regionRaw else lane.region;
    var region :- NormalizeRegion(raw);
    var substrate := Or(lane.substrate, InferSubstrate(lane.composition, lane.profile));
    var proto := Or(lane.proto, InferProto(lane.transport));
    var stack := Or(lane.stack, "v4");
    var capability := Or(lane.capability, CapabilityId(substrate, region, proto, stack));
    Some(o.(version := 2,
            entry := Some(entry),
            subject := o.subject.(
              origin := Some(Or(lane.origin, "legacy-" + lane.nodeId)),
              instance := Some(lane.instanceId),
              node := Some(lane.nodeId),
              image := Some(lane.image),
              generation := Some(Or(lane.generation, lane.digest)),
              digest := Some(lane.digest),
              build := Some(build)),
            lane := LanePart(
              Some(lane.id), Some(capability), Some(lane.composition), Some(lane.transport),
              Some(substrate), lane.profile, region, raw, Some(proto), Some(stack))))
  }

  /** The version 1 facts a probe is responsible for; everything else comes from the descriptor. */
  predicate SoundEvidence(o: Payload) {
    && (o.eligible <==> o.availability != Inconclusive)
    && o.resultClass != "" && o.failureLayer != ""
  }

  /** What `observation_v2` makes of an observation by copying a descriptor. */
  function Upgraded(d: Descriptor, entry: Option<CatalogEntry>, o: Payload, build: string): Payload {
    o.(version := 2,
       entry := entry,
       subject := Subject(Some(d.origin), Some(d.instanceId), Some(d.nodeId), o.subject.runtime, Some(d.image),
                          Some(d.generation), Some(d.digest), Some(build)),
       lane := LanePart(Some(d.id), Some(d.capability), Some(d.composition), Some(d.transport), Some(d.substrate),
                        d.profile, d.region, d.regionRaw, Some(d.proto), Some(d.stack)))
  }

  /** On a published descriptor of a loaded lane no fallback applies: the upgrade copies the descriptor. */
  lemma UpgradeCopiesLoadedLane(defs: seq<Definition>, lane: Lane, scenario: string, o: Payload, build: string)
    requires Loaded(defs, lane) && ScenarioEntry(defs, scenario).Some?
    ensures ObservationV2(defs, o, Public(defs, lane), scenario, build)
            == Some(Upgraded(Public(defs, lane), ScenarioEntry(defs, scenario), o, build))
  {
    hide ScenarioEntry;
    assert |Public(defs, lane).capability| >= 1;
    if lane.regionRaw.None? {
      assert lane.region.None?;
    }
  }

  /** The schema asks nothing of a copied descriptor of a loaded lane that the lane does not have. */
  lemma CopyMeetsSchema(defs: seq<Definition>, lane: Lane, entry: CatalogEntry, o: Payload, build: string)
    requires Loaded(defs, lane) && entry.catalog == "scenarios-v1" && |entry.scenarioId| >= 3
    requires o.scenarioId == Some(entry.scenarioId)
    ensures MeetsSchema(Upgraded(Public(defs, lane), Some(entry), o, build)) <==> SoundEvidence(o) && build != ""
  {
    C.LoadedLaneMatchesPattern(defs, lane);
    hide NormalizeRegion, C.FitsPattern, T.Component, CanonicalNames, Known, Distinct;
  }

  /**
   An observation upgraded on one lane, for one scenario, under one catalogue validates against another
   exactly when the two public descriptors agree on everything but the declared scenarios, the two
   scenarios have the same definition, the observation names it canonically, its evidence is well
   formed, and it carries the evaluator build it is compared with.
   */
  lemma CopyValidates(defs: seq<Definition>, lane: Lane, scenario: string, theirs: seq<Definition>, other: Lane,
      named: string, o: Payload, build: string, leased: Option<string>)
    requires Loaded(defs, lane) && Known(defs, scenario) && |Canonical(defs, scenario)| >= 3
    requires Loaded(theirs, other) && Known(theirs, named)
    ensures var d, e := Public(defs, lane), Public(theirs, other);
            Validates(defs, Upgraded(e, ScenarioEntry(theirs, named), o, build), d, scenario, leased)
            <==> && d == e.(scenarios := d.scenarios) && ById(theirs, named) == ById(defs, scenario)
                 && o.scenarioId == Some(Canonical(defs, scenario))
                 && SoundEvidence(o)
                 && build != ""
                 && (leased.Some? ==> leased.value == build)
  {
    hide MeetsSchema, Loaded, Public, SoundEvidence;
    if o.scenarioId == Some(Canonical(defs, scenario)) && ById(theirs, named) == ById(defs, scenario) {
      CopyMeetsSchema(theirs, other, ScenarioEntry(theirs, named).value, o, build);
    }
  }

  /**
   No other observation validates: whatever is stored or submitted, what validates against a loaded lane
   is a copy of that lane's public descriptor under the definition of that scenario.
   */
  lemma OnlyCopiesValidate(defs: seq<Definition>, lane: Lane, scenario: string, o: Payload, leased: Option<string>)
    requires Loaded(defs, lane) && Known(defs, scenario) && |Canonical(defs, scenario)| >= 3
    ensures Validates(defs, o, Public(defs, lane), scenario, leased)
            <==> && Filled(o.subject.build)
                 && o == Upgraded(Public(defs, lane), ScenarioEntry(defs, scenario), o, o.subject.build.value)
                 && o.scenarioId == Some(Canonical(defs, scenario))
                 && SoundEvidence(o)
                 && (leased.Some? ==> leased == o.subject.build)
  {
    hide C.FitsPattern, Loaded, Public;
    var build := o.subject.build.GetOr("");
    CopyValidates(defs, lane, scenario, defs, lane, scenario, o, build, leased);
  }

  /**
   A worker that rebuilt a loaded lane and upgraded an observation with it is accepted by the
   observer, on the observer's own lane, exactly when the observation names the leased scenario
   canonically, its evidence is well formed, and it ran the evaluator build of the lease.
   */
  lemma WorkerObservationAccepted(
      defs: seq<Definition>, lane: Lane, workerClass: ExecutionClass, scenario: string, o: Payload,
      build: string, leased: Option<string>)
    requires WellFormed(defs) && Loaded(defs, lane) && Known(defs, scenario)
    requires |Canonical(defs, scenario)| >= 3
    ensures var rebuilt := Rebuild(defs, Internal(defs, lane, workerClass));
            && rebuilt.Some?
            && var sent := ObservationV2(defs, o, Public(defs, rebuilt.value), scenario, build);
            && sent.Some?
            && (Validates(defs, sent.value, Public(defs, lane), scenario, leased)
                <==> && o.scenarioId == Some(Canonical(defs, scenario))
                     && SoundEvidence(o)
                     && build != ""
                     && (leased.Some? ==> leased.value == build))
  {
    hide Validates, Upgraded, Loaded, Public, ObservationV2, Rebuild, Internal, WellFormed, SoundEvidence;
    DescriptorRoundTrip(defs, lane, workerClass);
    UpgradeCopiesLoadedLane(defs, lane, scenario, o, build);
    CopyValidates(defs, lane, scenario, defs, lane, scenario, o, build, leased);
  }

  /** The version 1 observation of lost or failed work. */
  function Lost(lane: Descriptor, scenarioId: string, now: int, id: nat): Payload {
    var subject := Subject(None, Some(lane.instanceId), Some(lane.nodeId), Some("podman"), Some(lane.image), None,
                           Some(lane.digest), None);
    var part := LanePart(None, None, Some(lane.composition), Some(lane.transport), None, lane.profile,
                         lane.region, None, None, None);
    Payload(1, id, now, now + DAY, Some(scenarioId), None, subject, part, Inconclusive, false, "tooling_failure",
            "tooling", "probe-worker")
  }

  /** `unknown_observation`: what the observer writes for work that was lost or that failed. */
  function UnknownObservation(defs: seq<Definition>, lane: Descriptor, scenarioId: string, now: int, id: nat,
      build: string)
    : (r: Option<Payload>)
    ensures r.Some? ==>
              && r.value.id == id && r.value.observedAt == now && r.value.freshUntil == now + DAY
              && r.value.availability == Inconclusive && !r.value.eligible
  {
    ObservationV2(defs, Lost(lane, scenarioId, now, id), lane, scenarioId, build)
  }

  /** Whether `unknown_observation` can be built for a lane and scenario at all; neither time nor id matters. */
  predicate Reportable(defs: seq<Definition>, lane: Descriptor, scenarioId: string) {
    && ScenarioEntry(defs, scenarioId).Some?
    && NormalizeRegion(if Filled(lane.regionRaw) then lane.regionRaw else lane.region).Some?
  }

  lemma ReportableDecides(defs: seq<Definition>, lane: Descriptor, scenarioId: string, now: int, id: nat, build: string)
    ensures UnknownObservation(defs, lane, scenarioId, now, id, build).Some? <==> Reportable(defs, lane, scenarioId)
  {
  }

  /** A canonical name leads to the entry of its scenario. */
  lemma EntryOfCanonical(defs: seq<Definition>, scenario: string)
    requires WellFormed(defs) && Known(defs, scenario)
    requires Known(defs, Canonical(defs, scenario)) ==> Canonical(defs, scenario) == scenario
    ensures ScenarioEntry(defs, Canonical(defs, scenario)) == ScenarioEntry(defs, scenario)
  {
    CanonicalNamesRoundTrip(defs, scenario);
  }

  /**
   What the observer reports about lost work on a loaded lane can always be written, but it carries the
   observer's own evaluator build. So it validates exactly against a lease that recorded that build or none.
   */
  lemma UnknownObservationValidates(defs: seq<Definition>, lane: Lane, scenario: string, now: int, id: nat,
      build: string, leased: Option<string>)
    requires WellFormed(defs) && Loaded(defs, lane) && Known(defs, scenario)
    requires |Canonical(defs, scenario)| >= 3
    requires Known(defs, Canonical(defs, scenario)) ==> Canonical(defs, scenario) == scenario
    ensures var o := UnknownObservation(defs, Public(defs, lane), Canonical(defs, scenario), now, id, build);
            && o.Some?
            && (Validates(defs, o.value, Public(defs, lane), scenario, leased)
                <==> build != "" && (leased.Some? ==> leased.value == build))
  {
    hide Validates, Upgraded, Loaded, Public, ObservationV2, WellFormed, ScenarioEntry;
    EntryOfCanonical(defs, scenario);
    EntryExists(defs, scenario);
    var emitted := Lost(Public(defs, lane), Canonical(defs, scenario), now, id);
    UpgradeCopiesLoadedLane(defs, lane, Canonical(defs, scenario), emitted, build);
    CopyValidates(defs, lane, scenario, defs, lane, scenario, emitted, build, leased);
  }

  lemma EntryExists(defs: seq<Definition>, scenario: string)
    requires Known(defs, scenario)
    ensures ScenarioEntry(defs, scenario).Some?
  {
  }

  function Fill(value: Option<string>, fallback: string): Option<string> {
    if Filled(value) then value else Some(fallback)
  }

  function FillIfKnown(value: Option<string>, fallback: Option<string>): Option<string> {
    if Filled(value) || fallback.None? then value else fallback
  }

  /** The fields `_backfill_observation_provenance` fills before it looks at the schema version. */
  function FillGaps(o: Payload, lane: Descriptor, scenarioId: string): Payload {
    o.(scenarioId := Some(scenarioId),
       subject := o.subject.(
         instance := Fill(o.subject.instance, lane.instanceId),
         node := Fill(o.subject.node, lane.nodeId),
         runtime := Fill(o.subject.runtime, "podman"),
         image := Fill(o.subject.image, lane.image),
         digest := Fill(o.subject.digest, lane.digest)),
       lane := o.lane.(
         composition := FillIfKnown(o.lane.composition, Some(lane.composition)),
         transport := FillIfKnown(o.lane.transport, Some(lane.transport)),
         profile := FillIfKnown(o.lane.profile, lane.profile),
         region := FillIfKnown(o.lane.region, lane.region)))
  }

  /** One row of the repair; None stands for an exception out of the upgrade. */
  function Repair(defs: seq<Definition>, o: Payload, lane: Descriptor, scenario: string,
      build: string): (r: Option<Payload>)
    ensures r.Some? ==> SameEvidence(o, r.value)
  {
    var filled := FillGaps(o, lane, Canonical(defs, scenario));
    if filled.version == 2 then Some(filled) else ObservationV2(defs, filled, lane, scenario, build)
  }

  /**
   A version 1 row of a loaded lane is repaired by the upgrade: it then validates exactly if its evidence is
   sound, whatever it said before about its subject, lane and scenario, and the repairing build is right.
   */
  lemma RepairedRowValidates(defs: seq<Definition>, lane: Lane, scenario: string, o: Payload, build: string,
      leased: Option<string>)
    requires Loaded(defs, lane) && Known(defs, scenario) && |Canonical(defs, scenario)| >= 3
    requires o.version != 2
    ensures var r := Repair(defs, o, Public(defs, lane), scenario, build);
            && r.Some?
            && (Validates(defs, r.value, Public(defs, lane), scenario, leased)
                <==> SoundEvidence(o) && build != "" && (leased.Some? ==> leased.value == build))
  {
    hide Validates, Upgraded, Loaded, Public, ObservationV2, ScenarioEntry;
    EntryExists(defs, scenario);
    var filled := FillGaps(o, Public(defs, lane), Canonical(defs, scenario));
    UpgradeCopiesLoadedLane(defs, lane, scenario, filled, build);
    CopyValidates(defs, lane, scenario, defs, lane, scenario, filled, build, leased);
  }

  /** A repaired row needs no further repair, whichever build looks at it next. */
  lemma RepairIsIdempotent(defs: seq<Definition>, lane: Lane, scenario: string, o: Payload, build: string,
      later: string)
    requires WellFormed(defs) && Loaded(defs, lane) && Known(defs, scenario)
    ensures var d := Public(defs, lane);
            var once := Repair(defs, o, d, scenario, build);
            once.Some? && Repair(defs, once.value, d, scenario, later) == once
  {
    var d := Public(defs, lane);
    var filled := FillGaps(o, d, Canonical(defs, scenario));
    UpgradeCopiesLoadedLane(defs, lane, scenario, filled, build);
    var once := Repair(defs, o, d, scenario, build).value;
    assert once.version == 2;
    assert FillGaps(once, d, Canonical(defs, scenario)) == once;
  }
}
