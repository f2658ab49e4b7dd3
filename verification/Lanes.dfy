/**
 The lane allowlist (config.py): reading it, the public and worker-facing descriptors built from a
 lane, and the lane a worker rebuilds from the descriptor it is sent (worker.py).
 */
module Lanes {
  import opened Wrappers
  import opened Catalog
  import T = Text

  datatype Lane = Lane(
    id: string, proxy: string, instanceId: string, nodeId: string, composition: string,
    transport: string, profile: Option<string>, region: Option<string>, image: string,
    digest: string, origin: string, substrate: string, regionRaw: Option<string>, proto: string,
    stack: string, generation: string, browserProxy: Option<string>, scenarios: seq<string>)

  /** What `Lane.public()` returns: no listener address. */
  datatype Descriptor = Descriptor(
    id: string, instanceId: string, nodeId: string, composition: string, transport: string,
    profile: Option<string>, region: Option<string>, image: string, digest: string, origin: string,
    substrate: string, regionRaw: Option<string>, proto: string, stack: string, generation: string,
    capability: string, scenarios: seq<string>)

  /** What `Lane.internal(worker_class)` returns. */
  datatype WorkerDescriptor = WorkerDescriptor(public: Descriptor, proxy: string)

  /** One JSON value of an allowlist entry. */
  datatype Field = Null | Text(text: string) | List(items: seq<Field>) | Other

  type Item = map<string, Field>

  const FIELDS: set<string> := {
    "id", "proxy", "instance_id", "node_id", "composition", "transport", "substrate_profile",
    "requested_region", "image_identity", "config_digest", "deployment_origin", "substrate",
    "requested_region_raw", "cloudflare_proto", "ip_proto_stack", "config_generation",
    "browser_proxy", "scenarios"
  }

  /** None stands for the ValueError of `required_text`. */
  function RequiredText(item: Item, key: string): Option<string> {
    if key in item && item[key].Text? && !T.Blank(item[key].text) then Some(item[key].text) else None
  }

  /** The outer None stands for the ValueError of `optional_text`. */
  function OptionalText(item: Item, key: string): Option<Option<string>> {
    if key !in item || item[key].Null? then Some(None)
    else if item[key].Text? && !T.Blank(item[key].text) then Some(Some(item[key].text))
    else None
  }

  /** The outer None stands for the ValueError of `normalize_region`. */
  function NormalizeRegion(value: Option<string>): Option<Option<string>> {
    match value
    case None => Some(None)
    case Some(text) =>
      var upper := T.Upper(T.Strip(text));
      var code := if upper == "UK" then "GB" else upper;
      if T.RegionCode(code) then Some(Some(code)) else None
  }

  /** A region in either case is its upper-case code, except that UK is the code GB. */
  lemma RegionOfLetters(a: char, b: char)
    requires 'A' <= a <= 'Z' && 'A' <= b <= 'Z'
    ensures NormalizeRegion(Some([a, b])) == Some(Some(if a == 'U' && b == 'K' then "GB" else [a, b]))
    ensures NormalizeRegion(Some([(a as int + 32) as char, (b as int + 32) as char])) == NormalizeRegion(Some([a, b]))
  {
    var upper, lower := [a, b], [(a as int + 32) as char, (b as int + 32) as char];
    assert T.Strip(upper) == upper && T.Strip(lower) == lower;
    assert T.Upper(upper) == upper && T.Upper(lower) == upper;
    assert "UK" == ['U', 'K'];
  }

  function InferSubstrate(composition: string, profile: Option<string>): string {
    var prefix := match profile case Some(p) => T.BeforeDash(T.Lower(p)) case None => "";
    if prefix == "fv" || prefix == "ps" then prefix
    else if T.Contains(T.Lower(composition), "psiphon") then "ps"
    else if T.Contains(T.Lower(composition), "fv") then "fv"
    else "direct"
  }

  predicate OccursAt(s: string, part: string, i: int) {
    0 <= i <= |s| - |part| && s[i..i + |part|] == part
  }

  /** `part in s` */
  ghost predicate Occurs(s: string, part: string) {
    exists i :: OccursAt(s, part, i)
  }

  lemma OccursLater(s: string, part: string, i: nat)
    requires s != ""
    ensures OccursAt(s, part, i + 1) <==> OccursAt(s[1..], part, i)
  {
    if i + 1 <= |s| - |part| {
      assert s[1..][i..i + |part|] == s[i + 1..i + 1 + |part|];
    }
  }

  lemma {:induction false} ContainsExactly(s: string, part: string)
    ensures T.Contains(s, part) <==> Occurs(s, part)
  {
    assert part <= s <==> OccursAt(s, part, 0);
    if s != "" {
      ContainsExactly(s[1..], part);
      forall i: nat
        ensures OccursAt(s, part, i + 1) <==> OccursAt(s[1..], part, i)
      {
        OccursLater(s, part, i);
      }
      if i :| OccursAt(s, part, i) {
        assert i == 0 || OccursAt(s[1..], part, i - 1);
      }
      if i :| OccursAt(s[1..], part, i) {
        assert OccursAt(s, part, i + 1);
      }
    }
  }

  /** The substrate and protocol of a lane that does not name them. */
  lemma InferredExactly(composition: string, profile: Option<string>, transport: string)
    ensures var s, prefix, text := InferSubstrate(composition, profile),
                                   T.BeforeDash(T.Lower(profile.GetOr(""))), T.Lower(composition);
            && (s == "ps" <==> prefix == "ps" || (prefix != "fv" && Occurs(text, "psiphon")))
            && (s == "fv" <==>
                  prefix == "fv" || (prefix != "ps" && !Occurs(text, "psiphon") && Occurs(text, "fv")))
            && (s == "ps" || s == "fv" || s == "direct")
    ensures InferProto(transport) == if T.Lower(transport) == "masque" then "masque" else "warp"
  {
    ContainsExactly(T.Lower(composition), "psiphon");
    ContainsExactly(T.Lower(composition), "fv");
    assert T.BeforeDash("") == "";
    assert profile.None? ==> T.Lower("") == "";
  }

  function InferProto(transport: string): string {
    if T.Lower(transport) == "masque" then "masque" else "warp"
  }

  predicate Distinct(s: seq<string>) {
    forall i, j | 0 <= i < j < |s| :: s[i] != s[j]
  }

  /** `tuple(SCENARIO_ALIASES[value] for value in values)`; None when a value is not a non-empty known name. */
  function ResolveNames(defs: seq<Definition>, values: seq<Field>): (r: Option<seq<string>>)
    ensures r.Some? ==> |r.value| == |values|
    ensures r.Some? ==> forall s | s in r.value :: Known(defs, s)
  {
    if values == [] then Some([])
    else
      var text :- if values[0].Text? && values[0].text != "" then Some(values[0].text) else None;
      var head :- Alias(defs, text);
      var tail :- ResolveNames(defs, values[1..]);
      AliasKnown(defs, text);
      Some([head] + tail)
  }

  lemma AliasKnown(defs: seq<Definition>, value: string)
    ensures Alias(defs, value).Some? ==> Known(defs, Alias(defs, value).value)
  {
    ByScenarioIdFinds(defs, value);
    ByIdFinds(defs, value);
    if Alias(defs, value).Some? {
      ByIdFinds(defs, Alias(defs, value).value);
    }
  }

  function ShortIds(defs: seq<Definition>): seq<Field> {
    if defs == [] then [] else [Text(defs[0].id)] + ShortIds(defs[1..])
  }

  predicate DeclaresBrowser(defs: seq<Definition>, scenarios: seq<string>) {
    exists s | s in scenarios :: ById(defs, s).Some? && ById(defs, s).value.kind == Browser
  }

  /** The scenarios of an allowlist entry; absent means the whole catalogue. */
  function ReadScenarios(defs: seq<Definition>, item: Item, browserProxy: Option<string>): (r: Option<seq<string>>)
    ensures r.Some? ==> Distinct(r.value) && forall s | s in r.value :: Known(defs, s)
  {
    var raw := if "scenarios" in item then item["scenarios"] else List(ShortIds(defs));
    var values :- if raw.List? && raw.items != [] then Some(raw.items) else None;
    var names :- ResolveNames(defs, values);
    if !Distinct(names) then None
    else if "scenarios" in item && DeclaresBrowser(defs, names) && browserProxy.None? then None
    else Some(names)
  }

  /**
   One entry of the allowlist. `proxyOk` is the urlsplit test `socks5h://host:port` without
   credentials or extras. None stands for any ValueError.
   */
  function ReadLane(defs: seq<Definition>, proxyOk: string -> bool, item: Item): Option<Lane> {
    var _ :- if item.Keys <= FIELDS then Some(()) else None;
    var id :- RequiredText(item, "id");
    var _ :- if T.Component(id) then Some(()) else None;
    var proxy :- RequiredText(item, "proxy");
    var _ :- if proxyOk(proxy) then Some(()) else None;
    var browserProxy :- OptionalText(item, "browser_proxy");
    var _ :- if browserProxy.Some? && !proxyOk(browserProxy.value) then None else Some(());
    var scenarios :- ReadScenarios(defs, item, browserProxy);
    var givenRaw :- OptionalText(item, "requested_region_raw");
    var regionRaw :- if givenRaw.Some? then Some(givenRaw) else OptionalText(item, "requested_region");
    var region :- NormalizeRegion(regionRaw);
    var givenSubstrate :- OptionalText(item, "substrate");
    var composition :- RequiredText(item, "composition");
    var profile :- OptionalText(item, "substrate_profile");
    var substrate := givenSubstrate.GetOr(InferSubstrate(composition, profile));
    var _ :- if T.Component(substrate) then Some(()) else None;
    var givenProto :- OptionalText(item, "cloudflare_proto");
    var transport :- RequiredText(item, "transport");
    var proto := givenProto.GetOr(InferProto(transport));
    var _ :- if proto == "warp" || proto == "masque" then Some(()) else None;
    var givenStack :- OptionalText(item, "ip_proto_stack");
    var stack := givenStack.GetOr("v4");
    var _ :- if stack == "v4" || stack == "v6" then Some(()) else None;
    var nodeId :- RequiredText(item, "node_id");
    var instanceId :- RequiredText(item, "instance_id");
    var image :- RequiredText(item, "image_identity");
    var digest :- RequiredText(item, "config_digest");
    var origin :- OptionalText(item, "deployment_origin");
    var generation :- OptionalText(item, "config_generation");
    Some(Lane(id, proxy, instanceId, nodeId, composition, transport, profile, region, image, digest,
              origin.GetOr("legacy-" + nodeId), substrate, regionRaw, proto, stack,
              generation.GetOr(digest), browserProxy, scenarios))
  }

  /** What the rest of the service may rely on about a lane that came out of the allowlist. */
  predicate Loaded(defs: seq<Definition>, lane: Lane) {
    && T.Component(lane.id) && lane.instanceId != "" && lane.nodeId != "" && lane.composition != ""
    && lane.transport != "" && lane.image != "" && lane.digest != "" && lane.origin != ""
    && lane.generation != ""
    && T.Component(lane.substrate)
    && (lane.proto == "warp" || lane.proto == "masque")
    && (lane.stack == "v4" || lane.stack == "v6")
    && (lane.profile.Some? ==> lane.profile.value != "")
    && (lane.regionRaw.Some? ==> lane.regionRaw.value != "")
    && NormalizeRegion(lane.regionRaw) == Some(lane.region)
    && (lane.region.Some? ==> T.RegionCode(lane.region.value))
    && Distinct(lane.scenarios)
    && (forall s | s in lane.scenarios :: Known(defs, s))
  }

  lemma ReadLaneLoads(defs: seq<Definition>, proxyOk: string -> bool, item: Item)
    ensures var lane := ReadLane(defs, proxyOk, item);
            lane.Some? ==> Loaded(defs, lane.value)
  {
    hide NormalizeRegion, InferSubstrate, InferProto, T.Component, T.RegionCode;
    var lane := ReadLane(defs, proxyOk, item);
    if lane.Some? {
      NormalRegionIsCode(lane.value.regionRaw);
    }
  }

  lemma NormalRegionIsCode(raw: Option<string>)
    ensures var region := NormalizeRegion(raw);
            region.Some? && region.value.Some? ==> T.RegionCode(region.value.value)
  {
  }

  /**
   `load_lanes`. The allowlist is accepted exactly when it is non-empty, every entry reads, and no
   id repeats; the result keeps the order of the entries.
   */
  method LoadLanes(defs: seq<Definition>, proxyOk: string -> bool, raw: seq<Item>)
    returns (r: Option<seq<Lane>>)
    ensures r.Some? ==> |r.value| == |raw|
    ensures r.Some? ==> forall i | 0 <= i < |raw| ::
              ReadLane(defs, proxyOk, raw[i]) == Some(r.value[i]) && Loaded(defs, r.value[i])
    ensures r.Some? ==> forall i, j | 0 <= i < j < |raw| :: r.value[i].id != r.value[j].id
    ensures r.Some? <==>
            && raw != []
            && (forall i | 0 <= i < |raw| :: ReadLane(defs, proxyOk, raw[i]).Some?)
            && (forall i, j | 0 <= i < j < |raw| ::
                  ReadLane(defs, proxyOk, raw[i]).value.id != ReadLane(defs, proxyOk, raw[j]).value.id)
  {
    hide ReadLane, Loaded;
    if raw == [] {
      return None;
    }
    var lanes: seq<Lane>, ids: set<string> := [], {};
    for i := 0 to |raw|
      invariant |lanes| == i
      invariant forall k | 0 <= k < i ::
                  ReadLane(defs, proxyOk, raw[k]) == Some(lanes[k]) && Loaded(defs, lanes[k])
      invariant forall k | 0 <= k < i :: lanes[k].id in ids
      invariant forall id | id in ids :: exists k | 0 <= k < i :: lanes[k].id == id
      invariant forall k, l | 0 <= k < l < i :: lanes[k].id != lanes[l].id
    {
      var lane := ReadLane(defs, proxyOk, raw[i]);
      if lane.None? || lane.value.id in ids {
        return None;
      }
      ReadLaneLoads(defs, proxyOk, raw[i]);
      lanes := lanes + [lane.value];
      ids := ids + {lane.value.id};
    }
    return Some(lanes);
  }

  function CapabilityId(substrate: string, region: Option<string>, proto: string, stack: string): string {
    substrate + "-" + region.GetOr("ZZ") + "-" + proto + "-" + stack
  }

  function CanonicalNames(defs: seq<Definition>, scenarios: seq<string>): (r: seq<string>)
    ensures |r| == |scenarios|
    ensures forall i | 0 <= i < |r| :: r[i] == Canonical(defs, scenarios[i])
  {
    seq(|scenarios|, i requires 0 <= i < |scenarios| => Canonical(defs, scenarios[i]))
  }

  function Public(defs: seq<Definition>, lane: Lane): Descriptor {
    Descriptor(lane.id, lane.instanceId, lane.nodeId, lane.composition, lane.transport, lane.profile,
               lane.region, lane.image, lane.digest, lane.origin, lane.substrate, lane.regionRaw,
               lane.proto, lane.stack, lane.generation,
               CapabilityId(lane.substrate, lane.region, lane.proto, lane.stack),
               CanonicalNames(defs, lane.scenarios))
  }

  /** The browser class is given the browser listener when the lane has one. */
  function Internal(defs: seq<Definition>, lane: Lane, workerClass: ExecutionClass): WorkerDescriptor {
    var proxy := if workerClass == Browser && lane.browserProxy.Some? then lane.browserProxy.value else lane.proxy;
    WorkerDescriptor(Public(defs, lane), proxy)
  }

  /** `Lane.__post_init__`: every declared name goes through the alias table; None is the ValueError. */
  function PostInit(defs: seq<Definition>, names: seq<string>): (r: Option<seq<string>>)
    ensures r.Some? ==> |r.value| == |names|
  {
    if names == [] then Some([])
    else
      var head :- Alias(defs, names[0]);
      var tail :- PostInit(defs, names[1..]);
      Some([head] + tail)
  }

  /** The worker's `Lane(**payload)` after `capability_id` was dropped from the payload. */
  function Rebuild(defs: seq<Definition>, job: WorkerDescriptor): Option<Lane> {
    var p := job.public;
    var scenarios :- PostInit(defs, p.scenarios);
    Some(Lane(p.id, job.proxy, p.instanceId, p.nodeId, p.composition, p.transport, p.profile, p.region,
              p.image, p.digest, p.origin, p.substrate, p.regionRaw, p.proto, p.stack, p.generation,
              None, scenarios))
  }

  lemma {:induction false} PostInitInvertsCanonical(defs: seq<Definition>, scenarios: seq<string>)
    requires WellFormed(defs) && forall s | s in scenarios :: Known(defs, s)
    ensures PostInit(defs, CanonicalNames(defs, scenarios)) == Some(scenarios)
  {
    if scenarios != [] {
      CanonicalNamesRoundTrip(defs, scenarios[0]);
      PostInitInvertsCanonical(defs, scenarios[1..]);
      assert CanonicalNames(defs, scenarios)[1..] == CanonicalNames(defs, scenarios[1..]);
      assert [scenarios[0]] + scenarios[1..] == scenarios;
    }
  }

  /**
   The descriptor survives the trip to any worker class: the rebuilt lane publishes what the
   observer publishes, differs from the observer's lane only in its listeners, and uses the
   listener the observer chose for the class.
   */
  lemma DescriptorRoundTrip(defs: seq<Definition>, lane: Lane, workerClass: ExecutionClass)
    requires WellFormed(defs) && Loaded(defs, lane)
    ensures var rebuilt := Rebuild(defs, Internal(defs, lane, workerClass));
            && rebuilt.Some?
            && Public(defs, rebuilt.value) == Public(defs, lane)
            && rebuilt.value == lane.(proxy := rebuilt.value.proxy, browserProxy := None)
            && rebuilt.value.proxy ==
               (if workerClass == Browser then lane.browserProxy.GetOr(lane.proxy) else lane.proxy)
  {
    PostInitInvertsCanonical(defs, lane.scenarios);
  }
}
