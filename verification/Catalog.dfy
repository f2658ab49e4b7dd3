/** The scenario catalogue (contracts/scenarios-v1.json) and the names a lane may use for its entries. */
module Catalog {
  import opened Wrappers

  datatype ExecutionClass = Light | Perf | Browser

  datatype Definition = Definition(id: string, scenarioId: string, kind: ExecutionClass, gate: bool)

  const CATALOG: seq<Definition> := [
    Definition("youtube", "youtube.anonymous_public_video", Light, true),
    Definition("youtube-unlock", "youtube.anonymous_public_video_unlock", Light, true),
    Definition("gemini", "gemini.anonymous_entry", Browser, true),
    Definition("chatgpt", "chatgpt.anonymous_entry", Browser, true),
    Definition("google-search", "google-search.anonymous_search_results", Browser, true),
    Definition("reddit", "reddit.anonymous_public_listing", Browser, true),
    Definition("turnstile-reference", "turnstile-reference.interactive_test_widget_render", Browser, true),
    Definition("perf", "perf.throughput_sample", Perf, false)
  ]

  /** `scenario_definitions().get(id)` */
  function ById(defs: seq<Definition>, id: string): Option<Definition> {
    if defs == [] then None
    else if defs[0].id == id then Some(defs[0])
    else ById(defs[1..], id)
  }

  /** The first definition carrying a canonical scenario id. */
  function ByScenarioId(defs: seq<Definition>, scenarioId: string): Option<Definition> {
    if defs == [] then None
    else if defs[0].scenarioId == scenarioId then Some(defs[0])
    else ByScenarioId(defs[1..], scenarioId)
  }

  /** SCENARIO_ALIASES[value]: canonical ids are written last, so they win over short ids. */
  function Alias(defs: seq<Definition>, value: string): Option<string> {
    match ByScenarioId(defs, value)
    case Some(d) => Some(d.id)
    case None =>
      match ById(defs, value)
      case Some(d) => Some(d.id)
      case None => None
  }

  /** SCENARIOS[id] for an id of the catalogue. */
  function Canonical(defs: seq<Definition>, id: string): string {
    match ById(defs, id)
    case Some(d) => d.scenarioId
    case None => id
  }

  predicate Known(defs: seq<Definition>, id: string) {
    ById(defs, id).Some?
  }

  /** Short ids name one definition each, and so do canonical ids. */
  predicate WellFormed(defs: seq<Definition>) {
    && (forall i, j | 0 <= i < j < |defs| :: defs[i].id != defs[j].id)
    && (forall i, j | 0 <= i < j < |defs| :: defs[i].scenarioId != defs[j].scenarioId)
  }

  lemma {:induction false} ByIdFinds(defs: seq<Definition>, id: string)
    ensures match ById(defs, id)
            case Some(d) => d in defs && d.id == id
            case None => forall d | d in defs :: d.id != id
  {
    if defs != [] && defs[0].id != id {
      ByIdFinds(defs[1..], id);
    }
  }

  lemma {:induction false} ByScenarioIdFinds(defs: seq<Definition>, scenarioId: string)
    ensures match ByScenarioId(defs, scenarioId)
            case Some(d) => d in defs && d.scenarioId == scenarioId
            case None => forall d | d in defs :: d.scenarioId != scenarioId
  {
    if defs != [] && defs[0].scenarioId != scenarioId {
      ByScenarioIdFinds(defs[1..], scenarioId);
    }
  }

  /** A canonical name leads back to the scenario it was taken from, and to that definition. */
  lemma CanonicalNamesRoundTrip(defs: seq<Definition>, id: string)
    requires WellFormed(defs) && Known(defs, id)
    ensures Alias(defs, Canonical(defs, id)) == Some(id)
    ensures ByScenarioId(defs, Canonical(defs, id)) == ById(defs, id)
  {
    ByIdFinds(defs, id);
    ByScenarioIdFinds(defs, Canonical(defs, id));
    var d := ById(defs, id).value;
    var e := ByScenarioId(defs, d.scenarioId).value;
    var i :| 0 <= i < |defs| && defs[i] == d;
    var j :| 0 <= j < |defs| && defs[j] == e;
    assert i == j;
  }

  /** The shipped catalogue has one definition per name. */
  lemma CatalogWellFormed()
    ensures WellFormed(CATALOG)
  {
    forall i, j | 0 <= i < j < |CATALOG|
      ensures CATALOG[i].id != CATALOG[j].id && CATALOG[i].scenarioId != CATALOG[j].scenarioId
    {
      var a, b := CATALOG[i], CATALOG[j];
      assert |a.id| != |b.id| || a.id[0] != b.id[0];
      assert |a.scenarioId| != |b.scenarioId| || a.scenarioId[0] != b.scenarioId[0];
    }
  }
}
