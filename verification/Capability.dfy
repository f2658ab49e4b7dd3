/**
 Capability ids: `substrate-REGION-proto-stack`, where the substrate itself may contain dashes.
 The schema pattern is stated as a grammar; a decoder that reads the id from its right end shows
 that the grammar is unambiguous.
 */
module Capability {
  import opened Wrappers
  import opened Lanes
  import opened Catalog
  import T = Text

  datatype Parts = Parts(substrate: string, region: string, proto: string, stack: string)

  /** `^[a-z0-9][a-z0-9-]{0,31}-(?:[A-Z]{2})-(?:warp|masque)-(?:v4|v6)$`, read off group by group. */
  predicate Matches(id: string, p: Parts) {
    && T.Component(p.substrate)
    && T.RegionCode(p.region)
    && (p.proto == "warp" || p.proto == "masque")
    && (p.stack == "v4" || p.stack == "v6")
    && id == p.substrate + "-" + p.region + "-" + p.proto + "-" + p.stack
  }

  /** Reads an id from the right: two characters of stack, then the protocol told apart by its last letter. */
  function Decode(id: string): Option<Parts> {
    var n := |id|;
    if n < 12 then None
    else
      var proto := if id[n - 4] == 'p' then "warp" else "masque";
      var m := n - 3 - |proto| - 1;
      if m < 4 then None
      else Some(Parts(id[..m - 3], id[m - 2..m], proto, id[n - 2..]))
  }

  lemma DecodeInverts(id: string, p: Parts)
    requires Matches(id, p)
    ensures Decode(id) == Some(p)
  {
    var n := |id|;
    var head := p.substrate + "-" + p.region;
    assert id == head + ("-" + p.proto + "-" + p.stack);
    assert id[n - 2..] == p.stack;
    assert id[n - 4] == p.proto[|p.proto| - 1];
    assert "warp"[3] == 'p' && "masque"[5] == 'e';
    var m := |head|;
    assert id[..m] == head;
    assert id[m - 2..m] == head[m - 2..] == p.region;
    assert id[..m - 3] == head[..m - 3] == p.substrate;
  }

  /** Whether the schema pattern matches at all, decided by the one reading there can be. */
  predicate FitsPattern(id: string) {
    Decode(id).Some? && Matches(id, Decode(id).value)
  }

  lemma FitsPatternDecides(id: string)
    ensures FitsPattern(id) <==> exists p :: Matches(id, p)
  {
    forall p | Matches(id, p)
      ensures FitsPattern(id)
    {
      DecodeInverts(id, p);
    }
  }

  /** The schema pattern reads an id in at most one way. */
  lemma PatternIsUnambiguous(id: string, p: Parts, q: Parts)
    requires Matches(id, p) && Matches(id, q)
    ensures p == q
  {
    DecodeInverts(id, p);
    DecodeInverts(id, q);
  }

  function PartsOf(lane: Lane): Parts {
    Parts(lane.substrate, lane.region.GetOr("ZZ"), lane.proto, lane.stack)
  }

  /** Every loaded lane publishes an id of the schema's pattern, and the id decodes to the lane's own parts. */
  lemma LoadedLaneMatchesPattern(defs: seq<Definition>, lane: Lane)
    requires Loaded(defs, lane)
    ensures Matches(Public(defs, lane).capability, PartsOf(lane))
    ensures Decode(Public(defs, lane).capability) == Some(PartsOf(lane))
  {
    assert T.RegionCode("ZZ");
    DecodeInverts(Public(defs, lane).capability, PartsOf(lane));
  }

  /** Absent and literal `ZZ` share a spelling; nothing else does. */
  predicate SameRegionSpelling(a: Option<string>, b: Option<string>) {
    a == b || (a.None? && b == Some("ZZ")) || (a == Some("ZZ") && b.None?)
  }

  /** Two loaded lanes share a capability id exactly when they agree on every part, up to the `ZZ` collision. */
  lemma CapabilityIdsDecodeUniquely(defs: seq<Definition>, a: Lane, b: Lane)
    requires Loaded(defs, a) && Loaded(defs, b)
    ensures Public(defs, a).capability == Public(defs, b).capability
            <==> a.substrate == b.substrate && a.proto == b.proto && a.stack == b.stack
                 && SameRegionSpelling(a.region, b.region)
  {
    LoadedLaneMatchesPattern(defs, a);
    LoadedLaneMatchesPattern(defs, b);
  }
}
