/**
 The YouTube unlock probe (youtube_unlock.py): the format evidence of a player response, the verdict
 composed from the two independent methods, and the attempt loop.
 */
module YouTube {
  import opened Wrappers
  import T = Text

  // ----- Format evidence.

  /**
   One element of `formats` or `adaptiveFormats`. No mime stands for a non-string one, no itag for a
   value that is not an int or is a bool; `direct` and `signed` are the URL tests on the entry itself
   and on its cipher.
   */
  datatype Descriptor =
    | NotADict
    | Entry(mime: Option<string>, itag: Option<int>, lengthPresent: bool, direct: bool, signed: bool)

  datatype FormatList = NoKey | NotAList | Items(items: seq<Descriptor>)

  /** `hls` and `dash` say whether the manifest URL is a direct one; `other` whether any other key is present. */
  datatype Streaming =
    | NotStreaming
    | Streaming(formats: FormatList, adaptive: FormatList, hls: bool, dash: bool, other: bool)

  datatype Reference = Reference(itag: int, mime: string, lengthPresent: bool)

  datatype Strength = NoEvidence | Malformed | DescriptorAdvertised | AdvertisedOnly | DirectUsable

  datatype Kind = FormatUrl | Manifest | CipheredFormat | FormatDescriptor

  datatype Counts = Counts(total: nat, valid: nat, malformed: nat, media: nat, direct: nat, cipher: nat, manifests: nat)

  datatype Evidence = Evidence(strength: Strength, kind: Option<Kind>, reference: Option<Reference>, counts: Counts)

  /** `mime.split(";", 1)[0].strip().casefold().startswith(("audio/", "video/"))` */
  predicate MediaType(mime: string) {
    var media := T.Lower(T.Strip(BeforeSemicolon(mime)));
    "audio/" <= media || "video/" <= media
  }

  function BeforeSemicolon(s: string): string {
    if s == "" || s[0] == ';' then "" else [s[0]] + BeforeSemicolon(s[1..])
  }

  predicate HasMedia(d: Descriptor) {
    d.Entry? && d.mime.Some? && MediaType(d.mime.value)
  }

  predicate IsValid(d: Descriptor) {
    HasMedia(d) && d.itag.Some? && d.itag.value > 0
  }

  predicate IsMalformed(d: Descriptor) {
    match d
    case NotADict => true
    case Entry(mime, itag, _, _, _) => mime.None? || !MediaType(mime.value) || itag.None? || itag.value <= 0
  }

  predicate IsDirect(d: Descriptor) {
    IsValid(d) && d.direct
  }

  predicate IsCipherOnly(d: Descriptor) {
    IsValid(d) && !d.direct && d.signed
  }

  function RefOf(d: Descriptor): Reference
    requires IsValid(d)
  {
    Reference(d.itag.value, if |d.mime.value| <= 300 then d.mime.value else d.mime.value[..300], d.lengthPresent)
  }

  function Count(items: seq<Descriptor>, p: Descriptor -> bool): nat {
    if items == [] then 0
    else
      var n := |items| - 1;
      Count(items[..n], p) + if p(items[n]) then 1 else 0
  }

  /** The references of the valid items that satisfy p, in order. */
  function Refs(items: seq<Descriptor>, p: Descriptor -> bool): seq<Reference> {
    if items == [] then []
    else
      var n := |items| - 1;
      Refs(items[..n], p) + (if p(items[n]) && IsValid(items[n]) then [RefOf(items[n])] else [])
  }

  function ListItems(f: FormatList): seq<Descriptor> {
    match f
    case Items(items) => items
    case _ => []
  }

  function AllItems(s: Streaming): seq<Descriptor> {
    match s
    case NotStreaming => []
    case Streaming(formats, adaptive, _, _, _) => ListItems(formats) + ListItems(adaptive)
  }

  predicate Broken(s: Streaming) {
    s.Streaming? && (s.formats.NotAList? || s.adaptive.NotAList?)
  }

  function ManifestCount(s: Streaming): nat {
    if s.NotStreaming? then 0 else (if s.hls then 1 else 0) + (if s.dash then 1 else 0)
  }

  /** The dictionary has some key. */
  predicate NonEmpty(s: Streaming) {
    s.Streaming? && (!s.formats.NoKey? || !s.adaptive.NoKey? || s.hls || s.dash || s.other)
  }

  predicate HasSome(items: seq<Descriptor>, p: Descriptor -> bool) {
    exists d | d in items :: p(d)
  }

  /** The strength as a property of the set of items: no order, no counting. */
  function StrengthOf(s: Streaming): Strength {
    var items := AllItems(s);
    if HasSome(items, IsDirect) || ManifestCount(s) > 0 then DirectUsable
    else if HasSome(items, IsCipherOnly) then AdvertisedOnly
    else if HasSome(items, IsValid) then DescriptorAdvertised
    else if NonEmpty(s) then Malformed
    else NoEvidence
  }

  function CountsOf(s: Streaming): Counts {
    var items := AllItems(s);
    Counts(|items|, Count(items, IsValid), Count(items, IsMalformed) + (if Broken(s) then 1 else 0), Count(items,
        HasMedia),
           Count(items, IsDirect), Count(items, IsCipherOnly), ManifestCount(s))
  }

  function First(refs: seq<Reference>): Option<Reference> {
    if refs == [] then None else Some(refs[0])
  }

  lemma {:induction false} RefsCount(items: seq<Descriptor>, p: Descriptor -> bool)
    requires forall d :: p(d) ==> IsValid(d)
    ensures |Refs(items, p)| == Count(items, p)
    ensures Refs(items, p) != [] <==> HasSome(items, p)
  {
    if items != [] {
      var n := |items| - 1;
      RefsCount(items[..n], p);
      assert forall d :: d in items <==> d in items[..n] || d == items[n];
    }
  }

  lemma Extend(items: seq<Descriptor>, j: nat, p: Descriptor -> bool)
    requires j < |items|
    ensures Count(items[..j + 1], p) == Count(items[..j], p) + if p(items[j]) then 1 else 0
    ensures Refs(items[..j + 1], p) == Refs(items[..j], p) + (if p(items[j])
        && IsValid(items[j]) then [RefOf(items[j])] else [])
  {
    assert items[..j + 1][..j] == items[..j];
  }

  /** The lists and counters of the loop. */
  datatype Tally = Tally(media: nat, malformed: nat, valid: seq<Reference>, direct: seq<Reference>,
      cipher: seq<Reference>)

  function TallyOf(items: seq<Descriptor>): Tally {
    Tally(Count(items, HasMedia), Count(items, IsMalformed), Refs(items, IsValid), Refs(items, IsDirect), Refs(items,
        IsCipherOnly))
  }

  /** One turn of the loop over the formats. */
  method Classify(item: Descriptor, before: Tally) returns (t: Tally)
    ensures t == Tally(before.media + (if HasMedia(item) then 1 else 0),
        before.malformed + (if IsMalformed(item) then 1 else 0),
                       before.valid + (if IsValid(item) then [RefOf(item)] else []),
                       before.direct + (if IsDirect(item) then [RefOf(item)] else []),
                       before.cipher + (if IsCipherOnly(item) then [RefOf(item)] else []))
  {
    t := before;
    if item.NotADict? || item.mime.None? || !MediaType(item.mime.value) {
      return t.(malformed := t.malformed + 1);
    }
    t := t.(media := t.media + 1);
    if item.itag.None? || item.itag.value <= 0 {
      return t.(malformed := t.malformed + 1);
    }
    var reference := RefOf(item);
    t := t.(valid := t.valid + [reference]);
    if item.direct {
      return t.(direct := t.direct + [reference]);
    }
    if item.signed {
      t := t.(cipher := t.cipher + [reference]);
    }
  }

  lemma TallyNext(items: seq<Descriptor>, j: nat)
    requires j < |items|
    ensures var a, b, item := TallyOf(items[..j]), TallyOf(items[..j + 1]), items[j];
            b == Tally(a.media + (if HasMedia(item) then 1 else 0), a.malformed + (if IsMalformed(item) then 1 else 0),
                       a.valid + (if IsValid(item) then [RefOf(item)] else []),
                       a.direct + (if IsDirect(item) then [RefOf(item)] else []),
                       a.cipher + (if IsCipherOnly(item) then [RefOf(item)] else []))
  {
    hide Count, Refs;
    Extend(items, j, HasMedia);
    Extend(items, j, IsMalformed);
    Extend(items, j, IsValid);
    Extend(items, j, IsDirect);
    Extend(items, j, IsCipherOnly);
  }

  method ClassifyAll(items: seq<Descriptor>) returns (t: Tally)
    ensures t == TallyOf(items)
  {
    t := Tally(0, 0, [], [], []);
    hide Count, Refs, HasMedia, IsMalformed, IsValid, IsDirect, IsCipherOnly, RefOf;
    for j := 0 to |items|
      invariant t == TallyOf(items[..j])
    {
      TallyNext(items, j);
      t := Classify(items[j], t);
    }
    assert items[..|items|] == items;
  }

  /** `select_player_format_evidence` */
  method SelectEvidence(s: Streaming) returns (e: Evidence)
    ensures e.strength == StrengthOf(s) && e.counts == CountsOf(s)
    ensures e.kind == match StrengthOf(s)
                      case DirectUsable => Some(if HasSome(AllItems(s), IsDirect) then FormatUrl else Manifest)
                      case AdvertisedOnly => Some(CipheredFormat)
                      case DescriptorAdvertised => Some(FormatDescriptor)
                      case _ => None
    ensures e.reference == match e.kind
                           case Some(FormatUrl) => First(Refs(AllItems(s), IsDirect))
                           case Some(CipheredFormat) => First(Refs(AllItems(s), IsCipherOnly))
                           case Some(FormatDescriptor) => First(Refs(AllItems(s), IsValid))
                           case _ => None
  {
    if s.NotStreaming? {
      return Evidence(NoEvidence, None, None, Counts(0, 0, 0, 0, 0, 0, 0));
    }
    var items := ListItems(s.formats) + ListItems(s.adaptive);
    var t := ClassifyAll(items);
    RefsCount(items, IsValid);
    RefsCount(items, IsDirect);
    RefsCount(items, IsCipherOnly);
    hide Count, Refs;
    var manifests := (if s.hls then 1 else 0) + (if s.dash then 1 else 0);
    var counts := Counts(|items|, |t.valid|, t.malformed + (if Broken(s) then 1 else 0), t.media, |t.direct|,
        |t.cipher|, manifests);
    if t.direct != [] {
      return Evidence(DirectUsable, Some(FormatUrl), Some(t.direct[0]), counts);
    }
    if manifests > 0 {
      return Evidence(DirectUsable, Some(Manifest), None, counts);
    }
    if t.cipher != [] {
      return Evidence(AdvertisedOnly, Some(CipheredFormat), Some(t.cipher[0]), counts);
    }
    if t.valid != [] {
      return Evidence(DescriptorAdvertised, Some(FormatDescriptor), Some(t.valid[0]), counts);
    }
    e := Evidence(if NonEmpty(s) then Malformed else NoEvidence, None, None, counts);
  }

  lemma {:induction false} EveryItemIsJudged(items: seq<Descriptor>)
    ensures Count(items, IsValid) + Count(items, IsMalformed) == |items|
    ensures Count(items, IsDirect) + Count(items, IsCipherOnly) <= Count(items, IsValid) <= Count(items, HasMedia)
  {
    if items != [] {
      EveryItemIsJudged(items[..|items| - 1]);
    }
  }

  /** Valid and malformed descriptors add up to all of them, plus one for a malformed structure. */
  lemma CountsAddUp(s: Streaming)
    ensures var c := CountsOf(s);
            && c.valid + c.malformed == c.total + (if Broken(s) then 1 else 0)
            && c.direct + c.cipher <= c.valid <= c.media <= c.total
  {
    EveryItemIsJudged(AllItems(s));
    MediaWithinTotal(AllItems(s));
  }

  lemma {:induction false} MediaWithinTotal(items: seq<Descriptor>)
    ensures Count(items, HasMedia) <= |items|
  {
    if items != [] {
      MediaWithinTotal(items[..|items| - 1]);
    }
  }

  /** Direct and cipher-only entries are disjoint parts of the valid ones. */
  lemma {:induction false} DirectAndCipherAreDisjoint(items: seq<Descriptor>)
    ensures multiset(Refs(items, IsDirect)) + multiset(Refs(items, IsCipherOnly)) <= multiset(Refs(items, IsValid))
  {
    if items != [] {
      DirectAndCipherAreDisjoint(items[..|items| - 1]);
    }
  }

  lemma {:induction false} CountSplit(a: seq<Descriptor>, b: seq<Descriptor>, p: Descriptor -> bool)
    ensures Count(a + b, p) == Count(a, p) + Count(b, p)
  {
    if b == [] {
      assert a + b == a;
    } else {
      var n := |b| - 1;
      CountSplit(a, b[..n], p);
      assert (a + b)[..|a| + n] == a + b[..n];
    }
  }

  function Without(items: seq<Descriptor>, k: nat): seq<Descriptor>
    requires k < |items|
  {
    items[..k] + items[k + 1..]
  }

  lemma CountWithout(items: seq<Descriptor>, k: nat, p: Descriptor -> bool)
    requires k < |items|
    ensures Count(items, p) == Count(Without(items, k), p) + if p(items[k]) then 1 else 0
  {
    hide Count, Refs;
    Extend(items, k, p);
    assert items == items[..k + 1] + items[k + 1..];
    CountSplit(items[..k + 1], items[k + 1..], p);
    CountSplit(items[..k], items[k + 1..], p);
  }

  lemma WithoutOne(items: seq<Descriptor>, k: nat)
    requires k < |items|
    ensures multiset(items) == multiset(Without(items, k)) + multiset{items[k]}
  {
    assert items == items[..k] + [items[k]] + items[k + 1..];
  }

  lemma {:induction false} CountOfShuffle(a: seq<Descriptor>, b: seq<Descriptor>, p: Descriptor -> bool)
    requires multiset(a) == multiset(b)
    ensures Count(a, p) == Count(b, p)
  {
    if a == [] {
      assert |b| == |multiset(b)| == 0;
    } else {
      hide Count, Without;
      var n := |a| - 1;
      assert a[n] in multiset(b);
      var k :| 0 <= k < |b| && b[k] == a[n];
      WithoutOne(a, n);
      WithoutOne(b, k);
      assert multiset(Without(a, n)) == multiset(a) - multiset{a[n]};
      assert multiset(Without(b, k)) == multiset(b) - multiset{b[k]};
      Shorter(a, n);
      CountOfShuffle(Without(a, n), Without(b, k), p);
      CountWithout(a, n, p);
      CountWithout(b, k, p);
    }
  }

  lemma Shorter(items: seq<Descriptor>, k: nat)
    requires k < |items|
    ensures |Without(items, k)| == |items| - 1
  {
  }

  /** Neither the strength nor any count depends on the order in which the descriptors are listed. */
  lemma OrderDoesNotMatter(s: Streaming, t: Streaming)
    requires multiset(AllItems(s)) == multiset(AllItems(t))
    requires Broken(s) == Broken(t) && ManifestCount(s) == ManifestCount(t) && NonEmpty(s) == NonEmpty(t)
    ensures StrengthOf(s) == StrengthOf(t) && CountsOf(s) == CountsOf(t)
  {
    hide Count, AllItems, Broken, ManifestCount, NonEmpty, HasSome;
    var a, b := AllItems(s), AllItems(t);
    SameMembers(a, b);
    CountOfShuffle(a, b, IsValid);
    CountOfShuffle(a, b, IsMalformed);
    CountOfShuffle(a, b, HasMedia);
    CountOfShuffle(a, b, IsDirect);
    CountOfShuffle(a, b, IsCipherOnly);
  }

  lemma SameMembers(a: seq<Descriptor>, b: seq<Descriptor>)
    requires multiset(a) == multiset(b)
    ensures |a| == |b| && forall p :: HasSome(a, p) == HasSome(b, p)
  {
    assert |a| == |multiset(a)| && |b| == |multiset(b)|;
    assert forall d :: d in a <==> d in multiset(a);
    assert forall d :: d in b <==> d in multiset(b);
  }

  // ----- The player response and the two methods.

  datatype Outcome =
    | Pass | BotChallenge | ConsentChallenge | AuthenticationRequired | RateLimited | ServiceUnavailable
    | NetworkFailure | ToolingFailure | ExtractorFailure | UnexpectedContent

  predicate ServiceFailure(o: Outcome) {
    o == BotChallenge || o == ConsentChallenge || o == AuthenticationRequired || o == RateLimited
        || o == ServiceUnavailable
  }

  /** What `classify_failure` can answer. */
  predicate Classification(o: Outcome) {
    o != Pass && o != UnexpectedContent
  }

  const FIXED_VIDEO_ID := "YE7VzlLtp-4"

  /** `reason` is the classification of the playability reason and messages; no status stands for a missing block. */
  datatype Player = Player(status: Option<string>, reason: Outcome, videoId: Option<string>, title: Option<string>,
      streaming: Streaming)

  datatype Independent = Independent(outcome: Outcome, evidence: Option<Evidence>)

  predicate Usable(s: Strength) {
    s != NoEvidence && s != Malformed
  }

  /** Everything the independent method demands of a player response. */
  predicate Playable(p: Player) {
    && p.status == Some("OK") && p.videoId == Some(FIXED_VIDEO_ID)
    && p.title.Some? && !T.Blank(p.title.value) && Usable(StrengthOf(p.streaming))
  }

  /** `validate_player_response` */
  method ValidatePlayer(p: Player) returns (r: Independent)
    requires Classification(p.reason)
    ensures r.outcome == Pass <==> Playable(p)
    ensures r.evidence.Some? ==> r.evidence.value.strength == StrengthOf(p.streaming)
    ensures r.outcome == Pass ==> r.evidence.Some?
    ensures ServiceFailure(r.outcome) <==> p.status.Some? && p.status.value != "OK" && ServiceFailure(p.reason)
    ensures ServiceFailure(r.outcome) ==> r.outcome == p.reason
    ensures r.outcome == Pass || r.outcome == UnexpectedContent || ServiceFailure(r.outcome)
  {
    if p.status.None? {
      return Independent(UnexpectedContent, None);
    }
    if p.status.value != "OK" {
      return Independent(if ServiceFailure(p.reason) then p.reason else UnexpectedContent, None);
    }
    if p.videoId != Some(FIXED_VIDEO_ID) {
      return Independent(UnexpectedContent, None);
    }
    if p.title.None? || T.Blank(p.title.value) {
      return Independent(UnexpectedContent, None);
    }
    var e := SelectEvidence(p.streaming);
    r := Independent(if e.strength == NoEvidence || e.strength == Malformed then UnexpectedContent else Pass, Some(e));
  }

  /** A watch page: no reply, a reply without a readable player (with its classification), or a player response. */
  datatype Page = Unreachable | NoPlayer(classified: Outcome) | Watched(player: Player)

  predicate Readable(page: Page) {
    match page
    case Unreachable => true
    case NoPlayer(classified) => Classification(classified)
    case Watched(player) => Classification(player.reason)
  }

  /** `check_watch_player` */
  method CheckWatchPlayer(page: Page) returns (r: Independent)
    requires Readable(page)
    ensures r.outcome == Pass <==> page.Watched? && Playable(page.player)
    ensures r.evidence.Some? ==> page.Watched? && r.evidence.value.strength == StrengthOf(page.player.streaming)
    ensures r.outcome == Pass ==> r.evidence.Some?
    ensures r.outcome == NetworkFailure <==> page.Unreachable?
  {
    match page
    case Unreachable => r := Independent(NetworkFailure, None);
    case NoPlayer(classified) =>
      r := Independent(if ServiceFailure(classified) then classified else UnexpectedContent, None);
    case Watched(player) => r := ValidatePlayer(player);
  }

  /** One yt-dlp call: it raised, or it extracted metadata that does or does not validate. */
  datatype Extraction = DownloadFailed(classified: Outcome) | Extracted(valid: bool)

  function ExtractorOutcome(ready: bool, x: Extraction): Outcome {
    if !ready then ToolingFailure
    else match x
         case DownloadFailed(classified) => classified
         case Extracted(valid) => if valid then Pass else UnexpectedContent
  }

  // ----- The verdict.

  datatype Verdict =
    | Is(outcome: Outcome) | PassWithToolingCaveat | ProbeDependent | ToolingOrNetworkFailure | TunnelFailure
    | NoVerdict

  /** `compose_signals` */
  function Compose(independent: Outcome, extractor: Outcome, strength: Option<Strength>): Verdict {
    if independent == Pass then
      if strength == Some(DirectUsable) then (if extractor == Pass then Is(Pass) else PassWithToolingCaveat)
      else if strength == Some(AdvertisedOnly) || strength == Some(DescriptorAdvertised) then
        (if extractor == Pass then Is(Pass) else ProbeDependent)
      else ProbeDependent
    else if ServiceFailure(independent) && independent == extractor then Is(independent)
    else if extractor == Pass || ServiceFailure(independent) || ServiceFailure(extractor) then ProbeDependent
    else if independent == UnexpectedContent then Is(UnexpectedContent)
    else if independent == NetworkFailure || extractor == NetworkFailure then ToolingOrNetworkFailure
    else if extractor == ToolingFailure then Is(ToolingFailure)
    else Is(ExtractorFailure)
  }

  predicate Passing(v: Verdict) {
    v == Is(Pass) || v == PassWithToolingCaveat
  }

  predicate Denied(v: Verdict) {
    v.Is? && ServiceFailure(v.outcome)
  }

  /** A pass needs the independent method and something usable; without the extractor, directly usable. */
  lemma PassMeans(independent: Outcome, extractor: Outcome, strength: Option<Strength>)
    ensures Passing(Compose(independent, extractor, strength))
            <==> && independent == Pass && strength.Some? && Usable(strength.value)
                 && (extractor == Pass || strength.value == DirectUsable)
    ensures Compose(independent, extractor, strength) == Is(Pass)
            <==> Passing(Compose(independent, extractor, strength)) && extractor == Pass
  {
  }

  /** A denial needs both methods to report the same one. */
  lemma DenialMeans(independent: Outcome, extractor: Outcome, strength: Option<Strength>)
    ensures Denied(Compose(independent, extractor, strength))
            <==> ServiceFailure(independent) && extractor == independent
    ensures Denied(Compose(independent, extractor, strength)) ==>
              Compose(independent, extractor, strength) == Is(independent)
  {
  }

  datatype Attempt = Attempt(independent: Independent, extractor: Outcome)

  function VerdictOf(a: Attempt): Verdict {
    Compose(a.independent.outcome, a.extractor,
        if a.independent.evidence.Some? then Some(a.independent.evidence.value.strength) else None)
  }

  datatype Layer = ServiceProbe | Tooling | NoLayer | RouteRuntime | UnknownLayer

  function FailureLayer(v: Verdict): Layer {
    if Denied(v) then ServiceProbe
    else if v == Is(ToolingFailure) then Tooling
    else if Passing(v) then NoLayer
    else UnknownLayer
  }

  /** Failures that say nothing about the service. */
  predicate Technical(o: Outcome) {
    o == NetworkFailure || o == ToolingFailure || o == ExtractorFailure
  }

  /** Each verdict as a condition on what the two methods found. */
  lemma VerdictExactly(i: Outcome, x: Outcome, s: Option<Strength>)
    ensures var v := Compose(i, x, s);
            var advertised := s == Some(AdvertisedOnly) || s == Some(DescriptorAdvertised);
            && (v == Is(Pass) <==> i == Pass && x == Pass && (s == Some(DirectUsable) || advertised))
            && (v == PassWithToolingCaveat <==> i == Pass && x != Pass && s == Some(DirectUsable))
            && (forall f | ServiceFailure(f) :: v == Is(f) <==> i == f && x == f)
            && (v == Is(UnexpectedContent) <==> i == UnexpectedContent && (x == UnexpectedContent || Technical(x)))
            && (v == ToolingOrNetworkFailure <==>
                  && Technical(i) && (Technical(x) || x == UnexpectedContent)
                  && (i == NetworkFailure || x == NetworkFailure))
            && (v == Is(ToolingFailure) <==> (i == ToolingFailure || i == ExtractorFailure) && x == ToolingFailure)
            && (v == Is(ExtractorFailure) <==>
                  (i == ToolingFailure || i == ExtractorFailure) && (x == ExtractorFailure || x == UnexpectedContent))
            && (v == ProbeDependent <==>
                  if i == Pass then s != Some(DirectUsable) && !(advertised && x == Pass)
                  else x == Pass || (i != x && (ServiceFailure(i) || ServiceFailure(x))))
    ensures ServiceFailure(i) <==> i != Pass && i != UnexpectedContent && !Technical(i)
  {
  }

  /** The failure layer: the service only on a denial, none only on a pass, the tools only when they failed. */
  lemma LayerExactly(i: Outcome, x: Outcome, s: Option<Strength>)
    ensures var layer := FailureLayer(Compose(i, x, s));
            && (layer == ServiceProbe <==> i == x && i != Pass && i != UnexpectedContent && !Technical(i))
            && (layer == NoLayer <==>
                  && i == Pass
                  && (s == Some(DirectUsable)
                      || (x == Pass && (s == Some(AdvertisedOnly) || s == Some(DescriptorAdvertised)))))
            && (layer == Tooling <==> (i == ToolingFailure || i == ExtractorFailure) && x == ToolingFailure)
            && layer != RouteRuntime
  {
    VerdictExactly(i, x, s);
  }

  datatype Summary = Summary(verdict: Verdict, layer: Layer, attempts: seq<Attempt>)

  /** The attempt leaves room for another one: nothing decided, and the network failed for some method. */
  predicate Retryable(a: Attempt) {
    && !Passing(VerdictOf(a)) && !Denied(VerdictOf(a))
    && (a.independent.outcome == NetworkFailure || a.extractor == NetworkFailure)
  }

  /** What attempt number i saw. */
  predicate Saw(a: Attempt, page: Page, ready: bool, x: Extraction) {
    && a.extractor == ExtractorOutcome(ready, x)
    && (a.independent.outcome == Pass <==> page.Watched? && Playable(page.player))
    && (a.independent.outcome == NetworkFailure <==> page.Unreachable?)
    && (a.independent.evidence.Some? ==>
          page.Watched? && a.independent.evidence.value.strength == StrengthOf(page.player.streaming))
    && (a.independent.outcome == Pass ==> a.independent.evidence.Some?)
  }

  /** `_run_probe`; `warpOff` says why the tunnel check failed, and the exit code is 0 or 2. */
  method RunProbe(tunnelOk: bool, warpOff: bool, ready: bool, limit: nat, pages: nat -> Page, calls: nat -> Extraction)
    returns (summary: Summary, code: nat)
    requires forall i :: Readable(pages(i))
    ensures !tunnelOk ==> summary == Summary(TunnelFailure, if warpOff then RouteRuntime else UnknownLayer, [])
    ensures |summary.attempts| <= limit
    ensures forall i | 0 <= i < |summary.attempts| :: Saw(summary.attempts[i], pages(i), ready, calls(i))
    ensures forall i | 0 <= i < |summary.attempts| - 1 :: Retryable(summary.attempts[i])
    ensures tunnelOk ==> if summary.attempts == [] then limit == 0 && summary.verdict == NoVerdict
                         else var last := summary.attempts[|summary.attempts| - 1];
                              && summary.verdict == VerdictOf(last) && summary.layer == FailureLayer(summary.verdict)
                              && (|summary.attempts| < limit ==> !Retryable(last))
    ensures code == 0 <==> Passing(summary.verdict)
  {
    hide Saw, Retryable, VerdictOf, FailureLayer, Passing, Denied, Readable;
    summary, code := Summary(NoVerdict, UnknownLayer, []), 2;
    NothingPasses();
    if !tunnelOk {
      summary := summary.(verdict := TunnelFailure, layer := if warpOff then RouteRuntime else UnknownLayer);
      return;
    }
    var number := 0;
    var more := true;
    while number < limit && more
      invariant |summary.attempts| == number <= limit
      invariant forall i | 0 <= i < number :: Saw(summary.attempts[i], pages(i), ready, calls(i))
      invariant forall i | 0 <= i < number - 1 :: Retryable(summary.attempts[i])
      invariant if number == 0 then summary == Summary(NoVerdict, UnknownLayer, []) && more
                else Reported(summary, summary.attempts[number - 1], more)
      decreases limit - number
    {
      var a := RunAttempt(pages(number), ready, calls(number));
      summary := summary.(attempts := summary.attempts + [a], verdict := VerdictOf(a),
          layer := FailureLayer(VerdictOf(a)));
      number := number + 1;
      RetryableMeans(a);
      if Passing(summary.verdict) {
        code := 0;
        return;
      }
      more := !Denied(summary.verdict) && (a.independent.outcome == NetworkFailure || a.extractor == NetworkFailure);
    }
  }

  /** The summary speaks of its last attempt, and the loop goes on exactly when that one is retryable. */
  predicate Reported(s: Summary, last: Attempt, more: bool) {
    && s.verdict == VerdictOf(last) && s.layer == FailureLayer(s.verdict) && !Passing(s.verdict)
    && (more <==> Retryable(last))
  }

  lemma NothingPasses()
    ensures !Passing(NoVerdict) && !Passing(TunnelFailure)
  {
  }

  lemma RetryableMeans(a: Attempt)
    ensures Retryable(a) <==> && !Passing(VerdictOf(a)) && !Denied(VerdictOf(a))
                              && (a.independent.outcome == NetworkFailure || a.extractor == NetworkFailure)
  {
  }

  /** One turn of the attempt loop: both methods. */
  method RunAttempt(page: Page, ready: bool, x: Extraction) returns (a: Attempt)
    requires Readable(page)
    ensures Saw(a, page, ready, x)
  {
    var independent := CheckWatchPlayer(page);
    a := Attempt(independent, ExtractorOutcome(ready, x));
  }

  /**
   End to end: a passing verdict means that the last watch page held the fixed video, playable, with a
   valid descriptor or a direct manifest; and a denial means that both methods reported that very
   failure in the last attempt.
   */
  lemma VerdictsAreEarned(a: Attempt, page: Page, ready: bool, x: Extraction)
    requires Saw(a, page, ready, x)
    ensures Passing(VerdictOf(a)) ==>
              && page.Watched? && page.player.videoId == Some(FIXED_VIDEO_ID) && page.player.status == Some("OK")
              && (CountsOf(page.player.streaming).valid > 0 || ManifestCount(page.player.streaming) > 0)
    ensures VerdictOf(a) == PassWithToolingCaveat ==>
              CountsOf(page.player.streaming).direct > 0 || ManifestCount(page.player.streaming) > 0
    ensures Denied(VerdictOf(a)) ==>
              a.independent.outcome == VerdictOf(a).outcome == a.extractor && ready && x == DownloadFailed(a.extractor)
  {
    var strength := if a.independent.evidence.Some? then Some(a.independent.evidence.value.strength) else None;
    PassMeans(a.independent.outcome, a.extractor, strength);
    DenialMeans(a.independent.outcome, a.extractor, strength);
    if Passing(VerdictOf(a)) {
      var items := AllItems(page.player.streaming);
      RefsCount(items, IsValid);
      RefsCount(items, IsDirect);
      RefsCount(items, IsCipherOnly);
      CountsAddUp(page.player.streaming);
    }
  }

  /**
   Exactly when an attempt passes, and with it the probe: the watch page holds the fixed video, playable
   and titled, with a usable URL or manifest; or with a valid descriptor and a yt-dlp that extracts the
   video's metadata.
   */
  lemma PassesExactly(a: Attempt, page: Page, ready: bool, x: Extraction)
    requires Saw(a, page, ready, x) && (x.DownloadFailed? ==> Classification(x.classified))
    ensures Passing(VerdictOf(a)) <==>
              && page.Watched? && page.player.status == Some("OK") && page.player.videoId == Some("YE7VzlLtp-4")
              && page.player.title.Some? && !T.Blank(page.player.title.value)
              && var counts := CountsOf(page.player.streaming);
                 || counts.direct > 0 || counts.manifests > 0
                 || (counts.valid > 0 && ready && x == Extracted(true))
  {
    var strength := if a.independent.evidence.Some? then Some(a.independent.evidence.value.strength) else None;
    PassMeans(a.independent.outcome, a.extractor, strength);
    if page.Watched? {
      var items := AllItems(page.player.streaming);
      RefsCount(items, IsValid);
      RefsCount(items, IsDirect);
      RefsCount(items, IsCipherOnly);
      CountsAddUp(page.player.streaming);
    }
  }
}
