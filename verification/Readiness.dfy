/**
 The release-readiness gate of the support bundle (lib.rs): the newest artifact
 of each of eight kinds, the gaps found in two passes, and the verdict.
*/
module Readiness {
  import opened Wrappers
  import opened Utf8
  import opened Sequences
  import opened Ascii
  import opened Json
  import opened JsonLookup
  import opened IndexLog
  import opened Bundles

  // ---- artifacts ----

  datatype Artifact =
    | ProviderReadinessEvidence
    | CodexLiveAcceptance
    | ClaudeLiveAcceptance
    | PromotionChecklist
    | SignedPromotionDecision
    | ThreeOsSmoke
    | Publication
    | EvaluatorDecision

  /** In the order of the gap list. */
  const ARTIFACTS: seq<Artifact> := [
    ProviderReadinessEvidence, CodexLiveAcceptance, ClaudeLiveAcceptance, PromotionChecklist,
    SignedPromotionDecision, ThreeOsSmoke, Publication, EvaluatorDecision]

  function Id(a: Artifact): string {
    match a
    case ProviderReadinessEvidence => "provider_readiness"
    case CodexLiveAcceptance => "codex_live_acceptance"
    case ClaudeLiveAcceptance => "claude_live_acceptance"
    case PromotionChecklist => "phase1_promotion_checklist"
    case SignedPromotionDecision => "signed_phase1_promotion_decision"
    case ThreeOsSmoke => "three_os_release_smoke"
    case Publication => "release_publication"
    case EvaluatorDecision => "release_evaluator_decision"
  }

  /** Whether an index entry is such an artifact. */
  predicate Serves(a: Artifact, e: IndexEntry) {
    match a
    case ProviderReadinessEvidence => e.schema == "factory-v3/hermes-provider-phase1-readiness/v1"
    case CodexLiveAcceptance => e.schema == "ao2.codex-provider-pilot-acceptance.v1" || e.provider == Some("codex")
    case ClaudeLiveAcceptance => e.schema == "ao2.claude-provider-pilot-acceptance.v1" || e.provider == Some("claude")
    case PromotionChecklist => e.schema == "factory-v3/ao2-phase1-promotion-checklist/v1"
    case SignedPromotionDecision => e.schema == "factory-v3/ao2-phase1-promotion-decision/v1"
    case ThreeOsSmoke => e.schema == "ao2-control-plane.three-os-release-smoke.v1"
    case Publication => e.schema == "ao2.release-publication-summary.v1"
    case EvaluatorDecision => e.schema == "factory-v3/ao2-release-evaluator-decision/v1"
  }

  /** PHASE1_RELEASE_FRESHNESS_SECONDS */
  const FRESHNESS_SECONDS: int := 24 * 60 * 60

  const NANOS: int := 1_000_000_000

  function Window(a: Artifact): Option<int> {
    if a.PromotionChecklist? || a.SignedPromotionDecision? then None else Some(FRESHNESS_SECONDS)
  }

  /** Whole seconds since, and 0 for an instant in the future. Instants are in nanoseconds. */
  function AgeSeconds(now: int, at: int): int {
    if now <= at then 0 else (now - at) / NANOS
  }

  predicate IsStale(a: Artifact, now: int, at: int) {
    Window(a).Some? && AgeSeconds(now, at) > Window(a).value
  }

  /** artifact_status_is_blocking */
  predicate BlockingStatus(status: Option<string>) {
    status.Some? &&
    var t := ToLower(Trim(status.value));
    Contains(t, "fail") || Contains(t, "error") || Contains(t, "reject") || Contains(t, "block")
  }

  /** The newest entry that serves, and of equally new ones the last in the index. */
  ghost predicate IsNewest(entries: seq<IndexEntry>, a: Artifact, i: nat) {
    && i < |entries| && Serves(a, entries[i])
    && forall j :: 0 <= j < |entries| && Serves(a, entries[j]) ==>
         entries[j].ingestedAt <= entries[i].ingestedAt && (j > i ==> entries[j].ingestedAt < entries[i].ingestedAt)
  }

  lemma NewestIsUnique(entries: seq<IndexEntry>, a: Artifact, i: nat, j: nat)
    requires IsNewest(entries, a, i) && IsNewest(entries, a, j)
    ensures i == j
  {
  }

  // ---- the same, in the fields of the entries ----

  /** The artifacts that go stale. */
  predicate GoesStale(a: Artifact) { !a.PromotionChecklist? && !a.SignedPromotionDecision? }

  /** Stale is older than a day in whole seconds; the checklist and the signed decision never are. */
  lemma StaleIff(a: Artifact, now: int, at: int)
    ensures IsStale(a, now, at) <==> GoesStale(a) && now - at >= 86_401 * 1_000_000_000
  {
  }

  /** The status holds the word there, in letters of either case. */
  predicate MentionAt(s: string, word: string, i: nat) {
    i + |word| <= |s| && forall k :: 0 <= k < |word| ==> SameLetter(s[i + k], word[k])
  }

  ghost predicate Mentions(s: string, word: string) { exists i: nat :: MentionAt(s, word, i) }

  predicate IsWord(w: string) { w != "" && forall k :: 0 <= k < |w| ==> 'a' <= w[k] <= 'z' }

  lemma LetterIsNoSpace(a: char, b: char)
    requires SameLetter(a, b) && 'a' <= b <= 'z'
    ensures !IsSpace(a) && Lower(a) == b
  {
  }

  lemma LowerMention(u: string, w: string, i: nat)
    requires IsWord(w) && i + |w| <= |u|
    ensures w <= ToLower(u)[i..] <==> MentionAt(u, w, i)
  {
    var t := ToLower(u)[i..];
    if MentionAt(u, w, i) {
      forall k | 0 <= k < |w| ensures t[k] == w[k] {
        LetterIsNoSpace(u[i + k], w[k]);
      }
      assert w == t[..|w|];
    }
    if w <= t {
      forall k | 0 <= k < |w| ensures SameLetter(u[i + k], w[k]) {
        assert w[k] == t[k];
      }
    }
  }

  lemma MiddleAt(before: string, u: string, after: string, j: nat)
    requires j < |u|
    ensures (before + u + after)[|before| + j] == u[j]
  {
  }

  lemma MentionMoves(before: string, u: string, after: string, w: string, i: nat)
    requires i + |w| <= |u|
    ensures MentionAt(u, w, i) <==> MentionAt(before + u + after, w, |before| + i)
  {
    var s := before + u + after;
    if MentionAt(s, w, |before| + i) {
      forall k | 0 <= k < |w| ensures SameLetter(u[i + k], w[k]) {
        MiddleAt(before, u, after, i + k);
        assert SameLetter(s[(|before| + i) + k], w[k]);
      }
    }
    if MentionAt(u, w, i) {
      forall k | 0 <= k < |w| ensures SameLetter(s[(|before| + i) + k], w[k]) {
        MiddleAt(before, u, after, i + k);
      }
    }
  }

  lemma OutsideIsSpace(before: string, u: string, after: string, i: nat)
    requires IsBlank(before) && IsBlank(after) && i < |before + u + after|
    ensures i < |before| || i >= |before| + |u| ==> IsSpace((before + u + after)[i])
  {
  }

  lemma MentionInside(before: string, u: string, after: string, w: string, i: nat)
    requires IsBlank(before) && IsBlank(after) && IsWord(w) && MentionAt(before + u + after, w, i)
    ensures |before| <= i && i + |w| <= |before| + |u|
  {
    var s := before + u + after;
    LetterIsNoSpace(s[i + 0], w[0]);
    LetterIsNoSpace(s[i + (|w| - 1)], w[|w| - 1]);
    OutsideIsSpace(before, u, after, i);
    OutsideIsSpace(before, u, after, i + (|w| - 1));
  }

  /** White space around and case make no difference. */
  lemma ContainsIff(s: string, w: string)
    requires IsWord(w)
    ensures Contains(ToLower(Trim(s)), w) <==> Mentions(s, w)
  {
    var before, after := TrimSplit(s);
    var u := Trim(s);
    if Contains(ToLower(u), w) {
      var i :| 0 <= i <= |ToLower(u)| && w <= ToLower(u)[i..];
      LowerMention(u, w, i);
      MentionMoves(before, u, after, w, i);
    }
    if Mentions(s, w) {
      var i: nat :| MentionAt(s, w, i);
      MentionInside(before, u, after, w, i);
      MentionMoves(before, u, after, w, i - |before|);
      LowerMention(u, w, i - |before|);
    }
  }

  /** A status blocks if it mentions one of four words, whatever its case and the white space around it. */
  lemma BlockingIff(s: string)
    ensures BlockingStatus(Some(s)) <==>
            Mentions(s, "fail") || Mentions(s, "error") || Mentions(s, "reject") || Mentions(s, "block")
  {
    ContainsIff(s, "fail");
    ContainsIff(s, "error");
    ContainsIff(s, "reject");
    ContainsIff(s, "block");
  }

  /** The promotion artifacts are the entries indexed as the kinds of the same name. */
  lemma ServesPromotion(e: IndexEntry)
    ensures Serves(PromotionChecklist, e) <==> PromotionSchema(e.schema) == Some(Phase1PromotionChecklist)
    ensures Serves(SignedPromotionDecision, e) <==> PromotionSchema(e.schema) == Some(Phase1PromotionDecision)
    ensures Serves(ProviderReadinessEvidence, e) <==> PromotionSchema(e.schema) == Some(ProviderReadiness)
  {
    PromotionSchemaIs(e.schema);
  }

  /** So are the release artifacts. */
  lemma ServesRelease(e: IndexEntry)
    ensures Serves(EvaluatorDecision, e) <==> ReleaseSchema(e.schema) == Some(ReleaseEvaluatorDecision)
    ensures Serves(Publication, e) <==> ReleaseSchema(e.schema) == Some(ReleasePublication)
    ensures Serves(ThreeOsSmoke, e) <==> ReleaseSchema(e.schema) == Some(ThreeOsReleaseSmoke)
  {
    ReleaseSchemaIs(e.schema);
  }

  /** And the acceptances, which may also go by their provider alone. */
  lemma ServesAcceptance(e: IndexEntry)
    ensures Serves(CodexLiveAcceptance, e) <==>
            AcceptanceSchema(e.schema) == Some(AcceptanceCodex) || ProviderKind(e.provider) == Some(AcceptanceCodex)
    ensures Serves(ClaudeLiveAcceptance, e) <==>
            AcceptanceSchema(e.schema) == Some(AcceptanceClaude) || ProviderKind(e.provider) == Some(AcceptanceClaude)
  {
    AcceptanceSchemaIs(e.schema);
    ProviderKindIs(e.provider);
  }

  // ---- signature sidecars ----

  datatype Signature = Signature(verified: Option<bool>, trustPolicy: Option<Json>)

  function SignatureIn(v: Json): Signature {
    match Get(v, "signature")
    case Some(Obj(ms)) =>
      Signature(AsBool(Get(Obj(ms), "signature_verified")), Get(Obj(ms), "trust_policy"))
    case _ => Signature(None, None)
  }

  /** Absent, unreadable, or what it says. */
  datatype SidecarState = NoSidecar | Unreadable | Readable(signature: Signature)

  /** support_bundle_signature_summary */
  function ReadSidecar(files: Files, loc: Loc): SidecarState {
    if loc !in files then NoSidecar
    else
      match Decode(files[loc])
      case None => Unreadable
      case Some(text) =>
        match ParseDocument(text)
        case Fail => Unreadable
        case Done(v, _) => Readable(SignatureIn(v))
  }

  function SidecarKind(a: Artifact): Option<BundleKind> {
    match a
    case ProviderReadinessEvidence => Some(ProviderReadinessSignature)
    case SignedPromotionDecision => Some(Phase1PromotionDecisionSignature)
    case EvaluatorDecision => Some(ReleaseEvaluatorDecisionSignature)
    case _ => None
  }

  function SidecarOf(files: Files, a: Artifact, sha: string): SidecarState {
    match SidecarKind(a) case None => NoSidecar case Some(k) => ReadSidecar(files, Loc(k, sha))
  }

  predicate Verified(sig: Signature) { sig.verified == Some(true) }

  /** provider_readiness_signature_is_release_authoritative */
  predicate Authoritative(sig: Signature) {
    && Verified(sig)
    && sig.trustPolicy.Some?
    && AsBool(Get(sig.trustPolicy.value, "release_authoritative")) == Some(true)
    && AsBool(Get(sig.trustPolicy.value, "trusted_key_match")) == Some(true)
  }

  /** The sidecar of an artifact is the one pruned with its kind. */
  lemma SidecarIsRelated()
    ensures RelatedKinds(ProviderReadiness) == [SidecarKind(ProviderReadinessEvidence).value]
    ensures RelatedKinds(Phase1PromotionDecision) == [SidecarKind(SignedPromotionDecision).value]
    ensures RelatedKinds(ReleaseEvaluatorDecision) == [SidecarKind(EvaluatorDecision).value]
  {
  }

  /** Nothing but a true under these names verifies a sidecar or makes it release-authoritative. */
  lemma SidecarSays(v: Json)
    ensures Verified(SignatureIn(v)) <==>
            exists sig :: Get(v, "signature") == Some(sig) && Get(sig, "signature_verified") == Some(Bool(true))
    ensures Authoritative(SignatureIn(v)) <==>
            exists sig, policy ::
              && Get(v, "signature") == Some(sig) && Get(sig, "signature_verified") == Some(Bool(true))
              && Get(sig, "trust_policy") == Some(policy)
              && Get(policy, "release_authoritative") == Some(Bool(true)) && Get(policy, "trusted_key_match") == Some(Bool(true))
  {
  }

  // ---- gaps ----

  datatype GapKind =
    MissingArtifact | StaleArtifact | FailedStatus | MissingSignature | UnverifiedSignature | UntrustedSignature

  datatype Gap = Gap(id: string, kind: GapKind)

  datatype Summary = Summary(entry: IndexEntry, ageSeconds: int, isStale: bool, signature: Option<Signature>)

  function ArtifactGap(o: Option<Summary>): Option<GapKind> {
    match o
    case None => Some(MissingArtifact)
    case Some(s) =>
      if s.isStale then Some(StaleArtifact)
      else if BlockingStatus(s.entry.status) then Some(FailedStatus)
      else None
  }

  function SignatureGap(a: Artifact, o: Option<Summary>): Option<GapKind> {
    match o
    case None => None
    case Some(s) =>
      match s.signature
      case None => if a.ProviderReadinessEvidence? then None else Some(MissingSignature)
      case Some(sig) =>
        if !Verified(sig) then Some(UnverifiedSignature)
        else if a.ProviderReadinessEvidence? && !Authoritative(sig) then Some(UntrustedSignature)
        else None
  }

  function Listed(id: string, kind: Option<GapKind>): seq<Gap> {
    match kind case None => [] case Some(k) => [Gap(id, k)]
  }

  /** The gaps of one pass, in order. */
  function ArtifactGaps(observed: map<Artifact, Option<Summary>>, artifacts: seq<Artifact>): seq<Gap>
    requires forall a :: a in artifacts ==> a in observed
  {
    if artifacts == [] then []
    else ArtifactGaps(observed, artifacts[..|artifacts| - 1]) +
         Listed(Id(artifacts[|artifacts| - 1]), ArtifactGap(observed[artifacts[|artifacts| - 1]]))
  }

  function SignatureGaps(observed: map<Artifact, Option<Summary>>): seq<Gap>
    requires forall a :: a in observed
  {
    Listed("provider_readiness_signature", SignatureGap(ProviderReadinessEvidence, observed[ProviderReadinessEvidence])) +
    (Listed(Id(SignedPromotionDecision) + "_signature", SignatureGap(SignedPromotionDecision, observed[SignedPromotionDecision])) +
     Listed(Id(EvaluatorDecision) + "_signature", SignatureGap(EvaluatorDecision, observed[EvaluatorDecision])))
  }

  function CountKind(gaps: seq<Gap>, kind: GapKind): nat {
    if gaps == [] then 0 else (if gaps[0].kind == kind then 1 else 0) + CountKind(gaps[1..], kind)
  }

  datatype GapSummary = GapSummary(
    totalBlocking: nat, missingArtifacts: nat, staleArtifacts: nat, failedStatus: nat,
    missingSignatures: nat, unverifiedSignatures: nat, untrustedSignatures: nat)

  /** support_bundle_gap_summary */
  function Summarize(gaps: seq<Gap>): GapSummary {
    GapSummary(|gaps|, CountKind(gaps, MissingArtifact), CountKind(gaps, StaleArtifact), CountKind(gaps, FailedStatus),
               CountKind(gaps, MissingSignature), CountKind(gaps, UnverifiedSignature), CountKind(gaps, UntrustedSignature))
  }

  /** Every gap is of one of the six kinds, so their counts add up to the total. */
  lemma {:induction false} CountsAddUp(gaps: seq<Gap>)
    ensures var s := Summarize(gaps);
            s.totalBlocking == s.missingArtifacts + s.staleArtifacts + s.failedStatus
                               + s.missingSignatures + s.unverifiedSignatures + s.untrustedSignatures
  {
    if gaps != [] {
      CountsAddUp(gaps[1..]);
    }
  }

  lemma {:induction false} ArtifactGapsEmpty(observed: map<Artifact, Option<Summary>>, artifacts: seq<Artifact>)
    requires forall a :: a in artifacts ==> a in observed
    ensures ArtifactGaps(observed, artifacts) == [] <==> NoGapAmong(artifacts, GapFinder(observed))
    ensures |ArtifactGaps(observed, artifacts)| <= |artifacts|
  {
    if artifacts != [] {
      var last := artifacts[|artifacts| - 1];
      ArtifactGapsEmpty(observed, artifacts[..|artifacts| - 1]);
      NoMoreGaps(ArtifactGaps(observed, artifacts[..|artifacts| - 1]), Id(last), ArtifactGap(observed[last]));
      NoGapAmongSnoc(artifacts, GapFinder(observed));
    }
  }

  function GapFinder(observed: map<Artifact, Option<Summary>>): Artifact -> Option<GapKind> {
    (a: Artifact) => if a in observed then ArtifactGap(observed[a]) else None
  }

  /** No artifact of the list has a gap. */
  predicate NoGapAmong(artifacts: seq<Artifact>, gapOf: Artifact -> Option<GapKind>) {
    forall a :: a in artifacts ==> gapOf(a).None?
  }

  lemma NoGapAmongSnoc(artifacts: seq<Artifact>, gapOf: Artifact -> Option<GapKind>)
    requires artifacts != []
    ensures NoGapAmong(artifacts, gapOf) <==>
            NoGapAmong(artifacts[..|artifacts| - 1], gapOf) && gapOf(artifacts[|artifacts| - 1]).None?
  {
    forall a ensures a in artifacts <==> a in artifacts[..|artifacts| - 1] || a == artifacts[|artifacts| - 1] {
      InSnoc(artifacts, a);
    }
  }

  lemma NoMoreGaps(gaps: seq<Gap>, id: string, g: Option<GapKind>)
    ensures gaps + Listed(id, g) == [] <==> gaps == [] && g.None?
    ensures |gaps + Listed(id, g)| <= |gaps| + 1
  {
  }

  lemma ArtifactGapsSnoc(observed: map<Artifact, Option<Summary>>, artifacts: seq<Artifact>, i: nat)
    requires i < |artifacts| && forall a :: a in artifacts ==> a in observed
    ensures ArtifactGaps(observed, artifacts[..i + 1]) ==
            ArtifactGaps(observed, artifacts[..i]) + Listed(Id(artifacts[i]), ArtifactGap(observed[artifacts[i]]))
  {
    assert artifacts[..i + 1][..i] == artifacts[..i];
  }

  function IdCode(a: Artifact): (nat, char) {
    match a
    case ProviderReadinessEvidence => (18, 'p')
    case CodexLiveAcceptance => (21, 'c')
    case ClaudeLiveAcceptance => (22, 'c')
    case PromotionChecklist => (26, 'p')
    case SignedPromotionDecision => (32, 's')
    case ThreeOsSmoke => (22, 't')
    case Publication => (19, 'r')
    case EvaluatorDecision => (26, 'r')
  }

  lemma IdHasCode(a: Artifact)
    ensures |Id(a)| == IdCode(a).0 && Id(a)[0] == IdCode(a).1
  {
  }

  lemma IdInjective(a: Artifact, b: Artifact)
    ensures Id(a) == Id(b) <==> a == b
  {
    IdHasCode(a);
    IdHasCode(b);
    assert IdCode(a) == IdCode(b) <==> a == b;
  }

  lemma OneMoreGap(gaps: seq<Gap>, a: Artifact, b: Artifact, g: Option<GapKind>, kind: GapKind)
    ensures Gap(Id(a), kind) in gaps + Listed(Id(b), g) <==> Gap(Id(a), kind) in gaps || (a == b && g == Some(kind))
  {
    IdInjective(a, b);
  }

  lemma InSnoc<T>(s: seq<T>, x: T)
    requires s != []
    ensures x in s <==> x in s[..|s| - 1] || x == s[|s| - 1]
  {
    assert s == s[..|s| - 1] + [s[|s| - 1]];
  }

  lemma {:induction false} ArtifactGapMember(observed: map<Artifact, Option<Summary>>, artifacts: seq<Artifact>, a: Artifact,
                                             kind: GapKind)
    requires a in observed && forall b :: b in artifacts ==> b in observed
    ensures Gap(Id(a), kind) in ArtifactGaps(observed, artifacts) <==> a in artifacts && ArtifactGap(observed[a]) == Some(kind)
  {
    if artifacts != [] {
      var init, last := artifacts[..|artifacts| - 1], artifacts[|artifacts| - 1];
      ArtifactGapMember(observed, init, a, kind);
      OneMoreGap(ArtifactGaps(observed, init), a, last, ArtifactGap(observed[last]), kind);
      InSnoc(artifacts, a);
    }
  }

  /** A gap of an artifact is listed iff the artifact has it. */
  lemma GapListedIff(observed: map<Artifact, Option<Summary>>, a: Artifact, kind: GapKind)
    requires forall b :: b in observed
    requires kind.MissingArtifact? || kind.StaleArtifact? || kind.FailedStatus?
    ensures Gap(Id(a), kind) in ArtifactGaps(observed, ARTIFACTS) + SignatureGaps(observed) <==>
            ArtifactGap(observed[a]) == Some(kind)
  {
    ArtifactGapMember(observed, ARTIFACTS, a, kind);
    EveryArtifactListed(a);
    if Gap(Id(a), kind) in SignatureGaps(observed) {
      NoSignatureGap(observed, Gap(Id(a), kind));
    }
  }

  lemma NoSignatureGap(observed: map<Artifact, Option<Summary>>, gap: Gap)
    requires forall b :: b in observed
    requires gap in SignatureGaps(observed)
    ensures gap.kind.MissingSignature? || gap.kind.UnverifiedSignature? || gap.kind.UntrustedSignature?
  {
  }

  lemma EveryArtifactListed(a: Artifact)
    ensures a in ARTIFACTS
  {
  }

  // ---- what the verdict means ----

  /** The newest artifact is there, does not report a failure, and is fresh enough. */
  ghost predicate ArtifactReady(entries: seq<IndexEntry>, a: Artifact, now: int) {
    exists i: nat :: IsNewest(entries, a, i) && !BlockingStatus(entries[i].status) && !IsStale(a, now, entries[i].ingestedAt)
  }

  /** The sidecar of the newest decision is there and verified. */
  ghost predicate SignedAndVerified(entries: seq<IndexEntry>, files: Files, a: Artifact) {
    forall i: nat :: IsNewest(entries, a, i) ==>
      SidecarOf(files, a, entries[i].sha256).Readable? && Verified(SidecarOf(files, a, entries[i].sha256).signature)
  }

  /** If there is a provider readiness sidecar, it is verified and release-authoritative. */
  ghost predicate ProviderTrusted(entries: seq<IndexEntry>, files: Files) {
    forall i: nat :: IsNewest(entries, ProviderReadinessEvidence, i) ==>
      var state := SidecarOf(files, ProviderReadinessEvidence, entries[i].sha256);
      state.Readable? ==> Authoritative(state.signature)
  }

  ghost predicate ReleaseReady(entries: seq<IndexEntry>, files: Files, now: Artifact -> int) {
    && (forall a :: ArtifactReady(entries, a, now(a)))
    && SignedAndVerified(entries, files, SignedPromotionDecision)
    && SignedAndVerified(entries, files, EvaluatorDecision)
    && ProviderTrusted(entries, files)
  }

  /** The sidecars the gate reads can all be read. */
  ghost predicate SidecarsReadable(entries: seq<IndexEntry>, files: Files) {
    forall a, i: nat :: IsNewest(entries, a, i) ==> !SidecarOf(files, a, entries[i].sha256).Unreadable?
  }

  /** A summary describes the newest artifact, as it is before the sidecars are read. */
  ghost predicate Describes(entries: seq<IndexEntry>, a: Artifact, now: int, o: Option<Summary>) {
    match o
    case None => forall i :: 0 <= i < |entries| ==> !Serves(a, entries[i])
    case Some(s) =>
      && (exists i: nat :: IsNewest(entries, a, i) && s.entry == entries[i])
      && s.ageSeconds == AgeSeconds(now, s.entry.ingestedAt)
      && s.isStale == IsStale(a, now, s.entry.ingestedAt)
  }

  /** And after: with the signature of its sidecar, if it has one. */
  ghost predicate Signed(files: Files, a: Artifact, o: Option<Summary>) {
    o.Some? ==>
      var state := SidecarOf(files, a, o.value.entry.sha256);
      !state.Unreadable? && o.value.signature == (if state.Readable? then Some(state.signature) else None)
  }

  /** The sidecar of the summarized artifact, if there is one, can be read. */
  ghost predicate CanSign(files: Files, a: Artifact, o: Option<Summary>) {
    o.Some? ==> !SidecarOf(files, a, o.value.entry.sha256).Unreadable?
  }

  /** Summaries that differ at most in the signature. */
  predicate SameArtifact(o: Option<Summary>, p: Option<Summary>) {
    match o
    case None => p.None?
    case Some(s) => p.Some? && s.(signature := None) == p.value.(signature := None)
  }

  lemma NoSidecarSigned(files: Files, a: Artifact, o: Option<Summary>)
    requires SidecarKind(a).None? && (o.Some? ==> o.value.signature.None?)
    ensures Signed(files, a, o) && CanSign(files, a, o)
  {
  }

  lemma OthersCanSign(files: Files, observed: map<Artifact, Option<Summary>>)
    requires Unsigned(observed)
    ensures (forall a :: CanSign(files, a, observed[a])) <==>
            && CanSign(files, ProviderReadinessEvidence, observed[ProviderReadinessEvidence])
            && CanSign(files, SignedPromotionDecision, observed[SignedPromotionDecision])
            && CanSign(files, EvaluatorDecision, observed[EvaluatorDecision])
  {
    forall a | SidecarKind(a).None? ensures CanSign(files, a, observed[a]) {
      NoSidecarSigned(files, a, observed[a]);
    }
  }

  lemma OthersSigned(files: Files, before: map<Artifact, Option<Summary>>, observed: map<Artifact, Option<Summary>>)
    requires Unsigned(before) && forall a :: a in observed && (SidecarKind(a).None? ==> observed[a] == before[a])
    requires Signed(files, ProviderReadinessEvidence, observed[ProviderReadinessEvidence])
    requires Signed(files, SignedPromotionDecision, observed[SignedPromotionDecision])
    requires Signed(files, EvaluatorDecision, observed[EvaluatorDecision])
    ensures AllSigned(files, observed)
  {
    forall a | SidecarKind(a).None? ensures Signed(files, a, observed[a]) {
      NoSidecarSigned(files, a, observed[a]);
    }
  }

  lemma CanSignIff(entries: seq<IndexEntry>, files: Files, a: Artifact, now: int, o: Option<Summary>)
    requires Describes(entries, a, now, o)
    ensures CanSign(files, a, o) <==>
            forall i: nat :: IsNewest(entries, a, i) ==> !SidecarOf(files, a, entries[i].sha256).Unreadable?
  {
    if o.Some? {
      var i: nat :| IsNewest(entries, a, i) && o.value.entry == entries[i];
      forall j: nat | IsNewest(entries, a, j) ensures j == i {
        NewestIsUnique(entries, a, i, j);
      }
    }
  }

  lemma DescribesSame(entries: seq<IndexEntry>, a: Artifact, now: int, o: Option<Summary>, p: Option<Summary>)
    requires Describes(entries, a, now, p) && SameArtifact(o, p)
    ensures Describes(entries, a, now, o)
    ensures ArtifactGap(o) == ArtifactGap(p)
  {
  }

  lemma {:induction false} SameArtifactGaps(o: map<Artifact, Option<Summary>>, p: map<Artifact, Option<Summary>>,
                                            artifacts: seq<Artifact>)
    requires forall a :: a in artifacts ==> a in o && a in p && ArtifactGap(o[a]) == ArtifactGap(p[a])
    ensures ArtifactGaps(o, artifacts) == ArtifactGaps(p, artifacts)
  {
    if artifacts != [] {
      SameArtifactGaps(o, p, artifacts[..|artifacts| - 1]);
    }
  }

  /** Every artifact has been looked up. */
  ghost predicate AllDescribed(entries: seq<IndexEntry>, now: Artifact -> int, observed: map<Artifact, Option<Summary>>) {
    forall a :: a in observed && Describes(entries, a, now(a), observed[a])
  }

  ghost predicate AllSigned(files: Files, observed: map<Artifact, Option<Summary>>) {
    forall a :: a in observed && Signed(files, a, observed[a])
  }

  ghost predicate Unsigned(observed: map<Artifact, Option<Summary>>) {
    forall a :: a in observed && (observed[a].Some? ==> observed[a].value.signature.None?)
  }

  ghost predicate AllSame(o: map<Artifact, Option<Summary>>, p: map<Artifact, Option<Summary>>) {
    forall a :: a in o && a in p && SameArtifact(o[a], p[a])
  }

  lemma NoArtifactGapIff(entries: seq<IndexEntry>, a: Artifact, now: int, o: Option<Summary>)
    requires Describes(entries, a, now, o)
    ensures ArtifactGap(o).None? <==> ArtifactReady(entries, a, now)
  {
    if o.Some? {
      var i: nat :| IsNewest(entries, a, i) && o.value.entry == entries[i];
      forall j: nat | IsNewest(entries, a, j) ensures j == i {
        NewestIsUnique(entries, a, i, j);
      }
    }
  }

  lemma NoDecisionGapIff(entries: seq<IndexEntry>, files: Files, a: Artifact, now: int, o: Option<Summary>)
    requires Describes(entries, a, now, o) && Signed(files, a, o) && !a.ProviderReadinessEvidence?
    ensures SignatureGap(a, o).None? <==> SignedAndVerified(entries, files, a)
  {
    if o.Some? {
      var i: nat :| IsNewest(entries, a, i) && o.value.entry == entries[i];
      forall j: nat | IsNewest(entries, a, j) ensures j == i {
        NewestIsUnique(entries, a, i, j);
      }
    }
  }

  lemma NoProviderGapIff(entries: seq<IndexEntry>, files: Files, now: int, o: Option<Summary>)
    requires Describes(entries, ProviderReadinessEvidence, now, o) && Signed(files, ProviderReadinessEvidence, o)
    ensures SignatureGap(ProviderReadinessEvidence, o).None? <==> ProviderTrusted(entries, files)
  {
    if o.Some? {
      var i: nat :| IsNewest(entries, ProviderReadinessEvidence, i) && o.value.entry == entries[i];
      forall j: nat | IsNewest(entries, ProviderReadinessEvidence, j) ensures j == i {
        NewestIsUnique(entries, ProviderReadinessEvidence, i, j);
      }
    }
  }

  /** Without any gap, and only then, the release is ready. */
  lemma NoGapsIffReady(entries: seq<IndexEntry>, files: Files, now: Artifact -> int, observed: map<Artifact, Option<Summary>>)
    requires AllDescribed(entries, now, observed) && AllSigned(files, observed)
    ensures ArtifactGaps(observed, ARTIFACTS) + SignatureGaps(observed) == [] <==> ReleaseReady(entries, files, now)
    ensures |ArtifactGaps(observed, ARTIFACTS) + SignatureGaps(observed)| <= 11
  {
    ArtifactGapsEmpty(observed, ARTIFACTS);
    forall a ensures a in ARTIFACTS && (ArtifactGap(observed[a]).None? <==> ArtifactReady(entries, a, now(a))) {
      EveryArtifactListed(a);
      NoArtifactGapIff(entries, a, now(a), observed[a]);
    }
    NoProviderGapIff(entries, files, now(ProviderReadinessEvidence), observed[ProviderReadinessEvidence]);
    NoDecisionGapIff(entries, files, SignedPromotionDecision, now(SignedPromotionDecision), observed[SignedPromotionDecision]);
    NoDecisionGapIff(entries, files, EvaluatorDecision, now(EvaluatorDecision), observed[EvaluatorDecision]);
  }

  lemma ReadableIff(entries: seq<IndexEntry>, files: Files, now: Artifact -> int, observed: map<Artifact, Option<Summary>>)
    requires AllDescribed(entries, now, observed)
    ensures SidecarsReadable(entries, files) <==> forall a :: CanSign(files, a, observed[a])
  {
    if SidecarsReadable(entries, files) {
      forall a ensures CanSign(files, a, observed[a]) {
        CanSignIff(entries, files, a, now(a), observed[a]);
      }
    }
    if forall a :: CanSign(files, a, observed[a]) {
      forall a, i: nat | IsNewest(entries, a, i) ensures !SidecarOf(files, a, entries[i].sha256).Unreadable? {
        CanSignIff(entries, files, a, now(a), observed[a]);
      }
    }
  }

  lemma SameObservations(entries: seq<IndexEntry>, now: Artifact -> int,
                         o: map<Artifact, Option<Summary>>, p: map<Artifact, Option<Summary>>)
    requires AllDescribed(entries, now, p) && AllSame(o, p)
    ensures AllDescribed(entries, now, o)
    ensures ArtifactGaps(o, ARTIFACTS) == ArtifactGaps(p, ARTIFACTS)
  {
    forall a ensures Describes(entries, a, now(a), o[a]) && ArtifactGap(o[a]) == ArtifactGap(p[a]) {
      DescribesSame(entries, a, now(a), o[a], p[a]);
    }
    SameArtifactGaps(o, p, ARTIFACTS);
  }

  /** A status that reports a failure. */
  ghost predicate Reports(status: Option<string>) {
    exists s :: status == Some(s) && (Mentions(s, "fail") || Mentions(s, "error") || Mentions(s, "reject") || Mentions(s, "block"))
  }

  ghost predicate TooOld(a: Artifact, now: int, at: int) { GoesStale(a) && now - at >= 86_401 * 1_000_000_000 }

  /** The listed gaps of the artifacts, in the fields of their newest entries. */
  ghost predicate GapsSay(entries: seq<IndexEntry>, now: Artifact -> int, gaps: seq<Gap>) {
    forall a ::
      && (Gap(Id(a), MissingArtifact) in gaps <==> forall j :: 0 <= j < |entries| ==> !Serves(a, entries[j]))
      && forall i: nat :: IsNewest(entries, a, i) ==>
           && (Gap(Id(a), StaleArtifact) in gaps <==> TooOld(a, now(a), entries[i].ingestedAt))
           && (Gap(Id(a), FailedStatus) in gaps <==>
                 !TooOld(a, now(a), entries[i].ingestedAt) && Reports(entries[i].status))
  }

  lemma ReportsIff(status: Option<string>)
    ensures BlockingStatus(status) <==> Reports(status)
  {
    if status.Some? {
      BlockingIff(status.value);
    }
  }

  lemma GapOfNewest(entries: seq<IndexEntry>, a: Artifact, now: int, o: Option<Summary>, i: nat)
    requires Describes(entries, a, now, o) && IsNewest(entries, a, i)
    ensures ArtifactGap(o) ==
            if TooOld(a, now, entries[i].ingestedAt) then Some(StaleArtifact)
            else if Reports(entries[i].status) then Some(FailedStatus)
            else None
  {
    var j: nat :| IsNewest(entries, a, j) && o.value.entry == entries[j];
    NewestIsUnique(entries, a, i, j);
    StaleIff(a, now, entries[i].ingestedAt);
    ReportsIff(entries[i].status);
  }

  lemma GapOfMissing(entries: seq<IndexEntry>, a: Artifact, now: int, o: Option<Summary>)
    requires Describes(entries, a, now, o)
    ensures ArtifactGap(o) == Some(MissingArtifact) <==> forall j :: 0 <= j < |entries| ==> !Serves(a, entries[j])
  {
    if o.Some? {
      var i: nat :| IsNewest(entries, a, i) && o.value.entry == entries[i];
      assert Serves(a, entries[i]);
    }
  }

  lemma GapsOfArtifacts(entries: seq<IndexEntry>, now: Artifact -> int, observed: map<Artifact, Option<Summary>>)
    requires AllDescribed(entries, now, observed)
    ensures GapsSay(entries, now, ArtifactGaps(observed, ARTIFACTS) + SignatureGaps(observed))
  {
    forall a
      ensures Gap(Id(a), MissingArtifact) in ArtifactGaps(observed, ARTIFACTS) + SignatureGaps(observed) <==>
              ArtifactGap(observed[a]) == Some(MissingArtifact)
      ensures Gap(Id(a), StaleArtifact) in ArtifactGaps(observed, ARTIFACTS) + SignatureGaps(observed) <==>
              ArtifactGap(observed[a]) == Some(StaleArtifact)
      ensures Gap(Id(a), FailedStatus) in ArtifactGaps(observed, ARTIFACTS) + SignatureGaps(observed) <==>
              ArtifactGap(observed[a]) == Some(FailedStatus)
    {
      GapListedIff(observed, a, MissingArtifact);
      GapListedIff(observed, a, StaleArtifact);
      GapListedIff(observed, a, FailedStatus);
    }
    forall a ensures ArtifactGap(observed[a]) == Some(MissingArtifact) <==>
                     forall j :: 0 <= j < |entries| ==> !Serves(a, entries[j])
    {
      GapOfMissing(entries, a, now(a), observed[a]);
    }
    forall a, i: nat | IsNewest(entries, a, i)
      ensures ArtifactGap(observed[a]) ==
              if TooOld(a, now(a), entries[i].ingestedAt) then Some(StaleArtifact)
              else if Reports(entries[i].status) then Some(FailedStatus)
              else None
    {
      GapOfNewest(entries, a, now(a), observed[a], i);
    }
  }

  /** The newest entry is there, is young enough and reports no failure. */
  ghost predicate Fresh(entries: seq<IndexEntry>, a: Artifact, now: int) {
    exists i: nat ::
      IsNewest(entries, a, i) && !Reports(entries[i].status) && !TooOld(a, now, entries[i].ingestedAt)
  }

  lemma ReadyIffFresh(entries: seq<IndexEntry>, a: Artifact, now: int)
    ensures ArtifactReady(entries, a, now) <==> Fresh(entries, a, now)
  {
    forall i: nat | IsNewest(entries, a, i)
      ensures BlockingStatus(entries[i].status) <==> Reports(entries[i].status)
      ensures IsStale(a, now, entries[i].ingestedAt) <==> TooOld(a, now, entries[i].ingestedAt)
    {
      StaleIff(a, now, entries[i].ingestedAt);
      ReportsIff(entries[i].status);
    }
  }

  ghost predicate AllFresh(entries: seq<IndexEntry>, now: Artifact -> int) { forall a :: Fresh(entries, a, now(a)) }

  lemma ReadyAllFresh(entries: seq<IndexEntry>, files: Files, now: Artifact -> int)
    ensures ReleaseReady(entries, files, now) <==>
            && AllFresh(entries, now)
            && SignedAndVerified(entries, files, SignedPromotionDecision)
            && SignedAndVerified(entries, files, EvaluatorDecision)
            && ProviderTrusted(entries, files)
  {
    forall a ensures ArtifactReady(entries, a, now(a)) <==> Fresh(entries, a, now(a)) {
      ReadyIffFresh(entries, a, now(a));
    }
  }

  /** What the gaps say, and when there are none. */
  lemma Verdict(entries: seq<IndexEntry>, files: Files, now: Artifact -> int, observed: map<Artifact, Option<Summary>>)
    requires AllDescribed(entries, now, observed) && AllSigned(files, observed)
    ensures var gaps := ArtifactGaps(observed, ARTIFACTS) + SignatureGaps(observed);
            && (gaps == [] <==> ReleaseReady(entries, files, now))
            && (ReleaseReady(entries, files, now) ==> AllFresh(entries, now))
            && GapsSay(entries, now, gaps)
            && |gaps| <= 11
  {
    NoGapsIffReady(entries, files, now, observed);
    GapsOfArtifacts(entries, now, observed);
    ReadyAllFresh(entries, files, now);
  }

  // ---- the gate ----

  datatype PathStep = PathStep(operatorStep: nat, gap: Gap)

  class Readiness {
    var observed: map<Artifact, Option<Summary>>
    var blockingGaps: seq<Gap>
    var releaseDecisionAllowed: bool
    var totalOpenGaps: nat
    var gapSummary: GapSummary
    var criticalPath: seq<PathStep>
    var nextRecommended: Option<Gap>

    /** The derived fields follow from the gaps. */
    ghost predicate Derived()
      reads this
    {
      && (releaseDecisionAllowed <==> blockingGaps == [])
      && totalOpenGaps == |blockingGaps|
      && gapSummary == Summarize(blockingGaps)
      && |criticalPath| == |blockingGaps|
      && (forall i :: 0 <= i < |criticalPath| ==> criticalPath[i] == PathStep(i + 1, blockingGaps[i]))
      && nextRecommended == (if blockingGaps == [] then None else Some(blockingGaps[0]))
    }

    /** support_bundle_phase1_readiness, the first pass */
    constructor (entries: seq<IndexEntry>, now: Artifact -> int)
      ensures Derived() && AllDescribed(entries, now, observed) && Unsigned(observed)
      ensures blockingGaps == ArtifactGaps(observed, ARTIFACTS)
    {
      observed, blockingGaps := map[], [];
      releaseDecisionAllowed, totalOpenGaps, gapSummary, criticalPath, nextRecommended := true, 0, Summarize([]), [], None;
      new;
      Observe(entries, now);
      ListArtifactGaps();
      Derive();
    }

    method ListArtifactGaps()
      requires forall a :: a in observed
      modifies this`blockingGaps
      ensures blockingGaps == ArtifactGaps(observed, ARTIFACTS)
    {
      blockingGaps := [];
      var i := 0;
      while i < |ARTIFACTS|
        invariant i <= |ARTIFACTS|
        invariant blockingGaps == ArtifactGaps(observed, ARTIFACTS[..i])
      {
        ArtifactGapsSnoc(observed, ARTIFACTS, i);
        blockingGaps := blockingGaps + Listed(Id(ARTIFACTS[i]), ArtifactGap(observed[ARTIFACTS[i]]));
        i := i + 1;
      }
      assert ARTIFACTS[..i] == ARTIFACTS;
    }

    method Observe(entries: seq<IndexEntry>, now: Artifact -> int)
      modifies this`observed
      ensures AllDescribed(entries, now, observed) && Unsigned(observed)
    {
      var i := 0;
      while i < |ARTIFACTS|
        invariant i <= |ARTIFACTS|
        invariant forall a :: a in ARTIFACTS[..i] ==> a in observed && Describes(entries, a, now(a), observed[a])
        invariant forall a :: a in ARTIFACTS[..i] ==> observed[a].Some? ==> observed[a].value.signature.None?
      {
        var a := ARTIFACTS[i];
        assert ARTIFACTS[..i + 1] == ARTIFACTS[..i] + [a];
        var summary := Latest(entries, a, now(a));
        observed := observed[a := summary];
        i := i + 1;
      }
      forall a ensures a in ARTIFACTS[..i] {
        assert ARTIFACTS[..i] == ARTIFACTS;
        EveryArtifactListed(a);
      }
    }

    /** latest_artifact_summary: max_by_key keeps the last of equal maxima. */
    static method Latest(entries: seq<IndexEntry>, a: Artifact, now: int) returns (o: Option<Summary>)
      ensures Describes(entries, a, now, o)
      ensures o.Some? ==> o.value.signature.None?
    {
      var best: Option<nat> := None;
      var i := 0;
      while i < |entries|
        invariant i <= |entries|
        invariant best.None? ==> forall j :: 0 <= j < i ==> !Serves(a, entries[j])
        invariant best.Some? ==> best.value < i && IsNewest(entries[..i], a, best.value)
      {
        if Serves(a, entries[i]) && (best.None? || entries[best.value].ingestedAt <= entries[i].ingestedAt) {
          best := Some(i);
        }
        i := i + 1;
      }
      assert entries[..i] == entries;
      if best.None? {
        return None;
      }
      var e := entries[best.value];
      return Some(Summary(e, AgeSeconds(now, e.ingestedAt), IsStale(a, now, e.ingestedAt), None));
    }

    /** The fields computed from the gap list. */
    method Derive()
      modifies this`releaseDecisionAllowed, this`totalOpenGaps, this`gapSummary, this`criticalPath, this`nextRecommended
      ensures Derived()
    {
      var steps := [];
      for i := 0 to |blockingGaps|
        invariant |steps| == i
        invariant forall j :: 0 <= j < i ==> steps[j] == PathStep(j + 1, blockingGaps[j])
      {
        steps := steps + [PathStep(i + 1, blockingGaps[i])];
      }
      releaseDecisionAllowed := blockingGaps == [];
      totalOpenGaps := |blockingGaps|;
      nextRecommended := if blockingGaps == [] then None else Some(blockingGaps[0]);
      gapSummary := Summarize(blockingGaps);
      criticalPath := steps;
    }

    /** One artifact's sidecar, read into its summary. */
    method Attach(files: Files, a: Artifact) returns (ok: bool)
      requires a in observed
      modifies this`observed
      ensures observed.Keys == old(observed.Keys)
      ensures forall b :: b in observed && b != a ==> observed[b] == old(observed)[b]
      ensures SameArtifact(observed[a], old(observed)[a])
      ensures ok <==> CanSign(files, a, old(observed)[a])
      ensures ok ==> Signed(files, a, observed[a])
    {
      ok := true;
      if observed[a].Some? {
        var s := observed[a].value;
        var state := SidecarOf(files, a, s.entry.sha256);
        if state.Unreadable? {
          ok := false;
        } else {
          observed := observed[a := Some(s.(signature := if state.Readable? then Some(state.signature) else None))];
        }
      }
    }

    method AttachDecisions(files: Files) returns (ok: bool)
      requires SignedPromotionDecision in observed && EvaluatorDecision in observed
      modifies this`observed
      ensures observed.Keys == old(observed.Keys)
      ensures forall b :: b in observed && b != SignedPromotionDecision && b != EvaluatorDecision ==> observed[b] == old(observed)[b]
      ensures SameArtifact(observed[SignedPromotionDecision], old(observed)[SignedPromotionDecision])
      ensures SameArtifact(observed[EvaluatorDecision], old(observed)[EvaluatorDecision])
      ensures ok <==> CanSign(files, SignedPromotionDecision, old(observed)[SignedPromotionDecision])
                      && CanSign(files, EvaluatorDecision, old(observed)[EvaluatorDecision])
      ensures ok ==> Signed(files, SignedPromotionDecision, observed[SignedPromotionDecision])
                     && Signed(files, EvaluatorDecision, observed[EvaluatorDecision])
    {
      ok := Attach(files, SignedPromotionDecision);
      if ok {
        ok := Attach(files, EvaluatorDecision);
      }
    }

    /** The sidecars of the three signed artifacts, the first unreadable one ending the gate. */
    method AttachAll(files: Files) returns (ok: bool)
      requires Unsigned(observed)
      modifies this`observed
      ensures AllSame(observed, old(observed))
      ensures ok <==> forall a :: CanSign(files, a, old(observed)[a])
      ensures ok ==> AllSigned(files, observed)
    {
      OthersCanSign(files, observed);
      ghost var before := observed;
      ok := Attach(files, ProviderReadinessEvidence);
      if ok {
        ok := AttachDecisions(files);
      }
      if ok {
        OthersSigned(files, before, observed);
      }
    }

    /** enforce_required_signed_artifact_sidecars, the second pass */
    method EnforceSidecars()
      requires forall a :: a in observed
      modifies this`blockingGaps, this`releaseDecisionAllowed, this`totalOpenGaps
      modifies this`gapSummary, this`criticalPath, this`nextRecommended
      ensures Derived()
      ensures blockingGaps == old(blockingGaps) + SignatureGaps(observed)
    {
      ghost var before := blockingGaps;
      var provider := Listed("provider_readiness_signature", SignatureGap(ProviderReadinessEvidence, observed[ProviderReadinessEvidence]));
      var decision := Listed(Id(SignedPromotionDecision) + "_signature", SignatureGap(SignedPromotionDecision, observed[SignedPromotionDecision]));
      var evaluator := Listed(Id(EvaluatorDecision) + "_signature", SignatureGap(EvaluatorDecision, observed[EvaluatorDecision]));
      blockingGaps := blockingGaps + provider;
      blockingGaps := blockingGaps + decision;
      blockingGaps := blockingGaps + evaluator;
      Assoc(before + provider, decision, evaluator);
      Assoc(before, provider, decision + evaluator);
      Derive();
    }
  }

  /**
   The gate as the support bundle runs it: it fails only if a sidecar it needs
   cannot be read, and otherwise allows the release decision exactly when the
   release is ready. There are never more than eleven gaps.
  */
  method Decide(entries: seq<IndexEntry>, files: Files, now: Artifact -> int) returns (r: Option<Readiness>)
    ensures r.Some? <==> SidecarsReadable(entries, files)
    ensures r.Some? ==>
              && fresh(r.value)
              && r.value.Derived()
              && (r.value.releaseDecisionAllowed <==> ReleaseReady(entries, files, now))
              && GapsSay(entries, now, r.value.blockingGaps)
              && (r.value.releaseDecisionAllowed ==> AllFresh(entries, now))
              && r.value.totalOpenGaps <= 11
              && var s := r.value.gapSummary;
                 r.value.totalOpenGaps == s.missingArtifacts + s.staleArtifacts + s.failedStatus
                                          + s.missingSignatures + s.unverifiedSignatures + s.untrustedSignatures
  {
    var gate := new Readiness(entries, now);
    ghost var first := gate.observed;
    var ok := gate.AttachAll(files);
    ReadableIff(entries, files, now, first);
    if !ok {
      return None;
    }
    SameObservations(entries, now, gate.observed, first);
    gate.EnforceSidecars();
    Verdict(entries, files, now, gate.observed);
    CountsAddUp(gate.blockingGaps);
    return Some(gate);
  }
}
