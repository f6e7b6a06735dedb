/**
 Bundle kinds and the content-addressed bundle files (bundle.rs), with the kind
 tables of the storage crate (lib.rs).
*/
module Bundles {
  import opened Wrappers
  import opened Utf8
  import opened IndexLog

  datatype BundleKind =
    | AcceptanceCodex
    | AcceptanceClaude
    | AcceptanceAntigravity
    | AiTaskBoard
    | ControlPlaneBundle
    | EvidencePack
    | EvidencePackSignature
    | HermesWatchdogPanel
    | MemoryExport
    | MemoryExportSignature
    | OperatorPacket
    | OperatorPacketSignature
    | Phase1PromotionChecklist
    | Phase1PromotionDecision
    | Phase1PromotionDecisionSignature
    | Phase1PromotionInputsVerification
    | ProviderReadiness
    | ProviderReadinessSignature
    | ProviderRegistry
    | ProviderRegistrySignature
    | ReleaseEvaluatorDecision
    | ReleaseEvaluatorDecisionSignature
    | ReleasePublication
    | ThreeOsReleaseSmoke
    | WindowsStackQualificationProgress

  function Subdir(k: BundleKind): string {
    match k
    case AcceptanceCodex => "acceptance/codex"
    case AcceptanceClaude => "acceptance/claude"
    case AcceptanceAntigravity => "acceptance/antigravity"
    case AiTaskBoard => "ai-task-board"
    case ControlPlaneBundle => "control-plane-bundle"
    case EvidencePack => "evidence-pack"
    case EvidencePackSignature => "evidence-pack-signature"
    case HermesWatchdogPanel => "hermes-watchdog-panel"
    case MemoryExport => "memory-export"
    case MemoryExportSignature => "memory-export-signature"
    case OperatorPacket => "operator-packet"
    case OperatorPacketSignature => "operator-packet-signature"
    case Phase1PromotionChecklist => "phase1-promotion-checklist"
    case Phase1PromotionDecision => "phase1-promotion-decision"
    case Phase1PromotionDecisionSignature => "phase1-promotion-decision-signature"
    case Phase1PromotionInputsVerification => "phase1-promotion-inputs-verification"
    case ProviderReadiness => "provider-readiness"
    case ProviderReadinessSignature => "provider-readiness-signature"
    case ProviderRegistry => "provider-registry"
    case ProviderRegistrySignature => "provider-registry-signature"
    case ReleaseEvaluatorDecision => "release-evaluator-decision"
    case ReleaseEvaluatorDecisionSignature => "release-evaluator-decision-signature"
    case ReleasePublication => "release-publication"
    case ThreeOsReleaseSmoke => "three-os-release-smoke"
    case WindowsStackQualificationProgress => "windows-stack-qualification-progress"
  }

  /** all_bundle_kinds */
  const ALL_KINDS: seq<BundleKind> := [
    AcceptanceCodex, AcceptanceClaude, AcceptanceAntigravity, ControlPlaneBundle, EvidencePack,
    EvidencePackSignature, HermesWatchdogPanel, MemoryExport, MemoryExportSignature, OperatorPacket,
    OperatorPacketSignature, Phase1PromotionChecklist, Phase1PromotionDecision,
    Phase1PromotionDecisionSignature, Phase1PromotionInputsVerification, ProviderReadiness,
    ProviderReadinessSignature, ProviderRegistry, ProviderRegistrySignature, ReleaseEvaluatorDecision,
    ReleaseEvaluatorDecisionSignature, ReleasePublication, ThreeOsReleaseSmoke]

  /** all_prunable_primary_kinds */
  const PRUNABLE_KINDS: seq<BundleKind> := [
    AcceptanceCodex, AcceptanceClaude, AcceptanceAntigravity, ControlPlaneBundle, EvidencePack,
    HermesWatchdogPanel, MemoryExport, OperatorPacket, Phase1PromotionChecklist, Phase1PromotionDecision,
    Phase1PromotionInputsVerification, ProviderReadiness, ProviderRegistry, ReleaseEvaluatorDecision,
    ReleasePublication, ThreeOsReleaseSmoke]

  /** The kinds that sweep_orphans lists. */
  const SWEPT_KINDS: seq<BundleKind> := [
    AcceptanceCodex, AcceptanceClaude, AcceptanceAntigravity, ControlPlaneBundle, EvidencePack,
    EvidencePackSignature, HermesWatchdogPanel, MemoryExport, MemoryExportSignature, OperatorPacket,
    OperatorPacketSignature, Phase1PromotionChecklist, Phase1PromotionDecision,
    Phase1PromotionDecisionSignature, ProviderReadiness, ProviderReadinessSignature, ProviderRegistry,
    ProviderRegistrySignature, ReleaseEvaluatorDecision, ReleaseEvaluatorDecisionSignature,
    ReleasePublication, ThreeOsReleaseSmoke]

  /** The sidecar kinds that are pruned with a kind. */
  function RelatedKinds(k: BundleKind): seq<BundleKind> {
    match k
    case EvidencePack => [EvidencePackSignature]
    case MemoryExport => [MemoryExportSignature]
    case OperatorPacket => [OperatorPacketSignature]
    case Phase1PromotionDecision => [Phase1PromotionDecisionSignature]
    case ProviderReadiness => [ProviderReadinessSignature]
    case ProviderRegistry => [ProviderRegistrySignature]
    case ReleaseEvaluatorDecision => [ReleaseEvaluatorDecisionSignature]
    case _ => []
  }

  function AcceptanceSchema(schema: string): Option<BundleKind> {
    if schema == "ao2.codex-provider-pilot-acceptance.v1" then Some(AcceptanceCodex)
    else if schema == "ao2.claude-provider-pilot-acceptance.v1" then Some(AcceptanceClaude)
    else if schema == "ao2.antigravity-provider-pilot-acceptance.v1" then Some(AcceptanceAntigravity)
    else if schema == "ao2.control-plane-fleet-bundle.v1" then Some(ControlPlaneBundle)
    else None
  }

  function EvidenceSchema(schema: string): Option<BundleKind> {
    if schema == "ao2.evidence-pack.v1" then Some(EvidencePack)
    else if schema == "factory-v3/hermes-ao2-watchdog-panel/v1" then Some(HermesWatchdogPanel)
    else if schema == "ao2.memory-export.v1" then Some(MemoryExport)
    else if schema == "ao2.operator-evidence-packet.v1" then Some(OperatorPacket)
    else None
  }

  function PromotionSchema(schema: string): Option<BundleKind> {
    if schema == "factory-v3/ao2-phase1-promotion-checklist/v1" then Some(Phase1PromotionChecklist)
    else if schema == "factory-v3/ao2-phase1-promotion-decision/v1" then Some(Phase1PromotionDecision)
    else if schema == "ao2.phase1-replacement-promotion-inputs-verification.v1" then Some(Phase1PromotionInputsVerification)
    else if schema == "factory-v3/hermes-provider-phase1-readiness/v1" then Some(ProviderReadiness)
    else None
  }

  function ReleaseSchema(schema: string): Option<BundleKind> {
    if schema == "ao2.provider-plugin-registry.v1" then Some(ProviderRegistry)
    else if schema == "factory-v3/ao2-release-evaluator-decision/v1" then Some(ReleaseEvaluatorDecision)
    else if schema == "ao2.release-publication-summary.v1" then Some(ReleasePublication)
    else if schema == "ao2-control-plane.three-os-release-smoke.v1" then Some(ThreeOsReleaseSmoke)
    else None
  }

  function OrElse(a: Option<BundleKind>, b: Option<BundleKind>): Option<BundleKind> { if a.Some? then a else b }

  /** The kind a schema stands for. */
  function SchemaKind(schema: string): Option<BundleKind> {
    OrElse(OrElse(AcceptanceSchema(schema), EvidenceSchema(schema)), OrElse(PromotionSchema(schema), ReleaseSchema(schema)))
  }

  function ProviderKind(provider: Option<string>): Option<BundleKind> {
    if provider == Some("codex") then Some(AcceptanceCodex)
    else if provider == Some("claude") then Some(AcceptanceClaude)
    else if provider == Some("antigravity") then Some(AcceptanceAntigravity)
    else None
  }

  /** entry_kind: by schema first, then by provider. */
  function EntryKind(e: IndexEntry): Option<BundleKind> { OrElse(SchemaKind(e.schema), ProviderKind(e.provider)) }

  lemma AcceptanceSchemaIs(schema: string)
    ensures AcceptanceSchema(schema) == Some(AcceptanceCodex) ==> schema == "ao2.codex-provider-pilot-acceptance.v1"
    ensures AcceptanceSchema(schema) == Some(AcceptanceClaude) ==> schema == "ao2.claude-provider-pilot-acceptance.v1"
    ensures AcceptanceSchema(schema) == Some(AcceptanceAntigravity) ==> schema == "ao2.antigravity-provider-pilot-acceptance.v1"
    ensures AcceptanceSchema(schema) == Some(ControlPlaneBundle) ==> schema == "ao2.control-plane-fleet-bundle.v1"
    ensures AcceptanceSchema(schema).None? ==>
              && schema != "ao2.codex-provider-pilot-acceptance.v1"
              && schema != "ao2.claude-provider-pilot-acceptance.v1"
              && schema != "ao2.antigravity-provider-pilot-acceptance.v1"
              && schema != "ao2.control-plane-fleet-bundle.v1"
    ensures AcceptanceSchema(schema).Some? ==> AcceptanceSchema(schema).value in [AcceptanceCodex, AcceptanceClaude, AcceptanceAntigravity, ControlPlaneBundle]
  {
  }

  lemma EvidenceSchemaIs(schema: string)
    ensures EvidenceSchema(schema) == Some(EvidencePack) ==> schema == "ao2.evidence-pack.v1"
    ensures EvidenceSchema(schema) == Some(HermesWatchdogPanel) ==> schema == "factory-v3/hermes-ao2-watchdog-panel/v1"
    ensures EvidenceSchema(schema) == Some(MemoryExport) ==> schema == "ao2.memory-export.v1"
    ensures EvidenceSchema(schema) == Some(OperatorPacket) ==> schema == "ao2.operator-evidence-packet.v1"
    ensures EvidenceSchema(schema).None? ==>
              && schema != "ao2.evidence-pack.v1"
              && schema != "factory-v3/hermes-ao2-watchdog-panel/v1"
              && schema != "ao2.memory-export.v1"
              && schema != "ao2.operator-evidence-packet.v1"
    ensures EvidenceSchema(schema).Some? ==> EvidenceSchema(schema).value in [EvidencePack, HermesWatchdogPanel, MemoryExport, OperatorPacket]
  {
  }

  lemma PromotionSchemaIs(schema: string)
    ensures PromotionSchema(schema) == Some(Phase1PromotionChecklist) ==> schema == "factory-v3/ao2-phase1-promotion-checklist/v1"
    ensures PromotionSchema(schema) == Some(Phase1PromotionDecision) ==> schema == "factory-v3/ao2-phase1-promotion-decision/v1"
    ensures PromotionSchema(schema) == Some(Phase1PromotionInputsVerification) ==> schema == "ao2.phase1-replacement-promotion-inputs-verification.v1"
    ensures PromotionSchema(schema) == Some(ProviderReadiness) ==> schema == "factory-v3/hermes-provider-phase1-readiness/v1"
    ensures PromotionSchema(schema).None? ==>
              && schema != "factory-v3/ao2-phase1-promotion-checklist/v1"
              && schema != "factory-v3/ao2-phase1-promotion-decision/v1"
              && schema != "ao2.phase1-replacement-promotion-inputs-verification.v1"
              && schema != "factory-v3/hermes-provider-phase1-readiness/v1"
    ensures PromotionSchema(schema).Some? ==> PromotionSchema(schema).value in [Phase1PromotionChecklist, Phase1PromotionDecision, Phase1PromotionInputsVerification, ProviderReadiness]
  {
  }

  lemma ReleaseSchemaIs(schema: string)
    ensures ReleaseSchema(schema) == Some(ProviderRegistry) ==> schema == "ao2.provider-plugin-registry.v1"
    ensures ReleaseSchema(schema) == Some(ReleaseEvaluatorDecision) ==> schema == "factory-v3/ao2-release-evaluator-decision/v1"
    ensures ReleaseSchema(schema) == Some(ReleasePublication) ==> schema == "ao2.release-publication-summary.v1"
    ensures ReleaseSchema(schema) == Some(ThreeOsReleaseSmoke) ==> schema == "ao2-control-plane.three-os-release-smoke.v1"
    ensures ReleaseSchema(schema).None? ==>
              && schema != "ao2.provider-plugin-registry.v1"
              && schema != "factory-v3/ao2-release-evaluator-decision/v1"
              && schema != "ao2.release-publication-summary.v1"
              && schema != "ao2-control-plane.three-os-release-smoke.v1"
    ensures ReleaseSchema(schema).Some? ==> ReleaseSchema(schema).value in [ProviderRegistry, ReleaseEvaluatorDecision, ReleasePublication, ThreeOsReleaseSmoke]
  {
  }

  lemma ProviderKindIs(provider: Option<string>)
    ensures ProviderKind(provider) == Some(AcceptanceCodex) <==> provider == Some("codex")
    ensures ProviderKind(provider) == Some(AcceptanceClaude) <==> provider == Some("claude")
    ensures ProviderKind(provider) == Some(AcceptanceAntigravity) <==> provider == Some("antigravity")
    ensures ProviderKind(provider).Some? ==> provider.Some? && provider.value in ["codex", "claude", "antigravity"]
    ensures ProviderKind(provider).Some? ==> ProviderKind(provider).value in [AcceptanceCodex, AcceptanceClaude, AcceptanceAntigravity]
  {
    assert |"codex"| == 5 && |"claude"| == 6 && |"antigravity"| == 11;
  }

  lemma Either(a: Option<BundleKind>, b: Option<BundleKind>)
    ensures OrElse(a, b) == a || (a.None? && OrElse(a, b) == b)
    ensures OrElse(a, b).None? <==> a.None? && b.None?
  {
  }

  /**
   A schema of a kind decides, whatever the provider is; with a schema of no kind
   an entry is an acceptance of the provider it names, or of no kind.
  */
  lemma EntryKindIs(e: IndexEntry)
    ensures SchemaKind(e.schema).Some? ==> EntryKind(e) == SchemaKind(e.schema)
    ensures SchemaKind(e.schema).None? ==>
              && (EntryKind(e) == Some(AcceptanceCodex) <==> e.provider == Some("codex"))
              && (EntryKind(e) == Some(AcceptanceClaude) <==> e.provider == Some("claude"))
              && (EntryKind(e) == Some(AcceptanceAntigravity) <==> e.provider == Some("antigravity"))
              && (EntryKind(e).Some? ==> e.provider.Some? && e.provider.value in ["codex", "claude", "antigravity"])
  {
    ProviderKindIs(e.provider);
    Either(SchemaKind(e.schema), ProviderKind(e.provider));
  }

  lemma SchemaKindIsPrunable(schema: string)
    ensures SchemaKind(schema).Some? ==> SchemaKind(schema).value in PRUNABLE_KINDS
  {
    var a, b, c, d := AcceptanceSchema(schema), EvidenceSchema(schema), PromotionSchema(schema), ReleaseSchema(schema);
    AcceptanceSchemaIs(schema);
    EvidenceSchemaIs(schema);
    PromotionSchemaIs(schema);
    ReleaseSchemaIs(schema);
    PrunableGroups(a, b, c, d);
  }

  lemma PrunableGroups(a: Option<BundleKind>, b: Option<BundleKind>, c: Option<BundleKind>, d: Option<BundleKind>)
    requires a.Some? ==> a.value in [AcceptanceCodex, AcceptanceClaude, AcceptanceAntigravity, ControlPlaneBundle]
    requires b.Some? ==> b.value in [EvidencePack, HermesWatchdogPanel, MemoryExport, OperatorPacket]
    requires c.Some? ==>
               c.value in [Phase1PromotionChecklist, Phase1PromotionDecision, Phase1PromotionInputsVerification, ProviderReadiness]
    requires d.Some? ==> d.value in [ProviderRegistry, ReleaseEvaluatorDecision, ReleasePublication, ThreeOsReleaseSmoke]
    ensures var k := OrElse(OrElse(a, b), OrElse(c, d)); k.Some? ==> k.value in PRUNABLE_KINDS
  {
    var k := OrElse(OrElse(a, b), OrElse(c, d));
    if k.Some? {
      PrunableBut(k.value);
    }
  }

  lemma EntryKindIsPrunable(e: IndexEntry)
    ensures EntryKind(e).Some? ==> EntryKind(e).value in PRUNABLE_KINDS
  {
    SchemaKindIsPrunable(e.schema);
    ProviderKindIs(e.provider);
  }

  /** Every kind that pruning deletes is among those bundle_kind_from_subdir knows. */
  lemma PrunedKindsAreListed(k: BundleKind, r: BundleKind)
    ensures k in PRUNABLE_KINDS ==> k in ALL_KINDS
    ensures k in PRUNABLE_KINDS && r in RelatedKinds(k) ==> r in ALL_KINDS && r != k
  {
    PrunableListed(k);
    RelatedListed(k, r);
  }

  lemma PrunableListed(k: BundleKind)
    ensures k in PRUNABLE_KINDS ==> k in ALL_KINDS
  {
  }

  lemma RelatedListed(k: BundleKind, r: BundleKind)
    ensures r in RelatedKinds(k) ==> r in ALL_KINDS && r != k
  {
  }

  function FindKind(kinds: seq<BundleKind>, name: string): Option<BundleKind> {
    if kinds == [] then None
    else if Subdir(kinds[0]) == name then Some(kinds[0])
    else FindKind(kinds[1..], name)
  }

  /** bundle_kind_from_subdir */
  function KindFromSubdir(name: string): Option<BundleKind> { FindKind(ALL_KINDS, name) }

  /** The last letter of a directory name, or for two names that end alike the one before their common end. */
  function Letter(name: string): char
    requires name != ""
  {
    if |name| == 23 then name[12] else name[|name| - 1]
  }

  /** The length and that letter tell the kinds apart. */
  function NameCode(k: BundleKind): (nat, char) {
    match k
    case AcceptanceCodex => (16, 'x')
    case AcceptanceClaude => (17, 'e')
    case AcceptanceAntigravity => (22, 'y')
    case AiTaskBoard => (13, 'd')
    case ControlPlaneBundle => (20, 'e')
    case EvidencePack => (13, 'k')
    case EvidencePackSignature => (23, 'k')
    case HermesWatchdogPanel => (21, 'l')
    case MemoryExport => (13, 't')
    case MemoryExportSignature => (23, 't')
    case OperatorPacket => (15, 't')
    case OperatorPacketSignature => (25, 'e')
    case Phase1PromotionChecklist => (26, 't')
    case Phase1PromotionDecision => (25, 'n')
    case Phase1PromotionDecisionSignature => (35, 'e')
    case Phase1PromotionInputsVerification => (36, 'n')
    case ProviderReadiness => (18, 's')
    case ProviderReadinessSignature => (28, 'e')
    case ProviderRegistry => (17, 'y')
    case ProviderRegistrySignature => (27, 'e')
    case ReleaseEvaluatorDecision => (26, 'n')
    case ReleaseEvaluatorDecisionSignature => (36, 'e')
    case ReleasePublication => (19, 'n')
    case ThreeOsReleaseSmoke => (22, 'e')
    case WindowsStackQualificationProgress => (36, 's')
  }

  lemma SubdirLength(k: BundleKind)
    ensures |Subdir(k)| == NameCode(k).0
  {
  }

  lemma SubdirLetter(k: BundleKind)
    ensures Subdir(k) != "" && Letter(Subdir(k)) == NameCode(k).1
  {
  }

  lemma NameCodeInjective(a: BundleKind, b: BundleKind)
    ensures NameCode(a) == NameCode(b) ==> a == b
  {
  }

  lemma SubdirInjective(a: BundleKind, b: BundleKind)
    ensures Subdir(a) == Subdir(b) ==> a == b
  {
    SubdirLength(a);
    SubdirLength(b);
    SubdirLetter(a);
    SubdirLetter(b);
    NameCodeInjective(a, b);
  }

  lemma {:induction false} FindKindFinds(kinds: seq<BundleKind>, k: BundleKind)
    requires k in kinds
    ensures FindKind(kinds, Subdir(k)) == Some(k)
  {
    SubdirInjective(kinds[0], k);
    if kinds[0] != k {
      FindKindFinds(kinds[1..], k);
    }
  }

  /** Directory names map back to their kinds. */
  lemma SubdirRoundTrip(k: BundleKind)
    requires k in ALL_KINDS
    ensures KindFromSubdir(Subdir(k)) == Some(k)
  {
    FindKindFinds(ALL_KINDS, k);
  }

  // ---- the tables, read off the directory names ----

  /** A directory of signature sidecars. */
  predicate IsSidecarDir(name: string) {
    |name| >= 10 && name[|name| - 10..] == "-signature"
  }

  /** The kind whose sidecars these are. */
  function SignedKind(r: BundleKind): Option<BundleKind> {
    match r
    case EvidencePackSignature => Some(EvidencePack)
    case MemoryExportSignature => Some(MemoryExport)
    case OperatorPacketSignature => Some(OperatorPacket)
    case Phase1PromotionDecisionSignature => Some(Phase1PromotionDecision)
    case ProviderReadinessSignature => Some(ProviderReadiness)
    case ProviderRegistrySignature => Some(ProviderRegistry)
    case ReleaseEvaluatorDecisionSignature => Some(ReleaseEvaluatorDecision)
    case _ => None
  }

  lemma LastLetters(r: BundleKind)
    requires r.AcceptanceClaude? || r.ControlPlaneBundle? || r.ThreeOsReleaseSmoke?
    ensures |Subdir(r)| > 10 && Subdir(r)[|Subdir(r)| - 4] != 't'
  {
  }

  lemma LettersOfSuffix(name: string)
    requires IsSidecarDir(name)
    ensures name[|name| - 1] == 'e' && name[|name| - 4] == 't'
  {
    var end := name[|name| - 10..];
    assert end[9] == 'e' && end[6] == 't';
  }

  lemma NoSidecarDir(r: BundleKind)
    requires SignedKind(r).None?
    ensures !IsSidecarDir(Subdir(r))
  {
    SubdirLength(r);
    SubdirLetter(r);
    if IsSidecarDir(Subdir(r)) {
      LettersOfSuffix(Subdir(r));
      if r.AcceptanceClaude? || r.ControlPlaneBundle? || r.ThreeOsReleaseSmoke? {
        LastLetters(r);
      }
    }
  }

  lemma EvidenceDir()
    ensures Subdir(EvidencePackSignature) == Subdir(EvidencePack) + "-signature"
  {
  }

  lemma MemoryDir()
    ensures Subdir(MemoryExportSignature) == Subdir(MemoryExport) + "-signature"
  {
  }

  lemma OperatorDir()
    ensures Subdir(OperatorPacketSignature) == Subdir(OperatorPacket) + "-signature"
  {
  }

  lemma PromotionDir()
    ensures Subdir(Phase1PromotionDecisionSignature) == Subdir(Phase1PromotionDecision) + "-signature"
  {
  }

  lemma ReadinessDir()
    ensures Subdir(ProviderReadinessSignature) == Subdir(ProviderReadiness) + "-signature"
  {
  }

  lemma RegistryDir()
    ensures Subdir(ProviderRegistrySignature) == Subdir(ProviderRegistry) + "-signature"
  {
  }

  lemma EvaluatorDir()
    ensures Subdir(ReleaseEvaluatorDecisionSignature) == Subdir(ReleaseEvaluatorDecision) + "-signature"
  {
  }

  lemma SignedDir(r: BundleKind)
    requires SignedKind(r).Some?
    ensures Subdir(r) == Subdir(SignedKind(r).value) + "-signature"
  {
    match r {
      case EvidencePackSignature => EvidenceDir();
      case MemoryExportSignature => MemoryDir();
      case OperatorPacketSignature => OperatorDir();
      case Phase1PromotionDecisionSignature => PromotionDir();
      case ProviderReadinessSignature => ReadinessDir();
      case ProviderRegistrySignature => RegistryDir();
      case _ => EvaluatorDir();
    }
  }

  lemma SuffixOf(base: string)
    ensures IsSidecarDir(base + "-signature") && (base + "-signature")[..|base|] == base
  {
    assert (base + "-signature")[|base|..] == "-signature";
  }

  lemma RelatedIsSigned(k: BundleKind, r: BundleKind)
    ensures r in RelatedKinds(k) <==> SignedKind(r) == Some(k)
  {
  }

  lemma SignedDirIs(k: BundleKind, r: BundleKind)
    requires SignedKind(r).Some?
    ensures Subdir(r) == Subdir(k) + "-signature" <==> SignedKind(r).value == k
  {
    SignedDir(r);
    SameBase(Subdir(k), Subdir(SignedKind(r).value));
    SubdirInjective(k, SignedKind(r).value);
  }

  lemma OtherDir(k: BundleKind, r: BundleKind)
    requires SignedKind(r).None?
    ensures Subdir(r) != Subdir(k) + "-signature"
  {
    NoSidecarDir(r);
    SuffixOf(Subdir(k));
  }

  /** The kinds pruned with a kind are those whose directory is its own with "-signature" after it. */
  lemma RelatedKindsByName(k: BundleKind, r: BundleKind)
    ensures r in RelatedKinds(k) <==> Subdir(r) == Subdir(k) + "-signature"
  {
    RelatedIsSigned(k, r);
    if SignedKind(r).Some? {
      SignedDirIs(k, r);
    } else {
      OtherDir(k, r);
    }
  }

  lemma SameBase(a: string, b: string)
    ensures a + "-signature" == b + "-signature" ==> a == b
  {
    SuffixOf(a);
    SuffixOf(b);
    if a + "-signature" == b + "-signature" {
      assert |a| == |b|;
    }
  }

  /** All but two kinds are listed. */
  lemma ListedKinds(k: BundleKind)
    ensures k in ALL_KINDS <==> Subdir(k) != "ai-task-board" && Subdir(k) != "windows-stack-qualification-progress"
  {
    AllBut(k);
    SubdirInjective(k, AiTaskBoard);
    SubdirInjective(k, WindowsStackQualificationProgress);
  }

  /** The prunable kinds are the listed ones that are not sidecars. */
  lemma PrunableKinds(k: BundleKind)
    ensures k in PRUNABLE_KINDS <==> k in ALL_KINDS && !IsSidecarDir(Subdir(k))
  {
    AllBut(k);
    PrunableBut(k);
    if SignedKind(k).Some? {
      SignedDir(k);
      SuffixOf(Subdir(SignedKind(k).value));
    } else {
      NoSidecarDir(k);
    }
  }

  /** The sweep leaves out the inputs verifications alone. */
  lemma SweptKinds(k: BundleKind)
    ensures k in SWEPT_KINDS <==> k in ALL_KINDS && Subdir(k) != "phase1-promotion-inputs-verification"
  {
    AllBut(k);
    SweptBut(k);
    SubdirInjective(k, Phase1PromotionInputsVerification);
  }

  lemma AllBut(k: BundleKind)
    ensures k in ALL_KINDS <==> k != AiTaskBoard && k != WindowsStackQualificationProgress
  {
  }

  lemma PrunableBut(k: BundleKind)
    ensures k in PRUNABLE_KINDS <==>
            SignedKind(k).None? && k != AiTaskBoard && k != WindowsStackQualificationProgress
  {
  }

  lemma SweptBut(k: BundleKind)
    ensures k in SWEPT_KINDS <==>
            k != AiTaskBoard && k != WindowsStackQualificationProgress && k != Phase1PromotionInputsVerification
  {
  }

  // ---- the files ----

  /** The path of a published bundle. */
  datatype Loc = Loc(kind: BundleKind, sha: string)

  /** A temporary file beside a bundle: process id and process-local counter make it unique. */
  datatype TempName = TempName(loc: Loc, pid: nat, n: nat)

  type Files = map<Loc, seq<Byte>>

  /** The sidecar of a signed upload: its kind and its bytes. */
  datatype Sidecar = Sidecar(kind: BundleKind, raw: seq<Byte>)

  function FileSize(files: Files, loc: Loc): nat {
    if loc in files then |files[loc]| else 0
  }

  function WithFile(files: Files, loc: Loc, raw: seq<Byte>): Files {
    if loc in files then files else files[loc := raw]
  }

  /** The files after an upload that nothing disturbs, and whether its sidecar agrees with the one there. */
  function AfterUpload(files: Files, kind: BundleKind, sha: string, raw: seq<Byte>, sidecar: Option<Sidecar>): (Files, bool) {
    var f := WithFile(files, Loc(kind, sha), raw);
    match sidecar
    case None => (f, true)
    case Some(s) =>
      var loc := Loc(s.kind, sha);
      if loc in f && f[loc] != s.raw then (f, false) else (WithFile(f, loc, s.raw), true)
  }

  datatype WriteFault = NoFault | TempWriteStops(k: nat, cleaned: bool) | RenameFails(cleaned: bool)

  class BundleStore {
    const pid: nat
    var counter: nat
    var files: Files
    var temps: map<TempName, seq<Byte>>

    constructor (pid: nat, files: Files, temps: map<TempName, seq<Byte>>)
      ensures this.pid == pid && this.files == files && this.temps == temps && counter == 0
    {
      this.pid, this.files, this.temps := pid, files, temps;
      counter := 0;
    }

    /**
     write: the bytes go to a fresh temporary file that is renamed into place.
     The published path holds its old content or all of the new, whatever fails.
    */
    method Write(kind: BundleKind, sha: string, bytes: seq<Byte>, fault: WriteFault) returns (ok: bool)
      modifies this
      ensures counter == old(counter) + 1
      ensures ok <==> fault.NoFault?
      ensures ok ==> files == old(files)[Loc(kind, sha) := bytes]
      ensures !ok ==> files == old(files)
      ensures var tmp := TempName(Loc(kind, sha), pid, old(counter));
              temps - {tmp} == old(temps) - {tmp} &&
              (ok || fault.cleaned ==> tmp !in temps)
    {
      var loc := Loc(kind, sha);
      var tmp := TempName(loc, pid, counter);
      counter := counter + 1;
      match fault {
        case NoFault =>
          temps := temps[tmp := bytes];
          files := files[loc := temps[tmp]];
          temps := temps - {tmp};
          return true;
        case TempWriteStops(k, cleaned) =>
          temps := temps[tmp := bytes[..if k < |bytes| then k else |bytes|]];
          if cleaned {
            temps := temps - {tmp};
          }
          return false;
        case RenameFails(cleaned) =>
          temps := temps[tmp := bytes];
          if cleaned {
            temps := temps - {tmp};
          }
          return false;
      }
    }

    predicate Exists(kind: BundleKind, sha: string)
      reads this
    {
      Loc(kind, sha) in files
    }

    method Read(kind: BundleKind, sha: string) returns (r: Option<seq<Byte>>)
      ensures r == if Loc(kind, sha) in files then Some(files[Loc(kind, sha)]) else None
    {
      if Loc(kind, sha) in files {
        return Some(files[Loc(kind, sha)]);
      }
      return None;
    }

    method RemoveIfExists(kind: BundleKind, sha: string) returns (removed: bool)
      modifies this`files
      ensures removed <==> Loc(kind, sha) in old(files)
      ensures files == old(files) - {Loc(kind, sha)}
    {
      removed := Loc(kind, sha) in files;
      files := files - {Loc(kind, sha)};
    }

    /** list: the shas of the published files of a kind; temporary names do not match. */
    method List(kind: BundleKind) returns (shas: seq<string>)
      ensures forall sha :: sha in shas <==> Loc(kind, sha) in files
      ensures forall i, j :: 0 <= i < j < |shas| ==> shas[i] != shas[j]
    {
      shas := [];
      var rest := set loc | loc in files && loc.kind == kind;
      while rest != {}
        invariant forall loc :: loc in rest ==> loc in files && loc.kind == kind
        invariant forall sha :: Loc(kind, sha) in files <==> sha in shas || Loc(kind, sha) in rest
        invariant forall sha :: sha in shas ==> Loc(kind, sha) !in rest
        invariant forall i, j :: 0 <= i < j < |shas| ==> shas[i] != shas[j]
      {
        var loc :| loc in rest;
        rest := rest - {loc};
        assert loc == Loc(kind, loc.sha);
        shas := shas + [loc.sha];
      }
    }
  }
}
