/**
 The offline verifier of release support bundles (verify_release_support_bundle.py):
 which bundles pass, what a pass means, and when it means less than intended; and
 the comparison of two bundles. A bundle is the value json.loads gives, so its
 object keys are distinct.
*/
module Verifier {
  import opened Wrappers
  import opened Sequences
  import opened Utf8
  import opened Json
  import opened JsonLookup
  import opened Canonical
  import IndexLog

  // ---- surfaces ----

  datatype Surface =
    | CiEvidenceIndex
    | ReleaseAssembly
    | ReleaseReadiness
    | CandidateHandoff
    | ReleaseCockpit
    | EvaluatorDecision
    | InstallVerification
    | HostedSmoke
    | StorageSupport

  const SURFACES: seq<Surface> := [
    CiEvidenceIndex, ReleaseAssembly, ReleaseReadiness, CandidateHandoff, ReleaseCockpit, EvaluatorDecision,
    InstallVerification, HostedSmoke, StorageSupport]

  function SurfaceId(s: Surface): string {
    match s
    case CiEvidenceIndex => "ci_evidence_index"
    case ReleaseAssembly => "release_assembly"
    case ReleaseReadiness => "release_readiness"
    case CandidateHandoff => "release_candidate_handoff"
    case ReleaseCockpit => "release_cockpit"
    case EvaluatorDecision => "release_evaluator_decision"
    case InstallVerification => "install_verification"
    case HostedSmoke => "hosted_release_smoke"
    case StorageSupport => "storage_support_bundle"
  }

  /** The member of the bundle that holds the surface. */
  function Part(s: Surface): string {
    match s
    case CiEvidenceIndex => "ci_evidence_index"
    case ReleaseAssembly => "release_assembly"
    case ReleaseReadiness => "readiness"
    case CandidateHandoff => "handoff"
    case ReleaseCockpit => "cockpit"
    case EvaluatorDecision => "evaluator_decision"
    case InstallVerification => "install_verification"
    case HostedSmoke => "hosted_release_smoke"
    case StorageSupport => "storage_support"
  }

  function JsonPath(s: Surface): string { "$." + Part(s) }

  /** The length of an id and its first letter tell the surfaces apart. */
  function IdCode(s: Surface): (nat, char) {
    match s
    case CiEvidenceIndex => (17, 'c')
    case ReleaseAssembly => (16, 'r')
    case ReleaseReadiness => (17, 'r')
    case CandidateHandoff => (25, 'r')
    case ReleaseCockpit => (15, 'r')
    case EvaluatorDecision => (26, 'r')
    case InstallVerification => (20, 'i')
    case HostedSmoke => (20, 'h')
    case StorageSupport => (22, 's')
  }

  lemma IdHasCode(s: Surface)
    ensures |SurfaceId(s)| == IdCode(s).0 && SurfaceId(s)[0] == IdCode(s).1
  {
  }

  lemma IdInjective(s: Surface, t: Surface)
    ensures SurfaceId(s) == SurfaceId(t) <==> s == t
  {
    IdHasCode(s);
    IdHasCode(t);
    assert IdCode(s) == IdCode(t) <==> s == t;
  }

  lemma EverySurfaceListed(s: Surface)
    ensures s in SURFACES
  {
  }

  /** The surfaces that must hold a candidate correlation, and its field name. */
  const CORRELATED: seq<(Surface, string)> := [
    (ReleaseCockpit, "candidate_correlation"), (CandidateHandoff, "candidate_correlation"),
    (ReleaseReadiness, "candidate_correlation"), (ReleaseAssembly, "candidate_correlation_detail")]

  /** The surfaces an operator triages on. */
  const TRIAGE: seq<Surface> := [ReleaseCockpit, CandidateHandoff, ReleaseReadiness]

  const PARITY_VERDICTS: seq<string> := ["candidate_correlation_parity", "surface_content_hash_parity"]

  // ---- the parts of a bundle ----

  /** dict.get with a default */
  function Lookup(v: Json, key: string, otherwise: Json): Json {
    match Get(v, key) case None => otherwise case Some(x) => x
  }

  function Manifest(b: Json): Json { Lookup(b, "portable_bundle_manifest", Obj([])) }

  function Integrity(b: Json): Json { Lookup(Manifest(b), "integrity", Obj([])) }

  function Included(b: Json): Json { Lookup(Manifest(b), "included_surfaces", Arr([])) }

  function Digests(b: Json): Json { Lookup(Integrity(b), "surface_sha256", Obj([])) }

  function Plan(b: Json): Json { Lookup(Integrity(b), "verification_plan", Obj([])) }

  function Trust(b: Json): Json { Lookup(b, "trust_boundary", Obj([])) }

  /** The manifest entries, none if they are not an array. */
  function Entries(b: Json): seq<Json> { if Included(b).Arr? then Included(b).items else [] }

  function EntryId(entry: Json): Json { Lookup(entry, "id", Str("missing")) }

  function Ids(entries: seq<Json>): seq<Json> { Map(entries, (entry: Json) => EntryId(entry)) }

  /** get_surface, for one of the nine. */
  function GetSurface(b: Json, s: Surface): Option<Json> { Get(b, Part(s)) }

  function FindSurface(surfaces: seq<Surface>, id: string): Option<Surface> {
    if surfaces == [] then None
    else if SurfaceId(surfaces[0]) == id then Some(surfaces[0])
    else FindSurface(surfaces[1..], id)
  }

  function SurfaceOf(id: Json): Option<Surface> {
    if id.Str? then FindSurface(SURFACES, id.text) else None
  }

  lemma {:induction false} FindFinds(surfaces: seq<Surface>, s: Surface)
    requires s in surfaces
    ensures FindSurface(surfaces, SurfaceId(s)) == Some(s)
  {
    IdInjective(surfaces[0], s);
    if surfaces[0] != s {
      FindFinds(surfaces[1..], s);
    }
  }

  lemma {:induction false} FoundSurface(surfaces: seq<Surface>, id: string)
    ensures FindSurface(surfaces, id).Some? ==> SurfaceId(FindSurface(surfaces, id).value) == id
  {
    if surfaces != [] && SurfaceId(surfaces[0]) != id {
      FoundSurface(surfaces[1..], id);
    }
  }

  lemma SurfaceOfId(s: Surface, id: Json)
    ensures SurfaceOf(id) == Some(s) <==> id == Str(SurfaceId(s))
  {
    EverySurfaceListed(s);
    FindFinds(SURFACES, s);
    if id.Str? {
      FoundSurface(SURFACES, id.text);
    }
  }

  /**
   Python strings compare only with strings; `eq` is its equality on other values.
   The flat checks of two surfaces are given.
  */
  datatype Env = Env(h: Hasher, eq: (Json, Json) -> bool, ciAccepts: Json -> bool, hostedAccepts: Json -> bool) {
    ghost predicate Valid() {
      && h.Injective()
      && (forall x :: IsHexText(h.sum(x)))
      && (forall x, y :: WellFormed(x) && WellFormed(y) && SameValue(x, y) ==> eq(x, y))
    }
  }

  /** Hexadecimal digits only, as a digest is written. */
  predicate IsHexText(t: string) {
    forall i :: 0 <= i < |t| ==> IndexLog.IsHex(t[i])
  }

  function HexText(bs: seq<Byte>): (t: string)
    ensures |t| == 2 * |bs|
  {
    if bs == [] then "" else [DigitChar(bs[0] / 16), DigitChar(bs[0] % 16)] + HexText(bs[1..])
  }

  lemma {:induction false} HexTextIsHex(bs: seq<Byte>)
    ensures IsHexText(HexText(bs))
  {
    if bs != [] {
      HexTextIsHex(bs[1..]);
    }
  }

  lemma {:induction false} HexTextInjective(x: seq<Byte>, y: seq<Byte>)
    requires HexText(x) == HexText(y)
    ensures x == y
  {
    if x != [] {
      assert HexText(x)[2..] == HexText(x[1..]) && HexText(y)[2..] == HexText(y[1..]);
      DigitCharInjective(x[0] / 16, y[0] / 16);
      DigitCharInjective(x[0] % 16, y[0] % 16);
      HexTextInjective(x[1..], y[1..]);
      HeadTail(x);
      HeadTail(y);
    }
  }

  lemma DigitCharInjective(c: int, d: int)
    requires 0 <= c < 16 && 0 <= d < 16 && DigitChar(c) == DigitChar(d)
    ensures c == d
  {
  }

  /** The assumptions on digests and equality can be met, whatever the two flat checks are. */
  lemma ValidEnv(ciAccepts: Json -> bool, hostedAccepts: Json -> bool) returns (env: Env)
    ensures env.Valid() && env.ciAccepts == ciAccepts && env.hostedAccepts == hostedAccepts
  {
    env := Env(Hasher(bs => HexText(bs)), (x, y) => Canon(x) == Canon(y), ciAccepts, hostedAccepts);
    forall x, y | HexText(x) == HexText(y) ensures x == y {
      HexTextInjective(x, y);
    }
    forall x ensures IsHexText(env.h.sum(x)) {
      HexTextIsHex(x);
    }
    forall x, y | WellFormed(x) && WellFormed(y) && SameValue(x, y) ensures env.eq(x, y) {
      CanonicalTextIdentifies(x, y);
    }
  }

  /** sha256_canonical */
  function PyDigest(h: Hasher, v: Json): string { h.sum(Encode(PythonCanon(v))) }

  lemma PyDigestIdentifies(h: Hasher, a: Json, b: Json)
    requires h.Injective() && WellFormed(a) && WellFormed(b)
    ensures PyDigest(h, a) == PyDigest(h, b) <==> SameValue(a, b)
  {
    NormalAgrees(a);
    NormalAgrees(b);
    DigestIdentifies(h, a, b);
  }

  /** The text that stands for the digest of a surface that cannot be found. */
  function ErrorText(s: Surface): string { "error:'" + SurfaceId(s) + "'" }

  lemma ErrorTextIsNoDigest(s: Surface)
    ensures !IsHexText(ErrorText(s))
  {
    assert ErrorText(s)[1] == 'r';
    assert !IndexLog.IsHex('r');
  }

  // ---- what each check asks ----

  /** What an entry is compared with: an unknown id stands for the whole bundle. */
  function Recomputed(env: Env, b: Json, id: Json): string {
    match SurfaceOf(id)
    case None => PyDigest(env.h, b)
    case Some(s) => match GetSurface(b, s) case None => ErrorText(s) case Some(v) => PyDigest(env.h, v)
  }

  function EmbeddedSchema(b: Json, id: Json): Json {
    match SurfaceOf(id)
    case None => Lookup(b, "schema_version", Str("missing"))
    case Some(s) =>
      match GetSurface(b, s)
      case None => Str("missing")
      case Some(v) => Lookup(v, "schema_version", Str("missing"))
  }

  function ExpectedPath(id: Json): string {
    match SurfaceOf(id) case None => "missing" case Some(s) => JsonPath(s)
  }

  function DigestTable(b: Json): Json { if Digests(b).Obj? then Digests(b) else Obj([]) }

  function IntegritySha(b: Json, id: Json): Json {
    if id.Str? then Lookup(DigestTable(b), id.text, Str("missing")) else Str("missing")
  }

  predicate EntryMatches(env: Env, b: Json, entry: Json) {
    var id, manifestSha := EntryId(entry), Lookup(entry, "sha256", Str("missing"));
    && Lookup(entry, "path", Str("missing")) == Str(ExpectedPath(id))
    && manifestSha != Str("missing")
    && IntegritySha(b, id) != Str("missing")
    && manifestSha == IntegritySha(b, id)
    && IntegritySha(b, id) == Str(Recomputed(env, b, id))
    && env.eq(Lookup(entry, "schema_version", Str("missing")), EmbeddedSchema(b, id))
  }

  /** The two surfaces with a check of their own must be there and pass it. */
  predicate SemanticsOk(env: Env, b: Json, id: Json) {
    && (id == Str("ci_evidence_index") ==> GetSurface(b, CiEvidenceIndex).Some? && env.ciAccepts(GetSurface(b, CiEvidenceIndex).value))
    && (id == Str("hosted_release_smoke") ==> GetSurface(b, HostedSmoke).Some? && env.hostedAccepts(GetSurface(b, HostedSmoke).value))
  }

  predicate EntryOk(env: Env, b: Json, entry: Json) {
    entry.Obj? && EntryMatches(env, b, entry) && SemanticsOk(env, b, EntryId(entry))
  }

  /** Every entry is in order. */
  predicate EntriesOk(env: Env, b: Json, entries: seq<Json>) {
    entries == [] || (EntriesOk(env, b, entries[..|entries| - 1]) && EntryOk(env, b, entries[|entries| - 1]))
  }

  lemma {:induction false} EntriesOkEach(env: Env, b: Json, entries: seq<Json>, i: nat)
    requires EntriesOk(env, b, entries) && i < |entries|
    ensures EntryOk(env, b, entries[i])
  {
    if i < |entries| - 1 {
      EntriesOkEach(env, b, entries[..|entries| - 1], i);
    }
  }

  predicate IdsKnown(ids: seq<Json>) {
    ids == [] || (IdsKnown(ids[..|ids| - 1]) && SurfaceOf(ids[|ids| - 1]).Some?)
  }

  lemma {:induction false} IdsKnownEach(ids: seq<Json>, i: nat)
    requires IdsKnown(ids) && i < |ids|
    ensures SurfaceOf(ids[i]).Some?
  {
    if i < |ids| - 1 {
      IdsKnownEach(ids[..|ids| - 1], i);
    }
  }

  lemma {:induction false} IdsKnownAll(ids: seq<Json>)
    requires forall i :: 0 <= i < |ids| ==> SurfaceOf(ids[i]).Some?
    ensures IdsKnown(ids)
  {
    if ids != [] {
      IdsKnownAll(ids[..|ids| - 1]);
    }
  }

  predicate IdsOk(ids: seq<Json>) {
    && |ids| == 9
    && (forall s: Surface :: Str(SurfaceId(s)) in ids)
    && IdsKnown(ids)
    && NoRepeats(ids)
  }

  predicate HeadOk(env: Env, b: Json) {
    && Get(b, "schema_version") == Some(Str("ao2.cp-release-support-bundle.v1"))
    && Included(b).Arr? && Digests(b).Obj?
    && Get(Manifest(b), "schema_version") == Some(Str("ao2.cp-release-support-bundle-manifest.v1"))
    && env.eq(Lookup(Plan(b), "surface_count", Null), Num(Int(9)))
    && Get(Trust(b), "role") == Some(Str("read_only_observer"))
    && Get(Trust(b), "mutates_ao_artifacts") == Some(Bool(false))
  }

  predicate DigestsListed(b: Json) {
    forall s: Surface :: Get(DigestTable(b), SurfaceId(s)).Some?
  }

  /** The correlation object of a surface, when it has one. */
  function CorrelationOf(b: Json, s: Surface, field: string): Option<Json> {
    match GetSurface(b, s)
    case None => None
    case Some(v) => match Get(v, field) case Some(Obj(ms)) => Some(Obj(ms)) case _ => None
  }

  predicate CorrelationOk(b: Json, s: Surface, field: string) {
    GetSurface(b, s).Some? ==>
      && CorrelationOf(b, s, field).Some?
      && var c := CorrelationOf(b, s, field).value;
         && (Get(c, "status") == Some(Str("matched")) || Get(c, "status") == Some(Str("mismatched")))
         && Get(c, "blockers").Some? && Get(c, "blockers").value.Arr?
  }

  function VerdictOf(b: Json, s: Surface, field: string): Option<string> {
    match GetSurface(b, s)
    case None => None
    case Some(v) => match Get(v, field) case Some(Str(t)) => Some(t) case _ => None
  }

  function AuditOf(b: Json, s: Surface): Option<Json> { CorrelationOf(b, s, "rejected_smoke_audit") }

  /** The values that are there are all the same. */
  predicate Agree(values: seq<Option<string>>) {
    forall i, j :: 0 <= i < |values| && 0 <= j < |values| && values[i].Some? && values[j].Some? ==> values[i] == values[j]
  }

  function ShaOf(env: Env, v: Option<Json>): Option<string> {
    match v case None => None case Some(x) => Some(PyDigest(env.h, x))
  }

  function CorrelationShas(env: Env, b: Json, ps: seq<(Surface, string)>): (r: seq<Option<string>>)
    ensures |r| == |ps|
  {
    if ps == [] then []
    else CorrelationShas(env, b, ps[..|ps| - 1]) + [ShaOf(env, CorrelationOf(b, ps[|ps| - 1].0, ps[|ps| - 1].1))]
  }

  function Verdicts(b: Json, surfaces: seq<Surface>, field: string): (r: seq<Option<string>>)
    ensures |r| == |surfaces|
  {
    if surfaces == [] then [] else Verdicts(b, surfaces[..|surfaces| - 1], field) + [VerdictOf(b, surfaces[|surfaces| - 1], field)]
  }

  function AuditShas(env: Env, b: Json, surfaces: seq<Surface>): (r: seq<Option<string>>)
    ensures |r| == |surfaces|
  {
    if surfaces == [] then [] else AuditShas(env, b, surfaces[..|surfaces| - 1]) + [ShaOf(env, AuditOf(b, surfaces[|surfaces| - 1]))]
  }

  predicate CorrelationsOk(b: Json, ps: seq<(Surface, string)>) {
    ps == [] || (CorrelationsOk(b, ps[..|ps| - 1]) && CorrelationOk(b, ps[|ps| - 1].0, ps[|ps| - 1].1))
  }

  predicate VerdictsAgree(b: Json, fields: seq<string>) {
    fields == [] || (VerdictsAgree(b, fields[..|fields| - 1]) && Agree(Verdicts(b, TRIAGE, fields[|fields| - 1])))
  }

  lemma {:induction false} CorrelationEach(env: Env, b: Json, ps: seq<(Surface, string)>, i: nat)
    requires i < |ps|
    ensures CorrelationsOk(b, ps) ==> CorrelationOk(b, ps[i].0, ps[i].1)
    ensures CorrelationShas(env, b, ps)[i] == ShaOf(env, CorrelationOf(b, ps[i].0, ps[i].1))
  {
    if i < |ps| - 1 {
      CorrelationEach(env, b, ps[..|ps| - 1], i);
    }
  }

  lemma {:induction false} VerdictAt(b: Json, surfaces: seq<Surface>, field: string, i: nat)
    requires i < |surfaces|
    ensures Verdicts(b, surfaces, field)[i] == VerdictOf(b, surfaces[i], field)
  {
    if i < |surfaces| - 1 {
      VerdictAt(b, surfaces[..|surfaces| - 1], field, i);
    }
  }

  lemma {:induction false} AuditAt(env: Env, b: Json, surfaces: seq<Surface>, i: nat)
    requires i < |surfaces|
    ensures AuditShas(env, b, surfaces)[i] == ShaOf(env, AuditOf(b, surfaces[i]))
  {
    if i < |surfaces| - 1 {
      AuditAt(env, b, surfaces[..|surfaces| - 1], i);
    }
  }

  lemma {:induction false} VerdictEach(b: Json, fields: seq<string>, i: nat)
    requires i < |fields| && VerdictsAgree(b, fields)
    ensures Agree(Verdicts(b, TRIAGE, fields[i]))
  {
    if i < |fields| - 1 {
      VerdictEach(b, fields[..|fields| - 1], i);
    }
  }

  /** Everything main checks, apart from the checks it is given. */
  predicate Accepts(env: Env, b: Json) {
    && HeadOk(env, b)
    && IdsOk(Ids(Entries(b)))
    && DigestsListed(b)
    && EntriesOk(env, b, Entries(b))
    && CorrelationsOk(b, CORRELATED)
    && Agree(CorrelationShas(env, b, CORRELATED))
    && VerdictsAgree(b, PARITY_VERDICTS)
    && Agree(AuditShas(env, b, TRIAGE))
  }

  /** Where Python would raise: an attribute of a value that is not a dict, or an id that cannot be hashed. */
  predicate WellShaped(b: Json) {
    && b.Obj? && Manifest(b).Obj? && Integrity(b).Obj? && Plan(b).Obj? && Trust(b).Obj?
    && forall entry :: entry in Entries(b) ==> !EntryId(entry).Obj? && !EntryId(entry).Arr?
  }

  // ---- main ----

  datatype Failure =
    | BadHead(what: string)
    | WrongSurfaceCount(n: nat)
    | MissingSurface(s: Surface)
    | UnknownSurface(id: Json)
    | DuplicateSurface(id: Json)
    | MissingDigest(s: Surface)
    | BadEntry(index: nat)
    | BadSemantics(index: nat)
    | BadCorrelation(s: Surface)
    | CorrelationsDiffer
    | VerdictsDiffer(field: string)
    | AuditsDiffer
    | OtherCheck

  function Distinct(hashes: seq<string>): nat { |set x | x in hashes| }

  lemma AtMostOneDistinct(hashes: seq<string>)
    ensures Distinct(hashes) <= 1 <==> forall x, y :: x in hashes && y in hashes ==> x == y
  {
    var all := set x | x in hashes;
    if |all| <= 1 {
      forall x, y | x in hashes && y in hashes ensures x == y {
        assert x in all && y in all;
        if x != y {
          assert {x, y} <= all;
          SubsetSize({x, y}, all);
        }
      }
    } else {
      var x :| x in all;
      assert |all - {x}| == |all| - 1;
      var y :| y in all - {x};
      assert x in hashes && y in hashes && x != y;
    }
  }

  lemma SubsetSize<T>(a: set<T>, b: set<T>)
    requires a <= b
    ensures |a| <= |b|
  {
    assert b == a + (b - a);
  }

  method HeadFailures(env: Env, b: Json) returns (failures: seq<Failure>)
    ensures failures == [] <==> HeadOk(env, b)
  {
    failures := [];
    if Get(b, "schema_version") != Some(Str("ao2.cp-release-support-bundle.v1")) {
      failures := failures + [BadHead("schema_version")];
    }
    if !Included(b).Arr? {
      failures := failures + [BadHead("included_surfaces")];
    }
    if !Digests(b).Obj? {
      failures := failures + [BadHead("surface_sha256")];
    }
    if Get(Manifest(b), "schema_version") != Some(Str("ao2.cp-release-support-bundle-manifest.v1")) {
      failures := failures + [BadHead("portable_bundle_manifest.schema_version")];
    }
    if !env.eq(Lookup(Plan(b), "surface_count", Null), Num(Int(9))) {
      failures := failures + [BadHead("verification_plan.surface_count")];
    }
    if Get(Trust(b), "role") != Some(Str("read_only_observer")) || Get(Trust(b), "mutates_ao_artifacts") != Some(Bool(false)) {
      failures := failures + [BadHead("trust_boundary")];
    }
  }

  method MissingIds(ids: seq<Json>) returns (failures: seq<Failure>)
    ensures failures == [] <==> forall s: Surface :: Str(SurfaceId(s)) in ids
  {
    failures := [];
    for i := 0 to |SURFACES|
      invariant failures == [] <==> forall j :: 0 <= j < i ==> Str(SurfaceId(SURFACES[j])) in ids
    {
      if Str(SurfaceId(SURFACES[i])) !in ids {
        failures := failures + [MissingSurface(SURFACES[i])];
      }
    }
    if failures == [] {
      forall s: Surface ensures Str(SurfaceId(s)) in ids {
        EverySurfaceListed(s);
        var j :| 0 <= j < |SURFACES| && SURFACES[j] == s;
      }
    }
  }

  method OddIds(ids: seq<Json>) returns (failures: seq<Failure>)
    ensures failures == [] <==> IdsKnown(ids) && NoRepeats(ids)
  {
    failures := [];
    for i := 0 to |ids|
      invariant failures == [] <==> IdsKnown(ids[..i]) && NoRepeats(ids[..i])
    {
      assert ids[..i + 1][..i] == ids[..i];
      if SurfaceOf(ids[i]).None? {
        failures := failures + [UnknownSurface(ids[i])];
      }
      if ids[i] in ids[..i] {
        failures := failures + [DuplicateSurface(ids[i])];
      }
      RepeatedSnoc(ids, i);
    }
    assert ids[..|ids|] == ids;
  }

  lemma RepeatedSnoc(ids: seq<Json>, i: nat)
    requires i < |ids|
    ensures NoRepeats(ids[..i + 1]) <==> NoRepeats(ids[..i]) && ids[i] !in ids[..i]
  {
    assert ids[..i + 1] == ids[..i] + [ids[i]];
  }

  method IdFailures(ids: seq<Json>) returns (failures: seq<Failure>)
    ensures failures == [] <==> IdsOk(ids)
  {
    failures := [];
    if |ids| != 9 {
      failures := failures + [WrongSurfaceCount(|ids|)];
    }
    var missing := MissingIds(ids);
    var odd := OddIds(ids);
    failures := failures + missing + odd;
  }

  method DigestFailures(b: Json) returns (failures: seq<Failure>)
    ensures failures == [] <==> DigestsListed(b)
  {
    failures := [];
    for i := 0 to |SURFACES|
      invariant failures == [] <==> forall j :: 0 <= j < i ==> Get(DigestTable(b), SurfaceId(SURFACES[j])).Some?
    {
      if Get(DigestTable(b), SurfaceId(SURFACES[i])).None? {
        failures := failures + [MissingDigest(SURFACES[i])];
      }
    }
    if failures == [] {
      forall s: Surface ensures Get(DigestTable(b), SurfaceId(s)).Some? {
        EverySurfaceListed(s);
        var j :| 0 <= j < |SURFACES| && SURFACES[j] == s;
      }
    }
  }

  method EntryFailure(env: Env, b: Json, entry: Json, i: nat) returns (failures: seq<Failure>)
    ensures failures == [] <==> EntryOk(env, b, entry)
  {
    if !entry.Obj? {
      return [BadEntry(i)];
    }
    failures := if EntryMatches(env, b, entry) then [] else [BadEntry(i)];
    if !SemanticsOk(env, b, EntryId(entry)) {
      failures := failures + [BadSemantics(i)];
    }
  }

  method EntryFailures(env: Env, b: Json, entries: seq<Json>) returns (failures: seq<Failure>)
    ensures failures == [] <==> EntriesOk(env, b, entries)
  {
    failures := [];
    for i := 0 to |entries|
      invariant failures == [] <==> EntriesOk(env, b, entries[..i])
    {
      assert entries[..i + 1][..i] == entries[..i];
      var more := EntryFailure(env, b, entries[i], i);
      failures := failures + more;
    }
    assert entries[..|entries|] == entries;
  }

  /** The values that are there, as a set, have more than one element. */
  method Differ(values: seq<Option<string>>) returns (differ: bool)
    ensures differ <==> !Agree(values)
  {
    var present: seq<string> := [];
    for i := 0 to |values|
      invariant forall j :: 0 <= j < i && values[j].Some? ==> values[j].value in present
      invariant forall x :: x in present ==> exists j :: 0 <= j < i && values[j] == Some(x)
    {
      if values[i].Some? {
        present := present + [values[i].value];
      }
    }
    AtMostOneDistinct(present);
    differ := Distinct(present) > 1;
  }

  lemma CorrelationSnoc(env: Env, b: Json, ps: seq<(Surface, string)>, i: nat)
    requires i < |ps|
    ensures CorrelationsOk(b, ps[..i + 1]) <==> CorrelationsOk(b, ps[..i]) && CorrelationOk(b, ps[i].0, ps[i].1)
    ensures CorrelationShas(env, b, ps[..i + 1]) == CorrelationShas(env, b, ps[..i]) + [ShaOf(env, CorrelationOf(b, ps[i].0, ps[i].1))]
  {
    assert ps[..i + 1][..i] == ps[..i];
  }

  method CorrelationFailures(env: Env, b: Json, ps: seq<(Surface, string)>) returns (failures: seq<Failure>)
    ensures failures == [] <==> CorrelationsOk(b, ps) && Agree(CorrelationShas(env, b, ps))
  {
    failures := [];
    var shas: seq<Option<string>> := [];
    for i := 0 to |ps|
      invariant failures == [] <==> CorrelationsOk(b, ps[..i])
      invariant shas == CorrelationShas(env, b, ps[..i])
    {
      CorrelationSnoc(env, b, ps, i);
      if !CorrelationOk(b, ps[i].0, ps[i].1) {
        failures := failures + [BadCorrelation(ps[i].0)];
      }
      shas := shas + [ShaOf(env, CorrelationOf(b, ps[i].0, ps[i].1))];
    }
    assert ps[..|ps|] == ps;
    var differ := Differ(shas);
    if differ {
      failures := failures + [CorrelationsDiffer];
    }
  }

  method VerdictFailures(b: Json, fields: seq<string>) returns (failures: seq<Failure>)
    ensures failures == [] <==> VerdictsAgree(b, fields)
  {
    failures := [];
    for i := 0 to |fields|
      invariant failures == [] <==> VerdictsAgree(b, fields[..i])
    {
      assert fields[..i + 1][..i] == fields[..i];
      var verdicts := [];
      for j := 0 to |TRIAGE|
        invariant verdicts == Verdicts(b, TRIAGE[..j], fields[i])
      {
        assert TRIAGE[..j + 1][..j] == TRIAGE[..j];
        verdicts := verdicts + [VerdictOf(b, TRIAGE[j], fields[i])];
      }
      assert TRIAGE[..|TRIAGE|] == TRIAGE;
      var differ := Differ(verdicts);
      if differ {
        failures := failures + [VerdictsDiffer(fields[i])];
      }
    }
    assert fields[..|fields|] == fields;
  }

  lemma AuditSnoc(env: Env, b: Json, surfaces: seq<Surface>, i: nat)
    requires i < |surfaces|
    ensures AuditShas(env, b, surfaces[..i + 1]) == AuditShas(env, b, surfaces[..i]) + [ShaOf(env, AuditOf(b, surfaces[i]))]
  {
    assert surfaces[..i + 1][..i] == surfaces[..i];
  }

  method AuditFailures(env: Env, b: Json, surfaces: seq<Surface>) returns (failures: seq<Failure>)
    ensures failures == [] <==> Agree(AuditShas(env, b, surfaces))
  {
    var shas := [];
    for i := 0 to |surfaces|
      invariant shas == AuditShas(env, b, surfaces[..i])
    {
      AuditSnoc(env, b, surfaces, i);
      shas := shas + [ShaOf(env, AuditOf(b, surfaces[i]))];
    }
    assert surfaces[..|surfaces|] == surfaces;
    var differ := Differ(shas);
    failures := if differ then [AuditsDiffer] else [];
  }

  /**
   main: nothing when Python raises, otherwise the failures found. `othersPass` is
   the outcome of the checks on the raw text, the checksum file and a second bundle.
  */
  method Verify(env: Env, b: Json, othersPass: bool) returns (r: Option<seq<Failure>>)
    ensures r.None? <==> !WellShaped(b)
    ensures r == Some([]) <==> WellShaped(b) && othersPass && Accepts(env, b)
  {
    if !WellShaped(b) {
      return None;
    }
    var failures := if othersPass then [] else [OtherCheck];
    var head := HeadFailures(env, b);
    var ids := IdFailures(Ids(Entries(b)));
    var digests := DigestFailures(b);
    var entries := EntryFailures(env, b, Entries(b));
    var correlations := CorrelationFailures(env, b, CORRELATED);
    var verdicts := VerdictFailures(b, PARITY_VERDICTS);
    var audits := AuditFailures(env, b, TRIAGE);
    return Some(failures + (head + (ids + (digests + (entries + (correlations + (verdicts + audits)))))));
  }

  // ---- what a pass means ----

  /** The surface is embedded, and manifest and integrity table hold its digest. */
  ghost predicate Intact(env: Env, b: Json, s: Surface) {
    && GetSurface(b, s).Some?
    && var sha := Str(PyDigest(env.h, GetSurface(b, s).value));
       && Get(DigestTable(b), SurfaceId(s)) == Some(sha)
       && exists i :: 0 <= i < |Entries(b)| && EntryId(Entries(b)[i]) == Str(SurfaceId(s)) && Get(Entries(b)[i], "sha256") == Some(sha)
  }

  function RequiredIds(): seq<Json> { Map(SURFACES, (s: Surface) => Str(SurfaceId(s))) }

  /** The listed surfaces are the nine required ones, each once. */
  ghost predicate ListsRequired(b: Json) {
    multiset(Ids(Entries(b))) == multiset(RequiredIds())
  }

  /** The four correlation objects are there and are the same JSON value. */
  ghost predicate SameCorrelations(b: Json) {
    forall i, j :: 0 <= i < |CORRELATED| && 0 <= j < |CORRELATED| ==>
      var x, y := CorrelationOf(b, CORRELATED[i].0, CORRELATED[i].1), CorrelationOf(b, CORRELATED[j].0, CORRELATED[j].1);
      x.Some? && y.Some? && SameValue(x.value, y.value)
  }

  ghost predicate SameVerdicts(b: Json) {
    forall k, i, j :: 0 <= k < |PARITY_VERDICTS| && 0 <= i < |TRIAGE| && 0 <= j < |TRIAGE| ==>
      var x, y := VerdictOf(b, TRIAGE[i], PARITY_VERDICTS[k]), VerdictOf(b, TRIAGE[j], PARITY_VERDICTS[k]);
      x.Some? && y.Some? ==> x == y
  }

  ghost predicate SameAudits(b: Json) {
    forall i, j :: 0 <= i < |TRIAGE| && 0 <= j < |TRIAGE| ==>
      var x, y := AuditOf(b, TRIAGE[i]), AuditOf(b, TRIAGE[j]);
      x.Some? && y.Some? ==> SameValue(x.value, y.value)
  }

  /** What a pass is meant to say. */
  ghost predicate Sound(env: Env, b: Json) {
    && ListsRequired(b)
    && (forall s :: Intact(env, b, s))
    && SameCorrelations(b) && SameVerdicts(b) && SameAudits(b)
  }

  /** No digest in the integrity table is the text that stands for a surface that was not found. */
  predicate NoErrorTexts(b: Json) {
    forall s: Surface :: Get(DigestTable(b), SurfaceId(s)) != Some(Str(ErrorText(s)))
  }

  lemma {:induction false} OnceEach<T>(a: seq<T>, x: T)
    requires forall i, j :: 0 <= i < j < |a| ==> a[i] != a[j]
    ensures multiset(a)[x] == if x in a then 1 else 0
  {
    if a != [] {
      OnceEach(a[1..], x);
      HeadTail(a);
      assert a[0] !in a[1..];
    }
  }

  lemma SurfacesOnce()
    ensures NoRepeats(SURFACES)
  {
  }

  lemma RequiredOnce()
    ensures NoRepeats(RequiredIds())
  {
    SurfacesOnce();
    forall i, j | 0 <= i < j < |RequiredIds()| ensures RequiredIds()[i] != RequiredIds()[j] {
      IdInjective(SURFACES[i], SURFACES[j]);
    }
  }

  lemma RequiredMember(id: Json)
    ensures id in RequiredIds() <==> SurfaceOf(id).Some?
  {
    if SurfaceOf(id).Some? {
      var s := SurfaceOf(id).value;
      SurfaceOfId(s, id);
      EverySurfaceListed(s);
      var i :| 0 <= i < |SURFACES| && SURFACES[i] == s;
      assert RequiredIds()[i] == id;
    }
    if id in RequiredIds() {
      var i :| 0 <= i < |SURFACES| && RequiredIds()[i] == id;
      SurfaceOfId(SURFACES[i], id);
    }
  }

  lemma SameOnce(a: seq<Json>, c: seq<Json>)
    requires NoRepeats(a) && NoRepeats(c) && forall x :: x in a <==> x in c
    ensures multiset(a) == multiset(c)
  {
    forall x ensures multiset(a)[x] == multiset(c)[x] {
      OnceEach(a, x);
      OnceEach(c, x);
    }
  }

  lemma IdMember(ids: seq<Json>, id: Json)
    requires IdsOk(ids)
    ensures id in ids <==> SurfaceOf(id).Some?
  {
    if id in ids {
      var i :| 0 <= i < |ids| && ids[i] == id;
      IdsKnownEach(ids, i);
    }
    if SurfaceOf(id).Some? {
      SurfaceOfId(SurfaceOf(id).value, id);
      EverySurfaceListed(SurfaceOf(id).value);
    }
  }

  lemma IdsOkLists(ids: seq<Json>)
    requires IdsOk(ids)
    ensures multiset(ids) == multiset(RequiredIds())
  {
    RequiredOnce();
    forall id ensures id in ids <==> id in RequiredIds() {
      IdMember(ids, id);
      RequiredMember(id);
    }
    SameOnce(ids, RequiredIds());
  }

  lemma ListedAll(b: Json)
    requires IdsOk(Ids(Entries(b)))
    ensures ListsRequired(b)
  {
    IdsOkLists(Ids(Entries(b)));
  }

  /** The entry of a surface in an accepted bundle. */
  lemma EntryOf(env: Env, b: Json, s: Surface) returns (i: nat)
    requires IdsOk(Ids(Entries(b))) && EntriesOk(env, b, Entries(b))
    ensures i < |Entries(b)| && EntryId(Entries(b)[i]) == Str(SurfaceId(s)) && EntryOk(env, b, Entries(b)[i])
  {
    EverySurfaceListed(s);
    assert Str(SurfaceId(s)) in Ids(Entries(b));
    i :| 0 <= i < |Entries(b)| && Ids(Entries(b))[i] == Str(SurfaceId(s));
    EntriesOkEach(env, b, Entries(b), i);
  }

  /** In an accepted bundle a surface is intact unless its digest is its error text. */
  lemma IntactIff(env: Env, b: Json, s: Surface)
    requires env.Valid() && IdsOk(Ids(Entries(b))) && EntriesOk(env, b, Entries(b)) && DigestsListed(b)
    ensures Intact(env, b, s) <==> Get(DigestTable(b), SurfaceId(s)) != Some(Str(ErrorText(s)))
    ensures Intact(env, b, s) <==> GetSurface(b, s).Some?
  {
    var i := EntryOf(env, b, s);
    SurfaceOfId(s, Str(SurfaceId(s)));
    EverySurfaceListed(s);
    EntryDigest(env, b, Entries(b)[i], s);
    ErrorTextIsNoDigest(s);
    if GetSurface(b, s).Some? {
      assert IsHexText(PyDigest(env.h, GetSurface(b, s).value));
    }
  }

  lemma AllIntactIff(env: Env, b: Json)
    requires env.Valid() && IdsOk(Ids(Entries(b))) && EntriesOk(env, b, Entries(b)) && DigestsListed(b)
    ensures (forall s :: Intact(env, b, s)) <==> NoErrorTexts(b)
    ensures NoErrorTexts(b) ==> forall s :: GetSurface(b, s).Some?
  {
    forall s: Surface ensures (Intact(env, b, s) <==> Get(DigestTable(b), SurfaceId(s)) != Some(Str(ErrorText(s))))
                     && (Intact(env, b, s) <==> GetSurface(b, s).Some?)
    {
      IntactIff(env, b, s);
    }
  }

  lemma EntryDigest(env: Env, b: Json, entry: Json, s: Surface)
    requires EntryMatches(env, b, entry) && EntryId(entry) == Str(SurfaceId(s)) && SurfaceOf(Str(SurfaceId(s))) == Some(s)
    requires Get(DigestTable(b), SurfaceId(s)).Some?
    ensures Get(DigestTable(b), SurfaceId(s)) == Get(entry, "sha256") == Some(Str(Recomputed(env, b, Str(SurfaceId(s)))))
  {
  }

  lemma CorrelationWellFormed(b: Json, s: Surface, field: string)
    requires WellFormed(b)
    ensures CorrelationOf(b, s, field).Some? ==> WellFormed(CorrelationOf(b, s, field).value)
  {
    GetWellFormed(b, Part(s));
    if GetSurface(b, s).Some? {
      GetWellFormed(GetSurface(b, s).value, field);
    }
  }

  lemma CorrelationsAreSame(env: Env, b: Json)
    requires env.Valid() && WellFormed(b) && CorrelationsOk(b, CORRELATED) && Agree(CorrelationShas(env, b, CORRELATED))
    requires forall s :: GetSurface(b, s).Some?
    ensures SameCorrelations(b)
  {
    forall i, j | 0 <= i < |CORRELATED| && 0 <= j < |CORRELATED|
      ensures var x, y := CorrelationOf(b, CORRELATED[i].0, CORRELATED[i].1), CorrelationOf(b, CORRELATED[j].0, CORRELATED[j].1);
              x.Some? && y.Some? && SameValue(x.value, y.value)
    {
      TwoCorrelations(env, b, CORRELATED, i, j);
    }
  }

  lemma TwoCorrelations(env: Env, b: Json, ps: seq<(Surface, string)>, i: nat, j: nat)
    requires env.Valid() && WellFormed(b) && CorrelationsOk(b, ps) && Agree(CorrelationShas(env, b, ps))
    requires i < |ps| && j < |ps| && GetSurface(b, ps[i].0).Some? && GetSurface(b, ps[j].0).Some?
    ensures var x, y := CorrelationOf(b, ps[i].0, ps[i].1), CorrelationOf(b, ps[j].0, ps[j].1);
            x.Some? && y.Some? && SameValue(x.value, y.value)
  {
    CorrelationEach(env, b, ps, i);
    CorrelationEach(env, b, ps, j);
    CorrelationWellFormed(b, ps[i].0, ps[i].1);
    CorrelationWellFormed(b, ps[j].0, ps[j].1);
    PyDigestIdentifies(env.h, CorrelationOf(b, ps[i].0, ps[i].1).value, CorrelationOf(b, ps[j].0, ps[j].1).value);
  }

  lemma VerdictsAreSame(b: Json)
    requires VerdictsAgree(b, PARITY_VERDICTS)
    ensures SameVerdicts(b)
  {
    forall k, i, j | 0 <= k < |PARITY_VERDICTS| && 0 <= i < |TRIAGE| && 0 <= j < |TRIAGE|
      ensures var x, y := VerdictOf(b, TRIAGE[i], PARITY_VERDICTS[k]), VerdictOf(b, TRIAGE[j], PARITY_VERDICTS[k]);
              x.Some? && y.Some? ==> x == y
    {
      VerdictEach(b, PARITY_VERDICTS, k);
      VerdictAt(b, TRIAGE, PARITY_VERDICTS[k], i);
      VerdictAt(b, TRIAGE, PARITY_VERDICTS[k], j);
    }
  }

  lemma TwoAudits(env: Env, b: Json, surfaces: seq<Surface>, i: nat, j: nat)
    requires env.Valid() && WellFormed(b) && Agree(AuditShas(env, b, surfaces)) && i < |surfaces| && j < |surfaces|
    ensures AuditOf(b, surfaces[i]).Some? && AuditOf(b, surfaces[j]).Some? ==>
              SameValue(AuditOf(b, surfaces[i]).value, AuditOf(b, surfaces[j]).value)
  {
    AuditAt(env, b, surfaces, i);
    AuditAt(env, b, surfaces, j);
    if AuditOf(b, surfaces[i]).Some? && AuditOf(b, surfaces[j]).Some? {
      CorrelationWellFormed(b, surfaces[i], "rejected_smoke_audit");
      CorrelationWellFormed(b, surfaces[j], "rejected_smoke_audit");
      PyDigestIdentifies(env.h, AuditOf(b, surfaces[i]).value, AuditOf(b, surfaces[j]).value);
    }
  }

  lemma AuditsAreSame(env: Env, b: Json)
    requires env.Valid() && WellFormed(b) && Agree(AuditShas(env, b, TRIAGE))
    ensures SameAudits(b)
  {
    forall i, j | 0 <= i < |TRIAGE| && 0 <= j < |TRIAGE|
      ensures var x, y := AuditOf(b, TRIAGE[i]), AuditOf(b, TRIAGE[j]);
              x.Some? && y.Some? ==> SameValue(x.value, y.value)
    {
      TwoAudits(env, b, TRIAGE, i, j);
    }
  }

  /**
   What a pass proves: the nine surfaces are listed, once each, and verdicts and
   audits agree wherever they are. Every surface is intact and the four
   correlations are there and equal exactly when no digest in the integrity table
   is the error text of its surface.
  */
  lemma PassMeansSoundIff(env: Env, b: Json)
    requires env.Valid() && WellFormed(b) && Accepts(env, b)
    ensures ListsRequired(b) && SameVerdicts(b) && SameAudits(b)
    ensures Sound(env, b) <==> NoErrorTexts(b)
  {
    ListedAll(b);
    VerdictsAreSame(b);
    AuditsAreSame(env, b);
    AllIntactIff(env, b);
    if NoErrorTexts(b) {
      CorrelationsAreSame(env, b);
    }
  }

  // ---- the same, by the names in the bundle ----

  /** The string at bundle[part][field]. */
  function TextIn(b: Json, part: string, field: string): Option<string> {
    match Get(b, part)
    case None => None
    case Some(v) => match Get(v, field) case Some(Str(t)) => Some(t) case _ => None
  }

  /** The object at bundle[part][field]. */
  function ObjectIn(b: Json, part: string, field: string): Option<Json> {
    match Get(b, part)
    case None => None
    case Some(v) => match Get(v, field) case Some(Obj(ms)) => Some(Obj(ms)) case _ => None
  }

  /** What two parts of the bundle both say is the same. */
  predicate NoConflict(x: Option<string>, y: Option<string>) { x.Some? && y.Some? ==> x == y }

  ghost predicate SameObjects(x: Option<Json>, y: Option<Json>) { x.Some? && y.Some? ==> SameValue(x.value, y.value) }

  lemma PassVerdict(b: Json, k: nat, field: string)
    requires VerdictsAgree(b, PARITY_VERDICTS) && k < |PARITY_VERDICTS| && PARITY_VERDICTS[k] == field
    ensures NoConflict(TextIn(b, "cockpit", field), TextIn(b, "handoff", field))
    ensures NoConflict(TextIn(b, "cockpit", field), TextIn(b, "readiness", field))
    ensures NoConflict(TextIn(b, "handoff", field), TextIn(b, "readiness", field))
  {
    VerdictEach(b, PARITY_VERDICTS, k);
    VerdictAt(b, TRIAGE, field, 0);
    VerdictAt(b, TRIAGE, field, 1);
    VerdictAt(b, TRIAGE, field, 2);
    assert TextIn(b, "cockpit", field) == Verdicts(b, TRIAGE, field)[0];
    assert TextIn(b, "handoff", field) == Verdicts(b, TRIAGE, field)[1];
    assert TextIn(b, "readiness", field) == Verdicts(b, TRIAGE, field)[2];
  }

  /** In a bundle that passes, cockpit, handoff and readiness do not contradict each other in either parity verdict. */
  lemma PassVerdicts(env: Env, b: Json)
    requires Accepts(env, b)
    ensures NoConflict(TextIn(b, "cockpit", "candidate_correlation_parity"), TextIn(b, "handoff", "candidate_correlation_parity"))
    ensures NoConflict(TextIn(b, "cockpit", "candidate_correlation_parity"), TextIn(b, "readiness", "candidate_correlation_parity"))
    ensures NoConflict(TextIn(b, "handoff", "candidate_correlation_parity"), TextIn(b, "readiness", "candidate_correlation_parity"))
    ensures NoConflict(TextIn(b, "cockpit", "surface_content_hash_parity"), TextIn(b, "handoff", "surface_content_hash_parity"))
    ensures NoConflict(TextIn(b, "cockpit", "surface_content_hash_parity"), TextIn(b, "readiness", "surface_content_hash_parity"))
    ensures NoConflict(TextIn(b, "handoff", "surface_content_hash_parity"), TextIn(b, "readiness", "surface_content_hash_parity"))
  {
    PassVerdict(b, 0, "candidate_correlation_parity");
    PassVerdict(b, 1, "surface_content_hash_parity");
  }

  ghost predicate SameAudit(b: Json, i: nat, j: nat)
    requires i < |TRIAGE| && j < |TRIAGE|
  {
    SameObjects(AuditOf(b, TRIAGE[i]), AuditOf(b, TRIAGE[j]))
  }

  lemma AuditPairs(env: Env, b: Json)
    requires env.Valid() && WellFormed(b) && Accepts(env, b)
    ensures SameAudit(b, 0, 1) && SameAudit(b, 0, 2) && SameAudit(b, 1, 2)
  {
    TwoAudits(env, b, TRIAGE, 0, 1);
    TwoAudits(env, b, TRIAGE, 0, 2);
    TwoAudits(env, b, TRIAGE, 1, 2);
  }

  lemma AuditNames(b: Json)
    ensures AuditOf(b, TRIAGE[0]) == ObjectIn(b, "cockpit", "rejected_smoke_audit")
    ensures AuditOf(b, TRIAGE[1]) == ObjectIn(b, "handoff", "rejected_smoke_audit")
    ensures AuditOf(b, TRIAGE[2]) == ObjectIn(b, "readiness", "rejected_smoke_audit")
  {
  }

  /** Their audit objects are the same JSON value where they are there. */
  lemma PassAudits(env: Env, b: Json)
    requires env.Valid() && WellFormed(b) && Accepts(env, b)
    ensures SameObjects(ObjectIn(b, "cockpit", "rejected_smoke_audit"), ObjectIn(b, "handoff", "rejected_smoke_audit"))
    ensures SameObjects(ObjectIn(b, "cockpit", "rejected_smoke_audit"), ObjectIn(b, "readiness", "rejected_smoke_audit"))
    ensures SameObjects(ObjectIn(b, "handoff", "rejected_smoke_audit"), ObjectIn(b, "readiness", "rejected_smoke_audit"))
  {
    AuditPairs(env, b);
    AuditNames(b);
  }

  /** Two parts that are there hold a correlation object under these names, and the two are the same JSON value. */
  ghost predicate Correlated(b: Json, part: string, field: string, part': string, field': string) {
    Get(b, part).Some? && Get(b, part').Some? ==>
      && ObjectIn(b, part, field).Some? && ObjectIn(b, part', field').Some?
      && SameValue(ObjectIn(b, part, field).value, ObjectIn(b, part', field').value)
  }

  lemma CorrelatedPair(env: Env, b: Json, i: nat, j: nat)
    requires env.Valid() && WellFormed(b) && CorrelationsOk(b, CORRELATED) && Agree(CorrelationShas(env, b, CORRELATED))
    requires i < |CORRELATED| && j < |CORRELATED|
    ensures Correlated(b, Part(CORRELATED[i].0), CORRELATED[i].1, Part(CORRELATED[j].0), CORRELATED[j].1)
  {
    if GetSurface(b, CORRELATED[i].0).Some? && GetSurface(b, CORRELATED[j].0).Some? {
      TwoCorrelations(env, b, CORRELATED, i, j);
    }
  }

  /** The names of the four correlations. */
  lemma CorrelationNames()
    ensures |CORRELATED| == 4
    ensures Part(CORRELATED[0].0) == "cockpit" && CORRELATED[0].1 == "candidate_correlation"
    ensures Part(CORRELATED[1].0) == "handoff" && CORRELATED[1].1 == "candidate_correlation"
    ensures Part(CORRELATED[2].0) == "readiness" && CORRELATED[2].1 == "candidate_correlation"
    ensures Part(CORRELATED[3].0) == "release_assembly" && CORRELATED[3].1 == "candidate_correlation_detail"
  {
  }

  const CORRELATION_PARTS: seq<string> := ["cockpit", "handoff", "readiness", "release_assembly"]

  const CORRELATION_FIELDS: seq<string> := [
    "candidate_correlation", "candidate_correlation", "candidate_correlation", "candidate_correlation_detail"]

  lemma CorrelationName(i: nat)
    requires i < 4
    ensures |CORRELATED| == 4 && Part(CORRELATED[i].0) == CORRELATION_PARTS[i] && CORRELATED[i].1 == CORRELATION_FIELDS[i]
  {
    CorrelationNames();
  }

  /** And any two of the four correlations are there, with their parts, and the same. */
  lemma PassCorrelations(env: Env, b: Json, i: nat, j: nat)
    requires env.Valid() && WellFormed(b) && Accepts(env, b) && i < 4 && j < 4
    ensures Correlated(b, CORRELATION_PARTS[i], CORRELATION_FIELDS[i], CORRELATION_PARTS[j], CORRELATION_FIELDS[j])
  {
    CorrelationName(i);
    CorrelationName(j);
    CorrelatedPair(env, b, i, j);
  }

  /** Every correlation that is there says matched or mismatched and lists its blockers. */
  lemma PassStatuses(env: Env, b: Json, i: nat)
    requires Accepts(env, b) && i < 4 && Get(b, CORRELATION_PARTS[i]).Some?
    ensures var c := ObjectIn(b, CORRELATION_PARTS[i], CORRELATION_FIELDS[i]);
            && c.Some?
            && (Get(c.value, "status") == Some(Str("matched")) || Get(c.value, "status") == Some(Str("mismatched")))
            && Get(c.value, "blockers").Some? && Get(c.value, "blockers").value.Arr?
  {
    CorrelationName(i);
    CorrelationEach(env, b, CORRELATED, i);
  }

  /** The bundle names its schemas and says that it only observes. */
  lemma PassHead(env: Env, b: Json)
    requires Accepts(env, b)
    ensures Get(b, "schema_version") == Some(Str("ao2.cp-release-support-bundle.v1"))
    ensures exists m :: Get(b, "portable_bundle_manifest") == Some(m) &&
              Get(m, "schema_version") == Some(Str("ao2.cp-release-support-bundle-manifest.v1"))
    ensures exists t :: Get(b, "trust_boundary") == Some(t) &&
              Get(t, "role") == Some(Str("read_only_observer")) && Get(t, "mutates_ao_artifacts") == Some(Bool(false))
  {
  }

  /** The two surfaces with a check of their own are there and pass it. */
  lemma PassFlatChecks(env: Env, b: Json)
    requires Accepts(env, b)
    ensures Get(b, "ci_evidence_index").Some? && env.ciAccepts(Get(b, "ci_evidence_index").value)
    ensures Get(b, "hosted_release_smoke").Some? && env.hostedAccepts(Get(b, "hosted_release_smoke").value)
  {
    var i := EntryOf(env, b, CiEvidenceIndex);
    CiChecked(env, b, EntryId(Entries(b)[i]));
    var j := EntryOf(env, b, HostedSmoke);
    HostedChecked(env, b, EntryId(Entries(b)[j]));
  }

  lemma CiChecked(env: Env, b: Json, id: Json)
    requires SemanticsOk(env, b, id) && id == Str(SurfaceId(CiEvidenceIndex))
    ensures Get(b, "ci_evidence_index").Some? && env.ciAccepts(Get(b, "ci_evidence_index").value)
  {
  }

  lemma HostedChecked(env: Env, b: Json, id: Json)
    requires SemanticsOk(env, b, id) && id == Str(SurfaceId(HostedSmoke))
    ensures Get(b, "hosted_release_smoke").Some? && env.hostedAccepts(Get(b, "hosted_release_smoke").value)
  {
  }

  lemma ExpectedPathOf(s: Surface)
    ensures ExpectedPath(Str(SurfaceId(s))) == "$." + Part(s) && "$." + Part(s) != "missing"
  {
    SurfaceOfId(s, Str(SurfaceId(s)));
    assert ("$." + Part(s))[0] == '$';
  }

  lemma MatchedEntry(env: Env, b: Json, entry: Json, s: Surface)
    requires EntryMatches(env, b, entry) && EntryId(entry) == Str(SurfaceId(s))
    ensures Get(entry, "path") == Some(Str("$." + Part(s)))
    ensures Get(entry, "sha256").Some? && Get(entry, "sha256") == Get(DigestTable(b), SurfaceId(s))
  {
    ExpectedPathOf(s);
  }

  /** Every surface has an entry with its path and the digest that the integrity table lists. */
  lemma PassEntries(env: Env, b: Json, s: Surface) returns (i: nat)
    requires Accepts(env, b)
    ensures i < |Entries(b)| && Get(Entries(b)[i], "path") == Some(Str("$." + Part(s)))
    ensures Get(Entries(b)[i], "sha256").Some? && Get(Entries(b)[i], "sha256") == Get(DigestTable(b), SurfaceId(s))
  {
    i := EntryOf(env, b, s);
    MatchedEntry(env, b, Entries(b)[i], s);
  }

  // ---- a pass that means less ----

  /** A list of all nine surfaces. */
  predicate AllSurfaces(surfaces: seq<Surface>) {
    NoRepeats(surfaces) && |surfaces| == 9 && forall s :: s in surfaces
  }

  lemma NineSurfaces()
    ensures AllSurfaces(SURFACES)
  {
    SurfacesOnce();
    forall s ensures s in SURFACES {
      EverySurfaceListed(s);
    }
  }

  /** The embedded schema of the example's surfaces, two of which are there. */
  function SampleSurface(s: Surface, ci: Json, hosted: Json): Option<Json> {
    if s.CiEvidenceIndex? then Some(ci) else if s.HostedSmoke? then Some(hosted) else None
  }

  function SampleSha(env: Env, s: Surface, ci: Json, hosted: Json): string {
    match SampleSurface(s, ci, hosted) case None => ErrorText(s) case Some(v) => PyDigest(env.h, v)
  }

  function SampleSchema(s: Surface, ci: Json, hosted: Json): Json {
    match SampleSurface(s, ci, hosted) case None => Str("missing") case Some(v) => Lookup(v, "schema_version", Str("missing"))
  }

  function SampleEntry(env: Env, s: Surface, ci: Json, hosted: Json): Json {
    Obj([Member("id", Str(SurfaceId(s))), Member("path", Str(JsonPath(s))),
         Member("sha256", Str(SampleSha(env, s, ci, hosted))), Member("schema_version", SampleSchema(s, ci, hosted))])
  }

  function SampleEntries(env: Env, surfaces: seq<Surface>, ci: Json, hosted: Json): seq<Json> {
    Map(surfaces, (s: Surface) => SampleEntry(env, s, ci, hosted))
  }

  function SampleDigests(env: Env, surfaces: seq<Surface>, ci: Json, hosted: Json): seq<Member> {
    Map(surfaces, (s: Surface) => Member(SurfaceId(s), Str(SampleSha(env, s, ci, hosted))))
  }

  function SampleIntegrity(env: Env, surfaces: seq<Surface>, ci: Json, hosted: Json): Json {
    Obj([Member("surface_sha256", Obj(SampleDigests(env, surfaces, ci, hosted))),
         Member("verification_plan", Obj([Member("surface_count", Num(Int(9)))]))])
  }

  function SampleManifest(env: Env, surfaces: seq<Surface>, ci: Json, hosted: Json): Json {
    Obj([Member("schema_version", Str("ao2.cp-release-support-bundle-manifest.v1")),
         Member("included_surfaces", Arr(SampleEntries(env, surfaces, ci, hosted))),
         Member("integrity", SampleIntegrity(env, surfaces, ci, hosted))])
  }

  function SampleTrust(): Json {
    Obj([Member("role", Str("read_only_observer")), Member("mutates_ao_artifacts", Bool(false))])
  }

  /** A bundle with two of the nine surfaces, and error texts for the digests of the others. */
  function SampleBundle(env: Env, surfaces: seq<Surface>, ci: Json, hosted: Json): Json {
    Obj([Member("schema_version", Str("ao2.cp-release-support-bundle.v1")),
         Member("trust_boundary", SampleTrust()),
         Member("portable_bundle_manifest", SampleManifest(env, surfaces, ci, hosted)),
         Member("ci_evidence_index", ci),
         Member("hosted_release_smoke", hosted)])
  }

  lemma Get2(m0: Member, m1: Member, key: string)
    ensures Get(Obj([m0, m1]), key) == if m1.key == key then Some(m1.value) else if m0.key == key then Some(m0.value) else None
  {
    LastMemberSnoc([m0], m1, key);
    LastMemberSnoc([], m0, key);
    assert [m0] + [m1] == [m0, m1] && [] + [m0] == [m0];
  }

  lemma Get3(m0: Member, m1: Member, m2: Member, key: string)
    ensures Get(Obj([m0, m1, m2]), key) == if m2.key == key then Some(m2.value) else Get(Obj([m0, m1]), key)
  {
    LastMemberSnoc([m0, m1], m2, key);
    assert [m0, m1] + [m2] == [m0, m1, m2];
  }

  lemma Get4(m0: Member, m1: Member, m2: Member, m3: Member, key: string)
    ensures Get(Obj([m0, m1, m2, m3]), key) == if m3.key == key then Some(m3.value) else Get(Obj([m0, m1, m2]), key)
  {
    LastMemberSnoc([m0, m1, m2], m3, key);
    assert [m0, m1, m2] + [m3] == [m0, m1, m2, m3];
  }

  lemma Get5(m0: Member, m1: Member, m2: Member, m3: Member, m4: Member, key: string)
    ensures Get(Obj([m0, m1, m2, m3, m4]), key) == if m4.key == key then Some(m4.value) else Get(Obj([m0, m1, m2, m3]), key)
  {
    LastMemberSnoc([m0, m1, m2, m3], m4, key);
    assert [m0, m1, m2, m3] + [m4] == [m0, m1, m2, m3, m4];
  }

  lemma SampleTop(env: Env, surfaces: seq<Surface>, ci: Json, hosted: Json, key: string)
    ensures Get(SampleBundle(env, surfaces, ci, hosted), key) ==
            if key == "hosted_release_smoke" then Some(hosted)
            else if key == "ci_evidence_index" then Some(ci)
            else if key == "portable_bundle_manifest" then Some(SampleManifest(env, surfaces, ci, hosted))
            else if key == "trust_boundary" then Some(SampleTrust())
            else if key == "schema_version" then Some(Str("ao2.cp-release-support-bundle.v1"))
            else None
  {
    var m0 := Member("schema_version", Str("ao2.cp-release-support-bundle.v1"));
    var m1 := Member("trust_boundary", SampleTrust());
    var m2 := Member("portable_bundle_manifest", SampleManifest(env, surfaces, ci, hosted));
    var m3 := Member("ci_evidence_index", ci);
    var m4 := Member("hosted_release_smoke", hosted);
    Get5(m0, m1, m2, m3, m4, key);
    Get4(m0, m1, m2, m3, key);
    Get3(m0, m1, m2, key);
    Get2(m0, m1, key);
  }

  lemma TopKeysDiffer()
    ensures "portable_bundle_manifest" != "hosted_release_smoke" && "portable_bundle_manifest" != "ci_evidence_index"
    ensures "trust_boundary" != "hosted_release_smoke" && "trust_boundary" != "ci_evidence_index"
    ensures "trust_boundary" != "portable_bundle_manifest"
    ensures "schema_version" != "hosted_release_smoke" && "schema_version" != "ci_evidence_index"
    ensures "schema_version" != "portable_bundle_manifest" && "schema_version" != "trust_boundary"
    ensures "ci_evidence_index" != "hosted_release_smoke"
  {
  }

  lemma SampleParts(env: Env, surfaces: seq<Surface>, ci: Json, hosted: Json)
    ensures var b := SampleBundle(env, surfaces, ci, hosted);
            && Get(b, "schema_version") == Some(Str("ao2.cp-release-support-bundle.v1"))
            && Manifest(b) == SampleManifest(env, surfaces, ci, hosted)
            && Trust(b) == SampleTrust()
  {
    SampleTop(env, surfaces, ci, hosted, "schema_version");
    SampleTop(env, surfaces, ci, hosted, "portable_bundle_manifest");
    SampleTop(env, surfaces, ci, hosted, "trust_boundary");
    TopKeysDiffer();
  }

  lemma Get3Own(m0: Member, m1: Member, m2: Member)
    requires m0.key != m1.key && m0.key != m2.key && m1.key != m2.key
    ensures var o := Obj([m0, m1, m2]);
            Get(o, m0.key) == Some(m0.value) && Get(o, m1.key) == Some(m1.value) && Get(o, m2.key) == Some(m2.value)
  {
    Get3(m0, m1, m2, m0.key);
    Get3(m0, m1, m2, m1.key);
    Get3(m0, m1, m2, m2.key);
    Get2(m0, m1, m0.key);
    Get2(m0, m1, m1.key);
  }

  lemma SampleManifestParts(env: Env, surfaces: seq<Surface>, ci: Json, hosted: Json)
    ensures var m := SampleManifest(env, surfaces, ci, hosted);
            && Get(m, "schema_version") == Some(Str("ao2.cp-release-support-bundle-manifest.v1"))
            && Get(m, "included_surfaces") == Some(Arr(SampleEntries(env, surfaces, ci, hosted)))
            && Get(m, "integrity") == Some(SampleIntegrity(env, surfaces, ci, hosted))
  {
    Get3Own(Member("schema_version", Str("ao2.cp-release-support-bundle-manifest.v1")),
            Member("included_surfaces", Arr(SampleEntries(env, surfaces, ci, hosted))),
            Member("integrity", SampleIntegrity(env, surfaces, ci, hosted)));
  }

  lemma SampleIntegrityParts(env: Env, surfaces: seq<Surface>, ci: Json, hosted: Json)
    ensures var m := SampleIntegrity(env, surfaces, ci, hosted);
            && Get(m, "surface_sha256") == Some(Obj(SampleDigests(env, surfaces, ci, hosted)))
            && Get(m, "verification_plan") == Some(Obj([Member("surface_count", Num(Int(9)))]))
  {
    var m0 := Member("surface_sha256", Obj(SampleDigests(env, surfaces, ci, hosted)));
    var m1 := Member("verification_plan", Obj([Member("surface_count", Num(Int(9)))]));
    Get2(m0, m1, "surface_sha256");
    Get2(m0, m1, "verification_plan");
  }

  lemma Get2Own(m0: Member, m1: Member)
    requires m0.key != m1.key
    ensures Get(Obj([m0, m1]), m0.key) == Some(m0.value) && Get(Obj([m0, m1]), m1.key) == Some(m1.value)
  {
    Get2(m0, m1, m0.key);
    Get2(m0, m1, m1.key);
  }

  lemma SampleTrustParts()
    ensures Get(SampleTrust(), "role") == Some(Str("read_only_observer"))
    ensures Get(SampleTrust(), "mutates_ao_artifacts") == Some(Bool(false))
  {
    Get2Own(Member("role", Str("read_only_observer")), Member("mutates_ao_artifacts", Bool(false)));
  }

  lemma SamplePlan()
    ensures Get(Obj([Member("surface_count", Num(Int(9)))]), "surface_count") == Some(Num(Int(9)))
  {
    LastMemberSnoc([], Member("surface_count", Num(Int(9))), "surface_count");
    assert [] + [Member("surface_count", Num(Int(9)))] == [Member("surface_count", Num(Int(9)))];
  }

  /** What the example is, seen through lookups only. */
  ghost predicate IsSample(env: Env, b: Json, surfaces: seq<Surface>, ci: Json, hosted: Json) {
    && b.Obj? && Manifest(b).Obj? && Integrity(b).Obj? && Plan(b).Obj? && Trust(b).Obj?
    && HeadOk(env, b)
    && Entries(b) == SampleEntries(env, surfaces, ci, hosted)
    && DigestTable(b) == Obj(SampleDigests(env, surfaces, ci, hosted))
    && (forall s :: GetSurface(b, s) == SampleSurface(s, ci, hosted))
  }

  lemma HeadFromParts(env: Env, b: Json, m: Json, i: Json, plan: Json, trust: Json, entries: seq<Json>, digests: Json)
    requires env.Valid()
    requires Get(b, "schema_version") == Some(Str("ao2.cp-release-support-bundle.v1"))
    requires Manifest(b) == m && Trust(b) == trust
    requires Get(m, "schema_version") == Some(Str("ao2.cp-release-support-bundle-manifest.v1"))
    requires Get(m, "included_surfaces") == Some(Arr(entries)) && Get(m, "integrity") == Some(i)
    requires Get(i, "surface_sha256") == Some(digests) && Get(i, "verification_plan") == Some(plan) && digests.Obj?
    requires Get(plan, "surface_count") == Some(Num(Int(9)))
    requires Get(trust, "role") == Some(Str("read_only_observer")) && Get(trust, "mutates_ao_artifacts") == Some(Bool(false))
    ensures HeadOk(env, b) && Entries(b) == entries && DigestTable(b) == digests && Integrity(b) == i && Plan(b) == plan
  {
    assert WellFormed(Num(Int(9))) && SameValue(Num(Int(9)), Num(Int(9)));
  }

  lemma SampleIsSample(env: Env, surfaces: seq<Surface>, ci: Json, hosted: Json)
    requires env.Valid()
    ensures IsSample(env, SampleBundle(env, surfaces, ci, hosted), surfaces, ci, hosted)
  {
    var b := SampleBundle(env, surfaces, ci, hosted);
    SampleParts(env, surfaces, ci, hosted);
    SampleManifestParts(env, surfaces, ci, hosted);
    SampleIntegrityParts(env, surfaces, ci, hosted);
    SampleTrustParts();
    SamplePlan();
    HeadFromParts(env, b, SampleManifest(env, surfaces, ci, hosted), SampleIntegrity(env, surfaces, ci, hosted),
                  Obj([Member("surface_count", Num(Int(9)))]), SampleTrust(),
                  SampleEntries(env, surfaces, ci, hosted), Obj(SampleDigests(env, surfaces, ci, hosted)));
    forall s ensures GetSurface(b, s) == SampleSurface(s, ci, hosted) {
      SampleGetSurface(env, surfaces, ci, hosted, s);
    }
  }

  lemma SampleGetSurface(env: Env, surfaces: seq<Surface>, ci: Json, hosted: Json, s: Surface)
    ensures GetSurface(SampleBundle(env, surfaces, ci, hosted), s) == SampleSurface(s, ci, hosted)
  {
    SampleTop(env, surfaces, ci, hosted, Part(s));
    TopKeysDiffer();
    match s {
      case InstallVerification =>
        assert Part(s)[0] != "hosted_release_smoke"[0];
      case _ =>
    }
  }

  lemma SampleDigest(env: Env, surfaces: seq<Surface>, ci: Json, hosted: Json, s: Surface)
    requires NoRepeats(surfaces) && s in surfaces
    ensures Get(Obj(SampleDigests(env, surfaces, ci, hosted)), SurfaceId(s)) == Some(Str(SampleSha(env, s, ci, hosted)))
  {
    var ms := SampleDigests(env, surfaces, ci, hosted);
    forall i, j | 0 <= i < j < |ms| ensures ms[i].key != ms[j].key {
      IdInjective(surfaces[i], surfaces[j]);
    }
    var i :| 0 <= i < |surfaces| && surfaces[i] == s;
    OnlyMember(ms, i);
  }

  lemma SampleEntryParts(env: Env, s: Surface, ci: Json, hosted: Json)
    ensures var e := SampleEntry(env, s, ci, hosted);
            && EntryId(e) == Str(SurfaceId(s))
            && Lookup(e, "path", Str("missing")) == Str(JsonPath(s))
            && Lookup(e, "sha256", Str("missing")) == Str(SampleSha(env, s, ci, hosted))
            && Lookup(e, "schema_version", Str("missing")) == SampleSchema(s, ci, hosted)
  {
    var m0, m1 := Member("id", Str(SurfaceId(s))), Member("path", Str(JsonPath(s)));
    var m2, m3 := Member("sha256", Str(SampleSha(env, s, ci, hosted))), Member("schema_version", SampleSchema(s, ci, hosted));
    forall key ensures Get(SampleEntry(env, s, ci, hosted), key) ==
                       (if m3.key == key then Some(m3.value) else if m2.key == key then Some(m2.value)
                        else if m1.key == key then Some(m1.value) else if m0.key == key then Some(m0.value) else None)
    {
      Get4(m0, m1, m2, m3, key);
      Get3(m0, m1, m2, key);
      Get2(m0, m1, key);
    }
  }

  lemma NotMissing(env: Env, s: Surface, ci: Json, hosted: Json)
    requires env.Valid()
    ensures SampleSha(env, s, ci, hosted) != "missing"
  {
    match SampleSurface(s, ci, hosted) {
      case None =>
        assert ErrorText(s)[0] == 'e';
      case Some(v) =>
        assert IsHexText(PyDigest(env.h, v));
        assert !IndexLog.IsHex("missing"[0]);
    }
  }

  lemma SameAsItself(v: Json)
    requires WellFormed(v)
    ensures SameValue(v, v)
  {
    CanonicalTextIdentifies(v, v);
  }

  lemma SampleSchemaSame(env: Env, s: Surface, ci: Json, hosted: Json)
    requires env.Valid() && WellFormed(ci) && WellFormed(hosted)
    ensures env.eq(SampleSchema(s, ci, hosted), SampleSchema(s, ci, hosted))
  {
    GetWellFormed(ci, "schema_version");
    GetWellFormed(hosted, "schema_version");
    assert WellFormed(Str("missing"));
    SameAsItself(SampleSchema(s, ci, hosted));
  }

  lemma SampleEntryOk(env: Env, b: Json, ci: Json, hosted: Json, s: Surface)
    requires env.Valid() && WellFormed(ci) && WellFormed(hosted) && env.ciAccepts(ci) && env.hostedAccepts(hosted)
    requires Get(DigestTable(b), SurfaceId(s)) == Some(Str(SampleSha(env, s, ci, hosted)))
    requires forall t :: GetSurface(b, t) == SampleSurface(t, ci, hosted)
    ensures EntryOk(env, b, SampleEntry(env, s, ci, hosted))
  {
    SampleEntryParts(env, s, ci, hosted);
    SurfaceOfId(s, Str(SurfaceId(s)));
    IdInjective(s, CiEvidenceIndex);
    IdInjective(s, HostedSmoke);
    NotMissing(env, s, ci, hosted);
    SampleSchemaSame(env, s, ci, hosted);
    assert EmbeddedSchema(b, Str(SurfaceId(s))) == SampleSchema(s, ci, hosted);
    assert Recomputed(env, b, Str(SurfaceId(s))) == SampleSha(env, s, ci, hosted);
  }

  lemma {:induction false} EntriesOkAll(env: Env, b: Json, entries: seq<Json>)
    requires forall i :: 0 <= i < |entries| ==> EntryOk(env, b, entries[i])
    ensures EntriesOk(env, b, entries)
  {
    if entries != [] {
      EntriesOkAll(env, b, entries[..|entries| - 1]);
    }
  }

  lemma {:induction false} NoCorrelations(env: Env, b: Json, ps: seq<(Surface, string)>)
    requires forall i :: 0 <= i < |ps| ==> GetSurface(b, ps[i].0).None?
    ensures CorrelationsOk(b, ps)
    ensures forall i :: 0 <= i < |CorrelationShas(env, b, ps)| ==> CorrelationShas(env, b, ps)[i] == None
  {
    if ps != [] {
      NoCorrelations(env, b, ps[..|ps| - 1]);
    }
  }

  lemma {:induction false} NoVerdicts(env: Env, b: Json, surfaces: seq<Surface>, field: string)
    requires forall i :: 0 <= i < |surfaces| ==> GetSurface(b, surfaces[i]).None?
    ensures forall i :: 0 <= i < |Verdicts(b, surfaces, field)| ==> Verdicts(b, surfaces, field)[i] == None
    ensures forall i :: 0 <= i < |AuditShas(env, b, surfaces)| ==> AuditShas(env, b, surfaces)[i] == None
  {
    if surfaces != [] {
      NoVerdicts(env, b, surfaces[..|surfaces| - 1], field);
    }
  }

  lemma {:induction false} NoVerdictsAgree(env: Env, b: Json, fields: seq<string>)
    requires forall i :: 0 <= i < |TRIAGE| ==> GetSurface(b, TRIAGE[i]).None?
    ensures VerdictsAgree(b, fields)
  {
    if fields != [] {
      NoVerdictsAgree(env, b, fields[..|fields| - 1]);
      NoVerdicts(env, b, TRIAGE, fields[|fields| - 1]);
    }
  }

  lemma SampleIds(env: Env, surfaces: seq<Surface>, ci: Json, hosted: Json)
    ensures |Ids(SampleEntries(env, surfaces, ci, hosted))| == |surfaces|
    ensures forall i :: 0 <= i < |surfaces| ==> Ids(SampleEntries(env, surfaces, ci, hosted))[i] == Str(SurfaceId(surfaces[i]))
  {
    forall i | 0 <= i < |surfaces| ensures Ids(SampleEntries(env, surfaces, ci, hosted))[i] == Str(SurfaceId(surfaces[i])) {
      SampleEntryParts(env, surfaces[i], ci, hosted);
    }
  }

  lemma AllIdsOk(ids: seq<Json>, surfaces: seq<Surface>)
    requires |ids| == |surfaces| && NoRepeats(surfaces)
    requires forall i :: 0 <= i < |surfaces| ==> ids[i] == Str(SurfaceId(surfaces[i]))
    ensures IdsKnown(ids) && NoRepeats(ids)
    ensures forall s :: s in surfaces ==> Str(SurfaceId(s)) in ids
  {
    forall i | 0 <= i < |ids| ensures SurfaceOf(ids[i]).Some? {
      SurfaceOfId(surfaces[i], ids[i]);
    }
    IdsKnownAll(ids);
    forall i, j | 0 <= i < j < |ids| ensures ids[i] != ids[j] {
      IdInjective(surfaces[i], surfaces[j]);
    }
    forall s | s in surfaces ensures Str(SurfaceId(s)) in ids {
      var i :| 0 <= i < |surfaces| && surfaces[i] == s;
      assert ids[i] == Str(SurfaceId(s));
    }
  }

  lemma SampleEntriesOk(env: Env, b: Json, surfaces: seq<Surface>, ci: Json, hosted: Json)
    requires env.Valid() && WellFormed(ci) && WellFormed(hosted) && env.ciAccepts(ci) && env.hostedAccepts(hosted)
    requires forall t :: GetSurface(b, t) == SampleSurface(t, ci, hosted)
    requires forall s :: Get(DigestTable(b), SurfaceId(s)) == Some(Str(SampleSha(env, s, ci, hosted)))
    ensures EntriesOk(env, b, SampleEntries(env, surfaces, ci, hosted))
  {
    var entries := SampleEntries(env, surfaces, ci, hosted);
    forall i | 0 <= i < |entries| ensures EntryOk(env, b, entries[i]) {
      SampleEntryOk(env, b, ci, hosted, surfaces[i]);
    }
    EntriesOkAll(env, b, entries);
  }

  lemma SampleDigestsListed(env: Env, b: Json, surfaces: seq<Surface>, ci: Json, hosted: Json)
    requires AllSurfaces(surfaces) && DigestTable(b) == Obj(SampleDigests(env, surfaces, ci, hosted))
    ensures forall s :: Get(DigestTable(b), SurfaceId(s)) == Some(Str(SampleSha(env, s, ci, hosted)))
  {
    forall s ensures Get(DigestTable(b), SurfaceId(s)) == Some(Str(SampleSha(env, s, ci, hosted))) {
      SampleDigest(env, surfaces, ci, hosted, s);
    }
  }

  lemma SampleAgreements(env: Env, b: Json, ci: Json, hosted: Json)
    requires forall t :: GetSurface(b, t) == SampleSurface(t, ci, hosted)
    ensures CorrelationsOk(b, CORRELATED) && Agree(CorrelationShas(env, b, CORRELATED))
    ensures VerdictsAgree(b, PARITY_VERDICTS) && Agree(AuditShas(env, b, TRIAGE))
  {
    NoCorrelations(env, b, CORRELATED);
    NoVerdictsAgree(env, b, PARITY_VERDICTS);
    NoVerdicts(env, b, TRIAGE, "");
  }

  lemma SampleIdsOk(env: Env, b: Json, surfaces: seq<Surface>, ci: Json, hosted: Json)
    requires AllSurfaces(surfaces) && Entries(b) == SampleEntries(env, surfaces, ci, hosted)
    ensures IdsOk(Ids(Entries(b)))
  {
    SampleIds(env, surfaces, ci, hosted);
    AllIdsOk(Ids(Entries(b)), surfaces);
  }

  lemma SampleShaped(env: Env, b: Json, surfaces: seq<Surface>, ci: Json, hosted: Json)
    requires Entries(b) == SampleEntries(env, surfaces, ci, hosted)
    ensures forall entry :: entry in Entries(b) ==> !EntryId(entry).Obj? && !EntryId(entry).Arr?
  {
    forall entry | entry in Entries(b) ensures EntryId(entry).Str? {
      var i :| 0 <= i < |Entries(b)| && Entries(b)[i] == entry;
      SampleEntryParts(env, surfaces[i], ci, hosted);
    }
  }

  lemma SampleListed(env: Env, b: Json, surfaces: seq<Surface>, ci: Json, hosted: Json)
    requires env.Valid() && WellFormed(ci) && WellFormed(hosted) && env.ciAccepts(ci) && env.hostedAccepts(hosted)
    requires forall t :: GetSurface(b, t) == SampleSurface(t, ci, hosted)
    requires AllSurfaces(surfaces) && Entries(b) == SampleEntries(env, surfaces, ci, hosted)
    requires DigestTable(b) == Obj(SampleDigests(env, surfaces, ci, hosted))
    ensures IdsOk(Ids(Entries(b))) && DigestsListed(b) && EntriesOk(env, b, Entries(b))
  {
    SampleIdsOk(env, b, surfaces, ci, hosted);
    SampleDigestsListed(env, b, surfaces, ci, hosted);
    SampleEntriesOk(env, b, surfaces, ci, hosted);
  }

  lemma NoCockpitNotSound(env: Env, b: Json)
    requires GetSurface(b, ReleaseCockpit).None?
    ensures !Sound(env, b)
  {
    assert !Intact(env, b, ReleaseCockpit);
  }

  lemma SamplePasses(env: Env, b: Json, surfaces: seq<Surface>, ci: Json, hosted: Json)
    requires env.Valid() && WellFormed(ci) && WellFormed(hosted) && env.ciAccepts(ci) && env.hostedAccepts(hosted)
    requires AllSurfaces(surfaces) && IsSample(env, b, surfaces, ci, hosted)
    ensures Accepts(env, b)
  {
    SampleListed(env, b, surfaces, ci, hosted);
    SampleAgreements(env, b, ci, hosted);
  }

  lemma ShapedFrom(b: Json)
    requires b.Obj? && Manifest(b).Obj? && Integrity(b).Obj? && Plan(b).Obj? && Trust(b).Obj?
    requires forall entry :: entry in Entries(b) ==> !EntryId(entry).Obj? && !EntryId(entry).Arr?
    ensures WellShaped(b)
  {
  }

  lemma SampleWellShaped(env: Env, b: Json, surfaces: seq<Surface>, ci: Json, hosted: Json)
    requires b.Obj? && Manifest(b).Obj? && Integrity(b).Obj? && Plan(b).Obj? && Trust(b).Obj?
    requires Entries(b) == SampleEntries(env, surfaces, ci, hosted)
    ensures WellShaped(b)
  {
    SampleShaped(env, b, surfaces, ci, hosted);
    ShapedFrom(b);
  }

  lemma WellFormedObject(ms: seq<Member>)
    requires DistinctKeys(ms) && forall i :: 0 <= i < |ms| ==> WellFormed(ms[i].value)
    ensures WellFormed(Obj(ms))
  {
  }

  lemma SampleEntryWellFormed(env: Env, s: Surface, ci: Json, hosted: Json)
    requires WellFormed(ci) && WellFormed(hosted)
    ensures WellFormed(SampleEntry(env, s, ci, hosted))
  {
    GetWellFormed(ci, "schema_version");
    GetWellFormed(hosted, "schema_version");
    WellFormedObject(SampleEntry(env, s, ci, hosted).members);
  }

  lemma SampleDigestsWellFormed(env: Env, surfaces: seq<Surface>, ci: Json, hosted: Json)
    requires NoRepeats(surfaces)
    ensures WellFormed(Obj(SampleDigests(env, surfaces, ci, hosted)))
  {
    var ms := SampleDigests(env, surfaces, ci, hosted);
    forall i, j | 0 <= i < j < |ms| ensures ms[i].key != ms[j].key {
      IdInjective(surfaces[i], surfaces[j]);
    }
    WellFormedObject(ms);
  }

  lemma SampleIntegrityWellFormed(env: Env, surfaces: seq<Surface>, ci: Json, hosted: Json)
    requires NoRepeats(surfaces)
    ensures WellFormed(SampleIntegrity(env, surfaces, ci, hosted))
  {
    SampleDigestsWellFormed(env, surfaces, ci, hosted);
    WellFormedObject([Member("surface_count", Num(Int(9)))]);
    WellFormedObject(SampleIntegrity(env, surfaces, ci, hosted).members);
  }

  lemma SampleEntriesWellFormed(env: Env, surfaces: seq<Surface>, ci: Json, hosted: Json)
    requires WellFormed(ci) && WellFormed(hosted)
    ensures WellFormed(Arr(SampleEntries(env, surfaces, ci, hosted)))
  {
    forall i | 0 <= i < |surfaces| ensures WellFormed(SampleEntries(env, surfaces, ci, hosted)[i]) {
      SampleEntryWellFormed(env, surfaces[i], ci, hosted);
    }
  }

  lemma SampleManifestWellFormed(env: Env, surfaces: seq<Surface>, ci: Json, hosted: Json)
    requires WellFormed(ci) && WellFormed(hosted) && NoRepeats(surfaces)
    ensures WellFormed(SampleManifest(env, surfaces, ci, hosted))
  {
    SampleIntegrityWellFormed(env, surfaces, ci, hosted);
    SampleEntriesWellFormed(env, surfaces, ci, hosted);
    WellFormedObject([Member("schema_version", Str("ao2.cp-release-support-bundle-manifest.v1")),
                      Member("included_surfaces", Arr(SampleEntries(env, surfaces, ci, hosted))),
                      Member("integrity", SampleIntegrity(env, surfaces, ci, hosted))]);
  }

  lemma SampleBundleWellFormed(env: Env, surfaces: seq<Surface>, ci: Json, hosted: Json)
    requires WellFormed(ci) && WellFormed(hosted) && NoRepeats(surfaces)
    ensures WellFormed(SampleBundle(env, surfaces, ci, hosted))
  {
    SampleManifestWellFormed(env, surfaces, ci, hosted);
    WellFormedObject(SampleTrust().members);
    TopKeysDiffer();
    WellFormedObject([Member("schema_version", Str("ao2.cp-release-support-bundle.v1")),
                      Member("trust_boundary", SampleTrust()),
                      Member("portable_bundle_manifest", SampleManifest(env, surfaces, ci, hosted)),
                      Member("ci_evidence_index", ci),
                      Member("hosted_release_smoke", hosted)]);
  }

  lemma MakeSample(env: Env, surfaces: seq<Surface>, ci: Json, hosted: Json) returns (b: Json)
    requires env.Valid() && WellFormed(ci) && WellFormed(hosted) && NoRepeats(surfaces)
    ensures IsSample(env, b, surfaces, ci, hosted) && WellFormed(b)
  {
    b := SampleBundle(env, surfaces, ci, hosted);
    SampleIsSample(env, surfaces, ci, hosted);
    SampleBundleWellFormed(env, surfaces, ci, hosted);
  }

  lemma SamplePassesUnsound(env: Env, surfaces: seq<Surface>, ci: Json, hosted: Json) returns (b: Json)
    requires env.Valid() && WellFormed(ci) && WellFormed(hosted) && env.ciAccepts(ci) && env.hostedAccepts(hosted)
    requires AllSurfaces(surfaces)
    ensures WellFormed(b) && WellShaped(b) && Accepts(env, b)
    ensures GetSurface(b, ReleaseCockpit).None? && !Sound(env, b)
  {
    b := MakeSample(env, surfaces, ci, hosted);
    SampleWellShaped(env, b, surfaces, ci, hosted);
    SamplePasses(env, b, surfaces, ci, hosted);
    NoCockpitNotSound(env, b);
  }

  /**
   A bundle can pass although it has no cockpit, nor any other surface with a
   candidate correlation: whatever the two remaining surfaces are, as long as
   they pass their own checks.
  */
  lemma AbsentSurfacesPass(env: Env, ci: Json, hosted: Json) returns (b: Json)
    requires env.Valid() && WellFormed(ci) && WellFormed(hosted) && env.ciAccepts(ci) && env.hostedAccepts(hosted)
    ensures WellFormed(b) && WellShaped(b) && Accepts(env, b)
    ensures GetSurface(b, ReleaseCockpit).None? && !Sound(env, b)
  {
    NineSurfaces();
    b := SamplePassesUnsound(env, SURFACES, ci, hosted);
  }
}
