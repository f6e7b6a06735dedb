/**
 Comparing two release support bundles (collect_comparison_view, comparison_diff
 of verify_release_support_bundle.py): the view taken of each, and the drift
 reported between them.
*/
module Comparison {
  import opened Wrappers
  import opened Json
  import opened JsonLookup
  import opened Canonical
  import opened Verifier

  const BUDGET_FIELDS: seq<string> := ["count", "audit_log_size_bytes", "audit_log_cap_bytes"]

  type Field = (Surface, string)

  datatype View = View(schema: Json, verdicts: map<Field, string>, statuses: map<Field, string>, budgets: map<Field, int>)

  function At<K, V>(m: map<K, V>, k: K): Option<V> {
    if k in m then Some(m[k]) else None
  }

  /** The status of a correlation object, if it is a string. */
  function StatusOf(b: Json, f: Field): Option<string> {
    match CorrelationOf(b, f.0, f.1)
    case None => None
    case Some(c) => match Get(c, "status") case Some(Str(t)) => Some(t) case _ => None
  }

  /** A rotation-budget field of the audit object, if it is an integer. */
  function BudgetOf(b: Json, f: Field): Option<int> {
    match AuditOf(b, f.0)
    case None => None
    case Some(a) => match Get(a, f.1) case Some(Num(Int(n))) => Some(n) case _ => None
  }

  function Pairs(surfaces: seq<Surface>, field: string): seq<Field> {
    if surfaces == [] then [] else Pairs(surfaces[..|surfaces| - 1], field) + [(surfaces[|surfaces| - 1], field)]
  }

  /** Every field on every surface, field by field. */
  function Product(surfaces: seq<Surface>, fields: seq<string>): seq<Field> {
    if fields == [] then [] else Product(surfaces, fields[..|fields| - 1]) + Pairs(surfaces, fields[|fields| - 1])
  }

  const VERDICT_FIELDS: seq<Field> := Product(TRIAGE, PARITY_VERDICTS)

  const AUDIT_FIELDS: seq<Field> := Product(TRIAGE, BUDGET_FIELDS)

  /** The entries of a view: exactly the values that are there. */
  ghost predicate Holds<V>(m: map<Field, V>, fields: seq<Field>, value: Field -> Option<V>) {
    forall f :: f in fields ==> At(m, f) == value(f)
  }

  method Collect<V>(fields: seq<Field>, value: Field -> Option<V>) returns (m: map<Field, V>)
    ensures Holds(m, fields, value)
  {
    m := map[];
    for i := 0 to |fields|
      invariant forall f :: f in m ==> value(f) == Some(m[f])
      invariant forall j :: 0 <= j < i ==> At(m, fields[j]) == value(fields[j])
    {
      var v := value(fields[i]);
      if v.Some? {
        m := m[fields[i] := v.value];
      }
    }
  }

  function VerdictAtField(b: Json): Field -> Option<string> {
    (f: Field) => VerdictOf(b, f.0, f.1)
  }

  function StatusAtField(b: Json): Field -> Option<string> {
    (f: Field) => StatusOf(b, f)
  }

  function BudgetAtField(b: Json): Field -> Option<int> {
    (f: Field) => BudgetOf(b, f)
  }

  /** collect_comparison_view */
  method CollectView(b: Json) returns (v: View)
    ensures v.schema == Lookup(b, "schema_version", Null)
    ensures Holds(v.verdicts, VERDICT_FIELDS, VerdictAtField(b))
    ensures Holds(v.statuses, CORRELATED, StatusAtField(b))
    ensures Holds(v.budgets, AUDIT_FIELDS, BudgetAtField(b))
  {
    var verdicts := Collect(VERDICT_FIELDS, VerdictAtField(b));
    var statuses := Collect(CORRELATED, StatusAtField(b));
    var budgets := Collect(AUDIT_FIELDS, BudgetAtField(b));
    v := View(Lookup(b, "schema_version", Null), verdicts, statuses, budgets);
  }

  /** The fields whose values differ, in order. */
  function Differing<V(==)>(fields: seq<Field>, x: Field -> Option<V>, y: Field -> Option<V>): seq<Field> {
    if fields == [] then []
    else
      Differing(fields[..|fields| - 1], x, y) +
      (if x(fields[|fields| - 1]) != y(fields[|fields| - 1]) then [fields[|fields| - 1]] else [])
  }

  method DifferingFields<V(==)>(fields: seq<Field>, p: map<Field, V>, q: map<Field, V>,
                                ghost x: Field -> Option<V>, ghost y: Field -> Option<V>)
    returns (out: seq<Field>)
    requires Holds(p, fields, x) && Holds(q, fields, y)
    ensures out == Differing(fields, x, y)
  {
    out := [];
    for i := 0 to |fields|
      invariant out == Differing(fields[..i], x, y)
    {
      assert fields[..i + 1][..i] == fields[..i];
      assert fields[i] in fields;
      if At(p, fields[i]) != At(q, fields[i]) {
        out := out + [fields[i]];
      }
    }
    assert fields[..|fields|] == fields;
  }

  datatype Report = Report(
    shaMatch: bool, schemaMatch: bool, verdicts: seq<Field>, statuses: seq<Field>, budgets: seq<Field>, verdictParity: bool)

  /** comparison_diff on the views of two bundles; the failures are the reported drifts. */
  method Compare(env: Env, a: Json, b: Json) returns (r: Report, failures: nat)
    ensures r.shaMatch <==> PyDigest(env.h, a) == PyDigest(env.h, b)
    ensures r.schemaMatch <==> env.eq(Lookup(a, "schema_version", Null), Lookup(b, "schema_version", Null))
    ensures r.verdicts == Differing(VERDICT_FIELDS, VerdictAtField(a), VerdictAtField(b))
    ensures r.statuses == Differing(CORRELATED, StatusAtField(a), StatusAtField(b))
    ensures r.budgets == Differing(AUDIT_FIELDS, BudgetAtField(a), BudgetAtField(b))
    ensures r.verdictParity <==> r.verdicts == [] && r.statuses == []
    ensures failures == |r.verdicts| + |r.statuses| + |r.budgets| + (if r.schemaMatch then 0 else 1)
  {
    var p := CollectView(a);
    var q := CollectView(b);
    var verdicts := DifferingFields(VERDICT_FIELDS, p.verdicts, q.verdicts, VerdictAtField(a), VerdictAtField(b));
    var statuses := DifferingFields(CORRELATED, p.statuses, q.statuses, StatusAtField(a), StatusAtField(b));
    var budgets := DifferingFields(AUDIT_FIELDS, p.budgets, q.budgets, BudgetAtField(a), BudgetAtField(b));
    r := Report(PyDigest(env.h, a) == PyDigest(env.h, b), env.eq(p.schema, q.schema), verdicts, statuses, budgets,
                verdicts == [] && statuses == []);
    failures := |verdicts| + |statuses| + |budgets| + (if r.schemaMatch then 0 else 1);
  }

  // ---- what is compared ----

  lemma {:induction false} PairsMember(surfaces: seq<Surface>, field: string, f: Field)
    ensures f in Pairs(surfaces, field) <==> f.0 in surfaces && f.1 == field
  {
    if surfaces != [] {
      var init, last := surfaces[..|surfaces| - 1], surfaces[|surfaces| - 1];
      PairsMember(init, field, f);
      assert surfaces == init + [last];
    }
  }

  lemma {:induction false} ProductMember(surfaces: seq<Surface>, fields: seq<string>, f: Field)
    ensures f in Product(surfaces, fields) <==> f.0 in surfaces && f.1 in fields
  {
    if fields != [] {
      var init, last := fields[..|fields| - 1], fields[|fields| - 1];
      ProductMember(surfaces, init, f);
      PairsMember(surfaces, last, f);
      assert fields == init + [last];
    }
  }

  /** The three surfaces that are compared. */
  predicate IsCompared(s: Surface) { s.ReleaseCockpit? || s.CandidateHandoff? || s.ReleaseReadiness? }

  lemma ComparedSurfaces(s: Surface)
    ensures s in TRIAGE <==> IsCompared(s)
  {
  }

  /** Verdict drift is looked for in two fields of three surfaces. */
  lemma ComparedVerdicts(f: Field)
    ensures f in VERDICT_FIELDS <==>
            IsCompared(f.0) && (f.1 == "candidate_correlation_parity" || f.1 == "surface_content_hash_parity")
  {
    ProductMember(TRIAGE, PARITY_VERDICTS, f);
    ComparedSurfaces(f.0);
  }

  /** Audit drift in three fields of the same surfaces. */
  lemma ComparedAudits(f: Field)
    ensures f in AUDIT_FIELDS <==>
            IsCompared(f.0) && (f.1 == "count" || f.1 == "audit_log_size_bytes" || f.1 == "audit_log_cap_bytes")
  {
    ProductMember(TRIAGE, BUDGET_FIELDS, f);
    ComparedSurfaces(f.0);
  }

  /** And status drift in the correlation of four surfaces. */
  lemma ComparedStatuses(f: Field)
    ensures f in CORRELATED <==>
            || (IsCompared(f.0) && f.1 == "candidate_correlation")
            || (f.0 == ReleaseAssembly && f.1 == "candidate_correlation_detail")
  {
  }

  /** The status that is compared is the string under "status" of the correlation object. */
  lemma StatusSays(b: Json, f: Field, t: string)
    ensures StatusOf(b, f) == Some(t) <==>
            exists c :: ObjectIn(b, Part(f.0), f.1) == Some(c) && Get(c, "status") == Some(Str(t))
  {
  }

  /** The audit value that is compared is the integer under its name in the audit object. */
  lemma BudgetSays(b: Json, f: Field, n: int)
    ensures BudgetOf(b, f) == Some(n) <==>
            exists a :: ObjectIn(b, Part(f.0), "rejected_smoke_audit") == Some(a) && Get(a, f.1) == Some(Num(Int(n)))
  {
  }

  // ---- what is reported ----

  lemma {:induction false} DifferingMember<V>(fields: seq<Field>, x: Field -> Option<V>, y: Field -> Option<V>, f: Field)
    ensures f in Differing(fields, x, y) <==> f in fields && x(f) != y(f)
  {
    if fields != [] {
      var init, last := fields[..|fields| - 1], fields[|fields| - 1];
      DifferingMember(init, x, y, f);
      assert fields == init + [last];
    }
  }

  lemma {:induction false} NothingDiffers<V>(fields: seq<Field>, x: Field -> Option<V>, y: Field -> Option<V>)
    requires forall f :: f in fields ==> x(f) == y(f)
    ensures Differing(fields, x, y) == []
  {
    if fields != [] {
      NothingDiffers(fields[..|fields| - 1], x, y);
    }
  }

  lemma SameSurface(a: Json, b: Json, s: Surface, field: string)
    requires WellFormed(a) && WellFormed(b) && SameValue(a, b)
    ensures GetSurface(a, s).Some? <==> GetSurface(b, s).Some?
    ensures GetSurface(a, s).Some? ==> SameLookup(Get(GetSurface(a, s).value, field), Get(GetSurface(b, s).value, field))
  {
    SameValueSameLookup(a, b, Part(s));
    GetWellFormed(a, Part(s));
    GetWellFormed(b, Part(s));
    if GetSurface(a, s).Some? {
      SameValueSameLookup(GetSurface(a, s).value, GetSurface(b, s).value, field);
    }
  }

  lemma SameCorrelation(a: Json, b: Json, s: Surface, field: string)
    requires WellFormed(a) && WellFormed(b) && SameValue(a, b)
    ensures SameLookup(CorrelationOf(a, s, field), CorrelationOf(b, s, field))
  {
    SameSurface(a, b, s, field);
  }

  lemma SameVerdict(a: Json, b: Json, s: Surface, field: string)
    requires WellFormed(a) && WellFormed(b) && SameValue(a, b)
    ensures VerdictOf(a, s, field) == VerdictOf(b, s, field)
  {
    SameSurface(a, b, s, field);
  }

  lemma SameStatus(a: Json, b: Json, f: Field)
    requires WellFormed(a) && WellFormed(b) && SameValue(a, b)
    ensures StatusOf(a, f) == StatusOf(b, f)
  {
    SameCorrelation(a, b, f.0, f.1);
    CorrelationWellFormed(a, f.0, f.1);
    CorrelationWellFormed(b, f.0, f.1);
    if CorrelationOf(a, f.0, f.1).Some? {
      SameValueSameLookup(CorrelationOf(a, f.0, f.1).value, CorrelationOf(b, f.0, f.1).value, "status");
    }
  }

  lemma SameBudget(a: Json, b: Json, f: Field)
    requires WellFormed(a) && WellFormed(b) && SameValue(a, b)
    ensures BudgetOf(a, f) == BudgetOf(b, f)
  {
    SameCorrelation(a, b, f.0, "rejected_smoke_audit");
    CorrelationWellFormed(a, f.0, "rejected_smoke_audit");
    CorrelationWellFormed(b, f.0, "rejected_smoke_audit");
    if AuditOf(a, f.0).Some? {
      SameValueSameLookup(AuditOf(a, f.0).value, AuditOf(b, f.0).value, f.1);
    }
  }

  /**
   Bundles with the same digest never drift: no field is reported, whatever
   order their members come in, and their schemas match.
  */
  lemma SameDigestNoDrift(env: Env, a: Json, b: Json)
    requires env.Valid() && WellFormed(a) && WellFormed(b) && PyDigest(env.h, a) == PyDigest(env.h, b)
    ensures Differing(VERDICT_FIELDS, VerdictAtField(a), VerdictAtField(b)) == []
    ensures Differing(CORRELATED, StatusAtField(a), StatusAtField(b)) == []
    ensures Differing(AUDIT_FIELDS, BudgetAtField(a), BudgetAtField(b)) == []
    ensures env.eq(Lookup(a, "schema_version", Null), Lookup(b, "schema_version", Null))
  {
    PyDigestIdentifies(env.h, a, b);
    forall f: Field ensures VerdictAtField(a)(f) == VerdictAtField(b)(f) {
      SameVerdict(a, b, f.0, f.1);
    }
    forall f: Field ensures StatusAtField(a)(f) == StatusAtField(b)(f) {
      SameStatus(a, b, f);
    }
    forall f: Field ensures BudgetAtField(a)(f) == BudgetAtField(b)(f) {
      SameBudget(a, b, f);
    }
    NothingDiffers(VERDICT_FIELDS, VerdictAtField(a), VerdictAtField(b));
    NothingDiffers(CORRELATED, StatusAtField(a), StatusAtField(b));
    NothingDiffers(AUDIT_FIELDS, BudgetAtField(a), BudgetAtField(b));
    SameValueSameLookup(a, b, "schema_version");
    GetWellFormed(a, "schema_version");
    GetWellFormed(b, "schema_version");
    assert WellFormed(Null) && SameValue(Null, Null);
  }
}
