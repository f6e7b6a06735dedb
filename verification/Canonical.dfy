/**
 AO2 canonical JSON v1 (canonical.rs): objects are printed compactly with their
 keys in the byte order of Rust strings. Two values get the same text exactly
 when they differ in member order only, and the Python twin prints the same text.
*/
module Canonical {
  import opened Json
  import opened JsonReader
  import opened Sequences
  import opened Utf8

  /** Rust sorts keys by their UTF-8 bytes. */
  function RustKeyLe(): (Member, Member) -> bool {
    (a: Member, b: Member) => BytesLe(Encode(a.key), Encode(b.key))
  }

  /** Python sorts keys by code point. */
  function PythonKeyLe(): (Member, Member) -> bool {
    (a: Member, b: Member) => StringLe(a.key, b.key)
  }

  /** The value with the members of every object sorted by key. */
  function Normal(v: Json, le: (Member, Member) -> bool): Json
    decreases v, 0
  {
    match v
    case Arr(items) => Arr(NormalItems(items, le))
    case Obj(ms) => Obj(Sort(NormalMembers(ms, le), le))
    case _ => v
  }

  function NormalItems(items: seq<Json>, le: (Member, Member) -> bool): (r: seq<Json>)
    ensures |r| == |items|
    ensures forall i :: 0 <= i < |items| ==> r[i] == Normal(items[i], le)
    decreases items, 1
  {
    if items == [] then [] else [Normal(items[0], le)] + NormalItems(items[1..], le)
  }

  function NormalMembers(ms: seq<Member>, le: (Member, Member) -> bool): (r: seq<Member>)
    ensures |r| == |ms|
    ensures forall i :: 0 <= i < |ms| ==> r[i] == Member(ms[i].key, Normal(ms[i].value, le))
    decreases ms, 1
  {
    if ms == [] then []
    else [Member(ms[0].key, Normal(ms[0].value, le))] + NormalMembers(ms[1..], le)
  }

  /** canonical_json: the text that digests are taken over. */
  function Canon(v: Json): string { Compact(Normal(v, RustKeyLe())) }

  /** json.dumps(ensure_ascii=False, sort_keys=True, separators=(",", ":")) on values without floats. */
  function PythonCanon(v: Json): string { Compact(Normal(v, PythonKeyLe())) }

  ghost predicate DistinctKeys(ms: seq<Member>) {
    forall i, j :: 0 <= i < j < |ms| ==> ms[i].key != ms[j].key
  }

  /** Object keys are distinct and opaque number texts are numbers, all the way down. */
  ghost predicate WellFormed(v: Json)
    decreases v
  {
    match v
    case Num(Float(t)) => IsFloatText(t)
    case Arr(items) => forall i :: 0 <= i < |items| ==> WellFormed(items[i])
    case Obj(ms) => DistinctKeys(ms) && forall i :: 0 <= i < |ms| ==> WellFormed(ms[i].value)
    case _ => true
  }

  /** Equality up to the order of object members, which is equality of serde_json maps. */
  ghost predicate SameValue(a: Json, b: Json)
    decreases a, 0
  {
    match a
    case Arr(items) =>
      b.Arr? && |items| == |b.items| &&
      forall i :: 0 <= i < |items| ==> SameValue(items[i], b.items[i])
    case Obj(ms) =>
      b.Obj? && |ms| == |b.members| &&
      forall i :: 0 <= i < |ms| ==> HasSameMember(ms[i], b.members)
    case _ => a == b
  }

  ghost predicate HasSameMember(m: Member, ns: seq<Member>)
    decreases m, 1
  {
    exists j :: 0 <= j < |ns| && m.key == ns[j].key && SameValue(m.value, ns[j].value)
  }

  // ---- the two key orders agree ----

  lemma KeyOrders()
    ensures TotalPreorder(PythonKeyLe()) && TotalPreorder(RustKeyLe())
    ensures forall a, b :: RustKeyLe()(a, b) == PythonKeyLe()(a, b)
    ensures forall a, b :: PythonKeyLe()(a, b) && PythonKeyLe()(b, a) ==> a.key == b.key
  {
    forall a: Member, b: Member
      ensures RustKeyLe()(a, b) == PythonKeyLe()(a, b)
      ensures PythonKeyLe()(a, b) || PythonKeyLe()(b, a)
      ensures PythonKeyLe()(a, b) && PythonKeyLe()(b, a) ==> a.key == b.key
    {
      EncodePreservesOrder(a.key, b.key);
      StringLeTotal(a.key, b.key);
    }
    forall a: Member, b: Member, c: Member | PythonKeyLe()(a, b) && PythonKeyLe()(b, c)
      ensures PythonKeyLe()(a, c)
    {
      StringLeTransitive(a.key, b.key, c.key);
    }
  }

  lemma {:induction false} InsertAgrees(m: Member, ms: seq<Member>)
    requires forall a, b :: RustKeyLe()(a, b) == PythonKeyLe()(a, b)
    ensures Insert(m, ms, RustKeyLe()) == Insert(m, ms, PythonKeyLe())
  {
    if ms != [] {
      InsertAgrees(m, ms[1..]);
    }
  }

  lemma {:induction false} SortAgrees(ms: seq<Member>)
    ensures Sort(ms, RustKeyLe()) == Sort(ms, PythonKeyLe())
  {
    if ms != [] {
      KeyOrders();
      SortAgrees(ms[1..]);
      InsertAgrees(ms[0], Sort(ms[1..], PythonKeyLe()));
    }
  }

  lemma {:induction false} NormalAgrees(v: Json)
    ensures Normal(v, RustKeyLe()) == Normal(v, PythonKeyLe())
    decreases v
  {
    match v
    case Arr(items) =>
      forall i | 0 <= i < |items|
        ensures Normal(items[i], RustKeyLe()) == Normal(items[i], PythonKeyLe())
      {
        NormalAgrees(items[i]);
      }
      assert NormalItems(items, RustKeyLe()) == NormalItems(items, PythonKeyLe());
    case Obj(ms) =>
      forall i | 0 <= i < |ms|
        ensures Normal(ms[i].value, RustKeyLe()) == Normal(ms[i].value, PythonKeyLe())
      {
        NormalAgrees(ms[i].value);
      }
      assert NormalMembers(ms, RustKeyLe()) == NormalMembers(ms, PythonKeyLe());
      SortAgrees(NormalMembers(ms, RustKeyLe()));
    case _ =>
  }

  ghost predicate FloatFree(v: Json)
    decreases v
  {
    match v
    case Num(x) => x.Int?
    case Arr(items) => forall i :: 0 <= i < |items| ==> FloatFree(items[i])
    case Obj(ms) => forall i :: 0 <= i < |ms| ==> FloatFree(ms[i].value)
    case _ => true
  }

  /** The server and the offline verifier digest the same text. */
  lemma PythonPrintsTheSame(v: Json)
    requires FloatFree(v)
    ensures PythonCanon(v) == Canon(v)
  {
    NormalAgrees(v);
  }

  // ---- the canonical text determines the value up to member order ----

  lemma {:induction false} WellFormedPrintable(v: Json)
    requires WellFormed(v)
    ensures Printable(v)
    decreases v
  {
    match v
    case Arr(items) =>
      forall i | 0 <= i < |items| ensures Printable(items[i]) { WellFormedPrintable(items[i]); }
    case Obj(ms) =>
      forall i | 0 <= i < |ms| ensures Printable(ms[i].value) { WellFormedPrintable(ms[i].value); }
    case _ =>
  }

  lemma SortedMembers(ns: seq<Member>, le: (Member, Member) -> bool) returns (at: seq<nat>)
    ensures |Sort(ns, le)| == |ns| == |at|
    ensures forall i :: 0 <= i < |ns| ==> at[i] < |ns| && Sort(ns, le)[i] == ns[at[i]]
  {
    SortPermutes(ns, le);
    var sorted := Sort(ns, le);
    at := [];
    while |at| < |ns|
      invariant |at| <= |ns|
      invariant forall i :: 0 <= i < |at| ==> at[i] < |ns| && sorted[i] == ns[at[i]]
    {
      assert sorted[|at|] in ns;
      var j: nat :| j < |ns| && ns[j] == sorted[|at|];
      at := at + [j];
    }
  }

  lemma {:induction false} AtMostOnce(ms: seq<Member>, x: Member)
    requires DistinctKeys(ms)
    ensures multiset(ms)[x] <= 1
  {
    if ms != [] {
      AtMostOnce(ms[1..], x);
      assert ms == [ms[0]] + ms[1..];
      assert ms[0] !in ms[1..];
    }
  }

  lemma Repeated(ms: seq<Member>, i: nat, j: nat)
    requires i < j < |ms| && ms[i] == ms[j]
    ensures multiset(ms)[ms[i]] >= 2
  {
    assert ms == ms[..i] + [ms[i]] + ms[i + 1..j] + [ms[j]] + ms[j + 1..];
  }

  /** A permutation of members with distinct keys has distinct keys. */
  lemma PermutedKeys(ms: seq<Member>, ns: seq<Member>)
    requires DistinctKeys(ms) && multiset(ms) == multiset(ns)
    ensures DistinctKeys(ns)
  {
    forall i, j | 0 <= i < j < |ns| ensures ns[i].key != ns[j].key {
      assert ns[i] in multiset(ms) && ns[j] in multiset(ms);
      assert ns[i] in ms && ns[j] in ms;
      AtMostOnce(ms, ns[i]);
      if ns[i] == ns[j] {
        Repeated(ns, i, j);
      }
    }
  }

  lemma {:induction false} NormalWellFormed(v: Json)
    requires WellFormed(v)
    ensures WellFormed(Normal(v, RustKeyLe()))
    decreases v
  {
    var le := RustKeyLe();
    match v
    case Arr(items) =>
      forall i | 0 <= i < |items| ensures WellFormed(Normal(items[i], le)) { NormalWellFormed(items[i]); }
    case Obj(ms) =>
      forall i | 0 <= i < |ms| ensures WellFormed(Normal(ms[i].value, le)) { NormalWellFormed(ms[i].value); }
      var ns := NormalMembers(ms, le);
      SortPermutes(ns, le);
      PermutedKeys(ns, Sort(ns, le));
      var at := SortedMembers(ns, le);
    case _ =>
  }

  /** Reading a canonical text back gives the value with its members sorted. */
  lemma ReadCanonical(v: Json)
    requires WellFormed(v)
    ensures ParseDocument(Canon(v)) == Done(Normal(v, RustKeyLe()), "")
  {
    NormalWellFormed(v);
    WellFormedPrintable(Normal(v, RustKeyLe()));
    DocumentRoundTrip(Normal(v, RustKeyLe()));
  }

  lemma SameNormalMember(ms: seq<Member>, ns: seq<Member>, i: nat) returns (j: nat)
    requires i < |ms|
    requires Sort(NormalMembers(ms, RustKeyLe()), RustKeyLe()) == Sort(NormalMembers(ns, RustKeyLe()), RustKeyLe())
    ensures j < |ns| && ms[i].key == ns[j].key
    ensures Normal(ms[i].value, RustKeyLe()) == Normal(ns[j].value, RustKeyLe())
  {
    var a, b := NormalMembers(ms, RustKeyLe()), NormalMembers(ns, RustKeyLe());
    SortPermutes(a, RustKeyLe());
    SortPermutes(b, RustKeyLe());
    assert a[i] in Sort(a, RustKeyLe());
    assert a[i] in b;
    j :| j < |b| && b[j] == a[i];
  }

  lemma {:induction false} SameNormalIsSameValue(a: Json, b: Json)
    requires Normal(a, RustKeyLe()) == Normal(b, RustKeyLe())
    ensures SameValue(a, b)
    decreases a
  {
    var le := RustKeyLe();
    match a
    case Arr(items) =>
      assert |NormalItems(items, le)| == |NormalItems(b.items, le)|;
      forall i | 0 <= i < |items| ensures SameValue(items[i], b.items[i]) {
        assert NormalItems(items, le)[i] == NormalItems(b.items, le)[i];
        SameNormalIsSameValue(items[i], b.items[i]);
      }
    case Obj(ms) =>
      SortPermutes(NormalMembers(ms, le), le);
      SortPermutes(NormalMembers(b.members, le), le);
      forall i | 0 <= i < |ms|
        ensures HasSameMember(ms[i], b.members)
      {
        var j := SameNormalMember(ms, b.members, i);
        SameNormalIsSameValue(ms[i].value, b.members[j].value);
      }
    case _ =>
  }

  /** Two lists without repeats, one inside the other and equally long, are permutations. */
  lemma {:induction false} SameContents<T>(a: seq<T>, b: seq<T>)
    requires forall i, j :: 0 <= i < j < |a| ==> a[i] != a[j]
    requires forall x :: x in a ==> x in b
    requires |a| == |b|
    ensures multiset(a) == multiset(b)
  {
    if a != [] {
      assert a[0] in a;
      var j :| 0 <= j < |b| && b[j] == a[0];
      var rest := b[..j] + b[j + 1..];
      assert a == [a[0]] + a[1..] && b == b[..j] + [b[j]] + b[j + 1..];
      forall x | x in a[1..] ensures x in rest {
        assert x in a && x != a[0];
        assert x in b;
      }
      SameContents(a[1..], rest);
    }
  }

  ghost predicate HasSameNormal(m: Member, ns: seq<Member>) {
    Member(m.key, Normal(m.value, RustKeyLe())) in NormalMembers(ns, RustKeyLe())
  }

  lemma SameNormalMembers(ms: seq<Member>, ns: seq<Member>)
    requires DistinctKeys(ms) && |ms| == |ns|
    requires forall i :: 0 <= i < |ms| ==> HasSameNormal(ms[i], ns)
    ensures Normal(Obj(ms), RustKeyLe()) == Normal(Obj(ns), RustKeyLe())
  {
    var xs, ys := NormalMembers(ms, RustKeyLe()), NormalMembers(ns, RustKeyLe());
    forall i | 0 <= i < |xs| ensures xs[i] in ys {
      assert HasSameNormal(ms[i], ns);
    }
    MembersWithin(xs, ys);
    SortedByKeyUnique(xs, ys);
  }

  lemma MembersWithin(xs: seq<Member>, ys: seq<Member>)
    requires DistinctKeys(xs) && |xs| == |ys|
    requires forall i :: 0 <= i < |xs| ==> xs[i] in ys
    ensures multiset(xs) == multiset(ys)
  {
    SameContents(xs, ys);
  }

  lemma {:induction false} SameValueIsSameNormal(a: Json, b: Json)
    requires WellFormed(a) && WellFormed(b) && SameValue(a, b)
    ensures Normal(a, RustKeyLe()) == Normal(b, RustKeyLe())
    decreases a, 0
  {
    var le := RustKeyLe();
    match a
    case Arr(items) =>
      forall i | 0 <= i < |items| ensures Normal(items[i], le) == Normal(b.items[i], le) {
        SameValueIsSameNormal(items[i], b.items[i]);
      }
      assert NormalItems(items, le) == NormalItems(b.items, le);
    case Obj(ms) =>
      forall i | 0 <= i < |ms| ensures HasSameNormal(ms[i], b.members) {
        assert HasSameMember(ms[i], b.members);
        SameMemberHasSameNormal(ms[i], b.members);
      }
      SameNormalMembers(ms, b.members);
    case _ =>
  }

  lemma {:induction false} SameMemberHasSameNormal(m: Member, ns: seq<Member>)
    requires WellFormed(m.value) && HasSameMember(m, ns)
    requires forall i :: 0 <= i < |ns| ==> WellFormed(ns[i].value)
    ensures HasSameNormal(m, ns)
    decreases m, 1
  {
    var j :| 0 <= j < |ns| && m.key == ns[j].key && SameValue(m.value, ns[j].value);
    SameValueIsSameNormal(m.value, ns[j].value);
    assert NormalMembers(ns, RustKeyLe())[j] == Member(m.key, Normal(m.value, RustKeyLe()));
  }

  lemma SortedByKeyUnique(ns: seq<Member>, ks: seq<Member>)
    requires DistinctKeys(ns) && multiset(ns) == multiset(ks)
    ensures Sort(ns, RustKeyLe()) == Sort(ks, RustKeyLe())
  {
    var le := RustKeyLe();
    KeyOrders();
    SortPermutes(ns, le);
    SortPermutes(ks, le);
    SortSorted(ns, le);
    SortSorted(ks, le);
    SortedUnique(Sort(ns, le), Sort(ks, le), le);
  }

  /** Two values have the same canonical text iff they are equal up to member order. */
  lemma CanonicalTextIdentifies(a: Json, b: Json)
    requires WellFormed(a) && WellFormed(b)
    ensures Canon(a) == Canon(b) <==> SameValue(a, b)
  {
    if Canon(a) == Canon(b) {
      ReadCanonical(a);
      ReadCanonical(b);
      SameNormalIsSameValue(a, b);
    }
    if SameValue(a, b) {
      SameValueIsSameNormal(a, b);
    }
  }

  lemma {:induction false} NormalTwice(v: Json)
    ensures Normal(Normal(v, RustKeyLe()), RustKeyLe()) == Normal(v, RustKeyLe())
    decreases v
  {
    var le := RustKeyLe();
    match v
    case Arr(items) =>
      var ns := NormalItems(items, le);
      forall i | 0 <= i < |items| ensures Normal(ns[i], le) == ns[i] { NormalTwice(items[i]); }
      assert NormalItems(ns, le) == ns;
    case Obj(ms) =>
      var ns := NormalMembers(ms, le);
      forall i | 0 <= i < |ms| ensures Normal(ns[i].value, le) == ns[i].value { NormalTwice(ms[i].value); }
      var at := SortedMembers(ns, le);
      assert NormalMembers(Sort(ns, le), le) == Sort(ns, le);
      KeyOrders();
      SortSorted(ns, le);
      SortOfSorted(Sort(ns, le), le);
    case _ =>
  }

  /** Canonicalizing what a canonical text reads as gives that text again. */
  lemma CanonicalFixedPoint(v: Json)
    requires WellFormed(v)
    ensures ParseDocument(Canon(v)).Done?
    ensures Canon(ParseDocument(Canon(v)).value) == Canon(v)
    ensures SameValue(v, ParseDocument(Canon(v)).value)
  {
    ReadCanonical(v);
    NormalTwice(v);
    SameNormalIsSameValue(v, Normal(v, RustKeyLe()));
  }

  /** Only a number can be continued into another canonical text. */
  lemma CanonicalPrefixFree(a: Json, b: Json, t: string)
    requires WellFormed(a) && WellFormed(b)
    requires Canon(a) + t == Canon(b) && t != ""
    ensures a.Num? && b.Num?
  {
    var n := Normal(a, RustKeyLe());
    NormalWellFormed(a);
    WellFormedPrintable(n);
    ReadCanonical(b);
    ParsedWhole(b);
    if !a.Num? {
      ValueRoundTrip(n, t);
      assert false;
    }
    if !b.Num? {
      NumberTextChars(a.number);
      NormalWellFormed(b);
      WellFormedPrintable(Normal(b, RustKeyLe()));
      assert IsNumChar(Compact(Normal(b, RustKeyLe()))[0]);
      NotNumeric(Normal(b, RustKeyLe()));
      assert false;
    }
  }

  lemma ParsedWhole(v: Json)
    requires WellFormed(v)
    ensures ParseValue(Canon(v)) == Done(Normal(v, RustKeyLe()), "")
  {
    NormalWellFormed(v);
    WellFormedPrintable(Normal(v, RustKeyLe()));
    ValueRoundTrip(Normal(v, RustKeyLe()), "");
    assert Canon(v) + "" == Canon(v);
  }

  lemma NotNumeric(v: Json)
    requires !v.Num?
    ensures !IsNumChar(Compact(v)[0])
  {
  }

  // ---- digests ----

  /** SHA-256, of which only collision-freedom is used. */
  datatype Hasher = Hasher(sum: seq<Byte> -> string) {
    ghost predicate Injective() {
      forall x, y :: sum(x) == sum(y) ==> x == y
    }
  }

  /** sha256_of_canonical */
  function Digest(h: Hasher, v: Json): string { h.sum(Encode(Canon(v))) }

  /** A content address names one value, up to member order. */
  lemma DigestIdentifies(h: Hasher, a: Json, b: Json)
    requires h.Injective() && WellFormed(a) && WellFormed(b)
    ensures Digest(h, a) == Digest(h, b) <==> SameValue(a, b)
  {
    CanonicalTextIdentifies(a, b);
    DecodeEncoded(Canon(a));
    DecodeEncoded(Canon(b));
  }

  // ---- no raw control characters ----

  predicate NoControls(s: string) {
    forall i :: 0 <= i < |s| ==> s[i] >= ' '
  }

  lemma {:induction false} EscapedHasNoControls(s: string)
    ensures NoControls(Escaped(s))
  {
    if s != "" {
      EscapedHasNoControls(s[1..]);
    }
  }

  lemma {:induction false} CompactHasNoControls(v: Json)
    requires Printable(v)
    ensures NoControls(Compact(v))
    decreases v, 0
  {
    match v
    case Num(x) => NumberTextChars(x);
    case Str(s) => EscapedHasNoControls(s);
    case Arr(items) => ItemsHaveNoControls(items);
    case Obj(ms) => MembersHaveNoControls(ms);
    case _ =>
  }

  lemma {:induction false} ItemsHaveNoControls(items: seq<Json>)
    requires forall i :: 0 <= i < |items| ==> Printable(items[i])
    ensures NoControls(CompactItems(items))
    decreases items, 1
  {
    if items != [] {
      CompactHasNoControls(items[0]);
      ItemsHaveNoControls(items[1..]);
    }
  }

  lemma {:induction false} MembersHaveNoControls(ms: seq<Member>)
    requires forall i :: 0 <= i < |ms| ==> Printable(ms[i].value)
    ensures NoControls(CompactMembers(ms))
    decreases ms, 1
  {
    if ms != [] {
      EscapedHasNoControls(ms[0].key);
      CompactHasNoControls(ms[0].value);
      MembersHaveNoControls(ms[1..]);
      assert NoControls(Quoted(ms[0].key));
      assert NoControls(CompactMember(ms[0]));
    }
  }
}
