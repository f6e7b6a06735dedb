/** Sizes and numbers of bundle files, added up kind by kind as the retention report does. */
module KindSums {
  import opened Sequences
  import opened Bundles

  /** The files of one kind, and those of several. */
  function OfOneKind(files: Files, k: BundleKind): map<Loc, nat> {
    map loc | loc in files && loc.kind == k :: |files[loc]|
  }

  function OfKinds(files: Files, kinds: seq<BundleKind>): map<Loc, nat> {
    map loc | loc in files && loc.kind in kinds :: |files[loc]|
  }

  function Locs(k: BundleKind, shas: seq<string>): seq<Loc> {
    Map(shas, (sha: string) => Loc(k, sha))
  }

  function ListedSize(files: Files, k: BundleKind, shas: seq<string>): nat {
    if shas == [] then 0 else FileSize(files, Loc(k, shas[0])) + ListedSize(files, k, shas[1..])
  }

  lemma {:induction false} ListedSizeSnoc(files: Files, k: BundleKind, shas: seq<string>, i: nat)
    requires i < |shas|
    ensures ListedSize(files, k, shas[..i + 1]) == ListedSize(files, k, shas[..i]) + FileSize(files, Loc(k, shas[i]))
  {
    if i == 0 {
      assert shas[..1] == [shas[0]] && shas[..0] == [];
      assert [shas[0]][1..] == [];
    } else {
      ListedSizeSnoc(files, k, shas[1..], i - 1);
      assert shas[..i + 1][1..] == shas[1..][..i] && shas[..i][1..] == shas[1..][..i - 1];
    }
  }

  lemma {:induction false} ListedValues(files: Files, k: BundleKind, shas: seq<string>, m: map<Loc, nat>)
    requires forall sha :: sha in shas ==> Loc(k, sha) in m && m[Loc(k, sha)] == FileSize(files, Loc(k, sha))
    requires forall loc :: loc in Locs(k, shas) ==> loc in m
    ensures Sum(Values(Locs(k, shas), m)) == ListedSize(files, k, shas)
  {
    if shas != [] {
      assert Locs(k, shas)[1..] == Locs(k, shas[1..]);
      ListedValues(files, k, shas[1..], m);
    }
  }

  /** A complete listing of a kind, without repeats. */
  ghost predicate IsListing(files: Files, k: BundleKind, shas: seq<string>) {
    NoRepeats(shas) && forall sha :: sha in shas <==> Loc(k, sha) in files
  }

  lemma ListedLocs(files: Files, k: BundleKind, shas: seq<string>)
    requires IsListing(files, k, shas)
    ensures NoRepeats(Locs(k, shas))
    ensures forall loc :: loc in Locs(k, shas) <==> loc in OfOneKind(files, k)
  {
    forall loc ensures loc in Locs(k, shas) <==> loc in OfOneKind(files, k) {
      if loc in OfOneKind(files, k) {
        assert loc == Loc(k, loc.sha) && loc.sha in shas;
        var i :| 0 <= i < |shas| && shas[i] == loc.sha;
        assert Locs(k, shas)[i] == loc;
      }
      if loc in Locs(k, shas) {
        var i :| 0 <= i < |shas| && Locs(k, shas)[i] == loc;
        assert shas[i] in shas;
      }
    }
  }

  lemma ListingAddsUp(files: Files, k: BundleKind, shas: seq<string>)
    requires IsListing(files, k, shas)
    ensures ListedSize(files, k, shas) == MapSum(OfOneKind(files, k))
    ensures |shas| == |OfOneKind(files, k)|
  {
    ListedLocs(files, k, shas);
    SumOfListing(Locs(k, shas), OfOneKind(files, k));
    ListedValues(files, k, shas, OfOneKind(files, k));
    DistinctCount(Locs(k, shas));
    assert (set loc | loc in Locs(k, shas)) == OfOneKind(files, k).Keys;
  }

  lemma {:induction false} DistinctCount<T>(s: seq<T>)
    requires NoRepeats(s)
    ensures |set x | x in s| == |s|
  {
    if s != [] {
      DistinctCount(s[1..]);
      HeadTail(s);
      assert (set x | x in s) == {s[0]} + (set x | x in s[1..]);
      assert s[0] !in s[1..];
    }
  }

  lemma UnionWithout(a: map<Loc, nat>, b: map<Loc, nat>, k: Loc)
    requires k in a && k !in b
    ensures (a + b) - {k} == (a - {k}) + b
    ensures (a + b)[k] == a[k]
  {
  }

  lemma UnionEmpty(b: map<Loc, nat>)
    ensures map[] + b == b
  {
  }

  lemma {:induction false} MapSumUnion(a: map<Loc, nat>, b: map<Loc, nat>)
    requires forall k :: k in a ==> k !in b
    ensures MapSum(a + b) == MapSum(a) + MapSum(b)
    decreases |a|
  {
    if a == map[] {
      UnionEmpty(b);
    } else {
      var k :| k in a;
      UnionWithout(a, b, k);
      MapSumRemove(a, k);
      MapSumRemove(a + b, k);
      MapSumUnion(a - {k}, b);
    }
  }

  lemma OneMoreKind(files: Files, kinds: seq<BundleKind>, i: nat)
    requires NoRepeats(kinds) && i < |kinds|
    ensures OfKinds(files, kinds[..i + 1]) == OfKinds(files, kinds[..i]) + OfOneKind(files, kinds[i])
    ensures OfKinds(files, kinds[..i]).Keys !! OfOneKind(files, kinds[i]).Keys
  {
    assert kinds[..i + 1] == kinds[..i] + [kinds[i]];
  }

  lemma UnionCount(a: map<Loc, nat>, b: map<Loc, nat>)
    requires a.Keys !! b.Keys
    ensures |a + b| == |a| + |b|
  {
    assert (a + b).Keys == a.Keys + b.Keys;
    assert |a.Keys + b.Keys| == |a.Keys| + |b.Keys|;
  }

  /** One more kind: its complete listing adds its files to both totals. */
  lemma KindAddsUp(files: Files, kinds: seq<BundleKind>, i: nat, shas: seq<string>)
    requires NoRepeats(kinds) && i < |kinds| && IsListing(files, kinds[i], shas)
    ensures MapSum(OfKinds(files, kinds[..i + 1])) == MapSum(OfKinds(files, kinds[..i])) + ListedSize(files, kinds[i], shas)
    ensures |OfKinds(files, kinds[..i + 1])| == |OfKinds(files, kinds[..i])| + |shas|
  {
    OneMoreKind(files, kinds, i);
    ListingAddsUp(files, kinds[i], shas);
    MapSumUnion(OfKinds(files, kinds[..i]), OfOneKind(files, kinds[i]));
    UnionCount(OfKinds(files, kinds[..i]), OfOneKind(files, kinds[i]));
  }

  lemma AllKindsDistinct()
    ensures NoRepeats(ALL_KINDS)
  {
  }
}
