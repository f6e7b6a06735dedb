/**
 Count-based pruning (lib.rs): which entries go, which files go with them, and
 what a crashed, repeated or dry run leaves.
*/
module Retention {
  import opened Wrappers
  import opened Sequences
  import opened IndexLog
  import opened Bundles
  import opened IndexStore

  // ---- what is pruned ----

  function NewestFirst(): (IndexEntry, IndexEntry) -> bool {
    (a: IndexEntry, b: IndexEntry) => a.ingestedAt >= b.ingestedAt
  }

  function OfKind(k: BundleKind): IndexEntry -> bool {
    (e: IndexEntry) => EntryKind(e) == Some(k)
  }

  function Unkinded(): IndexEntry -> bool {
    (e: IndexEntry) => EntryKind(e) == None
  }

  /** The entries of a kind, newest first; equally new ones in index order. */
  function Ranked(entries: seq<IndexEntry>, k: BundleKind): seq<IndexEntry> {
    Sort(Filter(entries, OfKind(k)), NewestFirst())
  }

  function Take<T>(s: seq<T>, n: nat): seq<T> { if n <= |s| then s[..n] else s }

  function Skip<T>(s: seq<T>, n: nat): seq<T> { if n <= |s| then s[n..] else [] }

  function Excess(entries: seq<IndexEntry>, k: BundleKind, keep: nat): seq<IndexEntry> {
    Skip(Ranked(entries, k), keep)
  }

  datatype Candidate = Candidate(
    kind: string, sha: string, schema: string, ingestedAt: int, sizeBytes: nat, related: seq<string>)

  function Present(files: Files, kinds: seq<BundleKind>, sha: string): seq<BundleKind> {
    if kinds == [] then []
    else (if Loc(kinds[0], sha) in files then [kinds[0]] else []) + Present(files, kinds[1..], sha)
  }

  function Names(kinds: seq<BundleKind>): seq<string> {
    if kinds == [] then [] else [Subdir(kinds[0])] + Names(kinds[1..])
  }

  function SizeOf(files: Files, kinds: seq<BundleKind>, sha: string): nat {
    if kinds == [] then 0 else FileSize(files, Loc(kinds[0], sha)) + SizeOf(files, kinds[1..], sha)
  }

  function CandidateOf(files: Files, k: BundleKind, e: IndexEntry): Candidate {
    var related := Present(files, RelatedKinds(k), e.sha256);
    Candidate(Subdir(k), e.sha256, e.schema, e.ingestedAt,
              FileSize(files, Loc(k, e.sha256)) + SizeOf(files, related, e.sha256), Names(related))
  }

  function CandidatesOf(files: Files, k: BundleKind, es: seq<IndexEntry>): seq<Candidate> {
    if es == [] then [] else [CandidateOf(files, k, es[0])] + CandidatesOf(files, k, es[1..])
  }

  /** The candidates kind by kind, before the final sort. */
  function Gathered(files: Files, entries: seq<IndexEntry>, kinds: seq<BundleKind>, keep: nat): seq<Candidate> {
    if kinds == [] then []
    else CandidatesOf(files, kinds[0], Excess(entries, kinds[0], keep)) + Gathered(files, entries, kinds[1..], keep)
  }

  function OldestFirst(): (Candidate, Candidate) -> bool {
    (a: Candidate, b: Candidate) => a.ingestedAt <= b.ingestedAt
  }

  /** retention_candidates */
  function Candidates(files: Files, entries: seq<IndexEntry>, keep: nat): seq<Candidate> {
    Sort(Gathered(files, entries, PRUNABLE_KINDS, keep), OldestFirst())
  }

  function PrunedShas(cs: seq<Candidate>): set<string> {
    set c | c in cs :: c.sha
  }

  function NotIn(shas: set<string>): IndexEntry -> bool {
    (e: IndexEntry) => e.sha256 !in shas
  }

  /** The files a list of kind names stands for; a name that maps back to no kind is skipped. */
  function NamedFiles(names: seq<string>, sha: string): seq<Loc> {
    if names == [] then []
    else
      (match KindFromSubdir(names[0]) case None => [] case Some(k) => [Loc(k, sha)]) + NamedFiles(names[1..], sha)
  }

  /** The files a prune removes, in order. */
  function Plan(cs: seq<Candidate>): seq<Loc> {
    if cs == [] then [] else NamedFiles([cs[0].kind] + cs[0].related, cs[0].sha) + Plan(cs[1..])
  }

  function Removed(files: Files, plan: seq<Loc>): Files {
    if plan == [] then files else Removed(files - {plan[0]}, plan[1..])
  }

  /** The bundle files and the index entries. */
  datatype Disk = Disk(files: Files, entries: seq<IndexEntry>)

  /** What an applied prune leaves on disk. */
  function Pruned(d: Disk, keep: nat): Disk {
    var cs := Candidates(d.files, d.entries, keep);
    Disk(Removed(d.files, Plan(cs)), Filter(d.entries, NotIn(PrunedShas(cs))))
  }

  // ---- the declarative meaning of being pruned ----

  ghost predicate IsExcess(entries: seq<IndexEntry>, keep: nat, e: IndexEntry) {
    match EntryKind(e) case None => false case Some(k) => e in Excess(entries, k, keep)
  }

  lemma NewestFirstOrder()
    ensures TotalPreorder(NewestFirst())
  {
  }

  lemma RankedMember(entries: seq<IndexEntry>, k: BundleKind, e: IndexEntry)
    ensures e in Ranked(entries, k) <==> e in entries && EntryKind(e) == Some(k)
  {
    SortPermutes(Filter(entries, OfKind(k)), NewestFirst());
    FilterMember(entries, OfKind(k), e);
  }

  lemma ExcessMember(entries: seq<IndexEntry>, k: BundleKind, keep: nat, e: IndexEntry)
    requires e in Excess(entries, k, keep)
    ensures e in entries && EntryKind(e) == Some(k)
  {
    assert e in Ranked(entries, k);
    RankedMember(entries, k, e);
  }

  lemma {:induction false} CandidatesOfMember(files: Files, k: BundleKind, es: seq<IndexEntry>, c: Candidate)
    ensures c in CandidatesOf(files, k, es) <==> exists e :: e in es && c == CandidateOf(files, k, e)
  {
    if es != [] {
      CandidatesOfMember(files, k, es[1..], c);
      HeadTail(es);
      assert es[0] in es;
    }
  }

  /** Every candidate comes from one excess entry of one of the kinds, and every such entry gives one. */
  lemma {:induction false} GatheredMember(files: Files, entries: seq<IndexEntry>, kinds: seq<BundleKind>, keep: nat, c: Candidate)
    ensures c in Gathered(files, entries, kinds, keep) <==>
            exists k, e :: k in kinds && e in Excess(entries, k, keep) && c == CandidateOf(files, k, e)
  {
    if kinds != [] {
      var k := kinds[0];
      CandidatesOfMember(files, k, Excess(entries, k, keep), c);
      GatheredMember(files, entries, kinds[1..], keep, c);
      HeadTail(kinds);
      assert k in kinds;
    }
  }

  lemma CandidateMember(files: Files, entries: seq<IndexEntry>, keep: nat, c: Candidate)
    ensures c in Candidates(files, entries, keep) <==>
            exists k, e :: k in PRUNABLE_KINDS && e in Excess(entries, k, keep) && c == CandidateOf(files, k, e)
  {
    SortPermutes(Gathered(files, entries, PRUNABLE_KINDS, keep), OldestFirst());
    GatheredMember(files, entries, PRUNABLE_KINDS, keep, c);
  }

  lemma SameSha(entries: seq<IndexEntry>, a: IndexEntry, b: IndexEntry)
    requires DistinctShas(entries) && a in entries && b in entries && a.sha256 == b.sha256
    ensures a == b
  {
  }

  /** With distinct shas an entry is pruned iff it is beyond the kept ones of its kind. */
  lemma PrunedIffExcess(files: Files, entries: seq<IndexEntry>, keep: nat, e: IndexEntry)
    requires DistinctShas(entries) && e in entries
    ensures e.sha256 in PrunedShas(Candidates(files, entries, keep)) <==> IsExcess(entries, keep, e)
  {
    var cs := Candidates(files, entries, keep);
    if e.sha256 in PrunedShas(cs) {
      var c :| c in cs && c.sha == e.sha256;
      CandidateMember(files, entries, keep, c);
      var k, x :| k in PRUNABLE_KINDS && x in Excess(entries, k, keep) && c == CandidateOf(files, k, x);
      ExcessMember(entries, k, keep, x);
      SameSha(entries, e, x);
    }
    if IsExcess(entries, keep, e) {
      var k := EntryKind(e).value;
      EntryKindIsPrunable(e);
      CandidateMember(files, entries, keep, CandidateOf(files, k, e));
      assert CandidateOf(files, k, e) in cs;
    }
  }

  function Kept(entries: seq<IndexEntry>, files: Files, keep: nat): seq<IndexEntry> {
    Filter(entries, NotIn(PrunedShas(Candidates(files, entries, keep))))
  }

  lemma DistinctAfterFilter(entries: seq<IndexEntry>, p: IndexEntry -> bool)
    requires DistinctShas(entries)
    ensures DistinctShas(Filter(entries, p))
    decreases |entries|
  {
    if entries != [] {
      DistinctAfterFilter(entries[1..], p);
      forall i | 0 <= i < |Filter(entries[1..], p)|
        ensures Filter(entries[1..], p)[i].sha256 != entries[0].sha256
      {
        FilterMember(entries[1..], p, Filter(entries[1..], p)[i]);
      }
    }
  }

  lemma {:induction false} InsertDistinct(e: IndexEntry, es: seq<IndexEntry>, le: (IndexEntry, IndexEntry) -> bool)
    requires DistinctShas(es) && forall x :: x in es ==> x.sha256 != e.sha256
    ensures DistinctShas(Insert(e, es, le))
  {
    if es != [] && !le(e, es[0]) {
      InsertDistinct(e, es[1..], le);
      var t := Insert(e, es[1..], le);
      InsertPermutes(e, es[1..], le);
      forall i | 0 <= i < |t| ensures t[i].sha256 != es[0].sha256 {
        assert t[i] in multiset(t);
      }
    }
  }

  lemma {:induction false} SortDistinct(es: seq<IndexEntry>, le: (IndexEntry, IndexEntry) -> bool)
    requires DistinctShas(es)
    ensures DistinctShas(Sort(es, le))
  {
    if es != [] {
      SortDistinct(es[1..], le);
      SortPermutes(es[1..], le);
      InsertDistinct(es[0], Sort(es[1..], le), le);
    }
  }

  lemma RankedDistinct(entries: seq<IndexEntry>, k: BundleKind)
    requires DistinctShas(entries)
    ensures DistinctShas(Ranked(entries, k))
  {
    DistinctAfterFilter(entries, OfKind(k));
    SortDistinct(Filter(entries, OfKind(k)), NewestFirst());
  }

  lemma {:induction false} FilterSplit<T>(s: seq<T>, n: nat, p: T -> bool)
    requires n <= |s|
    requires forall i :: 0 <= i < |s| ==> (p(s[i]) <==> i < n)
    ensures Filter(s, p) == s[..n]
  {
    assert s == s[..n] + s[n..];
    FilterAppend(s[..n], s[n..], p);
    FilterAll(s[..n], p);
    FilterNone(s[n..], p);
  }

  /** Pruning keeps, of every kind, exactly the newest `keep` entries, in the same newest-first order. */
  lemma PruneKeepsNewest(files: Files, entries: seq<IndexEntry>, keep: nat, k: BundleKind)
    requires DistinctShas(entries)
    ensures Ranked(Kept(entries, files, keep), k) == Take(Ranked(entries, k), keep)
  {
    var p := NotIn(PrunedShas(Candidates(files, entries, keep)));
    var ranked := Ranked(entries, k);
    FilterSwap(entries, p, OfKind(k));
    NewestFirstOrder();
    SortFilter(Filter(entries, OfKind(k)), NewestFirst(), p);
    assert Ranked(Kept(entries, files, keep), k) == Filter(ranked, p);
    var n := if keep <= |ranked| then keep else |ranked|;
    forall i | 0 <= i < |ranked| ensures p(ranked[i]) <==> i < n {
      KeptByRank(files, entries, keep, k, i);
    }
    FilterSplit(ranked, n, p);
  }

  lemma KeptByRank(files: Files, entries: seq<IndexEntry>, keep: nat, k: BundleKind, i: nat)
    requires DistinctShas(entries) && i < |Ranked(entries, k)|
    ensures Ranked(entries, k)[i].sha256 in PrunedShas(Candidates(files, entries, keep)) <==> keep <= i
  {
    var ranked := Ranked(entries, k);
    RankedDistinct(entries, k);
    RankedMember(entries, k, ranked[i]);
    PrunedIffExcess(files, entries, keep, ranked[i]);
    if keep <= i {
      assert Excess(entries, k, keep)[i - keep] == ranked[i];
    }
  }

  /** Entries of no prunable kind stay, in their order. */
  lemma PruneKeepsUnkinded(files: Files, entries: seq<IndexEntry>, keep: nat)
    requires DistinctShas(entries)
    ensures Filter(Kept(entries, files, keep), Unkinded()) == Filter(entries, Unkinded())
  {
    var p := NotIn(PrunedShas(Candidates(files, entries, keep)));
    var others := Filter(entries, Unkinded());
    FilterSwap(entries, p, Unkinded());
    forall e | e in others ensures p(e) {
      FilterMember(entries, Unkinded(), e);
      PrunedIffExcess(files, entries, keep, e);
    }
    FilterAll(others, p);
  }

  // ---- the same, in the fields of the entries ----

  function OfAge(t: int): IndexEntry -> bool {
    (e: IndexEntry) => e.ingestedAt == t
  }

  /** Among equally new entries of a kind the ranking follows the index. */
  lemma RankedTies(entries: seq<IndexEntry>, k: BundleKind, a: IndexEntry, b: IndexEntry)
    requires EntryKind(a) == EntryKind(b) == Some(k) && a.ingestedAt == b.ingestedAt
    ensures Before(Ranked(entries, k), a, b) <==> Before(entries, a, b)
  {
    var mine, p := Filter(entries, OfKind(k)), OfAge(a.ingestedAt);
    NewestFirstOrder();
    SortFilter(mine, NewestFirst(), p);
    forall x | x in Filter(mine, p) ensures x.ingestedAt == a.ingestedAt {
      FilterMember(mine, p, x);
    }
    SortOfSorted(Filter(mine, p), NewestFirst());
    FilterBefore(Ranked(entries, k), p, a, b);
    FilterBefore(mine, p, a, b);
    FilterBefore(entries, OfKind(k), a, b);
  }

  lemma RankOf(files: Files, entries: seq<IndexEntry>, keep: nat, k: BundleKind, e: IndexEntry) returns (r: nat)
    requires DistinctShas(entries) && e in entries && EntryKind(e) == Some(k)
    ensures r < |Ranked(entries, k)| && Ranked(entries, k)[r] == e
    ensures e in Kept(entries, files, keep) <==> r < keep
  {
    RankedMember(entries, k, e);
    r :| r < |Ranked(entries, k)| && Ranked(entries, k)[r] == e;
    KeptByRank(files, entries, keep, k, r);
    FilterMember(entries, NotIn(PrunedShas(Candidates(files, entries, keep))), e);
  }

  /**
   A pruned entry is older than every kept one of its kind, or as old and later in
   the index.
  */
  lemma PrunedAreOlder(files: Files, entries: seq<IndexEntry>, keep: nat, i: nat, j: nat)
    requires DistinctShas(entries) && i < |entries| && j < |entries|
    requires EntryKind(entries[i]).Some? && EntryKind(entries[i]) == EntryKind(entries[j])
    requires entries[i] in Kept(entries, files, keep) && entries[j] !in Kept(entries, files, keep)
    ensures entries[j].ingestedAt < entries[i].ingestedAt || (entries[j].ingestedAt == entries[i].ingestedAt && i < j)
  {
    var k, a, b := EntryKind(entries[i]).value, entries[i], entries[j];
    var r := RankOf(files, entries, keep, k, a);
    var q := RankOf(files, entries, keep, k, b);
    NewestFirstOrder();
    SortSorted(Filter(entries, OfKind(k)), NewestFirst());
    assert NewestFirst()(Ranked(entries, k)[r], Ranked(entries, k)[q]);
    if a.ingestedAt == b.ingestedAt {
      assert Before(Ranked(entries, k), a, b);
      RankedTies(entries, k, a, b);
      BeforeInIndex(entries, i, j);
    }
  }

  lemma BeforeInIndex(entries: seq<IndexEntry>, i: nat, j: nat)
    requires DistinctShas(entries) && i < |entries| && j < |entries| && Before(entries, entries[i], entries[j])
    ensures i < j
  {
    var p, q :| 0 <= p < q < |entries| && entries[p] == entries[i] && entries[q] == entries[j];
    assert p == i && q == j;
  }

  /** And as many of a kind are kept as the policy says, or all if there are fewer. */
  lemma KeptOfKind(files: Files, entries: seq<IndexEntry>, keep: nat, k: BundleKind)
    requires DistinctShas(entries)
    ensures var all := |Filter(entries, OfKind(k))|;
            |Filter(Kept(entries, files, keep), OfKind(k))| == if keep <= all then keep else all
  {
    PruneKeepsNewest(files, entries, keep, k);
    SortPermutes(Filter(entries, OfKind(k)), NewestFirst());
    SortPermutes(Filter(Kept(entries, files, keep), OfKind(k)), NewestFirst());
  }

  /** What a candidate tells of the entry it stands for: its fields, and the sidecars that are there. */
  ghost predicate Tells(files: Files, c: Candidate, e: IndexEntry) {
    && EntryKind(e).Some?
    && c.kind == Subdir(EntryKind(e).value) && c.sha == e.sha256 && c.schema == e.schema && c.ingestedAt == e.ingestedAt
    && forall name :: name in c.related <==>
         exists r :: r in RelatedKinds(EntryKind(e).value) && Loc(r, e.sha256) in files && name == Subdir(r)
  }

  lemma {:induction false} NamesMember(kinds: seq<BundleKind>, name: string)
    ensures name in Names(kinds) <==> exists r :: r in kinds && name == Subdir(r)
  {
    if kinds != [] {
      NamesMember(kinds[1..], name);
      HeadTail(kinds);
      assert kinds[0] in kinds;
    }
  }

  lemma CandidateTells(files: Files, k: BundleKind, e: IndexEntry)
    requires EntryKind(e) == Some(k)
    ensures Tells(files, CandidateOf(files, k, e), e)
  {
    var present := Present(files, RelatedKinds(k), e.sha256);
    forall name ensures name in Names(present) <==>
      exists r :: r in RelatedKinds(k) && Loc(r, e.sha256) in files && name == Subdir(r)
    {
      NamesMember(present, name);
      forall r ensures r in present <==> r in RelatedKinds(k) && Loc(r, e.sha256) in files {
        PresentMember(files, RelatedKinds(k), e.sha256, r);
      }
    }
  }

  /** The candidates are listed oldest first, and each tells of a pruned entry. */
  lemma CandidatesOldestFirst(files: Files, entries: seq<IndexEntry>, keep: nat)
    requires DistinctShas(entries)
    ensures var cs := Candidates(files, entries, keep);
            && (forall i, j :: 0 <= i < j < |cs| ==> cs[i].ingestedAt <= cs[j].ingestedAt)
            && forall c :: c in cs ==> exists e :: e in entries && e !in Kept(entries, files, keep) && Tells(files, c, e)
  {
    var cs := Candidates(files, entries, keep);
    SortSorted(Gathered(files, entries, PRUNABLE_KINDS, keep), OldestFirst());
    forall i, j | 0 <= i < j < |cs| ensures cs[i].ingestedAt <= cs[j].ingestedAt {
      assert OldestFirst()(cs[i], cs[j]);
    }
    forall c | c in cs ensures exists e :: e in entries && e !in Kept(entries, files, keep) && Tells(files, c, e) {
      CandidateMember(files, entries, keep, c);
      var k, e :| k in PRUNABLE_KINDS && e in Excess(entries, k, keep) && c == CandidateOf(files, k, e);
      ExcessMember(entries, k, keep, e);
      CandidateTells(files, k, e);
      FilterMember(entries, NotIn(PrunedShas(cs)), e);
    }
  }

  // ---- counts ----

  function CountKinds(entries: seq<IndexEntry>, kinds: seq<BundleKind>): nat {
    if kinds == [] then 0 else |Ranked(entries, kinds[0])| + CountKinds(entries, kinds[1..])
  }

  lemma {:induction false} GatheredCount(files: Files, entries: seq<IndexEntry>, kinds: seq<BundleKind>, keep: nat)
    requires DistinctShas(entries)
    ensures |Gathered(files, entries, kinds, keep)| + CountKinds(Kept(entries, files, keep), kinds) == CountKinds(entries, kinds)
  {
    if kinds != [] {
      var k := kinds[0];
      GatheredCount(files, entries, kinds[1..], keep);
      CandidatesOfCount(files, k, Excess(entries, k, keep));
      PruneKeepsNewest(files, entries, keep, k);
    }
  }

  lemma {:induction false} CandidatesOfCount(files: Files, k: BundleKind, es: seq<IndexEntry>)
    ensures |CandidatesOf(files, k, es)| == |es|
  {
    if es != [] {
      CandidatesOfCount(files, k, es[1..]);
    }
  }

  function Among(kinds: seq<BundleKind>): IndexEntry -> bool {
    (e: IndexEntry) => EntryKind(e).Some? && EntryKind(e).value in kinds
  }

  function Others(k: BundleKind): IndexEntry -> bool {
    (e: IndexEntry) => EntryKind(e) != Some(k)
  }

  lemma {:induction false} KindsPartition(entries: seq<IndexEntry>, kinds: seq<BundleKind>)
    requires NoRepeats(kinds)
    ensures CountKinds(entries, kinds) == |Filter(entries, Among(kinds))|
  {
    if kinds == [] {
      FilterNone(entries, Among(kinds));
    } else {
      var k, rest := kinds[0], kinds[1..];
      var mine := Filter(entries, Among(kinds));
      KindsPartition(entries, rest);
      HeadTail(kinds);
      SortPermutes(Filter(entries, OfKind(k)), NewestFirst());
      FilterPartition(mine, OfKind(k), Others(k));
      FilterSwap(entries, Among(kinds), OfKind(k));
      FilterSwap(entries, Among(kinds), Others(k));
      forall e | e in Filter(entries, OfKind(k)) ensures Among(kinds)(e) {
        FilterMember(entries, OfKind(k), e);
      }
      FilterAll(Filter(entries, OfKind(k)), Among(kinds));
      OthersAmong(entries, kinds);
    }
  }

  lemma OthersAmong(entries: seq<IndexEntry>, kinds: seq<BundleKind>)
    requires kinds != [] && NoRepeats(kinds)
    ensures Filter(Filter(entries, Others(kinds[0])), Among(kinds)) == Filter(entries, Among(kinds[1..]))
    decreases |entries|
  {
    HeadTail(kinds);
    if entries != [] {
      OthersAmong(entries[1..], kinds);
      var e, t := entries[0], Filter(entries[1..], Others(kinds[0]));
      assert ([e] + t)[1..] == t;
      assert kinds[0] !in kinds[1..];
    }
  }

  lemma CountsOfKinds(files: Files, entries: seq<IndexEntry>, keep: nat, kinds: seq<BundleKind>)
    requires DistinctShas(entries) && NoRepeats(kinds)
    ensures |Gathered(files, entries, kinds, keep)| + |Filter(Kept(entries, files, keep), Among(kinds))| ==
            |Filter(entries, Among(kinds))|
  {
    GatheredCount(files, entries, kinds, keep);
    KindsPartition(entries, kinds);
    KindsPartition(Kept(entries, files, keep), kinds);
  }

  lemma PrunableKindsDistinct()
    ensures NoRepeats(PRUNABLE_KINDS)
  {
  }

  /** Retained and pruned entries add up. */
  lemma PruneCounts(files: Files, entries: seq<IndexEntry>, keep: nat)
    requires DistinctShas(entries)
    ensures |Kept(entries, files, keep)| + |Candidates(files, entries, keep)| == |entries|
  {
    SortPermutes(Gathered(files, entries, PRUNABLE_KINDS, keep), OldestFirst());
    PrunableKindsDistinct();
    CountsOfKinds(files, entries, keep, PRUNABLE_KINDS);
    AllAmong(entries);
    AllAmong(Kept(entries, files, keep));
    PruneKeepsUnkinded(files, entries, keep);
  }

  lemma AllAmong(entries: seq<IndexEntry>)
    ensures |Filter(entries, Among(PRUNABLE_KINDS))| + |Filter(entries, Unkinded())| == |entries|
  {
    forall e | e in entries ensures Among(PRUNABLE_KINDS)(e) != Unkinded()(e) {
      EntryKindIsPrunable(e);
    }
    FilterPartition(entries, Among(PRUNABLE_KINDS), Unkinded());
  }

  /** A second prune with the same policy finds nothing, whatever files there are. */
  lemma PruneTwice(files: Files, entries: seq<IndexEntry>, keep: nat, later: Files)
    requires DistinctShas(entries)
    ensures Candidates(later, Kept(entries, files, keep), keep) == []
  {
    NothingGathered(files, entries, keep, later, PRUNABLE_KINDS);
  }

  lemma {:induction false} NothingGathered(files: Files, entries: seq<IndexEntry>, keep: nat, later: Files, kinds: seq<BundleKind>)
    requires DistinctShas(entries)
    ensures Gathered(later, Kept(entries, files, keep), kinds, keep) == []
  {
    if kinds != [] {
      PruneKeepsNewest(files, entries, keep, kinds[0]);
      assert Excess(Kept(entries, files, keep), kinds[0], keep) == [];
      NothingGathered(files, entries, keep, later, kinds[1..]);
    }
  }

  // ---- which files go ----

  /** A file that pruning the entry e of kind k removes: the bundle, or a sidecar of a related kind. */
  predicate BelongsTo(loc: Loc, k: BundleKind, sha: string) {
    loc.sha == sha && (loc.kind == k || loc.kind in RelatedKinds(k))
  }

  lemma {:induction false} NamedFilesOfNames(kinds: seq<BundleKind>, sha: string, loc: Loc)
    requires forall k :: k in kinds ==> k in ALL_KINDS
    ensures loc in NamedFiles(Names(kinds), sha) <==> loc.sha == sha && loc.kind in kinds
  {
    if kinds != [] {
      SubdirRoundTrip(kinds[0]);
      NamedFilesOfNames(kinds[1..], sha, loc);
      HeadTail(kinds);
      assert Names(kinds)[1..] == Names(kinds[1..]);
    }
  }

  lemma {:induction false} PresentMember(files: Files, kinds: seq<BundleKind>, sha: string, k: BundleKind)
    ensures k in Present(files, kinds, sha) <==> k in kinds && Loc(k, sha) in files
  {
    if kinds != [] {
      PresentMember(files, kinds[1..], sha, k);
      HeadTail(kinds);
    }
  }

  lemma CandidateFiles(files: Files, k: BundleKind, e: IndexEntry, loc: Loc)
    requires k in PRUNABLE_KINDS
    ensures var c := CandidateOf(files, k, e);
            loc in NamedFiles([c.kind] + c.related, c.sha) <==>
            BelongsTo(loc, k, e.sha256) && (loc.kind == k || loc in files)
  {
    var present := Present(files, RelatedKinds(k), e.sha256);
    forall r | r in present ensures r in ALL_KINDS {
      PresentMember(files, RelatedKinds(k), e.sha256, r);
      PrunedKindsAreListed(k, r);
    }
    PrunedKindsAreListed(k, k);
    NamedFilesOfNames([k] + present, e.sha256, loc);
    NamesCons(k, present);
    PresentMember(files, RelatedKinds(k), e.sha256, loc.kind);
  }

  lemma NamesCons(k: BundleKind, kinds: seq<BundleKind>)
    ensures Names([k] + kinds) == [Subdir(k)] + Names(kinds)
  {
    assert ([k] + kinds)[1..] == kinds;
  }

  lemma {:induction false} PlanMember(cs: seq<Candidate>, loc: Loc)
    ensures loc in Plan(cs) <==> exists c :: c in cs && loc in NamedFiles([c.kind] + c.related, c.sha)
  {
    if cs != [] {
      PlanMember(cs[1..], loc);
      HeadTail(cs);
      assert cs[0] in cs;
    }
  }

  /** The files that pruning is about, whether or not they exist. */
  ghost predicate Targeted(entries: seq<IndexEntry>, keep: nat, loc: Loc) {
    exists k, e :: k in PRUNABLE_KINDS && e in Excess(entries, k, keep) && BelongsTo(loc, k, e.sha256)
  }

  /** The plan names exactly the targeted files that exist (and bundles that do not). */
  lemma PlanIsTargeted(files: Files, entries: seq<IndexEntry>, keep: nat, loc: Loc)
    ensures loc in Plan(Candidates(files, entries, keep)) ==> Targeted(entries, keep, loc)
    ensures loc in files && Targeted(entries, keep, loc) ==> loc in Plan(Candidates(files, entries, keep))
  {
    var cs := Candidates(files, entries, keep);
    PlanMember(cs, loc);
    if loc in Plan(cs) {
      var c :| c in cs && loc in NamedFiles([c.kind] + c.related, c.sha);
      CandidateMember(files, entries, keep, c);
      var k, e :| k in PRUNABLE_KINDS && e in Excess(entries, k, keep) && c == CandidateOf(files, k, e);
      CandidateFiles(files, k, e, loc);
    }
    if loc in files && Targeted(entries, keep, loc) {
      var k, e :| k in PRUNABLE_KINDS && e in Excess(entries, k, keep) && BelongsTo(loc, k, e.sha256);
      CandidateMember(files, entries, keep, CandidateOf(files, k, e));
      CandidateFiles(files, k, e, loc);
    }
  }

  lemma {:induction false} RemovedFiles(files: Files, plan: seq<Loc>)
    ensures Removed(files, plan) == map loc | loc in files && loc !in plan :: files[loc]
  {
    if plan != [] {
      RemovedFiles(files - {plan[0]}, plan[1..]);
      HeadTail(plan);
    }
  }

  /** An applied prune removes exactly the targeted files and changes no other. */
  lemma PruneRemovesTargeted(d: Disk, keep: nat, loc: Loc)
    ensures loc in Pruned(d, keep).files <==> loc in d.files && !Targeted(d.entries, keep, loc)
    ensures loc in Pruned(d, keep).files ==> Pruned(d, keep).files[loc] == d.files[loc]
  {
    RemovedFiles(d.files, Plan(Candidates(d.files, d.entries, keep)));
    PlanIsTargeted(d.files, d.entries, keep, loc);
  }

  /** Which entries go does not depend on the files. */
  lemma KeptIgnoresFiles(entries: seq<IndexEntry>, a: Files, b: Files, keep: nat)
    ensures Kept(entries, a, keep) == Kept(entries, b, keep)
  {
    forall sha ensures sha in PrunedShas(Candidates(a, entries, keep)) <==> sha in PrunedShas(Candidates(b, entries, keep)) {
      PrunedShaMember(a, entries, keep, sha);
      PrunedShaMember(b, entries, keep, sha);
    }
    assert PrunedShas(Candidates(a, entries, keep)) == PrunedShas(Candidates(b, entries, keep));
  }

  lemma PrunedShaMember(files: Files, entries: seq<IndexEntry>, keep: nat, sha: string)
    ensures sha in PrunedShas(Candidates(files, entries, keep)) <==>
            exists k, e :: k in PRUNABLE_KINDS && e in Excess(entries, k, keep) && e.sha256 == sha
  {
    var cs := Candidates(files, entries, keep);
    if sha in PrunedShas(cs) {
      var c :| c in cs && c.sha == sha;
      CandidateMember(files, entries, keep, c);
      var k, e :| k in PRUNABLE_KINDS && e in Excess(entries, k, keep) && c == CandidateOf(files, k, e);
      assert e.sha256 == sha;
    }
    if k, e :| k in PRUNABLE_KINDS && e in Excess(entries, k, keep) && e.sha256 == sha {
      CandidateMember(files, entries, keep, CandidateOf(files, k, e));
      assert CandidateOf(files, k, e) in cs;
    }
  }

  // ---- crashes ----

  /** sweep_orphans: files of the swept kinds whose sha is not in the index go. */
  function Swept(d: Disk): Disk {
    Disk(map loc | loc in d.files && (loc.kind !in SWEPT_KINDS || loc.sha in Shas(d.entries)) :: d.files[loc], d.entries)
  }

  /** An applied prune stopped after j steps: the removals one by one, then the index rename. */
  function CrashedPrune(d: Disk, keep: nat, j: nat): Disk {
    var plan := Plan(Candidates(d.files, d.entries, keep));
    if j <= |plan| then Disk(Removed(d.files, plan[..j]), d.entries) else Pruned(d, keep)
  }

  /** Open, start the prune and crash, again and again; finally open and prune to the end. */
  function Recovered(d: Disk, keep: nat, crashes: seq<nat>): Disk
    decreases |crashes|
  {
    if crashes == [] then Pruned(Swept(d), keep)
    else Recovered(CrashedPrune(Swept(d), keep, crashes[0]), keep, crashes[1..])
  }

  /** No orphans: every file of a swept kind belongs to an entry of the index. */
  ghost predicate Owned(d: Disk) {
    forall loc :: loc in d.files && loc.kind in SWEPT_KINDS ==>
      exists e :: e in d.entries && EntryKind(e).Some? && BelongsTo(loc, EntryKind(e).value, e.sha256)
  }

  lemma SweepKeepsOwned(d: Disk)
    requires Owned(d)
    ensures Swept(d) == d
  {
    forall loc | loc in d.files && loc.kind in SWEPT_KINDS ensures loc.sha in Shas(d.entries) {
      var e :| e in d.entries && EntryKind(e).Some? && BelongsTo(loc, EntryKind(e).value, e.sha256);
    }
    assert Swept(d).files == d.files;
  }

  /** A disk on which some of the targeted files are already gone. */
  ghost predicate PartlyPruned(d: Disk, d': Disk, keep: nat) {
    && d'.entries == d.entries
    && (forall loc :: loc in d'.files ==> loc in d.files && d'.files[loc] == d.files[loc])
    && (forall loc :: loc in d.files && loc !in d'.files ==> Targeted(d.entries, keep, loc))
  }

  lemma PartlyPrunedFinishes(d: Disk, d': Disk, keep: nat)
    requires PartlyPruned(d, d', keep)
    ensures Pruned(d', keep) == Pruned(d, keep)
  {
    KeptIgnoresFiles(d.entries, d.files, d'.files, keep);
    forall loc
      ensures loc in Pruned(d', keep).files <==> loc in Pruned(d, keep).files
      ensures loc in Pruned(d, keep).files ==> Pruned(d', keep).files[loc] == Pruned(d, keep).files[loc]
    {
      PruneRemovesTargeted(d, keep, loc);
      PruneRemovesTargeted(d', keep, loc);
    }
    assert Pruned(d', keep).files == Pruned(d, keep).files;
  }

  lemma PartialRemoval(d: Disk, keep: nat, j: nat)
    requires j <= |Plan(Candidates(d.files, d.entries, keep))|
    ensures PartlyPruned(d, CrashedPrune(d, keep, j), keep)
  {
    var plan := Plan(Candidates(d.files, d.entries, keep));
    RemovedFiles(d.files, plan[..j]);
    forall loc | loc in d.files && loc !in Removed(d.files, plan[..j]) ensures Targeted(d.entries, keep, loc) {
      assert loc in plan[..j];
      PlanIsTargeted(d.files, d.entries, keep, loc);
    }
  }

  /**
   From any freshly opened store: however often the prune crashes, the next open
   leaves the same index and files as after an uninterrupted prune.
  */
  lemma {:induction false} PruneSettles(d: Disk, keep: nat, crashes: seq<nat>)
    requires DistinctShas(d.entries) && Swept(d) == d
    ensures Swept(Recovered(d, keep, crashes)) == Swept(Pruned(d, keep))
    decreases |crashes|
  {
    if crashes != [] {
      var plan := Plan(Candidates(d.files, d.entries, keep));
      var d' := CrashedPrune(d, keep, crashes[0]);
      if crashes[0] <= |plan| {
        PartialRemoval(d, keep, crashes[0]);
        PartlyPrunedFinishes(d, d', keep);
        FewerFilesSwept(d, d');
        PruneSettles(d', keep, crashes[1..]);
      } else {
        PruneSettlesEntries(d.files, d.entries, keep);
        SettledStays(d', keep, crashes[1..]);
        SweptTwice(d');
      }
    }
  }

  lemma FewerFilesSwept(d: Disk, d': Disk)
    requires Swept(d) == d && d'.entries == d.entries && forall loc :: loc in d'.files ==> loc in d.files
    ensures Swept(d') == d'
  {
    forall loc | loc in d'.files ensures loc.kind !in SWEPT_KINDS || loc.sha in Shas(d.entries) {
      assert loc in Swept(d).files;
    }
    assert Swept(d').files == d'.files;
  }

  /** There is nothing left to prune, whatever files there are. */
  ghost predicate Settled(entries: seq<IndexEntry>, keep: nat) {
    forall files: Files :: Candidates(files, entries, keep) == []
  }

  lemma PruneSettlesEntries(files: Files, entries: seq<IndexEntry>, keep: nat)
    requires DistinctShas(entries)
    ensures Settled(Kept(entries, files, keep), keep)
  {
    forall later: Files ensures Candidates(later, Kept(entries, files, keep), keep) == [] {
      PruneTwice(files, entries, keep, later);
    }
  }

  lemma IdlePrune(d: Disk, keep: nat, j: nat)
    requires Settled(d.entries, keep)
    ensures Pruned(d, keep) == d && CrashedPrune(d, keep, j) == d
  {
    assert Candidates(d.files, d.entries, keep) == [];
    FilterAll(d.entries, NotIn(PrunedShas([])));
  }

  lemma SweptTwice(d: Disk)
    ensures Swept(Swept(d)) == Swept(d)
  {
    assert Swept(Swept(d)).files == Swept(d).files;
  }

  lemma {:induction false} SettledStays(d: Disk, keep: nat, crashes: seq<nat>)
    requires Settled(d.entries, keep)
    ensures Recovered(d, keep, crashes) == Swept(d)
    decreases |crashes|
  {
    IdlePrune(Swept(d), keep, if crashes == [] then 0 else crashes[0]);
    if crashes != [] {
      SettledStays(Swept(d), keep, crashes[1..]);
      SweptTwice(d);
    }
  }

  // ---- when crashes leave no trace at all ----

  /** Every file of a swept kind whose entry is pruned goes with that entry. */
  ghost predicate NoStray(d: Disk, keep: nat) {
    forall loc :: loc in d.files && loc.kind in SWEPT_KINDS && loc.sha !in Shas(Pruned(d, keep).entries) ==>
      Targeted(d.entries, keep, loc)
  }

  /** Without strays, and only then, an open after the prune removes nothing. */
  lemma NoStrayIff(d: Disk, keep: nat)
    ensures NoStray(d, keep) <==> Swept(Pruned(d, keep)) == Pruned(d, keep)
  {
    var after := Pruned(d, keep);
    forall loc ensures loc in after.files <==> loc in d.files && !Targeted(d.entries, keep, loc) {
      PruneRemovesTargeted(d, keep, loc);
    }
    if NoStray(d, keep) {
      assert Swept(after).files == after.files;
    }
    if Swept(after) == after {
      forall loc | loc in d.files && loc.kind in SWEPT_KINDS && loc.sha !in Shas(after.entries)
        ensures Targeted(d.entries, keep, loc)
      {
        assert loc !in Swept(after).files;
      }
    }
  }

  lemma {:induction false} RecoversWithoutStray(d: Disk, keep: nat, crashes: seq<nat>)
    requires DistinctShas(d.entries) && Swept(d) == d && NoStray(d, keep)
    ensures Recovered(d, keep, crashes) == Pruned(d, keep)
    decreases |crashes|
  {
    if crashes != [] {
      var plan := Plan(Candidates(d.files, d.entries, keep));
      var d' := CrashedPrune(d, keep, crashes[0]);
      NoStrayIff(d, keep);
      if crashes[0] <= |plan| {
        PartialRemoval(d, keep, crashes[0]);
        PartlyPrunedFinishes(d, d', keep);
        FewerFilesSwept(d, d');
        NoStrayIff(d', keep);
        RecoversWithoutStray(d', keep, crashes[1..]);
      } else {
        PruneSettlesEntries(d.files, d.entries, keep);
        SettledStays(d', keep, crashes[1..]);
      }
    }
  }

  /** A crash after the last step of the prune costs one more open. */
  lemma CrashAtTheEnd(d: Disk, keep: nat) returns (crashes: seq<nat>)
    requires DistinctShas(d.entries) && Swept(d) == d
    ensures Recovered(d, keep, crashes) == Swept(Pruned(d, keep))
  {
    crashes := [|Plan(Candidates(d.files, d.entries, keep))| + 1];
    assert crashes[1..] == [];
    PruneSettlesEntries(d.files, d.entries, keep);
    SettledStays(Pruned(d, keep), keep, []);
  }

  /** However often and wherever the prune crashes, opening and rerunning it ends as without a crash. */
  ghost predicate Restartable(d: Disk, keep: nat) {
    forall crashes :: Recovered(d, keep, crashes) == Pruned(d, keep)
  }

  lemma WithoutStrayRestartable(d: Disk, keep: nat)
    requires DistinctShas(d.entries) && Swept(d) == d && NoStray(d, keep)
    ensures Restartable(d, keep)
  {
    forall crashes ensures Recovered(d, keep, crashes) == Pruned(d, keep) {
      RecoversWithoutStray(d, keep, crashes);
    }
  }

  lemma RestartableWithoutStray(d: Disk, keep: nat)
    requires DistinctShas(d.entries) && Swept(d) == d && Restartable(d, keep)
    ensures NoStray(d, keep)
  {
    var crashes := CrashAtTheEnd(d, keep);
    NoStrayIff(d, keep);
  }

  /**
   Pruning is restartable, from a freshly opened store: however often and wherever
   it crashes, opening the store and rerunning the same policy ends where an
   uninterrupted prune would, if and only if there is no stray file.
  */
  lemma PruneIsRestartableIff(d: Disk, keep: nat)
    requires DistinctShas(d.entries) && Swept(d) == d
    ensures Restartable(d, keep) <==> NoStray(d, keep)
  {
    if NoStray(d, keep) {
      WithoutStrayRestartable(d, keep);
    } else if Restartable(d, keep) {
      RestartableWithoutStray(d, keep);
    }
  }

  lemma OwnedHasNoStray(d: Disk, keep: nat)
    requires DistinctShas(d.entries) && Owned(d)
    ensures NoStray(d, keep)
  {
    var p := NotIn(PrunedShas(Candidates(d.files, d.entries, keep)));
    forall loc | loc in d.files && loc.kind in SWEPT_KINDS && loc.sha !in Shas(Pruned(d, keep).entries)
      ensures Targeted(d.entries, keep, loc)
    {
      var e :| e in d.entries && EntryKind(e).Some? && BelongsTo(loc, EntryKind(e).value, e.sha256);
      EntryKindIsPrunable(e);
      PrunedIffExcess(d.files, d.entries, keep, e);
      FilterMember(d.entries, p, e);
    }
  }

  /** In particular when every file belongs to an entry of the kind that owns it, as uploads leave them. */
  lemma PruneIsRestartable(d: Disk, keep: nat, crashes: seq<nat>)
    requires DistinctShas(d.entries) && Owned(d)
    ensures Recovered(d, keep, crashes) == Pruned(d, keep)
  {
    SweepKeepsOwned(d);
    OwnedHasNoStray(d, keep);
    RecoversWithoutStray(d, keep, crashes);
  }

  const MEMORY_SCHEMA: string := "ao2.memory-export.v1"

  /** A memory export, with an evidence pack beside it under the same sha. */
  function StrayDisk(sha: string): Disk {
    Disk(map[Loc(MemoryExport, sha) := [], Loc(EvidencePack, sha) := []],
         [IndexEntry(0, MEMORY_SCHEMA, None, sha, None, 0)])
  }

  lemma MemoryEntryKind(e: IndexEntry)
    requires e.schema == MEMORY_SCHEMA
    ensures EntryKind(e) == Some(MemoryExport)
  {
  }

  /** Keeping nothing prunes it. */
  lemma OnlyEntryPruned(d: Disk, e: IndexEntry, keep: nat)
    requires EntryKind(e) == Some(MemoryExport) && d.entries == [e] && keep < 1
    ensures Pruned(d, keep).entries == []
  {
    assert e in d.entries;
    RankedMember(d.entries, MemoryExport, e);
    assert e in Excess(d.entries, MemoryExport, keep);
    PrunedIffExcess(d.files, d.entries, keep, e);
    FilterNone(d.entries, NotIn(PrunedShas(Candidates(d.files, d.entries, keep))));
  }

  lemma TargetedHasOwner(entries: seq<IndexEntry>, keep: nat, loc: Loc)
    requires Targeted(entries, keep, loc)
    ensures exists e :: e in entries && EntryKind(e).Some? && BelongsTo(loc, EntryKind(e).value, e.sha256)
  {
    var k, e :| k in PRUNABLE_KINDS && e in Excess(entries, k, keep) && BelongsTo(loc, k, e.sha256);
    ExcessMember(entries, k, keep, e);
  }

  lemma NotOfMemoryExports(sha: string, other: string)
    ensures !BelongsTo(Loc(EvidencePack, sha), MemoryExport, other)
  {
  }

  lemma OtherKindNotTargeted(entries: seq<IndexEntry>, keep: nat, sha: string)
    requires forall e :: e in entries ==> EntryKind(e) == Some(MemoryExport)
    ensures !Targeted(entries, keep, Loc(EvidencePack, sha))
  {
    if Targeted(entries, keep, Loc(EvidencePack, sha)) {
      TargetedHasOwner(entries, keep, Loc(EvidencePack, sha));
      var e :| e in entries && EntryKind(e).Some? && BelongsTo(Loc(EvidencePack, sha), EntryKind(e).value, e.sha256);
      NotOfMemoryExports(sha, e.sha256);
      assert false;
    }
  }

  /** A file of another kind that stays with a pruned sha is a stray: the prune keeps it, a crash after it loses it. */
  lemma StrayIsLost(d: Disk, keep: nat, loc: Loc) returns (crashes: seq<nat>)
    requires DistinctShas(d.entries) && Swept(d) == d
    requires loc in d.files && loc.kind in SWEPT_KINDS && loc.sha !in Shas(Pruned(d, keep).entries)
    requires !Targeted(d.entries, keep, loc)
    ensures !NoStray(d, keep) && loc in Pruned(d, keep).files && loc !in Recovered(d, keep, crashes).files
  {
    PruneRemovesTargeted(d, keep, loc);
    IsStray(d, keep, loc);
    SweptAway(Pruned(d, keep), loc);
    crashes := CrashAtTheEnd(d, keep);
  }

  lemma IsStray(d: Disk, keep: nat, loc: Loc)
    requires loc in d.files && loc.kind in SWEPT_KINDS && loc.sha !in Shas(Pruned(d, keep).entries)
    requires !Targeted(d.entries, keep, loc)
    ensures !NoStray(d, keep)
  {
  }

  lemma SweptAway(d: Disk, loc: Loc)
    requires loc.kind in SWEPT_KINDS && loc.sha !in Shas(d.entries)
    ensures loc !in Swept(d).files
  {
  }

  lemma NoShas(entries: seq<IndexEntry>, sha: string)
    requires entries == []
    ensures sha !in Shas(entries)
  {
  }

  lemma StrayDiskSwept(sha: string) returns (d: Disk, e: IndexEntry)
    ensures d.entries == [e] && e.schema == MEMORY_SCHEMA
    ensures DistinctShas(d.entries) && Swept(d) == d && Loc(EvidencePack, sha) in d.files
  {
    d := StrayDisk(sha);
    e := d.entries[0];
    OneSha(d, e, sha);
  }

  lemma OneSha(d: Disk, e: IndexEntry, sha: string)
    requires d.entries == [e] && e.sha256 == sha && forall loc :: loc in d.files ==> loc.sha == sha
    ensures Swept(d) == d && DistinctShas(d.entries)
  {
    assert e in d.entries;
    assert sha in Shas(d.entries);
    assert Swept(d).files == d.files;
  }

  lemma MakeStray(sha: string) returns (d: Disk, keep: nat)
    ensures DistinctShas(d.entries) && Swept(d) == d && Loc(EvidencePack, sha) in d.files
    ensures sha !in Shas(Pruned(d, keep).entries) && forall e :: e in d.entries ==> EntryKind(e) == Some(MemoryExport)
  {
    var e;
    keep := 0;
    d, e := StrayDiskSwept(sha);
    MemoryEntryKind(e);
    OnlyEntryPruned(d, e, keep);
    NoShas(Pruned(d, keep).entries, sha);
  }

  /**
   A store without orphans where it does matter, StrayDisk: pruning the memory
   export keeps the evidence pack, and a crash after that prune loses it.
  */
  lemma StrayFileBreaksRestart(sha: string) returns (d: Disk, keep: nat, crashes: seq<nat>)
    ensures DistinctShas(d.entries) && Swept(d) == d && !NoStray(d, keep)
    ensures Loc(EvidencePack, sha) in Pruned(d, keep).files
    ensures Loc(EvidencePack, sha) !in Recovered(d, keep, crashes).files
  {
    d, keep := MakeStray(sha);
    OtherKindNotTargeted(d.entries, keep, sha);
    SweptBut(EvidencePack);
    crashes := StrayIsLost(d, keep, Loc(EvidencePack, sha));
  }

  // ---- bytes ----

  /** The sizes of the files of the listed kinds. */
  function Sizes(files: Files): map<Loc, nat> {
    map loc | loc in files && loc.kind in ALL_KINDS :: |files[loc]|
  }

  /** total_size_bytes */
  ghost function Stored(files: Files): nat { MapSum(Sizes(files)) }

  lemma RemoveOneFile(files: Files, loc: Loc)
    requires loc.kind in ALL_KINDS
    ensures Stored(files) == FileSize(files, loc) + Stored(files - {loc})
  {
    if loc in files {
      MapSumRemove(Sizes(files), loc);
      assert Sizes(files) - {loc} == Sizes(files - {loc});
    } else {
      assert files - {loc} == files;
    }
  }

  function PlanSize(files: Files, plan: seq<Loc>): nat {
    if plan == [] then 0 else FileSize(files, plan[0]) + PlanSize(files, plan[1..])
  }

  lemma {:induction false} PlanSizeAgrees(a: Files, b: Files, plan: seq<Loc>)
    requires forall loc :: loc in plan ==> FileSize(a, loc) == FileSize(b, loc)
    ensures PlanSize(a, plan) == PlanSize(b, plan)
  {
    if plan != [] {
      PlanSizeAgrees(a, b, plan[1..]);
    }
  }

  /** Removing different files one after the other frees the sum of their sizes. */
  lemma {:induction false} RemovalFrees(files: Files, plan: seq<Loc>)
    requires NoRepeats(plan) && forall loc :: loc in plan ==> loc.kind in ALL_KINDS
    ensures Stored(files) == PlanSize(files, plan) + Stored(Removed(files, plan))
  {
    if plan != [] {
      RemoveOneFile(files, plan[0]);
      HeadTail(plan);
      PlanSizeAgrees(files, files - {plan[0]}, plan[1..]);
      RemovalFrees(files - {plan[0]}, plan[1..]);
    }
  }

  function CandidateSizes(cs: seq<Candidate>): nat {
    if cs == [] then 0 else cs[0].sizeBytes + CandidateSizes(cs[1..])
  }

  /** A candidate describes the files that are there. */
  ghost predicate Describes(files: Files, c: Candidate) {
    exists k, e :: k in PRUNABLE_KINDS && c == CandidateOf(files, k, e)
  }

  function FilesOf(c: Candidate): seq<Loc> { NamedFiles([c.kind] + c.related, c.sha) }

  lemma {:induction false} NamedFilesAre(kinds: seq<BundleKind>, sha: string)
    requires forall k :: k in kinds ==> k in ALL_KINDS
    ensures |NamedFiles(Names(kinds), sha)| == |kinds|
    ensures forall i :: 0 <= i < |kinds| ==> NamedFiles(Names(kinds), sha)[i] == Loc(kinds[i], sha)
  {
    if kinds != [] {
      SubdirRoundTrip(kinds[0]);
      NamedFilesAre(kinds[1..], sha);
      HeadTail(kinds);
      assert Names(kinds)[1..] == Names(kinds[1..]);
    }
  }

  lemma {:induction false} NamedFilesSize(files: Files, kinds: seq<BundleKind>, sha: string)
    requires forall k :: k in kinds ==> k in ALL_KINDS
    ensures PlanSize(files, NamedFiles(Names(kinds), sha)) == SizeOf(files, kinds, sha)
  {
    if kinds != [] {
      SubdirRoundTrip(kinds[0]);
      NamedFilesSize(files, kinds[1..], sha);
      HeadTail(kinds);
      assert Names(kinds)[1..] == Names(kinds[1..]);
      assert NamedFiles(Names(kinds), sha)[1..] == NamedFiles(Names(kinds[1..]), sha);
    }
  }

  lemma {:induction false} PresentDistinct(files: Files, kinds: seq<BundleKind>, sha: string)
    requires NoRepeats(kinds)
    ensures NoRepeats(Present(files, kinds, sha))
  {
    if kinds != [] {
      PresentDistinct(files, kinds[1..], sha);
      PresentMember(files, kinds[1..], sha, kinds[0]);
      HeadTail(kinds);
    }
  }

  lemma CandidateKinds(files: Files, k: BundleKind, sha: string)
    requires k in PRUNABLE_KINDS
    ensures var kinds := [k] + Present(files, RelatedKinds(k), sha);
            NoRepeats(kinds) && forall r :: r in kinds ==> r in ALL_KINDS
  {
    var present := Present(files, RelatedKinds(k), sha);
    PresentDistinct(files, RelatedKinds(k), sha);
    PrunedKindsAreListed(k, k);
    forall r | r in present ensures r in ALL_KINDS && r != k {
      PresentMember(files, RelatedKinds(k), sha, r);
      PrunedKindsAreListed(k, r);
    }
  }

  /** A candidate's size is that of its files, which are different ones of listed kinds. */
  lemma CandidateSize(files: Files, k: BundleKind, e: IndexEntry)
    requires k in PRUNABLE_KINDS
    ensures var c := CandidateOf(files, k, e);
            && PlanSize(files, FilesOf(c)) == c.sizeBytes
            && NoRepeats(FilesOf(c))
            && (forall loc :: loc in FilesOf(c) ==> loc.kind in ALL_KINDS && loc.sha == c.sha)
  {
    var present := Present(files, RelatedKinds(k), e.sha256);
    var kinds := [k] + present;
    CandidateKinds(files, k, e.sha256);
    NamesCons(k, present);
    NamedFilesAre(kinds, e.sha256);
    NamedFilesSize(files, kinds, e.sha256);
    SizeOfCons(files, k, present, e.sha256);
  }

  lemma SizeOfCons(files: Files, k: BundleKind, kinds: seq<BundleKind>, sha: string)
    ensures SizeOf(files, [k] + kinds, sha) == FileSize(files, Loc(k, sha)) + SizeOf(files, kinds, sha)
  {
    assert ([k] + kinds)[1..] == kinds;
  }

  ghost predicate DistinctCandidates(cs: seq<Candidate>) {
    forall i, j :: 0 <= i < j < |cs| ==> cs[i].sha != cs[j].sha
  }

  lemma {:induction false} PlanSizeAppend(files: Files, a: seq<Loc>, b: seq<Loc>)
    ensures PlanSize(files, a + b) == PlanSize(files, a) + PlanSize(files, b)
  {
    if a == [] {
      Unit(b);
    } else {
      PlanSizeAppend(files, a[1..], b);
      assert (a + b)[1..] == a[1..] + b;
    }
  }

  lemma DescribedFiles(files: Files, c: Candidate)
    requires Describes(files, c)
    ensures PlanSize(files, FilesOf(c)) == c.sizeBytes && NoRepeats(FilesOf(c))
    ensures forall loc :: loc in FilesOf(c) ==> loc.kind in ALL_KINDS && loc.sha == c.sha
  {
    var k, e :| k in PRUNABLE_KINDS && c == CandidateOf(files, k, e);
    CandidateSize(files, k, e);
  }

  lemma {:induction false} PlanSizes(files: Files, cs: seq<Candidate>)
    requires forall c :: c in cs ==> Describes(files, c)
    ensures PlanSize(files, Plan(cs)) == CandidateSizes(cs)
  {
    if cs != [] {
      PlanSizes(files, cs[1..]);
      DescribedFiles(files, cs[0]);
      PlanSizeAppend(files, FilesOf(cs[0]), Plan(cs[1..]));
    }
  }

  lemma {:induction false} PlanKinds(files: Files, cs: seq<Candidate>, loc: Loc)
    requires forall c :: c in cs ==> Describes(files, c)
    requires loc in Plan(cs)
    ensures loc.kind in ALL_KINDS && exists i :: 0 <= i < |cs| && loc.sha == cs[i].sha
  {
    DescribedFiles(files, cs[0]);
    if loc !in FilesOf(cs[0]) {
      PlanKinds(files, cs[1..], loc);
    }
  }

  /** A plan over candidates with distinct shas names no file twice. */
  lemma {:induction false} PlanDistinct(files: Files, cs: seq<Candidate>)
    requires DistinctCandidates(cs) && forall c :: c in cs ==> Describes(files, c)
    ensures NoRepeats(Plan(cs))
  {
    if cs != [] {
      var rest := cs[1..];
      PlanDistinct(files, rest);
      DescribedFiles(files, cs[0]);
      forall loc | loc in Plan(rest) ensures loc.sha != cs[0].sha {
        PlanKinds(files, rest, loc);
        var i :| 0 <= i < |rest| && loc.sha == rest[i].sha;
      }
      NoRepeatsAppend(FilesOf(cs[0]), Plan(rest), cs[0].sha);
    }
  }

  lemma NoRepeatsAppend(a: seq<Loc>, b: seq<Loc>, sha: string)
    requires NoRepeats(a) && NoRepeats(b)
    requires (forall loc :: loc in a ==> loc.sha == sha) && forall loc :: loc in b ==> loc.sha != sha
    ensures NoRepeats(a + b)
  {
  }

  /** The first file to go is the bundle of an entry. */
  lemma PlanStartsWithBundle(files: Files, entries: seq<IndexEntry>, keep: nat) returns (e: IndexEntry)
    requires Plan(Candidates(files, entries, keep)) != []
    ensures e in entries && EntryKind(e).Some?
    ensures Plan(Candidates(files, entries, keep))[0] == Loc(EntryKind(e).value, e.sha256)
  {
    var cs := Candidates(files, entries, keep);
    assert cs[0] in cs;
    CandidateMember(files, entries, keep, cs[0]);
    var k, x :| k in PRUNABLE_KINDS && x in Excess(entries, k, keep) && cs[0] == CandidateOf(files, k, x);
    e := x;
    ExcessMember(entries, k, keep, e);
    var kinds := [k] + Present(files, RelatedKinds(k), e.sha256);
    CandidateKinds(files, k, e.sha256);
    NamesCons(k, Present(files, RelatedKinds(k), e.sha256));
    NamedFilesAre(kinds, e.sha256);
  }

  // the candidates of an index with distinct shas have distinct shas

  lemma {:induction false} CandidatesOfDistinct(files: Files, k: BundleKind, es: seq<IndexEntry>)
    requires DistinctShas(es)
    ensures DistinctCandidates(CandidatesOf(files, k, es))
  {
    if es != [] {
      var rest := CandidatesOf(files, k, es[1..]);
      CandidatesOfDistinct(files, k, es[1..]);
      forall i | 0 <= i < |rest| ensures rest[i].sha != es[0].sha256 {
        CandidatesOfMember(files, k, es[1..], rest[i]);
        assert rest[i] in rest;
        var e :| e in es[1..] && rest[i] == CandidateOf(files, k, e);
      }
    }
  }

  lemma CandidatesOfKindsDiffer(files: Files, entries: seq<IndexEntry>, k: BundleKind, kinds: seq<BundleKind>, keep: nat,
                                c: Candidate, d: Candidate)
    requires DistinctShas(entries) && k !in kinds
    requires c in CandidatesOf(files, k, Excess(entries, k, keep)) && d in Gathered(files, entries, kinds, keep)
    ensures c.sha != d.sha
  {
    CandidatesOfMember(files, k, Excess(entries, k, keep), c);
    GatheredMember(files, entries, kinds, keep, d);
    var x :| x in Excess(entries, k, keep) && c == CandidateOf(files, k, x);
    var l, y :| l in kinds && y in Excess(entries, l, keep) && d == CandidateOf(files, l, y);
    ExcessMember(entries, k, keep, x);
    ExcessMember(entries, l, keep, y);
    if x.sha256 == y.sha256 {
      SameSha(entries, x, y);
    }
  }

  lemma {:induction false} GatheredDistinct(files: Files, entries: seq<IndexEntry>, kinds: seq<BundleKind>, keep: nat)
    requires DistinctShas(entries) && NoRepeats(kinds)
    ensures DistinctCandidates(Gathered(files, entries, kinds, keep))
  {
    if kinds != [] {
      var k := kinds[0];
      var mine, rest := CandidatesOf(files, k, Excess(entries, k, keep)), Gathered(files, entries, kinds[1..], keep);
      RankedDistinct(entries, k);
      CandidatesOfDistinct(files, k, Excess(entries, k, keep));
      GatheredDistinct(files, entries, kinds[1..], keep);
      forall c, d | c in mine && d in rest ensures c.sha != d.sha {
        CandidatesOfKindsDiffer(files, entries, k, kinds[1..], keep, c, d);
      }
      DistinctAppend(mine, rest);
    }
  }

  lemma DistinctAppend(a: seq<Candidate>, b: seq<Candidate>)
    requires DistinctCandidates(a) && DistinctCandidates(b)
    requires forall c, d :: c in a && d in b ==> c.sha != d.sha
    ensures DistinctCandidates(a + b)
  {
  }

  lemma {:induction false} InsertSizes(c: Candidate, cs: seq<Candidate>)
    ensures CandidateSizes(Insert(c, cs, OldestFirst())) == c.sizeBytes + CandidateSizes(cs)
  {
    if cs != [] && !OldestFirst()(c, cs[0]) {
      InsertSizes(c, cs[1..]);
    }
  }

  lemma {:induction false} InsertCandidate(c: Candidate, cs: seq<Candidate>)
    requires DistinctCandidates(cs) && forall d :: d in cs ==> d.sha != c.sha
    ensures DistinctCandidates(Insert(c, cs, OldestFirst()))
  {
    if cs != [] && !OldestFirst()(c, cs[0]) {
      InsertCandidate(c, cs[1..]);
      var t := Insert(c, cs[1..], OldestFirst());
      InsertPermutes(c, cs[1..], OldestFirst());
      forall i | 0 <= i < |t| ensures t[i].sha != cs[0].sha {
        assert t[i] in multiset(t);
      }
      assert Insert(c, cs, OldestFirst()) == [cs[0]] + t;
    }
  }

  lemma {:induction false} SortCandidates(cs: seq<Candidate>)
    requires DistinctCandidates(cs)
    ensures DistinctCandidates(Sort(cs, OldestFirst()))
    ensures CandidateSizes(Sort(cs, OldestFirst())) == CandidateSizes(cs)
  {
    if cs != [] {
      SortCandidates(cs[1..]);
      SortPermutes(cs[1..], OldestFirst());
      InsertCandidate(cs[0], Sort(cs[1..], OldestFirst()));
      InsertSizes(cs[0], Sort(cs[1..], OldestFirst()));
    }
  }

  /**
   Conservation of bytes: what a prune reports as reclaimed is exactly the drop
   in the total stored size, and so never more than that total.
  */
  lemma PruneConservesBytes(d: Disk, keep: nat)
    requires DistinctShas(d.entries)
    ensures Stored(d.files) == CandidateSizes(Candidates(d.files, d.entries, keep)) + Stored(Pruned(d, keep).files)
  {
    var cs := Candidates(d.files, d.entries, keep);
    PrunableKindsDistinct();
    GatheredDistinct(d.files, d.entries, PRUNABLE_KINDS, keep);
    SortCandidates(Gathered(d.files, d.entries, PRUNABLE_KINDS, keep));
    forall c | c in cs ensures Describes(d.files, c) {
      CandidateMember(d.files, d.entries, keep, c);
    }
    PlanSizes(d.files, cs);
    PlanDistinct(d.files, cs);
    forall loc | loc in Plan(cs) ensures loc.kind in ALL_KINDS {
      PlanKinds(d.files, cs, loc);
    }
    RemovalFrees(d.files, Plan(cs));
  }
}
