/**
 The evidence store as lib.rs and the ingest handlers run it: bundle files and
 index together, with the loops that gather, delete, sweep and add up.
*/
module Storage {
  import opened Wrappers
  import opened Utf8
  import opened Sequences
  import opened IndexLog
  import opened Bundles
  import IS = IndexStore
  import opened Retention
  import opened KindSums

  const MAX_REPORTED_CANDIDATES: nat := 100

  datatype PruneResult = PruneResult(pruned: seq<Candidate>, retained: nat, reclaimedBytes: nat)

  datatype KindReport = KindReport(kind: string, indexedEntries: nat, bundleFiles: nat, sizeBytes: nat, pruneCandidates: nat)

  datatype Report = Report(
    totalEntries: nat, totalFiles: nat, totalSizeBytes: nat, reclaimableBytes: nat,
    totalCandidates: nat, truncated: bool, kinds: seq<KindReport>, candidates: seq<Candidate>)

  datatype UploadError = Internal | DifferentProvenance

  datatype Receipt = Accepted(sha: string) | Refused(error: UploadError)

  // ---- lists taken one more element at a time ----

  lemma {:induction false} CandidatesOfSnoc(files: Files, k: BundleKind, es: seq<IndexEntry>, i: nat)
    requires i < |es|
    ensures CandidatesOf(files, k, es[..i + 1]) == CandidatesOf(files, k, es[..i]) + [CandidateOf(files, k, es[i])]
  {
    if i == 0 {
      assert es[..1] == [es[0]] && es[..0] == [];
      assert [es[0]][1..] == [];
    } else {
      CandidatesOfSnoc(files, k, es[1..], i - 1);
      assert es[..i + 1][1..] == es[1..][..i] && es[..i][1..] == es[1..][..i - 1];
      Assoc([CandidateOf(files, k, es[0])], CandidatesOf(files, k, es[1..][..i - 1]), [CandidateOf(files, k, es[i])]);
    }
  }

  lemma TakeTail<T>(s: seq<T>, i: nat)
    requires 0 < i <= |s|
    ensures s[..i][1..] == s[1..][..i - 1] && s[..i] != [] && s[..i][0] == s[0]
  {
  }

  lemma {:induction false} GatheredSnoc(files: Files, entries: seq<IndexEntry>, kinds: seq<BundleKind>, keep: nat, i: nat)
    requires i < |kinds|
    ensures Gathered(files, entries, kinds[..i + 1], keep) ==
            Gathered(files, entries, kinds[..i], keep) + CandidatesOf(files, kinds[i], Excess(entries, kinds[i], keep))
  {
    var last := CandidatesOf(files, kinds[i], Excess(entries, kinds[i], keep));
    if i == 0 {
      assert kinds[..1] == [kinds[0]] && kinds[..0] == [];
      assert [kinds[0]][1..] == [];
      Unit(last);
    } else {
      GatheredSnoc(files, entries, kinds[1..], keep, i - 1);
      TakeTail(kinds, i);
      TakeTail(kinds, i + 1);
      Assoc(CandidatesOf(files, kinds[0], Excess(entries, kinds[0], keep)), Gathered(files, entries, kinds[1..][..i - 1], keep), last);
    }
  }

  lemma {:induction false} RemovedAppend(files: Files, plan: seq<Loc>, more: seq<Loc>)
    ensures Removed(files, plan + more) == Removed(Removed(files, plan), more)
  {
    if plan == [] {
      Unit(more);
    } else {
      RemovedAppend(files - {plan[0]}, plan[1..], more);
      assert (plan + more)[1..] == plan[1..] + more;
    }
  }

  lemma RemovedOne(files: Files, plan: seq<Loc>, loc: Loc)
    ensures Removed(files, plan + [loc]) == Removed(files, plan) - {loc}
  {
    RemovedAppend(files, plan, [loc]);
    assert [loc][1..] == [];
  }

  function NamedFile(name: string, sha: string): seq<Loc> {
    match KindFromSubdir(name) case None => [] case Some(k) => [Loc(k, sha)]
  }

  lemma {:induction false} NamedFilesSplit(names: seq<string>, sha: string, i: nat)
    requires i < |names|
    ensures NamedFiles(names, sha) == NamedFiles(names[..i], sha) + (NamedFile(names[i], sha) + NamedFiles(names[i + 1..], sha))
  {
    if i == 0 {
      assert names[..0] == [];
      Unit(NamedFile(names[0], sha) + NamedFiles(names[1..], sha));
    } else {
      NamedFilesSplit(names[1..], sha, i - 1);
      assert names[..i][1..] == names[1..][..i - 1] && names[i + 1..] == names[1..][i..];
      Assoc(NamedFile(names[0], sha), NamedFiles(names[1..][..i - 1], sha), NamedFile(names[i], sha) + NamedFiles(names[i + 1..], sha));
    }
  }

  lemma NamedFilesSnoc(names: seq<string>, sha: string, i: nat)
    requires i < |names|
    ensures NamedFiles(names[..i + 1], sha) == NamedFiles(names[..i], sha) + NamedFile(names[i], sha)
  {
    NamedFilesSplit(names[..i + 1], sha, i);
    assert names[..i + 1][..i] == names[..i] && names[..i + 1][i + 1..] == [];
    Unit(NamedFile(names[i], sha));
  }

  lemma NamedFilesPrefix(names: seq<string>, sha: string, i: nat)
    requires i < |names|
    ensures var done := NamedFiles(names[..i], sha);
            |done| <= |NamedFiles(names, sha)| && NamedFiles(names, sha)[..|done|] == done
    ensures KindFromSubdir(names[i]).Some? ==> |NamedFiles(names[..i], sha)| < |NamedFiles(names, sha)|
  {
    NamedFilesSplit(names, sha, i);
  }

  lemma {:induction false} PlanSplit(cs: seq<Candidate>, i: nat)
    requires i < |cs|
    ensures Plan(cs) == Plan(cs[..i]) + (FilesOf(cs[i]) + Plan(cs[i + 1..]))
  {
    if i == 0 {
      assert cs[..0] == [];
      Unit(FilesOf(cs[0]) + Plan(cs[1..]));
    } else {
      PlanSplit(cs[1..], i - 1);
      assert cs[..i][1..] == cs[1..][..i - 1] && cs[i + 1..] == cs[1..][i..];
      Assoc(FilesOf(cs[0]), Plan(cs[1..][..i - 1]), FilesOf(cs[i]) + Plan(cs[i + 1..]));
    }
  }

  lemma PlanSnoc(cs: seq<Candidate>, i: nat)
    requires i < |cs|
    ensures Plan(cs[..i + 1]) == Plan(cs[..i]) + FilesOf(cs[i])
  {
    PlanSplit(cs[..i + 1], i);
    assert cs[..i + 1][..i] == cs[..i] && cs[..i + 1][i + 1..] == [];
    Unit(FilesOf(cs[i]));
  }

  lemma MiddleCut(a: seq<Loc>, b: seq<Loc>, c: seq<Loc>, n: nat)
    requires n <= |b|
    ensures (a + (b + c))[..|a| + n] == a + b[..n]
  {
  }

  /** The plan cut n files into the i-th candidate. */
  lemma PlanCut(cs: seq<Candidate>, i: nat, n: nat)
    requires i < |cs| && n <= |FilesOf(cs[i])|
    ensures |Plan(cs[..i])| + n <= |Plan(cs)|
    ensures Plan(cs)[..|Plan(cs[..i])| + n] == Plan(cs[..i]) + FilesOf(cs[i])[..n]
    ensures n < |FilesOf(cs[i])| ==> |Plan(cs[..i])| + n < |Plan(cs)|
  {
    PlanSplit(cs, i);
    MiddleCut(Plan(cs[..i]), FilesOf(cs[i]), Plan(cs[i + 1..]), n);
  }

  // ---- the sweep, one file and one kind at a time ----

  /** The files that stay when those of the swept kinds with the listed shas go. */
  function Without(files: Files, kinds: seq<BundleKind>, known: set<string>): Files {
    map loc | loc in files && (loc.kind !in kinds || loc.sha in known) :: files[loc]
  }

  lemma WithoutOneMore(files: Files, kinds: seq<BundleKind>, i: nat, known: set<string>)
    requires i < |kinds|
    ensures Without(Without(files, kinds[..i], known), [kinds[i]], known) == Without(files, kinds[..i + 1], known)
  {
    assert kinds[..i + 1] == kinds[..i] + [kinds[i]];
  }

  lemma WithoutNone(files: Files, known: set<string>)
    ensures Without(files, [], known) == files
  {
  }

  /** The files that stay while a listing of unknown shas is worked through. */
  function Dropped(files: Files, k: BundleKind, shas: seq<string>, known: set<string>): Files {
    map loc | loc in files && !(loc.kind == k && loc.sha in shas && loc.sha !in known) :: files[loc]
  }

  lemma DroppedOneMore(files: Files, k: BundleKind, shas: seq<string>, i: nat, known: set<string>)
    requires i < |shas|
    ensures Dropped(files, k, shas[..i + 1], known) ==
            if shas[i] in known then Dropped(files, k, shas[..i], known)
            else Dropped(files, k, shas[..i], known) - {Loc(k, shas[i])}
  {
    assert shas[..i + 1] == shas[..i] + [shas[i]];
  }

  lemma DroppedNone(files: Files, k: BundleKind, known: set<string>)
    ensures Dropped(files, k, [], known) == files
  {
  }

  lemma DroppedAll(files: Files, k: BundleKind, shas: seq<string>, known: set<string>)
    requires forall sha :: sha in shas <==> Loc(k, sha) in files
    ensures Dropped(files, k, shas, known) == Without(files, [k], known)
  {
    forall loc | loc in files && loc.kind == k ensures loc.sha in shas {
      assert loc == Loc(k, loc.sha);
    }
  }

  // ---- what can be written back ----

  predicate ValidShas(es: seq<IndexEntry>) {
    forall i :: 0 <= i < |es| ==> IsValidSha(es[i].sha256)
  }

  lemma RetainedAreValid(c: TimeCodec, bs: seq<Byte>, p: IndexEntry -> bool)
    requires LoadBytes(c, bs).Some?
    ensures ValidShas(Filter(LoadBytes(c, bs).value.entries, p))
  {
    var entries := LoadBytes(c, bs).value.entries;
    CollectedAreValid(Lines(Decode(bs).value), c);
    forall i | 0 <= i < |Filter(entries, p)| ensures IsValidSha(Filter(entries, p)[i].sha256) {
      FilterMember(entries, p, Filter(entries, p)[i]);
    }
  }

  // ---- the report ----

  function NamedKind(name: string): Candidate -> bool {
    (c: Candidate) => c.kind == name
  }

  /** A row of the report counts the files and entries of its kind. */
  ghost predicate IsRow(files: Files, entries: seq<IndexEntry>, cs: seq<Candidate>, k: BundleKind, row: KindReport) {
    && row.kind == Subdir(k)
    && row.indexedEntries == |Filter(entries, OfKind(k))|
    && row.bundleFiles == |OfOneKind(files, k)|
    && row.sizeBytes == MapSum(OfOneKind(files, k))
    && row.pruneCandidates == |Filter(cs, NamedKind(Subdir(k)))|
  }

  ghost function RowTest(files: Files, entries: seq<IndexEntry>, cs: seq<Candidate>, kinds: seq<BundleKind>): (nat, KindReport) -> bool {
    (i: nat, row: KindReport) => i < |kinds| && IsRow(files, entries, cs, kinds[i], row)
  }

  /** Every element passes a test that knows its position. */
  ghost predicate Pass<T>(s: seq<T>, test: (nat, T) -> bool) { forall i: nat :: i < |s| ==> test(i, s[i]) }

  lemma OneMorePasses<T>(s: seq<T>, x: T, test: (nat, T) -> bool)
    requires Pass(s, test) && test(|s|, x)
    ensures Pass(s + [x], test)
  {
  }

  lemma SizesAreOfKinds(files: Files)
    ensures OfKinds(files, ALL_KINDS) == Sizes(files)
  {
  }

  lemma OfNoKinds(files: Files)
    ensures OfKinds(files, []) == map[]
  {
  }

  lemma ReclaimableBound(files: Files, entries: seq<IndexEntry>, keep: nat)
    requires IS.DistinctShas(entries)
    ensures CandidateSizes(Candidates(files, entries, keep)) <= Stored(files)
  {
    PruneConservesBytes(Disk(files, entries), keep);
  }

  /** What prune_retention answers, and what it leaves on the disk. */
  ghost predicate IsPrune(d: Disk, after: Disk, keep: nat, dryRun: bool, steps: nat, r: IS.Result<PruneResult>) {
    var cs := Candidates(d.files, d.entries, keep);
    && (r.Ok? <==> dryRun || steps > |Plan(cs)|)
    && (r.Ok? ==> r.value == PruneResult(cs, |Kept(d.entries, d.files, keep)|, CandidateSizes(cs)))
    && after == (if dryRun then d else CrashedPrune(d, keep, steps))
  }

  /** Published files stay as they are. */
  ghost predicate KeepsPublished(before: Files, after: Files) {
    forall loc :: loc in before ==> loc in after && after[loc] == before[loc]
  }

  /** New files are the uploaded bundle and sidecar. */
  ghost predicate OnlyUploads(before: Files, after: Files, kind: BundleKind, sha: string, raw: seq<Byte>, sidecar: Option<Sidecar>) {
    forall loc :: loc in after && loc !in before ==>
      || (loc == Loc(kind, sha) && after[loc] == raw)
      || (sidecar.Some? && loc == Loc(sidecar.value.kind, sha) && after[loc] == sidecar.value.raw)
  }

  /** The bundle is there, and the sidecar of a signed upload with its bytes. */
  ghost predicate IsPublished(files: Files, kind: BundleKind, sha: string, sidecar: Option<Sidecar>) {
    && Loc(kind, sha) in files
    && (sidecar.Some? ==> Loc(sidecar.value.kind, sha) in files && files[Loc(sidecar.value.kind, sha)] == sidecar.value.raw)
  }

  // ---- the store ----

  class Storage {
    const bundles: BundleStore
    const index: IS.IndexStore

    constructor (bundles: BundleStore, index: IS.IndexStore)
      ensures this.bundles == bundles && this.index == index
    {
      this.bundles, this.index := bundles, index;
    }

    /** The entries a fresh load of the index file gives, if it can be loaded. */
    function Loaded(): Option<Load>
      reads this, index.file
    {
      LoadBytes(index.codec, index.file.Content())
    }

    /** The bundle files and the index entries on disk. */
    function OnDisk(): Disk
      requires Loaded().Some?
      reads this, bundles, index.file
    {
      Disk(bundles.files, Loaded().value.entries)
    }

    function Entries(): seq<IndexEntry>
      reads this, index.file
    {
      match Loaded() case None => [] case Some(load) => load.entries
    }

    /** What an upload adds to the index file. */
    function NewLine(e: IndexEntry): seq<Byte>
      reads this, index.file
    {
      if IndexHolds(e) then [] else Encode(Written(index.codec, e))
    }

    predicate IndexHolds(e: IndexEntry)
      reads this, index.file
    {
      e.sha256 in IS.Shas(Entries())
    }

    /** retention_candidates */
    method RetentionCandidates(entries: seq<IndexEntry>, keep: nat) returns (cs: seq<Candidate>)
      ensures cs == Candidates(bundles.files, entries, keep)
    {
      cs := [];
      var i := 0;
      while i < |PRUNABLE_KINDS|
        invariant i <= |PRUNABLE_KINDS|
        invariant cs == Gathered(bundles.files, entries, PRUNABLE_KINDS[..i], keep)
      {
        var mine := KindCandidates(entries, PRUNABLE_KINDS[i], keep);
        GatheredSnoc(bundles.files, entries, PRUNABLE_KINDS, keep, i);
        cs := cs + mine;
        i := i + 1;
      }
      assert PRUNABLE_KINDS[..i] == PRUNABLE_KINDS;
      cs := Sort(cs, OldestFirst());
    }

    method KindCandidates(entries: seq<IndexEntry>, k: BundleKind, keep: nat) returns (cs: seq<Candidate>)
      ensures cs == CandidatesOf(bundles.files, k, Excess(entries, k, keep))
    {
      cs := CandidatesFor(k, Skip(Sort(Filter(entries, OfKind(k)), NewestFirst()), keep));
    }

    method CandidatesFor(k: BundleKind, excess: seq<IndexEntry>) returns (cs: seq<Candidate>)
      ensures cs == CandidatesOf(bundles.files, k, excess)
    {
      cs := [];
      var i := 0;
      while i < |excess|
        invariant i <= |excess|
        invariant cs == CandidatesOf(bundles.files, k, excess[..i])
      {
        CandidatesOfSnoc(bundles.files, k, excess, i);
        cs := cs + [CandidateOf(bundles.files, k, excess[i])];
        i := i + 1;
      }
      assert excess[..i] == excess;
    }

    /** The deletions of one candidate, of which at most `budget` happen. */
    method RemoveCandidate(c: Candidate, budget: nat) returns (done: nat)
      modifies bundles`files
      ensures done == if budget < |FilesOf(c)| then budget else |FilesOf(c)|
      ensures bundles.files == Removed(old(bundles.files), FilesOf(c)[..done])
    {
      var names := [c.kind] + c.related;
      done := 0;
      var i := 0;
      while i < |names|
        invariant i <= |names|
        invariant done == |NamedFiles(names[..i], c.sha)| <= budget
        invariant bundles.files == Removed(old(bundles.files), NamedFiles(names[..i], c.sha))
      {
        NamedFilesSnoc(names, c.sha, i);
        match KindFromSubdir(names[i]) {
          case None =>
            Unit(NamedFiles(names[..i], c.sha));
          case Some(k) =>
            NamedFilesPrefix(names, c.sha, i);
            if done == budget {
              return;
            }
            RemovedOne(old(bundles.files), NamedFiles(names[..i], c.sha), Loc(k, c.sha));
            var removed := bundles.RemoveIfExists(k, c.sha);
            done := done + 1;
        }
        i := i + 1;
      }
      assert names[..i] == names;
      assert FilesOf(c)[..done] == FilesOf(c);
    }

    /** The deletions of a prune, of which at most `budget` happen. */
    method RemoveCandidates(cs: seq<Candidate>, budget: nat) returns (done: nat)
      modifies bundles`files
      ensures done == if budget < |Plan(cs)| then budget else |Plan(cs)|
      ensures bundles.files == Removed(old(bundles.files), Plan(cs)[..done])
    {
      done := 0;
      var i := 0;
      while i < |cs|
        invariant i <= |cs|
        invariant done == |Plan(cs[..i])| <= budget
        invariant bundles.files == Removed(old(bundles.files), Plan(cs[..i]))
      {
        var n := RemoveCandidate(cs[i], budget - done);
        RemovedAppend(old(bundles.files), Plan(cs[..i]), FilesOf(cs[i])[..n]);
        PlanCut(cs, i, n);
        if n < |FilesOf(cs[i])| {
          done := done + n;
          return;
        }
        assert FilesOf(cs[i])[..n] == FilesOf(cs[i]);
        PlanSnoc(cs, i);
        done := done + n;
        i := i + 1;
      }
      assert cs[..i] == cs;
      assert Plan(cs)[..done] == Plan(cs);
    }

    /** The part of a prune that changes the disk. */
    method ApplyPrune(cs: seq<Candidate>, retained: seq<IndexEntry>, steps: nat, now: Option<nat>) returns (r: IS.Result<()>)
      requires index.Valid() && ValidShas(retained)
      modifies bundles`files, index, index.file
      ensures index.Valid()
      ensures r.Ok? <==> steps > |Plan(cs)|
      ensures r.Ok? ==> Loaded() == Some(Load(retained, 0, 0)) && bundles.files == Removed(old(bundles.files), Plan(cs))
      ensures r.Err? ==> unchanged(index.file) && bundles.files == Removed(old(bundles.files), Plan(cs)[..steps])
    {
      var removed := RemoveCandidates(cs, steps);
      if removed == steps && removed < |Plan(cs)| {
        return IS.Err(IS.Io);
      }
      assert Plan(cs)[..removed] == Plan(cs);
      r := index.Rewrite(retained, steps == removed, now);
    }

    /**
     prune_retention, stopped by a failure or a crash after `steps` removals or,
     when these are all, before the rename of the index. A dry run changes nothing
     and answers the same.
    */
    method PruneRetention(keep: nat, dryRun: bool, steps: nat, now: Option<nat>) returns (r: IS.Result<PruneResult>)
      requires index.Valid()
      modifies bundles`files, index, index.file
      ensures index.Valid()
      ensures old(Loaded()).None? ==> r.Err? && bundles.files == old(bundles.files) && unchanged(index.file)
      ensures old(Loaded()).Some? ==>
                && Loaded().Some?
                && IsPrune(old(OnDisk()), OnDisk(), keep, dryRun, steps, r)
    {
      var read := index.ReadAll();
      if read.Err? {
        return IS.Err(read.error);
      }
      ghost var d := OnDisk();
      assert read.value == d.entries;
      var candidates := RetentionCandidates(read.value, keep);
      var retained := Filter(read.value, NotIn(PrunedShas(candidates)));
      r := IS.Ok(PruneResult(candidates, |retained|, CandidateSizes(candidates)));
      if !dryRun {
        RetainedAreValid(index.codec, index.file.Content(), NotIn(PrunedShas(candidates)));
        var applied := ApplyPrune(candidates, retained, steps, now);
        if applied.Err? {
          r := IS.Err(applied.error);
        }
      }
      assert Loaded().Some?;
      assert OnDisk() == if dryRun then d else CrashedPrune(d, keep, steps);
    }

    /** sweep_orphans, which open runs before anything else. */
    method SweepOrphans() returns (r: IS.Result<()>)
      requires index.Valid()
      modifies bundles`files, index
      ensures index.Valid()
      ensures r.Ok? <==> Loaded().Some?
      ensures r.Ok? ==> OnDisk() == Swept(old(OnDisk()))
      ensures r.Err? ==> bundles.files == old(bundles.files)
    {
      var read := index.ReadAll();
      if read.Err? {
        return IS.Err(read.error);
      }
      SweepKinds(IS.Shas(read.value));
      return IS.Ok(());
    }

    method SweepKinds(known: set<string>)
      modifies bundles`files
      ensures bundles.files == Without(old(bundles.files), SWEPT_KINDS, known)
    {
      WithoutNone(bundles.files, known);
      var i := 0;
      while i < |SWEPT_KINDS|
        invariant i <= |SWEPT_KINDS|
        invariant bundles.files == Without(old(bundles.files), SWEPT_KINDS[..i], known)
      {
        SweepKind(SWEPT_KINDS[i], known);
        WithoutOneMore(old(bundles.files), SWEPT_KINDS, i, known);
        i := i + 1;
      }
      assert SWEPT_KINDS[..i] == SWEPT_KINDS;
    }

    method SweepKind(k: BundleKind, known: set<string>)
      modifies bundles`files
      ensures bundles.files == Without(old(bundles.files), [k], known)
    {
      var listed := bundles.List(k);
      ghost var before := bundles.files;
      DroppedNone(before, k, known);
      var j := 0;
      while j < |listed|
        invariant j <= |listed|
        invariant bundles.files == Dropped(before, k, listed[..j], known)
      {
        DroppedOneMore(before, k, listed, j, known);
        if listed[j] !in known {
          var removed := bundles.RemoveIfExists(k, listed[j]);
        }
        j := j + 1;
      }
      assert listed[..j] == listed;
      DroppedAll(before, k, listed, known);
    }

    method ListedSizeOf(k: BundleKind, listed: seq<string>) returns (size: nat)
      ensures size == ListedSize(bundles.files, k, listed)
    {
      size := 0;
      var i := 0;
      while i < |listed|
        invariant i <= |listed|
        invariant size == ListedSize(bundles.files, k, listed[..i])
      {
        ListedSizeSnoc(bundles.files, k, listed, i);
        size := size + FileSize(bundles.files, Loc(k, listed[i]));
        i := i + 1;
      }
      assert listed[..i] == listed;
    }

    method KindRow(entries: seq<IndexEntry>, cs: seq<Candidate>, kinds: seq<BundleKind>, i: nat) returns (row: KindReport)
      requires NoRepeats(kinds) && i < |kinds|
      ensures IsRow(bundles.files, entries, cs, kinds[i], row)
      ensures |OfKinds(bundles.files, kinds[..i + 1])| == |OfKinds(bundles.files, kinds[..i])| + row.bundleFiles
      ensures MapSum(OfKinds(bundles.files, kinds[..i + 1])) == MapSum(OfKinds(bundles.files, kinds[..i])) + row.sizeBytes
    {
      var k := kinds[i];
      var listed := bundles.List(k);
      var size := ListedSizeOf(k, listed);
      ListingAddsUp(bundles.files, k, listed);
      KindAddsUp(bundles.files, kinds, i, listed);
      row := KindReport(Subdir(k), |Filter(entries, OfKind(k))|, |listed|, size, |Filter(cs, NamedKind(Subdir(k)))|);
    }

    method RowsOf(entries: seq<IndexEntry>, cs: seq<Candidate>, kinds: seq<BundleKind>)
      returns (rows: seq<KindReport>, count: nat, size: nat)
      requires NoRepeats(kinds)
      ensures |rows| == |kinds|
      ensures Pass(rows, RowTest(bundles.files, entries, cs, kinds))
      ensures count == |OfKinds(bundles.files, kinds)| && size == MapSum(OfKinds(bundles.files, kinds))
    {
      rows, count, size := [], 0, 0;
      OfNoKinds(bundles.files);
      var i := 0;
      while i < |kinds|
        invariant i == |rows| <= |kinds|
        invariant Pass(rows, RowTest(bundles.files, entries, cs, kinds))
        invariant count == |OfKinds(bundles.files, kinds[..i])|
        invariant size == MapSum(OfKinds(bundles.files, kinds[..i]))
      {
        var row := KindRow(entries, cs, kinds, i);
        count, size := count + row.bundleFiles, size + row.sizeBytes;
        OneMorePasses(rows, row, RowTest(bundles.files, entries, cs, kinds));
        rows := rows + [row];
        i := i + 1;
      }
      assert kinds[..i] == kinds;
    }

    /** The rows of the report and their totals. */
    method KindRows(entries: seq<IndexEntry>, cs: seq<Candidate>) returns (rows: seq<KindReport>, count: nat, size: nat)
      ensures |rows| == |ALL_KINDS|
      ensures forall i :: 0 <= i < |rows| ==> IsRow(bundles.files, entries, cs, ALL_KINDS[i], rows[i])
      ensures count == |Sizes(bundles.files)| && size == Stored(bundles.files)
    {
      AllKindsDistinct();
      SizesAreOfKinds(bundles.files);
      rows, count, size := RowsOf(entries, cs, ALL_KINDS);
      forall i | 0 <= i < |rows| ensures IsRow(bundles.files, entries, cs, ALL_KINDS[i], rows[i]) {
        assert RowTest(bundles.files, entries, cs, ALL_KINDS)(i, rows[i]);
      }
    }

    /** retention_report_for_entries */
    method ReportForEntries(entries: seq<IndexEntry>, keep: nat) returns (report: Report)
      ensures var cs := Candidates(bundles.files, entries, keep);
              && report.totalEntries == |entries|
              && report.totalFiles == |Sizes(bundles.files)|
              && report.totalSizeBytes == Stored(bundles.files)
              && report.reclaimableBytes == CandidateSizes(cs)
              && report.totalCandidates == |cs|
              && |report.candidates| == (if |cs| <= 100 then |cs| else 100) && report.candidates <= cs
              && (report.truncated <==> report.candidates != cs)
              && |report.kinds| == |ALL_KINDS|
              && forall i :: 0 <= i < |report.kinds| ==> IsRow(bundles.files, entries, cs, ALL_KINDS[i], report.kinds[i])
      ensures IS.DistinctShas(entries) ==> report.reclaimableBytes <= report.totalSizeBytes
    {
      var cs := RetentionCandidates(entries, keep);
      var rows, count, size := KindRows(entries, cs);
      if IS.DistinctShas(entries) {
        ReclaimableBound(bundles.files, entries, keep);
      }
      report := Report(|entries|, count, size, CandidateSizes(cs), |cs|, |cs| > MAX_REPORTED_CANDIDATES, rows,
                       Take(cs, MAX_REPORTED_CANDIDATES));
    }

    // ---- ingest ----

    /** The write-once step for a sidecar: written, found identical, or refused. */
    method PublishSidecar(s: Sidecar, sha: string, fault: WriteFault) returns (error: Option<UploadError>)
      modifies bundles
      ensures error.None? ==> bundles.files == old(bundles.files)[Loc(s.kind, sha) := s.raw]
      ensures error.Some? ==> bundles.files == old(bundles.files)
      ensures error == Some(DifferentProvenance) <==>
              Loc(s.kind, sha) in old(bundles.files) && old(bundles.files)[Loc(s.kind, sha)] != s.raw
      ensures Loc(s.kind, sha) in old(bundles.files) && error.None? ==> bundles.files == old(bundles.files)
      ensures fault.NoFault? ==> error.None? || error == Some(DifferentProvenance)
    {
      if bundles.Exists(s.kind, sha) {
        var existing := bundles.Read(s.kind, sha);
        if existing != Some(s.raw) {
          return Some(DifferentProvenance);
        }
        assert bundles.files == old(bundles.files)[Loc(s.kind, sha) := s.raw];
        return None;
      }
      var ok := bundles.Write(s.kind, sha, s.raw, fault);
      return if ok then None else Some(Internal);
    }

    /** The bundle and the sidecar of an upload. */
    method Publish(kind: BundleKind, raw: seq<Byte>, sidecar: Option<Sidecar>, sha: string,
                   bundleFault: WriteFault, sidecarFault: WriteFault)
      returns (error: Option<UploadError>)
      requires sidecar.Some? ==> sidecar.value.kind != kind
      modifies bundles
      ensures KeepsPublished(old(bundles.files), bundles.files)
      ensures OnlyUploads(old(bundles.files), bundles.files, kind, sha, raw, sidecar)
      ensures error.None? ==> IsPublished(bundles.files, kind, sha, sidecar)
      ensures bundleFault.NoFault? && sidecarFault.NoFault? ==>
                var after := AfterUpload(old(bundles.files), kind, sha, raw, sidecar);
                bundles.files == after.0 && error == if after.1 then None else Some(DifferentProvenance)
    {
      if !bundles.Exists(kind, sha) {
        var ok := bundles.Write(kind, sha, raw, bundleFault);
        if !ok {
          return Some(Internal);
        }
      }
      if sidecar.Some? {
        error := PublishSidecar(sidecar.value, sha, sidecarFault);
      } else {
        error := None;
      }
    }

    lemma CurrentEntries()
      requires index.Current()
      ensures Entries() == index.entries
    {
    }

    /** The index step of an upload. */
    method Index(e: IndexEntry, fault: IS.Fault, now: Option<nat>) returns (ok: bool)
      requires index.Valid()
      modifies index, index.file
      ensures old(IS.BlankEnd(index.file.Content())) ==> index.Valid()
      ensures ok && old(IS.BlankEnd(index.file.Content())) ==>
                IndexHolds(e) && (IS.DistinctShas(old(Entries())) ==> IS.DistinctShas(Entries()))
      ensures fault == IS.NoFault && old(Loaded()).Some? && IsValidSha(e.sha256) ==> ok
      ensures ok ==> index.file.Content() == old(index.file.Content()) + old(NewLine(e))
    {
      ghost var before := Entries();
      ghost var clean := IS.BlankEnd(index.file.Content());
      var appended := index.AppendIfAbsent(e, fault, now);
      if appended.Ok? && clean {
        CurrentEntries();
        assert appended.value ==> index.entries == before + [e];
      }
      ok := appended.Ok?;
    }

    /**
     One upload: bundle, then the sidecar of a signed one, then the index. Nothing
     published is ever changed, and an accepted upload is complete: its bundle and
     its sidecar are there and, if the index ended its last line before, its sha is
     in the index, once if all shas were distinct. Undisturbed, it does what the
     same upload does as steps of the concurrent store (Ingest.UploadAlone).
    */
    method Post(kind: BundleKind, raw: seq<Byte>, sidecar: Option<Sidecar>, e: IndexEntry,
                bundleFault: WriteFault, sidecarFault: WriteFault, indexFault: IS.Fault, now: Option<nat>)
      returns (r: Receipt)
      requires index.Valid()
      requires sidecar.Some? ==> sidecar.value.kind != kind
      modifies bundles, index, index.file
      ensures old(IS.BlankEnd(index.file.Content())) ==> index.Valid()
      ensures KeepsPublished(old(bundles.files), bundles.files)
      ensures OnlyUploads(old(bundles.files), bundles.files, kind, e.sha256, raw, sidecar)
      ensures index.file.Content() != old(index.file.Content()) ==> IsPublished(bundles.files, kind, e.sha256, sidecar)
      ensures r.Accepted? ==> r.sha == e.sha256 && IsPublished(bundles.files, kind, e.sha256, sidecar)
      ensures r.Accepted? && old(IS.BlankEnd(index.file.Content())) ==>
                IndexHolds(e) && (IS.DistinctShas(old(Entries())) ==> IS.DistinctShas(Entries()))
      ensures bundleFault.NoFault? && sidecarFault.NoFault? ==>
                var after := AfterUpload(old(bundles.files), kind, e.sha256, raw, sidecar);
                && bundles.files == after.0
                && (r == Refused(DifferentProvenance) <==> !after.1)
                && (indexFault == IS.NoFault && old(Loaded()).Some? && IsValidSha(e.sha256) ==>
                      (r == Accepted(e.sha256) <==> after.1))
      ensures r.Accepted? ==> index.file.Content() == old(index.file.Content()) + old(NewLine(e))
    {
      var error := Publish(kind, raw, sidecar, e.sha256, bundleFault, sidecarFault);
      if error.Some? {
        return Refused(error.value);
      }
      var ok := Index(e, indexFault, now);
      return if ok then Accepted(e.sha256) else Refused(Internal);
    }
  }
}
