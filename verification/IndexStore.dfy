/**
 The index store (index.rs): an append-only file with an in-memory copy that is
 trusted while the file's length and modification time are the recorded ones.
*/
module IndexStore {
  import opened Wrappers
  import opened Utf8
  import opened Sequences
  import opened IndexLog
  import Json

  datatype Error = Io | InvalidSha(sha: string)

  datatype Result<+T> = Ok(value: T) | Err(error: Error)

  datatype Fingerprint = Fingerprint(len: nat, modified: Option<nat>)

  /** How a write to disk can go wrong: it stops after k bytes, or only the final stat fails. */
  datatype Fault = NoFault | Cut(k: nat) | StatFails

  class IndexFile {
    var bytes: Option<seq<Byte>>
    var modified: Option<nat>

    constructor ()
      ensures bytes == None
    {
      bytes, modified := None, None;
    }

    /** file_fingerprint */
    function Stat(): Fingerprint
      reads this
    {
      match bytes case None => Fingerprint(0, None) case Some(bs) => Fingerprint(|bs|, modified)
    }

    function Content(): seq<Byte>
      reads this
    {
      match bytes case None => [] case Some(bs) => bs
    }

    /** Append mode creates the file if it is missing; the time changes when something is written. */
    method Append(more: seq<Byte>, now: Option<nat>)
      modifies this
      ensures bytes == Some(old(Content()) + more)
      ensures more == [] && old(bytes).Some? ==> modified == old(modified)
    {
      if bytes.None? || more != [] {
        modified := now;
      }
      bytes := Some(Content() + more);
      assert more == [] ==> old(Content()) + more == old(Content());
    }

    /** rename of a complete temporary file onto this path. */
    method Replace(all: seq<Byte>, now: Option<nat>)
      modifies this
      ensures bytes == Some(all) && modified == now
    {
      bytes, modified := Some(all), now;
    }
  }

  function Shas(entries: seq<IndexEntry>): set<string> {
    set e | e in entries :: e.sha256
  }

  ghost predicate DistinctShas(entries: seq<IndexEntry>) {
    forall i, j :: 0 <= i < j < |entries| ==> entries[i].sha256 != entries[j].sha256
  }

  /** Only blanks after the last newline: what the next append needs (AppendSurvivesIff). */
  predicate BlankEnd(bs: seq<Byte>) {
    Decode(bs).Some? && Json.SkipWs(Tail(Decode(bs).value)) == ""
  }

  /** The entries of a file, read anew. */
  function Fresh(c: TimeCodec, bs: seq<Byte>): Result<seq<IndexEntry>> {
    match LoadBytes(c, bs) case None => Err(Io) case Some(load) => Ok(load.entries)
  }

  // ---- pages ----

  datatype PageRequest = PageRequest(
    offset: nat, limit: nat, schemaPrefix: Option<string>, provider: Option<string>, status: Option<string>)

  datatype Page = Page(total: nat, entries: seq<IndexEntry>)

  predicate Selected(q: PageRequest, e: IndexEntry) {
    && (q.schemaPrefix.Some? ==> q.schemaPrefix.value <= e.schema)
    && (q.provider.Some? ==> e.provider == q.provider)
    && (q.status.Some? ==> e.status == q.status)
  }

  function Selector(q: PageRequest): IndexEntry -> bool {
    (e: IndexEntry) => Selected(q, e)
  }

  /** Newest first, then by sha. */
  function PageLe(): (IndexEntry, IndexEntry) -> bool {
    (a: IndexEntry, b: IndexEntry) =>
      a.ingestedAt > b.ingestedAt || (a.ingestedAt == b.ingestedAt && StringLe(a.sha256, b.sha256))
  }

  /** Everything a request selects, in page order. */
  function Listing(entries: seq<IndexEntry>, q: PageRequest): seq<IndexEntry> {
    Sort(Filter(entries, Selector(q)), PageLe())
  }

  function Window<T>(s: seq<T>, offset: nat, limit: nat): seq<T> {
    var start := if offset < |s| then offset else |s|;
    var end := if start + limit < |s| then start + limit else |s|;
    s[start..end]
  }

  // ---- the store ----

  class IndexStore {
    const codec: TimeCodec
    const file: IndexFile
    var loaded: bool
    var entries: seq<IndexEntry>
    var digestIndex: set<string>
    var recorded: Fingerprint
    var malformed: nat
    var invalidSha: nat

    constructor (codec: TimeCodec, file: IndexFile)
      requires codec.Valid()
      ensures this.codec == codec && this.file == file
      ensures !loaded && Valid()
    {
      this.codec, this.file := codec, file;
      loaded, entries, digestIndex, recorded, malformed, invalidSha := false, [], {}, Fingerprint(0, None), 0, 0;
    }

    /** The copy is trusted. */
    predicate Trusted()
      reads this, file
    {
      loaded && recorded == file.Stat()
    }

    /** The copy is what a fresh load of the file would give. */
    ghost predicate Current()
      reads this, file
    {
      LoadBytes(codec, file.Content()) == Some(Load(entries, malformed, invalidSha)) && digestIndex == Shas(entries)
    }

    ghost predicate Valid()
      reads this, file
    {
      codec.Valid() && (Trusted() ==> Current())
    }

    /** Valid, and the next append will survive a reload. */
    ghost predicate Sound()
      reads this, file
    {
      Valid() && BlankEnd(file.Content())
    }

    /** load_from_disk: read line by line, skipping and counting what is not an entry. */
    method LoadFromDisk() returns (r: Result<Load>)
      ensures r == match LoadBytes(codec, file.Content()) { case None => Err(Io) case Some(load) => Ok(load) }
    {
      if file.bytes.None? {
        assert Lines("") == [];
        return Ok(Nothing);
      }
      match Decode(file.bytes.value) {
        case None =>
          return Err(Io);
        case Some(text) =>
          var load := LoadLines(codec, Lines(text));
          return Ok(load);
      }
    }

    /** One line: blank, an entry, an entry with an invalid sha, or malformed. */
    static method LoadNext(c: TimeCodec, line: string, sofar: Load) returns (load: Load)
      ensures load == Join(sofar, LoadLine(c, line))
    {
      JoinUnit(sofar);
      Unit(sofar.entries);
      if IsBlank(line) {
        return sofar;
      }
      match ParseEntry(c, line) {
        case Some(e) =>
          if IsValidSha(e.sha256) {
            return sofar.(entries := sofar.entries + [e]);
          }
          return sofar.(invalidSha := sofar.invalidSha + 1);
        case None =>
          return sofar.(malformed := sofar.malformed + 1);
      }
    }

    /** The loop over the lines. */
    static method LoadLines(c: TimeCodec, lines: seq<string>) returns (load: Load)
      ensures load == Collect(lines, LineLoader(c))
    {
      load := Nothing;
      var i := 0;
      while i < |lines|
        invariant i <= |lines|
        invariant load == Collect(lines[..i], LineLoader(c))
      {
        CollectSnoc(lines, i, LineLoader(c));
        load := LoadNext(c, lines[i], load);
        i := i + 1;
      }
      assert lines[..i] == lines;
    }

    /** A trusted copy is kept as it is; otherwise the file is loaded again. */
    method EnsureLoaded() returns (r: Result<()>)
      modifies this
      ensures old(Trusted()) ==> r.Ok? && unchanged(this)
      ensures !old(Trusted()) ==> (r.Ok? <==> LoadBytes(codec, file.Content()).Some?) && (r.Ok? ==> Current())
      ensures r.Ok? ==> Trusted()
      ensures r.Err? ==> r.error == Io && unchanged(this)
      ensures old(Valid()) ==> Valid() && (r.Ok? ==> Current())
    {
      if loaded && recorded == file.Stat() {
        return Ok(());
      }
      var load := LoadFromDisk();
      if load.Err? {
        return Err(load.error);
      }
      loaded := true;
      entries := load.value.entries;
      digestIndex := Shas(entries);
      recorded := file.Stat();
      malformed, invalidSha := load.value.malformed, load.value.invalidSha;
      return Ok(());
    }

    /** append_inner: one line, one newline, possibly cut short. */
    method AppendInner(e: IndexEntry, fault: Fault, now: Option<nat>) returns (r: Result<()>)
      modifies file
      ensures !IsValidSha(e.sha256) ==> r == Err(InvalidSha(e.sha256)) && unchanged(file)
      ensures var w := Encode(Written(codec, e));
              IsValidSha(e.sha256) ==>
                if fault.Cut? && fault.k <= |w|
                then r == Err(Io) && file.bytes == Some(old(file.Content()) + w[..fault.k])
                else r == Ok(()) && file.bytes == Some(old(file.Content()) + w)
      ensures IsValidSha(e.sha256) && old(file.bytes).Some? && fault == Cut(0) ==> file.modified == old(file.modified)
    {
      if !IsValidSha(e.sha256) {
        return Err(InvalidSha(e.sha256));
      }
      var w := Encode(Written(codec, e));
      if fault.Cut? && fault.k <= |w| {
        file.Append(w[..fault.k], now);
        return Err(Io);
      }
      file.Append(w, now);
      return Ok(());
    }

    /** After the write: the copy is extended, and trusted again unless the final stat fails. */
    method Remember(e: IndexEntry, statFails: bool, ghost before: seq<Byte>) returns (r: Result<()>)
      requires codec.Valid() && IsValidSha(e.sha256) && loaded
      requires file.Content() == before + Encode(Written(codec, e))
      requires LoadBytes(codec, before) == Some(Load(entries, malformed, invalidSha)) && digestIndex == Shas(entries)
      modifies this
      ensures r == if statFails then Err(Io) else Ok(())
      ensures entries == old(entries) + [e] && digestIndex == Shas(entries) && e.sha256 in digestIndex
      ensures DistinctShas(old(entries)) && e.sha256 !in Shas(old(entries)) ==> DistinctShas(entries)
      ensures recorded == if statFails then old(recorded) else file.Stat()
      ensures loaded
      ensures BlankEnd(before) ==> Current() && BlankEnd(file.Content())
    {
      AppendedShas(entries, e);
      digestIndex := digestIndex + {e.sha256};
      entries := entries + [e];
      if BlankEnd(before) {
        AppendedCopy(codec, before, e);
      }
      if statFails {
        return Err(Io);
      }
      recorded := file.Stat();
      return Ok(());
    }

    /** Append the entry and extend the copy; the file must be loadable first. */
    method Append(e: IndexEntry, fault: Fault, now: Option<nat>) returns (r: Result<()>)
      requires Valid()
      modifies this, file
      ensures r.Ok? && old(BlankEnd(file.Content())) ==>
                && Sound()
                && entries == LoadBytes(codec, old(file.Content())).value.entries + [e]
      ensures LoadBytes(codec, old(file.Content())).None? ==> r == Err(Io) && unchanged(file)
      ensures fault == NoFault && IsValidSha(e.sha256) && LoadBytes(codec, old(file.Content())).Some? ==> r.Ok?
      ensures old(file.Content()) <= file.Content() <= old(file.Content()) + Encode(Written(codec, e))
      ensures r.Ok? ==> file.Content() == old(file.Content()) + Encode(Written(codec, e))
      ensures r.Err? && fault == NoFault ==> unchanged(file)
      ensures old(Sound()) && fault == NoFault ==> Sound()
      ensures r.Ok? ==> e.sha256 in digestIndex && IsValidSha(e.sha256)
      ensures r.Err? || old(BlankEnd(file.Content())) ==> Valid()
    {
      var ready := EnsureLoaded();
      if ready.Err? {
        return ready;
      }
      ghost var before := file.Content();
      var written := AppendInner(e, fault, now);
      if written.Err? {
        assert fault == Cut(0) ==> file.Content() == before;
        return written;
      }
      r := Remember(e, fault == StatFails, before);
    }

    /** append_if_absent: true if newly appended, false if the sha was already there. */
    method AppendIfAbsent(e: IndexEntry, fault: Fault, now: Option<nat>) returns (r: Result<bool>)
      requires Valid()
      modifies this, file
      ensures r.Ok? && old(BlankEnd(file.Content())) ==> Valid() && Current() && e.sha256 in Shas(entries)
      ensures r == Ok(false) ==> unchanged(file) && Valid() && Current() && e.sha256 in Shas(entries)
      ensures LoadBytes(codec, old(file.Content())).None? ==> r == Err(Io) && unchanged(file)
      ensures fault == NoFault && IsValidSha(e.sha256) && LoadBytes(codec, old(file.Content())).Some? ==> r.Ok?
      ensures r.Ok? ==>
                LoadBytes(codec, old(file.Content())).Some? &&
                r.value == (e.sha256 !in Shas(LoadBytes(codec, old(file.Content())).value.entries))
      ensures r == Ok(true) ==> file.Content() == old(file.Content()) + Encode(Written(codec, e))
      ensures r == Ok(true) && old(BlankEnd(file.Content())) ==>
                var before := LoadBytes(codec, old(file.Content())).value.entries;
                && Sound()
                && entries == before + [e]
                && e.sha256 !in Shas(before)
                && (DistinctShas(before) ==> DistinctShas(entries))
      ensures old(file.Content()) <= file.Content() <= old(file.Content()) + Encode(Written(codec, e))
      ensures r.Err? && fault == NoFault ==> unchanged(file)
      ensures old(Sound()) && fault == NoFault ==> Sound()
      ensures r.Err? || old(BlankEnd(file.Content())) ==> Valid()
    {
      var ready := EnsureLoaded();
      if ready.Err? {
        return Err(ready.error);
      }
      if e.sha256 in digestIndex {
        return Ok(false);
      }
      ghost var before := file.Content();
      var written := AppendInner(e, fault, now);
      if written.Err? {
        assert fault == Cut(0) ==> file.Content() == before;
        return Err(written.error);
      }
      var remembered := Remember(e, fault == StatFails, before);
      return match remembered case Ok(_) => Ok(true) case Err(error) => Err(error);
    }

    /** Answers the held entries when the copy is trusted, and else a fresh parse. */
    method ReadAll() returns (r: Result<seq<IndexEntry>>)
      modifies this
      ensures old(Trusted()) ==> r == Ok(old(entries))
      ensures !old(Trusted()) ==> r == Fresh(codec, file.Content())
      ensures old(Valid()) ==> Valid() && r == Fresh(codec, file.Content())
      ensures r.Ok? && old(Valid()) ==> entries == r.value && digestIndex == Shas(r.value)
      ensures r.Ok? ==> entries == r.value
      ensures r.Ok? ==> Trusted()
    {
      var ready := EnsureLoaded();
      if ready.Err? {
        return Err(ready.error);
      }
      return Ok(entries);
    }

    method ReadPage(q: PageRequest) returns (r: Result<Page>)
      requires Valid()
      modifies this
      ensures Valid()
      ensures LoadBytes(codec, file.Content()).None? ==> r == Err(Io)
      ensures LoadBytes(codec, file.Content()).Some? ==>
                var listing := Listing(LoadBytes(codec, file.Content()).value.entries, q);
                r == Ok(Page(|listing|, Window(listing, q.offset, q.limit)))
    {
      var ready := EnsureLoaded();
      if ready.Err? {
        return Err(ready.error);
      }
      var filtered := SelectEntries(entries, q);
      filtered := Sort(filtered, PageLe());
      return Ok(Page(|filtered|, Window(filtered, q.offset, q.limit)));
    }

    /** The loop that selects. */
    static method SelectEntries(entries: seq<IndexEntry>, q: PageRequest) returns (filtered: seq<IndexEntry>)
      ensures filtered == Filter(entries, Selector(q))
    {
      filtered := [];
      var i := 0;
      while i < |entries|
        invariant i <= |entries|
        invariant filtered == Filter(entries[..i], Selector(q))
      {
        FilterSnoc(entries, i, Selector(q));
        if Selected(q, entries[i]) {
          filtered := filtered + [entries[i]];
        }
        i := i + 1;
      }
      assert entries[..i] == entries;
    }

    /** rewrite: a complete temporary file renamed over the index; a failed temporary write changes nothing. */
    method Rewrite(es: seq<IndexEntry>, tmpFails: bool, now: Option<nat>) returns (r: Result<()>)
      requires Valid()
      modifies this, file
      ensures Valid()
      ensures r.Ok? <==> !tmpFails && forall i :: 0 <= i < |es| ==> IsValidSha(es[i].sha256)
      ensures r.Ok? ==> Sound() && Current() && entries == es && malformed == 0 && invalidSha == 0
      ensures r.Err? ==> unchanged(this) && unchanged(file)
      ensures old(Sound()) ==> Sound()
    {
      var i := 0;
      while i < |es|
        invariant i <= |es|
        invariant forall j :: 0 <= j < i ==> IsValidSha(es[j].sha256)
      {
        if !IsValidSha(es[i].sha256) {
          return Err(InvalidSha(es[i].sha256));
        }
        i := i + 1;
      }
      if tmpFails {
        return Err(Io);
      }
      var tmp := [];
      i := 0;
      while i < |es|
        invariant i <= |es|
        invariant tmp == Encode(Rewritten(codec, es[..i]))
      {
        RewrittenSnoc(codec, es, i);
        tmp := tmp + Encode(Written(codec, es[i]));
        i := i + 1;
      }
      assert es[..i] == es;
      RewrittenLoads(codec, es);
      file.Replace(tmp, now);
      loaded := true;
      entries := es;
      digestIndex := Shas(es);
      recorded := file.Stat();
      malformed, invalidSha := 0, 0;
      return Ok(());
    }

    /**
     Another process replaces the file. A valid copy stays valid when the new file
     does not have the recorded length and time (ReadAfterReplace says when it does
     not matter).
    */
    method ExternalReplace(all: seq<Byte>, now: Option<nat>)
      modifies file
      ensures file.bytes == Some(all) && file.modified == now
      ensures old(Valid()) && !HasRecorded(all, now) ==> Valid()
    {
      file.Replace(all, now);
    }

    /** A file with this content and time would be taken for the one the copy was made of. */
    predicate HasRecorded(all: seq<Byte>, now: Option<nat>)
      reads this
    {
      loaded && recorded == Fingerprint(|all|, now)
    }
  }

  // ---- replacements by other processes ----

  /**
   After a replacement of any kind, a read answers a fresh parse iff the new file
   differs from the recorded one in length or time, or holds the entries held anyway.
  */
  method ReadAfterReplace(store: IndexStore, all: seq<Byte>, now: Option<nat>) returns (r: Result<seq<IndexEntry>>)
    requires store.Valid()
    modifies store, store.file
    ensures r == Fresh(store.codec, all) <==>
            !old(store.HasRecorded(all, now)) || Fresh(store.codec, all) == Ok(old(store.entries))
  {
    store.ExternalReplace(all, now);
    r := store.ReadAll();
  }

  // ---- runs ----

  datatype Operation =
    | DoAppend(e: IndexEntry, fault: Fault)
    | DoAppendIfAbsent(e: IndexEntry, fault: Fault)
    | DoRewrite(es: seq<IndexEntry>, tmpFails: bool)
    | DoRead
    | DoExternal(all: seq<Byte>)

  /** What a read answered and the sha set kept with it, beside the bytes of the file at that moment. */
  datatype Answer = Answer(bytes: seq<Byte>, result: Result<seq<IndexEntry>>, shas: set<string>)

  ghost predicate IsFresh(c: TimeCodec, a: Answer) {
    a.result == Fresh(c, a.bytes) && (a.result.Ok? ==> a.shas == Shas(a.result.value))
  }

  function Reads(ops: seq<Operation>): nat {
    if ops == [] then 0 else (if ops[0].DoRead? then 1 else 0) + Reads(ops[1..])
  }

  lemma {:induction false} ReadsSnoc(ops: seq<Operation>, i: nat)
    requires i < |ops|
    ensures Reads(ops[..i + 1]) == Reads(ops[..i]) + (if ops[i].DoRead? then 1 else 0)
  {
    if i > 0 {
      ReadsSnoc(ops[1..], i - 1);
      assert ops[..i + 1][1..] == ops[1..][..i] && ops[..i][1..] == ops[1..][..i - 1];
    }
  }

  /** One operation that is not a read; appends only to a file that ends its last line. */
  method Apply(store: IndexStore, op: Operation, now: Option<nat>)
    requires store.Valid()
    modifies store, store.file
    ensures store.Valid()
  {
    match op {
      case DoAppend(e, fault) =>
        if BlankEnd(store.file.Content()) {
          var appended := store.Append(e, fault, now);
        }
      case DoAppendIfAbsent(e, fault) =>
        if BlankEnd(store.file.Content()) {
          var inserted := store.AppendIfAbsent(e, fault, now);
        }
      case DoRewrite(es, tmpFails) =>
        var rewritten := store.Rewrite(es, tmpFails, now);
      case DoRead =>
      case DoExternal(all) =>
        if !store.HasRecorded(all, now) {
          store.ExternalReplace(all, now);
        }
    }
  }

  /**
   Any run of operations, each failing in any way, and of replacements by other
   processes that change the recorded length or time, as long as nothing is
   appended to a torn line: every read answers a fresh parse of the file, or fails
   as that does, and the sha set is that of the answer.
  */
  method Replay(store: IndexStore, ops: seq<Operation>, clock: nat -> Option<nat>) returns (answers: seq<Answer>)
    requires store.Valid()
    modifies store, store.file
    ensures store.Valid()
    ensures |answers| == Reads(ops)
    ensures forall i :: 0 <= i < |answers| ==> IsFresh(store.codec, answers[i])
  {
    answers := [];
    var i := 0;
    while i < |ops|
      invariant i <= |ops|
      invariant store.Valid()
      invariant |answers| == Reads(ops[..i])
      invariant forall k :: 0 <= k < |answers| ==> IsFresh(store.codec, answers[k])
    {
      ReadsSnoc(ops, i);
      if ops[i].DoRead? {
        var r := store.ReadAll();
        answers := answers + [Answer(store.file.Content(), r, store.digestIndex)];
      } else {
        Apply(store, ops[i], clock(i));
      }
      i := i + 1;
    }
    assert ops[..i] == ops;
  }

  function Spaces(n: nat): string {
    if n == 0 then "" else [' '] + Spaces(n - 1)
  }

  lemma {:induction false} SpacesShape(n: nat)
    ensures |Encode(Spaces(n))| == n
    ensures Json.SkipWs(Spaces(n)) == "" && '\n' !in Spaces(n)
  {
    if n > 0 {
      SpacesShape(n - 1);
      assert Spaces(n)[1..] == Spaces(n - 1);
    }
  }

  lemma BlankLoad(c: TimeCodec, s: string)
    requires '\n' !in s && Json.SkipWs(s) == ""
    ensures LoadText(c, s) == Nothing && Json.SkipWs(Tail(s)) == ""
  {
    NoTail(s);
    LoadSplit(c, s);
    assert Lines("") == [];
  }

  /**
   Why a replacement must change the length or the time: for every index holding
   one entry there is a file of the same length that holds none, so a copy
   checked by length and time alone could not tell them apart.
  */
  lemma SameLengthOtherEntries(c: TimeCodec, e: IndexEntry) returns (other: seq<Byte>)
    requires c.Valid() && IsValidSha(e.sha256)
    ensures other == Encode(Spaces(|Encode(Written(c, e))|))
    ensures |other| == |Encode(Written(c, e))| && BlankEnd(other)
    ensures LoadBytes(c, other) == Some(Nothing)
    ensures LoadBytes(c, Encode(Written(c, e))) == Some(Load([e], 0, 0))
  {
    var s := Spaces(|Encode(Written(c, e))|);
    other := Encode(s);
    SpacesShape(|Encode(Written(c, e))|);
    BlankLoad(c, s);
    DecodeEncoded(s);
    DecodeEncoded(Written(c, e));
    WrittenLoads(c, e);
  }

  /** The stale read itself: the file was emptied of its entry, and the read still answers it. */
  method StaleRead(c: TimeCodec, e: IndexEntry, now: Option<nat>) returns (store: IndexStore, r: Result<seq<IndexEntry>>)
    requires c.Valid() && IsValidSha(e.sha256)
    ensures fresh(store) && store.codec == c
    ensures LoadBytes(c, store.file.Content()) == Some(Nothing) && r == Ok([e])
  {
    var file := new IndexFile();
    file.Replace(Encode(Written(c, e)), now);
    store := new IndexStore(c, file);
    var first := store.ReadAll();
    ghost var other := SameLengthOtherEntries(c, e);
    store.ExternalReplace(Encode(Spaces(|Encode(Written(c, e))|)), now);
    r := store.ReadAll();
  }

  /** A text without newlines is its own tail. */
  lemma {:induction false} NoTail(s: string)
    requires '\n' !in s
    ensures Head(s) == "" && Tail(s) == s
  {
    if s != "" {
      var init := s[..|s| - 1];
      NoTail(init);
      assert s == init + [s[|s| - 1]];
    }
  }

  // ---- loading ----

  lemma CollectSnoc(lines: seq<string>, i: nat, f: string -> Load)
    requires i < |lines|
    ensures Collect(lines[..i + 1], f) == Join(Collect(lines[..i], f), f(lines[i]))
  {
    assert lines[..i + 1] == lines[..i] + [lines[i]];
    CollectAppend(lines[..i], [lines[i]], f);
    CollectOne(lines[i], f);
  }

  lemma FilterSnoc<T>(s: seq<T>, i: nat, p: T -> bool)
    requires i < |s|
    ensures Filter(s[..i + 1], p) == Filter(s[..i], p) + (if p(s[i]) then [s[i]] else [])
  {
    assert s[..i + 1] == s[..i] + [s[i]];
    FilterAppend(s[..i], [s[i]], p);
    assert [s[i]][1..] == [];
  }

  /** A file that ends its last line stays so, and loads as before plus the new entry. */
  lemma AppendedCopy(c: TimeCodec, before: seq<Byte>, e: IndexEntry)
    requires c.Valid() && IsValidSha(e.sha256) && BlankEnd(before)
    ensures var after := before + Encode(Written(c, e));
            && LoadBytes(c, after) == Some(Join(LoadBytes(c, before).value, Load([e], 0, 0)))
            && BlankEnd(after)
  {
    var s, w := Decode(before).value, Written(c, e);
    DecodeAppend(before, Encode(w));
    DecodeEncoded(w);
    AppendedLoads(c, s, e);
    assert Terminated(s + w);
  }

  lemma AppendedShas(entries: seq<IndexEntry>, e: IndexEntry)
    ensures Shas(entries + [e]) == Shas(entries) + {e.sha256}
    ensures DistinctShas(entries) && e.sha256 !in Shas(entries) ==> DistinctShas(entries + [e])
  {
    assert forall x :: x in entries + [e] <==> x in entries || x == e;
    forall i | 0 <= i < |entries| ensures entries[i].sha256 in Shas(entries) {
      assert entries[i] in entries;
    }
  }

  /** The lines rewrite puts in the temporary file. */
  function Rewritten(c: TimeCodec, es: seq<IndexEntry>): string {
    if es == [] then "" else Written(c, es[0]) + Rewritten(c, es[1..])
  }

  lemma {:induction false} RewrittenAppend(c: TimeCodec, a: seq<IndexEntry>, b: seq<IndexEntry>)
    ensures Rewritten(c, a + b) == Rewritten(c, a) + Rewritten(c, b)
  {
    if a == [] {
      Unit(b);
      Unit(Rewritten(c, b));
    } else {
      RewrittenAppend(c, a[1..], b);
      assert (a + b)[1..] == a[1..] + b;
      Assoc(Written(c, a[0]), Rewritten(c, a[1..]), Rewritten(c, b));
    }
  }

  lemma RewrittenSnoc(c: TimeCodec, es: seq<IndexEntry>, i: nat)
    requires i < |es|
    ensures Encode(Rewritten(c, es[..i + 1])) == Encode(Rewritten(c, es[..i])) + Encode(Written(c, es[i]))
  {
    assert es[..i + 1] == es[..i] + [es[i]];
    RewrittenAppend(c, es[..i], [es[i]]);
    assert [es[i]][1..] == [];
    Unit(Written(c, es[i]));
    EncodeAppend(Rewritten(c, es[..i]), Written(c, es[i]));
  }

  lemma {:induction false} RewrittenText(c: TimeCodec, es: seq<IndexEntry>)
    requires c.Valid() && forall i :: 0 <= i < |es| ==> IsValidSha(es[i].sha256)
    ensures LoadText(c, Rewritten(c, es)) == Load(es, 0, 0)
    ensures Terminated(Rewritten(c, es))
  {
    if es != [] {
      RewrittenText(c, es[1..]);
      WrittenLoads(c, es[0]);
      LoadAppend(c, Written(c, es[0]), Rewritten(c, es[1..]));
      TerminatedAppend(Written(c, es[0]), Rewritten(c, es[1..]));
      HeadTail(es);
    }
  }

  lemma WrittenLoads(c: TimeCodec, e: IndexEntry)
    requires c.Valid() && IsValidSha(e.sha256)
    ensures LoadText(c, Written(c, e)) == Load([e], 0, 0)
  {
    var w := Written(c, e);
    CutLineLoads(c, e, |w|);
    assert w[..|w|] == w;
  }

  lemma TerminatedAppend(a: string, b: string)
    requires Terminated(a) && Terminated(b)
    ensures Terminated(a + b)
  {
    if b == "" {
      Unit(a);
    }
  }

  lemma RewrittenLoads(c: TimeCodec, es: seq<IndexEntry>)
    requires c.Valid() && forall i :: 0 <= i < |es| ==> IsValidSha(es[i].sha256)
    ensures LoadBytes(c, Encode(Rewritten(c, es))) == Some(Load(es, 0, 0))
    ensures BlankEnd(Encode(Rewritten(c, es)))
  {
    RewrittenText(c, es);
    DecodeEncoded(Rewritten(c, es));
  }

  // ---- pages partition the listing ----

  lemma PageOrder()
    ensures TotalPreorder(PageLe())
    ensures forall a, b :: PageLe()(a, b) && PageLe()(b, a) ==> a.sha256 == b.sha256
  {
    forall a: IndexEntry, b: IndexEntry
      ensures PageLe()(a, b) || PageLe()(b, a)
      ensures PageLe()(a, b) && PageLe()(b, a) ==> a.sha256 == b.sha256
    {
      StringLeTotal(a.sha256, b.sha256);
    }
    forall a: IndexEntry, b: IndexEntry, c: IndexEntry | PageLe()(a, b) && PageLe()(b, c)
      ensures PageLe()(a, c)
    {
      if StringLe(a.sha256, b.sha256) && StringLe(b.sha256, c.sha256) {
        StringLeTransitive(a.sha256, b.sha256, c.sha256);
      }
    }
  }

  /** What a request asks of an entry. */
  ghost predicate Wanted(q: PageRequest, e: IndexEntry) {
    && (forall p :: q.schemaPrefix == Some(p) ==> |p| <= |e.schema| && e.schema[..|p|] == p)
    && (forall p :: q.provider == Some(p) ==> e.provider == Some(p))
    && (forall t :: q.status == Some(t) ==> e.status == Some(t))
  }

  /** The listing holds the wanted entries as often as the index, newest first and then by sha. */
  lemma ListingIs(entries: seq<IndexEntry>, q: PageRequest)
    ensures forall i, j :: 0 <= i < j < |Listing(entries, q)| ==>
              var a, b := Listing(entries, q)[i], Listing(entries, q)[j];
              b.ingestedAt < a.ingestedAt || (b.ingestedAt == a.ingestedAt && InOrder(a.sha256, b.sha256))
    ensures forall e :: multiset(Listing(entries, q))[e] == if Wanted(q, e) then multiset(entries)[e] else 0
  {
    PageOrder();
    SortPermutes(Filter(entries, Selector(q)), PageLe());
    SortSorted(Filter(entries, Selector(q)), PageLe());
    forall i, j | 0 <= i < j < |Listing(entries, q)|
      ensures var a, b := Listing(entries, q)[i], Listing(entries, q)[j];
              b.ingestedAt < a.ingestedAt || (b.ingestedAt == a.ingestedAt && InOrder(a.sha256, b.sha256))
    {
      assert PageLe()(Listing(entries, q)[i], Listing(entries, q)[j]);
      StringLeIff(Listing(entries, q)[i].sha256, Listing(entries, q)[j].sha256);
    }
    forall e ensures multiset(Listing(entries, q))[e] == if Wanted(q, e) then multiset(entries)[e] else 0 {
      FilterMultiplicity(entries, Selector(q), e);
      WantedIff(q, e);
    }
  }

  lemma WantedIff(q: PageRequest, e: IndexEntry)
    ensures Selector(q)(e) <==> Wanted(q, e)
  {
  }

  /** A page begins at its offset and ends after its limit or at the end of the listing. */
  lemma WindowIs<T>(s: seq<T>, offset: nat, limit: nat)
    ensures |Window(s, offset, limit)| == if |s| <= offset then 0 else if |s| - offset <= limit then |s| - offset else limit
    ensures forall i :: 0 <= i < |Window(s, offset, limit)| ==> Window(s, offset, limit)[i] == s[offset + i]
  {
  }

  /** The pages at offsets start, start + limit, and so on, one after the other. */
  function PagesFrom(listing: seq<IndexEntry>, start: nat, limit: nat): seq<IndexEntry>
    requires limit >= 1
    decreases if start < |listing| then |listing| - start else 0
  {
    if start >= |listing| then []
    else Window(listing, start, limit) + PagesFrom(listing, start + limit, limit)
  }

  lemma {:induction false} PagesFromSuffix(listing: seq<IndexEntry>, start: nat, limit: nat)
    requires limit >= 1 && start <= |listing|
    ensures PagesFrom(listing, start, limit) == listing[start..]
    decreases |listing| - start
  {
    if start < |listing| {
      if start + limit <= |listing| {
        PagesFromSuffix(listing, start + limit, limit);
      }
      assert listing[start..] == Window(listing, start, limit) + (if start + limit <= |listing| then listing[start + limit..] else []);
    }
  }

  /**
   Paging from the start yields every selected entry exactly as often as the
   index holds it, newest first and then by sha.
  */
  lemma PagesPartition(entries: seq<IndexEntry>, q: PageRequest)
    requires q.limit >= 1
    ensures var pages := PagesFrom(Listing(entries, q), 0, q.limit);
            && multiset(pages) == multiset(Filter(entries, Selector(q)))
            && Sorted(pages, PageLe())
  {
    PageOrder();
    PagesFromSuffix(Listing(entries, q), 0, q.limit);
    SortPermutes(Filter(entries, Selector(q)), PageLe());
    SortSorted(Filter(entries, Selector(q)), PageLe());
  }

  lemma {:induction false} FilterMultiplicity<T>(s: seq<T>, p: T -> bool, x: T)
    ensures multiset(Filter(s, p))[x] == if p(x) then multiset(s)[x] else 0
  {
    if s != [] {
      FilterMultiplicity(s[1..], p, x);
      HeadTail(s);
    }
  }

  /** With distinct shas the listing does not depend on the order of the index. */
  lemma ListingIgnoresOrder(a: seq<IndexEntry>, b: seq<IndexEntry>, q: PageRequest)
    requires DistinctShas(a) && multiset(a) == multiset(b)
    ensures Listing(a, q) == Listing(b, q)
  {
    var fa, fb := Filter(a, Selector(q)), Filter(b, Selector(q));
    PageOrder();
    SortPermutes(fa, PageLe());
    SortPermutes(fb, PageLe());
    SortSorted(fa, PageLe());
    SortSorted(fb, PageLe());
    forall x ensures multiset(fa)[x] == multiset(fb)[x] {
      FilterMultiplicity(a, Selector(q), x);
      FilterMultiplicity(b, Selector(q), x);
    }
    assert multiset(fa) == multiset(fb);
    forall x, y | x in Listing(a, q) && y in Listing(a, q) && PageLe()(x, y) && PageLe()(y, x) ensures x == y {
      FilterMember(a, Selector(q), x);
      FilterMember(a, Selector(q), y);
    }
    SortedUnique(Listing(a, q), Listing(b, q), PageLe());
  }
}
