/**
 The audit log's newline-delimited JSON file with its one rotated generation
 (audit_log.rs): what is on disk after any appends, rotations and restarts, and
 how failures are counted.
*/
module AuditPersistence {
  import opened Wrappers
  import opened Sequences
  import opened Utf8
  import opened Json
  import opened JsonLookup
  import opened JsonReader
  import Canonical
  import opened IndexLog

  datatype AuditEntry = AuditEntry(
    timestamp: nat, httpMethod: string, path: string, status: nat, duration: nat, authAttempted: bool, authenticated: bool)

  function EntryObject(e: AuditEntry): Json {
    Obj([Member("timestamp_unix_micros", Num(Int(e.timestamp))), Member("method", Str(e.httpMethod)),
         Member("path", Str(e.path)), Member("status", Num(Int(e.status))),
         Member("duration_micros", Num(Int(e.duration))), Member("auth_attempted", Bool(e.authAttempted)),
         Member("authenticated", Bool(e.authenticated))])
  }

  function Text(e: AuditEntry): string { Compact(EntryObject(e)) }

  /** One line of the file. */
  function Record(e: AuditEntry): seq<Byte> { Encode(Text(e) + ['\n']) }

  function Records(es: seq<AuditEntry>): seq<Byte> {
    if es == [] then [] else Record(es[0]) + Records(es[1..])
  }

  function Texts(es: seq<AuditEntry>): seq<string> {
    if es == [] then [] else [Text(es[0])] + Texts(es[1..])
  }

  lemma {:induction false} RecordsAppend(a: seq<AuditEntry>, b: seq<AuditEntry>)
    ensures Records(a + b) == Records(a) + Records(b)
  {
    if a == [] {
      Unit(b);
      Unit(Records(b));
    } else {
      RecordsAppend(a[1..], b);
      assert (a + b)[1..] == a[1..] + b;
      Assoc(Record(a[0]), Records(a[1..]), Records(b));
    }
  }

  lemma RecordsOne(e: AuditEntry)
    ensures Records([e]) == Record(e)
  {
    assert [e][1..] == [];
    Unit(Record(e));
  }

  // ---- the file as lines ----

  function RecordText(es: seq<AuditEntry>): string {
    if es == [] then "" else (Text(es[0]) + ['\n']) + RecordText(es[1..])
  }

  lemma {:induction false} RecordsAreText(es: seq<AuditEntry>)
    ensures Records(es) == Encode(RecordText(es))
  {
    if es != [] {
      RecordsAreText(es[1..]);
      EncodeAppend(Text(es[0]) + ['\n'], RecordText(es[1..]));
    }
  }

  lemma TextShape(e: AuditEntry)
    ensures NewlineAt(Text(e)) == |Text(e)| && Text(e) != "" && StripCr(Text(e)) == Text(e)
  {
    Canonical.CompactHasNoControls(EntryObject(e));
  }

  lemma {:induction false} TextLines(es: seq<AuditEntry>)
    ensures Lines(RecordText(es)) == Texts(es)
  {
    if es == [] {
    } else {
      TextLines(es[1..]);
      TextShape(es[0]);
      OneLine(Text(es[0]));
      LinesAppend(Text(es[0]) + ['\n'], RecordText(es[1..]));
    }
  }

  /** A file of records reads back as exactly their texts, one per line. */
  lemma RecordsReadBack(es: seq<AuditEntry>)
    ensures Decode(Records(es)).Some? && Lines(Decode(Records(es)).value) == Texts(es)
  {
    RecordsAreText(es);
    DecodeEncoded(RecordText(es));
    TextLines(es);
  }

  /** The key of the i-th field of a record. */
  function FieldKey(i: nat): string
    requires i < 7
  {
    match i
    case 0 => "timestamp_unix_micros"
    case 1 => "method"
    case 2 => "path"
    case 3 => "status"
    case 4 => "duration_micros"
    case 5 => "auth_attempted"
    case _ => "authenticated"
  }

  lemma FieldKeysDiffer(i: nat, j: nat)
    requires i < j < 7
    ensures FieldKey(i) != FieldKey(j)
  {
    assert "method"[0] != "status"[0];
    assert |FieldKey(i)| == [21, 6, 4, 6, 15, 14, 13][i];
    assert |FieldKey(j)| == [21, 6, 4, 6, 15, 14, 13][j];
  }

  lemma FieldsDistinct(e: AuditEntry)
    ensures var ms := EntryObject(e).members; |ms| == 7 && Canonical.DistinctKeys(ms) && forall i :: 0 <= i < 7 ==> ms[i].key == FieldKey(i)
  {
    var ms := EntryObject(e).members;
    forall i, j | 0 <= i < j < 7 ensures ms[i].key != ms[j].key {
      FieldKeysDiffer(i, j);
    }
  }

  /** A line of the file reads as an object that says what the entry says. */
  lemma RecordSays(e: AuditEntry)
    ensures ParseDocument(Text(e)).Done?
    ensures var v := ParseDocument(Text(e)).value;
            && Get(v, "timestamp_unix_micros") == Some(Num(Int(e.timestamp)))
            && Get(v, "method") == Some(Str(e.httpMethod))
            && Get(v, "path") == Some(Str(e.path))
            && Get(v, "status") == Some(Num(Int(e.status)))
            && Get(v, "duration_micros") == Some(Num(Int(e.duration)))
            && Get(v, "auth_attempted") == Some(Bool(e.authAttempted))
            && Get(v, "authenticated") == Some(Bool(e.authenticated))
  {
    var v := EntryObject(e);
    DocumentRoundTrip(v);
    FieldsDistinct(e);
    forall i | 0 <= i < 7 ensures Get(v, v.members[i].key) == Some(v.members[i].value) {
      OnlyMember(v.members, i);
    }
    EachField(e);
  }

  lemma EachField(e: AuditEntry)
    requires forall i :: 0 <= i < 7 ==> Get(EntryObject(e), EntryObject(e).members[i].key) == Some(EntryObject(e).members[i].value)
    ensures var v := EntryObject(e);
            && Get(v, "timestamp_unix_micros") == Some(Num(Int(e.timestamp)))
            && Get(v, "method") == Some(Str(e.httpMethod))
            && Get(v, "path") == Some(Str(e.path))
            && Get(v, "status") == Some(Num(Int(e.status)))
            && Get(v, "duration_micros") == Some(Num(Int(e.duration)))
            && Get(v, "auth_attempted") == Some(Bool(e.authAttempted))
            && Get(v, "authenticated") == Some(Bool(e.authenticated))
  {
    var ms := EntryObject(e).members;
    assert ms[0].key == "timestamp_unix_micros" && ms[1].key == "method" && ms[2].key == "path" && ms[3].key == "status";
    assert ms[4].key == "duration_micros" && ms[5].key == "auth_attempted" && ms[6].key == "authenticated";
  }

  // ---- the files and the writer ----

  /** The live file and its sidecar, with the history of what was persisted and where each begins in it. */
  class AuditFiles {
    var live: Option<seq<Byte>>
    var sidecar: Option<seq<Byte>>
    ghost var history: seq<AuditEntry>
    ghost var sidecarFrom: nat
    ghost var liveFrom: nat

    constructor ()
      ensures live == None && sidecar == None && history == [] && Whole()
    {
      live, sidecar, history, sidecarFrom, liveFrom := None, None, [], 0, 0;
    }

    function Live(): seq<Byte>
      reads this
    {
      match live case None => [] case Some(bs) => bs
    }

    function Rotated(): seq<Byte>
      reads this
    {
      match sidecar case None => [] case Some(bs) => bs
    }

    /** Sidecar and live file hold, in whole lines, consecutive stretches of the history up to its end. */
    ghost predicate Whole()
      reads this
    {
      && sidecarFrom <= liveFrom <= |history|
      && Rotated() == Records(history[sidecarFrom..liveFrom])
      && Live() == Records(history[liveFrom..])
    }
  }

  /** How a write goes: all of it, or the first k bytes, after which the buffer keeps some bytes. */
  datatype WriteFault = WriteOk | WriteStops(k: nat, kept: seq<Byte>)

  /** How a rotation goes; the old sidecar may be gone even if the rename fails. */
  datatype RotateFault = RotateOk | RenameFails(sidecarGone: bool) | OpenFails

  datatype Outcome = Wrote | RotationFailed | WriteFailed | NoWriter

  /** max_bytes reached */
  predicate Full(maxBytes: Option<nat>, bytes: nat) {
    maxBytes.Some? && bytes >= maxBytes.value
  }

  /** The files after a line was added to them without failure. */
  predicate IsPersisted(maxBytes: Option<nat>, line: seq<Byte>, live: seq<Byte>, sidecar: Option<seq<Byte>>,
                        live': seq<Byte>, sidecar': Option<seq<Byte>>)
  {
    if Full(maxBytes, |live| + |line|) then sidecar' == Some(live + line) && live' == []
    else sidecar' == sidecar && live' == live + line
  }

  class Persistence {
    const files: AuditFiles
    const maxBytes: Option<nat>
    var writer: Option<seq<Byte>>
    var lastError: Option<Outcome>
    var bytesWritten: nat
    var rotationCount: nat
    var totalErrors: nat

    /** open_persistence: created if missing, and the length of what is there is taken over. */
    constructor (files: AuditFiles, maxBytes: Option<nat>)
      modifies files
      ensures this.files == files && this.maxBytes == maxBytes
      ensures files.live == Some(old(files.Live())) && files.sidecar == old(files.sidecar)
      ensures files.history == old(files.history)
      ensures old(files.Whole()) ==> files.Whole()
      ensures writer == Some([]) && bytesWritten == |files.Live()| && rotationCount == 0 && totalErrors == 0
    {
      this.files, this.maxBytes := files, maxBytes;
      writer := Some([]);
      lastError, bytesWritten, rotationCount, totalErrors := None, |files.Live()|, 0, 0;
      new;
      files.live := Some(files.Live());
    }

    /** No failure so far. */
    ghost predicate Clean()
      reads this, files
    {
      files.Whole() && writer == Some([]) && files.live.Some? && bytesWritten == |files.Live()|
    }

    /** rotate_persistence: close, drop the old sidecar, rename, reopen. */
    method Rotate(fault: RotateFault) returns (ok: bool)
      requires files.live.Some?
      modifies this, files
      ensures ok <==> fault.RotateOk?
      ensures files.history == old(files.history) && totalErrors == old(totalErrors) && lastError == old(lastError)
      ensures ok ==> files.sidecar == old(files.live) && files.live == Some([]) && writer == Some([])
                     && bytesWritten == 0 && rotationCount == old(rotationCount) + 1
      ensures !ok ==> writer == None && bytesWritten == old(bytesWritten) && rotationCount == old(rotationCount)
      ensures fault.RenameFails? ==> files.live == old(files.live) && (files.sidecar == old(files.sidecar) || files.sidecar == None)
      ensures fault.OpenFails? ==> files.sidecar == old(files.live) && files.live == None
      ensures old(files.Whole()) && ok ==>
                files.Whole() && files.sidecarFrom == old(files.liveFrom) && files.liveFrom == |files.history|
    {
      writer := None;
      if fault.RenameFails? {
        if fault.sidecarGone {
          files.sidecar := None;
        }
        return false;
      }
      files.sidecar := files.live;
      files.live := None;
      if fault.OpenFails? {
        return false;
      }
      assert files.history[|files.history|..] == [];
      if files.liveFrom <= |files.history| {
        assert files.history[files.liveFrom..|files.history|] == files.history[files.liveFrom..];
      }
      files.sidecarFrom, files.liveFrom := files.liveFrom, |files.history|;
      files.live := Some([]);
      writer := Some([]);
      bytesWritten := 0;
      rotationCount := rotationCount + 1;
      return true;
    }

    /** The write itself: the line goes through the buffer to the end of the live file. */
    method WriteLine(e: AuditEntry, fault: WriteFault) returns (ok: bool)
      requires writer.Some? && files.live.Some?
      modifies this`writer, this`bytesWritten, files`live, files`history
      ensures ok <==> fault.WriteOk?
      ensures writer.Some? && files.live.Some?
      ensures ok ==> files.live == Some(old(files.Live()) + (old(writer).value + Record(e))) && writer == Some([])
                     && bytesWritten == old(bytesWritten) + |Record(e)| && files.history == old(files.history) + [e]
      ensures !ok ==> old(files.Live()) <= files.Live() && bytesWritten == old(bytesWritten) && files.history == old(files.history)
      ensures ok && old(Clean()) ==> Clean()
    {
      var all := writer.value + Record(e);
      if fault.WriteStops? {
        files.live := Some(files.live.value + all[..if fault.k < |all| then fault.k else |all|]);
        writer := Some(fault.kept);
        return false;
      }
      ghost var wasClean := Clean();
      ghost var before := files.history;
      files.live := Some(files.live.value + all);
      writer := Some([]);
      bytesWritten := bytesWritten + |Record(e)|;
      files.history := files.history + [e];
      if wasClean {
        HistoryGrows(before, e, files.sidecarFrom, files.liveFrom);
        assert all == Record(e);
      }
      return true;
    }

    /** persist: write, then rotate when the threshold is reached; every failure is counted. */
    method Persist(e: AuditEntry, w: WriteFault, r: RotateFault) returns (outcome: Outcome)
      requires writer.Some? ==> files.live.Some?
      modifies this, files
      ensures writer.Some? ==> files.live.Some?
      ensures outcome.NoWriter? <==> old(writer).None?
      ensures outcome.NoWriter? ==> unchanged(files) && writer == None
      ensures outcome.WriteFailed? <==> old(writer).Some? && w.WriteStops?
      ensures outcome.WriteFailed? ==> writer.Some? && rotationCount == old(rotationCount)
      ensures outcome.RotationFailed? <==>
                old(writer).Some? && w.WriteOk? && Full(maxBytes, old(bytesWritten) + |Record(e)|) && !r.RotateOk?
      ensures outcome.RotationFailed? ==> writer == None && rotationCount == old(rotationCount)
      ensures totalErrors == old(totalErrors) + (if outcome.Wrote? then 0 else 1)
      ensures outcome.Wrote? ==> writer.Some? && files.history == old(files.history) + [e]
      ensures outcome.Wrote? && old(Clean()) ==>
                && Clean()
                && IsPersisted(maxBytes, Record(e), old(files.Live()), old(files.sidecar), files.Live(), files.sidecar)
                && rotationCount == old(rotationCount) + (if Full(maxBytes, old(|files.Live()|) + |Record(e)|) then 1 else 0)
      ensures outcome.Wrote? && old(Clean()) ==>
                var size := old(|files.Live()|) + |Record(e)|;
                if maxBytes.Some? && maxBytes.value <= size
                then files.Live() == [] && files.Rotated() == old(files.Live()) + Record(e)
                else files.Live() == old(files.Live()) + Record(e) && files.sidecar == old(files.sidecar)
      ensures lastError == if outcome.Wrote? then old(lastError) else Some(outcome)
      ensures outcome.Wrote? && old(Clean()) && maxBytes.Some? && maxBytes.value > 0 ==> |files.Live()| < maxBytes.value
      ensures outcome.Wrote? && old(Clean()) && rotationCount > old(rotationCount) && old(|files.Live()|) < maxBytes.value ==>
                maxBytes.value <= |files.Rotated()| < maxBytes.value + |Record(e)|
    {
      if writer.None? {
        totalErrors := totalErrors + 1;
        lastError := Some(NoWriter);
        return NoWriter;
      }
      ghost var clean := Clean();
      var ok := WriteLine(e, w);
      if !ok {
        totalErrors := totalErrors + 1;
        lastError := Some(WriteFailed);
        return WriteFailed;
      }
      if clean {
        Unit(Record(e));
      }
      if Full(maxBytes, bytesWritten) {
        ok := Rotate(r);
        if !ok {
          totalErrors := totalErrors + 1;
          lastError := Some(RotationFailed);
          return RotationFailed;
        }
      }
      return Wrote;
    }
  }

  lemma HistoryGrows(h: seq<AuditEntry>, e: AuditEntry, a: nat, b: nat)
    requires a <= b <= |h|
    ensures (h + [e])[a..b] == h[a..b]
    ensures Records((h + [e])[b..]) == Records(h[b..]) + Record(e)
  {
    assert (h + [e])[b..] == h[b..] + [e];
    RecordsAppend(h[b..], [e]);
    RecordsOne(e);
  }

  /** What sidecar and live file hold together reads back as the texts of the last entries persisted. */
  lemma WholeReadsBack(files: AuditFiles)
    requires files.Whole()
    ensures var both := files.Rotated() + files.Live();
            Decode(both).Some? && Lines(Decode(both).value) == Texts(files.history[files.sidecarFrom..])
  {
    var h := files.history;
    assert h[files.sidecarFrom..] == h[files.sidecarFrom..files.liveFrom] + h[files.liveFrom..];
    RecordsAppend(h[files.sidecarFrom..files.liveFrom], h[files.liveFrom..]);
    RecordsReadBack(h[files.sidecarFrom..]);
  }

  // ---- runs ----

  datatype LogOp = DoAppend(e: AuditEntry) | DoRestart(maxBytes: Option<nat>)

  function Appended(ops: seq<LogOp>): seq<AuditEntry> {
    if ops == [] then []
    else (match ops[0] case DoAppend(e) => [e] case DoRestart(_) => []) + Appended(ops[1..])
  }

  lemma {:induction false} AppendedSnoc(ops: seq<LogOp>, i: nat)
    requires i < |ops|
    ensures Appended(ops[..i + 1]) == Appended(ops[..i]) + (match ops[i] case DoAppend(e) => [e] case DoRestart(_) => [])
  {
    if i == 0 {
      assert ops[..1] == [ops[0]] && ops[..0] == [];
      assert [ops[0]][1..] == [];
    } else {
      AppendedSnoc(ops[1..], i - 1);
      assert ops[..i + 1][1..] == ops[1..][..i] && ops[..i][1..] == ops[1..][..i - 1];
    }
  }

  method Apply(log: Persistence, op: LogOp) returns (next: Persistence)
    requires log.Clean() && log.totalErrors == 0
    modifies log, log.files
    ensures (next == log || fresh(next)) && next.files == log.files && next.Clean() && next.totalErrors == 0
    ensures log.files.history == old(log.files.history) + (match op case DoAppend(e) => [e] case DoRestart(_) => [])
  {
    match op {
      case DoAppend(e) =>
        var outcome := log.Persist(e, WriteOk, RotateOk);
        next := log;
      case DoRestart(maxBytes) =>
        next := new Persistence(log.files, maxBytes);
    }
  }

  /**
   Appends, rotations and restarts on one path without I/O errors: nothing but
   whole records is ever dropped, from the oldest end, the recorded length is
   that of the live file, and no error is counted.
  */
  method ReplayLog(files: AuditFiles, maxBytes: Option<nat>, ops: seq<LogOp>) returns (log: Persistence)
    requires files.Whole()
    modifies files
    ensures fresh(log) && log.files == files && log.Clean() && log.totalErrors == 0
    ensures files.history == old(files.history) + Appended(ops)
    ensures Decode(files.Rotated() + files.Live()).Some?
    ensures Lines(Decode(files.Rotated() + files.Live()).value) == Texts(files.history[files.sidecarFrom..])
  {
    log := new Persistence(files, maxBytes);
    ghost var before := files.history;
    assert before == before + Appended(ops[..0]);
    var i := 0;
    while i < |ops|
      invariant i <= |ops|
      invariant fresh(log) && log.files == files && log.Clean() && log.totalErrors == 0
      invariant files.history == before + Appended(ops[..i])
    {
      AppendedSnoc(ops, i);
      Assoc(before, Appended(ops[..i]), match ops[i] case DoAppend(e) => [e] case DoRestart(_) => []);
      log := Apply(log, ops[i]);
      i := i + 1;
    }
    assert ops[..i] == ops;
    WholeReadsBack(files);
  }

  datatype Attempt = Attempt(e: AuditEntry, w: WriteFault, r: RotateFault)

  datatype OnDisk = OnDisk(live: Option<seq<Byte>>, sidecar: Option<seq<Byte>>)

  function Count(outcomes: seq<Outcome>, o: Outcome): nat {
    if outcomes == [] then 0 else (if outcomes[0] == o then 1 else 0) + Count(outcomes[1..], o)
  }

  lemma {:induction false} CountSnoc(outcomes: seq<Outcome>, x: Outcome, o: Outcome)
    ensures Count(outcomes + [x], o) == Count(outcomes, o) + (if x == o then 1 else 0)
  {
    if outcomes != [] {
      CountSnoc(outcomes[1..], x, o);
      assert (outcomes + [x])[1..] == outcomes[1..] + [x];
    }
  }

  /**
   Any appends with any write and rotation failures: the counter is the number of
   appends whose write did not succeed plus the number of failed rotations. At
   most one rotation ever fails, because after it every append finds no writer,
   is counted as an error and leaves the files alone; and only after it, if there
   was a writer at first.
  */
  method ReplayFaults(log: Persistence, attempts: seq<Attempt>) returns (outcomes: seq<Outcome>, disks: seq<OnDisk>)
    requires log.writer.Some? ==> log.files.live.Some?
    modifies log, log.files
    ensures |outcomes| == |disks| == |attempts|
    ensures log.totalErrors == old(log.totalErrors) +
            (Count(outcomes, WriteFailed) + Count(outcomes, NoWriter)) + Count(outcomes, RotationFailed)
    ensures Count(outcomes, RotationFailed) <= 1
    ensures forall i, j :: 0 <= i < j < |outcomes| && outcomes[i] == RotationFailed ==>
              outcomes[j] == NoWriter && disks[j] == disks[i]
    ensures old(log.writer.Some?) ==> forall j :: 0 <= j < |outcomes| ==>
              (outcomes[j] == NoWriter <==> exists i :: 0 <= i < j && outcomes[i] == RotationFailed)
  {
    outcomes, disks := [], [];
    var k := 0;
    while k < |attempts|
      invariant k == |outcomes| == |disks| <= |attempts|
      invariant log.writer.Some? ==> log.files.live.Some?
      invariant log.totalErrors == old(log.totalErrors) +
                (Count(outcomes, WriteFailed) + Count(outcomes, NoWriter)) + Count(outcomes, RotationFailed)
      invariant Count(outcomes, RotationFailed) <= (if log.writer.None? then 1 else 0)
      invariant forall i :: 0 <= i < k && outcomes[i] == RotationFailed ==>
                  log.writer.None? && disks[i] == OnDisk(log.files.live, log.files.sidecar)
      invariant forall i, j :: 0 <= i < j < k && outcomes[i] == RotationFailed ==>
                  outcomes[j] == NoWriter && disks[j] == disks[i]
      invariant old(log.writer.Some?) && log.writer.None? ==> exists i :: 0 <= i < k && outcomes[i] == RotationFailed
      invariant old(log.writer.Some?) ==> forall j :: 0 <= j < k && outcomes[j] == NoWriter ==>
                  exists i :: 0 <= i < j && outcomes[i] == RotationFailed
    {
      ghost var before := outcomes;
      var outcome := log.Persist(attempts[k].e, attempts[k].w, attempts[k].r);
      CountSnoc(outcomes, outcome, WriteFailed);
      CountSnoc(outcomes, outcome, NoWriter);
      CountSnoc(outcomes, outcome, RotationFailed);
      outcomes, disks := outcomes + [outcome], disks + [OnDisk(log.files.live, log.files.sidecar)];
      assert forall i :: 0 <= i < k ==> outcomes[i] == before[i];
      assert outcomes[k] == outcome;
      k := k + 1;
    }
  }
}
