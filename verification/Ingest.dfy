/**
 Concurrent uploads, prunes, crashes and restarts over one store, as interleaved
 steps: every file operation of bundle.rs, the index append and each removal of
 the sweep is a step of its own, a crash may come between any two or cut the
 append, and a prune may stop after any of its steps. The theorems are about
 every run from an empty store.
*/
module Ingest {
  import opened Wrappers
  import opened Utf8
  import Json
  import opened ContentAddress
  import opened IndexLog
  import opened Bundles
  import opened IndexStore
  import R = Retention
  import opened Sequences

  // ---- uploads ----

  datatype Upload = Upload(kind: BundleKind, raw: seq<Byte>, sidecar: Option<Sidecar>, entry: IndexEntry)

  /** The entry says the kind of the bundle. */
  predicate OfItsKind(u: Upload) { EntryKind(u.entry) == Some(u.kind) }

  /** What the handlers let through: the entry names the content address, and the sidecar is of its kind. */
  predicate IsUpload(h: Digester, u: Upload) {
    && AddressOf(h, u.raw) == Some(u.entry.sha256)
    && IsValidSha(u.entry.sha256)
    && u.kind in PRUNABLE_KINDS
    && (u.sidecar.Some? ==> u.sidecar.value.kind in RelatedKinds(u.kind))
  }

  /** Where the bundle, or the sidecar, of an upload goes, and its bytes. */
  function Target(u: Upload, side: bool): Loc {
    Loc(if side && u.sidecar.Some? then u.sidecar.value.kind else u.kind, u.entry.sha256)
  }

  function Payload(u: Upload, side: bool): seq<Byte> {
    if side && u.sidecar.Some? then u.sidecar.value.raw else u.raw
  }

  // ---- states ----

  /** Where an upload is: before an existence check, writing a temporary file, or before the index append. */
  datatype Pc = Look(side: bool) | Write(side: bool, tmp: TempName, done: nat) | AtIndex

  datatype Task = Task(u: Upload, pc: Pc)

  /**
   The disk, the memory of the process (with its copy of the index), and what
   happened: the uploads begun, the shas acknowledged, those of them that a prune
   removed since, and those whose files a prune began to remove without finishing.
  */
  datatype State = State(
    up: bool,
    pid: nat,
    counter: nat,
    files: Files,
    temps: map<TempName, seq<Byte>>,
    index: string,
    cached: seq<IndexEntry>,
    tasks: map<nat, Task>,
    started: set<Upload>,
    acked: set<string>,
    pruned: set<string>,
    doomed: set<string>)

  function Empty(pid: nat): State { State(true, pid, 0, map[], map[], "", [], map[], {}, {}, {}, {}) }

  datatype Event =
    | Begin(id: nat, u: Upload)
    | Advance(id: nat, n: nat)
    | Fail(id: nat, cleaned: bool, k: nat)
    | Crash(pid: nat, cut: Option<(nat, nat)>)
    | SweepOne(loc: Loc)
    | Open
    | Prune(keep: nat, steps: nat)

  function Indexed(c: TimeCodec, s: State): seq<IndexEntry> { LoadText(c, s.index).entries }

  function SetPc(s: State, id: nat, pc: Pc): State
    requires id in s.tasks
  {
    s.(tasks := s.tasks[id := Task(s.tasks[id].u, pc)])
  }

  function Drop(s: State, id: nat): State { s.(tasks := s.tasks - {id}) }

  /** What comes after the bundle, or the sidecar, is in place. */
  function After(u: Upload, side: bool): Pc {
    if !side && u.sidecar.Some? then Look(true) else AtIndex
  }

  function BeginStep(s: State, id: nat, u: Upload): State {
    s.(tasks := s.tasks[id := Task(u, Look(false))], started := s.started + {u})
  }

  /** The existence check; if it fails, a fresh temporary file is created. */
  function LookStep(s: State, id: nat, side: bool): State
    requires id in s.tasks
  {
    var u := s.tasks[id].u;
    var loc := Target(u, side);
    if loc in s.files then
      if side && s.files[loc] != Payload(u, side) then Drop(s, id) else SetPc(s, id, After(u, side))
    else
      var tmp := TempName(loc, s.pid, s.counter);
      SetPc(s, id, Write(side, tmp, 0)).(counter := s.counter + 1, temps := s.temps[tmp := []])
  }

  /** Some more bytes, or the rename once all are written. */
  function WriteStep(s: State, id: nat, side: bool, tmp: TempName, done: nat, n: nat): State
    requires id in s.tasks
  {
    var u := s.tasks[id].u;
    var bytes := Payload(u, side);
    if done < |bytes| then
      var more := if done + n < |bytes| then done + n else |bytes|;
      SetPc(s, id, Write(side, tmp, more)).(temps := s.temps[tmp := bytes[..more]])
    else if tmp in s.temps then
      SetPc(s, id, After(u, side)).(files := s.files[tmp.loc := s.temps[tmp]], temps := s.temps - {tmp})
    else Drop(s, id)
  }

  /** append_if_absent under the index lock, and the acknowledgement. */
  function IndexStep(c: TimeCodec, s: State, id: nat): State
    requires id in s.tasks
  {
    var e := s.tasks[id].u.entry;
    var done := Drop(s, id).(acked := s.acked + {e.sha256}, pruned := s.pruned - {e.sha256});
    if e.sha256 in Shas(s.cached) then done
    else done.(index := s.index + Written(c, e), cached := s.cached + [e])
  }

  /** A prefix of the line reaches the file. */
  function TornIndex(c: TimeCodec, s: State, id: nat, k: nat): string {
    if id in s.tasks && s.tasks[id].pc.AtIndex? && s.tasks[id].u.entry.sha256 !in Shas(s.cached)
    then
      var w := Written(c, s.tasks[id].u.entry);
      s.index + w[..if k < |w| then k else |w|]
    else s.index
  }

  /** A failed write: a temporary file may stay, a line may be cut; the changed index is read again. */
  function FailStep(c: TimeCodec, s: State, id: nat, cleaned: bool, k: nat): State
    requires id in s.tasks
  {
    match s.tasks[id].pc
    case Look(_) => Drop(s, id)
    case Write(_, tmp, _) => if cleaned then Drop(s, id).(temps := s.temps - {tmp}) else Drop(s, id)
    case AtIndex =>
      var index := TornIndex(c, s, id, k);
      Drop(s, id).(index := index, cached := if index == s.index then s.cached else LoadText(c, index).entries)
  }

  function CrashStep(c: TimeCodec, s: State, pid: nat, cut: Option<(nat, nat)>): State {
    s.(up := false, pid := pid, counter := 0, tasks := map[], cached := [],
       index := match cut case None => s.index case Some(p) => TornIndex(c, s, p.0, p.1))
  }

  /** Not in the index as it would be read now. */
  predicate IsOrphan(c: TimeCodec, s: State, loc: Loc) {
    loc.kind in SWEPT_KINDS && loc.sha !in Shas(Indexed(c, s))
  }

  function OpenStep(c: TimeCodec, s: State): State {
    s.(up := true, cached := Indexed(c, s), files := map loc | loc in s.files && !IsOrphan(c, s, loc) :: s.files[loc])
  }

  function ShasOf(plan: seq<Loc>): set<string> { set loc | loc in plan :: loc.sha }

  /** The files that a prune removes, one by one. */
  function PlanOf(s: State, keep: nat): seq<Loc> { R.Plan(R.Candidates(s.files, s.cached, keep)) }

  predicate Finishes(s: State, keep: nat, steps: nat) { steps > |PlanOf(s, keep)| }

  /** prune_retention at a quiet moment, stopped after that many steps, of which the last replaces the index. */
  function PruneStep(c: TimeCodec, s: State, keep: nat, steps: nat): State {
    var d := R.CrashedPrune(R.Disk(s.files, s.cached), keep, steps);
    if Finishes(s, keep, steps) then
      var gone := R.PrunedShas(R.Candidates(s.files, s.cached, keep));
      s.(files := d.files, index := Rewritten(c, d.entries), cached := d.entries,
         pruned := s.pruned + gone, doomed := s.doomed - gone)
    else s.(files := d.files, doomed := s.doomed + ShasOf(PlanOf(s, keep)[..steps]))
  }

  /** This open is the sweep of lib.rs. */
  lemma OpenIsSweep(c: TimeCodec, s: State)
    ensures R.Disk(OpenStep(c, s).files, Indexed(c, OpenStep(c, s))) == R.Swept(R.Disk(s.files, Indexed(c, s)))
  {
  }

  function AdvanceStep(c: TimeCodec, s: State, id: nat, n: nat): State
    requires id in s.tasks
  {
    match s.tasks[id].pc
    case Look(side) => LookStep(s, id, side)
    case Write(side, tmp, done) => WriteStep(s, id, side, tmp, done, n)
    case AtIndex => IndexStep(c, s, id)
  }

  /** One removal of the sweep. */
  function SweepStep(s: State, loc: Loc): State { s.(files := s.files - {loc}) }

  /** The events of one upload. */
  function UploadStep(c: TimeCodec, h: Digester, s: State, ev: Event): State {
    match ev
    case Begin(id, u) => if s.up && id !in s.tasks && IsUpload(h, u) && OfItsKind(u) then BeginStep(s, id, u) else s
    case Advance(id, n) => if s.up && id in s.tasks then AdvanceStep(c, s, id, n) else s
    case Fail(id, cleaned, k) => if s.up && id in s.tasks then FailStep(c, s, id, cleaned, k) else s
    case _ => s
  }

  /** The events of the whole store. */
  function StoreStep(c: TimeCodec, s: State, ev: Event): State {
    match ev
    case Crash(pid, cut) => CrashStep(c, s, pid, cut)
    case SweepOne(loc) => if !s.up && IsOrphan(c, s, loc) then SweepStep(s, loc) else s
    case Open => if s.up then s else OpenStep(c, s)
    case Prune(keep, steps) => if s.up && s.tasks == map[] then PruneStep(c, s, keep, steps) else s
    case _ => s
  }

  function Step(c: TimeCodec, h: Digester, s: State, ev: Event): State {
    if ev.Begin? || ev.Advance? || ev.Fail? then UploadStep(c, h, s, ev) else StoreStep(c, s, ev)
  }

  function Run(c: TimeCodec, h: Digester, s: State, events: seq<Event>): State
    decreases |events|
  {
    if events == [] then s else Run(c, h, Step(c, h, s, events[0]), events[1..])
  }

  // ---- what every step keeps ----

  /** These bytes are the complete bundle, or sidecar, of that upload. */
  predicate Wrote(u: Upload, loc: Loc, bytes: seq<Byte>) {
    || (loc == Target(u, false) && bytes == u.raw)
    || (u.sidecar.Some? && loc == Target(u, true) && bytes == u.sidecar.value.raw)
  }

  ghost predicate FileOk(h: Digester, s: State, loc: Loc) {
    loc in s.files ==> exists u :: u in s.started && IsUpload(h, u) && Wrote(u, loc, s.files[loc])
  }

  predicate InPlace(s: State, u: Upload, side: bool) { Target(u, side) in s.files }

  predicate Complete(s: State, u: Upload) { InPlace(s, u, false) && InPlace(s, u, true) }

  ghost predicate TempOk(s: State, u: Upload, side: bool, tmp: TempName, done: nat) {
    && (side ==> u.sidecar.Some?)
    && tmp.loc == Target(u, side) && tmp.pid == s.pid && tmp.n < s.counter
    && done <= |Payload(u, side)| && tmp in s.temps && s.temps[tmp] == Payload(u, side)[..done]
  }

  ghost predicate PcOk(s: State, t: Task) {
    match t.pc
    case Look(side) => side ==> t.u.sidecar.Some? && InPlace(s, t.u, false)
    case Write(side, tmp, done) => TempOk(s, t.u, side, tmp, done) && (side ==> InPlace(s, t.u, false))
    case AtIndex => Complete(s, t.u)
  }

  ghost predicate TaskOk(h: Digester, s: State, id: nat) {
    id in s.tasks ==> s.up && s.tasks[id].u in s.started && IsUpload(h, s.tasks[id].u) && PcOk(s, s.tasks[id])
  }

  /** No two live uploads write the same temporary file. */
  predicate Apart(s: State, i: nat, j: nat) {
    i in s.tasks && j in s.tasks && i != j && s.tasks[i].pc.Write? && s.tasks[j].pc.Write? ==>
      s.tasks[i].pc.tmp != s.tasks[j].pc.tmp
  }

  /** The upload an index entry came from, with everything it published still there. */
  ghost predicate Backed(s: State, e: IndexEntry) {
    exists u :: u in s.started && u.entry == e && Complete(s, u)
  }

  /** The same, except that an unfinished prune may have taken files. */
  ghost predicate Accounted(s: State, e: IndexEntry) {
    exists u :: u in s.started && u.entry == e && (Complete(s, u) || e.sha256 in s.doomed)
  }

  ghost predicate EntriesOk(s: State, entries: seq<IndexEntry>) {
    DistinctShas(entries) && forall e :: e in entries ==> Accounted(s, e)
  }

  ghost predicate StartedOk(h: Digester, started: set<Upload>) {
    && (forall u :: u in started ==> IsUpload(h, u))
    && (forall u {:trigger OfItsKind(u)} :: u in started ==> OfItsKind(u))
  }

  lemma OneMoreStarted(h: Digester, started: set<Upload>, u: Upload)
    requires StartedOk(h, started) && IsUpload(h, u) && OfItsKind(u)
    ensures StartedOk(h, started + {u})
  {
  }

  ghost predicate FilesOk(h: Digester, s: State) { forall loc :: FileOk(h, s, loc) }

  ghost predicate TasksOk(h: Digester, s: State) {
    (forall id :: TaskOk(h, s, id)) && forall i, j :: Apart(s, i, j)
  }

  ghost predicate IndexOk(c: TimeCodec, s: State) {
    && EntriesOk(s, Indexed(c, s))
    && (s.up ==> EntriesOk(s, s.cached) && forall e :: e in Indexed(c, s) ==> e in s.cached)
  }

  ghost predicate Inv(c: TimeCodec, h: Digester, s: State) {
    StartedOk(h, s.started) && FilesOk(h, s) && TasksOk(h, s) && IndexOk(c, s)
  }

  // frames: what other uploads and entries see of a step

  /** Published files stay, started uploads stay, and the process goes on. */
  ghost predicate Grows(s: State, t: State) {
    && t.up == s.up && t.pid == s.pid && s.counter <= t.counter
    && s.started <= t.started
    && (forall loc :: loc in s.files ==> loc in t.files)
  }

  /** An entry keeps its account when its files stay, or a prune of its sha is known. */
  lemma AccountStays(s: State, t: State, e: IndexEntry)
    requires Accounted(s, e) && s.started <= t.started
    requires e.sha256 in s.doomed ==> e.sha256 in t.doomed
    requires e.sha256 in t.doomed || forall loc :: loc in s.files && loc.sha == e.sha256 ==> loc in t.files
    ensures Accounted(t, e)
  {
    var u :| u in s.started && u.entry == e && (Complete(s, u) || e.sha256 in s.doomed);
    assert u in t.started && (Complete(t, u) || e.sha256 in t.doomed);
  }

  lemma EntriesStay(s: State, t: State, entries: seq<IndexEntry>)
    requires EntriesOk(s, entries) && s.started <= t.started && s.doomed <= t.doomed
    requires forall loc :: loc in s.files && loc.sha in Shas(entries) ==> loc in t.files || loc.sha in t.doomed
    ensures EntriesOk(t, entries)
  {
    forall e | e in entries ensures Accounted(t, e) {
      assert e.sha256 in Shas(entries);
      AccountStays(s, t, e);
    }
  }

  /** Another upload is not affected when its temporary file is not touched. */
  lemma TaskStays(h: Digester, s: State, t: State, id: nat)
    requires TaskOk(h, s, id) && Grows(s, t) && id in s.tasks && id in t.tasks && t.tasks[id] == s.tasks[id]
    requires s.tasks[id].pc.Write? ==>
               var tmp := s.tasks[id].pc.tmp; tmp in s.temps ==> tmp in t.temps && t.temps[tmp] == s.temps[tmp]
    ensures TaskOk(h, t, id)
  {
  }

  lemma IndexStays(c: TimeCodec, s: State, t: State)
    requires IndexOk(c, s) && Grows(s, t)
    requires t.index == s.index && t.cached == s.cached && t.doomed == s.doomed
    ensures IndexOk(c, t)
  {
    EntriesStay(s, t, Indexed(c, s));
    if t.up {
      EntriesStay(s, t, s.cached);
    }
  }

  lemma FilesStay(h: Digester, s: State, t: State)
    requires FilesOk(h, s) && s.started <= t.started
    requires forall loc :: loc in t.files ==> loc in s.files && t.files[loc] == s.files[loc]
    ensures FilesOk(h, t)
  {
    forall loc ensures FileOk(h, t, loc) {
      if loc in t.files {
        assert FileOk(h, s, loc);
        var u :| u in s.started && IsUpload(h, u) && Wrote(u, loc, s.files[loc]);
        assert u in t.started;
      }
    }
  }

  // one lemma per kind of step

  lemma BegunTasks(h: Digester, s: State, id: nat, u: Upload)
    requires TasksOk(h, s) && s.up && id !in s.tasks && IsUpload(h, u)
    ensures TasksOk(h, BeginStep(s, id, u))
  {
    var t := BeginStep(s, id, u);
    forall i ensures TaskOk(h, t, i) {
      if i in s.tasks {
        TaskStays(h, s, t, i);
      }
    }
    forall i, j ensures Apart(t, i, j) {
      assert Apart(s, i, j);
    }
  }

  lemma BeginKeeps(c: TimeCodec, h: Digester, s: State, id: nat, u: Upload)
    requires Inv(c, h, s) && s.up && id !in s.tasks && IsUpload(h, u) && OfItsKind(u)
    ensures Inv(c, h, BeginStep(s, id, u))
  {
    var t := BeginStep(s, id, u);
    OneMoreStarted(h, s.started, u);
    BegunTasks(h, s, id, u);
    FilesStay(h, s, t);
    IndexStays(c, s, t);
  }

  lemma DropKeeps(c: TimeCodec, h: Digester, s: State, id: nat, temps: map<TempName, seq<Byte>>)
    requires Inv(c, h, s) && id in s.tasks
    requires temps == s.temps || (s.tasks[id].pc.Write? && temps == s.temps - {s.tasks[id].pc.tmp})
    ensures Inv(c, h, Drop(s, id).(temps := temps))
  {
    var t := Drop(s, id).(temps := temps);
    FilesStay(h, s, t);
    IndexStays(c, s, t);
    forall i ensures TaskOk(h, t, i) {
      if i in t.tasks {
        assert Apart(s, i, id);
        TaskStays(h, s, t, i);
      }
    }
    forall i, j ensures Apart(t, i, j) {
      assert Apart(s, i, j);
    }
  }

  /** A step of one upload that leaves the files alone and touches no temporary file but its own. */
  lemma MoveKeeps(c: TimeCodec, h: Digester, s: State, id: nat, t: State)
    requires Inv(c, h, s) && id in s.tasks && Grows(s, t)
    requires t.files == s.files && t.index == s.index && t.cached == s.cached
    requires t.doomed == s.doomed && t.started == s.started
    requires id in t.tasks && t.tasks == s.tasks[id := t.tasks[id]] && t.tasks[id].u == s.tasks[id].u
    requires PcOk(t, t.tasks[id])
    requires forall i :: i != id && i in s.tasks && s.tasks[i].pc.Write? ==>
               var tmp := s.tasks[i].pc.tmp; tmp in s.temps ==> tmp in t.temps && t.temps[tmp] == s.temps[tmp]
    requires forall i :: i != id ==> Apart(t, id, i) && Apart(t, i, id)
    ensures Inv(c, h, t)
  {
    FilesStay(h, s, t);
    IndexStays(c, s, t);
    assert TaskOk(h, s, id);
    forall i ensures TaskOk(h, t, i) {
      if i != id && i in s.tasks {
        TaskStays(h, s, t, i);
      }
    }
    forall i, j ensures Apart(t, i, j) {
      assert Apart(s, i, j);
    }
  }

  lemma LookKeeps(c: TimeCodec, h: Digester, s: State, id: nat, side: bool)
    requires Inv(c, h, s) && id in s.tasks && s.tasks[id].pc == Look(side)
    ensures Inv(c, h, LookStep(s, id, side))
  {
    var u := s.tasks[id].u;
    var loc := Target(u, side);
    var t := LookStep(s, id, side);
    assert TaskOk(h, s, id);
    if loc in s.files {
      if side && s.files[loc] != Payload(u, side) {
        DropKeeps(c, h, s, id, s.temps);
        assert t == Drop(s, id).(temps := s.temps);
      } else {
        AfterOk(s, t, u, side);
        MoveKeeps(c, h, s, id, t);
      }
    } else {
      var tmp := TempName(loc, s.pid, s.counter);
      assert Payload(u, side)[..0] == [];
      forall i | i in s.tasks && s.tasks[i].pc.Write? ensures s.tasks[i].pc.tmp != tmp {
        assert TaskOk(h, s, i);
      }
      MoveKeeps(c, h, s, id, t);
    }
  }

  /** With a target in place, the next position is right. */
  lemma AfterOk(s: State, t: State, u: Upload, side: bool)
    requires side ==> u.sidecar.Some? && InPlace(s, u, false)
    requires Target(u, side) in t.files && forall loc :: loc in s.files ==> loc in t.files
    ensures PcOk(t, Task(u, After(u, side)))
  {
  }

  lemma WriteMoreKeeps(c: TimeCodec, h: Digester, s: State, id: nat, side: bool, tmp: TempName, done: nat, n: nat)
    requires Inv(c, h, s) && id in s.tasks && s.tasks[id].pc == Write(side, tmp, done)
    requires done < |Payload(s.tasks[id].u, side)|
    ensures Inv(c, h, WriteStep(s, id, side, tmp, done, n))
  {
    var t := WriteStep(s, id, side, tmp, done, n);
    assert TaskOk(h, s, id);
    forall i | i in s.tasks && i != id && s.tasks[i].pc.Write? ensures s.tasks[i].pc.tmp != tmp {
      assert Apart(s, i, id);
    }
    MoveKeeps(c, h, s, id, t);
  }

  /** The rename publishes the complete bytes of this upload. */
  lemma PublishKeeps(h: Digester, s: State, t: State, u: Upload, side: bool)
    requires FilesOk(h, s) && u in s.started && t.started == s.started && IsUpload(h, u) && (side ==> u.sidecar.Some?)
    requires t.files == s.files[Target(u, side) := Payload(u, side)]
    ensures FilesOk(h, t)
  {
    forall loc ensures FileOk(h, t, loc) {
      assert FileOk(h, s, loc);
      if loc == Target(u, side) {
        assert u in t.started && Wrote(u, loc, t.files[loc]);
      } else if loc in t.files {
        var v :| v in s.started && IsUpload(h, v) && Wrote(v, loc, s.files[loc]);
        assert v in t.started;
      }
    }
  }

  lemma RenameKeeps(c: TimeCodec, h: Digester, s: State, id: nat, side: bool, tmp: TempName, done: nat, n: nat)
    requires Inv(c, h, s) && id in s.tasks && s.tasks[id].pc == Write(side, tmp, done)
    requires done >= |Payload(s.tasks[id].u, side)|
    ensures Inv(c, h, WriteStep(s, id, side, tmp, done, n))
  {
    var u := s.tasks[id].u;
    var t := WriteStep(s, id, side, tmp, done, n);
    assert TaskOk(h, s, id);
    assert s.temps[tmp] == Payload(u, side)[..done] == Payload(u, side);
    PublishKeeps(h, s, t, u, side);
    IndexStays(c, s, t);
    AfterOk(s, t, u, side);
    forall i ensures TaskOk(h, t, i) {
      if i != id && i in s.tasks {
        assert Apart(s, i, id);
        TaskStays(h, s, t, i);
      }
    }
    forall i, j ensures Apart(t, i, j) {
      assert Apart(s, i, j);
    }
  }

  // the index

  lemma PrefixDistinct(a: seq<IndexEntry>, b: seq<IndexEntry>)
    requires a <= b && DistinctShas(b)
    ensures DistinctShas(a) && Shas(a) <= Shas(b)
    ensures forall e :: e in a ==> e in b
  {
  }

  lemma PartOfEntries(s: State, part: seq<IndexEntry>, entries: seq<IndexEntry>)
    requires EntriesOk(s, entries) && part <= entries
    ensures EntriesOk(s, part) && forall e :: e in part ==> e in entries
  {
    PrefixDistinct(part, entries);
  }

  lemma OneMoreEntry(s: State, entries: seq<IndexEntry>, e: IndexEntry)
    requires EntriesOk(s, entries) && Accounted(s, e) && e.sha256 !in Shas(entries)
    ensures EntriesOk(s, entries + [e])
  {
    AppendedShas(entries, e);
  }

  /** Whatever part of a line reaches the index, what it reads as is old entries, or those and the new one. */
  lemma LineKeeps(c: TimeCodec, s: State, e: IndexEntry, k: nat)
    requires c.Valid() && IsValidSha(e.sha256) && IndexOk(c, s) && s.up
    requires e.sha256 !in Shas(s.cached) && Accounted(s, e) && k <= |Written(c, e)|
    ensures EntriesOk(s, LoadText(c, s.index + Written(c, e)[..k]).entries)
    ensures forall x :: x in LoadText(c, s.index + Written(c, e)[..k]).entries ==> x in Indexed(c, s) || x == e
  {
    if k == 0 {
      assert s.index + Written(c, e)[..0] == s.index;
    } else {
      AnyWriteLoads(c, s.index, e, k);
      HeadLoadsPrefix(c, s.index);
      PartOfEntries(s, LoadText(c, Head(s.index)).entries, Indexed(c, s));
      OneMoreEntry(s, Indexed(c, s), e);
    }
  }

  lemma WholeLineKeeps(c: TimeCodec, s: State, e: IndexEntry, t: State)
    requires c.Valid() && IsValidSha(e.sha256) && IndexOk(c, s) && s.up
    requires e.sha256 !in Shas(s.cached) && Accounted(s, e)
    requires t.index == s.index + Written(c, e) && t.cached == s.cached + [e]
    requires t.files == s.files && t.started == s.started && t.doomed == s.doomed
    ensures IndexOk(c, t)
  {
    assert Written(c, e)[..|Written(c, e)|] == Written(c, e);
    LineKeeps(c, s, e, |Written(c, e)|);
    OneMoreEntry(s, s.cached, e);
    EntriesStay(s, t, Indexed(c, t));
    EntriesStay(s, t, t.cached);
  }

  lemma AtIndexAccounted(h: Digester, s: State, id: nat)
    requires TaskOk(h, s, id) && id in s.tasks && s.tasks[id].pc.AtIndex?
    ensures Accounted(s, s.tasks[id].u.entry) && IsValidSha(s.tasks[id].u.entry.sha256)
  {
    assert s.tasks[id].u in s.started && Complete(s, s.tasks[id].u);
  }

  lemma TornKeeps(c: TimeCodec, h: Digester, s: State, id: nat, k: nat)
    requires c.Valid() && Inv(c, h, s)
    ensures EntriesOk(s, LoadText(c, TornIndex(c, s, id, k)).entries)
  {
    if id in s.tasks && TornIndex(c, s, id, k) != s.index {
      assert TaskOk(h, s, id);
      AtIndexAccounted(h, s, id);
      var w := Written(c, s.tasks[id].u.entry);
      LineKeeps(c, s, s.tasks[id].u.entry, if k < |w| then k else |w|);
    }
  }

  lemma TornStays(c: TimeCodec, h: Digester, s: State, id: nat, k: nat, t: State)
    requires c.Valid() && Inv(c, h, s)
    requires t.index == TornIndex(c, s, id, k) && t.files == s.files && t.started == s.started && t.doomed == s.doomed
    requires t.up ==> s.up && t.cached == if t.index == s.index then s.cached else Indexed(c, t)
    ensures IndexOk(c, t)
  {
    TornKeeps(c, h, s, id, k);
    EntriesStay(s, t, Indexed(c, t));
    if t.up && t.index == s.index {
      EntriesStay(s, t, s.cached);
    }
  }

  lemma IndexStepKeeps(c: TimeCodec, h: Digester, s: State, id: nat)
    requires c.Valid() && Inv(c, h, s) && s.up && id in s.tasks && s.tasks[id].pc.AtIndex?
    ensures Inv(c, h, IndexStep(c, s, id))
  {
    var t, e := IndexStep(c, s, id), s.tasks[id].u.entry;
    DropKeeps(c, h, s, id, s.temps);
    var d := Drop(s, id).(temps := s.temps);
    assert TaskOk(h, s, id);
    if e.sha256 in Shas(s.cached) {
      IndexStays(c, s, t);
    } else {
      AtIndexAccounted(h, s, id);
      WholeLineKeeps(c, s, e, t);
    }
    TasksLikeDropped(h, d, t);
    FilesStay(h, d, t);
  }

  lemma TasksLikeDropped(h: Digester, d: State, t: State)
    requires TasksOk(h, d) && t.tasks == d.tasks && t.files == d.files && t.temps == d.temps && Grows(d, t)
    ensures TasksOk(h, t)
  {
    forall i ensures TaskOk(h, t, i) {
      assert TaskOk(h, d, i);
    }
    forall i, j ensures Apart(t, i, j) {
      assert Apart(d, i, j);
    }
  }

  lemma FailKeeps(c: TimeCodec, h: Digester, s: State, id: nat, cleaned: bool, k: nat)
    requires c.Valid() && Inv(c, h, s) && s.up && id in s.tasks
    ensures Inv(c, h, FailStep(c, s, id, cleaned, k))
  {
    var t := FailStep(c, s, id, cleaned, k);
    match s.tasks[id].pc {
      case Look(_) =>
        DropKeeps(c, h, s, id, s.temps);
        assert t == Drop(s, id).(temps := s.temps);
      case Write(_, tmp, _) =>
        var temps := if cleaned then s.temps - {tmp} else s.temps;
        DropKeeps(c, h, s, id, temps);
        assert t == Drop(s, id).(temps := temps);
      case AtIndex =>
        var d := Drop(s, id).(temps := s.temps);
        DropKeeps(c, h, s, id, s.temps);
        TornStays(c, h, s, id, k, t);
        TasksLikeDropped(h, d, t);
        FilesStay(h, d, t);
    }
  }

  lemma NoTasks(h: Digester, t: State)
    requires t.tasks == map[]
    ensures TasksOk(h, t)
  {
  }

  lemma CrashKeeps(c: TimeCodec, h: Digester, s: State, pid: nat, cut: Option<(nat, nat)>)
    requires c.Valid() && Inv(c, h, s)
    ensures Inv(c, h, CrashStep(c, s, pid, cut))
  {
    var t := CrashStep(c, s, pid, cut);
    FilesStay(h, s, t);
    NoTasks(h, t);
    match cut {
      case None =>
        EntriesStay(s, t, Indexed(c, s));
      case Some(p) =>
        TornStays(c, h, s, p.0, p.1, t);
    }
  }

  lemma DownHasNoTasks(h: Digester, s: State)
    requires TasksOk(h, s) && !s.up
    ensures s.tasks == map[]
  {
    forall id ensures id !in s.tasks {
      assert TaskOk(h, s, id);
    }
  }

  /** Removing orphans takes no file from any entry. */
  lemma SweepKeeps(c: TimeCodec, h: Digester, s: State, t: State)
    requires Inv(c, h, s) && !s.up
    requires t.index == s.index && t.started == s.started && t.tasks == s.tasks && t.doomed == s.doomed
    requires t.up ==> t.cached == Indexed(c, t)
    requires forall loc :: loc in t.files ==> loc in s.files && t.files[loc] == s.files[loc]
    requires forall loc :: loc in s.files && !IsOrphan(c, s, loc) ==> loc in t.files
    ensures Inv(c, h, t)
  {
    DownHasNoTasks(h, s);
    NoTasks(h, t);
    FilesStay(h, s, t);
    EntriesStay(s, t, Indexed(c, s));
  }

  // prunes

  lemma AccountedIsValid(h: Digester, s: State, e: IndexEntry)
    requires StartedOk(h, s.started) && Accounted(s, e)
    ensures IsValidSha(e.sha256)
  {
    var u :| u in s.started && u.entry == e && (Complete(s, u) || e.sha256 in s.doomed);
  }

  lemma AllValid(h: Digester, s: State)
    requires StartedOk(h, s.started) && EntriesOk(s, s.cached)
    ensures forall i :: 0 <= i < |s.cached| ==> IsValidSha(s.cached[i].sha256)
  {
    forall i | 0 <= i < |s.cached| ensures IsValidSha(s.cached[i].sha256) {
      AccountedIsValid(h, s, s.cached[i]);
    }
  }

  /** A stopped prune takes files of its plan only. */
  lemma StoppedPruneFiles(c: TimeCodec, s: State, keep: nat, steps: nat)
    requires !Finishes(s, keep, steps)
    ensures var t := PruneStep(c, s, keep, steps);
            && t == s.(files := t.files, doomed := t.doomed) && s.doomed <= t.doomed
            && (forall loc :: loc in t.files ==> loc in s.files && t.files[loc] == s.files[loc])
            && forall loc :: loc in s.files ==> loc in t.files || loc.sha in t.doomed
  {
    var t := PruneStep(c, s, keep, steps);
    R.RemovedFiles(s.files, PlanOf(s, keep)[..steps]);
    forall loc | loc in s.files && loc !in t.files ensures loc.sha in t.doomed {
      assert loc in PlanOf(s, keep)[..steps];
    }
  }

  lemma FewerFilesKeep(c: TimeCodec, h: Digester, s: State, t: State)
    requires Inv(c, h, s) && s.up && s.tasks == map[]
    requires t == s.(files := t.files, doomed := t.doomed) && s.doomed <= t.doomed
    requires forall loc :: loc in t.files ==> loc in s.files && t.files[loc] == s.files[loc]
    requires forall loc :: loc in s.files ==> loc in t.files || loc.sha in t.doomed
    ensures Inv(c, h, t)
  {
    NoTasks(h, t);
    FilesStay(h, s, t);
    EntriesStay(s, t, Indexed(c, s));
    EntriesStay(s, t, s.cached);
  }

  lemma StoppedPruneKeeps(c: TimeCodec, h: Digester, s: State, keep: nat, steps: nat)
    requires Inv(c, h, s) && s.up && s.tasks == map[] && !Finishes(s, keep, steps)
    ensures Inv(c, h, PruneStep(c, s, keep, steps))
  {
    StoppedPruneFiles(c, s, keep, steps);
    FewerFilesKeep(c, h, s, PruneStep(c, s, keep, steps));
  }

  lemma TargetedIsPruned(files: Files, entries: seq<IndexEntry>, keep: nat, loc: Loc)
    requires R.Targeted(entries, keep, loc)
    ensures loc.sha in R.PrunedShas(R.Candidates(files, entries, keep))
  {
    var k, x :| k in PRUNABLE_KINDS && x in R.Excess(entries, k, keep) && R.BelongsTo(loc, k, x.sha256);
    R.PrunedShaMember(files, entries, keep, loc.sha);
  }

  /** What a finished prune keeps in the index it keeps the files of. */
  lemma KeptFilesStay(files: Files, entries: seq<IndexEntry>, keep: nat, e: IndexEntry)
    requires DistinctShas(entries) && e in R.Pruned(R.Disk(files, entries), keep).entries
    ensures e in entries
    ensures forall loc :: loc in files && loc.sha == e.sha256 ==> loc in R.Pruned(R.Disk(files, entries), keep).files
  {
    var d := R.Disk(files, entries);
    FilterMember(entries, R.NotIn(R.PrunedShas(R.Candidates(files, entries, keep))), e);
    forall loc | loc in files && loc.sha == e.sha256 ensures loc in R.Pruned(d, keep).files {
      R.PruneRemovesTargeted(d, keep, loc);
      if R.Targeted(entries, keep, loc) {
        TargetedIsPruned(files, entries, keep, loc);
      }
    }
  }

  lemma KeptEntryStays(s: State, t: State, keep: nat, e: IndexEntry)
    requires EntriesOk(s, s.cached) && t.started == s.started
    requires R.Disk(t.files, t.cached) == R.Pruned(R.Disk(s.files, s.cached), keep)
    requires t.doomed == s.doomed - R.PrunedShas(R.Candidates(s.files, s.cached, keep))
    requires e in t.cached
    ensures Accounted(t, e)
  {
    KeptFilesStay(s.files, s.cached, keep, e);
    FilterMember(s.cached, R.NotIn(R.PrunedShas(R.Candidates(s.files, s.cached, keep))), e);
    AccountStays(s, t, e);
  }

  lemma FinishedPruneLeaves(c: TimeCodec, s: State, keep: nat, steps: nat)
    requires EntriesOk(s, s.cached) && Finishes(s, keep, steps)
    ensures var t := PruneStep(c, s, keep, steps);
            && t == s.(files := t.files, cached := t.cached, index := t.index, pruned := t.pruned, doomed := t.doomed)
            && t.index == Rewritten(c, t.cached) && EntriesOk(t, t.cached)
            && forall loc :: loc in t.files ==> loc in s.files && t.files[loc] == s.files[loc]
  {
    var t := PruneStep(c, s, keep, steps);
    R.RemovedFiles(s.files, PlanOf(s, keep));
    forall e | e in t.cached ensures Accounted(t, e) {
      KeptEntryStays(s, t, keep, e);
    }
    R.DistinctAfterFilter(s.cached, R.NotIn(R.PrunedShas(R.Candidates(s.files, s.cached, keep))));
  }

  lemma RewrittenIndexKeeps(c: TimeCodec, h: Digester, s: State, t: State)
    requires c.Valid() && Inv(c, h, s) && s.up && s.tasks == map[]
    requires t == s.(files := t.files, cached := t.cached, index := t.index, pruned := t.pruned, doomed := t.doomed)
    requires t.index == Rewritten(c, t.cached) && EntriesOk(t, t.cached)
    requires forall loc :: loc in t.files ==> loc in s.files && t.files[loc] == s.files[loc]
    ensures Inv(c, h, t) && Indexed(c, t) == t.cached
  {
    NoTasks(h, t);
    FilesStay(h, s, t);
    AllValid(h, t);
    RewrittenText(c, t.cached);
  }

  lemma FinishedPruneKeeps(c: TimeCodec, h: Digester, s: State, keep: nat, steps: nat)
    requires c.Valid() && Inv(c, h, s) && s.up && s.tasks == map[] && Finishes(s, keep, steps)
    ensures Inv(c, h, PruneStep(c, s, keep, steps))
    ensures Indexed(c, PruneStep(c, s, keep, steps)) == PruneStep(c, s, keep, steps).cached
  {
    FinishedPruneLeaves(c, s, keep, steps);
    RewrittenIndexKeeps(c, h, s, PruneStep(c, s, keep, steps));
  }

  lemma AdvanceKeeps(c: TimeCodec, h: Digester, s: State, id: nat, n: nat)
    requires c.Valid() && Inv(c, h, s) && s.up && id in s.tasks
    ensures Inv(c, h, AdvanceStep(c, s, id, n))
  {
    match s.tasks[id].pc {
      case Look(side) =>
        LookKeeps(c, h, s, id, side);
      case Write(side, tmp, done) =>
        if done < |Payload(s.tasks[id].u, side)| {
          WriteMoreKeeps(c, h, s, id, side, tmp, done, n);
        } else {
          RenameKeeps(c, h, s, id, side, tmp, done, n);
        }
      case AtIndex =>
        IndexStepKeeps(c, h, s, id);
    }
  }

  lemma PruneKeeps(c: TimeCodec, h: Digester, s: State, keep: nat, steps: nat)
    requires c.Valid() && Inv(c, h, s) && s.up && s.tasks == map[]
    ensures Inv(c, h, PruneStep(c, s, keep, steps))
  {
    if Finishes(s, keep, steps) {
      FinishedPruneKeeps(c, h, s, keep, steps);
    } else {
      StoppedPruneKeeps(c, h, s, keep, steps);
    }
  }

  lemma UploadStepKeeps(c: TimeCodec, h: Digester, s: State, ev: Event)
    requires c.Valid() && Inv(c, h, s)
    ensures Inv(c, h, UploadStep(c, h, s, ev))
  {
    match ev {
      case Begin(id, u) =>
        if s.up && id !in s.tasks && IsUpload(h, u) && OfItsKind(u) {
          BeginKeeps(c, h, s, id, u);
        }
      case Advance(id, n) =>
        if s.up && id in s.tasks {
          AdvanceKeeps(c, h, s, id, n);
        }
      case Fail(id, cleaned, k) =>
        if s.up && id in s.tasks {
          FailKeeps(c, h, s, id, cleaned, k);
        }
      case _ =>
    }
  }

  lemma StoreStepKeeps(c: TimeCodec, h: Digester, s: State, ev: Event)
    requires c.Valid() && Inv(c, h, s)
    ensures Inv(c, h, StoreStep(c, s, ev))
  {
    match ev {
      case Crash(pid, cut) =>
        CrashKeeps(c, h, s, pid, cut);
      case SweepOne(loc) =>
        if !s.up && IsOrphan(c, s, loc) {
          SweepKeeps(c, h, s, SweepStep(s, loc));
        }
      case Open =>
        if !s.up {
          SweepKeeps(c, h, s, OpenStep(c, s));
        }
      case Prune(keep, steps) =>
        if s.up && s.tasks == map[] {
          PruneKeeps(c, h, s, keep, steps);
        }
      case _ =>
    }
  }

  lemma StepKeeps(c: TimeCodec, h: Digester, s: State, ev: Event)
    requires c.Valid() && Inv(c, h, s)
    ensures Inv(c, h, Step(c, h, s, ev))
  {
    UploadStepKeeps(c, h, s, ev);
    StoreStepKeeps(c, h, s, ev);
  }

  lemma EmptyOk(c: TimeCodec, h: Digester, pid: nat)
    ensures Inv(c, h, Empty(pid))
  {
    assert Lines("") == [];
  }

  lemma {:induction false} RunKeeps(c: TimeCodec, h: Digester, s: State, events: seq<Event>)
    requires c.Valid() && Inv(c, h, s)
    ensures Inv(c, h, Run(c, h, s, events))
    decreases |events|
  {
    if events != [] {
      StepKeeps(c, h, s, events[0]);
      RunKeeps(c, h, Step(c, h, s, events[0]), events[1..]);
    }
  }

  // ---- every run from an empty store ----

  lemma KindsApart(k: BundleKind, r: BundleKind)
    requires k in PRUNABLE_KINDS && r in RelatedKinds(k)
    ensures r !in PRUNABLE_KINDS
  {
  }

  /**
   Whatever uploads ran, failed or were cut off by crashes: a file at a bundle's
   content address holds the complete bytes of one of the uploads, whose
   canonical digest is that address; a sidecar holds the complete bytes of one
   upload's sidecar. No live uploads ever share a temporary file.
  */
  lemma PublishedIsComplete(c: TimeCodec, h: Digester, pid: nat, events: seq<Event>, loc: Loc)
    requires c.Valid()
    ensures var s := Run(c, h, Empty(pid), events);
            && (loc in s.files ==> exists u :: u in s.started && Wrote(u, loc, s.files[loc]))
            && (loc in s.files && loc.kind in PRUNABLE_KINDS ==> AddressOf(h, s.files[loc]) == Some(loc.sha))
            && forall i, j :: Apart(s, i, j)
  {
    var s := Run(c, h, Empty(pid), events);
    EmptyOk(c, h, pid);
    RunKeeps(c, h, Empty(pid), events);
    assert FileOk(h, s, loc);
    if loc in s.files {
      var u :| u in s.started && IsUpload(h, u) && Wrote(u, loc, s.files[loc]);
      if loc.kind in PRUNABLE_KINDS && u.sidecar.Some? {
        KindsApart(u.kind, u.sidecar.value.kind);
      }
    }
  }

  /**
   Ingest survives crashes whole: after any run, and an open that may itself have
   been interrupted before, every file of a swept kind has its sha in the index,
   and every entry of the index has its bundle, and its sidecar if it was signed,
   unless a prune of its sha was begun and not finished. No sha is in the index
   twice. This needs no assumption on torn lines.
  */
  lemma CrashedIngestIsWhole(c: TimeCodec, h: Digester, pid: nat, events: seq<Event>)
    requires c.Valid()
    ensures var s := Run(c, h, Empty(pid), events);
            var t := OpenStep(c, s);
            && (forall e :: e in Indexed(c, s) ==> Backed(s, e) || e.sha256 in s.doomed)
            && DistinctShas(Indexed(c, s))
            && (!s.up ==> (forall e :: e in Indexed(c, t) ==> Backed(t, e) || e.sha256 in t.doomed) &&
                          forall loc :: loc in t.files && loc.kind in SWEPT_KINDS ==> loc.sha in Shas(Indexed(c, t)))
  {
    var s := Run(c, h, Empty(pid), events);
    EmptyOk(c, h, pid);
    RunKeeps(c, h, Empty(pid), events);
    EachBacked(s, Indexed(c, s));
    if !s.up {
      SweepKeeps(c, h, s, OpenStep(c, s));
      EachBacked(OpenStep(c, s), Indexed(c, s));
    }
  }

  lemma EachBacked(s: State, entries: seq<IndexEntry>)
    requires EntriesOk(s, entries)
    ensures forall e :: e in entries ==> Backed(s, e) || e.sha256 in s.doomed
  {
    forall e | e in entries ensures Backed(s, e) || e.sha256 in s.doomed {
      var u :| u in s.started && u.entry == e && (Complete(s, u) || e.sha256 in s.doomed);
    }
  }

  /** Every prune of the run removes nothing or goes to its end. */
  ghost predicate PrunesFinish(c: TimeCodec, h: Digester, s: State, events: seq<Event>)
    decreases |events|
  {
    events == [] ||
    ((events[0].Prune? && s.up && s.tasks == map[] ==>
        events[0].steps == 0 || Finishes(s, events[0].keep, events[0].steps)) &&
     PrunesFinish(c, h, Step(c, h, s, events[0]), events[1..]))
  }

  lemma {:induction false} NoneDoomed(c: TimeCodec, h: Digester, s: State, events: seq<Event>)
    requires s.doomed == {} && PrunesFinish(c, h, s, events)
    ensures Run(c, h, s, events).doomed == {}
    decreases |events|
  {
    if events != [] {
      NoneDoomedByStep(c, h, s, events[0]);
      NoneDoomed(c, h, Step(c, h, s, events[0]), events[1..]);
    }
  }

  lemma NoneDoomedByStep(c: TimeCodec, h: Digester, s: State, ev: Event)
    requires s.doomed == {}
    requires ev.Prune? && s.up && s.tasks == map[] ==> ev.steps == 0 || Finishes(s, ev.keep, ev.steps)
    ensures Step(c, h, s, ev).doomed == {}
  {
    if ev.Prune? && s.up && s.tasks == map[] {
      NoneDoomedByPrune(c, s, ev.keep, ev.steps);
    }
  }

  lemma NoneDoomedByPrune(c: TimeCodec, s: State, keep: nat, steps: nat)
    requires s.doomed == {} && (steps == 0 || Finishes(s, keep, steps))
    ensures PruneStep(c, s, keep, steps).doomed == {}
  {
    if steps == 0 {
      assert PlanOf(s, keep)[..0] == [];
    }
  }

  /** In a run whose prunes finish, every entry of the index has all of its files. */
  lemma WholeWhenPrunesFinish(c: TimeCodec, h: Digester, pid: nat, events: seq<Event>)
    requires c.Valid() && PrunesFinish(c, h, Empty(pid), events)
    ensures var s := Run(c, h, Empty(pid), events);
            forall e :: e in Indexed(c, s) ==> Backed(s, e)
  {
    CrashedIngestIsWhole(c, h, pid, events);
    NoneDoomed(c, h, Empty(pid), events);
  }

  ghost predicate AllBacked(s: State) { forall e :: e in s.cached ==> Backed(s, e) }

  lemma FinishedPruneBacks(c: TimeCodec, s: State, keep: nat, steps: nat)
    requires DistinctShas(s.cached) && AllBacked(s) && Finishes(s, keep, steps)
    ensures AllBacked(PruneStep(c, s, keep, steps))
  {
    var t := PruneStep(c, s, keep, steps);
    forall e | e in t.cached ensures Backed(t, e) {
      KeptFilesStay(s.files, s.cached, keep, e);
      var u :| u in s.started && u.entry == e && Complete(s, u);
      assert u in t.started && Complete(t, u);
    }
  }

  /** The first file that a prune removes is the bundle of an entry that is still in the index. */
  lemma StoppedPruneTakesBundle(c: TimeCodec, h: Digester, s: State, keep: nat, steps: nat)
    requires StartedOk(h, s.started) && 0 < steps && !Finishes(s, keep, steps)
    ensures !AllBacked(PruneStep(c, s, keep, steps))
  {
    var t := PruneStep(c, s, keep, steps);
    var e := R.PlanStartsWithBundle(s.files, s.cached, keep);
    R.RemovedFiles(s.files, PlanOf(s, keep)[..steps]);
    assert PlanOf(s, keep)[0] in PlanOf(s, keep)[..steps];
    if Backed(t, e) {
      BackedHasBundle(h, t, e);
    }
  }

  lemma BackedHasBundle(h: Digester, t: State, e: IndexEntry)
    requires StartedOk(h, t.started) && Backed(t, e)
    ensures EntryKind(e).Some? && Loc(EntryKind(e).value, e.sha256) in t.files
  {
    var u :| u in t.started && u.entry == e && Complete(t, u);
    assert IsUpload(h, u) && OfItsKind(u) && InPlace(t, u, false);
  }

  /**
   When every entry has its files, they all still have them after a prune if and
   only if it went to its end or did not begin.
  */
  lemma BackedAfterPruneIff(c: TimeCodec, h: Digester, s: State, keep: nat, steps: nat)
    requires Inv(c, h, s) && s.up && s.tasks == map[] && AllBacked(s)
    ensures AllBacked(PruneStep(c, s, keep, steps)) <==> steps == 0 || Finishes(s, keep, steps)
  {
    if Finishes(s, keep, steps) {
      FinishedPruneBacks(c, s, keep, steps);
    } else if steps == 0 {
      assert PlanOf(s, keep)[..0] == [];
      BackedLikewise(s, PruneStep(c, s, keep, steps));
    } else {
      StoppedPruneTakesBundle(c, h, s, keep, steps);
    }
  }

  lemma BackedLikewise(s: State, t: State)
    requires AllBacked(s) && t.files == s.files && t.cached == s.cached && t.started == s.started
    ensures AllBacked(t)
  {
    forall e | e in t.cached ensures Backed(t, e) {
      var u :| u in s.started && u.entry == e && Complete(s, u);
      assert u in t.started && Complete(t, u);
    }
  }

  /** The store after a prune that stopped, a crash and an open. */
  function Reopened(c: TimeCodec, s: State, keep: nat, stopped: nat, pid: nat): State {
    OpenStep(c, CrashStep(c, PruneStep(c, s, keep, stopped), pid, None))
  }

  lemma ReopenedDisk(c: TimeCodec, s: State, keep: nat, stopped: nat, pid: nat)
    requires Indexed(c, s) == s.cached && !Finishes(s, keep, stopped)
    ensures var t, d := Reopened(c, s, keep, stopped, pid), R.Disk(s.files, s.cached);
            t.cached == s.cached && R.Disk(t.files, t.cached) == R.Swept(R.CrashedPrune(d, keep, stopped))
  {
    OpenIsSweep(c, CrashStep(c, PruneStep(c, s, keep, stopped), pid, None));
  }

  /** The same prune, run to its end later, removes all entries whose files the stopped one took. */
  lemma RetryClears(c: TimeCodec, s: State, keep: nat, stopped: nat, pid: nat, steps: nat)
    requires Indexed(c, s) == s.cached && s.doomed == {} && !Finishes(s, keep, stopped)
    requires Finishes(Reopened(c, s, keep, stopped, pid), keep, steps)
    ensures PruneStep(c, Reopened(c, s, keep, stopped, pid), keep, steps).doomed == {}
  {
    var t := Reopened(c, s, keep, stopped, pid);
    ReopenedDisk(c, s, keep, stopped, pid);
    forall sha | sha in t.doomed ensures sha in R.PrunedShas(R.Candidates(t.files, t.cached, keep)) {
      var loc :| loc in PlanOf(s, keep)[..stopped] && loc.sha == sha;
      R.PlanIsTargeted(s.files, s.cached, keep, loc);
      TargetedIsPruned(t.files, s.cached, keep, loc);
    }
  }

  /**
   A prune that stopped anywhere is made good by an open and the same prune: no
   entry lacks a file, and in a store without strays files and entries are those
   of a prune that was never interrupted.
  */
  lemma StoppedPruneRecovers(c: TimeCodec, h: Digester, s: State, keep: nat, stopped: nat, pid: nat, steps: nat)
    requires c.Valid() && Inv(c, h, s) && s.up && Indexed(c, s) == s.cached
    requires s.doomed == {} && !Finishes(s, keep, stopped)
    requires Finishes(Reopened(c, s, keep, stopped, pid), keep, steps)
    ensures var d, r := R.Disk(s.files, s.cached), PruneStep(c, Reopened(c, s, keep, stopped, pid), keep, steps);
            r.doomed == {} &&
            (R.Swept(d) == d && R.NoStray(d, keep) ==> R.Disk(r.files, r.cached) == R.Pruned(d, keep))
  {
    var d := R.Disk(s.files, s.cached);
    RetryClears(c, s, keep, stopped, pid, steps);
    ReopenedDisk(c, s, keep, stopped, pid);
    if R.Swept(d) == d && R.NoStray(d, keep) {
      R.RecoversWithoutStray(d, keep, [stopped]);
      OneCrash(d, keep, stopped);
    }
  }

  lemma OneCrash(d: R.Disk, keep: nat, stopped: nat)
    ensures R.Recovered(d, keep, [stopped]) == R.Pruned(R.Swept(R.CrashedPrune(R.Swept(d), keep, stopped)), keep)
  {
    assert [stopped][1..] == [];
  }

  // ---- acknowledged uploads ----

  /** The index ends its last line. */
  predicate Clean(s: State) { Json.SkipWs(Tail(s.index)) == "" }

  lemma EndedIsClean(s: State)
    requires Terminated(s.index)
    ensures Clean(s)
  {
  }

  lemma FinishedIndex(c: TimeCodec, s: State, keep: nat, steps: nat)
    requires Finishes(s, keep, steps)
    ensures var t := PruneStep(c, s, keep, steps);
            t.cached == R.Kept(s.cached, s.files, keep) && t.index == Rewritten(c, t.cached)
  {
  }

  /** A finished prune mends the index: its last line is ended, and it reads back as what the process serves. */
  lemma PruneMendsIndex(c: TimeCodec, h: Digester, s: State, keep: nat, steps: nat)
    requires c.Valid() && Inv(c, h, s) && s.up && s.tasks == map[] && Finishes(s, keep, steps)
    ensures var t := PruneStep(c, s, keep, steps);
            Clean(t) && Indexed(c, t) == t.cached == R.Kept(s.cached, s.files, keep)
  {
    var t := PruneStep(c, s, keep, steps);
    FinishedPruneKeeps(c, h, s, keep, steps);
    FinishedIndex(c, s, keep, steps);
    AllValid(h, t);
    RewrittenText(c, t.cached);
    EndedIsClean(t);
  }

  /** No step of the run writes a line to an index whose last line is torn. */
  ghost predicate CleanRun(c: TimeCodec, h: Digester, s: State, events: seq<Event>)
    decreases |events|
  {
    events == [] ||
    (var t := Step(c, h, s, events[0]);
     (t.index != s.index ==> Clean(s) || events[0].Prune?) && CleanRun(c, h, t, events[1..]))
  }

  ghost predicate AcksHeld(c: TimeCodec, s: State) {
    && s.acked - s.pruned <= Shas(Indexed(c, s))
    && (s.up ==> Shas(s.cached) <= Shas(Indexed(c, s)))
  }

  lemma CleanWriteKeepsEntries(c: TimeCodec, s: State, e: IndexEntry, k: nat)
    requires c.Valid() && IsValidSha(e.sha256) && Clean(s) && k <= |Written(c, e)|
    ensures Shas(Indexed(c, s)) <= Shas(LoadText(c, s.index + Written(c, e)[..k]).entries)
    ensures k == |Written(c, e)| ==> e.sha256 in Shas(LoadText(c, s.index + Written(c, e)[..k]).entries)
  {
    if k == 0 {
      assert s.index + Written(c, e)[..0] == s.index;
    } else {
      AnyWriteLoads(c, s.index, e, k);
      HeadLoadsPrefix(c, s.index);
      AppendedShas(Indexed(c, s), e);
    }
  }

  lemma CleanAppendHolds(c: TimeCodec, s: State, e: IndexEntry)
    requires c.Valid() && IsValidSha(e.sha256) && Clean(s)
    ensures Shas(Indexed(c, s)) + {e.sha256} <= Shas(LoadText(c, s.index + Written(c, e)).entries)
  {
    CleanWriteKeepsEntries(c, s, e, |Written(c, e)|);
    assert Written(c, e)[..|Written(c, e)|] == Written(c, e);
  }

  lemma TornKeepsAcks(c: TimeCodec, h: Digester, s: State, id: nat, k: nat)
    requires c.Valid() && Inv(c, h, s) && (TornIndex(c, s, id, k) != s.index ==> Clean(s))
    ensures Shas(Indexed(c, s)) <= Shas(LoadText(c, TornIndex(c, s, id, k)).entries)
  {
    if id in s.tasks && TornIndex(c, s, id, k) != s.index {
      assert TaskOk(h, s, id);
      var w := Written(c, s.tasks[id].u.entry);
      CleanWriteKeepsEntries(c, s, s.tasks[id].u.entry, if k < |w| then k else |w|);
    }
  }

  lemma WrittenNotEmpty(c: TimeCodec, s: string, e: IndexEntry)
    ensures s + Written(c, e) != s
  {
    assert |s + Written(c, e)| > |s|;
  }

  lemma IndexStepKeepsAcks(c: TimeCodec, h: Digester, s: State, id: nat)
    requires c.Valid() && Inv(c, h, s) && AcksHeld(c, s) && s.up && id in s.tasks && s.tasks[id].pc.AtIndex?
    requires IndexStep(c, s, id).index != s.index ==> Clean(s)
    ensures AcksHeld(c, IndexStep(c, s, id))
  {
    var e := s.tasks[id].u.entry;
    assert TaskOk(h, s, id);
    if e.sha256 !in Shas(s.cached) {
      WrittenNotEmpty(c, s.index, e);
      CleanAppendHolds(c, s, e);
      AppendedShas(s.cached, e);
    }
  }

  lemma AcksStay(c: TimeCodec, s: State, t: State)
    requires AcksHeld(c, s) && t.acked == s.acked && t.pruned == s.pruned && Shas(Indexed(c, s)) <= Shas(Indexed(c, t))
    requires t.up ==> (s.up && t.cached == s.cached) || t.cached == Indexed(c, t)
    ensures AcksHeld(c, t)
  {
  }

  lemma FailStepKeepsAcks(c: TimeCodec, h: Digester, s: State, id: nat, cleaned: bool, k: nat)
    requires c.Valid() && Inv(c, h, s) && AcksHeld(c, s) && s.up && id in s.tasks
    requires FailStep(c, s, id, cleaned, k).index != s.index ==> Clean(s)
    ensures AcksHeld(c, FailStep(c, s, id, cleaned, k))
  {
    if s.tasks[id].pc.AtIndex? {
      TornKeepsAcks(c, h, s, id, k);
    }
    AcksStay(c, s, FailStep(c, s, id, cleaned, k));
  }

  lemma CrashStepKeepsAcks(c: TimeCodec, h: Digester, s: State, pid: nat, cut: Option<(nat, nat)>)
    requires c.Valid() && Inv(c, h, s) && AcksHeld(c, s)
    requires CrashStep(c, s, pid, cut).index != s.index ==> Clean(s)
    ensures AcksHeld(c, CrashStep(c, s, pid, cut))
  {
    if cut.Some? {
      TornKeepsAcks(c, h, s, cut.value.0, cut.value.1);
    }
    AcksStay(c, s, CrashStep(c, s, pid, cut));
  }

  /** Moves before the index append. */
  lemma EarlyStepKeepsAcks(c: TimeCodec, s: State, id: nat, n: nat)
    requires AcksHeld(c, s) && s.up && id in s.tasks && !s.tasks[id].pc.AtIndex?
    ensures AcksHeld(c, AdvanceStep(c, s, id, n))
  {
    match s.tasks[id].pc {
      case Look(side) =>
        AcksStay(c, s, LookStep(s, id, side));
      case Write(side, tmp, done) =>
        AcksStay(c, s, WriteStep(s, id, side, tmp, done, n));
    }
  }

  lemma AdvanceKeepsAcks(c: TimeCodec, h: Digester, s: State, id: nat, n: nat)
    requires c.Valid() && Inv(c, h, s) && AcksHeld(c, s) && s.up && id in s.tasks
    requires AdvanceStep(c, s, id, n).index != s.index ==> Clean(s)
    ensures AcksHeld(c, AdvanceStep(c, s, id, n))
  {
    if s.tasks[id].pc.AtIndex? {
      IndexStepKeepsAcks(c, h, s, id);
    } else {
      EarlyStepKeepsAcks(c, s, id, n);
    }
  }

  /** A finished prune loses no sha but the pruned ones, not even those of lines that were torn. */
  lemma FinishedPruneKeepsAcks(c: TimeCodec, h: Digester, s: State, keep: nat, steps: nat)
    requires c.Valid() && Inv(c, h, s) && AcksHeld(c, s) && s.up && s.tasks == map[] && Finishes(s, keep, steps)
    ensures AcksHeld(c, PruneStep(c, s, keep, steps))
  {
    var t := PruneStep(c, s, keep, steps);
    var gone := R.PrunedShas(R.Candidates(s.files, s.cached, keep));
    FinishedPruneKeeps(c, h, s, keep, steps);
    forall sha | sha in t.acked - t.pruned ensures sha in Shas(t.cached) {
      assert sha in Shas(Indexed(c, s));
      var e :| e in Indexed(c, s) && e.sha256 == sha;
      FilterMember(s.cached, R.NotIn(gone), e);
    }
  }

  lemma PruneKeepsAcks(c: TimeCodec, h: Digester, s: State, keep: nat, steps: nat)
    requires c.Valid() && Inv(c, h, s) && AcksHeld(c, s) && s.up && s.tasks == map[]
    ensures AcksHeld(c, PruneStep(c, s, keep, steps))
  {
    if Finishes(s, keep, steps) {
      FinishedPruneKeepsAcks(c, h, s, keep, steps);
    } else {
      AcksStay(c, s, PruneStep(c, s, keep, steps));
    }
  }

  lemma UploadStepKeepsAcks(c: TimeCodec, h: Digester, s: State, ev: Event)
    requires c.Valid() && Inv(c, h, s) && AcksHeld(c, s)
    requires UploadStep(c, h, s, ev).index != s.index ==> Clean(s)
    ensures AcksHeld(c, UploadStep(c, h, s, ev))
  {
    match ev {
      case Begin(id, u) =>
        AcksStay(c, s, BeginStep(s, id, u));
      case Advance(id, n) =>
        if s.up && id in s.tasks {
          AdvanceKeepsAcks(c, h, s, id, n);
        }
      case Fail(id, cleaned, k) =>
        if s.up && id in s.tasks {
          FailStepKeepsAcks(c, h, s, id, cleaned, k);
        }
      case _ =>
    }
  }

  lemma StoreStepKeepsAcks(c: TimeCodec, h: Digester, s: State, ev: Event)
    requires c.Valid() && Inv(c, h, s) && AcksHeld(c, s)
    requires StoreStep(c, s, ev).index != s.index ==> Clean(s) || ev.Prune?
    ensures AcksHeld(c, StoreStep(c, s, ev))
  {
    match ev {
      case Crash(pid, cut) =>
        CrashStepKeepsAcks(c, h, s, pid, cut);
      case SweepOne(loc) =>
        AcksStay(c, s, SweepStep(s, loc));
      case Open =>
        AcksStay(c, s, OpenStep(c, s));
      case Prune(keep, steps) =>
        if s.up && s.tasks == map[] {
          PruneKeepsAcks(c, h, s, keep, steps);
        }
      case _ =>
    }
  }

  lemma StepKeepsAcks(c: TimeCodec, h: Digester, s: State, ev: Event)
    requires c.Valid() && Inv(c, h, s) && AcksHeld(c, s)
    requires Step(c, h, s, ev).index != s.index ==> Clean(s) || ev.Prune?
    ensures AcksHeld(c, Step(c, h, s, ev))
  {
    if ev.Begin? || ev.Advance? || ev.Fail? {
      UploadStepKeepsAcks(c, h, s, ev);
    } else {
      StoreStepKeepsAcks(c, h, s, ev);
    }
  }

  lemma {:induction false} RunKeepsAcks(c: TimeCodec, h: Digester, s: State, events: seq<Event>)
    requires c.Valid() && Inv(c, h, s) && AcksHeld(c, s) && CleanRun(c, h, s, events)
    ensures AcksHeld(c, Run(c, h, s, events))
    decreases |events|
  {
    if events != [] {
      StepKeeps(c, h, s, events[0]);
      StepKeepsAcks(c, h, s, events[0]);
      RunKeepsAcks(c, h, Step(c, h, s, events[0]), events[1..]);
    }
  }

  /**
   Under any interleaving, any prunes and any crashes, as long as no line is
   written after a torn one: the sha of every acknowledged upload is in the index,
   exactly once, unless a prune has removed it since it was last acknowledged.
  */
  lemma AcknowledgedOnce(c: TimeCodec, h: Digester, pid: nat, events: seq<Event>)
    requires c.Valid() && CleanRun(c, h, Empty(pid), events)
    ensures var s := Run(c, h, Empty(pid), events);
            s.acked - s.pruned <= Shas(Indexed(c, s)) && DistinctShas(Indexed(c, s))
  {
    EmptyOk(c, h, pid);
    RunKeeps(c, h, Empty(pid), events);
    RunKeepsAcks(c, h, Empty(pid), events);
  }

  lemma WrittenSurvivesIff(c: TimeCodec, s: State, e: IndexEntry)
    requires c.Valid() && IsValidSha(e.sha256) && DistinctShas(Indexed(c, s)) && e.sha256 !in Shas(Indexed(c, s))
    ensures e.sha256 in Shas(LoadText(c, s.index + Written(c, e)).entries) <==> Clean(s)
  {
    AnyWriteLoads(c, s.index, e, |Written(c, e)|);
    assert Written(c, e)[..|Written(c, e)|] == Written(c, e);
    HeadLoadsPrefix(c, s.index);
    PrefixDistinct(LoadText(c, Head(s.index)).entries, Indexed(c, s));
    AppendedShas(Indexed(c, s), e);
  }

  /**
   And that condition is the right one: in any reachable state, the upload that is
   acknowledged next with a new line is in the index as it reads back iff the
   index ended its last line before.
  */
  lemma AcknowledgedIffClean(c: TimeCodec, h: Digester, s: State, id: nat)
    requires c.Valid() && Inv(c, h, s) && s.up && id in s.tasks && s.tasks[id].pc.AtIndex?
    requires s.tasks[id].u.entry.sha256 !in Shas(s.cached)
    ensures s.tasks[id].u.entry.sha256 in Shas(Indexed(c, IndexStep(c, s, id))) <==> Clean(s)
  {
    var e := s.tasks[id].u.entry;
    assert TaskOk(h, s, id);
    WrittenSurvivesIff(c, s, e);
  }

  // ---- an upload on its own ----

  lemma {:induction false} RunAppend(c: TimeCodec, h: Digester, s: State, a: seq<Event>, b: seq<Event>)
    ensures Run(c, h, s, a + b) == Run(c, h, Run(c, h, s, a), b)
    decreases |a|
  {
    if a == [] {
      Unit(b);
    } else {
      RunAppend(c, h, Step(c, h, s, a[0]), a[1..], b);
      assert (a + b)[1..] == a[1..] + b;
    }
  }

  lemma RunOne(c: TimeCodec, h: Digester, s: State, ev: Event)
    ensures Run(c, h, s, [ev]) == Step(c, h, s, ev)
  {
    assert [ev][1..] == [];
  }

  /** The upload came to another position and these are the files now; the index is as before. */
  predicate Came(s: State, t: State, id: nat, pc: Pc, files: Files) {
    && s.up && t.up && id in s.tasks && t.tasks == s.tasks[id := Task(s.tasks[id].u, pc)] && t.files == files
    && t.index == s.index && t.cached == s.cached && t.acked == s.acked
  }

  lemma AdvanceIs(c: TimeCodec, h: Digester, s: State, id: nat, n: nat)
    requires s.up && id in s.tasks
    ensures Step(c, h, s, Advance(id, n)) == AdvanceStep(c, s, id, n)
    ensures s.tasks[id].pc.Look? ==> Step(c, h, s, Advance(id, n)) == LookStep(s, id, s.tasks[id].pc.side)
    ensures s.tasks[id].pc.Write? ==>
              Step(c, h, s, Advance(id, n)) ==
              WriteStep(s, id, s.tasks[id].pc.side, s.tasks[id].pc.tmp, s.tasks[id].pc.done, n)
    ensures s.tasks[id].pc.AtIndex? ==> Step(c, h, s, Advance(id, n)) == IndexStep(c, s, id)
  {
  }

  /** Writing all bytes at once, and the rename. */
  lemma WriteAll(c: TimeCodec, h: Digester, s: State, id: nat, side: bool, tmp: TempName) returns (events: seq<Event>)
    requires s.up && id in s.tasks && s.tasks[id].pc == Write(side, tmp, 0)
    requires tmp.loc == Target(s.tasks[id].u, side) && tmp in s.temps && s.temps[tmp] == []
    ensures Came(s, Run(c, h, s, events), id, After(s.tasks[id].u, side), s.files[tmp.loc := Payload(s.tasks[id].u, side)])
  {
    var bytes := Payload(s.tasks[id].u, side);
    AdvanceIs(c, h, s, id, |bytes|);
    RunOne(c, h, s, Advance(id, |bytes|));
    events := [Advance(id, |bytes|)];
    if bytes != [] {
      var t := WriteStep(s, id, side, tmp, 0, |bytes|);
      assert t.temps[tmp] == bytes;
      AdvanceIs(c, h, t, id, 0);
      RunOne(c, h, t, Advance(id, 0));
      RunAppend(c, h, s, events, [Advance(id, 0)]);
      events := events + [Advance(id, 0)];
    }
  }

  lemma PutInPlace(c: TimeCodec, h: Digester, s: State, id: nat, side: bool) returns (events: seq<Event>)
    requires s.up && id in s.tasks && s.tasks[id].pc == Look(side)
    requires var u := s.tasks[id].u;
             side && Target(u, side) in s.files ==> s.files[Target(u, side)] == Payload(u, side)
    ensures var u := s.tasks[id].u;
            Came(s, Run(c, h, s, events), id, After(u, side), WithFile(s.files, Target(u, side), Payload(u, side)))
  {
    var t := LookStep(s, id, side);
    AdvanceIs(c, h, s, id, 0);
    RunOne(c, h, s, Advance(id, 0));
    events := [Advance(id, 0)];
    if Target(s.tasks[id].u, side) !in s.files {
      var more := WriteAll(c, h, t, id, side, TempName(Target(s.tasks[id].u, side), s.pid, s.counter));
      RunAppend(c, h, s, events, more);
      events := events + more;
    }
  }

  /** The last step: the index, or the refusal of a different sidecar. */
  lemma LastStep(c: TimeCodec, h: Digester, s: State, id: nat)
    requires s.up && id in s.tasks
    requires s.tasks[id].pc.AtIndex? ||
             (s.tasks[id].pc == Look(true) && Target(s.tasks[id].u, true) in s.files &&
              s.files[Target(s.tasks[id].u, true)] != Payload(s.tasks[id].u, true))
    ensures var t, e := Run(c, h, s, [Advance(id, 0)]), s.tasks[id].u.entry;
            && t.files == s.files && t.tasks == s.tasks - {id}
            && (s.tasks[id].pc.AtIndex? ==>
                  e.sha256 in t.acked &&
                  t.index == s.index + if e.sha256 in Shas(s.cached) then "" else Written(c, e))
            && (!s.tasks[id].pc.AtIndex? ==> t.acked == s.acked && t.index == s.index)
  {
    AdvanceIs(c, h, s, id, 0);
    RunOne(c, h, s, Advance(id, 0));
    Unit(s.index);
  }

  lemma ThenLast(c: TimeCodec, h: Digester, s: State, events: seq<Event>, id: nat)
    ensures Run(c, h, s, events + [Advance(id, 0)]) == Run(c, h, Run(c, h, s, events), [Advance(id, 0)])
  {
    RunAppend(c, h, s, events, [Advance(id, 0)]);
  }

  /** The upload up to its last step. */
  lemma UploadFiles(c: TimeCodec, h: Digester, s: State, id: nat, u: Upload) returns (events: seq<Event>)
    requires s.up && id in s.tasks && s.tasks[id] == Task(u, Look(false))
    ensures var t, after := Run(c, h, s, events), AfterUpload(s.files, u.kind, u.entry.sha256, u.raw, u.sidecar);
            && Came(s, t, id, if after.1 then AtIndex else Look(true), after.0)
            && (!after.1 ==> Target(u, true) in t.files && t.files[Target(u, true)] != Payload(u, true))
  {
    events := PutInPlace(c, h, s, id, false);
    if u.sidecar.Some? {
      var t := Run(c, h, s, events);
      var loc := Target(u, true);
      if !(loc in t.files && t.files[loc] != Payload(u, true)) {
        var more := PutInPlace(c, h, t, id, true);
        RunAppend(c, h, s, events, more);
        events := events + more;
      }
    }
  }

  /** What Storage.Post does to files and index when nothing fails. */
  predicate Posted(c: TimeCodec, s: State, t: State, u: Upload) {
    var after := AfterUpload(s.files, u.kind, u.entry.sha256, u.raw, u.sidecar);
    && t.files == after.0
    && (after.1 ==> u.entry.sha256 in t.acked &&
                    t.index == s.index + if u.entry.sha256 in Shas(s.cached) then "" else Written(c, u.entry))
    && (!after.1 ==> t.acked == s.acked && t.index == s.index)
  }

  lemma RestOfUpload(c: TimeCodec, h: Digester, s: State, id: nat, u: Upload) returns (events: seq<Event>)
    requires s.up && id in s.tasks && s.tasks[id] == Task(u, Look(false))
    ensures Posted(c, s, Run(c, h, s, events), u) && Run(c, h, s, events).tasks == s.tasks - {id}
  {
    var first := UploadFiles(c, h, s, id, u);
    LastStep(c, h, Run(c, h, s, first), id);
    ThenLast(c, h, s, first, id);
    events := first + [Advance(id, 0)];
  }

  /**
   The steps of one upload with nothing in between do to files and index what
   Storage.Post does when nothing fails.
  */
  lemma UploadAlone(c: TimeCodec, h: Digester, s: State, id: nat, u: Upload) returns (events: seq<Event>)
    requires s.up && id !in s.tasks && IsUpload(h, u) && OfItsKind(u)
    ensures Posted(c, s, Run(c, h, s, events), u) && Run(c, h, s, events).tasks == s.tasks
  {
    var b := BeginStep(s, id, u);
    var rest := RestOfUpload(c, h, b, id, u);
    BeginRuns(c, h, s, id, u, rest);
    events := [Begin(id, u)] + rest;
    BegunLike(c, s, b, Run(c, h, b, rest), u);
    BegunAndDropped(s, id, u);
  }

  lemma BeginRuns(c: TimeCodec, h: Digester, s: State, id: nat, u: Upload, rest: seq<Event>)
    requires s.up && id !in s.tasks && IsUpload(h, u) && OfItsKind(u)
    ensures Run(c, h, s, [Begin(id, u)] + rest) == Run(c, h, BeginStep(s, id, u), rest)
  {
    RunOne(c, h, s, Begin(id, u));
    RunAppend(c, h, s, [Begin(id, u)], rest);
  }

  lemma BegunAndDropped(s: State, id: nat, u: Upload)
    requires id !in s.tasks
    ensures BeginStep(s, id, u).tasks - {id} == s.tasks
  {
  }

  lemma BegunLike(c: TimeCodec, s: State, b: State, t: State, u: Upload)
    requires Posted(c, b, t, u)
    requires b.files == s.files && b.index == s.index && b.cached == s.cached && b.acked == s.acked
    ensures Posted(c, s, t, u)
  {
  }

  // ---- file names ----

  function BundleFile(sha: string): string { sha + ".json" }

  function TempFile(t: TempName): string {
    t.loc.sha + (".json.tmp." + (Json.Decimal(t.pid) + (['.'] + Json.Decimal(t.n))))
  }

  /** What list makes of a file name: the part before ".json", if it ends so. */
  function ListedSha(name: string): Option<string> {
    if |name| >= 5 && name[|name| - 5..] == ".json" then Some(name[..|name| - 5]) else None
  }

  lemma BundleIsListed(sha: string)
    ensures ListedSha(BundleFile(sha)) == Some(sha)
  {
  }

  /** A temporary file ends in a digit, so it is never listed as a bundle. */
  lemma TempIsNotListed(t: TempName)
    ensures ListedSha(TempFile(t)) == None
  {
    var name, d := TempFile(t), Json.Decimal(t.n);
    assert name[|name| - 1] == d[|d| - 1];
    assert Json.IsDigit(d[|d| - 1]);
    assert ".json"[4] == 'n';
    if ListedSha(name).Some? {
      assert name[|name| - 5..][4] == name[|name| - 1];
    }
  }

  lemma SplitAtDot(a: string, x: string, b: string, y: string)
    requires Json.AllDigits(a) && Json.AllDigits(b) && a + (['.'] + x) == b + (['.'] + y)
    ensures a == b && x == y
  {
    var s, t := a + (['.'] + x), b + (['.'] + y);
    assert s[|a|] == '.' && t[|b|] == '.';
    assert forall i :: 0 <= i < |a| ==> s[i] == a[i] && Json.IsDigit(s[i]);
    assert forall i :: 0 <= i < |b| ==> t[i] == b[i] && Json.IsDigit(t[i]);
    assert a == s[..|a|] && b == t[..|b|];
    assert x == s[|a| + 1..] && y == t[|b| + 1..];
  }

  lemma DecimalInjective(m: nat, n: nat)
    ensures Json.Decimal(m) == Json.Decimal(n) ==> m == n
  {
    Json.DecimalRoundTrip(m);
    Json.DecimalRoundTrip(n);
  }

  lemma DropCommon(p: string, q: string, x: string, y: string)
    requires p + (q + x) == p + (q + y)
    ensures x == y
  {
    assert x == (p + (q + x))[|p| + |q|..];
    assert y == (p + (q + y))[|p| + |q|..];
  }

  /** Process and counter can be read back from the name, so different ones never share a file. */
  lemma TempFileInjective(t: TempName, u: TempName)
    requires t.loc == u.loc
    ensures TempFile(t) == TempFile(u) <==> t == u
  {
    if TempFile(t) == TempFile(u) {
      var x, y := Json.Decimal(t.pid) + (['.'] + Json.Decimal(t.n)), Json.Decimal(u.pid) + (['.'] + Json.Decimal(u.n));
      DropCommon(t.loc.sha, ".json.tmp.", x, y);
      SplitAtDot(Json.Decimal(t.pid), Json.Decimal(t.n), Json.Decimal(u.pid), Json.Decimal(u.n));
      DecimalInjective(t.pid, u.pid);
      DecimalInjective(t.n, u.n);
    }
  }
}
