/**
 The audit log's ring, counters and lossy broadcast (audit_log.rs), and the
 server-sent-events stream over them (handlers/audit_log.rs). An append is four
 separate atomic sections, so concurrent appends and streams are modelled as
 interleaved steps; AuditLog is the object a single thread sees.
*/
module AuditRing {
  import opened Wrappers
  import opened Sequences
  import opened Ascii
  import opened AuditPersistence
  import opened IndexLog
  import opened Utf8

  /** STREAM_BROADCAST_CAPACITY */
  const STREAM_CAPACITY: nat := 256

  // ---- the ring and the broadcast as values ----

  /** The last n elements. */
  function Last<T>(s: seq<T>, n: nat): seq<T> {
    if |s| <= n then s else s[|s| - n..]
  }

  /** Push back, after popping the front of a full ring. */
  function Pushed<T>(ring: seq<T>, capacity: nat, x: T): seq<T> {
    if capacity == 0 then ring
    else (if |ring| == capacity then ring[1..] else ring) + [x]
  }

  /** Whether the push evicts an entry. */
  predicate Evicts<T>(ring: seq<T>, capacity: nat) { capacity > 0 && |ring| == capacity }

  lemma PushedIsLast<T>(all: seq<T>, capacity: nat, x: T)
    ensures Pushed(Last(all, capacity), capacity, x) == Last(all + [x], capacity)
    ensures Evicts(Last(all, capacity), capacity) <==> 0 < capacity <= |all|
  {
  }

  datatype Received<+T> = Nothing | Item(x: T) | Lagged(n: nat)

  /** The oldest position the broadcast still holds after n sends. */
  function Oldest(n: nat): nat { if n <= STREAM_CAPACITY then 0 else n - STREAM_CAPACITY }

  /** recv at a position: the value there, or how many were missed before the oldest kept one. */
  function Receive<T>(sent: seq<T>, next: nat): Received<T> {
    if next >= |sent| then Nothing
    else if next < Oldest(|sent|) then Lagged(Oldest(|sent|) - next)
    else Item(sent[next])
  }

  /** A receiver up to 256 sends behind misses nothing; one further behind misses all but the last 256. */
  lemma BroadcastHolds<T>(sent: seq<T>, next: nat)
    requires next < |sent|
    ensures Receive(sent, next) == if |sent| - next <= 256 then Item(sent[next]) else Lagged(|sent| - next - 256)
  {
  }

  // ---- the object ----

  class AuditLog {
    const capacity: nat
    const persistence: Persistence?
    var entries: seq<AuditEntry>
    var totalAppended: nat
    var totalDropped: nat
    var queue: seq<AuditEntry>
    var sent: nat
    ghost var appended: seq<AuditEntry>

    constructor (capacity: nat, persistence: Persistence?)
      ensures this.capacity == capacity && this.persistence == persistence && appended == [] && Valid()
    {
      this.capacity, this.persistence := capacity, persistence;
      entries, totalAppended, totalDropped, queue, sent, appended := [], 0, 0, [], 0, [];
    }

    ghost predicate Valid()
      reads this
    {
      && entries == Last(appended, capacity)
      && totalAppended == sent == |appended|
      && totalDropped == (if capacity == 0 then 0 else |appended| - |entries|)
      && queue == Last(appended, STREAM_CAPACITY)
    }

    /** Persistence can take a record. */
    ghost predicate CanPersist()
      reads persistence, if persistence == null then {} else {persistence.files}
    {
      persistence != null && persistence.writer.Some? ==> persistence.files.live.Some?
    }

    /** The record gets to the file, and a rotation that is due then succeeds. */
    predicate Persists(e: AuditEntry, w: WriteFault, r: RotateFault)
      requires persistence != null
      reads persistence
    {
      persistence.writer.Some? && w.WriteOk? &&
      (persistence.maxBytes.Some? && persistence.bytesWritten + |Record(e)| >= persistence.maxBytes.value ==> r.RotateOk?)
    }

    /**
     append, with nothing else running: ring, file, counter, broadcast. Every entry
     is persisted, whatever the ring's capacity, or counted as an error.
    */
    method Append(e: AuditEntry, w: WriteFault, r: RotateFault)
      requires Valid() && CanPersist()
      modifies this, persistence, if persistence == null then {} else {persistence.files}
      ensures Valid() && CanPersist() && appended == old(appended) + [e]
      ensures persistence != null ==>
                persistence.totalErrors == old(persistence.totalErrors) + (if old(Persists(e, w, r)) then 0 else 1)
      ensures persistence != null && old(Persists(e, w, r)) ==>
                persistence.files.history == old(persistence.files.history) + [e]
      ensures persistence != null && old(persistence.Clean()) && old(Persists(e, w, r)) ==> persistence.Clean()
    {
      Push(e);
      if persistence != null {
        var outcome := persistence.Persist(e, w, r);
      }
      totalAppended := totalAppended + 1;
      Send(e);
      appended := appended + [e];
    }

    /** The section of the ring lock. */
    method Push(e: AuditEntry)
      requires Valid()
      modifies this`entries, this`totalDropped
      ensures entries == Last(appended + [e], capacity)
      ensures totalDropped == (if capacity == 0 then 0 else |appended| + 1 - |entries|)
    {
      PushedIsLast(appended, capacity, e);
      if capacity > 0 {
        if |entries| == capacity {
          entries := entries[1..];
          totalDropped := totalDropped + 1;
        }
        entries := entries + [e];
      }
    }

    /** The broadcast. */
    method Send(e: AuditEntry)
      requires queue == Last(appended, STREAM_CAPACITY)
      modifies this`queue, this`sent
      ensures queue == Last(appended + [e], STREAM_CAPACITY) && sent == old(sent) + 1
    {
      PushedIsLast(appended, STREAM_CAPACITY, e);
      if |queue| == STREAM_CAPACITY {
        queue := queue[1..];
      }
      queue := queue + [e];
      sent := sent + 1;
    }

    /** All of this log is in its files, and nothing failed. */
    ghost predicate AllPersisted()
      reads this, persistence, if persistence == null then {} else {persistence.files}
    {
      Valid() && persistence != null && persistence.Clean() && persistence.files.history == appended
    }

    /** subscribe: from here on. */
    method Subscribe() returns (rx: Receiver)
      ensures fresh(rx) && rx.next == sent
    {
      rx := new Receiver(sent);
    }

    function Snapshot(): seq<AuditEntry>
      reads this
    {
      entries
    }
  }

  class Receiver {
    var next: nat

    constructor (next: nat)
      ensures this.next == next
    {
      this.next := next;
    }

    /** recv on the bounded queue answers as if every send was kept, except for what it reports as missed. */
    method Recv(log: AuditLog) returns (r: Received<AuditEntry>)
      requires log.Valid()
      modifies this
      ensures r == Receive(log.appended, old(next))
      ensures next == match r { case Nothing => old(next) case Item(_) => old(next) + 1 case Lagged(n) => old(next) + n }
    {
      var oldest := log.sent - |log.queue|;
      if next >= log.sent {
        return Nothing;
      }
      if next < oldest {
        r := Lagged(oldest - next);
        next := oldest;
        return;
      }
      r := Item(log.queue[next - oldest]);
      next := next + 1;
    }
  }

  /**
   Appends without failures, at any capacity: sidecar and live file read back as
   the last entries appended, and no error is counted.
  */
  method AppendAll(log: AuditLog, es: seq<AuditEntry>)
    requires log.AllPersisted()
    modifies log, log.persistence, log.persistence.files
    ensures log.AllPersisted() && log.appended == old(log.appended) + es
    ensures log.persistence.totalErrors == old(log.persistence.totalErrors)
    ensures var files := log.persistence.files;
            files.sidecarFrom <= |log.appended| && Decode(files.Rotated() + files.Live()).Some? &&
            Lines(Decode(files.Rotated() + files.Live()).value) == Texts(log.appended[files.sidecarFrom..])
  {
    ghost var before := log.appended;
    var i := 0;
    Unit(before);
    while i < |es|
      invariant i <= |es|
      invariant log.AllPersisted() && log.appended == before + es[..i]
      invariant log.persistence.totalErrors == old(log.persistence.totalErrors)
    {
      AppendOne(log, es[i]);
      OneMore(before, es, i);
      i := i + 1;
    }
    assert es[..i] == es;
    WholeReadsBack(log.persistence.files);
  }

  method AppendOne(log: AuditLog, e: AuditEntry)
    requires log.AllPersisted()
    modifies log, log.persistence, log.persistence.files
    ensures log.AllPersisted() && log.appended == old(log.appended) + [e]
    ensures log.persistence.totalErrors == old(log.persistence.totalErrors)
  {
    log.Append(e, WriteOk, RotateOk);
  }

  lemma OneMore<T>(before: seq<T>, es: seq<T>, i: nat)
    requires i < |es|
    ensures before + es[..i] + [es[i]] == before + es[..i + 1]
  {
  }

  // ---- filters ----

  datatype Query = Query(
    since: Option<nat>, httpMethod: Option<string>, status: Option<nat>, statusClass: Option<string>,
    pathPrefix: Option<string>, authenticated: Option<bool>)

  /** class_bucket: an unknown class is no filter. */
  function ClassBucket(s: string): Option<(nat, nat)> {
    var t := ToLower(Trim(s));
    if t == "1xx" then Some((100, 199))
    else if t == "2xx" then Some((200, 299))
    else if t == "3xx" then Some((300, 399))
    else if t == "4xx" then Some((400, 499))
    else if t == "5xx" then Some((500, 599))
    else None
  }

  /** matches_filters, with the class and the upper-cased method prepared as the handlers do. */
  predicate Matches(e: AuditEntry, q: Query) {
    var bucket := match q.statusClass case None => None case Some(s) => ClassBucket(s);
    && (q.since.Some? ==> e.timestamp >= q.since.value)
    && (q.httpMethod.Some? ==> EqualIgnoringCase(e.httpMethod, ToUpper(q.httpMethod.value)))
    && (q.status.Some? ==> e.status == q.status.value)
    && (bucket.Some? ==> bucket.value.0 <= e.status <= bucket.value.1)
    && (q.pathPrefix.Some? ==> q.pathPrefix.value <= e.path)
    && (q.authenticated.Some? ==> e.authenticated == q.authenticated.value)
  }

  /** Upper-casing the wanted method first makes no difference: the comparison ignores case anyway. */
  lemma MethodFilterIgnoresCase(e: AuditEntry, q: Query)
    ensures Matches(e, q) <==>
            && (q.httpMethod.Some? ==> EqualIgnoringCase(e.httpMethod, q.httpMethod.value))
            && Matches(e, q.(httpMethod := None))
  {
    if q.httpMethod.Some? {
      UpperKeepsCaseClass(q.httpMethod.value);
    }
  }

  /** A digit from 1 to 5 and two x of either case. */
  predicate IsClassText(w: string, c: char) {
    '1' <= c <= '5' && |w| == 3 && w[0] == c && SameLetter(w[1], 'x') && SameLetter(w[2], 'x')
  }

  /** A class such as " 4XX ", with any white space around. */
  ghost predicate NamesClass(s: string, c: char) {
    exists before, w, after :: s == before + w + after && IsBlank(before) && IsBlank(after) && IsClassText(w, c)
  }

  /** The statuses of a class, 400 to 499 for '4'. */
  function ClassRange(c: char): (nat, nat)
    requires '1' <= c <= '5'
  {
    (100 * (c as int - '0' as int), 100 * (c as int - '0' as int) + 99)
  }

  lemma LowerClassText(w: string, c: char)
    ensures '1' <= c <= '5' ==> (IsClassText(w, c) <==> ToLower(w) == [c, 'x', 'x'])
    ensures IsClassText(w, c) ==> !IsSpace(w[0]) && !IsSpace(w[2])
  {
    if |w| == 3 {
      assert ToLower(w) == [Lower(w[0]), Lower(w[1]), Lower(w[2])];
    }
  }

  lemma BucketOf(s: string, c: char)
    requires '1' <= c <= '5' && ToLower(Trim(s)) == [c, 'x', 'x']
    ensures ClassBucket(s) == Some(ClassRange(c))
  {
  }

  lemma BucketOfClass(s: string, c: char)
    requires NamesClass(s, c)
    ensures '1' <= c <= '5' && ClassBucket(s) == Some(ClassRange(c))
  {
    var before, w, after :| s == before + w + after && IsBlank(before) && IsBlank(after) && IsClassText(w, c);
    LowerClassText(w, c);
    TrimOf(before, w, after);
    BucketOf(s, c);
  }

  lemma ClassOfBucket(s: string, c: char)
    requires '1' <= c <= '5' && ToLower(Trim(s)) == [c, 'x', 'x']
    ensures NamesClass(s, c)
  {
    var before, after := TrimSplit(s);
    LowerClassText(Trim(s), c);
  }

  /** Every other class is no class. */
  lemma KnownClass(s: string)
    ensures ClassBucket(s).Some? ==> exists c :: NamesClass(s, c)
  {
    var t := ToLower(Trim(s));
    if t == "1xx" {
      ClassOfBucket(s, '1');
    } else if t == "2xx" {
      ClassOfBucket(s, '2');
    } else if t == "3xx" {
      ClassOfBucket(s, '3');
    } else if t == "4xx" {
      ClassOfBucket(s, '4');
    } else if t == "5xx" {
      ClassOfBucket(s, '5');
    }
  }

  /** The status has the first digit of the class; a text that is no class selects everything. */
  ghost predicate InClass(s: string, status: nat) {
    forall c :: NamesClass(s, c) ==> status / 100 == c as int - '0' as int
  }

  lemma InClassIff(s: string, status: nat)
    ensures InClass(s, status) <==>
            (ClassBucket(s).Some? ==> ClassBucket(s).value.0 <= status <= ClassBucket(s).value.1)
  {
    KnownClass(s);
    forall c | NamesClass(s, c) ensures '1' <= c <= '5' && ClassBucket(s) == Some(ClassRange(c)) {
      BucketOfClass(s, c);
    }
  }

  /** What the filters select: each that is given must hold, whatever the others are. */
  lemma FiltersSelect(e: AuditEntry, q: Query)
    ensures Matches(e, q) <==>
            && (forall t :: q.since == Some(t) ==> t <= e.timestamp)
            && (forall m :: q.httpMethod == Some(m) ==>
                  |m| == |e.httpMethod| && forall i :: 0 <= i < |m| ==> SameLetter(e.httpMethod[i], m[i]))
            && (forall n :: q.status == Some(n) ==> e.status == n)
            && (forall s :: q.statusClass == Some(s) ==> InClass(s, e.status))
            && (forall p :: q.pathPrefix == Some(p) ==> |p| <= |e.path| && e.path[..|p|] == p)
            && (forall b :: q.authenticated == Some(b) ==> e.authenticated == b)
  {
    MethodFilterIgnoresCase(e, q);
    if q.httpMethod.Some? {
      IgnoringCaseIsByLetter(e.httpMethod, q.httpMethod.value);
    }
    if q.statusClass.Some? {
      InClassIff(q.statusClass.value, e.status);
    }
  }

  // ---- concurrent appends and streams ----

  /** An entry with the append it belongs to. */
  datatype Ticket = Ticket(id: nat, e: AuditEntry)

  datatype Stage = AtPush | AtPersist | AtCount | AtSend

  datatype Appending = Appending(e: AuditEntry, stage: Stage)

  datatype SseEvent = Entry(t: Ticket) | Gap(n: nat)

  /** A stream: subscribed at `start`, live after the snapshot; `skipped` are the positions its gap events counted. */
  datatype Stream = Stream(
    live: bool, start: nat, next: nat, resume: Option<nat>, q: Query,
    snapAt: nat, evicted: int, out: seq<SseEvent>, skipped: set<nat>)

  /** `passed` lists the appends in the order in which they left their first section. */
  datatype State = State(
    capacity: nat, ring: seq<Ticket>, dropped: nat, total: nat, sent: seq<Ticket>,
    passed: seq<Ticket>, appends: map<nat, Appending>, used: set<nat>, streams: map<nat, Stream>)

  datatype Event =
    | Begin(id: nat, e: AuditEntry)
    | Advance(id: nat)
    | Subscribe(sid: nat, resume: Option<nat>, q: Query)
    | Snapshot(sid: nat)
    | Recv(sid: nat)

  function Start(capacity: nat): State { State(capacity, [], 0, 0, [], [], map[], {}, map[]) }

  function SetStage(s: State, id: nat, stage: Stage): State
    requires id in s.appends
  {
    s.(appends := s.appends[id := Appending(s.appends[id].e, stage)])
  }

  function AdvanceStep(s: State, id: nat): State
    requires id in s.appends
  {
    var t := Ticket(id, s.appends[id].e);
    match s.appends[id].stage
    case AtPush =>
      SetStage(s, id, AtPersist).(
        ring := Pushed(s.ring, s.capacity, t),
        dropped := s.dropped + (if Evicts(s.ring, s.capacity) then 1 else 0),
        passed := s.passed + [t])
    case AtPersist => SetStage(s, id, AtCount)
    case AtCount => SetStage(s, id, AtSend).(total := s.total + 1)
    case AtSend => s.(sent := s.sent + [t], appends := s.appends - {id})
  }

  function Wanted(last: nat, q: Query): Ticket -> bool {
    (t: Ticket) => t.e.timestamp > last && Matches(t.e, q)
  }

  function Entries(ts: seq<Ticket>): seq<SseEvent> {
    Map(ts, (t: Ticket) => Entry(t))
  }

  function SnapshotStep(s: State, x: Stream): Stream {
    x.(live := true, snapAt := |s.passed|, evicted := |s.passed| - |s.ring|,
       out := match x.resume case None => [] case Some(last) => Entries(Filter(s.ring, Wanted(last, x.q))))
    }

  /** The n positions from a on. */
  function Positions(a: nat, n: nat): set<nat> {
    if n == 0 then {} else Positions(a, n - 1) + {a + n - 1}
  }

  lemma {:induction false} PositionsAre(a: nat, n: nat)
    ensures |Positions(a, n)| == n
    ensures forall p :: p in Positions(a, n) <==> a <= p < a + n
  {
    if n > 0 {
      PositionsAre(a, n - 1);
    }
  }

  function RecvStep(s: State, x: Stream): Stream {
    match Receive(s.sent, x.next)
    case Nothing => x
    case Item(t) => x.(next := x.next + 1, out := if Matches(t.e, x.q) then x.out + [Entry(t)] else x.out)
    case Lagged(n) =>
      x.(next := x.next + n, out := x.out + [Gap(n)], skipped := x.skipped + Positions(x.next, n))
  }

  function Step(s: State, ev: Event): State {
    match ev
    case Begin(id, e) =>
      if id in s.used then s else s.(appends := s.appends[id := Appending(e, AtPush)], used := s.used + {id})
    case Advance(id) => if id in s.appends then AdvanceStep(s, id) else s
    case Subscribe(sid, resume, q) =>
      if sid in s.streams then s
      else s.(streams := s.streams[sid := Stream(false, |s.sent|, |s.sent|, resume, q, 0, 0, [], {})])
    case Snapshot(sid) =>
      if sid in s.streams && !s.streams[sid].live
      then s.(streams := s.streams[sid := SnapshotStep(s, s.streams[sid])]) else s
    case Recv(sid) =>
      if sid in s.streams && s.streams[sid].live
      then s.(streams := s.streams[sid := RecvStep(s, s.streams[sid])]) else s
  }

  function Run(s: State, events: seq<Event>): State
    decreases |events|
  {
    if events == [] then s else Run(Step(s, events[0]), events[1..])
  }

  // ---- accounting ----

  predicate RingOk(s: State) {
    s.ring == Last(s.passed, s.capacity) && s.dropped == (if s.capacity == 0 then 0 else |s.passed| - |s.ring|)
  }

  /** The appends between their push and their count. */
  function Uncounted(s: State): set<nat> {
    set id | id in s.appends && (s.appends[id].stage.AtPersist? || s.appends[id].stage.AtCount?)
  }

  predicate CountOk(s: State) { s.total + |Uncounted(s)| == |s.passed| }

  predicate UsedOk(s: State) { forall id :: id in s.appends ==> id in s.used }

  predicate CountersOk(s: State) { RingOk(s) && CountOk(s) && UsedOk(s) }

  lemma SetStageCounts(s: State, id: nat, stage: Stage)
    requires id in s.appends
    ensures Uncounted(SetStage(s, id, stage)) ==
            if stage.AtPersist? || stage.AtCount? then Uncounted(s) + {id} else Uncounted(s) - {id}
  {
  }

  lemma UncountedDepends(s: State, t: State)
    requires s.appends == t.appends
    ensures Uncounted(s) == Uncounted(t)
  {
  }

  lemma AdvanceCounts(s: State, id: nat)
    requires CountOk(s) && id in s.appends
    ensures CountOk(AdvanceStep(s, id))
  {
    var t := AdvanceStep(s, id);
    match s.appends[id].stage {
      case AtPush =>
        SetStageCounts(s, id, AtPersist);
        UncountedDepends(SetStage(s, id, AtPersist), t);
        assert id !in Uncounted(s);
      case AtPersist =>
        SetStageCounts(s, id, AtCount);
        assert Uncounted(s) + {id} == Uncounted(s);
      case AtCount =>
        SetStageCounts(s, id, AtSend);
        UncountedDepends(SetStage(s, id, AtSend), t);
        assert id in Uncounted(s);
      case AtSend =>
        assert Uncounted(t) == Uncounted(s);
    }
  }

  lemma AdvanceKeepsRing(s: State, id: nat)
    requires RingOk(s) && UsedOk(s) && id in s.appends
    ensures RingOk(AdvanceStep(s, id)) && UsedOk(AdvanceStep(s, id))
  {
    PushedIsLast(s.passed, s.capacity, Ticket(id, s.appends[id].e));
  }

  lemma BeginCounts(s: State, t: State, id: nat, a: Appending)
    requires id !in s.appends && a.stage.AtPush? && t.appends == s.appends[id := a]
    ensures Uncounted(t) == Uncounted(s)
  {
  }

  lemma StepAccounts(s: State, ev: Event)
    requires CountersOk(s)
    ensures CountersOk(Step(s, ev)) && Step(s, ev).capacity == s.capacity
  {
    var t := Step(s, ev);
    match ev {
      case Begin(id, e) =>
        if id !in s.used {
          BeginCounts(s, t, id, Appending(e, AtPush));
        }
      case Advance(id) =>
        if id in s.appends {
          AdvanceCounts(s, id);
          AdvanceKeepsRing(s, id);
        }
      case _ =>
        UncountedDepends(s, t);
    }
  }

  lemma {:induction false} RunAccounts(s: State, events: seq<Event>)
    requires CountersOk(s)
    ensures CountersOk(Run(s, events)) && Run(s, events).capacity == s.capacity
    decreases |events|
  {
    if events != [] {
      StepAccounts(s, events[0]);
      RunAccounts(Step(s, events[0]), events[1..]);
    }
  }

  /** The ring is the last pushes, and the counters fit it. */
  predicate Balanced(s: State) {
    && s.ring == Last(s.passed, s.capacity)
    && s.dropped == (if s.capacity == 0 then 0 else |s.passed| - |s.ring|)
    && s.total <= |s.passed|
    && (s.appends == map[] ==> s.total == |s.passed|)
  }

  /**
   At every moment of any interleaving: the ring is the last entries in push order,
   the drop counter and the resident entries add up to the pushes, and the append
   counter never runs ahead of them and has caught up when no append is under way.
  */
  lemma ConcurrentAccounting(capacity: nat, events: seq<Event>)
    ensures Balanced(Run(Start(capacity), events))
    ensures Run(Start(capacity), events).capacity == capacity
  {
    var s := Run(Start(capacity), events);
    assert Uncounted(Start(capacity)) == {};
    RunAccounts(Start(capacity), events);
    if s.appends == map[] {
      assert Uncounted(s) == {};
    }
  }
}
