/**
 The server-sent-events stream of the audit log under concurrent appends: the
 bookkeeping that every step keeps, and that a resumed stream leaves no gap.
*/
module AuditStream {
  import opened Sequences
  import opened AuditRing

  // ---- tickets ----

  /** Every push belongs to one append, which is still under way or has been broadcast. */
  ghost predicate TicketsOk(s: State) {
    && UsedOk(s)
    && (forall i :: 0 <= i < |s.passed| ==> s.passed[i].id in s.used)
    && (forall i, j :: 0 <= i < j < |s.passed| ==> s.passed[i].id != s.passed[j].id)
    && (forall id :: id in s.appends && s.appends[id].stage.AtPush? ==> forall i :: 0 <= i < |s.passed| ==> s.passed[i].id != id)
    && (forall id :: id in s.appends && !s.appends[id].stage.AtPush? ==> Ticket(id, s.appends[id].e) in s.passed)
  }

  lemma SamePass(s: State, i: nat, t: Ticket)
    requires TicketsOk(s) && i < |s.passed| && t in s.passed && s.passed[i].id == t.id
    ensures s.passed[i] == t
  {
    var j :| 0 <= j < |s.passed| && s.passed[j] == t;
    assert i == j;
  }

  lemma AdvanceKeepsTickets(s: State, id: nat)
    requires TicketsOk(s) && id in s.appends
    ensures TicketsOk(AdvanceStep(s, id))
  {
  }

  lemma StepKeepsTickets(s: State, ev: Event)
    requires TicketsOk(s)
    ensures TicketsOk(Step(s, ev))
  {
    if ev.Advance? && ev.id in s.appends {
      AdvanceKeepsTickets(s, ev.id);
    }
  }

  // ---- streams ----

  /** The entries a gap event was sent for, in number. */
  function Gaps(out: seq<SseEvent>): nat {
    if out == [] then 0 else (match out[0] case Gap(n) => n case Entry(_) => 0) + Gaps(out[1..])
  }

  lemma {:induction false} GapsAppend(a: seq<SseEvent>, b: seq<SseEvent>)
    ensures Gaps(a + b) == Gaps(a) + Gaps(b)
  {
    if a == [] {
      Unit(b);
    } else {
      GapsAppend(a[1..], b);
      assert (a + b)[1..] == a[1..] + b;
    }
  }

  lemma {:induction false} EntriesHaveNoGaps(ts: seq<Ticket>)
    ensures Gaps(Entries(ts)) == 0
  {
    if ts != [] {
      EntriesHaveNoGaps(ts[1..]);
      assert Entries(ts)[1..] == Entries(ts[1..]);
    }
  }

  /** Broadcast since the stream subscribed. */
  predicate SentSince(s: State, start: nat, t: Ticket) {
    exists p :: start <= p < |s.sent| && s.sent[p] == t
  }

  predicate PushedLater(s: State, x: Stream, i: nat)
    requires i < |s.passed|
  {
    s.passed[i].id in s.appends || SentSince(s, x.start, s.passed[i])
  }

  predicate Replayed(s: State, x: Stream, i: nat)
    requires i < |s.passed|
  {
    x.resume.Some? && Wanted(x.resume.value, x.q)(s.passed[i]) ==> Entry(s.passed[i]) in x.out
  }

  predicate Accounted(s: State, x: Stream, p: nat)
    requires p < |s.sent|
  {
    p in x.skipped || (Matches(s.sent[p].e, x.q) ==> Entry(s.sent[p]) in x.out)
  }

  ghost predicate StreamOk(s: State, x: Stream) {
    && x.start <= x.next <= |s.sent|
    && |x.skipped| == Gaps(x.out)
    && (forall p :: p in x.skipped ==> x.start <= p < x.next)
    && (!x.live ==> x.next == x.start && x.out == [])
    && (x.live ==>
          && x.snapAt <= |s.passed|
          && (s.capacity > 0 ==> x.evicted <= s.dropped)
          && (forall i :: 0 <= i < |s.passed| && x.evicted <= i < x.snapAt ==> Replayed(s, x, i))
          && (forall i :: x.snapAt <= i < |s.passed| ==> PushedLater(s, x, i))
          && (forall p :: x.start <= p < x.next ==> Accounted(s, x, p)))
  }

  ghost predicate StreamsOk(s: State) { forall sid :: sid in s.streams ==> StreamOk(s, s.streams[sid]) }

  /** Appends going on: what a stream relies on only grows. */
  lemma StreamStays(s: State, t: State, x: Stream)
    requires StreamOk(s, x)
    requires s.sent <= t.sent && s.passed <= t.passed && s.capacity == t.capacity && s.dropped <= t.dropped
    requires forall i :: 0 <= i < |s.passed| && s.passed[i].id in s.appends ==>
               s.passed[i].id in t.appends || SentSince(t, x.start, s.passed[i])
    requires forall i :: |s.passed| <= i < |t.passed| ==> t.passed[i].id in t.appends
    ensures StreamOk(t, x)
  {
    if x.live {
      forall i | x.snapAt <= i < |t.passed| ensures PushedLater(t, x, i) {
        if i < |s.passed| {
          assert PushedLater(s, x, i);
          if SentSince(s, x.start, s.passed[i]) {
            var p :| x.start <= p < |s.sent| && s.sent[p] == s.passed[i];
            assert t.sent[p] == t.passed[i];
          }
        }
      }
      forall i | 0 <= i < |t.passed| && x.evicted <= i < x.snapAt ensures Replayed(t, x, i) {
        assert Replayed(s, x, i);
      }
      forall p | x.start <= p < x.next ensures Accounted(t, x, p) {
        assert Accounted(s, x, p);
      }
    }
  }

  lemma AdvanceKeepsStream(s: State, id: nat, x: Stream)
    requires TicketsOk(s) && StreamOk(s, x) && id in s.appends
    ensures StreamOk(AdvanceStep(s, id), x)
  {
    var t := AdvanceStep(s, id);
    var mine := Ticket(id, s.appends[id].e);
    forall i | 0 <= i < |s.passed| && s.passed[i].id in s.appends
      ensures s.passed[i].id in t.appends || SentSince(t, x.start, s.passed[i])
    {
      if s.appends[id].stage.AtSend? && s.passed[i].id == id {
        SamePass(s, i, mine);
        assert t.sent[|s.sent|] == mine;
      }
    }
    StreamStays(s, t, x);
  }

  lemma InRing(s: State, i: nat)
    requires RingOk(s) && |s.passed| - |s.ring| <= i < |s.passed|
    ensures s.passed[i] in s.ring
  {
    assert s.ring[i - (|s.passed| - |s.ring|)] == s.passed[i];
  }

  lemma EntriesMember(ts: seq<Ticket>, t: Ticket)
    requires t in ts
    ensures Entry(t) in Entries(ts)
  {
    var i :| 0 <= i < |ts| && ts[i] == t;
    assert Entries(ts)[i] == Entry(t);
  }

  /** The snapshot, taken after subscribing, starts the stream right. */
  lemma SnapshotKeeps(s: State, x: Stream)
    requires RingOk(s) && StreamOk(s, x) && !x.live
    ensures StreamOk(s, SnapshotStep(s, x))
  {
    var y := SnapshotStep(s, x);
    assert Gaps([]) == 0;
    forall i | 0 <= i < |s.passed| && y.evicted <= i < y.snapAt ensures Replayed(s, y, i) {
      if x.resume.Some? && Wanted(x.resume.value, x.q)(s.passed[i]) {
        InRing(s, i);
        FilterMember(s.ring, Wanted(x.resume.value, x.q), s.passed[i]);
        EntriesMember(Filter(s.ring, Wanted(x.resume.value, x.q)), s.passed[i]);
      }
    }
    if x.resume.Some? {
      EntriesHaveNoGaps(Filter(s.ring, Wanted(x.resume.value, x.q)));
    }
  }

  lemma RecvKeeps(s: State, x: Stream)
    requires StreamOk(s, x) && x.live
    ensures StreamOk(s, RecvStep(s, x))
  {
    var y := RecvStep(s, x);
    match Receive(s.sent, x.next) {
      case Nothing =>
      case Item(t) =>
        GapsAppend(x.out, [Entry(t)]);
        assert [Entry(t)][1..] == [];
        OutGrows(s, x, y);
      case Lagged(n) =>
        GapsAppend(x.out, [Gap(n)]);
        assert [Gap(n)][1..] == [];
        PositionsAre(x.next, n);
        assert x.skipped !! Positions(x.next, n);
        OutGrows(s, x, y);
    }
  }

  lemma OutGrows(s: State, x: Stream, y: Stream)
    requires StreamOk(s, x) && x.live && y.(next := x.next, out := x.out, skipped := x.skipped) == x
    requires x.next <= y.next <= |s.sent| && x.out <= y.out && x.skipped <= y.skipped
    requires |y.skipped| == Gaps(y.out)
    requires forall p :: p in y.skipped ==> y.start <= p < y.next
    requires forall p :: x.next <= p < y.next ==> Accounted(s, y, p)
    ensures StreamOk(s, y)
  {
    forall i | 0 <= i < |s.passed| && y.evicted <= i < y.snapAt ensures Replayed(s, y, i) {
      assert Replayed(s, x, i);
    }
    forall i | y.snapAt <= i < |s.passed| ensures PushedLater(s, y, i) {
      assert PushedLater(s, x, i);
    }
    forall p | y.start <= p < y.next ensures Accounted(s, y, p) {
      if p < x.next {
        assert Accounted(s, x, p);
      }
    }
  }

  ghost predicate Inv(s: State) { RingOk(s) && CountOk(s) && TicketsOk(s) && StreamsOk(s) }

  lemma StepKeepsStream(s: State, ev: Event, sid: nat)
    requires Inv(s) && sid in s.streams
    ensures sid in Step(s, ev).streams && StreamOk(Step(s, ev), Step(s, ev).streams[sid])
  {
    var t, x := Step(s, ev), s.streams[sid];
    if ev.Advance? {
      if ev.id in s.appends {
        AdvanceKeepsStream(s, ev.id, x);
      }
    } else if ev == Snapshot(sid) && !x.live {
      SnapshotKeeps(s, x);
      StreamStays(s, t, t.streams[sid]);
    } else if ev == Recv(sid) && x.live {
      RecvKeeps(s, x);
      StreamStays(s, t, t.streams[sid]);
    } else {
      StreamStays(s, t, x);
    }
  }

  lemma StepKeepsStreams(s: State, ev: Event)
    requires Inv(s)
    ensures StreamsOk(Step(s, ev))
  {
    var t := Step(s, ev);
    forall sid | sid in t.streams ensures StreamOk(t, t.streams[sid]) {
      if sid in s.streams {
        StepKeepsStream(s, ev, sid);
      }
    }
  }

  lemma {:induction false} RunKeeps(s: State, events: seq<Event>)
    requires Inv(s)
    ensures Inv(Run(s, events))
    decreases |events|
  {
    if events != [] {
      StepAccounts(s, events[0]);
      StepKeepsTickets(s, events[0]);
      StepKeepsStreams(s, events[0]);
      RunKeeps(Step(s, events[0]), events[1..]);
    }
  }

  /** Waiting in the queue, to be received or reported as missed. */
  predicate Queued(s: State, x: Stream, t: Ticket) {
    exists p :: x.next <= p < |s.sent| && s.sent[p] == t
  }

  /** Passed over, with its position among those that gap events counted. */
  predicate CountedMissing(s: State, x: Stream, t: Ticket) {
    exists p :: p in x.skipped && p < |s.sent| && s.sent[p] == t
  }

  /** A stream that resumes from an event id and has taken its snapshot. */
  predicate Resumed(s: State, sid: nat) {
    sid in s.streams && s.streams[sid].live && s.streams[sid].resume.Some?
  }

  /**
   Resuming a stream leaves no gap: under every interleaving of appends with the
   subscription, the snapshot and the reads, an entry that matches the filters and
   is newer than the last event id has been delivered, is still being appended or
   queued, was evicted from the ring before the snapshot, or is one of those that
   the stream's gap events counted.
  */
  lemma ResumeLeavesNoGap(capacity: nat, events: seq<Event>, sid: nat, i: nat)
    requires Resumed(Run(Start(capacity), events), sid) && i < |Run(Start(capacity), events).passed|
    ensures var s := Run(Start(capacity), events);
            var x := s.streams[sid];
            var t := s.passed[i];
            && |x.skipped| == Gaps(x.out)
            && (capacity > 0 ==> x.evicted <= s.dropped)
            && (t.e.timestamp > x.resume.value && Matches(t.e, x.q) ==>
                  || Entry(t) in x.out
                  || t.id in s.appends
                  || Queued(s, x, t)
                  || i < x.evicted
                  || CountedMissing(s, x, t))
  {
    var s := Run(Start(capacity), events);
    assert Uncounted(Start(capacity)) == {};
    RunKeeps(Start(capacity), events);
    RunAccounts(Start(capacity), events);
    var x, t := s.streams[sid], s.passed[i];
    assert StreamOk(s, x);
    if Wanted(x.resume.value, x.q)(t) {
      if i >= x.snapAt {
        assert PushedLater(s, x, i);
        if t.id !in s.appends {
          var p :| x.start <= p < |s.sent| && s.sent[p] == t;
          if p < x.next {
            assert Accounted(s, x, p);
          }
        }
      } else if i >= x.evicted {
        assert Replayed(s, x, i);
      }
    }
  }

  // ---- nothing else is delivered ----

  ghost predicate SentOk(s: State) { forall t :: t in s.sent ==> t in s.passed }

  /** A delivered entry is in the log, matches, and is newer than the last event id or was broadcast since. */
  ghost predicate Due(s: State, x: Stream, t: Ticket) {
    && t in s.passed && Matches(t.e, x.q)
    && (SentSince(s, x.start, t) || (x.resume.Some? && t.e.timestamp > x.resume.value))
  }

  ghost predicate DeliversOk(s: State, x: Stream) {
    x.start <= x.next && forall t :: Entry(t) in x.out ==> Due(s, x, t)
  }

  ghost predicate DeliveriesOk(s: State) {
    SentOk(s) && forall sid :: sid in s.streams ==> DeliversOk(s, s.streams[sid])
  }

  lemma AdvanceKeepsSent(s: State, id: nat)
    requires TicketsOk(s) && SentOk(s) && id in s.appends
    ensures SentOk(AdvanceStep(s, id))
    ensures s.passed <= AdvanceStep(s, id).passed && s.sent <= AdvanceStep(s, id).sent
  {
  }

  lemma EntriesOnly(ts: seq<Ticket>, t: Ticket)
    ensures Entry(t) in Entries(ts) <==> t in ts
  {
    if t in ts {
      EntriesMember(ts, t);
    }
  }

  lemma DueStays(s: State, t: State, x: Stream)
    requires DeliversOk(s, x) && s.passed <= t.passed && s.sent <= t.sent
    ensures DeliversOk(t, x)
  {
    forall k | Entry(k) in x.out ensures Due(t, x, k) {
      assert Due(s, x, k);
      if SentSince(s, x.start, k) {
        var p :| x.start <= p < |s.sent| && s.sent[p] == k;
        assert t.sent[p] == k;
      }
    }
  }

  lemma SnapshotDelivers(s: State, x: Stream)
    requires RingOk(s) && x.start <= x.next
    ensures DeliversOk(s, SnapshotStep(s, x))
  {
    if x.resume.Some? {
      forall t | Entry(t) in SnapshotStep(s, x).out ensures Due(s, SnapshotStep(s, x), t) {
        EntriesOnly(Filter(s.ring, Wanted(x.resume.value, x.q)), t);
        FilterMember(s.ring, Wanted(x.resume.value, x.q), t);
      }
    }
  }

  lemma RecvDelivers(s: State, x: Stream)
    requires SentOk(s) && DeliversOk(s, x)
    ensures DeliversOk(s, RecvStep(s, x))
  {
    match Receive(s.sent, x.next) {
      case Nothing =>
      case Item(t) =>
        assert t == s.sent[x.next];
        assert SentSince(s, x.start, t);
        DueKept(s, x, RecvStep(s, x));
      case Lagged(n) =>
        DueKept(s, x, RecvStep(s, x));
    }
  }

  lemma DueKept(s: State, x: Stream, y: Stream)
    requires DeliversOk(s, x) && y.start == x.start && y.resume == x.resume && y.q == x.q
    ensures forall t :: Entry(t) in x.out ==> Due(s, y, t)
  {
    forall t | Entry(t) in x.out ensures Due(s, y, t) {
      assert Due(s, x, t);
    }
  }

  lemma StepDelivers(s: State, ev: Event)
    requires RingOk(s) && TicketsOk(s) && DeliveriesOk(s)
    ensures DeliveriesOk(Step(s, ev))
  {
    var t := Step(s, ev);
    match ev {
      case Advance(id) =>
        if id in s.appends {
          AdvanceKeepsSent(s, id);
          forall sid | sid in t.streams ensures DeliversOk(t, t.streams[sid]) {
            DueStays(s, t, s.streams[sid]);
          }
        }
      case Snapshot(sid) =>
        if sid in s.streams && !s.streams[sid].live {
          SnapshotDelivers(s, s.streams[sid]);
          OthersDeliver(s, t, sid);
        }
      case Recv(sid) =>
        if sid in s.streams && s.streams[sid].live {
          RecvDelivers(s, s.streams[sid]);
          OthersDeliver(s, t, sid);
        }
      case Subscribe(sid, _, _) =>
        if sid !in s.streams {
          OthersDeliver(s, t, sid);
        }
      case Begin(_, _) =>
    }
  }

  lemma OthersDeliver(s: State, t: State, sid: nat)
    requires DeliveriesOk(s) && t.sent == s.sent && t.passed == s.passed
    requires sid in t.streams && t.streams - {sid} == s.streams - {sid} && DeliversOk(s, t.streams[sid])
    ensures DeliveriesOk(t)
  {
    forall i | i in t.streams ensures DeliversOk(t, t.streams[i]) {
      if i != sid {
        assert i in t.streams - {sid};
        assert t.streams[i] == (t.streams - {sid})[i] == (s.streams - {sid})[i] == s.streams[i];
        assert DeliversOk(s, s.streams[i]);
      }
    }
  }

  lemma {:induction false} RunDelivers(s: State, events: seq<Event>)
    requires Inv(s) && DeliveriesOk(s)
    ensures DeliveriesOk(Run(s, events))
    decreases |events|
  {
    if events != [] {
      StepAccounts(s, events[0]);
      StepKeepsTickets(s, events[0]);
      StepKeepsStreams(s, events[0]);
      StepDelivers(s, events[0]);
      RunDelivers(Step(s, events[0]), events[1..]);
    }
  }

  /**
   And a stream delivers only entries of the log that match its filters and are
   newer than the last event id, or were broadcast after it subscribed.
  */
  lemma StreamDeliversMatches(capacity: nat, events: seq<Event>, sid: nat, t: Ticket)
    requires sid in Run(Start(capacity), events).streams
    ensures var s := Run(Start(capacity), events);
            var x := s.streams[sid];
            Entry(t) in x.out ==>
              && t in s.passed && Matches(t.e, x.q)
              && (SentSince(s, x.start, t) || (x.resume.Some? && t.e.timestamp > x.resume.value))
  {
    assert Uncounted(Start(capacity)) == {};
    RunDelivers(Start(capacity), events);
    assert DeliversOk(Run(Start(capacity), events), Run(Start(capacity), events).streams[sid]);
  }
}
