/** The progress reporter as a ledger: what was numbered, what waits, what is being sent, what was acknowledged. */
module ReporterLedger {

  datatype Event = Event(sequence: int, kind: string, payload: string)

  /** The control plane's answer to one request: a failure, or the last sequence it accepted. */
  datatype Reply = Failed | Accepted(last: int)

  const MaxEvents := 16
  const MaxBytes := 32 * 1024

  /** eventSize: the encoded size of an event. */
  type Sizer = Event -> nat

  /** inFlight is the batch handed to the client; acked and sent are the highest sequences acknowledged and handed over. */
  datatype Ledger = Ledger(next: int, pending: seq<Event>, inFlight: seq<Event>, acked: int, sent: int)

  const Start := Ledger(0, [], [], 0, 0)

  function Bytes(events: seq<Event>, size: Sizer): nat {
    if events == [] then 0 else Bytes(events[..|events| - 1], size) + size(events[|events| - 1])
  }

  /** The first n events are the longest batch of at most 16 events within 32 KiB; a single event always fits. */
  ghost predicate IsBatch(events: seq<Event>, n: nat, size: Sizer) {
    && n <= |events| && n <= MaxEvents && (events != [] ==> n > 0)
    && (n > 1 ==> Bytes(events[..n], size) <= MaxBytes)
    && (n < |events| && 0 < n < MaxEvents ==> Bytes(events[..n + 1], size) > MaxBytes)
  }

  function Max(a: int, b: int): int { if a < b then b else a }

  /** The events past the last accepted sequence. */
  function After(events: seq<Event>, last: int): seq<Event> {
    if events == [] then []
    else
      var rest, e := After(events[..|events| - 1], last), events[|events| - 1];
      if e.sequence <= last then rest else rest + [e]
  }

  // ---- The steps, in any interleaving

  ghost predicate Enqueues(l: Ledger, l': Ledger) {
    exists e: Event :: e.sequence == l.next + 1 && l' == l.(next := l.next + 1, pending := l.pending + [e])
  }

  ghost predicate DrainsTo(l: Ledger, l': Ledger, n: nat, size: Sizer) {
    && l.inFlight == [] && l.pending != [] && IsBatch(l.pending, n, size)
    && l' == l.(pending := l.pending[n..], inFlight := l.pending[..n], sent := Max(l.sent, l.pending[n - 1].sequence))
  }

  ghost predicate Drains(l: Ledger, l': Ledger, size: Sizer) {
    exists n :: DrainsTo(l, l', n, size)
  }

  /** A failed request puts its batch back; an accepted one drops what was accepted and puts the rest back. */
  function Settled(l: Ledger, reply: Reply): Ledger {
    match reply
    case Failed => l.(pending := l.inFlight + l.pending, inFlight := [])
    case Accepted(last) => l.(pending := After(l.inFlight, last) + l.pending, inFlight := [], acked := Max(l.acked, last))
  }

  ghost predicate Answers(l: Ledger, l': Ledger) {
    l.inFlight != [] && exists reply :: l' == Settled(l, reply)
  }

  ghost predicate Moves(l: Ledger, l': Ledger, size: Sizer) {
    Enqueues(l, l') || Drains(l, l', size) || Answers(l, l')
  }

  // ---- What every step keeps

  function Waiting(l: Ledger): seq<Event> { l.inFlight + l.pending }

  /** The number before the first event still waiting. */
  function Settled0(l: Ledger): int { l.next - |Waiting(l)| }

  ghost predicate Run(events: seq<Event>, before: int) {
    forall i :: 0 <= i < |events| ==> events[i].sequence == before + 1 + i
  }

  /**
   * What is in flight, then what is pending, is the unbroken run of numbers up to the last one given out;
   * everything before it was acknowledged, and everything before it or in flight was sent.
   */
  ghost predicate Accounts(l: Ledger) {
    && 0 <= Settled0(l) <= l.acked && Run(Waiting(l), Settled0(l))
    && Settled0(l) + |l.inFlight| <= l.sent <= l.next
  }

  lemma {:induction false} AfterIsSuffix(events: seq<Event>, before: int, last: int)
    requires Run(events, before)
    ensures After(events, last) == events[if last <= before then 0 else if last - before >= |events| then |events| else last - before..]
  {
    if events != [] {
      var front := events[..|events| - 1];
      AfterIsSuffix(front, before, last);
      assert events == front + [events[|events| - 1]];
    }
  }

  lemma {:induction false} EnqueueKeeps(l: Ledger, l': Ledger)
    requires Accounts(l) && Enqueues(l, l')
    ensures Accounts(l')
  {
    var e: Event :| e.sequence == l.next + 1 && l' == l.(next := l.next + 1, pending := l.pending + [e]);
    assert Waiting(l') == Waiting(l) + [e];
  }

  lemma {:induction false} DrainKeeps(l: Ledger, l': Ledger, size: Sizer)
    requires Accounts(l) && Drains(l, l', size)
    ensures Accounts(l')
  {
    var n :| DrainsTo(l, l', n, size);
    assert Waiting(l) == l.pending && Waiting(l') == l.pending;
    assert Waiting(l)[n - 1].sequence == Settled0(l) + n;
  }

  lemma {:induction false} AnswerKeeps(l: Ledger, reply: Reply)
    requires Accounts(l) && l.inFlight != []
    ensures Accounts(Settled(l, reply))
  {
    var l' := Settled(l, reply);
    assert Run(l.inFlight, Settled0(l)) by {
      forall i | 0 <= i < |l.inFlight| ensures l.inFlight[i].sequence == Settled0(l) + 1 + i {
        assert Waiting(l)[i] == l.inFlight[i];
      }
    }
    match reply
    case Failed => assert Waiting(l') == Waiting(l);
    case Accepted(last) =>
      AfterIsSuffix(l.inFlight, Settled0(l), last);
      var k := |l.inFlight| - |After(l.inFlight, last)|;
      assert Waiting(l') == Waiting(l)[k..];
  }

  lemma {:induction false} MoveKeeps(l: Ledger, l': Ledger, size: Sizer)
    requires Accounts(l) && Moves(l, l', size)
    ensures Accounts(l')
  {
    if Enqueues(l, l') {
      EnqueueKeeps(l, l');
    } else if Drains(l, l', size) {
      DrainKeeps(l, l', size);
    } else {
      var reply :| l' == Settled(l, reply);
      AnswerKeeps(l, reply);
    }
  }

  /** An unbroken history of the reporter. */
  ghost predicate History(trace: seq<Ledger>, size: Sizer) {
    trace != [] && trace[0] == Start && forall i :: 0 <= i < |trace| - 1 ==> Moves(trace[i], trace[i + 1], size)
  }

  /** In every reachable state the events are accounted for. */
  lemma {:induction false} AlwaysAccounted(trace: seq<Ledger>, size: Sizer, k: nat)
    requires History(trace, size) && k < |trace|
    ensures Accounts(trace[k])
  {
    if k > 0 {
      AlwaysAccounted(trace, size, k - 1);
      assert Moves(trace[k - 1], trace[k - 1 + 1], size);
      MoveKeeps(trace[k - 1], trace[k], size);
    }
  }

  ghost predicate Waits(l: Ledger, s: int) {
    exists i :: 0 <= i < |Waiting(l)| && Waiting(l)[i].sequence == s
  }

  /** At least once, and dropped only when acknowledged: a numbered event waits until a sequence at or past it was accepted. */
  lemma {:induction false} DroppedOnlyIfAcknowledged(trace: seq<Ledger>, size: Sizer, k: nat, s: int)
    requires History(trace, size) && k < |trace| && 1 <= s <= trace[k].next
    ensures Waits(trace[k], s) || (s <= trace[k].acked && s <= trace[k].sent)
  {
    AlwaysAccounted(trace, size, k);
    var l := trace[k];
    if s > Settled0(l) { assert Waiting(l)[s - Settled0(l) - 1].sequence == s; }
  }

  /** What waits is never renumbered, reordered or changed: a step drops a prefix of it or appends one event to it. */
  lemma {:induction false} WaitingOnlySlides(l: Ledger, l': Ledger, size: Sizer)
    requires Accounts(l) && Moves(l, l', size)
    ensures (exists k :: DropsPrefix(l, l', k)) || (exists e :: AddsOne(l, l', e))
  {
    if Enqueues(l, l') {
      var e: Event :| e.sequence == l.next + 1 && l' == l.(next := l.next + 1, pending := l.pending + [e]);
      assert AddsOne(l, l', e);
    } else if Drains(l, l', size) {
      assert DropsPrefix(l, l', 0);
    } else {
      var reply :| l' == Settled(l, reply);
      var k := AnswerDropsPrefix(l, reply);
      assert DropsPrefix(l, l', k);
    }
  }

  ghost predicate DropsPrefix(l: Ledger, l': Ledger, k: nat) {
    k <= |Waiting(l)| && Waiting(l') == Waiting(l)[k..]
  }

  ghost predicate AddsOne(l: Ledger, l': Ledger, e: Event) {
    Waiting(l') == Waiting(l) + [e]
  }

  lemma {:induction false} AnswerDropsPrefix(l: Ledger, reply: Reply) returns (k: nat)
    requires Accounts(l)
    ensures k <= |Waiting(l)| && Waiting(Settled(l, reply)) == Waiting(l)[k..]
  {
    assert Run(l.inFlight, Settled0(l)) by {
      forall i | 0 <= i < |l.inFlight| ensures l.inFlight[i].sequence == Settled0(l) + 1 + i {
        assert Waiting(l)[i] == l.inFlight[i];
      }
    }
    match reply
    case Failed =>
      k := 0;
    case Accepted(last) =>
      AfterIsSuffix(l.inFlight, Settled0(l), last);
      k := |l.inFlight| - |After(l.inFlight, last)|;
  }

  // ---- Batches

  lemma {:induction false} BytesGrow(events: seq<Event>, n: nat, size: Sizer)
    requires n <= |events|
    ensures Bytes(events[..n], size) <= Bytes(events, size)
    decreases |events|
  {
    if n < |events| {
      assert events[..|events| - 1][..n] == events[..n];
      BytesGrow(events[..|events| - 1], n, size);
    } else {
      assert events[..n] == events;
    }
  }

  /** There is one such batch. */
  lemma {:induction false} BatchIsUnique(events: seq<Event>, n: nat, m: nat, size: Sizer)
    requires IsBatch(events, n, size) && IsBatch(events, m, size)
    ensures n == m
  {
    if n < m {
      assert events[..m][..n + 1] == events[..n + 1];
      BytesGrow(events[..m], n + 1, size);
    } else if m < n {
      assert events[..n][..m + 1] == events[..m + 1];
      BytesGrow(events[..n], m + 1, size);
    }
  }

  lemma {:induction false} BytesAppend(a: seq<Event>, b: seq<Event>, size: Sizer)
    ensures Bytes(a + b, size) == Bytes(a, size) + Bytes(b, size)
  {
    if b == [] {
      assert a + b == a;
    } else {
      assert (a + b)[..|a + b| - 1] == a + b[..|b| - 1];
      BytesAppend(a, b[..|b| - 1], size);
    }
  }
}
