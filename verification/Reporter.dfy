/** The progress event reporter: a numbered queue, drained in bounded batches by one flusher at a time. */
module Reporter {
  import opened ReporterLedger

  /** One request: what other goroutines enqueue while it is out, and its answer. */
  datatype Round = Round(during: seq<(string, string)>, reply: Reply)

  /** The counting loop of drainPending. */
  method MeasureBatch(pending: seq<Event>, size: Sizer) returns (count: nat, bytes: nat)
    ensures IsBatch(pending, count, size) && bytes == Bytes(pending[..count], size)
  {
    count, bytes := 0, 0;
    while count < |pending| && count < MaxEvents
      invariant 0 <= count <= |pending| && count <= MaxEvents && bytes == Bytes(pending[..count], size)
      invariant count > 1 ==> bytes <= MaxBytes
    {
      assert pending[..count + 1][..count] == pending[..count];
      var eventSize := size(pending[count]);
      if count > 0 && bytes + eventSize > MaxBytes {
        break;
      }
      bytes := bytes + eventSize;
      count := count + 1;
    }
  }

  /** The events of a batch past the last accepted sequence, with their size. */
  method Unaccepted(batch: seq<Event>, last: int, size: Sizer) returns (remaining: seq<Event>, bytes: nat)
    ensures remaining == After(batch, last) && bytes == Bytes(remaining, size)
  {
    remaining, bytes := [], 0;
    for i := 0 to |batch|
      invariant remaining == After(batch[..i], last) && bytes == Bytes(remaining, size)
    {
      var event := batch[i];
      assert batch[..i + 1][..i] == batch[..i];
      if event.sequence <= last { continue; }
      assert (remaining + [event])[..|remaining|] == remaining;
      remaining := remaining + [event];
      bytes := bytes + size(event);
    }
    assert batch[..|batch|] == batch;
  }

  class JobEventReporter {
    const size: Sizer
    var nextSequence: int
    var pending: seq<Event>
    var pendingBytes: int
    ghost var inFlight: seq<Event>
    ghost var acked: int
    ghost var sent: int

    ghost function Now(): Ledger
      reads this
    {
      Ledger(nextSequence, pending, inFlight, acked, sent)
    }

    ghost predicate Valid()
      reads this
    {
      Accounts(Now()) && pendingBytes == Bytes(pending, size)
    }

    constructor (size: Sizer)
      ensures Valid() && Now() == Start && this.size == size
    {
      this.size := size;
      nextSequence, pending, pendingBytes, inFlight, acked, sent := 0, [], 0, [], 0, 0;
    }

    method Enqueue(kind: string, payload: string) returns (shouldFlush: bool)
      requires Valid()
      modifies this`nextSequence, this`pending, this`pendingBytes
      ensures Valid() && Enqueues(old(Now()), Now())
      ensures Now() == old(Now()).(next := old(nextSequence) + 1, pending := old(pending) + [Event(old(nextSequence) + 1, kind, payload)])
      ensures shouldFlush <==> |pending| >= MaxEvents || Bytes(pending, size) >= MaxBytes
    {
      nextSequence := nextSequence + 1;
      var event := Event(nextSequence, kind, payload);
      assert (pending + [event])[..|pending|] == pending;
      pending := pending + [event];
      pendingBytes := pendingBytes + size(event);
      shouldFlush := |pending| >= MaxEvents || pendingBytes >= MaxBytes;
      EnqueueKeeps(old(Now()), Now());
    }

    /** drainPending: the batch leaves the queue and is in flight. */
    method DrainPending() returns (batch: seq<Event>, batchBytes: int)
      requires Valid() && inFlight == []
      modifies this`pending, this`pendingBytes, this`inFlight, this`sent
      ensures Valid() && batch == inFlight && batchBytes == Bytes(batch, size)
      ensures old(pending) == [] ==> batch == [] && Now() == old(Now())
      ensures old(pending) != [] ==> batch != [] && DrainsTo(old(Now()), Now(), |batch|, size)
    {
      if |pending| == 0 {
        return [], 0;
      }
      var count, bytes := MeasureBatch(pending, size);
      batch := pending[..count];
      assert pending == batch + pending[count..];
      BytesAppend(batch, pending[count..], size);
      sent := Max(sent, pending[count - 1].sequence);
      inFlight := batch;
      pending := pending[count..];
      pendingBytes := pendingBytes - bytes;
      if |pending| == 0 {
        pendingBytes := 0;
      }
      batchBytes := bytes;
      assert DrainsTo(old(Now()), Now(), count, size);
      DrainKeeps(old(Now()), Now(), size);
    }

    /** prependPending: what is given goes back in front. */
    method PrependPending(events: seq<Event>, bytes: int)
      requires bytes == Bytes(events, size)
      modifies this`pending, this`pendingBytes
      ensures pending == events + old(pending) && pendingBytes == old(pendingBytes) + bytes
    {
      if |events| == 0 {
        return;
      }
      pending := events + pending;
      pendingBytes := pendingBytes + bytes;
    }

    /** The end of flushBatch: what the answer to a request does with its batch. */
    method Settle(batch: seq<Event>, batchBytes: int, reply: Reply) returns (all: bool, failed: bool)
      requires Valid() && batch == inFlight != [] && batchBytes == Bytes(batch, size)
      modifies this`pending, this`pendingBytes, this`inFlight, this`acked
      ensures Valid() && Now() == Settled(old(Now()), reply) && Answers(old(Now()), Now())
      ensures failed <==> reply.Failed?
      ensures all <==> reply.Accepted? && reply.last >= batch[|batch| - 1].sequence
      ensures all ==> pending == old(pending)
    {
      AnswerKeeps(Now(), reply);
      BytesAppend(batch, pending, size);
      ghost var before := Settled0(Now());
      assert Run(batch, before) by {
        forall i | 0 <= i < |batch| ensures batch[i].sequence == before + 1 + i {
          assert Waiting(Now())[i] == batch[i];
        }
      }
      match reply
      case Failed =>
        PrependPending(batch, batchBytes);
        inFlight := [];
        return false, true;
      case Accepted(last) =>
        AfterIsSuffix(batch, before, last);
        acked := Max(acked, last);
        if last >= batch[|batch| - 1].sequence {
          inFlight := [];
          assert pending == [] + pending;
          return true, false;
        }
        var remaining, remainingBytes := Unaccepted(batch, last, size);
        BytesAppend(remaining, pending, size);
        PrependPending(remaining, remainingBytes);
        inFlight := [];
        return false, false;
    }

    /** What other goroutines enqueue while a request is out. */
    method EnqueueAll(during: seq<(string, string)>) returns (ghost added: seq<Event>)
      requires Valid()
      modifies this`nextSequence, this`pending, this`pendingBytes
      ensures Valid() && inFlight == old(inFlight) && nextSequence >= old(nextSequence)
      ensures pending == old(pending) + added && |added| == |during|
    {
      added := [];
      for i := 0 to |during|
        invariant Valid() && inFlight == old(inFlight) && nextSequence >= old(nextSequence)
        invariant pending == old(pending) + added && |added| == i
      {
        ghost var was := pending;
        var _ := Enqueue(during[i].0, during[i].1);
        added := added + [pending[|was|]];
      }
    }

    /** flushBatch, with whatever is enqueued while its request is out. */
    method FlushBatch(round: Round) returns (all: bool, failed: bool, ghost count: nat, ghost added: seq<Event>)
      requires Valid() && inFlight == []
      modifies this
      ensures Valid() && inFlight == []
      ensures old(pending) == [] ==> !all && !failed && Now() == old(Now())
      ensures old(pending) != [] ==> Flushed(old(pending), round, count, added, pending, size)
      ensures failed <==> old(pending) != [] && round.reply.Failed?
      ensures all <==> old(pending) != [] && AllAccepted(old(pending), count, round)
    {
      var batch, batchBytes := DrainPending();
      count, added := |batch|, [];
      if |batch| == 0 {
        return false, false, count, added;
      }
      ghost var rest := pending;
      added := EnqueueAll(round.during);
      all, failed := Settle(batch, batchBytes, round.reply);
      assert batch == old(pending)[..count] && rest == old(pending)[count..];
      assert batch + rest == old(pending);
      LeftRegrouped(batch, rest, added, round.reply);
    }

    /** One turn of the loop of Flush. */
    method FlushStep(round: Round) returns (finished: bool, failed: bool, ghost count: nat, ghost added: seq<Event>)
      requires Valid() && inFlight == []
      modifies this
      ensures Valid() && inFlight == []
      ensures old(pending) == [] ==> finished && !failed && pending == []
      ensures old(pending) != [] ==> Flushed(old(pending), round, count, added, pending, size)
      ensures old(pending) != [] ==> (finished <==> !AllAccepted(old(pending), count, round)) && (failed <==> round.reply.Failed?)
      ensures old(pending) != [] && finished ==> pending != []
    {
      ghost var was := pending;
      var all;
      all, failed, count, added := FlushBatch(round);
      finished := failed || !all;
      if was != [] && !failed && finished {
        AfterKeepsLast(was[..count], round.reply.last);
      }
    }

    /**
     * Flush: batches until one is not fully accepted or nothing is pending. A flush that ends without a failure has
     * emptied the queue exactly when the last answer accepted its batch to the end.
     */
    method Flush(rounds: seq<Round>) returns (finished: bool, failed: bool, ghost turns: seq<Turn>)
      requires Valid() && inFlight == []
      modifies this
      ensures Valid() && inFlight == []
      ensures |turns| <= |rounds| && Turned(old(pending), turns, rounds, pending, size)
      ensures forall i :: 0 <= i < |turns| - 1 ==> AllAccepted(turns[i].was, turns[i].count, rounds[i])
      ensures failed <==> turns != [] && rounds[|turns| - 1].reply.Failed?
      ensures failed ==> finished && pending != []
      ensures finished && !failed ==>
        (pending == [] <==> turns == [] || AllAccepted(turns[|turns| - 1].was, turns[|turns| - 1].count, rounds[|turns| - 1]))
      ensures !finished ==> |turns| == |rounds|
      ensures !finished ==> forall i :: 0 <= i < |turns| ==> AllAccepted(turns[i].was, turns[i].count, rounds[i])
    {
      finished, failed, turns := false, false, [];
      for i := 0 to |rounds|
        invariant Valid() && inFlight == [] && |turns| == i && !finished && !failed
        invariant Turned(old(pending), turns, rounds, pending, size)
        invariant forall j :: 0 <= j < i ==> AllAccepted(turns[j].was, turns[j].count, rounds[j])
      {
        ghost var was := pending;
        ghost var count, added;
        finished, failed, count, added := FlushStep(rounds[i]);
        if was != [] {
          OneMoreTurn(old(pending), turns, rounds, was, Turn(was, count, added), pending, size);
          turns := turns + [Turn(was, count, added)];
        }
        if finished { return; }
      }
    }
  }

  /** One turn of a flush: the queue it found, how much of it was its batch, and what came in meanwhile. */
  datatype Turn = Turn(was: seq<Event>, count: nat, added: seq<Event>)

  /** What the answer to the first count events leaves in the queue. */
  function Left(was: seq<Event>, count: nat, added: seq<Event>, reply: Reply): seq<Event>
    requires count <= |was|
  {
    match reply
    case Failed => was + added
    case Accepted(last) => After(was[..count], last) + was[count..] + added
  }

  ghost predicate Flushed(was: seq<Event>, round: Round, count: nat, added: seq<Event>, now: seq<Event>, size: Sizer) {
    && 0 < count <= |was| && IsBatch(was, count, size) && |added| == |round.during|
    && now == Left(was, count, added, round.reply)
  }

  /** The answer accepts the last event of the batch, and so all of it. */
  predicate AllAccepted(was: seq<Event>, count: nat, round: Round) {
    0 < count <= |was| && round.reply.Accepted? && round.reply.last >= was[count - 1].sequence
  }

  /** The turns lead from one queue to the other, each by its own round. */
  ghost predicate Turned(was: seq<Event>, turns: seq<Turn>, rounds: seq<Round>, now: seq<Event>, size: Sizer)
  {
    && |turns| <= |rounds|
    && (if turns == [] then now == was else turns[0].was == was)
    && forall i :: 0 <= i < |turns| ==> TurnLeads(turns, rounds, now, size, i)
  }

  ghost predicate TurnLeads(turns: seq<Turn>, rounds: seq<Round>, now: seq<Event>, size: Sizer, i: nat)
    requires i < |turns| <= |rounds|
  {
    var next := if i + 1 < |turns| then turns[i + 1].was else now;
    Flushed(turns[i].was, rounds[i], turns[i].count, turns[i].added, next, size)
  }

  lemma {:induction false} OneMoreTurn(start: seq<Event>, turns: seq<Turn>, rounds: seq<Round>, was: seq<Event>, turn: Turn,
                                       now: seq<Event>, size: Sizer)
    requires Turned(start, turns, rounds, was, size) && |turns| < |rounds| && turn.was == was
    requires Flushed(was, rounds[|turns|], turn.count, turn.added, now, size)
    ensures Turned(start, turns + [turn], rounds, now, size)
  {
    var more := turns + [turn];
    forall i | 0 <= i < |more| ensures TurnLeads(more, rounds, now, size, i) {
      if i < |turns| { assert TurnLeads(turns, rounds, was, size, i); }
    }
  }

  lemma {:induction false} LeftRegrouped(batch: seq<Event>, rest: seq<Event>, added: seq<Event>, reply: Reply)
    ensures Left(batch + rest, |batch|, added, reply) ==
      match reply case Failed => batch + (rest + added) case Accepted(last) => After(batch, last) + (rest + added)
  {
    assert (batch + rest)[..|batch|] == batch && (batch + rest)[|batch|..] == rest;
  }

  lemma {:induction false} AfterKeepsLast(events: seq<Event>, last: int)
    requires events != [] && events[|events| - 1].sequence > last
    ensures After(events, last) != []
  {
  }

  lemma {:induction false} TwoSmallEvents(events: seq<Event>, n: nat, size: Sizer)
    requires |events| == 2 && IsBatch(events, n, size) && size(events[0]) + size(events[1]) <= MaxBytes
    ensures n == 2
  {
    assert events[..1] == [events[0]] && [events[0]][..0] == [] && events[..2] == events;
    assert Bytes(events, size) == Bytes([events[0]], size) + size(events[1]);
  }

  /** A partial answer ends a flush without a failure, and what it did not accept still waits. */
  method ShortAnswerLeavesAnEvent(size: Sizer) returns (left: seq<Event>, finished: bool, failed: bool)
    requires size(Event(1, "a", "")) + size(Event(2, "b", "")) <= MaxBytes
    ensures finished && !failed && left == [Event(2, "b", "")]
  {
    var reporter := TwoQueued(size);
    ghost var was, rounds := reporter.pending, [Round([], Accepted(1))];
    ghost var turns;
    finished, failed, turns := reporter.Flush([Round([], Accepted(1))]);
    left := reporter.pending;
    OneTurn(was, turns, rounds, left, size);
  }

  method TwoQueued(size: Sizer) returns (reporter: JobEventReporter)
    ensures fresh(reporter) && reporter.Valid() && reporter.inFlight == [] && reporter.size == size
    ensures reporter.pending == [Event(1, "a", ""), Event(2, "b", "")]
  {
    reporter := new JobEventReporter(size);
    var _ := reporter.Enqueue("a", "");
    var _ := reporter.Enqueue("b", "");
  }

  lemma {:induction false} OneTurn(was: seq<Event>, turns: seq<Turn>, rounds: seq<Round>, now: seq<Event>, size: Sizer)
    requires was == [Event(1, "a", ""), Event(2, "b", "")] && size(was[0]) + size(was[1]) <= MaxBytes
    requires rounds == [Round([], Accepted(1))] && Turned(was, turns, rounds, now, size)
    ensures turns != [] ==> now == [was[1]] && !AllAccepted(turns[0].was, turns[0].count, rounds[0])
  {
    if turns != [] {
      assert TurnLeads(turns, rounds, now, size, 0);
      TwoSmallEvents(was, turns[0].count, size);
      PartOfTwo(was, turns[0].added);
    }
  }

  lemma {:induction false} PartOfTwo(was: seq<Event>, added: seq<Event>)
    requires |was| == 2 && was[0].sequence == 1 && was[1].sequence == 2 && added == []
    ensures Left(was, 2, added, Accepted(1)) == [was[1]]
  {
    assert was[..2] == was && was[2..] == [] && was[..1] == [was[0]] && [was[0]][..0] == [];
    assert After([was[0]], 1) == [] && After(was, 1) == [was[1]];
  }
}
