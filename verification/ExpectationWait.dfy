/** Judging expected events poll by poll, and when a wait ends. */
module ExpectationWait {
  import opened References
  import opened Expectations

  datatype Outcome = Outcome(name: string, received: nat, passed: bool, requestIds: seq<string>)

  datatype Verdict = Pending | Met | BrokenForGood

  type EveryEvent = Request -> bool

  predicate OverMax(g: Group, matched: seq<nat>) {
    !g.unresolved && g.max.Some? && |matched| > g.max.value
  }

  /** A claimed event fails a check every event must pass. */
  ghost predicate SomeClaimFails(every: EveryEvent, items: seq<Request>, claimed: seq<nat>) {
    exists k :: 0 <= k < |claimed| && claimed[k] < |items| && !every(items[claimed[k]])
  }

  /** Too many events, or a bad one: nothing that arrives later can repair it. */
  ghost predicate IsBroken(g: Group, every: EveryEvent, items: seq<Request>, claimed: seq<nat>, matched: seq<nat>) {
    !g.unresolved && (OverMax(g, matched) || SomeClaimFails(every, items, claimed))
  }

  ghost predicate IsPassed(g: Group, every: EveryEvent, items: seq<Request>, claimed: seq<nat>, matched: seq<nat>) {
    !g.unresolved && !IsBroken(g, every, items, claimed, matched) && |claimed| >= Minimum(g)
  }

  /** judgeExpectation. */
  method Judge(g: Group, every: EveryEvent, items: seq<Request>, claimed: seq<nat>, matched: seq<nat>)
    returns (outcome: Outcome, broken: bool)
    requires forall k :: 0 <= k < |claimed| ==> claimed[k] < |items|
    ensures broken <==> IsBroken(g, every, items, claimed, matched)
    ensures outcome.passed <==> IsPassed(g, every, items, claimed, matched)
    ensures broken <==> (!g.unresolved &&
      ((g.max.Some? && |matched| > g.max.value) || exists k :: 0 <= k < |claimed| && !every(items[claimed[k]])))
    ensures outcome.passed <==> !g.unresolved && !broken && |claimed| >= if g.min.Some? then g.min.value else 1
    ensures outcome.name == g.name && outcome.received == |claimed|
    ensures outcome.requestIds == seq(|claimed|, k requires 0 <= k < |claimed| => items[claimed[k]].id)
  {
    var ids := seq(|claimed|, k requires 0 <= k < |claimed| => items[claimed[k]].id);
    if g.unresolved {
      return Outcome(g.name, |claimed|, false, ids), false;
    }
    if OverMax(g, matched) {
      return Outcome(g.name, |claimed|, false, ids), true;
    }
    for k := 0 to |claimed|
      invariant forall j :: 0 <= j < k ==> every(items[claimed[j]])
    {
      if !every(items[claimed[k]]) {
        return Outcome(g.name, |claimed|, false, ids), true;
      }
    }
    return Outcome(g.name, |claimed|, |claimed| >= Minimum(g), ids), false;
  }

  ghost predicate GroupBroken(groups: seq<Group>, every: EveryEvent, items: seq<Request>, a: Assignment, g: nat)
    requires Shaped(groups, a) && g < |groups|
  {
    IsBroken(groups[g], every, items, a.claims[g], a.matches[g])
  }

  ghost predicate GroupPassed(groups: seq<Group>, every: EveryEvent, items: seq<Request>, a: Assignment, g: nat)
    requires Shaped(groups, a) && g < |groups|
  {
    IsPassed(groups[g], every, items, a.claims[g], a.matches[g])
  }

  /** Broken when some group is; met when every group with its references resolved passed. */
  ghost predicate VerdictIs(groups: seq<Group>, every: EveryEvent, items: seq<Request>, a: Assignment, v: Verdict) {
    && Shaped(groups, a)
    && (v.BrokenForGood? <==> exists g :: 0 <= g < |groups| && GroupBroken(groups, every, items, a, g))
    && (v.Met? <==> !v.BrokenForGood? && forall g :: 0 <= g < |groups| && !groups[g].unresolved ==> GroupPassed(groups, every, items, a, g))
  }

  ghost predicate OutcomesAre(groups: seq<Group>, every: EveryEvent, items: seq<Request>, a: Assignment, outcomes: seq<Outcome>) {
    && Shaped(groups, a) && |outcomes| == |groups|
    && (forall g :: 0 <= g < |groups| ==> (outcomes[g].passed <==> GroupPassed(groups, every, items, a, g)))
    && forall g :: 0 <= g < |groups| ==> OutcomeNames(groups, items, a, outcomes, g)
  }

  /** The outcome of a group carries its name and the requests it claimed, in the order they arrived. */
  ghost predicate OutcomeNames(groups: seq<Group>, items: seq<Request>, a: Assignment, outcomes: seq<Outcome>, g: nat)
    requires g < |groups| && g < |outcomes| && Shaped(groups, a)
  {
    && outcomes[g].name == groups[g].name && outcomes[g].received == |outcomes[g].requestIds| == |a.claims[g]|
    && forall k :: 0 <= k < |a.claims[g]| ==> a.claims[g][k] < |items| && outcomes[g].requestIds[k] == items[a.claims[g][k]].id
  }

  /** The outcomes and the verdict on these requests. */
  ghost predicate Judged(groups: seq<Group>, every: EveryEvent, items: seq<Request>, outcomes: seq<Outcome>, v: Verdict) {
    exists a :: Assigns(groups, items, a) && VerdictIs(groups, every, items, a, v) && OutcomesAre(groups, every, items, a, outcomes)
  }

  lemma {:induction false} ClaimsAreRequests(groups: seq<Group>, items: seq<Request>, a: Assignment, g: nat)
    requires Assigns(groups, items, a) && Shaped(groups, a) && g < |groups|
    ensures forall k :: 0 <= k < |a.claims[g]| ==> a.claims[g][k] < |items|
  {
    AssignmentIsSound(groups, items, a);
    assert SoundGroup(groups, items, a, g);
    forall k | 0 <= k < |a.claims[g]| ensures a.claims[g][k] < |items| { assert a.claims[g][k] in a.claims[g]; }
  }

  lemma {:induction false} NamedSoFar(groups: seq<Group>, items: seq<Request>, a: Assignment, outcomes: seq<Outcome>, outcome: Outcome, g: nat)
    requires Shaped(groups, a) && g < |groups| && |outcomes| == g && forall j :: 0 <= j < g ==> OutcomeNames(groups, items, a, outcomes, j)
    requires OutcomeNames(groups, items, a, outcomes + [outcome], g)
    ensures forall j :: 0 <= j < g + 1 ==> OutcomeNames(groups, items, a, outcomes + [outcome], j)
  {
    forall j | 0 <= j < g ensures OutcomeNames(groups, items, a, outcomes + [outcome], j) {
      assert OutcomeNames(groups, items, a, outcomes, j);
    }
  }

  /** evaluateExpectations. */
  method Evaluate(groups: seq<Group>, every: EveryEvent, items: seq<Request>) returns (outcomes: seq<Outcome>, v: Verdict)
    ensures Judged(groups, every, items, outcomes, v)
  {
    var a := AssignRequests(groups, items);
    AssignsShaped(groups, items, a);
    v := Met;
    outcomes := [];
    for g := 0 to |groups|
      invariant |outcomes| == g
      invariant forall j :: 0 <= j < g ==> (outcomes[j].passed <==> GroupPassed(groups, every, items, a, j))
      invariant forall j :: 0 <= j < g ==> OutcomeNames(groups, items, a, outcomes, j)
      invariant v.BrokenForGood? <==> exists j :: 0 <= j < g && GroupBroken(groups, every, items, a, j)
      invariant v.Met? <==> !v.BrokenForGood? && forall j :: 0 <= j < g && !groups[j].unresolved ==> GroupPassed(groups, every, items, a, j)
    {
      ClaimsAreRequests(groups, items, a, g);
      var outcome, broken := Judge(groups[g], every, items, a.claims[g], a.matches[g]);
      NamedSoFar(groups, items, a, outcomes, outcome, g);
      outcomes := outcomes + [outcome];
      assert broken <==> GroupBroken(groups, every, items, a, g);
      if broken {
        v := BrokenForGood;
      } else if !groups[g].unresolved && !outcome.passed && v == Met {
        v := Pending;
      }
    }
  }

  // ---- Monotonicity

  lemma {:induction false} BrokenStays(g: Group, every: EveryEvent, items: seq<Request>, more: seq<Request>,
                                       claimed: seq<nat>, matched: seq<nat>, claimed': seq<nat>, matched': seq<nat>)
    requires items <= more && claimed <= claimed' && matched <= matched'
    requires IsBroken(g, every, items, claimed, matched)
    ensures IsBroken(g, every, more, claimed', matched')
  {
    if SomeClaimFails(every, items, claimed) {
      var k :| 0 <= k < |claimed| && claimed[k] < |items| && !every(items[claimed[k]]);
      assert claimed'[k] == claimed[k] && more[claimed[k]] == items[claimed[k]];
    }
  }

  /** When requests are only appended, a broken wait stays broken and a met one never falls back to pending. */
  lemma {:induction false} VerdictsAreMonotone(groups: seq<Group>, every: EveryEvent, items: seq<Request>, more: seq<Request>,
                                               outcomes: seq<Outcome>, v: Verdict, outcomes': seq<Outcome>, v': Verdict)
    requires items <= more && Judged(groups, every, items, outcomes, v) && Judged(groups, every, more, outcomes', v')
    ensures v.BrokenForGood? ==> v'.BrokenForGood?
    ensures v.Met? ==> !v'.Pending?
  {
    var a :| Assigns(groups, items, a) && VerdictIs(groups, every, items, a, v) && OutcomesAre(groups, every, items, a, outcomes);
    var a' :| Assigns(groups, more, a') && VerdictIs(groups, every, more, a', v') && OutcomesAre(groups, every, more, a', outcomes');
    ClaimsArePrefixes(groups, items, more, a, a');
    if v.BrokenForGood? {
      var g :| 0 <= g < |groups| && GroupBroken(groups, every, items, a, g);
      BrokenStays(groups[g], every, items, more, a.claims[g], a.matches[g], a'.claims[g], a'.matches[g]);
      assert GroupBroken(groups, every, more, a', g);
    }
    if v.Met? && !v'.BrokenForGood? {
      forall g | 0 <= g < |groups| && !groups[g].unresolved ensures GroupPassed(groups, every, more, a', g) {
        assert GroupPassed(groups, every, items, a, g);
        assert !GroupBroken(groups, every, more, a', g);
        assert a.claims[g] <= a'.claims[g];
      }
    }
  }

  predicate AllPassed(outcomes: seq<Outcome>) {
    forall g :: 0 <= g < |outcomes| ==> outcomes[g].passed
  }

  predicate AllResolved(groups: seq<Group>) {
    forall g :: 0 <= g < |groups| ==> !groups[g].unresolved
  }

  /** Every group passed exactly when the wait is met and no group was left unevaluated. */
  lemma {:induction false} AllPassedIsMet(groups: seq<Group>, every: EveryEvent, items: seq<Request>, outcomes: seq<Outcome>, v: Verdict)
    requires Judged(groups, every, items, outcomes, v)
    ensures AllPassed(outcomes) <==> v.Met? && AllResolved(groups)
  {
    var a :| Assigns(groups, items, a) && VerdictIs(groups, every, items, a, v) && OutcomesAre(groups, every, items, a, outcomes);
    if AllPassed(outcomes) {
      forall g | 0 <= g < |groups|
        ensures !groups[g].unresolved && GroupPassed(groups, every, items, a, g) && !GroupBroken(groups, every, items, a, g)
      {
        assert outcomes[g].passed;
      }
    }
  }

  predicate NeedsAnEvent(groups: seq<Group>) {
    exists g :: 0 <= g < |groups| && Minimum(groups[g]) > 0
  }

  /** requiresAnEvent. */
  method RequiresAnEvent(groups: seq<Group>) returns (r: bool)
    ensures r <==> NeedsAnEvent(groups)
  {
    for g := 0 to |groups|
      invariant forall j :: 0 <= j < g ==> Minimum(groups[j]) <= 0
    {
      if Minimum(groups[g]) > 0 { return true; }
    }
    return false;
  }

  /** Without a request, all groups pass exactly when none needs one. */
  lemma {:induction false} NothingReceived(groups: seq<Group>, every: EveryEvent, outcomes: seq<Outcome>, v: Verdict)
    requires Configured(groups) && Judged(groups, every, [], outcomes, v)
    ensures AllPassed(outcomes) <==> AllResolved(groups) && !NeedsAnEvent(groups)
  {
    var a :| Assigns(groups, [], a) && VerdictIs(groups, every, [], a, v) && OutcomesAre(groups, every, [], a, outcomes);
    forall g | 0 <= g < |groups|
      ensures GroupPassed(groups, every, [], a, g) <==> !groups[g].unresolved && Minimum(groups[g]) <= 0
    {
      assert a.claims[g] == [] && a.matches[g] == [];
    }
    forall g | 0 <= g < |groups| ensures outcomes[g].passed <==> !groups[g].unresolved && Minimum(groups[g]) <= 0 { }
  }

  // ---- The listener

  /** One turn of the loop: a poll with the times it is judged at, or a fetch that failed. */
  datatype Poll = Fetched(items: seq<Request>, elapsed: int, now: int, later: int) | FetchFailed(fatal: bool)

  /** How a wait ended; a met wait remembers when it was first met and when it was let go. */
  datatype Ending = SettledMet(metAt: int, endedAt: int) | Broke | TimedOut(polled: bool) | Fatal

  /** The poll a wait was first met at, and the poll that ended it. */
  ghost predicate MetBetween(polls: seq<Poll>, i: int, j: int, ending: Ending, received: seq<Request>) {
    && 0 <= i <= j < |polls| && polls[i].Fetched? && polls[j].Fetched? && ending.SettledMet?
    && polls[i].now == ending.metAt && polls[j].later == ending.endedAt && polls[j].items == received
  }

  class ExpectationListener {
    const groups: seq<Group>
    const every: EveryEvent
    const settle: int
    var firstSeen: map<string, int>
    var polledOnce: bool
    var settledAt: Option<int>
    var outcomes: Option<seq<Outcome>>
    ghost var received: seq<Request>
    ghost var verdict: Verdict

    /** A met poll starts a settle window, unless there is none and nothing to wait for. */
    ghost predicate Windowed() { settle != 0 || NeedsAnEvent(groups) }

    ghost predicate Valid()
      reads this
    {
      && Configured(groups) && settle >= 0 && (polledOnce <==> outcomes.Some?)
      && (outcomes.Some? ==> Judged(groups, every, received, outcomes.value, verdict))
      && (settledAt.Some? ==> outcomes.Some? && !verdict.Pending? && Windowed())
      && (outcomes.Some? && verdict.Met? && Windowed() ==> settledAt.Some?)
      && (outcomes.None? ==> received == [])
    }

    constructor (groups: seq<Group>, every: EveryEvent, settle: int)
      requires Configured(groups) && settle >= 0
      ensures Valid() && !polledOnce && this.groups == groups && this.every == every && this.settle == settle
    {
      this.groups, this.every, this.settle := groups, every, settle;
      firstSeen, polledOnce, settledAt, outcomes, received, verdict := map[], false, None, None, [], Pending;
    }

    /** The times requests were first seen: fixed once noted, and zero for what the first poll found. */
    method Notice(items: seq<Request>, elapsed: int)
      modifies this`firstSeen
      ensures forall id :: id in firstSeen <==> id in old(firstSeen) || exists i :: 0 <= i < |items| && items[i].id == id
      ensures forall id :: id in firstSeen ==>
        firstSeen[id] == if id in old(firstSeen) then old(firstSeen)[id] else if polledOnce then elapsed else 0
    {
      for i := 0 to |items|
        invariant forall id :: id in firstSeen <==> id in old(firstSeen) || exists j :: 0 <= j < i && items[j].id == id
        invariant forall id :: id in firstSeen ==>
          firstSeen[id] == if id in old(firstSeen) then old(firstSeen)[id] else if polledOnce then elapsed else 0
      {
        if items[i].id in firstSeen { continue; }
        firstSeen := firstSeen[items[i].id := if polledOnce then elapsed else 0];
      }
    }

    /** observe: judges one poll and says whether the wait is over. */
    method Observe(items: seq<Request>, elapsed: int, now: int, later: int) returns (over: bool)
      requires Valid() && received <= items && now <= later && !(outcomes.Some? && verdict.BrokenForGood?)
      modifies this
      ensures Valid() && polledOnce && received == items
      ensures old(outcomes).Some? && old(verdict).Met? ==> !verdict.Pending?
      ensures verdict.Met? && Windowed() ==> settledAt == Some(if old(settledAt).Some? then old(settledAt).value else now + settle)
      ensures !(verdict.Met? && Windowed()) ==> settledAt == old(settledAt)
      ensures over <==> verdict.BrokenForGood? || (verdict.Met? && Windowed() && later >= settledAt.value)
    {
      Notice(items, elapsed);
      polledOnce := true;
      var judged, v := Evaluate(groups, every, items);
      if outcomes.Some? {
        VerdictsAreMonotone(groups, every, received, items, outcomes.value, verdict, judged, v);
      }
      outcomes, received, verdict := Some(judged), items, v;
      match v
      case BrokenForGood => return true;
      case Pending => return false;
      case Met =>
        var needs := RequiresAnEvent(groups);
        if settle == 0 && !needs {
          return false;
        }
        if settledAt.None? {
          settledAt := Some(now + settle);
        }
        return later >= settledAt.value;
    }

    /** finalOutcomes: a wait that ended before its first successful poll is judged on nothing. */
    method FinalOutcomes() returns (final: seq<Outcome>)
      requires Valid()
      ensures outcomes.Some? ==> final == outcomes.value
      ensures outcomes.None? ==> (AllPassed(final) <==> AllResolved(groups) && !NeedsAnEvent(groups))
      ensures |final| == |groups|
    {
      if outcomes.Some? {
        return outcomes.value;
      }
      var v;
      final, v := Evaluate(groups, r => true, []);
      NothingReceived(groups, r => true, final, v);
    }

    /** timedOutOutcomes: a timeout inside the settle window fails every group that passed. */
    method TimedOutOutcomes() returns (final: seq<Outcome>)
      requires Valid() && groups != []
      ensures outcomes.Some? ==> (AllPassed(final) <==> verdict.Met? && AllResolved(groups) && !Windowed())
      ensures outcomes.None? ==> (AllPassed(final) <==> AllResolved(groups) && !NeedsAnEvent(groups))
    {
      final := FinalOutcomes();
      if outcomes.Some? { AllPassedIsMet(groups, every, received, outcomes.value, verdict); }
      if settledAt.None? {
        return;
      }
      for g := 0 to |final|
        invariant |final| == |groups|
        invariant forall j :: 0 <= j < g ==> !final[j].passed
      {
        if final[g].passed {
          final := final[g := final[g].(passed := false)];
        }
      }
      assert !final[0].passed;
    }

    /** listenForExpectations, until the polls given are used up and the wait times out. */
    method Listen(polls: seq<Poll>) returns (final: seq<Outcome>, ghost ending: Ending)
      requires Valid() && !polledOnce && groups != []
      requires forall i :: 0 <= i < |polls| && polls[i].Fetched? ==> polls[i].now <= polls[i].later
      requires forall i, j :: 0 <= i < j < |polls| && polls[i].Fetched? && polls[j].Fetched? ==> polls[i].items <= polls[j].items
      modifies this
      ensures ending.SettledMet? ==> Windowed() && ending.endedAt >= ending.metAt + settle && verdict.Met?
      ensures ending.SettledMet? ==> exists i, j :: MetBetween(polls, i, j, ending, received)
      ensures ending.SettledMet? ==> (AllPassed(final) <==> AllResolved(groups))
      ensures ending.Broke? ==> !AllPassed(final)
      ensures ending == TimedOut(true) ==>
        (AllPassed(final) <==> verdict.Met? && AllResolved(groups) && settle == 0 && !NeedsAnEvent(groups))
      ensures ending == TimedOut(false) ==> (AllPassed(final) <==> AllResolved(groups) && !NeedsAnEvent(groups))
      ensures ending == TimedOut(false) <==> forall i :: 0 <= i < |polls| ==> polls[i] == FetchFailed(false)
    {
      ghost var met: int := -1;
      for i := 0 to |polls|
        invariant Valid() && !(outcomes.Some? && verdict.BrokenForGood?)
        invariant forall j :: i <= j < |polls| && polls[j].Fetched? ==> received <= polls[j].items
        invariant settledAt.Some? ==> 0 <= met < i && polls[met].Fetched? && settledAt.value == polls[met].now + settle
        invariant !polledOnce <==> forall j :: 0 <= j < i ==> polls[j] == FetchFailed(false)
      {
        match polls[i]
        case Fetched(items, elapsed, now, later) =>
          if settledAt.None? { met := i; }
          var over := Observe(items, elapsed, now, later);
          if over {
            AllPassedIsMet(groups, every, received, outcomes.value, verdict);
            if verdict.BrokenForGood? {
              ending := Broke;
            } else {
              ending := SettledMet(polls[met].now, later);
              assert MetBetween(polls, met, i, ending, received);
            }
            final := outcomes.value;
            return;
          }
        case FetchFailed(fatal) =>
          if fatal {
            final := FinalOutcomes();
            ending := Fatal;
            return;
          }
      }
      ending := TimedOut(polledOnce);
      final := TimedOutOutcomes();
    }
  }

  /** The promise of a wait: a pass means a settled met poll, or a timeout with no event needed and no settle window. */
  ghost predicate KeepsPromise(l: ExpectationListener, final: seq<Outcome>, ending: Ending) {
    AllPassed(final) ==>
      ending.SettledMet? || ending.Fatal? || (ending.TimedOut? && l.settle == 0 && !NeedsAnEvent(l.groups))
  }

  /** The promise is kept except when no poll ever succeeded, no event was needed, and a settle window was asked for. */
  method ListenPromise(l: ExpectationListener, polls: seq<Poll>) returns (final: seq<Outcome>, ghost ending: Ending)
    requires l.Valid() && !l.polledOnce && l.groups != []
    requires forall i :: 0 <= i < |polls| && polls[i].Fetched? ==> polls[i].now <= polls[i].later
    requires forall i, j :: 0 <= i < j < |polls| && polls[i].Fetched? && polls[j].Fetched? ==> polls[i].items <= polls[j].items
    modifies l
    ensures KeepsPromise(l, final, ending) <==>
      !((forall i :: 0 <= i < |polls| ==> polls[i] == FetchFailed(false))
        && AllResolved(l.groups) && !NeedsAnEvent(l.groups) && l.settle != 0)
  {
    final, ending := l.Listen(polls);
  }
}
