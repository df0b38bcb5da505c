/** Pure facts behind the scheduler: what its maps mirror, the order of its events, and who is ready. */
module ScheduleFacts {
  import opened Graphs
  import opened References
  import opened Flows
  import opened Verdicts
  import opened EngineGraph

  datatype Event = Started(id: Id) | Done(id: Id)

  /** What never changes during a run: the launch, its engine, a ranking of the graph and the verdicts. */
  datatype Setup = Setup(launch: Launch, engine: Engine, rank: map<Id, nat>, verdicts: map<Id, Verdict>)

  /** Always true. Mentioning it lets a proof look inside a condition it otherwise only carries. */
  ghost predicate Look<T>(t: T, k: nat) { true }

  ghost predicate Sound(s: Setup) {
    forall k: nat {:trigger Look(s, k)} :: Look(s, k) ==>
      && Runnable(s.launch, s.rank) && Solves(s.launch, s.verdicts)
      && Describes(s.engine, Ids(s.launch.flow), s.launch.flow.edges)
  }

  /** The part of the execution state the schedule turns on. */
  datatype Progress = Progress(
    remaining: map<Id, int>,
    inFlight: map<Id, View>,
    facts: map<Id, Verdict>,
    landing: set<Id>,
    history: seq<Event>)

  ghost function WithStatus(facts: map<Id, Verdict>, s: Status): set<Id> {
    set n | n in facts && facts[n].status == s
  }

  ghost function CausesOf(facts: map<Id, Verdict>): map<Id, string> {
    map n | n in facts && facts[n].cause.Some? :: facts[n].cause.value
  }

  ghost function DeadEdgesOf(facts: map<Id, Verdict>): map<Id, set<Id>> {
    map n | n in facts && facts[n].dead != {} :: facts[n].dead
  }

  ghost function AwayOf(facts: map<Id, Verdict>): set<Id> {
    set n | n in facts && facts[n].routedAway
  }

  ghost function ResultsOf(facts: map<Id, Verdict>): map<Id, Status> {
    map n | n in facts :: facts[n].status
  }

  /** The maps of the execution state that record how nodes ended. */
  datatype Ledger = Ledger(
    outputs: View,
    results: map<Id, Status>,
    errored: bool,
    failed: set<Id>,
    skipped: set<Id>,
    cause: map<Id, string>,
    dead: map<Id, set<Id>>,
    away: set<Id>)

  ghost predicate LedgerIs(b: Ledger, inputs: map<string, Value>, facts: map<Id, Verdict>) {
    && b.failed == WithStatus(facts, Failed) && b.skipped == WithStatus(facts, Skipped)
    && b.cause == CausesOf(facts) && b.dead == DeadEdgesOf(facts) && b.away == AwayOf(facts)
    && b.results == ResultsOf(facts) && b.outputs == ViewOf(inputs, facts)
    && (b.errored <==> b.failed != {})
  }

  /** The ledger records exactly these verdicts (sealed like the other conditions). */
  ghost predicate Mirrors(b: Ledger, inputs: map<string, Value>, facts: map<Id, Verdict>) {
    forall k: nat {:trigger Look((b, facts), k)} :: Look((b, facts), k) ==> LedgerIs(b, inputs, facts)
  }

  lemma {:induction false} MirrorGives(b: Ledger, inputs: map<string, Value>, facts: map<Id, Verdict>)
    requires Mirrors(b, inputs, facts)
    ensures LedgerIs(b, inputs, facts)
  {
    assert Look((b, facts), 0);
  }

  lemma {:induction false} FreshMirrors(inputs: map<string, Value>)
    ensures Mirrors(Ledger(map["" := inputs], map[], false, {}, {}, map[], map[], {}), inputs, map[])
  {
    assert ViewOf(inputs, map[]) == map["" := inputs];
  }

  lemma {:induction false} SetsGrow(facts: map<Id, Verdict>, n: Id, v: Verdict)
    requires n !in facts
    ensures WithStatus(facts[n := v], Failed) == WithStatus(facts, Failed) + (if v.status == Failed then {n} else {})
    ensures WithStatus(facts[n := v], Skipped) == WithStatus(facts, Skipped) + (if v.status == Skipped then {n} else {})
    ensures AwayOf(facts[n := v]) == AwayOf(facts) + (if v.routedAway then {n} else {})
    ensures ResultsOf(facts[n := v]) == ResultsOf(facts)[n := v.status]
  {
  }

  lemma {:induction false} MapsGrow(facts: map<Id, Verdict>, n: Id, v: Verdict)
    requires n !in facts
    ensures CausesOf(facts[n := v]) == (if v.cause.Some? then CausesOf(facts)[n := v.cause.value] else CausesOf(facts))
    ensures DeadEdgesOf(facts[n := v]) == (if v.dead != {} then DeadEdgesOf(facts)[n := v.dead] else DeadEdgesOf(facts))
  {
  }

  lemma {:induction false} ViewGrows(inputs: map<string, Value>, facts: map<Id, Verdict>, n: Id, v: Verdict)
    requires n !in facts && n != ""
    ensures ViewOf(inputs, facts[n := v]) ==
      (if v.published.Some? then ViewOf(inputs, facts)[n := v.published.value] else ViewOf(inputs, facts))
  {
  }

  /** What recording one more verdict does to each map. */
  function Booked(b: Ledger, n: Id, v: Verdict): Ledger {
    Ledger(
      if v.published.Some? then b.outputs[n := v.published.value] else b.outputs,
      b.results[n := v.status],
      b.errored || v.status == Failed,
      if v.status == Failed then b.failed + {n} else b.failed,
      if v.status == Skipped then b.skipped + {n} else b.skipped,
      if v.cause.Some? then b.cause[n := v.cause.value] else b.cause,
      if v.dead != {} then b.dead[n := v.dead] else b.dead,
      if v.routedAway then b.away + {n} else b.away)
  }

  lemma {:induction false} MirrorsGrow(b: Ledger, inputs: map<string, Value>, facts: map<Id, Verdict>, n: Id, v: Verdict)
    requires Mirrors(b, inputs, facts) && n !in facts && n != ""
    ensures Mirrors(Booked(b, n, v), inputs, facts[n := v])
  {
    assert Look((b, facts), 0);
    SetsGrow(facts, n, v);
    MapsGrow(facts, n, v);
    ViewGrows(inputs, facts, n, v);
    assert LedgerIs(Booked(b, n, v), inputs, facts[n := v]);
  }

  /** The on_success nodes no always node comes before: exactly the work of the first phase. */
  ghost function MainNodes(f: Flow): set<Id> {
    set n | n in Ids(f) && NodeOf(f, n).runWhen == OnSuccess &&
      forall a :: a in Ancestors(f, n) ==> NodeOf(f, a).runWhen == OnSuccess
  }

  ghost predicate DoneBefore(h: seq<Event>, i: nat, ids: set<Id>)
    requires i <= |h|
  {
    forall m :: m in ids ==> Done(m) in h[..i]
  }

  ghost function SourceSet(f: Flow, n: Id): set<Id> {
    set p | p in Sources(f.edges, n)
  }

  /** An event comes after its node's predecessors; an always node starts after the whole first phase. */
  ghost predicate WellTimed(s: Setup, h: seq<Event>, i: nat)
    requires i < |h|
  {
    var f := s.launch.flow;
    && h[i].id in Ids(f) && h[i].id in s.verdicts
    && DoneBefore(h, i, SourceSet(f, h[i].id))
    && (h[i].Done? && s.verdicts[h[i].id].started ==> Started(h[i].id) in h[..i])
    && (h[i].Started? && NodeOf(f, h[i].id).runWhen == Always ==> DoneBefore(h, i, MainNodes(f)))
  }

  /** No node starts or ends twice, and every event is well timed. */
  ghost predicate WellOrdered(s: Setup, h: seq<Event>) {
    && (forall i, j :: 0 <= i < j < |h| ==> h[i] != h[j])
    && (forall i {:trigger WellTimed(s, h, i)} :: 0 <= i < |h| ==> WellTimed(s, h, i))
  }

  ghost predicate CountNode(f: Flow, remaining: map<Id, int>, done: set<Id>, n: Id) {
    n in remaining && remaining[n] == Waiting(Sources(f.edges, n), done)
  }

  /** remainingInputs holds the nodes that have not ended, each with its predecessors that have not. */
  ghost predicate CountsFor(f: Flow, remaining: map<Id, int>, done: set<Id>) {
    && remaining.Keys == Ids(f) - done
    && forall n {:trigger CountNode(f, remaining, done, n)} :: n in Ids(f) - done ==> CountNode(f, remaining, done, n)
  }

  /** The nodes that ended are closed under predecessors and carry their verdicts. */
  ghost predicate Settled(s: Setup, p: Progress) {
    var f := s.launch.flow;
    && p.facts.Keys <= Ids(f) && s.verdicts.Keys == Ids(f) && "" !in Ids(f) && PredClosed(f, p.facts.Keys)
    && Agree(p.facts, s.verdicts, p.facts.Keys) && CountsFor(f, p.remaining, p.facts.Keys)
  }

  /** A running node waits for nothing, and the snapshot it runs on leads to its verdict. */
  ghost predicate FlyingNode(s: Setup, p: Progress, n: Id) {
    && n in p.inFlight && "" in p.inFlight[n] && n in p.remaining && p.remaining[n] == 0
    && n in Ids(s.launch.flow) && n in s.verdicts && s.verdicts[n].started
    && Finish(s.launch, NodeOf(s.launch.flow, n), p.inFlight[n]) == s.verdicts[n]
  }

  ghost predicate Flying(s: Setup, p: Progress) {
    forall n {:trigger FlyingNode(s, p, n)} :: n in p.inFlight ==> FlyingNode(s, p, n)
  }

  ghost predicate Recorded(s: Setup, p: Progress) {
    && WellOrdered(s, p.history)
    && (forall n :: Done(n) in p.history <==> n in p.facts)
    && (forall n :: Started(n) in p.history <==>
      n in p.inFlight || n in p.landing || (n in p.facts && p.facts[n].started))
  }

  ghost predicate Inv(s: Setup, p: Progress) {
    forall k: nat {:trigger Look((s, p), k)} :: Look((s, p), k) ==> Sound(s) && Settled(s, p) && Flying(s, p) && Recorded(s, p)
  }

  lemma {:induction false} InvFrom(s: Setup, p: Progress)
    requires Sound(s) && Settled(s, p) && Flying(s, p) && Recorded(s, p)
    ensures Inv(s, p)
  {
  }

  lemma {:induction false} RemainingAreNodes(s: Setup, p: Progress)
    requires Inv(s, p)
    ensures p.remaining.Keys <= Ids(s.launch.flow) && UniqueIds(s.launch.flow)
  {
    assert Look((s, p), 0);
    assert Look(s, 0);
  }

  /** What the code reads off the invariant about a node that waits for nothing. */
  lemma {:induction false} WaitingNode(s: Setup, p: Progress, n: Id)
    requires Inv(s, p) && n in p.remaining
    ensures Sound(s) && n in Ids(s.launch.flow) && n in s.verdicts && n !in p.facts && n != ""
    ensures DescribesNode(s.engine, s.launch.flow.edges, n) && p.remaining.Keys <= Ids(s.launch.flow)
  {
    assert Look((s, p), 0);
    EngineSources(s, n);
  }

  ghost predicate IsReady(s: Setup, p: Progress, n: Id, phase: RunWhen) {
    && n in Ids(s.launch.flow) && n in p.remaining && p.remaining[n] == 0
    && NodeOf(s.launch.flow, n).runWhen == phase && n !in p.inFlight && n !in p.landing
  }

  // ---- Counting predecessors down

  ghost predicate ReleasedNode(f: Flow, remaining: map<Id, int>, done: set<Id>, released: seq<Id>, m: Id) {
    m in remaining && remaining[m] == Waiting(Sources(f.edges, m), done) - Count(released, m)
  }

  /** markNodeComplete half way: the listed successors have been decremented. */
  ghost predicate PartlyReleased(f: Flow, remaining: map<Id, int>, done: set<Id>, released: seq<Id>) {
    && remaining.Keys == Ids(f) - done
    && forall m {:trigger ReleasedNode(f, remaining, done, released, m)} ::
      m in Ids(f) - done ==> ReleasedNode(f, remaining, done, released, m)
  }

  lemma {:induction false} ReleaseStarts(s: Setup, p: Progress)
    requires Inv(s, p)
    ensures PartlyReleased(s.launch.flow, p.remaining, p.facts.Keys, [])
    ensures p.remaining.Keys == Ids(s.launch.flow) - p.facts.Keys
  {
    assert Look((s, p), 0);
    var f, remaining, done := s.launch.flow, p.remaining, p.facts.Keys;
    forall m | m in Ids(f) - done ensures ReleasedNode(f, remaining, done, [], m) {
      assert CountNode(f, remaining, done, m);
    }
  }

  lemma {:induction false} ReleaseStep(f: Flow, remaining: map<Id, int>, done: set<Id>, released: seq<Id>, m: Id)
    requires PartlyReleased(f, remaining, done, released) && m in remaining
    ensures PartlyReleased(f, remaining[m := remaining[m] - 1], done, released + [m])
  {
    assert (released + [m])[..|released|] == released;
    forall k | k in Ids(f) - done ensures ReleasedNode(f, remaining[m := remaining[m] - 1], done, released + [m], k) {
      assert ReleasedNode(f, remaining, done, released, k);
    }
  }

  lemma {:induction false} ReleaseEnds(f: Flow, remaining: map<Id, int>, done: set<Id>, n: Id)
    requires n in Ids(f) - done && PartlyReleased(f, remaining, done, Targets(f.edges, n))
    ensures CountsFor(f, remaining - {n}, done + {n})
  {
    forall m | m in Ids(f) - (done + {n}) ensures CountNode(f, remaining - {n}, done + {n}, m) {
      assert ReleasedNode(f, remaining, done, Targets(f.edges, n), m);
      EndsAgree(f.edges, n, m);
      WaitingDrops(Sources(f.edges, m), done, n);
    }
  }

  /** The successors of a node that has not ended have not ended either. */
  lemma {:induction false} SuccessorsOpen(s: Setup, p: Progress, n: Id)
    requires Inv(s, p) && n in p.remaining
    ensures forall m :: m in Targets(s.launch.flow.edges, n) ==> m in p.remaining
  {
    var f := s.launch.flow;
    assert Look((s, p), 0);
    assert Look(s, 0);
    forall m | m in Targets(f.edges, n) ensures m in Ids(f) - p.facts.Keys {
      InTargets(f.edges, n, m);
      InSources(f.edges, n, m);
      assert Edge(n, m) in EdgeSet(f);
    }
  }

  lemma {:induction false} ZeroMeansSourcesDone(f: Flow, remaining: map<Id, int>, done: set<Id>, n: Id)
    requires CountsFor(f, remaining, done) && n in remaining && remaining[n] == 0
    ensures forall p :: p in Sources(f.edges, n) ==> p in done
  {
    assert CountNode(f, remaining, done, n);
  }

  lemma {:induction false} EngineSources(s: Setup, n: Id)
    requires Sound(s) && n in Ids(s.launch.flow)
    ensures DescribesNode(s.engine, s.launch.flow.edges, n)
  {
    assert Look(s, 0);
  }

  // ---- The steps of a run

  lemma {:induction false} SoundFrom(s: Setup)
    requires Runnable(s.launch, s.rank) && Solves(s.launch, s.verdicts)
    requires Describes(s.engine, Ids(s.launch.flow), s.launch.flow.edges)
    ensures Sound(s)
  {
  }

  lemma {:induction false} FreshSettled(s: Setup)
    requires Sound(s)
    ensures CountsFor(s.launch.flow, s.engine.indegree, {}) && PredClosed(s.launch.flow, {})
    ensures s.verdicts.Keys == Ids(s.launch.flow) && "" !in Ids(s.launch.flow)
  {
    assert Look(s, 0);
    FreshCounts(s);
  }

  lemma {:induction false} FreshCounts(s: Setup)
    requires Describes(s.engine, Ids(s.launch.flow), s.launch.flow.edges)
    ensures CountsFor(s.launch.flow, s.engine.indegree, {})
  {
    var f := s.launch.flow;
    forall n | n in Ids(f) ensures CountNode(f, s.engine.indegree, {}, n) { FreshCount(s, n); }
  }

  lemma {:induction false} FreshCount(s: Setup, n: Id)
    requires Describes(s.engine, Ids(s.launch.flow), s.launch.flow.edges) && n in Ids(s.launch.flow)
    ensures CountNode(s.launch.flow, s.engine.indegree, {}, n)
  {
    assert DescribesNode(s.engine, s.launch.flow.edges, n);
    NobodyDone(Sources(s.launch.flow.edges, n));
  }

  lemma {:induction false} FreshInv(s: Setup)
    requires Sound(s)
    ensures Inv(s, Progress(s.engine.indegree, map[], map[], {}, []))
  {
    FreshSettled(s);
    var p := Progress(s.engine.indegree, map[], map[], {}, []);
    assert p.facts.Keys == {};
    InvFrom(s, p);
  }

  /** The decision the scheduler takes about a ready node is that node's verdict. */
  lemma {:induction false} ReadyDecided(s: Setup, p: Progress, n: Id)
    requires Inv(s, p) && n in p.remaining && p.remaining[n] == 0
    ensures n in Ids(s.launch.flow) && n in s.verdicts && n !in p.facts && n != ""
    ensures Decide(s.launch, NodeOf(s.launch.flow, n), p.facts) == s.verdicts[n]
  {
    assert Look((s, p), 0);
    ZeroMeansSourcesDone(s.launch.flow, p.remaining, p.facts.Keys, n);
    assert Look(s, 0);
    NextSolved(s.launch, s.rank, s.verdicts, p.facts, n);
  }

  lemma {:induction false} HistoryGrows(s: Setup, h: seq<Event>, e: Event)
    requires WellOrdered(s, h) && e !in h && WellTimed(s, h + [e], |h|)
    ensures WellOrdered(s, h + [e])
  {
    forall i | 0 <= i < |h + [e]| ensures WellTimed(s, h + [e], i) {
      if i < |h| {
        assert WellTimed(s, h, i);
        assert (h + [e])[..i] == h[..i];
      }
    }
  }

  /** A node may end once its predecessors have, and after it started if it does start. */
  lemma {:induction false} DoneGrows(s: Setup, p: Progress, n: Id)
    requires Recorded(s, p) && n in Ids(s.launch.flow) && n in s.verdicts && n !in p.facts
    requires forall q :: q in Sources(s.launch.flow.edges, n) ==> q in p.facts
    requires s.verdicts[n].started ==> n in p.landing
    ensures WellOrdered(s, p.history + [Done(n)])
  {
    assert (p.history + [Done(n)])[..|p.history|] == p.history;
    HistoryGrows(s, p.history, Done(n));
  }

  /** An always node starts only once the first phase is over. */
  ghost predicate MayStart(s: Setup, p: Progress, n: Id) {
    && n in Ids(s.launch.flow)
    && (NodeOf(s.launch.flow, n).runWhen == Always ==> MainNodes(s.launch.flow) <= p.facts.Keys)
  }

  ghost function Begun(p: Progress, n: Id, view: View): Progress {
    p.(inFlight := p.inFlight[n := view], history := p.history + [Started(n)])
  }

  lemma {:induction false} StartInv(s: Setup, p: Progress, n: Id, view: View)
    requires Inv(s, p) && n in p.remaining && p.remaining[n] == 0 && n !in p.inFlight && n !in p.landing
    requires MayStart(s, p, n) && "" in view && n in s.verdicts && s.verdicts[n].started
    requires Finish(s.launch, NodeOf(s.launch.flow, n), view) == s.verdicts[n]
    ensures Inv(s, p.(inFlight := p.inFlight[n := view], history := p.history + [Started(n)]))
  {
    assert Look((s, p), 0);
    StartRecorded(s, p, n, view);
    StartFlying(s, p, n, view);
    InvFrom(s, Begun(p, n, view));
  }

  lemma {:induction false} StartRecorded(s: Setup, p: Progress, n: Id, view: View)
    requires Settled(s, p) && Recorded(s, p) && n in p.remaining && p.remaining[n] == 0
    requires n !in p.inFlight && n !in p.landing && MayStart(s, p, n)
    ensures Recorded(s, Begun(p, n, view))
  {
    ZeroMeansSourcesDone(s.launch.flow, p.remaining, p.facts.Keys, n);
    assert (p.history + [Started(n)])[..|p.history|] == p.history;
    HistoryGrows(s, p.history, Started(n));
  }

  lemma {:induction false} StartFlying(s: Setup, p: Progress, n: Id, view: View)
    requires Flying(s, p) && MayStart(s, p, n) && n in p.remaining && p.remaining[n] == 0
    requires "" in view && n in s.verdicts && s.verdicts[n].started
    requires Finish(s.launch, NodeOf(s.launch.flow, n), view) == s.verdicts[n]
    ensures Flying(s, Begun(p, n, view))
  {
    forall m | m in Begun(p, n, view).inFlight ensures FlyingNode(s, Begun(p, n, view), m) {
      if m != n { assert FlyingNode(s, p, m); }
    }
  }

  lemma {:induction false} LandInv(s: Setup, p: Progress, n: Id)
    requires Inv(s, p) && n in p.inFlight && p.landing == {}
    ensures Inv(s, p.(inFlight := p.inFlight - {n}, landing := {n}))
    ensures FlyingNode(s, p, n)
  {
    assert Look((s, p), 0);
    var p' := p.(inFlight := p.inFlight - {n}, landing := {n});
    assert FlyingNode(s, p, n);
    forall m | m in p'.inFlight ensures FlyingNode(s, p', m) {
      assert FlyingNode(s, p, m);
    }
  }

  lemma {:induction false} SettledGrows(f: Flow, V: map<Id, Verdict>, facts: map<Id, Verdict>, n: Id)
    requires PredClosed(f, facts.Keys) && Agree(facts, V, facts.Keys) && n in V
    requires forall p :: p in Sources(f.edges, n) ==> p in facts
    ensures PredClosed(f, facts[n := V[n]].Keys) && Agree(facts[n := V[n]], V, facts[n := V[n]].Keys)
    ensures facts[n := V[n]].Keys == facts.Keys + {n}
  {
  }

  ghost function Ended(s: Setup, p: Progress, n: Id, remaining: map<Id, int>): Progress
    requires n in s.verdicts
  {
    Progress(remaining, p.inFlight, p.facts[n := s.verdicts[n]], {}, p.history + [Done(n)])
  }

  /** Ending a node whose predecessors all ended keeps the invariant. */
  lemma {:induction false} EndInv(s: Setup, p: Progress, n: Id, remaining: map<Id, int>)
    requires Inv(s, p) && n in p.remaining && p.remaining[n] == 0 && n !in p.inFlight
    requires n in s.verdicts && p.landing == (if s.verdicts[n].started then {n} else {})
    requires CountsFor(s.launch.flow, remaining, p.facts.Keys + {n})
    ensures Inv(s, Ended(s, p, n, remaining))
  {
    assert Look((s, p), 0);
    EndSettled(s, p, n, remaining);
    EndRecorded(s, p, n, remaining);
    EndFlying(s, p, n, remaining);
    InvFrom(s, Ended(s, p, n, remaining));
  }

  lemma {:induction false} EndSettled(s: Setup, p: Progress, n: Id, remaining: map<Id, int>)
    requires Settled(s, p) && n in p.remaining && p.remaining[n] == 0 && n in s.verdicts
    requires CountsFor(s.launch.flow, remaining, p.facts.Keys + {n})
    ensures Settled(s, Ended(s, p, n, remaining))
  {
    ZeroMeansSourcesDone(s.launch.flow, p.remaining, p.facts.Keys, n);
    SettledGrows(s.launch.flow, s.verdicts, p.facts, n);
  }

  lemma {:induction false} EndRecorded(s: Setup, p: Progress, n: Id, remaining: map<Id, int>)
    requires Settled(s, p) && Recorded(s, p) && n in p.remaining && p.remaining[n] == 0 && n !in p.inFlight
    requires n in s.verdicts && p.landing == (if s.verdicts[n].started then {n} else {})
    ensures Recorded(s, Ended(s, p, n, remaining))
  {
    ZeroMeansSourcesDone(s.launch.flow, p.remaining, p.facts.Keys, n);
    DoneGrows(s, p, n);
  }

  lemma {:induction false} EndFlying(s: Setup, p: Progress, n: Id, remaining: map<Id, int>)
    requires Flying(s, p) && Settled(s, p) && n !in p.inFlight && n in s.verdicts
    requires CountsFor(s.launch.flow, remaining, p.facts.Keys + {n})
    ensures Flying(s, Ended(s, p, n, remaining))
  {
    forall m | m in p.inFlight ensures FlyingNode(s, Ended(s, p, n, remaining), m) {
      FlyingStays(s, p, n, remaining, m);
    }
  }

  lemma {:induction false} FlyingStays(s: Setup, p: Progress, n: Id, remaining: map<Id, int>, m: Id)
    requires Flying(s, p) && Settled(s, p) && m in p.inFlight && m != n && n in s.verdicts
    requires CountsFor(s.launch.flow, remaining, p.facts.Keys + {n})
    ensures FlyingNode(s, Ended(s, p, n, remaining), m)
  {
    var f := s.launch.flow;
    assert FlyingNode(s, p, m);
    assert CountNode(f, p.remaining, p.facts.Keys, m);
    assert CountNode(f, remaining, p.facts.Keys + {n}, m);
    WaitingShrinks(Sources(f.edges, m), p.facts.Keys, n);
  }

  lemma {:induction false} WaitingShrinks(preds: seq<Id>, done: set<Id>, n: Id)
    requires Waiting(preds, done) == 0
    ensures Waiting(preds, done + {n}) == 0
  {
  }

  /** What verdict the tests of startReadyOnSuccessNodes lead to. */
  lemma {:induction false} OnSuccessCases(s: Setup, p: Progress, n: Id)
    requires Inv(s, p) && IsReady(s, p, n, OnSuccess)
    ensures n in s.verdicts && n !in p.facts
    ensures var preds, view := Sources(s.launch.flow.edges, n), ViewOf(s.launch.inputs, p.facts);
      var cause, away := FirstCause(preds, p.facts), RoutedAway(n, preds, p.facts);
      if cause.Some? then s.verdicts[n] == Verdict(Skipped, false, None, {}, cause, away)
      else if FullyDead(n, preds, p.facts) || InputsReferSkipped(NodeOf(s.launch.flow, n), p.facts, view) then
        s.verdicts[n] == Verdict(Skipped, false, None, {}, None, away)
      else s.verdicts[n] == Finish(s.launch, NodeOf(s.launch.flow, n), view) && s.verdicts[n].started
  {
    ReadyDecided(s, p, n);
  }

  lemma {:induction false} AlwaysCases(s: Setup, p: Progress, n: Id)
    requires Inv(s, p) && IsReady(s, p, n, Always)
    ensures n in s.verdicts && n !in p.facts
    ensures var preds, view := Sources(s.launch.flow.edges, n), ViewOf(s.launch.inputs, p.facts);
      if RoutedAway(n, preds, p.facts) then s.verdicts[n] == Verdict(Skipped, false, None, {}, None, true)
      else s.verdicts[n] == Finish(s.launch, NodeOf(s.launch.flow, n), view) && s.verdicts[n].started
  {
    ReadyDecided(s, p, n);
  }

  /** A node whose result came back settles into its verdict. */
  lemma {:induction false} LandedVerdict(s: Setup, p: Progress, n: Id, run: Run)
    requires FlyingNode(s, p, n) && run == RunOf(s.launch, NodeOf(s.launch.flow, n), p.inFlight[n])
    ensures Settle(s.launch, NodeOf(s.launch.flow, n), run) == s.verdicts[n]
  {
  }

  /** Another node ending does not stop a node from being ready. */
  lemma {:induction false} ReadyStays(s: Setup, p: Progress, p': Progress, n: Id, m: Id, phase: RunWhen)
    requires Inv(s, p) && Inv(s, p') && p'.facts.Keys == p.facts.Keys + {n} && m != n
    requires p'.inFlight == p.inFlight && p'.landing == p.landing && IsReady(s, p, m, phase)
    ensures IsReady(s, p', m, phase)
  {
    assert Look((s, p), 0);
    assert Look((s, p'), 0);
    assert CountNode(s.launch.flow, p.remaining, p.facts.Keys, m);
    assert CountNode(s.launch.flow, p'.remaining, p'.facts.Keys, m);
  }

  ghost predicate NoneReady(s: Setup, p: Progress, phase: RunWhen) {
    forall n :: !IsReady(s, p, n, phase)
  }

  ghost predicate OnlyOnSuccess(f: Flow, ids: set<Id>) {
    forall n :: n in ids ==> n in Ids(f) && NodeOf(f, n).runWhen == OnSuccess
  }

  // ---- Who is ready

  /** While some nodes have not ended, one of them has nothing left to wait for. */
  lemma {:induction false} SomeNodeReady(s: Setup, p: Progress, open: set<Id>) returns (n: Id)
    requires Inv(s, p) && open != {} && open <= p.remaining.Keys
    requires forall m, q :: m in open && q in SourceSet(s.launch.flow, m) ==> q in p.facts || q in open
    ensures n in open && p.remaining[n] == 0
  {
    n := LowestRank(s.rank, open);
    forall q | q in Sources(s.launch.flow.edges, n) ensures q in p.facts.Keys {
      assert Look((s, p), 0);
      SourceIsLower(s, q, n);
    }
    CountedDown(s, p, n);
  }

  lemma {:induction false} SourceIsLower(s: Setup, q: Id, n: Id)
    requires Sound(s) && q in Sources(s.launch.flow.edges, n)
    ensures q in SourceSet(s.launch.flow, n) && RankOr(s.rank, q) < RankOr(s.rank, n)
  {
    assert Look(s, 0);
    InSources(s.launch.flow.edges, q, n);
    assert Edge(q, n) in EdgeSet(s.launch.flow);
  }

  lemma {:induction false} CountedDown(s: Setup, p: Progress, n: Id)
    requires Inv(s, p) && n in p.remaining && forall q :: q in Sources(s.launch.flow.edges, n) ==> q in p.facts.Keys
    ensures p.remaining[n] == 0
  {
    assert Look((s, p), 0);
    assert CountNode(s.launch.flow, p.remaining, p.facts.Keys, n);
  }

  /** With nothing running and nothing ready, every node has ended. */
  lemma {:induction false} IdleMeansOver(s: Setup, p: Progress)
    requires Inv(s, p) && p.inFlight == map[] && p.landing == {}
    requires forall n :: !IsReady(s, p, n, OnSuccess) && !IsReady(s, p, n, Always)
    ensures p.remaining == map[] && p.facts == s.verdicts
  {
    assert Look((s, p), 0);
    var f := s.launch.flow;
    if p.remaining.Keys != {} {
      forall m, q | m in p.remaining.Keys && q in SourceSet(f, m) ensures q in p.facts || q in p.remaining.Keys {
        assert Look(s, 0);
        InSources(f.edges, q, m);
        assert Edge(q, m) in EdgeSet(f);
      }
      var n := SomeNodeReady(s, p, p.remaining.Keys);
      assert IsReady(s, p, n, NodeOf(f, n).runWhen);
    }
  }

  lemma {:induction false} OnSuccessOnlyIsMain(s: Setup, p: Progress, n: Id)
    requires Inv(s, p) && n in p.facts
    requires forall m :: m in p.facts ==> m in Ids(s.launch.flow) && NodeOf(s.launch.flow, m).runWhen == OnSuccess
    ensures n in MainNodes(s.launch.flow)
  {
    assert Look((s, p), 0);
    assert Look(s, 0);
    ClosedHoldsAncestors(s.launch.flow, s.rank, p.facts.Keys, n);
  }

  /** With only on_success nodes ended, nothing running and none of them ready, the first phase did all its work. */
  lemma {:induction false} IdleMeansMainOver(s: Setup, p: Progress)
    requires Inv(s, p) && p.inFlight == map[] && p.landing == {}
    requires forall n :: !IsReady(s, p, n, OnSuccess)
    requires forall n :: n in p.facts ==> n in Ids(s.launch.flow) && NodeOf(s.launch.flow, n).runWhen == OnSuccess
    ensures p.facts.Keys == MainNodes(s.launch.flow)
  {
    assert Look((s, p), 0);
    var f := s.launch.flow;
    forall n | n in p.facts ensures n in MainNodes(f) {
      OnSuccessOnlyIsMain(s, p, n);
    }
    var open := MainNodes(f) - p.facts.Keys;
    if open != {} {
      forall m, q | m in open && q in SourceSet(f, m) ensures q in p.facts || q in open {
        MainClosed(s, m, q);
      }
      var n := SomeNodeReady(s, p, open);
      assert IsReady(s, p, n, OnSuccess);
    }
  }

  lemma {:induction false} MainClosed(s: Setup, m: Id, q: Id)
    requires Sound(s) && m in MainNodes(s.launch.flow) && q in SourceSet(s.launch.flow, m)
    ensures q in MainNodes(s.launch.flow)
  {
    var f := s.launch.flow;
    assert Look(s, 0);
    SourceIsAncestor(f, q, m);
    forall a | a in Ancestors(f, q) ensures NodeOf(f, a).runWhen == OnSuccess {
      ReachesTrans(EdgeSet(f), a, q, m);
      assert a in Ancestors(f, m);
    }
  }

  /** Which nodes phaseScheduler.ready offers, in flow order. */
  function ReadyList(nodes: seq<Node>, phase: RunWhen, remaining: map<Id, int>, flying: set<Id>): seq<Id> {
    if nodes == [] then []
    else
      var rest := ReadyList(nodes[..|nodes| - 1], phase, remaining, flying);
      var n := nodes[|nodes| - 1];
      if n.id in remaining && remaining[n.id] == 0 && n.runWhen == phase && n.id !in flying then rest + [n.id] else rest
  }

  lemma {:induction false} ReadyMembers(nodes: seq<Node>, phase: RunWhen, remaining: map<Id, int>, flying: set<Id>)
    requires forall i, j :: 0 <= i < j < |nodes| ==> nodes[i].id != nodes[j].id
    ensures var r := ReadyList(nodes, phase, remaining, flying);
      && (forall n :: n in nodes ==>
        (n.id in r <==> n.id in remaining && remaining[n.id] == 0 && n.runWhen == phase && n.id !in flying))
      && (forall id :: id in r ==> exists n :: n in nodes && n.id == id)
      && (forall i, j :: 0 <= i < j < |r| ==> r[i] != r[j])
  {
    if nodes != [] {
      var front, last := nodes[..|nodes| - 1], nodes[|nodes| - 1];
      ReadyMembers(front, phase, remaining, flying);
      assert nodes == front + [last];
      assert forall n :: n in front ==> n.id != last.id;
      assert last.id !in ReadyList(front, phase, remaining, flying);
    }
  }

  lemma {:induction false} ReadyListIs(s: Setup, p: Progress, phase: RunWhen)
    requires Inv(s, p) && p.landing == {}
    ensures var r := ReadyList(s.launch.flow.nodes, phase, p.remaining, p.inFlight.Keys);
      && (forall id :: id in r <==> IsReady(s, p, id, phase))
      && (forall i, j :: 0 <= i < j < |r| ==> r[i] != r[j])
  {
    assert Look((s, p), 0);
    assert Look(s, 0);
    ReadyMembers(s.launch.flow.nodes, phase, p.remaining, p.inFlight.Keys);
  }

  lemma {:induction false} RunIsOver(s: Setup, p: Progress)
    requires Inv(s, p) && p.facts == s.verdicts && p.inFlight == map[] && p.landing == {}
    ensures WellOrdered(s, p.history)
    ensures forall n :: Done(n) in p.history <==> n in s.verdicts
    ensures forall n :: Started(n) in p.history <==> n in s.verdicts && s.verdicts[n].started
  {
    assert Look((s, p), 0);
  }
}
