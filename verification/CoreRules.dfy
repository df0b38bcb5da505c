/** What the sequential engine decides about one node, and why that still explains the result when the run has ended. */
module CoreRules {
  import opened Graphs
  import opened References
  import opened Flows
  import opened CoreOrder

  datatype NodeState = Pending | Finished | Broken

  /** What running a node returns. A failed node keeps the outputs it produced, but they are never published. */
  datatype CoreOutcome = Fail | Finish(outputs: map<string, Value>, routed: Option<seq<Id>>)

  datatype SkipReason = DependencySkipped | DependencyFailed | RoutedElsewhere | AbortedAfterFailure | MissingInputs

  datatype Decision = Go | Skip(reason: SkipReason)

  datatype CoreStatus = Done | Error | Passed(reason: SkipReason)

  /** The tables one step of the run changes, besides the queue. */
  datatype Board = Board(
    state: map<Id, NodeState>,
    dead: map<Id, set<Id>>,
    mainFailed: bool,
    statuses: map<Id, CoreStatus>,
    view: map<Id, Value>)

  type Runner = (Id, map<Id, Value>) -> CoreOutcome

  function Get<V>(m: map<Id, V>, n: Id, zero: V): V {
    if n in m then m[n] else zero
  }

  predicate IsAlways(f: Flow, n: Id) {
    n in Ids(f) && NodeOf(f, n).runWhen == Always
  }

  /** The predecessor edge p -> n carries a success that was not routed elsewhere. */
  predicate LiveEdge(b: Board, p: Id, n: Id) {
    Get(b.state, p, Pending) == Finished && n !in Get(b.dead, p, {})
  }

  predicate FailedEdge(b: Board, p: Id) {
    Get(b.state, p, Pending) == Broken
  }

  predicate DeadEdge(b: Board, p: Id, n: Id) {
    Get(b.state, p, Pending) == Finished && n in Get(b.dead, p, {})
  }

  ghost predicate SomeLive(preds: seq<Id>, b: Board, n: Id) {
    exists p :: p in preds && LiveEdge(b, p, n)
  }

  ghost predicate SomeFailed(preds: seq<Id>, b: Board) {
    exists p :: p in preds && FailedEdge(b, p)
  }

  ghost predicate SomeDead(preds: seq<Id>, b: Board, n: Id) {
    exists p :: p in preds && DeadEdge(b, p, n)
  }

  /** A node runs when it is a root, or has a live edge and no failure of the main phase holds it back. */
  ghost predicate Runs(preds: seq<Id>, b: Board, n: Id, always: bool, failed: bool) {
    preds == [] || (SomeLive(preds, b, n) && (always || !failed))
  }

  /** A failed predecessor is blamed first, then a branch, then a skipped predecessor. */
  ghost predicate Blames(preds: seq<Id>, b: Board, n: Id, r: SkipReason) {
    r == if SomeFailed(preds, b) then DependencyFailed
         else if SomeDead(preds, b, n) then RoutedElsewhere
         else DependencySkipped
  }

  ghost predicate Excuses(preds: seq<Id>, b: Board, n: Id, always: bool, r: SkipReason) {
    if SomeLive(preds, b, n) then r == AbortedAfterFailure
    else if always then r == MissingInputs
    else Blames(preds, b, n, r)
  }

  method Classify(preds: seq<Id>, b: Board, n: Id, always: bool) returns (d: Decision)
    ensures d.Go? <==> Runs(preds, b, n, always, b.mainFailed)
    ensures d.Skip? ==> Excuses(preds, b, n, always, d.reason)
  {
    if |preds| == 0 { return Go; }
    var live := false;
    var reason := DependencySkipped;
    for i := 0 to |preds|
      invariant live <==> SomeLive(preds[..i], b, n)
      invariant Blames(preds[..i], b, n, reason)
    {
      var p := preds[i];
      assert preds[..i + 1] == preds[..i] + [p];
      assert forall q :: q in preds[..i + 1] <==> q in preds[..i] || q == p;
      if LiveEdge(b, p, n) {
        live := true;
      } else if FailedEdge(b, p) {
        reason := DependencyFailed;
      } else if DeadEdge(b, p, n) {
        if reason == DependencySkipped { reason := RoutedElsewhere; }
      }
    }
    assert preds[..|preds|] == preds;
    if live { return if !always && b.mainFailed then Skip(AbortedAfterFailure) else Go; }
    return if always then Skip(MissingInputs) else Skip(reason);
  }

  /** The successors a result did not route to. */
  function Lost(successors: seq<Id>, routed: Option<seq<Id>>): set<Id> {
    if routed.None? then {} else set m | m in successors && m !in routed.value
  }

  /** Tables that agree with what was recorded about the processed nodes, and nothing about any other. */
  ghost predicate Agrees(f: Flow, b: Board, n: Id) {
    && Get(b.state, n, Pending) == (
      if n !in b.statuses then Pending
      else match b.statuses[n] case Done => Finished case Error => Broken case Passed(_) => Pending)
    && (n !in b.statuses ==> Get(b.dead, n, {}) == {})
  }

  /** Some on_success node of these failed. */
  ghost predicate MainFailure(f: Flow, nodes: seq<Id>, b: Board) {
    exists m :: m in nodes && Get(b.statuses, m, Done) == Error && !IsAlways(f, m)
  }

  ghost predicate Tallies(f: Flow, order: seq<Id>, b: Board) {
    && b.statuses.Keys == SetOf(order)
    && (b.mainFailed <==> MainFailure(f, order, b))
    && forall n {:trigger Agrees(f, b, n)} :: Agrees(f, b, n)
  }

  /** Processing n: it is recorded once, by the rule above, and nothing else changes. */
  ghost predicate Processes(f: Flow, b: Board, b': Board, n: Id, run: Runner) {
    && n in b'.statuses && b'.statuses == b.statuses[n := b'.statuses[n]]
    && (b'.statuses[n].Passed? <==> !Runs(Sources(f.edges, n), b, n, IsAlways(f, n), b.mainFailed))
    && (b'.statuses[n].Passed? ==> Excuses(Sources(f.edges, n), b, n, IsAlways(f, n), b'.statuses[n].reason))
    && (!b'.statuses[n].Passed? ==> (b'.statuses[n] == Done <==> run(n, b.view).Finish?))
    && (b'.mainFailed <==> b.mainFailed || (b'.statuses[n] == Error && !IsAlways(f, n)))
    && b'.view == (if b'.statuses[n] == Done && run(n, b.view).Finish? then b.view[n := Fields(run(n, b.view).outputs)] else b.view)
    && (forall m :: m != n ==> Get(b'.state, m, Pending) == Get(b.state, m, Pending))
    && (forall m :: m != n ==> Get(b'.dead, m, {}) == Get(b.dead, m, {}))
    && Get(b'.state, n, Pending) == (
      match b'.statuses[n] case Done => Finished case Error => Broken case Passed(_) => Get(b.state, n, Pending))
    && Get(b'.dead, n, {}) == Get(b.dead, n, {}) +
      (if b'.statuses[n] == Done && run(n, b.view).Finish? then Lost(Targets(f.edges, n), run(n, b.view).routed) else {})
  }

  /** The status of n follows from its predecessors and from the failures before it. */
  ghost predicate Explained(f: Flow, before: seq<Id>, b: Board, n: Id) {
    && n in b.statuses
    && (b.statuses[n].Passed? <==> !Runs(Sources(f.edges, n), b, n, IsAlways(f, n), MainFailure(f, before, b)))
    && (b.statuses[n].Passed? ==> Excuses(Sources(f.edges, n), b, n, IsAlways(f, n), b.statuses[n].reason))
  }

  /** What the inputs of the run and the successes among these nodes publish. */
  ghost function Published(order: seq<Id>, b: Board, inputs: map<Id, Value>, run: Runner): map<Id, Value> {
    if order == [] then inputs
    else
      var n, view := order[|order| - 1], Published(order[..|order| - 1], b, inputs, run);
      if Get(b.statuses, n, Error) == Done && run(n, view).Finish? then view[n := Fields(run(n, view).outputs)] else view
  }

  /** A node that ran has the status its result gives it, and lost the edges that result did not route to. */
  ghost predicate Obeyed(f: Flow, before: seq<Id>, b: Board, n: Id, inputs: map<Id, Value>, run: Runner) {
    var result := run(n, Published(before, b, inputs, run));
    && n in b.statuses
    && (!b.statuses[n].Passed? ==> (b.statuses[n] == Done <==> result.Finish?))
    && Get(b.dead, n, {}) == if b.statuses[n] == Done && result.Finish? then Lost(Targets(f.edges, n), result.routed) else {}
  }

  ghost predicate AllObeyed(f: Flow, order: seq<Id>, b: Board, inputs: map<Id, Value>, run: Runner) {
    forall k {:trigger Obeyed(f, order[..k], b, order[k], inputs, run)} :: 0 <= k < |order| ==>
      Obeyed(f, order[..k], b, order[k], inputs, run)
  }

  ghost predicate AllExplained(f: Flow, order: seq<Id>, b: Board) {
    forall k {:trigger Explained(f, order[..k], b, order[k])} :: 0 <= k < |order| ==> Explained(f, order[..k], b, order[k])
  }

  lemma {:induction false} FailureStays(f: Flow, nodes: seq<Id>, b: Board, b': Board)
    requires forall m :: m in nodes ==> Get(b'.statuses, m, Done) == Get(b.statuses, m, Done)
    ensures MainFailure(f, nodes, b) <==> MainFailure(f, nodes, b')
  {
  }

  /** What is known of a node rests only on its predecessors, so later steps leave it standing. */
  lemma {:induction false} EdgesStay(preds: seq<Id>, b: Board, b': Board, n: Id)
    requires forall p :: p in preds ==> Get(b'.state, p, Pending) == Get(b.state, p, Pending)
    requires forall p :: p in preds ==> Get(b'.dead, p, {}) == Get(b.dead, p, {})
    ensures SomeLive(preds, b', n) == SomeLive(preds, b, n)
    ensures SomeFailed(preds, b') == SomeFailed(preds, b) && SomeDead(preds, b', n) == SomeDead(preds, b, n)
  {
    forall p | p in preds
      ensures LiveEdge(b, p, n) == LiveEdge(b', p, n) && FailedEdge(b, p) == FailedEdge(b', p) && DeadEdge(b, p, n) == DeadEdge(b', p, n)
    {
    }
  }

  lemma {:induction false} TalliesStep(f: Flow, order: seq<Id>, b: Board, b': Board, n: Id, run: Runner)
    requires Tallies(f, order, b) && n !in order && Processes(f, b, b', n, run)
    ensures Tallies(f, order + [n], b')
  {
    assert SetOf(order + [n]) == SetOf(order) + {n};
    FailureStays(f, order, b, b');
    assert MainFailure(f, order + [n], b') <==>
      MainFailure(f, order, b') || (Get(b'.statuses, n, Done) == Error && !IsAlways(f, n));
    assert Agrees(f, b, n);
    forall m ensures Agrees(f, b', m) { assert Agrees(f, b, m); }
  }

  lemma {:induction false} ExplainedStep(f: Flow, order: seq<Id>, b: Board, b': Board, n: Id, run: Runner)
    requires Tallies(f, order, b) && n !in order && Processes(f, b, b', n, run) && AllExplained(f, order, b)
    requires forall m, p :: m in order + [n] && p in Sources(f.edges, m) ==> p in order
    ensures AllExplained(f, order + [n], b')
  {
    var more := order + [n];
    forall k | 0 <= k < |more| ensures Explained(f, more[..k], b', more[k]) {
      var m := more[k];
      assert m in more;
      EdgesStay(Sources(f.edges, m), b, b', m);
      if k < |order| {
        assert more[..k] == order[..k];
        assert Explained(f, order[..k], b, order[k]);
      } else {
        assert more[..k] == order;
      }
      FailureStays(f, more[..k], b, b');
    }
  }

  lemma {:induction false} PublishedStays(order: seq<Id>, b: Board, b': Board, inputs: map<Id, Value>, run: Runner)
    requires forall m :: m in order ==> Get(b'.statuses, m, Error) == Get(b.statuses, m, Error)
    ensures Published(order, b', inputs, run) == Published(order, b, inputs, run)
  {
    if order != [] { PublishedStays(order[..|order| - 1], b, b', inputs, run); }
  }

  lemma {:induction false} ObeyedStep(f: Flow, order: seq<Id>, b: Board, b': Board, n: Id, inputs: map<Id, Value>, run: Runner)
    requires Tallies(f, order, b) && n !in order && Processes(f, b, b', n, run)
    requires AllObeyed(f, order, b, inputs, run) && b.view == Published(order, b, inputs, run)
    ensures AllObeyed(f, order + [n], b', inputs, run) && b'.view == Published(order + [n], b', inputs, run)
  {
    var more := order + [n];
    assert more[..|order|] == order;
    PublishedStays(order, b, b', inputs, run);
    assert Agrees(f, b, n);
    forall k | 0 <= k < |more| ensures Obeyed(f, more[..k], b', more[k], inputs, run) {
      assert more[k] in more;
      if k < |order| {
        assert more[..k] == order[..k];
        assert Obeyed(f, order[..k], b, order[k], inputs, run);
        PublishedStays(order[..k], b, b', inputs, run);
      }
    }
  }
}
