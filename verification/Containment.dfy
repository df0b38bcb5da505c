/** What the verdicts mean on paths: failures stop at always nodes, branches cut whole subtrees. */
module Containment {
  import opened Graphs
  import opened References
  import opened Flows
  import opened Verdicts

  ghost predicate OnSuccessNode(f: Flow, n: Id) {
    n in Ids(f) && NodeOf(f, n).runWhen == OnSuccess
  }

  /** A path from a failed node to n along which every later node is an on_success node. */
  ghost predicate FailurePath(l: Launch, V: map<Id, Verdict>, p: seq<Id>, n: Id) {
    && |p| >= 2 && IsPath(EdgeSet(l.flow), p) && p[|p| - 1] == n
    && p[0] in V && V[p[0]].status == Failed
    && forall i :: 1 <= i < |p| ==> OnSuccessNode(l.flow, p[i])
  }

  lemma {:induction false} EdgeClimbs(l: Launch, rank: map<Id, nat>, p: Id, n: Id)
    requires Runnable(l, rank) && p in Sources(l.flow.edges, n)
    ensures Edge(p, n) in EdgeSet(l.flow) && p in Ids(l.flow) && n in Ids(l.flow)
    ensures p in rank && n in rank && rank[p] < rank[n]
  {
    InSources(l.flow.edges, p, n);
    assert Edge(p, n) in EdgeSet(l.flow);
  }

  lemma {:induction false} PathExtends(es: set<Edge>, p: seq<Id>, n: Id)
    requires IsPath(es, p) && Edge(p[|p| - 1], n) in es
    ensures IsPath(es, p + [n])
  {
  }

  /** How a verdict carries a cause: its own failure, or the first cause among its predecessors. */
  lemma {:induction false} CauseShape(l: Launch, V: map<Id, Verdict>, n: Id)
    requires Solved(l, V, n)
    ensures V[n].status == Failed ==> V[n].cause == Some(DisplayName(NodeOf(l.flow, n)))
    ensures V[n].cause.Some? && V[n].status != Failed ==>
      && OnSuccessNode(l.flow, n) && V[n].status == Skipped && !V[n].started
      && V[n].cause == FirstCause(Sources(l.flow.edges, n), V)
    ensures OnSuccessNode(l.flow, n) && FirstCause(Sources(l.flow.edges, n), V).Some? ==>
      V[n].status == Skipped && !V[n].started && V[n].cause.Some?
  {
  }

  lemma {:induction false} CausePredecessor(preds: seq<Id>, facts: map<Id, Verdict>) returns (q: Id)
    requires FirstCause(preds, facts).Some?
    ensures q in preds && q in facts && facts[q].cause == FirstCause(preds, facts)
  {
    if preds[0] in facts && facts[preds[0]].cause.Some? {
      q := preds[0];
    } else {
      q := CausePredecessor(preds[1..], facts);
    }
  }

  /** The failure whose name a skipped node reports starts a path of on_success nodes to it. */
  lemma {:induction false} CauseHasPath(l: Launch, rank: map<Id, nat>, V: map<Id, Verdict>, n: Id) returns (p: seq<Id>)
    requires Runnable(l, rank) && Solves(l, V) && n in Ids(l.flow)
    requires V[n].cause.Some? && V[n].status != Failed
    ensures FailurePath(l, V, p, n)
    ensures p[0] in Ids(l.flow) && V[n].cause == Some(DisplayName(NodeOf(l.flow, p[0])))
    decreases if n in rank then rank[n] else 0
  {
    assert Solved(l, V, n);
    CauseShape(l, V, n);
    var q := CausePredecessor(Sources(l.flow.edges, n), V);
    EdgeClimbs(l, rank, q, n);
    assert Solved(l, V, q);
    CauseShape(l, V, q);
    if V[q].status == Failed {
      p := [q, n];
      FailureNextTo(l, V, q, n);
    } else {
      var up := CauseHasPath(l, rank, V, q);
      FailurePathExtends(l, V, up, q, n);
      p := up + [n];
    }
  }

  lemma {:induction false} FailureNextTo(l: Launch, V: map<Id, Verdict>, q: Id, n: Id)
    requires q in V && V[q].status == Failed && Edge(q, n) in EdgeSet(l.flow) && OnSuccessNode(l.flow, n)
    ensures FailurePath(l, V, [q, n], n)
  {
  }

  lemma {:induction false} FailurePathExtends(l: Launch, V: map<Id, Verdict>, p: seq<Id>, q: Id, n: Id)
    requires FailurePath(l, V, p, q) && Edge(q, n) in EdgeSet(l.flow) && OnSuccessNode(l.flow, n)
    ensures FailurePath(l, V, p + [n], n)
  {
    PathExtends(EdgeSet(l.flow), p, n);
  }

  lemma {:induction false} PathCarriesCause(l: Launch, V: map<Id, Verdict>, p: seq<Id>, n: Id)
    requires Solves(l, V) && FailurePath(l, V, p, n)
    ensures n in V && V[n].cause.Some? && V[n].status == Skipped && !V[n].started
    decreases |p|
  {
    var q := p[|p| - 2];
    assert Edge(q, p[|p| - 2 + 1]) in EdgeSet(l.flow);
    assert OnSuccessNode(l.flow, p[|p| - 1]);
    if |p| == 2 {
      assert Solved(l, V, q);
      CauseShape(l, V, q);
    } else {
      PathCarriesCause(l, V, p[..|p| - 1], q);
    }
    InSources(l.flow.edges, q, n);
    assert V[q].cause.Some?;
    assert Solved(l, V, n);
    CauseShape(l, V, n);
  }

  /**
   * Failure containment. An on_success node ends skipped because of a failure, without being started,
   * exactly when a path of on_success nodes leads to it from a node that failed.
   */
  lemma {:induction false} FailureContainment(l: Launch, rank: map<Id, nat>, n: Id)
    requires Runnable(l, rank) && OnSuccessNode(l.flow, n)
    ensures var v := VerdictOf(l, rank, n);
      (v.status == Skipped && !v.started && v.cause.Some?) <==>
      (exists p :: FailurePath(l, AllVerdicts(l, rank), p, n))
  {
    var V := AllVerdicts(l, rank);
    VerdictsSolve(l, rank);
    if V[n].status == Skipped && V[n].cause.Some? {
      var p := CauseHasPath(l, rank, V, n);
    }
    if p :| FailurePath(l, V, p, n) {
      PathCarriesCause(l, V, p, n);
    }
  }

  /** An always node survives every failure: it is skipped only when routed away or missing an input. */
  lemma {:induction false} AlwaysSurvivesFailure(l: Launch, rank: map<Id, nat>, n: Id)
    requires Runnable(l, rank) && n in Ids(l.flow) && NodeOf(l.flow, n).runWhen == Always
    ensures var v := VerdictOf(l, rank, n);
      && (v.started <==> !v.routedAway)
      && (v.cause.Some? ==> v.status == Failed)
      && (v.status == Skipped && v.started <==>
          !v.routedAway && !InputsPresent(NodeOf(l.flow, n), ViewOf(l.inputs, AllVerdicts(l, rank))))
  {
    VerdictsSolve(l, rank);
    assert Solved(l, AllVerdicts(l, rank), n);
  }

  /** A path from a node without predecessors to n that follows no dead edge. */
  ghost predicate OpenPath(l: Launch, V: map<Id, Verdict>, p: seq<Id>, n: Id) {
    && IsPath(EdgeSet(l.flow), p) && p[|p| - 1] == n && Sources(l.flow.edges, p[0]) == []
    && forall i :: 0 <= i < |p| - 1 ==> p[i] in V && p[i + 1] !in V[p[i]].dead
  }

  /** A verdict is routed away exactly when each predecessor's edge is dead or the predecessor is routed away. */
  lemma {:induction false} RoutedShape(l: Launch, V: map<Id, Verdict>, n: Id)
    requires Solved(l, V, n)
    requires forall p :: p in Sources(l.flow.edges, n) && p in V ==> (V[p].routedAway ==> V[p].status == Skipped)
    ensures V[n].routedAway <==> RoutedAway(n, Sources(l.flow.edges, n), V)
    ensures V[n].routedAway ==> V[n].status == Skipped
  {
    var preds := Sources(l.flow.edges, n);
    if RoutedAway(n, preds, V) {
      forall p | p in preds ensures DeadFrom(p, n, V) { assert AwayFrom(p, n, V); }
      assert FullyDead(n, preds, V);
    }
  }

  lemma {:induction false} RoutedIsSkipped(l: Launch, V: map<Id, Verdict>, n: Id)
    requires Solved(l, V, n) && V[n].routedAway
    ensures V[n].status == Skipped
  {
  }

  lemma {:induction false} RoutedExactly(l: Launch, V: map<Id, Verdict>, n: Id)
    requires WellFormed(l.flow) && Solves(l, V) && n in Ids(l.flow)
    ensures V[n].routedAway <==> RoutedAway(n, Sources(l.flow.edges, n), V)
  {
    forall p | p in Sources(l.flow.edges, n) && p in V && V[p].routedAway ensures V[p].status == Skipped {
      assert Solved(l, V, p);
      RoutedIsSkipped(l, V, p);
    }
    assert Solved(l, V, n);
    RoutedShape(l, V, n);
  }

  lemma {:induction false} OpenPathStaysOpen(l: Launch, V: map<Id, Verdict>, p: seq<Id>, n: Id)
    requires WellFormed(l.flow) && Solves(l, V) && n in Ids(l.flow) && OpenPath(l, V, p, n)
    ensures !V[n].routedAway
    decreases |p|
  {
    RoutedExactly(l, V, n);
    if |p| > 1 {
      var q := p[|p| - 2];
      LastOpenEdge(l, V, p, n);
      OpenPathStaysOpen(l, V, p[..|p| - 1], q);
      assert !AwayFrom(q, n, V);
    }
  }

  lemma {:induction false} LastOpenEdge(l: Launch, V: map<Id, Verdict>, p: seq<Id>, n: Id)
    requires WellFormed(l.flow) && OpenPath(l, V, p, n) && |p| > 1
    ensures var q := p[|p| - 2]; q in Sources(l.flow.edges, n) && q in Ids(l.flow) && q in V && n !in V[q].dead
    ensures OpenPath(l, V, p[..|p| - 1], p[|p| - 2])
  {
    var q := p[|p| - 2];
    assert Edge(q, p[|p| - 2 + 1]) in EdgeSet(l.flow);
    assert p[|p| - 2] in V && p[|p| - 2 + 1] !in V[p[|p| - 2]].dead;
    InSources(l.flow.edges, q, n);
  }

  lemma {:induction false} OpenPathExtends(l: Launch, V: map<Id, Verdict>, p: seq<Id>, q: Id, n: Id)
    requires OpenPath(l, V, p, q) && Edge(q, n) in EdgeSet(l.flow) && q in V && n !in V[q].dead
    ensures OpenPath(l, V, p + [n], n)
  {
    PathExtends(EdgeSet(l.flow), p, n);
  }

  lemma {:induction false} OpenPathExists(l: Launch, rank: map<Id, nat>, V: map<Id, Verdict>, n: Id) returns (p: seq<Id>)
    requires Runnable(l, rank) && Solves(l, V) && n in Ids(l.flow) && !V[n].routedAway
    ensures OpenPath(l, V, p, n)
    decreases if n in rank then rank[n] else 0
  {
    var preds := Sources(l.flow.edges, n);
    RoutedExactly(l, V, n);
    if preds == [] {
      p := [n];
    } else {
      forall q | q in preds ensures q in V { EdgeClimbs(l, rank, q, n); }
      var q :| q in preds && !AwayFrom(q, n, V);
      EdgeClimbs(l, rank, q, n);
      var up := OpenPathExists(l, rank, V, q);
      OpenPathExtends(l, V, up, q, n);
      p := up + [n];
    }
  }

  /** A node is routed away exactly when every path to it from a root follows an edge a branch closed. */
  lemma {:induction false} RoutedAwayExactly(l: Launch, rank: map<Id, nat>, n: Id)
    requires Runnable(l, rank) && n in Ids(l.flow)
    ensures VerdictOf(l, rank, n).routedAway <==> !exists p :: OpenPath(l, AllVerdicts(l, rank), p, n)
  {
    var V := AllVerdicts(l, rank);
    VerdictsSolve(l, rank);
    if p :| OpenPath(l, V, p, n) {
      OpenPathStaysOpen(l, V, p, n);
    } else if !V[n].routedAway {
      var p := OpenPathExists(l, rank, V, n);
    }
  }

  /** The edges a decision closes when it skips the node. */
  lemma {:induction false} SkippedDecision(l: Launch, n: Node, facts: map<Id, Verdict>)
    ensures var d, view := Decide(l, n, facts), ViewOf(l.inputs, facts);
      && (d.status == Skipped && d.started <==> n.runWhen == Always && d.started && !InputsPresent(n, view))
      && (d.status == Skipped && d.started ==> d.dead == DeadTargets(Targets(l.flow.edges, n.id), SkippedRouting(n)))
      && (d.status == Skipped && !d.started ==> d.dead == {})
  {
    FinishedStarted(l, n, ViewOf(l.inputs, facts));
  }

  lemma {:induction false} FinishedStarted(l: Launch, n: Node, view: View)
    requires "" in view
    ensures var d := Finish(l, n, view);
      && d.started && (d.status == Skipped <==> n.runWhen == Always && !InputsPresent(n, view))
      && (d.status == Skipped ==> d.dead == DeadTargets(Targets(l.flow.edges, n.id), SkippedRouting(n)))
  {
  }

  lemma {:induction false} AllClosed(n: Node, targets: seq<Id>)
    ensures DeadTargets(targets, SkippedRouting(n)) == if n.routes then (set t | t in targets) else {}
    ensures DeadTargets(targets, SkippedRouting(n)) != {} <==> n.routes && targets != []
  {
    if targets != [] && n.routes { assert targets[0] in DeadTargets(targets, SkippedRouting(n)); }
  }

  /**
   * A skipped node has closed edges exactly when it is an always node that routes, was started, missed an input and
   * has a successor; then all of its edges are closed.
   */
  lemma {:induction false} SkippedBranchClosesEdges(l: Launch, rank: map<Id, nat>, n: Id)
    requires Runnable(l, rank) && n in Ids(l.flow)
    ensures var v, node, targets := VerdictOf(l, rank, n), NodeOf(l.flow, n), Targets(l.flow.edges, n);
      && (v.status == Skipped && v.dead != {} <==>
          node.routes && node.runWhen == Always && v.started && targets != []
          && !InputsPresent(node, ViewOf(l.inputs, AllVerdicts(l, rank))))
      && (v.status == Skipped && v.dead != {} ==> v.dead == set t | t in targets)
  {
    VerdictsSolve(l, rank);
    assert Solved(l, AllVerdicts(l, rank), n);
    SkippedDecision(l, NodeOf(l.flow, n), AllVerdicts(l, rank));
    AllClosed(NodeOf(l.flow, n), Targets(l.flow.edges, n));
  }
}
