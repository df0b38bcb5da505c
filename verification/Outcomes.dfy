/** How a flow ends, said of its nodes and edges alone: who is started, and what every node ends as. */
module Outcomes {
  import opened Graphs
  import opened References
  import opened Flows
  import opened Verdicts
  import opened Containment

  // ---- Who is started

  /** The edge carries a success that was not routed elsewhere. */
  ghost predicate LiveEdge(l: Launch, V: map<Id, Verdict>, p: Id, n: Id) {
    Edge(p, n) in l.flow.edges && p in V && V[p].status == Succeeded && n !in V[p].dead
  }

  /** The reference names output `key` of step a, which was skipped, and no flow input claims it instead. */
  ghost predicate NamesSkippedStep(l: Launch, V: map<Id, Verdict>, ref: string, a: Id, key: string) {
    && ref == a + "." + key && a != "" && '.' !in a
    && a in V && V[a].status == Skipped && (V[a].published.Some? || !Rooted(ref, l.inputs.Keys))
  }

  ghost predicate HasEdgeInto(f: Flow, n: Id) {
    exists p :: Edge(p, n) in f.edges
  }

  /**
   * An on_success node is started exactly when it is a root or has a live edge, no failure reaches it, and none of
   * its references names a skipped step.
   */
  ghost predicate OnSuccessStart(l: Launch, V: map<Id, Verdict>, n: Id)
    requires n in V && n in Ids(l.flow)
  {
    V[n].started <==>
      && (!HasEdgeInto(l.flow, n) || exists p :: LiveEdge(l, V, p, n))
      && (!exists path :: FailurePath(l, V, path, n))
      && (!exists ref, a, key :: ref in NodeOf(l.flow, n).inputSchema && NamesSkippedStep(l, V, ref, a, key))
  }

  /** An always node is started exactly when a path from a root follows no closed edge to it. */
  ghost predicate AlwaysStart(l: Launch, V: map<Id, Verdict>, n: Id)
    requires n in V
  {
    V[n].started <==> exists p :: OpenPath(l, V, p, n)
  }

  // ---- What a node ends as

  function NameOf(n: Node): string { if n.display == "" then n.id else n.display }

  ghost predicate ClosesUnrouted(l: Launch, n: Id, dead: set<Id>, routed: Option<seq<Id>>) {
    forall m :: m in dead <==> Edge(n, m) in l.flow.edges && routed.Some? && m !in routed.value
  }

  /** A started node that misses an input is skipped when it is an always node, and fails when it is not. */
  ghost predicate EndsRefused(l: Launch, n: Node, v: Verdict) {
    if n.runWhen == Always then
      && v.status == Skipped && v.published == Some(map[]) && v.cause == None
      && forall m :: m in v.dead <==> n.routes && Edge(n.id, m) in l.flow.edges
    else
      v.status == Failed && v.published == None && v.dead == {} && v.cause == Some(NameOf(n))
  }

  ghost predicate EndsAs(l: Launch, n: Node, v: Verdict, outcome: Outcome) {
    match outcome
    case Success(outputs, routed) =>
      v.status == Succeeded && v.published == Some(outputs) && v.cause == None && ClosesUnrouted(l, n.id, v.dead, routed)
    case Failure(partial) =>
      v.status == Failed && v.published == partial && v.cause == Some(NameOf(n)) && v.dead == {}
  }

  ghost predicate MissesInput(n: Node, view: View)
    requires "" in view
  {
    exists ref :: ref in n.inputSchema && !InputPresent(ref, view)
  }

  /** A started node runs on the inputs its references find among what was published. */
  ghost predicate StartedEnd(l: Launch, V: map<Id, Verdict>, n: Id)
    requires n in V && n in Ids(l.flow)
  {
    var node, view := NodeOf(l.flow, n), ViewOf(l.inputs, V);
    V[n].started ==>
      && !V[n].routedAway
      && if MissesInput(node, view) then EndsRefused(l, node, V[n])
         else EndsAs(l, node, V[n], l.run(n, map ref | ref in node.inputSchema :: InputValue(ref, view)))
  }

  /** A node that is not started is skipped, publishes nothing and closes nothing; it blames a failure that reaches it. */
  ghost predicate UnstartedEnd(l: Launch, V: map<Id, Verdict>, n: Id)
    requires n in V && n in Ids(l.flow)
  {
    !V[n].started ==>
      && V[n].status == Skipped && V[n].published == None && V[n].dead == {}
      && (V[n].cause.Some? <==> OnSuccessNode(l.flow, n) && exists path :: FailurePath(l, V, path, n))
      && (V[n].cause.Some? ==> exists path :: Blamed(l, V, path, n))
  }

  /** The failure at the start of the path is the one the node names. */
  ghost predicate Blamed(l: Launch, V: map<Id, Verdict>, path: seq<Id>, n: Id) {
    && FailurePath(l, V, path, n) && path[0] in Ids(l.flow)
    && n in V && V[n].cause == Some(NameOf(NodeOf(l.flow, path[0])))
  }

  /** Everything there is to say about how node n ends. */
  ghost predicate EndsByRule(l: Launch, V: map<Id, Verdict>, n: Id) {
    && n in V && n in Ids(l.flow)
    && (if OnSuccessNode(l.flow, n) then OnSuccessStart(l, V, n) else AlwaysStart(l, V, n))
    && StartedEnd(l, V, n) && UnstartedEnd(l, V, n)
    && (V[n].routedAway <==> !exists p :: OpenPath(l, V, p, n))
  }

  // ---- The verdicts end every node by the rule

  lemma {:induction false} FailureStops(l: Launch, rank: map<Id, nat>, n: Id)
    requires Runnable(l, rank) && OnSuccessNode(l.flow, n)
    ensures FirstCause(Sources(l.flow.edges, n), AllVerdicts(l, rank)).Some? <==>
      exists path :: FailurePath(l, AllVerdicts(l, rank), path, n)
  {
    var V := AllVerdicts(l, rank);
    VerdictsSolve(l, rank);
    FailureContainment(l, rank, n);
    assert Solved(l, V, n);
    CauseShape(l, V, n);
  }

  lemma {:induction false} LiveOrDead(l: Launch, V: map<Id, Verdict>, n: Id)
    requires V.Keys == Ids(l.flow) && Within(EdgeSet(l.flow), Ids(l.flow))
    ensures FullyDead(n, Sources(l.flow.edges, n), V) <==> HasEdgeInto(l.flow, n) && !exists p :: LiveEdge(l, V, p, n)
  {
    var preds := Sources(l.flow.edges, n);
    forall p ensures p in preds <==> Edge(p, n) in l.flow.edges { InSources(l.flow.edges, p, n); }
    forall p | p in preds ensures LiveEdge(l, V, p, n) <==> !DeadFrom(p, n, V) {
      assert Edge(p, n) in EdgeSet(l.flow);
    }
    if preds != [] { assert preds[0] in preds; }
  }

  lemma {:induction false} SplitReference(ref: string, a: Id, key: string)
    requires a != "" && '.' !in a
    ensures ref == a + "." + key ==> ParseDataRef(ref) == (a, key)
  {
    if ref == a + "." + key {
      assert ref[|a|] == '.';
      assert forall i :: 0 <= i < |a| ==> ref[i] == a[i];
      assert FirstDot(ref) == |a|;
      assert ref[..|a|] == a && ref[|a| + 1..] == key;
    }
  }

  lemma {:induction false} SkippedReference(l: Launch, V: map<Id, Verdict>, ref: string)
    ensures RefersToSkipped(ref, V, ViewOf(l.inputs, V)) <==> exists a, key :: NamesSkippedStep(l, V, ref, a, key)
  {
    var view := ViewOf(l.inputs, V);
    var (source, rest) := ParseDataRef(ref);
    if RefersToSkipped(ref, V, view) { assert NamesSkippedStep(l, V, ref, source, rest); }
    if a, key :| NamesSkippedStep(l, V, ref, a, key) { SplitReference(ref, a, key); }
  }

  lemma {:induction false} SkippedReferences(l: Launch, V: map<Id, Verdict>, n: Node)
    ensures InputsReferSkipped(n, V, ViewOf(l.inputs, V)) <==>
      exists ref, a, key :: ref in n.inputSchema && NamesSkippedStep(l, V, ref, a, key)
  {
    forall ref ensures RefersToSkipped(ref, V, ViewOf(l.inputs, V)) <==> exists a, key :: NamesSkippedStep(l, V, ref, a, key) {
      SkippedReference(l, V, ref);
    }
  }

  lemma {:induction false} DecidedStart(l: Launch, n: Node, V: map<Id, Verdict>)
    requires n.runWhen == OnSuccess
    ensures Decide(l, n, V).started <==>
      && FirstCause(Sources(l.flow.edges, n.id), V).None? && !FullyDead(n.id, Sources(l.flow.edges, n.id), V)
      && !InputsReferSkipped(n, V, ViewOf(l.inputs, V))
  {
    FinishedStarted(l, n, ViewOf(l.inputs, V));
  }

  lemma {:induction false} StartsByRule(l: Launch, rank: map<Id, nat>, n: Id)
    requires Runnable(l, rank) && n in Ids(l.flow)
    ensures if OnSuccessNode(l.flow, n) then OnSuccessStart(l, AllVerdicts(l, rank), n) else AlwaysStart(l, AllVerdicts(l, rank), n)
  {
    var V := AllVerdicts(l, rank);
    if OnSuccessNode(l.flow, n) {
      VerdictsSolve(l, rank);
      assert Solved(l, V, n);
      DecidedStart(l, NodeOf(l.flow, n), V);
      FailureStops(l, rank, n);
      LiveOrDead(l, V, n);
      SkippedReferences(l, V, NodeOf(l.flow, n));
    } else {
      AlwaysSurvivesFailure(l, rank, n);
      RoutedAwayExactly(l, rank, n);
    }
  }

  lemma {:induction false} RefusedByRule(l: Launch, n: Node)
    ensures EndsRefused(l, n, Settle(l, n, Refused))
  {
    forall m ensures m in Targets(l.flow.edges, n.id) <==> Edge(n.id, m) in l.flow.edges { InTargets(l.flow.edges, n.id, m); }
  }

  lemma {:induction false} RanByRule(l: Launch, n: Node, outcome: Outcome)
    ensures EndsAs(l, n, Settle(l, n, Ran(outcome)), outcome)
  {
    forall m ensures m in Targets(l.flow.edges, n.id) <==> Edge(n.id, m) in l.flow.edges { InTargets(l.flow.edges, n.id, m); }
  }

  /** What a started node ends as is settled by the run on the view it finds. */
  lemma {:induction false} DecidedFinish(l: Launch, n: Node, V: map<Id, Verdict>)
    requires Decide(l, n, V).started
    ensures Decide(l, n, V) == Settle(l, n, RunOf(l, n, ViewOf(l.inputs, V))) && !Decide(l, n, V).routedAway
  {
  }

  lemma {:induction false} StartedByRule(l: Launch, V: map<Id, Verdict>, n: Id)
    requires Solved(l, V, n)
    ensures StartedEnd(l, V, n)
  {
    var node, view := NodeOf(l.flow, n), ViewOf(l.inputs, V);
    if V[n].started {
      DecidedFinish(l, node, V);
      RefusedByRule(l, node);
      if !MissesInput(node, view) {
        var inputs := map ref | ref in node.inputSchema :: InputValue(ref, view);
        assert Assemble(node, view) == inputs;
        RanByRule(l, node, l.run(n, inputs));
      }
    }
  }

  lemma {:induction false} DecidedSkip(l: Launch, n: Node, V: map<Id, Verdict>)
    requires !Decide(l, n, V).started
    ensures var d := Decide(l, n, V); d.status == Skipped && d.published == None && d.dead == {}
    ensures n.runWhen == Always ==> Decide(l, n, V).cause == None
    ensures n.runWhen == OnSuccess ==> Decide(l, n, V).cause == FirstCause(Sources(l.flow.edges, n.id), V)
  {
    FinishedStarted(l, n, ViewOf(l.inputs, V));
  }

  lemma {:induction false} UnstartedByRule(l: Launch, rank: map<Id, nat>, n: Id)
    requires Runnable(l, rank) && n in Ids(l.flow)
    ensures UnstartedEnd(l, AllVerdicts(l, rank), n)
  {
    var V := AllVerdicts(l, rank);
    VerdictsSolve(l, rank);
    assert Solved(l, V, n);
    if !V[n].started {
      DecidedSkip(l, NodeOf(l.flow, n), V);
      if OnSuccessNode(l.flow, n) { FailureStops(l, rank, n); }
      if V[n].cause.Some? {
        var path := CauseHasPath(l, rank, V, n);
        assert Blamed(l, V, path, n);
      }
    }
  }

  /** The verdicts end every node by the rule. */
  lemma {:induction false} VerdictsEndByRule(l: Launch, rank: map<Id, nat>, n: Id)
    requires Runnable(l, rank) && n in Ids(l.flow)
    ensures EndsByRule(l, AllVerdicts(l, rank), n)
  {
    VerdictsSolve(l, rank);
    assert Solved(l, AllVerdicts(l, rank), n);
    StartsByRule(l, rank, n);
    StartedByRule(l, AllVerdicts(l, rank), n);
    UnstartedByRule(l, rank, n);
    RoutedAwayExactly(l, rank, n);
  }

  /** A join after a branch runs as long as one side of it does: a live edge, no failure, and no skipped reference. */
  lemma {:induction false} JoinRuns(l: Launch, rank: map<Id, nat>, p: Id, n: Id)
    requires Runnable(l, rank) && OnSuccessNode(l.flow, n) && LiveEdge(l, AllVerdicts(l, rank), p, n)
    requires !exists path :: FailurePath(l, AllVerdicts(l, rank), path, n)
    requires NodeOf(l.flow, n).inputSchema == []
    ensures VerdictOf(l, rank, n).started
  {
    VerdictsEndByRule(l, rank, n);
  }
}
