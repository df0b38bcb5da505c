/** The verdict of every node as a recursive function of the graph, with no schedule in it. */
module Verdicts {
  import opened Graphs
  import opened References
  import opened Flows

  ghost function Ancestors(f: Flow, n: Id): set<Id> {
    set a | a in Ids(f) && Reaches(EdgeSet(f), a, n)
  }

  /** Each data reference names an ancestor, or starts with a segment no node is called. */
  ghost predicate RefsLocal(f: Flow) {
    forall n, ref :: n in f.nodes && ref in n.inputSchema ==>
      ParseDataRef(ref).0 in Ancestors(f, n.id) || ParseDataRef(ref).0 !in Ids(f)
  }

  /** The conditions of the confluence theorem: a valid acyclic flow with local references. */
  ghost predicate Runnable(l: Launch, rank: map<Id, nat>) {
    WellFormed(l.flow) && Ranks(EdgeSet(l.flow), rank) && RefsLocal(l.flow)
  }

  ghost function VerdictOf(l: Launch, rank: map<Id, nat>, n: Id): Verdict
    requires WellFormed(l.flow) && Ranks(EdgeSet(l.flow), rank) && n in Ids(l.flow)
    decreases if n in rank then rank[n] else 0
  {
    Decide(l, NodeOf(l.flow, n),
           map a | a in Ancestors(l.flow, n) :: (ReachesClimbs(EdgeSet(l.flow), rank, a, n); VerdictOf(l, rank, a)))
  }

  ghost function AllVerdicts(l: Launch, rank: map<Id, nat>): map<Id, Verdict>
    requires WellFormed(l.flow) && Ranks(EdgeSet(l.flow), rank)
  {
    map n | n in Ids(l.flow) :: VerdictOf(l, rank, n)
  }

  ghost predicate Agree(F: map<Id, Verdict>, G: map<Id, Verdict>, ids: set<Id>) {
    forall a :: a in ids ==> a in F && a in G && F[a] == G[a]
  }

  lemma {:induction false} SourceIsAncestor(f: Flow, p: Id, n: Id)
    requires WellFormed(f) && p in Sources(f.edges, n)
    ensures p in Ancestors(f, n)
  {
    InSources(f.edges, p, n);
    assert Edge(p, n) in EdgeSet(f);
    EdgeReaches(EdgeSet(f), p, n);
  }

  /** A node's nodes are told apart by id. */
  lemma {:induction false} NodeIsNodeOf(f: Flow, n: Node)
    requires UniqueIds(f) && n in f.nodes
    ensures n.id in Ids(f) && NodeOf(f, n.id) == n
  {
    var m := NodeOf(f, n.id);
    var i :| 0 <= i < |f.nodes| && f.nodes[i] == n;
    var j :| 0 <= j < |f.nodes| && f.nodes[j] == m;
    assert f.nodes[i].id == f.nodes[j].id;
  }

  lemma {:induction false} FirstCauseAgrees(preds: seq<Id>, F: map<Id, Verdict>, G: map<Id, Verdict>)
    requires forall p :: p in preds ==> p in F && p in G && F[p] == G[p]
    ensures FirstCause(preds, F) == FirstCause(preds, G)
  {
    if preds != [] { FirstCauseAgrees(preds[1..], F, G); }
  }

  lemma {:induction false} InputAgrees(l: Launch, n: Node, ref: string, F: map<Id, Verdict>, G: map<Id, Verdict>)
    requires WellFormed(l.flow) && RefsLocal(l.flow) && n in l.flow.nodes && ref in n.inputSchema
    requires F.Keys <= Ids(l.flow) && G.Keys <= Ids(l.flow) && Agree(F, G, Ancestors(l.flow, n.id))
    ensures ResolveDataRef(ref, ViewOf(l.inputs, F)) == ResolveDataRef(ref, ViewOf(l.inputs, G))
    ensures InputPresent(ref, ViewOf(l.inputs, F)) <==> InputPresent(ref, ViewOf(l.inputs, G))
    ensures InputPresent(ref, ViewOf(l.inputs, F)) ==>
      InputValue(ref, ViewOf(l.inputs, F)) == InputValue(ref, ViewOf(l.inputs, G))
    ensures RefersToSkipped(ref, F, ViewOf(l.inputs, F)) <==> RefersToSkipped(ref, G, ViewOf(l.inputs, G))
  {
    var source := ParseDataRef(ref).0;
    assert source in Ancestors(l.flow, n.id) || source !in Ids(l.flow);
  }

  /** Two views that serve a node the same inputs end it the same way. */
  lemma {:induction false} FinishLocal(l: Launch, n: Node, v: View, w: View)
    requires "" in v && "" in w
    requires forall ref :: ref in n.inputSchema ==> (InputPresent(ref, v) <==> InputPresent(ref, w))
    requires forall ref :: ref in n.inputSchema && InputPresent(ref, v) ==> InputValue(ref, v) == InputValue(ref, w)
    ensures Finish(l, n, v) == Finish(l, n, w)
  {
    if InputsPresent(n, v) {
      assert Assemble(n, v) == Assemble(n, w);
    }
  }

  lemma {:induction false} PredsLocal(l: Launch, n: Node, F: map<Id, Verdict>, G: map<Id, Verdict>)
    requires WellFormed(l.flow) && Agree(F, G, Ancestors(l.flow, n.id))
    ensures var preds := Sources(l.flow.edges, n.id);
      && FirstCause(preds, F) == FirstCause(preds, G)
      && (RoutedAway(n.id, preds, F) <==> RoutedAway(n.id, preds, G))
      && (FullyDead(n.id, preds, F) <==> FullyDead(n.id, preds, G))
  {
    var preds := Sources(l.flow.edges, n.id);
    forall p | p in preds ensures p in F && p in G && F[p] == G[p] {
      SourceIsAncestor(l.flow, p, n.id);
    }
    FirstCauseAgrees(preds, F, G);
    forall p | p in preds
      ensures (DeadFrom(p, n.id, F) <==> DeadFrom(p, n.id, G)) && (AwayFrom(p, n.id, F) <==> AwayFrom(p, n.id, G))
    {
    }
  }

  /** The decision about a node depends only on its ancestors. */
  lemma {:induction false} DecideLocal(l: Launch, n: Node, F: map<Id, Verdict>, G: map<Id, Verdict>)
    requires WellFormed(l.flow) && RefsLocal(l.flow) && n in l.flow.nodes
    requires F.Keys <= Ids(l.flow) && G.Keys <= Ids(l.flow) && Agree(F, G, Ancestors(l.flow, n.id))
    ensures Decide(l, n, F) == Decide(l, n, G)
  {
    PredsLocal(l, n, F, G);
    var vf, vg := ViewOf(l.inputs, F), ViewOf(l.inputs, G);
    forall ref | ref in n.inputSchema
      ensures InputPresent(ref, vf) <==> InputPresent(ref, vg)
      ensures InputPresent(ref, vf) ==> InputValue(ref, vf) == InputValue(ref, vg)
      ensures RefersToSkipped(ref, F, vf) <==> RefersToSkipped(ref, G, vg)
    {
      InputAgrees(l, n, ref, F, G);
    }
    FinishLocal(l, n, vf, vg);
    assert InputsReferSkipped(n, F, vf) <==> InputsReferSkipped(n, G, vg);
  }

  ghost predicate PredClosed(f: Flow, done: set<Id>) {
    forall n, p :: n in done && p in Sources(f.edges, n) ==> p in done
  }

  /** A set closed under predecessors that holds the predecessors of n holds its ancestors. */
  lemma {:induction false} ClosedHoldsAncestors(f: Flow, rank: map<Id, nat>, done: set<Id>, n: Id)
    requires WellFormed(f) && Ranks(EdgeSet(f), rank) && PredClosed(f, done)
    requires forall p :: p in Sources(f.edges, n) ==> p in done
    ensures Ancestors(f, n) <= done
    decreases if n in rank then rank[n] else 0
  {
    forall a | a in Ancestors(f, n) ensures a in done {
      var m := ReachesLast(EdgeSet(f), a, n);
      InSources(f.edges, m, n);
      if m != a {
        assert Edge(m, n) in EdgeSet(f);
        ClosedHoldsAncestors(f, rank, done, m);
        assert a in Ancestors(f, m);
      }
    }
  }

  /** Facts that are the verdicts of a predecessor-closed set decide the next node's verdict. */
  lemma {:induction false} NextVerdict(l: Launch, rank: map<Id, nat>, facts: map<Id, Verdict>, n: Node)
    requires Runnable(l, rank) && n in l.flow.nodes && n.id in Ids(l.flow)
    requires facts.Keys <= Ids(l.flow) && PredClosed(l.flow, facts.Keys)
    requires forall a :: a in facts ==> facts[a] == VerdictOf(l, rank, a)
    requires forall p :: p in Sources(l.flow.edges, n.id) ==> p in facts
    ensures Decide(l, n, facts) == VerdictOf(l, rank, n.id)
  {
    ClosedHoldsAncestors(l.flow, rank, facts.Keys, n.id);
    NodeIsNodeOf(l.flow, n);
    var up := map a | a in Ancestors(l.flow, n.id) :: (ReachesClimbs(EdgeSet(l.flow), rank, a, n.id); VerdictOf(l, rank, a));
    DecideLocal(l, n, facts, up);
  }

  ghost predicate Solved(l: Launch, F: map<Id, Verdict>, n: Id) {
    n in Ids(l.flow) && n in F && F[n] == Decide(l, NodeOf(l.flow, n), F)
  }

  /** A labelling under which every node's verdict is the scheduler's decision about it. */
  ghost predicate Solves(l: Launch, F: map<Id, Verdict>) {
    F.Keys == Ids(l.flow) && forall n :: n in Ids(l.flow) ==> Solved(l, F, n)
  }

  lemma {:induction false} VerdictsSolve(l: Launch, rank: map<Id, nat>)
    requires Runnable(l, rank)
    ensures Solves(l, AllVerdicts(l, rank))
  {
    var F := AllVerdicts(l, rank);
    forall m, p | m in Ids(l.flow) && p in Sources(l.flow.edges, m) ensures p in Ids(l.flow) {
      SourceIsAncestor(l.flow, p, m);
    }
    forall n | n in Ids(l.flow) ensures Solved(l, F, n) {
      NextVerdict(l, rank, F, NodeOf(l.flow, n));
    }
  }

  /** The same step against any labelling that solves the equations. */
  lemma {:induction false} NextSolved(l: Launch, rank: map<Id, nat>, V: map<Id, Verdict>, facts: map<Id, Verdict>, n: Id)
    requires Runnable(l, rank) && Solves(l, V) && n in Ids(l.flow)
    requires facts.Keys <= Ids(l.flow) && PredClosed(l.flow, facts.Keys)
    requires Agree(facts, V, facts.Keys)
    requires forall p :: p in Sources(l.flow.edges, n) ==> p in facts
    ensures Decide(l, NodeOf(l.flow, n), facts) == V[n]
  {
    assert Solved(l, V, n);
    ClosedHoldsAncestors(l.flow, rank, facts.Keys, n);
    DecideLocal(l, NodeOf(l.flow, n), facts, V);
  }

  /** Any labelling that satisfies every node's own decision is the verdict: the equations have one solution. */
  lemma {:induction false} VerdictIsTheOnlySolution(l: Launch, rank: map<Id, nat>, F: map<Id, Verdict>, n: Id)
    requires Runnable(l, rank) && n in Ids(l.flow) && Solves(l, F)
    ensures F[n] == VerdictOf(l, rank, n)
    decreases if n in rank then rank[n] else 0
  {
    var up := map a | a in Ancestors(l.flow, n) :: (ReachesClimbs(EdgeSet(l.flow), rank, a, n); VerdictOf(l, rank, a));
    forall a | a in Ancestors(l.flow, n) ensures F[a] == up[a] {
      ReachesClimbs(EdgeSet(l.flow), rank, a, n);
      VerdictIsTheOnlySolution(l, rank, F, a);
    }
    assert Solved(l, F, n);
    DecideLocal(l, NodeOf(l.flow, n), F, up);
  }

  /** In particular the verdicts do not depend on which ranking of the graph they are computed along. */
  lemma {:induction false} VerdictIgnoresRank(l: Launch, rank: map<Id, nat>, rank': map<Id, nat>, n: Id)
    requires Runnable(l, rank) && Runnable(l, rank') && n in Ids(l.flow)
    ensures VerdictOf(l, rank, n) == VerdictOf(l, rank', n)
  {
    VerdictsSolve(l, rank);
    VerdictIsTheOnlySolution(l, rank', AllVerdicts(l, rank), n);
  }
}
