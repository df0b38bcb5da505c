/** What a finished run of the sequential engine reports, said of its edges and results alone. */
module CoreOutcomes {
  import opened Graphs
  import opened References
  import opened SortedNames
  import opened Flows
  import opened CoreOrder
  import opened CoreRules
  import opened CoreQueue

  type Statuses = map<Id, CoreStatus>

  type Results = map<Id, CoreOutcome>

  // ---- The rule

  ghost predicate Completed(S: Statuses, R: Results, p: Id) {
    p in S && S[p] == Done && p in R && R[p].Finish?
  }

  /** p succeeded and its result lets the edge to m run on. */
  ghost predicate Sends(f: Flow, S: Statuses, R: Results, p: Id, m: Id) {
    Edge(p, m) in f.edges && Completed(S, R, p) && (R[p].routed.None? || m in R[p].routed.value)
  }

  /** p succeeded and its result routed elsewhere. */
  ghost predicate Drops(f: Flow, S: Statuses, R: Results, p: Id, m: Id) {
    Edge(p, m) in f.edges && Completed(S, R, p) && R[p].routed.Some? && m !in R[p].routed.value
  }

  ghost predicate Breaks(f: Flow, S: Statuses, p: Id, m: Id) {
    Edge(p, m) in f.edges && p in S && S[p] == Error
  }

  ghost predicate HasEdgeInto(f: Flow, m: Id) {
    exists p :: Edge(p, m) in f.edges
  }

  ghost predicate Fed(f: Flow, S: Statuses, R: Results, m: Id) {
    exists p :: Sends(f, S, R, p, m)
  }

  /** An on_success node among these failed. */
  ghost predicate FailedAmong(f: Flow, S: Statuses, nodes: seq<Id>) {
    exists q :: q in nodes && q in S && S[q] == Error && !(q in Ids(f) && NodeOf(f, q).runWhen == Always)
  }

  /** A root, or a node that a success sends on; a failure of the main phase stops every node but the always nodes. */
  ghost predicate MayRun(f: Flow, S: Statuses, R: Results, before: seq<Id>, n: Id, always: bool) {
    !HasEdgeInto(f, n) || (Fed(f, S, R, n) && (always || !FailedAmong(f, S, before)))
  }

  ghost function SkippedFor(f: Flow, S: Statuses, R: Results, n: Id, always: bool): SkipReason {
    if Fed(f, S, R, n) then AbortedAfterFailure
    else if always then MissingInputs
    else if exists p :: Breaks(f, S, p, n) then DependencyFailed
    else if exists p :: Drops(f, S, R, p, n) then RoutedElsewhere
    else DependencySkipped
  }

  ghost predicate StatusRule(f: Flow, S: Statuses, R: Results, before: seq<Id>, n: Id) {
    && n in S && n in R && n in Ids(f)
    && var always := NodeOf(f, n).runWhen == Always;
       S[n] == if MayRun(f, S, R, before, n, always) then (if R[n].Finish? then Done else Error)
               else Passed(SkippedFor(f, S, R, n, always))
  }

  /** What the run's inputs and the successes among these nodes publish. */
  ghost predicate ViewIs(view: map<Id, Value>, inputs: map<Id, Value>, S: Statuses, R: Results, before: seq<Id>) {
    forall k ::
      (if k in view then Some(view[k]) else None) ==
        if k in before && Completed(S, R, k) then Some(Fields(R[k].outputs))
        else if k in inputs then Some(inputs[k]) else None
  }

  ghost predicate ResultRule(inputs: map<Id, Value>, run: Runner, S: Statuses, R: Results, before: seq<Id>, n: Id) {
    exists view :: ViewIs(view, inputs, S, R, before) && n in R && R[n] == run(n, view)
  }

  ghost predicate TurnRule(f: Flow, inputs: map<Id, Value>, run: Runner, S: Statuses, R: Results, before: seq<Id>, n: Id) {
    StatusRule(f, S, R, before, n) && ResultRule(inputs, run, S, R, before, n)
  }

  /** The nodes of the order, and no others, have a status, each by the rule. */
  ghost predicate RunRule(f: Flow, inputs: map<Id, Value>, run: Runner, order: seq<Id>, S: Statuses, R: Results) {
    && (forall n :: n in S <==> n in order)
    && (forall i, j :: 0 <= i < j < |order| ==> order[i] != order[j])
    && forall k {:trigger TurnRule(f, inputs, run, S, R, order[..k], order[k])} :: 0 <= k < |order| ==>
      TurnRule(f, inputs, run, S, R, order[..k], order[k])
  }

  // ---- A finished run follows it

  ghost function ResultsOf(order: seq<Id>, b: Board, inputs: map<Id, Value>, run: Runner): Results {
    if order == [] then map[]
    else
      var front, n := order[..|order| - 1], order[|order| - 1];
      ResultsOf(front, b, inputs, run)[n := run(n, Published(front, b, inputs, run))]
  }

  lemma {:induction false} ResultAt(order: seq<Id>, b: Board, inputs: map<Id, Value>, run: Runner, k: nat)
    requires NoRepeats(order) && k < |order|
    ensures var R := ResultsOf(order, b, inputs, run);
      order[k] in R && R[order[k]] == run(order[k], Published(order[..k], b, inputs, run))
  {
    var front := order[..|order| - 1];
    if k < |front| {
      ResultAt(front, b, inputs, run, k);
      assert front[..k] == order[..k] && front[k] == order[k] != order[|order| - 1];
    }
  }

  lemma {:induction false} ViewAt(order: seq<Id>, b: Board, inputs: map<Id, Value>, run: Runner, k: nat)
    requires NoRepeats(order) && k <= |order| && forall n :: n in order ==> n in b.statuses
    ensures ViewIs(Published(order[..k], b, inputs, run), inputs, b.statuses, ResultsOf(order, b, inputs, run), order[..k])
    decreases k
  {
    if k > 0 {
      ViewAt(order, b, inputs, run, k - 1);
      ResultAt(order, b, inputs, run, k - 1);
      var n := order[k - 1];
      assert order[..k][..k - 1] == order[..k - 1] && order[..k] == order[..k - 1] + [n];
      assert n in order;
      forall j | 0 <= j < k - 1 ensures order[j] != n { }
    }
  }

  /** The run ended, and each node has a place in its order. */
  ghost predicate Ended(f: Flow, order: seq<Id>, b: Board, inputs: map<Id, Value>, run: Runner) {
    Finishes(f, order, b, inputs, run) && NoRepeats(order)
  }

  lemma {:induction false} GreedyHasNoRepeats(f: Flow, order: seq<Id>)
    requires Greedy(f, order)
    ensures NoRepeats(order)
  {
    forall i, j | 0 <= i < j < |order| ensures order[i] != order[j] {
      assert TakesLeast(f, order, j);
      assert order[i] == order[..j][i] && order[i] in SetOf(order[..j]);
    }
  }

  /** What the tables say of a node that was processed. */
  lemma {:induction false} TablesAt(f: Flow, order: seq<Id>, b: Board, inputs: map<Id, Value>, run: Runner, p: Id)
    requires Ended(f, order, b, inputs, run) && p in order
    ensures var R := ResultsOf(order, b, inputs, run);
      && p in b.statuses && p in R && (!b.statuses[p].Passed? ==> (b.statuses[p] == Done <==> R[p].Finish?))
      && Get(b.dead, p, {}) == if b.statuses[p] == Done && R[p].Finish? then Lost(Targets(f.edges, p), R[p].routed) else {}
  {
    var k :| 0 <= k < |order| && order[k] == p;
    ResultAt(order, b, inputs, run, k);
    assert Obeyed(f, order[..k], b, order[k], inputs, run);
  }

  /** A finished node keeps exactly the edges its result did not route away from. */
  lemma {:induction false} DeadExactly(f: Flow, order: seq<Id>, b: Board, inputs: map<Id, Value>, run: Runner, p: Id, m: Id)
    requires Ended(f, order, b, inputs, run)
    ensures m in Get(b.dead, p, {}) <==> Drops(f, b.statuses, ResultsOf(order, b, inputs, run), p, m)
  {
    InTargets(f.edges, p, m);
    if p in order {
      TablesAt(f, order, b, inputs, run, p);
    } else {
      assert Agrees(f, b, p);
      assert p !in SetOf(order);
    }
  }

  lemma {:induction false} EdgeKinds(f: Flow, order: seq<Id>, b: Board, inputs: map<Id, Value>, run: Runner, p: Id, n: Id)
    requires Ended(f, order, b, inputs, run) && p in Sources(f.edges, n)
    ensures var R := ResultsOf(order, b, inputs, run);
      && (LiveEdge(b, p, n) <==> Sends(f, b.statuses, R, p, n))
      && (DeadEdge(b, p, n) <==> Drops(f, b.statuses, R, p, n)) && (FailedEdge(b, p) <==> Breaks(f, b.statuses, p, n))
  {
    InSources(f.edges, p, n);
    DeadExactly(f, order, b, inputs, run, p, n);
    assert Agrees(f, b, p);
    if p in b.statuses {
      assert p in SetOf(order);
      TablesAt(f, order, b, inputs, run, p);
    }
  }

  lemma {:induction false} PredecessorKinds(f: Flow, order: seq<Id>, b: Board, inputs: map<Id, Value>, run: Runner, n: Id)
    requires Ended(f, order, b, inputs, run)
    ensures var R, preds := ResultsOf(order, b, inputs, run), Sources(f.edges, n);
      && (preds == [] <==> !HasEdgeInto(f, n)) && (SomeLive(preds, b, n) <==> Fed(f, b.statuses, R, n))
      && (SomeFailed(preds, b) <==> exists p :: Breaks(f, b.statuses, p, n))
      && (SomeDead(preds, b, n) <==> exists p :: Drops(f, b.statuses, R, p, n))
  {
    var R, preds := ResultsOf(order, b, inputs, run), Sources(f.edges, n);
    forall p ensures p in preds <==> Edge(p, n) in f.edges { InSources(f.edges, p, n); }
    forall p | p in preds
      ensures LiveEdge(b, p, n) <==> Sends(f, b.statuses, R, p, n)
      ensures DeadEdge(b, p, n) <==> Drops(f, b.statuses, R, p, n)
      ensures FailedEdge(b, p) <==> Breaks(f, b.statuses, p, n)
    {
      EdgeKinds(f, order, b, inputs, run, p, n);
    }
    if preds != [] { assert preds[0] in preds; }
  }

  lemma {:induction false} MainFailureIs(f: Flow, nodes: seq<Id>, b: Board)
    ensures MainFailure(f, nodes, b) <==> FailedAmong(f, b.statuses, nodes)
  {
    if q :| q in nodes && q in b.statuses && b.statuses[q] == Error && !(q in Ids(f) && NodeOf(f, q).runWhen == Always) {
      assert Get(b.statuses, q, Done) == Error;
    }
  }

  lemma {:induction false} StatusByRule(f: Flow, order: seq<Id>, b: Board, inputs: map<Id, Value>, run: Runner, k: nat)
    requires Ended(f, order, b, inputs, run) && k < |order|
    ensures StatusRule(f, b.statuses, ResultsOf(order, b, inputs, run), order[..k], order[k])
  {
    var n := order[k];
    assert TakesLeast(f, order, k);
    assert n in order;
    TablesAt(f, order, b, inputs, run, n);
    PredecessorKinds(f, order, b, inputs, run, n);
    MainFailureIs(f, order[..k], b);
    assert Explained(f, order[..k], b, order[k]);
    ByRule(f, b, ResultsOf(order, b, inputs, run), order[..k], n);
  }

  lemma {:induction false} ByRule(f: Flow, b: Board, R: Results, before: seq<Id>, n: Id)
    requires Explained(f, before, b, n) && n in Ids(f) && n in R && (!b.statuses[n].Passed? ==> (b.statuses[n] == Done <==> R[n].Finish?))
    requires var preds := Sources(f.edges, n);
      && (preds == [] <==> !HasEdgeInto(f, n)) && (SomeLive(preds, b, n) <==> Fed(f, b.statuses, R, n))
      && (SomeFailed(preds, b) <==> exists p :: Breaks(f, b.statuses, p, n))
      && (SomeDead(preds, b, n) <==> exists p :: Drops(f, b.statuses, R, p, n))
    requires MainFailure(f, before, b) <==> FailedAmong(f, b.statuses, before)
    ensures StatusRule(f, b.statuses, R, before, n)
  {
  }

  /** Every run that ends follows the rule. */
  lemma {:induction false} RunFollowsRule(f: Flow, order: seq<Id>, b: Board, inputs: map<Id, Value>, run: Runner)
    requires Finishes(f, order, b, inputs, run)
    ensures RunRule(f, inputs, run, order, b.statuses, ResultsOf(order, b, inputs, run))
  {
    GreedyHasNoRepeats(f, order);
    forall n ensures n in b.statuses <==> n in order { assert n in b.statuses <==> n in SetOf(order); }
    var R := ResultsOf(order, b, inputs, run);
    forall k | 0 <= k < |order| ensures TurnRule(f, inputs, run, b.statuses, R, order[..k], order[k]) {
      StatusByRule(f, order, b, inputs, run, k);
      ViewAt(order, b, inputs, run, k);
      ResultAt(order, b, inputs, run, k);
    }
  }

  // ---- What a branch does

  /** A node some success sends on is never passed over as routed elsewhere. */
  lemma {:induction false} SentIsNotRoutedElsewhere(f: Flow, inputs: map<Id, Value>, run: Runner, order: seq<Id>, S: Statuses, R: Results,
                                                    p: Id, m: Id)
    requires RunRule(f, inputs, run, order, S, R) && Sends(f, S, R, p, m) && m in S
    ensures S[m] != Passed(RoutedElsewhere) && S[m] != Passed(DependencySkipped) && S[m] != Passed(DependencyFailed)
  {
    var k :| 0 <= k < |order| && order[k] == m;
    assert TurnRule(f, inputs, run, S, R, order[..k], order[k]);
  }

  /** A node all of whose predecessors succeeded and routed elsewhere is passed over for it, unless it is an always node. */
  lemma {:induction false} UnsentIsRoutedElsewhere(f: Flow, inputs: map<Id, Value>, run: Runner, order: seq<Id>, S: Statuses, R: Results, m: Id)
    requires RunRule(f, inputs, run, order, S, R) && m in S && HasEdgeInto(f, m) && m in Ids(f) && NodeOf(f, m).runWhen == OnSuccess
    requires forall p :: Edge(p, m) in f.edges ==> Drops(f, S, R, p, m)
    ensures S[m] == Passed(RoutedElsewhere)
  {
    var k :| 0 <= k < |order| && order[k] == m;
    assert TurnRule(f, inputs, run, S, R, order[..k], order[k]);
    var p :| Edge(p, m) in f.edges;
    assert Drops(f, S, R, p, m);
  }
}
