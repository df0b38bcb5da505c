/** The sequential engine: a sorted ready queue, one node at a time. */
module CoreScheduler {
  import opened Graphs
  import opened References
  import opened Flows
  import opened EngineGraph
  import opened SortedNames
  import opened CoreOrder
  import opened CoreRules
  import opened CoreQueue
  import CoreOutcomes

  datatype FlowError = EmptyId | DuplicateId(id: Id) | UnknownSource(edge: Edge) | UnknownTarget(edge: Edge)

  ghost predicate Accepted(f: Flow) {
    UniqueIds(f) && "" !in Ids(f) && Within(EdgeSet(f), Ids(f))
  }

  /** The node at i is the first whose id is empty or was given before. */
  ghost predicate FirstBadNode(nodes: seq<Node>, i: int, error: FlowError) {
    && 0 <= i < |nodes|
    && (forall j :: 0 <= j < i ==> nodes[j].id != "")
    && (forall j, k :: 0 <= j < k < i ==> nodes[j].id != nodes[k].id)
    && (nodes[i].id == "" || exists j :: 0 <= j < i && nodes[j].id == nodes[i].id)
    && error == if nodes[i].id == "" then EmptyId else DuplicateId(nodes[i].id)
  }

  /** The edge at i is the first with an undeclared end, its source looked at first. */
  ghost predicate FirstLooseEdge(f: Flow, i: int, error: FlowError) {
    && UniqueIds(f) && "" !in Ids(f) && 0 <= i < |f.edges|
    && (forall j :: 0 <= j < i ==> EndsKnown(f.edges[j], Ids(f))) && !EndsKnown(f.edges[i], Ids(f))
    && error == if f.edges[i].source !in Ids(f) then UnknownSource(f.edges[i]) else UnknownTarget(f.edges[i])
  }

  /** Validate: ids are given and unique, and every edge joins declared nodes; nodes are looked at before edges. */
  method Validate(f: Flow) returns (error: Option<FlowError>)
    ensures error.None? <==> Accepted(f)
    ensures error.Some? ==> exists i :: FirstBadNode(f.nodes, i, error.value) || FirstLooseEdge(f, i, error.value)
  {
    var ids: set<Id> := {};
    for i := 0 to |f.nodes|
      invariant ids == (set n | n in f.nodes[..i] :: n.id) && "" !in ids
      invariant forall j, k :: 0 <= j < k < i ==> f.nodes[j].id != f.nodes[k].id
    {
      var id := f.nodes[i].id;
      assert f.nodes[i] in f.nodes;
      if id == "" {
        assert FirstBadNode(f.nodes, i, EmptyId);
        return Some(EmptyId);
      }
      if id in ids {
        assert FirstBadNode(f.nodes, i, DuplicateId(id));
        return Some(DuplicateId(id));
      }
      assert f.nodes[..i + 1] == f.nodes[..i] + [f.nodes[i]];
      forall j | 0 <= j < i ensures f.nodes[j].id != id { assert f.nodes[j] in f.nodes[..i]; }
      ids := ids + {id};
    }
    assert f.nodes[..|f.nodes|] == f.nodes;
    for i := 0 to |f.edges|
      invariant forall j :: 0 <= j < i ==> EndsKnown(f.edges[j], ids)
    {
      var e := f.edges[i];
      assert e in EdgeSet(f);
      if e.source !in ids {
        assert FirstLooseEdge(f, i, UnknownSource(e));
        return Some(UnknownSource(e));
      }
      if e.target !in ids {
        assert FirstLooseEdge(f, i, UnknownTarget(e));
        return Some(UnknownTarget(e));
      }
    }
    return None;
  }

  ghost predicate Link(edges: seq<Edge>, succ: map<Id, seq<Id>>, preds: map<Id, seq<Id>>, n: Id) {
    Get(succ, n, []) == Targets(edges, n) && Get(preds, n, []) == Sources(edges, n)
  }

  ghost predicate Linked(edges: seq<Edge>, succ: map<Id, seq<Id>>, preds: map<Id, seq<Id>>) {
    forall n {:trigger Link(edges, succ, preds, n)} :: Link(edges, succ, preds, n)
  }

  ghost predicate Tally(edges: seq<Edge>, indeg: map<Id, int>, m: Id) {
    Get(indeg, m, 0) == |Sources(edges, m)|
  }

  /** In-degrees count the predecessors, one per edge. */
  ghost predicate Counted(edges: seq<Edge>, indeg: map<Id, int>) {
    forall m {:trigger Tally(edges, indeg, m)} :: Tally(edges, indeg, m)
  }

  lemma {:induction false} RootsHaveNoPredecessor(f: Flow, indeg: map<Id, int>, m: Id)
    requires Counted(f.edges, indeg)
    ensures InDegree(f, indeg, {}, [], m)
    ensures Available(f, {}, m) <==> m in Ids(f) && Get(indeg, m, 0) == 0
  {
    assert Tally(f.edges, indeg, m);
    NobodyDone(Sources(f.edges, m));
    if |Sources(f.edges, m)| > 0 { assert Sources(f.edges, m)[0] in Sources(f.edges, m); }
  }

  lemma {:induction false} RootsFit(f: Flow, indeg: map<Id, int>)
    requires Counted(f.edges, indeg)
    ensures InDegrees(f, indeg, {}, [])
  {
    forall m | m in Ids(f) - {} ensures InDegree(f, indeg, {}, [], m) { RootsHaveNoPredecessor(f, indeg, m); }
  }

  ghost predicate HasRoot(nodes: seq<Node>, indeg: map<Id, int>, m: Id) {
    exists n :: n in nodes && n.id == m && Get(indeg, m, 0) == 0
  }

  lemma {:induction false} RootsAreAvailable(f: Flow, indeg: map<Id, int>, roots: seq<Id>)
    requires Counted(f.edges, indeg) && NoRepeats(roots)
    requires forall m :: m in roots <==> HasRoot(f.nodes, indeg, m)
    ensures Queue(f, Sort(roots), {})
  {
    forall m ensures m in roots <==> Available(f, {}, m) { RootsHaveNoPredecessor(f, indeg, m); }
    assert [] + roots == roots;
    QueueGrows(f, [], roots, {});
  }

  lemma {:induction false} LinkOne(edges: seq<Edge>, e: Edge, succ: map<Id, seq<Id>>, preds: map<Id, seq<Id>>)
    requires Linked(edges, succ, preds)
    ensures Linked(edges + [e], succ[e.source := Get(succ, e.source, []) + [e.target]],
      preds[e.target := Get(preds, e.target, []) + [e.source]])
  {
    assert (edges + [e])[..|edges|] == edges;
    var s := succ[e.source := Get(succ, e.source, []) + [e.target]];
    var p := preds[e.target := Get(preds, e.target, []) + [e.source]];
    forall n ensures Link(edges + [e], s, p, n) {
      assert Link(edges, succ, preds, n);
    }
  }

  lemma {:induction false} CountOne(edges: seq<Edge>, e: Edge, indeg: map<Id, int>)
    requires Counted(edges, indeg)
    ensures Counted(edges + [e], indeg[e.target := Get(indeg, e.target, 0) + 1])
  {
    assert (edges + [e])[..|edges|] == edges;
    var counts := indeg[e.target := Get(indeg, e.target, 0) + 1];
    forall m ensures Tally(edges + [e], counts, m) {
      assert Tally(edges, indeg, m);
    }
  }

  /** The successors of p that lose their edge when n routes. */
  function LostFrom(p: Id, n: Id, successors: seq<Id>, routed: Option<seq<Id>>): set<Id> {
    if p == n then Lost(successors, routed) else {}
  }

  class Scheduler {
    const f: Flow
    const run: Runner
    ghost const inputs: map<Id, Value>
    var succ: map<Id, seq<Id>>
    var preds: map<Id, seq<Id>>
    var indeg: map<Id, int>
    var ready: seq<Id>
    var state: map<Id, NodeState>
    var dead: map<Id, set<Id>>
    var mainFailed: bool
    var statuses: map<Id, CoreStatus>
    var view: map<Id, Value>
    var processed: nat
    ghost var order: seq<Id>

    ghost predicate Built()
      reads this
    {
      UniqueIds(f) && Within(EdgeSet(f), Ids(f)) && Linked(f.edges, succ, preds)
    }

    function Now(): Board
      reads this
    {
      Board(state, dead, mainFailed, statuses, view)
    }

    ghost predicate Valid()
      reads this
    {
      && Built() && processed == |order|
      && Recorded(f, order, Now(), inputs, run) && Lined(f, order, ready, indeg)
    }

    /** newScheduler: adjacency and in-degrees edge by edge, then the sorted roots. */
    constructor (f: Flow, inputs: map<Id, Value>, run: Runner)
      requires Accepted(f)
      ensures Valid() && order == [] && this.f == f && this.inputs == inputs && this.run == run
    {
      this.f, this.run, this.inputs, view, order := f, run, inputs, inputs, [];
      state, dead, mainFailed, statuses, processed := map[], map[], false, map[], 0;
      succ, preds, indeg, ready := map[], map[], map[], [];
      new;
      LinkEdges();
      CollectRoots();
      NothingProcessed(f, ready, indeg);
      NothingRecorded(f, inputs, run);
    }

    method LinkEdges()
      requires Accepted(f) && succ == map[] && preds == map[] && indeg == map[]
      modifies this`succ, this`preds, this`indeg
      ensures Built() && Counted(f.edges, indeg)
    {
      assert f.edges[..0] == [];
      for i := 0 to |f.edges|
        invariant Linked(f.edges[..i], succ, preds) && Counted(f.edges[..i], indeg)
      {
        var e := f.edges[i];
        assert f.edges[..i + 1] == f.edges[..i] + [e];
        LinkOne(f.edges[..i], e, succ, preds);
        CountOne(f.edges[..i], e, indeg);
        succ := succ[e.source := Get(succ, e.source, []) + [e.target]];
        preds := preds[e.target := Get(preds, e.target, []) + [e.source]];
        indeg := indeg[e.target := Get(indeg, e.target, 0) + 1];
      }
      assert f.edges[..|f.edges|] == f.edges;
    }

    method CollectRoots()
      requires Built() && ready == [] && Counted(f.edges, indeg)
      modifies this`ready
      ensures Queue(f, ready, {}) && InDegrees(f, indeg, {}, [])
    {
      for i := 0 to |f.nodes|
        invariant NoRepeats(ready)
        invariant forall m :: m in ready <==> HasRoot(f.nodes[..i], indeg, m)
      {
        var id := f.nodes[i].id;
        assert f.nodes[..i + 1] == f.nodes[..i] + [f.nodes[i]];
        forall n | n in f.nodes[..i] ensures n.id != id {
          var j :| 0 <= j < i && f.nodes[j] == n;
        }
        assert id !in ready;
        if Get(indeg, id, 0) == 0 { ready := ready + [id]; }
      }
      assert f.nodes[..|f.nodes|] == f.nodes;
      RootsAreAvailable(f, indeg, ready);
      RootsFit(f, indeg);
      ready := Sort(ready);
    }

    /** Decrements the successors of n and lists the ones that reach zero. */
    method Decrement(n: Id, ghost done: set<Id>) returns (added: seq<Id>)
      requires Built() && n !in done && Closed(f, done) && InDegrees(f, indeg, done, [])
      modifies this`indeg
      ensures InDegrees(f, indeg, done, Targets(f.edges, n)) && Reach(indeg, Targets(f.edges, n), added)
    {
      var successors := Get(succ, n, []);
      assert Link(f.edges, succ, preds, n);
      added := [];
      SuccessorsLeft(f, done, n);
      for i := 0 to |successors|
        invariant InDegrees(f, indeg, done, successors[..i]) && Reach(indeg, successors[..i], added)
      {
        var m := successors[i];
        assert successors[..i + 1] == successors[..i] + [m];
        StillCounted(f, indeg, done, n, successors[..i], m, successors);
        DegreeStep(f, indeg, done, successors[..i], m);
        indeg := indeg[m := Get(indeg, m, 0) - 1];
        if indeg[m] == 0 { added := added + [m]; }
      }
      assert successors[..|successors|] == successors;
    }

    /** release: queues the successors that became ready, and sorts only when the queue changed. */
    method Release(n: Id)
      requires Built() && Taken(f, order, n, ready, indeg)
      modifies this`indeg, this`ready
      ensures Lined(f, order + [n], ready, indeg)
    {
      ghost var was := indeg;
      StartRelease(f, order, n, ready, indeg);
      var added := Decrement(n, SetOf(order));
      Released(f, order, n, ready, was, indeg, added);
      var grown := ready + added;
      assert added == [] ==> grown == ready;
      if |grown| > |ready| && |grown| > 1 {
        ready := Sort(grown);
      } else {
        ready := grown;
      }
    }

    /** recordRouting: the successors a routing node did not choose lose their edge. */
    method RecordRouting(n: Id, routed: Option<seq<Id>>)
      requires Built()
      modifies this`dead
      ensures forall p :: Get(dead, p, {}) == Get(old(dead), p, {}) + LostFrom(p, n, Targets(f.edges, n), routed)
    {
      if routed.None? { return; }
      var successors := Get(succ, n, []);
      assert Link(f.edges, succ, preds, n);
      for i := 0 to |successors|
        invariant forall p :: Get(dead, p, {}) == Get(old(dead), p, {}) + LostFrom(p, n, successors[..i], routed)
      {
        var m := successors[i];
        assert successors[..i + 1] == successors[..i] + [m];
        ghost var lost := Lost(successors[..i], routed);
        assert Lost(successors[..i + 1], routed) == if m in routed.value then lost else lost + {m};
        if m !in routed.value { dead := dead[n := Get(dead, n, {}) + {m}]; }
      }
      assert successors[..|successors|] == successors;
    }

    /** Runs or skips the node taken from the queue and records it. */
    method Settle(n: Id)
      requires Built() && n in Ids(f)
      modifies this`state, this`dead, this`mainFailed, this`statuses, this`view
      ensures Processes(f, old(Now()), Now(), n, run)
    {
      var always := NodeOf(f, n).runWhen == Always;
      assert Link(f.edges, succ, preds, n);
      var decision := Classify(Get(preds, n, []), Now(), n, always);
      match decision
      case Skip(reason) =>
        statuses := statuses[n := Passed(reason)];
      case Go =>
        match run(n, view)
        case Fail =>
          statuses := statuses[n := Error];
          state := state[n := Broken];
          if !always { mainFailed := true; }
        case Finish(outputs, routed) =>
          view := view[n := Fields(outputs)];
          state := state[n := Finished];
          statuses := statuses[n := Done];
          RecordRouting(n, routed);
    }

    method SettleTaken(n: Id)
      requires Built() && n in Ids(f) && Recorded(f, order, Now(), inputs, run) && Taken(f, order, n, ready, indeg)
      modifies this`state, this`dead, this`mainFailed, this`statuses, this`view
      ensures Recorded(f, order + [n], Now(), inputs, run)
    {
      ghost var was := Now();
      Settle(n);
      RecordedStep(f, order, ready, indeg, was, Now(), n, inputs, run);
    }

    /** step: the node taken from the queue is settled and its successors are released. */
    method Step(n: Id)
      requires Built() && processed == |order| && n in Ids(f)
      requires Recorded(f, order, Now(), inputs, run) && Taken(f, order, n, ready, indeg)
      modifies this
      ensures Valid() && order == old(order) + [n]
    {
      processed := processed + 1;
      SettleTaken(n);
      Release(n);
      order := order + [n];
    }

    /** schedule: drains the queue; a run that could not process every node reports a cycle. */
    method Schedule() returns (complete: bool)
      requires Valid() && order == []
      modifies this
      ensures complete <==> Acyclic(EdgeSet(f))
      ensures Finishes(f, order, Now(), inputs, run) && (mainFailed <==> MainFailure(f, order, Now()))
    {
      while |ready| > 0
        invariant Valid()
        decreases Ids(f) - SetOf(order)
      {
        TakeHead(f, order, ready, indeg);
        var n := ready[0];
        ready := ready[1..];
        Step(n);
      }
      complete := processed == |f.nodes|;
      assert ready == [];
      Drained(f, order, indeg, Now(), inputs, run);
    }
  }

  datatype FlowResult =
    | Invalid(error: FlowError)
    | NoNodes
    | Report(success: bool, cyclic: bool, statuses: map<Id, CoreStatus>)

  /** What a finished run reports, for the order in which it took the nodes. */
  ghost predicate Reports(f: Flow, inputs: map<Id, Value>, run: Runner, order: seq<Id>, b: Board, r: FlowResult) {
    && Finishes(f, order, b, inputs, run)
    && r == Report(!MainFailure(f, order, b) && Acyclic(EdgeSet(f)), !Acyclic(EdgeSet(f)), b.statuses)
  }

  /** The reported statuses are those of a run by the rule, whole and least first exactly when the graph is acyclic. */
  ghost predicate Follows(f: Flow, inputs: map<Id, Value>, run: Runner, order: seq<Id>, R: CoreOutcomes.Results, r: FlowResult)
    requires r.Report?
  {
    && CoreOutcomes.RunRule(f, inputs, run, order, r.statuses, R)
    && (r.cyclic <==> !Acyclic(EdgeSet(f))) && (!r.cyclic ==> LeastOrder(f, order))
    && (r.success <==> !r.cyclic && !CoreOutcomes.FailedAmong(f, r.statuses, order))
  }

  /** run: validate, then schedule. */
  method RunFlow(f: Flow, inputs: map<Id, Value>, run: Runner) returns (r: FlowResult)
    ensures r.NoNodes? <==> f.nodes == []
    ensures r.Invalid? <==> f.nodes != [] && !Accepted(f)
    ensures r.Report? ==> exists order, b :: Reports(f, inputs, run, order, b, r)
    ensures r.Report? ==> exists order, R :: Follows(f, inputs, run, order, R, r)
  {
    if |f.nodes| == 0 { return NoNodes; }
    var error := Validate(f);
    if error.Some? { return Invalid(error.value); }
    var s := new Scheduler(f, inputs, run);
    var complete := s.Schedule();
    r := Report(!s.mainFailed && complete, !complete, s.statuses);
    assert Reports(f, inputs, run, s.order, s.Now(), r);
    CoreOutcomes.RunFollowsRule(f, s.order, s.Now(), inputs, run);
    CoreOutcomes.MainFailureIs(f, s.order, s.Now());
    assert Follows(f, inputs, run, s.order, CoreOutcomes.ResultsOf(s.order, s.Now(), inputs, run), r);
  }
}
