/** NewFlowEngine: adjacency and in-degree maps filled edge by edge, and the counting facts about them. */
module EngineGraph {
  import opened Graphs
  import opened References
  import opened Flows

  datatype BuildError = SourceMissing(edge: Edge) | TargetMissing(edge: Edge)

  datatype Engine = Engine(preds: map<Id, seq<Id>>, succs: map<Id, seq<Id>>, indegree: map<Id, nat>)

  datatype BuildResult = Built(engine: Engine) | Rejected(error: BuildError)

  ghost predicate DescribesNode(e: Engine, edges: seq<Edge>, n: Id) {
    && n in e.preds && e.preds[n] == Sources(edges, n)
    && n in e.succs && e.succs[n] == Targets(edges, n)
    && n in e.indegree && e.indegree[n] == |Sources(edges, n)|
  }

  /** The engine's maps are the graph of these edges over these nodes. */
  ghost predicate Describes(e: Engine, ids: set<Id>, edges: seq<Edge>) {
    && e.preds.Keys == ids && e.succs.Keys == ids && e.indegree.Keys == ids
    && forall n :: n in ids ==> DescribesNode(e, edges, n)
  }

  predicate EndsKnown(edge: Edge, ids: set<Id>) {
    edge.source in ids && edge.target in ids
  }

  /** The error names the first edge with an end that is no node, its source first. */
  ghost predicate FirstBadEdge(edges: seq<Edge>, ids: set<Id>, i: int, error: BuildError) {
    && 0 <= i < |edges|
    && (forall k :: 0 <= k < i ==> EndsKnown(edges[k], ids))
    && !EndsKnown(edges[i], ids)
    && error == (if edges[i].source !in ids then SourceMissing(edges[i]) else TargetMissing(edges[i]))
  }

  method RegisterNodes(nodes: seq<Node>) returns (e: Engine)
    ensures Describes(e, (set n | n in nodes :: n.id), [])
  {
    e := Engine(map[], map[], map[]);
    for i := 0 to |nodes|
      invariant Describes(e, (set n | n in nodes[..i] :: n.id), [])
    {
      var id := nodes[i].id;
      e := Engine(e.preds[id := []], e.succs[id := []], e.indegree[id := 0]);
      assert nodes[..i + 1] == nodes[..i] + [nodes[i]];
      assert (set n | n in nodes[..i + 1] :: n.id) == (set n | n in nodes[..i] :: n.id) + {id};
    }
    assert nodes[..|nodes|] == nodes;
  }

  method RegisterEdge(e: Engine, ghost ids: set<Id>, ghost edges: seq<Edge>, edge: Edge) returns (e': Engine)
    requires Describes(e, ids, edges) && edge.source in ids && edge.target in ids
    ensures Describes(e', ids, edges + [edge])
  {
    var succs := e.succs[edge.source := e.succs[edge.source] + [edge.target]];
    var preds := e.preds[edge.target := e.preds[edge.target] + [edge.source]];
    var indegree := e.indegree[edge.target := e.indegree[edge.target] + 1];
    e' := Engine(preds, succs, indegree);
    assert (edges + [edge])[..|edges|] == edges;
    forall n | n in ids ensures DescribesNode(e', edges + [edge], n) {
      assert DescribesNode(e, edges, n);
    }
  }

  ghost predicate KnownUpTo(edges: seq<Edge>, ids: set<Id>, i: int) {
    forall k :: 0 <= k < i && k < |edges| ==> EndsKnown(edges[k], ids)
  }

  method RegisterEdges(nodes: Engine, ghost ids: set<Id>, edges: seq<Edge>) returns (r: BuildResult)
    requires Describes(nodes, ids, [])
    ensures r.Built? ==> Describes(r.engine, ids, edges) && forall k :: 0 <= k < |edges| ==> EndsKnown(edges[k], ids)
    ensures r.Rejected? ==> exists i :: FirstBadEdge(edges, ids, i, r.error)
  {
    var e := nodes;
    assert edges[..0] == [];
    for i := 0 to |edges|
      invariant KnownUpTo(edges, ids, i) && Describes(e, ids, edges[..i])
    {
      var edge := edges[i];
      if edge.source !in e.indegree {
        assert FirstBadEdge(edges, ids, i, SourceMissing(edge));
        return Rejected(SourceMissing(edge));
      }
      if edge.target !in e.indegree {
        assert FirstBadEdge(edges, ids, i, TargetMissing(edge));
        return Rejected(TargetMissing(edge));
      }
      assert edges[..i + 1] == edges[..i] + [edge];
      e := RegisterEdge(e, ids, edges[..i], edge);
      assert KnownUpTo(edges, ids, i + 1);
    }
    assert edges[..|edges|] == edges;
    return Built(e);
  }

  method NewFlowEngine(f: Flow) returns (r: BuildResult)
    ensures r.Built? <==> forall k :: 0 <= k < |f.edges| ==> EndsKnown(f.edges[k], Ids(f))
    ensures r.Built? ==> Describes(r.engine, Ids(f), f.edges)
    ensures r.Rejected? ==> exists i :: FirstBadEdge(f.edges, Ids(f), i, r.error)
  {
    var nodes := RegisterNodes(f.nodes);
    r := RegisterEdges(nodes, Ids(f), f.edges);
  }

  function Count(s: seq<Id>, x: Id): (c: nat)
    ensures c > 0 <==> x in s
  {
    if s == [] then 0 else Count(s[..|s| - 1], x) + if s[|s| - 1] == x then 1 else 0
  }

  /** How many of the given predecessors have not ended yet. */
  function Waiting(preds: seq<Id>, done: set<Id>): (c: nat)
    ensures c == 0 <==> forall p :: p in preds ==> p in done
    ensures c <= |preds|
  {
    if preds == [] then 0
    else
      assert preds == preds[..|preds| - 1] + [preds[|preds| - 1]];
      Waiting(preds[..|preds| - 1], done) + if preds[|preds| - 1] in done then 0 else 1
  }

  lemma {:induction false} NobodyDone(preds: seq<Id>)
    ensures Waiting(preds, {}) == |preds|
  {
    if preds != [] { NobodyDone(preds[..|preds| - 1]); }
  }

  lemma {:induction false} WaitingDrops(preds: seq<Id>, done: set<Id>, n: Id)
    requires n !in done
    ensures Waiting(preds, done + {n}) == Waiting(preds, done) - Count(preds, n)
  {
    if preds != [] { WaitingDrops(preds[..|preds| - 1], done, n); }
  }

  /** Parallel edges are counted alike from both ends. */
  lemma {:induction false} EndsAgree(edges: seq<Edge>, n: Id, m: Id)
    ensures Count(Targets(edges, n), m) == Count(Sources(edges, m), n)
  {
    if edges != [] {
      var rest, e := edges[..|edges| - 1], edges[|edges| - 1];
      EndsAgree(rest, n, m);
      assert (Targets(rest, n) + [e.target])[..|Targets(rest, n)|] == Targets(rest, n);
      assert (Sources(rest, m) + [e.source])[..|Sources(rest, m)|] == Sources(rest, m);
    }
  }

  /** A node's predecessors and successors are its edges, each as often as it is there. */
  lemma {:induction false} EdgesAreCounted(edges: seq<Edge>, n: Id, m: Id)
    ensures multiset(Sources(edges, m))[n] == multiset(edges)[Edge(n, m)] == multiset(Targets(edges, n))[m]
  {
    if edges != [] {
      var rest, e := edges[..|edges| - 1], edges[|edges| - 1];
      assert edges == rest + [e];
      EdgesAreCounted(rest, n, m);
    }
  }
}
