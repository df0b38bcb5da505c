/** The edges a branch compiles to always satisfy the parse-time check of its targets. */
module FlowBranches {
  import opened References
  import opened Graphs
  import opened GoText
  import opened FlowEdges
  import opened FlowModel
  import opened FlowShapes
  import Validation

  /** The edge list as the validator reads it. */
  function PlainEdges(edges: seq<FlowEdge>): seq<Edge> {
    seq(|edges|, i requires 0 <= i < |edges| => Edge(edges[i].arrow.source, edges[i].arrow.target))
  }

  lemma {:induction false} IdsAreTrimmed(s: string)
    requires ValidId(s)
    ensures TrimSpace(s) == s
  {
    assert IsNameChar(s[0]) && IsNameChar(s[|s| - 1]);
  }

  lemma {:induction false} TargetsAreTrimmed(n: Stored, t: string)
    requires CompiledNode(n) && t in BranchTargets(n)
    ensures Trimmed(t)
  {
    var cases := n.data.cases;
    if t in CaseTargets(cases) {
      var i :| 0 <= i < |cases| && CaseTargets(cases)[i] == t;
      assert CompiledCase(cases[i]);
    }
  }

  /** Each branch target of a compiled node is an edge away. */
  lemma {:induction false} TargetHasEdge(b: StoredBody, k: nat, t: string)
    requires CompiledBody(b) && k < |b.nodes| && t in BranchTargets(b.nodes[k])
    ensures exists e :: e in b.edges && e.arrow == Arrow(b.nodes[k].id, t, Success)
  {
    var links := Reread(StoredLinks(b.nodes), b.edges);
    var a := Arrow(b.nodes[k].id, t, Success);
    assert CompiledNode(b.nodes[k]);
    TargetsAreTrimmed(b.nodes[k], t);
    assert links[k].branch == BranchTargets(b.nodes[k]) && Asks(links[k], a);
    WantedIsAsked(links, a);
    DedupMembers(AllWanted(links));
    var arrows := Dedup(AllWanted(links));
    var i :| 0 <= i < |arrows| && arrows[i] == a;
    assert b.edges[i] == EdgeFor(a) && b.edges[i] in b.edges;
  }

  /** validateBranchTargets accepts every compiled body. */
  lemma {:induction false} BranchTargetsAccepted(b: StoredBody, k: nat, t: string)
    requires CompiledBody(b) && k < |b.nodes| && t in BranchTargets(b.nodes[k])
    ensures Validation.TargetAccepted(Validation.TrimmedEdges(PlainEdges(b.edges)), b.nodes[k].id, t)
  {
    TargetHasEdge(b, k, t);
    assert CompiledNode(b.nodes[k]);
    TargetsAreTrimmed(b.nodes[k], t);
    IdsAreTrimmed(b.nodes[k].id);
    var e :| e in b.edges && e.arrow == Arrow(b.nodes[k].id, t, Success);
    var i :| 0 <= i < |b.edges| && b.edges[i] == e;
    assert PlainEdges(b.edges)[i] == Edge(b.nodes[k].id, t);
    assert Edge(b.nodes[k].id, t) in PlainEdges(b.edges);
  }
}
