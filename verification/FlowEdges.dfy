/** The edges of a flow file: what each node asks for, and the list the compiler writes. */
module FlowEdges {
  import opened References
  import opened Graphs

  datatype Kind = Success | Failure

  /** An edge without its id, which is a function of the rest. */
  datatype Arrow = Arrow(source: Id, target: Id, kind: Kind)

  datatype FlowEdge = FlowEdge(id: string, arrow: Arrow)

  /** What a node says about its successors; branch lists the targets of its cases and its default. */
  datatype Links = Links(id: Id, next: seq<Id>, branch: seq<Id>, fail: seq<Id>)

  function EdgeFor(a: Arrow): FlowEdge {
    FlowEdge(a.source + "-" + a.target + (if a.kind == Failure then "-failure" else ""), a)
  }

  function EdgesFor(arrows: seq<Arrow>): seq<FlowEdge> {
    seq(|arrows|, i requires 0 <= i < |arrows| => EdgeFor(arrows[i]))
  }

  function Filled(names: seq<string>): seq<string> {
    if names == [] then []
    else
      var rest, last := Filled(names[..|names| - 1]), names[|names| - 1];
      if last == "" then rest else rest + [last]
  }

  function Arrows(id: Id, names: seq<Id>, kind: Kind): seq<Arrow> {
    seq(|names|, i requires 0 <= i < |names| => Arrow(id, names[i], kind))
  }

  /** Every edge a node asks for, in the order it is asked for. */
  function Wanted(n: Links): seq<Arrow> {
    Arrows(n.id, Filled(n.next + n.branch), Success) + Arrows(n.id, Filled(n.fail), Failure)
  }

  function AllWanted(nodes: seq<Links>): seq<Arrow> {
    if nodes == [] then [] else AllWanted(nodes[..|nodes| - 1]) + Wanted(nodes[|nodes| - 1])
  }

  /** The first occurrence of each element. */
  function Dedup<T(==)>(s: seq<T>): seq<T> {
    if s == [] then []
    else
      var rest, last := Dedup(s[..|s| - 1]), s[|s| - 1];
      if last in s[..|s| - 1] then rest else rest + [last]
  }

  /** addEdge. */
  method AddEdge(edges: seq<FlowEdge>, seen: set<Arrow>, source: Id, target: Id, kind: Kind, ghost asked: seq<Arrow>)
    returns (edges': seq<FlowEdge>, seen': set<Arrow>)
    requires Collected(edges, seen, asked)
    ensures Collected(edges', seen', asked + Arrows(source, Filled([target]), kind))
  {
    assert [target][..0] == [];
    if target == "" {
      assert asked + Arrows(source, Filled([target]), kind) == asked;
      return edges, seen;
    }
    var a := Arrow(source, target, kind);
    assert Filled([target]) == [target] && asked + Arrows(source, [target], kind) == asked + [a];
    assert (asked + [a])[..|asked|] == asked;
    assert forall x :: x in asked + [a] <==> x in asked || x == a;
    if a in seen {
      return edges, seen;
    }
    assert EdgesFor(Dedup(asked) + [a]) == EdgesFor(Dedup(asked)) + [EdgeFor(a)];
    return edges + [EdgeFor(a)], seen + {a};
  }

  /** What the compiler's list and its set of keys hold after these requests. */
  ghost predicate Collected(edges: seq<FlowEdge>, seen: set<Arrow>, asked: seq<Arrow>) {
    edges == EdgesFor(Dedup(asked)) && forall a :: a in seen <==> a in asked
  }

  method AddAll(edges: seq<FlowEdge>, seen: set<Arrow>, source: Id, targets: seq<Id>, kind: Kind, ghost asked: seq<Arrow>)
    returns (edges': seq<FlowEdge>, seen': set<Arrow>)
    requires Collected(edges, seen, asked)
    ensures Collected(edges', seen', asked + Arrows(source, Filled(targets), kind))
  {
    edges', seen' := edges, seen;
    assert asked + Arrows(source, Filled([]), kind) == asked && targets[..0] == [];
    for i := 0 to |targets|
      invariant Collected(edges', seen', asked + Arrows(source, Filled(targets[..i]), kind))
    {
      ghost var before := asked + Arrows(source, Filled(targets[..i]), kind);
      edges', seen' := AddEdge(edges', seen', source, targets[i], kind, before);
      assert targets[..i + 1][..i] == targets[..i] && [targets[i]][..0] == [];
      assert before + Arrows(source, Filled([targets[i]]), kind) == asked + Arrows(source, Filled(targets[..i + 1]), kind);
    }
    assert targets[..|targets|] == targets;
  }

  lemma {:induction false} FilledAppend(a: seq<string>, b: seq<string>)
    ensures Filled(a + b) == Filled(a) + Filled(b)
  {
    if b == [] {
      assert a + b == a;
    } else {
      assert (a + b)[..|a + b| - 1] == a + b[..|b| - 1];
      FilledAppend(a, b[..|b| - 1]);
    }
  }

  lemma {:induction false} ArrowsAppend(id: Id, a: seq<Id>, b: seq<Id>, kind: Kind)
    ensures Arrows(id, a + b, kind) == Arrows(id, a, kind) + Arrows(id, b, kind)
  {
  }

  lemma {:induction false} WantedInParts(n: Links, asked: seq<Arrow>)
    ensures asked + Arrows(n.id, Filled(n.next), Success) + Arrows(n.id, Filled(n.branch), Success)
      + Arrows(n.id, Filled(n.fail), Failure) == asked + Wanted(n)
  {
    FilledAppend(n.next, n.branch);
    ArrowsAppend(n.id, Filled(n.next), Filled(n.branch), Success);
  }

  /** lowerEdges: each requested edge once, where it is first asked for. */
  method LowerEdges(nodes: seq<Links>) returns (edges: seq<FlowEdge>)
    ensures edges == EdgesFor(Dedup(AllWanted(nodes)))
  {
    edges := [];
    var seen: set<Arrow> := {};
    for i := 0 to |nodes|
      invariant Collected(edges, seen, AllWanted(nodes[..i]))
    {
      var n := nodes[i];
      ghost var asked := AllWanted(nodes[..i]);
      edges, seen := AddAll(edges, seen, n.id, n.next, Success, asked);
      ghost var next := asked + Arrows(n.id, Filled(n.next), Success);
      edges, seen := AddAll(edges, seen, n.id, n.branch, Success, next);
      ghost var branch := next + Arrows(n.id, Filled(n.branch), Success);
      edges, seen := AddAll(edges, seen, n.id, n.fail, Failure, branch);
      WantedInParts(n, asked);
      assert nodes[..i + 1][..i] == nodes[..i];
    }
    assert nodes[..|nodes|] == nodes;
  }

  /** The targets of a node's edges of one kind, in order. */
  function TargetsOf(id: Id, kind: Kind, edges: seq<FlowEdge>): seq<Id> {
    if edges == [] then []
    else
      var rest, a := TargetsOf(id, kind, edges[..|edges| - 1]), edges[|edges| - 1].arrow;
      if a.source == id && a.kind == kind then rest + [a.target] else rest
  }

  /** edgeNames. */
  method EdgeNames(id: Id, edges: seq<FlowEdge>) returns (next: seq<Id>, fail: seq<Id>)
    ensures next == TargetsOf(id, Success, edges) && fail == TargetsOf(id, Failure, edges)
  {
    next, fail := [], [];
    for i := 0 to |edges|
      invariant next == TargetsOf(id, Success, edges[..i]) && fail == TargetsOf(id, Failure, edges[..i])
    {
      assert edges[..i + 1][..i] == edges[..i];
      var a := edges[i].arrow;
      if a.source == id {
        match a.kind
        case Success => next := next + [a.target];
        case Failure => fail := fail + [a.target];
      }
    }
    assert edges[..|edges|] == edges;
  }

  // ---- The normal form

  lemma {:induction false} DedupMembers<T>(s: seq<T>)
    ensures forall x :: x in Dedup(s) <==> x in s
    ensures forall i, j :: 0 <= i < j < |Dedup(s)| ==> Dedup(s)[i] != Dedup(s)[j]
  {
    if s != [] {
      DedupMembers(s[..|s| - 1]);
      assert s == s[..|s| - 1] + [s[|s| - 1]];
    }
  }

  lemma {:induction false} DedupDistinct<T>(s: seq<T>)
    requires forall i, j :: 0 <= i < j < |s| ==> s[i] != s[j]
    ensures Dedup(s) == s
  {
    if s != [] { DedupDistinct(s[..|s| - 1]); }
  }

  lemma {:induction false} DedupKnown<T>(s: seq<T>, y: seq<T>)
    requires forall x :: x in y ==> x in s
    ensures Dedup(s + y) == Dedup(s)
  {
    if y == [] {
      assert s + y == s;
    } else {
      assert (s + y)[..|s + y| - 1] == s + y[..|y| - 1];
      DedupKnown(s, y[..|y| - 1]);
    }
  }

  lemma {:induction false} DedupApart<T>(a: seq<T>, b: seq<T>)
    requires forall x :: x in a ==> x !in b
    ensures Dedup(a + b) == Dedup(a) + Dedup(b)
  {
    if b == [] {
      assert a + b == a;
    } else {
      assert (a + b)[..|a + b| - 1] == a + b[..|b| - 1];
      DedupApart(a, b[..|b| - 1]);
    }
  }

  lemma {:induction false} DedupArrows(id: Id, names: seq<Id>, kind: Kind)
    ensures Dedup(Arrows(id, names, kind)) == Arrows(id, Dedup(names), kind)
  {
    if names != [] {
      var front := names[..|names| - 1];
      assert Arrows(id, names, kind)[..|names| - 1] == Arrows(id, front, kind);
      DedupArrows(id, front, kind);
      assert names[|names| - 1] in front <==> Arrow(id, names[|names| - 1], kind) in Arrows(id, front, kind) by {
        forall i | 0 <= i < |front| ensures Arrows(id, front, kind)[i] == Arrow(id, front[i], kind) { }
        if names[|names| - 1] in front {
          var i :| 0 <= i < |front| && front[i] == names[|names| - 1];
          assert Arrows(id, front, kind)[i] == Arrow(id, front[i], kind);
        }
      }
    }
  }

  /** A node's edges in the compiled list: its distinct successes, then its distinct failures. */
  function Outgoing(n: Links): seq<Arrow> {
    Arrows(n.id, Dedup(Filled(n.next + n.branch)), Success) + Arrows(n.id, Dedup(Filled(n.fail)), Failure)
  }

  function AllOutgoing(nodes: seq<Links>): seq<Arrow> {
    if nodes == [] then [] else AllOutgoing(nodes[..|nodes| - 1]) + Outgoing(nodes[|nodes| - 1])
  }

  predicate DistinctIds(nodes: seq<Links>) {
    forall i, j :: 0 <= i < j < |nodes| ==> nodes[i].id != nodes[j].id
  }

  lemma {:induction false} DedupWanted(n: Links)
    ensures Dedup(Wanted(n)) == Outgoing(n)
  {
    var a, b := Filled(n.next + n.branch), Filled(n.fail);
    DedupArrows(n.id, a, Success);
    DedupArrows(n.id, b, Failure);
    forall x | x in Arrows(n.id, a, Success) ensures x !in Arrows(n.id, b, Failure) { }
    DedupApart(Arrows(n.id, a, Success), Arrows(n.id, b, Failure));
  }

  lemma {:induction false} WantedSources(nodes: seq<Links>, a: Arrow)
    requires a in AllWanted(nodes)
    ensures exists i :: 0 <= i < |nodes| && nodes[i].id == a.source
  {
    var front, last := nodes[..|nodes| - 1], nodes[|nodes| - 1];
    if a in AllWanted(front) {
      WantedSources(front, a);
      var i :| 0 <= i < |front| && front[i].id == a.source;
      assert nodes[i].id == a.source;
    } else {
      assert a in Wanted(last) && nodes[|nodes| - 1].id == a.source;
    }
  }

  /** With unique ids, the compiled list is node by node. */
  lemma {:induction false} NodeByNode(nodes: seq<Links>)
    requires DistinctIds(nodes)
    ensures Dedup(AllWanted(nodes)) == AllOutgoing(nodes)
  {
    if nodes != [] {
      var front, last := nodes[..|nodes| - 1], nodes[|nodes| - 1];
      NodeByNode(front);
      DedupWanted(last);
      forall a | a in AllWanted(front) ensures a !in Wanted(last) {
        WantedSources(front, a);
        var i :| 0 <= i < |front| && front[i].id == a.source;
        assert nodes[i].id != nodes[|nodes| - 1].id;
      }
      DedupApart(AllWanted(front), Wanted(last));
    }
  }

  /** Reading a node's edges back out of the compiled list. */
  function ReadLinks(id: Id, edges: seq<FlowEdge>): Links {
    Links(id, TargetsOf(id, Success, edges), [], TargetsOf(id, Failure, edges))
  }

  lemma {:induction false} TargetsAppend(id: Id, kind: Kind, a: seq<FlowEdge>, b: seq<FlowEdge>)
    ensures TargetsOf(id, kind, a + b) == TargetsOf(id, kind, a) + TargetsOf(id, kind, b)
  {
    if b == [] {
      assert a + b == a;
    } else {
      assert (a + b)[..|a + b| - 1] == a + b[..|b| - 1];
      TargetsAppend(id, kind, a, b[..|b| - 1]);
    }
  }

  lemma {:induction false} TargetsOfArrows(id: Id, kind: Kind, owner: Id, names: seq<Id>, k: Kind)
    ensures TargetsOf(id, kind, EdgesFor(Arrows(owner, names, k))) == if owner == id && k == kind then names else []
  {
    if names != [] {
      var front := names[..|names| - 1];
      var all := EdgesFor(Arrows(owner, names, k));
      assert all[..|all| - 1] == EdgesFor(Arrows(owner, front, k));
      TargetsOfArrows(id, kind, owner, front, k);
      assert front + [names[|names| - 1]] == names;
    }
  }

  lemma {:induction false} EdgesForAppend(a: seq<Arrow>, b: seq<Arrow>)
    ensures EdgesFor(a + b) == EdgesFor(a) + EdgesFor(b)
  {
  }

  lemma {:induction false} TargetsOfOne(id: Id, kind: Kind, n: Links)
    ensures TargetsOf(id, kind, EdgesFor(Outgoing(n))) ==
      if n.id != id then [] else if kind == Success then Dedup(Filled(n.next + n.branch)) else Dedup(Filled(n.fail))
  {
    var a, b := Arrows(n.id, Dedup(Filled(n.next + n.branch)), Success), Arrows(n.id, Dedup(Filled(n.fail)), Failure);
    EdgesForAppend(a, b);
    TargetsAppend(id, kind, EdgesFor(a), EdgesFor(b));
    TargetsOfArrows(id, kind, n.id, Dedup(Filled(n.next + n.branch)), Success);
    TargetsOfArrows(id, kind, n.id, Dedup(Filled(n.fail)), Failure);
  }

  /** A node's distinct targets of one kind; branch targets count as successes. */
  function Distinct(n: Links, kind: Kind): seq<Id> {
    if kind == Success then Dedup(Filled(n.next + n.branch)) else Dedup(Filled(n.fail))
  }

  lemma {:induction false} TargetsOfFront(nodes: seq<Links>, id: Id, kind: Kind)
    requires nodes != []
    ensures TargetsOf(id, kind, EdgesFor(AllOutgoing(nodes))) ==
      TargetsOf(id, kind, EdgesFor(AllOutgoing(nodes[..|nodes| - 1])))
      + (if nodes[|nodes| - 1].id == id then Distinct(nodes[|nodes| - 1], kind) else [])
  {
    var front, last := nodes[..|nodes| - 1], nodes[|nodes| - 1];
    EdgesForAppend(AllOutgoing(front), Outgoing(last));
    TargetsAppend(id, kind, EdgesFor(AllOutgoing(front)), EdgesFor(Outgoing(last)));
    TargetsOfOne(id, kind, last);
  }

  /** What the nodes of this id contribute. */
  function Found(nodes: seq<Links>, id: Id, kind: Kind): seq<Id> {
    if nodes == [] then []
    else Found(nodes[..|nodes| - 1], id, kind) + (if nodes[|nodes| - 1].id == id then Distinct(nodes[|nodes| - 1], kind) else [])
  }

  lemma {:induction false} TargetsAreFound(nodes: seq<Links>, id: Id, kind: Kind)
    ensures TargetsOf(id, kind, EdgesFor(AllOutgoing(nodes))) == Found(nodes, id, kind)
  {
    if nodes != [] {
      TargetsAreFound(nodes[..|nodes| - 1], id, kind);
      TargetsOfFront(nodes, id, kind);
    }
  }

  lemma {:induction false} FoundAbsent(nodes: seq<Links>, id: Id, kind: Kind)
    requires forall i :: 0 <= i < |nodes| ==> nodes[i].id != id
    ensures Found(nodes, id, kind) == []
  {
    if nodes != [] { FoundAbsent(nodes[..|nodes| - 1], id, kind); }
  }

  lemma {:induction false} FoundOnce(nodes: seq<Links>, k: nat, kind: Kind)
    requires DistinctIds(nodes) && k < |nodes|
    ensures Found(nodes, nodes[k].id, kind) == Distinct(nodes[k], kind)
  {
    var front := nodes[..|nodes| - 1];
    if k < |front| {
      FoundOnce(front, k, kind);
    } else {
      FoundAbsent(front, nodes[k].id, kind);
    }
  }

  lemma {:induction false} NamesOfKind(nodes: seq<Links>, k: nat, kind: Kind)
    requires DistinctIds(nodes) && k < |nodes|
    ensures TargetsOf(nodes[k].id, kind, EdgesFor(AllOutgoing(nodes))) == Distinct(nodes[k], kind)
  {
    TargetsAreFound(nodes, nodes[k].id, kind);
    FoundOnce(nodes, k, kind);
  }

  /** A node's names as the printer reads them. */
  lemma {:induction false} NamesOfNode(nodes: seq<Links>, k: nat)
    requires DistinctIds(nodes) && k < |nodes|
    ensures ReadLinks(nodes[k].id, EdgesFor(Dedup(AllWanted(nodes)))) ==
      Links(nodes[k].id, Distinct(nodes[k], Success), [], Distinct(nodes[k], Failure))
  {
    NodeByNode(nodes);
    NamesOfKind(nodes, k, Success);
    NamesOfKind(nodes, k, Failure);
  }

  /** Nodes as a printed file spells them: the read names, and the branch targets they kept. */
  function Reread(nodes: seq<Links>, edges: seq<FlowEdge>): seq<Links> {
    seq(|nodes|, i requires 0 <= i < |nodes| => ReadLinks(nodes[i].id, edges).(branch := nodes[i].branch))
  }

  lemma {:induction false} FilledIsFilled(s: seq<string>)
    ensures forall x :: x in Filled(s) <==> x in s && x != ""
  {
    if s != [] {
      FilledIsFilled(s[..|s| - 1]);
      assert s == s[..|s| - 1] + [s[|s| - 1]];
    }
  }

  lemma {:induction false} FilledTwice(s: seq<string>)
    requires "" !in s
    ensures Filled(s) == s
  {
    if s != [] {
      assert s == s[..|s| - 1] + [s[|s| - 1]];
      FilledTwice(s[..|s| - 1]);
    }
  }

  /** Folding what is already there changes nothing. */
  lemma {:induction false} FoldsBack(next: seq<Id>, branch: seq<Id>)
    ensures Dedup(Filled(Dedup(Filled(next + branch)) + branch)) == Dedup(Filled(next + branch))
  {
    var all := Filled(next + branch);
    var once := Dedup(all);
    FilledIsFilled(next + branch);
    FilledIsFilled(branch);
    DedupMembers(all);
    FilledTwice(once);
    FilledAppend(once, branch);
    DedupKnown(once, Filled(branch));
    DedupDistinct(once);
  }

  lemma {:induction false} SameOutgoing(nodes: seq<Links>, nodes': seq<Links>)
    requires |nodes| == |nodes'| && forall i :: 0 <= i < |nodes| ==> Outgoing(nodes[i]) == Outgoing(nodes'[i])
    ensures AllOutgoing(nodes) == AllOutgoing(nodes')
  {
    if nodes != [] { SameOutgoing(nodes[..|nodes| - 1], nodes'[..|nodes| - 1]); }
  }

  /** The edge list is reproduced exactly by printing each node's names and compiling them again. */
  lemma {:induction false} EdgesAreANormalForm(nodes: seq<Links>)
    requires DistinctIds(nodes)
    ensures var edges := EdgesFor(Dedup(AllWanted(nodes)));
      EdgesFor(Dedup(AllWanted(Reread(nodes, edges)))) == edges
  {
    var edges := EdgesFor(Dedup(AllWanted(nodes)));
    var again := Reread(nodes, edges);
    NodeByNode(nodes);
    NodeByNode(again);
    forall i | 0 <= i < |nodes| ensures Outgoing(nodes[i]) == Outgoing(again[i]) {
      NamesOfNode(nodes, i);
      FoldsBack(nodes[i].next, nodes[i].branch);
      FoldsBack(nodes[i].fail, []);
      assert nodes[i].fail + [] == nodes[i].fail && Dedup(Filled(nodes[i].fail)) + [] == Dedup(Filled(nodes[i].fail));
    }
    SameOutgoing(nodes, again);
  }

  ghost predicate Asks(n: Links, a: Arrow) {
    && a.source == n.id && a.target != ""
    && (if a.kind == Success then a.target in n.next || a.target in n.branch else a.target in n.fail)
  }

  lemma {:induction false} ArrowsMembers(id: Id, names: seq<Id>, kind: Kind, a: Arrow)
    ensures a in Arrows(id, names, kind) <==> a.source == id && a.kind == kind && a.target in names
  {
    if a.source == id && a.kind == kind && a.target in names {
      var i :| 0 <= i < |names| && names[i] == a.target;
      assert Arrows(id, names, kind)[i] == a;
    }
  }

  lemma {:induction false} WantedIsAsked(nodes: seq<Links>, a: Arrow)
    ensures a in AllWanted(nodes) <==> exists i :: 0 <= i < |nodes| && Asks(nodes[i], a)
  {
    if nodes != [] {
      var front, last := nodes[..|nodes| - 1], nodes[|nodes| - 1];
      WantedIsAsked(front, a);
      FilledIsFilled(last.next + last.branch);
      FilledIsFilled(last.fail);
      ArrowsMembers(last.id, Filled(last.next + last.branch), Success, a);
      ArrowsMembers(last.id, Filled(last.fail), Failure, a);
      if exists i :: 0 <= i < |nodes| && Asks(nodes[i], a) {
        var i :| 0 <= i < |nodes| && Asks(nodes[i], a);
        assert i < |front| ==> front[i] == nodes[i];
      }
      if a in AllWanted(front) {
        var i :| 0 <= i < |front| && Asks(front[i], a);
        assert Asks(nodes[i], a);
      }
    }
  }

  /** Every edge asked for is emitted, exactly once, and none besides. */
  lemma {:induction false} EdgesAreExact(nodes: seq<Links>)
    ensures var arrows := Dedup(AllWanted(nodes));
      && (forall a :: a in arrows <==> exists i :: 0 <= i < |nodes| && Asks(nodes[i], a))
      && (forall i, j :: 0 <= i < j < |arrows| ==> arrows[i] != arrows[j])
  {
    DedupMembers(AllWanted(nodes));
    forall a ensures a in Dedup(AllWanted(nodes)) <==> exists i :: 0 <= i < |nodes| && Asks(nodes[i], a) {
      WantedIsAsked(nodes, a);
    }
  }
}
