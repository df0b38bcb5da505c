/** The parse-time validator of references and branch targets. */
module Validation {
  import opened Graphs
  import opened References
  import opened Flows
  import opened GoText

  /** What the validator reads of a node beyond what the scheduler does. */
  datatype NodeSpec = NodeSpec(node: Node, outputSchema: seq<string>, otherRefs: seq<string>, branch: Option<BranchSpec>)

  datatype BranchSpec = BranchSpec(targets: seq<string>, fallback: string)

  datatype FlowSpec = FlowSpec(specs: seq<NodeSpec>, edges: seq<Edge>, initialInputs: seq<string>)

  datatype ParseOptions = ParseOptions(allowedKeys: seq<string>, allowUnknown: bool)

  type Outputs = map<Id, set<string>>

  /** The trimmed, non-blank members of a list. */
  function NonBlank(names: seq<string>): set<string> {
    set s | s in names && TrimSpace(s) != "" :: TrimSpace(s)
  }

  method CollectNonBlank(names: seq<string>) returns (r: set<string>)
    ensures r == NonBlank(names)
  {
    r := {};
    for i := 0 to |names|
      invariant r == NonBlank(names[..i])
    {
      var trimmed := TrimSpace(names[i]);
      assert names[..i + 1] == names[..i] + [names[i]];
      if trimmed != "" { r := r + {trimmed}; }
    }
    assert names[..|names|] == names;
  }

  /** The edges the validator follows: both ends trimmed, neither blank. */
  ghost function TrimmedEdges(edges: seq<Edge>): set<Edge> {
    set e | e in edges && TrimSpace(e.source) != "" && TrimSpace(e.target) != "" ::
      Edge(TrimSpace(e.source), TrimSpace(e.target))
  }

  ghost predicate PredMap(preds: map<Id, seq<Id>>, es: set<Edge>) {
    forall p, n :: Edge(p, n) in es <==> n in preds && p in preds[n]
  }

  method BuildPredecessors(edges: seq<Edge>) returns (preds: map<Id, seq<Id>>)
    ensures PredMap(preds, TrimmedEdges(edges))
  {
    preds := map[];
    for i := 0 to |edges|
      invariant PredMap(preds, TrimmedEdges(edges[..i]))
    {
      var source, target := TrimSpace(edges[i].source), TrimSpace(edges[i].target);
      assert edges[..i + 1] == edges[..i] + [edges[i]];
      ghost var more := if source == "" || target == "" then {} else {Edge(source, target)};
      assert TrimmedEdges(edges[..i + 1]) == TrimmedEdges(edges[..i]) + more;
      if source == "" || target == "" { continue; }
      preds := preds[target := (if target in preds then preds[target] else []) + [source]];
    }
    assert edges[..|edges|] == edges;
  }

  /** The nodes upstreamOutputs must find: every known node with an edge path to the node, itself excepted. */
  ghost predicate IsUpstream(es: set<Edge>, a: Id, n: Id) {
    a != n && Reaches(es, a, n)
  }

  /** Nodes a closed set reaches backwards are in it. */
  lemma {:induction false} ClosedHoldsUpstream(es: set<Edge>, closed: set<Id>, p: seq<Id>, n: Id)
    requires forall e :: e in es && e.target in closed ==> e.source in closed
    requires n in closed && IsPath(es, p) && p[|p| - 1] == n
    ensures p[0] in closed
    decreases |p|
  {
    if |p| > 1 {
      assert Edge(p[|p| - 2], p[|p| - 2 + 1]) in es;
      ClosedHoldsUpstream(es, closed, p[..|p| - 1], p[|p| - 2]);
    }
  }

  ghost predicate Pending(es: set<Edge>, pending: seq<Id>, n: Id) {
    forall a :: a in pending ==> Reaches(es, a, n)
  }

  ghost predicate Frontier(es: set<Edge>, visited: set<Id>, pending: seq<Id>) {
    forall e :: e in es && e.target in visited ==> e.source in visited || e.source in pending
  }

  /** Whatever leads into a node that reaches n reaches n itself. */
  lemma {:induction false} IntoReaches(es: set<Edge>, preds: map<Id, seq<Id>>, a: Id, n: Id, sources: set<Id>)
    requires PredMap(preds, es) && (a == n || Reaches(es, a, n)) && a in preds && sources == set e | e in es :: e.source
    ensures Pending(es, preds[a], n) && forall b :: b in preds[a] ==> b in sources
  {
    forall b | b in preds[a] ensures Reaches(es, b, n) && b in sources {
      assert Edge(b, a) in es;
      EdgeReaches(es, b, a);
      if a != n { ReachesTrans(es, b, a, n); }
    }
  }

  lemma {:induction false} FrontierMoves(es: set<Edge>, preds: map<Id, seq<Id>>, visited: set<Id>, rest: seq<Id>, a: Id, more: seq<Id>)
    requires PredMap(preds, es) && Frontier(es, visited, rest + [a]) && more == if a in preds then preds[a] else []
    ensures Frontier(es, visited + {a}, rest + more)
  {
  }

  /** A worklist from the node back along its incoming edges. */
  method UpstreamOutputs(n: Id, preds: map<Id, seq<Id>>, outputs: Outputs, ghost es: set<Edge>) returns (up: Outputs)
    requires PredMap(preds, es)
    ensures up.Keys == set a | a in outputs && IsUpstream(es, a, n)
    ensures forall a :: a in up ==> up[a] == outputs[a]
  {
    up := map[];
    var visited := {n};
    var pending := if n in preds then preds[n] else [];
    ghost var sources := set e | e in es :: e.source;
    if n in preds { IntoReaches(es, preds, n, n, sources); }
    while |pending| > 0
      invariant n in visited && Pending(es, pending, n) && Frontier(es, visited, pending)
      invariant forall a :: a in visited ==> a == n || Reaches(es, a, n)
      invariant forall a :: a in pending ==> a in sources
      invariant up.Keys == set a | a in outputs && a in visited && a != n
      invariant forall a :: a in up ==> up[a] == outputs[a]
      decreases sources - visited, |pending|
    {
      var a := pending[|pending| - 1];
      ghost var before := pending;
      pending := pending[..|pending| - 1];
      assert before == pending + [a];
      if a in visited { continue; }
      var more := if a in preds then preds[a] else [];
      if a in preds { IntoReaches(es, preds, a, n, sources); }
      FrontierMoves(es, preds, visited, pending, a, more);
      visited := visited + {a};
      if a in outputs { up := up[a := outputs[a]]; }
      pending := pending + more;
    }
    forall a | a in outputs && IsUpstream(es, a, n) ensures a in visited {
      var p :| Walks(es, p, a, n);
      ClosedHoldsUpstream(es, visited, p, n);
    }
  }

  datatype Parsed = Bad | Variable(name: string) | Output(node: Id, key: string)

  /** parseReference: "nodeId.outputKey" or a variable name, every part trimmed and non-blank. */
  function ParseReference(ref: string): Parsed {
    var trimmed := TrimSpace(ref);
    if trimmed == "" then Bad
    else if '.' !in trimmed then Variable(trimmed)
    else
      var parts := ParseDataRef(trimmed);
      var source, key := TrimSpace(parts.0), TrimSpace(parts.1);
      if source == "" || key == "" then Bad else Output(source, key)
  }

  /** What validateNodeReferences accepts of one reference. */
  ghost predicate RefAccepted(n: Node, ref: string, available: set<string>, upstream: Outputs, allowUnknown: bool) {
    || TrimSpace(ref) in available
    || (match ParseReference(ref)
        case Bad => false
        case Variable(name) => Rooted(name, available) || name in available || allowUnknown
        case Output(source, key) =>
          || Rooted(TrimSpace(ref), available)
          || n.runWhen == Always
          || (source in upstream && Rooted(key, upstream[source])))
  }

  method ValidateReference(n: Node, ref: string, available: set<string>, upstream: Outputs, allowUnknown: bool)
    returns (ok: bool)
    requires "" !in upstream
    ensures ok <==> RefAccepted(n, ref, available, upstream, allowUnknown)
  {
    if TrimSpace(ref) in available { return true; }
    var parsed := ParseReference(ref);
    if parsed.Bad? { return false; }
    var inputRooted := HasPathRoot(TrimSpace(ref), available);
    var source := if parsed.Output? then parsed.node else "";
    if source !in upstream && inputRooted { return true; }
    if source == "" {
      // A variable with no dot is rooted only at itself.
      assert parsed.Variable? && parsed.name == TrimSpace(ref);
      return parsed.name in available || allowUnknown;
    }
    ok := ValidateNodeOutput(n, source, parsed.key, upstream);
    // A step of that name that never publishes the path leaves it to the flow input.
    ok := ok || inputRooted;
  }

  method ValidateNodeOutput(n: Node, source: Id, key: string, upstream: Outputs) returns (ok: bool)
    ensures ok <==> n.runWhen == Always || (source in upstream && Rooted(key, upstream[source]))
  {
    if source !in upstream { return n.runWhen == Always; }
    var declared := HasPathRoot(key, upstream[source]);
    return declared || n.runWhen == Always;
  }

  function AllRefs(spec: NodeSpec): seq<string> {
    spec.node.inputSchema + spec.otherRefs
  }

  method ValidateNodeReferences(spec: NodeSpec, available: set<string>, upstream: Outputs, allowUnknown: bool)
    returns (ok: bool)
    requires "" !in upstream
    ensures ok <==> forall ref :: ref in AllRefs(spec) ==> RefAccepted(spec.node, ref, available, upstream, allowUnknown)
  {
    var refs := AllRefs(spec);
    for i := 0 to |refs|
      invariant forall k :: 0 <= k < i ==> RefAccepted(spec.node, refs[k], available, upstream, allowUnknown)
    {
      var fine := ValidateReference(spec.node, refs[i], available, upstream, allowUnknown);
      if !fine { return false; }
    }
    return true;
  }

  /** The outputs each node declares, by trimmed non-blank id; the last node of an id wins. */
  function DeclaredOutputs(specs: seq<NodeSpec>): (r: Outputs)
    ensures "" !in r
  {
    if specs == [] then map[]
    else
      var last := specs[|specs| - 1];
      var rest := DeclaredOutputs(specs[..|specs| - 1]);
      var id := TrimSpace(last.node.id);
      if id == "" then rest else rest[id := NonBlank(last.outputSchema)]
  }

  method CollectOutputs(specs: seq<NodeSpec>) returns (r: Outputs)
    ensures r == DeclaredOutputs(specs)
  {
    r := map[];
    for i := 0 to |specs|
      invariant r == DeclaredOutputs(specs[..i])
    {
      var id := TrimSpace(specs[i].node.id);
      assert specs[..i + 1][..i] == specs[..i];
      if id != "" {
        var outputs := CollectNonBlank(specs[i].outputSchema);
        r := r[id := outputs];
      }
    }
    assert specs[..|specs|] == specs;
  }

  function Available(f: FlowSpec, options: ParseOptions): set<string> {
    NonBlank(f.initialInputs) + NonBlank(options.allowedKeys)
  }

  /** The declared outputs of the nodes upstream of n. */
  ghost function UpstreamOf(f: FlowSpec, n: Id): Outputs {
    var declared := DeclaredOutputs(f.specs);
    map a | a in declared && IsUpstream(TrimmedEdges(f.edges), a, n) :: declared[a]
  }

  ghost predicate NodeAccepted(f: FlowSpec, options: ParseOptions, spec: NodeSpec) {
    forall ref :: ref in AllRefs(spec) ==>
      RefAccepted(spec.node, ref, Available(f, options), UpstreamOf(f, TrimSpace(spec.node.id)), options.allowUnknown)
  }

  /** A routing target must be an edge away, or blank. */
  ghost predicate TargetAccepted(es: set<Edge>, branch: Id, target: string) {
    TrimSpace(target) == "" || Edge(branch, TrimSpace(target)) in es
  }

  ghost predicate BranchAccepted(es: set<Edge>, spec: NodeSpec) {
    spec.branch.Some? ==>
      && (forall t :: t in spec.branch.value.targets ==> TargetAccepted(es, spec.node.id, t))
      && TargetAccepted(es, spec.node.id, spec.branch.value.fallback)
  }

  ghost predicate Accepted(f: FlowSpec, options: ParseOptions) {
    && (forall spec :: spec in f.specs ==> NodeAccepted(f, options, spec))
    && (forall spec :: spec in f.specs ==> BranchAccepted(TrimmedEdges(f.edges), spec))
  }

  ghost predicate SuccMap(succs: map<Id, set<Id>>, es: set<Edge>) {
    forall n, m :: Edge(n, m) in es <==> n in succs && m in succs[n]
  }

  method BuildSuccessors(edges: seq<Edge>) returns (succs: map<Id, set<Id>>)
    ensures SuccMap(succs, TrimmedEdges(edges))
  {
    succs := map[];
    for i := 0 to |edges|
      invariant SuccMap(succs, TrimmedEdges(edges[..i]))
    {
      var source, target := TrimSpace(edges[i].source), TrimSpace(edges[i].target);
      assert edges[..i + 1] == edges[..i] + [edges[i]];
      ghost var more := if source == "" || target == "" then {} else {Edge(source, target)};
      assert TrimmedEdges(edges[..i + 1]) == TrimmedEdges(edges[..i]) + more;
      if source == "" || target == "" { continue; }
      succs := succs[source := (if source in succs then succs[source] else {}) + {target}];
    }
    assert edges[..|edges|] == edges;
  }

  method ValidateBranchTargets(f: FlowSpec) returns (ok: bool)
    ensures ok <==> forall spec :: spec in f.specs ==> BranchAccepted(TrimmedEdges(f.edges), spec)
  {
    var succs := BuildSuccessors(f.edges);
    ghost var es := TrimmedEdges(f.edges);
    for i := 0 to |f.specs|
      invariant forall k :: 0 <= k < i ==> BranchAccepted(es, f.specs[k])
    {
      var spec := f.specs[i];
      if spec.branch.None? { continue; }
      var successors := if spec.node.id in succs then succs[spec.node.id] else {};
      var targets := spec.branch.value.targets + [spec.branch.value.fallback];
      for k := 0 to |targets|
        invariant forall j :: 0 <= j < k ==> TargetAccepted(es, spec.node.id, targets[j])
      {
        var trimmed := TrimSpace(targets[k]);
        if trimmed != "" && trimmed !in successors {
          assert !TargetAccepted(es, spec.node.id, targets[k]);
          assert !BranchAccepted(es, f.specs[i]);
          return false;
        }
      }
      assert TargetAccepted(es, spec.node.id, targets[|targets| - 1]);
      forall t | t in spec.branch.value.targets ensures TargetAccepted(es, spec.node.id, t) {
        assert t in targets;
      }
    }
    return true;
  }

  /** validateFlowReferences decides exactly the accepted flows. */
  method ValidateFlowReferences(f: FlowSpec, options: ParseOptions) returns (ok: bool)
    ensures ok <==> Accepted(f, options)
  {
    var initial := CollectNonBlank(f.initialInputs);
    var allowed := CollectNonBlank(options.allowedKeys);
    var outputs := CollectOutputs(f.specs);
    var preds := BuildPredecessors(f.edges);
    for i := 0 to |f.specs|
      invariant forall k :: 0 <= k < i ==> NodeAccepted(f, options, f.specs[k])
    {
      var id := TrimSpace(f.specs[i].node.id);
      var upstream := UpstreamOutputs(id, preds, outputs, TrimmedEdges(f.edges));
      assert upstream == UpstreamOf(f, id);
      var fine := ValidateNodeReferences(f.specs[i], initial + allowed, upstream, options.allowUnknown);
      assert fine <==> NodeAccepted(f, options, f.specs[i]);
      if !fine { return false; }
    }
    ok := ValidateBranchTargets(f);
  }

  // ---- What acceptance asks for, case by case

  /** The first dot of the trimmed reference splits it; both parts are trimmed again and neither may be blank. */
  lemma {:induction false} DottedAccepted(n: Node, ref: string, a: string, k: string, available: set<string>, upstream: Outputs,
      allowUnknown: bool)
    requires TrimSpace(ref) == a + "." + k && '.' !in a
    ensures RefAccepted(n, ref, available, upstream, allowUnknown) <==>
      (|| TrimSpace(ref) in available
       || (&& TrimSpace(a) != "" && TrimSpace(k) != ""
           && (|| Rooted(TrimSpace(ref), available)
               || n.runWhen == Always
               || (TrimSpace(a) in upstream && Rooted(TrimSpace(k), upstream[TrimSpace(a)])))))
  {
    var trimmed := a + "." + k;
    assert trimmed[|a|] == '.';
    var parts := ParseDataRef(trimmed);
    assert parts == (a, k) by {
      var i := FirstDot(trimmed);
      forall j | 0 <= j < |a| ensures trimmed[j] != '.' { assert trimmed[j] == a[j]; }
      assert i == |a| && trimmed[..|a|] == a && trimmed[|a| + 1..] == k;
    }
  }

  /** A name without a dot must be an input the flow is known to have, unless unknown inputs are allowed. */
  lemma {:induction false} NameAccepted(n: Node, ref: string, available: set<string>, upstream: Outputs, allowUnknown: bool)
    requires '.' !in TrimSpace(ref)
    ensures RefAccepted(n, ref, available, upstream, allowUnknown) <==>
      (TrimSpace(ref) in available || (TrimSpace(ref) != "" && allowUnknown))
  {
    if Rooted(TrimSpace(ref), available) {
      var root :| root in available && IsRoot(TrimSpace(ref), root);
      assert root == TrimSpace(ref);
    }
  }

  ghost predicate UniqueSpecs(specs: seq<NodeSpec>) {
    forall i, j :: 0 <= i < j < |specs| ==> TrimSpace(specs[i].node.id) != TrimSpace(specs[j].node.id)
  }

  /** Where ids are unique, what a node declares is its own list of outputs. */
  lemma {:induction false} DeclaredBySpec(specs: seq<NodeSpec>, a: Id)
    requires UniqueSpecs(specs) && a != ""
    ensures forall d :: d in specs && TrimSpace(d.node.id) == a ==>
      a in DeclaredOutputs(specs) && DeclaredOutputs(specs)[a] == NonBlank(d.outputSchema)
    ensures a in DeclaredOutputs(specs) ==> exists d :: d in specs && TrimSpace(d.node.id) == a
  {
    if specs != [] {
      var last := specs[|specs| - 1];
      var rest := specs[..|specs| - 1];
      DeclaredBySpec(rest, a);
      assert specs == rest + [last];
      if TrimSpace(last.node.id) == a { assert last in specs; }
    }
  }

  /** The node declares an output that is the root of the key. */
  ghost predicate Declares(d: NodeSpec, key: string) {
    exists o :: o in d.outputSchema && TrimSpace(o) != "" && IsRoot(key, TrimSpace(o))
  }

  /** A cleanly spelled reference of an on_success node to no flow input names an output declared by a node before it. */
  lemma {:induction false} OutputAccepted(f: FlowSpec, options: ParseOptions, spec: NodeSpec, a: Id, k: string)
    requires spec.node.runWhen == OnSuccess && UniqueSpecs(f.specs)
    requires '.' !in a && a != "" && k != "" && TrimSpace(a) == a && TrimSpace(k) == k && TrimSpace(a + "." + k) == a + "." + k
    requires !Rooted(a + "." + k, Available(f, options))
    ensures RefAccepted(spec.node, a + "." + k, Available(f, options), UpstreamOf(f, TrimSpace(spec.node.id)), options.allowUnknown) <==>
      (&& a != TrimSpace(spec.node.id) && Reaches(TrimmedEdges(f.edges), a, TrimSpace(spec.node.id))
       && exists d :: d in f.specs && TrimSpace(d.node.id) == a && Declares(d, k))
  {
    var ref := a + "." + k;
    var n := TrimSpace(spec.node.id);
    var available, upstream := Available(f, options), UpstreamOf(f, n);
    assert IsRoot(ref, ref);
    DottedAccepted(spec.node, ref, a, k, available, upstream, options.allowUnknown);
    DeclaredBySpec(f.specs, a);
    forall d | d in f.specs && TrimSpace(d.node.id) == a
      ensures Declares(d, k) <==> Rooted(k, DeclaredOutputs(f.specs)[a])
    {
      if Declares(d, k) {
        var o :| o in d.outputSchema && TrimSpace(o) != "" && IsRoot(k, TrimSpace(o));
        assert TrimSpace(o) in NonBlank(d.outputSchema);
      }
    }
  }

  ghost predicate JoinedBy(e: Edge, source: Id, target: Id) {
    TrimSpace(e.source) == source && TrimSpace(e.target) == target
  }

  /** A branch target is accepted when it is blank or some edge of the file leads from the branch to it. */
  lemma {:induction false} TargetIsAnEdgeAway(edges: seq<Edge>, branch: Id, target: string)
    ensures TargetAccepted(TrimmedEdges(edges), branch, target) <==>
      (|| TrimSpace(target) == ""
       || (branch != "" && exists e :: e in edges && JoinedBy(e, branch, TrimSpace(target))))
  {
    if e :| e in edges && JoinedBy(e, branch, TrimSpace(target)) && branch != "" && TrimSpace(target) != "" {
      assert Edge(TrimSpace(e.source), TrimSpace(e.target)) in TrimmedEdges(edges);
    }
  }
}
