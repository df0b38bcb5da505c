/** Exactly which accepted references always find their source, and what the scheduler therefore guarantees. */
module SoundnessExact {
  import opened Graphs
  import opened References
  import opened Flows
  import opened Verdicts
  import opened Validation
  import opened GoText
  import opened EngineGraph
  import opened ScheduleFacts
  import opened Soundness

  // ---- A value every path walks into

  /** Every path of at most `depth` of these names leads somewhere. */
  function Tree(depth: nat, names: set<string>): Value {
    if depth == 0 then Fields(map[]) else Fields(map k | k in names :: Tree(depth - 1, names))
  }

  lemma {:induction false} TreeHolds(depth: nat, names: set<string>, path: seq<string>)
    requires |path| <= depth && forall s :: s in path ==> s in names
    ensures WalkPath(Tree(depth, names), path).Some?
    decreases |path|
  {
    if path != [] { TreeHolds(depth - 1, names, path[1..]); }
  }

  lemma {:induction false} FewSegments(s: string)
    ensures |SplitDots(s)| <= |s| + 1
    decreases |s|
  {
    var i := FirstDot(s);
    if i < |s| { FewSegments(s[i + 1..]); }
  }

  /** What follows a dot has no other segments than the whole. */
  lemma {:induction false} SuffixSegments(s: string, i: nat)
    requires i < |s| && s[i] == '.'
    ensures forall seg :: seg in SplitDots(s[i + 1..]) ==> seg in SplitDots(s)
    decreases |s|
  {
    var k := FirstDot(s);
    if k < i {
      SuffixSegments(s[k + 1..], i - k - 1);
      assert s[k + 1..][i - k..] == s[i + 1..];
    }
  }

  ghost predicate InNames(ref: string, names: set<string>) {
    forall s :: s in SplitDots(ref) ==> s in names
  }

  ghost predicate Spans(outputs: map<string, Value>, depth: nat, names: set<string>) {
    forall k :: k in outputs ==> outputs[k] == Tree(depth, names)
  }

  /** A path rooted at such values is found. */
  lemma {:induction false} CutFound(ref: string, end: nat, outputs: map<string, Value>, depth: nat, names: set<string>, root: string)
    requires end <= |ref| && IsRoot(ref, ref[..end]) && IsRoot(ref, root) && root in outputs && |root| <= end
    requires Spans(outputs, depth, names) && |ref| < depth && InNames(ref, names)
    ensures LookupCut(ref, end, outputs).Some?
    decreases end
  {
    if ref[..end] in outputs {
      if end < |ref| { RestFound(ref, end, depth, names); }
    } else {
      ShorterRoot(ref, end, root);
      CutFound(ref, LastDot(ref[..end]), outputs, depth, names, root);
    }
  }

  lemma {:induction false} RestFound(ref: string, end: nat, depth: nat, names: set<string>)
    requires end < |ref| < depth && IsRoot(ref, ref[..end]) && InNames(ref, names)
    ensures WalkPath(Tree(depth, names), SplitDots(ref[end + 1..])).Some?
  {
    assert ref[end] == '.';
    SuffixSegments(ref, end);
    FewSegments(ref[end + 1..]);
    TreeHolds(depth, names, SplitDots(ref[end + 1..]));
  }

  /** A root shorter than a cut is a root of the next cut. */
  lemma {:induction false} ShorterRoot(ref: string, end: nat, root: string)
    requires end <= |ref| && IsRoot(ref, root) && |root| <= end && root != ref[..end]
    ensures 0 < |root| <= LastDot(ref[..end]) < end && IsRoot(ref, ref[..LastDot(ref[..end])])
  {
    assert root == ref[..|root|];
    assert ref[..end][|root|] == '.';
    var d := LastDot(ref[..end]);
    assert ref[d] == '.';
  }

  lemma {:induction false} PathFound(ref: string, outputs: map<string, Value>, depth: nat, names: set<string>)
    requires Rooted(ref, outputs.Keys) && Spans(outputs, depth, names)
    requires |ref| < depth && InNames(ref, names)
    ensures LookupPath(ref, outputs).Some?
  {
    var root :| root in outputs.Keys && IsRoot(ref, root);
    assert ref[..|ref|] == ref;
    CutFound(ref, |ref|, outputs, depth, names, root);
  }

  function Longest(refs: seq<string>): (n: nat)
    ensures forall r :: r in refs ==> |r| <= n
  {
    if refs == [] then 0
    else
      var n := Longest(refs[1..]);
      if |refs[0]| > n then |refs[0]| else n
  }

  function LongestRef(specs: seq<NodeSpec>): (n: nat)
    ensures forall spec, ref :: spec in specs && ref in spec.node.inputSchema ==> |ref| <= n
  {
    if specs == [] then 0
    else
      var n, first := LongestRef(specs[1..]), Longest(specs[0].node.inputSchema);
      if first > n then first else n
  }

  function AllSegments(f: FlowSpec): set<string> {
    set spec, ref, seg | spec in f.specs && ref in spec.node.inputSchema && seg in SplitDots(ref) :: seg
  }

  // ---- The launch that gives every step what acceptance promises, and nothing more

  function Fruit(f: FlowSpec): Value {
    Tree(LongestRef(f.specs) + 1, AllSegments(f))
  }

  function Yield(f: FlowSpec, a: Id): map<string, Value> {
    if a in DeclaredOutputs(f.specs) then map k | k in DeclaredOutputs(f.specs)[a] :: Fruit(f) else map[]
  }

  function BareLaunch(f: FlowSpec, options: ParseOptions): Launch {
    Launch(FlowOf(f), map k | k in Available(f, options) :: Fruit(f), (a, inputs) => Success(Yield(f, a), None))
  }

  /** An accepted acyclic flow of on_success nodes, whose flow inputs are apart from its node ids. */
  ghost predicate Launchable(f: FlowSpec, options: ParseOptions, rank: map<Id, nat>) {
    && WellFormed(FlowOf(f)) && Ranks(EdgeSet(FlowOf(f)), rank) && AllOnSuccess(FlowOf(f))
    && Accepted(f, options) && !options.allowUnknown && CleanIds(f)
    && forall key :: key in Available(f, options) ==> FirstSegment(key) !in Ids(FlowOf(f))
  }

  lemma {:induction false} DistinctSpecs(f: FlowSpec)
    requires WellFormed(FlowOf(f))
    ensures forall i, j :: 0 <= i < j < |f.specs| ==> f.specs[i].node.id != f.specs[j].node.id
  {
    forall i, j | 0 <= i < j < |f.specs| ensures f.specs[i].node.id != f.specs[j].node.id {
      assert FlowOf(f).nodes[i].id != FlowOf(f).nodes[j].id;
    }
  }

  lemma {:induction false} BareLaunchConforms(f: FlowSpec, options: ParseOptions, rank: map<Id, nat>)
    requires Launchable(f, options, rank)
    ensures Launched(f, options, BareLaunch(f, options), rank)
  {
    var l := BareLaunch(f, options);
    DistinctSpecs(f);
    forall spec, inputs | spec in f.specs && l.run(spec.node.id, inputs).Success?
      ensures NonBlank(spec.outputSchema) <= l.run(spec.node.id, inputs).outputs.Keys
    {
      SpecNode(f, spec);
      DeclaredIs(f.specs, spec);
    }
  }

  ghost predicate AllSourced(f: FlowSpec, options: ParseOptions, n: Node) {
    forall ref :: ref in n.inputSchema ==> Sourced(f, options, n.id, ref)
  }

  /** Everything above the node has its sources. */
  ghost predicate SourcedAbove(f: FlowSpec, options: ParseOptions, n: Id) {
    forall a :: a in Ancestors(FlowOf(f), n) ==> AllSourced(f, options, NodeOf(FlowOf(f), a))
  }

  function Ripe(f: FlowSpec, a: Id): Verdict {
    Verdict(Succeeded, true, Some(Yield(f, a)), {}, None, false)
  }

  /** The view a node has when everything above it succeeded. */
  ghost predicate RipeAbove(f: FlowSpec, options: ParseOptions, V: map<Id, Verdict>, n: Id) {
    && V.Keys <= Ids(FlowOf(f)) && Ancestors(FlowOf(f), n) <= V.Keys
    && forall a :: a in Ancestors(FlowOf(f), n) ==> V[a] == Ripe(f, a)
  }

  lemma {:induction false} YieldSpans(f: FlowSpec, a: Id)
    requires a in DeclaredOutputs(f.specs)
    ensures Yield(f, a).Keys == DeclaredOutputs(f.specs)[a] && Spans(Yield(f, a), LongestRef(f.specs) + 1, AllSegments(f))
  {
  }

  lemma {:induction false} SegmentsCounted(f: FlowSpec, spec: NodeSpec, ref: string)
    requires spec in f.specs && ref in spec.node.inputSchema
    ensures |ref| < LongestRef(f.specs) + 1 && InNames(ref, AllSegments(f))
  {
  }

  lemma {:induction false} StepPresent(ref: string, view: View)
    requires "" in view
    requires var (source, key) := ParseDataRef(ref); source in view && LookupPath(key, view[source]).Some?
    ensures InputPresent(ref, view)
  {
  }

  lemma {:induction false} KeyCounted(f: FlowSpec, spec: NodeSpec, ref: string)
    requires spec in f.specs && ref in spec.node.inputSchema
    ensures |ParseDataRef(ref).1| < LongestRef(f.specs) + 1
    ensures InNames(ParseDataRef(ref).1, AllSegments(f))
  {
    KeySegments(ref);
    SegmentsCounted(f, spec, ref);
  }

  lemma {:induction false} YieldFound(f: FlowSpec, key: string, a: Id)
    requires |key| < LongestRef(f.specs) + 1 && InNames(key, AllSegments(f))
    requires a in DeclaredOutputs(f.specs) && Rooted(key, DeclaredOutputs(f.specs)[a])
    ensures LookupPath(key, Yield(f, a)).Some?
  {
    YieldSpans(f, a);
    KeyFound(key, Yield(f, a), DeclaredOutputs(f.specs)[a], LongestRef(f.specs) + 1, AllSegments(f));
  }

  lemma {:induction false} KeyFound(key: string, outputs: map<string, Value>, declared: set<string>, depth: nat, names: set<string>)
    requires outputs.Keys == declared && Rooted(key, declared) && Spans(outputs, depth, names)
    requires |key| < depth && InNames(key, names)
    ensures LookupPath(key, outputs).Some?
  {
    PathFound(key, outputs, depth, names);
  }

  lemma {:induction false} UpstreamFound(f: FlowSpec, V: map<Id, Verdict>, view: View, spec: NodeSpec, ref: string)
    requires spec in f.specs && ref in spec.node.inputSchema && "" in view
    requires var source := ParseDataRef(ref).0;
      && source in UpstreamOf(f, spec.node.id) && source in V && V[source].status == Succeeded
      && source in view && view[source] == Yield(f, source)
    ensures !RefersToSkipped(ref, V, view)
    ensures Rooted(ParseDataRef(ref).1, UpstreamOf(f, spec.node.id)[ParseDataRef(ref).0]) ==> InputPresent(ref, view)
  {
    var (source, key) := ParseDataRef(ref);
    assert UpstreamOf(f, spec.node.id)[source] == DeclaredOutputs(f.specs)[source];
    if Rooted(key, DeclaredOutputs(f.specs)[source]) {
      KeyCounted(f, spec, ref);
      YieldFound(f, key, source);
      StepPresent(ref, view);
    }
  }

  lemma {:induction false} FlowInputFound(f: FlowSpec, options: ParseOptions, key: string)
    requires |key| < LongestRef(f.specs) + 1 && InNames(key, AllSegments(f)) && Rooted(key, Available(f, options))
    ensures LookupPath(key, BareLaunch(f, options).inputs).Some?
  {
    InputsSpan(f, options);
    KeyFound(key, BareLaunch(f, options).inputs, Available(f, options), LongestRef(f.specs) + 1, AllSegments(f));
  }

  lemma {:induction false} InputsSpan(f: FlowSpec, options: ParseOptions)
    ensures BareLaunch(f, options).inputs.Keys == Available(f, options)
    ensures Spans(BareLaunch(f, options).inputs, LongestRef(f.specs) + 1, AllSegments(f))
  {
  }

  lemma {:induction false} InputPathPresent(ref: string, view: View)
    requires "" in view && ParseDataRef(ref).0 != "" && ParseDataRef(ref).0 !in view
    requires Rooted(ref, view[""].Keys) && LookupPath(ref, view[""]).Some?
    ensures InputPresent(ref, view)
  {
  }

  lemma {:induction false} InputFound(f: FlowSpec, options: ParseOptions, V: map<Id, Verdict>, view: View, spec: NodeSpec, ref: string)
    requires spec in f.specs && ref in spec.node.inputSchema && "" in view && view[""] == BareLaunch(f, options).inputs
    requires var source := ParseDataRef(ref).0; source !in V && (source != "" ==> source !in view)
    ensures !RefersToSkipped(ref, V, view)
    ensures ParseDataRef(ref).0 == "" && Rooted(ParseDataRef(ref).1, Available(f, options)) ==> InputPresent(ref, view)
    ensures ParseDataRef(ref).0 != "" && Rooted(ref, Available(f, options)) ==> InputPresent(ref, view)
  {
    var (source, key) := ParseDataRef(ref);
    InputsSpan(f, options);
    if source == "" {
      KeyCounted(f, spec, ref);
      if Rooted(key, Available(f, options)) {
        FlowInputFound(f, options, key);
        StepPresent(ref, view);
      }
    } else if Rooted(ref, Available(f, options)) {
      SegmentsCounted(f, spec, ref);
      FlowInputFound(f, options, ref);
      InputPathPresent(ref, view);
    }
  }

  lemma {:induction false} RefFound(f: FlowSpec, options: ParseOptions, rank: map<Id, nat>, V: map<Id, Verdict>, spec: NodeSpec, ref: string)
    requires Launchable(f, options, rank) && spec in f.specs && ref in spec.node.inputSchema
    requires RipeAbove(f, options, V, spec.node.id)
    ensures var view := ViewOf(BareLaunch(f, options).inputs, V);
      && !RefersToSkipped(ref, V, view)
      && (Sourced(f, options, spec.node.id, ref) ==> InputPresent(ref, view))
  {
    var l := BareLaunch(f, options);
    BareLaunchConforms(f, options, rank);
    AcceptedIsLocal(f, options, l, rank, spec, ref);
    if ParseDataRef(ref).0 in UpstreamOf(f, spec.node.id) {
      UpstreamIsAncestor(f, spec.node.id, ParseDataRef(ref).0);
      UpstreamFound(f, V, ViewOf(l.inputs, V), spec, ref);
    } else {
      InputFound(f, options, V, ViewOf(l.inputs, V), spec, ref);
    }
  }

  lemma {:induction false} KeySegments(ref: string)
    ensures |ParseDataRef(ref).1| <= |ref| && forall s :: s in SplitDots(ParseDataRef(ref).1) ==> s in SplitDots(ref)
  {
    if '.' in ref { SuffixSegments(ref, FirstDot(ref)); }
  }

  /** Ripe predecessors do not hold a node back. */
  lemma {:induction false} RipePredecessors(f: FlowSpec, options: ParseOptions, V: map<Id, Verdict>, n: Id)
    requires WellFormed(FlowOf(f)) && RipeAbove(f, options, V, n)
    ensures FirstCause(Sources(f.edges, n), V).None? && !FullyDead(n, Sources(f.edges, n), V)
  {
    var preds := Sources(f.edges, n);
    forall p | p in preds ensures p in V && V[p] == Ripe(f, p) { SourceIsAncestor(FlowOf(f), p, n); }
    if preds != [] { assert preds[0] in preds && !DeadFrom(preds[0], n, V); }
  }

  lemma {:induction false} FinishesRipe(f: FlowSpec, options: ParseOptions, n: Node, view: View)
    requires "" in view && InputsPresent(n, view)
    ensures Finish(BareLaunch(f, options), n, view) == Ripe(f, n.id)
  {
  }

  lemma {:induction false} UnheldDecision(l: Launch, n: Node, V: map<Id, Verdict>)
    requires n.runWhen == OnSuccess && FirstCause(Sources(l.flow.edges, n.id), V).None?
    requires !FullyDead(n.id, Sources(l.flow.edges, n.id), V) && !InputsReferSkipped(n, V, ViewOf(l.inputs, V))
    ensures Decide(l, n, V) == Finish(l, n, ViewOf(l.inputs, V)) && Decide(l, n, V).started
  {
  }

  /** With everything above it ripe a node is started, and succeeds when each of its references has a source. */
  lemma {:induction false} RipeDecision(f: FlowSpec, options: ParseOptions, rank: map<Id, nat>, V: map<Id, Verdict>, spec: NodeSpec)
    requires Launchable(f, options, rank) && spec in f.specs && RipeAbove(f, options, V, spec.node.id)
    ensures var d := Decide(BareLaunch(f, options), spec.node, V);
      d.started && (AllSourced(f, options, spec.node) ==> d == Ripe(f, spec.node.id))
  {
    var l := BareLaunch(f, options);
    var view := ViewOf(l.inputs, V);
    SpecNode(f, spec);
    RipePredecessors(f, options, V, spec.node.id);
    forall ref | ref in spec.node.inputSchema
      ensures !RefersToSkipped(ref, V, view) && (Sourced(f, options, spec.node.id, ref) ==> InputPresent(ref, view))
    {
      RefFound(f, options, rank, V, spec, ref);
    }
    UnheldDecision(l, spec.node, V);
    if AllSourced(f, options, spec.node) { FinishesRipe(f, options, spec.node, view); }
  }

  lemma {:induction false} AncestorsChain(f: Flow, a: Id, m: Id, n: Id)
    requires a in Ancestors(f, m) && m in Ancestors(f, n)
    ensures a in Ancestors(f, n)
  {
    ReachesTrans(EdgeSet(f), a, m, n);
  }

  lemma {:induction false} AllRipe(f: FlowSpec, options: ParseOptions, rank: map<Id, nat>, V: map<Id, Verdict>, n: Id)
    requires Launchable(f, options, rank) && Solves(BareLaunch(f, options), V) && n in Ids(FlowOf(f)) && SourcedAbove(f, options, n)
    ensures RipeAbove(f, options, V, n)
    decreases if n in rank then rank[n] else 0
  {
    forall a | a in Ancestors(FlowOf(f), n) ensures V[a] == Ripe(f, a) {
      ReachesClimbs(EdgeSet(FlowOf(f)), rank, a, n);
      forall b | b in Ancestors(FlowOf(f), a) ensures AllSourced(f, options, NodeOf(FlowOf(f), b)) {
        AncestorsChain(FlowOf(f), b, a, n);
      }
      AllRipe(f, options, rank, V, a);
      var s := NodeSpecOf(f, a);
      assert Solved(BareLaunch(f, options), V, a);
      RipeDecision(f, options, rank, V, s);
    }
  }

  // ---- Exactly

  /** The launch conforms, and the node is started on these facts. */
  ghost predicate StartsOn(f: FlowSpec, options: ParseOptions, rank: map<Id, nat>, n: Id, l: Launch, facts: map<Id, Verdict>) {
    && Launched(f, options, l, rank) && ReadyFacts(l, AllVerdicts(l, rank), facts, n)
    && AllVerdicts(l, rank)[n].started
  }

  /** However the flow is launched, the reference has its source whenever its node is started. */
  ghost predicate AlwaysReady(f: FlowSpec, options: ParseOptions, rank: map<Id, nat>, n: Id, ref: string) {
    forall l, facts :: StartsOn(f, options, rank, n, l, facts) ==> SourceReady(ref, ViewOf(l.inputs, facts))
  }

  ghost function Above(f: Flow, V: map<Id, Verdict>, n: Id): map<Id, Verdict>
  {
    map a | a in V && a in Ancestors(f, n) :: V[a]
  }

  lemma {:induction false} AboveIsReady(l: Launch, V: map<Id, Verdict>, n: Id)
    requires WellFormed(l.flow) && V.Keys == Ids(l.flow) && n in Ids(l.flow)
    ensures ReadyFacts(l, V, Above(l.flow, V, n), n) && Above(l.flow, V, n).Keys == Ancestors(l.flow, n)
  {
    var facts := Above(l.flow, V, n);
    forall m, p | m in facts && p in Sources(l.flow.edges, m) ensures p in facts {
      SourceIsAncestor(l.flow, p, m);
      AncestorsChain(l.flow, p, m, n);
    }
    forall p | p in Sources(l.flow.edges, n) ensures p in facts { SourceIsAncestor(l.flow, p, n); }
  }

  /** A node with everything sourced above it is started in the bare launch. */
  lemma {:induction false} BareStart(f: FlowSpec, options: ParseOptions, rank: map<Id, nat>, spec: NodeSpec) returns (facts: map<Id, Verdict>)
    requires Launchable(f, options, rank) && spec in f.specs && SourcedAbove(f, options, spec.node.id)
    ensures StartsOn(f, options, rank, spec.node.id, BareLaunch(f, options), facts)
    ensures RipeAbove(f, options, facts, spec.node.id) && facts.Keys == Ancestors(FlowOf(f), spec.node.id)
  {
    var l, n := BareLaunch(f, options), spec.node.id;
    BareLaunchConforms(f, options, rank);
    AcceptedRefsLocal(f, options, l, rank);
    VerdictsSolve(l, rank);
    SpecNode(f, spec);
    var V := AllVerdicts(l, rank);
    AllRipe(f, options, rank, V, n);
    RipeDecision(f, options, rank, V, spec);
    NodeIsNodeOf(l.flow, spec.node);
    assert Solved(l, V, n);
    facts := Above(l.flow, V, n);
    AboveIsReady(l, V, n);
  }

  /** A reference without a source fails in the bare launch. */
  lemma {:induction false} UnsourcedFails(f: FlowSpec, options: ParseOptions, rank: map<Id, nat>, spec: NodeSpec, ref: string)
    requires Launchable(f, options, rank) && spec in f.specs && ref in spec.node.inputSchema
    requires SourcedAbove(f, options, spec.node.id) && !Sourced(f, options, spec.node.id, ref)
    ensures !AlwaysReady(f, options, rank, spec.node.id, ref)
  {
    var facts := BareStart(f, options, rank, spec);
    SourceMissing(f, options, rank, facts, spec, ref);
  }

  lemma {:induction false} SourceMissing(f: FlowSpec, options: ParseOptions, rank: map<Id, nat>, facts: map<Id, Verdict>, spec: NodeSpec, ref: string)
    requires Launchable(f, options, rank) && spec in f.specs && ref in spec.node.inputSchema
    requires RipeAbove(f, options, facts, spec.node.id) && facts.Keys == Ancestors(FlowOf(f), spec.node.id)
    requires !Sourced(f, options, spec.node.id, ref)
    ensures !SourceReady(ref, ViewOf(BareLaunch(f, options).inputs, facts))
  {
    var l := BareLaunch(f, options);
    var view := ViewOf(l.inputs, facts);
    var (source, key) := ParseDataRef(ref);
    BareLaunchConforms(f, options, rank);
    AcceptedIsLocal(f, options, l, rank, spec, ref);
    if source in UpstreamOf(f, spec.node.id) {
      UpstreamIsAncestor(f, spec.node.id, source);
      YieldSpans(f, source);
      StepMissing(ref, view);
    } else {
      InputMissing(ref, view, Available(f, options));
    }
  }

  lemma {:induction false} StepMissing(ref: string, view: View)
    requires "" in view
    requires var (source, key) := ParseDataRef(ref); source in view && !Rooted(key, view[source].Keys)
    ensures !SourceReady(ref, view)
  {
  }

  lemma {:induction false} InputMissing(ref: string, view: View, available: set<string>)
    requires "" in view && view[""].Keys == available
    requires var (source, key) := ParseDataRef(ref);
      if source == "" then !Rooted(key, available) else source !in view && !Rooted(ref, available)
    ensures !SourceReady(ref, view)
  {
  }

  /**
   * Exactly, for one reference of a node that can be started: it has its source in every conforming launch if and
   * only if it is sourced as it is spelled.
   */
  lemma {:induction false} ReferenceHoldsExactly(f: FlowSpec, options: ParseOptions, rank: map<Id, nat>, spec: NodeSpec, ref: string)
    requires Launchable(f, options, rank) && spec in f.specs && ref in spec.node.inputSchema
    requires SourcedAbove(f, options, spec.node.id)
    ensures AlwaysReady(f, options, rank, spec.node.id, ref) <==> Sourced(f, options, spec.node.id, ref)
  {
    if Sourced(f, options, spec.node.id, ref) {
      forall l, facts | StartsOn(f, options, rank, spec.node.id, l, facts) ensures SourceReady(ref, ViewOf(l.inputs, facts)) {
        StartedNodesHaveTheirSources(f, options, l, rank, facts, spec, ref);
      }
    } else {
      UnsourcedFails(f, options, rank, spec, ref);
    }
  }

  /** Above a node with an unsourced reference there is one with nothing unsourced above it. */
  lemma {:induction false} FirstUnsourced(f: FlowSpec, options: ParseOptions, rank: map<Id, nat>, n: Id) returns (m: Id)
    requires WellFormed(FlowOf(f)) && Ranks(EdgeSet(FlowOf(f)), rank)
    requires n in Ids(FlowOf(f)) && !AllSourced(f, options, NodeOf(FlowOf(f), n))
    ensures m in Ids(FlowOf(f)) && !AllSourced(f, options, NodeOf(FlowOf(f), m)) && SourcedAbove(f, options, m)
    decreases if n in rank then rank[n] else 0
  {
    if SourcedAbove(f, options, n) {
      m := n;
    } else {
      var a :| a in Ancestors(FlowOf(f), n) && !AllSourced(f, options, NodeOf(FlowOf(f), a));
      ReachesClimbs(EdgeSet(FlowOf(f)), rank, a, n);
      m := FirstUnsourced(f, options, rank, a);
    }
  }

  /** Whatever node is started, each of its references has its source. */
  ghost predicate Safe(f: FlowSpec, options: ParseOptions, rank: map<Id, nat>) {
    forall spec, ref :: spec in f.specs && ref in spec.node.inputSchema ==> AlwaysReady(f, options, rank, spec.node.id, ref)
  }

  /** Exactly, for a flow: an accepted flow is safe however it is launched if and only if every reference is sourced. */
  lemma {:induction false} AcceptedIsSafeExactly(f: FlowSpec, options: ParseOptions, rank: map<Id, nat>)
    requires Launchable(f, options, rank)
    ensures Safe(f, options, rank) <==> forall spec :: spec in f.specs ==> AllSourced(f, options, spec.node)
  {
    if forall spec :: spec in f.specs ==> AllSourced(f, options, spec.node) {
      forall spec, ref | spec in f.specs && ref in spec.node.inputSchema ensures AlwaysReady(f, options, rank, spec.node.id, ref) {
        forall l, facts | StartsOn(f, options, rank, spec.node.id, l, facts) ensures SourceReady(ref, ViewOf(l.inputs, facts)) {
          StartedNodesHaveTheirSources(f, options, l, rank, facts, spec, ref);
        }
      }
    } else {
      var bad :| bad in f.specs && !AllSourced(f, options, bad.node);
      SpecNode(f, bad);
      NodeIsNodeOf(FlowOf(f), bad.node);
      var m := FirstUnsourced(f, options, rank, bad.node.id);
      var spec := NodeSpecOf(f, m);
      var ref :| ref in spec.node.inputSchema && !Sourced(f, options, m, ref);
      UnsourcedFails(f, options, rank, spec, ref);
    }
  }

  // ---- What the scheduler guarantees

  /** The facts of a run are such facts whenever a node waits for nothing. */
  lemma {:induction false} RunFacts(s: Setup, p: Progress, n: Id)
    requires Inv(s, p) && n in p.remaining && p.remaining[n] == 0
    ensures ReadyFacts(s.launch, s.verdicts, p.facts, n)
  {
    assert Look((s, p), 0);
    WaitingNode(s, p, n);
    ZeroMeansSourcesDone(s.launch.flow, p.remaining, p.facts.Keys, n);
  }

  /** So in every run, whatever the finishing order, a node that starts finds the source of every sourced reference. */
  lemma {:induction false} RunsAreSafe(f: FlowSpec, options: ParseOptions, rank: map<Id, nat>, s: Setup, p: Progress, spec: NodeSpec, ref: string)
    requires Launched(f, options, s.launch, rank) && s.verdicts == AllVerdicts(s.launch, rank)
    requires Inv(s, p) && spec.node.id in p.remaining && p.remaining[spec.node.id] == 0
    requires spec.node.id in s.verdicts && s.verdicts[spec.node.id].started
    requires spec in f.specs && ref in spec.node.inputSchema && Sourced(f, options, spec.node.id, ref)
    ensures SourceReady(ref, ViewOf(s.launch.inputs, p.facts))
  {
    RunFacts(s, p, spec.node.id);
    StartedNodesHaveTheirSources(f, options, s.launch, rank, p.facts, spec, ref);
  }
}
