/** The validator is a type system for the scheduler: accepted flows never start a node without its sources. */
module Soundness {
  import opened Graphs
  import opened References
  import opened Flows
  import opened Verdicts
  import opened Containment
  import opened Validation
  import opened GoText

  function FlowOf(f: FlowSpec): Flow {
    Flow(seq(|f.specs|, i requires 0 <= i < |f.specs| => f.specs[i].node), f.edges)
  }

  function FirstSegment(key: string): string {
    key[..FirstDot(key)]
  }

  /** A reference spelled the way the engine reads it: no blanks around its parts, no empty first part. */
  predicate CleanRef(ref: string) {
    && TrimSpace(ref) == ref
    && ('.' in ref ==>
      var parts := ParseDataRef(ref);
      parts.0 != "" && TrimSpace(parts.0) == parts.0 && TrimSpace(parts.1) == parts.1)
  }

  /** The validator trims node ids and the engine does not. */
  ghost predicate CleanIds(f: FlowSpec) {
    forall spec :: spec in f.specs ==> TrimSpace(spec.node.id) == spec.node.id
  }

  /** No flow input is a path into something a node is called. */
  ghost predicate InputsApart(l: Launch) {
    forall key :: key in l.inputs ==> FirstSegment(key) !in Ids(l.flow)
  }

  /** A node that succeeds publishes what it declares. */
  ghost predicate Publishes(l: Launch, f: FlowSpec) {
    forall spec, inputs :: spec in f.specs && l.run(spec.node.id, inputs).Success? ==>
      NonBlank(spec.outputSchema) <= l.run(spec.node.id, inputs).outputs.Keys
  }

  ghost predicate AllOnSuccess(f: Flow) {
    forall n :: n in f.nodes ==> n.runWhen == OnSuccess
  }

  /** An accepted acyclic flow of on_success nodes, launched with the inputs it was validated against. */
  ghost predicate Launched(f: FlowSpec, options: ParseOptions, l: Launch, rank: map<Id, nat>) {
    && l.flow == FlowOf(f) && WellFormed(l.flow) && Ranks(EdgeSet(l.flow), rank) && AllOnSuccess(l.flow)
    && Accepted(f, options) && !options.allowUnknown && CleanIds(f)
    && Available(f, options) <= l.inputs.Keys && InputsApart(l) && Publishes(l, f)
  }

  lemma {:induction false} SpecNode(f: FlowSpec, spec: NodeSpec)
    requires spec in f.specs
    ensures spec.node in FlowOf(f).nodes && spec.node.id in Ids(FlowOf(f))
  {
    var i :| 0 <= i < |f.specs| && f.specs[i] == spec;
    assert FlowOf(f).nodes[i] == spec.node;
  }

  lemma {:induction false} NodeSpecOf(f: FlowSpec, n: Id) returns (spec: NodeSpec)
    requires n in Ids(FlowOf(f))
    ensures spec in f.specs && spec.node == NodeOf(FlowOf(f), n)
  {
    var node := NodeOf(FlowOf(f), n);
    var i :| 0 <= i < |FlowOf(f).nodes| && FlowOf(f).nodes[i] == node;
    spec := f.specs[i];
  }

  /** With trimmed node ids the validator follows the engine's own edges. */
  lemma {:induction false} EdgesAgree(f: FlowSpec)
    requires WellFormed(FlowOf(f)) && CleanIds(f)
    ensures TrimmedEdges(f.edges) == EdgeSet(FlowOf(f))
  {
    forall e | e in f.edges ensures TrimSpace(e.source) == e.source != "" && TrimSpace(e.target) == e.target != "" {
      assert e in EdgeSet(FlowOf(f));
      var s := NodeSpecOf(f, e.source);
      var t := NodeSpecOf(f, e.target);
    }
    forall e | e in TrimmedEdges(f.edges) ensures e in EdgeSet(FlowOf(f)) { }
    forall e | e in EdgeSet(FlowOf(f)) ensures e in TrimmedEdges(f.edges) { }
  }

  lemma {:induction false} DeclaredIs(specs: seq<NodeSpec>, spec: NodeSpec)
    requires spec in specs && spec.node.id != ""
    requires forall s :: s in specs ==> TrimSpace(s.node.id) == s.node.id
    requires forall i, j :: 0 <= i < j < |specs| ==> specs[i].node.id != specs[j].node.id
    ensures spec.node.id in DeclaredOutputs(specs) && DeclaredOutputs(specs)[spec.node.id] == NonBlank(spec.outputSchema)
  {
    var front, last := specs[..|specs| - 1], specs[|specs| - 1];
    assert specs == front + [last];
    if spec != last {
      assert spec in front;
      DeclaredIs(front, spec);
    }
  }

  lemma {:induction false} DeclaredAreNodes(specs: seq<NodeSpec>, id: Id)
    requires id in DeclaredOutputs(specs)
    requires forall s :: s in specs ==> TrimSpace(s.node.id) == s.node.id
    ensures exists s :: s in specs && s.node.id == id
  {
    var front, last := specs[..|specs| - 1], specs[|specs| - 1];
    assert specs == front + [last];
    if last.node.id != id {
      DeclaredAreNodes(front, id);
      var s :| s in front && s.node.id == id;
      assert s in specs;
    }
  }

  lemma {:induction false} FirstDotOfPrefix(ref: string, d: nat)
    requires 0 < d < |ref| && ref[d] == '.'
    ensures FirstDot(ref) <= d
    ensures FirstDot(ref) < d ==> FirstSegment(ref[..d]) == FirstSegment(ref)
    ensures FirstDot(ref) == d ==> ref[..d] == FirstSegment(ref) && FirstSegment(ref[..d]) == FirstSegment(ref)
  {
    var k := FirstDot(ref);
    var cut := ref[..d];
    var c := FirstDot(cut);
    if k < d {
      assert cut[k] == '.';
      assert forall j :: 0 <= j < k ==> cut[j] == ref[j];
      assert c == k;
    }
  }

  /** A path rooted at a flow input starts with no node's id. */
  lemma {:induction false} RootedIsNoNode(l: Launch, ref: string)
    requires InputsApart(l) && Rooted(ref, l.inputs.Keys)
    ensures FirstSegment(ref) !in Ids(l.flow)
  {
    var root :| root in l.inputs.Keys && IsRoot(ref, root);
    if root != ref {
      FirstDotOfPrefix(ref, |root|);
    }
  }

  lemma {:induction false} DottedSource(ref: string)
    ensures '.' in ref ==> ParseDataRef(ref).0 == FirstSegment(ref)
    ensures '.' !in ref ==> FirstSegment(ref) == ref
  {
  }

  /**
   * The reference has a source as it is spelled, nothing trimmed: its first segment is a step upstream that declares
   * the root of the rest, or else a flow input is the root of the whole. It can be checked when the flow is parsed.
   */
  ghost predicate Sourced(f: FlowSpec, options: ParseOptions, n: Id, ref: string) {
    var (source, key) := ParseDataRef(ref);
    if source == "" then Rooted(key, Available(f, options))
    else if source in UpstreamOf(f, n) then Rooted(key, UpstreamOf(f, n)[source])
    else Rooted(ref, Available(f, options))
  }

  /** A first segment without blanks around it stays the first segment when the whole is trimmed. */
  lemma {:induction false} TrimKeepsSource(ref: string)
    requires '.' in ref && ParseDataRef(ref).0 != "" && TrimSpace(ParseDataRef(ref).0) == ParseDataRef(ref).0
    ensures '.' in TrimSpace(ref) && ParseDataRef(TrimSpace(ref)).0 == ParseDataRef(ref).0
  {
    var source := ParseDataRef(ref).0;
    TrimSpaceStarts(source);
    assert ref[0] == source[0] && TrimLeft(ref) == ref;
    TrimRightKeeps(ref, |source|);
    var t := TrimSpace(ref);
    assert t[|source|] == '.';
    assert forall i :: 0 <= i < |source| ==> t[i] == source[i];
    assert FirstDot(t) == |source|;
  }

  lemma {:induction false} TrimSpaceStarts(s: string)
    requires s != "" && TrimSpace(s) == s
    ensures !IsSpace(s[0])
  {
    LeftThenRight(s);
  }

  lemma {:induction false} LeftThenRight(s: string)
    ensures |TrimSpace(s)| <= |TrimLeft(s)| && (s != "" && IsSpace(s[0]) ==> |TrimLeft(s)| < |s|)
  {
    RightShorter(TrimLeft(s));
    if s != "" && IsSpace(s[0]) { LeftShorter(s[1..]); }
  }

  lemma {:induction false} LeftShorter(s: string)
    ensures |TrimLeft(s)| <= |s|
  {
    if s != "" && IsSpace(s[0]) { LeftShorter(s[1..]); }
  }

  lemma {:induction false} RightShorter(s: string)
    ensures |TrimRight(s)| <= |s|
  {
    if s != "" && IsSpace(s[|s| - 1]) { RightShorter(s[..|s| - 1]); }
  }

  lemma {:induction false} TrimRightKeeps(s: string, i: nat)
    requires i < |s| && !IsSpace(s[i])
    ensures i < |TrimRight(s)| && TrimRight(s) <= s
  {
    if IsSpace(s[|s| - 1]) { TrimRightKeeps(s[..|s| - 1], i); }
  }

  /** Whatever the spelling, an accepted reference starts with an ancestor's id or with no node's. */
  lemma {:induction false} AcceptedIsLocal(f: FlowSpec, options: ParseOptions, l: Launch, rank: map<Id, nat>, spec: NodeSpec, ref: string)
    requires Launched(f, options, l, rank) && spec in f.specs && ref in spec.node.inputSchema
    ensures ParseDataRef(ref).0 in UpstreamOf(f, spec.node.id) || ParseDataRef(ref).0 !in Ids(l.flow)
  {
    var source := ParseDataRef(ref).0;
    SpecNode(f, spec);
    assert ref in AllRefs(spec) && NodeAccepted(f, options, spec);
    assert RefAccepted(spec.node, ref, Available(f, options), UpstreamOf(f, spec.node.id), false);
    if source in Ids(l.flow) {
      var s := NodeSpecOf(f, source);
      TrimKeepsSource(ref);
      DottedSource(TrimSpace(ref));
      if Rooted(TrimSpace(ref), Available(f, options)) {
        assert Rooted(TrimSpace(ref), l.inputs.Keys);
        RootedIsNoNode(l, TrimSpace(ref));
      }
    }
  }

  /** An accepted reference that is spelled cleanly has its source. */
  lemma {:induction false} CleanIsSourced(f: FlowSpec, options: ParseOptions, l: Launch, rank: map<Id, nat>, spec: NodeSpec, ref: string)
    requires Launched(f, options, l, rank) && spec in f.specs && ref in spec.node.inputSchema && CleanRef(ref)
    ensures Sourced(f, options, spec.node.id, ref)
  {
    SpecNode(f, spec);
    assert ref in AllRefs(spec);
    assert NodeAccepted(f, options, spec);
    assert RefAccepted(spec.node, ref, Available(f, options), UpstreamOf(f, spec.node.id), false);
    if ref in Available(f, options) { assert IsRoot(ref, ref); }
    if Rooted(ref, Available(f, options)) {
      assert Rooted(ref, l.inputs.Keys);
      RootedIsNoNode(l, ref);
      DottedSource(ref);
      if ParseDataRef(ref).0 in UpstreamOf(f, spec.node.id) { UpstreamIsAncestor(f, spec.node.id, ParseDataRef(ref).0); }
    }
  }

  lemma {:induction false} UpstreamIsAncestor(f: FlowSpec, n: Id, a: Id)
    requires WellFormed(FlowOf(f)) && CleanIds(f) && a in UpstreamOf(f, n)
    ensures a in Ancestors(FlowOf(f), n)
  {
    EdgesAgree(f);
    DeclaredAreNodes(f.specs, a);
    var s :| s in f.specs && s.node.id == a;
    SpecNode(f, s);
  }

  /** Acceptance gives the locality the confluence theorem asks for. */
  lemma {:induction false} AcceptedRefsLocal(f: FlowSpec, options: ParseOptions, l: Launch, rank: map<Id, nat>)
    requires Launched(f, options, l, rank)
    ensures Runnable(l, rank)
  {
    forall n, ref | n in l.flow.nodes && ref in n.inputSchema
      ensures ParseDataRef(ref).0 in Ancestors(l.flow, n.id) || ParseDataRef(ref).0 !in Ids(l.flow)
    {
      var i :| 0 <= i < |l.flow.nodes| && l.flow.nodes[i] == n;
      var spec := f.specs[i];
      AcceptedIsLocal(f, options, l, rank, spec, ref);
      if ParseDataRef(ref).0 in UpstreamOf(f, n.id) { UpstreamIsAncestor(f, n.id, ParseDataRef(ref).0); }
    }
  }

  /** In a flow of on_success nodes, nothing above a started node failed. */
  lemma {:induction false} AncestorOfStarted(l: Launch, V: map<Id, Verdict>, a: Id, n: Id)
    requires WellFormed(l.flow) && AllOnSuccess(l.flow) && Solves(l, V)
    requires n in Ids(l.flow) && V[n].started && a in Ancestors(l.flow, n)
    ensures V[a].status != Failed
  {
    if V[a].status == Failed {
      var p :| Walks(EdgeSet(l.flow), p, a, n);
      forall i | 1 <= i < |p| ensures OnSuccessNode(l.flow, p[i]) {
        assert Edge(p[i - 1], p[i - 1 + 1]) in EdgeSet(l.flow);
      }
      PathCarriesCause(l, V, p, n);
    }
  }

  /** An on_success node that ended without being started published nothing; a success published what it declares. */
  lemma {:induction false} PublishedShape(l: Launch, V: map<Id, Verdict>, a: Id)
    requires Solved(l, V, a) && NodeOf(l.flow, a).runWhen == OnSuccess
    ensures V[a].status == Skipped ==> V[a].published == None && !V[a].started
    ensures V[a].status == Succeeded ==>
      exists inputs :: l.run(a, inputs).Success? && V[a].published == Some(l.run(a, inputs).outputs)
  {
  }

  lemma {:induction false} StartedRefersToNoSkipped(l: Launch, n: Node, facts: map<Id, Verdict>)
    requires n.runWhen == OnSuccess && Decide(l, n, facts).started
    ensures !InputsReferSkipped(n, facts, ViewOf(l.inputs, facts))
  {
  }

  /** The facts the scheduler has when a node is ready: verdicts, closed under predecessors, with the node's own. */
  ghost predicate ReadyFacts(l: Launch, V: map<Id, Verdict>, facts: map<Id, Verdict>, n: Id) {
    && facts.Keys <= Ids(l.flow) && PredClosed(l.flow, facts.Keys) && Agree(facts, V, facts.Keys)
    && n in Ids(l.flow) && forall p :: p in Sources(l.flow.edges, n) ==> p in facts
  }

  ghost predicate SourceReady(ref: string, view: View)
    requires "" in view
  {
    var (source, key) := ResolveDataRef(ref, view);
    source in view && Rooted(key, view[source].Keys)
  }

  /** A node whose input names a skipped step is not started. */
  lemma {:induction false} SkippedSourceStops(l: Launch, rank: map<Id, nat>, V: map<Id, Verdict>, facts: map<Id, Verdict>,
                           n: Node, ref: string, a: Id)
    requires Runnable(l, rank) && Solves(l, V) && InputsApart(l) && n in l.flow.nodes && n.runWhen == OnSuccess
    requires ReadyFacts(l, V, facts, n.id) && ref in n.inputSchema && '.' in ref && a == ParseDataRef(ref).0
    requires a in facts && facts[a].status == Skipped && facts[a].published == None
    ensures !V[n.id].started
  {
    NodeIsNodeOf(l.flow, n);
    NextSolved(l, rank, V, facts, n.id);
    var view := ViewOf(l.inputs, facts);
    DottedSource(ref);
    if Rooted(ref, l.inputs.Keys) { RootedIsNoNode(l, ref); }
    assert a !in view && a != "";
    assert RefersToSkipped(ref, facts, view);
    if V[n.id].started { StartedRefersToNoSkipped(l, n, facts); }
  }

  /** An upstream source of a started node has ended, and ended well. */
  lemma {:induction false} UpstreamSucceeded(l: Launch, rank: map<Id, nat>, V: map<Id, Verdict>, facts: map<Id, Verdict>, n: Node, ref: string)
    requires Runnable(l, rank) && Solves(l, V) && InputsApart(l) && AllOnSuccess(l.flow) && n in l.flow.nodes
    requires ReadyFacts(l, V, facts, n.id) && ref in n.inputSchema && '.' in ref && V[n.id].started
    requires ParseDataRef(ref).0 in Ancestors(l.flow, n.id)
    ensures ParseDataRef(ref).0 in facts && facts[ParseDataRef(ref).0].status == Succeeded
  {
    var a := ParseDataRef(ref).0;
    ClosedHoldsAncestors(l.flow, rank, facts.Keys, n.id);
    AncestorOfStarted(l, V, a, n.id);
    assert Solved(l, V, a);
    PublishedShape(l, V, a);
    if facts[a].status == Skipped {
      SkippedSourceStops(l, rank, V, facts, n, ref, a);
    }
  }

  /** A step that succeeded holds every root it declares. */
  lemma {:induction false} DeclaredRootHeld(f: FlowSpec, l: Launch, V: map<Id, Verdict>, a: Id, key: string)
    requires l.flow == FlowOf(f) && WellFormed(l.flow) && CleanIds(f) && Publishes(l, f) && AllOnSuccess(l.flow)
    requires Solved(l, V, a) && V[a].status == Succeeded
    requires a in DeclaredOutputs(f.specs) && Rooted(key, DeclaredOutputs(f.specs)[a])
    ensures V[a].published.Some? && Rooted(key, V[a].published.value.Keys)
  {
    PublishedShape(l, V, a);
    var s := NodeSpecOf(f, a);
    forall i, j | 0 <= i < j < |f.specs| ensures f.specs[i].node.id != f.specs[j].node.id {
      assert l.flow.nodes[i].id != l.flow.nodes[j].id;
    }
    DeclaredIs(f.specs, s);
    var inputs :| l.run(a, inputs).Success? && V[a].published == Some(l.run(a, inputs).outputs);
    var root :| root in DeclaredOutputs(f.specs)[a] && IsRoot(key, root);
    assert NonBlank(s.outputSchema) <= l.run(s.node.id, inputs).outputs.Keys;
  }

  lemma {:induction false} PublishedSourceReady(inputs: map<string, Value>, facts: map<Id, Verdict>, ref: string)
    requires var (a, key) := ParseDataRef(ref);
      a != "" && a in facts && facts[a].published.Some? && Rooted(key, facts[a].published.value.Keys)
    ensures SourceReady(ref, ViewOf(inputs, facts))
  {
  }

  /** A declared source upstream of a started node has succeeded and holds the declared root. */
  lemma {:induction false} UpstreamSourceReady(f: FlowSpec, options: ParseOptions, l: Launch, rank: map<Id, nat>, V: map<Id, Verdict>,
                            facts: map<Id, Verdict>, spec: NodeSpec, ref: string)
    requires Launched(f, options, l, rank) && Runnable(l, rank) && Solves(l, V)
    requires spec in f.specs && ref in spec.node.inputSchema && ReadyFacts(l, V, facts, spec.node.id)
    requires V[spec.node.id].started && '.' in ref && ParseDataRef(ref).0 in UpstreamOf(f, spec.node.id)
    requires Rooted(ParseDataRef(ref).1, UpstreamOf(f, spec.node.id)[ParseDataRef(ref).0])
    ensures SourceReady(ref, ViewOf(l.inputs, facts))
  {
    var a := ParseDataRef(ref).0;
    SpecNode(f, spec);
    UpstreamIsAncestor(f, spec.node.id, a);
    UpstreamSucceeded(l, rank, V, facts, spec.node, ref);
    assert Solved(l, V, a);
    assert UpstreamOf(f, spec.node.id)[a] == DeclaredOutputs(f.specs)[a];
    DeclaredRootHeld(f, l, V, a, ParseDataRef(ref).1);
    PublishedSourceReady(l.inputs, facts, ref);
  }

  /**
   * Soundness. When a node of an accepted flow starts, each of its references that has a source as it is spelled
   * resolves to a step that has published, or to the flow inputs, and the root of its path is there.
   */
  lemma {:induction false} StartedNodesHaveTheirSources(f: FlowSpec, options: ParseOptions, l: Launch, rank: map<Id, nat>,
                                     facts: map<Id, Verdict>, spec: NodeSpec, ref: string)
    requires Launched(f, options, l, rank) && spec in f.specs && ref in spec.node.inputSchema
    requires Sourced(f, options, spec.node.id, ref)
    requires ReadyFacts(l, AllVerdicts(l, rank), facts, spec.node.id) && AllVerdicts(l, rank)[spec.node.id].started
    ensures SourceReady(ref, ViewOf(l.inputs, facts))
  {
    AcceptedRefsLocal(f, options, l, rank);
    VerdictsSolve(l, rank);
    if ParseDataRef(ref).0 in UpstreamOf(f, spec.node.id) {
      UpstreamSourceReady(f, options, l, rank, AllVerdicts(l, rank), facts, spec, ref);
    } else {
      InputSourceReady(f, options, l, facts, spec.node.id, ref);
    }
  }

  lemma {:induction false} InputSourceReady(f: FlowSpec, options: ParseOptions, l: Launch, facts: map<Id, Verdict>, n: Id, ref: string)
    requires WellFormed(l.flow) && InputsApart(l) && facts.Keys <= Ids(l.flow) && Available(f, options) <= l.inputs.Keys
    requires Sourced(f, options, n, ref) && ParseDataRef(ref).0 !in UpstreamOf(f, n)
    ensures SourceReady(ref, ViewOf(l.inputs, facts))
  {
    if ParseDataRef(ref).0 != "" {
      assert Rooted(ref, l.inputs.Keys);
      RootedIsNoNode(l, ref);
      DottedSource(ref);
    } else {
      assert Rooted(ParseDataRef(ref).1, l.inputs.Keys);
    }
  }

  /** So a started node is refused only by a dotted path that walks past a root that is present. */
  lemma {:induction false} RefusedOnlyPastARoot(f: FlowSpec, options: ParseOptions, l: Launch, rank: map<Id, nat>,
                             facts: map<Id, Verdict>, spec: NodeSpec)
    requires Launched(f, options, l, rank) && spec in f.specs
    requires forall ref :: ref in spec.node.inputSchema ==> Sourced(f, options, spec.node.id, ref)
    requires ReadyFacts(l, AllVerdicts(l, rank), facts, spec.node.id) && AllVerdicts(l, rank)[spec.node.id].started
    ensures var view := ViewOf(l.inputs, facts);
      !InputsPresent(spec.node, view) ==>
        exists ref :: ref in spec.node.inputSchema && !InputPresent(ref, view) && SourceReady(ref, view) &&
          var (source, key) := ResolveDataRef(ref, view);
          exists root :: root in view[source] && IsRoot(key, root) && root != key
  {
    var view := ViewOf(l.inputs, facts);
    if !InputsPresent(spec.node, view) {
      var ref :| ref in spec.node.inputSchema && !InputPresent(ref, view);
      StartedNodesHaveTheirSources(f, options, l, rank, facts, spec, ref);
      var (source, key) := ResolveDataRef(ref, view);
      var root :| root in view[source].Keys && IsRoot(key, root);
      assert root != key;
    }
  }

  /** Acceptance does not give a source: the validator trims the parts of "a. x", the engine looks for " x". */
  lemma {:induction false} UncleanReferenceSlipsThrough(n: Node, view: View)
    requires "" in view && "a" in view && view["a"].Keys == {"x"}
    ensures RefAccepted(n, "a. x", {}, map["a" := {"x"}], false)
    ensures !SourceReady("a. x", view) && !CleanRef("a. x")
  {
    var ref := "a. x";
    assert TrimLeft(ref) == ref;
    assert TrimRight(ref) == ref;
    var parts := ParseDataRef(ref);
    assert FirstDot(ref) == 1;
    assert parts.0 == "a" && parts.1 == " x";
    assert " x"[1..] == "x";
    assert TrimSpace("a") == "a" && TrimLeft(" x") == "x" && TrimSpace(" x") == "x";
    assert IsRoot("x", "x");
    assert Rooted("x", {"x"});
    assert !IsRoot(" x", "x");
  }
}
