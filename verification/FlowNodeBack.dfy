/** A printed node is read back as a node that lowers to it. */
module FlowNodeBack {
  import opened References
  import opened GoText
  import opened Checks
  import opened FlowTree
  import opened FlowEdges
  import opened FlowModel
  import opened FlowParse
  import opened FlowLower
  import opened FlowPrint
  import opened FlowShapes
  import opened FlowReadBack
  import opened FlowOutputsBack

  /** What lowering leaves of the written kind. */
  lemma {:induction false} SpecShape(spec: Spec, outputs: seq<Declared>, library: Library, d: Data)
    requires LowerSpec(spec, outputs, library) == Some(d)
    ensures spec.ModuleSpec? <==> d.ModuleData?
    ensures spec.AssertSpec? <==> d.AssertData?
    ensures spec.SetSpec? <==> d.SetData?
    ensures spec.IntegrationSpec? && spec.event != "" <==> d.EventData?
    ensures OutputsAllowed(spec) <==> StoresOutputs(d) || d.ModuleData?
    ensures spec.BranchSpec? <==> d.BranchData?
    ensures spec.BranchSpec? ==> spec.cases == d.cases && spec.fallback == d.fallback
  {
  }

  lemma {:induction false} OutputsDoNotMatter(spec: Spec, outputs: seq<Declared>, library: Library)
    requires !spec.ModuleSpec?
    ensures LowerSpec(spec, outputs, library) == LowerSpec(spec, [], library)
  {
  }

  ghost predicate NodeTaken(n: Stored, m: Fields, bare: Spec, links: Links, decls: seq<Declared>, spec: Spec) {
    && TakeText(m, DisplayKey) == Some(if n.display == n.id then "" else n.display)
    && TakeText(m, RunWhenKey) == Some(if n.always then "always" else "")
    && TakeNames(m, NextKey).Some? && TakeNames(m, NextKey).value.0 == links.next
    && TakeNames(m, OnFailureKey).Some? && TakeNames(m, OnFailureKey).value.0 == links.fail
    && TakeOutputs(bare, m) == Some(decls) && TakeChecks(m, ExpectKey) == Some(n.checks)
    && (n.checks != [] ==> ExpectKey in m) && Applied(bare, m) == Some(spec)
    && m.Keys <= {DisplayKey, RunWhenKey, NextKey, OnFailureKey, OutputsKey, ExpectKey, InputsKey, KindOf(n.data)}
  }

  /** What the written node keeps of the stored one. */
  ghost predicate Keeps(w: Written, n: Stored, links: Links, decls: seq<Declared>, spec: Spec) {
    && w.id == n.id && w.display == n.display && w.always == n.always && w.checks == n.checks
    && w.next == links.next && w.fail == links.fail && w.outputs == decls && w.spec == spec
  }

  lemma {:induction false} NodeFromBack(n: Stored, m: Fields, bare: Spec, links: Links, decls: seq<Declared>, spec: Spec)
    requires NodeTaken(n, m, bare, links, decls, spec) && ValidId(n.id) && n.display != ""
    requires spec.AssertSpec? ==> n.checks != []
    requires spec.IntegrationSpec? && spec.event != "" ==> !HasStatusCheck(n.checks)
    ensures NodeFrom(n.id, m, KindOf(n.data), bare).Some?
    ensures Keeps(NodeFrom(n.id, m, KindOf(n.data), bare).value, n, links, decls, spec)
  {
  }

  /** The written node stands for the stored one, edges included. */
  ghost predicate Matches(w: Written, n: Stored, edges: seq<FlowEdge>) {
    && LinksOf(w) == ReadLinks(n.id, edges).(branch := BranchTargets(n))
    && LowerNode(w, map[]) == Some(n)
  }

  lemma {:induction false} KeptMatches(w: Written, n: Stored, edges: seq<FlowEdge>, decls: seq<Declared>, spec: Spec)
    requires Keeps(w, n, ReadLinks(n.id, edges), decls, spec) && LowerSpec(spec, decls, map[]) == Some(n.data)
    requires n.outputs == if OutputsAllowed(spec) && !spec.ModuleSpec? then LowerOutputs(decls) else []
    ensures Matches(w, n, edges)
  {
    SpecShape(spec, decls, map[], n.data);
  }

  lemma {:induction false} OnlyKind(m: Fields, kind: Key)
    requires IsKind(kind) && kind in m
    requires m.Keys <= {DisplayKey, RunWhenKey, NextKey, OnFailureKey, OutputsKey, ExpectKey, InputsKey, kind}
    ensures TakenKind(m) == Some(kind)
  {
    var kinds := set k | k in m.Keys && IsKind(k);
    assert kinds == {kind};
  }

  lemma {:induction false} KindsAreKinds(d: Data)
    ensures IsKind(KindOf(d))
  {
  }

  /** The node's parts, read one by one. */
  lemma {:induction false} NodeBuilt(n: Stored, kind: Yaml, outputs: Part, checks: Part, links: Links) returns (m: Fields)
    requires outputs.0 == OutputsKey && checks.0 == ExpectKey
    ensures MappingOf(Mapping(Build(NodeParts(n, kind, outputs, checks, links)))) == Some(m)
    ensures Carries(m, NodeParts(n, kind, outputs, checks, links))
    ensures m.Keys <= {DisplayKey, RunWhenKey, NextKey, OnFailureKey, OutputsKey, ExpectKey, InputsKey, KindOf(n.data)}
  {
    KindsAreKinds(n.data);
    var parts := NodeParts(n, kind, outputs, checks, links);
    BuildRead(parts, {DisplayKey, RunWhenKey, NextKey, OnFailureKey, OutputsKey, ExpectKey, InputsKey, KindOf(n.data)});
    m := FieldsOf(Build(parts)).value;
  }

  ghost predicate NodeFields(n: Stored, m: Fields, kind: Yaml, outputs: Part, checks: Part, links: Links) {
    && Field(m, DisplayKey) == (if n.display != "" && n.display != n.id then Some(StrNode(n.display)) else None)
    && Field(m, RunWhenKey) == (if n.always then Some(StrNode("always")) else None)
    && Field(m, KindOf(n.data)) == Some(kind) && Field(m, InputsKey) == InputsPart(n.data).1
    && Field(m, OutputsKey) == outputs.1 && Field(m, ExpectKey) == checks.1
    && Field(m, NextKey) == NamesPart(NextKey, links.next).1 && Field(m, OnFailureKey) == NamesPart(OnFailureKey, links.fail).1
  }

  lemma {:induction false} NodeCarries(n: Stored, m: Fields, kind: Yaml, outputs: Part, checks: Part, links: Links)
    requires outputs.0 == OutputsKey && checks.0 == ExpectKey && Carries(m, NodeParts(n, kind, outputs, checks, links))
    ensures NodeFields(n, m, kind, outputs, checks, links)
  {
    var parts := NodeParts(n, kind, outputs, checks, links);
    assert parts[0].0 == DisplayKey && parts[1].0 == RunWhenKey && parts[2].0 == KindOf(n.data) && parts[3].0 == InputsKey;
    assert parts[4] == outputs && parts[5] == checks && parts[6].0 == NextKey && parts[7].0 == OnFailureKey;
  }

  lemma {:induction false} LinksTaken(m: Fields, links: Links)
    requires Field(m, NextKey) == NamesPart(NextKey, links.next).1 && Field(m, OnFailureKey) == NamesPart(OnFailureKey, links.fail).1
    requires (forall t :: t in links.next ==> ValidId(t)) && (forall t :: t in links.fail ==> ValidId(t))
    ensures TakeNames(m, NextKey).Some? && TakeNames(m, NextKey).value.0 == links.next
    ensures TakeNames(m, OnFailureKey).Some? && TakeNames(m, OnFailureKey).value.0 == links.fail
  {
    NamesBack(m, NextKey, links.next);
    NamesBack(m, OnFailureKey, links.fail);
  }

  /** The outputs of a node that is not a module. */
  lemma {:induction false} PlainOutputsTaken(n: Stored, m: Fields, outputs: Part, bare: Spec)
    requires OutputsPart(n) == Some(outputs) && Field(m, OutputsKey) == outputs.1 && !n.data.ModuleData? && NotModule(bare)
    requires CompiledOutputs(n.outputs) && (n.outputs != [] ==> StoresOutputs(n.data) && OutputsAllowed(bare))
    ensures TakeOutputs(bare, m) == Some(AsDeclared(n.outputs))
  {
    if n.outputs == [] {
      assert AsDeclared(n.outputs) == [];
    } else {
      OutputsBack(n.outputs, bare);
    }
  }

  lemma {:induction false} PlainApplied(m: Fields, bare: Spec)
    requires NotModule(bare) && Field(m, InputsKey) == None
    ensures Applied(bare, m) == Some(bare)
  {
  }

  lemma {:induction false} TextsTaken(n: Stored, m: Fields)
    requires n.display != ""
    requires Field(m, DisplayKey) == (if n.display != "" && n.display != n.id then Some(StrNode(n.display)) else None)
    requires Field(m, RunWhenKey) == (if n.always then Some(StrNode("always")) else None)
    ensures TakeText(m, DisplayKey) == Some(if n.display == n.id then "" else n.display)
    ensures TakeText(m, RunWhenKey) == Some(if n.always then "always" else "")
  {
  }

  ghost predicate EdgesNamed(id: string, edges: seq<FlowEdge>) {
    && (forall t :: t in TargetsOf(id, Success, edges) ==> ValidId(t))
    && (forall t :: t in TargetsOf(id, Failure, edges) ==> ValidId(t))
  }

  lemma {:induction false} StatusAbsent(n: Stored)
    requires CompiledNode(n) && n.data.EventData?
    ensures !HasStatusCheck(n.checks)
  {
  }

  /** What the kind's own specification and the compiled shape say about a node that is not a module. */
  ghost predicate PlainFits(n: Stored, spec: Spec) {
    && CompiledChecks(n.checks) && CleanChecks(n.checks) && CompiledOutputs(n.outputs) && ValidId(n.id) && n.display != ""
    && NotModule(spec) && (n.outputs != [] ==> StoresOutputs(n.data) && OutputsAllowed(spec))
    && (spec.AssertSpec? ==> n.checks != [])
    && (spec.IntegrationSpec? && spec.event != "" ==> !HasStatusCheck(n.checks))
  }

  lemma {:induction false} PlainShape(n: Stored, spec: Spec)
    requires CompiledNode(n) && CleanNode(n) && !n.data.ModuleData? && Recovers(Some(spec), n.data)
    ensures PlainFits(n, spec)
  {
    SpecShape(spec, [], map[], n.data);
    if n.data.EventData? { StatusAbsent(n); }
  }

  lemma {:induction false} PlainTaken(n: Stored, edges: seq<FlowEdge>, m: Fields, kind: Yaml, outputs: Part, checks: Part, spec: Spec)
    requires PlainFits(n, spec) && !n.data.ModuleData? && EdgesNamed(n.id, edges)
    requires OutputsPart(n) == Some(outputs) && ChecksPart(ExpectKey, n.checks) == Some(checks)
    requires NodeFields(n, m, kind, outputs, checks, ReadLinks(n.id, edges))
    requires m.Keys <= {DisplayKey, RunWhenKey, NextKey, OnFailureKey, OutputsKey, ExpectKey, InputsKey, KindOf(n.data)}
    ensures NodeTaken(n, m, spec, ReadLinks(n.id, edges), AsDeclared(n.outputs), spec)
  {
    TextsTaken(n, m);
    LinksTaken(m, ReadLinks(n.id, edges));
    PlainOutputsTaken(n, m, outputs, spec);
    ChecksPrint(ExpectKey, n.checks);
    ChecksBack(m, ExpectKey, n.checks);
    PlainApplied(m, spec);
  }

  lemma {:induction false} PlainFromBack(n: Stored, edges: seq<FlowEdge>, m: Fields, spec: Spec)
    requires PlainFits(n, spec) && Recovers(Some(spec), n.data)
    requires NodeTaken(n, m, spec, ReadLinks(n.id, edges), AsDeclared(n.outputs), spec)
    ensures NodeFrom(n.id, m, KindOf(n.data), spec).Some?
    ensures Matches(NodeFrom(n.id, m, KindOf(n.data), spec).value, n, edges)
  {
    var decls := AsDeclared(n.outputs);
    NodeFromBack(n, m, spec, ReadLinks(n.id, edges), decls, spec);
    OutputsDoNotMatter(spec, decls, map[]);
    PlainLowered(n.outputs, spec);
    KeptMatches(NodeFrom(n.id, m, KindOf(n.data), spec).value, n, edges, decls, spec);
  }

  lemma {:induction false} PlainLowered(outputs: seq<Output>, spec: Spec)
    requires outputs != [] ==> OutputsAllowed(spec)
    ensures outputs == if OutputsAllowed(spec) then LowerOutputs(AsDeclared(outputs)) else []
  {
    LowerDeclared(outputs);
  }

  /** A node of any kind but module. */
  lemma {:induction false} PlainNodeBack(n: Stored, edges: seq<FlowEdge>, m: Fields, kind: Yaml, outputs: Part, checks: Part, spec: Spec)
    requires PlainFits(n, spec) && Recovers(Some(spec), n.data) && !n.data.ModuleData? && EdgesNamed(n.id, edges)
    requires OutputsPart(n) == Some(outputs) && ChecksPart(ExpectKey, n.checks) == Some(checks)
    requires NodeFields(n, m, kind, outputs, checks, ReadLinks(n.id, edges))
    requires m.Keys <= {DisplayKey, RunWhenKey, NextKey, OnFailureKey, OutputsKey, ExpectKey, InputsKey, KindOf(n.data)}
    ensures NodeFrom(n.id, m, KindOf(n.data), spec).Some?
    ensures Matches(NodeFrom(n.id, m, KindOf(n.data), spec).value, n, edges)
  {
    PlainTaken(n, edges, m, kind, outputs, checks, spec);
    PlainFromBack(n, edges, m, spec);
  }

  // ---- Modules

  lemma {:induction false} ModuleTextBack(flowId: string)
    requires Uuid(flowId) == Some(flowId)
    ensures ParseSpec(ModuleKey, StrNode(flowId)) == Some(ModuleSpec(flowId, map[], false))
  {
    UuidIsCanonical(flowId);
  }

  ghost function ReadModule(d: Data): Spec
    requires d.ModuleData?
  {
    ModuleSpec(d.flowId, d.inputs, d.bindings != map[])
  }

  ghost function ReadBindings(d: Data): seq<Declared>
    requires d.ModuleData?
  {
    if d.bindings == map[] then [] else BindingOutputs(d.bindings)
  }

  lemma {:induction false} NoBindings(bindings: map<string, string>)
    ensures AsAny(bindings) == map[] <==> bindings == map[]
  {
    if bindings != map[] {
      var k :| k in bindings;
      assert k in AsAny(bindings);
    }
  }

  lemma {:induction false} ModuleOutputsTaken(n: Stored, m: Fields, bare: Spec)
    requires n.data.ModuleData? && bare.ModuleSpec? && CleanBindings(n.data.bindings)
    requires Field(m, OutputsKey) == PairsPart(OutputsKey, AsAny(n.data.bindings)).1
    ensures TakeOutputs(bare, m) == Some(ReadBindings(n.data)) && (OutputsKey in m <==> n.data.bindings != map[])
  {
    NoBindings(n.data.bindings);
    BindingsBack(n.data.bindings, bare);
  }

  lemma {:induction false} ModuleApplied(n: Stored, m: Fields)
    requires n.data.ModuleData? && Survives(Object(n.data.inputs)) && Field(m, InputsKey) == PairsPart(InputsKey, n.data.inputs).1
    requires OutputsKey in m <==> n.data.bindings != map[]
    ensures Applied(ModuleSpec(n.data.flowId, map[], false), m) == Some(ReadModule(n.data))
  {
    ValueBack(Object(n.data.inputs));
  }

  lemma {:induction false} ModuleLowers(d: Data)
    requires d.ModuleData? && Uuid(d.flowId) == Some(d.flowId) && CleanBindings(d.bindings)
    ensures LowerSpec(ReadModule(d), ReadBindings(d), map[]) == Some(d)
  {
    BindingsBack(d.bindings, ReadModule(d));
  }

  lemma {:induction false} ModuleNodeBack(n: Stored, edges: seq<FlowEdge>, m: Fields, kind: Yaml, outputs: Part, checks: Part)
    requires CompiledNode(n) && CleanNode(n) && n.data.ModuleData? && EdgesNamed(n.id, edges)
    requires OutputsPart(n) == Some(outputs) && ChecksPart(ExpectKey, n.checks) == Some(checks) && kind == StrNode(n.data.flowId)
    requires NodeFields(n, m, kind, outputs, checks, ReadLinks(n.id, edges))
    requires m.Keys <= {DisplayKey, RunWhenKey, NextKey, OnFailureKey, OutputsKey, ExpectKey, InputsKey, KindOf(n.data)}
    ensures ParseSpec(ModuleKey, kind).Some? && NodeFrom(n.id, m, ModuleKey, ParseSpec(ModuleKey, kind).value).Some?
    ensures Matches(NodeFrom(n.id, m, ModuleKey, ParseSpec(ModuleKey, kind).value).value, n, edges)
  {
    var bare, spec := ModuleSpec(n.data.flowId, map[], false), ReadModule(n.data);
    var decls, links := ReadBindings(n.data), ReadLinks(n.id, edges);
    ModuleTextBack(n.data.flowId);
    TextsTaken(n, m);
    LinksTaken(m, links);
    ModuleOutputsTaken(n, m, bare);
    ChecksPrint(ExpectKey, n.checks);
    ChecksBack(m, ExpectKey, n.checks);
    ModuleApplied(n, m);
    NodeFromBack(n, m, bare, links, decls, spec);
    ModuleLowers(n.data);
    KeptMatches(NodeFrom(n.id, m, ModuleKey, bare).value, n, edges, decls, spec);
  }

  lemma {:induction false} NodePrints(n: Stored, edges: seq<FlowEdge>) returns (kind: Yaml, outputs: Part, checks: Part)
    requires PrintNode(n, edges).Some?
    ensures PrintData(n.data) == Some(kind) && OutputsPart(n) == Some(outputs) && ChecksPart(ExpectKey, n.checks) == Some(checks)
    ensures outputs.0 == OutputsKey && checks.0 == ExpectKey
    ensures PrintNode(n, edges).value == Mapping(Build(NodeParts(n, kind, outputs, checks, ReadLinks(n.id, edges))))
    ensures n.data.ModuleData? ==> kind == StrNode(n.data.flowId)
  {
    kind, outputs, checks := PrintData(n.data).value, OutputsPart(n).value, ChecksPart(ExpectKey, n.checks).value;
  }

  lemma {:induction false} NodeRead(n: Stored, m: Fields, kind: Yaml, outputs: Part, checks: Part, edges: seq<FlowEdge>)
    requires NodeFields(n, m, kind, outputs, checks, ReadLinks(n.id, edges))
    requires m.Keys <= {DisplayKey, RunWhenKey, NextKey, OnFailureKey, OutputsKey, ExpectKey, InputsKey, KindOf(n.data)}
    ensures TakenKind(m) == Some(KindOf(n.data)) && m[KindOf(n.data)] == kind
  {
    KindsAreKinds(n.data);
    OnlyKind(m, KindOf(n.data));
  }

  /** What a printed node is read as, once what follows its kind word is read. */
  lemma {:induction false} NodePartsBack(n: Stored, edges: seq<FlowEdge>) returns (m: Fields, spec: Spec)
    requires CompiledNode(n) && CleanNode(n) && EdgesNamed(n.id, edges) && PrintNode(n, edges).Some?
    requires n.data.ModuleData? || ComesBack(n.data)
    ensures MappingOf(PrintNode(n, edges).value) == Some(m) && TakenKind(m) == Some(KindOf(n.data))
    ensures ParseSpec(KindOf(n.data), m[KindOf(n.data)]) == Some(spec)
    ensures NodeFrom(n.id, m, KindOf(n.data), spec).Some?
    ensures Matches(NodeFrom(n.id, m, KindOf(n.data), spec).value, n, edges)
  {
    var kind, outputs, checks := NodePrints(n, edges);
    m := NodeBuilt(n, kind, outputs, checks, ReadLinks(n.id, edges));
    NodeCarries(n, m, kind, outputs, checks, ReadLinks(n.id, edges));
    NodeRead(n, m, kind, outputs, checks, edges);
    if n.data.ModuleData? {
      ModuleNodeBack(n, edges, m, kind, outputs, checks);
      spec := ParseSpec(ModuleKey, kind).value;
    } else {
      spec := ParseSpec(KindOf(n.data), kind).value;
      PlainShape(n, spec);
      PlainNodeBack(n, edges, m, kind, outputs, checks, spec);
    }
  }

  lemma {:induction false} NodeParsed(id: string, m: Fields, k: Key, spec: Spec, bound: nat)
    requires TakenKind(m) == Some(k) && ParseSpec(k, m[k]) == Some(spec)
    requires forall f :: f in m ==> Size(m[f]) < bound
    ensures ParseNode(id, m, bound) == NodeFrom(id, m, k, spec)
  {
  }

  /** A printed node is read back, once what follows its kind word is. */
  lemma {:induction false} NodeBack(n: Stored, edges: seq<FlowEdge>) returns (m: Fields)
    requires CompiledNode(n) && CleanNode(n) && EdgesNamed(n.id, edges) && PrintNode(n, edges).Some?
    requires n.data.ModuleData? || ComesBack(n.data)
    ensures MappingOf(PrintNode(n, edges).value) == Some(m)
    ensures forall bound: nat :: (forall k :: k in m ==> Size(m[k]) < bound) ==>
      ParseNode(n.id, m, bound).Some? && Matches(ParseNode(n.id, m, bound).value, n, edges)
  {
    var spec;
    m, spec := NodePartsBack(n, edges);
    forall bound: nat | forall k :: k in m ==> Size(m[k]) < bound
      ensures ParseNode(n.id, m, bound).Some? && Matches(ParseNode(n.id, m, bound).value, n, edges)
    {
      NodeParsed(n.id, m, KindOf(n.data), spec, bound);
    }
  }
}
