/** Exactly which compiled bodies survive being decompiled and compiled again. */
module FlowExact {
  import opened References
  import opened GoText
  import opened Numbers
  import opened Checks
  import opened CheckRoundTrip
  import opened FlowTree
  import opened FlowEdges
  import opened FlowModel
  import opened FlowParse
  import opened FlowLower
  import opened FlowPrint
  import opened FlowShapes
  import opened FlowReadBack
  import opened FlowNodeBack
  import opened FlowRoundTrip
  import opened FlowCompiled
  import FlowPrintable

  // ---- Values that were read back

  lemma {:induction false} AnyReadBack(m: Fields, k: Key, v: Any)
    requires Field(m, k) == ValuePart(k, v).1 && Fits(v) && TakeAny(m, k).Some? && OrNull(TakeAny(m, k).value) == v
    ensures Unrounded(v)
  {
    ValueBack(v);
  }

  lemma {:induction false} PairsReadBack(m: Fields, k: Key, pairs: map<string, Any>)
    requires Field(m, k) == PairsPart(k, pairs).1 && Fits(Object(pairs)) && TakePairs(m, k) == Some(pairs)
    ensures Unrounded(Object(pairs))
  {
    ValueBack(Object(pairs));
  }

  // ---- Checks that were read back

  lemma {:induction false} LineIsClean(c: Check)
    requires CompiledCheck(c) && CheckLine(c).Some? && ExpectItem(StrNode(CheckLine(c).value)) == Some(c)
    ensures CleanCheck(c)
  {
    CheckRoundTripExactly(c);
  }

  lemma {:induction false} LinesAreClean(checks: seq<Check>)
    requires CompiledChecks(checks) && CheckLines(checks).Some? && ExpectItems(Strs(CheckLines(checks).value)) == Some(checks)
    ensures CleanChecks(checks) && |CheckLines(checks).value| == |checks|
  {
    if checks != [] {
      var k := |checks| - 1;
      var front, line := CheckLines(checks[..k]).value, CheckLine(checks[k]).value;
      LinesOfFront(checks, front, line);
      LinesAreClean(checks[..k]);
      LineIsClean(checks[k]);
    }
  }

  lemma {:induction false} LinesOfFront(checks: seq<Check>, front: seq<string>, line: string)
    requires checks != [] && CheckLines(checks[..|checks| - 1]) == Some(front) && CheckLine(checks[|checks| - 1]) == Some(line)
    requires ExpectItems(Strs(front + [line])) == Some(checks)
    ensures ExpectItems(Strs(front)) == Some(checks[..|checks| - 1])
    ensures ExpectItem(StrNode(line)) == Some(checks[|checks| - 1])
  {
    assert Strs(front + [line])[..|front|] == Strs(front);
    assert Strs(front + [line])[|front|] == StrNode(line);
  }

  lemma {:induction false} OneLinePerCheck(checks: seq<Check>)
    requires CheckLines(checks).Some?
    ensures |CheckLines(checks).value| == |checks|
  {
    if checks != [] { OneLinePerCheck(checks[..|checks| - 1]); }
  }

  lemma {:induction false} SoleLine(check: Check)
    requires CheckLines([check]).Some?
    ensures CheckLine(check).Some? && CheckLines([check]).value == [CheckLine(check).value]
  {
    assert [check][..0] == [];
  }

  lemma {:induction false} ReadSoleLine(line: string, checks: seq<Check>)
    requires Expect(StrNode(line)) == Some(checks)
    ensures |checks| == 1 && ExpectItem(StrNode(line)) == Some(checks[0])
  {
  }

  lemma {:induction false} ReadLines(lines: seq<string>, checks: seq<Check>)
    requires Expect(Sequence(Strs(lines))) == Some(checks)
    ensures ExpectItems(Strs(lines)) == Some(checks)
  {
  }

  lemma {:induction false} PrintedChecksAreClean(k: Key, checks: seq<Check>)
    requires CompiledChecks(checks) && ChecksPart(k, checks).Some? && ChecksPart(k, checks).value.1.Some?
    requires Expect(ChecksPart(k, checks).value.1.value) == Some(checks)
    ensures CleanChecks(checks) && checks != []
  {
    var lines := CheckLines(checks).value;
    OneLinePerCheck(checks);
    if |checks| == 1 {
      ReadSoleLine(lines[0], checks);
      assert checks == [checks[0]];
      SoleLine(checks[0]);
      LineIsClean(checks[0]);
    } else {
      ReadLines(lines, checks);
      LinesAreClean(checks);
    }
  }

  lemma {:induction false} ReadChecksAreClean(m: Fields, k: Key, checks: seq<Check>)
    requires CompiledChecks(checks) && ChecksPart(k, checks).Some? && Field(m, k) == ChecksPart(k, checks).value.1
    requires TakeChecks(m, k) == Some(checks)
    ensures CleanChecks(checks) && (k in m ==> checks != [])
  {
    if k in m {
      PrintedChecksAreClean(k, checks);
    } else {
      assert checks == [];
    }
  }

  lemma {:induction false} CaseBuilt(line: string, target: string) returns (m: Fields)
    ensures MappingOf(Mapping(Build([TextPart(WhenKey, line), TextPart(TargetKey, target)]))) == Some(m)
    ensures Field(m, WhenKey) == Some(StrNode(line))
  {
    var parts := [TextPart(WhenKey, line), TextPart(TargetKey, target)];
    BuildRead(parts, {WhenKey, TargetKey});
    m := FieldsOf(Build(parts)).value;
    assert Field(m, parts[0].0) == parts[0].1;
  }

  lemma {:induction false} CaseWhen(m: Fields, line: string)
    requires Field(m, WhenKey) == Some(StrNode(line)) && CaseFrom(m).Some?
    ensures ExpectItem(StrNode(line)) == Some(CaseFrom(m).value.when)
  {
  }

  lemma {:induction false} ReadCaseIsClean(c: Case)
    requires CompiledCase(c) && PrintCase(c).Some? && ParseCase(PrintCase(c).value) == Some(c)
    ensures CleanCheck(c.when)
  {
    var line := CheckLine(c.when).value;
    var m := CaseBuilt(line, c.target);
    CaseWhen(m, line);
    LineIsClean(c.when);
  }

  ghost predicate CompiledCases(cases: seq<Case>) {
    forall i :: 0 <= i < |cases| ==> CompiledCase(cases[i])
  }

  ghost predicate CleanCases(cases: seq<Case>) {
    forall i :: 0 <= i < |cases| ==> CleanCheck(cases[i].when)
  }

  lemma {:induction false} ReadCasesAreClean(cases: seq<Case>)
    requires CompiledCases(cases) && PrintCases(cases).Some? && ParseCases(PrintCases(cases).value) == Some(cases)
    ensures CleanCases(cases) && |PrintCases(cases).value| == |cases|
  {
    if cases != [] {
      PrintOneMoreCase(cases);
      var front, last := PrintCases(cases[..|cases| - 1]).value, PrintCase(cases[|cases| - 1]).value;
      assert (front + [last])[..|front|] == front;
      ReadCasesAreClean(cases[..|cases| - 1]);
      ReadCaseIsClean(cases[|cases| - 1]);
    }
  }

  lemma {:induction false} GroupBuilt(g: Group, checks: Part) returns (m: Fields)
    requires checks.0 == ChecksKey
    ensures MappingOf(Mapping(Build(GroupParts(g, checks)))) == Some(m) && Field(m, ChecksKey) == checks.1
  {
    BuildRead(GroupParts(g, checks), {NameKey, MinKey, MaxKey, ChecksKey});
    m := FieldsOf(Build(GroupParts(g, checks))).value;
    assert Field(m, GroupParts(g, checks)[3].0) == GroupParts(g, checks)[3].1;
  }

  lemma {:induction false} GroupChecks(m: Fields)
    requires GroupFrom(m).Some?
    ensures TakeChecks(m, ChecksKey) == Some(GroupFrom(m).value.checks)
  {
  }

  lemma {:induction false} ReadGroupIsClean(g: Group)
    requires CompiledGroup(g) && PrintGroup(g).Some? && ParseGroup(PrintGroup(g).value) == Some(g)
    ensures CleanChecks(g.checks)
  {
    var checks := ChecksPart(ChecksKey, g.checks).value;
    var m := GroupBuilt(g, checks);
    GroupChecks(m);
    ReadChecksAreClean(m, ChecksKey, g.checks);
  }

  lemma {:induction false} ReadGroupsAreClean(groups: seq<Group>)
    requires CompiledGroups(groups) && PrintGroups(groups).Some? && ParseGroups(PrintGroups(groups).value) == Some(groups)
    ensures CleanGroups(groups) && |PrintGroups(groups).value| == |groups|
  {
    if groups != [] {
      PrintOneMoreGroup(groups);
      var front, last := PrintGroups(groups[..|groups| - 1]).value, PrintGroup(groups[|groups| - 1]).value;
      GroupsOfFront(groups, front, last);
      ReadGroupsAreClean(groups[..|groups| - 1]);
      ReadGroupIsClean(groups[|groups| - 1]);
      GroupsGrow(groups);
    }
  }

  lemma {:induction false} GroupsOfFront(groups: seq<Group>, front: seq<Yaml>, last: Yaml)
    requires groups != [] && ParseGroups(front + [last]) == Some(groups)
    ensures ParseGroups(front) == Some(groups[..|groups| - 1]) && ParseGroup(last) == Some(groups[|groups| - 1])
  {
    assert (front + [last])[..|front|] == front;
  }

  lemma {:induction false} GroupsGrow(groups: seq<Group>)
    requires groups != [] && CleanGroups(groups[..|groups| - 1]) && CleanChecks(groups[|groups| - 1].checks)
    ensures CleanGroups(groups)
  {
    forall i | 0 <= i < |groups| ensures CleanChecks(groups[i].checks) {
      if i < |groups| - 1 { assert groups[..|groups| - 1][i] == groups[i]; }
    }
  }

  // ---- Bindings

  /** Bindings that were read and accepted are names bound to child outputs. */
  lemma {:induction false} ReadBindingsAreClean(outputs: seq<Declared>)
    requires SoundOutputs(outputs) && BindingsShaped(outputs)
    ensures CleanBindings(BindingMap(outputs))
  {
    if outputs != [] {
      var front, last := outputs[..|outputs| - 1], outputs[|outputs| - 1];
      assert SoundOutputs(front) by {
        forall i | 0 <= i < |front| ensures SoundOutput(front[i]) { assert SoundOutput(outputs[i]); }
      }
      ReadBindingsAreClean(front);
      assert SoundOutput(last);
    }
  }

  // ---- Kinds

  /** This was read from what d is printed as, and lowers to d again. */
  ghost predicate ReadsAs(spec: Spec, outputs: seq<Declared>, d: Data) {
    && PrintData(d).Some? && !d.ModuleData? && ParseSpec(KindOf(d), PrintData(d).value) == Some(spec)
    && LowerSpec(spec, outputs, map[]) == Some(d)
  }

  lemma {:induction false} LoweredValues(spec: Spec, outputs: seq<Declared>, d: Data)
    requires LowerSpec(spec, outputs, map[]) == Some(d)
    ensures d.RequestData? ==> spec.RequestSpec? && d.query == spec.query && d.payload == OrNull(spec.payload)
    ensures d.SetData? ==> spec.SetSpec? && d.vars == spec.vars
    ensures d.AssertData? ==> spec.AssertSpec? && d.target == OrNull(spec.target)
    ensures d.OperationData? ==> spec.IntegrationSpec? && spec.event == "" && d.inputs == spec.inputs
  {
  }

  lemma {:induction false} BranchTarget(spec: Spec, outputs: seq<Declared>, d: Data)
    requires LowerSpec(spec, outputs, map[]) == Some(d)
    ensures d.BranchData? ==> spec.BranchSpec? && d.target == OrNull(spec.target)
  {
  }

  lemma {:induction false} RequestValues(m: Fields)
    requires RequestFrom(m).Some?
    ensures RequestFrom(m).value.RequestSpec? && TakePairs(m, QueryKey) == Some(RequestFrom(m).value.query)
    ensures TakeAny(m, BodyKey) == Some(RequestFrom(m).value.payload)
  {
  }

  lemma {:induction false} RequestIsClean(d: Data, spec: Spec, outputs: seq<Declared>)
    requires ReadsAs(spec, outputs, d) && d.RequestData? && Fits(Object(d.query)) && Fits(d.payload)
    ensures CleanData(d)
  {
    var m := RequestBuilt(d);
    var parts := RequestParts(d);
    RequestSpecs(PrintData(d).value);
    LoweredValues(spec, outputs, d);
    RequestValues(m);
    assert Field(m, parts[3].0) == parts[3].1 && Field(m, parts[4].0) == parts[4].1;
    PairsReadBack(m, QueryKey, d.query);
    AnyReadBack(m, BodyKey, d.payload);
  }

  lemma {:induction false} SetIsClean(d: Data, spec: Spec, outputs: seq<Declared>)
    requires ReadsAs(spec, outputs, d) && d.SetData? && Fits(Object(d.vars))
    ensures CleanData(d)
  {
    StepSpecs(PrintData(d).value);
    LoweredValues(spec, outputs, d);
    ValueBack(Object(d.vars));
  }

  lemma {:induction false} AssertIsClean(d: Data, spec: Spec, outputs: seq<Declared>)
    requires ReadsAs(spec, outputs, d) && d.AssertData? && Fits(d.target)
    ensures CleanData(d)
  {
    var parts := [ValuePart(TargetKey, d.target)];
    BuildRead(parts, {TargetKey});
    var m := FieldsOf(Build(parts)).value;
    StepSpecs(PrintData(d).value);
    LoweredValues(spec, outputs, d);
    assert Field(m, parts[0].0) == parts[0].1;
    AnyReadBack(m, TargetKey, d.target);
  }

  lemma {:induction false} OperationValues(m: Fields)
    requires IntegrationFrom(m).Some? && IntegrationFrom(m).value.event == ""
    ensures TakePairs(m, InputsKey) == Some(IntegrationFrom(m).value.inputs)
  {
  }

  lemma {:induction false} OperationIsClean(d: Data, spec: Spec, outputs: seq<Declared>)
    requires ReadsAs(spec, outputs, d) && d.OperationData? && Fits(Object(d.inputs))
    ensures CleanData(d)
  {
    var m := OperationBuilt(d);
    var parts := OperationParts(d);
    IntegrationSpecs(PrintData(d).value);
    LoweredValues(spec, outputs, d);
    OperationValues(m);
    assert Field(m, parts[3].0) == parts[3].1;
    PairsReadBack(m, InputsKey, d.inputs);
  }

  lemma {:induction false} BranchIsClean(d: Data, spec: Spec, outputs: seq<Declared>)
    requires ReadsAs(spec, outputs, d) && d.BranchData? && Fits(d.target) && CompiledCases(d.cases)
    ensures CleanData(d)
  {
    var printed := PrintCases(d.cases).value;
    var m := BranchBuilt(d, printed);
    StepSpecs(PrintData(d).value);
    assert Field(m, BranchParts(d, printed)[1].0) == BranchParts(d, printed)[1].1;
    LoweredKind(spec, outputs, map[]);
    BranchTarget(spec, outputs, d);
    assert Field(m, BranchParts(d, printed)[0].0) == BranchParts(d, printed)[0].1;
    AnyReadBack(m, TargetKey, d.target);
    assert TakeCases(m) == Some(d.cases);
    if printed != [] { ReadCasesAreClean(d.cases); }
  }

  lemma {:induction false} LoweredGroups(spec: Spec, outputs: seq<Declared>, d: Data)
    requires LowerSpec(spec, outputs, map[]) == Some(d)
    ensures d.WebhookData? ==> spec.WebhookSpec? && spec.groups == d.groups
    ensures d.EventData? ==> spec.IntegrationSpec? && spec.groups == d.groups && spec.event != ""
  {
  }

  lemma {:induction false} WebhookIsClean(d: Data, spec: Spec, outputs: seq<Declared>)
    requires ReadsAs(spec, outputs, d) && d.WebhookData? && CompiledGroups(d.groups)
    ensures CleanData(d)
  {
    var printed := PrintGroups(d.groups).value;
    var m := WebhookBuilt(d, printed);
    WebhookSpecs(PrintData(d).value);
    assert Field(m, WebhookParts(d, printed)[2].0) == WebhookParts(d, printed)[2].1;
    LoweredGroups(spec, outputs, d);
    assert TakeGroups(m) == Some(d.groups);
    if printed != [] { ReadGroupsAreClean(d.groups); }
  }

  lemma {:induction false} EventGroups(m: Fields)
    requires IntegrationFrom(m).Some? && IntegrationFrom(m).value.event != ""
    ensures TakeGroups(m) == Some(IntegrationFrom(m).value.groups)
  {
  }

  lemma {:induction false} EventIsClean(d: Data, spec: Spec, outputs: seq<Declared>)
    requires ReadsAs(spec, outputs, d) && d.EventData? && CompiledGroups(d.groups)
    ensures CleanData(d)
  {
    var printed := PrintGroups(d.groups).value;
    var m := EventBuilt(d, printed);
    IntegrationSpecs(PrintData(d).value);
    assert Field(m, EventParts(d, printed)[5].0) == EventParts(d, printed)[5].1;
    LoweredGroups(spec, outputs, d);
    EventGroups(m);
    if printed != [] { ReadGroupsAreClean(d.groups); }
  }

  /** The body nested in a poll or loop was itself read back. */
  ghost predicate BodyReadsBack(b: StoredBody) {
    && PrintBody(b).Some? && ParseBody(PrintBody(b).value).Some?
    && LowerBody(ParseBody(PrintBody(b).value).value, map[]) == Some(b)
  }

  lemma {:induction false} NestedPoll(d: Data, spec: Spec, outputs: seq<Declared>)
    requires ReadsAs(spec, outputs, d) && d.PollData?
    ensures BodyReadsBack(d.body)
  {
    var body := PrintBody(d.body).value;
    var m := PollBuilt(d, body);
    PollSpecs(PrintData(d).value);
    assert Field(m, PollParts(d, body)[3].0) == PollParts(d, body)[3].1;
    assert TakeInline(m, Size(PrintData(d).value)) == ParseBody(body);
    PollBodyKept(m, ParseBody(body).value);
    PollBodyLowered(spec, outputs, d);
  }

  lemma {:induction false} PollBodyKept(m: Fields, body: seq<Written>)
    requires PollFrom(m, body).Some?
    ensures PollFrom(m, body).value.PollSpec? && PollFrom(m, body).value.body == body
  {
  }

  lemma {:induction false} PollBodyLowered(spec: Spec, outputs: seq<Declared>, d: Data)
    requires LowerSpec(spec, outputs, map[]) == Some(d) && d.PollData?
    ensures spec.PollSpec? && LowerBody(spec.body, map[]) == Some(d.body)
  {
  }

  lemma {:induction false} NestedLoop(d: Data, spec: Spec, outputs: seq<Declared>)
    requires ReadsAs(spec, outputs, d) && d.LoopData?
    ensures BodyReadsBack(d.body) && (Fits(d.items) ==> Unrounded(d.items))
  {
    var body := PrintBody(d.body).value;
    var m := LoopBuilt(d, body);
    LoopSpecs(PrintData(d).value);
    assert Field(m, LoopParts(d, body)[5].0) == LoopParts(d, body)[5].1;
    LoopBodyRead(PrintData(d).value, m, body);
    LoopBodyLowered(spec, outputs, d);
    assert Field(m, LoopParts(d, body)[0].0) == LoopParts(d, body)[0].1;
    LoopItems(m, ParseBody(body).value);
    if Fits(d.items) { ValueBack(d.items); }
  }

  lemma {:induction false} LoopItems(m: Fields, body: seq<Written>)
    requires LoopFrom(m, body).Some?
    ensures LoopFrom(m, body).value.LoopSpec? && TakeAny(m, ItemsKey) == Some(Some(LoopFrom(m, body).value.items))
  {
  }

  lemma {:induction false} LoopBodyRead(y: Yaml, m: Fields, body: Yaml)
    requires MappingOf(y) == Some(m) && Field(m, BodyKey) == Some(body) && ParseLoop(y).Some?
    ensures ParseBody(body).Some? && ParseLoop(y).value.LoopSpec? && ParseLoop(y).value.body == ParseBody(body).value
    ensures ParseLoop(y) == LoopFrom(m, ParseBody(body).value)
  {
    assert TakeInline(m, Size(y)) == ParseBody(body);
  }

  lemma {:induction false} LoopBodyLowered(spec: Spec, outputs: seq<Declared>, d: Data)
    requires LowerSpec(spec, outputs, map[]) == Some(d) && d.LoopData?
    ensures spec.LoopSpec? && LowerBody(spec.body, map[]) == Some(d.body) && spec.items == d.items
  {
  }

  lemma {:induction false} PlainIsClean(d: Data, spec: Spec, outputs: seq<Declared>)
    requires ReadsAs(spec, outputs, d) && CompiledData(d)
    requires !d.PollData? && !d.LoopData? && !d.BranchData? && !d.WebhookData? && !d.EventData?
    ensures CleanData(d)
  {
    if d.RequestData? {
      RequestIsClean(d, spec, outputs);
    } else if d.SetData? {
      SetIsClean(d, spec, outputs);
    } else if d.AssertData? {
      AssertIsClean(d, spec, outputs);
    } else if d.OperationData? {
      OperationIsClean(d, spec, outputs);
    }
  }

  lemma {:induction false} DataIsClean(d: Data, spec: Spec, outputs: seq<Declared>)
    requires ReadsAs(spec, outputs, d) && CompiledData(d)
    ensures CleanData(d)
    decreases d, 0
  {
    if d.PollData? {
      NestedPoll(d, spec, outputs);
      BodyIsClean(d.body);
    } else if d.LoopData? {
      NestedLoop(d, spec, outputs);
      BodyIsClean(d.body);
    } else if d.BranchData? {
      BranchIsClean(d, spec, outputs);
    } else if d.WebhookData? {
      WebhookIsClean(d, spec, outputs);
    } else if d.EventData? {
      EventIsClean(d, spec, outputs);
    } else {
      PlainIsClean(d, spec, outputs);
    }
  }

  // ---- Nodes

  /** What a printed node was read as: its kind, its outputs and its checks. */
  lemma {:induction false} NodeReadAs(n: Stored, edges: seq<FlowEdge>) returns (m: Fields)
    requires PrintNode(n, edges).Some?
    ensures MappingOf(PrintNode(n, edges).value) == Some(m) && TakenKind(m) == Some(KindOf(n.data))
    ensures PrintData(n.data) == Some(m[KindOf(n.data)]) && OutputsPart(n).Some?
    ensures Field(m, InputsKey) == InputsPart(n.data).1
    ensures ChecksPart(ExpectKey, n.checks).Some? && Field(m, ExpectKey) == ChecksPart(ExpectKey, n.checks).value.1
  {
    var kind, outputs, checks := NodePrints(n, edges);
    m := NodeBuilt(n, kind, outputs, checks, ReadLinks(n.id, edges));
    NodeCarries(n, m, kind, outputs, checks, ReadLinks(n.id, edges));
    NodeRead(n, m, kind, outputs, checks, edges);
  }

  lemma {:induction false} AssertHadChecks(id: string, m: Fields, kind: Key, bare: Spec)
    requires NodeFrom(id, m, kind, bare).Some? && NodeFrom(id, m, kind, bare).value.spec.AssertSpec?
    ensures ExpectKey in m
  {
  }

  lemma {:induction false} AppliedKeeps(bare: Spec, m: Fields)
    requires Applied(bare, m).Some?
    ensures !bare.ModuleSpec? ==> Applied(bare, m) == Some(bare)
    ensures bare.ModuleSpec? ==> Applied(bare, m).value.ModuleSpec? && Applied(bare, m).value.ref == bare.ref
  {
  }

  lemma {:induction false} ModuleIsClean(w: Written, d: Data)
    requires d.ModuleData? && Unrounded(Object(d.inputs)) && w.spec.ModuleSpec? && Uuid(w.spec.ref).Some? && SoundOutputs(w.outputs)
    requires LowerSpec(w.spec, w.outputs, map[]) == Some(d)
    ensures CleanData(d)
  {
    ReadBindingsAreClean(w.outputs);
  }

  lemma {:induction false} LoweredModule(spec: Spec, outputs: seq<Declared>, d: Data)
    requires LowerSpec(spec, outputs, map[]) == Some(d)
    ensures spec.ModuleSpec? <==> d.ModuleData?
    ensures spec.AssertSpec? <==> d.AssertData?
  {
  }

  lemma {:induction false} NodeIsClean(n: Stored, edges: seq<FlowEdge>, m: Fields, bound: nat)
    requires CompiledNode(n) && PrintNode(n, edges).Some? && MappingOf(PrintNode(n, edges).value) == Some(m)
    requires (forall k :: k in m ==> Size(m[k]) < bound) && ParseNode(n.id, m, bound).Some?
    requires LowerNode(ParseNode(n.id, m, bound).value, map[]) == Some(n)
    ensures CleanNode(n)
    decreases n
  {
    var m' := NodeReadAs(n, edges);
    var kind := KindOf(n.data);
    var bare := ParseSpec(kind, m[kind]).value;
    var w := NodeFromParts(n.id, m, kind, bare);
    ReadChecksAreClean(m, ExpectKey, n.checks);
    LoweredModule(w.spec, w.outputs, n.data);
    if n.data.AssertData? { AssertHadChecks(n.id, m, kind, bare); }
    ReadDataIsClean(n.data, m, bare, w);
    PrintedOutputsAreClean(n);
  }

  lemma {:induction false} PrintedOutputsAreClean(n: Stored)
    requires OutputsPart(n).Some? && (n.outputs != [] ==> StoresOutputs(n.data))
    ensures CleanOutputs(n.outputs)
  {
    FlowPrintable.OutputsPrintExactly(n.outputs);
  }

  lemma {:induction false} ReadDataIsClean(d: Data, m: Fields, bare: Spec, w: Written)
    requires Field(m, InputsKey) == InputsPart(d).1 && CompiledData(d) && PrintData(d).Some? && ParseSpec(KindOf(d), PrintData(d).value) == Some(bare)
    requires TakeOutputs(bare, m) == Some(w.outputs) && Applied(bare, m) == Some(w.spec)
    requires LowerSpec(w.spec, w.outputs, map[]) == Some(d)
    ensures CleanData(d)
    decreases d, 1
  {
    LoweredModule(w.spec, w.outputs, d);
    AppliedKeeps(bare, m);
    if d.ModuleData? {
      ReadModuleIsClean(d, m, bare, w);
    } else {
      DataIsClean(d, w.spec, w.outputs);
    }
  }

  lemma {:induction false} AppliedInputs(bare: Spec, m: Fields, spec: Spec)
    requires bare.ModuleSpec? && bare.inputs == map[] && Applied(bare, m) == Some(spec)
    ensures spec.ModuleSpec? && TakePairs(m, InputsKey) == Some(spec.inputs)
  {
  }

  lemma {:induction false} LoweredInputs(spec: Spec, outputs: seq<Declared>, d: Data)
    requires LowerSpec(spec, outputs, map[]) == Some(d) && spec.ModuleSpec?
    ensures d.ModuleData? && d.inputs == spec.inputs
  {
  }

  lemma {:induction false} ReadModuleIsClean(d: Data, m: Fields, bare: Spec, w: Written)
    requires d.ModuleData? && Field(m, InputsKey) == PairsPart(InputsKey, d.inputs).1 && Fits(Object(d.inputs))
    requires Uuid(d.flowId) == Some(d.flowId) && ParseSpec(ModuleKey, StrNode(d.flowId)) == Some(bare)
    requires TakeOutputs(bare, m) == Some(w.outputs) && Applied(bare, m) == Some(w.spec)
    requires LowerSpec(w.spec, w.outputs, map[]) == Some(d)
    ensures CleanData(d)
  {
    TakenOutputsSound(bare, m);
    ModuleTextBack(d.flowId);
    AppliedKeeps(bare, m);
    AppliedInputs(bare, m, w.spec);
    LoweredInputs(w.spec, w.outputs, d);
    PairsReadBack(m, InputsKey, d.inputs);
    ModuleIsClean(w, d);
  }

  // ---- Bodies

  lemma {:induction false} ParsedOneMore(entries: seq<Entry>, e: Entry)
    requires ParseEntries(entries + [e]).Some?
    ensures ParseEntries(entries).Some? && MappingOf(e.value).Some?
    ensures ParseNode(KeyText(e.key), MappingOf(e.value).value, Size(e.value)).Some?
    ensures ParseEntries(entries + [e]).value ==
      ParseEntries(entries).value + [ParseNode(KeyText(e.key), MappingOf(e.value).value, Size(e.value)).value]
  {
    assert (entries + [e])[..|entries|] == entries;
  }

  lemma {:induction false} LoweredOneMore(nodes: seq<Written>, w: Written)
    requires LowerNodes(nodes + [w], map[]).Some?
    ensures LowerNodes(nodes, map[]).Some? && LowerNode(w, map[]).Some?
    ensures LowerNodes(nodes + [w], map[]).value == LowerNodes(nodes, map[]).value + [LowerNode(w, map[]).value]
  {
    assert (nodes + [w])[..|nodes|] == nodes;
  }

  lemma {:induction false} NodesAreClean(nodes: seq<Stored>, edges: seq<FlowEdge>)
    requires PrintNodes(nodes, edges).Some? && ParseEntries(PrintNodes(nodes, edges).value).Some?
    requires LowerNodes(ParseEntries(PrintNodes(nodes, edges).value).value, map[]) == Some(nodes)
    requires forall i :: 0 <= i < |nodes| ==> CompiledNode(nodes[i])
    ensures forall i :: 0 <= i < |nodes| ==> CleanNode(nodes[i])
    decreases nodes, 0
  {
    if nodes != [] {
      var front, last := nodes[..|nodes| - 1], nodes[|nodes| - 1];
      PrintOneMoreNode(nodes, edges);
      var entries, e := PrintNodes(front, edges).value, Entry(KeyOf(last.id), PrintNode(last, edges).value);
      ParsedOneMore(entries, e);
      var m := MappingOf(e.value).value;
      LoweredOneMore(ParseEntries(entries).value, ParseNode(last.id, m, Size(e.value)).value);
      NodesAreClean(front, edges);
      NodeIsClean(last, edges, m, Size(e.value));
    }
  }

  lemma {:induction false} BodyRead(b: StoredBody)
    requires BodyReadsBack(b)
    ensures PrintNodes(b.nodes, b.edges).Some? && ParseEntries(PrintNodes(b.nodes, b.edges).value).Some?
    ensures LowerNodes(ParseEntries(PrintNodes(b.nodes, b.edges).value).value, map[]) == Some(b.nodes)
  {
    BodyPrints(b);
    var entries, y := PrintNodes(b.nodes, b.edges).value, PrintBody(b).value;
    NodesKeyBuilt(Mapping(entries));
    BodyEntries(y, entries);
    LoweredFromBody(ParseBody(y).value, b);
  }

  lemma {:induction false} BodyEntries(y: Yaml, entries: seq<Entry>)
    requires MappingOf(y) == Some(map[NodesKey := Mapping(entries)]) && ParseBody(y).Some?
    ensures ParseEntries(entries) == ParseBody(y)
  {
    TopologyRead(entries, Size(y));
  }

  lemma {:induction false} BodyPrints(b: StoredBody)
    requires PrintBody(b).Some?
    ensures PrintNodes(b.nodes, b.edges).Some?
    ensures PrintBody(b).value == Mapping(Build([(NodesKey, Some(Mapping(PrintNodes(b.nodes, b.edges).value)))]))
  {
  }

  lemma {:induction false} TopologyRead(entries: seq<Entry>, bound: nat)
    requires Size(Mapping(entries)) < bound && ParseTopology(map[NodesKey := Mapping(entries)], bound).Some?
    ensures ParseTopology(map[NodesKey := Mapping(entries)], bound) == ParseEntries(entries)
  {
    var m := map[NodesKey := Mapping(entries)];
    assert NodesKey in m && StepsKey !in m;
  }

  lemma {:induction false} LoweredFromBody(nodes: seq<Written>, b: StoredBody)
    requires LowerBody(nodes, map[]) == Some(b)
    ensures LowerNodes(nodes, map[]) == Some(b.nodes)
  {
  }

  lemma {:induction false} BodyIsClean(b: StoredBody)
    requires CompiledBody(b) && BodyReadsBack(b)
    ensures CleanBody(b)
    decreases b
  {
    BodyRead(b);
    NodesAreClean(b.nodes, b.edges);
  }

  /**
   * The fixed point, exactly: a compiled body is printed and comes back as itself if and only if no check value ends
   * in a line break, every number is one a float64 holds, no bound of a check prints as another number, every assert
   * has a check, every path and header of an output is named, and every module output is a name bound to a child output.
   */
  lemma {:induction false} FixedPointExactly(b: StoredBody)
    requires CompiledBody(b)
    ensures CleanBody(b) <==> BodyReadsBack(b)
  {
    if CleanBody(b) {
      FlowPrintable.BodyPrints(b);
      BodyBack(b);
    }
    if BodyReadsBack(b) { BodyIsClean(b); }
  }

  /** For every file: what it compiles to is a fixed point of decompiling and compiling, exactly when it is clean. */
  lemma {:induction false} CompileDecompileCompile(y: Yaml, library: Library)
    requires ParseBody(y).Some? && LowerBody(ParseBody(y).value, library).Some?
    ensures var b := LowerBody(ParseBody(y).value, library).value; CleanBody(b) <==> BodyReadsBack(b)
  {
    EveryCompiledBody(y, library);
    FixedPointExactly(LowerBody(ParseBody(y).value, library).value);
  }

  // ---- A number that is lost

  /** A body with one node, which sets a variable to a whole number. */
  function SetBody(n: int): StoredBody {
    StoredBody([Stored("a", "a", false, [], [], SetData(map["n" := Number(n)]))], [])
  }

  lemma {:induction false} SetDataIsCompiled(n: int)
    requires FitsInt(n)
    ensures CompiledData(SetData(map["n" := Number(n)]))
  {
    var vars := map["n" := Number(n)];
    assert "n" in vars && vars.Keys == {"n"} && Fits(Number(n));
    assert Fits(Object(vars)) by {
      forall k | k in vars ensures Fits(vars[k]) { assert k == "n"; }
    }
  }

  lemma {:induction false} SetBodyIsCompiled(n: int)
    requires FitsInt(n)
    ensures CompiledBody(SetBody(n))
  {
    var b := SetBody(n);
    var links := Reread(StoredLinks(b.nodes), b.edges);
    assert Wanted(links[0]) == [] && links[..0] == [];
    assert AllWanted(links[..0]) == [] && AllWanted(links) == [];
    assert CompiledEdges(b);
    SetDataIsCompiled(n);
    assert CompiledNode(b.nodes[0]);
  }

  /** Its number is kept exactly when a float64 holds it. */
  lemma {:induction false} SetBodyReadsBack(n: int)
    requires FitsInt(n)
    ensures BodyReadsBack(SetBody(n)) <==> ExactDouble(n)
  {
    SetBodyIsCompiled(n);
    FixedPointExactly(SetBody(n));
    var node := SetBody(n).nodes[0];
    assert CleanData(node.data) <==> ExactDouble(n) by {
      assert Unrounded(node.data.vars["n"]) <==> ExactDouble(n);
      assert node.data.vars.Keys == {"n"};
    }
    assert CleanBody(SetBody(n)) <==> CleanNode(node);
  }

  /** The first whole number that decompiling and compiling again changes. */
  lemma {:induction false} FirstLostBody()
    ensures CompiledBody(SetBody(9007199254740993)) && !BodyReadsBack(SetBody(9007199254740993))
    ensures BodyReadsBack(SetBody(9007199254740992))
  {
    FirstLostNumber();
    SetBodyIsCompiled(9007199254740993);
    SetBodyReadsBack(9007199254740993);
    SetBodyReadsBack(9007199254740992);
    assert ExactDouble(9007199254740992) by { NearestIsExact(Precision + 1); }
  }
}
