/** Every file that compiles gives a body of the compiled shape. */
module FlowCompiled {
  import opened References
  import opened GoText
  import opened Checks
  import opened CheckRoundTrip
  import opened FlowTree
  import opened FlowEdges
  import opened FlowModel
  import opened FlowParse
  import opened FlowLower
  import opened FlowPrint
  import opened FlowShapes

  // ---- What reading establishes

  predicate SoundVerb(s: string) { TrimSpace(s) == s && (s == "" || IsHttpMethod(Upper(s))) }

  ghost predicate FitsOption(v: Option<Any>) { v.Some? ==> Fits(v.value) }

  ghost predicate SoundSpec(spec: Spec)
    decreases spec
  {
    match spec
    case RequestSpec(verb, url, _, query, payload, timeout) =>
      SoundVerb(verb) && Trimmed(url) && Fits(Object(query)) && FitsOption(payload) && Positive(timeout)
    case ModuleSpec(_, inputs, _) => Fits(Object(inputs))
    case DelaySpec(ms) => ms > 0 && FitsInt(ms)
    case SetSpec(vars) => vars != map[] && Fits(Object(vars))
    case AssertSpec(target) => FitsOption(target)
    case BranchSpec(target, cases, fallback) =>
      && FitsOption(target) && (cases != [] || fallback.Some?) && (fallback.Some? ==> Trimmed(fallback.value))
      && SoundCases(cases)
    case PollSpec(maxAttempts, interval, timeout, body) =>
      Positive(maxAttempts) && Positive(interval) && Positive(timeout) && SoundBody(body)
    case LoopSpec(items, itemVar, indexVar, max, _, body) =>
      Fits(items) && TrimSpace(itemVar) == itemVar && TrimSpace(indexVar) == indexVar && NonNegative(max) && SoundBody(body)
    case WebhookSpec(timeout, settle, groups) => Positive(timeout) && NonNegative(settle) && CompiledGroups(groups)
    case SseSpec(url, verb, _, timeout, maxEvents, completion, _) =>
      && Trimmed(url) && SoundVerb(verb) && Positive(timeout) && Positive(maxEvents)
      && (completion.Some? ==> Trimmed(completion.value))
    case IntegrationSpec(ref, operation, event, inputs, timeout, settle, groups) =>
      && Trimmed(ref) && Fits(Object(inputs)) && Positive(timeout) && NonNegative(settle) && CompiledGroups(groups)
      && TrimSpace(operation) == operation && TrimSpace(event) == event && ((operation == "") != (event == ""))
  }

  ghost predicate SoundCases(cases: seq<Case>) {
    forall i :: 0 <= i < |cases| ==> CompiledCase(cases[i])
  }

  predicate SoundOutputs(outputs: seq<Declared>) {
    && (forall i :: 0 <= i < |outputs| ==> SoundOutput(outputs[i]))
    && (forall i, j :: 0 <= i < j < |outputs| ==> outputs[i].name != outputs[j].name)
  }

  predicate SoundOutput(d: Declared) {
    ValidId(d.name) && (d.source.Extracted? && d.source.extractor.BodyOf? ==> !d.secret)
  }

  ghost predicate SoundNode(w: Written)
    decreases w
  {
    && ValidId(w.id) && w.display != "" && CompiledChecks(w.checks) && SoundOutputs(w.outputs) && SoundSpec(w.spec)
    && (w.spec.IntegrationSpec? && w.spec.event != "" ==> !HasStatusCheck(w.checks))
  }

  ghost predicate SoundBody(nodes: seq<Written>)
    decreases nodes
  {
    && nodes != [] && DistinctIds(AllLinks(nodes))
    && forall i :: 0 <= i < |nodes| ==> SoundNode(nodes[i])
  }

  // ---- Values

  lemma {:induction false} DecodeFits(y: Yaml)
    requires Decode(y).Some?
    ensures Fits(Decode(y).value)
  {
    match y
    case Scalar(_, _) =>
    case Sequence(items) => DecodeItemsFit(items);
    case Mapping(entries) => DecodeEntriesFit(entries);
  }

  lemma {:induction false} DecodeItemsFit(items: seq<Yaml>)
    requires DecodeItems(items).Some?
    ensures forall i :: 0 <= i < |DecodeItems(items).value| ==> Fits(DecodeItems(items).value[i])
  {
    if items != [] {
      DecodeItemsFit(items[..|items| - 1]);
      DecodeFits(items[|items| - 1]);
    }
  }

  lemma {:induction false} DecodeEntriesFit(entries: seq<Entry>)
    requires DecodeEntries(entries).Some?
    ensures forall k :: k in DecodeEntries(entries).value ==> Fits(DecodeEntries(entries).value[k])
  {
    if entries != [] {
      DecodeEntriesFit(entries[..|entries| - 1]);
      DecodeEntryFits(entries[|entries| - 1]);
    }
  }

  lemma {:induction false} DecodeEntryFits(e: Entry)
    requires DecodeEntry(e).Some?
    ensures Fits(DecodeEntry(e).value)
  {
    DecodeFits(e.value);
  }

  lemma {:induction false} PairsFit(y: Yaml)
    requires Pairs(y).Some?
    ensures Fits(Object(Pairs(y).value))
  {
    DecodeEntriesFit(y.entries);
  }

  lemma {:induction false} TakenPairsFit(m: Fields, k: Key)
    requires TakePairs(m, k).Some?
    ensures Fits(Object(TakePairs(m, k).value))
  {
    if k in m { PairsFit(m[k]); }
  }

  lemma {:induction false} TakenAnyFits(m: Fields, k: Key)
    requires TakeAny(m, k).Some?
    ensures FitsOption(TakeAny(m, k).value)
  {
    if k in m { DecodeFits(m[k]); }
  }

  lemma {:induction false} TakenPositive(m: Fields, k: Key)
    requires TakePositive(m, k).Some?
    ensures Positive(TakePositive(m, k).value)
  {
  }

  lemma {:induction false} TakenNonNegative(m: Fields, k: Key)
    requires TakeNonNegative(m, k).Some?
    ensures NonNegative(TakeNonNegative(m, k).value)
  {
  }

  lemma {:induction false} Trims(s: string)
    ensures TrimSpace(s) != "" ==> Trimmed(TrimSpace(s))
    ensures TrimSpace(TrimSpace(s)) == TrimSpace(s)
  {
    TrimSpaceIdempotent(s);
  }

  // ---- Checks

  lemma {:induction false} ItemCompiles(y: Yaml)
    requires ExpectItem(y).Some?
    ensures CompiledCheck(ExpectItem(y).value)
  {
    if y.Scalar? {
      OnlyReadableIsRead(y.text);
    } else {
      PaddedStatusCompiles(MappingOf(y).value[StatusKey].text);
    }
  }

  lemma {:induction false} ItemsCompile(items: seq<Yaml>)
    requires ExpectItems(items).Some?
    ensures CompiledChecks(ExpectItems(items).value)
  {
    if items != [] {
      ItemsCompile(items[..|items| - 1]);
      ItemCompiles(items[|items| - 1]);
    }
  }

  lemma {:induction false} ChecksCompile(m: Fields, k: Key)
    requires TakeChecks(m, k).Some?
    ensures CompiledChecks(TakeChecks(m, k).value)
  {
    if k in m {
      if m[k].Sequence? { ItemsCompile(m[k].items); } else { ItemCompiles(m[k]); }
    }
  }

  lemma {:induction false} CaseCompiles(y: Yaml)
    requires ParseCase(y).Some?
    ensures CompiledCase(ParseCase(y).value)
  {
    var m := MappingOf(y).value;
    ItemCompiles(m[WhenKey]);
    Trims(TakeText(m, TargetKey).value);
  }

  lemma {:induction false} CasesCompile(items: seq<Yaml>)
    requires ParseCases(items).Some?
    ensures SoundCases(ParseCases(items).value)
  {
    if items != [] {
      CasesCompile(items[..|items| - 1]);
      CaseCompiles(items[|items| - 1]);
    }
  }

  lemma {:induction false} GroupCompiles(y: Yaml)
    requires ParseGroup(y).Some?
    ensures CompiledGroup(ParseGroup(y).value)
  {
    var m := MappingOf(y).value;
    TakenNonNegative(m, MinKey);
    TakenNonNegative(m, MaxKey);
    ChecksCompile(m, ChecksKey);
    Trims(TakeText(m, NameKey).value);
  }

  lemma {:induction false} GroupListCompiles(items: seq<Yaml>)
    requires ParseGroups(items).Some?
    ensures CompiledGroups(ParseGroups(items).value)
  {
    if items != [] {
      GroupListCompiles(items[..|items| - 1]);
      GroupCompiles(items[|items| - 1]);
    }
  }

  lemma {:induction false} GroupsCompile(m: Fields)
    requires TakeGroups(m).Some?
    ensures CompiledGroups(TakeGroups(m).value)
  {
    if ExpectKey in m { GroupListCompiles(m[ExpectKey].items); }
  }

  // ---- Kinds

  lemma {:induction false} RequestSound(m: Fields)
    requires RequestFrom(m).Some?
    ensures SoundSpec(RequestFrom(m).value)
  {
    Trims(TakeText(m, MethodKey).value);
    Trims(TakeText(m, UrlKey).value);
    TakenPairsFit(m, QueryKey);
    TakenAnyFits(m, BodyKey);
    TakenPositive(m, TimeoutKey);
  }

  lemma {:induction false} DelaySound(y: Yaml)
    requires ParseDelay(y).Some?
    ensures SoundSpec(ParseDelay(y).value)
  {
    if AsInt(y).None? { TakenPositive(MappingOf(y).value, DurationKey); }
  }

  lemma {:induction false} BranchSound(m: Fields)
    requires BranchFrom(m).Some?
    ensures SoundSpec(BranchFrom(m).value)
  {
    TakenAnyFits(m, TargetKey);
    if CasesKey in m { CasesCompile(m[CasesKey].items); }
    if DefaultKey in m { Trims(m[DefaultKey].text); }
  }

  lemma {:induction false} WebhookSound(m: Fields)
    requires WebhookFrom(m).Some?
    ensures SoundSpec(WebhookFrom(m).value)
  {
    TakenPositive(m, TimeoutKey);
    TakenNonNegative(m, SettleKey);
    GroupsCompile(m);
  }

  lemma {:induction false} SseSound(m: Fields)
    requires SseFrom(m).Some?
    ensures SoundSpec(SseFrom(m).value)
  {
    Trims(TakeText(m, MethodKey).value);
    Trims(TakeText(m, UrlKey).value);
    TakenPositive(m, TimeoutKey);
    TakenPositive(m, MaxEventsKey);
    if CompletionKey in m { Trims(m[CompletionKey].text); }
  }

  lemma {:induction false} IntegrationSound(m: Fields)
    requires IntegrationFrom(m).Some?
    ensures SoundSpec(IntegrationFrom(m).value)
  {
    Trims(TakeText(m, IdKey).value);
    Trims(TakeText(m, OperationKey).value);
    Trims(TakeText(m, EventKey).value);
    TakenPositive(m, TimeoutKey);
    assert TrimSpace("") == "";
    if TrimSpace(TakeText(m, EventKey).value) != "" {
      TakenNonNegative(m, SettleKey);
      GroupsCompile(m);
    } else {
      TakenPairsFit(m, InputsKey);
    }
  }

  lemma {:induction false} FlatSound(kind: Key, y: Yaml)
    requires IsKind(kind) && kind != PollKey && kind != LoopKey && ParseSpec(kind, y).Some?
    ensures SoundSpec(ParseSpec(kind, y).value)
  {
    match kind
    case RequestKey => RequestSound(MappingOf(y).value);
    case ModuleKey =>
    case DelayKey => DelaySound(y);
    case SetKey => PairsFit(y);
    case AssertKey => TakenAnyFits(MappingOf(y).value, TargetKey);
    case BranchKey => BranchSound(MappingOf(y).value);
    case WebhookKey => WebhookSound(MappingOf(y).value);
    case SseKey => SseSound(MappingOf(y).value);
    case IntegrationKey => IntegrationSound(MappingOf(y).value);
  }

  // ---- Outputs

  lemma {:induction false} OneOutputSound(spec: Spec, name: string, y: Yaml)
    requires ValidId(name) && OneOutput(spec, name, y).Some?
    ensures SoundOutput(OneOutput(spec, name, y).value) && OneOutput(spec, name, y).value.name == name
    ensures OneOutput(spec, name, y).value.source.Binding? <==> spec.ModuleSpec?
  {
  }

  lemma {:induction false} OutputsSound(spec: Spec, entries: seq<Entry>)
    requires Outputs(spec, entries).Some?
    ensures SoundOutputs(Outputs(spec, entries).value)
    ensures forall i :: 0 <= i < |Outputs(spec, entries).value| ==> (Outputs(spec, entries).value[i].source.Binding? <==> spec.ModuleSpec?)
  {
    if entries != [] {
      var last := entries[|entries| - 1];
      OutputsSound(spec, entries[..|entries| - 1]);
      OneOutputSound(spec, KeyText(last.key), last.value);
    }
  }

  // ---- Nodes

  lemma {:induction false} AppliedSound(bare: Spec, m: Fields)
    requires SoundSpec(bare) && Applied(bare, m).Some?
    ensures SoundSpec(Applied(bare, m).value)
  {
    if InputsKey in m { PairsFit(m[InputsKey]); }
  }

  lemma {:induction false} TakenOutputsSound(spec: Spec, m: Fields)
    requires TakeOutputs(spec, m).Some?
    ensures SoundOutputs(TakeOutputs(spec, m).value)
  {
    if OutputsKey in m { OutputsSound(spec, m[OutputsKey].entries); }
  }

  /** What a node is made of when it is read. */
  lemma {:induction false} NodeFromParts(id: string, m: Fields, kind: Key, bare: Spec) returns (w: Written)
    requires NodeFrom(id, m, kind, bare).Some?
    ensures NodeFrom(id, m, kind, bare) == Some(w) && ValidId(w.id) && w.display != ""
    ensures TakeOutputs(bare, m) == Some(w.outputs) && TakeChecks(m, ExpectKey) == Some(w.checks) && Applied(bare, m) == Some(w.spec)
    ensures w.spec.IntegrationSpec? && w.spec.event != "" ==> !HasStatusCheck(w.checks)
  {
    w := NodeFrom(id, m, kind, bare).value;
  }

  lemma {:induction false} NodeFromSound(id: string, m: Fields, kind: Key, bare: Spec)
    requires SoundSpec(bare) && NodeFrom(id, m, kind, bare).Some?
    ensures SoundNode(NodeFrom(id, m, kind, bare).value)
  {
    var w := NodeFromParts(id, m, kind, bare);
    TakenOutputsSound(bare, m);
    ChecksCompile(m, ExpectKey);
    AppliedSound(bare, m);
  }

  lemma {:induction false} NodeSound(id: string, m: Fields, bound: nat)
    requires (forall k :: k in m ==> Size(m[k]) < bound) && ParseNode(id, m, bound).Some?
    ensures SoundNode(ParseNode(id, m, bound).value)
    decreases bound, 0
  {
    var kind := TakenKind(m).value;
    SpecSound(kind, m[kind]);
    NodeFromSound(id, m, kind, ParseSpec(kind, m[kind]).value);
  }

  lemma {:induction false} SpecSound(kind: Key, y: Yaml)
    requires IsKind(kind) && ParseSpec(kind, y).Some?
    ensures SoundSpec(ParseSpec(kind, y).value)
    decreases Size(y), 3
  {
    if kind == PollKey {
      PollSound(y);
    } else if kind == LoopKey {
      LoopSound(y);
    } else {
      FlatSound(kind, y);
    }
  }

  lemma {:induction false} PollFromSound(m: Fields, body: seq<Written>)
    requires PollFrom(m, body).Some? && SoundBody(body)
    ensures SoundSpec(PollFrom(m, body).value)
  {
    TakenPositive(m, MaxAttemptsKey);
    TakenPositive(m, IntervalKey);
    TakenPositive(m, TimeoutKey);
  }

  lemma {:induction false} LoopFromSound(m: Fields, body: seq<Written>)
    requires LoopFrom(m, body).Some? && SoundBody(body)
    ensures SoundSpec(LoopFrom(m, body).value)
  {
    TakenAnyFits(m, ItemsKey);
    TakenNonNegative(m, MaxIterationsKey);
    Trims(TakeText(m, ItemVarKey).value);
    Trims(TakeText(m, IndexVarKey).value);
  }

  lemma {:induction false} PollSound(y: Yaml)
    requires ParsePoll(y).Some?
    ensures SoundSpec(ParsePoll(y).value)
    decreases Size(y), 2
  {
    var m := MappingOf(y).value;
    InlineSound(m, Size(y));
    PollFromSound(m, TakeInline(m, Size(y)).value);
  }

  lemma {:induction false} LoopSound(y: Yaml)
    requires ParseLoop(y).Some?
    ensures SoundSpec(ParseLoop(y).value)
    decreases Size(y), 2
  {
    var m := MappingOf(y).value;
    InlineSound(m, Size(y));
    LoopFromSound(m, TakeInline(m, Size(y)).value);
  }

  lemma {:induction false} InlineSound(m: Fields, bound: nat)
    requires (forall k :: k in m ==> Size(m[k]) < bound) && TakeInline(m, bound).Some?
    ensures SoundBody(TakeInline(m, bound).value)
    decreases bound, 1
  {
    if BodyKey in m { BodySound(m[BodyKey]); } else { TopologySound(m, bound); }
  }

  /** What is read as a body is a sound body. */
  lemma {:induction false} BodySound(y: Yaml)
    requires ParseBody(y).Some?
    ensures SoundBody(ParseBody(y).value)
    decreases Size(y), 3
  {
    TopologySound(MappingOf(y).value, Size(y));
  }

  ghost predicate AllSound(nodes: seq<Written>) {
    forall i :: 0 <= i < |nodes| ==> SoundNode(nodes[i])
  }

  lemma {:induction false} LinkedStepsSound(nodes: seq<Written>)
    requires AllSound(nodes) && DistinctIds(AllLinks(nodes))
    ensures AllSound(LinkSteps(nodes)) && DistinctIds(AllLinks(LinkSteps(nodes)))
  {
    forall i | 0 <= i < |nodes| ensures SoundNode(LinkSteps(nodes)[i]) && AllLinks(LinkSteps(nodes))[i].id == AllLinks(nodes)[i].id {
      assert SoundNode(nodes[i]);
    }
  }

  lemma {:induction false} TopologySound(m: Fields, bound: nat)
    requires (forall k :: k in m ==> Size(m[k]) < bound) && ParseTopology(m, bound).Some?
    ensures SoundBody(ParseTopology(m, bound).value)
    decreases bound, 0
  {
    if NodesKey in m {
      EntriesSound(m[NodesKey].entries);
    } else {
      StepsSound(m[StepsKey].items);
      LinkedStepsSound(ParseItems(m[StepsKey].items).value);
    }
  }

  lemma {:induction false} EntriesSound(entries: seq<Entry>)
    requires ParseEntries(entries).Some?
    ensures AllSound(ParseEntries(entries).value)
    decreases SizeOfEntries(entries), 0
  {
    if entries != [] {
      var last := entries[|entries| - 1];
      assert SizeOfEntry(last) == 1 + Size(last.value);
      EntriesSound(entries[..|entries| - 1]);
      NodeSound(KeyText(last.key), MappingOf(last.value).value, Size(last.value));
    }
  }

  lemma {:induction false} StepsSound(items: seq<Yaml>)
    requires ParseItems(items).Some?
    ensures AllSound(ParseItems(items).value)
    decreases SizeOfItems(items), 0
  {
    if items != [] {
      var last := items[|items| - 1];
      var m := MappingOf(last).value;
      StepsSound(items[..|items| - 1]);
      NodeSound(TrimSpace(m[IdKey].text), m - {IdKey}, Size(last));
    }
  }

  // ---- Lowering

  lemma {:induction false} VerbLowers(verb: string)
    requires SoundVerb(verb)
    ensures Verb(Upper(verb))
  {
    UpperTwice(verb);
    UpperStaysTrimmed(verb);
    assert verb == "" ==> Upper(verb) == "";
  }

  lemma {:induction false} BindingsFilled(outputs: seq<Declared>)
    ensures forall k :: k in BindingMap(outputs) ==> BindingMap(outputs)[k] != ""
  {
    if outputs != [] { BindingsFilled(outputs[..|outputs| - 1]); }
  }

  lemma {:induction false} ModuleCompiled(ref: string, inputs: map<string, Any>, explicit: bool, outputs: seq<Declared>, library: Library)
    requires Fits(Object(inputs)) && LowerModule(ref, inputs, explicit, outputs, library).Some?
    ensures CompiledData(LowerModule(ref, inputs, explicit, outputs, library).value)
  {
    BindingsFilled(outputs);
    if Uuid(ref).Some? {
      UuidIsCanonical(ref);
    } else {
      UuidIsCanonical(TrimSpace(library[ref].id));
    }
  }

  lemma {:induction false} SpecCompiled(spec: Spec, outputs: seq<Declared>, library: Library)
    requires SoundSpec(spec) && LowerSpec(spec, outputs, library).Some?
    ensures CompiledData(LowerSpec(spec, outputs, library).value)
    decreases spec, 0
  {
    match spec
    case RequestSpec(verb, _, _, _, _, _) => VerbLowers(verb);
    case SseSpec(_, verb, _, _, _, _, _) => VerbLowers(verb);
    case ModuleSpec(ref, inputs, explicit) => ModuleCompiled(ref, inputs, explicit, outputs, library);
    case PollSpec(_, _, _, body) => BodyCompiled(body, library);
    case LoopSpec(_, _, _, _, _, body) => BodyCompiled(body, library);
    case _ =>
  }

  lemma {:induction false} OutputsCompiled(outputs: seq<Declared>)
    requires SoundOutputs(outputs)
    ensures CompiledOutputs(LowerOutputs(outputs))
  {
    forall i | 0 <= i < |outputs|
      ensures ValidId(LowerOutputs(outputs)[i].name)
      ensures LowerOutputs(outputs)[i].extractor.BodyOf? ==> !LowerOutputs(outputs)[i].secret
    {
      assert SoundOutput(outputs[i]);
    }
  }

  /** What lowering leaves of a kind, as far as its node depends on it. */
  lemma {:induction false} LoweredKind(spec: Spec, outputs: seq<Declared>, library: Library)
    requires LowerSpec(spec, outputs, library).Some?
    ensures var d := LowerSpec(spec, outputs, library).value;
      && (d.EventData? <==> spec.IntegrationSpec? && spec.event != "") && (d.BranchData? <==> spec.BranchSpec?)
      && (spec.BranchSpec? ==> d.cases == spec.cases && d.fallback == spec.fallback)
      && (OutputsAllowed(spec) && !spec.ModuleSpec? <==> StoresOutputs(d))
  {
  }

  lemma {:induction false} NodeCompiled(w: Written, library: Library)
    requires SoundNode(w) && LowerNode(w, library).Some?
    ensures CompiledNode(LowerNode(w, library).value)
    decreases w, 0
  {
    SpecCompiled(w.spec, w.outputs, library);
    OutputsCompiled(w.outputs);
    LoweredKind(w.spec, w.outputs, library);
    assert CompiledOutputs([]);
  }

  lemma {:induction false} LoweredLinks(w: Written, library: Library)
    requires LowerNode(w, library).Some?
    ensures LowerNode(w, library).value.id == w.id && BranchTargets(LowerNode(w, library).value) == LinksOf(w).branch
  {
    LoweredKind(w.spec, w.outputs, library);
  }

  /** A stored node keeps the id and the branch targets of the written one. */
  ghost predicate StandsFor(n: Stored, w: Written) {
    CompiledNode(n) && n.id == w.id && BranchTargets(n) == LinksOf(w).branch
  }

  ghost predicate AllStandFor(stored: seq<Stored>, nodes: seq<Written>) {
    |stored| == |nodes| && forall i :: 0 <= i < |nodes| ==> StandsFor(stored[i], nodes[i])
  }

  lemma {:induction false} OneMoreStands(stored: seq<Stored>, nodes: seq<Written>, n: Stored, w: Written)
    requires AllStandFor(stored, nodes) && StandsFor(n, w)
    ensures AllStandFor(stored + [n], nodes + [w])
  {
    forall i | 0 <= i < |nodes| + 1 ensures StandsFor((stored + [n])[i], (nodes + [w])[i]) {
      if i < |nodes| { assert StandsFor(stored[i], nodes[i]); }
    }
  }

  lemma {:induction false} NodeStands(w: Written, library: Library)
    requires SoundNode(w) && LowerNode(w, library).Some?
    ensures StandsFor(LowerNode(w, library).value, w)
    decreases w, 1
  {
    NodeCompiled(w, library);
    LoweredLinks(w, library);
  }

  lemma {:induction false} LowerOneMore(nodes: seq<Written>, library: Library)
    requires nodes != [] && LowerNodes(nodes, library).Some?
    ensures LowerNodes(nodes[..|nodes| - 1], library).Some? && LowerNode(nodes[|nodes| - 1], library).Some?
    ensures LowerNodes(nodes, library).value ==
      LowerNodes(nodes[..|nodes| - 1], library).value + [LowerNode(nodes[|nodes| - 1], library).value]
  {
  }

  lemma {:induction false} NodesCompiled(nodes: seq<Written>, library: Library)
    requires AllSound(nodes) && LowerNodes(nodes, library).Some?
    ensures AllStandFor(LowerNodes(nodes, library).value, nodes)
    decreases nodes, 0
  {
    if nodes != [] {
      var k := |nodes| - 1;
      LowerOneMore(nodes, library);
      FrontSound(nodes);
      NodesCompiled(nodes[..k], library);
      NodeStands(nodes[k], library);
      FrontAndLast(nodes);
      OneMoreStands(LowerNodes(nodes[..k], library).value, nodes[..k], LowerNode(nodes[k], library).value, nodes[k]);
    }
  }

  lemma {:induction false} FrontSound(nodes: seq<Written>)
    requires AllSound(nodes) && nodes != []
    ensures AllSound(nodes[..|nodes| - 1]) && SoundNode(nodes[|nodes| - 1])
  {
  }

  /** Reading the compiled edges back gives the same links from either side. */
  lemma {:induction false} SameReread(nodes: seq<Written>, stored: seq<Stored>, edges: seq<FlowEdge>)
    requires AllStandFor(stored, nodes)
    ensures Reread(StoredLinks(stored), edges) == Reread(AllLinks(nodes), edges)
  {
    forall i | 0 <= i < |nodes| ensures Reread(StoredLinks(stored), edges)[i] == Reread(AllLinks(nodes), edges)[i] {
      assert StandsFor(stored[i], nodes[i]);
      assert StoredLinks(stored)[i].id == AllLinks(nodes)[i].id && StoredLinks(stored)[i].branch == AllLinks(nodes)[i].branch;
    }
  }

  lemma {:induction false} EdgesLeadToNodes(links: seq<Links>, ids: seq<Stored>, e: FlowEdge)
    requires TargetsKnown(links) && |ids| == |links| && forall i :: 0 <= i < |ids| ==> ids[i].id == links[i].id
    requires e in EdgesFor(Dedup(AllWanted(links)))
    ensures exists i :: 0 <= i < |ids| && ids[i].id == e.arrow.target
  {
    var arrows := Dedup(AllWanted(links));
    DedupMembers(AllWanted(links));
    var k :| 0 <= k < |arrows| && EdgesFor(arrows)[k] == e;
    assert arrows[k] in AllWanted(links) && e.arrow == arrows[k];
    var i :| 0 <= i < |links| && links[i].id == e.arrow.target;
    assert ids[i].id == e.arrow.target;
  }

  lemma {:induction false} EdgesCompiled(nodes: seq<Written>, b: StoredBody)
    requires DistinctIds(AllLinks(nodes)) && TargetsKnown(AllLinks(nodes)) && AllStandFor(b.nodes, nodes)
    requires b.edges == EdgesFor(Dedup(AllWanted(AllLinks(nodes))))
    ensures CompiledEdges(b)
  {
    EdgesAreANormalForm(AllLinks(nodes));
    SameReread(nodes, b.nodes, b.edges);
    forall i | 0 <= i < |nodes| ensures b.nodes[i].id == AllLinks(nodes)[i].id { assert StandsFor(b.nodes[i], nodes[i]); }
    forall e | e in b.edges ensures exists i :: 0 <= i < |b.nodes| && b.nodes[i].id == e.arrow.target {
      EdgesLeadToNodes(AllLinks(nodes), b.nodes, e);
    }
  }

  /** A sound body that lowers has the compiled shape. */
  lemma {:induction false} BodyCompiled(nodes: seq<Written>, library: Library)
    requires SoundBody(nodes) && LowerBody(nodes, library).Some?
    ensures CompiledBody(LowerBody(nodes, library).value)
    decreases nodes, 1
  {
    var b := LowerBody(nodes, library).value;
    assert AllSound(nodes);
    NodesCompiled(nodes, library);
    EdgesCompiled(nodes, b);
    forall i, j | 0 <= i < j < |b.nodes| ensures StoredLinks(b.nodes)[i].id != StoredLinks(b.nodes)[j].id {
      assert StandsFor(b.nodes[i], nodes[i]) && StandsFor(b.nodes[j], nodes[j]);
      assert AllLinks(nodes)[i].id != AllLinks(nodes)[j].id;
    }
    forall i | 0 <= i < |b.nodes| ensures CompiledNode(b.nodes[i]) { assert StandsFor(b.nodes[i], nodes[i]); }
  }

  /** Whatever file is read and lowered, the body it compiles to has the compiled shape. */
  lemma {:induction false} EveryCompiledBody(y: Yaml, library: Library)
    requires ParseBody(y).Some? && LowerBody(ParseBody(y).value, library).Some?
    ensures CompiledBody(LowerBody(ParseBody(y).value, library).value)
  {
    BodySound(y);
    BodyCompiled(ParseBody(y).value, library);
  }
}
