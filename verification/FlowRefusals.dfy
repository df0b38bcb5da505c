/** What makes a flow file be refused: keys no kind knows, parts that do not go together, bindings of no export. */
module FlowRefusals {
  import opened References
  import opened GoText
  import opened Checks
  import opened FlowTree
  import opened FlowEdges
  import opened FlowModel
  import opened FlowParse
  import opened FlowLower

  /** The keys a kind's own mapping may hold. The variables of a set node are named freely. */
  function KnownKeys(kind: Key): set<Key> {
    match kind
    case RequestKey => {MethodKey, UrlKey, HeadersKey, QueryKey, BodyKey, TimeoutKey}
    case ModuleKey => {RefKey}
    case DelayKey => {DurationKey}
    case AssertKey => {TargetKey}
    case BranchKey => {TargetKey, CasesKey, DefaultKey}
    case PollKey => {MaxAttemptsKey, IntervalKey, TimeoutKey, BodyKey, NodesKey, StepsKey}
    case LoopKey => {ItemsKey, ItemVarKey, IndexVarKey, MaxIterationsKey, ContinueKey, BodyKey, NodesKey, StepsKey}
    case WebhookKey => {TimeoutKey, SettleKey, ExpectKey}
    case SseKey => {MethodKey, UrlKey, HeadersKey, TimeoutKey, MaxEventsKey, CompletionKey, StopKey}
    case IntegrationKey => {IdKey, OperationKey, EventKey, TimeoutKey, InputsKey, SettleKey, ExpectKey}
    case _ => {}
  }

  /** A mapping with a repeated key is no mapping, and one with an unknown key is not read. */
  ghost predicate HoldsOnly(y: Yaml, known: set<Key>) {
    y.Mapping? ==> FieldsOf(y.entries).Some? && FieldsOf(y.entries).value.Keys <= known
  }

  lemma {:induction false} RequestKeys(y: Yaml)
    requires ParseSpec(RequestKey, y).Some?
    ensures HoldsOnly(y, KnownKeys(RequestKey)) && y.Mapping?
  {
    assert ParseSpec(RequestKey, y) == ParseRequest(y);
  }

  lemma {:induction false} ShortKeys(kind: Key, y: Yaml)
    requires kind in {ModuleKey, DelayKey, AssertKey} && ParseSpec(kind, y).Some?
    ensures HoldsOnly(y, KnownKeys(kind))
  {
  }

  lemma {:induction false} BranchKeys(y: Yaml)
    requires ParseSpec(BranchKey, y).Some?
    ensures HoldsOnly(y, KnownKeys(BranchKey)) && y.Mapping?
  {
    assert ParseSpec(BranchKey, y) == ParseBranch(y);
  }

  lemma {:induction false} PollBody(m: Fields, body: seq<Written>)
    requires PollFrom(m, body).Some?
    ensures m.Keys <= {MaxAttemptsKey, IntervalKey, TimeoutKey} + InlineKeys(m)
  {
  }

  lemma {:induction false} LoopBody(m: Fields, body: seq<Written>)
    requires LoopFrom(m, body).Some?
    ensures m.Keys <= {ItemsKey, ItemVarKey, IndexVarKey, MaxIterationsKey, ContinueKey} + InlineKeys(m) && ItemsKey in m
  {
  }

  /** What is read of a poll or a loop is a mapping with an inline body. */
  lemma {:induction false} PollIsRead(y: Yaml) returns (m: Fields, body: seq<Written>)
    requires ParseSpec(PollKey, y).Some?
    ensures y.Mapping? && FieldsOf(y.entries) == Some(m) && (forall k :: k in m ==> Size(m[k]) < Size(y))
    ensures TakeInline(m, Size(y)).Some? && PollFrom(m, body).Some?
  {
    assert ParseSpec(PollKey, y) == ParsePoll(y);
    m := MappingOf(y).value;
    body := TakeInline(m, Size(y)).value;
  }

  lemma {:induction false} LoopIsRead(y: Yaml) returns (m: Fields, body: seq<Written>)
    requires ParseSpec(LoopKey, y).Some?
    ensures y.Mapping? && FieldsOf(y.entries) == Some(m) && (forall k :: k in m ==> Size(m[k]) < Size(y))
    ensures TakeInline(m, Size(y)).Some? && LoopFrom(m, body).Some?
  {
    assert ParseSpec(LoopKey, y) == ParseLoop(y);
    m := MappingOf(y).value;
    body := TakeInline(m, Size(y)).value;
  }

  /** A body, nodes or steps: one of the three, and only one. */
  predicate InlineIsOne(m: Fields) {
    if BodyKey in m then NodesKey !in m && StepsKey !in m else (NodesKey in m) != (StepsKey in m)
  }

  lemma {:induction false} InlineForm(m: Fields, bound: nat)
    requires (forall k :: k in m ==> Size(m[k]) < bound) && TakeInline(m, bound).Some?
    ensures BodyKey !in m ==> (NodesKey in m) != (StepsKey in m)
  {
  }

  lemma {:induction false} PollHolds(m: Fields)
    requires m.Keys <= {MaxAttemptsKey, IntervalKey, TimeoutKey} + InlineKeys(m)
    ensures m.Keys <= KnownKeys(PollKey) && (BodyKey in m ==> NodesKey !in m && StepsKey !in m)
  {
  }

  lemma {:induction false} PollKeys(y: Yaml)
    requires ParseSpec(PollKey, y).Some?
    ensures y.Mapping? && FieldsOf(y.entries).Some?
    ensures FieldsOf(y.entries).value.Keys <= KnownKeys(PollKey) && InlineIsOne(FieldsOf(y.entries).value)
  {
    var m, body := PollIsRead(y);
    PollBody(m, body);
    InlineForm(m, Size(y));
    PollHolds(m);
  }

  lemma {:induction false} LoopHolds(m: Fields)
    requires m.Keys <= {ItemsKey, ItemVarKey, IndexVarKey, MaxIterationsKey, ContinueKey} + InlineKeys(m)
    ensures m.Keys <= KnownKeys(LoopKey) && (BodyKey in m ==> NodesKey !in m && StepsKey !in m)
  {
  }

  lemma {:induction false} LoopKeys(y: Yaml)
    requires ParseSpec(LoopKey, y).Some?
    ensures y.Mapping? && FieldsOf(y.entries).Some?
    ensures FieldsOf(y.entries).value.Keys <= KnownKeys(LoopKey) && InlineIsOne(FieldsOf(y.entries).value)
  {
    var m, body := LoopIsRead(y);
    LoopBody(m, body);
    InlineForm(m, Size(y));
    LoopHolds(m);
  }

  lemma {:induction false} WebhookKeys(y: Yaml)
    requires ParseSpec(WebhookKey, y).Some?
    ensures HoldsOnly(y, KnownKeys(WebhookKey)) && y.Mapping?
  {
    assert ParseSpec(WebhookKey, y) == ParseWebhook(y);
  }

  lemma {:induction false} SseKeys(y: Yaml)
    requires ParseSpec(SseKey, y).Some?
    ensures HoldsOnly(y, KnownKeys(SseKey)) && y.Mapping?
  {
    assert ParseSpec(SseKey, y) == ParseSse(y);
  }

  lemma {:induction false} IntegrationKeys(y: Yaml)
    requires ParseSpec(IntegrationKey, y).Some?
    ensures HoldsOnly(y, KnownKeys(IntegrationKey)) && y.Mapping?
  {
    assert ParseSpec(IntegrationKey, y) == ParseIntegration(y);
  }

  /** Whatever the kind, a key its mapping does not know refuses the node. */
  lemma {:induction false} UnknownKeyIsRefused(kind: Key, y: Yaml)
    requires IsKind(kind) && kind != SetKey && !HoldsOnly(y, KnownKeys(kind))
    ensures ParseSpec(kind, y) == None
  {
    if ParseSpec(kind, y).Some? {
      match kind
      case RequestKey => RequestKeys(y);
      case BranchKey => BranchKeys(y);
      case PollKey => PollKeys(y);
      case LoopKey => LoopKeys(y);
      case WebhookKey => WebhookKeys(y);
      case SseKey => SseKeys(y);
      case IntegrationKey => IntegrationKeys(y);
      case _ => ShortKeys(kind, y);
    }
  }

  // ---- Nodes

  /** What a node that is read holds beside its parts: one kind word, and each other key where it belongs. */
  ghost predicate Proper(id: string, m: Fields, w: Written) {
    && ValidId(id)
    && (exists kind :: IsKind(kind) && OnlyKind(m, kind)
          && m.Keys <= {DisplayKey, RunWhenKey, NextKey, OnFailureKey, OutputsKey, ExpectKey, InputsKey, kind})
    && (InputsKey in m ==> w.spec.ModuleSpec?) && (OutputsKey in m ==> OutputsAllowed(w.spec))
    && (w.spec.AssertSpec? ==> ExpectKey in m)
    && (w.spec.IntegrationSpec? && w.spec.event != "" ==>
          forall i :: 0 <= i < |w.checks| ==> w.checks[i].extractor != "status_code")
  }

  ghost predicate OnlyKind(m: Fields, kind: Key) {
    kind in m && forall k :: k in m && IsKind(k) ==> k == kind
  }

  lemma {:induction false} ShellIsProper(id: string, m: Fields, kind: Key, bare: Spec)
    requires NodeFrom(id, m, kind, bare).Some?
    ensures var w := NodeFrom(id, m, kind, bare).value;
      && ValidId(id)
      && m.Keys <= {DisplayKey, RunWhenKey, NextKey, OnFailureKey, OutputsKey, ExpectKey, InputsKey, kind}
      && (InputsKey in m ==> w.spec.ModuleSpec?) && (OutputsKey in m ==> OutputsAllowed(bare))
      && (w.spec.AssertSpec? ==> ExpectKey in m) && Applied(bare, m) == Some(w.spec)
      && (w.spec.IntegrationSpec? && w.spec.event != "" ==> !HasStatusCheck(w.checks))
  {
  }

  lemma {:induction false} AppliedKeepsKind(bare: Spec, m: Fields)
    requires Applied(bare, m).Some?
    ensures OutputsAllowed(Applied(bare, m).value) <==> OutputsAllowed(bare)
  {
  }

  lemma {:induction false} OneKindWord(m: Fields)
    requires TakenKind(m).Some?
    ensures IsKind(TakenKind(m).value) && OnlyKind(m, TakenKind(m).value)
  {
    var kinds := set k | k in m.Keys && IsKind(k);
    assert kinds == {TakenKind(m).value};
    forall k | k in m && IsKind(k) ensures k == TakenKind(m).value { assert k in kinds; }
  }

  /** A node is read only when all its keys belong together. */
  lemma {:induction false} ReadNodeIsProper(id: string, m: Fields, bound: nat)
    requires (forall k :: k in m ==> Size(m[k]) < bound) && ParseNode(id, m, bound).Some?
    ensures Proper(id, m, ParseNode(id, m, bound).value)
  {
    OneKindWord(m);
    var kind := TakenKind(m).value;
    var bare := ParseSpec(kind, m[kind]).value;
    ShellIsProper(id, m, kind, bare);
    AppliedKeepsKind(bare, m);
  }

  // ---- Module outputs

  predicate DistinctNames(outputs: seq<Declared>) {
    forall i, j :: 0 <= i < j < |outputs| ==> outputs[i].name != outputs[j].name
  }

  /** The name is declared to be bound to this text. */
  ghost predicate Binds(outputs: seq<Declared>, name: string, text: string) {
    exists i :: 0 <= i < |outputs| && outputs[i].name == name && outputs[i].source == Binding(text)
  }

  lemma {:induction false} BindingsAre(outputs: seq<Declared>, name: string)
    requires DistinctNames(outputs)
    ensures name in BindingMap(outputs) ==> BindingMap(outputs)[name] != "" && Binds(outputs, name, BindingMap(outputs)[name])
    ensures forall text :: text != "" && Binds(outputs, name, text) ==> name in BindingMap(outputs) && BindingMap(outputs)[name] == text
  {
    if outputs != [] {
      var front, last := outputs[..|outputs| - 1], outputs[|outputs| - 1];
      BindingsAre(front, name);
      assert forall i :: 0 <= i < |front| ==> front[i] == outputs[i];
      forall text | text != "" && Binds(outputs, name, text)
        ensures name in BindingMap(outputs) && BindingMap(outputs)[name] == text
      {
        var i :| 0 <= i < |outputs| && outputs[i].name == name && outputs[i].source == Binding(text);
        if i < |front| { assert Binds(front, name, text) && last.name != name; }
      }
    }
  }

  /** The outputs a module node writes out are bound as written, and each binding is an export of the file. */
  lemma {:induction false} ExplicitOutputsAreBound(ref: string, inputs: map<string, Any>, outputs: seq<Declared>, library: Library, name: string)
    requires DistinctNames(outputs) && Uuid(ref).None? && LowerModule(ref, inputs, true, outputs, library).Some?
    ensures ref in library && LowerModule(ref, inputs, true, outputs, library).value.ModuleData?
    ensures var d := LowerModule(ref, inputs, true, outputs, library).value;
      && Uuid(TrimSpace(library[ref].id)) == Some(d.flowId) && d.inputs == inputs
      && (name in d.bindings <==> exists text :: text != "" && Binds(outputs, name, text))
      && (name in d.bindings ==>
            Binds(outputs, name, d.bindings[name]) && ValidBinding(d.bindings[name]) && d.bindings[name] in library[ref].exports.Values)
  {
    BindingsAre(outputs, name);
    var d := LowerModule(ref, inputs, true, outputs, library).value;
    if name in d.bindings {
      var i :| 0 <= i < |outputs| && outputs[i].name == name && outputs[i].source == Binding(d.bindings[name]);
      assert outputs[i].source.Binding?;
    }
  }

  /** A module called by its id is bound to whatever its outputs name, in the shape of a binding. */
  lemma {:induction false} CalledByIdIsBound(ref: string, inputs: map<string, Any>, explicit: bool, outputs: seq<Declared>, library: Library, name: string)
    requires DistinctNames(outputs) && Uuid(ref).Some? && LowerModule(ref, inputs, explicit, outputs, library).Some?
    ensures LowerModule(ref, inputs, explicit, outputs, library).value.ModuleData?
    ensures var d := LowerModule(ref, inputs, explicit, outputs, library).value;
      && Some(d.flowId) == Uuid(ref) && d.inputs == inputs
      && (name in d.bindings <==> exists text :: text != "" && Binds(outputs, name, text))
      && (name in d.bindings ==> Binds(outputs, name, d.bindings[name]) && ValidBinding(d.bindings[name]))
  {
    BindingsAre(outputs, name);
    var d := LowerModule(ref, inputs, explicit, outputs, library).value;
    if name in d.bindings {
      var i :| 0 <= i < |outputs| && outputs[i].name == name && outputs[i].source == Binding(d.bindings[name]);
      assert outputs[i].source.Binding?;
    }
  }
}
