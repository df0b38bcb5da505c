/** Reading a flow file. None stands for a file that collects at least one error. */
module FlowParse {
  import opened References
  import opened GoText
  import opened Checks
  import opened FlowTree
  import opened FlowEdges
  import opened FlowModel

  // ---- Taking one key

  function TakeText(m: Fields, k: Key): Option<string> {
    match Field(m, k)
    case None => Some("")
    case Some(y) => if y.Scalar? then Some(y.text) else None
  }

  function TakePositive(m: Fields, k: Key): Option<Option<int>> {
    match Field(m, k)
    case None => Some(None)
    case Some(y) => if AsInt(y).Some? && AsInt(y).value > 0 then Some(AsInt(y)) else None
  }

  function TakeNonNegative(m: Fields, k: Key): Option<Option<int>> {
    match Field(m, k)
    case None => Some(None)
    case Some(y) => if AsInt(y).Some? && AsInt(y).value >= 0 then Some(AsInt(y)) else None
  }

  function TakeBool(m: Fields, k: Key): Option<Option<bool>> {
    match Field(m, k)
    case None => Some(None)
    case Some(y) => if AsBool(y).Some? then Some(AsBool(y)) else None
  }

  function TakeAny(m: Fields, k: Key): Option<Option<Any>> {
    match Field(m, k)
    case None => Some(None)
    case Some(y) => if Decode(y).Some? then Some(Decode(y)) else None
  }

  /** stringPairs. */
  function Pairs(y: Yaml): Option<map<string, Any>> {
    if y.Mapping? then DecodeEntries(y.entries) else None
  }

  function TakePairs(m: Fields, k: Key): Option<map<string, Any>> {
    match Field(m, k)
    case None => Some(map[])
    case Some(y) => Pairs(y)
  }

  /** takeHeaderPairs. */
  function TakeHeaders(m: Fields): Option<map<string, Any>> {
    var pairs :- TakePairs(m, HeadersKey);
    :- Need(forall k :: k in pairs ==> pairs[k].Text?);
    Some(pairs)
  }

  /** stringList. */
  function Strings(items: seq<Yaml>): Option<seq<string>> {
    if items == [] then Some([])
    else
      var rest :- Strings(items[..|items| - 1]);
      var last := items[|items| - 1];
      :- Need(last.Scalar?);
      Some(rest + [last.text])
  }

  /** oneOrList. */
  function OneOrList(y: Yaml): Option<seq<string>> {
    match y
    case Scalar(_, text) => if text == "" then None else Some([text])
    case Sequence(items) => Strings(items)
    case Mapping(_) => None
  }

  /** takeNames: the names, and whether the key was there. */
  function TakeNames(m: Fields, k: Key): Option<(seq<string>, bool)> {
    match Field(m, k)
    case None => Some(([], false))
    case Some(y) =>
      var names :- OneOrList(y);
      :- Need(forall n :: n in names ==> ValidId(n));
      Some((names, true))
  }

  // ---- Checks

  /** parseStatusMapping. The value is kept as written. */
  function StatusMapping(y: Yaml): Option<Check> {
    var m :- MappingOf(y);
    :- Need(m.Keys == {StatusKey} && m[StatusKey].Scalar? && Atoi(TrimSpace(m[StatusKey].text)).Some?);
    Some(StatusEquals(m[StatusKey].text))
  }

  /** parseExpectItem. An infinite bound is refused later, when its node is marshalled; the file is refused either way. */
  function ExpectItem(y: Yaml): Option<Check> {
    var check :- if y.Scalar? then ParseExpectLine(y.text) else StatusMapping(y);
    :- Need(Storable(check));
    Some(check)
  }

  function ExpectItems(items: seq<Yaml>): Option<seq<Check>> {
    if items == [] then Some([])
    else
      var rest :- ExpectItems(items[..|items| - 1]);
      var last :- ExpectItem(items[|items| - 1]);
      Some(rest + [last])
  }

  /** parseExpectNode. */
  function Expect(y: Yaml): Option<seq<Check>> {
    if y.Sequence? then ExpectItems(y.items)
    else
      var one :- ExpectItem(y);
      Some([one])
  }

  function TakeChecks(m: Fields, k: Key): Option<seq<Check>> {
    match Field(m, k)
    case None => Some([])
    case Some(y) => Expect(y)
  }

  // ---- Kinds without a body

  function ParseRequest(y: Yaml): Option<Spec> {
    var m :- MappingOf(y);
    RequestFrom(m)
  }

  function RequestFrom(m: Fields): Option<Spec> {
    var verb :- TakeText(m, MethodKey);
    :- Need(MethodKey in m);
    var url :- TakeText(m, UrlKey);
    var headers :- TakeHeaders(m);
    var query :- TakePairs(m, QueryKey);
    var payload :- TakeAny(m, BodyKey);
    var timeout :- TakePositive(m, TimeoutKey);
    :- Need(TrimSpace(verb) == "" || IsHttpMethod(Upper(TrimSpace(verb))));
    :- Need(TrimSpace(url) != "" && m.Keys <= {MethodKey, UrlKey, HeadersKey, QueryKey, BodyKey, TimeoutKey});
    Some(RequestSpec(TrimSpace(verb), TrimSpace(url), headers, query, payload, timeout))
  }

  function ParseModule(y: Yaml): Option<Spec> {
    if y.Scalar? then
      if TrimSpace(y.text) == "" then None else Some(ModuleSpec(TrimSpace(y.text), map[], false))
    else
      var m :- MappingOf(y);
      var ref :- TakeText(m, RefKey);
      :- Need(TrimSpace(ref) != "" && m.Keys <= {RefKey});
      Some(ModuleSpec(TrimSpace(ref), map[], false))
  }

  function ParseDelay(y: Yaml): Option<Spec> {
    if AsInt(y).Some? then
      if AsInt(y).value > 0 then Some(DelaySpec(AsInt(y).value)) else None
    else
      var m :- MappingOf(y);
      var ms :- TakePositive(m, DurationKey);
      :- Need(ms.Some? && m.Keys <= {DurationKey});
      Some(DelaySpec(ms.value))
  }

  function ParseSet(y: Yaml): Option<Spec> {
    var vars :- Pairs(y);
    :- Need(vars != map[]);
    Some(SetSpec(vars))
  }

  function ParseAssert(y: Yaml): Option<Spec> {
    var m :- MappingOf(y);
    AssertFrom(m)
  }

  function AssertFrom(m: Fields): Option<Spec> {
    var target :- TakeAny(m, TargetKey);
    :- Need(m.Keys <= {TargetKey});
    Some(AssertSpec(target))
  }

  function ParseCase(y: Yaml): Option<Case> {
    var m :- MappingOf(y);
    CaseFrom(m)
  }

  function CaseFrom(m: Fields): Option<Case> {
    var when :- Field(m, WhenKey);
    var check :- ExpectItem(when);
    var target :- TakeText(m, TargetKey);
    :- Need(TrimSpace(target) != "" && m.Keys <= {WhenKey, TargetKey});
    Some(Case(check, TrimSpace(target)))
  }

  function ParseCases(items: seq<Yaml>): Option<seq<Case>> {
    if items == [] then Some([])
    else
      var rest :- ParseCases(items[..|items| - 1]);
      var last :- ParseCase(items[|items| - 1]);
      Some(rest + [last])
  }

  function TakeCases(m: Fields): Option<seq<Case>> {
    match Field(m, CasesKey)
    case None => Some([])
    case Some(y) => if y.Sequence? then ParseCases(y.items) else None
  }

  function TakeDefault(m: Fields): Option<Option<string>> {
    match Field(m, DefaultKey)
    case None => Some(None)
    case Some(y) => if y.Scalar? && TrimSpace(y.text) != "" then Some(Some(TrimSpace(y.text))) else None
  }

  function ParseBranch(y: Yaml): Option<Spec> {
    var m :- MappingOf(y);
    BranchFrom(m)
  }

  function BranchFrom(m: Fields): Option<Spec> {
    var target :- TakeAny(m, TargetKey);
    var cases :- TakeCases(m);
    var fallback :- TakeDefault(m);
    :- Need((cases != [] || fallback.Some?) && m.Keys <= {TargetKey, CasesKey, DefaultKey});
    Some(BranchSpec(target, cases, fallback))
  }

  function ParseGroup(y: Yaml): Option<Group> {
    var m :- MappingOf(y);
    GroupFrom(m)
  }

  function GroupFrom(m: Fields): Option<Group> {
    var name :- TakeText(m, NameKey);
    var min :- TakeNonNegative(m, MinKey);
    var max :- TakeNonNegative(m, MaxKey);
    var checks :- TakeChecks(m, ChecksKey);
    :- Need(TrimSpace(name) != "" && m.Keys <= {NameKey, MinKey, MaxKey, ChecksKey});
    Some(Group(TrimSpace(name), min, max, checks))
  }

  function ParseGroups(items: seq<Yaml>): Option<seq<Group>> {
    if items == [] then Some([])
    else
      var rest :- ParseGroups(items[..|items| - 1]);
      var last :- ParseGroup(items[|items| - 1]);
      Some(rest + [last])
  }

  function TakeGroups(m: Fields): Option<seq<Group>> {
    match Field(m, ExpectKey)
    case None => Some([])
    case Some(y) => if y.Sequence? then ParseGroups(y.items) else None
  }

  function ParseWebhook(y: Yaml): Option<Spec> {
    var m :- MappingOf(y);
    WebhookFrom(m)
  }

  function WebhookFrom(m: Fields): Option<Spec> {
    var timeout :- TakePositive(m, TimeoutKey);
    var settle :- TakeNonNegative(m, SettleKey);
    var groups :- TakeGroups(m);
    :- Need(m.Keys <= {TimeoutKey, SettleKey, ExpectKey});
    Some(WebhookSpec(timeout, settle, groups))
  }

  function TakeCompletion(m: Fields): Option<Option<string>> {
    match Field(m, CompletionKey)
    case None => Some(None)
    case Some(y) => if y.Scalar? && TrimSpace(y.text) != "" then Some(Some(TrimSpace(y.text))) else None
  }

  function ParseSse(y: Yaml): Option<Spec> {
    var m :- MappingOf(y);
    SseFrom(m)
  }

  function SseFrom(m: Fields): Option<Spec> {
    var verb :- TakeText(m, MethodKey);
    var url :- TakeText(m, UrlKey);
    var headers :- TakeHeaders(m);
    var timeout :- TakePositive(m, TimeoutKey);
    var maxEvents :- TakePositive(m, MaxEventsKey);
    var completion :- TakeCompletion(m);
    var stop :- TakeBool(m, StopKey);
    :- Need(TrimSpace(verb) == "" || IsHttpMethod(Upper(TrimSpace(verb))));
    :- Need(TrimSpace(url) != "");
    :- Need(m.Keys <= {MethodKey, UrlKey, HeadersKey, TimeoutKey, MaxEventsKey, CompletionKey, StopKey});
    Some(SseSpec(TrimSpace(url), TrimSpace(verb), headers, timeout, maxEvents, completion, stop))
  }

  /** parseIntegration: an operation takes inputs, an event takes a settle time and groups. */
  function ParseIntegration(y: Yaml): Option<Spec> {
    var m :- MappingOf(y);
    IntegrationFrom(m)
  }

  function IntegrationFrom(m: Fields): Option<Spec> {
    var ref :- TakeText(m, IdKey);
    var operation :- TakeText(m, OperationKey);
    var event :- TakeText(m, EventKey);
    var timeout :- TakePositive(m, TimeoutKey);
    :- Need(TrimSpace(ref) != "" && ((TrimSpace(operation) == "") != (TrimSpace(event) == "")));
    if TrimSpace(event) != "" then
      var settle :- TakeNonNegative(m, SettleKey);
      var groups :- TakeGroups(m);
      :- Need(m.Keys <= {IdKey, OperationKey, EventKey, TimeoutKey, SettleKey, ExpectKey});
      Some(IntegrationSpec(TrimSpace(ref), "", TrimSpace(event), map[], timeout, settle, groups))
    else
      var inputs :- TakePairs(m, InputsKey);
      :- Need(m.Keys <= {IdKey, OperationKey, EventKey, TimeoutKey, InputsKey});
      Some(IntegrationSpec(TrimSpace(ref), TrimSpace(operation), "", inputs, timeout, None, []))
  }

  // ---- Outputs

  /** parseOutputShorthand. */
  function Shorthand(text: string): Option<Extractor> {
    if HasPrefix(text, "$") then Some(PathOf(text))
    else if HasPrefix(text, "header:") && |text| > 7 then Some(HeaderOf(text[7..]))
    else if text == "body" then Some(BodyOf)
    else if text == "status" then Some(StatusOf)
    else None
  }

  function ScalarText(y: Yaml): Option<string> {
    if y.Scalar? then Some(y.text) else None
  }

  /** An output written as a mapping: one source, and an optional secret flag. */
  function LongOutput(name: string, m: Fields): Option<Declared> {
    var secret :- TakeBool(m, SecretKey);
    var hidden := secret == Some(true);
    if m.Keys - {SecretKey} == {PathKey} then
      var path :- ScalarText(m[PathKey]);
      Some(Declared(name, Extracted(PathOf(path)), hidden))
    else if m.Keys - {SecretKey} == {HeaderKey} then
      var header :- ScalarText(m[HeaderKey]);
      Some(Declared(name, Extracted(HeaderOf(header)), hidden))
    else if m.Keys - {SecretKey} == {StatusKey} then
      if AsBool(m[StatusKey]) == Some(true) then Some(Declared(name, Extracted(StatusOf), hidden)) else None
    else None
  }

  /** parseOneOutput. */
  function OneOutput(spec: Spec, name: string, y: Yaml): Option<Declared> {
    if spec.ModuleSpec? then
      if y.Scalar? then Some(Declared(name, Binding(TrimSpace(y.text)), false)) else None
    else if y.Scalar? then
      var extractor :- Shorthand(y.text);
      Some(Declared(name, Extracted(extractor), false))
    else
      var m :- MappingOf(y);
      LongOutput(name, m)
  }

  predicate Names(decls: seq<Declared>, name: string) {
    exists i :: 0 <= i < |decls| && decls[i].name == name
  }

  /** parseOutputs. */
  function Outputs(spec: Spec, entries: seq<Entry>): Option<seq<Declared>> {
    if entries == [] then Some([])
    else
      var rest :- Outputs(spec, entries[..|entries| - 1]);
      var last := entries[|entries| - 1];
      :- Need(ValidId(KeyText(last.key)) && !Names(rest, KeyText(last.key)));
      var decl :- OneOutput(spec, KeyText(last.key), last.value);
      Some(rest + [decl])
  }

  function TakeOutputs(spec: Spec, m: Fields): Option<seq<Declared>> {
    match Field(m, OutputsKey)
    case None => Some([])
    case Some(y) => if OutputsAllowed(spec) && y.Mapping? then Outputs(spec, y.entries) else None
  }

  // ---- Nodes

  predicate IsKind(k: Key) {
    match k
    case RequestKey | ModuleKey | DelayKey | SetKey | AssertKey | BranchKey | PollKey | LoopKey | WebhookKey | SseKey | IntegrationKey => true
    case _ => false
  }

  /** takenKind: exactly one kind word. */
  ghost function TakenKind(m: Fields): (k: Option<Key>)
    ensures k.Some? ==> k.value in m && IsKind(k.value)
  {
    var kinds := set k | k in m.Keys && IsKind(k);
    if exists k :: kinds == {k} then
      var k :| kinds == {k};
      assert k in kinds;
      Some(k)
    else None
  }

  /** applyInputs, and the mark that outputs were written out. */
  function Applied(spec: Spec, m: Fields): Option<Spec> {
    var marked := if spec.ModuleSpec? && OutputsKey in m then spec.(explicit := true) else spec;
    match Field(m, InputsKey)
    case None => Some(marked)
    case Some(y) =>
      :- Need(marked.ModuleSpec?);
      var inputs :- Pairs(y);
      Some(ModuleSpec(marked.ref, inputs, marked.explicit))
  }

  predicate HasStatusCheck(checks: seq<Check>) {
    exists i :: 0 <= i < |checks| && checks[i].extractor == "status_code"
  }

  ghost function ParseNode(id: string, m: Fields, bound: nat): Option<Written>
    requires forall k :: k in m ==> Size(m[k]) < bound
    decreases bound, 0
  {
    var kind :- TakenKind(m);
    var bare :- ParseSpec(kind, m[kind]);
    NodeFrom(id, m, kind, bare)
  }

  /** parseNode around what the kind word says. */
  function NodeFrom(id: string, m: Fields, kind: Key, bare: Spec): Option<Written> {
    var display :- TakeText(m, DisplayKey);
    :- Need(ValidId(id));
    var run :- TakeText(m, RunWhenKey);
    :- Need(run == "" || run == "on_success" || run == "always");
    var next :- TakeNames(m, NextKey);
    var fail :- TakeNames(m, OnFailureKey);
    var outputs :- TakeOutputs(bare, m);
    var checks :- TakeChecks(m, ExpectKey);
    var spec :- Applied(bare, m);
    :- Need(spec.AssertSpec? ==> ExpectKey in m);
    :- Need(spec.IntegrationSpec? && spec.event != "" ==> !HasStatusCheck(checks));
    :- Need(m.Keys <= {DisplayKey, RunWhenKey, NextKey, OnFailureKey, OutputsKey, ExpectKey, InputsKey, kind});
    Some(Written(id, if display == "" then id else display, run == "always", next.0, next.1, fail.0, outputs, checks, spec))
  }

  ghost function ParseSpec(kind: Key, y: Yaml): Option<Spec>
    requires IsKind(kind)
    decreases Size(y), 3
  {
    match kind
    case RequestKey => ParseRequest(y)
    case ModuleKey => ParseModule(y)
    case DelayKey => ParseDelay(y)
    case SetKey => ParseSet(y)
    case AssertKey => ParseAssert(y)
    case BranchKey => ParseBranch(y)
    case PollKey => ParsePoll(y)
    case LoopKey => ParseLoop(y)
    case WebhookKey => ParseWebhook(y)
    case SseKey => ParseSse(y)
    case IntegrationKey => ParseIntegration(y)
  }

  ghost function ParsePoll(y: Yaml): Option<Spec>
    decreases Size(y), 2
  {
    var m :- MappingOf(y);
    var body :- TakeInline(m, Size(y));
    PollFrom(m, body)
  }

  function PollFrom(m: Fields, body: seq<Written>): Option<Spec> {
    var maxAttempts :- TakePositive(m, MaxAttemptsKey);
    var interval :- TakePositive(m, IntervalKey);
    var timeout :- TakePositive(m, TimeoutKey);
    :- Need(m.Keys <= {MaxAttemptsKey, IntervalKey, TimeoutKey} + InlineKeys(m));
    Some(PollSpec(maxAttempts, interval, timeout, body))
  }

  ghost function ParseLoop(y: Yaml): Option<Spec>
    decreases Size(y), 2
  {
    var m :- MappingOf(y);
    var body :- TakeInline(m, Size(y));
    LoopFrom(m, body)
  }

  function LoopFrom(m: Fields, body: seq<Written>): Option<Spec> {
    var itemVar :- TakeText(m, ItemVarKey);
    var indexVar :- TakeText(m, IndexVarKey);
    var items :- TakeAny(m, ItemsKey);
    var max :- TakeNonNegative(m, MaxIterationsKey);
    var continueOn :- TakeBool(m, ContinueKey);
    :- Need(items.Some?);
    :- Need(m.Keys <= {ItemsKey, ItemVarKey, IndexVarKey, MaxIterationsKey, ContinueKey} + InlineKeys(m));
    Some(LoopSpec(items.value, TrimSpace(itemVar), TrimSpace(indexVar), max, continueOn, body))
  }

  /** The keys takeInline consumes. */
  function InlineKeys(m: Fields): set<Key> {
    if BodyKey in m then {BodyKey} else {NodesKey, StepsKey}
  }

  /** takeInline: a body mapping, or the nodes or steps written directly. */
  ghost function TakeInline(m: Fields, bound: nat): Option<seq<Written>>
    requires forall k :: k in m ==> Size(m[k]) < bound
    decreases bound, 1
  {
    if BodyKey in m then ParseBody(m[BodyKey]) else ParseTopology(m, bound)
  }

  /** parseGraph of an inline body. */
  ghost function ParseBody(y: Yaml): Option<seq<Written>>
    decreases Size(y), 3
  {
    var m :- MappingOf(y);
    :- Need(m.Keys <= {NodesKey, StepsKey});
    ParseTopology(m, Size(y))
  }

  /** readTopology with the checks that follow it: nodes or steps, not both, not empty, no id twice. */
  ghost function ParseTopology(m: Fields, bound: nat): Option<seq<Written>>
    requires forall k :: k in m ==> Size(m[k]) < bound
    decreases bound, 0
  {
    if (NodesKey in m) == (StepsKey in m) then None
    else
      var nodes :- if NodesKey in m then ParseNodes(m[NodesKey]) else ParseSteps(m[StepsKey]);
      :- Need(nodes != [] && DistinctIds(AllLinks(nodes)));
      Some(if NodesKey in m then nodes else LinkSteps(nodes))
  }

  ghost function ParseNodes(y: Yaml): Option<seq<Written>>
    decreases Size(y), 1
  {
    var m :- MappingOf(y);
    ParseEntries(y.entries)
  }

  ghost function ParseEntries(entries: seq<Entry>): Option<seq<Written>>
    decreases SizeOfEntries(entries), 0
  {
    if entries == [] then Some([])
    else
      var last := entries[|entries| - 1];
      assert SizeOfEntry(last) == 1 + Size(last.value);
      var rest :- ParseEntries(entries[..|entries| - 1]);
      var m :- MappingOf(last.value);
      var node :- ParseNode(KeyText(last.key), m, Size(last.value));
      Some(rest + [node])
  }

  ghost function ParseSteps(y: Yaml): Option<seq<Written>>
    decreases Size(y), 1
  {
    if y.Sequence? then ParseItems(y.items) else None
  }

  /** parseSteps: each step names itself. */
  ghost function ParseItems(items: seq<Yaml>): Option<seq<Written>>
    decreases SizeOfItems(items), 0
  {
    if items == [] then Some([])
    else
      var rest :- ParseItems(items[..|items| - 1]);
      var last := items[|items| - 1];
      var m :- MappingOf(last);
      :- Need(IdKey in m && m[IdKey].Scalar? && TrimSpace(m[IdKey].text) != "");
      var node :- ParseNode(TrimSpace(m[IdKey].text), m - {IdKey}, Size(last));
      Some(rest + [node])
  }

  /** linkSteps: a step without next leads to the following one; a branch and an explicit next stay. */
  function LinkSteps(nodes: seq<Written>): seq<Written> {
    seq(|nodes|, i requires 0 <= i < |nodes| =>
      if i + 1 < |nodes| && !nodes[i].spec.BranchSpec? && !nodes[i].nextSet
      then nodes[i].(next := [nodes[i + 1].id], nextSet := true)
      else nodes[i])
  }
}
