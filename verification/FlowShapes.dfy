/** Which stored nodes a compiled file can produce, and which of those a printed file can carry. */
module FlowShapes {
  import opened References
  import opened GoText
  import opened Numbers
  import opened Checks
  import opened FlowTree
  import opened FlowEdges
  import opened FlowModel
  import opened FlowPrint

  predicate Trimmed(s: string) { s != "" && TrimSpace(s) == s }

  predicate Positive(n: Option<int>) { n.Some? ==> n.value > 0 && FitsInt(n.value) }

  predicate NonNegative(n: Option<int>) { n.Some? ==> n.value >= 0 && FitsInt(n.value) }

  predicate Verb(s: string) { Upper(s) == s && TrimSpace(s) == s && (s == "" || IsHttpMethod(s)) }

  /** A status mapping keeps its text as written, so its number may be padded. */
  predicate PaddedStatus(c: Check) {
    var text := TextAt(c.operatorData, "value");
    c == StatusEquals(text) && Atoi(TrimSpace(text)).Some?
  }

  ghost predicate CompiledCheck(c: Check) { Storable(c) && (Readable(c) || PaddedStatus(c)) }

  ghost predicate CompiledChecks(checks: seq<Check>) {
    forall i :: 0 <= i < |checks| ==> CompiledCheck(checks[i])
  }

  ghost predicate CompiledCase(c: Case) { CompiledCheck(c.when) && Trimmed(c.target) }

  ghost predicate CompiledGroup(g: Group) {
    Trimmed(g.name) && NonNegative(g.min) && NonNegative(g.max) && CompiledChecks(g.checks)
  }

  ghost predicate CompiledGroups(groups: seq<Group>) {
    forall i :: 0 <= i < |groups| ==> CompiledGroup(groups[i])
  }

  predicate CompiledOutputs(outputs: seq<Output>) {
    && (forall i :: 0 <= i < |outputs| ==> ValidId(outputs[i].name) && (outputs[i].extractor.BodyOf? ==> !outputs[i].secret))
    && (forall i, j :: 0 <= i < j < |outputs| ==> outputs[i].name != outputs[j].name)
  }

  ghost predicate CompiledData(d: Data)
    decreases d
  {
    match d
    case RequestData(verb, url, _, query, payload, timeout) =>
      Verb(verb) && Trimmed(url) && Fits(Object(query)) && Fits(payload) && Positive(timeout)
    case ModuleData(flowId, inputs, bindings) =>
      Uuid(flowId) == Some(flowId) && Fits(Object(inputs)) && forall k :: k in bindings ==> bindings[k] != ""
    case DelayData(ms) => ms > 0 && FitsInt(ms)
    case SetData(vars) => vars != map[] && Fits(Object(vars))
    case AssertData(target) => Fits(target)
    case BranchData(target, cases, fallback) =>
      && Fits(target) && (cases != [] || fallback.Some?) && (fallback.Some? ==> Trimmed(fallback.value))
      && forall i :: 0 <= i < |cases| ==> CompiledCase(cases[i])
    case PollData(maxAttempts, interval, timeout, body) =>
      Positive(maxAttempts) && Positive(interval) && Positive(timeout) && CompiledBody(body)
    case LoopData(items, itemVar, indexVar, max, _, body) =>
      Fits(items) && TrimSpace(itemVar) == itemVar && TrimSpace(indexVar) == indexVar && NonNegative(max) && CompiledBody(body)
    case WebhookData(timeout, settle, groups) => Positive(timeout) && NonNegative(settle) && CompiledGroups(groups)
    case SseData(url, verb, _, timeout, maxEvents, completion, _) =>
      && Trimmed(url) && Verb(verb) && Positive(timeout) && Positive(maxEvents)
      && (completion.Some? ==> Trimmed(completion.value))
    case OperationData(ref, operation, inputs, timeout) =>
      Trimmed(ref) && Trimmed(operation) && Fits(Object(inputs)) && Positive(timeout)
    case EventData(ref, event, timeout, settle, groups) =>
      Trimmed(ref) && Trimmed(event) && Positive(timeout) && NonNegative(settle) && CompiledGroups(groups)
  }

  ghost predicate CompiledNode(n: Stored)
    decreases n
  {
    && ValidId(n.id) && n.display != "" && CompiledChecks(n.checks) && CompiledData(n.data)
    && CompiledOutputs(n.outputs) && (n.outputs != [] ==> StoresOutputs(n.data))
    && (n.data.EventData? ==> forall i :: 0 <= i < |n.checks| ==> n.checks[i].extractor != "status_code")
  }

  /** What a stored node asks for when its edges are read back. */
  function StoredLinks(nodes: seq<Stored>): seq<Links> {
    seq(|nodes|, i requires 0 <= i < |nodes| => Links(nodes[i].id, [], BranchTargets(nodes[i]), []))
  }

  /** The edges are the ones their own reading compiles to, and join nodes of the body. */
  ghost predicate CompiledEdges(b: StoredBody) {
    && EdgesFor(Dedup(AllWanted(Reread(StoredLinks(b.nodes), b.edges)))) == b.edges
    && forall e :: e in b.edges ==> exists i :: 0 <= i < |b.nodes| && b.nodes[i].id == e.arrow.target
  }

  ghost predicate CompiledBody(b: StoredBody)
    decreases b
  {
    && b.nodes != [] && DistinctIds(StoredLinks(b.nodes)) && CompiledEdges(b)
    && forall i :: 0 <= i < |b.nodes| ==> CompiledNode(b.nodes[i])
  }

  // ---- What a file can carry

  /** The value of a check does not end in a line break, and its bounds keep their values. */
  ghost predicate CleanCheck(c: Check) {
    (ValueOf(c).Text? ==> !EndsInBreak(ValueOf(c).text)) && Lossless(c)
  }

  ghost predicate CleanChecks(checks: seq<Check>) {
    forall i :: 0 <= i < |checks| ==> CleanCheck(checks[i])
  }

  ghost predicate CleanGroups(groups: seq<Group>) {
    forall i :: 0 <= i < |groups| ==> CleanChecks(groups[i].checks)
  }

  predicate CleanBindings(bindings: map<string, string>) {
    forall k :: k in bindings ==> ValidId(k) && ValidBinding(bindings[k])
  }

  ghost predicate CleanData(d: Data)
    decreases d
  {
    match d
    case RequestData(_, _, _, query, payload, _) => Unrounded(Object(query)) && Unrounded(payload)
    case ModuleData(_, inputs, bindings) => Unrounded(Object(inputs)) && CleanBindings(bindings)
    case SetData(vars) => Unrounded(Object(vars))
    case AssertData(target) => Unrounded(target)
    case BranchData(target, cases, _) => Unrounded(target) && forall i :: 0 <= i < |cases| ==> CleanCheck(cases[i].when)
    case PollData(_, _, _, body) => CleanBody(body)
    case LoopData(items, _, _, _, _, body) => Unrounded(items) && CleanBody(body)
    case OperationData(_, _, inputs, _) => Unrounded(Object(inputs))
    case WebhookData(_, _, groups) => CleanGroups(groups)
    case EventData(_, _, _, _, groups) => CleanGroups(groups)
    case _ => true
  }

  /** Every path and header an output reads is named. */
  predicate CleanOutputs(outputs: seq<Output>) {
    forall i :: 0 <= i < |outputs| ==> outputs[i].extractor != PathOf("") && outputs[i].extractor != HeaderOf("")
  }

  /** No check ends in a line break, an assert has a check, no output reads an unnamed path or header, and bindings are ids. */
  ghost predicate CleanNode(n: Stored)
    decreases n
  {
    && CleanChecks(n.checks) && (n.data.AssertData? ==> n.checks != []) && CleanOutputs(n.outputs)
    && CleanData(n.data)
  }

  ghost predicate CleanBody(b: StoredBody)
    decreases b
  {
    forall i :: 0 <= i < |b.nodes| ==> CleanNode(b.nodes[i])
  }

  lemma {:induction false} CleanIsWritable(c: Check)
    requires CompiledCheck(c) && CleanCheck(c)
    ensures Writable(c)
  {
    if !Readable(c) { assert ValueOf(c) == Text(TextAt(c.operatorData, "value")); }
  }

  lemma {:induction false} PaddedStatusCompiles(text: string)
    requires Atoi(TrimSpace(text)).Some?
    ensures PaddedStatus(StatusEquals(text))
  {
  }
}
