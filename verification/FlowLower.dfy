/** Lowering: the stored nodes and edges a written body compiles to. */
module FlowLower {
  import opened References
  import opened GoText
  import opened Checks
  import opened FlowEdges
  import opened FlowModel

  /** What a resolved module file offers: its flow id, its inputs, and the bindings of its public outputs. */
  datatype Dependency = Dependency(id: string, inputs: seq<string>, exports: map<string, string>)

  /** The resolved module files, by the reference that names them. */
  type Library = map<string, Dependency>

  /** lintEdges: every target is a node of the same body. */
  ghost predicate TargetsKnown(links: seq<Links>) {
    forall a :: a in AllWanted(links) ==> exists i :: 0 <= i < |links| && links[i].id == a.target
  }

  /** checkBindingShape. */
  predicate BindingsShaped(outputs: seq<Declared>) {
    forall i :: 0 <= i < |outputs| && outputs[i].source.Binding? ==>
      outputs[i].source.text == "" || ValidBinding(outputs[i].source.text)
  }

  /** An explicit output binds something the module exports. */
  predicate BindingsKnown(outputs: seq<Declared>, dep: Dependency) {
    forall i :: 0 <= i < |outputs| && outputs[i].source.Binding? && ValidBinding(outputs[i].source.text) ==>
      outputs[i].source.text in dep.exports.Values
  }

  /** checkInputs. */
  predicate InputsMatch(inputs: map<string, Any>, dep: Dependency) {
    dep.inputs == [] || ((forall k :: k in inputs ==> k in dep.inputs) && (forall k :: k in dep.inputs ==> k in inputs))
  }

  /** bindingMap of the outputs an author wrote. */
  function BindingMap(outputs: seq<Declared>): map<string, string> {
    if outputs == [] then map[]
    else
      var rest, last := BindingMap(outputs[..|outputs| - 1]), outputs[|outputs| - 1];
      if last.source.Binding? && last.source.text != "" then rest[last.name := last.source.text] else rest
  }

  /** bindingMap of the outputs filled in from a module's exports. */
  function FilledBindings(exports: map<string, string>): map<string, string> {
    map k | k in exports && exports[k] != "" :: exports[k]
  }

  /** bindModule, then lowerModule. */
  ghost function LowerModule(ref: string, inputs: map<string, Any>, explicit: bool, outputs: seq<Declared>, library: Library): Option<Data> {
    if Uuid(ref).Some? then
      :- Need(BindingsShaped(outputs));
      Some(ModuleData(Uuid(ref).value, inputs, BindingMap(outputs)))
    else
      :- Need(ref in library);
      var dep := library[ref];
      var id :- Uuid(TrimSpace(dep.id));
      :- Need(InputsMatch(inputs, dep));
      if explicit then
        :- Need(BindingsShaped(outputs) && BindingsKnown(outputs, dep));
        Some(ModuleData(id, inputs, BindingMap(outputs)))
      else
        Some(ModuleData(id, inputs, FilledBindings(dep.exports)))
  }

  /** stringMap of pairs that are all text. */
  function StringMap(pairs: map<string, Any>): map<string, string> {
    map k | k in pairs && pairs[k].Text? :: pairs[k].text
  }

  function OrNull(v: Option<Any>): Any {
    if v.Some? then v.value else Null
  }

  /** extractorOutputs. */
  function LowerOutputs(decls: seq<Declared>): seq<Output> {
    seq(|decls|, i requires 0 <= i < |decls| =>
      Output(decls[i].name, if decls[i].source.Extracted? then decls[i].source.extractor else PathOf(""), decls[i].secret))
  }

  ghost function LowerSpec(spec: Spec, outputs: seq<Declared>, library: Library): Option<Data>
    decreases spec
  {
    match spec
    case RequestSpec(verb, url, headers, query, payload, timeout) =>
      Some(RequestData(Upper(verb), url, StringMap(headers), query, OrNull(payload), timeout))
    case ModuleSpec(ref, inputs, explicit) => LowerModule(ref, inputs, explicit, outputs, library)
    case DelaySpec(ms) => Some(DelayData(ms))
    case SetSpec(vars) => Some(SetData(vars))
    case AssertSpec(target) => Some(AssertData(OrNull(target)))
    case BranchSpec(target, cases, fallback) => Some(BranchData(OrNull(target), cases, fallback))
    case PollSpec(maxAttempts, interval, timeout, body) =>
      var lowered :- LowerBody(body, library);
      Some(PollData(maxAttempts, interval, timeout, lowered))
    case LoopSpec(items, itemVar, indexVar, max, continueOn, body) =>
      var lowered :- LowerBody(body, library);
      Some(LoopData(items, itemVar, indexVar, max, continueOn, lowered))
    case WebhookSpec(timeout, settle, groups) => Some(WebhookData(timeout, settle, groups))
    case SseSpec(url, verb, headers, timeout, maxEvents, completion, stop) =>
      Some(SseData(url, Upper(verb), StringMap(headers), timeout, maxEvents, completion, stop))
    case IntegrationSpec(ref, operation, event, inputs, timeout, settle, groups) =>
      if event != "" then Some(EventData(ref, event, timeout, settle, groups))
      else Some(OperationData(ref, operation, inputs, timeout))
  }

  ghost function LowerNode(n: Written, library: Library): Option<Stored>
    decreases n
  {
    var data :- LowerSpec(n.spec, n.outputs, library);
    Some(Stored(n.id, n.display, n.always, n.checks, if OutputsAllowed(n.spec) && !n.spec.ModuleSpec? then LowerOutputs(n.outputs) else [], data))
  }

  ghost function LowerNodes(nodes: seq<Written>, library: Library): Option<seq<Stored>>
    decreases nodes, 0
  {
    if nodes == [] then Some([])
    else
      var rest :- LowerNodes(nodes[..|nodes| - 1], library);
      var last :- LowerNode(nodes[|nodes| - 1], library);
      Some(rest + [last])
  }

  /** lowerInline, for a body whose targets all exist. */
  ghost function LowerBody(nodes: seq<Written>, library: Library): Option<StoredBody>
    decreases nodes, 1
  {
    var lowered :- LowerNodes(nodes, library);
    :- Need(TargetsKnown(AllLinks(nodes)));
    Some(StoredBody(lowered, EdgesFor(Dedup(AllWanted(AllLinks(nodes))))))
  }
}
