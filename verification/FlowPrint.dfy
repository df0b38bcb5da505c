/** Decompiling: the tree a stored body is printed as. None stands for a flow that is refused. */
module FlowPrint {
  import opened References
  import opened GoText
  import opened Checks
  import opened FlowTree
  import opened FlowEdges
  import opened FlowModel

  // ---- Parts of a mapping

  function IntPart(k: Key, n: Option<int>): Part {
    (k, if n.Some? then Some(IntNode(n.value)) else None)
  }

  function BoolPart(k: Key, on: Option<bool>): Part {
    (k, if on.Some? then Some(BoolNode(on.value)) else None)
  }

  function TextPart(k: Key, text: string): Part {
    (k, Some(StrNode(text)))
  }

  /** A part that is left out when the text is empty. */
  function OptionalText(k: Key, text: string): Part {
    (k, if text == "" then None else Some(StrNode(text)))
  }

  ghost function ValuePart(k: Key, v: Any): Part {
    (k, if v == Null then None else Some(ValueNode(v)))
  }

  ghost function PairsPart(k: Key, pairs: map<string, Any>): Part {
    (k, if pairs == map[] then None else Some(ValueNode(Object(pairs))))
  }

  function AsAny(texts: map<string, string>): map<string, Any> {
    map k | k in texts :: Text(texts[k])
  }

  function Strs(names: seq<string>): seq<Yaml> {
    seq(|names|, i requires 0 <= i < |names| => StrNode(names[i]))
  }

  /** namesNode. */
  function NamesPart(k: Key, names: seq<string>): Part {
    (k,
     if names == [] then None
     else if |names| == 1 then Some(StrNode(names[0]))
     else Some(Sequence(Strs(names))))
  }

  // ---- Checks

  function CheckLines(checks: seq<Check>): Option<seq<string>> {
    if checks == [] then Some([])
    else
      var rest :- CheckLines(checks[..|checks| - 1]);
      var last :- CheckLine(checks[|checks| - 1]);
      Some(rest + [last])
  }

  /** expectNode. */
  function ChecksPart(k: Key, checks: seq<Check>): Option<Part> {
    var lines :- CheckLines(checks);
    Some(NamesPart(k, lines))
  }

  // ---- Kinds

  function PrintCase(c: Case): Option<Yaml> {
    var line :- CheckLine(c.when);
    Some(Mapping(Build([TextPart(WhenKey, line), TextPart(TargetKey, c.target)])))
  }

  function PrintCases(cases: seq<Case>): Option<seq<Yaml>> {
    if cases == [] then Some([])
    else
      var rest :- PrintCases(cases[..|cases| - 1]);
      var last :- PrintCase(cases[|cases| - 1]);
      Some(rest + [last])
  }

  function PrintGroup(g: Group): Option<Yaml> {
    var checks :- ChecksPart(ChecksKey, g.checks);
    Some(Mapping(Build([TextPart(NameKey, g.name), IntPart(MinKey, g.min), IntPart(MaxKey, g.max), checks])))
  }

  function PrintGroups(groups: seq<Group>): Option<seq<Yaml>> {
    if groups == [] then Some([])
    else
      var rest :- PrintGroups(groups[..|groups| - 1]);
      var last :- PrintGroup(groups[|groups| - 1]);
      Some(rest + [last])
  }

  function SequencePart(k: Key, items: seq<Yaml>): Part {
    (k, if items == [] then None else Some(Sequence(items)))
  }

  ghost function RequestParts(d: Data): seq<Part>
    requires d.RequestData?
  {
    [TextPart(MethodKey, d.verb), TextPart(UrlKey, d.url), PairsPart(HeadersKey, AsAny(d.headers)),
     PairsPart(QueryKey, d.query), ValuePart(BodyKey, d.payload), IntPart(TimeoutKey, d.timeout)]
  }

  ghost function SseParts(d: Data): seq<Part>
    requires d.SseData?
  {
    [TextPart(UrlKey, d.url), OptionalText(MethodKey, d.verb), PairsPart(HeadersKey, AsAny(d.headers)),
     IntPart(TimeoutKey, d.timeout), IntPart(MaxEventsKey, d.maxEvents),
     (CompletionKey, if d.completion.Some? then Some(StrNode(d.completion.value)) else None),
     BoolPart(StopKey, d.stop)]
  }

  ghost function BranchParts(d: Data, cases: seq<Yaml>): seq<Part>
    requires d.BranchData?
  {
    [ValuePart(TargetKey, d.target), SequencePart(CasesKey, cases),
     (DefaultKey, if d.fallback.Some? then Some(StrNode(d.fallback.value)) else None)]
  }

  function WebhookParts(d: Data, groups: seq<Yaml>): seq<Part>
    requires d.WebhookData?
  {
    [IntPart(TimeoutKey, d.timeout), IntPart(SettleKey, d.settle), SequencePart(ExpectKey, groups)]
  }

  ghost function OperationParts(d: Data): seq<Part>
    requires d.OperationData?
  {
    [TextPart(IdKey, d.ref), TextPart(OperationKey, d.operation), (EventKey, None), PairsPart(InputsKey, d.inputs),
     IntPart(TimeoutKey, d.timeout)]
  }

  function EventParts(d: Data, groups: seq<Yaml>): seq<Part>
    requires d.EventData?
  {
    [TextPart(IdKey, d.ref), (OperationKey, None), TextPart(EventKey, d.event), IntPart(TimeoutKey, d.timeout), IntPart(SettleKey, d.settle),
     SequencePart(ExpectKey, groups)]
  }

  function PollParts(d: Data, body: Yaml): seq<Part>
    requires d.PollData?
  {
    [IntPart(MaxAttemptsKey, d.maxAttempts), IntPart(IntervalKey, d.interval), IntPart(TimeoutKey, d.timeout), (BodyKey, Some(body))]
  }

  ghost function LoopParts(d: Data, body: Yaml): seq<Part>
    requires d.LoopData?
  {
    [(ItemsKey, Some(ValueNode(d.items))), OptionalText(ItemVarKey, d.itemVar), OptionalText(IndexVarKey, d.indexVar),
     IntPart(MaxIterationsKey, d.maxIterations), BoolPart(ContinueKey, d.continueOn), (BodyKey, Some(body))]
  }

  function KindOf(d: Data): Key {
    match d
    case RequestData(_, _, _, _, _, _) => RequestKey
    case ModuleData(_, _, _) => ModuleKey
    case DelayData(_) => DelayKey
    case SetData(_) => SetKey
    case AssertData(_) => AssertKey
    case BranchData(_, _, _) => BranchKey
    case PollData(_, _, _, _) => PollKey
    case LoopData(_, _, _, _, _, _) => LoopKey
    case WebhookData(_, _, _) => WebhookKey
    case SseData(_, _, _, _, _, _, _) => SseKey
    case OperationData(_, _, _, _) => IntegrationKey
    case EventData(_, _, _, _, _) => IntegrationKey
  }

  /** addKind: what follows the kind word. */
  ghost function PrintData(d: Data): Option<Yaml>
    decreases d
  {
    match d
    case RequestData(_, _, _, _, _, _) => Some(Mapping(Build(RequestParts(d))))
    case ModuleData(flowId, _, _) => Some(StrNode(flowId))
    case DelayData(ms) => Some(IntNode(ms))
    case SetData(vars) => if vars == map[] then None else Some(ValueNode(Object(vars)))
    case AssertData(target) => Some(Mapping(Build([ValuePart(TargetKey, target)])))
    case BranchData(_, cases, _) =>
      var printed :- PrintCases(cases);
      Some(Mapping(Build(BranchParts(d, printed))))
    case PollData(_, _, _, body) =>
      var printed :- PrintBody(body);
      Some(Mapping(Build(PollParts(d, printed))))
    case LoopData(_, _, _, _, _, body) =>
      var printed :- PrintBody(body);
      Some(Mapping(Build(LoopParts(d, printed))))
    case WebhookData(_, _, groups) =>
      var printed :- PrintGroups(groups);
      Some(Mapping(Build(WebhookParts(d, printed))))
    case SseData(_, _, _, _, _, _, _) => Some(Mapping(Build(SseParts(d))))
    case OperationData(_, _, _, _) => Some(Mapping(Build(OperationParts(d))))
    case EventData(_, _, _, _, groups) =>
      var printed :- PrintGroups(groups);
      Some(Mapping(Build(EventParts(d, printed))))
  }

  // ---- Outputs

  /** oneOutput. */
  function PrintOutput(o: Output): Option<Yaml> {
    match o.extractor
    case PathOf(path) =>
      if path == "" then None
      else if !o.secret && HasPrefix(path, "$") then Some(StrNode(path))
      else Some(Mapping(Build([TextPart(PathKey, path), SecretPart(o.secret)])))
    case HeaderOf(header) =>
      if header == "" then None
      else if !o.secret then Some(StrNode("header:" + header))
      else Some(Mapping(Build([TextPart(HeaderKey, header), SecretPart(true)])))
    case StatusOf =>
      if !o.secret then Some(StrNode("status"))
      else Some(Mapping(Build([(StatusKey, Some(BoolNode(true))), SecretPart(true)])))
    case BodyOf => if o.secret then None else Some(StrNode("body"))
  }

  function SecretPart(secret: bool): Part {
    (SecretKey, if secret then Some(BoolNode(true)) else None)
  }

  ghost function PrintOutputs(outputs: seq<Output>): Option<seq<Entry>> {
    if outputs == [] then Some([])
    else
      var rest :- PrintOutputs(outputs[..|outputs| - 1]);
      var last :- PrintOutput(outputs[|outputs| - 1]);
      Some(rest + [Entry(KeyOf(outputs[|outputs| - 1].name), last)])
  }

  predicate StoresOutputs(d: Data) {
    d.RequestData? || d.AssertData? || d.WebhookData? || d.SseData? || d.OperationData? || d.EventData?
  }

  function OutputNames(outputs: seq<Output>): set<string> {
    set i | 0 <= i < |outputs| :: outputs[i].name
  }

  /** addShellOutputs, with the mirror a set node may store and the bindings of a module. */
  ghost function OutputsPart(n: Stored): Option<Part> {
    if n.data.ModuleData? then
      if n.outputs != [] then None else Some(PairsPart(OutputsKey, AsAny(n.data.bindings)))
    else if n.data.SetData? then
      if n.outputs == [] || OutputNames(n.outputs) == n.data.vars.Keys then Some((OutputsKey, None)) else None
    else if n.outputs == [] then Some((OutputsKey, None))
    else if !StoresOutputs(n.data) then None
    else
      var printed :- PrintOutputs(n.outputs);
      Some((OutputsKey, Some(Mapping(printed))))
  }

  ghost function InputsPart(d: Data): Part {
    if d.ModuleData? then PairsPart(InputsKey, d.inputs) else (InputsKey, None)
  }

  // ---- Nodes

  ghost function NodeParts(n: Stored, kind: Yaml, outputs: Part, checks: Part, links: Links): seq<Part> {
    [(DisplayKey, if n.display != "" && n.display != n.id then Some(StrNode(n.display)) else None),
     (RunWhenKey, if n.always then Some(StrNode("always")) else None),
     (KindOf(n.data), Some(kind)), InputsPart(n.data), outputs, checks,
     NamesPart(NextKey, links.next), NamesPart(OnFailureKey, links.fail)]
  }

  /** oneNode. */
  ghost function PrintNode(n: Stored, edges: seq<FlowEdge>): Option<Yaml>
    decreases n
  {
    var kind :- PrintData(n.data);
    :- Need(n.id != "");
    var outputs :- OutputsPart(n);
    var checks :- ChecksPart(ExpectKey, n.checks);
    Some(Mapping(Build(NodeParts(n, kind, outputs, checks, ReadLinks(n.id, edges)))))
  }

  ghost function PrintNodes(nodes: seq<Stored>, edges: seq<FlowEdge>): Option<seq<Entry>>
    decreases nodes
  {
    if nodes == [] then Some([])
    else
      var rest :- PrintNodes(nodes[..|nodes| - 1], edges);
      var last :- PrintNode(nodes[|nodes| - 1], edges);
      Some(rest + [Entry(KeyOf(nodes[|nodes| - 1].id), last)])
  }

  /** inlineBody. */
  ghost function PrintBody(b: StoredBody): Option<Yaml>
    decreases b
  {
    var nodes :- PrintNodes(b.nodes, b.edges);
    :- Need(b.nodes != []);
    Some(Mapping(Build([(NodesKey, Some(Mapping(nodes)))])))
  }
}
