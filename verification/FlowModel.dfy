/** The two sides of a flow file: the nodes an author writes, and the nodes the API stores. */
module FlowModel {
  import opened References
  import opened GoText
  import opened Checks
  import opened FlowTree
  import opened FlowEdges

  // ---- Shared parts

  datatype Case = Case(when: Check, target: string)

  datatype Group = Group(name: string, min: Option<int>, max: Option<int>, checks: seq<Check>)

  /** Where an output comes from. */
  datatype Extractor = PathOf(path: string) | HeaderOf(header: string) | BodyOf | StatusOf

  datatype Output = Output(name: string, extractor: Extractor, secret: bool)

  // ---- Stored nodes. An absent map, list or pointer is the empty one; an absent value is Null.

  datatype Stored = Stored(
    id: string, display: string, always: bool, checks: seq<Check>, outputs: seq<Output>, data: Data)

  datatype Data =
    | RequestData(verb: string, url: string, headers: map<string, string>, query: map<string, Any>, payload: Any, timeout: Option<int>)
    | ModuleData(flowId: string, inputs: map<string, Any>, bindings: map<string, string>)
    | DelayData(ms: int)
    | SetData(vars: map<string, Any>)
    | AssertData(target: Any)
    | BranchData(target: Any, cases: seq<Case>, fallback: Option<string>)
    | PollData(maxAttempts: Option<int>, interval: Option<int>, timeout: Option<int>, body: StoredBody)
    | LoopData(items: Any, itemVar: string, indexVar: string, maxIterations: Option<int>, continueOn: Option<bool>, body: StoredBody)
    | WebhookData(timeout: Option<int>, settle: Option<int>, groups: seq<Group>)
    | SseData(
        url: string, verb: string, headers: map<string, string>, timeout: Option<int>, maxEvents: Option<int>,
        completion: Option<string>, stop: Option<bool>)
    | OperationData(ref: string, operation: string, inputs: map<string, Any>, timeout: Option<int>)
    | EventData(ref: string, event: string, timeout: Option<int>, settle: Option<int>, groups: seq<Group>)

  datatype StoredBody = StoredBody(nodes: seq<Stored>, edges: seq<FlowEdge>)

  // ---- Written nodes

  datatype Source = Binding(text: string) | Extracted(extractor: Extractor)

  datatype Declared = Declared(name: string, source: Source, secret: bool)

  datatype Written = Written(
    id: string, display: string, always: bool, next: seq<string>, nextSet: bool, fail: seq<string>,
    outputs: seq<Declared>, checks: seq<Check>, spec: Spec)

  /** What follows the kind word. Ordered pairs are kept as a map: their order is never used. */
  datatype Spec =
    | RequestSpec(verb: string, url: string, headers: map<string, Any>, query: map<string, Any>, payload: Option<Any>, timeout: Option<int>)
    | ModuleSpec(ref: string, inputs: map<string, Any>, explicit: bool)
    | DelaySpec(ms: int)
    | SetSpec(vars: map<string, Any>)
    | AssertSpec(target: Option<Any>)
    | BranchSpec(target: Option<Any>, cases: seq<Case>, fallback: Option<string>)
    | PollSpec(maxAttempts: Option<int>, interval: Option<int>, timeout: Option<int>, body: seq<Written>)
    | LoopSpec(items: Any, itemVar: string, indexVar: string, maxIterations: Option<int>, continueOn: Option<bool>, body: seq<Written>)
    | WebhookSpec(timeout: Option<int>, settle: Option<int>, groups: seq<Group>)
    | SseSpec(
        url: string, verb: string, headers: map<string, Any>, timeout: Option<int>, maxEvents: Option<int>,
        completion: Option<string>, stop: Option<bool>)
    | IntegrationSpec(
        ref: string, operation: string, event: string, inputs: map<string, Any>, timeout: Option<int>,
        settle: Option<int>, groups: seq<Group>)

  // ---- Names

  predicate IsNameChar(c: char) {
    'a' <= c <= 'z' || 'A' <= c <= 'Z' || '0' <= c <= '9' || c == '_' || c == '-'
  }

  /** validID. */
  predicate ValidId(s: string) {
    s != "" && forall i :: 0 <= i < |s| ==> IsNameChar(s[i])
  }

  /** bindingPattern: two ids around a dot. */
  predicate ValidBinding(s: string) {
    ValidId(s[..FirstDot(s)]) && FirstDot(s) < |s| && ValidId(s[FirstDot(s) + 1..])
  }

  /** outputsAllowed. */
  predicate OutputsAllowed(spec: Spec) {
    || spec.RequestSpec? || spec.ModuleSpec? || spec.AssertSpec? || spec.WebhookSpec? || spec.SseSpec? || spec.IntegrationSpec?
  }

  /** unicode.ToUpper, as far as it can reach an HTTP method. */
  function UpperChar(c: char): char {
    if 'a' <= c <= 'z' then c - 'a' + 'A'
    else if c == '\U{131}' then 'I'
    else if c == '\U{17F}' then 'S'
    else c
  }

  function Upper(s: string): string {
    seq(|s|, i requires 0 <= i < |s| => UpperChar(s[i]))
  }

  predicate IsHttpMethod(s: string) {
    s == "DELETE" || s == "GET" || s == "HEAD" || s == "OPTIONS" || s == "PATCH" || s == "POST" || s == "PUT"
  }

  lemma {:induction false} UpperTwice(s: string)
    ensures Upper(Upper(s)) == Upper(s)
  {
  }

  lemma {:induction false} UpperTrimsRight(s: string)
    ensures TrimRight(Upper(s)) == Upper(TrimRight(s))
  {
    if s != "" && IsSpace(s[|s| - 1]) {
      assert Upper(s)[..|s| - 1] == Upper(s[..|s| - 1]);
      UpperTrimsRight(s[..|s| - 1]);
    }
  }

  lemma {:induction false} UpperTrimsLeft(s: string)
    ensures TrimLeft(Upper(s)) == Upper(TrimLeft(s))
  {
    if s != "" && IsSpace(s[0]) {
      assert Upper(s)[1..] == Upper(s[1..]);
      UpperTrimsLeft(s[1..]);
    }
  }

  lemma {:induction false} UpperStaysTrimmed(s: string)
    requires TrimSpace(s) == s
    ensures TrimSpace(Upper(s)) == Upper(s)
  {
    UpperTrimsLeft(s);
    UpperTrimsRight(TrimLeft(s));
  }

  // ---- Flow ids

  predicate IsHexDigit(c: char) { HexDigitValue(c).Some? }

  function LowerChar(c: char): char {
    if 'A' <= c <= 'Z' then c - 'A' + 'a' else c
  }

  predicate UuidShape(s: string) {
    |s| == 36 && forall i :: 0 <= i < 36 ==> if i in {8, 13, 18, 23} then s[i] == '-' else IsHexDigit(s[i])
  }

  /** uuid.Parse followed by String, for the hyphenated form. */
  function Uuid(s: string): Option<string> {
    if UuidShape(s) then Some(seq(|s|, i requires 0 <= i < |s| => LowerChar(s[i]))) else None
  }

  lemma {:induction false} UuidIsCanonical(s: string)
    requires Uuid(s).Some?
    ensures Uuid(Uuid(s).value) == Uuid(s) && TrimSpace(Uuid(s).value) == Uuid(s).value
  {
    var u := Uuid(s).value;
    assert u[0] == LowerChar(s[0]) && u[35] == LowerChar(s[35]);
    assert forall i :: 0 <= i < 36 ==> LowerChar(u[i]) == u[i];
    assert Uuid(u).value == u;
  }

  // ---- Edges of the two sides

  function CaseTargets(cases: seq<Case>): seq<string> {
    seq(|cases|, i requires 0 <= i < |cases| => cases[i].target)
  }

  function FallbackTarget(fallback: Option<string>): seq<string> {
    if fallback.Some? then [fallback.value] else []
  }

  function BranchTargets(n: Stored): seq<string> {
    if n.data.BranchData? then CaseTargets(n.data.cases) + FallbackTarget(n.data.fallback) else []
  }

  function LinksOf(n: Written): Links {
    var branch := if n.spec.BranchSpec? then CaseTargets(n.spec.cases) + FallbackTarget(n.spec.fallback) else [];
    Links(n.id, n.next, branch, n.fail)
  }

  function AllLinks(nodes: seq<Written>): seq<Links> {
    seq(|nodes|, i requires 0 <= i < |nodes| => LinksOf(nodes[i]))
  }
}
