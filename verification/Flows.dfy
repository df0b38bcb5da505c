/** A flow as the engine runs it, and the decision the scheduler takes about one node. */
module Flows {
  import opened Graphs
  import opened References

  datatype RunWhen = OnSuccess | Always

  /** routes marks the kinds whose result selects successors (a branch). */
  datatype Node = Node(id: Id, display: string, runWhen: RunWhen, routes: bool, inputSchema: seq<string>)

  datatype Flow = Flow(nodes: seq<Node>, edges: seq<Edge>)

  /** What one node's executor returns. A failed node may still report outputs. */
  datatype Outcome =
    | Success(outputs: map<string, Value>, routed: Option<seq<Id>>)
    | Failure(partial: Option<map<string, Value>>)

  /** The outputs committed so far; the flow inputs are under the empty id. */
  type View = map<Id, map<string, Value>>

  /** A flow, the inputs it is launched with, and the behaviour of its nodes on their assembled inputs. */
  datatype Launch = Launch(flow: Flow, inputs: map<string, Value>, run: (Id, map<string, Value>) -> Outcome)

  datatype Status = Succeeded | Failed | Skipped

  /** Everything the scheduler records about a node once it ended. */
  datatype Verdict = Verdict(
    status: Status,
    started: bool,
    published: Option<map<string, Value>>,
    dead: set<Id>,
    cause: Option<string>,
    routedAway: bool)

  function Ids(f: Flow): set<Id> {
    set n | n in f.nodes :: n.id
  }

  function EdgeSet(f: Flow): set<Edge> {
    set e | e in f.edges
  }

  predicate UniqueIds(f: Flow) {
    forall i, j :: 0 <= i < j < |f.nodes| ==> f.nodes[i].id != f.nodes[j].id
  }

  /** What NewFlowEngine accepts, for unique and non-empty ids. */
  ghost predicate WellFormed(f: Flow) {
    UniqueIds(f) && Within(EdgeSet(f), Ids(f)) && "" !in Ids(f)
  }

  /** The predecessors of n, in edge order, one per edge. */
  function Sources(edges: seq<Edge>, n: Id): seq<Id> {
    if edges == [] then []
    else
      var rest := Sources(edges[..|edges| - 1], n);
      var e := edges[|edges| - 1];
      if e.target == n then rest + [e.source] else rest
  }

  function Targets(edges: seq<Edge>, n: Id): seq<Id> {
    if edges == [] then []
    else
      var rest := Targets(edges[..|edges| - 1], n);
      var e := edges[|edges| - 1];
      if e.source == n then rest + [e.target] else rest
  }

  lemma {:induction false} InSources(edges: seq<Edge>, m: Id, n: Id)
    ensures m in Sources(edges, n) <==> Edge(m, n) in edges
  {
    if edges != [] {
      InSources(edges[..|edges| - 1], m, n);
      assert edges == edges[..|edges| - 1] + [edges[|edges| - 1]];
    }
  }

  lemma {:induction false} InTargets(edges: seq<Edge>, n: Id, m: Id)
    ensures m in Targets(edges, n) <==> Edge(n, m) in edges
  {
    if edges != [] {
      InTargets(edges[..|edges| - 1], n, m);
      assert edges == edges[..|edges| - 1] + [edges[|edges| - 1]];
    }
  }

  /** The node with this id. */
  function NodeOf(f: Flow, id: Id): (n: Node)
    requires id in Ids(f)
    ensures n in f.nodes && n.id == id
  {
    FindNode(f.nodes, id)
  }

  function FindNode(nodes: seq<Node>, id: Id): (n: Node)
    requires exists n :: n in nodes && n.id == id
    ensures n in nodes && n.id == id
  {
    if nodes[0].id == id then nodes[0] else FindNode(nodes[1..], id)
  }

  /** resolveDataRef: a node that published owns "a.b"; otherwise a flow input the path is rooted at does. */
  ghost function ResolveDataRef(ref: string, view: View): (r: (Id, string))
    requires "" in view
  {
    var (source, key) := ParseDataRef(ref);
    if source == "" || source in view then (source, key)
    else if Rooted(ref, view[""].Keys) then ("", ref)
    else (source, key)
  }

  ghost predicate InputPresent(ref: string, view: View)
    requires "" in view
  {
    var (source, key) := ResolveDataRef(ref, view);
    source in view && LookupPath(key, view[source]).Some?
  }

  /** validateInputs accepts. */
  ghost predicate InputsPresent(n: Node, view: View)
    requires "" in view
  {
    forall ref :: ref in n.inputSchema ==> InputPresent(ref, view)
  }

  ghost function InputValue(ref: string, view: View): Value
    requires "" in view && InputPresent(ref, view)
  {
    var (source, key) := ResolveDataRef(ref, view);
    LookupPath(key, view[source]).value
  }

  /** assembleInputs: each reference of the schema under its full text. */
  ghost function Assemble(n: Node, view: View): map<string, Value>
    requires "" in view && InputsPresent(n, view)
  {
    map ref | ref in n.inputSchema :: InputValue(ref, view)
  }

  /** The successor edges a result turns dead: all the ones it did not route to. */
  function DeadTargets(targets: seq<Id>, routed: Option<seq<Id>>): set<Id> {
    match routed
    case None => {}
    case Some(taken) => set t | t in targets && t !in taken
  }

  function SkippedRouting(n: Node): Option<seq<Id>> {
    if n.routes then Some([]) else None
  }

  /** The name a failure is reported under. */
  function DisplayName(n: Node): string {
    if n.display != "" then n.display else n.id
  }

  /** What a started node hands back: its outcome, or that its inputs were not there. */
  datatype Run = Refused | Ran(outcome: Outcome)

  /** runNode on the outputs committed when the node started. */
  ghost function RunOf(l: Launch, n: Node, view: View): Run
    requires "" in view
  {
    if InputsPresent(n, view) then Ran(l.run(n.id, Assemble(n, view))) else Refused
  }

  /** How the scheduler settles what a started node handed back. */
  function Settle(l: Launch, n: Node, run: Run): Verdict {
    var targets := Targets(l.flow.edges, n.id);
    match run
    case Refused =>
      if n.runWhen == Always then
        // A skipped routing node still carries a routing result, and it names no target.
        Verdict(Skipped, true, Some(map[]), DeadTargets(targets, SkippedRouting(n)), None, false)
      else
        Verdict(Failed, true, None, {}, Some(DisplayName(n)), false)
    case Ran(Success(outputs, routed)) =>
      Verdict(Succeeded, true, Some(outputs), DeadTargets(targets, routed), None, false)
    case Ran(Failure(partial)) =>
      Verdict(Failed, true, partial, {}, Some(DisplayName(n)), false)
  }

  ghost function Finish(l: Launch, n: Node, view: View): Verdict
    requires "" in view
  {
    Settle(l, n, RunOf(l, n, view))
  }

  /** The first predecessor that failed, or was skipped because of a failure, names the cause. */
  function FirstCause(preds: seq<Id>, facts: map<Id, Verdict>): (c: Option<string>)
    ensures c.Some? <==> exists p :: p in preds && p in facts && facts[p].cause.Some?
  {
    if preds == [] then None
    else if preds[0] in facts && facts[preds[0]].cause.Some? then facts[preds[0]].cause
    else FirstCause(preds[1..], facts)
  }

  /** The predecessor at i carries the cause, and none before it carries one. */
  ghost predicate FirstWithCause(preds: seq<Id>, facts: map<Id, Verdict>, i: int, c: Option<string>) {
    && 0 <= i < |preds| && preds[i] in facts && c.Some? && facts[preds[i]].cause == c
    && forall j :: 0 <= j < i && preds[j] in facts ==> facts[preds[j]].cause == None
  }

  lemma {:induction false} FirstCauseIsFirst(preds: seq<Id>, facts: map<Id, Verdict>)
    ensures FirstCause(preds, facts).Some? ==> exists i :: FirstWithCause(preds, facts, i, FirstCause(preds, facts))
    ensures FirstCause(preds, facts).None? ==> forall p :: p in preds && p in facts ==> facts[p].cause == None
  {
    if preds != [] && !(preds[0] in facts && facts[preds[0]].cause.Some?) {
      FirstCauseIsFirst(preds[1..], facts);
      if i :| FirstWithCause(preds[1..], facts, i, FirstCause(preds, facts)) {
        assert FirstWithCause(preds, facts, i + 1, FirstCause(preds, facts)) by {
          forall j | 0 <= j < i + 1 && preds[j] in facts ensures facts[preds[j]].cause == None {
            if j > 0 { assert preds[1..][j - 1] == preds[j]; }
          }
        }
      }
    } else if preds != [] {
      assert FirstWithCause(preds, facts, 0, FirstCause(preds, facts));
    }
  }

  ghost predicate DeadFrom(p: Id, n: Id, facts: map<Id, Verdict>) {
    p in facts && (n in facts[p].dead || facts[p].status == Skipped || facts[p].status == Failed)
  }

  ghost predicate FullyDead(n: Id, preds: seq<Id>, facts: map<Id, Verdict>) {
    preds != [] && forall p :: p in preds ==> DeadFrom(p, n, facts)
  }

  ghost predicate AwayFrom(p: Id, n: Id, facts: map<Id, Verdict>) {
    p in facts && (n in facts[p].dead || facts[p].routedAway)
  }

  ghost predicate RoutedAway(n: Id, preds: seq<Id>, facts: map<Id, Verdict>) {
    preds != [] && forall p :: p in preds ==> AwayFrom(p, n, facts)
  }

  /** The outputs committed by the nodes that ended. */
  ghost function ViewOf(inputs: map<string, Value>, facts: map<Id, Verdict>): (v: View)
    ensures "" in v
  {
    (map a | a in facts && facts[a].published.Some? :: facts[a].published.value)["" := inputs]
  }

  ghost predicate RefersToSkipped(ref: string, facts: map<Id, Verdict>, view: View)
    requires "" in view
  {
    var source := ParseDataRef(ref).0;
    source != "" && source in facts && facts[source].status == Skipped && ResolveDataRef(ref, view).0 != ""
  }

  ghost predicate InputsReferSkipped(n: Node, facts: map<Id, Verdict>, view: View)
    requires "" in view
  {
    exists ref :: ref in n.inputSchema && RefersToSkipped(ref, facts, view)
  }

  /** What the scheduler does with a node whose predecessors all ended with the given facts. */
  ghost function Decide(l: Launch, n: Node, facts: map<Id, Verdict>): Verdict {
    var preds := Sources(l.flow.edges, n.id);
    var view := ViewOf(l.inputs, facts);
    var away := RoutedAway(n.id, preds, facts);
    if n.runWhen == Always then
      if away then Verdict(Skipped, false, None, {}, None, true) else Finish(l, n, view)
    else if FirstCause(preds, facts).Some? then
      Verdict(Skipped, false, None, {}, FirstCause(preds, facts), away)
    else if FullyDead(n.id, preds, facts) || InputsReferSkipped(n, facts, view) then
      Verdict(Skipped, false, None, {}, None, away)
    else
      Finish(l, n, view)
  }
}
