/** Every clean compiled body can be decompiled at all. */
module FlowPrintable {
  import opened References
  import opened GoText
  import opened Checks
  import opened CheckRoundTrip
  import opened FlowTree
  import opened FlowEdges
  import opened FlowModel
  import opened FlowPrint
  import opened FlowShapes

  lemma {:induction false} LinePrints(c: Check)
    requires CompiledCheck(c) && CleanCheck(c)
    ensures CheckLine(c).Some?
  {
    CleanIsWritable(c);
    WritableComesBack(c);
  }

  lemma {:induction false} LinesPrint(checks: seq<Check>)
    requires CompiledChecks(checks) && CleanChecks(checks)
    ensures CheckLines(checks).Some?
  {
    if checks != [] {
      LinesPrint(checks[..|checks| - 1]);
      LinePrints(checks[|checks| - 1]);
    }
  }

  lemma {:induction false} CasesPrint(cases: seq<Case>)
    requires forall i :: 0 <= i < |cases| ==> CompiledCase(cases[i])
    requires forall i :: 0 <= i < |cases| ==> CleanCheck(cases[i].when)
    ensures PrintCases(cases).Some?
  {
    if cases != [] {
      CasesPrint(cases[..|cases| - 1]);
      LinePrints(cases[|cases| - 1].when);
    }
  }

  lemma {:induction false} GroupsPrint(groups: seq<Group>)
    requires CompiledGroups(groups) && CleanGroups(groups)
    ensures PrintGroups(groups).Some?
  {
    if groups != [] {
      GroupsPrint(groups[..|groups| - 1]);
      LinesPrint(groups[|groups| - 1].checks);
    }
  }

  /** The outputs are printed exactly when each path and header is named and no body is secret. */
  lemma {:induction false} OutputsPrintExactly(outputs: seq<Output>)
    ensures PrintOutputs(outputs).Some? <==>
      CleanOutputs(outputs) && forall i :: 0 <= i < |outputs| ==> outputs[i].extractor.BodyOf? ==> !outputs[i].secret
  {
    if outputs != [] {
      var front, last := outputs[..|outputs| - 1], outputs[|outputs| - 1];
      OutputsPrintExactly(front);
      assert forall i :: 0 <= i < |front| ==> outputs[i] == front[i];
      assert PrintOutput(last).Some? <==>
        last.extractor != PathOf("") && last.extractor != HeaderOf("") && (last.extractor.BodyOf? ==> !last.secret);
    }
  }

  lemma {:induction false} DataPrints(d: Data)
    requires CompiledData(d) && CleanData(d)
    ensures PrintData(d).Some?
    decreases d
  {
    match d
    case BranchData(_, cases, _) => CasesPrint(cases);
    case WebhookData(_, _, groups) => GroupsPrint(groups);
    case EventData(_, _, _, _, groups) => GroupsPrint(groups);
    case PollData(_, _, _, body) => BodyPrints(body);
    case LoopData(_, _, _, _, _, body) => BodyPrints(body);
    case _ =>
  }

  lemma {:induction false} OutputsPartPrints(n: Stored)
    requires CompiledNode(n) && CleanNode(n)
    ensures OutputsPart(n).Some?
  {
    OutputsPrintExactly(n.outputs);
  }

  lemma {:induction false} NodePrints(n: Stored, edges: seq<FlowEdge>)
    requires CompiledNode(n) && CleanNode(n)
    ensures PrintNode(n, edges).Some?
    decreases n
  {
    DataPrints(n.data);
    OutputsPartPrints(n);
    LinesPrint(n.checks);
  }

  lemma {:induction false} NodesPrint(nodes: seq<Stored>, edges: seq<FlowEdge>)
    requires forall i :: 0 <= i < |nodes| ==> CompiledNode(nodes[i]) && CleanNode(nodes[i])
    ensures PrintNodes(nodes, edges).Some?
    decreases nodes
  {
    if nodes != [] {
      NodesPrint(nodes[..|nodes| - 1], edges);
      NodePrints(nodes[|nodes| - 1], edges);
    }
  }

  /** Decompiling refuses no clean compiled body. */
  lemma {:induction false} BodyPrints(b: StoredBody)
    requires CompiledBody(b) && CleanBody(b)
    ensures PrintBody(b).Some?
    decreases b
  {
    NodesPrint(b.nodes, b.edges);
  }
}
