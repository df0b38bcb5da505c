/** How a node's data references are resolved, checked and assembled from an output view. */
module Inputs {
  import opened Graphs
  import opened References
  import opened Flows

  method ResolveRef(ref: string, view: View) returns (source: Id, key: string)
    requires "" in view
    ensures (source, key) == ResolveDataRef(ref, view)
  {
    var parts := ParseDataRef(ref);
    source, key := parts.0, parts.1;
    if source == "" || source in view { return; }
    var owned := HasPathRoot(ref, view[""].Keys);
    if owned { return "", ref; }
  }

  method MissingInput(ref: string, view: View) returns (missing: bool)
    requires "" in view
    ensures missing <==> !InputPresent(ref, view)
  {
    var source, key := ResolveRef(ref, view);
    missing := source !in view || LookupPath(key, view[source]).None?;
  }

  method ValidateInputs(n: Node, view: View) returns (ok: bool)
    requires "" in view
    ensures ok <==> InputsPresent(n, view)
  {
    for i := 0 to |n.inputSchema|
      invariant forall k :: 0 <= k < i ==> InputPresent(n.inputSchema[k], view)
    {
      var missing := MissingInput(n.inputSchema[i], view);
      if missing { return false; }
    }
    return true;
  }

  method AssembleInputs(n: Node, view: View) returns (inputs: map<string, Value>)
    requires "" in view && InputsPresent(n, view)
    ensures inputs == Assemble(n, view)
  {
    inputs := map[];
    for i := 0 to |n.inputSchema|
      invariant inputs.Keys == set k | 0 <= k < i :: n.inputSchema[k]
      invariant forall ref :: ref in inputs ==> InputPresent(ref, view) && inputs[ref] == InputValue(ref, view)
    {
      var ref := n.inputSchema[i];
      assert InputPresent(ref, view);
      var source, key := ResolveRef(ref, view);
      inputs := inputs[ref := LookupPath(key, view[source]).value];
    }
  }

  ghost predicate NamesSkipped(ref: string, skipped: set<Id>, view: View)
    requires "" in view
  {
    var source := ParseDataRef(ref).0;
    source != "" && source in skipped && ResolveDataRef(ref, view).0 != ""
  }

  method RefersSkipped(n: Node, skipped: set<Id>, view: View) returns (refers: bool)
    requires "" in view
    ensures refers <==> exists ref :: ref in n.inputSchema && NamesSkipped(ref, skipped, view)
  {
    for i := 0 to |n.inputSchema|
      invariant forall k :: 0 <= k < i ==> !NamesSkipped(n.inputSchema[k], skipped, view)
    {
      var ref := n.inputSchema[i];
      var source := ParseDataRef(ref).0;
      if source != "" && source in skipped {
        var resolved, _ := ResolveRef(ref, view);
        assert NamesSkipped(ref, skipped, view) <==> resolved != "";
        if resolved != "" { return true; }
      }
    }
    return false;
  }

  /** runNode: validate, assemble, execute. */
  method RunNode(l: Launch, n: Node, view: View) returns (run: Run)
    requires "" in view
    ensures run == RunOf(l, n, view)
  {
    var ok := ValidateInputs(n, view);
    if !ok { return Refused; }
    var inputs := AssembleInputs(n, view);
    return Ran(l.run(n.id, inputs));
  }
}
