/** Compiling what was decompiled gives the same nodes and edges, nested bodies included. */
module FlowRoundTrip {
  import opened References
  import opened GoText
  import opened Checks
  import opened FlowTree
  import opened FlowEdges
  import opened FlowModel
  import opened FlowParse
  import opened FlowLower
  import opened FlowPrint
  import opened FlowShapes
  import opened FlowReadBack
  import opened FlowNodeBack

  // ---- Kinds with a body

  lemma {:induction false} PollBuilt(d: Data, body: Yaml) returns (m: Fields)
    requires d.PollData?
    ensures MappingOf(Mapping(Build(PollParts(d, body)))) == Some(m)
    ensures Carries(m, PollParts(d, body)) && m.Keys <= {MaxAttemptsKey, IntervalKey, TimeoutKey, BodyKey}
  {
    BuildRead(PollParts(d, body), {MaxAttemptsKey, IntervalKey, TimeoutKey, BodyKey});
    m := FieldsOf(Build(PollParts(d, body))).value;
  }

  lemma {:induction false} PollTakes(d: Data, body: Yaml, m: Fields)
    requires d.PollData? && Positive(d.maxAttempts) && Positive(d.interval) && Positive(d.timeout)
    requires Carries(m, PollParts(d, body))
    ensures TakePositive(m, MaxAttemptsKey) == Some(d.maxAttempts) && TakePositive(m, IntervalKey) == Some(d.interval)
    ensures TakePositive(m, TimeoutKey) == Some(d.timeout) && Field(m, BodyKey) == Some(body)
  {
    var parts := PollParts(d, body);
    assert Field(m, MaxAttemptsKey) == parts[0].1 && Field(m, IntervalKey) == parts[1].1 && Field(m, TimeoutKey) == parts[2].1;
    assert Field(m, BodyKey) == parts[3].1;
    PositiveBack(m, MaxAttemptsKey, d.maxAttempts);
    PositiveBack(m, IntervalKey, d.interval);
    PositiveBack(m, TimeoutKey, d.timeout);
  }

  lemma {:induction false} PollRead(d: Data, body: seq<Written>, m: Fields)
    requires d.PollData? && m.Keys <= {MaxAttemptsKey, IntervalKey, TimeoutKey, BodyKey} && BodyKey in m
    requires TakePositive(m, MaxAttemptsKey) == Some(d.maxAttempts) && TakePositive(m, IntervalKey) == Some(d.interval)
    requires TakePositive(m, TimeoutKey) == Some(d.timeout)
    ensures PollFrom(m, body) == Some(PollSpec(d.maxAttempts, d.interval, d.timeout, body))
  {
  }

  lemma {:induction false} PollReads(d: Data, body: Yaml, y: Yaml, m: Fields)
    requires d.PollData? && MappingOf(y) == Some(m) && m.Keys <= {MaxAttemptsKey, IntervalKey, TimeoutKey, BodyKey}
    requires TakePositive(m, MaxAttemptsKey) == Some(d.maxAttempts) && TakePositive(m, IntervalKey) == Some(d.interval)
    requires TakePositive(m, TimeoutKey) == Some(d.timeout) && Field(m, BodyKey) == Some(body)
    requires ParseBody(body).Some? && LowerBody(ParseBody(body).value, map[]) == Some(d.body)
    ensures Recovers(ParsePoll(y), d)
  {
    PollParsed(y, m, body);
    PollRead(d, ParseBody(body).value, m);
    PollLowers(d, ParseBody(body).value);
  }

  lemma {:induction false} PollParsed(y: Yaml, m: Fields, body: Yaml)
    requires MappingOf(y) == Some(m) && Field(m, BodyKey) == Some(body) && ParseBody(body).Some?
    ensures ParsePoll(y) == PollFrom(m, ParseBody(body).value)
  {
    assert TakeInline(m, Size(y)) == ParseBody(body);
  }

  lemma {:induction false} PollLowers(d: Data, body: seq<Written>)
    requires d.PollData? && LowerBody(body, map[]) == Some(d.body)
    ensures Recovers(Some(PollSpec(d.maxAttempts, d.interval, d.timeout, body)), d)
  {
  }

  lemma {:induction false} PollBack(d: Data, body: Yaml)
    requires d.PollData? && Positive(d.maxAttempts) && Positive(d.interval) && Positive(d.timeout)
    requires ParseBody(body).Some? && LowerBody(ParseBody(body).value, map[]) == Some(d.body)
    ensures Recovers(ParsePoll(Mapping(Build(PollParts(d, body)))), d)
  {
    var m := PollBuilt(d, body);
    PollTakes(d, body, m);
    PollReads(d, body, Mapping(Build(PollParts(d, body))), m);
  }

  lemma {:induction false} PollSpecs(y: Yaml)
    ensures ParseSpec(PollKey, y) == ParsePoll(y)
  {
  }

  lemma {:induction false} PollComesBack(d: Data)
    requires d.PollData? && Positive(d.maxAttempts) && Positive(d.interval) && Positive(d.timeout)
    requires PrintBody(d.body).Some? ==> ParseBody(PrintBody(d.body).value).Some?
    requires PrintBody(d.body).Some? ==> LowerBody(ParseBody(PrintBody(d.body).value).value, map[]) == Some(d.body)
    ensures ComesBack(d)
  {
    if PrintBody(d.body).Some? {
      PollBack(d, PrintBody(d.body).value);
      PollSpecs(PrintData(d).value);
    }
  }

  lemma {:induction false} LoopBuilt(d: Data, body: Yaml) returns (m: Fields)
    requires d.LoopData?
    ensures MappingOf(Mapping(Build(LoopParts(d, body)))) == Some(m) && Carries(m, LoopParts(d, body))
    ensures m.Keys <= {ItemsKey, ItemVarKey, IndexVarKey, MaxIterationsKey, ContinueKey, BodyKey}
  {
    BuildRead(LoopParts(d, body), {ItemsKey, ItemVarKey, IndexVarKey, MaxIterationsKey, ContinueKey, BodyKey});
    m := FieldsOf(Build(LoopParts(d, body))).value;
  }

  lemma {:induction false} LoopTakes(d: Data, body: Yaml, m: Fields)
    requires d.LoopData? && Survives(d.items) && NonNegative(d.maxIterations) && Carries(m, LoopParts(d, body))
    ensures TakeAny(m, ItemsKey) == Some(Some(d.items)) && TakeText(m, ItemVarKey) == Some(d.itemVar)
    ensures TakeText(m, IndexVarKey) == Some(d.indexVar) && TakeNonNegative(m, MaxIterationsKey) == Some(d.maxIterations)
    ensures TakeBool(m, ContinueKey) == Some(d.continueOn) && Field(m, BodyKey) == Some(body)
  {
    var parts := LoopParts(d, body);
    assert Field(m, ItemsKey) == parts[0].1 && Field(m, ItemVarKey) == parts[1].1 && Field(m, IndexVarKey) == parts[2].1;
    assert Field(m, MaxIterationsKey) == parts[3].1 && Field(m, ContinueKey) == parts[4].1 && Field(m, BodyKey) == parts[5].1;
    ValueBack(d.items);
    TextBack(m, ItemVarKey, d.itemVar);
    TextBack(m, IndexVarKey, d.indexVar);
    NonNegativeBack(m, MaxIterationsKey, d.maxIterations);
    BoolBack(m, ContinueKey, d.continueOn);
  }

  lemma {:induction false} LoopRead(d: Data, body: seq<Written>, m: Fields)
    requires d.LoopData? && BodyKey in m
    requires m.Keys <= {ItemsKey, ItemVarKey, IndexVarKey, MaxIterationsKey, ContinueKey, BodyKey}
    requires TakeAny(m, ItemsKey) == Some(Some(d.items)) && TakeText(m, ItemVarKey) == Some(d.itemVar)
    requires TakeText(m, IndexVarKey) == Some(d.indexVar) && TakeNonNegative(m, MaxIterationsKey) == Some(d.maxIterations)
    requires TakeBool(m, ContinueKey) == Some(d.continueOn)
    requires TrimSpace(d.itemVar) == d.itemVar && TrimSpace(d.indexVar) == d.indexVar
    ensures LoopFrom(m, body) == Some(LoopSpec(d.items, d.itemVar, d.indexVar, d.maxIterations, d.continueOn, body))
  {
  }

  lemma {:induction false} LoopParsed(y: Yaml, m: Fields, body: Yaml)
    requires MappingOf(y) == Some(m) && Field(m, BodyKey) == Some(body) && ParseBody(body).Some?
    ensures ParseLoop(y) == LoopFrom(m, ParseBody(body).value)
  {
    assert TakeInline(m, Size(y)) == ParseBody(body);
  }

  lemma {:induction false} LoopLowers(d: Data, body: seq<Written>)
    requires d.LoopData? && LowerBody(body, map[]) == Some(d.body)
    ensures Recovers(Some(LoopSpec(d.items, d.itemVar, d.indexVar, d.maxIterations, d.continueOn, body)), d)
  {
  }

  lemma {:induction false} LoopBack(d: Data, body: Yaml)
    requires d.LoopData? && Survives(d.items) && NonNegative(d.maxIterations)
    requires TrimSpace(d.itemVar) == d.itemVar && TrimSpace(d.indexVar) == d.indexVar
    requires ParseBody(body).Some? && LowerBody(ParseBody(body).value, map[]) == Some(d.body)
    ensures Recovers(ParseLoop(Mapping(Build(LoopParts(d, body)))), d)
  {
    var m := LoopBuilt(d, body);
    LoopTakes(d, body, m);
    LoopRead(d, ParseBody(body).value, m);
    LoopParsed(Mapping(Build(LoopParts(d, body))), m, body);
    LoopLowers(d, ParseBody(body).value);
  }

  lemma {:induction false} LoopSpecs(y: Yaml)
    ensures ParseSpec(LoopKey, y) == ParseLoop(y)
  {
  }

  lemma {:induction false} LoopComesBack(d: Data)
    requires d.LoopData? && Survives(d.items) && NonNegative(d.maxIterations)
    requires TrimSpace(d.itemVar) == d.itemVar && TrimSpace(d.indexVar) == d.indexVar
    requires PrintBody(d.body).Some? ==> ParseBody(PrintBody(d.body).value).Some?
    requires PrintBody(d.body).Some? ==> LowerBody(ParseBody(PrintBody(d.body).value).value, map[]) == Some(d.body)
    ensures ComesBack(d)
  {
    if PrintBody(d.body).Some? {
      LoopBack(d, PrintBody(d.body).value);
      LoopSpecs(PrintData(d).value);
    }
  }

  // ---- Bodies

  ghost predicate AllMatch(written: seq<Written>, nodes: seq<Stored>, edges: seq<FlowEdge>) {
    |written| == |nodes| && forall i :: 0 <= i < |nodes| ==> Matches(written[i], nodes[i], edges)
  }

  lemma {:induction false} MatchedLinks(written: seq<Written>, nodes: seq<Stored>, edges: seq<FlowEdge>)
    requires AllMatch(written, nodes, edges)
    ensures AllLinks(written) == Reread(StoredLinks(nodes), edges)
  {
    forall i | 0 <= i < |nodes| ensures AllLinks(written)[i] == Reread(StoredLinks(nodes), edges)[i] {
      assert Matches(written[i], nodes[i], edges);
    }
  }

  lemma {:induction false} MatchedNodes(written: seq<Written>, nodes: seq<Stored>, edges: seq<FlowEdge>)
    requires AllMatch(written, nodes, edges)
    ensures LowerNodes(written, map[]) == Some(nodes)
  {
    if nodes != [] {
      var k := |nodes| - 1;
      forall i | 0 <= i < k ensures Matches(written[..k][i], nodes[..k][i], edges) {
        assert Matches(written[i], nodes[i], edges);
      }
      MatchedNodes(written[..k], nodes[..k], edges);
      assert Matches(written[k], nodes[k], edges);
      FrontAndLast(nodes);
    }
  }

  /** An edge of a compiled body leads to one of its nodes, so its target is a valid id. */
  lemma {:induction false} TargetsNamed(b: StoredBody, id: string, kind: Kind, edges: seq<FlowEdge>)
    requires forall e :: e in edges ==> exists i :: 0 <= i < |b.nodes| && b.nodes[i].id == e.arrow.target
    requires forall i :: 0 <= i < |b.nodes| ==> ValidId(b.nodes[i].id)
    ensures forall t :: t in TargetsOf(id, kind, edges) ==> ValidId(t)
  {
    if edges != [] {
      var front, last := edges[..|edges| - 1], edges[|edges| - 1];
      FrontAndLast(edges);
      assert forall e :: e in edges <==> e in front || e == last;
      TargetsNamed(b, id, kind, front);
      var i :| 0 <= i < |b.nodes| && b.nodes[i].id == last.arrow.target;
      assert ValidId(b.nodes[i].id);
    }
  }

  lemma {:induction false} EdgesAreNamed(b: StoredBody, id: string)
    requires CompiledBody(b)
    ensures EdgesNamed(id, b.edges)
  {
    forall i | 0 <= i < |b.nodes| ensures ValidId(b.nodes[i].id) { assert CompiledNode(b.nodes[i]); }
    TargetsNamed(b, id, Success, b.edges);
    TargetsNamed(b, id, Failure, b.edges);
  }

  /** The links of the nodes read back lead to nodes. */
  lemma {:induction false} RereadKnown(b: StoredBody)
    requires CompiledBody(b)
    ensures TargetsKnown(Reread(StoredLinks(b.nodes), b.edges))
  {
    var links := Reread(StoredLinks(b.nodes), b.edges);
    forall a | a in AllWanted(links) ensures exists i :: 0 <= i < |links| && links[i].id == a.target {
      DedupMembers(AllWanted(links));
      var k :| 0 <= k < |Dedup(AllWanted(links))| && Dedup(AllWanted(links))[k] == a;
      assert b.edges[k] == EdgeFor(a) && b.edges[k] in b.edges;
      var i :| 0 <= i < |b.nodes| && b.nodes[i].id == a.target;
      assert links[i].id == a.target;
    }
  }

  lemma {:induction false} MatchedBody(b: StoredBody, written: seq<Written>)
    requires CompiledBody(b) && AllMatch(written, b.nodes, b.edges)
    ensures LowerBody(written, map[]) == Some(b) && DistinctIds(AllLinks(written))
  {
    MatchedLinks(written, b.nodes, b.edges);
    MatchedNodes(written, b.nodes, b.edges);
    RereadKnown(b);
    forall i, j | 0 <= i < j < |written| ensures AllLinks(written)[i].id != AllLinks(written)[j].id {
      assert StoredLinks(b.nodes)[i].id != StoredLinks(b.nodes)[j].id;
    }
  }

  lemma {:induction false} PrintOneMoreNode(nodes: seq<Stored>, edges: seq<FlowEdge>)
    requires nodes != [] && PrintNodes(nodes, edges).Some?
    ensures PrintNodes(nodes[..|nodes| - 1], edges).Some? && PrintNode(nodes[|nodes| - 1], edges).Some?
    ensures PrintNodes(nodes, edges).value == PrintNodes(nodes[..|nodes| - 1], edges).value
      + [Entry(KeyOf(nodes[|nodes| - 1].id), PrintNode(nodes[|nodes| - 1], edges).value)]
  {
  }

  lemma {:induction false} ParseOneMoreNode(entries: seq<Entry>, e: Entry, m: Fields)
    requires ParseEntries(entries).Some? && MappingOf(e.value) == Some(m)
    requires ParseNode(KeyText(e.key), m, Size(e.value)).Some?
    ensures ParseEntries(entries + [e]) == Some(ParseEntries(entries).value + [ParseNode(KeyText(e.key), m, Size(e.value)).value])
  {
    assert (entries + [e])[..|entries|] == entries;
  }

  lemma {:induction false} AllMatchOneMore(written: seq<Written>, nodes: seq<Stored>, edges: seq<FlowEdge>, w: Written, n: Stored)
    requires AllMatch(written, nodes, edges) && Matches(w, n, edges)
    ensures AllMatch(written + [w], nodes + [n], edges)
  {
    forall i | 0 <= i < |nodes| + 1 ensures Matches((written + [w])[i], (nodes + [n])[i], edges) {
      if i < |nodes| { assert Matches(written[i], nodes[i], edges); }
    }
  }

  lemma {:induction false} KeysOfPrinted(nodes: seq<Stored>, edges: seq<FlowEdge>)
    requires PrintNodes(nodes, edges).Some? && DistinctIds(StoredLinks(nodes))
    ensures FieldsOf(PrintNodes(nodes, edges).value).Some?
    ensures forall k :: k in FieldsOf(PrintNodes(nodes, edges).value).value ==> exists i :: 0 <= i < |nodes| && KeyText(k) == nodes[i].id
  {
    if nodes != [] {
      var front, last := nodes[..|nodes| - 1], nodes[|nodes| - 1];
      PrintOneMoreNode(nodes, edges);
      forall i, j | 0 <= i < j < |front| ensures StoredLinks(front)[i].id != StoredLinks(front)[j].id {
        assert StoredLinks(nodes)[i].id != StoredLinks(nodes)[j].id;
      }
      KeysOfPrinted(front, edges);
      forall i | 0 <= i < |front| ensures front[i].id != last.id {
        assert StoredLinks(nodes)[i].id != StoredLinks(nodes)[|nodes| - 1].id;
      }
      OneMoreKey(PrintNodes(front, edges).value, Entry(KeyOf(last.id), PrintNode(last, edges).value), front, last);
      FrontAndLast(nodes);
    }
  }

  lemma {:induction false} OneMoreKey(entries: seq<Entry>, e: Entry, front: seq<Stored>, last: Stored)
    requires FieldsOf(entries).Some? && KeyText(e.key) == last.id && forall i :: 0 <= i < |front| ==> front[i].id != last.id
    requires forall k :: k in FieldsOf(entries).value ==> exists i :: 0 <= i < |front| && KeyText(k) == front[i].id
    ensures FieldsOf(entries + [e]).Some?
    ensures forall k :: k in FieldsOf(entries + [e]).value ==>
      exists i :: 0 <= i < |front + [last]| && KeyText(k) == (front + [last])[i].id
  {
    var nodes := front + [last];
    assert (entries + [e])[..|entries|] == entries;
    assert e.key !in FieldsOf(entries).value;
    forall k | k in FieldsOf(entries + [e]).value ensures exists i :: 0 <= i < |nodes| && KeyText(k) == nodes[i].id {
      if k == e.key {
        assert KeyText(k) == nodes[|front|].id;
      } else {
        var i :| 0 <= i < |front| && KeyText(k) == front[i].id;
        assert nodes[i].id == front[i].id;
      }
    }
  }

  /** The printed nodes are read back in order. */
  lemma {:induction false} NodesBack(nodes: seq<Stored>, edges: seq<FlowEdge>)
    requires PrintNodes(nodes, edges).Some?
    requires forall i :: 0 <= i < |nodes| ==> CompiledNode(nodes[i]) && CleanNode(nodes[i]) && EdgesNamed(nodes[i].id, edges)
    ensures ParseEntries(PrintNodes(nodes, edges).value).Some?
    ensures AllMatch(ParseEntries(PrintNodes(nodes, edges).value).value, nodes, edges)
    decreases nodes, 0
  {
    if nodes != [] {
      var front, last := nodes[..|nodes| - 1], nodes[|nodes| - 1];
      PrintOneMoreNode(nodes, edges);
      NodesBack(front, edges);
      if !last.data.ModuleData? { DataBack(last.data); }
      var m := NodeBack(last, edges);
      var e := Entry(KeyOf(last.id), PrintNode(last, edges).value);
      ParseOneMoreNode(PrintNodes(front, edges).value, e, m);
      AllMatchOneMore(ParseEntries(PrintNodes(front, edges).value).value, front, edges, ParseNode(last.id, m, Size(e.value)).value, last);
      FrontAndLast(nodes);
    }
  }

  /** What follows a kind word is read back, whatever is nested in it. */
  lemma {:induction false} DataBack(d: Data)
    requires CompiledData(d) && CleanData(d) && !d.ModuleData?
    ensures ComesBack(d)
    decreases d
  {
    if d.PollData? {
      if PrintBody(d.body).Some? { BodyBack(d.body); }
      PollComesBack(d);
    } else if d.LoopData? {
      if PrintBody(d.body).Some? { BodyBack(d.body); }
      LoopComesBack(d);
    } else {
      FlatDataBack(d);
    }
  }

  lemma {:induction false} NodesKeyBuilt(nodes: Yaml)
    ensures MappingOf(Mapping(Build([(NodesKey, Some(nodes))]))) == Some(map[NodesKey := nodes])
  {
    var parts: seq<Part> := [(NodesKey, Some(nodes))];
    BuildRead(parts, {NodesKey});
    assert Field(FieldsOf(Build(parts)).value, parts[0].0) == parts[0].1;
  }

  lemma {:induction false} TopologyReads(entries: seq<Entry>, written: seq<Written>, bound: nat)
    requires FieldsOf(entries).Some? && ParseEntries(entries) == Some(written) && written != [] && DistinctIds(AllLinks(written))
    requires Size(Mapping(entries)) < bound
    ensures ParseTopology(map[NodesKey := Mapping(entries)], bound) == Some(written)
  {
    assert ParseNodes(Mapping(entries)) == Some(written);
  }

  lemma {:induction false} BodyIsTopology(y: Yaml, nodes: Yaml)
    requires MappingOf(y) == Some(map[NodesKey := nodes])
    ensures Size(nodes) < Size(y) && ParseBody(y) == ParseTopology(map[NodesKey := nodes], Size(y))
  {
    var m := MappingOf(y).value;
    assert NodesKey in m && m[NodesKey] == nodes;
    assert m.Keys <= {NodesKey, StepsKey};
  }

  lemma {:induction false} BodyReads(entries: seq<Entry>, written: seq<Written>)
    requires FieldsOf(entries).Some? && ParseEntries(entries) == Some(written) && written != [] && DistinctIds(AllLinks(written))
    ensures ParseBody(Mapping(Build([(NodesKey, Some(Mapping(entries)))]))) == Some(written)
  {
    NodesKeyBuilt(Mapping(entries));
    var y := Mapping(Build([(NodesKey, Some(Mapping(entries)))]));
    BodyIsTopology(y, Mapping(entries));
    TopologyReads(entries, written, Size(y));
  }

  /**
   * The fixed point: a compiled body whose checks, asserts and names a file can carry is printed,
   * read and lowered to exactly itself.
   */
  lemma {:induction false} BodyBack(b: StoredBody)
    requires CompiledBody(b) && CleanBody(b) && PrintBody(b).Some?
    ensures ParseBody(PrintBody(b).value).Some?
    ensures LowerBody(ParseBody(PrintBody(b).value).value, map[]) == Some(b)
    decreases b
  {
    forall i | 0 <= i < |b.nodes| ensures EdgesNamed(b.nodes[i].id, b.edges) { EdgesAreNamed(b, b.nodes[i].id); }
    NodesBack(b.nodes, b.edges);
    KeysOfPrinted(b.nodes, b.edges);
    var entries := PrintNodes(b.nodes, b.edges).value;
    MatchedBody(b, ParseEntries(entries).value);
    BodyReads(entries, ParseEntries(entries).value);
  }
}
