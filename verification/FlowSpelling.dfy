/** The spellings of a flow file that decompiling never writes, and what they mean. */
module FlowSpelling {
  import opened References
  import opened GoText
  import opened Checks
  import opened CheckRoundTrip
  import opened FlowTree
  import opened FlowEdges
  import opened FlowModel
  import opened FlowParse
  import opened FlowLower

  // ---- What a node's own keys say

  /** The names under a key: none, one, or a list of them. */
  ghost predicate NamesWritten(m: Fields, k: Key, names: seq<string>) {
    if k !in m then names == []
    else match m[k]
      case Scalar(_, text) => names == [text]
      case Sequence(items) => |names| == |items| && forall i :: 0 <= i < |items| ==> items[i].Scalar? && names[i] == items[i].text
      case Mapping(_) => false
  }

  /** The text under a key that may be absent. */
  ghost predicate TextWritten(m: Fields, k: Key, text: string) {
    if k in m then m[k].Scalar? && m[k].text == text else text == ""
  }

  /** The parts of a node that stand beside its kind. */
  ghost predicate NodeWritten(id: string, m: Fields, w: Written) {
    && w.id == id && (w.display == id || TextWritten(m, DisplayKey, w.display)) && (TextWritten(m, DisplayKey, "") ==> w.display == id)
    && (exists run :: RunWritten(m, run) && (w.always <==> run == "always"))
    && NamesWritten(m, NextKey, w.next) && (w.nextSet <==> NextKey in m) && NamesWritten(m, OnFailureKey, w.fail)
    && (w.spec.BranchSpec? <==> BranchKey in m)
  }

  ghost predicate RunWritten(m: Fields, run: string) {
    TextWritten(m, RunWhenKey, run) && (run == "" || run == "on_success" || run == "always")
  }

  lemma {:induction false} StringsAre(items: seq<Yaml>)
    requires Strings(items).Some?
    ensures |Strings(items).value| == |items|
    ensures forall i :: 0 <= i < |items| ==> items[i].Scalar? && Strings(items).value[i] == items[i].text
  {
    if items != [] { StringsAre(items[..|items| - 1]); }
  }

  lemma {:induction false} TakenNames(m: Fields, k: Key)
    requires TakeNames(m, k).Some?
    ensures NamesWritten(m, k, TakeNames(m, k).value.0) && (TakeNames(m, k).value.1 <==> k in m)
  {
    if k in m && m[k].Sequence? { StringsAre(m[k].items); }
  }

  lemma {:induction false} BranchIsBranch(kind: Key, y: Yaml)
    requires IsKind(kind) && ParseSpec(kind, y).Some?
    ensures ParseSpec(kind, y).value.BranchSpec? <==> kind == BranchKey
  {
    if kind == BranchKey {
      BranchRead(y);
    } else if kind in {RequestKey, ModuleKey, DelayKey, SetKey, AssertKey} {
      StepKindRead(kind, y);
    } else {
      BodyKindRead(kind, y);
    }
  }

  lemma {:induction false} BranchRead(y: Yaml)
    requires ParseSpec(BranchKey, y).Some?
    ensures ParseSpec(BranchKey, y).value.BranchSpec?
  {
    assert ParseSpec(BranchKey, y) == ParseBranch(y);
  }

  lemma {:induction false} StepKindRead(kind: Key, y: Yaml)
    requires kind in {RequestKey, ModuleKey, DelayKey, SetKey, AssertKey} && ParseSpec(kind, y).Some?
    ensures !ParseSpec(kind, y).value.BranchSpec?
  {
  }

  lemma {:induction false} BodyKindRead(kind: Key, y: Yaml)
    requires kind in {PollKey, LoopKey, WebhookKey, SseKey, IntegrationKey} && ParseSpec(kind, y).Some?
    ensures !ParseSpec(kind, y).value.BranchSpec?
  {
    if kind == PollKey {
      PollRead(y);
    } else if kind == LoopKey {
      LoopRead(y);
    } else {
      EventKindRead(kind, y);
    }
  }

  lemma {:induction false} PollRead(y: Yaml)
    requires ParseSpec(PollKey, y).Some?
    ensures !ParseSpec(PollKey, y).value.BranchSpec?
  {
    assert ParseSpec(PollKey, y) == ParsePoll(y);
  }

  lemma {:induction false} LoopRead(y: Yaml)
    requires ParseSpec(LoopKey, y).Some?
    ensures !ParseSpec(LoopKey, y).value.BranchSpec?
  {
    assert ParseSpec(LoopKey, y) == ParseLoop(y);
  }

  lemma {:induction false} EventKindRead(kind: Key, y: Yaml)
    requires kind in {WebhookKey, SseKey, IntegrationKey} && ParseSpec(kind, y).Some?
    ensures !ParseSpec(kind, y).value.BranchSpec?
  {
  }

  lemma {:induction false} OneKind(m: Fields)
    requires TakenKind(m).Some?
    ensures BranchKey in m <==> TakenKind(m) == Some(BranchKey)
  {
    var kinds := set k | k in m.Keys && IsKind(k);
    assert kinds == {TakenKind(m).value};
    assert BranchKey in m <==> BranchKey in kinds;
  }

  lemma {:induction false} ShellIs(id: string, m: Fields, kind: Key, bare: Spec)
    requires NodeFrom(id, m, kind, bare).Some?
    ensures var w := NodeFrom(id, m, kind, bare).value;
      && w.id == id && TakeText(m, DisplayKey).Some? && w.display == (if TakeText(m, DisplayKey).value == "" then id else TakeText(m, DisplayKey).value)
      && TakeText(m, RunWhenKey).Some? && (w.always <==> TakeText(m, RunWhenKey).value == "always")
      && (TakeText(m, RunWhenKey).value == "" || TakeText(m, RunWhenKey).value == "on_success" || TakeText(m, RunWhenKey).value == "always")
      && TakeNames(m, NextKey) == Some((w.next, w.nextSet))
      && TakeNames(m, OnFailureKey).Some? && TakeNames(m, OnFailureKey).value.0 == w.fail
      && (w.spec.BranchSpec? <==> bare.BranchSpec?)
  {
  }

  /** Each part of a node that is read is what its own keys say. */
  lemma {:induction false} NodeIsAsWritten(id: string, m: Fields, bound: nat)
    requires (forall k :: k in m ==> Size(m[k]) < bound) && ParseNode(id, m, bound).Some?
    ensures NodeWritten(id, m, ParseNode(id, m, bound).value)
  {
    var kind := TakenKind(m).value;
    var bare := ParseSpec(kind, m[kind]).value;
    ShellIs(id, m, kind, bare);
    TakenNames(m, NextKey);
    TakenNames(m, OnFailureKey);
    BranchIsBranch(kind, m[kind]);
    OneKind(m);
    assert RunWritten(m, TakeText(m, RunWhenKey).value);
  }

  // ---- Steps

  function StepFields(item: Yaml): Fields {
    if MappingOf(item).Some? then MappingOf(item).value else map[]
  }

  function StepId(item: Yaml): string {
    var m := StepFields(item);
    if IdKey in m && m[IdKey].Scalar? then TrimSpace(m[IdKey].text) else ""
  }

  /** A step that leaves its successor to the list: no branch, and no next of its own. */
  predicate Falls(item: Yaml) {
    BranchKey !in StepFields(item) && NextKey !in StepFields(item)
  }

  ghost predicate StepRead(item: Yaml, w: Written) {
    StepId(item) != "" && NodeWritten(StepId(item), StepFields(item) - {IdKey}, w)
  }

  /** What the i-th step asks for: the next step when it falls through, what its own keys say otherwise. */
  ghost predicate StepLinked(items: seq<Yaml>, nodes: seq<Written>, i: nat)
    requires i < |items| == |nodes|
  {
    && nodes[i].id == StepId(items[i]) && NamesWritten(StepFields(items[i]), OnFailureKey, nodes[i].fail)
    && (nodes[i].spec.BranchSpec? <==> BranchKey in StepFields(items[i]))
    && if Falls(items[i]) && i + 1 < |items| then nodes[i].next == [StepId(items[i + 1])]
       else NamesWritten(StepFields(items[i]), NextKey, nodes[i].next)
  }

  ghost predicate StepsRead(items: seq<Yaml>, nodes: seq<Written>) {
    |nodes| == |items| && forall i :: 0 <= i < |items| ==> StepRead(items[i], nodes[i])
  }

  lemma {:induction false} OneMoreStep(items: seq<Yaml>, nodes: seq<Written>, item: Yaml, w: Written)
    requires StepsRead(items, nodes) && StepRead(item, w)
    ensures StepsRead(items + [item], nodes + [w])
  {
  }

  lemma {:induction false} ItemsAreRead(items: seq<Yaml>)
    requires ParseItems(items).Some?
    ensures StepsRead(items, ParseItems(items).value)
  {
    if items != [] {
      var front, last := items[..|items| - 1], items[|items| - 1];
      var w := LastStep(items);
      ItemsAreRead(front);
      OneMoreStep(front, ParseItems(front).value, last, w);
      FrontAndLast(items);
    }
  }

  lemma {:induction false} LastStep(items: seq<Yaml>) returns (w: Written)
    requires items != [] && ParseItems(items).Some?
    ensures ParseItems(items[..|items| - 1]).Some? && StepRead(items[|items| - 1], w)
    ensures ParseItems(items).value == ParseItems(items[..|items| - 1]).value + [w]
  {
    var last := items[|items| - 1];
    w := ParseNode(StepId(last), StepFields(last) - {IdKey}, Size(last)).value;
    NodeIsAsWritten(StepId(last), StepFields(last) - {IdKey}, Size(last));
  }

  lemma {:induction false} StepLinks(items: seq<Yaml>, read: seq<Written>, i: nat)
    requires i < |items| && StepsRead(items, read)
    ensures StepLinked(items, LinkSteps(read), i)
  {
    assert StepRead(items[i], read[i]);
    if i + 1 < |items| { assert StepRead(items[i + 1], read[i + 1]); }
  }

  /** A list of steps links each step that falls through to the one after it, and changes no other. */
  lemma {:induction false} StepsAreLinked(m: Fields, items: seq<Yaml>, bound: nat)
    requires StepsKey in m && m[StepsKey] == Sequence(items)
    requires (forall k :: k in m ==> Size(m[k]) < bound) && ParseTopology(m, bound).Some?
    ensures |ParseTopology(m, bound).value| == |items|
    ensures forall i :: 0 <= i < |items| ==> StepLinked(items, ParseTopology(m, bound).value, i)
  {
    ItemsAreRead(items);
    var read := ParseItems(items).value;
    assert ParseTopology(m, bound).value == LinkSteps(read);
    forall i | 0 <= i < |items| ensures StepLinked(items, LinkSteps(read), i) { StepLinks(items, read, i); }
  }

  // ---- The stored edges of steps

  /** The branch targets of a written node. */
  ghost predicate BranchesTo(w: Written, t: string) {
    w.spec.BranchSpec? &&
      ((exists i :: 0 <= i < |w.spec.cases| && w.spec.cases[i].target == t) || w.spec.fallback == Some(t))
  }

  lemma {:induction false} EdgesOfNode(nodes: seq<Written>, library: Library, i: nat, t: string)
    requires LowerBody(nodes, library).Some? && i < |nodes| && DistinctIds(AllLinks(nodes))
    ensures EdgeFor(Arrow(nodes[i].id, t, Success)) in LowerBody(nodes, library).value.edges <==>
      t != "" && (t in nodes[i].next || BranchesTo(nodes[i], t))
    ensures EdgeFor(Arrow(nodes[i].id, t, Failure)) in LowerBody(nodes, library).value.edges <==> t != "" && t in nodes[i].fail
  {
    EdgeInBody(nodes, library, i, t, Success);
    EdgeInBody(nodes, library, i, t, Failure);
    TargetsOfBranch(nodes[i], t);
  }

  lemma {:induction false} TargetsOfBranch(w: Written, t: string)
    ensures t in LinksOf(w).branch <==> BranchesTo(w, t)
  {
    if w.spec.BranchSpec? {
      var targets := CaseTargets(w.spec.cases);
      if t in targets {
        var k :| 0 <= k < |targets| && targets[k] == t;
        assert w.spec.cases[k].target == t;
      }
      if k :| 0 <= k < |w.spec.cases| && w.spec.cases[k].target == t { assert targets[k] == t; }
    }
  }

  lemma {:induction false} EdgeInBody(nodes: seq<Written>, library: Library, i: nat, t: string, kind: Kind)
    requires LowerBody(nodes, library).Some? && i < |nodes| && DistinctIds(AllLinks(nodes))
    ensures EdgeFor(Arrow(nodes[i].id, t, kind)) in LowerBody(nodes, library).value.edges <==>
      Asks(LinksOf(nodes[i]), Arrow(nodes[i].id, t, kind))
  {
    var links, a := AllLinks(nodes), Arrow(nodes[i].id, t, kind);
    var arrows := Dedup(AllWanted(links));
    EdgesAreExact(links);
    assert EdgeFor(a) in EdgesFor(arrows) <==> a in arrows by {
      if a in arrows {
        var k :| 0 <= k < |arrows| && arrows[k] == a;
        assert EdgesFor(arrows)[k] == EdgeFor(a);
      }
      if EdgeFor(a) in EdgesFor(arrows) {
        var k :| 0 <= k < |arrows| && EdgesFor(arrows)[k] == EdgeFor(a);
        assert arrows[k] == a;
      }
    }
    ArrowIsAsked(links, a);
    forall j | 0 <= j < |links| && Asks(links[j], a) ensures j == i { assert links[j].id == links[i].id; }
    assert links[i] == LinksOf(nodes[i]);
    LoweredEdges(nodes, library);
  }

  lemma {:induction false} ArrowIsAsked(links: seq<Links>, a: Arrow)
    ensures a in Dedup(AllWanted(links)) <==> exists j :: 0 <= j < |links| && Asks(links[j], a)
  {
    EdgesAreExact(links);
  }

  lemma {:induction false} LoweredEdges(nodes: seq<Written>, library: Library)
    requires LowerBody(nodes, library).Some?
    ensures LowerBody(nodes, library).value.edges == EdgesFor(Dedup(AllWanted(AllLinks(nodes))))
  {
  }

  lemma {:induction false} StepEdgesOf(items: seq<Yaml>, nodes: seq<Written>, library: Library, i: nat, t: string)
    requires i < |items| == |nodes| && StepLinked(items, nodes, i) && DistinctIds(AllLinks(nodes)) && LowerBody(nodes, library).Some?
    requires i + 1 < |items| ==> StepId(items[i + 1]) != ""
    ensures EdgeFor(Arrow(StepId(items[i]), t, Success)) in LowerBody(nodes, library).value.edges <==>
      if Falls(items[i]) && i + 1 < |items| then t == StepId(items[i + 1])
      else t != "" && (t in nodes[i].next || BranchesTo(nodes[i], t))
  {
    EdgesOfNode(nodes, library, i, t);
  }

  /**
   * In the stored edges, a step that falls through has one success edge, to the step after it; any other has the ones
   * its own next and branch name.
   */
  lemma {:induction false} StepEdges(m: Fields, items: seq<Yaml>, bound: nat, nodes: seq<Written>, library: Library, i: nat, t: string)
    requires StepsKey in m && m[StepsKey] == Sequence(items) && i < |items|
    requires (forall k :: k in m ==> Size(m[k]) < bound) && ParseTopology(m, bound) == Some(nodes)
    requires LowerBody(nodes, library).Some?
    ensures |nodes| == |items| && StepLinked(items, nodes, i)
    ensures EdgeFor(Arrow(StepId(items[i]), t, Success)) in LowerBody(nodes, library).value.edges <==>
      if Falls(items[i]) && i + 1 < |items| then t == StepId(items[i + 1])
      else t != "" && (t in nodes[i].next || BranchesTo(nodes[i], t))
  {
    StepsAreLinked(m, items, bound);
    LinkedIdsDistinct(m, bound);
    if i + 1 < |items| { StepHasId(m, items, bound, i + 1); }
    StepEdgesOf(items, nodes, library, i, t);
  }

  lemma {:induction false} StepHasId(m: Fields, items: seq<Yaml>, bound: nat, i: nat)
    requires StepsKey in m && m[StepsKey] == Sequence(items) && i < |items|
    requires (forall k :: k in m ==> Size(m[k]) < bound) && ParseTopology(m, bound).Some?
    ensures StepId(items[i]) != ""
  {
    ItemsAreRead(items);
    assert StepRead(items[i], ParseItems(items).value[i]);
  }

  lemma {:induction false} LinkedIdsDistinct(m: Fields, bound: nat)
    requires (forall k :: k in m ==> Size(m[k]) < bound) && ParseTopology(m, bound).Some?
    ensures DistinctIds(AllLinks(ParseTopology(m, bound).value))
  {
    if NodesKey !in m {
      var read := ParseSteps(m[StepsKey]).value;
      forall i, j | 0 <= i < j < |read| ensures AllLinks(LinkSteps(read))[i].id != AllLinks(LinkSteps(read))[j].id {
        assert AllLinks(read)[i].id != AllLinks(read)[j].id;
      }
    }
  }

  // ---- Two spellings of one meaning

  lemma {:induction false} OneEntry(k: Key, y: Yaml)
    ensures FieldsOf([Entry(k, y)]) == Some(map[k := y])
  {
    assert [Entry(k, y)][..0] == [];
  }

  /** An explicit run_when: on_success says what no run_when says. */
  lemma {:induction false} ExplicitRunWhen(id: string, m: Fields, bound: nat)
    requires RunWhenKey !in m && bound > 1 && forall k :: k in m ==> Size(m[k]) < bound
    ensures ParseNode(id, m[RunWhenKey := StrNode("on_success")], bound) == ParseNode(id, m, bound)
  {
    var m' := m[RunWhenKey := StrNode("on_success")];
    assert (set k | k in m'.Keys && IsKind(k)) == (set k | k in m.Keys && IsKind(k));
    if TakenKind(m).Some? {
      var kind := TakenKind(m).value;
      KindIsOnly(m);
      KindIsOnly(m');
      assert m'[kind] == m[kind];
      if ParseSpec(kind, m[kind]).Some? { RunWhenIsDefault(id, m, kind, ParseSpec(kind, m[kind]).value); }
    }
  }

  lemma {:induction false} KindIsOnly(m: Fields)
    ensures TakenKind(m).Some? ==> (set k | k in m.Keys && IsKind(k)) == {TakenKind(m).value}
  {
  }

  /** Whether the node is an always node, when run_when is one of its words. */
  function RunsAlways(run: Option<string>): Option<bool> {
    if run.None? || (run.value != "" && run.value != "on_success" && run.value != "always") then None else Some(run.value == "always")
  }

  /** A node as its parts make it. */
  function Assembled(id: string, display: Option<string>, always: Option<bool>, next: Option<(seq<string>, bool)>,
                     fail: Option<(seq<string>, bool)>, outputs: Option<seq<Declared>>, checks: Option<seq<Check>>,
                     spec: Option<Spec>, expects: bool, known: bool): Option<Written> {
    if display.None? || always.None? || next.None? || fail.None? || outputs.None? || checks.None? || spec.None? then None
    else if !known || !ValidId(id) || (spec.value.AssertSpec? && !expects) then None
    else if spec.value.IntegrationSpec? && spec.value.event != "" && HasStatusCheck(checks.value) then None
    else Some(Written(id, if display.value == "" then id else display.value, always.value, next.value.0, next.value.1,
                      fail.value.0, outputs.value, checks.value, spec.value))
  }

  lemma {:induction false} NodeIsAssembled(id: string, m: Fields, kind: Key, bare: Spec)
    ensures NodeFrom(id, m, kind, bare) == Assembled(
      id, TakeText(m, DisplayKey), RunsAlways(TakeText(m, RunWhenKey)), TakeNames(m, NextKey), TakeNames(m, OnFailureKey),
      TakeOutputs(bare, m), TakeChecks(m, ExpectKey), Applied(bare, m), ExpectKey in m,
      m.Keys <= {DisplayKey, RunWhenKey, NextKey, OnFailureKey, OutputsKey, ExpectKey, InputsKey, kind})
  {
  }

  lemma {:induction false} RunWhenIsDefault(id: string, m: Fields, kind: Key, bare: Spec)
    requires RunWhenKey !in m
    ensures NodeFrom(id, m[RunWhenKey := StrNode("on_success")], kind, bare) == NodeFrom(id, m, kind, bare)
  {
    var m' := m[RunWhenKey := StrNode("on_success")];
    NodeIsAssembled(id, m, kind, bare);
    NodeIsAssembled(id, m', kind, bare);
    RunWhenApart(m, bare);
    assert m'.Keys == m.Keys + {RunWhenKey};
  }

  lemma {:induction false} RunWhenApart(m: Fields, bare: Spec)
    requires RunWhenKey !in m
    ensures var m' := m[RunWhenKey := StrNode("on_success")];
      && TakeText(m', DisplayKey) == TakeText(m, DisplayKey)
      && RunsAlways(TakeText(m', RunWhenKey)) == RunsAlways(TakeText(m, RunWhenKey)) == Some(false)
      && TakeNames(m', NextKey) == TakeNames(m, NextKey) && TakeNames(m', OnFailureKey) == TakeNames(m, OnFailureKey)
      && TakeOutputs(bare, m') == TakeOutputs(bare, m) && TakeChecks(m', ExpectKey) == TakeChecks(m, ExpectKey)
      && Applied(bare, m') == Applied(bare, m)
  {
  }

  /** A delay is written as its milliseconds or as a mapping that names them. */
  lemma {:induction false} DelayForms(ms: int)
    requires FitsInt(ms)
    ensures ParseDelay(IntNode(ms)) == ParseDelay(Mapping([Entry(DurationKey, IntNode(ms))]))
    ensures ParseDelay(IntNode(ms)) == if ms > 0 then Some(DelaySpec(ms)) else None
  {
    ItoaRoundTrip(ms);
    OneEntry(DurationKey, IntNode(ms));
  }

  lemma {:induction false} ModuleForms(ref: string)
    ensures ParseModule(StrNode(ref)) == ParseModule(Mapping([Entry(RefKey, StrNode(ref))]))
    ensures ParseModule(StrNode(ref)) == if TrimSpace(ref) == "" then None else Some(ModuleSpec(TrimSpace(ref), map[], false))
  {
    OneEntry(RefKey, StrNode(ref));
  }

  /** An output's shorthand says what the mapping with its one source says. */
  lemma {:induction false} PathForms(spec: Spec, name: string, path: string)
    requires !spec.ModuleSpec?
    ensures OneOutput(spec, name, Mapping([Entry(PathKey, StrNode(path))])) == Some(Declared(name, Extracted(PathOf(path)), false))
    ensures HasPrefix(path, "$") ==> OneOutput(spec, name, StrNode(path)) == Some(Declared(name, Extracted(PathOf(path)), false))
  {
    SourceRead(name, PathKey, StrNode(path));
  }

  lemma {:induction false} HeaderForms(spec: Spec, name: string, header: string)
    requires !spec.ModuleSpec?
    ensures OneOutput(spec, name, Mapping([Entry(HeaderKey, StrNode(header))])) == Some(Declared(name, Extracted(HeaderOf(header)), false))
    ensures header != "" ==> OneOutput(spec, name, StrNode("header:" + header)) == Some(Declared(name, Extracted(HeaderOf(header)), false))
  {
    SourceRead(name, HeaderKey, StrNode(header));
    if header != "" { HeaderShort(header); }
  }

  lemma {:induction false} HeaderShort(header: string)
    requires header != ""
    ensures Shorthand("header:" + header) == Some(HeaderOf(header))
  {
    var text := "header:" + header;
    assert text[0] == 'h' && text[..7] == "header:" && text[7..] == header;
  }

  lemma {:induction false} StatusOutputForms(spec: Spec, name: string)
    requires !spec.ModuleSpec?
    ensures OneOutput(spec, name, StrNode("status")) == Some(Declared(name, Extracted(StatusOf), false))
    ensures OneOutput(spec, name, Mapping([Entry(StatusKey, BoolNode(true))])) == Some(Declared(name, Extracted(StatusOf), false))
  {
    SourceRead(name, StatusKey, BoolNode(true));
    StatusShort();
  }

  lemma {:induction false} StatusShort()
    ensures Shorthand("status") == Some(StatusOf)
  {
    assert "status"[0] == 's' && "body"[0] == 'b';
  }

  lemma {:induction false} SourceRead(name: string, k: Key, y: Yaml)
    requires k == PathKey || k == HeaderKey || k == StatusKey
    ensures MappingOf(Mapping([Entry(k, y)])) == Some(map[k := y])
    ensures map[k := y].Keys - {SecretKey} == {k} && TakeBool(map[k := y], SecretKey) == Some(None)
  {
    OneEntry(k, y);
  }

  /** A status is checked by a line or by a mapping. */
  lemma {:induction false} StatusForms(n: int)
    requires FitsInt(n)
    ensures ExpectItem(Mapping([Entry(StatusKey, IntNode(n))])) == Some(StatusEquals(Itoa(n)))
    ensures ExpectItem(StrNode("status: " + Itoa(n))) == Some(StatusEquals(Itoa(n)))
  {
    StatusMapped(n);
    StatusLine(n);
  }

  lemma {:induction false} StatusMapped(n: int)
    requires FitsInt(n)
    ensures StatusMapping(Mapping([Entry(StatusKey, IntNode(n))])) == Some(StatusEquals(Itoa(n)))
  {
    ItoaRoundTrip(n);
    OneEntry(StatusKey, IntNode(n));
    NumbersTrim(Itoa(n));
    assert map[StatusKey := IntNode(n)].Keys == {StatusKey};
  }

  lemma {:induction false} StatusLine(n: int)
    requires FitsInt(n)
    ensures ParseExpectLine("status: " + Itoa(n)) == Some(StatusEquals(Itoa(n)))
  {
    ItoaRoundTrip(n);
    StatusBack(Itoa(n));
  }

  lemma {:induction false} OneItem(item: Yaml)
    ensures ExpectItems([item]) == if ExpectItem(item).Some? then Some([ExpectItem(item).value]) else None
    ensures Strings([item]) == if item.Scalar? then Some([item.text]) else None
  {
    var items := [item];
    var front := items[..|items| - 1];
    assert front == [] && ExpectItems(front) == Some([]) && Strings(front) == Some([]);
    if ExpectItem(item).Some? { assert [] + [ExpectItem(item).value] == [ExpectItem(item).value]; }
    if item.Scalar? { assert [] + [item.text] == [item.text]; }
  }

  /** One check, or one name, may stand for the list of it. */
  lemma {:induction false} SingleCheckForms(m: Fields, k: Key, line: string)
    ensures TakeChecks(m[k := StrNode(line)], k) == TakeChecks(m[k := Sequence([StrNode(line)])], k)
  {
    OneItem(StrNode(line));
  }

  lemma {:induction false} SingleNameForms(m: Fields, k: Key, name: string)
    requires name != ""
    ensures TakeNames(m[k := StrNode(name)], k) == TakeNames(m[k := Sequence([StrNode(name)])], k)
  {
    OneItem(StrNode(name));
  }

  /** A poll or loop holds its nodes in a body or directly. */
  lemma {:induction false} InlineForms(k: Key, y: Yaml, bound: nat)
    requires (k == NodesKey || k == StepsKey) && Size(Mapping([Entry(k, y)])) < bound
    ensures Size(y) < bound
    ensures TakeInline(map[BodyKey := Mapping([Entry(k, y)])], bound) == TakeInline(map[k := y], bound)
  {
    OneEntry(k, y);
    assert [Entry(k, y)][..0] == [];
    TopologyIgnoresBound(map[k := y], Size(Mapping([Entry(k, y)])), bound);
  }

  lemma {:induction false} TopologyIgnoresBound(m: Fields, a: nat, b: nat)
    requires (forall k :: k in m ==> Size(m[k]) < a) && (forall k :: k in m ==> Size(m[k]) < b)
    ensures ParseTopology(m, a) == ParseTopology(m, b)
  {
  }

  // ---- Module files

  /** A module node that writes no outputs binds exactly the non-empty exports of its file, and calls the flow the file names. */
  lemma {:induction false} ExportsAreFilledIn(ref: string, inputs: map<string, Any>, outputs: seq<Declared>, library: Library)
    requires Uuid(ref).None? && LowerModule(ref, inputs, false, outputs, library).Some?
    ensures ref in library && LowerModule(ref, inputs, false, outputs, library).value.ModuleData?
    ensures var d, dep := LowerModule(ref, inputs, false, outputs, library).value, library[ref];
      && Uuid(TrimSpace(dep.id)) == Some(d.flowId) && d.inputs == inputs
      && (forall k :: k in d.bindings <==> k in dep.exports && dep.exports[k] != "")
      && (forall k :: k in d.bindings ==> d.bindings[k] == dep.exports[k])
      && (dep.inputs != [] ==> forall k :: k in inputs <==> k in dep.inputs)
  {
  }
}
