/** Each printed part is read back as what it was printed from. */
module FlowReadBack {
  import opened References
  import opened GoText
  import opened Checks
  import opened CheckRoundTrip
  import opened FlowTree
  import opened FlowEdges
  import opened FlowModel
  import opened FlowParse
  import opened FlowLower
  import opened FlowPrint
  import opened FlowShapes

  // ---- Parts

  lemma {:induction false} TextBack(m: Fields, k: Key, text: string)
    requires Field(m, k) == TextPart(k, text).1 || Field(m, k) == OptionalText(k, text).1
    ensures TakeText(m, k) == Some(text)
  {
  }

  lemma {:induction false} PositiveBack(m: Fields, k: Key, n: Option<int>)
    requires Field(m, k) == IntPart(k, n).1 && Positive(n)
    ensures TakePositive(m, k) == Some(n)
  {
    if n.Some? { ItoaRoundTrip(n.value); }
  }

  lemma {:induction false} NonNegativeBack(m: Fields, k: Key, n: Option<int>)
    requires Field(m, k) == IntPart(k, n).1 && NonNegative(n)
    ensures TakeNonNegative(m, k) == Some(n)
  {
    if n.Some? { ItoaRoundTrip(n.value); }
  }

  lemma {:induction false} BoolBack(m: Fields, k: Key, on: Option<bool>)
    requires Field(m, k) == BoolPart(k, on).1
    ensures TakeBool(m, k) == Some(on)
  {
  }

  lemma {:induction false} AnyBack(m: Fields, k: Key, v: Any)
    requires Field(m, k) == ValuePart(k, v).1 && Survives(v)
    ensures TakeAny(m, k).Some? && OrNull(TakeAny(m, k).value) == v
  {
    ValueBack(v);
  }

  lemma {:induction false} PairsBack(m: Fields, k: Key, pairs: map<string, Any>)
    requires Field(m, k) == PairsPart(k, pairs).1 && Survives(Object(pairs))
    ensures TakePairs(m, k) == Some(pairs)
  {
    ValueBack(Object(pairs));
  }

  lemma {:induction false} HeadersBack(m: Fields, texts: map<string, string>)
    requires Field(m, HeadersKey) == PairsPart(HeadersKey, AsAny(texts)).1
    ensures TakeHeaders(m).Some? && StringMap(TakeHeaders(m).value) == texts
  {
    PairsBack(m, HeadersKey, AsAny(texts));
    assert StringMap(AsAny(texts)) == texts;
  }

  lemma {:induction false} StringsBack(names: seq<string>)
    ensures Strings(Strs(names)) == Some(names)
  {
    if names != [] {
      assert Strs(names)[..|names| - 1] == Strs(names[..|names| - 1]);
      StringsBack(names[..|names| - 1]);
      assert names == names[..|names| - 1] + [names[|names| - 1]];
    }
  }

  lemma {:induction false} NamesBack(m: Fields, k: Key, names: seq<string>)
    requires Field(m, k) == NamesPart(k, names).1 && forall n :: n in names ==> ValidId(n)
    ensures TakeNames(m, k).Some? && TakeNames(m, k).value.0 == names
  {
    StringsBack(names);
    if |names| == 1 { assert names[0] in names && names == [names[0]]; }
  }

  // ---- Checks

  ghost predicate Spells(line: string, check: Check) {
    ParseExpectLine(line) == Some(check) && Storable(check)
  }

  ghost predicate AllSpell(lines: seq<string>, checks: seq<Check>) {
    |lines| == |checks| && forall i :: 0 <= i < |checks| ==> Spells(lines[i], checks[i])
  }

  lemma {:induction false} OneLine(check: Check)
    requires CompiledCheck(check) && CleanCheck(check)
    ensures CheckLine(check).Some? && Spells(CheckLine(check).value, check)
  {
    CleanIsWritable(check);
    WritableComesBack(check);
  }

  lemma {:induction false} OneMoreLine(checks: seq<Check>, check: Check)
    requires CheckLines(checks).Some? && CheckLine(check).Some?
    ensures CheckLines(checks + [check]) == Some(CheckLines(checks).value + [CheckLine(check).value])
  {
    assert (checks + [check])[..|checks|] == checks;
  }

  lemma {:induction false} LinesBack(checks: seq<Check>)
    requires CompiledChecks(checks) && CleanChecks(checks)
    ensures CheckLines(checks).Some? && AllSpell(CheckLines(checks).value, checks)
  {
    if checks != [] {
      var front, last := checks[..|checks| - 1], checks[|checks| - 1];
      LinesBack(front);
      OneLine(last);
      OneMoreLine(front, last);
      FrontAndLast(checks);
    }
  }

  lemma {:induction false} OneMoreItem(items: seq<Yaml>, item: Yaml)
    requires ExpectItems(items).Some? && ExpectItem(item).Some?
    ensures ExpectItems(items + [item]) == Some(ExpectItems(items).value + [ExpectItem(item).value])
  {
    assert (items + [item])[..|items|] == items;
  }

  lemma {:induction false} StrsAppend(lines: seq<string>)
    requires lines != []
    ensures Strs(lines) == Strs(lines[..|lines| - 1]) + [StrNode(lines[|lines| - 1])]
  {
  }

  lemma {:induction false} SpellsFront(lines: seq<string>, checks: seq<Check>)
    requires AllSpell(lines, checks) && lines != []
    ensures AllSpell(lines[..|lines| - 1], checks[..|lines| - 1])
    ensures ExpectItem(StrNode(lines[|lines| - 1])) == Some(checks[|lines| - 1])
  {
    assert Spells(lines[|lines| - 1], checks[|lines| - 1]);
  }

  lemma {:induction false} ItemsReadBack(lines: seq<string>, checks: seq<Check>)
    requires AllSpell(lines, checks)
    ensures ExpectItems(Strs(lines)) == Some(checks)
  {
    if lines != [] {
      SpellsFront(lines, checks);
      ItemsReadBack(lines[..|lines| - 1], checks[..|lines| - 1]);
      StrsAppend(lines);
      OneMoreItem(Strs(lines[..|lines| - 1]), StrNode(lines[|lines| - 1]));
      FrontAndLast(checks);
    }
  }

  lemma {:induction false} OneLineBack(line: string, check: Check)
    requires Spells(line, check)
    ensures Expect(StrNode(line)) == Some([check])
  {
  }

  lemma {:induction false} ManyLinesBack(lines: seq<string>, checks: seq<Check>)
    requires ExpectItems(Strs(lines)) == Some(checks)
    ensures Expect(Sequence(Strs(lines))) == Some(checks)
  {
  }

  /** Clean checks print. */
  lemma {:induction false} ChecksPrint(k: Key, checks: seq<Check>)
    requires CompiledChecks(checks) && CleanChecks(checks)
    ensures ChecksPart(k, checks).Some? && (checks != [] <==> ChecksPart(k, checks).value.1.Some?)
    ensures ChecksPart(k, checks).value.0 == k
  {
    LinesBack(checks);
  }

  /** And they read back as themselves. */
  lemma {:induction false} ChecksBack(m: Fields, k: Key, checks: seq<Check>)
    requires CompiledChecks(checks) && CleanChecks(checks) && ChecksPart(k, checks).Some?
    requires Field(m, k) == ChecksPart(k, checks).value.1
    ensures TakeChecks(m, k) == Some(checks)
  {
    LinesBack(checks);
    var lines := CheckLines(checks).value;
    if |checks| == 1 {
      assert Spells(lines[0], checks[0]);
      OneLineBack(lines[0], checks[0]);
      assert checks == [checks[0]];
    } else if |checks| > 1 {
      ItemsReadBack(lines, checks);
      ManyLinesBack(lines, checks);
    }
  }

  // ---- Cases and groups

  lemma {:induction false} CaseFromBack(c: Case, line: string, m: Fields)
    requires CompiledCase(c) && ParseExpectLine(line) == Some(c.when)
    requires Carries(m, [TextPart(WhenKey, line), TextPart(TargetKey, c.target)]) && m.Keys <= {WhenKey, TargetKey}
    ensures CaseFrom(m) == Some(c)
  {
    var parts := [TextPart(WhenKey, line), TextPart(TargetKey, c.target)];
    assert Field(m, WhenKey) == parts[0].1 && Field(m, TargetKey) == parts[1].1;
    TextBack(m, TargetKey, c.target);
  }

  lemma {:induction false} CaseBack(c: Case)
    requires CompiledCase(c) && CleanCheck(c.when) && PrintCase(c).Some?
    ensures ParseCase(PrintCase(c).value) == Some(c)
  {
    CleanIsWritable(c.when);
    WritableComesBack(c.when);
    var line := CheckLine(c.when).value;
    var parts := [TextPart(WhenKey, line), TextPart(TargetKey, c.target)];
    BuildRead(parts, {WhenKey, TargetKey});
    CaseFromBack(c, line, FieldsOf(Build(parts)).value);
  }

  lemma {:induction false} PrintOneMoreCase(cases: seq<Case>)
    requires cases != [] && PrintCases(cases).Some?
    ensures PrintCases(cases[..|cases| - 1]).Some? && PrintCase(cases[|cases| - 1]).Some?
    ensures PrintCases(cases).value == PrintCases(cases[..|cases| - 1]).value + [PrintCase(cases[|cases| - 1]).value]
  {
  }

  lemma {:induction false} ParseOneMoreCase(items: seq<Yaml>, item: Yaml)
    requires ParseCases(items).Some? && ParseCase(item).Some?
    ensures ParseCases(items + [item]) == Some(ParseCases(items).value + [ParseCase(item).value])
  {
    assert (items + [item])[..|items|] == items;
  }

  lemma {:induction false} CasesBack(cases: seq<Case>)
    requires forall i :: 0 <= i < |cases| ==> CompiledCase(cases[i]) && CleanCheck(cases[i].when)
    requires PrintCases(cases).Some?
    ensures |PrintCases(cases).value| == |cases| && ParseCases(PrintCases(cases).value) == Some(cases)
  {
    if cases != [] {
      var front, last := cases[..|cases| - 1], cases[|cases| - 1];
      PrintOneMoreCase(cases);
      CasesBack(front);
      CaseBack(last);
      ParseOneMoreCase(PrintCases(front).value, PrintCase(last).value);
      FrontAndLast(cases);
    }
  }

  function GroupParts(g: Group, checks: Part): seq<Part> {
    [TextPart(NameKey, g.name), IntPart(MinKey, g.min), IntPart(MaxKey, g.max), checks]
  }

  lemma {:induction false} GroupFromBack(g: Group, checks: Part, m: Fields)
    requires Trimmed(g.name) && NonNegative(g.min) && NonNegative(g.max)
    requires Carries(m, GroupParts(g, checks)) && checks.0 == ChecksKey && m.Keys <= {NameKey, MinKey, MaxKey, ChecksKey}
    requires Field(m, ChecksKey) == checks.1 ==> TakeChecks(m, ChecksKey) == Some(g.checks)
    ensures GroupFrom(m) == Some(g)
  {
    var parts := GroupParts(g, checks);
    assert Field(m, NameKey) == parts[0].1 && Field(m, MinKey) == parts[1].1;
    assert Field(m, MaxKey) == parts[2].1 && Field(m, ChecksKey) == parts[3].1;
    TextBack(m, NameKey, g.name);
    NonNegativeBack(m, MinKey, g.min);
    NonNegativeBack(m, MaxKey, g.max);
  }

  lemma {:induction false} GroupBack(g: Group)
    requires CompiledGroup(g) && CleanChecks(g.checks) && PrintGroup(g).Some?
    ensures ParseGroup(PrintGroup(g).value) == Some(g)
  {
    ChecksPrint(ChecksKey, g.checks);
    var checks := ChecksPart(ChecksKey, g.checks).value;
    var parts := GroupParts(g, checks);
    BuildRead(parts, {NameKey, MinKey, MaxKey, ChecksKey});
    var m := FieldsOf(Build(parts)).value;
    if Field(m, ChecksKey) == checks.1 { ChecksBack(m, ChecksKey, g.checks); }
    GroupFromBack(g, checks, m);
  }

  lemma {:induction false} PrintOneMoreGroup(groups: seq<Group>)
    requires groups != [] && PrintGroups(groups).Some?
    ensures PrintGroups(groups[..|groups| - 1]).Some? && PrintGroup(groups[|groups| - 1]).Some?
    ensures PrintGroups(groups).value == PrintGroups(groups[..|groups| - 1]).value + [PrintGroup(groups[|groups| - 1]).value]
  {
  }

  lemma {:induction false} ParseOneMoreGroup(items: seq<Yaml>, item: Yaml)
    requires ParseGroups(items).Some? && ParseGroup(item).Some?
    ensures ParseGroups(items + [item]) == Some(ParseGroups(items).value + [ParseGroup(item).value])
  {
    assert (items + [item])[..|items|] == items;
  }

  lemma {:induction false} GroupListBack(groups: seq<Group>)
    requires CompiledGroups(groups) && CleanGroups(groups) && PrintGroups(groups).Some?
    ensures |PrintGroups(groups).value| == |groups| && ParseGroups(PrintGroups(groups).value) == Some(groups)
  {
    if groups != [] {
      var front, last := groups[..|groups| - 1], groups[|groups| - 1];
      PrintOneMoreGroup(groups);
      GroupListBack(front);
      GroupBack(last);
      ParseOneMoreGroup(PrintGroups(front).value, PrintGroup(last).value);
      FrontAndLast(groups);
    }
  }

  lemma {:induction false} GroupsKeyBack(m: Fields, groups: seq<Yaml>, read: seq<Group>)
    requires Field(m, ExpectKey) == SequencePart(ExpectKey, groups).1 && ParseGroups(groups) == Some(read) && |groups| == |read|
    ensures TakeGroups(m) == Some(read)
  {
  }

  // ---- Kinds without a body

  /** The spec read for a kind lowers to this data. */
  ghost predicate Recovers(spec: Option<Spec>, d: Data) {
    spec.Some? && !spec.value.ModuleSpec? && LowerSpec(spec.value, [], map[]) == Some(d)
  }

  ghost predicate RequestTaken(d: Data, m: Fields) {
    && d.RequestData? && MethodKey in m && TakeText(m, MethodKey) == Some(d.verb) && TakeText(m, UrlKey) == Some(d.url)
    && TakeHeaders(m).Some? && StringMap(TakeHeaders(m).value) == d.headers && TakePairs(m, QueryKey) == Some(d.query)
    && TakeAny(m, BodyKey).Some? && OrNull(TakeAny(m, BodyKey).value) == d.payload && TakePositive(m, TimeoutKey) == Some(d.timeout)
    && m.Keys <= {MethodKey, UrlKey, HeadersKey, QueryKey, BodyKey, TimeoutKey}
  }

  lemma {:induction false} RequestTakes(d: Data, m: Fields)
    requires d.RequestData? && Survives(Object(d.query)) && Survives(d.payload) && Positive(d.timeout) && Carries(m, RequestParts(d))
    requires m.Keys <= {MethodKey, UrlKey, HeadersKey, QueryKey, BodyKey, TimeoutKey}
    ensures RequestTaken(d, m)
  {
    var parts := RequestParts(d);
    assert Field(m, MethodKey) == parts[0].1 && Field(m, UrlKey) == parts[1].1 && Field(m, HeadersKey) == parts[2].1;
    assert Field(m, QueryKey) == parts[3].1 && Field(m, BodyKey) == parts[4].1 && Field(m, TimeoutKey) == parts[5].1;
    TextBack(m, MethodKey, d.verb);
    TextBack(m, UrlKey, d.url);
    HeadersBack(m, d.headers);
    PairsBack(m, QueryKey, d.query);
    AnyBack(m, BodyKey, d.payload);
    PositiveBack(m, TimeoutKey, d.timeout);
  }

  lemma {:induction false} RequestFromBack(d: Data, m: Fields)
    requires RequestTaken(d, m) && Verb(d.verb) && Trimmed(d.url)
    ensures Recovers(RequestFrom(m), d)
  {
  }

  ghost predicate SseTaken(d: Data, m: Fields) {
    && d.SseData? && TakeText(m, MethodKey) == Some(d.verb) && TakeText(m, UrlKey) == Some(d.url)
    && TakeHeaders(m).Some? && StringMap(TakeHeaders(m).value) == d.headers && TakePositive(m, TimeoutKey) == Some(d.timeout)
    && TakePositive(m, MaxEventsKey) == Some(d.maxEvents) && TakeCompletion(m) == Some(d.completion) && TakeBool(m, StopKey) == Some(d.stop)
    && m.Keys <= {MethodKey, UrlKey, HeadersKey, TimeoutKey, MaxEventsKey, CompletionKey, StopKey}
  }

  lemma {:induction false} CompletionBack(m: Fields, completion: Option<string>)
    requires Field(m, CompletionKey) == (if completion.Some? then Some(StrNode(completion.value)) else None)
    requires completion.Some? ==> Trimmed(completion.value)
    ensures TakeCompletion(m) == Some(completion)
  {
  }

  lemma {:induction false} SseTakes(d: Data, m: Fields)
    requires d.SseData? && Positive(d.timeout) && Positive(d.maxEvents) && (d.completion.Some? ==> Trimmed(d.completion.value))
    requires Carries(m, SseParts(d))
    requires m.Keys <= {MethodKey, UrlKey, HeadersKey, TimeoutKey, MaxEventsKey, CompletionKey, StopKey}
    ensures SseTaken(d, m)
  {
    var parts := SseParts(d);
    assert Field(m, UrlKey) == parts[0].1 && Field(m, MethodKey) == parts[1].1 && Field(m, HeadersKey) == parts[2].1;
    assert Field(m, TimeoutKey) == parts[3].1 && Field(m, MaxEventsKey) == parts[4].1;
    assert Field(m, CompletionKey) == parts[5].1 && Field(m, StopKey) == parts[6].1;
    TextBack(m, UrlKey, d.url);
    TextBack(m, MethodKey, d.verb);
    HeadersBack(m, d.headers);
    PositiveBack(m, TimeoutKey, d.timeout);
    PositiveBack(m, MaxEventsKey, d.maxEvents);
    CompletionBack(m, d.completion);
    BoolBack(m, StopKey, d.stop);
  }

  lemma {:induction false} SseFromBack(d: Data, m: Fields)
    requires SseTaken(d, m) && Verb(d.verb) && Trimmed(d.url)
    ensures Recovers(SseFrom(m), d)
  {
  }

  lemma {:induction false} AssertFromBack(d: Data, m: Fields)
    requires d.AssertData? && Survives(d.target) && Carries(m, [ValuePart(TargetKey, d.target)]) && m.Keys <= {TargetKey}
    ensures Recovers(AssertFrom(m), d)
  {
    var parts := [ValuePart(TargetKey, d.target)];
    assert Field(m, TargetKey) == parts[0].1;
    AnyBack(m, TargetKey, d.target);
  }

  ghost predicate BranchTaken(d: Data, m: Fields) {
    && d.BranchData? && TakeAny(m, TargetKey).Some? && OrNull(TakeAny(m, TargetKey).value) == d.target
    && TakeCases(m) == Some(d.cases) && TakeDefault(m) == Some(d.fallback)
    && m.Keys <= {TargetKey, CasesKey, DefaultKey}
  }

  lemma {:induction false} DefaultBack(m: Fields, fallback: Option<string>)
    requires Field(m, DefaultKey) == (if fallback.Some? then Some(StrNode(fallback.value)) else None)
    requires fallback.Some? ==> Trimmed(fallback.value)
    ensures TakeDefault(m) == Some(fallback)
  {
  }

  lemma {:induction false} CasesKeyBack(m: Fields, cases: seq<Yaml>, read: seq<Case>)
    requires Field(m, CasesKey) == SequencePart(CasesKey, cases).1 && ParseCases(cases) == Some(read) && |cases| == |read|
    ensures TakeCases(m) == Some(read)
  {
  }

  lemma {:induction false} BranchTakes(d: Data, cases: seq<Yaml>, m: Fields)
    requires d.BranchData? && Survives(d.target) && (d.fallback.Some? ==> Trimmed(d.fallback.value))
    requires ParseCases(cases) == Some(d.cases) && |cases| == |d.cases|
    requires Carries(m, BranchParts(d, cases))
    requires m.Keys <= {TargetKey, CasesKey, DefaultKey}
    ensures BranchTaken(d, m)
  {
    var parts := BranchParts(d, cases);
    assert Field(m, TargetKey) == parts[0].1 && Field(m, CasesKey) == parts[1].1 && Field(m, DefaultKey) == parts[2].1;
    AnyBack(m, TargetKey, d.target);
    CasesKeyBack(m, cases, d.cases);
    DefaultBack(m, d.fallback);
  }

  lemma {:induction false} BranchFromBack(d: Data, m: Fields)
    requires BranchTaken(d, m) && (d.cases != [] || d.fallback.Some?)
    ensures Recovers(BranchFrom(m), d)
  {
  }

  ghost predicate WebhookTaken(d: Data, m: Fields) {
    && d.WebhookData? && TakePositive(m, TimeoutKey) == Some(d.timeout) && TakeNonNegative(m, SettleKey) == Some(d.settle)
    && TakeGroups(m) == Some(d.groups) && m.Keys <= {TimeoutKey, SettleKey, ExpectKey}
  }

  lemma {:induction false} WebhookTakes(d: Data, groups: seq<Yaml>, m: Fields)
    requires d.WebhookData? && Positive(d.timeout) && NonNegative(d.settle)
    requires ParseGroups(groups) == Some(d.groups) && |groups| == |d.groups| && Carries(m, WebhookParts(d, groups))
    requires m.Keys <= {TimeoutKey, SettleKey, ExpectKey}
    ensures WebhookTaken(d, m)
  {
    var parts := WebhookParts(d, groups);
    assert Field(m, TimeoutKey) == parts[0].1 && Field(m, SettleKey) == parts[1].1 && Field(m, ExpectKey) == parts[2].1;
    PositiveBack(m, TimeoutKey, d.timeout);
    NonNegativeBack(m, SettleKey, d.settle);
    GroupsKeyBack(m, groups, d.groups);
  }

  lemma {:induction false} WebhookFromBack(d: Data, m: Fields)
    requires WebhookTaken(d, m)
    ensures Recovers(WebhookFrom(m), d)
  {
  }

  ghost predicate OperationTaken(d: Data, m: Fields) {
    && d.OperationData? && TakeText(m, IdKey) == Some(d.ref) && TakeText(m, OperationKey) == Some(d.operation)
    && TakePairs(m, InputsKey) == Some(d.inputs) && TakePositive(m, TimeoutKey) == Some(d.timeout)
    && TakeText(m, EventKey) == Some("") && m.Keys <= {IdKey, OperationKey, EventKey, TimeoutKey, InputsKey}
  }

  lemma {:induction false} OperationTakes(d: Data, m: Fields)
    requires d.OperationData? && Survives(Object(d.inputs)) && Positive(d.timeout) && Carries(m, OperationParts(d))
    requires m.Keys <= {IdKey, OperationKey, EventKey, TimeoutKey, InputsKey}
    ensures OperationTaken(d, m)
  {
    var parts := OperationParts(d);
    assert Field(m, IdKey) == parts[0].1 && Field(m, OperationKey) == parts[1].1;
    assert Field(m, EventKey) == parts[2].1 && Field(m, InputsKey) == parts[3].1 && Field(m, TimeoutKey) == parts[4].1;
    TextBack(m, IdKey, d.ref);
    TextBack(m, OperationKey, d.operation);
    PairsBack(m, InputsKey, d.inputs);
    PositiveBack(m, TimeoutKey, d.timeout);
  }

  lemma {:induction false} OperationFromBack(d: Data, m: Fields)
    requires OperationTaken(d, m) && Trimmed(d.ref) && Trimmed(d.operation)
    ensures Recovers(IntegrationFrom(m), d)
  {
    assert TrimSpace("") == "";
  }

  ghost predicate EventTaken(d: Data, m: Fields) {
    && d.EventData? && TakeText(m, IdKey) == Some(d.ref) && TakeText(m, EventKey) == Some(d.event)
    && TakePositive(m, TimeoutKey) == Some(d.timeout) && TakeNonNegative(m, SettleKey) == Some(d.settle)
    && TakeGroups(m) == Some(d.groups) && TakeText(m, OperationKey) == Some("")
    && m.Keys <= {IdKey, OperationKey, EventKey, TimeoutKey, SettleKey, ExpectKey}
  }

  lemma {:induction false} EventTakes(d: Data, groups: seq<Yaml>, m: Fields)
    requires d.EventData? && Positive(d.timeout) && NonNegative(d.settle)
    requires ParseGroups(groups) == Some(d.groups) && |groups| == |d.groups| && Carries(m, EventParts(d, groups))
    requires m.Keys <= {IdKey, OperationKey, EventKey, TimeoutKey, SettleKey, ExpectKey}
    ensures EventTaken(d, m)
  {
    var parts := EventParts(d, groups);
    assert Field(m, IdKey) == parts[0].1 && Field(m, OperationKey) == parts[1].1 && Field(m, EventKey) == parts[2].1;
    assert Field(m, TimeoutKey) == parts[3].1 && Field(m, SettleKey) == parts[4].1 && Field(m, ExpectKey) == parts[5].1;
    TextBack(m, IdKey, d.ref);
    TextBack(m, EventKey, d.event);
    PositiveBack(m, TimeoutKey, d.timeout);
    NonNegativeBack(m, SettleKey, d.settle);
    GroupsKeyBack(m, groups, d.groups);
  }

  lemma {:induction false} EventFromBack(d: Data, m: Fields)
    requires EventTaken(d, m) && Trimmed(d.ref) && Trimmed(d.event)
    ensures Recovers(IntegrationFrom(m), d)
  {
    assert TrimSpace("") == "";
  }

  lemma {:induction false} DelayBack(ms: int)
    requires ms > 0 && FitsInt(ms)
    ensures ParseDelay(IntNode(ms)) == Some(DelaySpec(ms))
  {
    ItoaRoundTrip(ms);
  }

  lemma {:induction false} SetBack(vars: map<string, Any>)
    requires vars != map[] && Survives(Object(vars))
    ensures ParseSet(ValueNode(Object(vars))) == Some(SetSpec(vars))
  {
    ValueBack(Object(vars));
  }

  lemma {:induction false} RequestBuilt(d: Data) returns (m: Fields)
    requires d.RequestData?
    ensures MappingOf(Mapping(Build(RequestParts(d)))) == Some(m)
    ensures Carries(m, RequestParts(d)) && m.Keys <= {MethodKey, UrlKey, HeadersKey, QueryKey, BodyKey, TimeoutKey}
  {
    BuildRead(RequestParts(d), {MethodKey, UrlKey, HeadersKey, QueryKey, BodyKey, TimeoutKey});
    m := FieldsOf(Build(RequestParts(d))).value;
  }

  lemma {:induction false} RequestBack(d: Data)
    requires d.RequestData? && Verb(d.verb) && Trimmed(d.url) && Survives(Object(d.query)) && Survives(d.payload) && Positive(d.timeout)
    ensures Recovers(ParseRequest(Mapping(Build(RequestParts(d)))), d)
  {
    var m := RequestBuilt(d);
    RequestTakes(d, m);
    RequestFromBack(d, m);
  }

  lemma {:induction false} AssertBack(d: Data)
    requires d.AssertData? && Survives(d.target)
    ensures Recovers(ParseAssert(Mapping(Build([ValuePart(TargetKey, d.target)]))), d)
  {
    BuildRead([ValuePart(TargetKey, d.target)], {TargetKey});
    AssertFromBack(d, FieldsOf(Build([ValuePart(TargetKey, d.target)])).value);
  }

  lemma {:induction false} BranchBuilt(d: Data, cases: seq<Yaml>) returns (m: Fields)
    requires d.BranchData?
    ensures MappingOf(Mapping(Build(BranchParts(d, cases)))) == Some(m)
    ensures Carries(m, BranchParts(d, cases)) && m.Keys <= {TargetKey, CasesKey, DefaultKey}
  {
    BuildRead(BranchParts(d, cases), {TargetKey, CasesKey, DefaultKey});
    m := FieldsOf(Build(BranchParts(d, cases))).value;
  }

  lemma {:induction false} BranchBack(d: Data, cases: seq<Yaml>)
    requires d.BranchData? && Survives(d.target) && (d.fallback.Some? ==> Trimmed(d.fallback.value))
    requires (d.cases != [] || d.fallback.Some?) && ParseCases(cases) == Some(d.cases) && |cases| == |d.cases|
    ensures Recovers(ParseBranch(Mapping(Build(BranchParts(d, cases)))), d)
  {
    var m := BranchBuilt(d, cases);
    BranchTakes(d, cases, m);
    BranchFromBack(d, m);
  }

  lemma {:induction false} WebhookBuilt(d: Data, groups: seq<Yaml>) returns (m: Fields)
    requires d.WebhookData?
    ensures MappingOf(Mapping(Build(WebhookParts(d, groups)))) == Some(m)
    ensures Carries(m, WebhookParts(d, groups)) && m.Keys <= {TimeoutKey, SettleKey, ExpectKey}
  {
    BuildRead(WebhookParts(d, groups), {TimeoutKey, SettleKey, ExpectKey});
    m := FieldsOf(Build(WebhookParts(d, groups))).value;
  }

  lemma {:induction false} WebhookBack(d: Data, groups: seq<Yaml>)
    requires d.WebhookData? && Positive(d.timeout) && NonNegative(d.settle)
    requires ParseGroups(groups) == Some(d.groups) && |groups| == |d.groups|
    ensures Recovers(ParseWebhook(Mapping(Build(WebhookParts(d, groups)))), d)
  {
    var m := WebhookBuilt(d, groups);
    WebhookTakes(d, groups, m);
    WebhookFromBack(d, m);
  }

  lemma {:induction false} SseBuilt(d: Data) returns (m: Fields)
    requires d.SseData?
    ensures MappingOf(Mapping(Build(SseParts(d)))) == Some(m)
    ensures Carries(m, SseParts(d)) && m.Keys <= {MethodKey, UrlKey, HeadersKey, TimeoutKey, MaxEventsKey, CompletionKey, StopKey}
  {
    BuildRead(SseParts(d), {MethodKey, UrlKey, HeadersKey, TimeoutKey, MaxEventsKey, CompletionKey, StopKey});
    m := FieldsOf(Build(SseParts(d))).value;
  }

  lemma {:induction false} SseBack(d: Data)
    requires d.SseData? && Positive(d.timeout) && Positive(d.maxEvents) && (d.completion.Some? ==> Trimmed(d.completion.value))
    requires Verb(d.verb) && Trimmed(d.url)
    ensures Recovers(ParseSse(Mapping(Build(SseParts(d)))), d)
  {
    var m := SseBuilt(d);
    SseTakes(d, m);
    SseFromBack(d, m);
  }

  lemma {:induction false} OperationBuilt(d: Data) returns (m: Fields)
    requires d.OperationData?
    ensures MappingOf(Mapping(Build(OperationParts(d)))) == Some(m)
    ensures Carries(m, OperationParts(d)) && m.Keys <= {IdKey, OperationKey, EventKey, TimeoutKey, InputsKey}
  {
    BuildRead(OperationParts(d), {IdKey, OperationKey, EventKey, TimeoutKey, InputsKey});
    m := FieldsOf(Build(OperationParts(d))).value;
  }

  lemma {:induction false} OperationBack(d: Data)
    requires d.OperationData? && Survives(Object(d.inputs)) && Positive(d.timeout) && Trimmed(d.ref) && Trimmed(d.operation)
    ensures Recovers(ParseIntegration(Mapping(Build(OperationParts(d)))), d)
  {
    var m := OperationBuilt(d);
    OperationTakes(d, m);
    OperationFromBack(d, m);
  }

  lemma {:induction false} EventBuilt(d: Data, groups: seq<Yaml>) returns (m: Fields)
    requires d.EventData?
    ensures MappingOf(Mapping(Build(EventParts(d, groups)))) == Some(m)
    ensures Carries(m, EventParts(d, groups)) && m.Keys <= {IdKey, OperationKey, EventKey, TimeoutKey, SettleKey, ExpectKey}
  {
    BuildRead(EventParts(d, groups), {IdKey, OperationKey, EventKey, TimeoutKey, SettleKey, ExpectKey});
    m := FieldsOf(Build(EventParts(d, groups))).value;
  }

  lemma {:induction false} EventBack(d: Data, groups: seq<Yaml>)
    requires d.EventData? && Positive(d.timeout) && NonNegative(d.settle) && Trimmed(d.ref) && Trimmed(d.event)
    requires ParseGroups(groups) == Some(d.groups) && |groups| == |d.groups|
    ensures Recovers(ParseIntegration(Mapping(Build(EventParts(d, groups)))), d)
  {
    var m := EventBuilt(d, groups);
    EventTakes(d, groups, m);
    EventFromBack(d, m);
  }

  lemma {:induction false} RequestSpecs(y: Yaml)
    ensures ParseSpec(RequestKey, y) == ParseRequest(y)
  {
  }

  lemma {:induction false} SseSpecs(y: Yaml)
    ensures ParseSpec(SseKey, y) == ParseSse(y)
  {
  }

  lemma {:induction false} IntegrationSpecs(y: Yaml)
    ensures ParseSpec(IntegrationKey, y) == ParseIntegration(y)
  {
  }

  lemma {:induction false} WebhookSpecs(y: Yaml)
    ensures ParseSpec(WebhookKey, y) == ParseWebhook(y)
  {
  }

  lemma {:induction false} StepSpecs(y: Yaml)
    ensures ParseSpec(DelayKey, y) == ParseDelay(y) && ParseSpec(SetKey, y) == ParseSet(y)
    ensures ParseSpec(AssertKey, y) == ParseAssert(y) && ParseSpec(BranchKey, y) == ParseBranch(y)
  {
  }

  /** What is printed for a kind is read back to it. */
  ghost predicate ComesBack(d: Data) {
    PrintData(d).Some? ==> Recovers(ParseSpec(KindOf(d), PrintData(d).value), d)
  }

  lemma {:induction false} DelayComesBack(d: Data)
    requires d.DelayData? && CompiledData(d) && CleanData(d)
    ensures ComesBack(d)
  {
    if PrintData(d).Some? {
      DelayBack(d.ms);
      StepSpecs(PrintData(d).value);
    }
  }

  lemma {:induction false} SetComesBack(d: Data)
    requires d.SetData? && CompiledData(d) && CleanData(d)
    ensures ComesBack(d)
  {
    if PrintData(d).Some? {
      SetBack(d.vars);
      StepSpecs(PrintData(d).value);
    }
  }

  lemma {:induction false} AssertComesBack(d: Data)
    requires d.AssertData? && CompiledData(d) && CleanData(d)
    ensures ComesBack(d)
  {
    if PrintData(d).Some? {
      AssertBack(d);
      StepSpecs(PrintData(d).value);
    }
  }

  lemma {:induction false} RequestComesBack(d: Data)
    requires d.RequestData? && CompiledData(d) && CleanData(d)
    ensures ComesBack(d)
  {
    if PrintData(d).Some? {
      RequestBack(d);
      RequestSpecs(PrintData(d).value);
    }
  }

  lemma {:induction false} SseComesBack(d: Data)
    requires d.SseData? && CompiledData(d) && CleanData(d)
    ensures ComesBack(d)
  {
    if PrintData(d).Some? {
      SseBack(d);
      SseSpecs(PrintData(d).value);
    }
  }

  lemma {:induction false} OperationComesBack(d: Data)
    requires d.OperationData? && CompiledData(d) && CleanData(d)
    ensures ComesBack(d)
  {
    if PrintData(d).Some? {
      OperationBack(d);
      IntegrationSpecs(PrintData(d).value);
    }
  }

  lemma {:induction false} BranchComesBack(d: Data)
    requires d.BranchData? && CompiledData(d) && CleanData(d)
    ensures ComesBack(d)
  {
    if PrintData(d).Some? {
      CasesBack(d.cases);
      BranchBack(d, PrintCases(d.cases).value);
      StepSpecs(PrintData(d).value);
    }
  }

  lemma {:induction false} WebhookComesBack(d: Data)
    requires d.WebhookData? && CompiledData(d) && CleanData(d)
    ensures ComesBack(d)
  {
    if PrintData(d).Some? {
      GroupListBack(d.groups);
      WebhookBack(d, PrintGroups(d.groups).value);
      WebhookSpecs(PrintData(d).value);
    }
  }

  lemma {:induction false} EventComesBack(d: Data)
    requires d.EventData? && CompiledData(d) && CleanData(d)
    ensures ComesBack(d)
  {
    if PrintData(d).Some? {
      GroupListBack(d.groups);
      EventBack(d, PrintGroups(d.groups).value);
      IntegrationSpecs(PrintData(d).value);
    }
  }

  /** A kind without a body is read back from what it was printed as. */
  lemma {:induction false} FlatDataBack(d: Data)
    requires CompiledData(d) && CleanData(d)
    requires !d.PollData? && !d.LoopData? && !d.ModuleData?
    ensures ComesBack(d)
  {
    if d.DelayData? {
      DelayComesBack(d);
    } else if d.SetData? {
      SetComesBack(d);
    } else if d.RequestData? {
      RequestComesBack(d);
    } else if d.AssertData? {
      AssertComesBack(d);
    } else if d.BranchData? {
      BranchComesBack(d);
    } else if d.WebhookData? {
      WebhookComesBack(d);
    } else if d.SseData? {
      SseComesBack(d);
    } else if d.OperationData? {
      OperationComesBack(d);
    } else {
      EventComesBack(d);
    }
  }
}
