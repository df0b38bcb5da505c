/** The tree of a flow file: scalars, lists and ordered mappings, and the plain values stored in it. */
module FlowTree {
  import opened References
  import opened GoText
  import opened Numbers
  import opened SortedNames
  import opened Checks

  /** A mapping key: a word of the file format, or any other text. */
  datatype Key =
    | NodesKey | StepsKey | IdKey | DisplayKey | RunWhenKey | NextKey | OnFailureKey | OutputsKey | ExpectKey | InputsKey
    | RequestKey | ModuleKey | DelayKey | SetKey | AssertKey | BranchKey | PollKey | LoopKey | WebhookKey | SseKey | IntegrationKey
    | MethodKey | UrlKey | HeadersKey | QueryKey | BodyKey | TimeoutKey | RefKey | DurationKey | TargetKey | CasesKey | DefaultKey
    | WhenKey | MaxAttemptsKey | IntervalKey | ItemsKey | ItemVarKey | IndexVarKey | MaxIterationsKey | ContinueKey | SettleKey
    | NameKey | MinKey | MaxKey | ChecksKey | MaxEventsKey | CompletionKey | StopKey | OperationKey | EventKey
    | SecretKey | PathKey | HeaderKey | StatusKey
    | Other(text: string)

  function KeyText(k: Key): string {
    match k
    case NodesKey => "nodes" case StepsKey => "steps" case IdKey => "id" case DisplayKey => "display_name"
    case RunWhenKey => "run_when" case NextKey => "next" case OnFailureKey => "on_failure" case OutputsKey => "outputs"
    case ExpectKey => "expect" case InputsKey => "inputs" case RequestKey => "request" case ModuleKey => "module"
    case DelayKey => "delay" case SetKey => "set" case AssertKey => "assert" case BranchKey => "branch" case PollKey => "poll"
    case LoopKey => "loop" case WebhookKey => "webhook_wait" case SseKey => "sse" case IntegrationKey => "integration"
    case MethodKey => "method" case UrlKey => "url" case HeadersKey => "headers" case QueryKey => "query" case BodyKey => "body"
    case TimeoutKey => "timeout_ms" case RefKey => "ref" case DurationKey => "duration_ms" case TargetKey => "target"
    case CasesKey => "cases" case DefaultKey => "default" case WhenKey => "when" case MaxAttemptsKey => "max_attempts"
    case IntervalKey => "interval_ms" case ItemsKey => "items" case ItemVarKey => "item_var" case IndexVarKey => "index_var"
    case MaxIterationsKey => "max_iterations" case ContinueKey => "continue_on_error" case SettleKey => "settle_ms"
    case NameKey => "name" case MinKey => "min" case MaxKey => "max" case ChecksKey => "checks"
    case MaxEventsKey => "max_events" case CompletionKey => "completion_event" case StopKey => "stop_on_assertion_failure"
    case OperationKey => "operation" case EventKey => "event" case SecretKey => "secret" case PathKey => "path"
    case HeaderKey => "header" case StatusKey => "status"
    case Other(text) => text
  }

  /** The key with this text: a word of the format where there is one. */
  ghost function KeyOf(text: string): (k: Key)
    ensures KeyText(k) == text
  {
    if exists k: Key :: !k.Other? && KeyText(k) == text then
      var k: Key :| !k.Other? && KeyText(k) == text; k
    else Other(text)
  }

  datatype Tag = StrTag | IntTag | BoolTag | NullTag

  datatype Yaml =
    | Scalar(tag: Tag, text: string)
    | Sequence(items: seq<Yaml>)
    | Mapping(entries: seq<Entry>)

  datatype Entry = Entry(key: Key, value: Yaml)

  type Fields = map<Key, Yaml>

  function Size(y: Yaml): nat {
    match y
    case Scalar(_, _) => 1
    case Sequence(items) => 1 + SizeOfItems(items)
    case Mapping(entries) => 1 + SizeOfEntries(entries)
  }

  function SizeOfItems(items: seq<Yaml>): nat {
    if items == [] then 0 else SizeOfItems(items[..|items| - 1]) + 1 + Size(items[|items| - 1])
  }

  function SizeOfEntries(entries: seq<Entry>): nat {
    if entries == [] then 0 else SizeOfEntries(entries[..|entries| - 1]) + SizeOfEntry(entries[|entries| - 1])
  }

  function SizeOfEntry(e: Entry): nat {
    1 + Size(e.value)
  }

  /** mappingOf: a key may not occur twice. */
  function FieldsOf(entries: seq<Entry>): (m: Option<Fields>)
    ensures m.Some? ==> forall k :: k in m.value ==> Size(m.value[k]) < SizeOfEntries(entries)
  {
    if entries == [] then Some(map[])
    else
      var rest, last := FieldsOf(entries[..|entries| - 1]), entries[|entries| - 1];
      if rest.None? || last.key in rest.value then None else Some(rest.value[last.key := last.value])
  }

  function MappingOf(y: Yaml): (m: Option<Fields>)
    ensures m.Some? ==> forall k :: k in m.value ==> Size(m.value[k]) < Size(y)
  {
    if y.Mapping? then FieldsOf(y.entries) else None
  }

  function Field(m: Fields, k: Key): Option<Yaml> {
    if k in m then Some(m[k]) else None
  }

  // ---- Building a mapping

  type Part = (Key, Option<Yaml>)

  /** mapBuilder.raw: an absent value leaves its key out. */
  function Build(parts: seq<Part>): seq<Entry> {
    if parts == [] then []
    else
      var rest, last := Build(parts[..|parts| - 1]), parts[|parts| - 1];
      if last.1.None? then rest else rest + [Entry(last.0, last.1.value)]
  }

  lemma {:induction false} FrontAndLast<T>(s: seq<T>)
    requires s != []
    ensures s == s[..|s| - 1] + [s[|s| - 1]]
  {
  }

  predicate DistinctKeys(parts: seq<Part>) {
    forall i, j :: 0 <= i < j < |parts| ==> parts[i].0 != parts[j].0
  }

  /** The fields hold the parts that are there. */
  ghost predicate Carries(m: Fields, parts: seq<Part>) {
    forall i :: 0 <= i < |parts| ==> Field(m, parts[i].0) == parts[i].1
  }

  ghost predicate Within(parts: seq<Part>, keys: set<Key>) {
    forall i :: 0 <= i < |parts| ==> parts[i].0 in keys
  }

  /** A built mapping is read back key by key, and holds no other key. */
  lemma {:induction false} BuildRead(parts: seq<Part>, keys: set<Key>)
    requires DistinctKeys(parts) && Within(parts, keys)
    ensures FieldsOf(Build(parts)).Some? && Carries(FieldsOf(Build(parts)).value, parts)
    ensures FieldsOf(Build(parts)).value.Keys <= keys
  {
    if parts != [] {
      var front, last := parts[..|parts| - 1], parts[|parts| - 1];
      assert Within(front, keys - {last.0});
      BuildRead(front, keys - {last.0});
      var rest := Build(front);
      if last.1.Some? { assert (rest + [Entry(last.0, last.1.value)])[..|rest|] == rest; }
      forall i | 0 <= i < |parts| ensures Field(FieldsOf(Build(parts)).value, parts[i].0) == parts[i].1 {
        if i < |front| { assert parts[i] == front[i]; }
      }
    }
  }

  // ---- Scalars

  function StrNode(text: string): Yaml { Scalar(StrTag, text) }

  function IntNode(n: int): Yaml { Scalar(IntTag, Itoa(n)) }

  function BoolNode(on: bool): Yaml { Scalar(BoolTag, if on then "true" else "false") }

  const NullNode := Scalar(NullTag, "null")

  /** asInt. A null decodes to zero. */
  function AsInt(y: Yaml): Option<int> {
    if !y.Scalar? then None
    else match y.tag
      case IntTag => Atoi(y.text)
      case NullTag => Some(0)
      case _ => None
  }

  function AsBool(y: Yaml): Option<bool> {
    if !y.Scalar? then None
    else match y.tag
      case BoolTag => Some(y.text == "true")
      case NullTag => Some(false)
      case _ => None
  }

  // ---- Plain values

  /** decodeAny. */
  function Decode(y: Yaml): Option<Any> {
    match y
    case Scalar(StrTag, text) => Some(Text(text))
    case Scalar(IntTag, text) => if Atoi(text).Some? then Some(Number(Atoi(text).value)) else None
    case Scalar(BoolTag, text) => Some(Flag(text == "true"))
    case Scalar(NullTag, _) => Some(Null)
    case Sequence(items) =>
      var all := DecodeItems(items);
      if all.Some? then Some(List(all.value)) else None
    case Mapping(entries) =>
      var all := DecodeEntries(entries);
      if all.Some? then Some(Object(all.value)) else None
  }

  function DecodeItems(items: seq<Yaml>): Option<seq<Any>> {
    if items == [] then Some([])
    else
      var rest, last := DecodeItems(items[..|items| - 1]), Decode(items[|items| - 1]);
      if rest.None? || last.None? then None else Some(rest.value + [last.value])
  }

  /** Keys become text; a repeated key or a value that does not decode is an error. */
  function DecodeEntries(entries: seq<Entry>): Option<map<string, Any>> {
    if entries == [] then Some(map[])
    else
      var rest, last := DecodeEntries(entries[..|entries| - 1]), entries[|entries| - 1];
      var value := DecodeEntry(last);
      if rest.None? || value.None? || KeyText(last.key) in rest.value then None
      else Some(rest.value[KeyText(last.key) := value.value])
  }

  function DecodeEntry(e: Entry): Option<Any> {
    Decode(e.value)
  }

  lemma {:induction false} SortedExists(s: set<string>)
    ensures exists names :: Increasing(names) && forall y :: y in names <==> y in s
  {
    if s == {} {
      assert Increasing([]);
    } else {
      var x :| x in s;
      SortedExists(s - {x});
      var names :| Increasing(names) && forall y :: y in names <==> y in s - {x};
      InsertIncreasing(names, x);
      forall y ensures y in Insert(names, x) <==> y in s { InsertMembers(names, x, y); }
    }
  }

  /** slices.Sorted(maps.Keys(m)). */
  ghost function SortedKeys(s: set<string>): (names: seq<string>)
    ensures Increasing(names) && forall y :: y in names <==> y in s
  {
    SortedExists(s);
    var names :| Increasing(names) && forall y :: y in names <==> y in s;
    names
  }

  /** valueNode, of a value that was read from its stored form: its numbers are float64 values. */
  ghost function ValueNode(v: Any): Yaml
    decreases v, 1
  {
    match v
    case Null => NullNode
    case Flag(on) => BoolNode(on)
    case Number(n) => IntNode(Reloaded(n))
    case Real(json) => StrNode(json)
    case Text(text) => StrNode(text)
    case List(items) => Sequence(seq(|items|, i requires 0 <= i < |items| => ValueNode(items[i])))
    case Object(fields) => Mapping(ObjectEntries(v, SortedKeys(fields.Keys)))
  }

  ghost function ObjectEntries(v: Any, names: seq<string>): seq<Entry>
    requires v.Object? && forall n :: n in names ==> n in v.fields
    decreases v, 0, |names|
  {
    if names == [] then []
    else
      var front, last := names[..|names| - 1], names[|names| - 1];
      assert last in names;
      ObjectEntries(v, front) + [Entry(KeyOf(last), ValueNode(v.fields[last]))]
  }

  /** Every number is a 64-bit integer. */
  ghost predicate Fits(v: Any) {
    match v
    case Number(n) => FitsInt(n)
    case Real(_) => false
    case List(items) => forall i :: 0 <= i < |items| ==> Fits(items[i])
    case Object(fields) => forall k :: k in fields ==> Fits(fields[k])
    case _ => true
  }

  /** A float64 holds every number in the value. */
  ghost predicate Unrounded(v: Any) {
    match v
    case Number(n) => ExactDouble(n)
    case List(items) => forall i :: 0 <= i < |items| ==> Unrounded(items[i])
    case Object(fields) => forall k :: k in fields ==> Unrounded(fields[k])
    case _ => true
  }

  /** A value of 64-bit numbers, each one a float64. */
  ghost predicate Survives(v: Any) { Fits(v) && Unrounded(v) }

  /** The value with each number read as a float64 and printed. */
  ghost function Rounded(v: Any): Any {
    match v
    case Number(n) => Number(Reloaded(n))
    case List(items) => List(seq(|items|, i requires 0 <= i < |items| => Rounded(items[i])))
    case Object(fields) => Object(map k | k in fields :: Rounded(fields[k]))
    case _ => v
  }

  lemma {:induction false} RoundedExactly(v: Any)
    requires Fits(v)
    ensures Rounded(v) == v <==> Unrounded(v)
  {
    match v
    case Number(n) => ReloadedExactly(n);
    case List(items) => RoundedListExactly(v);
    case Object(fields) => RoundedObjectExactly(v);
    case _ =>
  }

  lemma {:induction false} RoundedListExactly(v: Any)
    requires Fits(v) && v.List?
    ensures Rounded(v) == v <==> Unrounded(v)
    decreases v, 0
  {
    var items := v.items;
    forall i | 0 <= i < |items| ensures Rounded(items[i]) == items[i] <==> Unrounded(items[i]) {
      RoundedExactly(items[i]);
    }
    assert |Rounded(v).items| == |items| && forall i :: 0 <= i < |items| ==> Rounded(v).items[i] == Rounded(items[i]);
    if Rounded(v) == v {
      forall i | 0 <= i < |items| ensures Unrounded(items[i]) { assert Rounded(v).items[i] == items[i]; }
    }
    if Unrounded(v) { assert Rounded(v).items == items; }
  }

  lemma {:induction false} RoundedObjectExactly(v: Any)
    requires Fits(v) && v.Object?
    ensures Rounded(v) == v <==> Unrounded(v)
    decreases v, 0
  {
    var fields := v.fields;
    forall k | k in fields ensures Rounded(fields[k]) == fields[k] <==> Unrounded(fields[k]) {
      RoundedExactly(fields[k]);
    }
    assert Rounded(v).fields.Keys == fields.Keys && forall k :: k in fields ==> Rounded(v).fields[k] == Rounded(fields[k]);
    if Rounded(v) == v {
      forall k | k in fields ensures Unrounded(fields[k]) { assert Rounded(v).fields[k] == fields[k]; }
    }
    if Unrounded(v) { assert Rounded(v).fields == fields; }
  }

  /** A printed value decodes to the value with its numbers rounded. */
  lemma {:induction false} ValueRead(v: Any)
    requires Fits(v)
    ensures Decode(ValueNode(v)) == Some(Rounded(v))
    decreases v, 1
  {
    match v
    case Number(n) =>
      ReloadedExactly(n);
      ItoaRoundTrip(Reloaded(n));
    case List(items) =>
      ItemsBack(v, |items|);
      assert Rounded(v).items[..|items|] == Rounded(v).items;
      assert ValueNode(v).items[..|items|] == ValueNode(v).items;
    case Object(fields) =>
      var names := SortedKeys(fields.Keys);
      ObjectBack(v, names);
      assert Chosen(Rounded(v).fields, names) == Rounded(v).fields;
    case _ =>
  }

  /** A printed value decodes to itself exactly when a float64 holds each of its numbers. */
  lemma {:induction false} ValueBack(v: Any)
    requires Fits(v)
    ensures Decode(ValueNode(v)) == Some(v) <==> Unrounded(v)
  {
    ValueRead(v);
    RoundedExactly(v);
  }

  lemma {:induction false} ItemsBack(v: Any, k: nat)
    requires v.List? && Fits(v) && k <= |v.items|
    ensures DecodeItems(ValueNode(v).items[..k]) == Some(Rounded(v).items[..k])
    decreases v, 0, k
  {
    if k > 0 {
      ItemsBack(v, k - 1);
      ValueRead(v.items[k - 1]);
      assert ValueNode(v).items[..k][..k - 1] == ValueNode(v).items[..k - 1];
      assert Rounded(v).items[..k] == Rounded(v).items[..k - 1] + [Rounded(v.items[k - 1])];
    }
  }

  ghost function Chosen(fields: map<string, Any>, names: seq<string>): map<string, Any> {
    map n | n in names && n in fields :: fields[n]
  }

  lemma {:induction false} ChosenGrows(fields: map<string, Any>, front: seq<string>, last: string)
    requires last in fields
    ensures Chosen(fields, front + [last]) == Chosen(fields, front)[last := fields[last]]
  {
  }

  lemma {:induction false} LastIsNew(names: seq<string>)
    requires names != [] && Increasing(names)
    ensures names[|names| - 1] !in names[..|names| - 1]
  {
    Irreflexive(names[|names| - 1]);
  }

  lemma {:induction false} DecodeOneMore(entries: seq<Entry>, e: Entry)
    requires DecodeEntries(entries).Some? && Decode(e.value).Some? && KeyText(e.key) !in DecodeEntries(entries).value
    ensures DecodeEntries(entries + [e]) == Some(DecodeEntries(entries).value[KeyText(e.key) := Decode(e.value).value])
  {
    assert (entries + [e])[..|entries|] == entries;
  }

  lemma {:induction false} ObjectBack(v: Any, names: seq<string>)
    requires v.Object? && Fits(v) && Increasing(names) && forall n :: n in names ==> n in v.fields
    ensures DecodeEntries(ObjectEntries(v, names)) == Some(Chosen(Rounded(v).fields, names))
    decreases v, 0, |names|
  {
    if names == [] {
      assert Chosen(Rounded(v).fields, names) == map[];
    } else {
      var front, last := names[..|names| - 1], names[|names| - 1];
      assert names == front + [last] && last in names;
      ObjectBack(v, front);
      ValueRead(v.fields[last]);
      LastIsNew(names);
      ChosenGrows(Rounded(v).fields, front, last);
      DecodeOneMore(ObjectEntries(v, front), Entry(KeyOf(last), ValueNode(v.fields[last])));
    }
  }
}
