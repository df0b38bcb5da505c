/** Outputs and module bindings are read back as they were stored. */
module FlowOutputsBack {
  import opened References
  import opened GoText
  import opened SortedNames
  import opened Checks
  import opened FlowTree
  import opened FlowModel
  import opened FlowParse
  import opened FlowLower
  import opened FlowPrint
  import opened FlowShapes

  // ---- Extracted outputs

  lemma {:induction false} HeaderShorthand(header: string)
    requires header != ""
    ensures Shorthand("header:" + header) == Some(HeaderOf(header))
  {
    var text := "header:" + header;
    assert text[0] == 'h' && text[..7] == "header:" && text[7..] == header;
    assert !HasPrefix(text, "$") && HasPrefix(text, "header:");
  }

  lemma {:induction false} WordShorthands()
    ensures Shorthand("body") == Some(BodyOf) && Shorthand("status") == Some(StatusOf)
  {
    assert "body"[0] == 'b' && "status"[0] == 's';
  }

  /** A source and its secret flag, as a mapping. */
  lemma {:induction false} LongBuilt(k: Key, v: Yaml, secret: bool) returns (m: Fields)
    requires k == PathKey || k == HeaderKey || k == StatusKey
    ensures MappingOf(Mapping(Build([(k, Some(v)), SecretPart(secret)]))) == Some(m)
    ensures m == if secret then map[k := v, SecretKey := BoolNode(true)] else map[k := v]
  {
    var parts := [(k, Some(v)), SecretPart(secret)];
    BuildRead(parts, {k, SecretKey});
    m := FieldsOf(Build(parts)).value;
    assert Field(m, parts[0].0) == parts[0].1 && Field(m, parts[1].0) == parts[1].1;
  }

  lemma {:induction false} LongRead(name: string, k: Key, v: Yaml, secret: bool)
    requires k == PathKey || k == HeaderKey || k == StatusKey
    requires (k == StatusKey ==> AsBool(v) == Some(true)) && (k != StatusKey ==> v.Scalar?)
    ensures LongOutput(name, if secret then map[k := v, SecretKey := BoolNode(true)] else map[k := v]) == Some(Declared(name,
      Extracted(if k == PathKey then PathOf(v.text) else if k == HeaderKey then HeaderOf(v.text) else StatusOf), secret))
  {
    var m: Fields := if secret then map[k := v, SecretKey := BoolNode(true)] else map[k := v];
    assert m.Keys - {SecretKey} == {k};
    assert TakeBool(m, SecretKey) == Some(if secret then Some(true) else None);
  }

  predicate NotModule(spec: Spec) { !spec.ModuleSpec? }

  lemma {:induction false} OutputBack(o: Output, spec: Spec)
    requires PrintOutput(o).Some? && NotModule(spec) && (o.extractor.BodyOf? ==> !o.secret)
    ensures OneOutput(spec, o.name, PrintOutput(o).value) == Some(Declared(o.name, Extracted(o.extractor), o.secret))
  {
    WordShorthands();
    match o.extractor
    case PathOf(path) =>
      if o.secret || !HasPrefix(path, "$") {
        var m := LongBuilt(PathKey, StrNode(path), o.secret);
        LongRead(o.name, PathKey, StrNode(path), o.secret);
      }
    case HeaderOf(header) =>
      if o.secret {
        var m := LongBuilt(HeaderKey, StrNode(header), true);
        LongRead(o.name, HeaderKey, StrNode(header), true);
      } else {
        HeaderShorthand(header);
      }
    case StatusOf =>
      if o.secret {
        var m := LongBuilt(StatusKey, BoolNode(true), true);
        LongRead(o.name, StatusKey, BoolNode(true), true);
      }
    case BodyOf =>
  }

  function AsDeclared(outputs: seq<Output>): seq<Declared> {
    seq(|outputs|, i requires 0 <= i < |outputs| => Declared(outputs[i].name, Extracted(outputs[i].extractor), outputs[i].secret))
  }

  lemma {:induction false} OneMoreOutput(spec: Spec, entries: seq<Entry>, e: Entry, decls: seq<Declared>, d: Declared)
    requires Outputs(spec, entries) == Some(decls) && ValidId(KeyText(e.key)) && !Names(decls, KeyText(e.key))
    requires OneOutput(spec, KeyText(e.key), e.value) == Some(d)
    ensures Outputs(spec, entries + [e]) == Some(decls + [d])
  {
    assert (entries + [e])[..|entries|] == entries;
  }

  lemma {:induction false} PrintOneMoreOutput(outputs: seq<Output>)
    requires outputs != [] && PrintOutputs(outputs).Some?
    ensures PrintOutputs(outputs[..|outputs| - 1]).Some? && PrintOutput(outputs[|outputs| - 1]).Some?
    ensures PrintOutputs(outputs).value == PrintOutputs(outputs[..|outputs| - 1]).value
      + [Entry(KeyOf(outputs[|outputs| - 1].name), PrintOutput(outputs[|outputs| - 1]).value)]
  {
  }

  lemma {:induction false} DeclareOneMore(outputs: seq<Output>)
    requires outputs != []
    ensures AsDeclared(outputs) == AsDeclared(outputs[..|outputs| - 1])
      + [Declared(outputs[|outputs| - 1].name, Extracted(outputs[|outputs| - 1].extractor), outputs[|outputs| - 1].secret)]
  {
  }

  lemma {:induction false} LastOutputIsNew(outputs: seq<Output>)
    requires outputs != [] && CompiledOutputs(outputs)
    ensures !Names(AsDeclared(outputs[..|outputs| - 1]), outputs[|outputs| - 1].name)
  {
  }

  lemma {:induction false} OutputsBack(outputs: seq<Output>, spec: Spec)
    requires CompiledOutputs(outputs) && NotModule(spec) && PrintOutputs(outputs).Some?
    ensures Outputs(spec, PrintOutputs(outputs).value) == Some(AsDeclared(outputs))
  {
    if outputs == [] {
      assert AsDeclared(outputs) == [];
    } else {
      var front, last := outputs[..|outputs| - 1], outputs[|outputs| - 1];
      PrintOneMoreOutput(outputs);
      OutputsBack(front, spec);
      OutputBack(last, spec);
      LastOutputIsNew(outputs);
      DeclareOneMore(outputs);
      var entry := Entry(KeyOf(last.name), PrintOutput(last).value);
      OneMoreOutput(spec, PrintOutputs(front).value, entry, AsDeclared(front), Declared(last.name, Extracted(last.extractor), last.secret));
    }
  }

  lemma {:induction false} LowerDeclared(outputs: seq<Output>)
    ensures LowerOutputs(AsDeclared(outputs)) == outputs
  {
  }

  // ---- Bindings

  lemma {:induction false} NamesTrim(s: string)
    requires ValidBinding(s)
    ensures TrimSpace(s) == s && s != ""
  {
    assert IsNameChar(s[0]) && IsNameChar(s[|s| - 1]);
  }

  function Bound(bindings: map<string, string>, names: seq<string>): seq<Declared>
    requires forall n :: n in names ==> n in bindings
  {
    seq(|names|, i requires 0 <= i < |names| => Declared(names[i], Binding(bindings[names[i]]), false))
  }

  lemma {:induction false} BindOneMore(bindings: map<string, string>, front: seq<string>, last: string)
    requires last in bindings && forall n :: n in front ==> n in bindings
    ensures forall n :: n in front + [last] ==> n in bindings
    ensures Bound(bindings, front + [last]) == Bound(bindings, front) + [Declared(last, Binding(bindings[last]), false)]
  {
  }

  lemma {:induction false} EntryOneMore(v: Any, front: seq<string>, last: string)
    requires v.Object? && last in v.fields && forall n :: n in front ==> n in v.fields
    ensures forall n :: n in front + [last] ==> n in v.fields
    ensures ObjectEntries(v, front + [last]) == ObjectEntries(v, front) + [Entry(KeyOf(last), ValueNode(v.fields[last]))]
  {
    assert (front + [last])[..|front|] == front;
  }

  lemma {:induction false} NotNamedYet(bindings: map<string, string>, front: seq<string>, last: string)
    requires last !in front && forall n :: n in front ==> n in bindings
    ensures !Names(Bound(bindings, front), last)
  {
  }

  lemma {:induction false} BoundStep(bindings: map<string, string>, front: seq<string>, last: string, spec: Spec)
    requires spec.ModuleSpec? && last in bindings && last !in front && forall n :: n in front ==> n in bindings
    requires ValidId(last) && TrimSpace(bindings[last]) == bindings[last]
    requires Outputs(spec, ObjectEntries(Object(AsAny(bindings)), front)) == Some(Bound(bindings, front))
    ensures forall n :: n in front + [last] ==> n in bindings
    ensures Outputs(spec, ObjectEntries(Object(AsAny(bindings)), front + [last])) == Some(Bound(bindings, front + [last]))
  {
    NotNamedYet(bindings, front, last);
    BindOneMore(bindings, front, last);
    EntryOneMore(Object(AsAny(bindings)), front, last);
    OneMoreOutput(spec, ObjectEntries(Object(AsAny(bindings)), front), Entry(KeyOf(last), StrNode(bindings[last])),
      Bound(bindings, front), Declared(last, Binding(bindings[last]), false));
  }

  lemma {:induction false} BoundBack(bindings: map<string, string>, names: seq<string>, spec: Spec)
    requires spec.ModuleSpec? && CleanBindings(bindings) && forall n :: n in names ==> n in bindings
    requires NoRepeats(names)
    ensures Outputs(spec, ObjectEntries(Object(AsAny(bindings)), names)) == Some(Bound(bindings, names))
  {
    if names == [] {
      assert Bound(bindings, names) == [];
    } else {
      var front, last := names[..|names| - 1], names[|names| - 1];
      assert last in names && last !in front;
      FrontAndLast(names);
      BoundBack(bindings, front, spec);
      NamesTrim(bindings[last]);
      BoundStep(bindings, front, last, spec);
    }
  }

  function Picked(bindings: map<string, string>, names: seq<string>): map<string, string> {
    map n | n in names && n in bindings :: bindings[n]
  }

  lemma {:induction false} PickOneMore(bindings: map<string, string>, front: seq<string>, last: string)
    requires last in bindings
    ensures Picked(bindings, front + [last]) == Picked(bindings, front)[last := bindings[last]]
  {
  }

  lemma {:induction false} BoundMap(bindings: map<string, string>, names: seq<string>)
    requires CleanBindings(bindings) && forall n :: n in names ==> n in bindings
    ensures BindingMap(Bound(bindings, names)) == Picked(bindings, names)
  {
    if names != [] {
      var front, last := names[..|names| - 1], names[|names| - 1];
      assert last in names;
      FrontAndLast(names);
      BoundMap(bindings, front);
      NamesTrim(bindings[last]);
      BindOneMore(bindings, front, last);
      PickOneMore(bindings, front, last);
      assert Bound(bindings, names)[..|front|] == Bound(bindings, front);
    } else {
      assert Bound(bindings, names) == [] && Picked(bindings, names) == map[];
    }
  }

  lemma {:induction false} BoundShaped(bindings: map<string, string>, names: seq<string>)
    requires CleanBindings(bindings) && forall n :: n in names ==> n in bindings
    ensures BindingsShaped(Bound(bindings, names))
  {
  }

  /** The outputs a module's bindings are read back as. */
  ghost function BindingOutputs(bindings: map<string, string>): seq<Declared> {
    Bound(bindings, SortedKeys(bindings.Keys))
  }

  lemma {:induction false} BindingsBack(bindings: map<string, string>, spec: Spec)
    requires spec.ModuleSpec? && CleanBindings(bindings)
    ensures ValueNode(Object(AsAny(bindings))).Mapping?
    ensures Outputs(spec, ValueNode(Object(AsAny(bindings))).entries) == Some(BindingOutputs(bindings))
    ensures BindingMap(BindingOutputs(bindings)) == bindings && BindingsShaped(BindingOutputs(bindings))
  {
    var names := SortedKeys(bindings.Keys);
    assert AsAny(bindings).Keys == bindings.Keys;
    forall i, j | 0 <= i < j < |names| ensures names[i] != names[j] { Irreflexive(names[i]); }
    BoundBack(bindings, names, spec);
    BoundMap(bindings, names);
    BoundShaped(bindings, names);
    assert Picked(bindings, names) == bindings;
  }
}
