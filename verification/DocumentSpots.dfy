/** What resolving the templates of a JSON document does at each place in it. */
module DocumentSpots {
  import opened References
  import GoText
  import opened Templates
  import opened JsonText
  import opened TemplateRewrite

  // ---- One raw token

  lemma {:induction false} RunOfAll(ref: string)
    requires forall i :: 0 <= i < |ref| ==> !IsBrace(ref[i])
    ensures RunLength(ref) == |ref|
  {
    if ref != "" { RunOfAll(ref[1..]); }
  }

  /** A string that is one triple-brace token becomes the value it names, whatever that is; an unknown name stays. */
  lemma {:induction false} RawTokenIsValue(ref: string, lookup: string -> Option<Resolved>, show: Resolved -> string)
    requires ref != "" && forall i :: 0 <= i < |ref| ==> !IsBrace(ref[i])
    ensures var s, found := "{{{" + ref + "}}}", lookup(GoText.TrimSpace(ref));
      ResolveString(s, lookup, show) == if found.Some? then found.value else Text(s)
  {
    var s := "{{{" + ref + "}}}";
    assert s[0] == '{' && s[1] == '{' && HasToken(s);
    assert s[..3] == "{{{" && s[|s| - 3..] == "}}}" && s[3..|s| - 3] == ref;
    RunOfAll(ref);
  }

  // ---- Places in a document

  /** One step down: the k-th item of a list, or the value of the k-th member of an object. */
  datatype Step = ItemAt(k: nat) | MemberAt(k: nat)

  function NthItem(items: Items, k: nat): Option<Json> {
    match items
    case NoItems(_) => None
    case Item(_, value, _, rest) => if k == 0 then Some(value) else NthItem(rest, k - 1)
  }

  /** The key and the value of the k-th member. */
  function NthMember(members: Members, k: nat): Option<(string, Json)> {
    match members
    case NoMembers(_) => None
    case Member(_, key, _, _, value, _, rest) => if k == 0 then Some((key, value)) else NthMember(rest, k - 1)
  }

  function Below(j: Json, step: Step): Option<Json> {
    match (j, step)
    case (Arr(items), ItemAt(k)) => NthItem(items, k)
    case (Obj(members), MemberAt(k)) => if NthMember(members, k).Some? then Some(NthMember(members, k).value.1) else None
    case _ => None
  }

  function At(j: Json, path: seq<Step>): Option<Json>
    decreases |path|
  {
    if path == [] then Some(j)
    else if Below(j, path[0]).None? then None
    else At(Below(j, path[0]).value, path[1..])
  }

  function TreeBelow(t: Tree, step: Step): Option<Tree> {
    match (t, step)
    case (TArr(items), ItemAt(k)) => if k < |items| then Some(items[k]) else None
    case (TObj(members), MemberAt(k)) => if k < |members| then Some(members[k].1) else None
    case _ => None
  }

  function TreeAt(t: Tree, path: seq<Step>): Option<Tree>
    decreases |path|
  {
    if path == [] then Some(t)
    else if TreeBelow(t, path[0]).None? then None
    else TreeAt(TreeBelow(t, path[0]).value, path[1..])
  }

  lemma {:induction false} RewriteNthItem(c: Coder, items: Items, k: nat)
    requires ValidItems(items)
    ensures NthItem(items, k).Some? ==> Valid(NthItem(items, k).value)
    ensures NthItem(RewriteItems(c, items), k) ==
      if NthItem(items, k).Some? then Some(Rewrite(c, NthItem(items, k).value)) else None
    decreases items
  {
    match items
    case NoItems(_) =>
    case Item(_, _, _, rest) => if k > 0 { RewriteNthItem(c, rest, k - 1); }
  }

  /** Each member keeps its key, spelling included. */
  lemma {:induction false} RewriteNthMember(c: Coder, members: Members, k: nat)
    requires ValidMembers(members)
    ensures NthMember(members, k).Some? ==> Valid(NthMember(members, k).value.1)
    ensures NthMember(RewriteMembers(c, members), k) ==
      if NthMember(members, k).Some? then Some((NthMember(members, k).value.0, Rewrite(c, NthMember(members, k).value.1))) else None
    decreases members
  {
    match members
    case NoMembers(_) =>
    case Member(_, _, _, _, _, _, rest) => if k > 0 { RewriteNthMember(c, rest, k - 1); }
  }

  lemma {:induction false} RewriteBelow(c: Coder, j: Json, step: Step)
    requires Valid(j) && Below(j, step).Some?
    ensures Valid(Below(j, step).value) && Below(Rewrite(c, j), step) == Some(Rewrite(c, Below(j, step).value))
  {
    match j
    case Arr(items) => RewriteNthItem(c, items, step.k);
    case Obj(members) => RewriteNthMember(c, members, step.k);
  }

  /** Every value is rewritten where it stands. */
  lemma {:induction false} RewriteAt(c: Coder, j: Json, path: seq<Step>)
    requires Valid(j) && At(j, path).Some?
    ensures Valid(At(j, path).value) && At(Rewrite(c, j), path) == Some(Rewrite(c, At(j, path).value))
    decreases |path|
  {
    if path != [] {
      RewriteBelow(c, j, path[0]);
      RewriteAt(c, Below(j, path[0]).value, path[1..]);
    }
  }

  lemma {:induction false} NthTree(items: Items, k: nat)
    requires ValidItems(items) && NthItem(items, k).Some?
    ensures Valid(NthItem(items, k).value) && k < |TreesOf(items)| && TreesOf(items)[k] == TreeOf(NthItem(items, k).value)
    decreases items
  {
    match items
    case Item(_, _, _, rest) => if k > 0 { NthTree(rest, k - 1); }
  }

  lemma {:induction false} NthField(members: Members, k: nat)
    requires ValidMembers(members) && NthMember(members, k).Some?
    ensures ValidBody(NthMember(members, k).value.0) && Valid(NthMember(members, k).value.1) && k < |FieldsOf(members)|
    ensures FieldsOf(members)[k] == (Decode(NthMember(members, k).value.0), TreeOf(NthMember(members, k).value.1))
    decreases members
  {
    match members
    case Member(_, _, _, _, _, _, rest) => if k > 0 { NthField(rest, k - 1); }
  }

  lemma {:induction false} TreeAtIs(j: Json, path: seq<Step>)
    requires Valid(j) && At(j, path).Some?
    ensures Valid(At(j, path).value) && TreeAt(TreeOf(j), path) == Some(TreeOf(At(j, path).value))
    decreases |path|
  {
    if path != [] {
      match j {
        case Arr(items) => NthTree(items, path[0].k);
        case Obj(members) => NthField(members, path[0].k);
      }
      TreeAtIs(Below(j, path[0]).value, path[1..]);
    }
  }

  // ---- What stands there afterwards

  /** A string value gives way to what it resolves to; every other leaf stays. */
  lemma {:induction false} LeafRewritten(c: Coder, leaf: Json)
    requires Lawful(c) && Valid(leaf)
    ensures leaf.Bare? ==> Rewrite(c, leaf) == leaf
    ensures leaf.Str? ==> match c.resolve(Decode(leaf.body))
      case Data(json) => Rewrite(c, leaf) == json && Valid(json) && TreeOf(Rewrite(c, leaf)) == TreeOf(json)
      case Text(s) =>
        && Valid(Rewrite(c, leaf)) && TreeOf(Rewrite(c, leaf)) == TText(s)
        && (s == Decode(leaf.body) ==> Rewrite(c, leaf) == leaf)
  {
  }

  /** In the document Resolve writes, each string value has become what it resolves to, at its own place. */
  lemma {:induction false} ResolvedAt(c: Coder, pre: string, j: Json, post: string, path: seq<Step>)
    requires Lawful(c) && Blank(pre) && Valid(j) && Blank(post) && !HasUnit(Document(pre, j, post))
    requires At(j, path).Some? && At(j, path).value.Str?
    ensures ValidBody(At(j, path).value.body)
    ensures TemplateRewrite.Resolved(c, Document(pre, j, post)) == Some(Document(pre, Rewrite(c, j), post)) && Valid(Rewrite(c, j))
    ensures match c.resolve(Decode(At(j, path).value.body))
      case Data(json) => At(Rewrite(c, j), path) == Some(json) && Valid(json) && TreeAt(TreeOf(Rewrite(c, j)), path) == Some(TreeOf(json))
      case Text(s) => TreeAt(TreeOf(Rewrite(c, j)), path) == Some(TText(s))
  {
    ResolveRefines(c, pre, j, post);
    RewriteAt(c, j, path);
    LeafRewritten(c, At(j, path).value);
    TreeAtIs(Rewrite(c, j), path);
  }

  /** A string value that is one triple-brace token keeps the type of what it names: a list or object stands there itself. */
  lemma {:induction false} RawTokenInDocument(lookup: string -> Option<Resolved>, show: Resolved -> string, escape: string -> string,
                                              pre: string, j: Json, post: string, path: seq<Step>, ref: string, value: Resolved)
    requires LawfulLookup(lookup, escape) && Blank(pre) && Valid(j) && Blank(post) && !HasUnit(Document(pre, j, post))
    requires At(j, path).Some? && At(j, path).value.Str? && ValidBody(At(j, path).value.body)
    requires Decode(At(j, path).value.body) == "{{{" + ref + "}}}"
    requires ref != "" && (forall i :: 0 <= i < |ref| ==> !IsBrace(ref[i])) && lookup(GoText.TrimSpace(ref)) == Some(value)
    ensures var c := TemplateCoder(lookup, show, escape);
      && TemplateRewrite.Resolved(c, Document(pre, j, post)) == Some(Document(pre, Rewrite(c, j), post)) && Valid(Rewrite(c, j))
      && match value
         case Data(json) => At(Rewrite(c, j), path) == Some(json) && Valid(json) && TreeAt(TreeOf(Rewrite(c, j)), path) == Some(TreeOf(json))
         case Text(s) => TreeAt(TreeOf(Rewrite(c, j)), path) == Some(TText(s))
  {
    var c := TemplateCoder(lookup, show, escape);
    TemplatesAreLawful(lookup, show, escape);
    RawTokenIsValue(ref, lookup, show);
    assert c.resolve("{{{" + ref + "}}}") == value;
    ResolvedAt(c, pre, j, post, path);
  }
}
