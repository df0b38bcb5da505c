/** Resolve rewrites a JSON text in one scan over its characters, without parsing it. */
module TemplateRewrite {
  import opened References
  import GoText
  import opened Templates
  import opened JsonText

  /** Characters from the start of t up to and including the quote that closes the literal around them. */
  function BodyEnd(t: string): (n: nat)
    ensures n <= |t|
    decreases |t|
  {
    if t == "" then 0
    else if t[0] == '\\' then (if |t| >= 2 then 2 + BodyEnd(t[2..]) else 1)
    else if t[0] == '"' then 1
    else 1 + BodyEnd(t[1..])
  }

  /** The next non-blank character is a colon. */
  predicate ColonNext(t: string) {
    t != "" && (if IsBlank(t[0]) then ColonNext(t[1..]) else t[0] == ':')
  }

  /** What Resolve writes for one string literal; None is its parse error. */
  function Literal(c: Coder, span: string, key: bool): Option<string> {
    if key || (!HasToken(span) && !HasUnit(span)) then Some(span)
    else if !(|span| >= 2 && span[|span| - 1] == '"' && ValidBody(span[1..|span| - 1])) then None
    else
      var s := Decode(span[1..|span| - 1]);
      if c.resolve(s) == Text(s) then Some(span) else Some(Print(Marshal(c, c.resolve(s))))
  }

  function Prepend(p: Option<string>, rest: Option<string>): Option<string> {
    if p.Some? && rest.Some? then Some(p.value + rest.value) else None
  }

  /** The scan as a function of the text still to read. */
  function Scan(c: Coder, t: string): Option<string>
    decreases |t|
  {
    if t == "" then Some("")
    else if t[0] != '"' then Prepend(Some([t[0]]), Scan(c, t[1..]))
    else
      var end := 1 + BodyEnd(t[1..]);
      Prepend(Literal(c, t[..end], ColonNext(t[end..])), Scan(c, t[end..]))
  }

  method StringEnd(raw: string, start: nat) returns (end: nat)
    requires start < |raw| && raw[start] == '"'
    ensures end == start + 1 + BodyEnd(raw[start + 1..]) <= |raw|
  {
    var i := start + 1;
    while i < |raw|
      invariant start < i <= |raw| + 1
      invariant i <= |raw| ==> start + 1 + BodyEnd(raw[start + 1..]) == i + BodyEnd(raw[i..])
      invariant i == |raw| + 1 ==> start + 1 + BodyEnd(raw[start + 1..]) == |raw|
    {
      assert raw[i..][1..] == raw[i + 1..];
      if raw[i] == '\\' {
        if i + 1 < |raw| { assert raw[i..][2..] == raw[i + 2..]; }
        i := i + 1;
      } else if raw[i] == '"' {
        return i + 1;
      }
      i := i + 1;
    }
    return |raw|;
  }

  method IsKey(raw: string, end: nat) returns (key: bool)
    requires end <= |raw|
    ensures key <==> ColonNext(raw[end..])
  {
    var i := end;
    while i < |raw|
      invariant end <= i <= |raw|
      invariant ColonNext(raw[end..]) <==> ColonNext(raw[i..])
    {
      if !IsBlank(raw[i]) { return raw[i] == ':'; }
      assert raw[i..][1..] == raw[i + 1..];
      i := i + 1;
    }
    return false;
  }

  /** Resolve: a text without a token is returned as it is; any other is rewritten literal by literal. */
  method Resolve(c: Coder, raw: string) returns (r: Option<string>)
    ensures r == if HasToken(raw) then Scan(c, raw) else Some(raw)
  {
    if !HasToken(raw) { return Some(raw); }
    var out := "";
    var i := 0;
    assert raw[0..] == raw;
    PrependEmpty(Scan(c, raw));
    while i < |raw|
      invariant 0 <= i <= |raw|
      invariant Scan(c, raw) == Prepend(Some(out), Scan(c, raw[i..]))
    {
      if raw[i] != '"' {
        assert raw[i..][1..] == raw[i + 1..];
        PrependAssoc(out, [raw[i]], Scan(c, raw[i + 1..]));
        out := out + [raw[i]];
        i := i + 1;
        continue;
      }
      var end := StringEnd(raw, i);
      assert raw[i..][1..] == raw[i + 1..];
      var span := raw[i..end];
      assert raw[i..][..end - i] == span && raw[i..][end - i..] == raw[end..];
      var key := IsKey(raw, end);
      var written := Literal(c, span, key);
      if written.None? { return None; }
      PrependAssoc(out, written.value, Scan(c, raw[end..]));
      out := out + written.value;
      i := end;
    }
    assert raw[i..] == "" && out + "" == out;
    return Some(out);
  }

  lemma {:induction false} PrependEmpty(o: Option<string>)
    ensures Prepend(Some(""), o) == o
  {
    if o.Some? { assert "" + o.value == o.value; }
  }

  lemma {:induction false} PrependAssoc(a: string, b: string, o: Option<string>)
    ensures Prepend(Some(a), Prepend(Some(b), o)) == Prepend(Some(a + b), o)
  {
    if o.Some? { assert a + (b + o.value) == (a + b) + o.value; }
  }

  // ---- The scan refines parse, walk and marshal

  lemma {:induction false} ClosingQuote(body: string, rest: string)
    requires ValidBody(body)
    ensures BodyEnd(body + "\"" + rest) == |body| + 1
    decreases |body|
  {
    var t := body + "\"" + rest;
    if body == "" {
    } else if body[0] == '\\' {
      var k := if IsUnit(body) then 6 else 2;
      assert t[2..] == body[2..] + "\"" + rest;
      if IsUnit(body) {
        assert body[2..][4..] == body[6..];
        ClosingQuote(body[6..], rest);
        PlainHex(body, rest);
      } else {
        ClosingQuote(body[2..], rest);
      }
    } else {
      assert t[1..] == body[1..] + "\"" + rest;
      ClosingQuote(body[1..], rest);
    }
  }

  /** The scan steps over the four hex digits of a \u escape one by one. */
  lemma {:induction false} PlainHex(body: string, rest: string)
    requires IsUnit(body)
    ensures BodyEnd(body[2..] + "\"" + rest) == 4 + BodyEnd(body[6..] + "\"" + rest)
  {
    var t := body[2..] + "\"" + rest;
    assert t[1..] == body[3..] + "\"" + rest;
    assert t[1..][1..] == body[4..] + "\"" + rest;
    assert t[1..][1..][1..] == body[5..] + "\"" + rest;
    assert t[1..][1..][1..][1..] == body[6..] + "\"" + rest;
    assert BodyEnd(t) == 1 + BodyEnd(t[1..]);
    assert BodyEnd(t[1..]) == 1 + BodyEnd(t[1..][1..]);
    assert BodyEnd(t[1..][1..]) == 1 + BodyEnd(t[1..][1..][1..]);
  }

  lemma {:induction false} ScanPlain(c: Coder, p: string, rest: string)
    requires forall i :: 0 <= i < |p| ==> p[i] != '"'
    ensures Scan(c, p + rest) == Prepend(Some(p), Scan(c, rest))
  {
    if p == "" {
      assert p + rest == rest;
      PrependEmpty(Scan(c, rest));
    } else {
      assert (p + rest)[1..] == p[1..] + rest;
      ScanPlain(c, p[1..], rest);
      PrependAssoc([p[0]], p[1..], Scan(c, rest));
      assert [p[0]] + p[1..] == p;
    }
  }

  lemma {:induction false} ScanQuoted(c: Coder, body: string, rest: string)
    requires ValidBody(body)
    ensures Scan(c, Quoted(body) + rest) == Prepend(Literal(c, Quoted(body), ColonNext(rest)), Scan(c, rest))
  {
    var t := Quoted(body) + rest;
    assert t[1..] == body + "\"" + rest;
    ClosingQuote(body, rest);
    assert t[..|body| + 2] == Quoted(body) && t[|body| + 2..] == rest;
  }

  lemma {:induction false} PartHasToken(a: string, b: string, d: string)
    ensures HasToken(b) ==> HasToken(a + b + d)
    ensures HasUnit(b) ==> HasUnit(a + b + d)
  {
    var t := a + b + d;
    if HasToken(b) {
      var i :| 0 <= i < |b| - 1 && b[i] == '{' && b[i + 1] == '{';
      assert t[|a| + i] == '{' && t[|a| + i + 1] == '{';
    }
    if HasUnit(b) {
      var i :| 0 <= i < |b| - 1 && b[i] == '\\' && b[i + 1] == 'u';
      assert t[|a| + i] == '\\' && t[|a| + i + 1] == 'u';
    }
  }

  /** What is written for a string value is its rewrite, whether or not the literal was looked into. */
  lemma {:induction false} LiteralIsRewrite(c: Coder, body: string)
    requires Lawful(c) && ValidBody(body)
    ensures Literal(c, Quoted(body), false) == Some(Print(Rewrite(c, Str(body))))
  {
    assert Quoted(body)[1..|Quoted(body)| - 1] == body;
    if !HasToken(Quoted(body)) && !HasUnit(Quoted(body)) {
      PartHasToken("\"", body, "\"");
      TokensAreLiteral(body);
    }
  }

  /** A text that ends what stands before it: it starts with a character that is neither blank nor a colon. */
  predicate Closes(t: string) { t != "" && !IsBlank(t[0]) && t[0] != ':' }

  lemma {:induction false} NoColonAfter(ws: string, t: string)
    requires Blank(ws) && (t == "" || Closes(t))
    ensures !ColonNext(ws + t)
  {
    if ws == "" {
      assert ws + t == t;
    } else {
      assert (ws + t)[1..] == ws[1..] + t;
      NoColonAfter(ws[1..], t);
    }
  }

  lemma {:induction false} ColonAfter(ws: string, t: string)
    requires Blank(ws)
    ensures ColonNext(ws + (":" + t))
  {
    if ws == "" {
      assert ws + (":" + t) == ":" + t;
    } else {
      assert (ws + (":" + t))[1..] == ws[1..] + (":" + t);
      ColonAfter(ws[1..], t);
    }
  }

  lemma {:induction false} ScanJson(c: Coder, j: Json, rest: string)
    requires Lawful(c) && Valid(j) && (j.Str? ==> !ColonNext(rest))
    ensures Scan(c, Print(j) + rest) == Prepend(Some(Print(Rewrite(c, j))), Scan(c, rest))
    decreases j, 0
  {
    match j
    case Bare(text) => ScanPlain(c, text, rest);
    case Str(body) =>
      ScanQuoted(c, body, rest);
      LiteralIsRewrite(c, body);
    case Arr(items) => ScanBracketed(c, "[", PrintItems(items), PrintItems(RewriteItems(c, items)), "]", rest) by {
        ScanItems(c, items, "]" + rest);
      }
    case Obj(members) => ScanBracketed(c, "{", PrintMembers(members), PrintMembers(RewriteMembers(c, members)), "}", rest) by {
        ScanMembers(c, members, "}" + rest);
      }
  }

  lemma {:induction false} ScanBracketed(c: Coder, open: string, inner: string, written: string, close: string, rest: string)
    requires |open| == |close| == 1 && open[0] != '"' && close[0] != '"'
    requires Scan(c, inner + (close + rest)) == Prepend(Some(written), Scan(c, close + rest))
    ensures Scan(c, (open + inner + close) + rest) == Prepend(Some(open + written + close), Scan(c, rest))
  {
    assert (open + inner + close) + rest == open + (inner + (close + rest));
    ScanPlain(c, open, inner + (close + rest));
    ScanPlain(c, close, rest);
    PrependAssoc(written, close, Scan(c, rest));
    PrependAssoc(open, written + close, Scan(c, rest));
    assert open + (written + close) == open + written + close;
  }

  /** One more piece in front. */
  lemma {:induction false} ScanThen(c: Coder, p: string, p': string, t: string, t': string, rest: string)
    requires Scan(c, p + (t + rest)) == Prepend(Some(p'), Scan(c, t + rest))
    requires Scan(c, t + rest) == Prepend(Some(t'), Scan(c, rest))
    ensures Scan(c, (p + t) + rest) == Prepend(Some(p' + t'), Scan(c, rest))
  {
    assert (p + t) + rest == p + (t + rest);
    PrependAssoc(p', t', Scan(c, rest));
  }

  /** What follows a value: nothing, or a comma and the rest. */
  lemma {:induction false} ScanMore(c: Coder, some: bool, p: string, p': string, t: string)
    requires Closes(t) && (some ==> Scan(c, p + t) == Prepend(Some(p'), Scan(c, t)))
    ensures var more, more' := if some then "," + p else "", if some then "," + p' else "";
      Scan(c, more + t) == Prepend(Some(more'), Scan(c, t)) && Closes(more + t)
  {
    if some {
      ScanPlain(c, ",", p + t);
      ScanThen(c, ",", ",", p, p', t);
    } else {
      assert "" + t == t;
      PrependEmpty(Scan(c, t));
    }
  }

  lemma {:induction false} ScanItems(c: Coder, items: Items, t: string)
    requires Lawful(c) && ValidItems(items) && Closes(t)
    ensures Scan(c, PrintItems(items) + t) == Prepend(Some(PrintItems(RewriteItems(c, items))), Scan(c, t))
    decreases items, 0
  {
    match items
    case NoItems(ws) => ScanPlain(c, ws, t);
    case Item(pre, value, post, rest) =>
      var more := if rest.NoItems? then "" else "," + PrintItems(rest);
      var more' := if rest.NoItems? then "" else "," + PrintItems(RewriteItems(c, rest));
      if !rest.NoItems? { ScanItems(c, rest, t); }
      ScanMore(c, !rest.NoItems?, PrintItems(rest), PrintItems(RewriteItems(c, rest)), t);
      ScanValue(c, pre, value, post, more, more', t);
  }

  /** Whitespace, a value, whitespace, and what follows it. */
  lemma {:induction false} ScanValue(c: Coder, pre: string, value: Json, post: string, more: string, more': string, t: string)
    requires Lawful(c) && Blank(pre) && Valid(value) && Blank(post) && Closes(more + t)
    requires Scan(c, more + t) == Prepend(Some(more'), Scan(c, t))
    ensures Scan(c, (pre + Print(value) + post + more) + t) ==
      Prepend(Some(pre + Print(Rewrite(c, value)) + post + more'), Scan(c, t))
    decreases value, 1
  {
    ScanPlain(c, post, more + t);
    ScanThen(c, post, post, more, more', t);
    NoColonAfter(post, more + t);
    assert post + (more + t) == (post + more) + t;
    ScanJson(c, value, (post + more) + t);
    ScanThen(c, Print(value), Print(Rewrite(c, value)), post + more, post + more', t);
    ScanPlain(c, pre, (Print(value) + (post + more)) + t);
    ScanThen(c, pre, pre, Print(value) + (post + more), Print(Rewrite(c, value)) + (post + more'), t);
    assert pre + (Print(value) + (post + more)) == pre + Print(value) + post + more;
    assert pre + (Print(Rewrite(c, value)) + (post + more')) == pre + Print(Rewrite(c, value)) + post + more';
  }

  lemma {:induction false} ScanMembers(c: Coder, members: Members, t: string)
    requires Lawful(c) && ValidMembers(members) && Closes(t)
    ensures Scan(c, PrintMembers(members) + t) == Prepend(Some(PrintMembers(RewriteMembers(c, members))), Scan(c, t))
    decreases members, 0
  {
    match members
    case NoMembers(ws) => ScanPlain(c, ws, t);
    case Member(pre, key, mid, gap, value, post, rest) =>
      var more := if rest.NoMembers? then "" else "," + PrintMembers(rest);
      var more' := if rest.NoMembers? then "" else "," + PrintMembers(RewriteMembers(c, rest));
      if !rest.NoMembers? { ScanMembers(c, rest, t); }
      ScanMore(c, !rest.NoMembers?, PrintMembers(rest), PrintMembers(RewriteMembers(c, rest)), t);
      ScanValue(c, gap, value, post, more, more', t);
      var body, body' := gap + Print(value) + post + more, gap + Print(Rewrite(c, value)) + post + more';
      ScanKey(c, pre, key, mid, body, body', t);
      MemberLayout(pre, Quoted(key), mid, gap, Print(value), post, more);
      MemberLayout(pre, Quoted(key), mid, gap, Print(Rewrite(c, value)), post, more');
  }

  lemma {:induction false} MemberLayout(pre: string, key: string, mid: string, gap: string, value: string, post: string, more: string)
    ensures pre + key + mid + ":" + gap + value + post + more ==
      pre + (key + (mid + (":" + (gap + value + post + more))))
  {
  }

  /** A key is copied as it is spelled, template or not. */
  lemma {:induction false} ScanKey(c: Coder, pre: string, key: string, mid: string, body: string, body': string, t: string)
    requires Blank(pre) && ValidBody(key) && Blank(mid)
    requires Scan(c, body + t) == Prepend(Some(body'), Scan(c, t))
    ensures Scan(c, (pre + (Quoted(key) + (mid + (":" + body)))) + t) ==
      Prepend(Some(pre + (Quoted(key) + (mid + (":" + body')))), Scan(c, t))
  {
    ScanPlain(c, ":", body + t);
    ScanThen(c, ":", ":", body, body', t);
    ScanPlain(c, mid, (":" + body) + t);
    ScanThen(c, mid, mid, ":" + body, ":" + body', t);
    ColonAfter(mid, body + t);
    assert (mid + (":" + body)) + t == mid + (":" + (body + t));
    ScanQuoted(c, key, (mid + (":" + body)) + t);
    ScanThen(c, Quoted(key), Quoted(key), mid + (":" + body), mid + (":" + body'), t);
    ScanPlain(c, pre, (Quoted(key) + (mid + (":" + body))) + t);
    ScanThen(c, pre, pre, Quoted(key) + (mid + (":" + body)), Quoted(key) + (mid + (":" + body')), t);
  }

  // ---- The whole text

  function Document(pre: string, j: Json, post: string): string { pre + Print(j) + post }

  /** What Resolve returns, by its contract. */
  function Resolved(c: Coder, raw: string): Option<string> {
    if HasToken(raw) then Scan(c, raw) else Some(raw)
  }

  /**
   * Whatever the layout, the scan of a JSON text writes the text with its string values rewritten and every
   * other character, keys included, in place.
   */
  lemma {:induction false} ScanIsRewrite(c: Coder, pre: string, j: Json, post: string)
    requires Lawful(c) && Blank(pre) && Valid(j) && Blank(post)
    ensures Scan(c, Document(pre, j, post)) == Some(Document(pre, Rewrite(c, j), post))
  {
    assert post + "" == post;
    DocumentRegroups(pre, j, post);
    DocumentRegroups(pre, Rewrite(c, j), post);
    NoColonAfter(post, "");
    ScanPlain(c, post, "");
    ScanJson(c, j, post);
    ScanPlain(c, pre, Print(j) + post);
  }

  /** No string value of the text resolves to anything but itself. */
  predicate AllFixed(c: Coder, j: Json)
    requires Valid(j)
  {
    match j
    case Bare(_) => true
    case Str(body) => c.resolve(Decode(body)) == Text(Decode(body))
    case Arr(items) => ItemsFixed(c, items)
    case Obj(members) => MembersFixed(c, members)
  }

  predicate ItemsFixed(c: Coder, items: Items)
    requires ValidItems(items)
  {
    items.Item? ==> AllFixed(c, items.value) && ItemsFixed(c, items.rest)
  }

  predicate MembersFixed(c: Coder, members: Members)
    requires ValidMembers(members)
  {
    members.Member? ==> AllFixed(c, members.value) && MembersFixed(c, members.rest)
  }

  lemma {:induction false} FixedStays(c: Coder, j: Json)
    requires Valid(j) && AllFixed(c, j)
    ensures Rewrite(c, j) == j
  {
    match j
    case Bare(_) =>
    case Str(_) =>
    case Arr(items) => FixedItemsStay(c, items);
    case Obj(members) => FixedMembersStay(c, members);
  }

  lemma {:induction false} FixedItemsStay(c: Coder, items: Items)
    requires ValidItems(items) && ItemsFixed(c, items)
    ensures RewriteItems(c, items) == items
  {
    if items.Item? {
      FixedStays(c, items.value);
      FixedItemsStay(c, items.rest);
    }
  }

  lemma {:induction false} FixedMembersStay(c: Coder, members: Members)
    requires ValidMembers(members) && MembersFixed(c, members)
    ensures RewriteMembers(c, members) == members
  {
    if members.Member? {
      FixedStays(c, members.value);
      FixedMembersStay(c, members.rest);
    }
  }

  /** Two texts that start alike leave alike rests. */
  lemma {:induction false} Strip(p: string, a: string, b: string)
    requires p + a == p + b
    ensures a == b
  {
    assert (p + a)[|p|..] == a && (p + b)[|p|..] == b;
  }

  lemma {:induction false} SameQuoted(body: string, body': string, r: string, r': string)
    requires ValidBody(body) && ValidBody(body') && Quoted(body) + r == Quoted(body') + r'
    ensures body == body' && r == r'
  {
    var t := Quoted(body) + r;
    assert t[1..] == body + "\"" + r && t[1..] == body' + "\"" + r';
    ClosingQuote(body, r);
    ClosingQuote(body', r');
    assert body == t[1..][..|body|] == t[1..][..|body'|] == body';
    assert t[|body| + 2..] == r && t[|body| + 2..] == r';
  }

  /** A structure never prints like a string. */
  lemma {:induction false} NoQuoteFirst(j: Json, body: string, r: string, r': string)
    requires Valid(j) && !j.Str?
    ensures Quoted(body) + r != Print(j) + r'
  {
    assert Print(j) != "" && Print(j)[0] != '"';
    assert (Quoted(body) + r)[0] == '"' && (Print(j) + r')[0] == Print(j)[0];
  }

  lemma {:induction false} ValueLayout(head: string, value: string, post: string, more: string, r: string)
    ensures (head + value + post + more) + r == head + (value + (post + (more + r)))
  {
  }

  lemma {:induction false} CommaLayout(p: string, r: string)
    ensures ("," + p) + r == "," + (p + r) && "" + r == r
  {
  }

  /** A rewrite that prints like the original changed nothing: prints of changed strings differ. */
  lemma {:induction false} SamePrintIsFixed(c: Coder, j: Json, r: string, r': string)
    requires Lawful(c) && Valid(j) && Print(j) + r == Print(Rewrite(c, j)) + r'
    ensures AllFixed(c, j) && r == r'
    decreases j, 0
  {
    match j
    case Bare(text) => Strip(text, r, r');
    case Str(body) => SameStringIsFixed(c, body, r, r');
    case Arr(items) =>
      var inside, inside' := PrintItems(items), PrintItems(RewriteItems(c, items));
      StripOpening("[", inside, "]", r, inside', r');
      SameItemsFixed(c, items, "]" + r, "]" + r');
      Strip("]", r, r');
    case Obj(members) =>
      var inside, inside' := PrintMembers(members), PrintMembers(RewriteMembers(c, members));
      StripOpening("{", inside, "}", r, inside', r');
      SameMembersFixed(c, members, "}" + r, "}" + r');
      Strip("}", r, r');
  }

  lemma {:induction false} SameStringIsFixed(c: Coder, body: string, r: string, r': string)
    requires Lawful(c) && ValidBody(body) && Quoted(body) + r == Print(Rewrite(c, Str(body))) + r'
    ensures c.resolve(Decode(body)) == Text(Decode(body)) && r == r'
  {
    if c.resolve(Decode(body)) == Text(Decode(body)) {
      Strip(Quoted(body), r, r');
    } else {
      var v := c.resolve(Decode(body));
      match v
      case Text(s) => SameQuoted(body, c.escape(s), r, r');
      case Data(json) => NoQuoteFirst(json, body, r, r');
    }
  }

  lemma {:induction false} StripOpening(open: string, a: string, close: string, r: string, a': string, r': string)
    requires open + a + close + r == open + a' + close + r'
    ensures a + (close + r) == a' + (close + r')
  {
    assert open + a + close + r == open + (a + (close + r));
    assert open + a' + close + r' == open + (a' + (close + r'));
    Strip(open, a + (close + r), a' + (close + r'));
  }

  /** Strips what a value and its rewrite have in common: the text before, then the value, then the whitespace. */
  lemma {:induction false} SameValueFixed(c: Coder, head: string, value: Json, post: string,
                                          more: string, r: string, more': string, r': string)
    requires Lawful(c) && Valid(value)
    requires (head + Print(value) + post + more) + r == (head + Print(Rewrite(c, value)) + post + more') + r'
    ensures AllFixed(c, value) && more + r == more' + r'
    decreases value, 1
  {
    ValueLayout(head, Print(value), post, more, r);
    ValueLayout(head, Print(Rewrite(c, value)), post, more', r');
    Strip(head, Print(value) + (post + (more + r)), Print(Rewrite(c, value)) + (post + (more' + r')));
    SamePrintIsFixed(c, value, post + (more + r), post + (more' + r'));
    Strip(post, more + r, more' + r');
  }

  lemma {:induction false} SameItemsFixed(c: Coder, items: Items, r: string, r': string)
    requires Lawful(c) && ValidItems(items) && PrintItems(items) + r == PrintItems(RewriteItems(c, items)) + r'
    ensures ItemsFixed(c, items) && r == r'
    decreases items, 0
  {
    match items
    case NoItems(ws) => Strip(ws, r, r');
    case Item(pre, value, post, rest) =>
      var p, p' := PrintItems(rest), PrintItems(RewriteItems(c, rest));
      var more, more' := if rest.NoItems? then "" else "," + p, if rest.NoItems? then "" else "," + p';
      SameValueFixed(c, pre, value, post, more, r, more', r');
      CommaLayout(p, r);
      CommaLayout(p', r');
      if !rest.NoItems? {
        Strip(",", p + r, p' + r');
        SameItemsFixed(c, rest, r, r');
      }
  }

  lemma {:induction false} SameMembersFixed(c: Coder, members: Members, r: string, r': string)
    requires Lawful(c) && ValidMembers(members)
    requires PrintMembers(members) + r == PrintMembers(RewriteMembers(c, members)) + r'
    ensures MembersFixed(c, members) && r == r'
    decreases members, 0
  {
    match members
    case NoMembers(ws) => Strip(ws, r, r');
    case Member(pre, key, mid, gap, value, post, rest) =>
      var p, p' := PrintMembers(rest), PrintMembers(RewriteMembers(c, rest));
      var more, more' := if rest.NoMembers? then "" else "," + p, if rest.NoMembers? then "" else "," + p';
      SameValueFixed(c, pre + Quoted(key) + mid + ":" + gap, value, post, more, r, more', r');
      CommaLayout(p, r);
      CommaLayout(p', r');
      if !rest.NoMembers? {
        Strip(",", p + r, p' + r');
        SameMembersFixed(c, rest, r, r');
      }
  }

  /**
   * Resolve agrees with parse, walk and marshal exactly when the text shows a token, or no string value would
   * change: the first test looks for braces in the raw text, and a \u escape can spell them otherwise.
   */
  lemma {:induction false} ResolveIsRewriteExactly(c: Coder, pre: string, j: Json, post: string)
    requires Lawful(c) && Blank(pre) && Valid(j) && Blank(post)
    ensures Resolved(c, Document(pre, j, post)) == Some(Document(pre, Rewrite(c, j), post)) <==>
      HasToken(Document(pre, j, post)) || AllFixed(c, j)
  {
    var text := Document(pre, j, post);
    ScanIsRewrite(c, pre, j, post);
    if !HasToken(text) {
      if AllFixed(c, j) {
        FixedStays(c, j);
      } else if text == Document(pre, Rewrite(c, j), post) {
        SameDocumentIsFixed(c, pre, j, post);
      }
    }
  }

  lemma {:induction false} SameDocumentIsFixed(c: Coder, pre: string, j: Json, post: string)
    requires Lawful(c) && Valid(j) && Document(pre, j, post) == Document(pre, Rewrite(c, j), post)
    ensures AllFixed(c, j)
  {
    DocumentRegroups(pre, j, post);
    DocumentRegroups(pre, Rewrite(c, j), post);
    Strip(pre, Print(j) + post, Print(Rewrite(c, j)) + post);
    SamePrintIsFixed(c, j, post, post);
  }

  lemma {:induction false} DocumentRegroups(pre: string, j: Json, post: string)
    ensures Document(pre, j, post) == pre + (Print(j) + post)
  {
  }

  lemma {:induction false} DecodeUnit(hex: string, rest: string)
    requires IsUnit("\\u" + hex) && |hex| == 4 && UnitValue("\\u" + hex) < 0xD800 && ValidBody(rest)
    ensures ValidBody("\\u" + hex + rest)
    ensures Decode("\\u" + hex + rest) == [UnitValue("\\u" + hex) as char] + Decode(rest)
  {
    var b := "\\u" + hex + rest;
    assert b[6..] == rest && UnitValue(b) == UnitValue("\\u" + hex);
  }

  lemma {:induction false} DecodePlain(b: string)
    requires forall i :: 0 <= i < |b| ==> b[i] != '\\' && b[i] != '"'
    ensures ValidBody(b) && Decode(b) == b
  {
    if b != "" {
      DecodePlain(b[1..]);
      assert b == [b[0]] + b[1..];
    }
  }

  /** A string that would change but shows no token in its spelling is returned unresolved. */
  lemma {:induction false} HiddenTokenIsMissed(c: Coder, body: string)
    requires Lawful(c) && ValidBody(body) && !HasToken(Quoted(body))
    requires c.resolve(Decode(body)) != Text(Decode(body))
    ensures Resolved(c, Quoted(body)) == Some(Quoted(body)) && Quoted(body) != Print(Rewrite(c, Str(body)))
  {
    var j := Str(body);
    assert Print(j) == Document("", j, "") && Print(Rewrite(c, j)) == Document("", Rewrite(c, j), "");
    ResolveIsRewriteExactly(c, "", j, "");
  }

  /** Such a string: a token spelled with \u escapes. */
  lemma {:induction false} HiddenToken()
    ensures var body := "\\u007b" + ("\\u007b" + "x}}");
      ValidBody(body) && Decode(body) == "{{x}}" && !HasToken(Quoted(body))
  {
    DecodePlain("x}}");
    assert "\\u" + "007b" == "\\u007b" && UnitValue("\\u007b") == 0x7b;
    DecodeUnit("007b", "x}}");
    DecodeUnit("007b", "\\u007b" + "x}}");
    assert ['{'] + (['{'] + "x}}") == "{{x}}";
  }

  // ---- Texts without \u escapes

  predicate Clear(t: string) { !HasToken(t) && !HasUnit(t) }

  lemma {:induction false} ClearPart(a: string, b: string, d: string)
    requires Clear(a + b + d)
    ensures Clear(b)
  {
    PartHasToken(a, b, d);
  }

  lemma {:induction false} ClearIsFixed(c: Coder, j: Json)
    requires Lawful(c) && Valid(j) && Clear(Print(j))
    ensures AllFixed(c, j)
  {
    match j
    case Bare(_) =>
    case Str(body) =>
      ClearPart("\"", body, "\"");
      TokensAreLiteral(body);
    case Arr(items) =>
      ClearPart("[", PrintItems(items), "]");
      ClearItemsFixed(c, items);
    case Obj(members) =>
      ClearPart("{", PrintMembers(members), "}");
      ClearMembersFixed(c, members);
  }

  lemma {:induction false} ClearItemsFixed(c: Coder, items: Items)
    requires Lawful(c) && ValidItems(items) && Clear(PrintItems(items))
    ensures ItemsFixed(c, items)
  {
    if items.Item? {
      var more := if items.rest.NoItems? then "" else "," + PrintItems(items.rest);
      assert PrintItems(items) == items.pre + Print(items.value) + (items.post + more);
      ClearPart(items.pre, Print(items.value), items.post + more);
      ClearIsFixed(c, items.value);
      if items.rest.Item? {
        assert PrintItems(items) == (items.pre + Print(items.value) + items.post + ",") + PrintItems(items.rest) + "";
        ClearPart(items.pre + Print(items.value) + items.post + ",", PrintItems(items.rest), "");
        ClearItemsFixed(c, items.rest);
      }
    }
  }

  lemma {:induction false} ClearMembersFixed(c: Coder, members: Members)
    requires Lawful(c) && ValidMembers(members) && Clear(PrintMembers(members))
    ensures MembersFixed(c, members)
  {
    if members.Member? {
      var m := members;
      var more := if m.rest.NoMembers? then "" else "," + PrintMembers(m.rest);
      var head := m.pre + Quoted(m.key) + m.mid + ":" + m.gap;
      assert PrintMembers(m) == head + Print(m.value) + (m.post + more);
      ClearPart(head, Print(m.value), m.post + more);
      ClearIsFixed(c, m.value);
      if m.rest.Member? {
        assert PrintMembers(m) == (head + Print(m.value) + m.post + ",") + PrintMembers(m.rest) + "";
        ClearPart(head + Print(m.value) + m.post + ",", PrintMembers(m.rest), "");
        ClearMembersFixed(c, m.rest);
      }
    }
  }

  /**
   * On every valid JSON text without \u escapes, in any layout, Resolve returns a text of the original data with
   * each string value resolved, and keys, numbers, order and layout untouched.
   */
  lemma {:induction false} ResolveRefines(c: Coder, pre: string, j: Json, post: string)
    requires Lawful(c) && Blank(pre) && Valid(j) && Blank(post) && !HasUnit(Document(pre, j, post))
    ensures Resolved(c, Document(pre, j, post)) == Some(Document(pre, Rewrite(c, j), post))
    ensures Valid(Rewrite(c, j)) && TreeOf(Rewrite(c, j)) == MapTree(c, TreeOf(j))
  {
    ResolveIsRewriteExactly(c, pre, j, post);
    RewriteMapsTheTree(c, j);
    if !HasToken(Document(pre, j, post)) {
      ClearPart(pre, Print(j), post);
      ClearIsFixed(c, j);
    }
  }

  // ---- The resolver of template strings is lawful

  /** resolveString as the resolver of a document's string values. */
  function TemplateCoder(lookup: string -> Option<Resolved>, show: Resolved -> string, escape: string -> string): Coder {
    Coder(s => ResolveString(s, lookup, show), escape)
  }

  /** What a reference resolves to is text or a JSON value, and json.Marshal spells each text. */
  ghost predicate LawfulLookup(lookup: string -> Option<Resolved>, escape: string -> string) {
    && (forall ref :: lookup(ref).Some? && lookup(ref).value.Data? ==> Valid(lookup(ref).value.json) && !lookup(ref).value.json.Str?)
    && (forall s :: ValidBody(escape(s)) && Decode(escape(s)) == s)
  }

  lemma {:induction false} TemplatesAreLawful(lookup: string -> Option<Resolved>, show: Resolved -> string, escape: string -> string)
    requires LawfulLookup(lookup, escape)
    ensures Lawful(TemplateCoder(lookup, show, escape))
  {
    var c := TemplateCoder(lookup, show, escape);
    forall s ensures !HasToken(s) ==> c.resolve(s) == Text(s) { }
    forall s | c.resolve(s).Data? ensures Valid(c.resolve(s).json) && !c.resolve(s).json.Str? {
      assert c.resolve(s) == ResolveString(s, lookup, show);
    }
  }

  /** So resolving the templates of a document refines parse, resolveString over every string value, and marshal. */
  lemma {:induction false} TemplatesRefine(lookup: string -> Option<Resolved>, show: Resolved -> string, escape: string -> string,
                                           pre: string, j: Json, post: string)
    requires LawfulLookup(lookup, escape) && Blank(pre) && Valid(j) && Blank(post) && !HasUnit(Document(pre, j, post))
    ensures Lawful(TemplateCoder(lookup, show, escape))
    ensures var c := TemplateCoder(lookup, show, escape);
      && Resolved(c, Document(pre, j, post)) == Some(Document(pre, Rewrite(c, j), post))
      && Valid(Rewrite(c, j)) && TreeOf(Rewrite(c, j)) == MapTree(c, TreeOf(j))
  {
    TemplatesAreLawful(lookup, show, escape);
    ResolveRefines(TemplateCoder(lookup, show, escape), pre, j, post);
  }

  /** A document with one token in a string value shows what the token stands for where it stood. */
  lemma {:induction false} TokenInDocument(lookup: string -> Option<Resolved>, show: Resolved -> string, escape: string -> string,
                                           before: string, ref: string, after: string)
    requires ref != "" && lookup(GoText.TrimSpace(ref)).Some?
    requires (forall i :: 0 <= i < |ref| ==> !IsBrace(ref[i])) && (forall i :: 0 <= i < |before| ==> before[i] != '{')
    requires !IsRawToken(before + "{{" + ref + "}}" + after)
    ensures TemplateCoder(lookup, show, escape).resolve(before + "{{" + ref + "}}" + after) ==
      Text(before + show(lookup(GoText.TrimSpace(ref)).value) + ReplaceRefs(after, lookup, show))
  {
    var s := before + "{{" + ref + "}}" + after;
    assert s[|before|] == '{' && s[|before| + 1] == '{';
    TokenIsReplaced(before, ref, after, lookup, show);
  }
}
