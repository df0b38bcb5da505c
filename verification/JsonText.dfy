/** JSON texts with their whitespace, string literals, and what replacing string values means. */
module JsonText {
  import opened References
  import opened Templates

  predicate IsBlank(c: char) { c == ' ' || c == '\t' || c == '\n' || c == '\r' }

  predicate Blank(s: string) { forall i :: 0 <= i < |s| ==> IsBlank(s[i]) }

  // ---- String literals, section 7 of RFC 8259

  predicate IsHex(c: char) { '0' <= c <= '9' || 'a' <= c <= 'f' || 'A' <= c <= 'F' }

  function HexValue(c: char): (v: int)
    requires IsHex(c)
    ensures 0 <= v < 16
  {
    if '0' <= c <= '9' then c as int - '0' as int
    else if 'a' <= c <= 'f' then c as int - 'a' as int + 10
    else c as int - 'A' as int + 10
  }

  /** A \u escape at the start of s. */
  predicate IsUnit(s: string) {
    |s| >= 6 && s[0] == '\\' && s[1] == 'u' && IsHex(s[2]) && IsHex(s[3]) && IsHex(s[4]) && IsHex(s[5])
  }

  function UnitValue(s: string): (v: int)
    requires IsUnit(s)
    ensures 0 <= v < 0x10000
  {
    0x1000 * HexValue(s[2]) + 0x100 * HexValue(s[3]) + 0x10 * HexValue(s[4]) + HexValue(s[5])
  }

  predicate IsShortEscape(c: char) { c in {'"', '\\', '/', 'b', 'f', 'n', 'r', 't'} }

  function ShortEscape(c: char): char
    requires IsShortEscape(c)
  {
    match c
    case 'b' => '\U{8}'
    case 'f' => '\U{C}'
    case 'n' => '\n'
    case 'r' => '\r'
    case 't' => '\t'
    case _ => c
  }

  /** The characters between the quotes of a string literal. */
  predicate ValidBody(b: string)
    decreases |b|
  {
    if b == "" then true
    else if b[0] == '\\' then
      if IsUnit(b) then ValidBody(b[6..])
      else |b| >= 2 && IsShortEscape(b[1]) && ValidBody(b[2..])
    else b[0] != '"' && ValidBody(b[1..])
  }

  function CodeUnit(v: int): char
    requires 0 <= v < 0x10000
  {
    if 0xD800 <= v < 0xE000 then '\U{FFFD}' else v as char
  }

  /** json.Unmarshal of a string literal: surrogate pairs combine, stray ones become U+FFFD. */
  function Decode(b: string): string
    requires ValidBody(b)
    decreases |b|
  {
    if b == "" then ""
    else if b[0] == '\\' then
      if IsUnit(b) then
        var hi, rest := UnitValue(b), b[6..];
        assert ValidBody(rest);
        if 0xD800 <= hi < 0xDC00 && IsUnit(rest) && 0xDC00 <= UnitValue(rest) < 0xE000 then
          [(0x10000 + (hi - 0xD800) * 0x400 + (UnitValue(rest) - 0xDC00)) as char] + Decode(rest[6..])
        else [CodeUnit(hi)] + Decode(rest)
      else [ShortEscape(b[1])] + Decode(b[2..])
    else [b[0]] + Decode(b[1..])
  }

  /** Text without quotes and backslashes stands for itself. */
  lemma {:induction false} PlainStandsForItself(b: string)
    requires '"' !in b && '\\' !in b
    ensures ValidBody(b) && Decode(b) == b
  {
    if b != "" { PlainStandsForItself(b[1..]); }
  }

  /** The two-character escapes of section 7 of RFC 8259. */
  const ShortEscapes: map<string, char> := map[
    "\\\"" := '"', "\\\\" := '\\', "\\/" := '/', "\\b" := 8 as char, "\\f" := 12 as char,
    "\\n" := '\n', "\\r" := '\r', "\\t" := '\t' ]

  lemma {:induction false} EscapeStandsFor(escape: string, rest: string)
    requires escape in ShortEscapes && ValidBody(rest)
    ensures ValidBody(escape + rest) && Decode(escape + rest) == [ShortEscapes[escape]] + Decode(rest)
  {
    var b := escape + rest;
    assert b[0] == '\\' && !IsUnit(b) && b[2..] == rest;
  }

  /** Four hex digits name a character; two units of a surrogate pair name one character past the first plane. */
  lemma {:induction false} UnitsStandFor()
    ensures Decode("\\u007b\\u007B") == "{{" && Decode("\\u00e9") == "\U{E9}"
    ensures Decode("\\uD83D\\ude00") == "\U{1F600}" && Decode("\\uD83D") == "\U{FFFD}"
  {
    assert IsUnit("\\u007b\\u007B") && "\\u007b\\u007B"[6..] == "\\u007B" && IsUnit("\\u007B");
    assert IsUnit("\\uD83D\\ude00") && "\\uD83D\\ude00"[6..] == "\\ude00" && IsUnit("\\ude00");
    assert "\\u007B"[6..] == "" && "\\ude00"[6..] == "" && "\\u00e9"[6..] == "" && "\\uD83D"[6..] == "";
    assert UnitValue("\\uD83D\\ude00") == 0xD83D && UnitValue("\\ude00") == 0xDE00;
    assert UnitValue("\\u007b\\u007B") == 0x7B && UnitValue("\\u007B") == 0x7B && UnitValue("\\u00e9") == 0xE9;
  }

  /** The text holds a \u escape. */
  predicate HasUnit(s: string) {
    exists i :: 0 <= i < |s| - 1 && s[i] == '\\' && s[i + 1] == 'u'
  }

  /** Short escapes and plain characters neither hide nor make a brace. */
  lemma {:induction false} TokensAreLiteral(b: string)
    requires ValidBody(b) && !HasUnit(b)
    ensures HasToken(Decode(b)) ==> HasToken(b)
    ensures Decode(b) != "" && Decode(b)[0] == '{' ==> b[0] == '{'
    decreases |b|
  {
    if b != "" {
      if b[0] == '\\' {
        assert !IsUnit(b);
        TokensAreLiteral(b[2..]);
        ShiftTokens(b, 2, Decode(b), 1);
      } else {
        TokensAreLiteral(b[1..]);
        ShiftTokens(b, 1, Decode(b), 1);
      }
    }
  }

  lemma {:induction false} ShiftTokens(b: string, k: nat, d: string, j: nat)
    requires k <= |b| && j <= |d|
    requires HasToken(d[j..]) ==> HasToken(b[k..])
    ensures HasToken(d[j..]) ==> HasToken(b)
  {
    if HasToken(d[j..]) {
      var i :| 0 <= i < |b[k..]| - 1 && b[k..][i] == '{' && b[k..][i + 1] == '{';
      assert b[i + k] == '{' && b[i + k + 1] == '{';
    }
  }

  // ---- Texts

  function Quoted(body: string): string { "\"" + body + "\"" }

  function Print(j: Json): string {
    match j
    case Bare(text) => text
    case Str(body) => Quoted(body)
    case Arr(items) => "[" + PrintItems(items) + "]"
    case Obj(members) => "{" + PrintMembers(members) + "}"
  }

  function PrintItems(items: Items): string {
    match items
    case NoItems(ws) => ws
    case Item(pre, value, post, rest) =>
      pre + Print(value) + post + (if rest.NoItems? then "" else "," + PrintItems(rest))
  }

  function PrintMembers(members: Members): string {
    match members
    case NoMembers(ws) => ws
    case Member(pre, key, mid, gap, value, post, rest) =>
      pre + Quoted(key) + mid + ":" + gap + Print(value) + post +
      (if rest.NoMembers? then "" else "," + PrintMembers(rest))
  }

  /** Numbers, true, false and null; only that they hold no quote and are not empty matters here. */
  predicate ValidBare(text: string) {
    text != "" && forall i :: 0 <= i < |text| ==> text[i] != '"'
  }

  predicate Valid(j: Json) {
    match j
    case Bare(text) => ValidBare(text)
    case Str(body) => ValidBody(body)
    case Arr(items) => ValidItems(items)
    case Obj(members) => ValidMembers(members)
  }

  predicate ValidItems(items: Items) {
    match items
    case NoItems(ws) => Blank(ws)
    case Item(pre, value, post, rest) => Blank(pre) && Valid(value) && Blank(post) && ValidItems(rest)
  }

  predicate ValidMembers(members: Members) {
    match members
    case NoMembers(ws) => Blank(ws)
    case Member(pre, key, mid, gap, value, post, rest) =>
      Blank(pre) && ValidBody(key) && Blank(mid) && Blank(gap) && Valid(value) && Blank(post) && ValidMembers(rest)
  }

  // ---- The data a text stands for

  datatype Tree = TBare(text: string) | TText(s: string) | TArr(items: seq<Tree>) | TObj(members: seq<(string, Tree)>)

  function TreeOf(j: Json): Tree
    requires Valid(j)
  {
    match j
    case Bare(text) => TBare(text)
    case Str(body) => TText(Decode(body))
    case Arr(items) => TArr(TreesOf(items))
    case Obj(members) => TObj(FieldsOf(members))
  }

  function TreesOf(items: Items): seq<Tree>
    requires ValidItems(items)
  {
    match items
    case NoItems(_) => []
    case Item(_, value, _, rest) => [TreeOf(value)] + TreesOf(rest)
  }

  function FieldsOf(members: Members): seq<(string, Tree)>
    requires ValidMembers(members)
  {
    match members
    case NoMembers(_) => []
    case Member(_, key, _, _, value, _, rest) => [(Decode(key), TreeOf(value))] + FieldsOf(rest)
  }

  /** A resolver of string values, and an encoder json.Marshal could be. */
  datatype Coder = Coder(resolve: string -> Resolved, escape: string -> string)

  ghost predicate Lawful(c: Coder) {
    && (forall s :: !HasToken(s) ==> c.resolve(s) == Text(s))
    && (forall s :: c.resolve(s).Data? ==> Valid(c.resolve(s).json) && !c.resolve(s).json.Str?)
    && (forall s :: ValidBody(c.escape(s)) && Decode(c.escape(s)) == s)
  }

  function Marshal(c: Coder, v: Resolved): Json {
    match v
    case Text(s) => Str(c.escape(s))
    case Data(json) => json
  }

  /** Parse, walk and marshal: every string value resolved, an unchanged one kept as it is spelled. */
  function Rewrite(c: Coder, j: Json): Json
    requires Valid(j)
  {
    match j
    case Bare(_) => j
    case Str(body) =>
      var s := Decode(body);
      if c.resolve(s) == Text(s) then j else Marshal(c, c.resolve(s))
    case Arr(items) => Arr(RewriteItems(c, items))
    case Obj(members) => Obj(RewriteMembers(c, members))
  }

  function RewriteItems(c: Coder, items: Items): Items
    requires ValidItems(items)
  {
    match items
    case NoItems(_) => items
    case Item(pre, value, post, rest) => Item(pre, Rewrite(c, value), post, RewriteItems(c, rest))
  }

  function RewriteMembers(c: Coder, members: Members): Members
    requires ValidMembers(members)
  {
    match members
    case NoMembers(_) => members
    case Member(pre, key, mid, gap, value, post, rest) =>
      Member(pre, key, mid, gap, Rewrite(c, value), post, RewriteMembers(c, rest))
  }

  function MapTree(c: Coder, t: Tree): Tree
    requires Lawful(c)
  {
    match t
    case TBare(_) => t
    case TText(s) => (match c.resolve(s) case Text(r) => TText(r) case Data(json) => TreeOf(json))
    case TArr(items) => TArr(seq(|items|, i requires 0 <= i < |items| => MapTree(c, items[i])))
    case TObj(members) =>
      TObj(seq(|members|, i requires 0 <= i < |members| => (members[i].0, MapTree(c, members[i].1))))
  }

  /** The rewritten text stands for the original data with each string value resolved; keys and shape stay. */
  lemma {:induction false} RewriteMapsTheTree(c: Coder, j: Json)
    requires Lawful(c) && Valid(j)
    ensures Valid(Rewrite(c, j)) && TreeOf(Rewrite(c, j)) == MapTree(c, TreeOf(j))
  {
    match j
    case Bare(_) =>
    case Str(body) =>
    case Arr(items) => RewriteMapsItems(c, items);
    case Obj(members) => RewriteMapsMembers(c, members);
  }

  lemma {:induction false} RewriteMapsItems(c: Coder, items: Items)
    requires Lawful(c) && ValidItems(items)
    ensures ValidItems(RewriteItems(c, items))
    ensures TreesOf(RewriteItems(c, items)) ==
      seq(|TreesOf(items)|, i requires 0 <= i < |TreesOf(items)| => MapTree(c, TreesOf(items)[i]))
  {
    match items
    case NoItems(_) =>
    case Item(_, value, _, rest) =>
      RewriteMapsTheTree(c, value);
      RewriteMapsItems(c, rest);
  }

  lemma {:induction false} RewriteMapsMembers(c: Coder, members: Members)
    requires Lawful(c) && ValidMembers(members)
    ensures ValidMembers(RewriteMembers(c, members))
    ensures FieldsOf(RewriteMembers(c, members)) ==
      seq(|FieldsOf(members)|, i requires 0 <= i < |FieldsOf(members)| =>
        (FieldsOf(members)[i].0, MapTree(c, FieldsOf(members)[i].1)))
  {
    match members
    case NoMembers(_) =>
    case Member(_, _, _, _, value, _, rest) =>
      RewriteMapsTheTree(c, value);
      RewriteMapsMembers(c, rest);
  }
}
