/** Template strings: what one JSON string value resolves to. */
module Templates {
  import opened References
  import opened GoText

  /** Quoted text, or any other JSON value. */
  datatype Json = Bare(text: string) | Str(body: string) | Arr(items: Items) | Obj(members: Members)

  /** A list or object body with its whitespace: around each value, and inside an empty pair of brackets. */
  datatype Items = NoItems(ws: string) | Item(pre: string, value: Json, post: string, rest: Items)

  datatype Members =
    | NoMembers(ws: string)
    | Member(pre: string, key: string, mid: string, gap: string, value: Json, post: string, rest: Members)

  /** A resolved string value: text, or a structure that replaces the whole string. */
  datatype Resolved = Text(s: string) | Data(json: Json)

  /** A text contains a template token. */
  predicate HasToken(s: string) {
    exists i :: 0 <= i < |s| - 1 && s[i] == '{' && s[i + 1] == '{'
  }

  predicate IsBrace(c: char) { c == '{' || c == '}' }

  /** How many characters before the next brace. */
  function RunLength(s: string): (n: nat)
    ensures n <= |s|
    ensures forall i :: 0 <= i < n ==> !IsBrace(s[i])
    ensures n < |s| ==> IsBrace(s[n])
  {
    if s == "" || IsBrace(s[0]) then 0 else 1 + RunLength(s[1..])
  }

  /** refPattern at the start of s: two braces, one or more other characters, two braces. */
  function MatchLength(s: string): (n: nat)
    ensures n <= |s|
    ensures n > 0 ==> n >= 5 && s[..2] == "{{" && s[n - 2..n] == "}}" && RunLength(s[2..]) == n - 4
  {
    if |s| < 5 || s[..2] != "{{" then 0
    else
      var n := RunLength(s[2..]);
      if n > 0 && n + 4 <= |s| && s[n + 2..n + 4] == "}}" then n + 4 else 0
  }

  /** rawPattern: the whole string is one triple-brace token. */
  predicate IsRawToken(s: string) {
    && |s| >= 7 && s[..3] == "{{{" && s[|s| - 3..] == "}}}"
    && RunLength(s[3..|s| - 3]) == |s| - 6
  }

  /** ReplaceAllStringFunc: the leftmost tokens, one after the other; an unresolved one stays as it is. */
  function ReplaceRefs(s: string, lookup: string -> Option<Resolved>, show: Resolved -> string): string
    decreases |s|
  {
    if s == "" then ""
    else
      var n := MatchLength(s);
      if n == 0 then [s[0]] + ReplaceRefs(s[1..], lookup, show)
      else
        var found := lookup(TrimSpace(s[2..n - 2]));
        (if found.Some? then show(found.value) else s[..n]) + ReplaceRefs(s[n..], lookup, show)
  }

  function ResolveString(s: string, lookup: string -> Option<Resolved>, show: Resolved -> string): Resolved {
    if !HasToken(s) then Text(s)
    else if IsRawToken(s) then
      var found := lookup(TrimSpace(s[3..|s| - 3]));
      if found.Some? then found.value else Text(s)
    else Text(ReplaceRefs(s, lookup, show))
  }

  /** References that resolve to nothing are left verbatim, so a typo stays visible. */
  lemma {:induction false} UnresolvedStaysVerbatim(s: string, lookup: string -> Option<Resolved>, show: Resolved -> string)
    requires forall ref :: lookup(ref) == None
    ensures ReplaceRefs(s, lookup, show) == s && ResolveString(s, lookup, show) == Text(s)
    decreases |s|
  {
    if s != "" {
      var n := MatchLength(s);
      if n == 0 {
        UnresolvedStaysVerbatim(s[1..], lookup, show);
      } else {
        UnresolvedStaysVerbatim(s[n..], lookup, show);
        assert s == s[..n] + s[n..];
      }
    }
  }

  /** Text before, a token, text after: the token is replaced where it stands when the text before holds no token. */
  lemma {:induction false} TokenIsReplaced(before: string, ref: string, after: string,
                                           lookup: string -> Option<Resolved>, show: Resolved -> string)
    requires ref != "" && (forall i :: 0 <= i < |ref| ==> !IsBrace(ref[i])) && (forall i :: 0 <= i < |before| ==> before[i] != '{')
    requires lookup(TrimSpace(ref)).Some?
    ensures ReplaceRefs(before + "{{" + ref + "}}" + after, lookup, show) ==
      before + show(lookup(TrimSpace(ref)).value) + ReplaceRefs(after, lookup, show)
  {
    var token := "{{" + ref + "}}" + after;
    TokenStep(ref, after, lookup, show);
    PlainTextStays(before, token, lookup, show);
    Regroup(before, ref, after);
  }

  lemma {:induction false} Regroup(before: string, ref: string, after: string)
    ensures before + "{{" + ref + "}}" + after == before + ("{{" + ref + "}}" + after)
  {
  }

  lemma {:induction false} TokenStep(ref: string, after: string, lookup: string -> Option<Resolved>, show: Resolved -> string)
    requires ref != "" && (forall i :: 0 <= i < |ref| ==> !IsBrace(ref[i])) && lookup(TrimSpace(ref)).Some?
    ensures ReplaceRefs("{{" + ref + "}}" + after, lookup, show) ==
      show(lookup(TrimSpace(ref)).value) + ReplaceRefs(after, lookup, show)
  {
    var token := "{{" + ref + "}}" + after;
    TokenAtStart(ref, after);
    assert token[2..|ref| + 2] == ref;
  }

  lemma {:induction false} PlainStep(s: string, lookup: string -> Option<Resolved>, show: Resolved -> string)
    requires s != "" && s[0] != '{'
    ensures ReplaceRefs(s, lookup, show) == [s[0]] + ReplaceRefs(s[1..], lookup, show)
  {
    NoTokenHere(s);
  }

  lemma {:induction false} Rejoin(s: string, t: string)
    requires s != ""
    ensures [s[0]] + (s[1..] + t) == s + t
  {
  }

  /** Text without an opening brace is copied. */
  lemma {:induction false} PlainTextStays(before: string, rest: string, lookup: string -> Option<Resolved>, show: Resolved -> string)
    requires forall i :: 0 <= i < |before| ==> before[i] != '{'
    ensures ReplaceRefs(before + rest, lookup, show) == before + ReplaceRefs(rest, lookup, show)
  {
    if before == "" {
      assert before + rest == rest;
    } else {
      PlainStep(before + rest, lookup, show);
      assert (before + rest)[1..] == before[1..] + rest;
      PlainTextStays(before[1..], rest, lookup, show);
      Rejoin(before, ReplaceRefs(rest, lookup, show));
    }
  }

  lemma {:induction false} NoTokenHere(s: string)
    requires s != "" && s[0] != '{'
    ensures MatchLength(s) == 0
  {
    if |s| >= 5 { assert s[..2][0] == s[0]; }
  }

  lemma {:induction false} TokenAtStart(ref: string, after: string)
    requires ref != "" && (forall i :: 0 <= i < |ref| ==> !IsBrace(ref[i]))
    ensures var token := "{{" + ref + "}}" + after; MatchLength(token) == |ref| + 4 && token[|ref| + 4..] == after
  {
    var token := "{{" + ref + "}}" + after;
    assert token[2..] == ref + ("}}" + after);
    RunOf(ref, "}}" + after);
    assert token[|ref| + 2..|ref| + 4] == "}}";
    assert token[..2] == "{{";
  }

  lemma {:induction false} RunOf(ref: string, after: string)
    requires (forall i :: 0 <= i < |ref| ==> !IsBrace(ref[i])) && after != "" && IsBrace(after[0])
    ensures RunLength(ref + after) == |ref|
  {
    if ref == "" {
      assert ref + after == after;
    } else {
      assert (ref + after)[1..] == ref[1..] + after;
      RunOf(ref[1..], after);
    }
  }
}
