/** A check survives printing and reading exactly when a line can carry it. */
module CheckRoundTrip {
  import opened References
  import opened GoText
  import opened Numbers
  import opened Checks

  /** A non-empty name without any character that means something to a line. */
  predicate Plain(s: string) {
    s != "" && forall i :: 0 <= i < |s| ==> !IsSpace(s[i])
  }

  lemma {:induction false} ShortOperators()
    ensures Plain("equals") && Plain("not_equals") && Plain("contains") && Plain("regex") && Plain("empty")
  {
  }

  lemma {:induction false} NamedOperators()
    ensures Plain("not_contains") && Plain("not_empty") && Plain("starts_with") && Plain("ends_with") && Plain("between")
  {
  }

  lemma {:induction false} ComparingOperators()
    ensures Plain("greater_than") && Plain("less_than")
    ensures Plain("greater_than_or_equal") && Plain("less_than_or_equal")
  {
  }

  lemma {:induction false} OperatorsArePlain(op: string)
    requires IsOperator(op)
    ensures Plain(op)
  {
    ShortOperators();
    NamedOperators();
    ComparingOperators();
  }

  lemma {:induction false} FirstSpaceAt(s: string, rest: string)
    requires forall i :: 0 <= i < |s| ==> s[i] != ' '
    requires rest == "" || rest[0] == ' '
    ensures FirstSpace(s + rest) == |s|
  {
    if s == "" {
      assert s + rest == rest;
    } else {
      assert (s + rest)[1..] == s[1..] + rest;
      FirstSpaceAt(s[1..], rest);
    }
  }

  /** A target that starts like one of the five kinds. */
  predicate Solid(t: string) {
    t != "" && t[0] !in " \t\"\r\n" && !IsSpace(t[0])
  }

  lemma {:induction false} TakeBack(t: string, rest: string)
    requires Solid(t) && rest != "" && rest[0] !in " \t"
    ensures TakeTarget(QuoteTarget(t) + " " + rest) == Some((t, rest))
  {
    if ContainsAny(t, " \t\r\n") { TakeQuotedBack(t, rest); } else { TakeBareBack(t, rest); }
  }

  lemma {:induction false} TakeQuotedBack(t: string, rest: string)
    requires rest != "" && rest[0] !in " \t"
    ensures TakeTarget(Quote(t) + " " + rest) == Some((t, rest))
  {
    var all := Quote(t) + " " + rest;
    assert all[0] == '"' && HasPrefix(all, "\"");
    assert all[1..] == Escape(t) + "\"" + (" " + rest);
    QuotedRead(t, " " + rest);
    assert (" " + rest)[1..] == rest && TrimBlanks(" " + rest) == TrimBlanks(rest) == rest;
  }

  lemma {:induction false} TakeBareBack(t: string, rest: string)
    requires t != "" && t[0] != '"' && !ContainsAny(t, " \t\r\n")
    ensures TakeTarget(t + " " + rest) == Some((t, rest))
  {
    var all := t + " " + rest;
    assert all == t + (" " + rest);
    FirstSpaceAt(t, " " + rest);
    assert all[0] == t[0] && !HasPrefix(all, "\"");
    assert all[..|t|] == t && all[|t| + 1..] == rest;
  }

  /** What follows the target: the operator, and the value after one space. */
  function Tail(op: string, value: Option<string>): string {
    if value.None? then op else op + " " + value.value
  }

  lemma {:induction false} OperatorOff(op: string, value: Option<string>)
    requires Plain(op)
    ensures var tail := Tail(op, value);
      var i := FirstSpace(tail);
      tail[..i] == op && (i < |tail| <==> value.Some?) && (value.Some? ==> tail[i + 1..] == value.value)
  {
    if value.None? {
      assert op + "" == op;
      FirstSpaceAt(op, "");
    } else {
      assert Tail(op, value) == op + (" " + value.value);
      FirstSpaceAt(op, " " + value.value);
    }
  }

  lemma {:induction false} SplitBack(t: string, op: string, value: Option<string>)
    requires Solid(t) && Plain(op) && (value.Some? ==> !IsValueless(op))
    ensures SplitCheck(QuoteTarget(t) + " " + Tail(op, value)) == Some(Split(t, op, value))
  {
    var tail := Tail(op, value);
    var all := QuoteTarget(t) + " " + tail;
    assert tail[0] == op[0];
    TakeBack(t, tail);
    assert all[0] == QuoteTarget(t)[0];
    assert TrimBlanks(all) == all;
    OperatorOff(op, value);
  }

  lemma {:induction false} SolidStartsText(s: string)
    requires s != "" && !IsSpace(s[0])
    ensures TrimSpace(s) != "" && TrimBlanks(s) == s
  {
    assert TrimLeft(s) == s;
    KeepsHead(s);
  }

  lemma {:induction false} KeepsHead(s: string)
    requires s != "" && !IsSpace(s[0])
    ensures TrimRight(s) != ""
  {
    if IsSpace(s[|s| - 1]) { KeepsHead(s[..|s| - 1]); }
  }

  /** A printed line that does not end in a break is read as the check it spells. */
  lemma {:induction false} LineBack(t: string, op: string, value: Option<string>)
    requires Solid(t) && Plain(op)
    requires !HasPrefix(t, "status:") && (value.Some? ==> !EndsInBreak(value.value))
    ensures var line := QuoteTarget(t) + " " + Tail(op, value); ParseExpectLine(line) == ParseCheck(line)
  {
    var tail := Tail(op, value);
    var line := QuoteTarget(t) + " " + tail;
    assert line[0] == QuoteTarget(t)[0] && !IsSpace(line[0]);
    SolidStartsText(line);
    assert line[|line| - 1] == tail[|tail| - 1];
    assert TrimBreaks(line) == line;
    if QuoteTarget(t) != t {
      assert line[0] == '"';
    } else if |t| >= 7 {
      assert line[..7] == t[..7];
    } else {
      assert line[|t|] == ' ';
    }
    assert !HasPrefix(line, "status:");
  }

  lemma {:induction false} SplitsBack(a: string, b: string)
    requires IsToken(a) && IsToken(b)
    ensures SplitFields(a + " " + b) == [a, b] && !EndsInBreak(a + " " + b)
  {
    TwoFields(a, b);
    assert (a + " " + b)[|a + " " + b| - 1] == b[|b| - 1];
  }

  lemma {:induction false} DigitsAreTokens(n: int)
    requires FitsInt(n)
    ensures IsToken(Itoa(n)) && !ContainsAny(Itoa(n), " \t\n") && BoundToken(Itoa(n)) == Number(n)
  {
    ItoaRoundTrip(n);
  }

  /** A bound is printed as one word, which reads as the same bound exactly when the bound keeps its value. */
  lemma {:induction false} BoundBack(v: Any)
    requires ReadableBound(v)
    ensures ExpectText(v).Some? && IsToken(ExpectText(v).value) && !ContainsAny(ExpectText(v).value, " \t\n")
    ensures BoundToken(ExpectText(v).value) == v <==> LosslessBound(v)
  {
    if v.Number? {
      ReloadedExactly(v.n);
      DigitsAreTokens(Reloaded(v.n));
    }
  }

  lemma {:induction false} PrefixDropped(prefix: string, name: string)
    ensures HasPrefix(prefix + name, prefix) && (prefix + name)[|prefix|..] == name
  {
  }

  lemma {:induction false} StartsApart(t: string)
    ensures t != "" && t[0] != 's' ==> !HasPrefix(t, "status:") && QuoteTarget(t) != "status"
    ensures !HasPrefix("status", "status:")
  {
    if t != "" { assert QuoteTarget(t)[0] == t[0] || QuoteTarget(t)[0] == '"'; }
  }

  lemma {:induction false} HeaderBack(name: string)
    requires name != ""
    ensures TargetExtractor("header:" + name) == Some(("header", map["header_name" := Text(name)]))
  {
    var t := "header:" + name;
    PrefixDropped("header:", name);
    assert t[0] == 'h' && !HasPrefix(t, "$");
  }

  lemma {:induction false} QueryBack(name: string)
    requires name != ""
    ensures TargetExtractor("query:" + name) == Some(("query_param", map["param_name" := Text(name)]))
  {
    var t := "query:" + name;
    PrefixDropped("query:", name);
    assert t[0] == 'q' && !HasPrefix(t, "$") && !HasPrefix(t, "header:");
  }

  lemma {:induction false} WordsBack()
    ensures TargetExtractor("body") == Some(("body", map[]))
    ensures TargetExtractor("status") == Some(("status_code", map[]))
  {
    assert "body"[0] == 'b' && "status"[0] == 's';
  }

  /** The target of a writable check names its extractor again. */
  lemma {:induction false} TargetBack(c: Check)
    requires WritableTarget(c)
    ensures CheckTarget(c).Some? && TargetExtractor(CheckTarget(c).value) == Some((c.extractor, c.extractorData))
    ensures Solid(CheckTarget(c).value) && !HasPrefix(CheckTarget(c).value, "status:")
    ensures QuoteTarget(CheckTarget(c).value) == "status" ==> c.extractor == "status_code" && c.extractorData == map[]
  {
    TargetFound(c);
    TargetIsSolid(CheckTarget(c).value);
  }

  lemma {:induction false} TargetIsSolid(t: string)
    requires t != "" && t[0] in "$bhqs" && (t[0] == 's' ==> t == "status")
    ensures Solid(t) && !HasPrefix(t, "status:") && (QuoteTarget(t) == "status" ==> t[0] == 's')
  {
    StartsApart(t);
  }

  /** And it starts with the letter of its kind. */
  lemma {:induction false} TargetFound(c: Check)
    requires WritableTarget(c)
    ensures CheckTarget(c).Some? && TargetExtractor(CheckTarget(c).value) == Some((c.extractor, c.extractorData))
    ensures CheckTarget(c).value != "" && CheckTarget(c).value[0] in "$bhqs"
    ensures CheckTarget(c).value[0] == 's' ==> CheckTarget(c).value == "status" && c.extractor == "status_code" && c.extractorData == map[]
  {
    if c.extractor == "header" {
      HeaderTarget(c);
    } else if c.extractor == "query_param" {
      QueryTarget(c);
    } else {
      WordsBack();
      assert "" + TextAt(c.extractorData, "path") == TextAt(c.extractorData, "path");
    }
  }

  lemma {:induction false} HeaderTarget(c: Check)
    requires WritableTarget(c) && c.extractor == "header"
    ensures CheckTarget(c).Some? && TargetExtractor(CheckTarget(c).value) == Some((c.extractor, c.extractorData))
    ensures CheckTarget(c).value != "" && CheckTarget(c).value[0] == 'h'
  {
    HeaderBack(TextAt(c.extractorData, "header_name"));
  }

  lemma {:induction false} QueryTarget(c: Check)
    requires WritableTarget(c) && c.extractor == "query_param"
    ensures CheckTarget(c).Some? && TargetExtractor(CheckTarget(c).value) == Some((c.extractor, c.extractorData))
    ensures CheckTarget(c).value != "" && CheckTarget(c).value[0] == 'q'
  {
    QueryBack(TextAt(c.extractorData, "param_name"));
  }

  /** The status shorthand. */
  lemma {:induction false} StatusBack(text: string)
    requires Atoi(text).Some? && !EndsInBreak(text)
    ensures ParseExpectLine("status: " + text) == Some(StatusEquals(text))
  {
    var line := "status: " + text;
    SolidStartsText(line);
    assert text != "" && line[|line| - 1] == text[|text| - 1];
    assert TrimBreaks(line) == line;
    assert line[..7] == "status:" && line[7..] == " " + text;
    NumbersTrim(text);
    assert (" " + text)[1..] == text;
    assert TrimLeft(" " + text) == TrimLeft(text);
  }

  lemma {:induction false} NumbersTrim(text: string)
    requires Atoi(text).Some?
    ensures TrimSpace(text) == text
  {
    assert text != "" && (IsDigit(text[0]) || text[0] in "+-");
    var digits := if text[0] in "+-" then text[1..] else text;
    assert text[|text| - 1] == digits[|digits| - 1];
  }

  /** A printed line is read as the check its target, operator and value spell. */
  lemma {:induction false} LineReadsBack(t: string, value: Option<string>, c: Check)
    requires Solid(t) && !HasPrefix(t, "status:") && IsOperator(c.operator)
    requires value.Some? ==> !IsValueless(c.operator) && !EndsInBreak(value.value)
    requires TargetExtractor(t) == Some((c.extractor, c.extractorData))
    requires OperatorData(c.operator, value) == Some(c.operatorData)
    ensures ParseExpectLine(QuoteTarget(t) + " " + Tail(c.operator, value)) == Some(c)
  {
    OperatorsArePlain(c.operator);
    SplitBack(t, c.operator, value);
    LineBack(t, c.operator, value);
  }

  lemma {:induction false} Regroup(target: string, op: string, low: string, high: string)
    ensures target + " " + op + " " + low + " " + high == target + " " + Tail(op, Some(low + " " + high))
  {
    var both := low + " " + high;
    assert target + " " + op + " " + low + " " + high == target + " " + op + " " + both;
  }

  /** The check with the bounds that its printed bounds are read as. */
  function Rebound(c: Check): Check
    requires ValueOf(c).List? && |ValueOf(c).items| == 2
    requires ExpectText(ValueOf(c).items[0]).Some? && ExpectText(ValueOf(c).items[1]).Some?
  {
    var low, high := ExpectText(ValueOf(c).items[0]).value, ExpectText(ValueOf(c).items[1]).value;
    c.(operatorData := map["value" := List([BoundToken(low), BoundToken(high)])])
  }

  lemma {:induction false} BetweenReads(c: Check)
    requires Readable(c) && c.operator == "between"
    ensures ExpectText(ValueOf(c).items[0]).Some? && ExpectText(ValueOf(c).items[1]).Some?
    ensures CheckLine(c).Some? && ParseExpectLine(CheckLine(c).value) == Some(Rebound(c))
  {
    TargetBack(c);
    var t, v := CheckTarget(c).value, ValueOf(c);
    BoundBack(v.items[0]);
    BoundBack(v.items[1]);
    var low, high := ExpectText(v.items[0]).value, ExpectText(v.items[1]).value;
    SplitsBack(low, high);
    BetweenData(low, high);
    LineReadsBack(t, Some(low + " " + high), Rebound(c));
    Regroup(QuoteTarget(t), c.operator, low, high);
  }

  lemma {:induction false} BetweenData(low: string, high: string)
    requires SplitFields(low + " " + high) == [low, high]
    ensures OperatorData("between", Some(low + " " + high)) == Some(map["value" := List([BoundToken(low), BoundToken(high)])])
  {
  }

  lemma {:induction false} ReboundExactly(c: Check)
    requires Readable(c) && c.operator == "between"
    ensures ExpectText(ValueOf(c).items[0]).Some? && ExpectText(ValueOf(c).items[1]).Some?
    ensures Rebound(c) == c <==> Lossless(c)
  {
    var items := ValueOf(c).items;
    BoundBack(items[0]);
    BoundBack(items[1]);
    assert items == [items[0], items[1]];
    assert Rebound(c) == c <==> ValueOf(Rebound(c)) == ValueOf(c);
  }

  lemma {:induction false} BetweenComesBack(c: Check)
    requires Readable(c) && c.operator == "between"
    ensures CheckLine(c).Some? && (ParseExpectLine(CheckLine(c).value) == Some(c) <==> Lossless(c))
  {
    BetweenReads(c);
    ReboundExactly(c);
  }

  lemma {:induction false} ValuelessComesBack(c: Check)
    requires Readable(c) && IsValueless(c.operator)
    ensures CheckLine(c).Some? && ParseExpectLine(CheckLine(c).value) == Some(c)
  {
    TargetBack(c);
    LineReadsBack(CheckTarget(c).value, None, c);
  }

  lemma {:induction false} ValueComesBack(c: Check)
    requires Readable(c) && c.operator != "between" && !IsValueless(c.operator)
    ensures CheckLine(c).Some? && ParseExpectLine(CheckLine(c).value) == Some(c)
  {
    TargetBack(c);
    var q, v := QuoteTarget(CheckTarget(c).value), ValueOf(c).text;
    if c.operator == "equals" && q == "status" && Atoi(v).Some? {
      StatusBack(v);
    } else {
      assert q + " " + c.operator + " " + v == q + " " + Tail(c.operator, Some(v));
      LineReadsBack(CheckTarget(c).value, Some(v), c);
    }
  }

  /** Printing and reading back gives the same check. */
  lemma {:induction false} WritableComesBack(c: Check)
    requires Writable(c)
    ensures CheckLine(c).Some? && ParseExpectLine(CheckLine(c).value) == Some(c)
  {
    if c.operator == "between" {
      BetweenComesBack(c);
    } else if IsValueless(c.operator) {
      ValuelessComesBack(c);
    } else {
      ValueComesBack(c);
    }
  }

  // ---- Every line that is read spells a readable check

  lemma {:induction false} BlanksAreAPrefix(s: string)
    requires !EndsInBreak(s)
    ensures !EndsInBreak(TrimBlanks(s))
  {
    if s != "" && s[0] in " \t" { BlanksAreAPrefix(s[1..]); }
  }

  lemma {:induction false} QuotedEnds(s: string)
    requires ReadQuoted(s).Some? && !EndsInBreak(s)
    ensures !EndsInBreak(ReadQuoted(s).value.1)
    decreases |s|
  {
    if s[0] == '"' {
    } else if s[0] == '\\' {
      QuotedEnds(s[ReadEscape(s).value.1..]);
    } else {
      QuotedEnds(s[1..]);
    }
  }

  lemma {:induction false} SplitEnds(line: string)
    requires !EndsInBreak(line) && SplitCheck(line).Some? && SplitCheck(line).value.value.Some?
    ensures !EndsInBreak(SplitCheck(line).value.value.value)
  {
    BlanksAreAPrefix(line);
    var start := TrimBlanks(line);
    if HasPrefix(start, "\"") {
      QuotedEnds(start[1..]);
      BlanksAreAPrefix(ReadQuoted(start[1..]).value.1);
    }
  }

  lemma {:induction false} BoundIsReadable(text: string)
    requires IsToken(text)
    ensures ReadableBound(BoundToken(text))
  {
  }

  lemma {:induction false} OperandIsReadable(c: Check, value: Option<string>)
    requires IsOperator(c.operator) && OperatorData(c.operator, value) == Some(c.operatorData)
    requires value.Some? ==> !EndsInBreak(value.value)
    ensures ReadableOperand(c)
  {
    if c.operator == "between" {
      FieldsAreTokens(value.value);
      BoundIsReadable(SplitFields(value.value)[0]);
      BoundIsReadable(SplitFields(value.value)[1]);
    }
  }

  lemma {:induction false} TargetIsWritable(t: string, c: Check)
    requires TargetExtractor(t) == Some((c.extractor, c.extractorData))
    ensures WritableTarget(c)
  {
  }

  /** Nothing but a readable check is ever read from a line. */
  lemma {:induction false} OnlyReadableIsRead(line: string)
    requires ParseExpectLine(line).Some?
    ensures Readable(ParseExpectLine(line).value)
  {
    var text := TrimBreaks(TrimBlanks(line));
    TrimBreaksEnds(TrimBlanks(line));
    var c := ParseExpectLine(line).value;
    if HasPrefix(text, "status:") {
      var code := TrimSpace(text[7..]);
      assert IsDigit(code[|code| - 1]);
    } else {
      var split := SplitCheck(text).value;
      if split.value.Some? { SplitEnds(text); }
      assert SplitCheck(text) == Some(split);
      TargetIsWritable(split.target, c);
      OperandIsReadable(c, split.value);
    }
  }

  /** The check-line round trip, exactly: a rendered check is read back as itself if and only if it is writable. */
  lemma {:induction false} CheckRoundTripExactly(c: Check)
    ensures Writable(c) <==> (CheckLine(c).Some? && ParseExpectLine(CheckLine(c).value) == Some(c))
  {
    if Writable(c) { WritableComesBack(c); }
    if CheckLine(c).Some? && ParseExpectLine(CheckLine(c).value) == Some(c) {
      OnlyReadableIsRead(CheckLine(c).value);
      if c.operator == "between" { BetweenComesBack(c); }
    }
  }
}
