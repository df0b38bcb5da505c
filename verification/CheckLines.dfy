/** What a check line says, form by form. */
module CheckLines {
  import opened References
  import opened GoText
  import opened Checks
  import opened CheckRoundTrip

  const Comparisons: set<string> := {
    "equals", "not_equals", "contains", "not_contains", "greater_than", "less_than",
    "greater_than_or_equal", "less_than_or_equal", "starts_with", "ends_with", "regex" }

  /** The word names this extractor and its data. */
  ghost predicate Names(word: string, extractor: string, data: map<string, Any>) {
    || (word == "status" && extractor == "status_code" && data == map[])
    || (word == "body" && extractor == "body" && data == map[])
    || (word != "" && word[0] == '$' && extractor == "json_path" && data == map["path" := Text(word)])
    || (extractor == "header" && exists name ::
          name != "" && word == "header:" + name && data == map["header_name" := Text(name)])
    || (extractor == "query_param" && exists name ::
          name != "" && word == "query:" + name && data == map["param_name" := Text(name)])
  }

  lemma {:induction false} PathWord(word: string)
    requires word != "" && word[0] == '$'
    ensures TargetExtractor(word) == Some(("json_path", map["path" := Text(word)]))
  {
    assert "$" <= word;
  }

  /** A target word is read as the extractor it names, and no other word is a target. */
  lemma {:induction false} WordIsRead(word: string, extractor: string, data: map<string, Any>)
    ensures Names(word, extractor, data) <==> TargetExtractor(word) == Some((extractor, data))
  {
    if Names(word, extractor, data) {
      WordsBack();
      if word != "" && word[0] == '$' { PathWord(word); }
      if name :| name != "" && word == "header:" + name { HeaderBack(name); }
      if name :| name != "" && word == "query:" + name { QueryBack(name); }
    }
    if TargetExtractor(word) == Some((extractor, data)) {
      if HasPrefix(word, "header:") { assert word == "header:" + word[7..]; }
      if HasPrefix(word, "query:") { assert word == "query:" + word[6..]; }
    }
  }

  lemma {:induction false} WordIsSolid(word: string, extractor: string, data: map<string, Any>)
    requires Names(word, extractor, data)
    ensures Solid(word) && !HasPrefix(word, "status:")
  {
    assert word != "" && word[0] in "$bhqs" && (word[0] == 's' ==> word == "status");
    TargetIsSolid(word);
  }

  lemma {:induction false} WordsAreOperators(op: string)
    ensures IsOperator(op) <==> op in Comparisons || op in {"empty", "not_empty", "between"}
    ensures IsValueless(op) <==> op in {"empty", "not_empty"}
  {
  }

  lemma {:induction false} TakesAValue(op: string)
    requires op in Comparisons
    ensures IsOperator(op) && !IsValueless(op) && op != "between"
  {
  }

  lemma {:induction false} ReadValue(word: string, text: string, c: Check)
    requires Solid(word) && !HasPrefix(word, "status:") && !EndsInBreak(text)
    requires TargetExtractor(word) == Some((c.extractor, c.extractorData)) && c.operatorData == map["value" := Text(text)]
    requires IsOperator(c.operator) && !IsValueless(c.operator) && c.operator != "between"
    ensures ParseExpectLine(QuoteTarget(word) + " " + c.operator + " " + text) == Some(c)
  {
    ValueData(c.operator, text);
    LineReadsBack(word, Some(text), c);
    TailIs(QuoteTarget(word), c.operator, text);
  }

  lemma {:induction false} ValueData(op: string, text: string)
    requires !IsValueless(op) && op != "between"
    ensures OperatorData(op, Some(text)) == Some(map["value" := Text(text)])
  {
  }

  lemma {:induction false} TailIs(target: string, op: string, text: string)
    ensures target + " " + op + " " + text == target + " " + Tail(op, Some(text))
  {
    assert target + " " + (op + " " + text) == target + " " + op + " " + text;
  }

  /** A target, a comparison and everything after one space. */
  lemma {:induction false} ComparisonLine(word: string, extractor: string, data: map<string, Any>, op: string, text: string)
    requires Names(word, extractor, data) && op in Comparisons && !EndsInBreak(text)
    ensures ParseExpectLine(QuoteTarget(word) + " " + op + " " + text) ==
      Some(Check(extractor, data, op, map["value" := Text(text)]))
  {
    WordIsRead(word, extractor, data);
    WordIsSolid(word, extractor, data);
    TakesAValue(op);
    ReadValue(word, text, Check(extractor, data, op, map["value" := Text(text)]));
  }

  /** Two operators stand alone. */
  lemma {:induction false} BareLine(word: string, extractor: string, data: map<string, Any>, op: string)
    requires Names(word, extractor, data) && op in {"empty", "not_empty"}
    ensures ParseExpectLine(QuoteTarget(word) + " " + op) == Some(Check(extractor, data, op, map[]))
  {
    WordIsRead(word, extractor, data);
    WordIsSolid(word, extractor, data);
    WordsAreOperators(op);
    LineReadsBack(word, None, Check(extractor, data, op, map[]));
  }

  /** And one takes a lower and an upper bound. */
  lemma {:induction false} BetweenLine(word: string, extractor: string, data: map<string, Any>, op: string, low: int, high: int)
    requires Names(word, extractor, data) && op == "between" && FitsInt(low) && FitsInt(high)
    ensures ParseExpectLine(QuoteTarget(word) + " " + op + " " + Itoa(low) + " " + Itoa(high)) ==
      Some(Check(extractor, data, op, map["value" := List([Number(low), Number(high)])]))
  {
    WordIsRead(word, extractor, data);
    WordIsSolid(word, extractor, data);
    BoundsRead(low, high);
    ReadBounds(word, Itoa(low) + " " + Itoa(high), Check(extractor, data, op, map["value" := List([Number(low), Number(high)])]));
    Regroup(QuoteTarget(word), op, Itoa(low), Itoa(high));
  }

  lemma {:induction false} BoundsRead(low: int, high: int)
    requires FitsInt(low) && FitsInt(high)
    ensures !EndsInBreak(Itoa(low) + " " + Itoa(high))
    ensures OperatorData("between", Some(Itoa(low) + " " + Itoa(high))) == Some(map["value" := List([Number(low), Number(high)])])
  {
    DigitsAreTokens(low);
    DigitsAreTokens(high);
    SplitsBack(Itoa(low), Itoa(high));
    BetweenData(Itoa(low), Itoa(high));
  }

  lemma {:induction false} ReadBounds(word: string, text: string, c: Check)
    requires Solid(word) && !HasPrefix(word, "status:") && !EndsInBreak(text) && c.operator == "between"
    requires TargetExtractor(word) == Some((c.extractor, c.extractorData))
    requires OperatorData("between", Some(text)) == Some(c.operatorData)
    ensures ParseExpectLine(QuoteTarget(word) + " " + Tail(c.operator, Some(text))) == Some(c)
  {
    WordsAreOperators(c.operator);
    LineReadsBack(word, Some(text), c);
  }

  /** A word without blanks is its own quotation; the shorthand asks the status to equal a code. */
  lemma {:induction false} PlainWords(word: string, code: string)
    ensures !ContainsAny(word, " \t\r\n") ==> QuoteTarget(word) == word
    ensures Atoi(code).Some? && !EndsInBreak(code) ==>
      ParseExpectLine("status: " + code) == Some(Check("status_code", map[], "equals", map["value" := Text(code)]))
  {
    if Atoi(code).Some? && !EndsInBreak(code) { StatusBack(code); }
  }
}
