/** The check lines of a flow file: how a check is printed, and how a line is read. */
module Checks {
  import opened References
  import opened GoText
  import opened Numbers

  /** A decoded JSON value. A number that is no 64-bit integer is kept as its JSON text, and occurs in bounds only. */
  datatype Any =
    | Null
    | Flag(on: bool)
    | Number(n: int)
    | Real(json: string)
    | Text(text: string)
    | List(items: seq<Any>)
    | Object(fields: map<string, Any>)

  datatype Check = Check(
    extractor: string, extractorData: map<string, Any>,
    operator: string, operatorData: map<string, Any>)

  predicate IsValueless(op: string) {
    op == "empty" || op == "not_empty"
  }

  /** expectOperators. */
  predicate IsOperator(op: string) {
    || op == "equals" || op == "not_equals" || op == "contains" || op == "not_contains"
    || op == "greater_than" || op == "less_than" || op == "greater_than_or_equal" || op == "less_than_or_equal"
    || IsValueless(op) || op == "starts_with" || op == "ends_with" || op == "regex" || op == "between"
  }

  // ---- Printing

  function TextAt(data: map<string, Any>, key: string): string {
    if key in data && data[key].Text? then data[key].text else ""
  }

  /** checkTarget. */
  function CheckTarget(c: Check): Option<string> {
    if c.extractor == "status_code" then Some("status")
    else if c.extractor == "json_path" then NonEmpty("", TextAt(c.extractorData, "path"))
    else if c.extractor == "header" then NonEmpty("header:", TextAt(c.extractorData, "header_name"))
    else if c.extractor == "query_param" then NonEmpty("query:", TextAt(c.extractorData, "param_name"))
    else if c.extractor == "body" then Some("body")
    else None
  }

  function NonEmpty(prefix: string, name: string): Option<string> {
    if name == "" then None else Some(prefix + name)
  }

  predicate ContainsAny(s: string, chars: string) {
    exists i :: 0 <= i < |s| && s[i] in chars
  }

  /** quoteTarget. */
  function QuoteTarget(target: string): string {
    if ContainsAny(target, " \t\r\n") then Quote(target) else target
  }

  /** expectText, of a check that was read from its stored form: its numbers are float64 values. */
  function ExpectText(v: Any): Option<string> {
    match v
    case Text(text) => Some(text)
    case Flag(on) => Some(if on then "true" else "false")
    case Number(n) => Some(Itoa(Reloaded(n)))
    case Real(json) => Some(Doubles.shows(json))
    case _ => None
  }

  /** betweenBounds. */
  function BetweenBounds(v: Any): Option<(string, string)> {
    if !v.List? || |v.items| != 2 then None
    else
      var low, high := ExpectText(v.items[0]), ExpectText(v.items[1]);
      if low.None? || high.None? || ContainsAny(low.value, " \t\n") || ContainsAny(high.value, " \t\n") then None
      else Some((low.value, high.value))
  }

  function ValueOf(c: Check): Any {
    if "value" in c.operatorData then c.operatorData["value"] else Null
  }

  /** checkLine. */
  function CheckLine(c: Check): Option<string> {
    var found := CheckTarget(c);
    if found.None? then None
    else
      var target := QuoteTarget(found.value);
      if c.operator == "between" then
        var bounds := BetweenBounds(ValueOf(c));
        if bounds.None? then None else Some(target + " " + c.operator + " " + bounds.value.0 + " " + bounds.value.1)
      else if IsValueless(c.operator) then Some(target + " " + c.operator)
      else
        var text := ExpectText(ValueOf(c));
        if text.None? then None
        else if c.operator == "equals" && target == "status" && Atoi(text.value).Some? then Some("status: " + text.value)
        else Some(target + " " + c.operator + " " + text.value)
  }

  // ---- Reading

  /** takeTarget: the target and what follows it. */
  function TakeTarget(text: string): Option<(string, string)> {
    if !HasPrefix(text, "\"") then
      var i := FirstSpace(text);
      Some((text[..i], if i < |text| then text[i + 1..] else ""))
    else
      var quoted := ReadQuoted(text[1..]);
      if quoted.None? then None else Some((quoted.value.0, TrimBlanks(quoted.value.1)))
  }

  datatype Split = Split(target: string, operator: string, value: Option<string>)

  /** splitCheck. */
  function SplitCheck(line: string): Option<Split> {
    var taken := TakeTarget(TrimBlanks(line));
    if taken.None? then None
    else
      var (target, text) := taken.value;
      if text == "" then Some(Split(target, "", None))
      else
        var i := FirstSpace(text);
        var operator, value := text[..i], if i < |text| then Some(text[i + 1..]) else None;
        if value.Some? && TrimSpace(value.value) == "" && IsValueless(operator) then Some(Split(target, operator, None))
        else Some(Split(target, operator, value))
  }

  /** The extractor a target names. */
  function TargetExtractor(target: string): Option<(string, map<string, Any>)> {
    if HasPrefix(target, "$") then Some(("json_path", map["path" := Text(target)]))
    else if HasPrefix(target, "header:") && |target| > 7 then Some(("header", map["header_name" := Text(target[7..])]))
    else if HasPrefix(target, "query:") && |target| > 6 then Some(("query_param", map["param_name" := Text(target[6..])]))
    else if target == "body" then Some(("body", map[]))
    else if target == "status" then Some(("status_code", map[]))
    else None
  }

  /** boundToken, as it is stored. */
  function BoundToken(text: string): Any {
    var n := Atoi(text);
    if n.Some? then Number(n.value)
    else match Doubles.stores(text)
      case None => Text(text)
      case Some(json) => if IsWhole(json) then Number(Atoi(json).value) else Real(json)
  }

  /** What the operator and the rest of the line say. */
  function OperatorData(operator: string, value: Option<string>): Option<map<string, Any>> {
    if operator == "between" then
      if value.None? || |SplitFields(value.value)| != 2 then None
      else Some(map["value" := List([BoundToken(SplitFields(value.value)[0]), BoundToken(SplitFields(value.value)[1])])])
    else if IsValueless(operator) then
      if value.Some? then None else Some(map[])
    else
      if value.None? then None else Some(map["value" := Text(value.value)])
  }

  /** parseCheck. */
  function ParseCheck(line: string): Option<Check> {
    var split := SplitCheck(line);
    if split.None? || !IsOperator(split.value.operator) then None
    else
      var extractor := TargetExtractor(split.value.target);
      var data := OperatorData(split.value.operator, split.value.value);
      if extractor.None? || data.None? then None
      else Some(Check(extractor.value.0, extractor.value.1, split.value.operator, data.value))
  }

  function StatusEquals(code: string): Check {
    Check("status_code", map[], "equals", map["value" := Text(code)])
  }

  /** parseExpectLine. */
  function ParseExpectLine(line: string): Option<Check> {
    var text := TrimBreaks(TrimBlanks(line));
    if TrimSpace(text) == "" then None
    else if HasPrefix(text, "status:") then
      var code := TrimSpace(text[7..]);
      if Atoi(code).Some? then Some(StatusEquals(code)) else None
    else ParseCheck(text)
  }

  // ---- Which checks a line can carry

  /** An extractor with nothing but the data its target spells. */
  predicate WritableTarget(c: Check) {
    || (c.extractor == "status_code" && c.extractorData == map[])
    || (c.extractor == "body" && c.extractorData == map[])
    || (c.extractor == "json_path" && HasPrefix(TextAt(c.extractorData, "path"), "$")
        && c.extractorData == map["path" := Text(TextAt(c.extractorData, "path"))])
    || (c.extractor == "header" && TextAt(c.extractorData, "header_name") != ""
        && c.extractorData == map["header_name" := Text(TextAt(c.extractorData, "header_name"))])
    || (c.extractor == "query_param" && TextAt(c.extractorData, "param_name") != ""
        && c.extractorData == map["param_name" := Text(TextAt(c.extractorData, "param_name"))])
  }

  predicate EndsInBreak(s: string) {
    s != "" && s[|s| - 1] in "\r\n"
  }

  /** A bound is a number, or a word that does not read as one. */
  predicate ReadableBound(v: Any) {
    || (v.Number? && FitsInt(v.n))
    || (v.Real? && Doubles.names(v.json) && !IsWhole(v.json))
    || (v.Text? && IsToken(v.text) && Atoi(v.text).None? && Doubles.stores(v.text).None?)
  }

  predicate ReadableOperand(c: Check) {
    if c.operator == "between" then
      && ValueOf(c).List? && |ValueOf(c).items| == 2
      && ReadableBound(ValueOf(c).items[0]) && ReadableBound(ValueOf(c).items[1])
      && c.operatorData == map["value" := ValueOf(c)]
    else if IsValueless(c.operator) then c.operatorData == map[]
    else IsOperator(c.operator) && ValueOf(c).Text? && !EndsInBreak(ValueOf(c).text) && c.operatorData == map["value" := ValueOf(c)]
  }

  /** The checks that lines spell. */
  predicate Readable(c: Check) {
    WritableTarget(c) && ReadableOperand(c)
  }

  /** A bound keeps its value when it is stored and printed: a float64 holds it, and does not print as an integer. */
  ghost predicate LosslessBound(v: Any) {
    && (v.Number? ==> ExactDouble(v.n))
    && (v.Real? ==> Atoi(Doubles.shows(v.json)).None?)
  }

  ghost predicate Lossless(c: Check) {
    c.operator == "between" && ValueOf(c).List? ==>
      forall i :: 0 <= i < |ValueOf(c).items| ==> LosslessBound(ValueOf(c).items[i])
  }

  /** The checks a line carries exactly. */
  ghost predicate Writable(c: Check) {
    Readable(c) && Lossless(c)
  }

  /** json.Marshal takes the check: no bound is infinite. */
  predicate Storable(c: Check) {
    ValueOf(c).List? ==>
      forall i :: 0 <= i < |ValueOf(c).items| && ValueOf(c).items[i].Real? ==> Doubles.marshals(ValueOf(c).items[i].json)
  }
}
