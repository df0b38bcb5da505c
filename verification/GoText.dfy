/** The text functions of Go's standard library that the runner's formats rest on. */
module GoText {
  import opened References

  /** unicode.IsSpace. */
  predicate IsSpace(c: char) {
    || c in {'\t', '\n', '\r', ' ', '\U{B}', '\U{C}', '\U{85}', '\U{A0}', '\U{1680}'}
    || '\U{2000}' <= c <= '\U{200A}'
    || c in {'\U{2028}', '\U{2029}', '\U{202F}', '\U{205F}', '\U{3000}'}
  }

  function TrimLeft(s: string): string {
    if s != "" && IsSpace(s[0]) then TrimLeft(s[1..]) else s
  }

  function TrimRight(s: string): string {
    if s != "" && IsSpace(s[|s| - 1]) then TrimRight(s[..|s| - 1]) else s
  }

  /** strings.TrimSpace. */
  function TrimSpace(s: string): string {
    TrimRight(TrimLeft(s))
  }

  lemma {:induction false} TrimLeftStarts(s: string)
    ensures TrimLeft(s) == "" || !IsSpace(TrimLeft(s)[0])
    ensures |TrimLeft(s)| <= |s| && TrimLeft(s) == s[|s| - |TrimLeft(s)|..]
  {
    if s != "" && IsSpace(s[0]) { TrimLeftStarts(s[1..]); }
  }

  lemma {:induction false} TrimRightEnds(s: string)
    ensures TrimRight(s) == "" || !IsSpace(TrimRight(s)[|TrimRight(s)| - 1])
    ensures |TrimRight(s)| <= |s| && TrimRight(s) == s[..|TrimRight(s)|]
  {
    if s != "" && IsSpace(s[|s| - 1]) { TrimRightEnds(s[..|s| - 1]); }
  }

  /** Trimming twice is trimming once. */
  lemma {:induction false} TrimSpaceIdempotent(s: string)
    ensures TrimSpace(TrimSpace(s)) == TrimSpace(s)
    ensures TrimSpace(s) != "" ==> !IsSpace(TrimSpace(s)[0]) && !IsSpace(TrimSpace(s)[|TrimSpace(s)| - 1])
  {
    TrimLeftStarts(s);
    TrimRightEnds(TrimLeft(s));
  }

  /** The characters of s up to the first one for which the rest stops. */
  function FirstSpace(s: string): (i: nat)
    ensures i <= |s|
    ensures forall k :: 0 <= k < i ==> s[k] != ' '
    ensures i < |s| ==> s[i] == ' '
  {
    if s == "" || s[0] == ' ' then 0 else 1 + FirstSpace(s[1..])
  }

  /** strings.TrimLeft with spaces and tabs. */
  function TrimBlanks(s: string): string {
    if s != "" && s[0] in " \t" then TrimBlanks(s[1..]) else s
  }

  /** strings.TrimRight with line breaks. */
  function TrimBreaks(s: string): string {
    if s != "" && s[|s| - 1] in "\r\n" then TrimBreaks(s[..|s| - 1]) else s
  }

  lemma {:induction false} TrimBreaksEnds(s: string)
    ensures TrimBreaks(s) == "" || TrimBreaks(s)[|TrimBreaks(s)| - 1] !in "\r\n"
  {
    if s != "" && s[|s| - 1] in "\r\n" { TrimBreaksEnds(s[..|s| - 1]); }
  }

  predicate HasPrefix(s: string, prefix: string) {
    prefix <= s
  }

  // ---- Whole numbers

  predicate IsDigit(c: char) { '0' <= c <= '9' }

  predicate AllDigits(s: string) {
    forall i :: 0 <= i < |s| ==> IsDigit(s[i])
  }

  function DigitOf(n: nat): char
    requires n < 10
  {
    '0' + n as char
  }

  function Digits(n: nat): (s: string)
    ensures s != "" && AllDigits(s)
  {
    if n < 10 then [DigitOf(n)] else Digits(n / 10) + [DigitOf(n % 10)]
  }

  function DigitsValue(s: string): nat
    requires AllDigits(s)
  {
    if s == "" then 0 else 10 * DigitsValue(s[..|s| - 1]) + (s[|s| - 1] - '0') as nat
  }

  lemma {:induction false} DigitsRead(n: nat)
    ensures DigitsValue(Digits(n)) == n
  {
    if n >= 10 {
      DigitsRead(n / 10);
      assert Digits(n)[..|Digits(n)| - 1] == Digits(n / 10);
    }
  }

  predicate FitsInt(n: int) {
    -0x8000_0000_0000_0000 <= n <= 0x7fff_ffff_ffff_ffff
  }

  /** strconv.Itoa. */
  function Itoa(n: int): string {
    if n < 0 then "-" + Digits(-n) else Digits(n)
  }

  /** strconv.Atoi: an optional sign and decimal digits, within 64 bits. */
  function Atoi(s: string): Option<int> {
    var signed := s != "" && s[0] in "+-";
    var digits := if signed then s[1..] else s;
    if digits == "" || !AllDigits(digits) then None
    else
      var magnitude: int := DigitsValue(digits);
      var value := if signed && s[0] == '-' then -magnitude else magnitude;
      if FitsInt(value) then Some(value) else None
  }

  lemma {:induction false} ItoaRoundTrip(n: int)
    requires FitsInt(n)
    ensures Atoi(Itoa(n)) == Some(n) && Itoa(n) != ""
    ensures forall i :: 0 <= i < |Itoa(n)| ==> IsDigit(Itoa(n)[i]) || Itoa(n)[i] == '-'
  {
    DigitsRead(if n < 0 then -n else n);
  }

  // ---- Quoted strings

  /** strconv.IsPrint, without the tables between Latin-1 and the special planes. */
  predicate IsPrint(c: char) {
    ' ' <= c <= '~' || ('\U{A1}' <= c < '\U{E0000}' && c != '\U{AD}')
  }

  function HexDigit(n: nat): char
    requires n < 16
  {
    "0123456789abcdef"[n]
  }

  function HexDigitValue(c: char): Option<nat> {
    if '0' <= c <= '9' then Some((c - '0') as nat)
    else if 'a' <= c <= 'f' then Some((c - 'a') as nat + 10)
    else if 'A' <= c <= 'F' then Some((c - 'A') as nat + 10)
    else None
  }

  function Hex(n: nat, width: nat): (s: string)
    ensures |s| == width
  {
    if width == 0 then "" else Hex(n / 16, width - 1) + [HexDigit(n % 16)]
  }

  function HexValue(s: string): Option<nat> {
    if s == "" then Some(0)
    else
      var front, last := HexValue(s[..|s| - 1]), HexDigitValue(s[|s| - 1]);
      if front.Some? && last.Some? then Some(16 * front.value + last.value) else None
  }

  function Power16(width: nat): nat {
    if width == 0 then 1 else 16 * Power16(width - 1)
  }

  lemma {:induction false} HexRead(n: nat, width: nat)
    requires n < Power16(width)
    ensures HexValue(Hex(n, width)) == Some(n)
  {
    if width > 0 {
      var p := Power16(width - 1);
      assert n < 16 * p;
      assert n / 16 < p && n == 16 * (n / 16) + n % 16;
      HexRead(n / 16, width - 1);
      assert Hex(n, width)[..width - 1] == Hex(n / 16, width - 1);
    }
  }

  /** The letter escapes. */
  const Letters: map<char, char> :=
    map['a' := '\U{7}', 'b' := '\U{8}', 'f' := '\U{C}', 'n' := '\n', 'r' := '\r', 't' := '\t', 'v' := '\U{B}', '\\' := '\\', '"' := '"']

  function LetterFor(c: char): Option<char> {
    if c == '\U{7}' then Some('a') else if c == '\U{8}' then Some('b') else if c == '\U{C}' then Some('f')
    else if c == '\n' then Some('n') else if c == '\r' then Some('r') else if c == '\t' then Some('t')
    else if c == '\U{B}' then Some('v') else if c == '\\' then Some('\\') else if c == '"' then Some('"')
    else None
  }

  function EscapeChar(c: char): string {
    if LetterFor(c).Some? then ['\\', LetterFor(c).value]
    else if IsPrint(c) then [c]
    else if c < ' ' || c == '\U{7F}' then "\\x" + Hex(c as nat, 2)
    else if c < '\U{10000}' then "\\u" + Hex(c as nat, 4)
    else "\\U" + Hex(c as nat, 8)
  }

  function Escape(s: string): string {
    if s == "" then "" else EscapeChar(s[0]) + Escape(s[1..])
  }

  /** strconv.Quote. */
  function Quote(s: string): string {
    "\"" + Escape(s) + "\""
  }

  /** The character an escape of this many hex digits stands for. */
  function HexEscape(s: string, width: nat, below: nat): Option<(char, nat)> {
    if |s| < width + 2 then None
    else
      var value := HexValue(s[2..width + 2]);
      if value.Some? && value.value < below && (value.value < 0xD800 || 0xE000 <= value.value < 0x11_0000)
      then Some((value.value as char, width + 2)) else None
  }

  /** The escape sequence at the start of s: its character and its length. */
  function ReadEscape(s: string): (r: Option<(char, nat)>)
    ensures r.Some? ==> 2 <= r.value.1 <= |s|
  {
    if |s| < 2 then None
    else if s[1] in Letters then Some((Letters[s[1]], 2))
    else if s[1] == 'x' then HexEscape(s, 2, 0x80)
    else if s[1] == 'u' then HexEscape(s, 4, 0x1_0000)
    else if s[1] == 'U' then HexEscape(s, 8, 0x11_0000)
    else None
  }

  /** strconv.QuotedPrefix and Unquote after the opening quote: the text and what follows the closing quote. */
  function ReadQuoted(s: string): Option<(string, string)>
    decreases |s|
  {
    if s == "" || s[0] == '\n' then None
    else if s[0] == '"' then Some(("", s[1..]))
    else if s[0] == '\\' then
      var head := ReadEscape(s);
      if head.None? then None
      else
        var tail := ReadQuoted(s[head.value.1..]);
        if tail.None? then None else Some(([head.value.0] + tail.value.0, tail.value.1))
    else
      var tail := ReadQuoted(s[1..]);
      if tail.None? then None else Some(([s[0]] + tail.value.0, tail.value.1))
  }

  lemma {:induction false} EscapeCharRead(c: char, rest: string)
    requires EscapeChar(c) != [c]
    ensures EscapeChar(c)[0] == '\\'
    ensures ReadEscape(EscapeChar(c) + rest) == Some((c, |EscapeChar(c)|))
  {
    if LetterFor(c).Some? {
    } else if c < ' ' || c == '\U{7F}' {
      HexEscapeRead("\\x", c, 2, 0x80, rest);
    } else if c < '\U{10000}' {
      HexEscapeRead("\\u", c, 4, 0x1_0000, rest);
    } else {
      HexEscapeRead("\\U", c, 8, 0x11_0000, rest);
    }
  }

  lemma {:induction false} HexEscapeRead(start: string, c: char, width: nat, below: nat, rest: string)
    requires |start| == 2 && c as nat < below && (width == 2 || width == 4 || width == 8) && below <= Power(width)
    ensures HexEscape(start + Hex(c as nat, width) + rest, width, below) == Some((c, width + 2))
  {
    PowersAgree();
    HexRead(c as nat, width);
    var all := start + Hex(c as nat, width) + rest;
    assert all[2..width + 2] == Hex(c as nat, width);
  }

  function Power(width: nat): nat {
    if width == 2 then 0x100 else if width == 4 then 0x1_0000 else if width == 8 then 0x1_0000_0000 else 0
  }

  lemma {:induction false} PowersAgree()
    ensures Power16(2) == 0x100 && Power16(4) == 0x1_0000 && Power16(8) == 0x1_0000_0000
  {
    assert Power16(4) == 0x1_0000;
    assert Power16(6) == 0x100_0000;
  }

  lemma {:induction false} QuotedRead(s: string, rest: string)
    ensures ReadQuoted(Escape(s) + "\"" + rest) == Some((s, rest))
  {
    if s == "" {
      assert Escape(s) + "\"" + rest == ['"'] + rest;
    } else {
      var e, more := EscapeChar(s[0]), Escape(s[1..]) + "\"" + rest;
      QuotedRead(s[1..], rest);
      assert Escape(s) + "\"" + rest == e + more;
      assert (e + more)[|e|..] == more;
      if e == [s[0]] {
        assert LetterFor(s[0]).None?;
        assert (e + more)[0] == s[0] && [s[0]] + s[1..] == s;
        assert ReadQuoted(e + more) == Some(([s[0]] + s[1..], rest));
      } else {
        EscapeCharRead(s[0], more);
        assert [s[0]] + s[1..] == s;
      }
    }
  }

  // ---- Fields

  /** The length of the first run of characters that are not spaces. */
  function TokenLength(s: string): (n: nat)
    ensures n <= |s|
    ensures forall i :: 0 <= i < n ==> !IsSpace(s[i])
    ensures n < |s| ==> IsSpace(s[n])
  {
    if s == "" || IsSpace(s[0]) then 0 else 1 + TokenLength(s[1..])
  }

  lemma {:induction false} TrimLeftShorter(s: string)
    ensures |TrimLeft(s)| <= |s| && (TrimLeft(s) != "" ==> TokenLength(TrimLeft(s)) > 0)
  {
    if s != "" && IsSpace(s[0]) { TrimLeftShorter(s[1..]); }
  }

  /** strings.Fields. */
  function SplitFields(s: string): seq<string>
    decreases |s|
  {
    TrimLeftShorter(s);
    var t := TrimLeft(s);
    if t == "" then [] else [t[..TokenLength(t)]] + SplitFields(t[TokenLength(t)..])
  }

  predicate IsToken(s: string) {
    s != "" && forall i :: 0 <= i < |s| ==> !IsSpace(s[i])
  }

  lemma {:induction false} FieldsAreTokens(s: string)
    ensures forall i :: 0 <= i < |SplitFields(s)| ==> IsToken(SplitFields(s)[i])
    decreases |s|
  {
    TrimLeftShorter(s);
    var t := TrimLeft(s);
    if t != "" { FieldsAreTokens(t[TokenLength(t)..]); }
  }

  lemma {:induction false} TokenRuns(token: string, rest: string)
    requires IsToken(token) && (rest == "" || IsSpace(rest[0]))
    ensures TokenLength(token + rest) == |token|
  {
    assert (token + rest)[1..] == token[1..] + rest;
    if |token| > 1 {
      TokenRuns(token[1..], rest);
    } else {
      assert token[1..] + rest == rest;
    }
  }

  /** Two tokens and a space between them are split apart again. */
  lemma {:induction false} TwoFields(a: string, b: string)
    requires IsToken(a) && IsToken(b)
    ensures SplitFields(a + " " + b) == [a, b]
  {
    var all := a + " " + b;
    assert all == a + (" " + b);
    TokenRuns(a, " " + b);
    assert all[..|a|] == a && all[|a|..] == " " + b;
    assert (" " + b)[1..] == b && TrimLeft(" " + b) == TrimLeft(b) == b;
    assert b + "" == b;
    TokenRuns(b, "");
    assert b[..|b|] == b && b[|b|..] == "";
    assert SplitFields(" " + b) == [b] + SplitFields("");
  }
}
