/** Dotted data references: "node.output", "variable", and paths that walk into a value. */
module References {

  datatype Option<+T> = None | Some(value: T) {
    predicate IsFailure() { None? }

    function PropagateFailure<U>(): Option<U>
      requires None?
    {
      None
    }

    function Extract(): T
      requires Some?
    {
      value
    }
  }

  /** A condition that ends an Option-valued computation when it does not hold. */
  datatype Guard = Pass | Stop {
    predicate IsFailure() { Stop? }

    function PropagateFailure<U>(): Option<U>
      requires Stop?
    {
      None
    }
  }

  function Need(condition: bool): Guard {
    if condition then Pass else Stop
  }

  /** A decoded JSON-like value. Typed Go containers walk the same way as the generic ones. */
  datatype Value = Leaf(text: string) | Items(items: seq<Value>) | Fields(fields: map<string, Value>)

  /** Index of the first dot, or the length when there is none. */
  function FirstDot(s: string): (i: nat)
    ensures i <= |s|
    ensures forall k :: 0 <= k < i ==> s[k] != '.'
    ensures i < |s| ==> s[i] == '.'
  {
    if s == "" || s[0] == '.' then 0 else 1 + FirstDot(s[1..])
  }

  /** Index of the last dot, or -1. */
  function LastDot(s: string): (i: int)
    ensures -1 <= i < |s|
    ensures i >= 0 ==> s[i] == '.'
    ensures forall k :: i < k < |s| ==> s[k] != '.'
  {
    if s == "" then -1
    else if s[|s| - 1] == '.' then |s| - 1
    else LastDot(s[..|s| - 1])
  }

  /** "a.b" is output b of node a; a reference without a dot is the flow input of that name. */
  function ParseDataRef(ref: string): (parts: (string, string))
    ensures '.' in ref ==> ref == parts.0 + "." + parts.1 && '.' !in parts.0
    ensures '.' !in ref ==> parts == ("", ref)
  {
    var i := FirstDot(ref);
    if i < |ref| then (ref[..i], ref[i + 1..]) else ("", ref)
  }

  /** The prefixes a dotted path can be rooted at: the whole path, and every non-empty cut at a dot. */
  predicate IsRoot(ref: string, root: string) {
    || root == ref
    || (0 < |root| < |ref| && ref[..|root|] == root && ref[|root|] == '.')
  }

  ghost predicate Rooted(ref: string, keys: set<string>) {
    exists root :: root in keys && IsRoot(ref, root)
  }

  /** A root of a cut at the last dot is a root of the whole, and the only roots lost are the whole. */
  lemma {:induction false} RootsOfCut(ref: string, root: string)
    ensures LastDot(ref) > 0 ==> (IsRoot(ref, root) <==> root == ref || IsRoot(ref[..LastDot(ref)], root))
    ensures LastDot(ref) <= 0 ==> (IsRoot(ref, root) <==> root == ref)
  {
    var d := LastDot(ref);
    if d > 0 {
      var cut := ref[..d];
      if IsRoot(ref, root) && root != ref {
        assert |root| <= d;
        if |root| < d { assert cut[..|root|] == ref[..|root|]; }
      }
      if IsRoot(cut, root) {
        if root == cut { assert ref[..|root|] == root; }
        else { assert cut[..|root|] == ref[..|root|]; }
      }
    }
  }

  /** Cuts the path at its dots, right to left, until a cut names a key. */
  method HasPathRoot(ref: string, keys: set<string>) returns (found: bool)
    ensures found <==> Rooted(ref, keys)
  {
    var candidate := ref;
    while true
      invariant forall root :: root in keys && IsRoot(ref, root) ==> IsRoot(candidate, root)
      invariant forall root :: IsRoot(candidate, root) ==> IsRoot(ref, root)
      decreases |candidate|
    {
      if candidate in keys { return true; }
      var end := LastDot(candidate);
      forall root ensures end > 0 ==> (IsRoot(candidate, root) <==> root == candidate || IsRoot(candidate[..end], root))
                  ensures end <= 0 ==> (IsRoot(candidate, root) <==> root == candidate)
      {
        RootsOfCut(candidate, root);
      }
      if end <= 0 { return false; }
      candidate := candidate[..end];
    }
  }

  function SplitDots(s: string): (parts: seq<string>)
    ensures |parts| > 0
    decreases |s|
  {
    var i := FirstDot(s);
    if i < |s| then [s[..i]] + SplitDots(s[i + 1..]) else [s]
  }

  /** strconv.Atoi of a list index: an optional sign and decimal digits. */
  function ListIndex(segment: string): (i: Option<int>)
  {
    if segment == "" then None
    else if segment[0] == '-' then
      match Digits(segment[1..]) case Some(n) => (var m: int := n; Some(-m)) case None => None
    else
      match Digits(if segment[0] == '+' then segment[1..] else segment) case Some(n) => (var m: int := n; Some(m)) case None => None
  }

  function Digits(s: string): (n: Option<nat>)
  {
    if s == "" then None
    else if !('0' <= s[|s| - 1] <= '9') then None
    else
      var d := (s[|s| - 1] as int - '0' as int) as nat;
      if |s| == 1 then Some(d)
      else match Digits(s[..|s| - 1]) case Some(n) => Some(10 * n + d) case None => None
  }

  /** Steps into a value: object fields by name, list elements by index. */
  function WalkPath(value: Value, segments: seq<string>): (r: Option<Value>)
    decreases |segments|
  {
    if segments == [] then Some(value)
    else match value
      case Fields(fields) =>
        if segments[0] in fields then WalkPath(fields[segments[0]], segments[1..]) else None
      case Items(items) =>
        var index := ListIndex(segments[0]);
        if index.Some? && 0 <= index.value < |items| then WalkPath(items[index.value], segments[1..]) else None
      case Leaf(_) => None
  }

  /** The longest root that is a key wins, and the rest of the path walks into its value. */
  function LookupPath(ref: string, outputs: map<string, Value>): (r: Option<Value>)
    ensures ref in outputs ==> r == Some(outputs[ref])
    ensures !Rooted(ref, outputs.Keys) ==> r == None
  {
    LookupCut(ref, |ref|, outputs)
  }

  function LookupCut(ref: string, end: nat, outputs: map<string, Value>): (r: Option<Value>)
    requires end <= |ref| && IsRoot(ref, ref[..end])
    ensures end == |ref| && ref in outputs ==> r == Some(outputs[ref])
    ensures !Rooted(ref, outputs.Keys) ==> r == None
    decreases end
  {
    if ref[..end] in outputs then
      assert end == |ref| ==> ref[..end] == ref;
      if end == |ref| then Some(outputs[ref[..end]])
      else WalkPath(outputs[ref[..end]], SplitDots(ref[end + 1..]))
    else
      var d := LastDot(ref[..end]);
      if d <= 0 then None else LookupCut(ref, d, outputs)
  }
}
