/** Which value a dotted path names: the longest root, the cut at the dots, the members and the elements. */
module Lookups {
  import opened References
  import opened Graphs
  import opened Flows
  import G = GoText

  // ---- The parts of a path

  function Joined(parts: seq<string>): string
    requires parts != []
  {
    if |parts| == 1 then parts[0] else parts[0] + "." + Joined(parts[1..])
  }

  predicate Undotted(parts: seq<string>) {
    forall i :: 0 <= i < |parts| ==> '.' !in parts[i]
  }

  lemma {:induction false} FirstDotAt(a: string, b: string)
    requires '.' !in a
    ensures FirstDot(a + "." + b) == |a|
  {
    var s := a + "." + b;
    assert s[|a|] == '.';
    forall k | 0 <= k < |a| ensures s[k] != '.' { assert s[k] == a[k]; }
  }

  lemma {:induction false} NoDot(s: string)
    requires '.' !in s
    ensures FirstDot(s) == |s|
  {
  }

  lemma {:induction false} UndottedTail(parts: seq<string>)
    requires parts != [] && Undotted(parts)
    ensures Undotted(parts[1..])
  {
  }

  /** Splitting takes off the part before the first dot. */
  lemma {:induction false} SplitStep(a: string, rest: string)
    requires '.' !in a
    ensures SplitDots(a + "." + rest) == [a] + SplitDots(rest)
  {
    FirstDotAt(a, rest);
    var s := a + "." + rest;
    assert s[..|a|] == a && s[|a| + 1..] == rest;
  }

  /** Splitting is the only way to write a path as parts without dots. */
  lemma {:induction false} SplitOfJoin(parts: seq<string>)
    requires parts != [] && Undotted(parts)
    ensures SplitDots(Joined(parts)) == parts
  {
    if |parts| == 1 {
      NoDot(parts[0]);
    } else {
      UndottedTail(parts);
      SplitOfJoin(parts[1..]);
      SplitStep(parts[0], Joined(parts[1..]));
    }
  }

  lemma {:induction false} JoinOfSplit(s: string)
    ensures Joined(SplitDots(s)) == s && Undotted(SplitDots(s))
    decreases |s|
  {
    var i := FirstDot(s);
    if i < |s| {
      JoinOfSplit(s[i + 1..]);
      assert SplitDots(s)[1..] == SplitDots(s[i + 1..]);
      assert s == s[..i] + "." + s[i + 1..];
    }
  }

  // ---- The index of an element

  lemma {:induction false} DigitsAreRead(s: string)
    ensures Digits(s) == if s != "" && G.AllDigits(s) then Some(G.DigitsValue(s)) else None
  {
    if s != "" {
      var init := s[..|s| - 1];
      DigitsAreRead(init);
      assert s == init + [s[|s| - 1]];
      assert G.AllDigits(s) <==> G.AllDigits(init) && G.IsDigit(s[|s| - 1]);
      if |s| == 1 { assert init == ""; }
    }
  }

  /** An index is read back from its decimal digits, with or without a sign; nothing else is an index. */
  lemma {:induction false} IndexIsRead(n: nat)
    ensures ListIndex(G.Itoa(n)) == Some(n)
    ensures ListIndex("+" + G.Digits(n)) == Some(n) && ListIndex("-" + G.Digits(n)) == Some(0 - n)
  {
    DigitsAreRead(G.Digits(n));
    G.DigitsRead(n);
    assert G.IsDigit(G.Digits(n)[0]);
    assert ("+" + G.Digits(n))[1..] == G.Digits(n) && ("-" + G.Digits(n))[1..] == G.Digits(n);
  }

  lemma {:induction false} OnlyDigitsAreAnIndex(s: string)
    requires ListIndex(s).Some?
    ensures s != "" && (G.AllDigits(s) || (s[0] in "+-" && G.AllDigits(s[1..]) && s != [s[0]]))
  {
    DigitsAreRead(s);
    DigitsAreRead(s[1..]);
  }

  // ---- Members and elements

  datatype Step = Member(name: string) | Element(index: nat)

  function Spelled(step: Step): string {
    match step
    case Member(name) => name
    case Element(index) => G.Itoa(index)
  }

  function SpelledAll(path: seq<Step>): (r: seq<string>)
    ensures |r| == |path|
    ensures forall i :: 0 <= i < |path| ==> r[i] == Spelled(path[i])
  {
    if path == [] then [] else [Spelled(path[0])] + SpelledAll(path[1..])
  }

  ghost predicate StepsTo(value: Value, step: Step, next: Value) {
    match step
    case Member(name) => value.Fields? && name in value.fields && next == value.fields[name]
    case Element(index) => value.Items? && index < |value.items| && next == value.items[index]
  }

  /** The values passed on the way from one value to another. */
  ghost predicate Leads(values: seq<Value>, path: seq<Step>) {
    && |values| == |path| + 1
    && forall i :: 0 <= i < |path| ==> StepsTo(values[i], path[i], values[i + 1])
  }

  lemma {:induction false} StepIsTaken(value: Value, step: Step, next: Value, rest: seq<string>)
    requires StepsTo(value, step, next)
    ensures WalkPath(value, [Spelled(step)] + rest) == WalkPath(next, rest)
  {
    var all := [Spelled(step)] + rest;
    assert all[1..] == rest;
    if step.Element? { IndexIsRead(step.index); }
  }

  /** Walking the spelling of a path arrives where the path leads. */
  lemma {:induction false} WalkArrives(values: seq<Value>, path: seq<Step>)
    requires Leads(values, path)
    ensures WalkPath(values[0], SpelledAll(path)) == Some(values[|path|])
    decreases |path|
  {
    if path != [] {
      assert Leads(values[1..], path[1..]) by {
        forall i | 0 <= i < |path[1..]| ensures StepsTo(values[1..][i], path[1..][i], values[1..][i + 1]) {
          assert StepsTo(values[i + 1], path[i + 1], values[i + 2]);
        }
      }
      WalkArrives(values[1..], path[1..]);
      StepIsTaken(values[0], path[0], values[1], SpelledAll(path[1..]));
    }
  }

  /** Every step of a walk that arrives is a member of that name or the element at that index. */
  lemma {:induction false} WalkTakesASegment(value: Value, segments: seq<string>)
    requires segments != [] && WalkPath(value, segments).Some?
    ensures exists step, next ::
      && StepsTo(value, step, next)
      && (step == Member(segments[0]) || (step.Element? && ListIndex(segments[0]) == Some(step.index)))
      && WalkPath(value, segments) == WalkPath(next, segments[1..])
  {
    if value.Fields? {
      assert StepsTo(value, Member(segments[0]), value.fields[segments[0]]);
    } else {
      var k: nat := ListIndex(segments[0]).value;
      assert StepsTo(value, Element(k), value.items[k]);
    }
  }

  // ---- The root

  /** No key that is a longer cut of the path. */
  ghost predicate LongestRoot(ref: string, root: string, keys: set<string>) {
    && root in keys && IsRoot(ref, root)
    && forall other :: other in keys && IsRoot(ref, other) ==> |other| <= |root|
  }

  lemma {:induction false} CutAbove(ref: string, end: nat, root: string)
    requires end <= |ref| && IsRoot(ref, ref[..end]) && IsRoot(ref, root) && |root| < end
    ensures 0 < LastDot(ref[..end]) && |root| <= LastDot(ref[..end]) && IsRoot(ref, ref[..LastDot(ref[..end])])
  {
    var cut := ref[..end];
    assert cut[|root|] == '.';
    var d := LastDot(cut);
    assert cut[d] == ref[d];
    assert ref[..d] == cut[..d];
  }

  lemma {:induction false} CutFindsRoot(ref: string, end: nat, root: string, outputs: map<string, Value>)
    requires end <= |ref| && IsRoot(ref, ref[..end])
    requires LongestRoot(ref, root, outputs.Keys) && |root| <= end
    ensures |root| == |ref| ==> LookupCut(ref, end, outputs) == Some(outputs[root])
    ensures |root| < |ref| ==> LookupCut(ref, end, outputs) == WalkPath(outputs[root], SplitDots(ref[|root| + 1..]))
    decreases end
  {
    assert ref[..|root|] == root by { if root == ref { assert ref[..|ref|] == ref; } }
    if ref[..end] in outputs {
      assert |ref[..end]| == end;
      assert end == |root|;
      assert ref[..end] == root;
    } else {
      assert end != |root|;
      CutAbove(ref, end, root);
      CutFindsRoot(ref, LastDot(ref[..end]), root, outputs);
    }
  }

  /** The longest root that is a key is the value the rest of the path walks into. */
  lemma {:induction false} LongestRootWins(ref: string, root: string, outputs: map<string, Value>)
    requires LongestRoot(ref, root, outputs.Keys)
    ensures root == ref ==> LookupPath(ref, outputs) == Some(outputs[root])
    ensures root != ref ==> LookupPath(ref, outputs) == WalkPath(outputs[root], SplitDots(ref[|root| + 1..]))
  {
    assert ref[..|ref|] == ref;
    CutFindsRoot(ref, |ref|, root, outputs);
    if |root| == |ref| { assert ref[..|root|] == root; }
  }

  /** A path to a member or element of an output names that very value. */
  lemma {:induction false} PathNamesItsValue(root: string, path: seq<Step>, values: seq<Value>, outputs: map<string, Value>)
    requires path != [] && Undotted(SpelledAll(path)) && Leads(values, path)
    requires LongestRoot(root + "." + Joined(SpelledAll(path)), root, outputs.Keys) && outputs[root] == values[0]
    ensures LookupPath(root + "." + Joined(SpelledAll(path)), outputs) == Some(values[|path|])
  {
    var rest := Joined(SpelledAll(path));
    var ref := root + "." + rest;
    LongestRootWins(ref, root, outputs);
    assert ref[|root| + 1..] == rest;
    SplitOfJoin(SpelledAll(path));
    WalkArrives(values, path);
  }

  // ---- References

  lemma {:induction false} SplitAtFirstDot(a: string, k: string)
    requires '.' !in a
    ensures ParseDataRef(a + "." + k) == (a, k)
  {
    FirstDotAt(a, k);
    var ref := a + "." + k;
    assert ref[..|a|] == a && ref[|a| + 1..] == k;
  }

  /** A node that published owns its dotted references, whatever the flow inputs are called. */
  lemma {:induction false} PublishedNodeOwns(a: string, k: string, view: View)
    requires "" in view && '.' !in a && a in view
    ensures InputPresent(a + "." + k, view) <==> LookupPath(k, view[a]).Some?
    ensures InputPresent(a + "." + k, view) ==> Some(InputValue(a + "." + k, view)) == LookupPath(k, view[a])
  {
    SplitAtFirstDot(a, k);
  }

  /** Where the node has published nothing, the reference is a path into the flow inputs or nothing. */
  lemma {:induction false} OtherwiseFlowInput(a: string, k: string, view: View)
    requires "" in view && '.' !in a && a !in view
    ensures InputPresent(a + "." + k, view) <==> LookupPath(a + "." + k, view[""]).Some?
    ensures InputPresent(a + "." + k, view) ==> Some(InputValue(a + "." + k, view)) == LookupPath(a + "." + k, view[""])
  {
    SplitAtFirstDot(a, k);
  }

  /** A reference without a dot is the flow input of that name. */
  lemma {:induction false} UndottedIsFlowInput(name: string, view: View)
    requires "" in view && '.' !in name
    ensures InputPresent(name, view) <==> name in view[""]
    ensures InputPresent(name, view) ==> InputValue(name, view) == view[""][name]
  {
    if Rooted(name, view[""].Keys) {
      var root :| root in view[""].Keys && IsRoot(name, root);
      assert root == name;
    }
  }

  /** The outputs a node sees are the flow inputs and what the ended nodes published. */
  lemma {:induction false} ViewIsWhatWasPublished(inputs: map<string, Value>, facts: map<Id, Verdict>, a: string)
    ensures ViewOf(inputs, facts)[""] == inputs
    ensures a != "" ==> (a in ViewOf(inputs, facts) <==> a in facts && facts[a].published.Some?)
    ensures a != "" && a in ViewOf(inputs, facts) ==> Some(ViewOf(inputs, facts)[a]) == facts[a].published
  {
  }
}
