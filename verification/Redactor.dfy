/** Which values a run masks, and the walk that masks a report. */
module Redactor {
  import opened References
  import opened Masking

  const MinLearnedLength := 6
  const MaxLearnedValues := 500

  /** A decoded report; numbers keep their literal. */
  datatype Tree = Bare(text: string) | Num(literal: string) | Str(s: string) | Arr(items: seq<Tree>) | Obj(fields: map<string, Tree>)

  /** The values masked by value, and what is masked by name because a value of it cannot be. */
  datatype SecretSet = SecretSet(secrets: seq<string>, learned: set<string>, withheld: set<string>, sealed: set<string>)

  function OutputRef(node: string, name: string): string { node + "." + name }

  function InsertLongest(secrets: seq<string>, s: string): seq<string> {
    if secrets == [] || |secrets[0]| < |s| then [s] + secrets else [secrets[0]] + InsertLongest(secrets[1..], s)
  }

  /** The sort by length of newSecretSet; which of two secrets of one length comes first does not matter below. */
  function SortLongest(secrets: seq<string>): seq<string> {
    if secrets == [] then [] else InsertLongest(SortLongest(secrets[..|secrets| - 1]), secrets[|secrets| - 1])
  }

  lemma {:induction false} InsertKeeps(secrets: seq<string>, s: string)
    ensures forall x :: x in InsertLongest(secrets, s) <==> x == s || x in secrets
    ensures LongestFirst(secrets) ==> LongestFirst(InsertLongest(secrets, s))
  {
    if secrets != [] && |secrets[0]| >= |s| {
      InsertKeeps(secrets[1..], s);
      var rest := InsertLongest(secrets[1..], s);
      assert secrets == [secrets[0]] + secrets[1..];
      if LongestFirst(secrets) {
        forall x | x in rest ensures |secrets[0]| >= |x| {
          if x in secrets[1..] {
            var k :| 0 <= k < |secrets[1..]| && secrets[1..][k] == x;
            assert |secrets[0]| >= |secrets[k + 1]|;
          }
        }
        forall i, j | 0 <= i < j < |[secrets[0]] + rest| ensures |([secrets[0]] + rest)[i]| >= |([secrets[0]] + rest)[j]| {
          if i == 0 { assert rest[j - 1] in rest; }
        }
      }
    }
  }

  /** The sorted list holds the same secrets, longest first. */
  lemma {:induction false} SortKeeps(secrets: seq<string>)
    ensures LongestFirst(SortLongest(secrets)) && forall x :: x in SortLongest(secrets) <==> x in secrets
  {
    if secrets != [] {
      var front, last := secrets[..|secrets| - 1], secrets[|secrets| - 1];
      SortKeeps(front);
      InsertKeeps(SortLongest(front), last);
      assert secrets == front + [last];
    }
  }

  /** The leaves masked by value from now on, and whether one of them cannot be. */
  method Sift(known: set<string>, learned: nat, leaves: seq<string>) returns (added: seq<string>, withhold: bool)
    requires AllFilled(leaves) && learned <= MaxLearnedValues
    ensures AllFilled(added) && |Members(added)| == |added| && learned + |added| <= MaxLearnedValues
    ensures Members(added) <= Members(leaves) && Members(added) !! known && LongEnough(Members(added))
    ensures withhold <==> !(Members(leaves) <= known + Members(added))
    ensures forall x :: x in leaves && x !in known && x !in added ==> |x| < MinLearnedLength || learned + |added| == MaxLearnedValues
  {
    added, withhold := [], false;
    for i := 0 to |leaves|
      invariant AllFilled(added) && |Members(added)| == |added| && learned + |added| <= MaxLearnedValues
      invariant forall x :: x in added ==> x in leaves && x !in known && |x| >= MinLearnedLength
      invariant withhold <==> exists j :: 0 <= j < i && leaves[j] !in known && leaves[j] !in added
      invariant forall j :: 0 <= j < i && leaves[j] !in known && leaves[j] !in added ==>
        |leaves[j]| < MinLearnedLength || learned + |added| == MaxLearnedValues
    {
      var text := leaves[i];
      if text in known || text in added { continue; }
      if |text| < MinLearnedLength || learned + |added| >= MaxLearnedValues {
        withhold := true;
        continue;
      }
      assert Members(added + [text]) == Members(added) + {text};
      added := added + [text];
    }
  }

  /** What is known is what is masked by value; learned values are counted, long enough, and capped. */
  ghost predicate Consistent(known: set<string>, learned: nat, current: SecretSet) {
    && known == Members(current.secrets) && AllFilled(current.secrets) && LongestFirst(current.secrets)
    && learned == |current.learned| <= MaxLearnedValues && current.learned <= known && LongEnough(current.learned)
  }

  ghost function Members(s: seq<string>): set<string> { set x | x in s }

  /**
   * The output is withheld and its node sealed exactly when some leaf is not masked by value afterwards, and every such
   * leaf is too short or comes after as many values were learned as may be.
   */
  ghost predicate LearnsExactly(known: set<string>, current: SecretSet, known': set<string>, next: SecretSet,
                                leaves: seq<string>, ref: string, node: string) {
    && next.withheld == current.withheld + (if Members(leaves) <= known' then {} else {ref})
    && next.sealed == current.sealed + (if Members(leaves) <= known' then {} else {node})
    && (forall x :: x in leaves && x !in known' ==> |x| < 6 || |next.learned| == 500)
    && current.learned <= next.learned && known' == known + (next.learned - current.learned)
  }

  lemma {:induction false} AdoptLearnsExactly(known: set<string>, learned: nat, current: SecretSet, next: SecretSet, added: seq<string>,
                                              leaves: seq<string>, ref: string, node: string, withhold: bool)
    requires Consistent(known, learned, current) && Adopts(current, next, added, ref, node, withhold)
    requires Consistent(known + Members(added), learned + |added|, next) && Members(added) !! known
    requires withhold <==> !(Members(leaves) <= known + Members(added))
    requires forall x :: x in leaves && x !in known && x !in added ==> |x| < MinLearnedLength || learned + |added| == MaxLearnedValues
    ensures LearnsExactly(known, current, known + Members(added), next, leaves, ref, node)
  {
    assert next.learned - current.learned == Members(added);
  }

  lemma {:induction false} SameLearnsExactly(known: set<string>, current: SecretSet, leaves: seq<string>, ref: string, node: string)
    requires Members(leaves) <= known
    ensures LearnsExactly(known, current, known, current, leaves, ref, node)
  {
    forall x | x in leaves ensures x in known { assert x in Members(leaves); }
  }

  ghost predicate LongEnough(learned: set<string>) {
    forall x :: x in learned ==> |x| >= MinLearnedLength
  }

  /** The next snapshot adds the values to what is masked, and the output to what is withheld. */
  ghost predicate Adopts(current: SecretSet, next: SecretSet, added: seq<string>, ref: string, node: string, withhold: bool) {
    && Members(next.secrets) == Members(current.secrets) + Members(added) && AllFilled(next.secrets) && LongestFirst(next.secrets)
    && next.learned == current.learned + Members(added)
    && next.withheld == current.withheld + (if withhold then {ref} else {})
    && next.sealed == current.sealed + (if withhold then {node} else {})
  }

  lemma {:induction false} AdoptKeeps(known: set<string>, learned: nat, current: SecretSet, next: SecretSet,
                                      added: seq<string>, ref: string, node: string, withhold: bool)
    requires Consistent(known, learned, current) && Adopts(current, next, added, ref, node, withhold)
    requires |Members(added)| == |added| && learned + |added| <= MaxLearnedValues
    requires Members(added) !! known && LongEnough(Members(added))
    ensures Consistent(known + Members(added), learned + |added|, next)
  {
    CountsAdd(current.learned, added, known);
  }

  /** Every leaf is masked by value or its output withheld, and nothing stops being masked. */
  ghost predicate FailsClosed(known: set<string>, current: SecretSet, known': set<string>, next: SecretSet,
                              leaves: seq<string>, ref: string, node: string) {
    && known <= known' && current.withheld <= next.withheld && current.sealed <= next.sealed
    && (Members(leaves) <= known' || (ref in next.withheld && node in next.sealed))
    && known' - known <= Members(leaves) * next.learned
    && next.withheld <= current.withheld + {ref} && next.sealed <= current.sealed + {node}
  }

  lemma {:induction false} AdoptFailsClosed(known: set<string>, current: SecretSet, next: SecretSet, added: seq<string>,
                                            leaves: seq<string>, ref: string, node: string, withhold: bool)
    requires Adopts(current, next, added, ref, node, withhold) && Members(added) <= Members(leaves)
    requires !withhold ==> Members(leaves) <= known + Members(added)
    ensures FailsClosed(known, current, known + Members(added), next, leaves, ref, node)
  {
  }

  lemma {:induction false} SameFailsClosed(known: set<string>, current: SecretSet, leaves: seq<string>, ref: string, node: string)
    requires Members(leaves) <= known
    ensures FailsClosed(known, current, known, current, leaves, ref, node)
  {
  }

  lemma {:induction false} CountsAdd(learned: set<string>, added: seq<string>, known: set<string>)
    requires learned <= known && |Members(added)| == |added| && Members(added) !! known
    ensures |learned + Members(added)| == |learned| + |added|
  {
    assert learned !! Members(added);
  }

  class Redactor {
    var known: set<string>
    var learned: nat
    var current: SecretSet

    ghost predicate Valid()
      reads this
    {
      Consistent(known, learned, current)
    }

    constructor (secrets: seq<string>)
      requires AllFilled(secrets)
      ensures Valid() && current.withheld == {} && current.sealed == {} && known == Members(secrets)
    {
      known, learned := (set x | x in secrets), 0;
      current := SecretSet(SortLongest(secrets), {}, {}, {});
      new;
      SortKeeps(secrets);
      forall k | 0 <= k < |current.secrets| ensures current.secrets[k] != "" { assert current.secrets[k] in secrets; }
    }

    /**
     * LearnOutput: from now on every leaf is either masked by value, or its output is withheld and its node sealed.
     * Nothing that was masked before stops being masked.
     */
    method LearnOutput(node: string, name: string, leaves: seq<string>)
      requires Valid() && AllFilled(leaves)
      modifies this
      ensures Valid() && FailsClosed(old(known), old(current), known, current, leaves, OutputRef(node, name), node)
      ensures LearnsExactly(old(known), old(current), known, current, leaves, node + "." + name, node)
    {
      if |leaves| == 0 {
        SameFailsClosed(known, current, leaves, OutputRef(node, name), node);
        SameLearnsExactly(known, current, leaves, node + "." + name, node);
        return;
      }
      var added, withhold := Sift(known, learned, leaves);
      if |added| == 0 && !withhold {
        SameFailsClosed(known, current, leaves, OutputRef(node, name), node);
        SameLearnsExactly(known, current, leaves, node + "." + name, node);
        return;
      }
      var next := Next(current, node, name, added, withhold);
      AdoptKeeps(known, learned, current, next, added, OutputRef(node, name), node, withhold);
      AdoptFailsClosed(known, current, next, added, leaves, OutputRef(node, name), node, withhold);
      AdoptLearnsExactly(known, learned, current, next, added, leaves, node + "." + name, node, withhold);
      var grown := known + (set x | x in added);
      assert grown == known + Members(added);
      known, learned, current := grown, learned + |added|, next;
    }
  }

  /** with: the next snapshot. */
  method Next(current: SecretSet, node: string, name: string, added: seq<string>, withhold: bool) returns (next: SecretSet)
    requires AllFilled(current.secrets) && AllFilled(added)
    ensures Adopts(current, next, added, OutputRef(node, name), node, withhold)
  {
    var secrets := current.secrets + added;
    SortKeeps(secrets);
    next := SecretSet(SortLongest(secrets), current.learned + (set x | x in added),
      current.withheld + (if withhold then {OutputRef(node, name)} else {}), current.sealed + (if withhold then {node} else {}));
    forall k | 0 <= k < |next.secrets| ensures next.secrets[k] != "" { assert next.secrets[k] in secrets; }
    assert Members(next.secrets) == Members(current.secrets) + Members(added);
    assert next.learned == current.learned + Members(added);
  }

  // ---- The walk over a report

  const ResponseBody := "response_body"

  predicate KeptWhenSealed(field: string) {
    || field == "node_id" || field == "display_name" || field == "node_type" || field == "run_when" || field == "inputs"
    || field == "outputs" || field == "error_code" || field == "error_message" || field == "skip_reason"
    || field == "missing_inputs" || field == "executed_at" || field == "duration_ms" || field == "response_status_code"
    || field == "http_calls" || field == "assertion_results"
  }

  /** refersToWithheld: the key, or a path cut at one of its dots, is withheld. */
  predicate RefersToWithheld(ss: SecretSet, key: string) {
    key in ss.withheld || exists i :: 0 <= i < |key| && key[i] == '.' && key[..i] in ss.withheld
  }

  /** Where the walk stands: inside the outputs of a node, a sealed node's assertion results, one of those, or elsewhere. */
  datatype Place = Elsewhere | OutputsOf(node: string) | Results | Assertion

  /** maskOutputsByName and maskComparedValues: the fields replaced by name. */
  predicate MaskedByName(ss: SecretSet, place: Place, k: string) {
    match place
    case OutputsOf(node) => OutputRef(node, k) in ss.withheld
    case Assertion => k == "actual" || k == "expected"
    case _ => false
  }

  function Named(ss: SecretSet, place: Place, fields: map<string, Tree>, k: string): Tree
    requires k in fields
  {
    if MaskedByName(ss, place, k) then Str(Mask) else fields[k]
  }

  /** A node result, with the id of its node. */
  predicate IsResult(ss: SecretSet, place: Place, fields: map<string, Tree>) {
    "node_id" in fields && Named(ss, place, fields, "node_id").Str? && "node_type" in fields
  }

  function ResultNode(ss: SecretSet, place: Place, fields: map<string, Tree>): string
    requires IsResult(ss, place, fields)
  {
    Named(ss, place, fields, "node_id").s
  }

  predicate IsSealed(ss: SecretSet, place: Place, fields: map<string, Tree>) {
    IsResult(ss, place, fields) && ResultNode(ss, place, fields) in ss.sealed
  }

  function ChildPlace(ss: SecretSet, place: Place, fields: map<string, Tree>, k: string): Place {
    if IsResult(ss, place, fields) && k == "outputs" then OutputsOf(ResultNode(ss, place, fields))
    else if IsSealed(ss, place, fields) && k == "assertion_results" then Results
    else Elsewhere
  }

  // ---- Encoded bodies

  /**
   * base64, JSON, and the spellings of secrets in body text: each secret itself and as a JSON encoder writes it,
   * once each and longest first.
   */
  datatype Wire = Wire(
    decode: string -> Option<string>, encode: string -> string,
    parse: string -> Option<Tree>, write: Tree -> string, forms: seq<string> -> seq<string>)

  /** The length of the longest text in the tree. */
  ghost function Weight(t: Tree): nat
    decreases t, 1
  {
    match t
    case Str(s) => |s|
    case Arr(items) => ItemsWeight(t, |items|)
    case Obj(fields) => FieldsWeight(t, fields.Keys)
    case _ => 0
  }

  ghost function ItemsWeight(t: Tree, n: nat): nat
    requires t.Arr? && n <= |t.items|
    decreases t, 0, n
  {
    if n == 0 then 0
    else
      var rest, last := ItemsWeight(t, n - 1), Weight(t.items[n - 1]);
      if last > rest then last else rest
  }

  ghost function FieldsWeight(t: Tree, keys: set<string>): nat
    requires t.Obj? && keys <= t.fields.Keys
    decreases t, 0, |keys|
  {
    if keys == {} then 0
    else
      var k :| k in keys;
      var rest, one := FieldsWeight(t, keys - {k}), Weight(t.fields[k]);
      if one > rest then one else rest
  }

  lemma {:induction false} ItemWeighsLess(t: Tree, n: nat, i: nat)
    requires t.Arr? && i < n <= |t.items|
    ensures Weight(t.items[i]) <= ItemsWeight(t, n)
  {
    if i < n - 1 { ItemWeighsLess(t, n - 1, i); }
  }

  lemma {:induction false} FieldWeighsLess(t: Tree, keys: set<string>, key: string)
    requires t.Obj? && keys <= t.fields.Keys && key in keys
    ensures Weight(t.fields[key]) <= FieldsWeight(t, keys)
    decreases |keys|
  {
    var k :| k in keys &&
      FieldsWeight(t, keys) == (var rest, one := FieldsWeight(t, keys - {k}), Weight(t.fields[k]); if one > rest then one else rest);
    if k != key { FieldWeighsLess(t, keys - {k}, key); }
  }

  lemma {:induction false} ChildWeighsLess(t: Tree, k: string)
    requires t.Obj? && k in t.fields
    ensures Weight(t.fields[k]) <= Weight(t)
  {
    FieldWeighsLess(t, t.fields.Keys, k);
  }

  lemma {:induction false} PartWeighsLess(t: Tree, i: nat)
    requires t.Arr? && i < |t.items|
    ensures Weight(t.items[i]) <= Weight(t)
  {
    ItemWeighsLess(t, |t.items|, i);
  }

  /** The base64 alphabet has no asterisk, and a text in a JSON document is shorter than the document. */
  ghost predicate LawfulCode(w: Wire) {
    && (forall s :: w.decode(w.encode(s)) == Some(s))
    && (forall s :: w.decode(s).Some? ==> '*' !in s && |w.decode(s).value| <= |s|)
  }

  ghost predicate LawfulJson(w: Wire) {
    && (forall t :: w.parse(w.write(t)) == Some(t))
    && (forall s :: w.parse(s).Some? ==> Weight(w.parse(s).value) < |s|)
  }

  ghost predicate LawfulForms(w: Wire) {
    && (forall secrets :: AllFilled(secrets) ==> AllFilled(w.forms(secrets)))
    && (forall secrets, x :: x in secrets ==> x in w.forms(secrets))
  }

  ghost predicate Lawful(w: Wire) {
    LawfulCode(w) && LawfulJson(w) && LawfulForms(w)
  }

  /** maskText. */
  function MaskForms(ss: SecretSet, w: Wire, s: string): string
    requires AllFilled(ss.secrets) && Lawful(w)
  {
    Masked(s, w.forms(ss.secrets))
  }

  /** maskBase64. */
  function MaskEncoded(ss: SecretSet, w: Wire, s: string): string
    requires AllFilled(ss.secrets) && Lawful(w)
    decreases |s|, 1
  {
    match w.decode(s)
    case None => MaskForms(ss, w, s)
    case Some(decoded) =>
      var masked := MaskBody(ss, w, decoded);
      if masked != decoded then w.encode(masked)
      else if MaskForms(ss, w, s) == s then s
      else w.encode(Mask)
  }

  /** maskBody. */
  function MaskBody(ss: SecretSet, w: Wire, decoded: string): string
    requires AllFilled(ss.secrets) && Lawful(w)
    decreases |decoded|, 0
  {
    match w.parse(decoded)
    case None => MaskForms(ss, w, decoded)
    case Some(t) =>
      var masked := MaskTree(ss, w, t, Elsewhere);
      if w.write(t) == w.write(masked) then decoded else w.write(masked)
  }

  /** mask: the walk over a report. */
  function MaskTree(ss: SecretSet, w: Wire, t: Tree, place: Place): Tree
    requires AllFilled(ss.secrets) && Lawful(w)
    decreases Weight(t), 2, t, 0
  {
    match t
    case Bare(_) => t
    case Num(literal) => if literal in ss.learned then Str(Mask) else t
    case Str(s) => Str(Masked(s, ss.secrets))
    case Arr(items) =>
      Arr(seq(|items|, i requires 0 <= i < |items| =>
        (PartWeighsLess(t, i); MaskTree(ss, w, items[i], if place == Results then Assertion else Elsewhere))))
    case Obj(fields) =>
      Obj(map k | k in fields && (IsSealed(ss, place, fields) ==> KeptWhenSealed(k)) ::
        (ChildWeighsLess(t, k); MaskField(ss, w, k, fields[k], place, ChildPlace(ss, place, fields, k))))
  }

  /** One field of an object, at its own place once it is not replaced by name. */
  function MaskField(ss: SecretSet, w: Wire, k: string, t: Tree, place: Place, inner: Place): Tree
    requires AllFilled(ss.secrets) && Lawful(w)
    decreases Weight(t), 2, t, 1
  {
    if RefersToWithheld(ss, k) then Str(Mask)
    // The mask is no base64, so as an encoded body it is masked as text.
    else if MaskedByName(ss, place, k) then Str(if k == ResponseBody then MaskForms(ss, w, Mask) else Masked(Mask, ss.secrets))
    else if k == ResponseBody && t.Str? then Str(MaskEncoded(ss, w, t.s))
    else MaskTree(ss, w, t, inner)
  }

  /** A text holds no secret, and no spelling of one that a mask cannot complete. */
  ghost predicate FreeText(ss: SecretSet, w: Wire, s: string) {
    && (forall k :: 0 <= k < |ss.secrets| ==> !Occurs(ss.secrets[k], s))
    && (forall form :: form in w.forms(ss.secrets) && Sturdy(form) ==> !Occurs(form, s))
  }

  /** What an encoded body decodes to is free of secrets, as text or as the JSON document it spells. */
  ghost predicate CleanBody(ss: SecretSet, w: Wire, s: string)
    requires Lawful(w)
    decreases |s|, 1
  {
    match w.decode(s)
    case None => FreeText(ss, w, s)
    case Some(decoded) =>
      FreeText(ss, w, decoded) || (w.parse(decoded).Some? && Clean(ss, w, w.parse(decoded).value))
  }

  /** No text in the report holds a secret, encoded bodies included, and no number is a learned one. */
  ghost predicate Clean(ss: SecretSet, w: Wire, t: Tree)
    requires Lawful(w)
    decreases Weight(t), 2, t, 0
  {
    match t
    case Bare(_) => true
    case Num(literal) => literal !in ss.learned
    case Str(s) => FreeOfSecrets(ss, s)
    case Arr(items) => forall i :: 0 <= i < |items| ==> (PartWeighsLess(t, i); Clean(ss, w, items[i]))
    case Obj(fields) => forall k :: k in fields ==> (ChildWeighsLess(t, k); CleanField(ss, w, k, fields[k]))
  }

  ghost predicate CleanField(ss: SecretSet, w: Wire, k: string, t: Tree)
    requires Lawful(w)
    decreases Weight(t), 2, t, 1
  {
    if k == ResponseBody && t.Str? then t == Str(Mask) || CleanBody(ss, w, t.s) else Clean(ss, w, t)
  }

  ghost predicate FreeOfSecrets(ss: SecretSet, s: string) {
    forall k :: 0 <= k < |ss.secrets| ==> !Occurs(ss.secrets[k], s)
  }

  lemma {:induction false} MaskIsFree(ss: SecretSet)
    requires AllFilled(ss.secrets) && Guarded(ss.secrets)
    ensures FreeOfSecrets(ss, Mask) && Masked(Mask, ss.secrets) == Mask
  {
    GuardedIsOffMask(ss.secrets);
    CleanStays(Mask, ss.secrets);
  }

  lemma {:induction false} TextIsFree(ss: SecretSet, s: string)
    requires AllFilled(ss.secrets) && Guarded(ss.secrets)
    ensures FreeOfSecrets(ss, Masked(s, ss.secrets))
  {
    forall k | 0 <= k < |ss.secrets| ensures !Occurs(ss.secrets[k], Masked(s, ss.secrets)) { NoGuardedSecretIsLeft(s, ss.secrets, k); }
  }

  lemma {:induction false} SturdyFormIsGone(ss: SecretSet, w: Wire, s: string, form: string)
    requires AllFilled(ss.secrets) && Lawful(w) && form in w.forms(ss.secrets) && Sturdy(form)
    ensures !Occurs(form, MaskForms(ss, w, s))
  {
    var i :| 0 <= i < |w.forms(ss.secrets)| && w.forms(ss.secrets)[i] == form;
    NoSecretIsLeft(s, w.forms(ss.secrets), i);
  }

  lemma {:induction false} FormsAreFree(ss: SecretSet, w: Wire, s: string)
    requires AllFilled(ss.secrets) && Guarded(ss.secrets) && Lawful(w)
    ensures FreeText(ss, w, MaskForms(ss, w, s))
  {
    forall form | form in w.forms(ss.secrets) && Sturdy(form) ensures !Occurs(form, MaskForms(ss, w, s)) {
      SturdyFormIsGone(ss, w, s, form);
    }
    forall k | 0 <= k < |ss.secrets| ensures !Occurs(ss.secrets[k], MaskForms(ss, w, s)) {
      assert HoldsSturdy(ss.secrets[k], ss.secrets);
      var g :| g in ss.secrets && Guards(g, ss.secrets[k]);
      SturdyFormIsGone(ss, w, s, g);
      if Occurs(ss.secrets[k], MaskForms(ss, w, s)) { OccursWithin(g, ss.secrets[k], MaskForms(ss, w, s)); }
    }
  }

  lemma {:induction false} MaskIsFreeText(ss: SecretSet, w: Wire)
    requires AllFilled(ss.secrets) && Guarded(ss.secrets)
    ensures FreeText(ss, w, Mask)
  {
    MaskIsFree(ss);
    forall form | form in w.forms(ss.secrets) && Sturdy(form) ensures !Occurs(form, Mask) { SturdyIsOffMask(form); }
  }

  /** A masked body is clean, whatever the bytes were. */
  lemma {:induction false} EncodedIsClean(ss: SecretSet, w: Wire, s: string)
    requires AllFilled(ss.secrets) && Guarded(ss.secrets) && Lawful(w)
    ensures CleanBody(ss, w, MaskEncoded(ss, w, s))
    decreases |s|, 1
  {
    match w.decode(s)
    case None =>
      FormsAreFree(ss, w, s);
      MaskedShowsIt(s, w.forms(ss.secrets));
    case Some(decoded) =>
      BodyIsClean(ss, w, decoded);
      MaskIsFreeText(ss, w);
  }

  lemma {:induction false} BodyIsClean(ss: SecretSet, w: Wire, decoded: string)
    requires AllFilled(ss.secrets) && Guarded(ss.secrets) && Lawful(w)
    ensures var masked := MaskBody(ss, w, decoded);
      FreeText(ss, w, masked) || (w.parse(masked).Some? && Clean(ss, w, w.parse(masked).value))
    decreases |decoded|, 0
  {
    match w.parse(decoded)
    case None => FormsAreFree(ss, w, decoded);
    case Some(t) => MaskedTreeIsClean(ss, w, t, Elsewhere);
  }

  lemma {:induction false} CleanFields(ss: SecretSet, w: Wire, fields: map<string, Tree>)
    requires Lawful(w) && forall k :: k in fields ==> CleanField(ss, w, k, fields[k])
    ensures Clean(ss, w, Obj(fields))
  {
  }

  lemma {:induction false} CleanItems(ss: SecretSet, w: Wire, items: seq<Tree>)
    requires Lawful(w) && forall i :: 0 <= i < |items| ==> Clean(ss, w, items[i])
    ensures Clean(ss, w, Arr(items))
  {
  }

  /** When each secret is sturdy, or holds one that is, a masked report is clean, its encoded bodies included. */
  lemma {:induction false} MaskedTreeIsClean(ss: SecretSet, w: Wire, t: Tree, place: Place)
    requires AllFilled(ss.secrets) && Guarded(ss.secrets) && Lawful(w)
    ensures Clean(ss, w, MaskTree(ss, w, t, place))
    decreases Weight(t), 2, t, 1
  {
    if t.Arr? {
      MaskedItemsAreClean(ss, w, t.items, place);
      assert Arr(t.items) == t;
    } else if t.Obj? {
      MaskedFieldsAreClean(ss, w, t.fields, place);
      assert Obj(t.fields) == t;
    } else {
      MaskedLeafIsClean(ss, w, t, place);
    }
  }

  lemma {:induction false} MaskedLeafIsClean(ss: SecretSet, w: Wire, t: Tree, place: Place)
    requires AllFilled(ss.secrets) && Guarded(ss.secrets) && Lawful(w) && !t.Arr? && !t.Obj?
    ensures Clean(ss, w, MaskTree(ss, w, t, place))
  {
    match t
    case Bare(_) =>
    case Num(literal) => MaskedNumberIsClean(ss, w, literal, place);
    case Str(s) => MaskedTextIsClean(ss, w, s, place);
  }

  lemma {:induction false} MaskedNumberIsClean(ss: SecretSet, w: Wire, literal: string, place: Place)
    requires AllFilled(ss.secrets) && Guarded(ss.secrets) && Lawful(w)
    ensures Clean(ss, w, MaskTree(ss, w, Num(literal), place))
  {
    GuardedIsOffMask(ss.secrets);
    FreeIsClean(ss, w, Mask);
    if literal in ss.learned { assert MaskTree(ss, w, Num(literal), place) == Str(Mask); }
  }

  lemma {:induction false} MaskedTextIsClean(ss: SecretSet, w: Wire, s: string, place: Place)
    requires AllFilled(ss.secrets) && Guarded(ss.secrets) && Lawful(w)
    ensures Clean(ss, w, MaskTree(ss, w, Str(s), place))
  {
    TextIsFree(ss, s);
    FreeIsClean(ss, w, Masked(s, ss.secrets));
  }

  lemma {:induction false} FreeIsClean(ss: SecretSet, w: Wire, s: string)
    requires Lawful(w) && FreeOfSecrets(ss, s)
    ensures Clean(ss, w, Str(s))
  {
  }

  lemma {:induction false} MaskedItemsAreClean(ss: SecretSet, w: Wire, items: seq<Tree>, place: Place)
    requires AllFilled(ss.secrets) && Guarded(ss.secrets) && Lawful(w)
    ensures Clean(ss, w, MaskTree(ss, w, Arr(items), place))
    decreases Weight(Arr(items)), 2, Arr(items), 0
  {
    var masked := MaskTree(ss, w, Arr(items), place).items;
    forall i | 0 <= i < |items| ensures Clean(ss, w, masked[i]) {
      PartWeighsLess(Arr(items), i);
      MaskedTreeIsClean(ss, w, items[i], if place == Results then Assertion else Elsewhere);
    }
    CleanItems(ss, w, masked);
  }

  lemma {:induction false} MaskedFieldsAreClean(ss: SecretSet, w: Wire, fields: map<string, Tree>, place: Place)
    requires AllFilled(ss.secrets) && Guarded(ss.secrets) && Lawful(w)
    ensures Clean(ss, w, MaskTree(ss, w, Obj(fields), place))
    decreases Weight(Obj(fields)), 2, Obj(fields), 0
  {
    FieldsAreKept(ss, w, fields, place);
    var masked := MaskTree(ss, w, Obj(fields), place).fields;
    forall k | k in masked ensures CleanField(ss, w, k, masked[k]) {
      ChildWeighsLess(Obj(fields), k);
      FieldMasked(ss, w, fields, place, k);
      MaskedFieldIsClean(ss, w, k, fields[k], place, ChildPlace(ss, place, fields, k));
    }
    CleanFields(ss, w, masked);
  }

  lemma {:induction false} MaskedFieldIsClean(ss: SecretSet, w: Wire, k: string, t: Tree, place: Place, inner: Place)
    requires AllFilled(ss.secrets) && Guarded(ss.secrets) && Lawful(w)
    ensures CleanField(ss, w, k, MaskField(ss, w, k, t, place, inner))
    decreases Weight(t), 2, t, 2
  {
    if RefersToWithheld(ss, k) || MaskedByName(ss, place, k) {
      ReplacedFieldIsClean(ss, w, k, t, place, inner);
    } else if k == ResponseBody && t.Str? {
      EncodedIsClean(ss, w, t.s);
      assert MaskField(ss, w, k, t, place, inner) == Str(MaskEncoded(ss, w, t.s));
    } else {
      MaskedTreeIsClean(ss, w, t, inner);
      TreeFieldIsClean(ss, w, k, t, inner);
      assert MaskField(ss, w, k, t, place, inner) == MaskTree(ss, w, t, inner);
    }
  }

  lemma {:induction false} ReplacedFieldIsClean(ss: SecretSet, w: Wire, k: string, t: Tree, place: Place, inner: Place)
    requires AllFilled(ss.secrets) && Guarded(ss.secrets) && Lawful(w)
    requires RefersToWithheld(ss, k) || MaskedByName(ss, place, k)
    ensures CleanField(ss, w, k, MaskField(ss, w, k, t, place, inner))
  {
    MaskIsFree(ss);
    MaskedNameIsClean(ss, w);
  }

  /** A tree under the body field that is no text is masked to no text, or to the mask. */
  lemma {:induction false} TreeFieldIsClean(ss: SecretSet, w: Wire, k: string, t: Tree, place: Place)
    requires AllFilled(ss.secrets) && Lawful(w) && (k == ResponseBody ==> !t.Str?) && Clean(ss, w, MaskTree(ss, w, t, place))
    ensures CleanField(ss, w, k, MaskTree(ss, w, t, place))
  {
  }

  lemma {:induction false} MaskedNameIsClean(ss: SecretSet, w: Wire)
    requires AllFilled(ss.secrets) && Guarded(ss.secrets) && Lawful(w)
    ensures CleanBody(ss, w, MaskForms(ss, w, Mask))
  {
    FormsAreFree(ss, w, Mask);
    assert Mask[0] == '*';
    MaskedShowsIt(Mask, w.forms(ss.secrets));
  }

  /** No field is added or renamed, and only a sealed node result loses fields: those that could carry its value. */
  lemma {:induction false} FieldsAreKept(ss: SecretSet, w: Wire, fields: map<string, Tree>, place: Place)
    requires AllFilled(ss.secrets) && Lawful(w)
    ensures MaskTree(ss, w, Obj(fields), place).Obj?
    ensures var masked := MaskTree(ss, w, Obj(fields), place).fields;
      masked.Keys == if IsSealed(ss, place, fields) then (set k | k in fields && KeptWhenSealed(k)) else fields.Keys
  {
  }

  /** A withheld output is masked by name in its node's result, whatever its value. */
  lemma {:induction false} WithheldOutputIsMasked(ss: SecretSet, w: Wire, fields: map<string, Tree>, name: string)
    requires AllFilled(ss.secrets) && Guarded(ss.secrets) && Lawful(w)
    requires IsResult(ss, Elsewhere, fields) && !RefersToWithheld(ss, "outputs")
    requires "outputs" in fields && fields["outputs"].Obj? && name in fields["outputs"].fields
    requires OutputRef(ResultNode(ss, Elsewhere, fields), name) in ss.withheld && name != ResponseBody
    requires !IsSealed(ss, OutputsOf(ResultNode(ss, Elsewhere, fields)), fields["outputs"].fields)
    ensures var masked := MaskTree(ss, w, Obj(fields), Elsewhere);
      "outputs" in masked.fields && masked.fields["outputs"].Obj? && name in masked.fields["outputs"].fields
      && masked.fields["outputs"].fields[name] == Str(Mask)
  {
    MaskIsFree(ss);
    assert KeptWhenSealed("outputs");
    var node, outputs := ResultNode(ss, Elsewhere, fields), fields["outputs"].fields;
    FieldMasked(ss, w, fields, Elsewhere, "outputs");
    NotResponseBody();
    FieldMasked(ss, w, outputs, OutputsOf(node), name);
    NamedOutput(ss, w, name, outputs[name], node, ChildPlace(ss, OutputsOf(node), outputs, name));
  }

  lemma {:induction false} NotResponseBody()
    ensures "outputs" != ResponseBody
  {
    assert "outputs"[0] == 'o';
  }

  lemma {:induction false} NamedOutput(ss: SecretSet, w: Wire, name: string, t: Tree, node: string, inner: Place)
    requires AllFilled(ss.secrets) && Lawful(w) && Masked(Mask, ss.secrets) == Mask && name != ResponseBody
    requires OutputRef(node, name) in ss.withheld
    ensures MaskField(ss, w, name, t, OutputsOf(node), inner) == Str(Mask)
  {
  }

  /** Each field that is kept is masked on its own. */
  lemma {:induction false} FieldMasked(ss: SecretSet, w: Wire, fields: map<string, Tree>, place: Place, k: string)
    requires AllFilled(ss.secrets) && Lawful(w) && k in fields && (IsSealed(ss, place, fields) ==> KeptWhenSealed(k))
    ensures var masked := MaskTree(ss, w, Obj(fields), place);
      masked.Obj? && k in masked.fields
      && masked.fields[k] == MaskField(ss, w, k, fields[k], place, ChildPlace(ss, place, fields, k))
  {
  }
}
