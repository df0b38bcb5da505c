/** What masking leaves alone, and what it does to each part of a report. */
module RedactorLaws {
  import opened References
  import opened Masking
  import opened Redactor

  // ---- One part at a time

  /** The key is a withheld reference, or a path into one. */
  ghost predicate WithheldKey(ss: SecretSet, key: string) {
    exists ref :: ref in ss.withheld && (key == ref || ref + "." <= key)
  }

  /** The value under the key is replaced whatever it is. */
  ghost predicate Replaced(ss: SecretSet, place: Place, key: string) {
    || (place.OutputsOf? && place.node + "." + key in ss.withheld)
    || (place.Assertion? && key in {"actual", "expected"})
  }

  /** The node whose result these fields are, when they are one. */
  ghost predicate ResultOf(ss: SecretSet, place: Place, fields: map<string, Tree>, node: string) {
    && "node_type" in fields && "node_id" in fields
    && if Replaced(ss, place, "node_id") then node == Mask else fields["node_id"] == Str(node)
  }

  ghost predicate SealedResult(ss: SecretSet, place: Place, fields: map<string, Tree>) {
    exists node :: ResultOf(ss, place, fields, node) && node in ss.sealed
  }

  const KeptFields := {
    "node_id", "display_name", "node_type", "run_when", "inputs", "outputs", "error_code", "error_message", "skip_reason",
    "missing_inputs", "executed_at", "duration_ms", "response_status_code", "http_calls", "assertion_results"
  }

  /** Where the value of a field stands. */
  ghost predicate StandsAt(ss: SecretSet, place: Place, fields: map<string, Tree>, key: string, inner: Place) {
    if key == "outputs" && exists node :: ResultOf(ss, place, fields, node) then
      inner.OutputsOf? && ResultOf(ss, place, fields, inner.node)
    else if key == "assertion_results" && SealedResult(ss, place, fields) then inner == Results
    else inner == Elsewhere
  }

  lemma {:induction false} WithheldKeyIs(ss: SecretSet, key: string)
    ensures RefersToWithheld(ss, key) <==> WithheldKey(ss, key)
  {
    if key !in ss.withheld && RefersToWithheld(ss, key) {
      var i :| 0 <= i < |key| && key[i] == '.' && key[..i] in ss.withheld;
      assert key[..i] + "." == key[..i + 1];
    }
    if ref :| ref in ss.withheld && ref + "." <= key {
      assert key[|ref|] == (ref + ".")[|ref|] == '.' && key[..|ref|] == ref;
    }
  }

  lemma {:induction false} ReplacedIs(ss: SecretSet, place: Place, key: string)
    ensures MaskedByName(ss, place, key) <==> Replaced(ss, place, key)
  {
  }

  lemma {:induction false} ResultIs(ss: SecretSet, place: Place, fields: map<string, Tree>)
    ensures IsResult(ss, place, fields) <==> exists node :: ResultOf(ss, place, fields, node)
    ensures IsResult(ss, place, fields) ==> forall node :: ResultOf(ss, place, fields, node) <==> node == ResultNode(ss, place, fields)
    ensures IsSealed(ss, place, fields) <==> SealedResult(ss, place, fields)
  {
    ReplacedIs(ss, place, "node_id");
    if IsResult(ss, place, fields) { assert ResultOf(ss, place, fields, ResultNode(ss, place, fields)); }
  }

  lemma {:induction false} KeptFieldsAre(field: string)
    ensures KeptWhenSealed(field) <==> field in KeptFields
  {
  }

  lemma {:induction false} PlaceIs(ss: SecretSet, place: Place, fields: map<string, Tree>, key: string, inner: Place)
    ensures StandsAt(ss, place, fields, key, inner) <==> inner == ChildPlace(ss, place, fields, key)
  {
    ResultIs(ss, place, fields);
  }

  /** A leaf: texts have their secrets replaced, a learned number is masked, and everything else is kept. */
  lemma {:induction false} LeafLaw(ss: SecretSet, w: Wire, text: string, place: Place)
    requires AllFilled(ss.secrets) && Lawful(w)
    ensures MaskTree(ss, w, Bare(text), place) == Bare(text)
    ensures MaskTree(ss, w, Num(text), place) == if text in ss.learned then Str(Mask) else Num(text)
    ensures MaskTree(ss, w, Str(text), place) == Str(Masked(text, ss.secrets))
  {
  }

  /** A list keeps its length, and each item is masked at its place. */
  lemma {:induction false} ItemLaw(ss: SecretSet, w: Wire, items: seq<Tree>, place: Place, i: nat)
    requires AllFilled(ss.secrets) && Lawful(w) && i < |items|
    ensures var masked := MaskTree(ss, w, Arr(items), place);
      masked.Arr? && |masked.items| == |items|
      && masked.items[i] == MaskTree(ss, w, items[i], if place == Results then Assertion else Elsewhere)
  {
  }

  /** What becomes of one field of an object. */
  lemma {:induction false} FieldLaw(ss: SecretSet, w: Wire, fields: map<string, Tree>, place: Place, k: string)
    requires AllFilled(ss.secrets) && Guarded(ss.secrets) && Lawful(w) && k in fields
    ensures var masked := MaskTree(ss, w, Obj(fields), place);
      && masked.Obj? && (k in masked.fields <==> (SealedResult(ss, place, fields) ==> k in KeptFields))
      && (k in masked.fields ==>
          if WithheldKey(ss, k) then masked.fields[k] == Str(Mask)
          else if Replaced(ss, place, k) then
            masked.fields[k] == Str(if k == "response_body" then Masked(Mask, w.forms(ss.secrets)) else Mask)
          else if k == "response_body" && fields[k].Str? then masked.fields[k] == Str(MaskEncoded(ss, w, fields[k].s))
          else forall inner :: StandsAt(ss, place, fields, k, inner) ==> masked.fields[k] == MaskTree(ss, w, fields[k], inner))
  {
    FieldsAreKept(ss, w, fields, place);
    ResultIs(ss, place, fields);
    KeptFieldsAre(k);
    if k in MaskTree(ss, w, Obj(fields), place).fields {
      FieldMasked(ss, w, fields, place, k);
      FieldValue(ss, w, k, fields[k], place, ChildPlace(ss, place, fields, k));
      forall inner ensures StandsAt(ss, place, fields, k, inner) <==> inner == ChildPlace(ss, place, fields, k) {
        PlaceIs(ss, place, fields, k, inner);
      }
    }
  }

  lemma {:induction false} FieldValue(ss: SecretSet, w: Wire, k: string, t: Tree, place: Place, inner: Place)
    requires AllFilled(ss.secrets) && Guarded(ss.secrets) && Lawful(w)
    ensures var value := MaskField(ss, w, k, t, place, inner);
      if WithheldKey(ss, k) then value == Str(Mask)
      else if Replaced(ss, place, k) then value == Str(if k == "response_body" then Masked(Mask, w.forms(ss.secrets)) else Mask)
      else if k == "response_body" && t.Str? then value == Str(MaskEncoded(ss, w, t.s))
      else value == MaskTree(ss, w, t, inner)
  {
    WithheldKeyIs(ss, k);
    ReplacedIs(ss, place, k);
    MaskIsMasked(ss);
    assert ResponseBody == "response_body";
    FieldCases(ss, w, k, t, place, inner);
  }

  lemma {:induction false} FieldCases(ss: SecretSet, w: Wire, k: string, t: Tree, place: Place, inner: Place)
    requires AllFilled(ss.secrets) && Lawful(w)
    ensures MaskField(ss, w, k, t, place, inner) ==
      if RefersToWithheld(ss, k) then Str(Mask)
      else if MaskedByName(ss, place, k) then Str(if k == ResponseBody then MaskForms(ss, w, Mask) else Masked(Mask, ss.secrets))
      else if k == ResponseBody && t.Str? then Str(MaskEncoded(ss, w, t.s))
      else MaskTree(ss, w, t, inner)
  {
  }

  lemma {:induction false} MaskIsMasked(ss: SecretSet)
    requires AllFilled(ss.secrets) && Guarded(ss.secrets)
    ensures Masked(Mask, ss.secrets) == Mask
  {
    GuardedIsOffMask(ss.secrets);
    CleanStays(Mask, ss.secrets);
  }

  /** Every fragment of a masked text that no mask can complete stood in the text. */
  lemma {:induction false} TextFragments(ss: SecretSet, w: Wire, s: string, place: Place, fragment: string)
    requires AllFilled(ss.secrets) && Lawful(w) && Sturdy(fragment)
    requires MaskTree(ss, w, Str(s), place).Str? && Occurs(fragment, MaskTree(ss, w, Str(s), place).s)
    ensures Occurs(fragment, s)
  {
    LeafLaw(ss, w, s, place);
    MaskingAddsNothing(s, ss.secrets, fragment);
  }

  /** What a body decodes to once it was masked: the masked document, the masked text, or the mask alone. */
  ghost predicate BodyHolds(ss: SecretSet, w: Wire, s: string, content: string)
    requires AllFilled(ss.secrets) && Lawful(w) && w.decode(s).Some?
  {
    var decoded := w.decode(s).value;
    match w.parse(decoded)
    case Some(t) =>
      var masked := MaskTree(ss, w, t, Elsewhere);
      if masked != t then w.parse(content) == Some(masked)
      else content == if Masked(s, w.forms(ss.secrets)) == s then decoded else Mask
    case None =>
      var masked := Masked(decoded, w.forms(ss.secrets));
      if masked != decoded then content == masked
      else content == if Masked(s, w.forms(ss.secrets)) == s then decoded else Mask
  }

  /** An encoded body stays an encoded body, and what it encodes is masked; a body that is none is masked as text. */
  lemma {:induction false} EncodedLaw(ss: SecretSet, w: Wire, s: string)
    requires AllFilled(ss.secrets) && Lawful(w)
    ensures w.decode(s).None? ==> MaskEncoded(ss, w, s) == Masked(s, w.forms(ss.secrets))
    ensures w.decode(s).Some? ==> w.decode(MaskEncoded(ss, w, s)).Some? && BodyHolds(ss, w, s, w.decode(MaskEncoded(ss, w, s)).value)
  {
    if w.decode(s).Some? {
      var decoded := w.decode(s).value;
      BodyIsMasked(ss, w, decoded);
    }
  }

  lemma {:induction false} BodyIsMasked(ss: SecretSet, w: Wire, decoded: string)
    requires AllFilled(ss.secrets) && Lawful(w)
    ensures match w.parse(decoded)
      case None => MaskBody(ss, w, decoded) == Masked(decoded, w.forms(ss.secrets))
      case Some(t) =>
        if MaskTree(ss, w, t, Elsewhere) == t then MaskBody(ss, w, decoded) == decoded
        else MaskBody(ss, w, decoded) != decoded && w.parse(MaskBody(ss, w, decoded)) == Some(MaskTree(ss, w, t, Elsewhere))
  {
    if w.parse(decoded).Some? {
      var t := w.parse(decoded).value;
      var masked := MaskTree(ss, w, t, Elsewhere);
      assert w.parse(w.write(t)) == Some(t) && w.parse(w.write(masked)) == Some(masked);
    }
  }

  // ---- What is left alone

  /** No spelling of a secret occurs in the body text. */
  ghost predicate FormFree(ss: SecretSet, w: Wire, s: string) {
    forall form :: form in w.forms(ss.secrets) ==> !Occurs(form, s)
  }

  /** An encoded body whose text and content hold no secret. */
  ghost predicate HarmlessBody(ss: SecretSet, w: Wire, s: string)
    requires Lawful(w)
    decreases |s|, 1
  {
    && FormFree(ss, w, s)
    && match w.decode(s)
       case None => true
       case Some(decoded) =>
         match w.parse(decoded)
         case None => FormFree(ss, w, decoded)
         case Some(t) => Harmless(ss, w, t, Elsewhere)
  }

  /**
   * No text holds a secret, no number was learned, no key is withheld or replaced, no node is sealed, and the encoded
   * bodies are harmless.
   */
  ghost predicate Harmless(ss: SecretSet, w: Wire, t: Tree, place: Place)
    requires Lawful(w)
    decreases Weight(t), 2, t, 0
  {
    match t
    case Bare(_) => true
    case Num(literal) => literal !in ss.learned
    case Str(s) => FreeOfSecrets(ss, s)
    case Arr(items) =>
      forall i :: 0 <= i < |items| ==>
        (PartWeighsLess(t, i); Harmless(ss, w, items[i], if place == Results then Assertion else Elsewhere))
    case Obj(fields) =>
      && !SealedResult(ss, place, fields)
      && forall k :: k in fields ==> (ChildWeighsLess(t, k); HarmlessField(ss, w, place, fields, k))
  }

  ghost predicate HarmlessField(ss: SecretSet, w: Wire, place: Place, fields: map<string, Tree>, k: string)
    requires Lawful(w) && k in fields
    decreases Weight(fields[k]), 2, fields[k], 1
  {
    && !WithheldKey(ss, k) && !Replaced(ss, place, k)
    && if k == "response_body" && fields[k].Str? then HarmlessBody(ss, w, fields[k].s)
       else forall inner :: StandsAt(ss, place, fields, k, inner) ==> Harmless(ss, w, fields[k], inner)
  }

  lemma {:induction false} FormFreeStays(ss: SecretSet, w: Wire, s: string)
    requires AllFilled(ss.secrets) && Lawful(w) && FormFree(ss, w, s)
    ensures MaskForms(ss, w, s) == s
  {
    forall k | 0 <= k < |w.forms(ss.secrets)| ensures !Occurs(w.forms(ss.secrets)[k], s) {
      assert w.forms(ss.secrets)[k] in w.forms(ss.secrets);
    }
    CleanStays(s, w.forms(ss.secrets));
  }

  lemma {:induction false} BodyIsLeftAlone(ss: SecretSet, w: Wire, s: string)
    requires AllFilled(ss.secrets) && Lawful(w) && HarmlessBody(ss, w, s)
    ensures MaskEncoded(ss, w, s) == s
    decreases |s|, 1
  {
    FormFreeStays(ss, w, s);
    match w.decode(s)
    case None =>
    case Some(decoded) =>
      match w.parse(decoded) {
        case None => FormFreeStays(ss, w, decoded);
        case Some(t) => HarmlessIsLeftAlone(ss, w, t, Elsewhere);
      }
  }

  /** A harmless report is returned as it is. */
  lemma {:induction false} HarmlessIsLeftAlone(ss: SecretSet, w: Wire, t: Tree, place: Place)
    requires AllFilled(ss.secrets) && Lawful(w) && Harmless(ss, w, t, place)
    ensures MaskTree(ss, w, t, place) == t
    decreases Weight(t), 2, t, 1
  {
    match t
    case Bare(_) =>
    case Num(_) =>
    case Str(s) => CleanStays(s, ss.secrets);
    case Arr(items) => ItemsAreLeftAlone(ss, w, items, place);
    case Obj(fields) => FieldsAreLeftAlone(ss, w, fields, place);
  }

  lemma {:induction false} ItemsAreLeftAlone(ss: SecretSet, w: Wire, items: seq<Tree>, place: Place)
    requires AllFilled(ss.secrets) && Lawful(w) && Harmless(ss, w, Arr(items), place)
    ensures MaskTree(ss, w, Arr(items), place) == Arr(items)
    decreases Weight(Arr(items)), 2, Arr(items), 0
  {
    var masked := MaskTree(ss, w, Arr(items), place).items;
    forall i | 0 <= i < |items| ensures masked[i] == items[i] {
      PartWeighsLess(Arr(items), i);
      ItemLaw(ss, w, items, place, i);
      HarmlessIsLeftAlone(ss, w, items[i], if place == Results then Assertion else Elsewhere);
    }
    assert masked == items;
  }

  lemma {:induction false} FieldsAreLeftAlone(ss: SecretSet, w: Wire, fields: map<string, Tree>, place: Place)
    requires AllFilled(ss.secrets) && Lawful(w) && Harmless(ss, w, Obj(fields), place)
    ensures MaskTree(ss, w, Obj(fields), place) == Obj(fields)
    decreases Weight(Obj(fields)), 2, Obj(fields), 0
  {
    HarmlessFields(ss, w, fields, place);
    AllKeysKept(ss, w, fields, place);
    var masked := MaskTree(ss, w, Obj(fields), place).fields;
    forall k | k in fields ensures masked[k] == fields[k] {
      ChildWeighsLess(Obj(fields), k);
      FieldIsLeftAlone(ss, w, fields, place, k);
      assert masked[k] == MaskField(ss, w, k, fields[k], place, ChildPlace(ss, place, fields, k));
    }
    assert masked == fields;
  }

  lemma {:induction false} HarmlessFields(ss: SecretSet, w: Wire, fields: map<string, Tree>, place: Place)
    requires Lawful(w) && Harmless(ss, w, Obj(fields), place)
    ensures !SealedResult(ss, place, fields) && forall k :: k in fields ==> HarmlessField(ss, w, place, fields, k)
  {
  }

  /** Without a seal every field is masked on its own, and none goes. */
  lemma {:induction false} AllKeysKept(ss: SecretSet, w: Wire, fields: map<string, Tree>, place: Place)
    requires AllFilled(ss.secrets) && Lawful(w) && !SealedResult(ss, place, fields)
    ensures MaskTree(ss, w, Obj(fields), place).Obj?
    ensures var masked := MaskTree(ss, w, Obj(fields), place).fields;
      masked.Keys == fields.Keys
      && forall k :: k in fields ==> masked[k] == MaskField(ss, w, k, fields[k], place, ChildPlace(ss, place, fields, k))
  {
    ResultIs(ss, place, fields);
    FieldsAreKept(ss, w, fields, place);
    forall k | k in fields
      ensures k in MaskTree(ss, w, Obj(fields), place).fields
      ensures MaskTree(ss, w, Obj(fields), place).fields[k] == MaskField(ss, w, k, fields[k], place, ChildPlace(ss, place, fields, k))
    {
      FieldMasked(ss, w, fields, place, k);
    }
  }

  lemma {:induction false} FieldIsLeftAlone(ss: SecretSet, w: Wire, fields: map<string, Tree>, place: Place, k: string)
    requires AllFilled(ss.secrets) && Lawful(w) && k in fields && HarmlessField(ss, w, place, fields, k)
    ensures MaskField(ss, w, k, fields[k], place, ChildPlace(ss, place, fields, k)) == fields[k]
    decreases Weight(fields[k]), 2, fields[k], 2
  {
    WithheldKeyIs(ss, k);
    ReplacedIs(ss, place, k);
    FieldCases(ss, w, k, fields[k], place, ChildPlace(ss, place, fields, k));
    if k == "response_body" && fields[k].Str? {
      BodyIsLeftAlone(ss, w, fields[k].s);
    } else {
      PlaceIs(ss, place, fields, k, ChildPlace(ss, place, fields, k));
      HarmlessIsLeftAlone(ss, w, fields[k], ChildPlace(ss, place, fields, k));
    }
  }
}
