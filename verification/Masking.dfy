/** Masking text: every secret is replaced, one after the other, by three asterisks. */
module Masking {

  const Mask := "***"

  /** strings.ReplaceAll with the mask, for a text that is not empty. */
  function ReplaceAll(s: string, secret: string): string
    requires secret != ""
    decreases |s|
  {
    if |s| < |secret| then s
    else if secret <= s then Mask + ReplaceAll(s[|secret|..], secret)
    else [s[0]] + ReplaceAll(s[1..], secret)
  }

  predicate OccursAt(t: string, s: string, i: int) {
    0 <= i <= |s| - |t| && s[i..i + |t|] == t
  }

  ghost predicate Occurs(t: string, s: string) {
    exists i :: OccursAt(t, s, i)
  }

  /** No mask can complete the text: it ends in no asterisk, and holds no three in a row. */
  ghost predicate Closed(t: string) {
    t != "" ==> t[|t| - 1] != '*' && !Occurs(Mask, t)
  }

  /** No mask can complete the text on either side. */
  ghost predicate Sturdy(t: string) {
    t != "" && t[0] != '*' && Closed(t)
  }

  /** Each secret is sturdy, or another secret that is sturdy occurs in it. */
  ghost predicate Guarded(secrets: seq<string>) {
    forall k :: 0 <= k < |secrets| ==> HoldsSturdy(secrets[k], secrets)
  }

  ghost predicate HoldsSturdy(t: string, secrets: seq<string>) {
    exists g :: g in secrets && Guards(g, t)
  }

  ghost predicate Guards(g: string, t: string) {
    Sturdy(g) && Occurs(g, t)
  }

  predicate AllFilled(secrets: seq<string>) {
    forall k :: 0 <= k < |secrets| ==> secrets[k] != ""
  }

  /** text: the secrets in the order they are kept. */
  function Masked(s: string, secrets: seq<string>): string
    requires AllFilled(secrets)
    decreases |secrets|
  {
    if secrets == [] then s else Masked(ReplaceAll(s, secrets[0]), secrets[1..])
  }

  method MaskText(s: string, secrets: seq<string>) returns (r: string)
    requires AllFilled(secrets)
    ensures r == Masked(s, secrets)
  {
    r := s;
    for i := 0 to |secrets|
      invariant Masked(r, secrets[i..]) == Masked(s, secrets)
    {
      assert secrets[i..][1..] == secrets[i + 1..];
      r := ReplaceAll(r, secrets[i]);
    }
  }

  // ---- One replacement

  lemma {:induction false} OccursLater(t: string, s: string, k: nat)
    requires k <= |s| && Occurs(t, s[k..])
    ensures Occurs(t, s)
  {
    var i :| OccursAt(t, s[k..], i);
    assert OccursAt(t, s, k + i);
  }

  /** What starts a mask is not closed. */
  lemma {:induction false} MaskIsOpen(t: string, rest: string)
    requires t != "" && t <= Mask + rest
    ensures !Closed(t)
  {
    if |t| >= 3 {
      assert t[..3] == Mask;
      assert OccursAt(Mask, t, 0);
    } else {
      assert t[|t| - 1] == (Mask + rest)[|t| - 1] == '*';
    }
  }

  /** A closed text at the start of the result stood at the start of the input. */
  lemma {:induction false} PrefixIsKept(s: string, secret: string, t: string)
    requires secret != "" && Closed(t) && t <= ReplaceAll(s, secret)
    ensures t <= s
    decreases |s|
  {
    if |s| >= |secret| && secret <= s {
      if t != "" { MaskIsOpen(t, ReplaceAll(s[|secret|..], secret)); }
    } else if t != "" && |s| >= |secret| {
      assert t[1..] <= ReplaceAll(s[1..], secret);
      if t[1..] != "" && Occurs(Mask, t[1..]) { OccursLater(Mask, t, 1); }
      PrefixIsKept(s[1..], secret, t[1..]);
      assert s == [s[0]] + s[1..] && t == [t[0]] + t[1..];
    }
  }

  /** A sturdy text does not reach into a mask before it. */
  lemma {:induction false} MaskBlocks(t: string, rest: string, i: int)
    requires Sturdy(t) && OccursAt(t, Mask + rest, i)
    ensures i >= 3 && OccursAt(t, rest, i - 3)
  {
    assert (Mask + rest)[i] == t[0];
    assert (Mask + rest)[i..i + |t|] == rest[i - 3..i - 3 + |t|];
  }

  lemma {:induction false} TailOccurs(c: char, rest: string, t: string, i: int)
    requires OccursAt(t, [c] + rest, i) && i > 0
    ensures OccursAt(t, rest, i - 1)
  {
    assert ([c] + rest)[i..i + |t|] == rest[i - 1..i - 1 + |t|];
  }

  /** A sturdy fragment of the result was a fragment of the input. */
  lemma {:induction false} FragmentsStay(s: string, secret: string, t: string, i: int)
    requires secret != "" && Sturdy(t) && OccursAt(t, ReplaceAll(s, secret), i)
    ensures Occurs(t, s)
    decreases |s|
  {
    if |s| < |secret| {
    } else if secret <= s {
      MaskBlocks(t, ReplaceAll(s[|secret|..], secret), i);
      FragmentsStay(s[|secret|..], secret, t, i - 3);
      OccursLater(t, s, |secret|);
    } else if i > 0 {
      TailOccurs(s[0], ReplaceAll(s[1..], secret), t, i);
      FragmentsStay(s[1..], secret, t, i - 1);
      OccursLater(t, s, 1);
    } else {
      PrefixIsKept(s, secret, t);
      assert OccursAt(t, s, 0);
    }
  }

  /** A replaced secret that is sturdy is gone. */
  lemma {:induction false} SecretIsGone(s: string, secret: string, i: int)
    requires Sturdy(secret)
    ensures !OccursAt(secret, ReplaceAll(s, secret), i)
    decreases |s|
  {
    if |s| >= |secret| && OccursAt(secret, ReplaceAll(s, secret), i) {
      if secret <= s {
        SecretIsGone(s[|secret|..], secret, i - 3);
        MaskBlocks(secret, ReplaceAll(s[|secret|..], secret), i);
      } else if i > 0 {
        SecretIsGone(s[1..], secret, i - 1);
        TailOccurs(s[0], ReplaceAll(s[1..], secret), secret, i);
      } else {
        PrefixIsKept(s, secret, secret);
      }
    }
  }

  /** Where a secret does not occur, nothing changes. */
  lemma {:induction false} AbsentChangesNothing(s: string, secret: string)
    requires secret != "" && !Occurs(secret, s)
    ensures ReplaceAll(s, secret) == s
    decreases |s|
  {
    if |s| >= |secret| {
      assert !OccursAt(secret, s, 0);
      if Occurs(secret, s[1..]) { OccursLater(secret, s, 1); }
      AbsentChangesNothing(s[1..], secret);
    }
  }

  /** One secret after the other, and nothing else happens to the text. */
  lemma {:induction false} MaskedInTurn(s: string, secrets: seq<string>, last: string)
    requires AllFilled(secrets) && last != ""
    ensures Masked(s, secrets + [last]) == ReplaceAll(Masked(s, secrets), last) && Masked(s, []) == s
    decreases |secrets|
  {
    if secrets == [] {
      assert ([] + [last])[1..] == [];
    } else {
      assert (secrets + [last])[1..] == secrets[1..] + [last];
      MaskedInTurn(ReplaceAll(s, secrets[0]), secrets[1..], last);
    }
  }

  /** A replacement that changes the text leaves an asterisk in it. */
  lemma {:induction false} ReplaceShowsIt(s: string, secret: string)
    requires secret != ""
    ensures ReplaceAll(s, secret) == s || '*' in ReplaceAll(s, secret)
    ensures '*' in s ==> '*' in ReplaceAll(s, secret)
    decreases |s|
  {
    if |s| >= |secret| {
      if secret <= s {
        assert ReplaceAll(s, secret)[0] == '*';
      } else {
        ReplaceShowsIt(s[1..], secret);
        assert s == [s[0]] + s[1..];
      }
    }
  }

  // ---- All replacements

  lemma {:induction false} MaskedShowsIt(s: string, secrets: seq<string>)
    requires AllFilled(secrets)
    ensures Masked(s, secrets) == s || '*' in Masked(s, secrets)
    ensures '*' in s ==> '*' in Masked(s, secrets)
    decreases |secrets|
  {
    if secrets != [] {
      ReplaceShowsIt(s, secrets[0]);
      MaskedShowsIt(ReplaceAll(s, secrets[0]), secrets[1..]);
    }
  }

  /** Every sturdy fragment of the masked text, one without asterisks to begin with, is a fragment of the input. */
  lemma {:induction false} MaskingAddsNothing(s: string, secrets: seq<string>, t: string)
    requires AllFilled(secrets) && Sturdy(t) && Occurs(t, Masked(s, secrets))
    ensures Occurs(t, s)
    decreases |secrets|
  {
    if secrets != [] {
      MaskingAddsNothing(ReplaceAll(s, secrets[0]), secrets[1..], t);
      var i :| OccursAt(t, ReplaceAll(s, secrets[0]), i);
      FragmentsStay(s, secrets[0], t, i);
    }
  }

  /** Completeness: a sturdy secret is not left in the masked text, whatever the order and the other secrets. */
  lemma {:induction false} NoSecretIsLeft(s: string, secrets: seq<string>, k: nat)
    requires AllFilled(secrets) && k < |secrets| && Sturdy(secrets[k])
    ensures !Occurs(secrets[k], Masked(s, secrets))
    decreases |secrets|
  {
    var next := ReplaceAll(s, secrets[0]);
    if k > 0 {
      NoSecretIsLeft(next, secrets[1..], k - 1);
    } else if Occurs(secrets[0], Masked(s, secrets)) {
      MaskingAddsNothing(next, secrets[1..], secrets[0]);
      var i :| OccursAt(secrets[0], next, i);
      SecretIsGone(s, secrets[0], i);
    }
  }

  lemma {:induction false} CleanStays(s: string, secrets: seq<string>)
    requires AllFilled(secrets) && forall k :: 0 <= k < |secrets| ==> !Occurs(secrets[k], s)
    ensures Masked(s, secrets) == s
    decreases |secrets|
  {
    if secrets != [] {
      AbsentChangesNothing(s, secrets[0]);
      CleanStays(s, secrets[1..]);
    }
  }

  lemma {:induction false} SliceOfSlice(c: string, lo: nat, hi: nat, x: nat, y: nat)
    requires lo <= hi <= |c| && x <= y <= hi - lo
    ensures c[lo..hi][x..y] == c[lo + x..lo + y]
  {
    var part := c[lo..hi];
    forall k | 0 <= k < y - x ensures part[x..y][k] == c[lo + x..lo + y][k] {
      assert part[x + k] == c[lo + x + k];
    }
  }

  lemma {:induction false} OccursWithin(a: string, b: string, c: string)
    requires Occurs(a, b) && Occurs(b, c)
    ensures Occurs(a, c)
  {
    var i :| OccursAt(a, b, i);
    var j :| OccursAt(b, c, j);
    SliceOfSlice(c, j, j + |b|, i, i + |a|);
    assert OccursAt(a, c, j + i);
  }

  /** So no secret of a guarded list is left. */
  lemma {:induction false} NoGuardedSecretIsLeft(s: string, secrets: seq<string>, k: nat)
    requires AllFilled(secrets) && Guarded(secrets) && k < |secrets|
    ensures !Occurs(secrets[k], Masked(s, secrets))
  {
    assert HoldsSturdy(secrets[k], secrets);
    var g :| g in secrets && Guards(g, secrets[k]);
    var j :| 0 <= j < |secrets| && secrets[j] == g;
    NoSecretIsLeft(s, secrets, j);
    if Occurs(secrets[k], Masked(s, secrets)) { OccursWithin(g, secrets[k], Masked(s, secrets)); }
  }

  /** Masking twice is masking once. */
  lemma {:induction false} MaskingIsIdempotent(s: string, secrets: seq<string>)
    requires AllFilled(secrets) && Guarded(secrets)
    ensures Masked(Masked(s, secrets), secrets) == Masked(s, secrets)
  {
    forall k | 0 <= k < |secrets| ensures !Occurs(secrets[k], Masked(s, secrets)) { NoGuardedSecretIsLeft(s, secrets, k); }
    CleanStays(Masked(s, secrets), secrets);
  }

  // ---- Secrets that survive

  ghost predicate FirstAt(secret: string, s: string, p: int) {
    OccursAt(secret, s, p) && forall q :: 0 <= q < p ==> !OccursAt(secret, s, q)
  }

  /** The first occurrence is replaced, and the rest of the text after it. */
  lemma {:induction false} ReplaceAtFirst(s: string, secret: string, p: nat)
    requires secret != "" && FirstAt(secret, s, p)
    ensures ReplaceAll(s, secret) == s[..p] + (Mask + ReplaceAll(s[p + |secret|..], secret))
    decreases p
  {
    if p == 0 {
      ReplaceHead(s, secret);
    } else {
      FirstInTail(secret, s, p);
      ReplaceStep(s, secret);
      ReplaceAtFirst(s[1..], secret, p - 1);
      Rejoined(s, secret, p, ReplaceAll(s[1..], secret));
    }
  }

  lemma {:induction false} ReplaceHead(s: string, secret: string)
    requires secret != "" && OccursAt(secret, s, 0)
    ensures ReplaceAll(s, secret) == s[..0] + (Mask + ReplaceAll(s[0 + |secret|..], secret))
  {
    assert s[0..0 + |secret|] == secret;
  }

  lemma {:induction false} ReplaceStep(s: string, secret: string)
    requires secret != "" && |s| >= |secret| && !OccursAt(secret, s, 0)
    ensures ReplaceAll(s, secret) == [s[0]] + ReplaceAll(s[1..], secret)
  {
  }

  lemma {:induction false} FirstInTail(secret: string, s: string, p: nat)
    requires FirstAt(secret, s, p) && p > 0
    ensures |s| >= |secret| && !OccursAt(secret, s, 0) && FirstAt(secret, s[1..], p - 1)
  {
    ShiftedOccurrence(secret, s, p - 1);
    forall q | 0 <= q < p - 1 ensures !OccursAt(secret, s[1..], q) { ShiftedOccurrence(secret, s, q); }
  }

  lemma {:induction false} ShiftedOccurrence(t: string, s: string, q: nat)
    requires s != ""
    ensures OccursAt(t, s[1..], q) <==> OccursAt(t, s, q + 1)
  {
    if q + 1 + |t| <= |s| { assert s[1..][q..q + |t|] == s[q + 1..q + 1 + |t|]; }
  }

  lemma {:induction false} Rejoined(s: string, secret: string, p: nat, masked: string)
    requires secret != "" && 0 < p <= |s| - |secret|
    requires masked == s[1..][..p - 1] + (Mask + ReplaceAll(s[1..][p - 1 + |secret|..], secret))
    ensures [s[0]] + masked == s[..p] + (Mask + ReplaceAll(s[p + |secret|..], secret))
  {
    assert s[1..][p - 1 + |secret|..] == s[p + |secret|..];
    assert [s[0]] + s[1..][..p - 1] == s[..p];
  }

  lemma {:induction false} FirstMask(t: string) returns (i: nat)
    requires Occurs(Mask, t)
    ensures OccursAt(Mask, t, i) && forall q :: 0 <= q < i ==> !OccursAt(Mask, t, q)
  {
    var some :| OccursAt(Mask, t, some);
    i := 0;
    while !OccursAt(Mask, t, i)
      invariant i <= some && forall q :: 0 <= q < i ==> !OccursAt(Mask, t, q)
      decreases some - i
    {
      i := i + 1;
    }
  }

  /** A text that overlaps itself from its own start repeats. */
  lemma {:induction false} SelfOverlap(u: string, t: string, v: string, p: nat)
    requires u <= t && p < |u|
    ensures OccursAt(t, u + t + v, p) ==> t[0] == t[p] && forall i :: |u| <= i < |t| ==> t[i] == t[i - |u| + p]
  {
    var s := u + t + v;
    if OccursAt(t, s, p) {
      forall i | |u| <= i < |t| ensures t[i] == t[i - |u| + p] {
        assert s[p..p + |t|][i] == s[p + i] == t[p + i - |u|];
      }
      assert s[p..p + |t|][0] == s[p] == u[p];
    }
  }

  /** The first three asterisks of a text stand no earlier, so no earlier copy of it overlaps it. */
  lemma {:induction false} NoEarlierCopy(t: string, i: nat, p: nat)
    requires p < i && OccursAt(Mask, t, i) && !OccursAt(Mask, t, p)
    ensures !OccursAt(t, t[..i] + t + t[i + 3..], p)
  {
    SelfOverlap(t[..i], t, t[i + 3..], p);
    assert t[i..i + 3][0] == t[i] && t[i..i + 3][1] == t[i + 1] && t[i..i + 3][2] == t[i + 2];
    ThreeInARow(t, p);
  }

  lemma {:induction false} ThreeInARow(t: string, p: nat)
    ensures p + 3 <= |t| && t[p] == '*' && t[p + 1] == '*' && t[p + 2] == '*' ==> OccursAt(Mask, t, p)
  {
    if p + 3 <= |t| && t[p] == '*' && t[p + 1] == '*' && t[p + 2] == '*' { assert t[p..p + 3] == Mask; }
  }

  /** A secret with three asterisks in a row is built again around the mask of its own replacement. */
  lemma {:induction false} InnerMaskSurvives(t: string) returns (s: string)
    requires Occurs(Mask, t)
    ensures ReplaceAll(s, t) == t
  {
    var i := FirstMask(t);
    var u, v := t[..i], t[i + 3..];
    s := u + t + v;
    assert s[i..i + |t|] == t && s[i + |t|..] == v;
    forall p | 0 <= p < i ensures !OccursAt(t, s, p) { NoEarlierCopy(t, i, p); }
    ReplaceAtFirst(s, t, i);
    assert ReplaceAll(v, t) == v;
    assert s[..i] == u && t == u + (Mask + v);
  }

  lemma {:induction false} OpeningSurvives(t: string) returns (s: string)
    requires t != "" && t[0] == '*'
    ensures Occurs(t, ReplaceAll(s, t))
  {
    s := t + t[1..];
    assert s[..|t|] == t && s[|t|..] == t[1..];
    assert OccursAt(t, s, 0);
    ReplaceAtFirst(s, t, 0);
    var r := Mask + t[1..];
    assert ReplaceAll(s, t) == r;
    assert r[2..2 + |t|] == t;
    assert OccursAt(t, r, 2);
  }

  lemma {:induction false} ClosingSurvives(t: string) returns (s: string)
    requires t != "" && t[0] != '*' && t[|t| - 1] == '*'
    ensures Occurs(t, ReplaceAll(s, t))
  {
    var w := t[..|t| - 1];
    s := w + t;
    assert s[|w|..|w| + |t|] == t && s[|w| + |t|..] == "" && s == w + t + "";
    forall p | 0 <= p < |w| ensures !OccursAt(t, s, p) {
      SelfOverlap(w, t, "", p);
    }
    ReplaceAtFirst(s, t, |w|);
    var r := w + Mask;
    assert ReplaceAll(s, t) == w + (Mask + ReplaceAll("", t)) == r;
    assert r[0..|t|] == t;
    assert OccursAt(t, r, 0);
  }

  ghost predicate Survives(t: string, s: string) {
    t != "" && Occurs(t, ReplaceAll(s, t))
  }

  /** Exactly, for one secret: some text keeps it if and only if it starts or ends with an asterisk or holds three in a row. */
  lemma {:induction false} SecretSurvivesExactly(t: string)
    requires t != ""
    ensures (exists s :: Survives(t, s)) <==> t[0] == '*' || t[|t| - 1] == '*' || Occurs(Mask, t)
  {
    if Occurs(Mask, t) {
      var s := InnerMaskSurvives(t);
      assert OccursAt(t, ReplaceAll(s, t), 0);
      assert Survives(t, s);
    } else if t[0] == '*' {
      var s := OpeningSurvives(t);
      assert Survives(t, s);
    } else if t[|t| - 1] == '*' {
      var s := ClosingSurvives(t);
      assert Survives(t, s);
    } else if s :| Survives(t, s) {
      var i :| OccursAt(t, ReplaceAll(s, t), i);
      SecretIsGone(s, t, i);
    }
  }

  /** Some list that holds the secret leaves it in some text. */
  ghost predicate LeftBy(t: string, s: string, secrets: seq<string>) {
    AllFilled(secrets) && t in secrets && Occurs(t, Masked(s, secrets))
  }

  /** Exactly, for a secret among any others: no list leaves it in any text if and only if it is sturdy. */
  lemma {:induction false} NeverLeftExactly(t: string)
    requires t != ""
    ensures Sturdy(t) <==> forall s, secrets :: !LeftBy(t, s, secrets)
  {
    SecretSurvivesExactly(t);
    if Sturdy(t) {
      forall s, secrets ensures !LeftBy(t, s, secrets) {
        if AllFilled(secrets) && t in secrets {
          var k :| 0 <= k < |secrets| && secrets[k] == t;
          NoSecretIsLeft(s, secrets, k);
        }
      }
    } else {
      var s :| Survives(t, s);
      assert [t][1..] == [] && Masked(s, [t]) == ReplaceAll(s, t);
      assert LeftBy(t, s, [t]);
    }
  }

  /** The shortest such case: the mask itself completes the secret again. */
  lemma {:induction false} AsteriskSecretSurvives()
    ensures Masked("aa*", ["a*"]) == "a***" && Occurs("a*", Masked("aa*", ["a*"]))
  {
    assert "aa*"[1..] == "a*" && "a*"[2..] == "";
    assert ReplaceAll("a*", "a*") == "***";
    assert ReplaceAll("aa*", "a*") == "a***";
    assert OccursAt("a*", "a***", 0);
  }

  // ---- Longest first

  predicate LongestFirst(secrets: seq<string>) {
    forall i, j :: 0 <= i < j < |secrets| ==> |secrets[i]| >= |secrets[j]|
  }

  /** No secret is a run of up to three asterisks. */
  ghost predicate OffMask(secrets: seq<string>) {
    forall k :: 0 <= k < |secrets| ==> !Occurs(secrets[k], Mask)
  }

  lemma {:induction false} SturdyIsOffMask(g: string)
    requires Sturdy(g)
    ensures !Occurs(g, Mask)
  {
    forall i ensures !OccursAt(g, Mask, i) { }
  }

  lemma {:induction false} GuardedIsOffMask(secrets: seq<string>)
    requires Guarded(secrets)
    ensures OffMask(secrets)
  {
    forall k | 0 <= k < |secrets| ensures !Occurs(secrets[k], Mask) {
      assert HoldsSturdy(secrets[k], secrets);
      var g :| g in secrets && Guards(g, secrets[k]);
      SturdyIsOffMask(g);
      if Occurs(secrets[k], Mask) { OccursWithin(g, secrets[k], Mask); }
    }
  }

  lemma {:induction false} ReplaceSelf(s: string)
    requires s != ""
    ensures ReplaceAll(s, s) == Mask
  {
    assert s[|s|..] == "" && ReplaceAll("", s) == "";
  }

  /** Longest first masks a secret whole, even when another secret is part of it. */
  lemma {:induction false} SecretsAreMaskedWhole(secrets: seq<string>, k: nat)
    requires AllFilled(secrets) && OffMask(secrets) && LongestFirst(secrets) && k < |secrets|
    ensures Masked(secrets[k], secrets) == Mask
    decreases |secrets|
  {
    var s, first := secrets[k], secrets[0];
    if first == s {
      ReplaceSelf(s);
      CleanStays(Mask, secrets[1..]);
    } else {
      assert |first| >= |s|;
      assert !Occurs(first, s) by {
        forall i ensures !OccursAt(first, s, i) { assert s[0..|s|] == s; }
      }
      AbsentChangesNothing(s, first);
      SecretsAreMaskedWhole(secrets[1..], k - 1);
    }
  }
}
