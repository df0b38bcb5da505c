/** Matching received requests to expected events: a greedy assignment, judged poll by poll. */
module Expectations {
  import opened References

  datatype Request = Request(id: string, verb: string, body: string)

  /** An expected event: its bounds, whether its references had values, and which requests satisfy its assertions. */
  datatype Group = Group(name: string, min: Option<int>, max: Option<int>, unresolved: bool, satisfies: Request -> bool)

  function Minimum(g: Group): int {
    if g.min.None? then 1 else g.min.value
  }

  /** What validateExpectations lets through. */
  predicate Configured(groups: seq<Group>) {
    forall k :: 0 <= k < |groups| ==>
      Minimum(groups[k]) >= 0 && (groups[k].max.Some? ==> groups[k].max.value >= Minimum(groups[k]))
  }

  predicate Fits(g: Group, r: Request) {
    !g.unresolved && g.satisfies(r)
  }

  /** Per group, the requests it claimed and the requests that satisfy it, oldest first; and who claimed each request. */
  datatype Assignment = Assignment(claims: seq<seq<nat>>, matches: seq<seq<nat>>, claimedBy: map<nat, nat>)

  function Empty(n: nat): seq<seq<nat>> {
    seq(n, i => [])
  }

  predicate Shaped(groups: seq<Group>, a: Assignment) {
    |a.claims| == |groups| && |a.matches| == |groups|
  }

  predicate Needs(groups: seq<Group>, claims: seq<seq<nat>>, k: nat)
    requires k < |groups| && |claims| == |groups|
  {
    |claims[k]| < Minimum(groups[k])
  }

  /** The first group the request fits that still needs events, else the first it fits. */
  predicate Chosen(groups: seq<Group>, claims: seq<seq<nat>>, r: Request, k: int)
    requires |claims| == |groups|
  {
    if exists j :: 0 <= j < |groups| && Fits(groups[j], r) && Needs(groups, claims, j) then
      && 0 <= k < |groups| && Fits(groups[k], r) && Needs(groups, claims, k)
      && forall j :: 0 <= j < k ==> !(Fits(groups[j], r) && Needs(groups, claims, j))
    else if exists j :: 0 <= j < |groups| && Fits(groups[j], r) then
      0 <= k < |groups| && Fits(groups[k], r) && forall j :: 0 <= j < k ==> !Fits(groups[j], r)
    else k == -1
  }

  lemma {:induction false} ChosenIsUnique(groups: seq<Group>, claims: seq<seq<nat>>, r: Request, k: int, m: int)
    requires |claims| == |groups| && Chosen(groups, claims, r, k) && Chosen(groups, claims, r, m)
    ensures k == m
  {
  }

  /** Appending request number i to the lists of the groups it belongs to. */
  ghost predicate Extends(groups: seq<Group>, a: Assignment, a': Assignment, r: Request, i: nat) {
    && Shaped(groups, a) && Shaped(groups, a')
    && exists k: int :: Claimed(groups, a, a', r, i, k)
  }

  ghost predicate Claimed(groups: seq<Group>, a: Assignment, a': Assignment, r: Request, i: nat, k: int)
    requires Shaped(groups, a) && Shaped(groups, a')
  {
    && Chosen(groups, a.claims, r, k)
    && a'.claims == (if k >= 0 then a.claims[k := a.claims[k] + [i]] else a.claims)
    && a'.claimedBy == (if k >= 0 then a.claimedBy[i := k] else a.claimedBy)
    && forall g :: 0 <= g < |groups| ==> a'.matches[g] == if Fits(groups[g], r) then a.matches[g] + [i] else a.matches[g]
  }

  /** The assignment of these requests: each in turn, by the rule above. */
  ghost predicate Assigns(groups: seq<Group>, items: seq<Request>, a: Assignment)
    decreases |items|
  {
    if items == [] then a == Assignment(Empty(|groups|), Empty(|groups|), map[])
    else
      var front, n := items[..|items| - 1], |items| - 1;
      exists before {:trigger Assigns(groups, front, before)} ::
        Assigns(groups, front, before) && Extends(groups, before, a, items[n], n)
  }

  /** assignRequests, one request. */
  method AssignOne(groups: seq<Group>, a: Assignment, r: Request, i: nat) returns (a': Assignment)
    requires Shaped(groups, a)
    ensures Extends(groups, a, a', r, i)
  {
    var matches := a.matches;
    var chosen: int, needed := -1, false;
    for g := 0 to |groups|
      invariant |matches| == |groups|
      invariant forall j :: 0 <= j < g ==> matches[j] == if Fits(groups[j], r) then a.matches[j] + [i] else a.matches[j]
      invariant forall j :: g <= j < |groups| ==> matches[j] == a.matches[j]
      invariant -1 <= chosen < g && (chosen >= 0 ==> Fits(groups[chosen], r))
      invariant needed ==> chosen >= 0 && Needs(groups, a.claims, chosen)
      invariant needed ==> forall j :: 0 <= j < chosen ==> !(Fits(groups[j], r) && Needs(groups, a.claims, j))
      invariant !needed ==> forall j :: 0 <= j < g ==> !(Fits(groups[j], r) && Needs(groups, a.claims, j))
      invariant !needed ==> forall j :: 0 <= j < (if chosen < 0 then g else chosen) ==> !Fits(groups[j], r)
    {
      if groups[g].unresolved || !groups[g].satisfies(r) { continue; }
      matches := matches[g := matches[g] + [i]];
      if needed {
      } else if |a.claims[g]| < Minimum(groups[g]) {
        chosen, needed := g, true;
      } else if chosen < 0 {
        chosen := g;
      }
    }
    if chosen >= 0 {
      a' := Assignment(a.claims[chosen := a.claims[chosen] + [i]], matches, a.claimedBy[i := chosen]);
    } else {
      a' := Assignment(a.claims, matches, a.claimedBy);
    }
    assert Claimed(groups, a, a', r, i, chosen);
  }

  method AssignRequests(groups: seq<Group>, items: seq<Request>) returns (a: Assignment)
    ensures Assigns(groups, items, a)
  {
    a := Assignment(Empty(|groups|), Empty(|groups|), map[]);
    assert items[..0] == [];
    for i := 0 to |items|
      invariant Shaped(groups, a) && Assigns(groups, items[..i], a)
    {
      ghost var before := a;
      a := AssignOne(groups, a, items[i], i);
      assert items[..i + 1][..i] == items[..i];
    }
    assert items[..|items|] == items;
  }

  lemma {:induction false} AssignsShaped(groups: seq<Group>, items: seq<Request>, a: Assignment)
    requires Assigns(groups, items, a)
    ensures Shaped(groups, a)
  {
  }

  lemma {:induction false} ExtendsIsUnique(groups: seq<Group>, a: Assignment, b: Assignment, c: Assignment, r: Request, i: nat)
    requires Extends(groups, a, b, r, i) && Extends(groups, a, c, r, i)
    ensures b == c
  {
    var k: int :| Claimed(groups, a, b, r, i, k);
    var m: int :| Claimed(groups, a, c, r, i, m);
    ChosenIsUnique(groups, a.claims, r, k, m);
    assert b.matches == c.matches;
  }

  /** The requests determine the assignment. */
  lemma {:induction false} AssignmentIsUnique(groups: seq<Group>, items: seq<Request>, a: Assignment, b: Assignment)
    requires Assigns(groups, items, a) && Assigns(groups, items, b)
    ensures a == b
    decreases |items|
  {
    if items != [] {
      var front, last := items[..|items| - 1], items[|items| - 1];
      var a0 :| Assigns(groups, front, a0) && Extends(groups, a0, a, last, |items| - 1);
      var b0 :| Assigns(groups, front, b0) && Extends(groups, b0, b, last, |items| - 1);
      AssignmentIsUnique(groups, front, a0, b0);
      ExtendsIsUnique(groups, a0, a, b, last, |items| - 1);
    }
  }

  // ---- What an assignment means

  /** A group's matches are the requests it fits; its claims are the requests it was given. */
  ghost predicate SoundGroup(groups: seq<Group>, items: seq<Request>, a: Assignment, g: nat)
    requires Shaped(groups, a) && g < |groups|
  {
    && (forall i: nat :: i in a.matches[g] <==> i < |items| && Fits(groups[g], items[i]))
    && (forall i: nat :: i in a.claims[g] <==> i in a.claimedBy && a.claimedBy[i] == g)
  }

  /** A request is claimed by a group it fits, and only left alone when it fits none. */
  ghost predicate SoundRequest(groups: seq<Group>, items: seq<Request>, a: Assignment, i: nat)
    requires i < |items|
  {
    && (i in a.claimedBy ==> a.claimedBy[i] < |groups| && Fits(groups[a.claimedBy[i]], items[i]))
    && ((exists g :: 0 <= g < |groups| && Fits(groups[g], items[i])) ==> i in a.claimedBy)
  }

  ghost predicate Sound(groups: seq<Group>, items: seq<Request>, a: Assignment) {
    && Shaped(groups, a) && (forall i :: i in a.claimedBy ==> i < |items|)
    && (forall g {:trigger SoundGroup(groups, items, a, g)} :: 0 <= g < |groups| ==> SoundGroup(groups, items, a, g))
    && (forall i {:trigger SoundRequest(groups, items, a, i)} :: 0 <= i < |items| ==> SoundRequest(groups, items, a, i))
  }

  lemma {:induction false} ExtendsSound(groups: seq<Group>, items: seq<Request>, a: Assignment, a': Assignment, r: Request)
    requires Sound(groups, items, a) && Extends(groups, a, a', r, |items|)
    ensures Sound(groups, items + [r], a')
  {
    var n := |items|;
    var k: int :| Claimed(groups, a, a', r, n, k);
    forall g | 0 <= g < |groups| ensures SoundGroup(groups, items + [r], a', g) {
      assert SoundGroup(groups, items, a, g);
    }
    forall i | 0 <= i < n + 1 ensures SoundRequest(groups, items + [r], a', i) {
      if i < n {
        assert SoundRequest(groups, items, a, i);
        assert (items + [r])[i] == items[i];
      }
    }
  }

  /** Every request goes to at most one group, one it fits; a request that fits some group is claimed. */
  lemma {:induction false} AssignmentIsSound(groups: seq<Group>, items: seq<Request>, a: Assignment)
    requires Assigns(groups, items, a)
    ensures Sound(groups, items, a)
    decreases |items|
  {
    if items == [] {
      forall g | 0 <= g < |groups| ensures SoundGroup(groups, items, a, g) {
        assert a.matches[g] == [] && a.claims[g] == [];
      }
    } else {
      var front, last := items[..|items| - 1], items[|items| - 1];
      var before :| Assigns(groups, front, before) && Extends(groups, before, a, last, |items| - 1);
      AssignmentIsSound(groups, front, before);
      ExtendsSound(groups, front, before, a, last);
      assert front + [last] == items;
    }
  }

  // ---- Which group gets a request

  /** How many of the first i requests the group was given. */
  function Given(claimedBy: map<nat, nat>, g: nat, i: nat): nat {
    if i == 0 then 0 else Given(claimedBy, g, i - 1) + (if i - 1 in claimedBy && claimedBy[i - 1] == g then 1 else 0)
  }

  lemma {:induction false} GivenAgrees(c: map<nat, nat>, c': map<nat, nat>, g: nat, i: nat)
    requires forall j :: 0 <= j < i ==> (j in c <==> j in c') && (j in c ==> c[j] == c'[j])
    ensures Given(c, g, i) == Given(c', g, i)
  {
    if i > 0 { GivenAgrees(c, c', g, i - 1); }
  }

  /** The group fits the request and was given too few of those before it. */
  ghost predicate Wants(groups: seq<Group>, items: seq<Request>, a: Assignment, g: int, i: nat)
    requires i < |items|
  {
    0 <= g < |groups| && Fits(groups[g], items[i]) && Given(a.claimedBy, g, i) < Minimum(groups[g])
  }

  /** The request goes to the first group that wants it; where none does, to the first that it fits. */
  ghost predicate WellGiven(groups: seq<Group>, items: seq<Request>, a: Assignment, i: nat)
    requires i < |items|
  {
    if exists g :: Wants(groups, items, a, g, i) then
      && i in a.claimedBy && Wants(groups, items, a, a.claimedBy[i], i)
      && forall g :: 0 <= g < a.claimedBy[i] ==> !Wants(groups, items, a, g, i)
    else if exists g :: 0 <= g < |groups| && Fits(groups[g], items[i]) then
      && i in a.claimedBy && a.claimedBy[i] < |groups| && Fits(groups[a.claimedBy[i]], items[i])
      && forall g :: 0 <= g < a.claimedBy[i] ==> !Fits(groups[g], items[i])
    else
      i !in a.claimedBy
  }

  ghost predicate Counted(groups: seq<Group>, a: Assignment, n: nat) {
    && Shaped(groups, a) && (forall i :: i in a.claimedBy ==> i < n)
    && forall g :: 0 <= g < |groups| ==> |a.claims[g]| == Given(a.claimedBy, g, n)
  }

  lemma {:induction false} OneMoreGiven(groups: seq<Group>, a: Assignment, a': Assignment, r: Request, n: nat)
    requires Counted(groups, a, n) && Extends(groups, a, a', r, n)
    ensures Counted(groups, a', n + 1)
    ensures forall j :: 0 <= j < n ==> (j in a.claimedBy <==> j in a'.claimedBy) && (j in a.claimedBy ==> a.claimedBy[j] == a'.claimedBy[j])
  {
    var k: int :| Claimed(groups, a, a', r, n, k);
    forall g | 0 <= g < |groups| ensures |a'.claims[g]| == Given(a'.claimedBy, g, n + 1) {
      GivenAgrees(a.claimedBy, a'.claimedBy, g, n);
    }
  }

  lemma {:induction false} LastIsWellGiven(groups: seq<Group>, items: seq<Request>, before: Assignment, a: Assignment)
    requires items != [] && Counted(groups, before, |items| - 1) && Extends(groups, before, a, items[|items| - 1], |items| - 1)
    ensures WellGiven(groups, items, a, |items| - 1)
  {
    var n := |items| - 1;
    var k: int :| Claimed(groups, before, a, items[n], n, k);
    OneMoreGiven(groups, before, a, items[n], n);
    forall g | 0 <= g < |groups|
      ensures Wants(groups, items, a, g, n) <==> Fits(groups[g], items[n]) && Needs(groups, before.claims, g)
    {
      GivenAgrees(before.claimedBy, a.claimedBy, g, n);
    }
  }

  lemma {:induction false} StaysWellGiven(groups: seq<Group>, items: seq<Request>, a: Assignment, a': Assignment, r: Request, i: nat)
    requires i < |items| && Counted(groups, a, |items|) && Extends(groups, a, a', r, |items|) && WellGiven(groups, items, a, i)
    ensures WellGiven(groups, items + [r], a', i)
  {
    OneMoreGiven(groups, a, a', r, |items|);
    assert (items + [r])[i] == items[i];
    forall g ensures Wants(groups, items + [r], a', g, i) <==> Wants(groups, items, a, g, i) {
      if 0 <= g < |groups| { GivenAgrees(a.claimedBy, a'.claimedBy, g, i); }
    }
  }

  ghost predicate AllWellGiven(groups: seq<Group>, items: seq<Request>, a: Assignment) {
    forall i :: 0 <= i < |items| ==> WellGiven(groups, items, a, i)
  }

  lemma {:induction false} OneMoreWellGiven(groups: seq<Group>, items: seq<Request>, a: Assignment, a': Assignment, r: Request)
    requires Counted(groups, a, |items|) && AllWellGiven(groups, items, a) && Extends(groups, a, a', r, |items|)
    ensures AllWellGiven(groups, items + [r], a')
  {
    var more := items + [r];
    forall i | 0 <= i < |more| ensures WellGiven(groups, more, a', i) {
      if i < |items| {
        StaysWellGiven(groups, items, a, a', r, i);
      } else {
        LastIsWellGiven(groups, more, a, a');
      }
    }
  }

  /** Every request goes to the first group it fits that was given too few before it, else to the first that it fits. */
  lemma {:induction false} GoesWhereNeeded(groups: seq<Group>, items: seq<Request>, a: Assignment)
    requires Assigns(groups, items, a)
    ensures Counted(groups, a, |items|) && AllWellGiven(groups, items, a)
    decreases |items|
  {
    if items != [] {
      var front, last := items[..|items| - 1], items[|items| - 1];
      var before :| Assigns(groups, front, before) && Extends(groups, before, a, last, |items| - 1);
      GoesWhereNeeded(groups, front, before);
      OneMoreGiven(groups, before, a, last, |front|);
      OneMoreWellGiven(groups, front, before, a, last);
      assert front + [last] == items;
    }
  }

  /** With more requests appended, what each group claimed and matched stays in front. */
  ghost predicate Grown(groups: seq<Group>, a: Assignment, a': Assignment) {
    && Shaped(groups, a) && Shaped(groups, a')
    && forall g :: 0 <= g < |groups| ==> a.claims[g] <= a'.claims[g] && a.matches[g] <= a'.matches[g]
  }

  lemma {:induction false} ExtendsGrows(groups: seq<Group>, a: Assignment, a': Assignment, r: Request, i: nat)
    requires Extends(groups, a, a', r, i)
    ensures Grown(groups, a, a')
  {
    var k: int :| Claimed(groups, a, a', r, i, k);
  }

  /** Claims on a prefix of the requests are a prefix of the later claims. */
  lemma {:induction false} ClaimsArePrefixes(groups: seq<Group>, items: seq<Request>, more: seq<Request>, a: Assignment, a': Assignment)
    requires items <= more && Assigns(groups, items, a) && Assigns(groups, more, a')
    ensures Grown(groups, a, a')
    decreases |more|
  {
    AssignsShaped(groups, items, a);
    if |items| == |more| {
      assert items == more;
      AssignmentIsUnique(groups, items, a, a');
    } else {
      var front, last := more[..|more| - 1], more[|more| - 1];
      var before :| Assigns(groups, front, before) && Extends(groups, before, a', last, |more| - 1);
      ClaimsArePrefixes(groups, items, front, a, before);
      ExtendsGrows(groups, before, a', last, |more| - 1);
    }
  }
}
