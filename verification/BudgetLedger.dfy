/** The response budget as a ledger of shares, under any interleaving of the bodies that share it. */
module BudgetLedger {

  /** Budget bytes a kept body byte costs. */
  const BodyWeight := 2

  /** A reservation. */
  type Rid = nat

  /** How much each reservation holds, the counter of bytes in use, and the body bytes each reservation's body keeps. */
  datatype Shares = Shares(size: int, inUse: int, held: map<Rid, int>, kept: map<Rid, int>)

  ghost function Total(held: map<Rid, int>): int {
    if held == map[] then 0 else var k :| k in held; held[k] + Total(held - {k})
  }

  /** The sum does not depend on the order it is taken in. */
  lemma {:induction false} TotalWithout(held: map<Rid, int>, k: Rid)
    requires k in held
    ensures Total(held) == held[k] + Total(held - {k})
    decreases |held|
  {
    var first :| first in held && Total(held) == held[first] + Total(held - {first});
    if first != k {
      TotalWithout(held - {first}, k);
      TotalWithout(held - {k}, first);
      assert held - {first} - {k} == held - {k} - {first};
    }
  }

  function Held(held: map<Rid, int>, k: Rid): int {
    if k in held then held[k] else 0
  }

  lemma {:induction false} TotalUpdate(held: map<Rid, int>, k: Rid, v: int)
    ensures Total(held[k := v]) == Total(held) - Held(held, k) + v
  {
    var after := held[k := v];
    TotalWithout(after, k);
    if k in held {
      TotalWithout(held, k);
      assert after - {k} == held - {k};
    } else {
      assert after - {k} == held;
    }
  }

  function Min(a: int, b: int): int { if a < b then a else b }

  function Max(a: int, b: int): int { if a < b then b else a }

  /** What a reservation grows to for n body bytes. */
  function Goal(size: int, n: int): int { Min(n * BodyWeight, size) }

  /** growTo when its bytes are granted: the semaphore grants them only when they are free. */
  ghost predicate Grows(s: Shares, s': Shares, k: Rid, n: int) {
    var want := Goal(s.size, n);
    if want <= Held(s.held, k) then s' == s
    else
      && s.inUse + (want - Held(s.held, k)) <= s.size
      && s' == s.(inUse := s.inUse + (want - Held(s.held, k)), held := s.held[k := want])
  }

  /** A read into a buffer whose growth was reserved: the body keeps n bytes now. */
  ghost predicate Keeps(s: Shares, s': Shares, k: Rid, n: int) {
    Held(s.held, k) >= Goal(s.size, n) && s' == s.(kept := s.kept[k := n])
  }

  /** What a shrink to n bytes leaves. */
  function Shrunk(s: Shares, k: Rid, n: int): Shares {
    if n * BodyWeight >= Held(s.held, k) then s
    else s.(inUse := s.inUse - (Held(s.held, k) - n * BodyWeight), held := s.held[k := n * BodyWeight])
  }

  /** shrinkTo, never below what the body keeps. */
  ghost predicate Shrinks(s: Shares, s': Shares, k: Rid, n: int) {
    n >= Held(s.kept, k) && s' == Shrunk(s, k, n)
  }

  /** release: the body is given up with all it held. */
  ghost predicate Releases(s: Shares, s': Shares, k: Rid) {
    s' == Shrunk(s, k, 0).(kept := s.kept[k := 0])
  }

  ghost predicate MovesOne(s: Shares, s': Shares, k: Rid, n: int) {
    n >= 0 && (Grows(s, s', k, n) || Keeps(s, s', k, n) || Shrinks(s, s', k, n) || Releases(s, s', k))
  }

  /** One step of any body; a wait that times out changes nothing. */
  ghost predicate Moves(s: Shares, s': Shares) {
    s' == s || exists k, n :: MovesOne(s, s', k, n)
  }

  /** Every live body holds twice what it keeps, or the whole budget. */
  ghost predicate Covered(s: Shares) {
    forall k :: k in s.kept ==> s.kept[k] >= 0 && Held(s.held, k) >= Goal(s.size, s.kept[k])
  }

  /** The counter is the sum of what is held, and never exceeds the budget. */
  ghost predicate Balanced(s: Shares) {
    && s.inUse == Total(s.held) && 0 <= s.inUse <= s.size
    && forall k :: k in s.held ==> 0 <= s.held[k] <= s.size
  }

  lemma {:induction false} TotalIsPositive(held: map<Rid, int>)
    requires forall k :: k in held ==> held[k] >= 0
    ensures Total(held) >= 0
    decreases |held|
  {
    if held != map[] {
      var k :| k in held && Total(held) == held[k] + Total(held - {k});
      TotalIsPositive(held - {k});
    }
  }

  lemma {:induction false} GrowKeeps(s: Shares, s': Shares, k: Rid, n: int)
    requires Balanced(s) && Covered(s) && n >= 0 && Grows(s, s', k, n)
    ensures Balanced(s') && Covered(s')
  {
    TotalUpdate(s.held, k, Goal(s.size, n));
  }

  lemma {:induction false} ShrinkKeeps(s: Shares, s': Shares, k: Rid, n: int)
    requires Balanced(s) && Covered(s) && n >= 0 && Shrinks(s, s', k, n)
    ensures Balanced(s') && Covered(s')
  {
    TotalUpdate(s.held, k, n * BodyWeight);
    TotalIsPositive(s'.held);
  }

  lemma {:induction false} ReleaseKeeps(s: Shares, s': Shares, k: Rid)
    requires Balanced(s) && Covered(s) && Releases(s, s', k)
    ensures Balanced(s') && Covered(s') && Held(s'.held, k) == Held(s'.kept, k) == 0
    ensures s'.inUse == s.inUse - Held(s.held, k)
  {
    TotalUpdate(s.held, k, 0);
    TotalIsPositive(s'.held);
  }

  lemma {:induction false} MoveKeeps(s: Shares, s': Shares)
    requires Balanced(s) && Covered(s) && Moves(s, s')
    ensures Balanced(s') && Covered(s') && s'.size == s.size
  {
    if s' != s {
      var k, n :| MovesOne(s, s', k, n);
      if Grows(s, s', k, n) {
        GrowKeeps(s, s', k, n);
      } else if Shrinks(s, s', k, n) {
        ShrinkKeeps(s, s', k, n);
      } else if Releases(s, s', k) {
        ReleaseKeeps(s, s', k);
      }
    }
  }

  ghost predicate History(trace: seq<Shares>) {
    && trace != [] && trace[0] == Shares(trace[0].size, 0, map[], map[]) && trace[0].size > 0
    && forall i :: 0 <= i < |trace| - 1 ==> Moves(trace[i], trace[i + 1])
  }

  /** Whatever the bodies do, and in whatever order, the budget is never exceeded and every kept byte is paid for. */
  lemma {:induction false} AlwaysBalanced(trace: seq<Shares>, i: nat)
    requires History(trace) && i < |trace|
    ensures Balanced(trace[i]) && Covered(trace[i]) && trace[i].size == trace[0].size
  {
    if i == 0 {
      assert Total(map[]) == 0;
    } else {
      AlwaysBalanced(trace, i - 1);
      assert Moves(trace[i - 1], trace[i - 1 + 1]);
      MoveKeeps(trace[i - 1], trace[i]);
    }
  }

  // ---- What the bodies may keep

  lemma {:induction false} TwoSharesFit(s: Shares, a: Rid, b: Rid)
    requires Balanced(s) && a != b
    ensures Held(s.held, a) + Held(s.held, b) <= s.inUse
  {
    var rest := s.held;
    if a in rest {
      TotalWithout(rest, a);
      rest := rest - {a};
    }
    if b in rest {
      TotalWithout(rest, b);
      rest := rest - {b};
    }
    TotalIsPositive(rest);
  }

  lemma {:induction false} KeptIsHeld(kept: map<Rid, int>, held: map<Rid, int>)
    requires forall k :: k in kept ==> 2 * kept[k] <= Held(held, k)
    requires forall k :: k in held ==> held[k] >= 0
    ensures 2 * Total(kept) <= Total(held)
    decreases |kept|
  {
    if kept == map[] {
      TotalIsPositive(held);
    } else {
      var k :| k in kept && Total(kept) == kept[k] + Total(kept - {k});
      if k in held {
        TotalWithout(held, k);
        KeptIsHeld(kept - {k}, held - {k});
      } else {
        KeptIsHeld(kept - {k}, held);
      }
    }
  }

  /** One body holds the whole budget, and every other body keeps nothing. */
  ghost predicate Alone(s: Shares, k: Rid) {
    k in s.kept && Held(s.held, k) == s.size && forall m :: m in s.kept && m != k ==> s.kept[m] == 0
  }

  lemma {:induction false} HalfOrAlone(s: Shares)
    requires Balanced(s) && Covered(s) && s.size > 0
    ensures 2 * Total(s.kept) <= s.size || exists k :: Alone(s, k)
  {
    var kept := s.kept;
    if k :| k in kept && 2 * kept[k] > s.size {
      assert Held(s.held, k) >= s.size;
      if k in s.held {
        TotalWithout(s.held, k);
        TotalIsPositive(s.held - {k});
      }
      forall m | m in kept && m != k ensures kept[m] == 0 {
        TwoSharesFit(s, k, m);
      }
      assert Alone(s, k);
    } else {
      KeptIsHeld(kept, s.held);
    }
  }

  /**
   * The memory bound, in every reachable state: either all kept bytes together are at most half the budget, or one
   * body holds all of it and every other body keeps nothing.
   */
  lemma {:induction false} HalfTheBudgetOrAlone(trace: seq<Shares>, i: nat)
    requires History(trace) && i < |trace|
    ensures 2 * Total(trace[i].kept) <= trace[i].size || exists k :: Alone(trace[i], k)
  {
    AlwaysBalanced(trace, i);
    HalfOrAlone(trace[i]);
  }
}
