/** The order in which the sequential engine takes nodes, as a property of the graph alone. */
module CoreOrder {
  import opened Graphs
  import opened References
  import opened Flows
  import opened EngineGraph
  import opened SortedNames

  ghost predicate Available(f: Flow, done: set<Id>, n: Id) {
    n in Ids(f) && n !in done && forall p :: p in Sources(f.edges, n) ==> p in done
  }

  function SetOf(s: seq<Id>): set<Id> { set x | x in s }

  /** Each node is the least of those whose predecessors all came before it. */
  ghost predicate TakesLeast(f: Flow, order: seq<Id>, k: nat)
    requires k < |order|
  {
    && Available(f, SetOf(order[..k]), order[k])
    && forall m :: Available(f, SetOf(order[..k]), m) && m != order[k] ==> Less(order[k], m)
  }

  ghost predicate Greedy(f: Flow, order: seq<Id>) {
    forall k {:trigger TakesLeast(f, order, k)} :: 0 <= k < |order| ==> TakesLeast(f, order, k)
  }

  /** A topological order of the whole graph. */
  ghost predicate Topological(f: Flow, t: seq<Id>) {
    && SetOf(t) == Ids(f)
    && forall k :: 0 <= k < |t| ==> Available(f, SetOf(t[..k]), t[k])
  }

  /** The lexicographically least topological order of the graph. */
  ghost predicate LeastOrder(f: Flow, order: seq<Id>) {
    Topological(f, order) && forall t :: Topological(f, t) ==> order == t || ListLess(order, t)
  }

  lemma {:induction false} GreedyIsTopological(f: Flow, order: seq<Id>)
    requires Greedy(f, order) && SetOf(order) == Ids(f)
    ensures Topological(f, order)
  {
    forall k | 0 <= k < |order| ensures Available(f, SetOf(order[..k]), order[k]) {
      assert TakesLeast(f, order, k);
    }
  }

  lemma {:induction false} TopologicalHasNoRepeats(f: Flow, t: seq<Id>, k: nat)
    requires Topological(f, t) && k <= |t|
    ensures |SetOf(t[..k])| == k
  {
    if k > 0 {
      TopologicalHasNoRepeats(f, t, k - 1);
      assert Available(f, SetOf(t[..k - 1]), t[k - 1]);
      assert t[..k] == t[..k - 1] + [t[k - 1]];
      assert SetOf(t[..k]) == SetOf(t[..k - 1]) + {t[k - 1]};
    }
  }

  lemma {:induction false} TopologicalLength(f: Flow, t: seq<Id>)
    requires Topological(f, t)
    ensures |t| == |Ids(f)|
  {
    TopologicalHasNoRepeats(f, t, |t|);
    assert t[..|t|] == t;
  }

  /** Where two lists of the same length first differ. */
  lemma {:induction false} FirstDifference(a: seq<Id>, b: seq<Id>) returns (k: nat)
    requires |a| == |b| && a != b
    ensures k < |a| && a[..k] == b[..k] && a[k] != b[k]
  {
    if a[0] != b[0] {
      k := 0;
    } else {
      assert a == [a[0]] + a[1..] && b == [b[0]] + b[1..];
      var j := FirstDifference(a[1..], b[1..]);
      k := j + 1;
      assert a[..k] == [a[0]] + a[1..][..j] && b[..k] == [b[0]] + b[1..][..j];
    }
  }

  /** A complete greedy order comes before every other topological order of the graph. */
  lemma {:induction false} GreedyIsLeast(f: Flow, order: seq<Id>, t: seq<Id>)
    requires Greedy(f, order) && SetOf(order) == Ids(f) && Topological(f, t)
    ensures order == t || ListLess(order, t)
  {
    GreedyIsTopological(f, order);
    TopologicalLength(f, order);
    TopologicalLength(f, t);
    if order != t {
      var k := FirstDifference(order, t);
      assert TakesLeast(f, order, k);
      assert Available(f, SetOf(t[..k]), t[k]);
    }
  }

  /** A topological order ranks the graph. */
  lemma {:induction false} TopologicalIsAcyclic(f: Flow, t: seq<Id>)
    requires Within(EdgeSet(f), Ids(f)) && Topological(f, t)
    ensures Acyclic(EdgeSet(f))
  {
    var rank := map n | n in Ids(f) :: Position(t, n);
    forall e | e in EdgeSet(f) ensures rank[e.source] < rank[e.target] {
      InSources(f.edges, e.source, e.target);
      var k := Position(t, e.target);
      assert Available(f, SetOf(t[..k]), t[k]);
      PositionBefore(t, e.source, k);
    }
    RankedIsAcyclic(EdgeSet(f), rank);
  }

  function Position(t: seq<Id>, n: Id): (k: nat)
    ensures k <= |t| && (n in t ==> k < |t| && t[k] == n)
  {
    if t == [] then 0
    else if t[0] == n then 0
    else
      assert t == [t[0]] + t[1..];
      1 + Position(t[1..], n)
  }

  lemma {:induction false} PositionBefore(t: seq<Id>, n: Id, k: nat)
    requires k <= |t| && n in t[..k]
    ensures Position(t, n) < k
  {
    if t[0] != n {
      assert t[..k] == [t[0]] + t[1..][..k - 1];
      PositionBefore(t[1..], n, k - 1);
    }
  }

  /** When nothing is available any more in an acyclic graph, nothing is left. */
  lemma {:induction false} StuckMeansComplete(f: Flow, done: set<Id>)
    requires Within(EdgeSet(f), Ids(f)) && Acyclic(EdgeSet(f)) && done <= Ids(f)
    requires forall n :: !Available(f, done, n)
    ensures done == Ids(f)
  {
    var rank := AcyclicHasRank(Ids(f), EdgeSet(f));
    var open := Ids(f) - done;
    assert Ids(f) == done + open;
    if open != {} {
      var n := LowestRank(rank, open);
      forall p | p in Sources(f.edges, n) ensures p in done {
        InSources(f.edges, p, n);
        assert Edge(p, n) in EdgeSet(f);
        assert RankOr(rank, p) < RankOr(rank, n);
      }
      assert Available(f, done, n);
    }
  }
}
