/** Directed graphs over string ids: paths, reachability and the two faces of acyclicity. */
module Graphs {

  type Id = string

  datatype Edge = Edge(source: Id, target: Id)

  ghost predicate IsPath(es: set<Edge>, p: seq<Id>) {
    && |p| > 0
    && forall i :: 0 <= i < |p| - 1 ==> Edge(p[i], p[i + 1]) in es
  }

  /** p is a path of at least one edge from a to b. */
  ghost predicate Walks(es: set<Edge>, p: seq<Id>, a: Id, b: Id) {
    |p| >= 2 && IsPath(es, p) && p[0] == a && p[|p| - 1] == b
  }

  ghost predicate Reaches(es: set<Edge>, a: Id, b: Id) {
    exists p :: Walks(es, p, a, b)
  }

  ghost predicate Acyclic(es: set<Edge>) {
    forall a :: !Reaches(es, a, a)
  }

  /** Every edge climbs: a rank is a certificate that the graph has no cycle. */
  ghost predicate Ranks(es: set<Edge>, rank: map<Id, nat>) {
    forall e :: e in es ==> e.source in rank && e.target in rank && rank[e.source] < rank[e.target]
  }

  ghost predicate Within(es: set<Edge>, nodes: set<Id>) {
    forall e :: e in es ==> e.source in nodes && e.target in nodes
  }

  lemma {:induction false} EdgeReaches(es: set<Edge>, a: Id, b: Id)
    requires Edge(a, b) in es
    ensures Reaches(es, a, b)
  {
    assert Walks(es, [a, b], a, b);
  }

  lemma {:induction false} ReachesTrans(es: set<Edge>, a: Id, b: Id, c: Id)
    requires Reaches(es, a, b) && Reaches(es, b, c)
    ensures Reaches(es, a, c)
  {
    var p :| Walks(es, p, a, b);
    var q :| Walks(es, q, b, c);
    assert Walks(es, p + q[1..], a, c);
  }

  /** The last edge of a path: everything that reaches b does so through a predecessor of b. */
  lemma {:induction false} ReachesLast(es: set<Edge>, a: Id, b: Id) returns (m: Id)
    requires Reaches(es, a, b)
    ensures Edge(m, b) in es && (m == a || Reaches(es, a, m))
  {
    var p :| Walks(es, p, a, b);
    m := p[|p| - 2];
    assert Edge(p[|p| - 2], p[|p| - 2 + 1]) in es;
    if |p| > 2 {
      assert Walks(es, p[..|p| - 1], a, m);
    }
  }

  lemma {:induction false} PathClimbs(es: set<Edge>, rank: map<Id, nat>, p: seq<Id>)
    requires Ranks(es, rank) && IsPath(es, p) && |p| >= 2
    ensures p[0] in rank && p[|p| - 1] in rank && rank[p[0]] < rank[p[|p| - 1]]
  {
    assert Edge(p[0], p[1]) in es;
    if |p| > 2 {
      PathClimbs(es, rank, p[1..]);
    }
  }

  lemma {:induction false} ReachesClimbs(es: set<Edge>, rank: map<Id, nat>, a: Id, b: Id)
    requires Ranks(es, rank) && Reaches(es, a, b)
    ensures a in rank && b in rank && rank[a] < rank[b]
  {
    var p :| Walks(es, p, a, b);
    PathClimbs(es, rank, p);
  }

  lemma {:induction false} RankedIsAcyclic(es: set<Edge>, rank: map<Id, nat>)
    requires Ranks(es, rank)
    ensures Acyclic(es)
  {
    forall a ensures !Reaches(es, a, a) {
      if Reaches(es, a, a) { ReachesClimbs(es, rank, a, a); }
    }
  }

  /** A sequence without repetition over a set is no longer than the set. */
  lemma {:induction false} DistinctFits(p: seq<Id>, nodes: set<Id>)
    requires forall i :: 0 <= i < |p| ==> p[i] in nodes
    requires forall i, j :: 0 <= i < j < |p| ==> p[i] != p[j]
    ensures |p| <= |nodes|
  {
    if p != [] {
      DistinctFits(p[1..], nodes - {p[0]});
    }
  }

  ghost predicate Preceded(nodes: set<Id>, es: set<Edge>, n: Id) {
    exists m :: m in nodes && Edge(m, n) in es
  }

  /** Where every node has a predecessor, walks of any length exist. */
  lemma {:induction false} BackwardWalk(nodes: set<Id>, es: set<Edge>, k: nat) returns (p: seq<Id>)
    requires nodes != {}
    requires forall n :: n in nodes ==> Preceded(nodes, es, n)
    ensures |p| == k + 1 && IsPath(es, p) && forall i :: 0 <= i < |p| ==> p[i] in nodes
  {
    if k == 0 {
      var n :| n in nodes;
      p := [n];
    } else {
      var q := BackwardWalk(nodes, es, k - 1);
      assert Preceded(nodes, es, q[0]);
      var m :| m in nodes && Edge(m, q[0]) in es;
      p := [m] + q;
    }
  }

  /** A non-empty set of nodes that all have predecessors inside the set holds a cycle. */
  lemma {:induction false} NoSourceHasCycle(nodes: set<Id>, es: set<Edge>)
    requires nodes != {}
    requires forall n :: n in nodes ==> Preceded(nodes, es, n)
    ensures exists a :: a in nodes && Reaches(es, a, a)
  {
    var p := BackwardWalk(nodes, es, |nodes|);
    if forall i, j :: 0 <= i < j < |p| ==> p[i] != p[j] {
      DistinctFits(p, nodes);
    }
    var i, j :| 0 <= i < j < |p| && p[i] == p[j];
    assert Walks(es, p[i..j + 1], p[i], p[i]);
  }

  /** The converse certificate: an acyclic finite graph can be ranked. */
  lemma {:induction false} AcyclicHasRank(nodes: set<Id>, es: set<Edge>) returns (rank: map<Id, nat>)
    requires Within(es, nodes) && Acyclic(es)
    ensures rank.Keys == nodes && Ranks(es, rank)
    decreases |nodes|
  {
    if nodes == {} {
      rank := map[];
    } else {
      if forall n :: n in nodes ==> Preceded(nodes, es, n) {
        NoSourceHasCycle(nodes, es);
      }
      var s :| s in nodes && !Preceded(nodes, es, s);
      var rest := set e | e in es && e.source != s;
      forall a ensures !Reaches(rest, a, a) {
        if Reaches(rest, a, a) {
          var p :| Walks(rest, p, a, a);
          assert Walks(es, p, a, a);
          assert Reaches(es, a, a);
        }
      }
      var r := AcyclicHasRank(nodes - {s}, rest);
      rank := (map n | n in nodes :: if n == s then 0 else r[n] + 1);
    }
  }

  ghost function RankOr(rank: map<Id, nat>, n: Id): nat {
    if n in rank then rank[n] else 0
  }

  lemma {:induction false} LowestRank(rank: map<Id, nat>, ids: set<Id>) returns (n: Id)
    requires ids != {}
    ensures n in ids && forall m :: m in ids ==> RankOr(rank, n) <= RankOr(rank, m)
    decreases ids
  {
    n :| n in ids;
    if ids != {n} {
      var m := LowestRank(rank, ids - {n});
      if RankOr(rank, m) < RankOr(rank, n) { n := m; }
    }
  }
}
