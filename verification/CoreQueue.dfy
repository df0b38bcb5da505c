/** The sorted ready queue of the sequential engine and the in-degrees behind it. */
module CoreQueue {
  import opened Graphs
  import opened References
  import opened Flows
  import opened EngineGraph
  import opened SortedNames
  import opened CoreOrder
  import opened CoreRules

  // ---- In-degrees

  ghost predicate InDegree(f: Flow, indeg: map<Id, int>, done: set<Id>, released: seq<Id>, m: Id) {
    Get(indeg, m, 0) == Waiting(Sources(f.edges, m), done) - Count(released, m)
  }

  /** The in-degrees of the nodes still to process, with the listed successors already decremented. */
  ghost predicate InDegrees(f: Flow, indeg: map<Id, int>, done: set<Id>, released: seq<Id>) {
    forall m {:trigger InDegree(f, indeg, done, released, m)} ::
      m in Ids(f) - done ==> InDegree(f, indeg, done, released, m)
  }

  lemma {:induction false} AvailableIsZero(f: Flow, done: set<Id>, m: Id)
    ensures m in Ids(f) - done ==> (Available(f, done, m) <==> Waiting(Sources(f.edges, m), done) == 0)
  {
  }

  lemma {:induction false} CountOfPart(s: seq<Id>, k: nat, m: Id)
    requires k <= |s|
    ensures Count(s[..k], m) <= Count(s, m)
    decreases |s|
  {
    if k < |s| {
      assert s[..|s| - 1][..k] == s[..k];
      CountOfPart(s[..|s| - 1], k, m);
    } else {
      assert s[..k] == s;
    }
  }

  /** A successor still to be decremented has a positive in-degree. */
  lemma {:induction false} StillCounted(f: Flow, indeg: map<Id, int>, done: set<Id>, n: Id, released: seq<Id>, m: Id, all: seq<Id>)
    requires InDegrees(f, indeg, done, released) && m in Ids(f) - done && n !in done
    requires all == Targets(f.edges, n) && |released| < |all| && released == all[..|released|] && all[|released|] == m
    ensures Get(indeg, m, 0) >= 1
  {
    assert InDegree(f, indeg, done, released, m);
    assert all[..|released| + 1] == released + [m] && (released + [m])[..|released|] == released;
    CountOfPart(all, |released| + 1, m);
    EndsAgree(f.edges, n, m);
    WaitingDrops(Sources(f.edges, m), done, n);
  }

  lemma {:induction false} DegreeStep(f: Flow, indeg: map<Id, int>, done: set<Id>, released: seq<Id>, m: Id)
    requires InDegrees(f, indeg, done, released)
    ensures InDegrees(f, indeg[m := Get(indeg, m, 0) - 1], done, released + [m])
  {
    assert (released + [m])[..|released|] == released;
    forall k | k in Ids(f) - done ensures InDegree(f, indeg[m := Get(indeg, m, 0) - 1], done, released + [m], k) {
      assert InDegree(f, indeg, done, released, k);
    }
  }

  lemma {:induction false} DegreesRelease(f: Flow, indeg: map<Id, int>, done: set<Id>, n: Id)
    requires n !in done && InDegrees(f, indeg, done, Targets(f.edges, n))
    ensures InDegrees(f, indeg, done + {n}, [])
    ensures forall m :: m in Ids(f) - (done + {n}) ==> (Available(f, done + {n}, m) <==> Get(indeg, m, 0) == 0)
    ensures forall m :: m in Ids(f) - (done + {n}) && m !in Targets(f.edges, n) ==>
      (Available(f, done + {n}, m) <==> Available(f, done, m))
  {
    forall m | m in Ids(f) - (done + {n})
      ensures InDegree(f, indeg, done + {n}, [], m)
      ensures Available(f, done + {n}, m) <==> Get(indeg, m, 0) == 0
      ensures m !in Targets(f.edges, n) ==> (Available(f, done + {n}, m) <==> Available(f, done, m))
    {
      assert InDegree(f, indeg, done, Targets(f.edges, n), m);
      EndsAgree(f.edges, n, m);
      WaitingDrops(Sources(f.edges, m), done, n);
      AvailableIsZero(f, done + {n}, m);
      AvailableIsZero(f, done, m);
    }
  }

  // ---- The ready queue

  /** The queue holds, in order, exactly the nodes that may be processed next. */
  ghost predicate Queue(f: Flow, ready: seq<Id>, done: set<Id>) {
    Increasing(ready) && forall n :: n in ready <==> Available(f, done, n)
  }

  /** The queue once n left it. */
  ghost predicate OthersReady(f: Flow, ready: seq<Id>, done: set<Id>, n: Id) {
    forall m :: m in ready <==> m != n && Available(f, done, m)
  }

  ghost predicate HasItsSources(f: Flow, done: set<Id>, m: Id) {
    forall p :: p in Sources(f.edges, m) ==> p in done
  }

  ghost predicate Closed(f: Flow, done: set<Id>) {
    forall m {:trigger HasItsSources(f, done, m)} :: m in done ==> HasItsSources(f, done, m)
  }

  ghost predicate Processed(f: Flow, order: seq<Id>) {
    SetOf(order) <= Ids(f) && |SetOf(order)| == |order| && Greedy(f, order)
  }

  lemma {:induction false} IncreasingHasNoRepeats(s: seq<string>)
    requires Increasing(s)
    ensures NoRepeats(s)
  {
    forall i, j | 0 <= i < j < |s| ensures s[i] != s[j] { Irreflexive(s[i]); }
  }

  /** The head of the queue is what the least order takes next. */
  lemma {:induction false} HeadIsNext(f: Flow, order: seq<Id>, ready: seq<Id>)
    requires Processed(f, order) && Queue(f, ready, SetOf(order)) && ready != []
    ensures Processed(f, order + [ready[0]]) && SetOf(order + [ready[0]]) == SetOf(order) + {ready[0]}
    ensures ready[0] in Ids(f) && ready[0] !in SetOf(order) && ready[0] !in ready[1..]
  {
    var n := ready[0];
    var more := order + [n];
    assert ready[0] in ready;
    assert Available(f, SetOf(order), n);
    assert SetOf(more) == SetOf(order) + {n};
    forall k | 0 <= k < |more| ensures TakesLeast(f, more, k) {
      assert more[..|order|] == order;
      if k < |order| {
        assert TakesLeast(f, order, k);
        assert more[..k] == order[..k];
      } else {
        forall m | Available(f, SetOf(order), m) && m != n ensures Less(n, m) {
          var i :| 0 <= i < |ready| && ready[i] == m;
        }
      }
    }
    IncreasingHasNoRepeats(ready);
  }

  /** Appending the nodes that became available and sorting gives the next queue. */
  lemma {:induction false} QueueGrows(f: Flow, rest: seq<Id>, added: seq<Id>, done: set<Id>)
    requires Increasing(rest) && NoRepeats(added) && forall n :: n in rest ==> n !in added
    requires forall n :: n in rest || n in added <==> Available(f, done, n)
    ensures Queue(f, Sort(rest + added), done) && (added == [] ==> Queue(f, rest, done))
    ensures |rest + added| <= 1 ==> Queue(f, rest + added, done)
  {
    IncreasingHasNoRepeats(rest);
    forall i, j | 0 <= i < j < |rest + added| ensures (rest + added)[i] != (rest + added)[j] {
      if i < |rest| <= j { assert rest[i] in rest && added[j - |rest|] in added; }
    }
    SortIncreasing(rest + added);
    forall n ensures n in Sort(rest + added) <==> Available(f, done, n) {
      SortMembers(rest + added, n);
    }
  }

  lemma {:induction false} NodesAreCounted(f: Flow)
    requires UniqueIds(f)
    ensures |Ids(f)| == |f.nodes|
  {
    IdsOf(f.nodes);
  }

  lemma {:induction false} IdsOf(nodes: seq<Node>)
    requires forall i, j :: 0 <= i < j < |nodes| ==> nodes[i].id != nodes[j].id
    ensures |(set n | n in nodes :: n.id)| == |nodes|
  {
    if nodes != [] {
      var front, last := nodes[..|nodes| - 1], nodes[|nodes| - 1];
      IdsOf(front);
      assert nodes == front + [last];
      assert (set n | n in nodes :: n.id) == (set n | n in front :: n.id) + {last.id};
      assert last.id !in (set n | n in front :: n.id);
    }
  }

  /** Successors of an unprocessed node are unprocessed, and none is the node itself being processed twice. */
  lemma {:induction false} SuccessorsLeft(f: Flow, done: set<Id>, n: Id)
    requires Within(EdgeSet(f), Ids(f)) && n !in done
    requires Closed(f, done)
    ensures forall m :: m in Targets(f.edges, n) ==> m in Ids(f) - done
  {
    forall m | m in Targets(f.edges, n) ensures m in Ids(f) - done {
      InTargets(f.edges, n, m);
      InSources(f.edges, n, m);
      assert Edge(n, m) in EdgeSet(f);
      assert m in done ==> HasItsSources(f, done, m);
    }
  }

  /** What was processed is closed under predecessors. */
  lemma {:induction false} ProcessedIsClosed(f: Flow, order: seq<Id>)
    requires Processed(f, order)
    ensures Closed(f, SetOf(order))
  {
    forall m, p | m in SetOf(order) && p in Sources(f.edges, m) ensures p in SetOf(order) {
      var k :| 0 <= k < |order| && order[k] == m;
      assert TakesLeast(f, order, k);
    }
  }

  /** An empty queue: everything was processed exactly when the graph has no cycle. */
  lemma {:induction false} DrainedQueue(f: Flow, order: seq<Id>)
    requires UniqueIds(f) && Within(EdgeSet(f), Ids(f)) && Processed(f, order) && Queue(f, [], SetOf(order))
    ensures |order| == |f.nodes| <==> SetOf(order) == Ids(f)
    ensures SetOf(order) == Ids(f) <==> Acyclic(EdgeSet(f))
    ensures SetOf(order) == Ids(f) ==> LeastOrder(f, order)
  {
    NodesAreCounted(f);
    SubsetOfSameSize(SetOf(order), Ids(f));
    if SetOf(order) == Ids(f) {
      GreedyIsTopological(f, order);
      TopologicalIsAcyclic(f, order);
      forall t | Topological(f, t) ensures order == t || ListLess(order, t) { GreedyIsLeast(f, order, t); }
    }
    if Acyclic(EdgeSet(f)) {
      StuckMeansComplete(f, SetOf(order));
    }
  }

  lemma {:induction false} SubsetOfSameSize(a: set<Id>, b: set<Id>)
    requires a <= b
    ensures |a| == |b| <==> a == b
  {
    assert b == a + (b - a);
  }

  // ---- The state between two steps, opened only by the lemmas below

  ghost predicate Peek<T>(t: T, k: nat) { true }

  /** The nodes processed so far and the queue that follows from them. */
  ghost predicate Lined(f: Flow, order: seq<Id>, ready: seq<Id>, indeg: map<Id, int>) {
    forall k: nat {:trigger Peek(ready, k)} :: Peek(ready, k) ==>
      Processed(f, order) && Queue(f, ready, SetOf(order)) && InDegrees(f, indeg, SetOf(order), [])
  }

  ghost predicate TakenNext(f: Flow, order: seq<Id>, n: Id, ready: seq<Id>, indeg: map<Id, int>) {
    && Processed(f, order) && Processed(f, order + [n]) && SetOf(order + [n]) == SetOf(order) + {n}
    && Available(f, SetOf(order), n) && Increasing(ready)
    && OthersReady(f, ready, SetOf(order), n) && InDegrees(f, indeg, SetOf(order), [])
  }

  /** n was just taken from the queue. */
  ghost predicate Taken(f: Flow, order: seq<Id>, n: Id, ready: seq<Id>, indeg: map<Id, int>) {
    forall k: nat {:trigger Peek((n, ready), k)} :: Peek((n, ready), k) ==> TakenNext(f, order, n, ready, indeg)
  }

  /** Every node processed so far has the status its predecessors give it. */
  ghost predicate Recorded(f: Flow, order: seq<Id>, b: Board, inputs: map<Id, Value>, run: Runner) {
    forall k: nat {:trigger Peek((b, run), k)} :: Peek((b, run), k) ==>
      && Tallies(f, order, b) && AllExplained(f, order, b)
      && AllObeyed(f, order, b, inputs, run) && b.view == Published(order, b, inputs, run)
  }

  lemma {:induction false} NothingRecorded(f: Flow, inputs: map<Id, Value>, run: Runner)
    ensures Recorded(f, [], Board(map[], map[], false, map[], inputs), inputs, run)
  {
    assert SetOf([]) == {};
  }

  lemma {:induction false} NothingProcessed(f: Flow, ready: seq<Id>, indeg: map<Id, int>)
    requires Queue(f, ready, {}) && InDegrees(f, indeg, {}, [])
    ensures Lined(f, [], ready, indeg)
  {
    assert SetOf([]) == {};
  }

  lemma {:induction false} TakeHead(f: Flow, order: seq<Id>, ready: seq<Id>, indeg: map<Id, int>)
    requires Lined(f, order, ready, indeg) && ready != []
    ensures Taken(f, order, ready[0], ready[1..], indeg) && ready[0] in Ids(f)
    ensures SetOf(order + [ready[0]]) == SetOf(order) + {ready[0]} && ready[0] !in SetOf(order)
  {
    assert Peek(ready, 0);
    HeadIsNext(f, order, ready);
    assert ready[0] in ready;
    forall m ensures m in ready[1..] <==> m in ready && m != ready[0] { HeadDrops(ready, m); }
  }

  /** The listed nodes are the decremented ones whose in-degree reached zero. */
  ghost predicate Reach(indeg: map<Id, int>, released: seq<Id>, added: seq<Id>) {
    NoRepeats(added) && forall m :: m in added <==> m in released && Get(indeg, m, 0) == 0
  }

  lemma {:induction false} StartRelease(f: Flow, order: seq<Id>, n: Id, ready: seq<Id>, indeg: map<Id, int>)
    requires Taken(f, order, n, ready, indeg)
    ensures n !in SetOf(order) && Closed(f, SetOf(order)) && InDegrees(f, indeg, SetOf(order), [])
  {
    assert Peek((n, ready), 0);
    ProcessedIsClosed(f, order);
  }

  lemma {:induction false} Released(f: Flow, order: seq<Id>, n: Id, rest: seq<Id>, was: map<Id, int>, indeg: map<Id, int>, added: seq<Id>)
    requires Taken(f, order, n, rest, was) && Within(EdgeSet(f), Ids(f))
    requires InDegrees(f, indeg, SetOf(order), Targets(f.edges, n)) && Reach(indeg, Targets(f.edges, n), added)
    ensures Lined(f, order + [n], Sort(rest + added), indeg)
    ensures added == [] || |rest + added| <= 1 ==> Lined(f, order + [n], rest + added, indeg)
  {
    assert Peek((n, rest), 0);
    var done := SetOf(order);
    ProcessedIsClosed(f, order);
    SuccessorsLeft(f, done, n);
    DegreesRelease(f, indeg, done, n);
    forall m ensures m in Targets(f.edges, n) ==> n in Sources(f.edges, m) {
      InTargets(f.edges, n, m);
      InSources(f.edges, n, m);
    }
    forall m ensures m in rest || m in added <==> Available(f, done + {n}, m) {
      if m in Targets(f.edges, n) {
        assert m in Ids(f) - (done + {n});
      } else if m in Ids(f) - (done + {n}) {
        assert Available(f, done + {n}, m) <==> Available(f, done, m);
      }
    }
    assert added == [] ==> rest + added == rest;
    QueueGrows(f, rest, added, done + {n});
  }

  /** Settling the node taken next keeps everything recorded so far explained. */
  lemma {:induction false} RecordedStep(f: Flow, order: seq<Id>, ready: seq<Id>, indeg: map<Id, int>, b: Board, b': Board, n: Id,
    inputs: map<Id, Value>, run: Runner)
    requires Taken(f, order, n, ready, indeg) && Recorded(f, order, b, inputs, run) && Processes(f, b, b', n, run)
    ensures Recorded(f, order + [n], b', inputs, run)
  {
    assert Peek((n, ready), 0) && Peek((b, run), 0);
    ProcessedIsClosed(f, order);
    assert n !in order && forall m :: m in order <==> m in SetOf(order);
    forall m, p | m in order + [n] && p in Sources(f.edges, m) ensures p in order {
      assert m in order ==> HasItsSources(f, SetOf(order), m);
    }
    TalliesStep(f, order, b, b', n, run);
    ExplainedStep(f, order, b, b', n, run);
    ObeyedStep(f, order, b, b', n, inputs, run);
  }

  /** A drained queue: the recorded run is the one the graph alone determines. */
  lemma {:induction false} Drained(f: Flow, order: seq<Id>, indeg: map<Id, int>, b: Board, inputs: map<Id, Value>, run: Runner)
    requires UniqueIds(f) && Within(EdgeSet(f), Ids(f)) && Lined(f, order, [], indeg) && Recorded(f, order, b, inputs, run)
    ensures Finishes(f, order, b, inputs, run)
    ensures |order| == |f.nodes| <==> Acyclic(EdgeSet(f))
    ensures b.mainFailed <==> MainFailure(f, order, b)
  {
    var none: seq<Id> := [];
    assert Peek(none, 0) && Peek((b, run), 0);
    DrainedQueue(f, order);
  }

  /** How a run ends: a greedy order with nothing left to take, each status explained by the nodes before it and by what the node returned. */
  ghost predicate Finishes(f: Flow, order: seq<Id>, b: Board, inputs: map<Id, Value>, run: Runner) {
    && Greedy(f, order) && AllExplained(f, order, b) && AllObeyed(f, order, b, inputs, run)
    && b.statuses.Keys == SetOf(order)
    && (forall n :: !Available(f, SetOf(order), n))
    && (forall n {:trigger Agrees(f, b, n)} :: Agrees(f, b, n))
    && (Acyclic(EdgeSet(f)) ==> SetOf(order) == Ids(f) && LeastOrder(f, order))
  }
}
