/** The two-phase scheduler over its mutable execution state. Which running node ends next is arbitrary. */
module Scheduler {
  import opened Graphs
  import opened References
  import opened Flows
  import opened Verdicts
  import opened EngineGraph
  import opened ScheduleFacts
  import opened Inputs
  import opened Outcomes

  /** What ended before is untouched, and whatever ended since was skipped because every branch routed away from it. */
  ghost predicate AwayGrew(was: map<Id, Verdict>, now: map<Id, Verdict>) {
    && (forall m :: m in was ==> m in now && now[m] == was[m])
    && forall m :: m in now && m !in was ==> now[m] == Verdict(Skipped, false, None, {}, None, true)
  }

  lemma {:induction false} AwayGrewByOne(was: map<Id, Verdict>, now: map<Id, Verdict>, n: Id)
    requires AwayGrew(was, now) && n !in now
    ensures AwayGrew(was, now[n := Verdict(Skipped, false, None, {}, None, true)])
  {
  }

  class ExecutionState {
    const launch: Launch
    const engine: Engine
    ghost const setup: Setup

    var allOutputs: View
    var remainingInputs: map<Id, int>
    var results: map<Id, Status>
    var errored: bool
    var failedNodes: set<Id>
    var skippedNodes: set<Id>
    var failureCause: map<Id, string>
    var deadEdges: map<Id, set<Id>>
    var routedAway: set<Id>
    /** phaseScheduler.inFlight: each running node with the output snapshot it was started on. */
    var inFlight: map<Id, View>

    /** The verdicts of the nodes that ended, the node whose result is being recorded, and the events so far. */
    ghost var facts: map<Id, Verdict>
    ghost var landing: set<Id>
    ghost var history: seq<Event>

    ghost function Now(): Progress
      reads this
    {
      Progress(remainingInputs, inFlight, facts, landing, history)
    }

    ghost function Book(): Ledger
      reads this
    {
      Ledger(allOutputs, results, errored, failedNodes, skippedNodes, failureCause, deadEdges, routedAway)
    }

    /** The maps of the state say of n what the verdict says. */
    ghost predicate Records(n: Id, v: Verdict)
      reads this
    {
      && n in results && results[n] == v.status
      && (n in failedNodes <==> v.status == Failed) && (n in skippedNodes <==> v.status == Skipped)
      && (if n in allOutputs then Some(allOutputs[n]) else None) == v.published
      && (if n in failureCause then Some(failureCause[n]) else None) == v.cause
      && (if n in deadEdges then deadEdges[n] else {}) == v.dead && (n in routedAway <==> v.routedAway)
    }

    ghost predicate Valid()
      reads this
    {
      && setup.launch == launch && setup.engine == engine
      && Inv(setup, Now()) && Mirrors(Book(), launch.inputs, facts) && landing == {}
    }

    constructor (l: Launch, e: Engine, ghost rank: map<Id, nat>)
      requires Runnable(l, rank) && Describes(e, Ids(l.flow), l.flow.edges)
      ensures Valid() && launch == l && setup.verdicts == AllVerdicts(l, rank)
      ensures facts == map[] && inFlight == map[] && history == []
    {
      VerdictsSolve(l, rank);
      SoundFrom(Setup(l, e, rank, AllVerdicts(l, rank)));
      FreshInv(Setup(l, e, rank, AllVerdicts(l, rank)));
      FreshMirrors(l.inputs);
      launch, engine := l, e;
      setup := Setup(l, e, rank, AllVerdicts(l, rank));
      allOutputs, results, errored := map["" := l.inputs], map[], false;
      remainingInputs := e.indegree;
      failedNodes, skippedNodes, failureCause := {}, {}, map[];
      deadEdges, routedAway, inFlight := map[], {}, map[];
      facts, landing, history := map[], {}, [];
    }

    method ReadyNodes(phase: RunWhen) returns (ready: seq<Id>)
      ensures ready == ReadyList(launch.flow.nodes, phase, remainingInputs, inFlight.Keys)
    {
      var nodes := launch.flow.nodes;
      ready := [];
      for i := 0 to |nodes|
        invariant ready == ReadyList(nodes[..i], phase, remainingInputs, inFlight.Keys)
      {
        var n := nodes[i];
        assert nodes[..i + 1][..i] == nodes[..i];
        if n.id in remainingInputs && remainingInputs[n.id] == 0 && n.runWhen == phase && n.id !in inFlight {
          ready := ready + [n.id];
        }
      }
      assert nodes[..|nodes|] == nodes;
    }

    method UpstreamFailure(n: Id) returns (cause: Option<string>)
      requires DescribesNode(engine, launch.flow.edges, n) && Mirrors(Book(), launch.inputs, facts)
      ensures cause == FirstCause(Sources(launch.flow.edges, n), facts)
      ensures cause.Some? ==> exists i :: FirstWithCause(Sources(launch.flow.edges, n), facts, i, cause)
      ensures cause.None? ==> forall p :: p in Sources(launch.flow.edges, n) && p in facts ==> facts[p].cause == None
    {
      MirrorGives(Book(), launch.inputs, facts);
      var preds := engine.preds[n];
      FirstCauseIsFirst(preds, facts);
      for i := 0 to |preds|
        invariant FirstCause(preds, facts) == FirstCause(preds[i..], facts)
      {
        if preds[i] in failureCause { return Some(failureCause[preds[i]]); }
      }
      return None;
    }

    method IsFullyDead(n: Id) returns (dead: bool)
      requires DescribesNode(engine, launch.flow.edges, n) && Mirrors(Book(), launch.inputs, facts)
      ensures dead <==> FullyDead(n, Sources(launch.flow.edges, n), facts)
    {
      MirrorGives(Book(), launch.inputs, facts);
      var preds := engine.preds[n];
      if |preds| == 0 { return false; }
      for i := 0 to |preds|
        invariant forall k :: 0 <= k < i ==> DeadFrom(preds[k], n, facts)
      {
        var p := preds[i];
        var edgeDead := p in deadEdges && n in deadEdges[p];
        assert DeadFrom(p, n, facts) <==> edgeDead || p in skippedNodes || p in failedNodes;
        if !(edgeDead || p in skippedNodes || p in failedNodes) { return false; }
      }
      return true;
    }

    method IsRoutedAway(n: Id) returns (away: bool)
      requires DescribesNode(engine, launch.flow.edges, n)
      requires deadEdges == DeadEdgesOf(facts) && routedAway == AwayOf(facts)
      ensures away <==> RoutedAway(n, Sources(launch.flow.edges, n), facts)
    {
      var preds := engine.preds[n];
      if |preds| == 0 { return false; }
      for i := 0 to |preds|
        invariant forall k :: 0 <= k < i ==> AwayFrom(preds[k], n, facts)
      {
        var p := preds[i];
        var edgeDead := p in deadEdges && n in deadEdges[p];
        assert AwayFrom(p, n, facts) <==> edgeDead || p in routedAway;
        if !edgeDead && p !in routedAway { return false; }
      }
      return true;
    }

    method InputsReferenceSkippedNode(n: Id) returns (refers: bool)
      requires n in Ids(launch.flow) && Mirrors(Book(), launch.inputs, facts)
      ensures refers <==> InputsReferSkipped(NodeOf(launch.flow, n), facts, ViewOf(launch.inputs, facts))
    {
      MirrorGives(Book(), launch.inputs, facts);
      var node := NodeOf(launch.flow, n);
      refers := RefersSkipped(node, skippedNodes, allOutputs);
      assert forall ref :: RefersToSkipped(ref, facts, allOutputs) <==> NamesSkipped(ref, skippedNodes, allOutputs);
    }

    method MarkNodeComplete(n: Id)
      requires setup.launch == launch && setup.engine == engine && Inv(setup, Now()) && n in remainingInputs
      modifies this`remainingInputs
      ensures CountsFor(launch.flow, remainingInputs, facts.Keys + {n})
      ensures remainingInputs.Keys == old(remainingInputs.Keys) - {n}
    {
      ghost var f, done := launch.flow, facts.Keys;
      ghost var open := remainingInputs.Keys;
      WaitingNode(setup, Now(), n);
      SuccessorsOpen(setup, Now(), n);
      ReleaseStarts(setup, Now());
      var successors := engine.succs[n];
      for i := 0 to |successors|
        invariant remainingInputs.Keys == open
        invariant PartlyReleased(f, remainingInputs, done, successors[..i])
      {
        var m := successors[i];
        assert m in open && successors[..i + 1] == successors[..i] + [m];
        ReleaseStep(f, remainingInputs, done, successors[..i], m);
        // The source decrements a missing entry to -1; here every successor still has one.
        remainingInputs := remainingInputs[m := (if m in remainingInputs then remainingInputs[m] else 0) - 1];
      }
      assert successors[..|successors|] == successors;
      ReleaseEnds(f, remainingInputs, done, n);
      remainingInputs := remainingInputs - {n};
    }

    /** markNodeComplete for a node whose result is recorded: the run moves on to the larger set of ended nodes. */
    method NodeEnds(n: Id)
      requires setup.launch == launch && setup.engine == engine && Inv(setup, Now())
      requires n in remainingInputs && remainingInputs[n] == 0 && n !in inFlight
      requires n in setup.verdicts && landing == (if setup.verdicts[n].started then {n} else {})
      requires Mirrors(Book(), launch.inputs, facts[n := setup.verdicts[n]])
      modifies this`remainingInputs, this`facts, this`history, this`landing
      ensures Valid() && facts == old(facts)[n := setup.verdicts[n]] && history == old(history) + [Done(n)]
      ensures remainingInputs.Keys == old(remainingInputs.Keys) - {n}
    {
      ghost var before := Now();
      MarkNodeComplete(n);
      EndInv(setup, before, n, remainingInputs);
      facts := facts[n := setup.verdicts[n]];
      history := history + [Done(n)];
      landing := {};
      assert Now() == Ended(setup, before, n, remainingInputs);
    }

    /** A skip is recorded, may spread the routing decision, and unblocks the successors. */
    method RecordSkippedNode(n: Id, ghost book: Ledger)
      requires setup.launch == launch && setup.engine == engine && Inv(setup, Now()) && landing == {}
      requires n in remainingInputs && remainingInputs[n] == 0 && n !in inFlight && n in setup.verdicts
      requires Mirrors(book, launch.inputs, facts)
      requires var v := setup.verdicts[n];
        && v.status == Skipped && !v.started && v.published == None && v.dead == {}
        && (v.routedAway <==> RoutedAway(n, Sources(launch.flow.edges, n), facts))
        && Book() == book.(cause := if v.cause.Some? then book.cause[n := v.cause.value] else book.cause)
      modifies this
      ensures Valid() && facts == old(facts)[n := setup.verdicts[n]] && inFlight == old(inFlight)
      ensures remainingInputs.Keys == old(remainingInputs.Keys) - {n} && history == old(history) + [Done(n)]
    {
      WaitingNode(setup, Now(), n);
      MirrorsGrow(book, launch.inputs, facts, n, setup.verdicts[n]);
      MarkSkipped(n, book);
      NodeEnds(n);
    }

    /** The maps of a skipped node; a branch that routed away from it is passed on. */
    method MarkSkipped(n: Id, ghost book: Ledger)
      requires setup.launch == launch && setup.engine == engine && Inv(setup, Now())
      requires n in remainingInputs && n in setup.verdicts && Mirrors(book, launch.inputs, facts)
      requires var v := setup.verdicts[n];
        && v.status == Skipped && !v.started && v.published == None && v.dead == {}
        && (v.routedAway <==> RoutedAway(n, Sources(launch.flow.edges, n), facts))
        && Book() == book.(cause := if v.cause.Some? then book.cause[n := v.cause.value] else book.cause)
      modifies this`results, this`skippedNodes, this`routedAway
      ensures Book() == Booked(book, n, setup.verdicts[n])
    {
      WaitingNode(setup, Now(), n);
      MirrorGives(book, launch.inputs, facts);
      var away := IsRoutedAway(n);
      results := results[n := Skipped];
      skippedNodes := skippedNodes + {n};
      if away { routedAway := routedAway + {n}; }
    }

    method Start(n: Id)
      requires Valid() && n in remainingInputs && remainingInputs[n] == 0 && n !in inFlight
      requires MayStart(setup, Now(), n) && n in setup.verdicts && setup.verdicts[n].started
      requires Finish(launch, NodeOf(launch.flow, n), ViewOf(launch.inputs, facts)) == setup.verdicts[n]
      modifies this`inFlight, this`history
      ensures Valid() && inFlight == old(inFlight)[n := allOutputs] && history == old(history) + [Started(n)]
    {
      MirrorGives(Book(), launch.inputs, facts);
      StartInv(setup, Now(), n, allOutputs);
      inFlight := inFlight[n := allOutputs];
      history := history + [Started(n)];
    }

    /** A failure reaches the node, or no live edge does, or one of its references names a skipped node. */
    ghost predicate MustSkip(n: Id)
      requires n in Ids(launch.flow)
      reads this
    {
      var preds := Sources(launch.flow.edges, n);
      || FirstCause(preds, facts).Some?
      || FullyDead(n, preds, facts)
      || InputsReferSkipped(NodeOf(launch.flow, n), facts, ViewOf(launch.inputs, facts))
    }

    /** One ready on_success node: skipped after a failure, skipped as unreachable, or started. */
    method StartOrSkip(n: Id) returns (skipped: bool)
      requires Valid() && IsReady(setup, Now(), n, OnSuccess)
      modifies this
      ensures Valid()
      ensures skipped <==> old(MustSkip(n))
      ensures skipped ==> n in setup.verdicts && facts == old(facts)[n := setup.verdicts[n]] && inFlight == old(inFlight)
      ensures skipped ==> remainingInputs.Keys == old(remainingInputs.Keys) - {n}
      ensures !skipped ==> facts == old(facts) && inFlight == old(inFlight)[n := old(allOutputs)]
      ensures !skipped ==> remainingInputs == old(remainingInputs)
    {
      WaitingNode(setup, Now(), n);
      OnSuccessCases(setup, Now(), n);
      ghost var book := Book();
      var cause := UpstreamFailure(n);
      if cause.Some? {
        failureCause := failureCause[n := cause.value];
        RecordSkippedNode(n, book);
        return true;
      }
      var dead := IsFullyDead(n);
      var refers := InputsReferenceSkippedNode(n);
      if dead || refers {
        RecordSkippedNode(n, book);
        return true;
      }
      Start(n);
      return false;
    }

    /** What a pass over the ready nodes changes: more nodes ended or run, all of them on_success. */
    twostate predicate OnSuccessProgress()
      reads this
    {
      && old(facts.Keys) <= facts.Keys && remainingInputs.Keys <= old(remainingInputs.Keys)
      && OnlyOnSuccess(launch.flow, facts.Keys - old(facts.Keys))
      && OnlyOnSuccess(launch.flow, inFlight.Keys - old(inFlight.Keys))
    }

    /** One pass over the nodes that were ready when it began. */
    method ReadyPass(ready: seq<Id>) returns (skipped: bool)
      requires Valid() && ready == ReadyList(launch.flow.nodes, OnSuccess, remainingInputs, inFlight.Keys)
      modifies this
      ensures Valid() && OnSuccessProgress()
      ensures skipped ==> remainingInputs.Keys < old(remainingInputs.Keys)
      ensures !skipped ==> NoneReady(setup, Now(), OnSuccess)
    {
      ReadyListIs(setup, Now(), OnSuccess);
      ghost var pass := Now();
      skipped := false;
      for i := 0 to |ready|
        invariant Valid() && OnSuccessProgress()
        invariant forall k :: i <= k < |ready| ==> IsReady(setup, Now(), ready[k], OnSuccess)
        invariant skipped ==> remainingInputs.Keys < pass.remaining.Keys
        invariant !skipped ==> remainingInputs == pass.remaining
        invariant forall k :: 0 <= k < i && !skipped ==> ready[k] in inFlight
        invariant pass.inFlight.Keys <= inFlight.Keys
      {
        ghost var before := Now();
        assert IsReady(setup, Now(), ready[i], OnSuccess);
        var dropped := StartOrSkip(ready[i]);
        if dropped {
          skipped := true;
          forall k | i < k < |ready| ensures IsReady(setup, Now(), ready[k], OnSuccess) {
            assert IsReady(setup, before, ready[k], OnSuccess);
            ReadyStays(setup, before, Now(), ready[i], ready[k], OnSuccess);
          }
        }
      }
      if !skipped {
        forall n ensures !IsReady(setup, Now(), n, OnSuccess) {
          assert IsReady(setup, Now(), n, OnSuccess) ==> IsReady(setup, pass, n, OnSuccess);
        }
      }
    }

    /**
     * Starts every ready on_success node and skips the ones a failure, a branch or a skipped input eliminated,
     * until a whole pass skips none.
     */
    method StartReadyOnSuccessNodes()
      requires Valid()
      modifies this
      ensures Valid() && NoneReady(setup, Now(), OnSuccess) && OnSuccessProgress()
    {
      var skipped := true;
      while skipped
        invariant Valid() && OnSuccessProgress()
        invariant !skipped ==> NoneReady(setup, Now(), OnSuccess)
        decreases remainingInputs.Keys, skipped
      {
        var ready := ReadyNodes(OnSuccess);
        skipped := ReadyPass(ready);
      }
    }

    /** The next node to finish is any of the running ones. */
    method Next() returns (n: Id, run: Run)
      requires Valid() && inFlight != map[]
      modifies this`inFlight, this`landing
      ensures n in old(inFlight) && inFlight == old(inFlight) - {n} && landing == {n}
      ensures setup.launch == launch && setup.engine == engine && Inv(setup, Now())
      ensures Mirrors(Book(), launch.inputs, facts)
      ensures n in Ids(launch.flow) && n in remainingInputs && remainingInputs[n] == 0
      ensures n in setup.verdicts && setup.verdicts[n].started
      ensures Settle(launch, NodeOf(launch.flow, n), run) == setup.verdicts[n]
    {
      assert inFlight.Keys != {};
      n :| n in inFlight;
      LandInv(setup, Now(), n);
      run := RunNode(launch, NodeOf(launch.flow, n), inFlight[n]);
      LandedVerdict(setup, Now(), n, run);
      inFlight := inFlight - {n};
      landing := {n};
    }

    method MarkNodeFailed(n: Node)
      modifies this`failedNodes, this`failureCause
      ensures failedNodes == old(failedNodes) + {n.id}
      ensures failureCause == old(failureCause)[n.id := DisplayName(n)]
    {
      failedNodes := failedNodes + {n.id};
      failureCause := failureCause[n.id := DisplayName(n)];
    }

    /** Every successor the result did not route to loses its edge from n. */
    method RecordRoutingDecision(n: Id, routed: Option<seq<Id>>)
      requires n in engine.succs && n !in deadEdges
      modifies this`deadEdges
      ensures var dead := DeadTargets(engine.succs[n], routed);
        deadEdges == if dead == {} then old(deadEdges) else old(deadEdges)[n := dead]
    {
      if routed.None? { return; }
      var successors := engine.succs[n];
      for i := 0 to |successors|
        invariant var dead := DeadTargets(successors[..i], routed);
          deadEdges == if dead == {} then old(deadEdges) else old(deadEdges)[n := dead]
      {
        var m := successors[i];
        assert successors[..i + 1] == successors[..i] + [m];
        if m !in routed.value {
          deadEdges := deadEdges[n := (if n in deadEdges then deadEdges[n] else {}) + {m}];
          assert DeadTargets(successors[..i + 1], routed) == DeadTargets(successors[..i], routed) + {m};
        } else {
          assert DeadTargets(successors[..i + 1], routed) == DeadTargets(successors[..i], routed);
        }
      }
      assert successors[..|successors|] == successors;
    }

    ghost predicate Landed(n: Id, run: Run)
      reads this
    {
      && setup.launch == launch && setup.engine == engine && Inv(setup, Now())
      && Mirrors(Book(), launch.inputs, facts) && landing == {n} && n !in inFlight
      && n in Ids(launch.flow) && n in remainingInputs && remainingInputs[n] == 0
      && n in setup.verdicts && setup.verdicts[n].started
      && Settle(launch, NodeOf(launch.flow, n), run) == setup.verdicts[n]
    }

    /** What a finished node's result does to the maps, before its successors are unblocked. */
    method CommitResult(n: Id, run: Run)
      requires Landed(n, run)
      modifies this`results, this`errored, this`failedNodes, this`skippedNodes
      modifies this`failureCause, this`allOutputs, this`deadEdges
      ensures Book() == Booked(old(Book()), n, setup.verdicts[n])
    {
      var node := NodeOf(launch.flow, n);
      WaitingNode(setup, Now(), n);
      MirrorGives(Book(), launch.inputs, facts);
      assert n !in deadEdges;
      match run
      case Refused =>
        if node.runWhen == Always {
          SettleAlwaysSkip(n, node);
        } else {
          CommitFailure(n, node, None);
        }
      case Ran(outcome) =>
        match outcome
        case Success(outputs, routed) =>
          results := results[n := Succeeded];
          allOutputs := allOutputs[n := outputs];
          RecordRoutingDecision(n, routed);
        case Failure(partial) =>
          CommitFailure(n, node, partial);
    }

    /** A skipped always node publishes empty outputs; one that routes closes each of its edges. */
    method SettleAlwaysSkip(n: Id, node: Node)
      requires n in engine.succs && n !in deadEdges
      modifies this`results, this`skippedNodes, this`allOutputs, this`deadEdges
      ensures var dead := DeadTargets(engine.succs[n], SkippedRouting(node));
        Book() == Booked(old(Book()), n, Verdict(Skipped, true, Some(map[]), dead, None, false))
    {
      skippedNodes := skippedNodes + {n};
      results := results[n := Skipped];
      allOutputs := allOutputs[n := map[]];
      // The skipped result of a node that routes is a routing result, and it names no target.
      RecordRoutingDecision(n, SkippedRouting(node));
    }

    /** A failed node keeps what it published before it failed, and names itself as the cause. */
    method CommitFailure(n: Id, node: Node, partial: Option<map<string, Value>>)
      requires node.id == n
      modifies this`results, this`errored, this`failedNodes, this`failureCause, this`allOutputs
      ensures Book() == Booked(old(Book()), n, Verdict(Failed, true, partial, {}, Some(DisplayName(node)), false))
    {
      results := results[n := Failed];
      errored := true;
      MarkNodeFailed(node);
      if partial.Some? { allOutputs := allOutputs[n := partial.value]; }
    }

    /** recordOnSuccessResults and recordAlwaysResults: commit the result, then unblock the successors. */
    method RecordResult(n: Id, run: Run)
      requires Landed(n, run)
      modifies this
      ensures Valid() && facts == old(facts)[n := setup.verdicts[n]] && inFlight == old(inFlight)
      ensures remainingInputs.Keys == old(remainingInputs.Keys) - {n}
    {
      WaitingNode(setup, Now(), n);
      MirrorsGrow(Book(), launch.inputs, facts, n, setup.verdicts[n]);
      CommitResult(n, run);
      NodeEnds(n);
    }

    /** Starts each node the moment its predecessors finished, until no on_success node is left to run. */
    method RunOnSuccessPhase()
      requires Valid() && facts == map[] && inFlight == map[]
      modifies this
      ensures Valid() && inFlight == map[] && NoneReady(setup, Now(), OnSuccess)
      ensures facts.Keys == MainNodes(launch.flow)
    {
      while true
        invariant Valid()
        invariant OnlyOnSuccess(launch.flow, facts.Keys) && OnlyOnSuccess(launch.flow, inFlight.Keys)
        decreases remainingInputs.Keys
      {
        StartReadyOnSuccessNodes();
        if inFlight == map[] { break; }
        var n, run := Next();
        RecordResult(n, run);
      }
      IdleMeansMainOver(setup, Now());
    }

    method SkipIfRoutedAway(n: Id) returns (skipped: bool)
      requires Valid() && IsReady(setup, Now(), n, Always)
      modifies this
      ensures Valid() && inFlight == old(inFlight)
      ensures skipped <==> RoutedAway(n, Sources(launch.flow.edges, n), old(facts))
      ensures skipped ==> n !in old(facts) && facts == old(facts)[n := Verdict(Skipped, false, None, {}, None, true)]
      ensures skipped ==> remainingInputs.Keys == old(remainingInputs.Keys) - {n}
      ensures !skipped ==> Now() == old(Now())
    {
      WaitingNode(setup, Now(), n);
      AlwaysCases(setup, Now(), n);
      MirrorGives(Book(), launch.inputs, facts);
      skipped := IsRoutedAway(n);
      if skipped { RecordSkippedNode(n, Book()); }
    }

    /** Skips the ready always nodes a branch routed away from. */
    method SkipRoutedAwayAlwaysNodes() returns (skipped: bool)
      requires Valid()
      modifies this
      ensures Valid() && inFlight == old(inFlight) && AwayGrew(old(facts), facts)
      ensures skipped ==> remainingInputs.Keys < old(remainingInputs.Keys)
      ensures !skipped ==> Now() == old(Now())
      ensures !skipped ==> forall n :: IsReady(setup, Now(), n, Always) ==>
        !RoutedAway(n, Sources(launch.flow.edges, n), facts)
    {
      var ready := ReadyNodes(Always);
      ReadyListIs(setup, Now(), Always);
      ghost var pass := Now();
      skipped := false;
      for i := 0 to |ready|
        invariant Valid() && inFlight == old(inFlight) && AwayGrew(old(facts), facts)
        invariant forall k :: i <= k < |ready| ==> IsReady(setup, Now(), ready[k], Always)
        invariant skipped ==> remainingInputs.Keys < pass.remaining.Keys
        invariant !skipped ==> Now() == pass
        invariant forall k :: 0 <= k < i && !skipped ==> !RoutedAway(ready[k], Sources(launch.flow.edges, ready[k]), facts)
      {
        ghost var before := Now();
        assert IsReady(setup, Now(), ready[i], Always);
        var dropped := SkipIfRoutedAway(ready[i]);
        if dropped {
          skipped := true;
          AwayGrewByOne(old(facts), before.facts, ready[i]);
          forall k | i < k < |ready| ensures IsReady(setup, Now(), ready[k], Always) {
            assert IsReady(setup, before, ready[k], Always);
            ReadyStays(setup, before, Now(), ready[i], ready[k], Always);
          }
        }
      }
    }

    /** Starts every ready always node. */
    method StartReadyAlwaysNodes()
      requires Valid() && MainNodes(launch.flow) <= facts.Keys
      requires forall n :: IsReady(setup, Now(), n, Always) ==> !RoutedAway(n, Sources(launch.flow.edges, n), facts)
      requires NoneReady(setup, Now(), OnSuccess)
      modifies this`inFlight, this`history
      ensures Valid() && NoneReady(setup, Now(), Always) && NoneReady(setup, Now(), OnSuccess)
    {
      var ready := ReadyNodes(Always);
      ReadyListIs(setup, Now(), Always);
      ghost var pass := Now();
      for i := 0 to |ready|
        invariant Valid() && pass.inFlight.Keys <= inFlight.Keys
        invariant forall k :: 0 <= k < i ==> ready[k] in inFlight
        invariant forall k :: i <= k < |ready| ==> IsReady(setup, Now(), ready[k], Always)
      {
        var n := ready[i];
        assert IsReady(setup, pass, n, Always);
        AlwaysCases(setup, Now(), n);
        Start(n);
      }
      forall n ensures !IsReady(setup, Now(), n, Always) && !IsReady(setup, Now(), n, OnSuccess) {
        assert IsReady(setup, Now(), n, Always) ==> IsReady(setup, pass, n, Always);
        assert IsReady(setup, Now(), n, OnSuccess) ==> IsReady(setup, pass, n, OnSuccess);
      }
    }

    /** An always node that waits although no always node before it does. */
    ghost predicate Blocked(n: Id)
      requires remainingInputs.Keys <= Ids(launch.flow)
      reads this
    {
      AlwaysRemains(n) && !exists p :: p in Sources(launch.flow.edges, n) && AlwaysRemains(p)
    }

    /** A blocked node runs when no branch routed away from it and its inputs are there. */
    ghost predicate MayStillRun(n: Id)
      requires n in Ids(launch.flow) && "" in allOutputs
      reads this
    {
      !RoutedAway(n, Sources(launch.flow.edges, n), facts) && InputsPresent(NodeOf(launch.flow, n), allOutputs)
    }

    /** The blocked nodes among the first i, split into those that run and those that do not. */
    ghost predicate SplitUpTo(i: nat, toRun: seq<Id>, toSkip: seq<Id>)
      requires remainingInputs.Keys <= Ids(launch.flow) && "" in allOutputs
      reads this
    {
      (forall n :: n in toRun <==> Listed(n, i) && Blocked(n) && MayStillRun(n)) &&
      forall n :: n in toSkip <==> Listed(n, i) && Blocked(n) && !MayStillRun(n)
    }

    lemma {:induction false} SplitNext(i: nat, toRun: seq<Id>, toSkip: seq<Id>, id: Id)
      requires remainingInputs.Keys <= Ids(launch.flow) && "" in allOutputs
      requires i < |launch.flow.nodes| && id == launch.flow.nodes[i].id && SplitUpTo(i, toRun, toSkip)
      ensures !Blocked(id) ==> SplitUpTo(i + 1, toRun, toSkip)
      ensures Blocked(id) && MayStillRun(id) ==> SplitUpTo(i + 1, toRun + [id], toSkip)
      ensures Blocked(id) && !MayStillRun(id) ==> SplitUpTo(i + 1, toRun, toSkip + [id])
    {
      ListedNext(i);
    }

    /** Whether the always node waits although no always node before it does, and whether it may still run. */
    method JudgeWaiting(node: Node) returns (blocked: bool, run: bool)
      requires Valid() && node in launch.flow.nodes
      requires remainingInputs.Keys <= Ids(launch.flow) && "" in allOutputs
      ensures blocked <==> Blocked(node.id)
      ensures blocked ==> (run <==> MayStillRun(node.id))
    {
      MirrorGives(Book(), launch.inputs, facts);
      RemainingAreNodes(setup, Now());
      NodeIsNodeOf(launch.flow, node);
      if node.runWhen != Always || node.id !in remainingInputs { return false, false; }
      WaitingNode(setup, Now(), node.id);
      var held := HasRemainingAlwaysPredecessor(node.id);
      if held { return false, false; }
      var away := IsRoutedAway(node.id);
      var present := ValidateInputs(node, allOutputs);
      return true, !away && present;
    }

    /** The blocked always nodes, to run or to skip; none once every node ended. */
    method BlockedAlwaysNodes() returns (toRun: seq<Id>, toSkip: seq<Id>)
      requires Valid()
      ensures remainingInputs.Keys <= Ids(launch.flow) && "" in allOutputs
      ensures forall n :: n in toRun <==> n in Ids(launch.flow) && Blocked(n) && MayStillRun(n)
      ensures forall n :: n in toSkip <==> n in Ids(launch.flow) && Blocked(n) && !MayStillRun(n)
      ensures remainingInputs == map[] ==> toRun == [] && toSkip == []
    {
      MirrorGives(Book(), launch.inputs, facts);
      RemainingAreNodes(setup, Now());
      toRun, toSkip := [], [];
      for i := 0 to |launch.flow.nodes|
        invariant SplitUpTo(i, toRun, toSkip)
        invariant remainingInputs == map[] ==> toRun == [] && toSkip == []
      {
        var node := launch.flow.nodes[i];
        var blocked, run := JudgeWaiting(node);
        SplitNext(i, toRun, toSkip, node.id);
        if !blocked { continue; }
        if run {
          toRun := toRun + [node.id];
        } else {
          toSkip := toSkip + [node.id];
        }
      }
      assert forall n :: n in Ids(launch.flow) ==> Listed(n, |launch.flow.nodes|);
    }

    ghost predicate Listed(n: Id, i: nat)
    {
      exists j :: 0 <= j < i && j < |launch.flow.nodes| && launch.flow.nodes[j].id == n
    }

    lemma {:induction false} ListedNext(i: nat)
      requires i < |launch.flow.nodes|
      ensures forall n :: Listed(n, i + 1) <==> Listed(n, i) || n == launch.flow.nodes[i].id
    {
      forall n ensures Listed(n, i + 1) <==> Listed(n, i) || n == launch.flow.nodes[i].id {
        if Listed(n, i) {
          var j :| 0 <= j < i && launch.flow.nodes[j].id == n;
          assert launch.flow.nodes[j].id == n;
        }
        if n == launch.flow.nodes[i].id { assert Listed(n, i + 1); }
      }
    }

    ghost predicate AlwaysRemains(p: Id)
      requires remainingInputs.Keys <= Ids(launch.flow)
      reads this
    {
      p in remainingInputs && NodeOf(launch.flow, p).runWhen == Always
    }

    method HasRemainingAlwaysPredecessor(n: Id) returns (held: bool)
      requires DescribesNode(engine, launch.flow.edges, n)
      requires remainingInputs.Keys <= Ids(launch.flow)
      ensures held <==> exists p :: p in Sources(launch.flow.edges, n) && AlwaysRemains(p)
    {
      var preds := engine.preds[n];
      for i := 0 to |preds|
        invariant forall k :: 0 <= k < i ==> !AlwaysRemains(preds[k])
      {
        if preds[i] in remainingInputs && NodeOf(launch.flow, preds[i]).runWhen == Always {
          assert AlwaysRemains(preds[i]);
          return true;
        }
      }
      return false;
    }

    /** Runs the cleanup nodes, and the on_success nodes placed after them, until nothing is left. */
    method RunAlwaysPhase()
      requires Valid() && inFlight == map[] && facts.Keys == MainNodes(launch.flow)
      modifies this
      ensures Valid() && inFlight == map[] && remainingInputs == map[] && facts == setup.verdicts
    {
      while true
        invariant Valid() && MainNodes(launch.flow) <= facts.Keys
        decreases remainingInputs.Keys
      {
        StartReadyOnSuccessNodes();
        var skipped := SkipRoutedAwayAlwaysNodes();
        if skipped { continue; }
        StartReadyAlwaysNodes();
        if inFlight == map[] {
          IdleMeansOver(setup, Now());
          var toRun, toSkip := BlockedAlwaysNodes();
          // The source runs or skips the blocked nodes and goes round again; on an acyclic flow there are none.
          assert toRun == [] && toSkip == [];
          return;
        }
        var n, run := Next();
        RecordResult(n, run);
      }
    }
  }

  /**
   * executeNodes: the whole run of a flow. Whatever order the running nodes finish in, every node ends exactly
   * once with its verdict, in an order that respects the edges and the two phases, and nothing is left waiting.
   */
  method ExecuteNodes(l: Launch, e: Engine, ghost rank: map<Id, nat>) returns (state: ExecutionState, success: bool)
    requires Runnable(l, rank) && Describes(e, Ids(l.flow), l.flow.edges)
    ensures fresh(state) && state.launch == l && state.setup.verdicts == AllVerdicts(l, rank)
    ensures LedgerIs(state.Book(), l.inputs, state.setup.verdicts) && state.remainingInputs == map[]
    ensures WellOrdered(state.setup, state.history)
    ensures forall n :: Done(n) in state.history <==> n in state.setup.verdicts
    ensures forall n :: Started(n) in state.history <==> n in state.setup.verdicts && state.setup.verdicts[n].started
    ensures success <==> WithStatus(state.setup.verdicts, Failed) == {}
  {
    state := new ExecutionState(l, e, rank);
    state.RunOnSuccessPhase();
    state.RunAlwaysPhase();
    RunIsOver(state.setup, state.Now());
    MirrorGives(state.Book(), l.inputs, state.facts);
    // finalizeExecution: a failed node fails the flow; nodes left waiting would be reported as a cycle.
    success := !state.errored && |state.remainingInputs| == 0;
  }

  datatype FlowError = BadEdge(error: BuildError) | NoNodes

  /**
   * ExecuteFlowDefinition past module validation: on an acyclic flow with local references, a run either rejects
   * the graph or ends with the one labelling that solves every node's decision, whatever the interleaving.
   */
  method ExecuteFlow(l: Launch) returns (error: Option<FlowError>, state: ExecutionState?, success: bool)
    requires UniqueIds(l.flow) && "" !in Ids(l.flow) && Acyclic(EdgeSet(l.flow)) && RefsLocal(l.flow)
    ensures error.None? <==> WellFormed(l.flow) && l.flow.nodes != []
    ensures error == Some(NoNodes) <==> WellFormed(l.flow) && l.flow.nodes == []
    ensures error.Some? && error.value.BadEdge? ==> exists i :: FirstBadEdge(l.flow.edges, Ids(l.flow), i, error.value.error)
    ensures error.Some? <==> state == null
    ensures state != null ==> Solves(l, state.setup.verdicts) && LedgerIs(state.Book(), l.inputs, state.setup.verdicts)
    ensures state != null ==> WellOrdered(state.setup, state.history) && state.remainingInputs == map[]
    ensures state != null ==> forall n :: Done(n) in state.history <==> n in Ids(l.flow)
    ensures state != null ==> forall n :: n in Ids(l.flow) ==> EndsByRule(l, state.setup.verdicts, n)
    ensures state != null ==> forall n :: n in Ids(l.flow) ==> state.Records(n, state.setup.verdicts[n])
    ensures state != null ==> (success <==> forall n :: n in Ids(l.flow) ==> state.setup.verdicts[n].status != Failed)
  {
    var built := NewFlowEngine(l.flow);
    BuiltIsWithin(l.flow);
    if built.Rejected? { return Some(BadEdge(built.error)), null, false; }
    assert |built.engine.indegree| == |built.engine.indegree.Keys|;
    NoIdsNoNodes(l.flow);
    if |built.engine.indegree| == 0 { return Some(NoNodes), null, false; }
    ghost var rank := AcyclicHasRank(Ids(l.flow), EdgeSet(l.flow));
    VerdictsSolve(l, rank);
    forall n | n in Ids(l.flow) ensures EndsByRule(l, AllVerdicts(l, rank), n) { VerdictsEndByRule(l, rank, n); }
    error := None;
    state, success := ExecuteNodes(l, built.engine, rank);
    forall n | n in Ids(l.flow) ensures state.Records(n, state.setup.verdicts[n]) {
      LedgerRecords(state.Book(), l.inputs, state.setup.verdicts, n);
    }
    NoneFailed(state.setup.verdicts);
  }

  lemma {:induction false} LedgerRecords(b: Ledger, inputs: map<string, Value>, V: map<Id, Verdict>, n: Id)
    requires LedgerIs(b, inputs, V) && n in V && n != ""
    ensures n in b.results && b.results[n] == V[n].status
    ensures (n in b.failed <==> V[n].status == Failed) && (n in b.skipped <==> V[n].status == Skipped)
    ensures (if n in b.outputs then Some(b.outputs[n]) else None) == V[n].published
    ensures (if n in b.cause then Some(b.cause[n]) else None) == V[n].cause
    ensures (if n in b.dead then b.dead[n] else {}) == V[n].dead && (n in b.away <==> V[n].routedAway)
  {
  }

  lemma {:induction false} NoneFailed(V: map<Id, Verdict>)
    ensures WithStatus(V, Failed) == {} <==> forall n :: n in V ==> V[n].status != Failed
  {
    if n :| n in V && V[n].status == Failed { assert n in WithStatus(V, Failed); }
  }

  lemma {:induction false} NoIdsNoNodes(f: Flow)
    ensures Ids(f) == {} <==> f.nodes == []
  {
    if f.nodes != [] { assert f.nodes[0].id in Ids(f); }
  }

  lemma {:induction false} BuiltIsWithin(f: Flow)
    ensures Within(EdgeSet(f), Ids(f)) <==> forall k :: 0 <= k < |f.edges| ==> EndsKnown(f.edges[k], Ids(f))
  {
    if Within(EdgeSet(f), Ids(f)) {
      forall k | 0 <= k < |f.edges| ensures EndsKnown(f.edges[k], Ids(f)) { assert f.edges[k] in EdgeSet(f); }
    }
  }
}
