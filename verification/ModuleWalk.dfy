/** Walking the module references of a launched flow, with a cache of parsed flows. */
module ModuleWalk {
  import opened References
  import opened Graphs
  import opened GoText

  /** A module node: the flow it calls, as written, and the inputs it binds. */
  datatype Call = Call(target: string, bindings: set<string>)

  /** A stored flow: its definition and the inputs it overrides. */
  datatype Stored = Stored(definition: string, overrides: set<string>)

  type Store = map<string, Stored>

  /** The parser: the module nodes of a definition that will receive these inputs, or a failure. */
  type Parser = (string, set<string>) -> Option<seq<Call>>

  datatype Verdict = Fine | CycleDetected(target: string) | NotFound(target: string) | ParseFailed(target: string)

  /** The flows already parsed, by flow and received inputs. */
  type Cache = map<(string, set<string>), seq<Call>>

  function Received(store: Store, call: Call, inherited: set<string>): set<string> {
    var id := TrimSpace(call.target);
    inherited + call.bindings + (if id in store then store[id].overrides else {})
  }

  function OnStack(stack: seq<string>): set<string> { set s | s in stack }

  /** What one reference meets before its target is walked. */
  function Meets(store: Store, parse: Parser, stack: seq<string>, call: Call, inherited: set<string>): Verdict {
    var id := TrimSpace(call.target);
    if id in stack then CycleDetected(id)
    else if id !in store then NotFound(id)
    else if parse(store[id].definition, Received(store, call, inherited)).None? then ParseFailed(id)
    else Fine
  }

  /** The calls of a reference's target. */
  function Inner(store: Store, parse: Parser, call: Call, inherited: set<string>): seq<Call> {
    var id := TrimSpace(call.target);
    if id !in store then []
    else
      var parsed := parse(store[id].definition, Received(store, call, inherited));
      if parsed.Some? then parsed.value else []
  }

  lemma {:induction false} DeeperLeavesLess(store: Store, stack: seq<string>, id: string)
    requires id in store && id !in stack
    ensures |store.Keys - OnStack(stack + [id])| < |store.Keys - OnStack(stack)|
  {
    var before, after := store.Keys - OnStack(stack), store.Keys - OnStack(stack + [id]);
    assert before == after + {id} && id !in after;
  }

  /** The walk without a cache: the first thing wrong, in order. */
  function Walk(store: Store, parse: Parser, calls: seq<Call>, stack: seq<string>, inherited: set<string>): Verdict
    decreases |store.Keys - OnStack(stack)|, |calls|
  {
    if calls == [] then Fine
    else
      var call, id := calls[0], TrimSpace(calls[0].target);
      if id == "" then Walk(store, parse, calls[1..], stack, inherited)
      else
        var met := Meets(store, parse, stack, call, inherited);
        if met != Fine then met
        else
          DeeperLeavesLess(store, stack, id);
          var inside := Walk(store, parse, Inner(store, parse, call, inherited), stack + [id], Received(store, call, inherited));
          if inside != Fine then inside else Walk(store, parse, calls[1..], stack, inherited)
  }

  /** A cached flow is what parsing it again would give. */
  ghost predicate Faithful(store: Store, parse: Parser, cache: Cache) {
    forall k :: k in cache ==> k.0 in store && parse(store[k.0].definition, k.1) == Some(cache[k])
  }

  /** resolveModuleFlow. */
  method ResolveModuleFlow(store: Store, parse: Parser, cache: Cache, call: Call, inherited: set<string>)
    returns (verdict: Verdict, calls: seq<Call>, inputs: set<string>, cache': Cache)
    requires Faithful(store, parse, cache)
    ensures Faithful(store, parse, cache') && inputs == Received(store, call, inherited)
    ensures verdict == Meets(store, parse, [], call, inherited)
    ensures verdict == Fine ==> calls == Inner(store, parse, call, inherited)
  {
    var id := TrimSpace(call.target);
    cache', calls, inputs := cache, [], Received(store, call, inherited);
    if id !in store {
      return NotFound(id), calls, inputs, cache';
    }
    if (id, inputs) in cache {
      return Fine, cache[(id, inputs)], inputs, cache';
    }
    var parsed := parse(store[id].definition, inputs);
    if parsed.None? {
      return ParseFailed(id), calls, inputs, cache';
    }
    cache' := cache[(id, inputs) := parsed.value];
    return Fine, parsed.value, inputs, cache';
  }

  /** validateModuleReferences: the cache never changes the answer of the walk without one. */
  method ValidateModuleReferences(store: Store, parse: Parser, calls: seq<Call>, cache: Cache, stack: seq<string>, inherited: set<string>)
    returns (verdict: Verdict, cache': Cache)
    requires Faithful(store, parse, cache)
    ensures Faithful(store, parse, cache') && verdict == Walk(store, parse, calls, stack, inherited)
    decreases |store.Keys - OnStack(stack)|
  {
    cache' := cache;
    for i := 0 to |calls|
      invariant Faithful(store, parse, cache')
      invariant Walk(store, parse, calls, stack, inherited) == Walk(store, parse, calls[i..], stack, inherited)
    {
      var call, id := calls[i], TrimSpace(calls[i].target);
      assert calls[i..][0] == call && calls[i..][1..] == calls[i + 1..];
      if id == "" { continue; }
      if id in stack {
        return CycleDetected(id), cache';
      }
      var met, inner, inputs;
      met, inner, inputs, cache' := ResolveModuleFlow(store, parse, cache', call, inherited);
      if met != Fine {
        return met, cache';
      }
      DeeperLeavesLess(store, stack, id);
      var inside;
      inside, cache' := ValidateModuleReferences(store, parse, inner, cache', stack + [id], inputs);
      if inside != Fine {
        return inside, cache';
      }
    }
    verdict := Fine;
  }

  // ---- Journeys from module to module

  /** One reference on the way, and the inputs its flow is given. */
  datatype Leg = Leg(call: Call, given: set<string>)

  function Goal(leg: Leg): string { TrimSpace(leg.call.target) }

  /** A flow is given what its caller was given, what the reference binds, and what it overrides itself. */
  ghost predicate IsGiven(store: Store, before: set<string>, leg: Leg) {
    forall name :: name in leg.given <==>
      name in before || name in leg.call.bindings || (Goal(leg) in store && name in store[Goal(leg)].overrides)
  }

  ghost predicate Departs(store: Store, calls: seq<Call>, before: set<string>, leg: Leg) {
    leg.call in calls && Goal(leg) != "" && IsGiven(store, before, leg)
  }

  /** The flow a reference names is stored and parses with what it is given. */
  predicate Parses(store: Store, parse: Parser, leg: Leg) {
    Goal(leg) in store && parse(store[Goal(leg)].definition, leg.given).Some?
  }

  /** The next leg starts from a module node of the flow the last one reached. */
  ghost predicate GoesOn(store: Store, parse: Parser, leg: Leg, next: Leg) {
    Parses(store, parse, leg) && Departs(store, parse(store[Goal(leg)].definition, leg.given).value, leg.given, next)
  }

  /** A way through the references, each found in the flow that the one before it reached. */
  ghost predicate Journey(store: Store, parse: Parser, calls: seq<Call>, inherited: set<string>, legs: seq<Leg>) {
    && legs != [] && Departs(store, calls, inherited, legs[0])
    && forall i :: 0 <= i < |legs| - 1 ==> GoesOn(store, parse, legs[i], legs[i + 1])
  }

  /** Every leg reaches a flow that parses and that was not on the way before. */
  ghost predicate Arrives(store: Store, parse: Parser, stack: seq<string>, legs: seq<Leg>) {
    && (forall i :: 0 <= i < |legs| ==> Parses(store, parse, legs[i]) && Goal(legs[i]) !in stack)
    && forall i, j :: 0 <= i < j < |legs| ==> Goal(legs[i]) != Goal(legs[j])
  }

  /** The last leg of a journey leads to a flow passed before, to no flow, or to one that does not parse. */
  ghost predicate Ends(store: Store, parse: Parser, stack: seq<string>, legs: seq<Leg>, verdict: Verdict)
    requires legs != []
  {
    var last := legs[|legs| - 1];
    if Passed(stack, legs) then verdict == CycleDetected(Goal(last))
    else if Goal(last) !in store then verdict == NotFound(Goal(last))
    else !Parses(store, parse, last) && verdict == ParseFailed(Goal(last))
  }

  ghost predicate Passed(stack: seq<string>, legs: seq<Leg>)
    requires legs != []
  {
    Goal(legs[|legs| - 1]) in stack || exists i :: 0 <= i < |legs| - 1 && Goal(legs[i]) == Goal(legs[|legs| - 1])
  }

  function FirstLeg(store: Store, call: Call, inherited: set<string>): Leg {
    Leg(call, Received(store, call, inherited))
  }

  /** Where the walk is fine, each of its references is met and its flow is walked, fine as well. */
  lemma {:induction false} FineInside(store: Store, parse: Parser, calls: seq<Call>, stack: seq<string>, inherited: set<string>, leg: Leg)
    requires Walk(store, parse, calls, stack, inherited) == Fine && Departs(store, calls, inherited, leg)
    ensures Parses(store, parse, leg) && Goal(leg) !in stack
    ensures Walk(store, parse, parse(store[Goal(leg)].definition, leg.given).value, stack + [Goal(leg)], leg.given) == Fine
  {
    if leg.call == calls[0] {
      assert leg == FirstLeg(store, leg.call, inherited);
      DeeperLeavesLess(store, stack, Goal(leg));
    } else {
      FineInside(store, parse, calls[1..], stack, inherited, leg);
    }
  }

  lemma {:induction false} FineArrives(store: Store, parse: Parser, calls: seq<Call>, stack: seq<string>, inherited: set<string>, legs: seq<Leg>)
    requires Walk(store, parse, calls, stack, inherited) == Fine && Journey(store, parse, calls, inherited, legs)
    ensures Arrives(store, parse, stack, legs)
    decreases |legs|
  {
    var leg, rest := legs[0], legs[1..];
    FineInside(store, parse, calls, stack, inherited, leg);
    if rest != [] {
      assert GoesOn(store, parse, legs[0], legs[1]);
      forall i | 0 <= i < |rest| - 1 ensures GoesOn(store, parse, rest[i], rest[i + 1]) {
        assert GoesOn(store, parse, legs[i + 1], legs[i + 2]);
      }
      FineArrives(store, parse, parse(store[Goal(leg)].definition, leg.given).value, stack + [Goal(leg)], leg.given, rest);
      forall i | 0 < i < |legs| ensures Parses(store, parse, legs[i]) && Goal(legs[i]) !in stack && Goal(legs[i]) != Goal(leg) {
        assert rest[i - 1] == legs[i];
      }
      forall i, j | 0 <= i < j < |legs| ensures Goal(legs[i]) != Goal(legs[j]) {
        if i > 0 { assert rest[i - 1] == legs[i] && rest[j - 1] == legs[j]; }
      }
    }
  }

  lemma {:induction false} Continued(store: Store, parse: Parser, calls: seq<Call>, stack: seq<string>, inherited: set<string>, leg: Leg, rest: seq<Leg>)
    requires Departs(store, calls, inherited, leg) && Parses(store, parse, leg)
    requires Journey(store, parse, parse(store[Goal(leg)].definition, leg.given).value, leg.given, rest)
    requires !Arrives(store, parse, stack + [Goal(leg)], rest)
    ensures Journey(store, parse, calls, inherited, [leg] + rest) && !Arrives(store, parse, stack, [leg] + rest)
  {
    var legs := [leg] + rest;
    forall i | 0 <= i < |legs| - 1 ensures GoesOn(store, parse, legs[i], legs[i + 1]) {
      if i > 0 { assert GoesOn(store, parse, rest[i - 1], rest[i]); }
    }
    if Arrives(store, parse, stack, legs) {
      forall i | 0 <= i < |rest| ensures Parses(store, parse, rest[i]) && Goal(rest[i]) !in stack + [Goal(leg)] {
        assert legs[i + 1] == rest[i] && Goal(legs[0]) != Goal(legs[i + 1]);
      }
      forall i, j | 0 <= i < j < |rest| ensures Goal(rest[i]) != Goal(rest[j]) {
        assert legs[i + 1] == rest[i] && legs[j + 1] == rest[j];
      }
    }
  }

  lemma {:induction false} EndsLater(store: Store, parse: Parser, stack: seq<string>, leg: Leg, rest: seq<Leg>, verdict: Verdict)
    requires rest != [] && Ends(store, parse, stack + [Goal(leg)], rest, verdict)
    ensures Ends(store, parse, stack, [leg] + rest, verdict)
  {
    var legs := [leg] + rest;
    assert legs[|legs| - 1] == rest[|rest| - 1];
    if i :| 0 <= i < |rest| - 1 && Goal(rest[i]) == Goal(rest[|rest| - 1]) { assert legs[i + 1] == rest[i]; }
    if i :| 0 <= i < |legs| - 1 && Goal(legs[i]) == Goal(legs[|legs| - 1]) { assert i > 0 ==> rest[i - 1] == legs[i]; }
    assert Goal(legs[0]) == Goal(leg);
    assert Passed(stack, legs) <==> Passed(stack + [Goal(leg)], rest);
  }

  /** Whatever the walk finds wrong, some journey runs into it. */
  lemma {:induction false} WrongIsMet(store: Store, parse: Parser, calls: seq<Call>, stack: seq<string>, inherited: set<string>)
    returns (legs: seq<Leg>)
    requires Walk(store, parse, calls, stack, inherited) != Fine
    ensures Journey(store, parse, calls, inherited, legs) && !Arrives(store, parse, stack, legs)
    ensures Ends(store, parse, stack, legs, Walk(store, parse, calls, stack, inherited))
    decreases |store.Keys - OnStack(stack)|, |calls|
  {
    var call, id := calls[0], TrimSpace(calls[0].target);
    var leg := FirstLeg(store, call, inherited);
    if id != "" && Meets(store, parse, stack, call, inherited) != Fine {
      legs := [leg];
      assert legs[0] == leg;
      return;
    }
    if id != "" {
      DeeperLeavesLess(store, stack, id);
      var inner := Inner(store, parse, call, inherited);
      if Walk(store, parse, inner, stack + [id], leg.given) != Fine {
        var rest := WrongIsMet(store, parse, inner, stack + [id], leg.given);
        Continued(store, parse, calls, stack, inherited, leg, rest);
        EndsLater(store, parse, stack, leg, rest, Walk(store, parse, calls, stack, inherited));
        legs := [leg] + rest;
        return;
      }
    }
    legs := WrongIsMet(store, parse, calls[1..], stack, inherited);
  }

  /** The walk is fine exactly when every journey reaches only flows that are stored, parse, and were not passed before. */
  lemma {:induction false} FineExactly(store: Store, parse: Parser, calls: seq<Call>, stack: seq<string>, inherited: set<string>)
    ensures Walk(store, parse, calls, stack, inherited) == Fine <==>
      forall legs :: Journey(store, parse, calls, inherited, legs) ==> Arrives(store, parse, stack, legs)
  {
    if Walk(store, parse, calls, stack, inherited) != Fine {
      var legs := WrongIsMet(store, parse, calls, stack, inherited);
    } else {
      forall legs | Journey(store, parse, calls, inherited, legs) ensures Arrives(store, parse, stack, legs) {
        FineArrives(store, parse, calls, stack, inherited, legs);
      }
    }
  }
}
