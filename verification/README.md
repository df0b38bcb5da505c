# Echopoint runner: a Dafny model and its proofs

The runner executes API test flows: graphs of nodes that call services, branch, poll, loop and wait for webhooks.
This project models the parts of it whose correctness is an argument over whole runs, whole files or whole streams,
and proves those arguments. `dafny verify dfyconfig.toml` checks everything.

| part | modules |
|---|---|
| graphs, references, text, numbers | `Graphs`, `References`, `GoText`, `SortedNames`, `Numbers`, `Lookups` |
| the two-phase scheduler | `Flows`, `EngineGraph`, `Inputs`, `Scheduler`, `ScheduleFacts`, `Verdicts`, `Containment`, `Outcomes` |
| the parse-time validator | `Validation`, `Soundness`, `SoundnessExact` |
| the sequential engine | `CoreOrder`, `CoreRules`, `CoreQueue`, `CoreScheduler`, `CoreOutcomes` |
| template rewriting | `Templates`, `JsonText`, `TemplateRewrite`, `DocumentSpots` |
| the flow file compiler and decompiler | `Checks`, `CheckRoundTrip`, `CheckLines`, `FlowEdges`, `FlowTree`, `FlowModel`, `FlowParse`, `FlowLower`, `FlowPrint`, `FlowPrintable`, `FlowShapes`, `FlowReadBack`, `FlowOutputsBack`, `FlowNodeBack`, `FlowRoundTrip`, `FlowCompiled`, `FlowExact`, `FlowBranches`, `FlowSpelling`, `FlowRefusals` |
| module references | `ModuleResolution`, `ModuleWalk` |
| the progress reporter | `ReporterLedger`, `Reporter` |
| the response budget and body reader | `BudgetLedger`, `BodyReader` |
| expected webhook events | `Expectations`, `ExpectationWait` |
| masking | `Masking`, `Redactor`, `RedactorLaws` |

## What is assumed

- Node ids are unique, trimmed and not empty. A node's executor is a function of the inputs assembled for it; two launches of
  the same flow with the same inputs then differ only in the order in which running nodes finish.
- The scheduler theorems ask that a reference names an ancestor, or a flow input (`RefsLocal`). Acceptance by the
  validator gives that, however the reference is spelled (`Soundness.AcceptedRefsLocal`).
- Exactly-once results are claimed on acyclic flows. `AcyclicHasRank` turns acyclicity into the ranking the proofs use.
- The order in which goroutines finish, a semaphore's grant, a timeout, a Read's size and a server's answer are
  arbitrary choices: every theorem holds for all of them.
- JSON string escaping, base64, the encoded size of an event, the operators of an assertion and the parser of a stored
  definition are functions with stated laws, or none. Whole numbers are read as float64 values by an explicit rounding;
  the numbers that are no 64-bit integer are an arbitrary format with stated laws (`Numbers.Floats`). Converting 2^63,
  which no int64 holds, gives the least int64, as on amd64.

## Where the code and its promise differ

- A skipped node can have closed edges: `Containment.SkippedBranchClosesEdges` says exactly when, and that then all of
  its edges are closed (`pkg/engine/execution.go:269-287` and `pkg/engine/execution.go:323-355`).
- `Resolve` returns a text without literal braces unresolved even when a `\u` escape spells a token
  (`TemplateRewrite.HiddenToken`); `TemplateRewrite.ResolveIsRewriteExactly` says exactly when it agrees with
  parse, walk and marshal.
- The validator trims the parts of a reference and the engine does not, so the spelling `a. x` is accepted and then
  refused (`Soundness.UncleanReferenceSlipsThrough`). An accepted reference has its source in every launch exactly when
  it has one as it is spelled (`SoundnessExact.ReferenceHoldsExactly`), and an accepted flow is safe exactly when all of
  its references do (`SoundnessExact.AcceptedIsSafeExactly`).
- A wait whose polls all failed reports every group passed when none needs an event, although a settle window was
  asked for. `ExpectationWait.ListenPromise` gives the exact condition.
- A flush that ends without a failure has emptied the queue exactly when its last answer accepted its batch to the end
  (`Reporter.JobEventReporter.Flush`); `Reporter.ShortAnswerLeavesAnEvent` is a flush that does not.
- A compiled flow is not always a fixed point of decompiling and compiling. `FlowExact.FixedPointExactly` gives the
  exact condition: no check value ends in a line break, every number is one a float64 holds, no bound of a check prints
  as another number, every assert has a check, every path and header of an output is named, and every module output is
  a name bound to a child output. `FlowExact.FirstLostBody` is a flow that loses the number 2^53+1.
- A secret can survive its own masking exactly when it starts or ends with an asterisk or holds three in a row
  (`Masking.SecretSurvivesExactly`); no other secret is ever left, whatever is masked with it
  (`Masking.NeverLeftExactly`).

## Model

| member | source | states |
|---|---|---|
| EngineGraph.NewFlowEngine | pkg/engine/engine.go:94-187 | The graph is rejected exactly when an edge has an unknown end, naming the first such edge, source first; otherwise predecessor, successor and in-degree maps are those of the edge list, parallel edges counted |
| EngineGraph.EndsAgree | pkg/engine/execution.go:777-783 | A node is decremented once per parallel edge: successors of n and predecessors of m count the edges between them alike |
| EngineGraph.EdgesAreCounted | pkg/engine/engine.go:94-187 | Successors and predecessors occur as often as there are edges between the two nodes |
| Inputs.ResolveRef | pkg/engine/engine.go:415-429 | A published node owns its dotted references; otherwise a flow input the path is rooted at does |
| Inputs.ValidateInputs | pkg/engine/engine.go:349-394 | Inputs are refused exactly when some reference has no value in the view |
| Inputs.AssembleInputs | pkg/engine/engine.go:397-410 | Each declared reference is bound to what the lookup finds, and nothing else is |
| Inputs.RefersSkipped | pkg/engine/execution.go:184-203 | True exactly when a reference is rooted at a skipped step and at no flow input |
| Inputs.RunNode | pkg/engine/execution.go:435-534 | A node whose inputs are refused does not execute; otherwise it ends as its executor does on the assembled inputs |
| Lookups.LongestRootWins | pkg/node/template_resolver.go:140-150 | A path is looked up under the longest key that is a cut of it, and the rest walks into that value |
| Lookups.PathNamesItsValue | pkg/node/template_resolver.go:140-172 | A path spelled from members and element numbers names the very value they lead to |
| Lookups.WalkTakesASegment | pkg/node/template_resolver.go:152-172 | A walk that arrives takes a member of that name or the element at that index at each segment |
| Lookups.IndexIsRead | pkg/node/template_resolver.go:152-172 | An index is read back from its decimal digits, with or without a sign |
| Lookups.SplitOfJoin | pkg/node/template_resolver.go:140-150 | Splitting at the dots is the only way to write the path as parts without dots |
| Lookups.PublishedNodeOwns | pkg/engine/engine.go:415-429 | A node that published decides its dotted references alone: present exactly when its outputs hold the path |
| Lookups.OtherwiseFlowInput | pkg/engine/engine.go:415-429 | Where the node published nothing, the reference is a path into the flow inputs or nothing |
| Lookups.UndottedIsFlowInput | pkg/engine/engine.go:415-429 | A reference without a dot is the flow input of that name |
| Scheduler.ExecutionState.constructor | pkg/engine/execution.go:62-93 | A new run has every node waiting for exactly its predecessors and nothing recorded |
| Scheduler.ExecutionState.ReadyNodes | pkg/engine/execution.go:402-411 | The ready list is the nodes of the phase with no waiting input, not running, in node order |
| Scheduler.ExecutionState.UpstreamFailure | pkg/engine/execution.go:147-154 | The blamed failure is carried by a predecessor, and no predecessor before it in edge order carries one; none exactly when no predecessor carries one |
| Scheduler.ExecutionState.IsFullyDead | pkg/engine/execution.go:161-176 | True exactly when there are predecessors and each was skipped, failed or closed its edge; what that means for who starts is `Outcomes.VerdictsEndByRule` |
| Scheduler.ExecutionState.IsRoutedAway | pkg/engine/execution.go:251-264 | True exactly when there are predecessors and each closed its edge or is itself routed away |
| Scheduler.ExecutionState.MarkNodeComplete | pkg/engine/execution.go:777-783 | Every successor is decremented once per edge, and the ended node leaves the map |
| Scheduler.ExecutionState.NodeEnds | pkg/engine/execution.go:777-783 | Ending a node with its verdict keeps the run's invariant and adds exactly that node to the ended ones |
| Scheduler.ExecutionState.RecordSkippedNode | pkg/engine/execution.go:793-814 | A skip is recorded, may spread a routing decision or a failure cause, and unblocks the successors |
| Scheduler.ExecutionState.StartOrSkip | pkg/engine/execution.go:114-143 | A ready on_success node is skipped exactly when a failure reaches it, no live edge does, or a reference names a skipped step; it then ends with its verdict, and otherwise runs on the outputs committed so far |
| Scheduler.ExecutionState.StartReadyOnSuccessNodes | pkg/engine/execution.go:114-143 | Passes go on until a pass skips nothing, and then no on_success node is ready |
| Scheduler.ExecutionState.Next | pkg/engine/execution.go:429-433 | The next node to finish is any running node, and its result is its executor's on the snapshot taken at its start |
| Scheduler.ExecutionState.RecordRoutingDecision | pkg/engine/execution.go:323-355 | Exactly the successors the result did not route to lose their edge |
| Scheduler.ExecutionState.CommitResult | pkg/engine/execution.go:289-316 | What a finished node's result does to every map of the state |
| Scheduler.ExecutionState.RunOnSuccessPhase | pkg/engine/execution.go:98-108 | The phase ends with nothing running, and every on_success node without an always ancestor ended |
| Scheduler.ExecutionState.SkipRoutedAwayAlwaysNodes | pkg/engine/execution.go:237-246 | Whatever ends is skipped because every branch routed away from it; when nothing does, no ready always node is routed away |
| Scheduler.ExecutionState.BlockedAlwaysNodes | pkg/engine/execution.go:855-889 | Exactly the waiting always nodes with no waiting always node before them, to run when not routed away and their inputs are there, else to skip; none once every node ended |
| Scheduler.ExecutionState.HasRemainingAlwaysPredecessor | pkg/engine/execution.go:891-904 | True exactly when a predecessor that still waits is an always node |
| Scheduler.ExecutionState.RunAlwaysPhase | pkg/engine/execution.go:208-233 | The phase ends with every node ended and nothing running |
| Scheduler.ExecuteNodes | pkg/engine/execution.go:62-93 | Whatever the finishing order: every node ends exactly once with its recursive verdict, all maps are those of the verdicts, ends respect edges and phases, and nothing is left waiting |
| Scheduler.ExecuteFlow | pkg/engine/engine.go:228-310 | A flow is refused for its first bad edge or for having no nodes; a well-formed acyclic flow ends with the one labelling that solves every node's own decision, every node ends by the rule of `Outcomes.VerdictsEndByRule`, all records are those of its end, and the flow succeeds exactly when no node failed |
| ScheduleFacts.EndInv | pkg/engine/execution.go:777-783 | Ending a node whose predecessors ended keeps the run's invariant |
| ScheduleFacts.OnSuccessCases | pkg/engine/execution.go:114-143 | The tests made on a ready on_success node lead to its verdict |
| ScheduleFacts.AlwaysCases | pkg/engine/execution.go:208-233 | The tests made on a ready always node lead to its verdict |
| ScheduleFacts.IdleMeansOver | pkg/engine/execution.go:208-233 | With nothing running and nothing ready every node has ended |
| ScheduleFacts.IdleMeansMainOver | pkg/engine/execution.go:98-108 | When the first phase stops, no on_success node without an always ancestor is left |
| Verdicts.DecideLocal | pkg/engine/execution.go:114-176 | The decision about a node depends only on its ancestors |
| Verdicts.VerdictsSolve | pkg/engine/execution.go:95-433 | The recursive verdicts satisfy every node's own decision at once |
| Verdicts.VerdictIsTheOnlySolution | pkg/engine/execution.go:95-433 | No other labelling does: the outcome of a run is determined |
| Verdicts.VerdictIgnoresRank | pkg/engine/execution.go:95-433 | Verdicts do not depend on the order they are computed along |
| Containment.FailureContainment | pkg/engine/execution.go:114-154 | An on_success node is skipped unstarted with a cause exactly when a path of on_success nodes leads to it from a failed node |
| Containment.AlwaysSurvivesFailure | pkg/engine/execution.go:208-264 | An always node starts exactly when it is not routed away, carries a cause only for its own failure, and ends skipped after starting exactly when an input is missing |
| Containment.RoutedAwayExactly | pkg/engine/execution.go:251-264 | A node is routed away exactly when every path to it from a root follows a closed edge |
| Containment.SkippedBranchClosesEdges | pkg/engine/execution.go:269-287 | A skipped node has closed edges exactly when it is an always node that routes, was started, missed an input and has a successor; then all of them are closed |
| Outcomes.VerdictsEndByRule | pkg/engine/execution.go:114-176 | Said of nodes and edges alone: an on_success node starts exactly when it is a root or has a live edge, no failure reaches it and no reference names a skipped step; an always node exactly when a path from a root follows no closed edge; and with which status, outputs, closed edges and blame each node ends |
| Outcomes.JoinRuns | pkg/engine/execution.go:161-176 | A join after a branch runs as soon as one edge into it is live and no failure reaches it |
| Flows.FirstCauseIsFirst | pkg/engine/execution.go:147-154 | The blamed predecessor carries the cause and none before it carries one |
| References.HasPathRoot | pkg/flow/validation.go:285-296 | True exactly when the path or a cut of it at a dot is a key |
| Validation.UpstreamOutputs | pkg/flow/validation.go:80-101 | The worklist terminates with exactly the outputs of the nodes that reach the given one |
| Validation.ValidateReference | pkg/flow/validation.go:166-270 | A reference is accepted exactly when it is a rooted flow input or a declared output upstream |
| Validation.OutputAccepted | pkg/flow/validation.go:166-270 | A cleanly spelled reference of an on_success node to no flow input is accepted exactly when it names an output that a node before it declares |
| Validation.DottedAccepted | pkg/flow/validation.go:298-315 | The first dot of the trimmed reference splits it; what each of the two trimmed parts then has to be |
| Validation.NameAccepted | pkg/flow/validation.go:222-240 | A name without a dot is accepted exactly when it is a known input, or unknown inputs are allowed |
| Validation.ValidateBranchTargets | pkg/flow/validation.go:108-164 | Accepts exactly the flows whose branch targets are each an edge away |
| Validation.TargetIsAnEdgeAway | pkg/flow/validation.go:144-164 | A target is accepted exactly when it is blank or some edge of the file leads from the branch to it |
| Validation.ValidateFlowReferences | pkg/flow/validation.go:15-62 | Decides exactly the accepted flows |
| Soundness.AcceptedRefsLocal | pkg/flow/validation.go:166-296 | Acceptance, whatever the spelling, gives the locality the scheduler theorems ask for |
| Soundness.StartedNodesHaveTheirSources | pkg/engine/execution.go:114-203 | In an accepted flow of on_success nodes every source of a started node has run, succeeded and holds the declared root, for each reference that has a source as spelled |
| Soundness.RefusedOnlyPastARoot | pkg/engine/engine.go:349-394 | A started node is refused only by a dotted path that walks past a present root |
| Soundness.CleanIsSourced | pkg/flow/validation.go:166-296 | An accepted reference without blanks around its parts has a source as spelled |
| SoundnessExact.ReferenceHoldsExactly | pkg/flow/validation.go:166-296 | An accepted reference of a node that can start finds its source in every conforming launch exactly when it has one as it is spelled |
| SoundnessExact.AcceptedIsSafeExactly | pkg/flow/validation.go:77-101 | An accepted flow never starts a node without the source of a reference, however it is launched, exactly when every reference has a source as spelled |
| SoundnessExact.RunsAreSafe | pkg/engine/execution.go:114-203 | In every reachable state of the scheduler, a node it may start finds the source of each such reference |
| Soundness.UncleanReferenceSlipsThrough | pkg/flow/validation.go:298-315 | A reference with a space inside its parts is accepted by the validator and refused by the engine |
| CoreScheduler.Validate | pkg/core/flow/flow.go:95-120 | Accepts exactly the flows with unique non-empty ids and declared edge ends, and otherwise names the first fault, nodes before edges |
| CoreScheduler.Scheduler.constructor | pkg/core/engine/engine.go:227-264 | The queue starts as the sorted roots and the in-degrees are those of the edge list |
| CoreRules.Classify | pkg/core/engine/engine.go:346-378 | A node runs exactly when it is a root or has a live edge not held back by a failure; the skip reason prefers a failure, then a branch, then a skip |
| CoreScheduler.Scheduler.Decrement | pkg/core/engine/engine.go:328-339 | Each successor is decremented once per edge, and exactly those that reach zero are listed, once |
| CoreScheduler.Scheduler.Release | pkg/core/engine/engine.go:328-339 | The queue is again the sorted list of exactly the available nodes |
| CoreScheduler.Scheduler.RecordRouting | pkg/core/engine/engine.go:475-494 | Exactly the successors not routed to lose their edge, and no other node's edges change; what that does to a run is `CoreOutcomes.RunFollowsRule` |
| CoreScheduler.Scheduler.Settle | pkg/core/engine/engine.go:269-313 | One node is recorded by the rule and by what it returned; nothing about any other node changes |
| CoreScheduler.Scheduler.Step | pkg/core/engine/engine.go:269-313 | One node is appended to the processed order and the whole invariant is kept |
| CoreScheduler.Scheduler.Schedule | pkg/core/engine/engine.go:175-193 | The run processes every node exactly when the graph is acyclic, then in its least topological order |
| CoreScheduler.RunFlow | pkg/core/engine/engine.go:69-92 | Refused exactly when invalid; otherwise the run has an order and results that follow the rule of `CoreOutcomes.RunFollowsRule` |
| CoreOutcomes.RunFollowsRule | pkg/core/engine/engine.go:269-378 | Said of edges and results alone: each node is processed once, on what the successes before it published; it runs exactly when it is a root or a success routes to it and no failure of the main phase holds it back, and otherwise is skipped for the first reason that applies |
| CoreOutcomes.DeadExactly | pkg/core/engine/engine.go:475-494 | After a run, an edge is closed exactly when its source finished with a routing that does not name its target |
| CoreOutcomes.SentIsNotRoutedElsewhere | pkg/core/engine/engine.go:346-378 | A node that a finished node routed to is never passed over as routed elsewhere, nor for a failed or skipped dependency |
| CoreOutcomes.UnsentIsRoutedElsewhere | pkg/core/engine/engine.go:346-378 | An on_success node whose predecessors all finished and none routed to it is passed over as routed elsewhere |
| CoreOrder.GreedyIsLeast | pkg/core/engine/engine.go:328-339 | Taking the least available node each time gives the lexicographically least topological order |
| CoreOrder.StuckMeansComplete | pkg/core/engine/engine.go:187-190 | In an acyclic graph an empty queue means that nothing is left |
| CoreQueue.DrainedQueue | pkg/core/engine/engine.go:175-193 | Processed count equals node count exactly when the graph is acyclic |
| SortedNames.SortIsTheOnlyOne | pkg/core/engine/engine.go:336-338 | The sorted queue is the one increasing list of its nodes |
| SortedNames.LessExactly | pkg/core/engine/engine.go:336-338 | A name comes before another exactly when it is a proper start of it or smaller at the first difference |
| TemplateRewrite.StringEnd | pkg/core/tmpl/tmpl.go:90-100 | The end found is that of the string literal, escapes skipped |
| TemplateRewrite.IsKey | pkg/core/tmpl/tmpl.go:104-113 | True exactly when the next character past white space is a colon |
| TemplateRewrite.Resolve | pkg/core/tmpl/tmpl.go:51-86 | The byte loop writes what the scan by literals does |
| TemplateRewrite.ScanIsRewrite | pkg/core/tmpl/tmpl.go:51-86 | In every layout of every valid JSON text the scan writes the text with its string values rewritten and all else, keys included, in place |
| JsonText.RewriteMapsTheTree | pkg/core/tmpl/tmpl.go:51-137 | The rewritten text stands for the original tree with each string value resolved and keys, numbers and structure untouched |
| TemplateRewrite.ResolveRefines | pkg/core/tmpl/tmpl.go:51-137 | The byte scan refines parse, map over string values, marshal |
| TemplateRewrite.TemplatesRefine | pkg/core/tmpl/tmpl.go:117-160 | With the template resolver itself, the byte scan refines parse, resolve every string value, marshal; what the resolver does with a whole triple-brace token is `DocumentSpots.RawTokenIsValue` |
| DocumentSpots.RawTokenIsValue | pkg/core/tmpl/tmpl.go:124-129 | A string that is one triple-brace token becomes the value it names, whatever its type; an unknown name stays |
| DocumentSpots.RawTokenInDocument | pkg/core/tmpl/tmpl.go:124-137 | Anywhere in a document, such a string is replaced by the list or object itself, in the text written and in the tree it stands for |
| DocumentSpots.ResolvedAt | pkg/core/tmpl/tmpl.go:51-137 | At every place of a document each string value has become what it resolves to |
| JsonText.EscapeStandsFor | pkg/core/tmpl/tmpl.go:117-121 | Each two-character escape stands for its character, wherever it stands |
| JsonText.UnitsStandFor | pkg/core/tmpl/tmpl.go:117-121 | Hex digits of either case name a character, a surrogate pair one, a stray surrogate the replacement character |
| TemplateRewrite.ResolveIsRewriteExactly | pkg/core/tmpl/tmpl.go:51-60 | It agrees with the rewrite exactly when the raw text shows a token or no string value would change |
| TemplateRewrite.HiddenTokenIsMissed | pkg/core/tmpl/tmpl.go:51-60 | A changing string whose spelling shows no token is returned unresolved |
| TemplateRewrite.HiddenToken | pkg/core/tmpl/tmpl.go:51-60 | Such a string exists |
| Templates.TokenIsReplaced | pkg/core/tmpl/tmpl.go:120-137 | A resolved token is replaced where it stands and the text around it is kept |
| Templates.UnresolvedStaysVerbatim | pkg/core/tmpl/tmpl.go:120-137 | Text whose references resolve to nothing is unchanged |
| CheckRoundTrip.CheckRoundTripExactly | pkg/flowdsl/decompile.go:546-631 | A stored check is rendered and read back as itself exactly when it is one of the writable checks |
| CheckRoundTrip.WritableComesBack | pkg/flowdsl/expect.go:92-233 | Every writable check renders and is read back as itself: quoted targets, empty values, valueless operators, status lines and bounds included |
| CheckRoundTrip.OnlyReadableIsRead | pkg/flowdsl/expect.go:92-233 | Whatever line is read, the check is one of the readable checks: a line can carry it, up to the value of a bound |
| CheckLines.ComparisonLine | pkg/flowdsl/expect.go:119-204 | A target word, one of eleven comparisons and the rest of the line are read as exactly that check |
| CheckLines.BareLine | pkg/flowdsl/expect.go:119-170 | Two operators stand alone |
| CheckLines.BetweenLine | pkg/flowdsl/expect.go:206-233 | And one takes a lower and an upper number |
| CheckLines.WordIsRead | pkg/flowdsl/expect.go:136-158 | A word is read as status, body, path, header or query parameter exactly when it names it |
| CheckRoundTrip.BoundBack | pkg/flowdsl/expect.go:223-233 | A stored bound prints as one word, which reads as the same bound exactly when a float64 holds it and does not print as an integer |
| Numbers.NearestIsNearest | pkg/flowdsl/decompile.go:726-735 | A whole number is read as the float64 nearest to it |
| Numbers.ReloadedExactly | pkg/flowdsl/decompile.go:814-820 | A stored 64-bit number is printed as itself exactly when it has at most 53 significant bits |
| GoText.QuotedRead | pkg/flowdsl/decompile.go:607-612 | A quoted target is unquoted to itself and leaves what follows it |
| FlowEdges.LowerEdges | pkg/flowdsl/lower.go:62-103 | The loop with its set of seen keys writes each requested edge once, where it is first asked for |
| FlowEdges.EdgeNames | pkg/flowdsl/decompile.go:510-526 | The success and failure targets of a node, in edge order |
| FlowEdges.EdgesAreExact | pkg/flowdsl/lower.go:62-103 | Every next, branch and on_failure target is covered, each edge once, and no other edge is emitted |
| FlowEdges.EdgesAreANormalForm | pkg/flowdsl/decompile.go:510-526 | Reading each node's names back and lowering again reproduces the edge list exactly |
| FlowBranches.BranchTargetsAccepted | pkg/flow/validation.go:108-164 | The edges of every compiled body satisfy the branch target check |
| FlowTree.BuildRead | pkg/flowdsl/decompile.go:831-859 | A built mapping is read back key by key and holds no other key |
| FlowTree.ValueBack | pkg/flowdsl/decompile.go:726-772 | A stored value decodes from its printed form to itself exactly when a float64 holds each of its numbers |
| FlowReadBack.FlatDataBack | pkg/flowdsl/decompile.go:172-474 | Each kind without a body is read and lowered back from what it was printed as |
| FlowOutputsBack.OutputsBack | pkg/flowdsl/decompile.go:653-716 | Printed outputs, short or long form, are read back with their extractor and secret flag |
| FlowOutputsBack.BindingsBack | pkg/flowdsl/decompile.go:718-724 | Printed module bindings are read back as the same bindings |
| FlowNodeBack.NodeBack | pkg/flowdsl/decompile.go:115-149 | A printed node is read back as a node that lowers to it and asks for the same edges |
| FlowRoundTrip.DataBack | pkg/flowdsl/decompile.go:381-427 | Poll and loop nodes come back with whatever is nested in them |
| FlowRoundTrip.BodyBack | pkg/flowdsl/decompile.go:476-488 | A clean compiled body is printed, read and lowered to exactly itself |
| FlowPrintable.BodyPrints | pkg/flowdsl/decompile.go:115-149 | Decompiling refuses no clean compiled body |
| FlowCompiled.BodySound | pkg/flowdsl/parse.go:81-191 | Whatever tree is read as a body, its ids, shapes and nested bodies meet the reader's guarantees; how steps are linked is `FlowSpelling.StepsAreLinked` |
| FlowCompiled.BodyCompiled | pkg/flowdsl/lower.go:105-148 | What such a body lowers to has the compiled shape, its edges in normal form |
| FlowCompiled.EveryCompiledBody | pkg/flowdsl/compile.go:102-119 | Every file that compiles gives a body of the compiled shape |
| FlowSpelling.StepsAreLinked | pkg/flowdsl/parse_fields.go:107-116 | In every list of steps, a step that is no branch and has no next asks for exactly the step after it; every other step, and the last, asks for what its own keys say |
| FlowSpelling.StepEdges | pkg/flowdsl/parse.go:23-44 | And so do the stored edges: one success edge to the following step, or exactly those that its own next and branch name |
| FlowSpelling.EdgesOfNode | pkg/flowdsl/lower.go:62-103 | The success edges of a node lead to its next and branch targets, the failure edges to its on_failure targets, and no others |
| FlowSpelling.NodeIsAsWritten | pkg/flowdsl/parse.go:141-191 | Each part of a node that is read is what its own keys say |
| FlowSpelling.ExplicitRunWhen | pkg/flowdsl/parse.go:149-155 | An explicit run_when of on_success says what no run_when says |
| FlowSpelling.DelayForms | pkg/flowdsl/kinds.go:96-117 | A delay is written as a number or as a mapping, and is refused unless positive |
| FlowSpelling.ModuleForms | pkg/flowdsl/kinds.go:74-94 | A module is named by a text or by a mapping |
| FlowSpelling.PathForms | pkg/flowdsl/kinds.go:449-532 | An output path is written short or long |
| FlowSpelling.HeaderForms | pkg/flowdsl/kinds.go:449-532 | So is an output header |
| FlowSpelling.StatusOutputForms | pkg/flowdsl/kinds.go:449-532 | And the status as an output |
| FlowSpelling.StatusForms | pkg/flowdsl/expect.go:56-117 | A status is checked by a line or by a mapping |
| FlowSpelling.InlineForms | pkg/flowdsl/kinds.go:282-302 | A poll or loop holds its nodes in a body or directly, with one meaning |
| FlowSpelling.ExportsAreFilledIn | pkg/flowdsl/resolve.go:148-181 | A module node that writes no outputs binds exactly the non-empty exports of its file |
| FlowRefusals.ExplicitOutputsAreBound | pkg/flowdsl/resolve.go:148-171 | The outputs a module node writes out are bound as written, each to an export of the file |
| FlowRefusals.UnknownKeyIsRefused | pkg/flowdsl/parse_fields.go:82-92 | Whatever the kind, a repeated key or one that its mapping does not know refuses the node |
| FlowRefusals.ReadNodeIsProper | pkg/flowdsl/parse.go:141-191 | A node is read only with one kind word, with inputs and outputs on the kinds that take them, with a check on every assert, and without a status check on an event |
| FlowExact.FixedPointExactly | pkg/flowdsl/decompile.go:28-149 | A compiled body is printed and comes back as itself exactly when it is clean |
| FlowExact.CompileDecompileCompile | pkg/flowdsl/decompile.go:28-31 | For every file and library: compiling, decompiling and compiling again gives the same nodes and edges exactly when the compiled body is clean |
| FlowExact.SetBodyReadsBack | pkg/flowdsl/decompile.go:726-735 | A body that sets one number comes back exactly when a float64 holds the number |
| FlowExact.FirstLostBody | pkg/flowdsl/decompile.go:814-820 | 2^53 comes back and 2^53+1 does not |
| ModuleResolution.BackEdgeIsCycle | pkg/flowdsl/resolve.go:107-114 | A reference to a file still being visited closes a cycle of the file graph |
| ModuleResolution.FinishedIsAcyclic | pkg/flowdsl/resolve.go:45-59 | When every file finished without a reported cycle the file graph has none |
| ModuleResolution.BackEdgeCloses | pkg/flowdsl/resolve.go:107-114 | The chain that is reported follows references and ends at a file that it passed before |
| ModuleResolution.MentionedSomewhere | pkg/flowdsl/resolve.go:73-80 | A file refers to whatever some node of it refers to, however deep in bodies |
| ModuleResolution.Resolver.BindModule | pkg/flowdsl/resolve.go:94-146 | A dependency's exports are read only once it is done; whatever is wrong with the reference is reported, and nothing else |
| ModuleResolution.Resolver.Visit | pkg/flowdsl/resolve.go:45-59 | A file is entered once and left done, the stack as it was |
| ModuleResolution.Resolver.Finish | pkg/flowdsl/resolve.go:61-80 | Everything the nodes refer to, bodies included, is finished unless a cycle was met |
| ModuleResolution.ResolveAll | pkg/flowdsl/resolve.go:30-43 | The walk terminates; a module cycle is reported exactly when the file graph has a cycle, each reported chain is one, and a reference outside the library or to no file is reported exactly for the files that have it |
| ModuleWalk.ResolveModuleFlow | pkg/engine/module_cycle_validation.go:92-131 | A cached flow is the one parsing would give, for the same received inputs |
| ModuleWalk.ValidateModuleReferences | pkg/engine/module_cycle_validation.go:29-70 | The walk terminates and answers what the walk without a cache answers |
| ModuleWalk.FineExactly | pkg/engine/module_cycle_validation.go:18-86 | The walk is fine exactly when every journey from reference to reference reaches only flows that are stored, parse with the inputs they are given, and were not passed before |
| ModuleWalk.WrongIsMet | pkg/engine/module_cycle_validation.go:18-86 | When it is not, the verdict names the end of a journey that comes back, finds no flow, or finds one that does not parse |
| ReporterLedger.AlwaysAccounted | internal/runtime/event_reporter.go:192-297 | In every reachable state, in flight then pending is the unbroken run of sequences up to the last one given out |
| ReporterLedger.DroppedOnlyIfAcknowledged | internal/runtime/event_reporter.go:204-237 | A numbered event waits until it was sent and a sequence at or past it was acknowledged |
| ReporterLedger.WaitingOnlySlides | internal/runtime/event_reporter.go:239-297 | No step reorders or changes what waits: a prefix is dropped or one event is appended |
| ReporterLedger.BatchIsUnique | internal/runtime/event_reporter.go:261-286 | The batch bounds determine the batch |
| Reporter.MeasureBatch | internal/runtime/event_reporter.go:261-276 | The loop finds the longest batch of at most 16 events within the byte cap, or a single event |
| Reporter.Unaccepted | internal/runtime/event_reporter.go:226-235 | The events past the last accepted sequence, with their exact size |
| Reporter.JobEventReporter.Enqueue | internal/runtime/event_reporter.go:239-259 | The next number is given out, the event appended, the bytes exact, and a flush asked for exactly at a bound |
| Reporter.JobEventReporter.DrainPending | internal/runtime/event_reporter.go:261-286 | The longest allowed batch moves from the queue into flight and the byte count stays exact |
| Reporter.JobEventReporter.PrependPending | internal/runtime/event_reporter.go:288-297 | What is given goes back in front, with its bytes |
| Reporter.JobEventReporter.Settle | internal/runtime/event_reporter.go:204-237 | A failure puts the whole batch back, an answer drops exactly what it accepted |
| Reporter.JobEventReporter.FlushBatch | internal/runtime/event_reporter.go:204-237 | One longest batch is sent; what its answer did not accept stays in front of the rest and of what was enqueued meanwhile; all was accepted exactly when the answer reaches the batch's last sequence |
| Reporter.JobEventReporter.Flush | internal/runtime/event_reporter.go:192-202 | Every turn but the last is accepted whole; a flush that ends without a failure has emptied the queue exactly when its last answer accepted its batch to the end |
| Reporter.ShortAnswerLeavesAnEvent | internal/runtime/event_reporter.go:222-236 | After a partial answer a flush ends without a failure while an event still waits |
| BudgetLedger.AlwaysBalanced | pkg/node/response_budget.go:70-146 | Under any interleaving of bodies, the counter is the sum of what is held and never exceeds the budget, and every body holds twice what it keeps or the whole budget |
| BudgetLedger.HalfTheBudgetOrAlone | pkg/node/response_budget.go:111-126 | In every reachable state all kept bytes are at most half the budget, or one body holds all of it and every other keeps nothing |
| BodyReader.BodyReservation.GrowTo | pkg/node/response_budget.go:111-126 | Granted: twice the bytes or the whole budget is held; refused: nothing changes |
| BodyReader.BodyReservation.Keep | pkg/node/response_body.go:77-83 | A body keeps only bytes that its reservation pays for |
| BodyReader.BodyReservation.ShrinkTo | pkg/node/response_budget.go:129-141 | Exactly what is held past twice the bytes is given back, never what kept bytes need |
| BodyReader.BodyReservation.Release | pkg/node/response_budget.go:144-146 | Everything held is given back |
| BodyReader.ReadKept | pkg/node/response_body.go:65-89 | For every chunking the data is the first keep bytes; every Read gets a non-empty buffer, every kept byte is reserved first, and the loop ends |
| BodyReader.CountRest | pkg/node/response_body.go:93-99 | The count is the body's length, stopped one byte past the limit |
| BodyReader.ReadResponseBody | pkg/node/response_body.go:31-60 | Success gives exactly the first min(keep, limit) bytes and the true length within the limit, holding no more than their buffer needs, which is no larger than the bytes when the length was declared; a longer body always fails; each failure has its cause and leaves the budget as it was |
| BodyReader.Attempt | pkg/engine/execution.go:571-594 | One evaluated attempt leaves the budget as it was |
| BodyReader.Retried | pkg/engine/execution.go:571-594 | So does any number of retries |
| Expectations.AssignOne | pkg/node/webhook_expectations.go:361-388 | A request goes to the first group it fits that still needs events, else the first it fits |
| Expectations.AssignRequests | pkg/node/webhook_expectations.go:361-388 | Each request in turn is assigned by that rule |
| Expectations.AssignmentIsSound | pkg/node/webhook_expectations.go:361-388 | Matches are exactly the fitting requests; a request is claimed by at most one group, one it fits, and left alone only when it fits none |
| Expectations.GoesWhereNeeded | pkg/node/webhook_expectations.go:361-388 | In every assignment each request went to the first group it fits that was given too few of the requests before it, else to the first it fits |
| Expectations.ClaimsArePrefixes | pkg/node/webhook_expectations.go:361-388 | With requests appended, earlier claims and matches are prefixes of later ones |
| ExpectationWait.Judge | pkg/node/webhook_expectations.go:393-440 | Broken exactly for too many events or a claimed event that fails a common check; passed exactly when resolved, not broken and enough are claimed |
| ExpectationWait.Evaluate | pkg/node/webhook_expectations.go:300-341 | The verdict is broken, met or pending exactly by its groups, unresolved groups left out; each outcome has its group's name, what it claimed, and the requests behind it |
| ExpectationWait.VerdictsAreMonotone | pkg/node/webhook_expectations.go:174-281 | With requests appended, broken stays broken and met never falls back to pending |
| ExpectationWait.AllPassedIsMet | pkg/node/webhook_expectations.go:300-341 | Every group passed exactly when the verdict is met and no group was left unevaluated |
| ExpectationWait.ExpectationListener.Observe | pkg/node/webhook_expectations.go:214-244 | The wait is over exactly when broken, or met at or past the settle deadline set by the first met poll |
| ExpectationWait.ExpectationListener.Notice | pkg/node/webhook_expectations.go:214-223 | Arrival times are fixed once noted, and zero for what the first poll found |
| ExpectationWait.ExpectationListener.TimedOutOutcomes | pkg/node/webhook_expectations.go:269-281 | What a timeout reports, with and without a successful poll |
| ExpectationWait.ExpectationListener.Listen | pkg/node/webhook_expectations.go:174-200 | For every way a wait can end, exactly when it reports all groups passed |
| ExpectationWait.ListenPromise | pkg/node/webhook_expectations.go:174-200 | The promise of a wait is kept except exactly when no poll succeeded, no event was needed and a settle window was set |
| Masking.MaskText | pkg/redact/redact.go:311-319 | The loop replaces every secret in turn |
| Masking.ReplaceAtFirst | pkg/redact/redact.go:311-319 | The first occurrence of a secret becomes the mask, the text before it is kept, the text after it is masked in turn |
| Masking.MaskedInTurn | pkg/redact/redact.go:311-319 | Masking is one secret after the other, and nothing else happens to the text |
| Masking.NoSecretIsLeft | pkg/redact/redact.go:311-319 | A secret that neither starts nor ends with an asterisk nor holds three in a row is not left, whatever the order and the other secrets |
| Masking.NoGuardedSecretIsLeft | pkg/redact/redact.go:311-319 | Nor is any secret when each is such a secret or holds one of the list |
| Masking.MaskingAddsNothing | pkg/redact/redact.go:311-319 | Every fragment of the result that no mask can complete, one without asterisks to begin with, is a fragment of the input |
| Masking.MaskingIsIdempotent | pkg/redact/redact.go:311-319 | Masking twice is masking once |
| Masking.SecretsAreMaskedWhole | pkg/redact/redact.go:116-125 | Longest first masks a secret whole even when another is part of it |
| Masking.SecretSurvivesExactly | pkg/redact/redact.go:311-319 | Some text keeps a secret exactly when it starts or ends with an asterisk or holds three in a row |
| Masking.NeverLeftExactly | pkg/redact/redact.go:311-319 | No list of secrets leaves this one in any text exactly when it is none of those |
| Masking.AsteriskSecretSurvives | pkg/redact/redact.go:311-319 | The shortest text that keeps its secret |
| Redactor.SortKeeps | pkg/redact/redact.go:119-125 | The kept list holds the same secrets, longest first |
| Redactor.Sift | pkg/redact/redact.go:133-161 | New values are long enough, new, and within the cap; the output is withheld exactly when some leaf is neither known nor new, and such a leaf is too short or comes past the cap |
| Redactor.Redactor.LearnOutput | pkg/redact/redact.go:133-161 | Every leaf is masked by value from now on, or its output is withheld and its node sealed, exactly when some leaf cannot be; nothing stops being masked |
| Redactor.MaskedTreeIsClean | pkg/redact/redact.go:388-420 | A masked report holds no secret in any text, encoded bodies included, and no learned number |
| RedactorLaws.HarmlessIsLeftAlone | pkg/redact/redact.go:388-455 | A report in which no text holds a secret, no number was learned, no key is withheld or masked by name, no node is sealed and no encoded body holds one is returned unchanged |
| RedactorLaws.LeafLaw | pkg/redact/redact.go:388-420 | Texts have their secrets replaced, learned numbers are masked, every other leaf is kept |
| RedactorLaws.ItemLaw | pkg/redact/redact.go:388-420 | A list keeps its length and each item is masked at its own place |
| RedactorLaws.FieldLaw | pkg/redact/redact.go:388-455 | What becomes of each field: gone with a seal, replaced by name, masked as an encoded body, or masked where it stands |
| RedactorLaws.TextFragments | pkg/redact/redact.go:388-391 | Every fragment of a masked text that no mask can complete stood in the text |
| RedactorLaws.EncodedLaw | pkg/redact/redact.go:512-565 | An encoded body stays one and encodes the masked document or text, or the mask alone |
| Redactor.EncodedIsClean | pkg/redact/redact.go:512-565 | Whatever the bytes, what a masked body decodes to holds no secret as text, or spells a JSON document that holds none |
| Redactor.FieldsAreKept | pkg/redact/redact.go:388-455 | No field is added or renamed; only a sealed node result loses fields, those that could carry its value |
| Redactor.WithheldOutputIsMasked | pkg/redact/redact.go:477-487 | A withheld output is masked by name in its node's result, whatever its value |

## Left out

- ExecuteNodes: does not model cancellation of the run's context, which error becomes the flow's error, the wording of a skip reason, call middleware, or the events sent to an observer; it claims exactly-once results on acyclic flows only.
- ExecuteFlow: starts after the module graph check (modelled on its own in `ModuleWalk`) and does not model the exported final outputs.
- BlockedAlwaysNodes: proved to find nothing on an acyclic flow, so what the source does with a blocked node is not modelled.
- RunFlow: does not model cancellation, retries and timeouts, sub-flows, the check of branch targets, or which failure names the flow's error; a node is a function of its id and the published view.
- CompileDecompileCompile: covers the nodes and edges of a flow, bodies included; the header of a file (name, tags, version, folder, id) and the YAML text itself are not modelled.
- FlowCompiled.EveryCompiledBody: a file is rejected as a whole at its first error; the messages, their lines and the errors after the first are not modelled, nor are the warnings.
- BodyBack: works on values; the source takes keys out of a mapping and appends to a node in place, which the model replaces by reading fields and checking that no other key is there.
- CheckRoundTripExactly: numbers that are no 64-bit integer go by their JSON text and by laws of ParseFloat and formatFloat, which are not defined here; NaN counts as equal to itself; escapes in a quoted target are those strconv.Quote writes.
- ValueBack: numbers in values are whole; fractions occur in the bounds of checks only.
- BindModule: the cleaning of a module path and the errors about a module's id, inputs and outputs are not part of the walk; a file's exports are represented by the fact that they were filled in.
- LowerModule, inside the compiler: a module file is looked up by its written reference in a library of resolved dependencies; only the hyphenated form of a flow id is read.
- Template reference checks of the compiler (`pkg/flowdsl/resolve.go:255-342`): lints on text inside values.
- Enqueue: the size of an event is a function of the event, so a payload that changes after it was queued is not modelled; neither are the ticker and the retries around a flush.
- ReadResponseBody: waiting for the budget is one step that either finds the bytes free or times out; deadlock freedom of the budget is not claimed.
- Listen: times are numbers given with each poll; the poll interval, the closest event shown for a missing one and the wording of a problem are not modelled.
- MaskedTreeIsClean: base64 and JSON are functions with stated laws, and so are the spellings of a secret in body text; lengths count characters, not bytes.
- LearnOutput: takes the non-empty leaf texts of a value; how a number or a nested value is written as text is not modelled.
- Optimality of the assignment of requests: it is greedy, and only soundness and monotonicity are claimed.
- HTTP, YAML, JSON and event-stream libraries, logging, configuration, the claim loop and the control-plane client.
- What the node kinds do when executed, extractors, operators and JSONPath: a node is a function from its inputs to an outcome.
- Dynamic variable generators: random data with nothing to prove.
