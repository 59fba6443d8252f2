# workflow-agent core in Dafny

This project models three parts of the workflow-agent desktop application:
- **The workflow executor** (`WorkflowExecutor`). It walks a graph of agentic, decision, memory, start and end nodes depth-first from the start node. It keeps an append-only execution log and the outputs of finished nodes. It substitutes `{node.field}` tokens into prompts and conditions, and honours a cooperative stop button.
- **The JSON importer.** It turns an import document into canvas nodes and edges, lays the nodes out left to right in Kahn layers, and validates the document's shape.
- **The graph metrics** of the performance panel: node and edge counts, cluster estimate, and the depth reached by a depth-first sweep.

Layout of the project, one module per file:

| file | module | what it holds |
|---|---|---|
| `wrappers.dfy` | `Wrappers` | `Option`, `Result`, `Outcome` |
| `json_value.dfy` | `JsonValue` | the JavaScript values a node can produce, truthiness, `String(v)` |
| `flow_types.dfy` | `FlowTypes` | the records of `src/types/flow.ts`; log messages and faults as variants |
| `variables.dfy` | `Variables` | `replaceVariables`: the scan as a function, and the loops as methods proved against it |
| `conditions.dfy` | `Conditions` | the two regular expressions of `evaluateCondition` |
| `engine.dfy` | `Engine` | reference semantics: every executor operation as a function from state to (state, result) |
| `engine_properties.dfy` | `EngineProperties` | what a run does: the log only grows, a stop is honoured, decisions pick the first rule that holds, how runs end |
| `workflow_executor.dfy` | `Executor` | the class `WorkflowExecutor`: its fields are updated in place, and each method is proved to follow `Engine` |
| `json_processor.dfy` | `JsonProcessor` | `processJsonToFlow`: node conversion and edge compilation |
| `edge_properties.dfy` | `EdgeProperties` | what the compiled edges are, and that the executor follows exactly them |
| `layout.dfy` | `Layout` | `calculateHierarchicalLayout`: in-degrees, Kahn layers, overflow layers, positions |
| `validation.dfy` | `Validation` | `validateJsonStructure` over parsed JSON, with an encoder and decoder that round-trip |
| `metrics.dfy` | `Metrics` | `calculateGraphMetrics`, `calculateMaxDepth` and `dfs` |

The world outside the executor is a value, `Engine.Oracle`. It holds:
- the model server's preload and generate replies, indexed by the number of earlier requests, so any sequence of replies can be expressed;
- `stopDuring(k)`, which says that the user presses stop while request `k` is pending;
- `parse`, standing for `JSON.parse`;
- `now`, the timestamp written into outputs.

The source recurses without bound over cyclic graphs. The model bounds the recursion depth with `fuel`, and running out is a fault (`DepthExhausted`).

Where the specification and the code disagree, the model follows the code:
- A decision node's outgoing unlabelled edges are also followed after its chosen branch. `executeFromNode` calls `executeNextNodes` for every node kind.
- A run is reported `completed` after the traversal returns, even when it was stopped meanwhile (`EngineProperties.StopDuringPreloadCompletes`).
- An output is stored only when it is not `null`, so a model reply that parses to `null` is neither stored nor reported.

## Model

| member | source | states |
|---|---|---|
| Variables.Split | src/services/workflowExecutor.ts:324 | `split('.')` always yields at least one piece; its inverse on dot-free pieces is `SplitJoin` |
| Variables.SplitJoin | src/services/workflowExecutor.ts:324-325 | splitting a dot-joined list of dot-free pieces gives back exactly those pieces |
| Variables.SplitPrefix | src/services/workflowExecutor.ts:324 | a separator-free prefix joins the first piece and leaves the other pieces as they were |
| Variables.IndexFrom | src/services/workflowExecutor.ts:323 | a found position is at or after the start and holds the sought character |
| Variables.IndexFromFirst | src/services/workflowExecutor.ts:323 | the search returns the first occurrence at or after the start |
| Variables.TokenAt | src/services/workflowExecutor.ts:323 | a positive token length means a `{` at the position and a `}` closing it inside the text |
| Variables.ResolveVariable | src/services/workflowExecutor.ts:324-349 | the path-walking loop returns the resolver's replacement for the token |
| Variables.ReplaceVariables | src/services/workflowExecutor.ts:321-351 | the left-to-right scan loop returns the substituted text |
| Variables.SubstitutePlain | src/services/workflowExecutor.ts:323 | text before the first `{` is copied unchanged |
| Variables.SubstituteToken | src/services/workflowExecutor.ts:323 | a span `{token}` with a non-empty token free of `}` is replaced by the callback's value and the scan resumes after it |
| Variables.NoTokenUnchanged | src/services/workflowExecutor.ts:323 | a text without `{` is left as it is |
| Variables.Substitute | src/services/workflowExecutor.ts:323 | definition of the global replace; stated by `Variables.SubstitutePlain`, `Variables.SubstituteToken`, `Variables.NoTokenUnchanged` and `Variables.ReplaceVariables` |
| Variables.ResolveToken | src/services/workflowExecutor.ts:324-349 | definition of the replacement of one token; stated by `Variables.PathResolved`, `Variables.TokenVerbatim` and `Variables.ResolveVariable` |
| Variables.Field | src/services/workflowExecutor.ts:332-333 | definition of one step of the path walk; stated by `Variables.PathResolved`, `Variables.TokenVerbatim` and `JsonValue.ArrayIndexOfNumeral` |
| Variables.PathResolved | src/services/workflowExecutor.ts:324-346 | a token `id.f1...fn` (n >= 1) whose node has a truthy output and whose path exists resolves to `"v"` for a string `v` and to `String(v)` otherwise |
| Variables.TokenResolved | src/services/workflowExecutor.ts:323-346 | inside a text, such a token is replaced by that rendering and the rest of the text is scanned on |
| Variables.TokenVerbatim | src/services/workflowExecutor.ts:328-349 | a token whose node has no (truthy) output, that has no `.` segment, or whose path breaks is left verbatim |
| JsonValue.NatToString | src/services/workflowExecutor.ts:345 | `String(n)` for a natural number is a non-empty digit string without a leading zero |
| JsonValue.ArrayIndexOfNumeral | src/services/workflowExecutor.ts:332 | the `in` test on an array recognises the canonical numeral of `n` as index `n` |
| JsonValue.NumeralValue | src/services/workflowExecutor.ts:345 | the numeral of `n` reads back as `n` |
| Conditions.StopFrom | src/services/workflowExecutor.ts:373 | a found position holds `=` or white space and lies at or after the start |
| Conditions.StopFromFirst | src/services/workflowExecutor.ts:373 | the search for the end of the bare operand stops at the first `=` or white space |
| Conditions.QuotedShape | src/services/workflowExecutor.ts:365 | the quoted pattern captures `(a, b)` if and only if the text is exactly `"a" == "b"` with no `"` in `a` or `b` |
| Conditions.QuotedMatches | src/services/workflowExecutor.ts:365 | every text `"a" == "b"` with quote-free operands matches, capturing `a` and `b` |
| Conditions.QuotedCaptures | src/services/workflowExecutor.ts:365 | every match is such a text, rebuilt from its two captures |
| Conditions.BareShape | src/services/workflowExecutor.ts:373 | the bare pattern captures `(a, b)` if and only if the text is exactly `a == "b"` with `a` non-empty and free of `=` and white space, and `b` quote-free |
| Conditions.BareMatches | src/services/workflowExecutor.ts:373 | every such text matches, capturing `a` and `b` |
| Conditions.BareCaptures | src/services/workflowExecutor.ts:373 | every match is such a text, rebuilt from its two captures |
| Conditions.QuotedOperands | src/services/workflowExecutor.ts:365 | definition of the quoted pattern; stated by `Conditions.QuotedShape` |
| Conditions.BareOperands | src/services/workflowExecutor.ts:373 | definition of the bare pattern; stated by `Conditions.BareShape` |
| Conditions.Compare | src/services/workflowExecutor.ts:365-378 | definition of the comparison; stated by `Conditions.CompareQuoted` and `Conditions.CompareBare` |
| Conditions.CompareQuoted | src/services/workflowExecutor.ts:365-370 | a quoted-shape condition is true exactly when its two literals are equal |
| Conditions.CompareBare | src/services/workflowExecutor.ts:373-378 | a bare-shape condition (left operand not opening with `"`) is true exactly when the operands are equal |
| Conditions.SubstitutedCondition | src/services/workflowExecutor.ts:356 | substitution in `{token} == "b"` replaces only the token |
| Conditions.StringFieldCondition | src/services/workflowExecutor.ts:353-370 | `{id.path} == "b"` on a string field `v` evaluates to `v == b` |
| Conditions.IntFieldCondition | src/services/workflowExecutor.ts:373-378 | `{id.path} == "b"` on an integer field `n` evaluates to `String(n) == b` |
| Conditions.IntToStringBare | src/services/workflowExecutor.ts:345 | the decimal form of an integer is a legal bare operand that does not open with `"` |
| Engine.FirstWhere | src/services/workflowExecutor.ts:128 | `find` returns the first index satisfying the predicate, or none when none does |
| Engine.FindDecisionEdge | src/services/workflowExecutor.ts:245-247 | the edge found is the first edge leaving the node on the rule's handle; none is found only when no such edge exists |
| Engine.Log | src/services/workflowExecutor.ts:26-39 | a log entry changes neither the stored outputs nor the request count |
| Engine.Answered | src/services/workflowExecutor.ts:205-210 | answering request `k` keeps the outputs and counts `k + 1` requests |
| Engine.Evaluate | src/services/workflowExecutor.ts:353-388 | the answer is true exactly when the substituted condition is of a supported shape with equal operands; the outputs never change; a supported condition logs nothing |
| Engine.AgenticNode | src/services/workflowExecutor.ts:184-231 | without prompts: no request and the result `skipped`; otherwise exactly one request, a failure passed on as `GenerationFailed`, a reply parsed or else wrapped as a raw reply; outputs unchanged |
| Engine.Respond | src/services/workflowExecutor.ts:212-230 | handling the reply changes neither outputs nor the request count |
| Engine.Stop | src/services/workflowExecutor.ts:115-121 | definition of `stopExecution`; stated by `EngineProperties.StopShape` and `EngineProperties.StopIdempotent` |
| Engine.StartRun | src/services/workflowExecutor.ts:50-113 | definition of `startExecution`; stated by `EngineProperties.StartRunCloses` |
| Engine.Preload | src/services/workflowExecutor.ts:71-83 | definition of the model preload; stated by `EngineProperties.StopDuringPreloadCompletes` |
| Engine.Traverse | src/services/workflowExecutor.ts:85-110 | definition of the traversal from the start node and its closing; stated by `EngineProperties.StartSeeded` and `EngineProperties.TraverseCloses` |
| Engine.FromNode | src/services/workflowExecutor.ts:123-173 | definition of `executeFromNode`; stated by `EngineProperties.FromNodeEvolves` and `EdgeProperties.EngineFollows` |
| Engine.Visit | src/services/workflowExecutor.ts:136-172 | definition of the guarded block of one node; stated by `EngineProperties.VisitEvolves` and `EngineProperties.VisitFails` |
| Engine.Advance | src/services/workflowExecutor.ts:160-172 | definition of storing an output and following the edges; stated by `EngineProperties.AdvanceOrder` and `EngineProperties.AdvanceEvolves` |
| Engine.NextNodes | src/services/workflowExecutor.ts:310-319 | definition of `executeNextNodes`; stated by `EngineProperties.NextNodesEvolves`, `EngineProperties.NextNodesWhenHalted` and `EdgeProperties.EngineFollows` |
| Engine.Dispatch | src/services/workflowExecutor.ts:139-158 | definition of the switch on the node kind; stated by `EngineProperties.DispatchEvolves` |
| Engine.StartNode | src/services/workflowExecutor.ts:175-182 | definition of `executeStartNode`; stated by `EngineProperties.StartSeeded` and `EngineProperties.StartNodeEvolves` |
| Engine.MemoryNode | src/services/workflowExecutor.ts:275-291 | definition of `executeMemoryNode`; stated by `EngineProperties.MemoryNodeEvolves` |
| Engine.EndNode | src/services/workflowExecutor.ts:293-308 | definition of `executeEndNode`; stated by `EngineProperties.EndNodeEvolves` |
| Engine.DecisionNode | src/services/workflowExecutor.ts:233-273 | definition of `executeDecisionNode`; stated by `EngineProperties.DecisionNodeEvolves` and `EngineProperties.DecisionNodeWithoutRules` |
| Engine.TryRules | src/services/workflowExecutor.ts:238-268 | definition of the loop over the rules; stated by `EngineProperties.TryRulesTakes` and `EngineProperties.TryRulesFallsThrough` |
| Engine.TakeRule | src/services/workflowExecutor.ts:244-263 | a rule without an edge on its handle answers with target `null` and starts no traversal |
| EngineProperties.NoStartAfterStopMeaning | src/services/workflowExecutor.ts:115-126 | in a log with no node start after a stop, every entry after a stop entry is other than a node start |
| EngineProperties.HasStopMeaning | src/services/workflowExecutor.ts:119 | a log has no stop entry exactly when none of its entries is one |
| EngineProperties.LogQuiet | src/services/workflowExecutor.ts:26-39 | appending an entry other than a stop, with node starts only while running, keeps the cancellation invariant |
| EngineProperties.LogEvolves | src/services/workflowExecutor.ts:26-39 | such an entry only appends to the log |
| EngineProperties.FinishQuiet | src/services/workflowExecutor.ts:101-108 | closing a run with a final status keeps the cancellation invariant |
| EngineProperties.StopEvolves | src/services/workflowExecutor.ts:115-121 | a stop only appends to the log and moves the status from running to stopped |
| EngineProperties.AnsweredEvolves | src/services/workflowExecutor.ts:205-210 | answering a request (with a stop meanwhile) only appends and only stops |
| EngineProperties.SetCurrentEvolves | src/services/workflowExecutor.ts:133 | setting the current node keeps the log, the outputs and a running status |
| EngineProperties.StoreEvolves | src/services/workflowExecutor.ts:161-163 | storing an output keeps every other output |
| EngineProperties.StartNodeEvolves | src/services/workflowExecutor.ts:175-182 | a start node only appends |
| EngineProperties.MemoryNodeEvolves | src/services/workflowExecutor.ts:275-291 | a memory node only appends |
| EngineProperties.EndNodeEvolves | src/services/workflowExecutor.ts:293-308 | an end node only appends |
| EngineProperties.AgenticNodeEvolves | src/services/workflowExecutor.ts:184-231 | an agentic node only appends, and at most stops |
| EngineProperties.RespondEvolves | src/services/workflowExecutor.ts:212-230 | handling a reply only appends |
| EngineProperties.EvaluateEvolves | src/services/workflowExecutor.ts:353-388 | evaluating a condition only appends |
| EngineProperties.FromNodeEvolves | src/services/workflowExecutor.ts:123-173 | a traversal only appends to the log, only adds or overwrites outputs, and only moves the status from running to stopped |
| EngineProperties.VisitEvolves | src/services/workflowExecutor.ts:136-172 | the same for the guarded block of one node |
| EngineProperties.AdvanceEvolves | src/services/workflowExecutor.ts:160-172 | the same for storing an output and following the edges |
| EngineProperties.NextNodesEvolves | src/services/workflowExecutor.ts:310-319 | the same for following the outgoing edges |
| EngineProperties.DispatchEvolves | src/services/workflowExecutor.ts:139-158 | the same for the dispatch on the node kind |
| EngineProperties.DecisionNodeEvolves | src/services/workflowExecutor.ts:233-273 | the same for a decision node |
| EngineProperties.TryRulesEvolves | src/services/workflowExecutor.ts:238-268 | the same for the loop over the rules |
| EngineProperties.TakeRuleEvolves | src/services/workflowExecutor.ts:241-263 | the same for the branch of the rule taken |
| EngineProperties.AdvanceOrder | src/services/workflowExecutor.ts:160-172 | after the handler: a non-null output is stored (outputs become the old ones with this id set) and its `node_complete` entry is appended first, then come the entries of the normal successors in edge order, and a failure among them ends the log with this node's error entry |
| EngineProperties.VisitFails | src/services/workflowExecutor.ts:136-172 | a failing visit, whether the handler or a successor failed, ends the log with this node's error entry carrying that fault |
| EngineProperties.NextNodesWhenHalted | src/services/workflowExecutor.ts:123-126 | once the run is not running, following edges changes nothing and succeeds |
| EngineProperties.FirstHolding | src/services/workflowExecutor.ts:238-241 | the index found is the first rule whose condition holds; none is found only when no rule holds |
| EngineProperties.Tested | src/services/workflowExecutor.ts:238-241 | announcing and evaluating rules keeps the outputs and the request count |
| EngineProperties.TryRulesTakes | src/services/workflowExecutor.ts:238-263 | when rule `j` is the first that holds, rules `0..j` are announced and evaluated in order, rule `j` is taken, and no later rule is tested |
| EngineProperties.TryRulesFallsThrough | src/services/workflowExecutor.ts:238-268 | when no rule holds, every rule is tested, one warning is logged and the result is `no_decision` |
| EngineProperties.DecisionNodeWithoutRules | src/services/workflowExecutor.ts:233-272 | a node without rules logs the evaluation and the missing rules and answers `no_decisions`, following no edge |
| EngineProperties.OpenedShape | src/services/workflowExecutor.ts:50-72 | a new run is running with no outputs and honours cancellation; its log has 3 entries with user input and 2 without; the first entry is the user's input exactly when one was given |
| EngineProperties.TraverseCloses | src/services/workflowExecutor.ts:85-110 | after the traversal the status is `completed` exactly when it returned normally and `error` exactly when it failed; the end time is set; earlier entries are kept; the last entry reports the outcome |
| EngineProperties.StartSeeded | src/services/workflowExecutor.ts:93-99 | with a non-empty input, the traversal starts from a state holding `{input, timestamp}` under the start node's id and every other output unchanged; without one, from the same state; the run's outcome is that traversal's; when the id's lookup finds the start node (always, if no other node shares its id), the start handler (lines 175-182) returns that record, else a truthy output already stored, else a fresh `started` record, and the visit continues by storing it and following the edges |
| EngineProperties.CloseRun | src/services/workflowExecutor.ts:101-108 | closing sets the final status and end time and appends exactly one entry |
| EngineProperties.StartRunCloses | src/services/workflowExecutor.ts:50-113 | `startExecution` always ends the run: `completed` exactly on normal return, `error` exactly on failure; the first entry is the user's input exactly when given; no node starts after a stop entry |
| EngineProperties.StopDuringPreloadCompletes | src/services/workflowExecutor.ts:71-103 | a stop during the model preload still yields a `completed` run whose log after the opening entries is the stop entry, the model-loaded entry and the completion entry |
| EngineProperties.StopIdempotent | src/services/workflowExecutor.ts:115-121 | stopping twice is stopping once, and after a stop the run is not running |
| EngineProperties.StopShape | src/services/workflowExecutor.ts:115-121 | a running run becomes `stopped` with its end time set and exactly one info entry appended; any other state is left unchanged |
| EngineProperties.EvaluateLogs | src/services/workflowExecutor.ts:353-388 | an unsupported condition is false and appends exactly one error entry under the id `DECISION`; a supported one changes nothing |
| Executor.WorkflowExecutor.constructor | src/services/workflowExecutor.ts:18-20 | a new executor has the given configuration, no execution, no outputs and an empty graph |
| Executor.WorkflowExecutor.Log | src/services/workflowExecutor.ts:26-48 | appends the entry when there is an execution, and changes nothing else |
| Executor.WorkflowExecutor.GetExecution | src/services/workflowExecutor.ts:390-392 | returns the current execution record |
| Executor.WorkflowExecutor.GetNodeOutputs | src/services/workflowExecutor.ts:394-396 | returns the stored outputs |
| Executor.WorkflowExecutor.StopExecution | src/services/workflowExecutor.ts:115-121 | leaves the state that `Engine.Stop` prescribes |
| Executor.WorkflowExecutor.Close | src/services/workflowExecutor.ts:101-107 | sets the final status and the end time |
| Executor.WorkflowExecutor.StartExecution | src/services/workflowExecutor.ts:50-113 | installs the graph, and leaves the state and result of `Engine.StartRun` |
| Executor.WorkflowExecutor.Open | src/services/workflowExecutor.ts:51-72 | clears the outputs and opens a fresh running execution with its opening entries |
| Executor.WorkflowExecutor.LoadModel | src/services/workflowExecutor.ts:71-83 | leaves the state and result of `Engine.Preload` |
| Executor.WorkflowExecutor.RunFromStart | src/services/workflowExecutor.ts:85-110 | leaves the state and result of `Engine.Traverse` |
| Executor.WorkflowExecutor.ExecuteFromNode | src/services/workflowExecutor.ts:123-173 | leaves the state and result of `Engine.FromNode` and never changes the graph |
| Executor.WorkflowExecutor.VisitNode | src/services/workflowExecutor.ts:136-172 | leaves the state and result of `Engine.Visit` |
| Executor.WorkflowExecutor.AdvanceNode | src/services/workflowExecutor.ts:160-172 | leaves the state and result of `Engine.Advance` |
| Executor.WorkflowExecutor.Dispatch | src/services/workflowExecutor.ts:139-158 | leaves the state and result of `Engine.Dispatch`; an absent kind is `UnknownNodeType` |
| Executor.WorkflowExecutor.ExecuteNextNodes | src/services/workflowExecutor.ts:310-319 | the loop over the normal edges leaves the state and result of `Engine.NextNodes` |
| Executor.WorkflowExecutor.ExecuteStartNode | src/services/workflowExecutor.ts:175-182 | leaves the state and result of `Engine.StartNode` |
| Executor.WorkflowExecutor.ExecuteAgenticNode | src/services/workflowExecutor.ts:184-231 | leaves the state and result of `Engine.AgenticNode` |
| Executor.WorkflowExecutor.ReceiveReply | src/services/workflowExecutor.ts:212-230 | leaves the state and result of `Engine.Respond` |
| Executor.WorkflowExecutor.EvaluateCondition | src/services/workflowExecutor.ts:353-388 | leaves the state and result of `Engine.Evaluate` |
| Executor.WorkflowExecutor.ExecuteDecisionNode | src/services/workflowExecutor.ts:233-273 | the loop over the rules leaves the state and result of `Engine.DecisionNode` |
| Executor.WorkflowExecutor.FollowRule | src/services/workflowExecutor.ts:244-263 | leaves the state and result of `Engine.TakeRule` |
| Executor.WorkflowExecutor.ExecuteMemoryNode | src/services/workflowExecutor.ts:275-291 | leaves the state and result of `Engine.MemoryNode` |
| Executor.WorkflowExecutor.ExecuteEndNode | src/services/workflowExecutor.ts:293-308 | leaves the state and result of `Engine.EndNode` |
| JsonProcessor.FlowNodeRoundTrip | src/utils/jsonProcessor.ts:19-35 | a canvas node keeps its import node and position, and has its id |
| JsonProcessor.FlowNodeDefaults | src/utils/jsonProcessor.ts:24-33 | the caption is the name; kind, highlight and rules are the declared ones or `agentic`, `default` and `[]` |
| JsonProcessor.UntypedRunsAgentic | src/utils/jsonProcessor.ts:31 | an imported node without a kind runs as an agentic node, never as an unknown kind |
| JsonProcessor.ConvertNodes | src/utils/jsonProcessor.ts:18-37 | one canvas node per laid-out node, in order |
| JsonProcessor.Converted | src/utils/jsonProcessor.ts:18-37 | each canvas node gives back its placed node, carries the map's node for its id, and the canvas ids are the placed ids in order |
| JsonProcessor.MapById | src/utils/jsonProcessor.ts:10-12 | the loop builds the id map, the last node with an id winning |
| JsonProcessor.AddNextEdges | src/utils/jsonProcessor.ts:41-53 | the loop appends the `nextNodes` edges of one node |
| JsonProcessor.AddRuleEdges | src/utils/jsonProcessor.ts:56-70 | the loop appends the decision edges of one node |
| JsonProcessor.CompileEdges | src/utils/jsonProcessor.ts:40-71 | the loop over the nodes yields the compiled edge list |
| JsonProcessor.ProcessJsonToFlow | src/utils/jsonProcessor.ts:4-74 | the layout's layers start with exactly `KahnLayersOf(nodes)`; the nodes are the layout's nodes in layout order, each carrying the last import node with its id; with unique ids there is one per import node, ids distinct and covering the input; the edges are the compiled edges over the known ids |
| EdgeProperties.NextTargets | src/utils/jsonProcessor.ts:40-53 | the `nextNodes` edges point, in order, at exactly the entries that name a known id |
| EdgeProperties.RuleTargets | src/utils/jsonProcessor.ts:55-70 | the decision edges point, in order, at exactly the known non-empty rule targets |
| EdgeProperties.NodeEdgeTargets | src/utils/jsonProcessor.ts:40-70 | a node's edges point, in order and with multiplicity, at exactly the known ids among its links |
| EdgeProperties.NextEdgesShape | src/utils/jsonProcessor.ts:42-52 | every `nextNodes` edge is the unlabelled edge `src-tgt` of a known entry, and every known entry has one |
| EdgeProperties.RuleEdgesShape | src/utils/jsonProcessor.ts:57-69 | every decision edge is the labelled edge `src-tgt-id` on the rule's handle of a connected rule, and every connected rule has one |
| EdgeProperties.NodeEdgeOrder | src/utils/jsonProcessor.ts:40-71 | a node's edges leave it and reach a known id; its `nextNodes` edges come first, unlabelled and without handle, then its decision edges, labelled and on a handle |
| EdgeProperties.CompiledSplit | src/utils/jsonProcessor.ts:40-71 | the edges of two node lists are the edges of the first followed by those of the second |
| EdgeProperties.CompiledFrom | src/utils/jsonProcessor.ts:40-71 | every compiled edge is an edge of one of the nodes |
| EdgeProperties.CompiledHas | src/utils/jsonProcessor.ts:40-71 | every edge of every node is compiled |
| EdgeProperties.NoDanglingEdges | src/utils/jsonProcessor.ts:40-71 | over the input's own ids, every edge leaves and reaches an input node |
| EdgeProperties.NormalTargetsConcat | src/services/workflowExecutor.ts:312-314 | the normal targets of two edge lists are those of the first followed by those of the second |
| EdgeProperties.NormalTargetsForeign | src/services/workflowExecutor.ts:312-314 | edges that leave other nodes contribute no normal target |
| EdgeProperties.NextNormal | src/utils/jsonProcessor.ts:44-49 | the `nextNodes` edges are normal edges for the executor, pointing at the known entries |
| EdgeProperties.RuleNormal | src/utils/jsonProcessor.ts:59-66 | a decision edge is followed as a normal edge only when its label is empty |
| EdgeProperties.NodeNormal | src/services/workflowExecutor.ts:312-314 | the normal targets of a node's own edges are its known `nextNodes` followed by its unlabelled rule targets |
| EdgeProperties.EngineFollows | src/services/workflowExecutor.ts:310-319 | with unique ids, after a node the executor visits exactly its known `nextNodes`, then its connected rules with an empty label, in that order |
| EdgeProperties.HandleOwner | src/services/workflowExecutor.ts:245-247 | a compiled edge on the handle of rule `j` of node `k` is that rule's edge |
| EdgeProperties.EngineFindsRuleEdge | src/services/workflowExecutor.ts:245-250 | when rule `j` of node `k` is taken, the executor finds that rule's edge exactly when the rule is connected |
| EdgeProperties.RuleEdgePresent | src/utils/jsonProcessor.ts:57-69 | a connected rule's edge is in the edge list |
| EdgeProperties.EdgeSource | src/utils/jsonProcessor.ts:40-71 | a node's edge leaves it and reaches a known id |
| Validation.ValidateJsonStructure | src/utils/jsonProcessor.ts:194-219 | definition of the intended check; stated by `Validation.ValidateShape`, `Validation.DecodeFlow` and `Validation.FlowRoundTrip` |
| Validation.ValidateAsWritten | src/utils/jsonProcessor.ts:194-219 | definition of the check as written; stated by `Validation.AsWrittenAgrees` and `Validation.NullNodeThrows` |
| Validation.EveryNodeAsWritten | src/utils/jsonProcessor.ts:203-218 | `every` as written answers whether every entry passes, or throws at a `null` entry after passing entries |
| Validation.AsWrittenAgrees | src/utils/jsonProcessor.ts:194-219 | where the code as written answers, it answers as intended; it throws only on a document the intended check rejects |
| Validation.NullNodeThrows | src/utils/jsonProcessor.ts:203-206 | `{"nodes": [null]}` makes the code as written throw, and the intended check rejects it |
| Validation.ValidateShape | src/utils/jsonProcessor.ts:195-201 | an empty node list is accepted; a non-object, or a `nodes` that is not an array, is rejected; an accepted document's nodes are all valid entries |
| Validation.HighlightName | src/utils/jsonProcessor.ts:213 | every highlight's name is one of the five allowed |
| Validation.NodeTypeName | src/utils/jsonProcessor.ts:214 | every kind's name is one of the five allowed |
| Validation.ParseHighlight | src/utils/jsonProcessor.ts:213 | a highlight is read exactly from the five allowed names, and reads back as its name |
| Validation.ParseNodeType | src/utils/jsonProcessor.ts:214 | a kind is read exactly from the five allowed names, and reads back as its name |
| Validation.NamesParse | src/utils/jsonProcessor.ts:213-214 | every highlight and every kind round-trips through its name |
| Validation.DecodeNode | src/utils/jsonProcessor.ts:204-217 | only an entry that passes the check reads back as a node |
| Validation.StringsRoundTrip | src/utils/jsonProcessor.ts:215 | written id lists read back as themselves |
| Validation.RulesRoundTrip | src/utils/jsonProcessor.ts:216 | written rule lists read back as themselves |
| Validation.KindsBack | src/utils/jsonProcessor.ts:213-214 | the highlight and kind of a written node pass the check and read back as themselves |
| Validation.LinksBack | src/utils/jsonProcessor.ts:215-216 | the links of a written node pass the check and read back as themselves |
| Validation.NodeRoundTrip | src/utils/jsonProcessor.ts:204-217 | every node of the import format passes the entry check and reads back as itself |
| Validation.DecodedValid | src/utils/jsonProcessor.ts:203-218 | entries that read back as nodes all pass the entry check |
| Validation.DecodeFlow | src/utils/jsonProcessor.ts:194-219 | only a document that passes validation reads back as an import document |
| Validation.NodesRoundTrip | src/utils/jsonProcessor.ts:203-218 | written node lists read back as themselves |
| Validation.FlowRoundTrip | src/utils/jsonProcessor.ts:194-219 | every import document passes validation and reads back as itself |
| Validation.ValidationIsShallow | src/utils/jsonProcessor.ts:215 | an entry whose `nextNodes` holds a number passes validation but is not a node of the import format |
| Layout.NodeMap | src/utils/jsonProcessor.ts:83-84 | the map's keys are the input ids, and each entry carries its own id |
| Layout.NodeMapUnique | src/utils/jsonProcessor.ts:83-84 | with unique ids, an id's entry is the one node carrying it |
| Layout.FirstIds | src/utils/jsonProcessor.ts:113 | the key order lists every input id once |
| Layout.PendingZero | src/utils/jsonProcessor.ts:108-160 | an id's counted in-degree from unprocessed nodes is zero exactly when every node linking to it is processed |
| Layout.PendingSettle | src/utils/jsonProcessor.ts:132-155 | processing one more id removes exactly its node's links from the count |
| Layout.IndexNodes | src/utils/jsonProcessor.ts:83-106 | builds the id map, the key order and every id's counted in-degree |
| Layout.MapNodes | src/utils/jsonProcessor.ts:83-86 | every id maps to its last node, with in-degree zero |
| Layout.CountInDegrees | src/utils/jsonProcessor.ts:89-106 | each link to a known id counts once towards its in-degree |
| Layout.CountLinks | src/utils/jsonProcessor.ts:90-105 | one node's links each add one to a known target's count and change no key |
| Layout.InitialQueue | src/utils/jsonProcessor.ts:113-117 | the first queue is the ids of in-degree zero, in key order |
| Layout.RootsMembers | src/utils/jsonProcessor.ts:113-117 | the first queue holds each known id that nothing links to, once |
| Layout.Release | src/utils/jsonProcessor.ts:132-155 | the loop computes `ReleaseAll`: each link to a known unprocessed id lowers its count by one, and exactly the ids whose positive count the links bring to zero are appended, once each, in the order their last link appears; the queue before is kept as a prefix |
| Layout.ReleaseAll | src/utils/jsonProcessor.ts:132-155 | definition of the release of one node's links, link by link; stated by `Layout.Release` and `Layout.ReleaseShrinks` |
| Layout.ReleaseShrinks | src/utils/jsonProcessor.ts:132-155 | releasing keeps the keys, never raises a count, keeps the old queue as a prefix, and every id it appends was waiting before and waits no more |
| Layout.Drain | src/utils/jsonProcessor.ts:124-156 | definition of one pass of the inner loop, id by id from the front of the queue; stated by `Layout.ProcessLayer` and `Layout.DrainShrinks` |
| Layout.DrainShrinks | src/utils/jsonProcessor.ts:124-156 | a pass never makes an id wait again, and each id left in the queue was already queued behind the pass or has just stopped waiting |
| Layout.LayerOf | src/utils/jsonProcessor.ts:124-156 | definition of one whole layer: the queue drained once; stated by `Layout.ProcessLayer` |
| Layout.WaitingCard | src/utils/jsonProcessor.ts:120-160 | a pass that leaves a non-empty queue lowers the number of waiting ids, so the outer loop ends |
| Layout.Kahn | src/utils/jsonProcessor.ts:120-160 | definition of the outer loop, one layer per pass while the queue is not empty; stated by `Layout.Layering` |
| Layout.KahnLayersOf | src/utils/jsonProcessor.ts:78-160 | definition of the topological layers from the roots in key order; stated by `Layout.SortTopologically`, `Layout.LayerMembers` and `Layout.FanOutLayers` |
| Layout.ProcessLayer | src/utils/jsonProcessor.ts:124-156 | the whole queue becomes the layer in queue order, the processed set grows by exactly the queue, and the degrees and next queue are those of `LayerOf`: the ids released in the order their releasing nodes are taken and their links listed; the next queue holds only ids never processed or queued before, and the loop state is kept |
| Layout.Layering | src/utils/jsonProcessor.ts:108-160 | the layers are exactly `Kahn` from the first queue, so both the layer of each id and its place in the layer are fixed; layer 0 is the first queue; layers are non-empty and hold each processed id once; with unique ids every node linking to an id of a layer is in an earlier layer (Kahn order), every id is in the earliest layer its predecessors allow, and every id left over has an unprocessed source |
| Layout.LayerStep | src/utils/jsonProcessor.ts:120-160 | one layer more keeps the loop state, and a non-empty next queue brings in ids never queued before |
| Layout.ChunkOpen | src/utils/jsonProcessor.ts:164-170 | after a full layer of five the next unprocessed id opens a layer of its own |
| Layout.ChunkExtend | src/utils/jsonProcessor.ts:164-170 | otherwise it joins the last layer |
| Layout.OverflowPush | src/utils/jsonProcessor.ts:164-170 | the unprocessed id of index `i` goes to layer `currentLayer + i / 5` |
| Layout.AddRemaining | src/utils/jsonProcessor.ts:162-170 | the Kahn layers are kept, and the unprocessed ids follow in input order, five per layer |
| Layout.ChunkedFlatten | src/utils/jsonProcessor.ts:163-170 | the overflow layers hold the unprocessed ids, no more and no fewer |
| Layout.UnplacedMembers | src/utils/jsonProcessor.ts:163 | the unprocessed ids are exactly the input ids not processed, each once when ids are unique |
| Layout.Pos | src/utils/jsonProcessor.ts:182-185 | definition of a position; stated by `Layout.PlaceAt` |
| Layout.PlaceLayer | src/utils/jsonProcessor.ts:177-188 | definition of one layer's placement; stated by `Layout.PlaceAt` and `Layout.PlaceNodes` |
| Layout.Place | src/utils/jsonProcessor.ts:172-190 | definition of the placement, layers in index order; stated by `Layout.PlaceIds`, `Layout.PlaceLength`, `Layout.PlaceNodes` and `Layout.PlaceAt` |
| Layout.PlaceLayers | src/utils/jsonProcessor.ts:172-190 | the loop places every layer in index order and each layer top to bottom |
| Layout.SortTopologically | src/utils/jsonProcessor.ts:78-160 | yields the id map and the layers `KahnLayersOf(nodes)`, holding the processed ids; they are Kahn layers: first layer the roots in key order, Kahn order and earliest layers under unique ids |
| Layout.CalculateHierarchicalLayout | src/utils/jsonProcessor.ts:77-191 | the result is the placement of the layers; the first `settled` layers are exactly `KahnLayersOf(nodes)` and the rest are the unprocessed ids in runs of five, so every position is fixed by the input; each placed node is the map's node for its id; with unique ids every input node appears exactly once |
| Layout.LayersCover | src/utils/jsonProcessor.ts:162-170 | the layers are the Kahn layers followed by the unprocessed ids, all of them known |
| Layout.PlacedOnce | src/utils/jsonProcessor.ts:77-191 | with unique ids the layers hold every input id exactly once |
| Layout.PlaceIds | src/utils/jsonProcessor.ts:177-188 | the placed ids are the layers' ids in order |
| Layout.PlaceNodes | src/utils/jsonProcessor.ts:179-181 | each placed node is the map's entry for its id |
| Layout.PlaceLength | src/utils/jsonProcessor.ts:177-188 | one placed node per id in the layers |
| Layout.PlaceAt | src/utils/jsonProcessor.ts:182-185 | node `k` of layer `l` lands at `x = 300 * l`, `y = 180 * k + (90 if l is odd else 0)` |
| Layout.ChunkedUnique | src/utils/jsonProcessor.ts:162-170 | the cut into runs of five is determined by the ids it cuts, so the overflow layers are a function of the input |
| Layout.LayerMembers | src/utils/jsonProcessor.ts:108-160 | with unique ids, layer `l` holds exactly the known ids that are in no earlier layer and whose predecessors all lie in earlier layers |
| Layout.FanOutDegrees | src/utils/jsonProcessor.ts:89-106 | for the graph `a -> b, c`, the in-degrees are 0, 1 and 1 |
| Layout.FanOutRoots | src/utils/jsonProcessor.ts:113-117 | for that graph the first queue is `[a]` |
| Layout.FanOutFirstLayer | src/utils/jsonProcessor.ts:124-156 | draining `[a]` brings `b` and `c` to degree zero and queues them in link order |
| Layout.FanOutSecondLayer | src/utils/jsonProcessor.ts:124-156 | draining `[b, c]` queues nothing more |
| Layout.FanOutLayers | src/utils/jsonProcessor.ts:108-160 | for that graph the layers are `[[a], [b, c]]` |
| Layout.FanOutPlace | src/utils/jsonProcessor.ts:172-190 | placing `[[a], [b, c]]` puts `a` at (0, 0), `b` at (300, 90) and `c` at (300, 270) |
| Layout.FanOutLayout | src/utils/jsonProcessor.ts:77-191 | so the layout of that graph puts `a` at (0, 0), `b` at (300, 90) and `c` at (300, 270) |
| Metrics.Adjacency | src/utils/performance.ts:185-190 | definition of the adjacency lists; stated by `Metrics.BuildAdjacency` and `Metrics.ChildrenAreSuccessors` |
| Metrics.MaxDepth | src/utils/performance.ts:181-203 | definition of the depth; stated by `Metrics.CalculateMaxDepth`, `Metrics.DepthIsPath` and `Metrics.DepthBound` |
| Metrics.AdjacencyStep | src/utils/performance.ts:185-190 | one more edge appends its target to its source's list |
| Metrics.BuildAdjacency | src/utils/performance.ts:185-190 | the loop builds the adjacency lists: each source's targets in edge order |
| Metrics.ChildrenAreSuccessors | src/utils/performance.ts:209 | an id's children are its edges' targets in edge order, and none for an id that no edge leaves |
| Metrics.SuccessorEdge | src/utils/performance.ts:185-190 | every successor comes from an edge |
| Metrics.Visit | src/utils/performance.ts:205-218 | `dfs` marks the id visited and keeps everything visited before |
| Metrics.VisitChildren | src/utils/performance.ts:210-215 | the loop over the children keeps everything visited before |
| Metrics.VisitExplored | src/utils/performance.ts:205-218 | `dfs` returns at least `depth`; it visits only the id and adjacency targets; the depth gained is that of a path from the id along the adjacency that repeats no id and uses only newly visited ids |
| Metrics.VisitChildrenExplored | src/utils/performance.ts:209-215 | the children's loop keeps that walk well formed and never makes it shallower |
| Metrics.TakenStarted | src/utils/performance.ts:212-213 | `Math.max` with a child's result keeps the walk well formed |
| Metrics.Dfs | src/utils/performance.ts:205-218 | the recursive method returns the depth and the visited set of `Visit` |
| Metrics.Sweep | src/utils/performance.ts:195-200 | the sweep over the node ids keeps everything visited before |
| Metrics.SweepDeepest | src/utils/performance.ts:192-200 | the sweep's depth never falls, and a positive depth comes with a path of one more id from a listed node |
| Metrics.CalculateMaxDepth | src/utils/performance.ts:181-203 | the method returns the sweep's depth |
| Metrics.PathAlongEdges | src/utils/performance.ts:185-190 | a path along the adjacency is a path along the edges |
| Metrics.SweepFlat | src/utils/performance.ts:195-200 | without adjacency the sweep's depth stays where it was |
| Metrics.NoEdgesNoDepth | src/utils/performance.ts:181-203 | the depth is 0 when there are no nodes or no edges |
| Metrics.DepthIsPath | src/utils/performance.ts:181-218 | a positive depth is the length of a duplicate-free edge path starting at a listed node |
| Metrics.DepthBound | src/utils/performance.ts:181-218 | for a non-empty node list, the depth is below the number of ids the sweep visited and below the number of distinct ids |
| Metrics.CalculateGraphMetrics | src/utils/performance.ts:172-179 | node count, edge count and depth as above, and `clusters` is the ceiling of nodes / 50 |

## Left out

- I/O and the model server: `ollamaService` is the `Oracle` value. Its preload and generate replies, `JSON.parse`, timestamps (`Date`, `exec_${Date.now()}`) and the user's stop button (`stopDuring`) are inputs of the model.
- `console.log` and the log callback (`setLogCallback`): neither changes the executor's state.
- Concurrency: awaits are sequential steps, and a stop can arrive only at the two awaits on the model server: the preload (src/services/workflowExecutor.ts:75) and the generate request (src/services/workflowExecutor.ts:205).
- The three `setTimeout` delays of `executeAgenticNode` (src/services/workflowExecutor.ts:197, 200 and 213) are left out as points where a stop can arrive. In the source a stop pressed during one of them takes effect there; in the model it takes effect at the next request or the next node start.
- The `await`s on the node handlers and on `executeFromNode` (src/services/workflowExecutor.ts:99, 142-154, 167, 250, 317) are modelled as plain calls. They yield only when their callee reaches one of the awaits above.
- Unbounded recursion: the traversal's depth is bounded by `fuel`. Running out is the fault `DepthExhausted`, which the source does not have: the source recurses for ever on a cycle.
- Log texts: entries carry a `Message` variant with its data, not the Portuguese text.
- The canvas `type` of nodes (`custom`) and edges (`bezier`): constants the executor never reads.
- Floating point: positions are integers, and the odd-layer offset is 90 exactly.
- JsonValue.Value: numbers in model replies and node outputs are unbounded integers (`Int`). A reply such as `{"score": 0.5}` (parsed at src/services/workflowExecutor.ts:215-219) cannot be produced by the model's `parse`. So the `String(x)` forms of fractional numbers, of numbers printed in exponent form (`1e21`), of `NaN` and `Infinity`, and of integers beyond 2^53 that a double rounds, are not modelled. Neither are the comparisons of such forms in a condition such as `{id.score} == "0.5"` (src/services/workflowExecutor.ts:345, 373-378).
- `loadJsonFile` (FileReader) and `createLargeDataset` (`Math.random`) are not part of this model.
- `createSampleData` is a literal document; no property of it is stated.
- Metrics.Dfs: the shared `visited` Set is passed in and returned as a value, not shared by reference, and the adjacency Map is a Dafny `map`.
- Variables.Field: only an object's own keys, and an array's `length` and canonical indices, are found by the `in` test of src/services/workflowExecutor.ts:332. JavaScript's `in` also finds inherited properties such as `toString`, `__proto__`, `constructor` or an array's `push`. A token such as `{id.toString}` therefore resolves to the function's source text in the program and is left verbatim in the model.
- Validation: it works on parsed JSON values. `undefined` is an absent key, and a non-string value under `highlight` or `nodeType` is compared as the source compares it.
- Layout.Layering: Kahn order and the earliest-layer property are stated for unique ids only. With duplicate ids the last node with an id wins in the map, as in the source; the layers are still proved equal to `Kahn`, which follows the source step by step, but nothing is proved about their order relative to the input's links.
- Everything the UI does, the Electron shell, and the floating-point layout and throttling helpers of `performance.ts`.

## Findings

| source | as written | input that shows it | evidently intended | confidence | as-written member | corrected member |
|---|---|---|---|---|---|---|
| src/utils/jsonProcessor.ts:203-206 | `typeof node === 'object'` is true for `null`, so `node.id` then reads a property of `null` and throws a TypeError | `{"nodes": [null]}` | the validator answers `false` | not executed | Validation.NullNodeThrows | Validation.AsWrittenAgrees |
