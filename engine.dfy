/** Reference semantics of the workflow executor: each operation of the
    executor as a pure function from the run state before it to the run state
    after it together with its result. The executor class in
    workflow_executor.dfy is proved to follow these functions step by step. */
module Engine {
  import opened Wrappers
  import opened JsonValue
  import opened FlowTypes
  import opened Variables
  import opened Conditions

  /** A text-generation request to the model server. */
  datatype GenerateRequest = GenerateRequest(model: string, systemPrompt: string, userPrompt: string, outputFormat: Option<string>)

  /** The world outside the executor. Replies of the model server are indexed
      by the number of earlier requests, so any sequence of replies can be
      expressed; `stopDuring(k)` says that the user stops the run while
      request `k` is pending; `parse` is JSON.parse (None when it throws);
      `now` is the timestamp written into outputs. */
  datatype Oracle = Oracle(
    preload: (nat, string) -> Outcome<string>,
    generate: (nat, GenerateRequest) -> Result<string, string>,
    stopDuring: nat -> bool,
    parse: string -> Option<Value>,
    now: string)

  /** What a traversal reads and never changes. */
  datatype Env = Env(nodes: seq<FlowNode>, edges: seq<FlowEdge>, config: WorkflowConfig, oracle: Oracle)

  /** The executor's changing state: the execution record (null before the
      first run), the stored node outputs and the number of requests made to
      the model server so far. */
  datatype Run = Run(execution: Option<WorkflowExecution>, outputs: map<string, Value>, calls: nat)

  /** The state after an operation, and what the operation returned. */
  datatype Step<+T> = Step(run: Run, out: T)

  // ---------------------------------------------------------------- lookups

  /** Index of the first element satisfying `p` (`Array.prototype.find`). */
  function FirstWhere<T>(s: seq<T>, p: T -> bool): (r: Option<nat>)
    ensures r.Some? ==> r.value < |s| && p(s[r.value]) && forall k :: 0 <= k < r.value ==> !p(s[k])
    ensures r.None? ==> forall k :: 0 <= k < |s| ==> !p(s[k])
    decreases |s|
  {
    if s == [] then None
    else if p(s[0]) then Some(0)
    else match FirstWhere(s[1..], p)
      case Some(k) => Some(k + 1)
      case None => None
  }

  function FindNode(nodes: seq<FlowNode>, id: string): Option<FlowNode> {
    match FirstWhere(nodes, (n: FlowNode) => n.id == id)
    case Some(k) => Some(nodes[k])
    case None => None
  }

  function FindStart(nodes: seq<FlowNode>): Option<FlowNode> {
    match FirstWhere(nodes, (n: FlowNode) => n.data.nodeType == Some(Start))
    case Some(k) => Some(nodes[k])
    case None => None
  }

  /** The edge that leaves `nodeId` through the handle of decision rule `ruleId`. */
  function FindDecisionEdge(edges: seq<FlowEdge>, nodeId: string, ruleId: string): (r: Option<FlowEdge>)
    ensures r.Some? ==> exists k :: 0 <= k < |edges| && edges[k] == r.value
                          && r.value.source == nodeId && r.value.sourceHandle == Some(ruleId)
                          && forall j :: 0 <= j < k ==> !(edges[j].source == nodeId && edges[j].sourceHandle == Some(ruleId))
    ensures r.None? ==> forall k :: 0 <= k < |edges| ==> !(edges[k].source == nodeId && edges[k].sourceHandle == Some(ruleId))
  {
    match FirstWhere(edges, (e: FlowEdge) => e.source == nodeId && e.sourceHandle == Some(ruleId))
    case Some(k) => Some(edges[k])
    case None => None
  }

  /** An edge the traversal follows from `nodeId` after the node is done:
      it leaves `nodeId` and its label is absent or empty. */
  predicate NormalFrom(e: FlowEdge, nodeId: string) {
    e.source == nodeId && !Given(e.caption)
  }

  /** Targets of the normal edges leaving `nodeId`, in edge order. */
  function NormalTargets(edges: seq<FlowEdge>, nodeId: string): seq<string> {
    if edges == [] then []
    else (if NormalFrom(edges[0], nodeId) then [edges[0].target] else []) + NormalTargets(edges[1..], nodeId)
  }

  // ------------------------------------------------------ state transitions

  predicate IsRunning(r: Run) {
    r.execution.Some? && r.execution.value.status == Running
  }

  /** Appends an entry when there is an execution record; does nothing otherwise. */
  function Log(r: Run, nodeId: string, nodeName: string, kind: LogType, message: Message, input: Option<Value>, output: Option<Value>): (l: Run)
    ensures l.outputs == r.outputs && l.calls == r.calls
  {
    match r.execution
    case None => r
    case Some(e) => r.(execution := Some(e.(logs := e.logs + [WorkflowLog(nodeId, nodeName, kind, message, input, output)])))
  }

  function SystemLog(r: Run, kind: LogType, message: Message): Run {
    Log(r, "SYSTEM", "Sistema", kind, message, None, None)
  }

  function ServerLog(r: Run, kind: LogType, message: Message): Run {
    Log(r, "OLLAMA", "Ollama", kind, message, None, None)
  }

  function NodeLog(r: Run, node: FlowNode, kind: LogType, message: Message): Run {
    Log(r, node.id, node.data.caption, kind, message, None, None)
  }

  /** An entry that reports a node's output (its input is logged as null). */
  function NodeOutputLog(r: Run, node: FlowNode, kind: LogType, message: Message, output: Value): Run {
    Log(r, node.id, node.data.caption, kind, message, Some(Null), Some(output))
  }

  function SetCurrent(r: Run, nodeId: string): Run {
    match r.execution
    case None => r
    case Some(e) => r.(execution := Some(e.(currentNodeId := Some(nodeId))))
  }

  function Store(r: Run, nodeId: string, v: Value): Run {
    r.(outputs := r.outputs[nodeId := v])
  }

  /** Sets the final status and the end time. */
  function Finish(r: Run, status: Status): Run {
    match r.execution
    case None => r
    case Some(e) => r.(execution := Some(e.(status := status, ended := true)))
  }

  /** `stopExecution`: only a running execution is stopped. */
  function Stop(r: Run): Run {
    if IsRunning(r) then SystemLog(Finish(r, Stopped), InfoLog, StoppedByUser) else r
  }

  /** The state once request `k` has been answered: counted, and stopped if
      the user pressed stop meanwhile. */
  function Answered(env: Env, r: Run, k: nat): (a: Run)
    ensures a.outputs == r.outputs && a.calls == k + 1
  {
    var counted := r.(calls := k + 1);
    if env.oracle.stopDuring(k) then Stop(counted) else counted
  }

  // --------------------------------------------------------- output values

  function Stamped(status: string, now: string): Value {
    Obj(map["status" := Str(status), "timestamp" := Str(now)])
  }

  function Skipped(): Value {
    Obj(map["status" := Str("skipped"), "reason" := Str("no_prompts")])
  }

  function RawReply(text: string): Value {
    Obj(map["response" := Str(text), "raw" := Bool(true)])
  }

  function DecisionOutput(caption: string, target: Value, now: string): Value {
    Obj(map["decision" := Str(caption), "targetNode" := target, "timestamp" := Str(now)])
  }

  function MemoryOutput(context: string, now: string): Value {
    Obj(map["context" := Str(context), "stored" := Bool(true), "timestamp" := Str(now)])
  }

  function EndOutput(now: string): Value {
    Obj(map["status" := Str("completed"), "timestamp" := Str(now), "finalNode" := Bool(true),
            "message" := Str("Workflow finalizado com sucesso")])
  }

  function SeedOutput(userInput: string, now: string): Value {
    Obj(map["input" := Str(userInput), "timestamp" := Str(now)])
  }

  // ------------------------------------------------------------ conditions

  /** Whether a rule's condition holds against the given outputs. */
  predicate Holds(condition: string, outputs: map<string, Value>) {
    Compare(Substitute(condition, Resolver(outputs))) == Some(true)
  }

  /** `evaluateCondition`: resolve the tokens, then compare; text of neither
      supported shape is false and logs one error. */
  function Evaluate(r: Run, condition: string): (e: Step<bool>)
    ensures e.out <==> Holds(condition, r.outputs)
    ensures e.run.outputs == r.outputs && e.run.calls == r.calls
    ensures Compare(Substitute(condition, Resolver(r.outputs))).Some? ==> e.run == r
  {
    var processed := Substitute(condition, Resolver(r.outputs));
    match Compare(processed)
    case Some(b) => Step(r, b)
    case None => Step(Log(r, "DECISION", "Avaliador", ErrorLog, UnsupportedCondition(condition, processed), None, None), false)
  }

  // ------------------------------------------------------------ node kinds

  /** `executeStartNode`: an output already stored under the node (a truthy
      one) is passed on; otherwise a fresh 'started' record. */
  function StartNode(env: Env, r: Run, node: FlowNode): Step<Result<Value, Fault>> {
    var result := if node.id in r.outputs && Truthy(r.outputs[node.id]) then r.outputs[node.id]
                  else Stamped("started", env.oracle.now);
    Step(NodeLog(r, node, InfoLog, StartProcessed), Ok(result))
  }

  /** The request an agentic node sends: both prompts with their tokens
      resolved against the outputs at hand (an absent prompt is empty). */
  function AgenticRequest(env: Env, r: Run, node: FlowNode): GenerateRequest {
    GenerateRequest(env.config.defaultModel,
                    Substitute(node.data.systemPrompt.GetOr(""), Resolver(r.outputs)),
                    Substitute(node.data.userPrompt.GetOr(""), Resolver(r.outputs)),
                    node.data.outputFormat)
  }

  /** `executeAgenticNode`: without prompts the node is skipped and the model
      server is not asked; otherwise exactly one request is made, a failure
      is passed on and a reply that is not JSON is wrapped as a raw reply. */
  function AgenticNode(env: Env, r: Run, node: FlowNode): (s: Step<Result<Value, Fault>>)
    ensures s.run.outputs == r.outputs
    ensures !Given(node.data.systemPrompt) && !Given(node.data.userPrompt) ==> s.run.calls == r.calls && s.out == Ok(Skipped())
    ensures Given(node.data.systemPrompt) || Given(node.data.userPrompt) ==>
              s.run.calls == r.calls + 1
              && match env.oracle.generate(r.calls, AgenticRequest(env, r, node))
                 case Err(reason) => s.out == Err(GenerationFailed(reason))
                 case Ok(text) => s.out == Ok(env.oracle.parse(text).GetOr(RawReply(text)))
  {
    var data := node.data;
    if !Given(data.systemPrompt) && !Given(data.userPrompt) then
      Step(NodeLog(r, node, InfoLog, NoPrompts), Ok(Skipped()))
    else
      var sent := NodeLog(NodeLog(NodeLog(r, node, InfoLog, PreparingPrompts), node, InfoLog, ConnectingModel), node, InfoLog, SendingRequest);
      Respond(env, Answered(env, sent, sent.calls), node, env.oracle.generate(sent.calls, AgenticRequest(env, r, node)))
  }

  /** What an agentic node makes of the model server's reply. */
  function Respond(env: Env, r: Run, node: FlowNode, reply: Result<string, string>): (s: Step<Result<Value, Fault>>)
    ensures s.run.outputs == r.outputs && s.run.calls == r.calls
  {
    match reply
    case Err(reason) => Step(NodeLog(r, node, ErrorLog, ModelError(reason)), Err(GenerationFailed(reason)))
    case Ok(text) =>
      var parsed := env.oracle.parse(text).GetOr(RawReply(text));
      Step(NodeOutputLog(NodeLog(r, node, InfoLog, ProcessingResponse), node, SuccessLog, ResponseReceived, parsed), Ok(parsed))
  }

  /** `executeMemoryNode`: the resolved context becomes the output. */
  function MemoryNode(env: Env, r: Run, node: FlowNode): Step<Result<Value, Fault>> {
    var context := Substitute(node.data.context.GetOr(""), Resolver(r.outputs));
    var result := MemoryOutput(context, env.oracle.now);
    Step(NodeOutputLog(NodeLog(r, node, DatabaseLog, StoringContext(context)), node, DatabaseLog, ContextStored, result), Ok(result))
  }

  /** `executeEndNode`. */
  function EndNode(env: Env, r: Run, node: FlowNode): Step<Result<Value, Fault>> {
    var result := EndOutput(env.oracle.now);
    Step(NodeOutputLog(NodeLog(r, node, InfoLog, EndReached), node, SuccessLog, WorkflowFinished, result), Ok(result))
  }

  // -------------------------------------------------------------- traversal

  /** `executeFromNode`. The source recurses without bound; `fuel` bounds the
      recursion depth and its exhaustion is a fault like a missing node. */
  function FromNode(env: Env, r: Run, nodeId: string, fuel: nat): Step<Outcome<Fault>>
    decreases fuel, 0, 0
  {
    if !IsRunning(r) then Step(r, Pass)
    else if fuel == 0 then Step(r, Fail(DepthExhausted))
    else match FindNode(env.nodes, nodeId)
      case None => Step(r, Fail(NodeNotFound(nodeId)))
      case Some(node) => Visit(env, NodeLog(SetCurrent(r, nodeId), node, NodeStartLog, NodeStarted), node, nodeId, fuel - 1)
  }

  /** The guarded block of `executeFromNode`: run the node, then advance; a
      failure anywhere in it gets this node's error entry. */
  function Visit(env: Env, r: Run, node: FlowNode, nodeId: string, fuel: nat): Step<Outcome<Fault>>
    decreases fuel, 5, 0
  {
    var d := Dispatch(env, r, node, fuel);
    match d.out
    case Err(f) => Step(NodeLog(d.run, node, ErrorLog, NodeError(f)), Fail(f))
    case Ok(output) => Advance(env, d.run, node, nodeId, output, fuel)
  }

  /** After a successful dispatch: a non-null output is stored and reported,
      then the normal edges are followed. */
  function Advance(env: Env, r: Run, node: FlowNode, nodeId: string, output: Value, fuel: nat): Step<Outcome<Fault>>
    decreases fuel, 2, 0
  {
    var stored := if output != Null then NodeOutputLog(Store(r, nodeId, output), node, NodeCompleteLog, NodeCompleted, output)
                  else r;
    var next := NextNodes(env, stored, NormalTargets(env.edges, nodeId), fuel);
    match next.out
    case Pass => next
    case Fail(f) => Step(NodeLog(next.run, node, ErrorLog, NodeError(f)), Fail(f))
  }

  /** `executeNextNodes`: the targets one after another; the first failure
      aborts the rest. */
  function NextNodes(env: Env, r: Run, targets: seq<string>, fuel: nat): Step<Outcome<Fault>>
    decreases fuel, 1, |targets|
  {
    if targets == [] then Step(r, Pass)
    else
      var s := FromNode(env, r, targets[0], fuel);
      if s.out.Fail? then s else NextNodes(env, s.run, targets[1..], fuel)
  }

  /** The `switch` on the node kind. */
  function Dispatch(env: Env, r: Run, node: FlowNode, fuel: nat): Step<Result<Value, Fault>>
    decreases fuel, 4, 0
  {
    match node.data.nodeType
    case None => Step(r, Err(UnknownNodeType))
    case Some(Start) => StartNode(env, r, node)
    case Some(Agentic) => AgenticNode(env, r, node)
    case Some(Decision) => DecisionNode(env, r, node, fuel)
    case Some(Memory) => MemoryNode(env, r, node)
    case Some(End) => EndNode(env, r, node)
  }

  /** `executeDecisionNode`. */
  function DecisionNode(env: Env, r: Run, node: FlowNode, fuel: nat): Step<Result<Value, Fault>>
    decreases fuel, 3, 0
  {
    var evaluating := NodeLog(r, node, InfoLog, EvaluatingDecisions);
    match node.data.decisions
    case Some(rules) =>
      if |rules| > 0 then TryRules(env, evaluating, node, rules, fuel)
      else Step(NodeLog(evaluating, node, InfoLog, NoDecisionRules), Ok(Stamped("no_decisions", env.oracle.now)))
    case None => Step(NodeLog(evaluating, node, InfoLog, NoDecisionRules), Ok(Stamped("no_decisions", env.oracle.now)))
  }

  /** The loop over the rules: each is announced and evaluated; the first
      that holds is taken. */
  function TryRules(env: Env, r: Run, node: FlowNode, rules: seq<DecisionRule>, fuel: nat): Step<Result<Value, Fault>>
    decreases fuel, 2, |rules|
  {
    if rules == [] then
      Step(NodeLog(r, node, WarningLog, NoConditionMet), Ok(Stamped("no_decision", env.oracle.now)))
    else
      var e := Evaluate(NodeLog(r, node, InfoLog, TestingCondition(rules[0].condition)), rules[0].condition);
      if e.out then TakeRule(env, e.run, node, rules[0], fuel)
      else TryRules(env, e.run, node, rules[1..], fuel)
  }

  /** The branch of a rule that holds: follow the edge on its handle, if any. */
  function TakeRule(env: Env, r: Run, node: FlowNode, rule: DecisionRule, fuel: nat): (s: Step<Result<Value, Fault>>)
    ensures FindDecisionEdge(env.edges, node.id, rule.id).None? ==>
              s.run.outputs == r.outputs && s.run.calls == r.calls
              && s.out == Ok(DecisionOutput(rule.caption, Null, env.oracle.now))
    decreases fuel, 1, 0
  {
    var taken := NodeLog(r, node, SuccessLog, DecisionTaken(rule.caption));
    match FindDecisionEdge(env.edges, node.id, rule.id)
    case Some(edge) =>
      var s := FromNode(env, taken, edge.target, fuel);
      (match s.out
       case Fail(f) => Step(s.run, Err(f))
       case Pass => Step(s.run, Ok(DecisionOutput(rule.caption, Str(edge.target), env.oracle.now))))
    case None =>
      Step(NodeLog(taken, node, InfoLog, DecisionUnconnected(rule.caption)), Ok(DecisionOutput(rule.caption, Null, env.oracle.now)))
  }

  // -------------------------------------------------------------- lifecycle

  /** The state `startExecution` begins from: a running execution with an
      empty log and no outputs; only the request count carries over. */
  function Fresh(userInput: Option<string>, calls: nat): Run {
    Run(Some(WorkflowExecution(Running, None, false, [], userInput)), map[], calls)
  }

  /** The opening entries of a run: the user's input (when given) and the
      two announcements. */
  function Opened(userInput: Option<string>, calls: nat): Run {
    var initial := Fresh(userInput, calls);
    var greeted := if Given(userInput) then
                     Log(initial, "USER", "Usuário", UserInputLog, UserInputText(userInput.value),
                         Some(Obj(map["userInput" := Str(userInput.value)])), None)
                   else initial;
    ServerLog(SystemLog(greeted, InfoLog, RunStarting), InfoLog, ModelLoading)
  }

  /** `startExecution` over the nodes and edges of `env`. */
  function StartRun(env: Env, calls: nat, userInput: Option<string>, fuel: nat): Step<Outcome<Fault>> {
    var loaded := Preload(env, Opened(userInput, calls));
    if loaded.out.Fail? then loaded else Traverse(env, loaded.run, userInput, fuel)
  }

  /** Loading the configured model into memory, when one is configured; a
      failure closes the run with 'error' and is passed on. */
  function Preload(env: Env, r: Run): Step<Outcome<Fault>> {
    if env.config.defaultModel == "" then Step(r, Pass)
    else
      var answered := Answered(env, r, r.calls);
      match env.oracle.preload(r.calls, env.config.defaultModel)
      case Fail(reason) =>
        Step(Finish(ServerLog(answered, ErrorLog, ModelLoadError(reason)), Errored), Fail(ModelLoadFailed(reason)))
      case Pass => Step(ServerLog(answered, InfoLog, ModelLoaded), Pass)
  }

  /** The guarded part of `startExecution`: find the start node, seed it with
      the user's input, traverse, then close the run. */
  function Traverse(env: Env, r: Run, userInput: Option<string>, fuel: nat): Step<Outcome<Fault>> {
    match FindStart(env.nodes)
    case None => Step(SystemLog(Finish(r, Errored), ErrorLog, RunError(NoStartNode)), Fail(NoStartNode))
    case Some(start) =>
      var seeded := if Given(userInput) then Store(r, start.id, SeedOutput(userInput.value, env.oracle.now)) else r;
      var s := FromNode(env, seeded, start.id, fuel);
      match s.out
      case Pass => Step(SystemLog(Finish(s.run, Completed), SuccessLog, RunCompleted), Pass)
      case Fail(f) => Step(SystemLog(Finish(s.run, Errored), ErrorLog, RunError(f)), Fail(f))
  }
}
