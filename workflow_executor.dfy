/** The executor as the source has it: an object whose methods update its
    execution record, its stored outputs and its graph in place. Every method
    is proved to leave the object in the state, and return the result, that
    the reference semantics in engine.dfy prescribes. */
module Executor {
  import opened Wrappers
  import opened JsonValue
  import opened FlowTypes
  import opened Variables
  import opened Conditions
  import opened Engine

  class WorkflowExecutor {
    var execution: Option<WorkflowExecution>
    var nodes: seq<FlowNode>
    var edges: seq<FlowEdge>
    const config: WorkflowConfig
    /** The model server, the user's stop button and JSON.parse. */
    const oracle: Oracle
    var nodeOutputs: map<string, Value>
    /** Requests made to the model server so far; indexes the oracle's replies. */
    var calls: nat

    /** The changing state, as the reference semantics sees it. */
    function State(): Run
      reads this
    {
      Run(execution, nodeOutputs, calls)
    }

    /** What a traversal reads and does not change. */
    function Environment(): Env
      reads this
    {
      Env(nodes, edges, config, oracle)
    }

    constructor (config: WorkflowConfig, oracle: Oracle)
      ensures this.config == config && this.oracle == oracle
      ensures State() == Run(None, map[], 0) && nodes == [] && edges == []
    {
      this.config := config;
      this.oracle := oracle;
      execution := None;
      nodes := [];
      edges := [];
      nodeOutputs := map[];
      calls := 0;
    }

    /** `log`: appends an entry to the execution record, if there is one. */
    method Log(nodeId: string, nodeName: string, kind: LogType, message: Message, input: Option<Value>, output: Option<Value>)
      modifies this
      ensures State() == Engine.Log(old(State()), nodeId, nodeName, kind, message, input, output)
      ensures Environment() == old(Environment())
    {
      if execution.Some? {
        execution := Some(execution.value.(logs := execution.value.logs + [WorkflowLog(nodeId, nodeName, kind, message, input, output)]));
      }
    }

    /** `getExecution`. */
    method GetExecution() returns (e: Option<WorkflowExecution>)
      ensures e == State().execution
    {
      e := execution;
    }

    /** `getNodeOutputs`. */
    method GetNodeOutputs() returns (outputs: map<string, Value>)
      ensures outputs == State().outputs
    {
      outputs := nodeOutputs;
    }

    /** `stopExecution`: a running execution becomes stopped, gets its end
        time and one entry; in any other state nothing happens. */
    method StopExecution()
      modifies this
      ensures State() == Stop(old(State()))
      ensures Environment() == old(Environment())
    {
      if execution.Some? && execution.value.status == Running {
        execution := Some(execution.value.(status := Stopped, ended := true));
        Log("SYSTEM", "Sistema", InfoLog, StoppedByUser, None, None);
      }
    }

    /** Sets the final status and the end time of the execution. */
    method Close(status: Status)
      modifies this
      ensures State() == Finish(old(State()), status)
      ensures Environment() == old(Environment())
    {
      if execution.Some? {
        execution := Some(execution.value.(status := status, ended := true));
      }
    }

    /** `startExecution`: a fresh run over `nodes` and `edges`; `fuel` bounds
        the recursion depth of the traversal. */
    method StartExecution(nodes: seq<FlowNode>, edges: seq<FlowEdge>, userInput: Option<string>, fuel: nat) returns (o: Outcome<Fault>)
      modifies this
      ensures Step(State(), o) == StartRun(Env(nodes, edges, config, oracle), old(calls), userInput, fuel)
      ensures Environment() == Env(nodes, edges, config, oracle)
    {
      this.nodes := nodes;
      this.edges := edges;
      Open(userInput);
      o := LoadModel();
      if o.Pass? {
        o := RunFromStart(userInput, fuel);
      }
    }

    /** The model preload of `startExecution`; a stop pressed meanwhile is
        carried out when the load finishes. */
    method LoadModel() returns (o: Outcome<Fault>)
      modifies this
      ensures Step(State(), o) == Preload(old(Environment()), old(State()))
      ensures Environment() == old(Environment())
    {
      if config.defaultModel == "" {
        return Pass;
      }
      var k := calls;
      var loaded := oracle.preload(k, config.defaultModel);
      calls := k + 1;
      if oracle.stopDuring(k) {
        StopExecution();
      }
      match loaded
      case Fail(reason) =>
        Log("OLLAMA", "Ollama", ErrorLog, ModelLoadError(reason), None, None);
        Close(Errored);
        o := Fail(ModelLoadFailed(reason));
      case Pass =>
        Log("OLLAMA", "Ollama", InfoLog, ModelLoaded, None, None);
        o := Pass;
    }

    /** The opening of `startExecution`: outputs cleared, a fresh running
        execution, the user's input and the two announcements logged. */
    method Open(userInput: Option<string>)
      modifies this
      ensures State() == Opened(userInput, old(calls))
      ensures Environment() == old(Environment())
    {
      nodeOutputs := map[];
      execution := Some(WorkflowExecution(Running, None, false, [], userInput));
      if Given(userInput) {
        Log("USER", "Usuário", UserInputLog, UserInputText(userInput.value), Some(Obj(map["userInput" := Str(userInput.value)])), None);
      }
      Log("SYSTEM", "Sistema", InfoLog, RunStarting, None, None);
      Log("OLLAMA", "Ollama", InfoLog, ModelLoading, None, None);
    }

    /** The guarded part of `startExecution`: find the start node, seed it
        with the user's input, traverse, and close the run either way. */
    method RunFromStart(userInput: Option<string>, fuel: nat) returns (o: Outcome<Fault>)
      modifies this
      ensures Step(State(), o) == Traverse(old(Environment()), old(State()), userInput, fuel)
      ensures Environment() == old(Environment())
    {
      var start := FindStart(nodes);
      if start.None? {
        Close(Errored);
        Log("SYSTEM", "Sistema", ErrorLog, RunError(NoStartNode), None, None);
        return Fail(NoStartNode);
      }
      if Given(userInput) {
        nodeOutputs := nodeOutputs[start.value.id := SeedOutput(userInput.value, oracle.now)];
      }
      o := ExecuteFromNode(start.value.id, fuel);
      match o
      case Pass =>
        Close(Completed);
        Log("SYSTEM", "Sistema", SuccessLog, RunCompleted, None, None);
      case Fail(f) =>
        Close(Errored);
        Log("SYSTEM", "Sistema", ErrorLog, RunError(f), None, None);
    }

    /** `executeFromNode`. */
    method ExecuteFromNode(nodeId: string, fuel: nat) returns (o: Outcome<Fault>)
      modifies this
      ensures Step(State(), o) == FromNode(old(Environment()), old(State()), nodeId, fuel)
      ensures Environment() == old(Environment())
      decreases fuel, 0, 0
    {
      if !(execution.Some? && execution.value.status == Running) {
        return Pass;
      }
      if fuel == 0 {
        return Fail(DepthExhausted);
      }
      var found := FindNode(nodes, nodeId);
      if found.None? {
        return Fail(NodeNotFound(nodeId));
      }
      var node := found.value;
      execution := Some(execution.value.(currentNodeId := Some(nodeId)));
      Log(node.id, node.data.caption, NodeStartLog, NodeStarted, None, None);
      o := VisitNode(node, nodeId, fuel - 1);
    }

    /** The guarded block of `executeFromNode`: run the node; a failure gets
        the node's error entry. */
    method VisitNode(node: FlowNode, nodeId: string, fuel: nat) returns (o: Outcome<Fault>)
      modifies this
      ensures Step(State(), o) == Visit(old(Environment()), old(State()), node, nodeId, fuel)
      ensures Environment() == old(Environment())
      decreases fuel, 5, 0
    {
      var result := Dispatch(node, fuel);
      if result.Err? {
        Log(node.id, node.data.caption, ErrorLog, NodeError(result.error), None, None);
        return Fail(result.error);
      }
      o := AdvanceNode(node, nodeId, result.value, fuel);
    }

    /** After a successful dispatch: store and report a non-null output, then
        follow the normal edges; a failure among them gets this node's error
        entry. */
    method AdvanceNode(node: FlowNode, nodeId: string, output: Value, fuel: nat) returns (o: Outcome<Fault>)
      modifies this
      ensures Step(State(), o) == Advance(old(Environment()), old(State()), node, nodeId, output, fuel)
      ensures Environment() == old(Environment())
      decreases fuel, 2, 0
    {
      if output != Null {
        nodeOutputs := nodeOutputs[nodeId := output];
        Log(node.id, node.data.caption, NodeCompleteLog, NodeCompleted, Some(Null), Some(output));
      }
      o := ExecuteNextNodes(nodeId, fuel);
      if o.Fail? {
        Log(node.id, node.data.caption, ErrorLog, NodeError(o.error), None, None);
      }
    }

    /** The `switch` on the node kind; an absent kind is an error. */
    method Dispatch(node: FlowNode, fuel: nat) returns (result: Result<Value, Fault>)
      modifies this
      ensures Step(State(), result) == Engine.Dispatch(old(Environment()), old(State()), node, fuel)
      ensures Environment() == old(Environment())
      decreases fuel, 4, 0
    {
      match node.data.nodeType {
        case None => result := Err(UnknownNodeType);
        case Some(Start) => result := ExecuteStartNode(node);
        case Some(Agentic) => result := ExecuteAgenticNode(node);
        case Some(Decision) => result := ExecuteDecisionNode(node, fuel);
        case Some(Memory) => result := ExecuteMemoryNode(node);
        case Some(End) => result := ExecuteEndNode(node);
      }
    }

    /** `executeNextNodes`: the normal edges leaving the node, one after
        another in edge order. */
    method ExecuteNextNodes(currentNodeId: string, fuel: nat) returns (o: Outcome<Fault>)
      modifies this
      ensures Step(State(), o) == NextNodes(old(Environment()), old(State()), NormalTargets(old(edges), currentNodeId), fuel)
      ensures Environment() == old(Environment())
      decreases fuel, 1, 0
    {
      var targets := NormalTargets(edges, currentNodeId);
      for i := 0 to |targets|
        invariant Environment() == old(Environment())
        invariant NextNodes(Environment(), State(), targets[i..], fuel) == NextNodes(old(Environment()), old(State()), targets, fuel)
      {
        o := ExecuteFromNode(targets[i], fuel);
        if o.Fail? {
          return;
        }
      }
      return Pass;
    }

    /** `executeStartNode`. */
    method ExecuteStartNode(node: FlowNode) returns (result: Result<Value, Fault>)
      modifies this
      ensures Step(State(), result) == StartNode(old(Environment()), old(State()), node)
      ensures Environment() == old(Environment())
    {
      if node.id in nodeOutputs && Truthy(nodeOutputs[node.id]) {
        result := Ok(nodeOutputs[node.id]);
      } else {
        result := Ok(Stamped("started", oracle.now));
      }
      Log(node.id, node.data.caption, InfoLog, StartProcessed, None, None);
    }

    /** `executeAgenticNode`; a stop pressed while the request is pending is
        carried out when the reply arrives. */
    method ExecuteAgenticNode(node: FlowNode) returns (result: Result<Value, Fault>)
      modifies this
      ensures Step(State(), result) == AgenticNode(old(Environment()), old(State()), node)
      ensures Environment() == old(Environment())
    {
      var data := node.data;
      if !Given(data.systemPrompt) && !Given(data.userPrompt) {
        Log(node.id, data.caption, InfoLog, NoPrompts, None, None);
        return Ok(Skipped());
      }
      var systemPrompt := ReplaceVariables(data.systemPrompt.GetOr(""), nodeOutputs);
      var userPrompt := ReplaceVariables(data.userPrompt.GetOr(""), nodeOutputs);
      var request := GenerateRequest(config.defaultModel, systemPrompt, userPrompt, data.outputFormat);
      assert request == AgenticRequest(old(Environment()), old(State()), node);
      Log(node.id, data.caption, InfoLog, PreparingPrompts, None, None);
      Log(node.id, data.caption, InfoLog, ConnectingModel, None, None);
      Log(node.id, data.caption, InfoLog, SendingRequest, None, None);
      ghost var sent := State();
      var k := calls;
      var reply := oracle.generate(k, request);
      calls := k + 1;
      if oracle.stopDuring(k) {
        StopExecution();
      }
      assert State() == Answered(Environment(), sent, k);
      result := ReceiveReply(node, reply);
    }

    /** The part of `executeAgenticNode` after the request: a failure is
        logged and passed on; a reply that is not JSON is kept as raw text. */
    method ReceiveReply(node: FlowNode, reply: Result<string, string>) returns (result: Result<Value, Fault>)
      modifies this
      ensures Step(State(), result) == Respond(old(Environment()), old(State()), node, reply)
      ensures Environment() == old(Environment())
    {
      match reply
      case Err(reason) =>
        Log(node.id, node.data.caption, ErrorLog, ModelError(reason), None, None);
        result := Err(GenerationFailed(reason));
      case Ok(text) =>
        Log(node.id, node.data.caption, InfoLog, ProcessingResponse, None, None);
        var parsed := oracle.parse(text);
        var response := if parsed.Some? then parsed.value else RawReply(text);
        Log(node.id, node.data.caption, SuccessLog, ResponseReceived, Some(Null), Some(response));
        result := Ok(response);
    }

    /** `evaluateCondition`. */
    method EvaluateCondition(condition: string) returns (holds: bool)
      modifies this
      ensures Step(State(), holds) == Evaluate(old(State()), condition)
      ensures Environment() == old(Environment())
    {
      var processed := ReplaceVariables(condition, nodeOutputs);
      match Compare(processed)
      case Some(b) =>
        holds := b;
      case None =>
        Log("DECISION", "Avaliador", ErrorLog, UnsupportedCondition(condition, processed), None, None);
        holds := false;
    }

    /** `executeDecisionNode`: the rules in order; the first that holds is
        taken and its edge, if any, is followed before the node returns. */
    method ExecuteDecisionNode(node: FlowNode, fuel: nat) returns (result: Result<Value, Fault>)
      modifies this
      ensures Step(State(), result) == DecisionNode(old(Environment()), old(State()), node, fuel)
      ensures Environment() == old(Environment())
      decreases fuel, 3, 0
    {
      Log(node.id, node.data.caption, InfoLog, EvaluatingDecisions, None, None);
      if node.data.decisions.None? || |node.data.decisions.value| == 0 {
        Log(node.id, node.data.caption, InfoLog, NoDecisionRules, None, None);
        return Ok(Stamped("no_decisions", oracle.now));
      }
      var rules := node.data.decisions.value;
      ghost var entry := State();
      for i := 0 to |rules|
        invariant Environment() == old(Environment())
        invariant TryRules(Environment(), State(), node, rules[i..], fuel) == TryRules(Environment(), entry, node, rules, fuel)
      {
        var rule := rules[i];
        Log(node.id, node.data.caption, InfoLog, TestingCondition(rule.condition), None, None);
        var holds := EvaluateCondition(rule.condition);
        if holds {
          result := FollowRule(node, rule, fuel);
          return;
        }
      }
      Log(node.id, node.data.caption, WarningLog, NoConditionMet, None, None);
      result := Ok(Stamped("no_decision", oracle.now));
    }

    /** The branch of a rule that holds: the first edge on the rule's handle
        is followed; without one the decision records a null target. */
    method FollowRule(node: FlowNode, rule: DecisionRule, fuel: nat) returns (result: Result<Value, Fault>)
      modifies this
      ensures Step(State(), result) == TakeRule(old(Environment()), old(State()), node, rule, fuel)
      ensures Environment() == old(Environment())
      decreases fuel, 1, 0
    {
      Log(node.id, node.data.caption, SuccessLog, DecisionTaken(rule.caption), None, None);
      var edge := FindDecisionEdge(edges, node.id, rule.id);
      match edge {
        case Some(e) =>
          var o := ExecuteFromNode(e.target, fuel);
          result := if o.Pass? then Ok(DecisionOutput(rule.caption, Str(e.target), oracle.now)) else Err(o.error);
        case None =>
          Log(node.id, node.data.caption, InfoLog, DecisionUnconnected(rule.caption), None, None);
          result := Ok(DecisionOutput(rule.caption, Null, oracle.now));
      }
    }

    /** `executeMemoryNode`. */
    method ExecuteMemoryNode(node: FlowNode) returns (result: Result<Value, Fault>)
      modifies this
      ensures Step(State(), result) == MemoryNode(old(Environment()), old(State()), node)
      ensures Environment() == old(Environment())
    {
      var context := ReplaceVariables(node.data.context.GetOr(""), nodeOutputs);
      Log(node.id, node.data.caption, DatabaseLog, StoringContext(context), None, None);
      var stored := MemoryOutput(context, oracle.now);
      Log(node.id, node.data.caption, DatabaseLog, ContextStored, Some(Null), Some(stored));
      result := Ok(stored);
    }

    /** `executeEndNode`. */
    method ExecuteEndNode(node: FlowNode) returns (result: Result<Value, Fault>)
      modifies this
      ensures Step(State(), result) == EndNode(old(Environment()), old(State()), node)
      ensures Environment() == old(Environment())
    {
      Log(node.id, node.data.caption, InfoLog, EndReached, None, None);
      var finished := EndOutput(oracle.now);
      Log(node.id, node.data.caption, SuccessLog, WorkflowFinished, Some(Null), Some(finished));
      result := Ok(finished);
    }
  }
}
