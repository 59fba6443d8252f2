/** Properties of the executor's reference semantics: what a traversal may
    change, that a stop request is honoured, first-match decision rules and
    the run lifecycle. */
module EngineProperties {
  import opened Wrappers
  import opened JsonValue
  import opened FlowTypes
  import opened Variables
  import opened Conditions
  import opened Engine

  // ------------------------------------------------------------ invariants

  /** During a traversal the status only moves from running to stopped. */
  predicate StatusMove(s: Status, s': Status) {
    s == s' || (s == Running && s' == Stopped)
  }

  /** `after` is `before` with more work done: entries were only appended,
      outputs only added or overwritten, requests only added, and the status
      at most went from running to stopped. */
  predicate Extends(before: Run, after: Run) {
    before.calls <= after.calls
    && before.outputs.Keys <= after.outputs.Keys
    && (before.execution.None? <==> after.execution.None?)
    && (before.execution.Some? ==>
          before.execution.value.logs <= after.execution.value.logs
          && after.execution.value.userInput == before.execution.value.userInput
          && StatusMove(before.execution.value.status, after.execution.value.status))
  }

  /** Whether the log holds the entry of a stop request. */
  predicate HasStop(logs: seq<WorkflowLog>)
    decreases |logs|
  {
    logs != [] && (logs[|logs| - 1].message == StoppedByUser || HasStop(logs[..|logs| - 1]))
  }

  /** No node-start entry comes after a stop entry. */
  predicate NoStartAfterStop(logs: seq<WorkflowLog>)
    decreases |logs|
  {
    logs == []
    || (NoStartAfterStop(logs[..|logs| - 1])
        && (logs[|logs| - 1].kind == NodeStartLog ==> !HasStop(logs[..|logs| - 1])))
  }

  /** A stop request is honoured: a running execution has no stop entry, and
      no node is started after a stop entry. */
  predicate Quiet(r: Run) {
    r.execution.Some? ==> QuietLog(r.execution.value)
  }

  predicate QuietLog(e: WorkflowExecution) {
    (e.status == Running ==> !HasStop(e.logs)) && NoStartAfterStop(e.logs)
  }

  /** What `NoStartAfterStop` says about positions in the log. */
  lemma {:induction false} NoStartAfterStopMeaning(logs: seq<WorkflowLog>)
    requires NoStartAfterStop(logs)
    ensures forall i, j :: 0 <= i < j < |logs| && logs[i].message == StoppedByUser ==> logs[j].kind != NodeStartLog
    decreases |logs|
  {
    if logs != [] {
      var init := logs[..|logs| - 1];
      NoStartAfterStopMeaning(init);
      if logs[|logs| - 1].kind == NodeStartLog {
        HasStopMeaning(init);
      }
    }
  }

  lemma {:induction false} HasStopMeaning(logs: seq<WorkflowLog>)
    ensures !HasStop(logs) <==> forall i :: 0 <= i < |logs| ==> logs[i].message != StoppedByUser
    decreases |logs|
  {
    if logs != [] {
      HasStopMeaning(logs[..|logs| - 1]);
    }
  }

  predicate Evolves(before: Run, after: Run) {
    Extends(before, after) && (Quiet(before) ==> Quiet(after))
  }

  lemma EvolvesTrans(a: Run, b: Run, c: Run)
    requires Evolves(a, b) && Evolves(b, c)
    ensures Evolves(a, c)
  {
    if a.execution.Some? {
      var la, lb, lc := a.execution.value.logs, b.execution.value.logs, c.execution.value.logs;
      assert la == lb[..|la|] && lb == lc[..|lb|];
      assert la == lc[..|la|];
    }
  }

  // ------------------------------------------------------ single transitions

  /** Appending an entry keeps cancellation honoured, provided it is not the
      stop entry and a node-start entry is written only while running. */
  lemma LogQuiet(r: Run, nodeId: string, nodeName: string, kind: LogType, message: Message, input: Option<Value>, output: Option<Value>)
    requires Quiet(r)
    requires message != StoppedByUser
    requires kind == NodeStartLog ==> IsRunning(r)
    ensures Quiet(Log(r, nodeId, nodeName, kind, message, input, output))
  {
    if r.execution.Some? {
      var logs := r.execution.value.logs;
      var logs' := Log(r, nodeId, nodeName, kind, message, input, output).execution.value.logs;
      assert logs'[..|logs'| - 1] == logs;
    }
  }

  lemma LogEvolves(r: Run, nodeId: string, nodeName: string, kind: LogType, message: Message, input: Option<Value>, output: Option<Value>)
    requires message != StoppedByUser
    requires kind == NodeStartLog ==> IsRunning(r)
    ensures Evolves(r, Log(r, nodeId, nodeName, kind, message, input, output))
  {
    if Quiet(r) {
      LogQuiet(r, nodeId, nodeName, kind, message, input, output);
    }
  }

  /** Closing a run with a final status keeps cancellation honoured. */
  lemma FinishQuiet(r: Run, status: Status)
    requires Quiet(r) && status != Running
    ensures Quiet(Finish(r, status))
  {
  }

  lemma StopEvolves(r: Run)
    ensures Evolves(r, Stop(r))
  {
    if IsRunning(r) {
      var logs := r.execution.value.logs;
      var logs' := Stop(r).execution.value.logs;
      assert logs'[..|logs'| - 1] == logs;
    }
  }

  lemma AnsweredEvolves(env: Env, r: Run)
    ensures Evolves(r, Answered(env, r, r.calls))
  {
    var counted := r.(calls := r.calls + 1);
    assert Evolves(r, counted);
    if env.oracle.stopDuring(r.calls) {
      StopEvolves(counted);
      EvolvesTrans(r, counted, Stop(counted));
    }
  }

  lemma SetCurrentEvolves(r: Run, nodeId: string)
    ensures Evolves(r, SetCurrent(r, nodeId))
    ensures IsRunning(r) ==> IsRunning(SetCurrent(r, nodeId))
  {
  }

  lemma StoreEvolves(r: Run, nodeId: string, v: Value)
    ensures Evolves(r, Store(r, nodeId, v))
  {
  }

  // ------------------------------------------------------------ node kinds

  lemma StartNodeEvolves(env: Env, r: Run, node: FlowNode)
    ensures Evolves(r, StartNode(env, r, node).run)
  {
    LogEvolves(r, node.id, node.data.caption, InfoLog, StartProcessed, None, None);
  }

  lemma MemoryNodeEvolves(env: Env, r: Run, node: FlowNode)
    ensures Evolves(r, MemoryNode(env, r, node).run)
  {
    var context := Substitute(node.data.context.GetOr(""), Resolver(r.outputs));
    var storing := NodeLog(r, node, DatabaseLog, StoringContext(context));
    LogEvolves(r, node.id, node.data.caption, DatabaseLog, StoringContext(context), None, None);
    LogEvolves(storing, node.id, node.data.caption, DatabaseLog, ContextStored, Some(Null), Some(MemoryOutput(context, env.oracle.now)));
    EvolvesTrans(r, storing, MemoryNode(env, r, node).run);
  }

  lemma EndNodeEvolves(env: Env, r: Run, node: FlowNode)
    ensures Evolves(r, EndNode(env, r, node).run)
  {
    var reached := NodeLog(r, node, InfoLog, EndReached);
    LogEvolves(r, node.id, node.data.caption, InfoLog, EndReached, None, None);
    LogEvolves(reached, node.id, node.data.caption, SuccessLog, WorkflowFinished, Some(Null), Some(EndOutput(env.oracle.now)));
    EvolvesTrans(r, reached, EndNode(env, r, node).run);
  }

  lemma AgenticNodeEvolves(env: Env, r: Run, node: FlowNode)
    ensures Evolves(r, AgenticNode(env, r, node).run)
  {
    var data := node.data;
    if !Given(data.systemPrompt) && !Given(data.userPrompt) {
      LogEvolves(r, node.id, data.caption, InfoLog, NoPrompts, None, None);
    } else {
      var r1 := NodeLog(r, node, InfoLog, PreparingPrompts);
      var r2 := NodeLog(r1, node, InfoLog, ConnectingModel);
      var sent := NodeLog(r2, node, InfoLog, SendingRequest);
      LogEvolves(r, node.id, data.caption, InfoLog, PreparingPrompts, None, None);
      LogEvolves(r1, node.id, data.caption, InfoLog, ConnectingModel, None, None);
      LogEvolves(r2, node.id, data.caption, InfoLog, SendingRequest, None, None);
      EvolvesTrans(r, r1, r2);
      EvolvesTrans(r, r2, sent);
      var answered := Answered(env, sent, sent.calls);
      AnsweredEvolves(env, sent);
      EvolvesTrans(r, sent, answered);
      RespondEvolves(env, answered, node, env.oracle.generate(sent.calls, AgenticRequest(env, r, node)));
      EvolvesTrans(r, answered, AgenticNode(env, r, node).run);
    }
  }

  lemma RespondEvolves(env: Env, r: Run, node: FlowNode, reply: Result<string, string>)
    ensures Evolves(r, Respond(env, r, node, reply).run)
  {
    match reply
    case Err(reason) =>
      LogEvolves(r, node.id, node.data.caption, ErrorLog, ModelError(reason), None, None);
    case Ok(text) =>
      var parsed := env.oracle.parse(text).GetOr(RawReply(text));
      var processing := NodeLog(r, node, InfoLog, ProcessingResponse);
      LogEvolves(r, node.id, node.data.caption, InfoLog, ProcessingResponse, None, None);
      LogEvolves(processing, node.id, node.data.caption, SuccessLog, ResponseReceived, Some(Null), Some(parsed));
      EvolvesTrans(r, processing, Respond(env, r, node, reply).run);
  }

  lemma EvaluateEvolves(r: Run, condition: string)
    ensures Evolves(r, Evaluate(r, condition).run)
  {
    var processed := Substitute(condition, Resolver(r.outputs));
    LogEvolves(r, "DECISION", "Avaliador", ErrorLog, UnsupportedCondition(condition, processed), None, None);
  }

  // -------------------------------------------------------------- traversal

  /** A traversal only appends to the log, only adds outputs, and only moves
      a running execution to stopped; and it never starts a node after a
      stop entry. */
  lemma {:induction false} FromNodeEvolves(env: Env, r: Run, nodeId: string, fuel: nat)
    ensures Evolves(r, FromNode(env, r, nodeId, fuel).run)
    decreases fuel, 0, 0
  {
    if IsRunning(r) && fuel > 0 && FindNode(env.nodes, nodeId).Some? {
      var node := FindNode(env.nodes, nodeId).value;
      var current := SetCurrent(r, nodeId);
      SetCurrentEvolves(r, nodeId);
      var started := NodeLog(current, node, NodeStartLog, NodeStarted);
      LogEvolves(current, node.id, node.data.caption, NodeStartLog, NodeStarted, None, None);
      EvolvesTrans(r, current, started);
      VisitEvolves(env, started, node, nodeId, fuel - 1);
      EvolvesTrans(r, started, Visit(env, started, node, nodeId, fuel - 1).run);
    }
  }

  lemma {:induction false} VisitEvolves(env: Env, r: Run, node: FlowNode, nodeId: string, fuel: nat)
    ensures Evolves(r, Visit(env, r, node, nodeId, fuel).run)
    decreases fuel, 5, 0
  {
    var d := Dispatch(env, r, node, fuel);
    DispatchEvolves(env, r, node, fuel);
    match d.out
    case Err(f) =>
      LogEvolves(d.run, node.id, node.data.caption, ErrorLog, NodeError(f), None, None);
      EvolvesTrans(r, d.run, Visit(env, r, node, nodeId, fuel).run);
    case Ok(output) =>
      AdvanceEvolves(env, d.run, node, nodeId, output, fuel);
      EvolvesTrans(r, d.run, Visit(env, r, node, nodeId, fuel).run);
  }

  lemma {:induction false} AdvanceEvolves(env: Env, r: Run, node: FlowNode, nodeId: string, output: Value, fuel: nat)
    ensures Evolves(r, Advance(env, r, node, nodeId, output, fuel).run)
    decreases fuel, 2, 0
  {
    var stored := if output != Null then NodeOutputLog(Store(r, nodeId, output), node, NodeCompleteLog, NodeCompleted, output) else r;
    if output != Null {
      StoreEvolves(r, nodeId, output);
      LogEvolves(Store(r, nodeId, output), node.id, node.data.caption, NodeCompleteLog, NodeCompleted, Some(Null), Some(output));
      EvolvesTrans(r, Store(r, nodeId, output), stored);
    }
    var next := NextNodes(env, stored, NormalTargets(env.edges, nodeId), fuel);
    NextNodesEvolves(env, stored, NormalTargets(env.edges, nodeId), fuel);
    EvolvesTrans(r, stored, next.run);
    if next.out.Fail? {
      LogEvolves(next.run, node.id, node.data.caption, ErrorLog, NodeError(next.out.error), None, None);
      EvolvesTrans(r, next.run, Advance(env, r, node, nodeId, output, fuel).run);
    }
  }

  lemma {:induction false} NextNodesEvolves(env: Env, r: Run, targets: seq<string>, fuel: nat)
    ensures Evolves(r, NextNodes(env, r, targets, fuel).run)
    decreases fuel, 1, |targets|
  {
    if targets != [] {
      var s := FromNode(env, r, targets[0], fuel);
      FromNodeEvolves(env, r, targets[0], fuel);
      if s.out.Pass? {
        NextNodesEvolves(env, s.run, targets[1..], fuel);
        EvolvesTrans(r, s.run, NextNodes(env, s.run, targets[1..], fuel).run);
      }
    }
  }

  lemma {:induction false} DispatchEvolves(env: Env, r: Run, node: FlowNode, fuel: nat)
    ensures Evolves(r, Dispatch(env, r, node, fuel).run)
    decreases fuel, 4, 0
  {
    match node.data.nodeType
    case None =>
    case Some(Start) => StartNodeEvolves(env, r, node);
    case Some(Agentic) => AgenticNodeEvolves(env, r, node);
    case Some(Decision) => DecisionNodeEvolves(env, r, node, fuel);
    case Some(Memory) => MemoryNodeEvolves(env, r, node);
    case Some(End) => EndNodeEvolves(env, r, node);
  }

  lemma {:induction false} DecisionNodeEvolves(env: Env, r: Run, node: FlowNode, fuel: nat)
    ensures Evolves(r, DecisionNode(env, r, node, fuel).run)
    decreases fuel, 3, 0
  {
    var evaluating := NodeLog(r, node, InfoLog, EvaluatingDecisions);
    LogEvolves(r, node.id, node.data.caption, InfoLog, EvaluatingDecisions, None, None);
    if node.data.decisions.Some? && |node.data.decisions.value| > 0 {
      TryRulesEvolves(env, evaluating, node, node.data.decisions.value, fuel);
    } else {
      LogEvolves(evaluating, node.id, node.data.caption, InfoLog, NoDecisionRules, None, None);
    }
    EvolvesTrans(r, evaluating, DecisionNode(env, r, node, fuel).run);
  }

  lemma {:induction false} TryRulesEvolves(env: Env, r: Run, node: FlowNode, rules: seq<DecisionRule>, fuel: nat)
    ensures Evolves(r, TryRules(env, r, node, rules, fuel).run)
    decreases fuel, 2, |rules|
  {
    if rules == [] {
      LogEvolves(r, node.id, node.data.caption, WarningLog, NoConditionMet, None, None);
    } else {
      var testing := NodeLog(r, node, InfoLog, TestingCondition(rules[0].condition));
      LogEvolves(r, node.id, node.data.caption, InfoLog, TestingCondition(rules[0].condition), None, None);
      var e := Evaluate(testing, rules[0].condition);
      EvaluateEvolves(testing, rules[0].condition);
      EvolvesTrans(r, testing, e.run);
      if e.out {
        TakeRuleEvolves(env, e.run, node, rules[0], fuel);
      } else {
        TryRulesEvolves(env, e.run, node, rules[1..], fuel);
      }
      EvolvesTrans(r, e.run, TryRules(env, r, node, rules, fuel).run);
    }
  }

  lemma {:induction false} TakeRuleEvolves(env: Env, r: Run, node: FlowNode, rule: DecisionRule, fuel: nat)
    ensures Evolves(r, TakeRule(env, r, node, rule, fuel).run)
    decreases fuel, 1, 0
  {
    var taken := NodeLog(r, node, SuccessLog, DecisionTaken(rule.caption));
    LogEvolves(r, node.id, node.data.caption, SuccessLog, DecisionTaken(rule.caption), None, None);
    match FindDecisionEdge(env.edges, node.id, rule.id)
    case Some(edge) =>
      FromNodeEvolves(env, taken, edge.target, fuel);
      EvolvesTrans(r, taken, TakeRule(env, r, node, rule, fuel).run);
    case None =>
      LogEvolves(taken, node.id, node.data.caption, InfoLog, DecisionUnconnected(rule.caption), None, None);
      EvolvesTrans(r, taken, TakeRule(env, r, node, rule, fuel).run);
  }

  // ---------------------------------------------------------- cancellation

  /** Once the execution is no longer running, following the outgoing edges
      changes nothing at all. */
  lemma {:induction false} NextNodesWhenHalted(env: Env, r: Run, targets: seq<string>, fuel: nat)
    requires !IsRunning(r)
    ensures NextNodes(env, r, targets, fuel) == Step(r, Pass)
    decreases |targets|
  {
    if targets != [] {
      NextNodesWhenHalted(env, r, targets[1..], fuel);
    }
  }

  // ------------------------------------------------------------- decisions

  /** Index of the first rule whose condition holds against `outputs`. */
  function FirstHolding(rules: seq<DecisionRule>, outputs: map<string, Value>): (i: Option<nat>)
    ensures i.Some? ==> i.value < |rules| && Holds(rules[i.value].condition, outputs)
    ensures i.Some? ==> forall k :: 0 <= k < i.value ==> !Holds(rules[k].condition, outputs)
    ensures i.None? ==> forall k :: 0 <= k < |rules| ==> !Holds(rules[k].condition, outputs)
  {
    FirstWhere(rules, (rule: DecisionRule) => Holds(rule.condition, outputs))
  }

  /** The state after announcing and evaluating each of `rules` in turn. */
  function Tested(r: Run, node: FlowNode, rules: seq<DecisionRule>): (t: Run)
    ensures t.outputs == r.outputs && t.calls == r.calls
    decreases |rules|
  {
    if rules == [] then r
    else Tested(Evaluate(NodeLog(r, node, InfoLog, TestingCondition(rules[0].condition)), rules[0].condition).run, node, rules[1..])
  }

  /** Rules are tried in order against the outputs at hand: the first rule
      that holds is taken once exactly the rules up to it have been
      announced and evaluated (rules after it are never tested). */
  lemma {:induction false} TryRulesTakes(env: Env, r: Run, node: FlowNode, rules: seq<DecisionRule>, fuel: nat, j: nat)
    requires FirstHolding(rules, r.outputs) == Some(j)
    ensures TryRules(env, r, node, rules, fuel) == TakeRule(env, Tested(r, node, rules[..j + 1]), node, rules[j], fuel)
    decreases |rules|
  {
    var e := Evaluate(NodeLog(r, node, InfoLog, TestingCondition(rules[0].condition)), rules[0].condition);
    TryRulesStep(env, r, node, rules, fuel);
    if j == 0 {
      TestedStep(r, node, rules);
    } else {
      assert FirstHolding(rules[1..], e.run.outputs) == Some(j - 1) by {
        FirstHoldingStep(rules, r.outputs);
      }
      TryRulesTakes(env, e.run, node, rules[1..], fuel, j - 1);
      TestedPrefix(r, node, rules, j - 1);
      assert rules[1..][j - 1] == rules[j];
    }
  }

  /** One rule of `TryRules`. */
  lemma TryRulesStep(env: Env, r: Run, node: FlowNode, rules: seq<DecisionRule>, fuel: nat)
    requires rules != []
    ensures var e := Evaluate(NodeLog(r, node, InfoLog, TestingCondition(rules[0].condition)), rules[0].condition);
            TryRules(env, r, node, rules, fuel)
            == if e.out then TakeRule(env, e.run, node, rules[0], fuel) else TryRules(env, e.run, node, rules[1..], fuel)
  {
  }

  /** When no rule holds, every rule is announced and evaluated, then a
      warning and 'no_decision'. */
  lemma {:induction false} TryRulesFallsThrough(env: Env, r: Run, node: FlowNode, rules: seq<DecisionRule>, fuel: nat)
    requires FirstHolding(rules, r.outputs).None?
    ensures TryRules(env, r, node, rules, fuel)
            == Step(NodeLog(Tested(r, node, rules), node, WarningLog, NoConditionMet), Ok(Stamped("no_decision", env.oracle.now)))
    decreases |rules|
  {
    if rules != [] {
      var e := Evaluate(NodeLog(r, node, InfoLog, TestingCondition(rules[0].condition)), rules[0].condition);
      FirstHoldingStep(rules, r.outputs);
      TestedStep(r, node, rules);
      TryRulesStep(env, r, node, rules, fuel);
      TryRulesFallsThrough(env, e.run, node, rules[1..], fuel);
    }
  }

  /** The first rule that holds, one rule further on. */
  lemma FirstHoldingStep(rules: seq<DecisionRule>, outputs: map<string, Value>)
    requires rules != []
    ensures Holds(rules[0].condition, outputs) ==> FirstHolding(rules, outputs) == Some(0)
    ensures !Holds(rules[0].condition, outputs) ==>
              FirstHolding(rules, outputs)
              == if FirstHolding(rules[1..], outputs).Some? then Some(FirstHolding(rules[1..], outputs).value + 1) else None
  {
    var rest := FirstHolding(rules[1..], outputs);
    if !Holds(rules[0].condition, outputs) {
      match rest
      case Some(j) =>
        assert rules[1..][j] == rules[j + 1];
        assert forall k :: 1 <= k < j + 1 ==> rules[k] == rules[1..][k - 1];
      case None =>
        assert forall k :: 1 <= k < |rules| ==> rules[k] == rules[1..][k - 1];
    }
  }

  /** Testing a list of rules tests the first and then the rest. */
  lemma TestedStep(r: Run, node: FlowNode, rules: seq<DecisionRule>)
    requires rules != []
    ensures var e := Evaluate(NodeLog(r, node, InfoLog, TestingCondition(rules[0].condition)), rules[0].condition);
            Tested(r, node, rules) == Tested(e.run, node, rules[1..]) && Tested(r, node, rules[..1]) == e.run
  {
    assert rules[..1][1..] == [];
  }

  lemma TestedPrefix(r: Run, node: FlowNode, rules: seq<DecisionRule>, j: nat)
    requires j + 1 < |rules|
    ensures var e := Evaluate(NodeLog(r, node, InfoLog, TestingCondition(rules[0].condition)), rules[0].condition);
            Tested(r, node, rules[..j + 2]) == Tested(e.run, node, rules[1..][..j + 1])
  {
    assert rules[..j + 2][1..] == rules[1..][..j + 1];
  }

  // ------------------------------------------------------------- lifecycle

  lemma OpenedShape(userInput: Option<string>, calls: nat)
    ensures var r := Opened(userInput, calls);
      r.calls == calls && r.outputs == map[] && IsRunning(r) && Quiet(r)
      && |r.execution.value.logs| == (if Given(userInput) then 3 else 2)
      && (r.execution.value.logs[0].kind == UserInputLog <==> Given(userInput))
      && r.execution.value.userInput == userInput
  {
    var initial := Fresh(userInput, calls);
    var greeted := if Given(userInput) then
                     Log(initial, "USER", "Usuário", UserInputLog, UserInputText(userInput.value),
                         Some(Obj(map["userInput" := Str(userInput.value)])), None)
                   else initial;
    if Given(userInput) {
      LogQuiet(initial, "USER", "Usuário", UserInputLog, UserInputText(userInput.value),
               Some(Obj(map["userInput" := Str(userInput.value)])), None);
    }
    var starting := SystemLog(greeted, InfoLog, RunStarting);
    LogQuiet(greeted, "SYSTEM", "Sistema", InfoLog, RunStarting, None, None);
    LogQuiet(starting, "OLLAMA", "Ollama", InfoLog, ModelLoading, None, None);
  }

  /** How a traversal ends: 'completed' exactly when it returned normally,
      'error' exactly when it failed; the end time is set, earlier entries
      are kept, the closing entry reports the outcome, and no node was
      started after a stop entry. */
  lemma TraverseCloses(env: Env, r: Run, userInput: Option<string>, fuel: nat)
    requires r.execution.Some?
    ensures var s := Traverse(env, r, userInput, fuel);
      s.run.execution.Some? && |s.run.execution.value.logs| > |r.execution.value.logs|
      && r.execution.value.logs <= s.run.execution.value.logs
      && (Quiet(r) ==> Quiet(s.run))
      && s.run.execution.value.ended
      && (s.out.Pass? <==> s.run.execution.value.status == Completed)
      && (s.out.Fail? <==> s.run.execution.value.status == Errored)
      && (s.out.Pass? ==> Last(s.run).message == RunCompleted)
      && (s.out.Fail? ==> Last(s.run).message == RunError(s.out.error))
  {
    match FindStart(env.nodes)
    case None =>
      CloseRun(r, Errored, ErrorLog, RunError(NoStartNode));
    case Some(start) =>
      var seeded := if Given(userInput) then Store(r, start.id, SeedOutput(userInput.value, env.oracle.now)) else r;
      assert Evolves(r, seeded);
      var t := FromNode(env, seeded, start.id, fuel);
      FromNodeEvolves(env, seeded, start.id, fuel);
      EvolvesTrans(r, seeded, t.run);
      if t.out.Pass? {
        CloseRun(t.run, Completed, SuccessLog, RunCompleted);
      } else {
        CloseRun(t.run, Errored, ErrorLog, RunError(t.out.error));
      }
  }

  /** The start node passes the user's input on. With an input, the state
      the traversal starts from holds `{input, timestamp}` under the start
      node's id. `executeFromNode` looks that id up again and finds the start
      node unless an earlier node shares its id; the start node's handler then
      returns exactly that record, which `Advance` stores and reports (see
      `AdvanceOrder`). Without an input, a truthy output already stored under
      the id is passed on, and otherwise a fresh 'started' record. */
  lemma StartSeeded(env: Env, r: Run, userInput: Option<string>, fuel: nat)
    requires IsRunning(r) && FindStart(env.nodes).Some? && fuel > 0
    ensures var start := FindStart(env.nodes).value;
      var now := env.oracle.now;
      var seeded := if Given(userInput) then Store(r, start.id, SeedOutput(userInput.value, now)) else r;
      var found := FindNode(env.nodes, start.id);
      start.data.nodeType == Some(Start)
      && seeded.execution == r.execution
      && (Given(userInput) ==> start.id in seeded.outputs && seeded.outputs[start.id] == SeedOutput(userInput.value, now))
      && (forall id :: id in r.outputs && id != start.id ==> id in seeded.outputs && seeded.outputs[id] == r.outputs[id])
      && (!Given(userInput) ==> seeded.outputs == r.outputs)
      && Traverse(env, r, userInput, fuel).out == FromNode(env, seeded, start.id, fuel).out
      && found.Some? && found.value.id == start.id
      && ((forall k :: 0 <= k < |env.nodes| && env.nodes[k].id == start.id ==> env.nodes[k] == start) ==> found.value == start)
      && (found.value == start ==>
            var entered := NodeLog(SetCurrent(seeded, start.id), start, NodeStartLog, NodeStarted);
            var d := Dispatch(env, entered, start, fuel - 1);
            var passed := if Given(userInput) then SeedOutput(userInput.value, now)
                          else if start.id in r.outputs && Truthy(r.outputs[start.id]) then r.outputs[start.id]
                          else Stamped("started", now);
            d.out == Ok(passed) && d.run.outputs == seeded.outputs
            && FromNode(env, seeded, start.id, fuel) == Advance(env, d.run, start, start.id, passed, fuel - 1))
  {
    var start := FindStart(env.nodes).value;
    var k :| 0 <= k < |env.nodes| && env.nodes[k] == start;
    assert env.nodes[k].id == start.id;
  }

  /** Closing a run: final status, end time, one closing entry. */
  lemma CloseRun(r: Run, status: Status, kind: LogType, message: Message)
    requires r.execution.Some? && status != Running && kind != NodeStartLog && message != StoppedByUser
    ensures var c := SystemLog(Finish(r, status), kind, message);
      c.execution.Some? && c.execution.value.logs == r.execution.value.logs + [Last(c)]
      && c.execution.value.status == status && c.execution.value.ended
      && Last(c).message == message
      && (Quiet(r) ==> Quiet(c))
  {
    if Quiet(r) {
      FinishQuiet(r, status);
      LogQuiet(Finish(r, status), "SYSTEM", "Sistema", kind, message, None, None);
    }
  }

  /** `startExecution` as a whole: the run is closed with 'completed' exactly
      when it returned normally and with 'error' exactly when it failed; its
      first entry is the user's input exactly when one was given; and no node
      was started after a stop entry. */
  lemma StartRunCloses(env: Env, calls: nat, userInput: Option<string>, fuel: nat)
    ensures var s := StartRun(env, calls, userInput, fuel);
      s.run.execution.Some? && s.run.execution.value.ended && |s.run.execution.value.logs| >= 3
      && (s.run.execution.value.logs[0].kind == UserInputLog <==> Given(userInput))
      && (s.out.Pass? <==> s.run.execution.value.status == Completed)
      && (s.out.Fail? <==> s.run.execution.value.status == Errored)
      && (s.out.Pass? ==> Last(s.run).message == RunCompleted)
      && Quiet(s.run)
  {
    var intro := Opened(userInput, calls);
    OpenedShape(userInput, calls);
    var logs0 := intro.execution.value.logs;
    if env.config.defaultModel == "" {
      TraverseCloses(env, intro, userInput, fuel);
    } else {
      var answered := Answered(env, intro, calls);
      AnsweredEvolves(env, intro);
      match env.oracle.preload(calls, env.config.defaultModel)
      case Fail(reason) =>
        var reported := ServerLog(answered, ErrorLog, ModelLoadError(reason));
        LogQuiet(answered, "OLLAMA", "Ollama", ErrorLog, ModelLoadError(reason), None, None);
        FinishQuiet(reported, Errored);
        assert logs0 <= reported.execution.value.logs;
      case Pass =>
        var loaded := ServerLog(answered, InfoLog, ModelLoaded);
        LogEvolves(answered, "OLLAMA", "Ollama", InfoLog, ModelLoaded, None, None);
        EvolvesTrans(intro, answered, loaded);
        TraverseCloses(env, loaded, userInput, fuel);
    }
  }

  /** A stop that arrives while the model is being loaded does not stop the
      run from being reported 'completed': after the opening entries the log
      holds the stop entry, the model-loaded entry and the completion entry,
      and no node ran. */
  lemma StopDuringPreloadCompletes(env: Env, calls: nat, userInput: Option<string>, fuel: nat)
    requires env.config.defaultModel != ""
    requires env.oracle.stopDuring(calls) && env.oracle.preload(calls, env.config.defaultModel) == Pass
    requires FindStart(env.nodes).Some?
    ensures var s := StartRun(env, calls, userInput, fuel);
      s.out == Pass && s.run.execution.Some? && s.run.execution.value.status == Completed
      && Opened(userInput, calls).execution.Some?
      && s.run.execution.value.logs
         == Opened(userInput, calls).execution.value.logs
            + [WorkflowLog("SYSTEM", "Sistema", InfoLog, StoppedByUser, None, None)]
            + [WorkflowLog("OLLAMA", "Ollama", InfoLog, ModelLoaded, None, None)]
            + [WorkflowLog("SYSTEM", "Sistema", SuccessLog, RunCompleted, None, None)]
  {
    var intro := Opened(userInput, calls);
    OpenedShape(userInput, calls);
    var stopped := Stop(intro.(calls := calls + 1));
    var loaded := Preload(env, intro);
    assert loaded == Step(ServerLog(stopped, InfoLog, ModelLoaded), Pass);
    var start := FindStart(env.nodes).value;
    var seeded := if Given(userInput) then Store(loaded.run, start.id, SeedOutput(userInput.value, env.oracle.now)) else loaded.run;
    assert !IsRunning(seeded);
    assert FromNode(env, seeded, start.id, fuel) == Step(seeded, Pass);
    assert StartRun(env, calls, userInput, fuel) == Step(SystemLog(Finish(seeded, Completed), SuccessLog, RunCompleted), Pass);
  }

  /** A decision node without rules announces the evaluation, reports that it
      has no rules and answers 'no_decisions'; it evaluates nothing and follows
      no edge. */
  lemma DecisionNodeWithoutRules(env: Env, r: Run, node: FlowNode, fuel: nat)
    requires node.data.decisions.GetOr([]) == []
    ensures DecisionNode(env, r, node, fuel)
            == Step(NodeLog(NodeLog(r, node, InfoLog, EvaluatingDecisions), node, InfoLog, NoDecisionRules),
                    Ok(Stamped("no_decisions", env.oracle.now)))
  {
  }

  /** The order `executeFromNode` promises once a handler has returned
      `output`: a non-null output is stored and its `node_complete` entry
      written first, then come the entries of the normal successors in edge
      order, and a failure among them is reported again under this node's
      id as the very last entry. */
  lemma AdvanceOrder(env: Env, r: Run, node: FlowNode, nodeId: string, output: Value, fuel: nat)
    requires r.execution.Some?
    ensures
      var stored := if output != Null then NodeOutputLog(Store(r, nodeId, output), node, NodeCompleteLog, NodeCompleted, output) else r;
      var next := NextNodes(env, stored, NormalTargets(env.edges, nodeId), fuel);
      var a := Advance(env, r, node, nodeId, output, fuel);
      var completed := if output != Null then [WorkflowLog(node.id, node.data.caption, NodeCompleteLog, NodeCompleted, Some(Null), Some(output))] else [];
      var failed := if next.out.Fail? then [WorkflowLog(node.id, node.data.caption, ErrorLog, NodeError(next.out.error), None, None)] else [];
      stored.outputs == (if output != Null then r.outputs[nodeId := output] else r.outputs)
      && next.run.execution.Some? && a.run.execution.Some? && a.out == next.out
      && |r.execution.value.logs| + |completed| <= |next.run.execution.value.logs|
      && a.run.execution.value.logs
         == r.execution.value.logs + completed
            + next.run.execution.value.logs[|r.execution.value.logs| + |completed|..] + failed
      && a.run.outputs == next.run.outputs
  {
    var stored := if output != Null then NodeOutputLog(Store(r, nodeId, output), node, NodeCompleteLog, NodeCompleted, output) else r;
    var next := NextNodes(env, stored, NormalTargets(env.edges, nodeId), fuel);
    NextNodesEvolves(env, stored, NormalTargets(env.edges, nodeId), fuel);
    var before, after := stored.execution.value.logs, next.run.execution.value.logs;
    assert after == before + after[|before|..];
    assert before == r.execution.value.logs + (if output != Null then [WorkflowLog(node.id, node.data.caption, NodeCompleteLog, NodeCompleted, Some(Null), Some(output))] else []);
  }

  /** A failing visit ends with this node's own error entry, whether the
      handler failed or a successor did. */
  lemma VisitFails(env: Env, r: Run, node: FlowNode, nodeId: string, fuel: nat)
    requires r.execution.Some?
    ensures var v := Visit(env, r, node, nodeId, fuel);
      v.run.execution.Some?
      && (v.out.Fail? ==> v.run.execution.value.logs != [] && Last(v.run) == WorkflowLog(node.id, node.data.caption, ErrorLog, NodeError(v.out.error), None, None))
  {
    var d := Dispatch(env, r, node, fuel);
    DispatchEvolves(env, r, node, fuel);
    match d.out
    case Err(f) =>
    case Ok(output) =>
      AdvanceOrder(env, d.run, node, nodeId, output, fuel);
  }

  /** `stopExecution` on a running execution: status 'stopped', the end time
      set, and exactly one info entry appended; in any other state nothing
      changes. */
  lemma StopShape(r: Run)
    ensures IsRunning(r) ==>
      var e := Stop(r).execution.value;
      Stop(r).execution.Some? && e.status == Stopped && e.ended
      && e.logs == r.execution.value.logs + [WorkflowLog("SYSTEM", "Sistema", InfoLog, StoppedByUser, None, None)]
      && e.currentNodeId == r.execution.value.currentNodeId
      && Stop(r).outputs == r.outputs
    ensures !IsRunning(r) ==> Stop(r) == r
  {
  }

  /** A condition of neither supported shape is false and appends exactly one
      error entry, under the id 'DECISION'; a supported one appends nothing. */
  lemma EvaluateLogs(r: Run, condition: string)
    requires r.execution.Some?
    ensures var e := Evaluate(r, condition);
      e.run.execution.Some? && e.run.outputs == r.outputs
      && if Compare(Substitute(condition, Resolver(r.outputs))).Some? then e.run == r
         else !e.out && |e.run.execution.value.logs| == |r.execution.value.logs| + 1
              && r.execution.value.logs <= e.run.execution.value.logs
              && Last(e.run).nodeId == "DECISION" && Last(e.run).kind == ErrorLog
  {
  }

  /** `stopExecution` is idempotent. */
  lemma StopIdempotent(r: Run)
    ensures Stop(Stop(r)) == Stop(r)
    ensures !IsRunning(Stop(r))
  {
  }

  function Last(r: Run): WorkflowLog
    requires r.execution.Some? && r.execution.value.logs != []
  {
    r.execution.value.logs[|r.execution.value.logs| - 1]
  }
}
