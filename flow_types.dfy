/** The records of the workflow editor and engine: the JSON node format, the
    canvas node and edge, decision rules, the execution record and its log. */
module FlowTypes {
  import opened Wrappers
  import opened JsonValue

  /** The five step kinds; an absent kind is `None` where the type is optional. */
  datatype NodeType = Start | Agentic | Decision | Memory | End

  datatype Highlight = Violet | Red | Green | Blue | Default

  /** A conditional branch of a decision node; `id` doubles as the edge handle.
      `caption` is the source's `label` (a reserved word here). */
  datatype DecisionRule = DecisionRule(id: string, condition: string, caption: string, targetNodeId: string)

  /** One node of the JSON import format. */
  datatype JsonNodeData = JsonNodeData(
    id: string,
    name: string,
    summary: Option<string>,
    systemPrompt: Option<string>,
    userPrompt: Option<string>,
    outputFormat: Option<string>,
    context: Option<string>,
    highlight: Option<Highlight>,
    nodeType: Option<NodeType>,
    nextNodes: Option<seq<string>>,
    decisions: Option<seq<DecisionRule>>)

  datatype Position = Position(x: int, y: int)

  datatype FlowNodeData = FlowNodeData(
    caption: string,
    summary: Option<string>,
    systemPrompt: Option<string>,
    userPrompt: Option<string>,
    outputFormat: Option<string>,
    context: Option<string>,
    highlight: Option<Highlight>,
    nodeType: Option<NodeType>,
    originalData: JsonNodeData,
    decisions: Option<seq<DecisionRule>>)

  /** A node on the canvas, as the engine receives it. */
  datatype FlowNode = FlowNode(id: string, position: Position, data: FlowNodeData)

  /** An edge; a `caption` (the source's `label`) marks a decision edge, `sourceHandle` names its rule. */
  datatype FlowEdge = FlowEdge(id: string, source: string, target: string, caption: Option<string>, sourceHandle: Option<string>)

  datatype WorkflowConfig = WorkflowConfig(defaultModel: string, ollamaAddress: string, availableModels: seq<string>)

  datatype GraphMetrics = GraphMetrics(nodeCount: nat, edgeCount: nat, maxDepth: nat, clusters: nat)

  /** Run status; `Errored` is the source's 'error'. */
  datatype Status = Running | Stopped | Completed | Errored

  /** The `type` of a log entry: 'info', 'error', 'success', 'node_start',
      'node_complete', 'user_input', 'database', 'warning'. */
  datatype LogType = InfoLog | ErrorLog | SuccessLog | NodeStartLog | NodeCompleteLog | UserInputLog | DatabaseLog | WarningLog

  /** The error a run can be aborted with (the `Error` the engine throws). */
  datatype Fault =
    | NoStartNode
    | NodeNotFound(nodeId: string)
    | UnknownNodeType
    | ModelLoadFailed(reason: string)
    | GenerationFailed(reason: string)
    | DepthExhausted

  /** What a log entry says: one variant per message the engine writes,
      carrying the data the message interpolates. */
  datatype Message =
    | UserInputText(text: string)
    | RunStarting
    | ModelLoading
    | ModelLoaded
    | ModelLoadError(reason: string)
    | RunCompleted
    | RunError(fault: Fault)
    | StoppedByUser
    | NodeStarted
    | NodeCompleted
    | NodeError(fault: Fault)
    | StartProcessed
    | NoPrompts
    | PreparingPrompts
    | ConnectingModel
    | SendingRequest
    | ProcessingResponse
    | ResponseReceived
    | ModelError(reason: string)
    | EvaluatingDecisions
    | TestingCondition(condition: string)
    | DecisionTaken(caption: string)
    | DecisionUnconnected(caption: string)
    | NoConditionMet
    | NoDecisionRules
    | StoringContext(context: string)
    | ContextStored
    | EndReached
    | WorkflowFinished
    | UnsupportedCondition(condition: string, processed: string)

  datatype WorkflowLog = WorkflowLog(
    nodeId: string,
    nodeName: string,
    kind: LogType,
    message: Message,
    input: Option<Value>,
    output: Option<Value>)

  /** The run record; `ended` says whether `endTime` has been set. */
  datatype WorkflowExecution = WorkflowExecution(
    status: Status,
    currentNodeId: Option<string>,
    ended: bool,
    logs: seq<WorkflowLog>,
    userInput: Option<string>)

  /** `!!s` for an optional string: present and non-empty. */
  predicate Given(s: Option<string>) {
    s.Some? && s.value != ""
  }
}
