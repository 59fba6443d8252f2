/** The JSON importer (`processJsonToFlow`): canvas nodes from the layout, with
    their defaults, and the edges the engine follows, compiled from each node's
    `nextNodes` and `decisions`. */
module JsonProcessor {
  import opened Wrappers
  import opened FlowTypes
  import opened Layout
  import Engine

  // ------------------------------------------------------------ canvas nodes

  /** Lines 19-35: the canvas node for a laid-out import node. The caption is
      the name; an absent kind, highlight or rule list takes its default. */
  function ToFlowNode(p: Placed): FlowNode {
    var n := p.node;
    FlowNode(n.id, p.position,
      FlowNodeData(n.name, n.summary, n.systemPrompt, n.userPrompt, n.outputFormat, n.context,
                   Some(n.highlight.GetOr(Default)), Some(n.nodeType.GetOr(Agentic)), n, Some(n.decisions.GetOr([]))))
  }

  /** The laid-out node a canvas node was made from. */
  function FromFlowNode(f: FlowNode): Placed {
    Placed(f.data.originalData, f.position)
  }

  function FlowIds(flowNodes: seq<FlowNode>): seq<string> {
    seq(|flowNodes|, k requires 0 <= k < |flowNodes| => flowNodes[k].id)
  }

  /** A canvas node keeps its import node and its position: nothing is lost. */
  lemma FlowNodeRoundTrip(p: Placed)
    ensures FromFlowNode(ToFlowNode(p)) == p
    ensures ToFlowNode(p).id == p.node.id
  {
  }

  /** A canvas node always has a kind, a highlight and a rule list; each is the
      declared one when there is one and 'agentic', 'default' and `[]`
      otherwise. */
  lemma FlowNodeDefaults(p: Placed)
    ensures ToFlowNode(p).data.nodeType.Some? && ToFlowNode(p).data.highlight.Some? && ToFlowNode(p).data.decisions.Some?
    ensures p.node.nodeType.Some? ==> ToFlowNode(p).data.nodeType == p.node.nodeType
    ensures p.node.nodeType.None? ==> ToFlowNode(p).data.nodeType == Some(Agentic)
    ensures p.node.highlight.Some? ==> ToFlowNode(p).data.highlight == p.node.highlight
    ensures p.node.highlight.None? ==> ToFlowNode(p).data.highlight == Some(Default)
    ensures p.node.decisions.Some? ==> ToFlowNode(p).data.decisions == p.node.decisions
    ensures p.node.decisions.None? ==> ToFlowNode(p).data.decisions == Some([])
    ensures ToFlowNode(p).data.caption == p.node.name
  {
  }

  /** An imported node declared without a kind is run as an agentic node: the
      engine's "unknown type" branch is never reached through the importer. */
  lemma UntypedRunsAgentic(env: Engine.Env, r: Engine.Run, p: Placed, fuel: nat)
    requires p.node.nodeType.None?
    ensures Engine.Dispatch(env, r, ToFlowNode(p), fuel) == Engine.AgenticNode(env, r, ToFlowNode(p))
    ensures Engine.Dispatch(env, r, ToFlowNode(p), fuel).out != Err(UnknownNodeType)
  {
  }

  /** Lines 18-37: one canvas node per laid-out node, in layout order. */
  method ConvertNodes(placed: seq<Placed>) returns (flowNodes: seq<FlowNode>)
    ensures |flowNodes| == |placed|
    ensures forall i :: 0 <= i < |placed| ==> flowNodes[i] == ToFlowNode(placed[i])
  {
    flowNodes := [];
    for i := 0 to |placed|
      invariant |flowNodes| == i
      invariant forall k :: 0 <= k < i ==> flowNodes[k] == ToFlowNode(placed[k])
    {
      flowNodes := flowNodes + [ToFlowNode(placed[i])];
    }
  }

  /** Lines 10-12: the lookup map, the last node given with an id winning. */
  method MapById(nodes: seq<JsonNodeData>) returns (nodeMap: map<string, JsonNodeData>)
    ensures nodeMap == NodeMap(nodes)
  {
    nodeMap := map[];
    for i := 0 to |nodes|
      invariant nodeMap == NodeMap(nodes[..i])
    {
      assert nodes[..i + 1][..i] == nodes[..i];
      nodeMap := nodeMap[nodes[i].id := nodes[i]];
    }
    assert nodes[..|nodes|] == nodes;
  }

  // ------------------------------------------------------------------ edges

  /** Lines 44-49: the edge of a `nextNodes` entry. */
  function NextEdge(source: string, target: string): FlowEdge {
    FlowEdge(source + "-" + target, source, target, None, None)
  }

  /** Lines 59-66: the edge of a decision rule, on the rule's handle. */
  function RuleEdge(source: string, rule: DecisionRule): FlowEdge {
    FlowEdge(source + "-" + rule.targetNodeId + "-" + rule.id, source, rule.targetNodeId, Some(rule.caption), Some(rule.id))
  }

  /** Line 58: a rule gets an edge when its target is non-empty and known. */
  predicate Connected(rule: DecisionRule, known: set<string>) {
    rule.targetNodeId != "" && rule.targetNodeId in known
  }

  /** Lines 41-53: one edge per `nextNodes` entry that names a known id. */
  function NextEdges(source: string, targets: seq<string>, known: set<string>): seq<FlowEdge>
    decreases |targets|
  {
    if targets == [] then []
    else
      var t := targets[|targets| - 1];
      NextEdges(source, targets[..|targets| - 1], known) + (if t in known then [NextEdge(source, t)] else [])
  }

  /** Lines 56-70: one edge per connected decision rule. */
  function RuleEdges(source: string, rules: seq<DecisionRule>, known: set<string>): seq<FlowEdge>
    decreases |rules|
  {
    if rules == [] then []
    else
      var d := rules[|rules| - 1];
      RuleEdges(source, rules[..|rules| - 1], known) + (if Connected(d, known) then [RuleEdge(source, d)] else [])
  }

  /** The edges of one node: its `nextNodes` edges, then its decision edges. */
  function NodeEdges(n: JsonNodeData, known: set<string>): seq<FlowEdge> {
    NextEdges(n.id, n.nextNodes.GetOr([]), known) + RuleEdges(n.id, n.decisions.GetOr([]), known)
  }

  /** Lines 40-71: the edges of every node, in node order. */
  function CompiledEdges(nodes: seq<JsonNodeData>, known: set<string>): seq<FlowEdge>
    decreases |nodes|
  {
    if nodes == [] then []
    else CompiledEdges(nodes[..|nodes| - 1], known) + NodeEdges(nodes[|nodes| - 1], known)
  }

  /** Lines 42-52 for one node. */
  method AddNextEdges(edges: seq<FlowEdge>, source: string, targets: seq<string>, nodeMap: map<string, JsonNodeData>)
    returns (added: seq<FlowEdge>)
    ensures added == edges + NextEdges(source, targets, nodeMap.Keys)
  {
    added := edges;
    for j := 0 to |targets|
      invariant added == edges + NextEdges(source, targets[..j], nodeMap.Keys)
    {
      assert targets[..j + 1][..j] == targets[..j];
      var nextNodeId := targets[j];
      if nextNodeId in nodeMap {
        added := added + [FlowEdge(source + "-" + nextNodeId, source, nextNodeId, None, None)];
      }
    }
    assert targets[..|targets|] == targets;
  }

  /** Lines 57-69 for one node. */
  method AddRuleEdges(edges: seq<FlowEdge>, source: string, rules: seq<DecisionRule>, nodeMap: map<string, JsonNodeData>)
    returns (added: seq<FlowEdge>)
    ensures added == edges + RuleEdges(source, rules, nodeMap.Keys)
  {
    added := edges;
    for j := 0 to |rules|
      invariant added == edges + RuleEdges(source, rules[..j], nodeMap.Keys)
    {
      assert rules[..j + 1][..j] == rules[..j];
      var decision := rules[j];
      if decision.targetNodeId != "" && decision.targetNodeId in nodeMap {
        added := added + [FlowEdge(source + "-" + decision.targetNodeId + "-" + decision.id, source, decision.targetNodeId,
                                   Some(decision.caption), Some(decision.id))];
      }
    }
    assert rules[..|rules|] == rules;
  }

  /** Concatenation regroups freely; the edge loop below appends in two steps. */
  lemma Associative<T>(a: seq<T>, b: seq<T>, c: seq<T>)
    ensures (a + b) + c == a + (b + c)
  {
  }

  /** Lines 40-71: the edge list. */
  method CompileEdges(nodes: seq<JsonNodeData>, nodeMap: map<string, JsonNodeData>) returns (edges: seq<FlowEdge>)
    ensures edges == CompiledEdges(nodes, nodeMap.Keys)
  {
    edges := [];
    for i := 0 to |nodes|
      invariant edges == CompiledEdges(nodes[..i], nodeMap.Keys)
    {
      var nodeData := nodes[i];
      assert CompiledEdges(nodes[..i + 1], nodeMap.Keys) == CompiledEdges(nodes[..i], nodeMap.Keys) + NodeEdges(nodeData, nodeMap.Keys) by {
        assert nodes[..i + 1][..i] == nodes[..i] && nodes[..i + 1][i] == nodeData;
      }
      ghost var before := edges;
      if nodeData.nextNodes.Some? {
        edges := AddNextEdges(edges, nodeData.id, nodeData.nextNodes.value, nodeMap);
      }
      ghost var withNext := edges;
      assert withNext == before + NextEdges(nodeData.id, nodeData.nextNodes.GetOr([]), nodeMap.Keys);
      if nodeData.decisions.Some? {
        edges := AddRuleEdges(edges, nodeData.id, nodeData.decisions.value, nodeMap);
      }
      assert edges == withNext + RuleEdges(nodeData.id, nodeData.decisions.GetOr([]), nodeMap.Keys);
      assert edges == before + NodeEdges(nodeData, nodeMap.Keys) by {
        var next := NextEdges(nodeData.id, nodeData.nextNodes.GetOr([]), nodeMap.Keys);
        var rules := RuleEdges(nodeData.id, nodeData.decisions.GetOr([]), nodeMap.Keys);
        Associative(before, next, rules);
      }
    }
    assert nodes[..|nodes|] == nodes;
  }

  /** Lines 4-74: `processJsonToFlow`. The canvas nodes are the layout's
      nodes in layout order, each carrying the last import node given with its
      id; with unique ids there is one per import node. The edges are the
      compiled edges over the known ids. */
  method ProcessJsonToFlow(nodes: seq<JsonNodeData>) returns (flowNodes: seq<FlowNode>, edges: seq<FlowEdge>,
                                                             ghost layers: seq<seq<string>>, ghost settled: nat)
    ensures Laid(nodes, layers, settled) && layers[..settled] == KahnLayersOf(nodes)
    ensures |flowNodes| == |Place(layers, NodeMap(nodes))|
    ensures forall i :: 0 <= i < |flowNodes| ==> FromFlowNode(flowNodes[i]) == Place(layers, NodeMap(nodes))[i]
    ensures forall i :: 0 <= i < |flowNodes| ==> flowNodes[i] == ToFlowNode(Place(layers, NodeMap(nodes))[i])
    ensures forall i :: 0 <= i < |flowNodes| ==>
              flowNodes[i].id in NodeMap(nodes) && flowNodes[i].data.originalData == NodeMap(nodes)[flowNodes[i].id]
    ensures UniqueIds(nodes) ==> |flowNodes| == |nodes| && NoDup(FlowIds(flowNodes)) && Elems(FlowIds(flowNodes)) == IdSet(nodes)
    ensures edges == CompiledEdges(nodes, IdSet(nodes))
  {
    var nodeMap := MapById(nodes);
    var layouted;
    layouted, layers, settled := CalculateHierarchicalLayout(nodes);
    flowNodes := ConvertNodes(layouted);
    Converted(nodes, layouted, flowNodes);
    edges := CompileEdges(nodes, nodeMap);
  }

  /** Converting placed nodes keeps each one's import node, position and id. */
  lemma Converted(nodes: seq<JsonNodeData>, placed: seq<Placed>, flowNodes: seq<FlowNode>)
    requires |flowNodes| == |placed| && forall i :: 0 <= i < |placed| ==> flowNodes[i] == ToFlowNode(placed[i])
    requires forall i :: 0 <= i < |placed| ==>
               placed[i].node.id in NodeMap(nodes) && placed[i].node == NodeMap(nodes)[placed[i].node.id]
    ensures forall i :: 0 <= i < |flowNodes| ==> FromFlowNode(flowNodes[i]) == placed[i]
    ensures forall i :: 0 <= i < |flowNodes| ==>
              flowNodes[i].id in NodeMap(nodes) && flowNodes[i].data.originalData == NodeMap(nodes)[flowNodes[i].id]
    ensures FlowIds(flowNodes) == PlacedIds(placed)
  {
  }
}
