/** What the compiled edges are: exactly the links the layout counts, minus
    the dangling ones, in a fixed order, with ids and handles of a fixed form;
    and what the engine makes of them. */
module EdgeProperties {
  import opened Wrappers
  import opened FlowTypes
  import opened Layout
  import opened JsonProcessor
  import Engine

  /** The entries of `s` that name a known id, in order. */
  function Known(s: seq<string>, known: set<string>): seq<string>
    decreases |s|
  {
    if s == [] then []
    else Known(s[..|s| - 1], known) + (if s[|s| - 1] in known then [s[|s| - 1]] else [])
  }

  function Targets(edges: seq<FlowEdge>): seq<string> {
    seq(|edges|, k requires 0 <= k < |edges| => edges[k].target)
  }

  /** Targets of the connected rules whose label is empty, in rule order. */
  function Unlabelled(rules: seq<DecisionRule>, known: set<string>): seq<string>
    decreases |rules|
  {
    if rules == [] then []
    else
      var d := rules[|rules| - 1];
      Unlabelled(rules[..|rules| - 1], known) + (if Connected(d, known) && d.caption == "" then [d.targetNodeId] else [])
  }

  predicate RuleIdsUnique(rules: seq<DecisionRule>) {
    forall i, j :: 0 <= i < j < |rules| ==> rules[i].id != rules[j].id
  }

  // ------------------------------------------------------ targets and order

  lemma {:induction false} KnownConcat(a: seq<string>, b: seq<string>, known: set<string>)
    ensures Known(a + b, known) == Known(a, known) + Known(b, known)
    decreases |b|
  {
    if b == [] {
      assert a + b == a;
    } else {
      var p := b[..|b| - 1];
      assert (a + b)[..|a + b| - 1] == a + p;
      KnownConcat(a, p, known);
    }
  }

  lemma {:induction false} DecisionTargetsConcat(a: seq<DecisionRule>, b: seq<DecisionRule>)
    ensures DecisionTargets(a + b) == DecisionTargets(a) + DecisionTargets(b)
    decreases |a|
  {
    if a != [] {
      assert (a + b)[1..] == a[1..] + b;
      DecisionTargetsConcat(a[1..], b);
    } else {
      assert a + b == b;
    }
  }

  /** The `nextNodes` edges point at the known entries, in order. */
  lemma {:induction false} NextTargets(source: string, ts: seq<string>, known: set<string>)
    ensures Targets(NextEdges(source, ts, known)) == Known(ts, known)
    decreases |ts|
  {
    if ts != [] {
      NextTargets(source, ts[..|ts| - 1], known);
      var t := ts[|ts| - 1];
      var a, b := NextEdges(source, ts[..|ts| - 1], known), if t in known then [NextEdge(source, t)] else [];
      assert Targets(a + b) == Targets(a) + Targets(b);
    }
  }

  /** The decision edges point at the known non-empty rule targets, in order. */
  lemma {:induction false} RuleTargets(source: string, rules: seq<DecisionRule>, known: set<string>)
    ensures Targets(RuleEdges(source, rules, known)) == Known(DecisionTargets(rules), known)
    decreases |rules|
  {
    if rules != [] {
      var p, d := rules[..|rules| - 1], rules[|rules| - 1];
      RuleTargets(source, p, known);
      var a, b := RuleEdges(source, p, known), if Connected(d, known) then [RuleEdge(source, d)] else [];
      assert Targets(a + b) == Targets(a) + Targets(b);
      assert rules == p + [d];
      DecisionTargetsConcat(p, [d]);
      assert DecisionTargets([d]) == if d.targetNodeId != "" then [d.targetNodeId] else [];
      KnownConcat(DecisionTargets(p), DecisionTargets([d]), known);
    }
  }

  /** A node's edges point, in order and with multiplicity, at exactly the
      links the layout counts for it that name a known id: every link but a
      dangling one gets its own edge. */
  lemma NodeEdgeTargets(n: JsonNodeData, known: set<string>)
    ensures Targets(NodeEdges(n, known)) == Known(Links(n), known)
  {
    NextTargets(n.id, n.nextNodes.GetOr([]), known);
    RuleTargets(n.id, n.decisions.GetOr([]), known);
    var a, b := NextEdges(n.id, n.nextNodes.GetOr([]), known), RuleEdges(n.id, n.decisions.GetOr([]), known);
    assert Targets(a + b) == Targets(a) + Targets(b);
    KnownConcat(n.nextNodes.GetOr([]), DecisionTargets(n.decisions.GetOr([])), known);
  }

  // --------------------------------------------------------------- shapes

  /** A `nextNodes` edge is the edge of a known entry, and every known entry
      has its edge. */
  lemma {:induction false} NextEdgesShape(source: string, ts: seq<string>, known: set<string>)
    ensures forall e :: e in NextEdges(source, ts, known) ==> e == NextEdge(source, e.target) && e.target in ts && e.target in known
    ensures forall t :: t in ts && t in known ==> NextEdge(source, t) in NextEdges(source, ts, known)
    decreases |ts|
  {
    if ts != [] {
      var p := ts[..|ts| - 1];
      NextEdgesShape(source, p, known);
      assert ts == p + [ts[|ts| - 1]];
    }
  }

  /** A decision edge is the edge of a connected rule, and every connected
      rule has its edge. */
  lemma {:induction false} RuleEdgesShape(source: string, rules: seq<DecisionRule>, known: set<string>)
    ensures forall e :: e in RuleEdges(source, rules, known) ==>
              exists j :: 0 <= j < |rules| && Connected(rules[j], known) && e == RuleEdge(source, rules[j])
    ensures forall j :: 0 <= j < |rules| && Connected(rules[j], known) ==> RuleEdge(source, rules[j]) in RuleEdges(source, rules, known)
    decreases |rules|
  {
    if rules != [] {
      var p := rules[..|rules| - 1];
      RuleEdgesShape(source, p, known);
      forall e | e in RuleEdges(source, rules, known)
        ensures exists j :: 0 <= j < |rules| && Connected(rules[j], known) && e == RuleEdge(source, rules[j])
      {
        if e in RuleEdges(source, p, known) {
          var j :| 0 <= j < |p| && Connected(p[j], known) && e == RuleEdge(source, p[j]);
          assert rules[j] == p[j];
        } else {
          assert e == RuleEdge(source, rules[|rules| - 1]);
        }
      }
      forall j | 0 <= j < |rules| && Connected(rules[j], known) ensures RuleEdge(source, rules[j]) in RuleEdges(source, rules, known) {
        if j < |p| {
          assert rules[j] == p[j];
        }
      }
    }
  }

  /** Lines 40-70 for one node: its edges leave it and reach a known id; the
      `nextNodes` edges come first, unlabelled, without a handle and with id
      `source-target`; the decision edges follow, each labelled, on the handle
      of its rule and with id `source-target-rule`. */
  lemma NodeEdgeOrder(n: JsonNodeData, known: set<string>)
    ensures var edges, m := NodeEdges(n, known), |NextEdges(n.id, n.nextNodes.GetOr([]), known)|;
            m <= |edges|
            && (forall i :: 0 <= i < |edges| ==> edges[i].source == n.id && edges[i].target in known)
            && (forall i :: 0 <= i < m ==>
                  edges[i].caption.None? && edges[i].sourceHandle.None? && edges[i].id == n.id + "-" + edges[i].target)
            && (forall i :: m <= i < |edges| ==>
                  edges[i].caption.Some? && edges[i].sourceHandle.Some? && edges[i].target != ""
                  && edges[i].id == n.id + "-" + edges[i].target + "-" + edges[i].sourceHandle.value)
  {
    var next, rules := NextEdges(n.id, n.nextNodes.GetOr([]), known), RuleEdges(n.id, n.decisions.GetOr([]), known);
    NextEdgesShape(n.id, n.nextNodes.GetOr([]), known);
    RuleEdgesShape(n.id, n.decisions.GetOr([]), known);
    var edges := next + rules;
    forall i | 0 <= i < |edges|
      ensures edges[i].source == n.id && edges[i].target in known
      ensures i < |next| ==> edges[i].caption.None? && edges[i].sourceHandle.None? && edges[i].id == n.id + "-" + edges[i].target
      ensures i >= |next| ==> (edges[i].caption.Some? && edges[i].sourceHandle.Some? && edges[i].target != ""
                                && edges[i].id == n.id + "-" + edges[i].target + "-" + edges[i].sourceHandle.value)
    {
      if i < |next| {
        assert edges[i] == next[i] && next[i] in next;
      } else {
        assert edges[i] == rules[i - |next|] && rules[i - |next|] in rules;
      }
    }
  }

  // ----------------------------------------------------- the whole edge list

  lemma {:induction false} CompiledSplit(a: seq<JsonNodeData>, b: seq<JsonNodeData>, known: set<string>)
    ensures CompiledEdges(a + b, known) == CompiledEdges(a, known) + CompiledEdges(b, known)
    decreases |b|
  {
    if b == [] {
      assert a + b == a;
    } else {
      var p := b[..|b| - 1];
      var last := b[|b| - 1];
      assert (a + b)[..|a + b| - 1] == a + p && (a + b)[|a + b| - 1] == last;
      calc {
        CompiledEdges(a + b, known);
        CompiledEdges(a + p, known) + NodeEdges(last, known);
        { CompiledSplit(a, p, known); }
        (CompiledEdges(a, known) + CompiledEdges(p, known)) + NodeEdges(last, known);
        CompiledEdges(a, known) + (CompiledEdges(p, known) + NodeEdges(last, known));
        CompiledEdges(a, known) + CompiledEdges(b, known);
      }
    }
  }

  /** Every compiled edge comes from one of the nodes. */
  lemma {:induction false} CompiledFrom(nodes: seq<JsonNodeData>, known: set<string>)
    ensures forall e :: e in CompiledEdges(nodes, known) ==> exists k :: 0 <= k < |nodes| && e in NodeEdges(nodes[k], known)
    decreases |nodes|
  {
    if nodes != [] {
      var p := nodes[..|nodes| - 1];
      CompiledFrom(p, known);
      forall e | e in CompiledEdges(nodes, known) ensures exists k :: 0 <= k < |nodes| && e in NodeEdges(nodes[k], known) {
        if e in CompiledEdges(p, known) {
          var k :| 0 <= k < |p| && e in NodeEdges(p[k], known);
          assert p[k] == nodes[k];
        } else {
          assert e in NodeEdges(nodes[|nodes| - 1], known);
        }
      }
    }
  }

  /** Every edge of every node is compiled. */
  lemma CompiledHas(nodes: seq<JsonNodeData>, known: set<string>, k: nat)
    requires k < |nodes|
    ensures forall e :: e in NodeEdges(nodes[k], known) ==> e in CompiledEdges(nodes, known)
  {
    assert nodes == nodes[..k] + [nodes[k]] + nodes[k + 1..];
    CompiledSplit(nodes[..k] + [nodes[k]], nodes[k + 1..], known);
    CompiledSplit(nodes[..k], [nodes[k]], known);
    assert [nodes[k]][..0] == [];
  }

  /** With the ids of the nodes as the known ids no edge dangles: every edge
      joins two given ids. */
  lemma NoDanglingEdges(nodes: seq<JsonNodeData>)
    ensures forall e :: e in CompiledEdges(nodes, IdSet(nodes)) ==> e.source in IdSet(nodes) && e.target in IdSet(nodes)
  {
    CompiledFrom(nodes, IdSet(nodes));
    forall e | e in CompiledEdges(nodes, IdSet(nodes)) ensures e.source in IdSet(nodes) && e.target in IdSet(nodes) {
      var k :| 0 <= k < |nodes| && e in NodeEdges(nodes[k], IdSet(nodes));
      EdgeSource(nodes[k], IdSet(nodes), e);
    }
  }

  // ------------------------------------------------------ what the engine sees

  lemma {:induction false} NormalTargetsConcat(a: seq<FlowEdge>, b: seq<FlowEdge>, id: string)
    ensures Engine.NormalTargets(a + b, id) == Engine.NormalTargets(a, id) + Engine.NormalTargets(b, id)
    decreases |a|
  {
    if a == [] {
      assert a + b == b;
    } else {
      assert (a + b)[1..] == a[1..] + b;
      NormalTargetsConcat(a[1..], b, id);
    }
  }

  lemma {:induction false} NormalTargetsForeign(edges: seq<FlowEdge>, id: string)
    requires forall e :: e in edges ==> e.source != id
    ensures Engine.NormalTargets(edges, id) == []
    decreases |edges|
  {
    if edges != [] {
      NormalTargetsForeign(edges[1..], id);
    }
  }

  lemma {:induction false} NextNormal(id: string, ts: seq<string>, known: set<string>)
    ensures Engine.NormalTargets(NextEdges(id, ts, known), id) == Known(ts, known)
    decreases |ts|
  {
    if ts != [] {
      var t := ts[|ts| - 1];
      NextNormal(id, ts[..|ts| - 1], known);
      NormalTargetsConcat(NextEdges(id, ts[..|ts| - 1], known), if t in known then [NextEdge(id, t)] else [], id);
    }
  }

  lemma {:induction false} RuleNormal(id: string, rules: seq<DecisionRule>, known: set<string>)
    ensures Engine.NormalTargets(RuleEdges(id, rules, known), id) == Unlabelled(rules, known)
    decreases |rules|
  {
    if rules != [] {
      var d := rules[|rules| - 1];
      RuleNormal(id, rules[..|rules| - 1], known);
      NormalTargetsConcat(RuleEdges(id, rules[..|rules| - 1], known), if Connected(d, known) then [RuleEdge(id, d)] else [], id);
    }
  }

  /** The edges of the other nodes do not leave the node at `k`. */
  lemma Foreign(nodes: seq<JsonNodeData>, known: set<string>, k: nat, lo: nat, hi: nat)
    requires UniqueIds(nodes) && k < |nodes| && lo <= hi <= |nodes| && (k < lo || hi <= k)
    ensures forall e :: e in CompiledEdges(nodes[lo..hi], known) ==> e.source != nodes[k].id
  {
    var part := nodes[lo..hi];
    CompiledFrom(part, known);
    forall e | e in CompiledEdges(part, known) ensures e.source != nodes[k].id {
      var i :| 0 <= i < |part| && e in NodeEdges(part[i], known);
      EdgeSource(part[i], known, e);
      assert part[i] == nodes[lo + i];
      assert Ids(nodes)[lo + i] != Ids(nodes)[k];
    }
  }

  /** The compiled edges around the node at `k`. */
  lemma CompiledAround(nodes: seq<JsonNodeData>, known: set<string>, k: nat)
    requires k < |nodes|
    ensures CompiledEdges(nodes, known)
              == CompiledEdges(nodes[..k], known) + NodeEdges(nodes[k], known) + CompiledEdges(nodes[k + 1..], known)
  {
    assert nodes == nodes[..k] + [nodes[k]] + nodes[k + 1..];
    CompiledSplit(nodes[..k] + [nodes[k]], nodes[k + 1..], known);
    CompiledSplit(nodes[..k], [nodes[k]], known);
    assert [nodes[k]][..0] == [];
  }

  /** The normal edges leaving a node among its own edges. */
  lemma NodeNormal(n: JsonNodeData, known: set<string>)
    ensures Engine.NormalTargets(NodeEdges(n, known), n.id) == Known(n.nextNodes.GetOr([]), known) + Unlabelled(n.decisions.GetOr([]), known)
  {
    NormalTargetsConcat(NextEdges(n.id, n.nextNodes.GetOr([]), known), RuleEdges(n.id, n.decisions.GetOr([]), known), n.id);
    NextNormal(n.id, n.nextNodes.GetOr([]), known);
    RuleNormal(n.id, n.decisions.GetOr([]), known);
  }

  /** workflowExecutor.ts lines 310-319 over the compiled edges: after a node
      is done, the engine follows its known `nextNodes` entries in order and
      then the connected decision rules whose label is empty (those edges
      carry an empty label, which the engine does not tell from none). */
  lemma EngineFollows(nodes: seq<JsonNodeData>, known: set<string>, k: nat)
    requires UniqueIds(nodes) && k < |nodes|
    ensures Engine.NormalTargets(CompiledEdges(nodes, known), nodes[k].id)
              == Known(nodes[k].nextNodes.GetOr([]), known) + Unlabelled(nodes[k].decisions.GetOr([]), known)
  {
    var id := nodes[k].id;
    var before, own, after := CompiledEdges(nodes[..k], known), NodeEdges(nodes[k], known), CompiledEdges(nodes[k + 1..], known);
    assert CompiledEdges(nodes, known) == before + own + after by {
      CompiledAround(nodes, known, k);
    }
    assert Engine.NormalTargets(before, id) == [] by {
      assert nodes[0..k] == nodes[..k];
      Foreign(nodes, known, k, 0, k);
      NormalTargetsForeign(before, id);
    }
    assert Engine.NormalTargets(after, id) == [] by {
      assert nodes[k + 1..|nodes|] == nodes[k + 1..];
      Foreign(nodes, known, k, k + 1, |nodes|);
      NormalTargetsForeign(after, id);
    }
    NormalTargetsConcat(before + own, after, id);
    NormalTargetsConcat(before, own, id);
    NodeNormal(nodes[k], known);
  }

  /** A compiled edge on the handle of rule `j` of node `k` is that rule's
      edge. */
  lemma HandleOwner(nodes: seq<JsonNodeData>, known: set<string>, k: nat, j: nat, e: FlowEdge)
    requires UniqueIds(nodes) && k < |nodes|
    requires RuleIdsUnique(nodes[k].decisions.GetOr([])) && j < |nodes[k].decisions.GetOr([])|
    requires e in CompiledEdges(nodes, known)
    requires e.source == nodes[k].id && e.sourceHandle == Some(nodes[k].decisions.GetOr([])[j].id)
    ensures Connected(nodes[k].decisions.GetOr([])[j], known) && e == RuleEdge(nodes[k].id, nodes[k].decisions.GetOr([])[j])
  {
    var rules := nodes[k].decisions.GetOr([]);
    CompiledFrom(nodes, known);
    var i :| 0 <= i < |nodes| && e in NodeEdges(nodes[i], known);
    EdgeSource(nodes[i], known, e);
    assert Ids(nodes)[i] == Ids(nodes)[k];
    assert i == k;
    var next := NextEdges(nodes[k].id, nodes[k].nextNodes.GetOr([]), known);
    var ruleEdges := RuleEdges(nodes[k].id, rules, known);
    NextEdgesShape(nodes[k].id, nodes[k].nextNodes.GetOr([]), known);
    assert e !in next;
    assert e in ruleEdges;
    RuleEdgesShape(nodes[k].id, rules, known);
    var j' :| 0 <= j' < |rules| && Connected(rules[j'], known) && e == RuleEdge(nodes[k].id, rules[j']);
    assert rules[j'].id == rules[j].id;
    assert j' == j;
  }

  /** workflowExecutor.ts lines 243-262 over the compiled edges: when rule `j` of node `k` holds,
      the engine finds exactly that rule's edge if the rule is connected, and
      no edge (the "not connected" branch) if its target is empty or unknown. */
  lemma EngineFindsRuleEdge(nodes: seq<JsonNodeData>, known: set<string>, k: nat, j: nat)
    requires UniqueIds(nodes) && k < |nodes|
    requires RuleIdsUnique(nodes[k].decisions.GetOr([])) && j < |nodes[k].decisions.GetOr([])|
    ensures var rule := nodes[k].decisions.GetOr([])[j];
            Engine.FindDecisionEdge(CompiledEdges(nodes, known), nodes[k].id, rule.id)
              == if Connected(rule, known) then Some(RuleEdge(nodes[k].id, rule)) else None
  {
    var rules := nodes[k].decisions.GetOr([]);
    var edges := CompiledEdges(nodes, known);
    var found := Engine.FindDecisionEdge(edges, nodes[k].id, rules[j].id);
    if found.Some? {
      var i :| 0 <= i < |edges| && edges[i] == found.value
               && found.value.source == nodes[k].id && found.value.sourceHandle == Some(rules[j].id);
      HandleOwner(nodes, known, k, j, found.value);
    } else if Connected(rules[j], known) {
      RuleEdgePresent(nodes, known, k, j);
    }
  }

  /** A connected rule's edge is in the edge list. */
  lemma RuleEdgePresent(nodes: seq<JsonNodeData>, known: set<string>, k: nat, j: nat)
    requires k < |nodes| && j < |nodes[k].decisions.GetOr([])| && Connected(nodes[k].decisions.GetOr([])[j], known)
    ensures exists i :: 0 <= i < |CompiledEdges(nodes, known)|
              && CompiledEdges(nodes, known)[i] == RuleEdge(nodes[k].id, nodes[k].decisions.GetOr([])[j])
  {
    var rules := nodes[k].decisions.GetOr([]);
    RuleEdgesShape(nodes[k].id, rules, known);
    CompiledHas(nodes, known, k);
    var e := RuleEdge(nodes[k].id, rules[j]);
    assert e in NodeEdges(nodes[k], known);
    assert e in CompiledEdges(nodes, known);
  }

  /** An edge of a node leaves it and reaches a known id. */
  lemma EdgeSource(n: JsonNodeData, known: set<string>, e: FlowEdge)
    requires e in NodeEdges(n, known)
    ensures e.source == n.id && e.target in known
  {
    NextEdgesShape(n.id, n.nextNodes.GetOr([]), known);
    RuleEdgesShape(n.id, n.decisions.GetOr([]), known);
    if e !in NextEdges(n.id, n.nextNodes.GetOr([]), known) {
      var j :| 0 <= j < |n.decisions.GetOr([])| && Connected(n.decisions.GetOr([])[j], known)
               && e == RuleEdge(n.id, n.decisions.GetOr([])[j]);
    }
  }
}
