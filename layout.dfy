/** The left-to-right hierarchical layout of the JSON importer
    (`calculateHierarchicalLayout`): Kahn-style layering by counted in-degree,
    cycle nodes in overflow layers of five, and exact integer positions. */
module Layout {
  import opened Wrappers
  import opened FlowTypes

  /** A node of the import format with its canvas position (the source's
      `JsonNodeData & { position }`). */
  datatype Placed = Placed(node: JsonNodeData, position: Position)

  const LayerWidth: int := 300
  const NodeHeight: int := 180

  // ------------------------------------------------------------ node lists

  function Min(a: int, b: int): int {
    if a <= b then a else b
  }

  function Ids(nodes: seq<JsonNodeData>): seq<string> {
    seq(|nodes|, k requires 0 <= k < |nodes| => nodes[k].id)
  }

  function IdSet(nodes: seq<JsonNodeData>): set<string> {
    set k | 0 <= k < |nodes| :: nodes[k].id
  }

  function Elems(s: seq<string>): set<string> {
    set x | x in s
  }

  predicate NoDup(s: seq<string>) {
    forall i, j :: 0 <= i < j < |s| ==> s[i] != s[j]
  }

  predicate UniqueIds(nodes: seq<JsonNodeData>) {
    NoDup(Ids(nodes))
  }

  /** Non-empty decision targets, in rule order (an empty `targetNodeId` is falsy). */
  function DecisionTargets(rules: seq<DecisionRule>): seq<string> {
    if rules == [] then []
    else (if rules[0].targetNodeId != "" then [rules[0].targetNodeId] else []) + DecisionTargets(rules[1..])
  }

  /** The ids a node points at, in the order the layering visits them:
      `nextNodes`, then the non-empty decision targets. */
  function Links(n: JsonNodeData): seq<string> {
    n.nextNodes.GetOr([]) + DecisionTargets(n.decisions.GetOr([]))
  }

  function Occurrences(t: string, s: seq<string>): nat
    decreases |s|
  {
    if s == [] then 0
    else Occurrences(t, s[..|s| - 1]) + (if s[|s| - 1] == t then 1 else 0)
  }

  lemma {:induction false} OccurrencesPositive(t: string, s: seq<string>)
    ensures Occurrences(t, s) > 0 <==> t in s
    decreases |s|
  {
    if s != [] {
      var p := s[..|s| - 1];
      assert s == p + [s[|s| - 1]];
      OccurrencesPositive(t, p);
    }
  }

  /** `nodeMap`: for each id, the last node given with it. */
  function NodeMap(nodes: seq<JsonNodeData>): (m: map<string, JsonNodeData>)
    ensures m.Keys == IdSet(nodes)
    ensures forall x :: x in m ==> m[x].id == x
    decreases |nodes|
  {
    if nodes == [] then map[]
    else
      var p := nodes[..|nodes| - 1];
      assert IdSet(nodes) == IdSet(p) + {nodes[|nodes| - 1].id} by {
        assert forall k :: 0 <= k < |p| ==> p[k] == nodes[k];
      }
      NodeMap(p)[nodes[|nodes| - 1].id := nodes[|nodes| - 1]]
  }

  /** With unique ids the map entry of an id is the one node carrying it. */
  lemma {:induction false} NodeMapUnique(nodes: seq<JsonNodeData>, k: nat)
    requires UniqueIds(nodes) && k < |nodes|
    ensures NodeMap(nodes)[nodes[k].id] == nodes[k]
    decreases |nodes|
  {
    var p := nodes[..|nodes| - 1];
    if k < |nodes| - 1 {
      assert Ids(p) == Ids(nodes)[..|nodes| - 1];
      assert p[k] == nodes[k];
      assert Ids(nodes)[k] != Ids(nodes)[|nodes| - 1];
      NodeMapUnique(p, k);
    }
  }

  /** Key order of the `inDegree` map: each id where it first occurs. */
  function FirstIds(nodes: seq<JsonNodeData>): (r: seq<string>)
    ensures NoDup(r) && Elems(r) == IdSet(nodes)
    decreases |nodes|
  {
    if nodes == [] then []
    else
      var p := nodes[..|nodes| - 1];
      var q := FirstIds(p);
      assert IdSet(nodes) == IdSet(p) + {nodes[|nodes| - 1].id} by {
        assert forall k :: 0 <= k < |p| ==> p[k] == nodes[k];
      }
      if nodes[|nodes| - 1].id in q then q
      else
        assert Elems(q + [nodes[|nodes| - 1].id]) == Elems(q) + {nodes[|nodes| - 1].id};
        q + [nodes[|nodes| - 1].id]
  }

  // ------------------------------------------------------------ in-degrees

  /** Counted in-degree of `t` from the nodes whose id is not in `done`:
      one per occurrence of `t` among their links. */
  function Pending(nodes: seq<JsonNodeData>, done: set<string>, t: string): nat
    decreases |nodes|
  {
    if nodes == [] then 0
    else Pending(nodes[..|nodes| - 1], done, t)
         + (if nodes[|nodes| - 1].id in done then 0 else Occurrences(t, Links(nodes[|nodes| - 1])))
  }

  /** The in-degree `inDegree` starts the layering with. */
  function InDegree(nodes: seq<JsonNodeData>, t: string): nat {
    Pending(nodes, {}, t)
  }

  /** Every node that links to `t` has its id in `done`. */
  predicate Settled(nodes: seq<JsonNodeData>, done: set<string>, t: string) {
    forall k :: 0 <= k < |nodes| && t in Links(nodes[k]) ==> nodes[k].id in done
  }

  lemma {:induction false} PendingZero(nodes: seq<JsonNodeData>, done: set<string>, t: string)
    ensures Pending(nodes, done, t) == 0 <==> Settled(nodes, done, t)
    decreases |nodes|
  {
    if nodes != [] {
      var p := nodes[..|nodes| - 1];
      var last := nodes[|nodes| - 1];
      PendingZero(p, done, t);
      OccurrencesPositive(t, Links(last));
      assert forall k :: 0 <= k < |p| ==> p[k] == nodes[k];
      if Settled(nodes, done, t) {
        assert Settled(p, done, t);
      }
    }
  }

  /** Ids absent from the list leave the count unchanged. */
  lemma {:induction false} PendingOther(nodes: seq<JsonNodeData>, done: set<string>, id: string, t: string)
    requires id !in IdSet(nodes)
    ensures Pending(nodes, done + {id}, t) == Pending(nodes, done, t)
    decreases |nodes|
  {
    if nodes != [] {
      var p := nodes[..|nodes| - 1];
      assert IdSet(nodes) == IdSet(p) + {nodes[|nodes| - 1].id} by {
        assert forall k :: 0 <= k < |p| ==> p[k] == nodes[k];
      }
      PendingOther(p, done, id, t);
    }
  }

  /** Processing one more id removes exactly its node's links from the count. */
  lemma {:induction false} PendingSettle(nodes: seq<JsonNodeData>, done: set<string>, id: string, t: string)
    requires UniqueIds(nodes) && id !in done && id in IdSet(nodes)
    ensures Pending(nodes, done + {id}, t) + Occurrences(t, Links(NodeMap(nodes)[id])) == Pending(nodes, done, t)
    decreases |nodes|
  {
    var p := nodes[..|nodes| - 1];
    var last := nodes[|nodes| - 1];
    assert Ids(p) == Ids(nodes)[..|nodes| - 1];
    assert UniqueIds(p);
    assert IdSet(nodes) == IdSet(p) + {last.id} by {
      assert forall k :: 0 <= k < |p| ==> p[k] == nodes[k];
    }
    if last.id == id {
      assert id !in IdSet(p) by {
        forall k | 0 <= k < |p| ensures p[k].id != id {
          assert Ids(nodes)[k] != Ids(nodes)[|nodes| - 1];
        }
      }
      PendingOther(p, done, id, t);
    } else {
      PendingSettle(p, done, id, t);
    }
  }

  /** Entry ids in first-occurrence order whose counted in-degree is zero:
      the initial queue. */
  function Roots(ids: seq<string>, nodes: seq<JsonNodeData>): seq<string>
    decreases |ids|
  {
    if ids == [] then []
    else Roots(ids[..|ids| - 1], nodes)
         + (if InDegree(nodes, ids[|ids| - 1]) == 0 then [ids[|ids| - 1]] else [])
  }

  /** Lines 83-106: the node map, the key order and the counted in-degrees. */
  method IndexNodes(nodes: seq<JsonNodeData>) returns (nodeMap: map<string, JsonNodeData>, order: seq<string>, inDegree: map<string, int>)
    ensures nodeMap == NodeMap(nodes) && order == FirstIds(nodes)
    ensures inDegree.Keys == IdSet(nodes)
    ensures forall t :: t in inDegree ==> inDegree[t] == InDegree(nodes, t)
  {
    nodeMap, order, inDegree := MapNodes(nodes);
    inDegree := CountInDegrees(nodes, inDegree);
  }

  /** Lines 83-86: every id maps to its last node, with in-degree zero. */
  method MapNodes(nodes: seq<JsonNodeData>) returns (nodeMap: map<string, JsonNodeData>, order: seq<string>, inDegree: map<string, int>)
    ensures nodeMap == NodeMap(nodes) && order == FirstIds(nodes)
    ensures inDegree.Keys == IdSet(nodes) && forall t :: t in inDegree ==> inDegree[t] == 0
  {
    nodeMap, order, inDegree := map[], [], map[];
    for i := 0 to |nodes|
      invariant nodeMap == NodeMap(nodes[..i]) && order == FirstIds(nodes[..i])
      invariant inDegree.Keys == nodeMap.Keys
      invariant forall t :: t in inDegree ==> inDegree[t] == 0
    {
      assert nodes[..i + 1][..i] == nodes[..i];
      if nodes[i].id !in inDegree {
        order := order + [nodes[i].id];
      }
      nodeMap := nodeMap[nodes[i].id := nodes[i]];
      inDegree := inDegree[nodes[i].id := 0];
    }
    assert nodes[..|nodes|] == nodes;
  }

  /** Lines 89-106: each link to a known id counts once towards its in-degree. */
  method CountInDegrees(nodes: seq<JsonNodeData>, initial: map<string, int>) returns (inDegree: map<string, int>)
    requires initial.Keys == IdSet(nodes) && forall t :: t in initial ==> initial[t] == 0
    ensures inDegree.Keys == IdSet(nodes) && forall t :: t in inDegree ==> inDegree[t] == InDegree(nodes, t)
  {
    inDegree := initial;
    for i := 0 to |nodes|
      invariant inDegree.Keys == IdSet(nodes)
      invariant forall t :: t in inDegree ==> inDegree[t] == Pending(nodes[..i], {}, t)
    {
      assert nodes[..i + 1][..i] == nodes[..i];
      inDegree := CountLinks(Links(nodes[i]), inDegree);
    }
    assert nodes[..|nodes|] == nodes;
  }

  /** Lines 90-105 for one node: each link to a known id adds one. */
  method CountLinks(links: seq<string>, inDegree: map<string, int>) returns (counted: map<string, int>)
    ensures counted.Keys == inDegree.Keys
    ensures forall t :: t in inDegree ==> counted[t] == inDegree[t] + Occurrences(t, links)
  {
    counted := inDegree;
    for j := 0 to |links|
      invariant counted.Keys == inDegree.Keys
      invariant forall t :: t in inDegree ==> counted[t] == inDegree[t] + Occurrences(t, links[..j])
    {
      assert links[..j + 1][..j] == links[..j];
      if links[j] in counted {
        counted := counted[links[j] := counted[links[j]] + 1];
      }
    }
    assert links[..|links|] == links;
  }

  /** Lines 113-117: the ids of in-degree zero, in key order. */
  method InitialQueue(ghost nodes: seq<JsonNodeData>, order: seq<string>, inDegree: map<string, int>) returns (queue: seq<string>)
    requires forall t :: t in order ==> t in inDegree && inDegree[t] == InDegree(nodes, t)
    ensures queue == Roots(order, nodes)
  {
    queue := [];
    for i := 0 to |order|
      invariant queue == Roots(order[..i], nodes)
    {
      assert order[..i + 1][..i] == order[..i];
      if inDegree[order[i]] == 0 {
        queue := queue + [order[i]];
      }
    }
    assert order[..|order|] == order;
  }

  /** Members of the initial queue: known ids nothing links to, once each. */
  lemma {:induction false} RootsMembers(ids: seq<string>, nodes: seq<JsonNodeData>)
    requires NoDup(ids)
    ensures NoDup(Roots(ids, nodes))
    ensures forall t :: t in Roots(ids, nodes) <==> t in ids && InDegree(nodes, t) == 0
    decreases |ids|
  {
    if ids != [] {
      var p := ids[..|ids| - 1];
      assert ids == p + [ids[|ids| - 1]];
      RootsMembers(p, nodes);
    }
  }

  // ------------------------------------------------------------- layering

  function Flatten(layers: seq<seq<string>>): seq<string>
    decreases |layers|
  {
    if layers == [] then [] else Flatten(layers[..|layers| - 1]) + layers[|layers| - 1]
  }

  /** What the layering loop keeps true of `inDegree`, `processed` and the
      ids ever queued: an id has been queued exactly when its degree has
      dropped to zero or below, and (with unique ids) the degree of an
      unprocessed id counts the links into it from unprocessed nodes. */
  ghost predicate Tracking(nodes: seq<JsonNodeData>, inDegree: map<string, int>, processed: set<string>, enqueued: set<string>) {
    inDegree.Keys == IdSet(nodes)
    && processed <= enqueued <= IdSet(nodes)
    && (forall t :: t in inDegree ==> (t in enqueued <==> inDegree[t] <= 0))
    && (UniqueIds(nodes) ==> forall t :: t in inDegree && t !in processed ==> inDegree[t] == Pending(nodes, processed, t))
  }

  /** The queue holds each queued-but-unprocessed id once. */
  ghost predicate Queued(queue: seq<string>, processed: set<string>, enqueued: set<string>) {
    NoDup(queue)
    && (forall t :: t in enqueued <==> t in processed || t in queue)
    && (forall t :: t in queue ==> t !in processed)
  }

  /** The effect of releasing a node's links: each link to a known id that is
      not processed lowers its degree by one, and the ids appended to the
      queue are exactly those, once each, whose positive degree the links
      bring down to zero. */
  ghost predicate Released(links: seq<string>, inDegree: map<string, int>, processed: set<string>, queue: seq<string>,
                           degrees: map<string, int>, next: seq<string>) {
    degrees.Keys == inDegree.Keys
    && (forall t :: t in inDegree ==>
          degrees[t] == if t in processed then inDegree[t] else inDegree[t] - Occurrences(t, links))
    && |next| >= |queue| && next[..|queue|] == queue && NoDup(next[|queue|..])
    && (forall t :: t in next[|queue|..] <==>
          t in inDegree && t !in processed && 0 < inDegree[t] <= Occurrences(t, links))
  }

  /** The ids whose degree is still positive: those some link has yet to
      release. */
  function Waiting(degrees: map<string, int>): set<string> {
    set t | t in degrees && degrees[t] > 0
  }

  /** Lines 132-155 as a function: the links are released left to right;
      each link to a known unprocessed id lowers its degree, and the id joins
      the end of the queue at the link that brings its degree to zero. */
  function ReleaseAll(links: seq<string>, degrees: map<string, int>, processed: set<string>, queue: seq<string>)
    : (map<string, int>, seq<string>)
    decreases |links|
  {
    if links == [] then (degrees, queue)
    else
      var t := links[0];
      if t in degrees && t !in processed then
        var lowered := degrees[t := degrees[t] - 1];
        ReleaseAll(links[1..], lowered, processed, if lowered[t] == 0 then queue + [t] else queue)
      else
        ReleaseAll(links[1..], degrees, processed, queue)
  }

  /** Releasing never raises a degree, and every id it queues was waiting
      before and is waiting no longer. */
  lemma {:induction false} ReleaseShrinks(links: seq<string>, degrees: map<string, int>, processed: set<string>, queue: seq<string>)
    ensures var r := ReleaseAll(links, degrees, processed, queue);
            r.0.Keys == degrees.Keys && (forall t :: t in degrees ==> r.0[t] <= degrees[t])
            && Waiting(r.0) <= Waiting(degrees)
            && |r.1| >= |queue| && r.1[..|queue|] == queue
            && forall t :: t in r.1[|queue|..] ==> t in Waiting(degrees) && t !in Waiting(r.0)
    decreases |links|
  {
    if links != [] {
      var t := links[0];
      if t in degrees && t !in processed {
        var lowered := degrees[t := degrees[t] - 1];
        var queue' := if lowered[t] == 0 then queue + [t] else queue;
        ReleaseShrinks(links[1..], lowered, processed, queue');
        var r := ReleaseAll(links[1..], lowered, processed, queue');
        assert r.1[|queue|..] == r.1[|queue|..|queue'|] + r.1[|queue'|..];
      } else {
        ReleaseShrinks(links[1..], degrees, processed, queue);
      }
    }
  }

  /** Lines 132-155 for the node just taken off the queue: each link to a
      known unprocessed id lowers its degree; an id whose degree reaches
      zero is queued, in link order. */
  method Release(links: seq<string>, inDegree: map<string, int>, processed: set<string>, queue: seq<string>)
    returns (degrees: map<string, int>, next: seq<string>)
    ensures (degrees, next) == ReleaseAll(links, inDegree, processed, queue)
    ensures Released(links, inDegree, processed, queue, degrees, next)
  {
    degrees, next := inDegree, queue;
    for j := 0 to |links|
      invariant ReleaseAll(links[j..], degrees, processed, next) == ReleaseAll(links, inDegree, processed, queue)
      invariant degrees.Keys == inDegree.Keys
      invariant forall t :: t in inDegree ==>
                  degrees[t] == if t in processed then inDegree[t] else inDegree[t] - Occurrences(t, links[..j])
      invariant |next| >= |queue| && next[..|queue|] == queue && NoDup(next[|queue|..])
      invariant forall t :: t in next[|queue|..] <==>
                  t in inDegree && t !in processed && 0 < inDegree[t] <= Occurrences(t, links[..j])
    {
      var t := links[j];
      assert links[..j + 1][..j] == links[..j];
      assert links[j..][0] == t && links[j..][1..] == links[j + 1..];
      if t in degrees && t !in processed {
        degrees := degrees[t := degrees[t] - 1];
        if degrees[t] == 0 {
          assert (next + [t])[|queue|..] == next[|queue|..] + [t];
          next := next + [t];
        }
      }
    }
    assert links[..|links|] == links;
  }

  /** The state of the layering between two ids: the layer so far, the
      degrees, the queue and the processed ids. */
  datatype LayerState = LayerState(layer: seq<string>, degrees: map<string, int>, next: seq<string>, done: set<string>)

  /** The links of the node with id `id` (line 130; every queued id is known). */
  function LinksOf(nodeMap: map<string, JsonNodeData>, id: string): seq<string> {
    if id in nodeMap then Links(nodeMap[id]) else []
  }

  /** Lines 124-156 as a function: `n` more ids are taken off the front of
      the queue, each joining the layer and the processed ids and releasing
      its links. */
  function Drain(nodeMap: map<string, JsonNodeData>, p: LayerState, n: nat): LayerState
    decreases n
  {
    if n == 0 || p.next == [] then p
    else
      var id := p.next[0];
      var released := ReleaseAll(LinksOf(nodeMap, id), p.degrees, p.done + {id}, p.next[1..]);
      Drain(nodeMap, LayerState(p.layer + [id], released.0, released.1, p.done + {id}), n - 1)
  }

  /** Draining never raises a degree, and every id left in the queue was
      there already or has stopped waiting meanwhile. */
  lemma {:induction false} DrainShrinks(nodeMap: map<string, JsonNodeData>, p: LayerState, n: nat)
    ensures var r := Drain(nodeMap, p, n);
            Waiting(r.degrees) <= Waiting(p.degrees)
            && forall t :: t in r.next ==> t in p.next[Min(n, |p.next|)..] || (t in Waiting(p.degrees) && t !in Waiting(r.degrees))
    decreases n
  {
    if n > 0 && p.next != [] {
      var id := p.next[0];
      var released := ReleaseAll(LinksOf(nodeMap, id), p.degrees, p.done + {id}, p.next[1..]);
      ReleaseShrinks(LinksOf(nodeMap, id), p.degrees, p.done + {id}, p.next[1..]);
      var p' := LayerState(p.layer + [id], released.0, released.1, p.done + {id});
      DrainShrinks(nodeMap, p', n - 1);
      var r := Drain(nodeMap, p', n - 1);
      forall t | t in r.next
        ensures t in p.next[Min(n, |p.next|)..] || (t in Waiting(p.degrees) && t !in Waiting(r.degrees))
      {
        if t in released.1[Min(n - 1, |released.1|)..] {
          var k :| Min(n - 1, |released.1|) <= k < |released.1| && released.1[k] == t;
          if k < |p.next| - 1 {
            assert released.1[k] == p.next[1..][k] == p.next[k + 1];
          } else {
            assert t in released.1[|p.next| - 1..];
          }
        }
      }
    }
  }

  /** One layer: the whole queue is drained. */
  function LayerOf(nodeMap: map<string, JsonNodeData>, degrees: map<string, int>, queue: seq<string>, processed: set<string>): LayerState {
    Drain(nodeMap, LayerState([], degrees, queue, processed), |queue|)
  }

  /** Lines 120-160 as a function: one layer per pass while the queue is not
      empty. Each pass that leaves a queue behind stops at least one id from
      waiting, so the passes end. */
  function Kahn(nodeMap: map<string, JsonNodeData>, degrees: map<string, int>, queue: seq<string>, processed: set<string>)
    : seq<seq<string>>
    decreases |Waiting(degrees)|, if queue == [] then 0 else 1
  {
    if queue == [] then []
    else
      var p := LayerOf(nodeMap, degrees, queue, processed);
      DrainShrinks(nodeMap, LayerState([], degrees, queue, processed), |queue|);
      assert queue[Min(|queue|, |queue|)..] == [];
      WaitingCard(p.degrees, degrees, p.next);
      [p.layer] + Kahn(nodeMap, p.degrees, p.next, p.done)
  }

  lemma WaitingCard(after: map<string, int>, before: map<string, int>, next: seq<string>)
    requires Waiting(after) <= Waiting(before)
    requires forall t :: t in next ==> t in Waiting(before) && t !in Waiting(after)
    ensures |Waiting(after)| <= |Waiting(before)|
    ensures next != [] ==> |Waiting(after)| < |Waiting(before)|
  {
    var a, b := Waiting(after), Waiting(before);
    assert b == a + (b - a);
    assert a * (b - a) == {};
    if next != [] {
      assert next[0] in b - a;
    }
  }

  /** The counted in-degree of every known id (lines 84-106). */
  function InDegrees(nodes: seq<JsonNodeData>): map<string, int> {
    map t | t in IdSet(nodes) :: InDegree(nodes, t)
  }

  /** The topological layers of lines 78-160, from the roots in key order. */
  function KahnLayersOf(nodes: seq<JsonNodeData>): seq<seq<string>> {
    Kahn(NodeMap(nodes), InDegrees(nodes), Roots(FirstIds(nodes), nodes), {})
  }

  /** One pass of the `for` loop at lines 124-156: the whole current queue
      becomes one layer. */
  method ProcessLayer(ghost nodes: seq<JsonNodeData>, nodeMap: map<string, JsonNodeData>, inDegree: map<string, int>,
                      queue: seq<string>, processed: set<string>, ghost enqueued: set<string>)
    returns (layer: seq<string>, degrees: map<string, int>, next: seq<string>, done: set<string>, ghost reached: set<string>)
    requires nodeMap == NodeMap(nodes)
    requires Tracking(nodes, inDegree, processed, enqueued) && Queued(queue, processed, enqueued)
    ensures layer == queue && done == processed + Elems(queue)
    ensures Drained(nodes, queue, processed, enqueued, layer, degrees, next, done, reached)
    ensures LayerState(layer, degrees, next, done) == LayerOf(nodeMap, inDegree, queue, processed)
  {
    layer, degrees, next, done, reached := [], inDegree, queue, processed, enqueued;
    ghost var added: seq<string> := [];
    for i := 0 to |queue|
      invariant Draining(nodes, queue, processed, enqueued, i, layer, degrees, next, done, reached, added)
      invariant Drain(nodeMap, LayerState(layer, degrees, next, done), |queue| - i) == LayerOf(nodeMap, inDegree, queue, processed)
    {
      var id := next[0];
      var links := Links(nodeMap[id]);
      assert links == LinksOf(nodeMap, id);
      var degrees', next' := Release(links, degrees, done + {id}, next[1..]);
      DrainStep(nodes, queue, processed, enqueued, i, layer, degrees, next, done, reached, added, degrees', next');
      added := added + next'[|next| - 1..];
      reached := reached + Elems(next'[|next| - 1..]);
      layer, degrees, next, done := layer + [id], degrees', next', done + {id};
    }
    assert queue[..|queue|] == queue;
    assert queue[|queue|..] == [];
    assert next == added;
  }

  /** The outcome of one layer: the whole queue became the layer, and the
      queue now holds only ids that had never been queued before. */
  ghost predicate Drained(nodes: seq<JsonNodeData>, queue: seq<string>, processed: set<string>, enqueued: set<string>,
                          layer: seq<string>, degrees: map<string, int>, next: seq<string>, done: set<string>, reached: set<string>) {
    layer == queue && done == processed + Elems(queue)
    && Tracking(nodes, degrees, done, reached) && Queued(next, done, reached)
    && enqueued <= reached && (forall t :: t in next ==> t !in enqueued)
  }

  /** The state of the `for` loop at lines 124-156 after `i` ids of the layer. */
  ghost predicate Draining(nodes: seq<JsonNodeData>, queue: seq<string>, processed: set<string>, enqueued: set<string>, i: nat,
                           layer: seq<string>, degrees: map<string, int>, next: seq<string>, done: set<string>,
                           reached: set<string>, added: seq<string>) {
    i <= |queue| && layer == queue[..i] && done == processed + Elems(queue[..i])
    && next == queue[i..] + added
    && Tracking(nodes, degrees, done, reached) && Queued(next, done, reached)
    && enqueued <= reached && (forall t :: t in added ==> t !in enqueued)
  }

  lemma DrainStep(nodes: seq<JsonNodeData>, queue: seq<string>, processed: set<string>, enqueued: set<string>, i: nat,
                  layer: seq<string>, degrees: map<string, int>, next: seq<string>, done: set<string>,
                  reached: set<string>, added: seq<string>, degrees': map<string, int>, next': seq<string>)
    requires Draining(nodes, queue, processed, enqueued, i, layer, degrees, next, done, reached, added) && i < |queue|
    requires Released(Links(NodeMap(nodes)[next[0]]), degrees, done + {next[0]}, next[1..], degrees', next')
    ensures Draining(nodes, queue, processed, enqueued, i + 1, layer + [next[0]], degrees', next', done + {next[0]},
                     reached + Elems(next'[|next| - 1..]), added + next'[|next| - 1..])
  {
    var pushed := next'[|next| - 1..];
    DrainSeqs(queue, processed, i, layer, next, done, added, next');
    SettleTracking(nodes, degrees, done, reached, next, next[0], degrees', next');
    SettleQueue(nodes, degrees, done, reached, next, next[0], degrees', next');
    FreshAppend(added, pushed, enqueued, reached);
  }

  lemma DrainSeqs(queue: seq<string>, processed: set<string>, i: nat, layer: seq<string>, next: seq<string>,
                  done: set<string>, added: seq<string>, next': seq<string>)
    requires i < |queue| && layer == queue[..i] && done == processed + Elems(queue[..i]) && next == queue[i..] + added
    requires |next'| >= |next| - 1 && next'[..|next| - 1] == next[1..]
    ensures next[0] == queue[i]
    ensures layer + [next[0]] == queue[..i + 1] && done + {next[0]} == processed + Elems(queue[..i + 1])
    ensures next' == queue[i + 1..] + (added + next'[|next| - 1..])
  {
    assert next[1..] == queue[i + 1..] + added;
    assert queue[..i + 1] == queue[..i] + [queue[i]];
    assert Elems(queue[..i + 1]) == Elems(queue[..i]) + {queue[i]};
    assert next' == next[1..] + next'[|next| - 1..];
  }

  lemma FreshAppend(added: seq<string>, pushed: seq<string>, enqueued: set<string>, reached: set<string>)
    requires enqueued <= reached
    requires forall t :: t in added ==> t !in enqueued
    requires forall t :: t in pushed ==> t !in reached
    ensures forall t :: t in added + pushed ==> t !in enqueued
  {
  }

  /** Taking `id` off the queue and releasing its links keeps `Tracking`. */
  lemma SettleTracking(nodes: seq<JsonNodeData>, degrees: map<string, int>, processed: set<string>, enqueued: set<string>,
                       queue: seq<string>, id: string, degrees': map<string, int>, next: seq<string>)
    requires Tracking(nodes, degrees, processed, enqueued) && Queued(queue, processed, enqueued)
    requires queue != [] && id == queue[0]
    requires Released(Links(NodeMap(nodes)[id]), degrees, processed + {id}, queue[1..], degrees', next)
    ensures Tracking(nodes, degrees', processed + {id}, enqueued + Elems(next[|queue| - 1..]))
  {
    var pushed := next[|queue| - 1..];
    assert forall t :: t in degrees' ==> (t in enqueued + Elems(pushed) <==> degrees'[t] <= 0);
    if UniqueIds(nodes) {
      SettleCounts(nodes, degrees, processed, enqueued, id, degrees');
    }
  }

  lemma SettleCounts(nodes: seq<JsonNodeData>, degrees: map<string, int>, processed: set<string>, enqueued: set<string>,
                     id: string, degrees': map<string, int>)
    requires UniqueIds(nodes) && Tracking(nodes, degrees, processed, enqueued)
    requires id in enqueued && id !in processed
    requires degrees'.Keys == degrees.Keys
    requires forall t :: t in degrees ==>
               degrees'[t] == if t in processed + {id} then degrees[t] else degrees[t] - Occurrences(t, Links(NodeMap(nodes)[id]))
    ensures forall t :: t in degrees' && t !in processed + {id} ==> degrees'[t] == Pending(nodes, processed + {id}, t)
  {
    forall t | t in degrees' && t !in processed + {id}
      ensures degrees'[t] == Pending(nodes, processed + {id}, t)
    {
      PendingSettle(nodes, processed, id, t);
    }
  }

  /** ... and keeps the queue duplicate-free; the pushed ids were never queued. */
  lemma SettleQueue(nodes: seq<JsonNodeData>, degrees: map<string, int>, processed: set<string>, enqueued: set<string>,
                    queue: seq<string>, id: string, degrees': map<string, int>, next: seq<string>)
    requires Tracking(nodes, degrees, processed, enqueued) && Queued(queue, processed, enqueued)
    requires queue != [] && id == queue[0]
    requires Released(Links(NodeMap(nodes)[id]), degrees, processed + {id}, queue[1..], degrees', next)
    ensures Queued(next, processed + {id}, enqueued + Elems(next[|queue| - 1..]))
    ensures forall t :: t in next[|queue| - 1..] ==> t !in enqueued
  {
    var rest, pushed := queue[1..], next[|queue| - 1..];
    assert next == rest + pushed by {
      assert next[..|rest|] == rest;
      assert next == next[..|rest|] + next[|rest|..];
    }
    assert NoDup(pushed);
    assert forall t :: t in pushed ==> t !in enqueued && t !in processed + {id} by {
      forall t | t in pushed ensures t !in enqueued && t !in processed + {id} {
        assert t in degrees && t !in processed + {id} && 0 < degrees[t];
      }
    }
    QueueAfter(queue, processed, enqueued, pushed, next);
  }

  /** Dropping the head of a duplicate-free queue and appending ids never
      queued keeps it duplicate-free and in step with the sets. */
  lemma QueueAfter(queue: seq<string>, processed: set<string>, enqueued: set<string>, pushed: seq<string>, next: seq<string>)
    requires Queued(queue, processed, enqueued) && queue != []
    requires next == queue[1..] + pushed && NoDup(pushed)
    requires forall t :: t in pushed ==> t !in enqueued && t !in processed + {queue[0]}
    ensures Queued(next, processed + {queue[0]}, enqueued + Elems(pushed))
  {
    var rest := queue[1..];
    assert NoDup(rest) && forall x :: x in rest ==> x !in pushed by {
      assert forall i :: 0 <= i < |rest| ==> rest[i] == queue[i + 1];
      assert forall x :: x in rest ==> x in queue;
    }
    NoDupConcat(rest, pushed);
    QueueMembers(queue, processed, enqueued, pushed);
  }

  lemma QueueMembers(queue: seq<string>, processed: set<string>, enqueued: set<string>, pushed: seq<string>)
    requires Queued(queue, processed, enqueued) && queue != []
    requires forall t :: t in pushed ==> t !in enqueued && t !in processed + {queue[0]}
    ensures forall t :: t in enqueued + Elems(pushed) <==> t in processed + {queue[0]} || t in queue[1..] + pushed
    ensures forall t :: t in queue[1..] + pushed ==> t !in processed + {queue[0]}
  {
    assert queue == [queue[0]] + queue[1..];
    forall t | t in queue[1..] ensures t != queue[0] {
      var k :| 0 <= k < |queue[1..]| && queue[1..][k] == t;
      assert queue[k + 1] == t;
    }
  }

  /** Kahn's order: every node that links to an id of layer `l` has its id
      in an earlier layer. */
  ghost predicate KahnOrder(nodes: seq<JsonNodeData>, layers: seq<seq<string>>) {
    forall l, k :: 0 <= l < |layers| && 0 <= k < |layers[l]| ==> Settled(nodes, Elems(Flatten(layers[..l])), layers[l][k])
  }

  /** No id waits longer than it must: a known id whose every predecessor
      lies in the layers before `l` is itself in a layer up to `l`. */
  ghost predicate Earliest(nodes: seq<JsonNodeData>, layers: seq<seq<string>>) {
    forall l, t :: 0 <= l < |layers| && t in IdSet(nodes) && Settled(nodes, Elems(Flatten(layers[..l])), t)
      ==> t in Flatten(layers[..l + 1])
  }

  /** The state of the `while` loop at lines 120-160. */
  ghost predicate Layered(nodes: seq<JsonNodeData>, queue: seq<string>, layers: seq<seq<string>>, processed: set<string>,
                          degrees: map<string, int>, pending: seq<string>, enqueued: set<string>) {
    Tracking(nodes, degrees, processed, enqueued) && Queued(pending, processed, enqueued)
    && (layers == [] ==> pending == queue && processed == {})
    && (layers != [] ==> layers[0] == queue)
    && (forall l :: 0 <= l < |layers| ==> layers[l] != [])
    && NoDup(Flatten(layers)) && Elems(Flatten(layers)) == processed
    && (UniqueIds(nodes) ==> KahnOrder(nodes, layers))
  }

  /** Lines 108-160: the layers of the topological order; returns them with
      the set `processed`. */
  method Layering(ghost nodes: seq<JsonNodeData>, nodeMap: map<string, JsonNodeData>, inDegree: map<string, int>, queue: seq<string>)
    returns (layers: seq<seq<string>>, processed: set<string>)
    requires nodeMap == NodeMap(nodes)
    requires inDegree.Keys == IdSet(nodes) && forall t :: t in inDegree ==> inDegree[t] == InDegree(nodes, t)
    requires NoDup(queue) && forall t :: t in queue <==> t in inDegree && inDegree[t] == 0
    ensures (layers == []) == (queue == []) && (queue != [] ==> layers[0] == queue)
    ensures forall l :: 0 <= l < |layers| ==> layers[l] != []
    ensures NoDup(Flatten(layers)) && Elems(Flatten(layers)) == processed && processed <= IdSet(nodes)
    ensures UniqueIds(nodes) ==> KahnOrder(nodes, layers) && Earliest(nodes, layers)
    ensures UniqueIds(nodes) ==> forall t :: t in IdSet(nodes) && t !in processed ==> !Settled(nodes, processed, t)
    ensures layers == Kahn(nodeMap, inDegree, queue, {})
  {
    layers, processed := [], {};
    var degrees, pending := inDegree, queue;
    ghost var enqueued := Elems(queue);
    assert Tracking(nodes, degrees, processed, enqueued);
    while |pending| > 0
      invariant LayeringLoop(nodes, nodeMap, inDegree, queue, layers, processed, degrees, pending, enqueued)
      decreases IdSet(nodes) - enqueued, |pending|
    {
      var layer, degrees', next, done, reached := ProcessLayer(nodes, nodeMap, degrees, pending, processed, enqueued);
      LayerAdvance(nodes, nodeMap, inDegree, queue, layers, processed, degrees, pending, enqueued, layer, degrees', next, done, reached);
      layers, degrees, pending, processed, enqueued := layers + [layer], degrees', next, done, reached;
    }
    assert layers + [] == layers;
    LayeringDone(nodes, queue, layers, processed, degrees, enqueued);
  }

  /** The invariant of the `while` loop at lines 120-160, with the layers so
      far a prefix of `Kahn`. */
  ghost predicate LayeringLoop(nodes: seq<JsonNodeData>, nodeMap: map<string, JsonNodeData>, inDegree: map<string, int>,
                               queue: seq<string>, layers: seq<seq<string>>, processed: set<string>,
                               degrees: map<string, int>, pending: seq<string>, enqueued: set<string>) {
    Layered(nodes, queue, layers, processed, degrees, pending, enqueued)
    && (UniqueIds(nodes) ==> Earliest(nodes, layers))
    && layers + Kahn(nodeMap, degrees, pending, processed) == Kahn(nodeMap, inDegree, queue, {})
  }

  /** One layer more keeps the loop invariant and shrinks the measure. */
  lemma LayerAdvance(nodes: seq<JsonNodeData>, nodeMap: map<string, JsonNodeData>, inDegree: map<string, int>,
                     queue: seq<string>, layers: seq<seq<string>>, processed: set<string>,
                     degrees: map<string, int>, pending: seq<string>, enqueued: set<string>,
                     layer: seq<string>, degrees': map<string, int>, next: seq<string>, done: set<string>, reached: set<string>)
    requires LayeringLoop(nodes, nodeMap, inDegree, queue, layers, processed, degrees, pending, enqueued) && pending != []
    requires Drained(nodes, pending, processed, enqueued, layer, degrees', next, done, reached)
    requires LayerState(layer, degrees', next, done) == LayerOf(nodeMap, degrees, pending, processed)
    ensures LayeringLoop(nodes, nodeMap, inDegree, queue, layers + [layer], done, degrees', next, reached)
    ensures reached == enqueued ==> next == []
    ensures reached != enqueued ==> IdSet(nodes) - reached < IdSet(nodes) - enqueued
  {
    EarliestStep(nodes, layers, processed, degrees, pending, enqueued);
    LayerStep(nodes, queue, layers, processed, degrees, pending, enqueued, layer, degrees', next, done, reached);
    KahnStep(nodeMap, inDegree, queue, layers, degrees, pending, processed, layer, degrees', next, done);
  }

  /** Once the queue is empty the loop state is the promised result. */
  lemma LayeringDone(nodes: seq<JsonNodeData>, queue: seq<string>, layers: seq<seq<string>>, processed: set<string>,
                     degrees: map<string, int>, enqueued: set<string>)
    requires Layered(nodes, queue, layers, processed, degrees, [], enqueued)
    ensures (layers == []) == (queue == []) && (queue != [] ==> layers[0] == queue)
    ensures forall l :: 0 <= l < |layers| ==> layers[l] != []
    ensures NoDup(Flatten(layers)) && Elems(Flatten(layers)) == processed && processed <= IdSet(nodes)
    ensures UniqueIds(nodes) ==> KahnOrder(nodes, layers)
    ensures UniqueIds(nodes) ==> forall t :: t in IdSet(nodes) && t !in processed ==> !Settled(nodes, processed, t)
  {
    if UniqueIds(nodes) {
      forall t | t in IdSet(nodes) && t !in processed ensures !Settled(nodes, processed, t) {
        PendingZero(nodes, processed, t);
      }
    }
  }

  /** One pass of the loop is one step of `Kahn`. */
  lemma KahnStep(nodeMap: map<string, JsonNodeData>, inDegree: map<string, int>, queue: seq<string>,
                 layers: seq<seq<string>>, degrees: map<string, int>, pending: seq<string>, processed: set<string>,
                 layer: seq<string>, degrees': map<string, int>, next: seq<string>, done: set<string>)
    requires pending != [] && LayerState(layer, degrees', next, done) == LayerOf(nodeMap, degrees, pending, processed)
    requires layers + Kahn(nodeMap, degrees, pending, processed) == Kahn(nodeMap, inDegree, queue, {})
    ensures (layers + [layer]) + Kahn(nodeMap, degrees', next, done) == Kahn(nodeMap, inDegree, queue, {})
  {
    assert Kahn(nodeMap, degrees, pending, processed) == [layer] + Kahn(nodeMap, degrees', next, done);
  }

  /** Taking the whole queue as the next layer keeps `Earliest`: an id whose
      predecessors are all processed has been queued. */
  lemma EarliestStep(nodes: seq<JsonNodeData>, layers: seq<seq<string>>, processed: set<string>,
                     degrees: map<string, int>, pending: seq<string>, enqueued: set<string>)
    requires UniqueIds(nodes) ==> Earliest(nodes, layers)
    requires Tracking(nodes, degrees, processed, enqueued) && Queued(pending, processed, enqueued)
    requires NoDup(Flatten(layers)) && Elems(Flatten(layers)) == processed
    ensures UniqueIds(nodes) ==> Earliest(nodes, layers + [pending])
  {
    if UniqueIds(nodes) {
      var grown := layers + [pending];
      assert Flatten(grown) == Flatten(layers) + pending;
      PrefixesKept(layers, pending);
      forall l, t | 0 <= l < |grown| && t in IdSet(nodes) && Settled(nodes, Elems(Flatten(grown[..l])), t)
        ensures t in Flatten(grown[..l + 1])
      {
        if l < |layers| {
          assert grown[..l] == layers[..l] && grown[..l + 1] == layers[..l + 1];
        } else {
          assert grown[..l] == layers && grown[..l + 1] == grown;
          if t !in processed {
            PendingZero(nodes, processed, t);
            assert t in pending;
          }
        }
      }
    }
  }

  /** One layer more keeps the loop state and shrinks the measure. */
  lemma LayerStep(nodes: seq<JsonNodeData>, queue: seq<string>, layers: seq<seq<string>>, processed: set<string>,
                  degrees: map<string, int>, pending: seq<string>, enqueued: set<string>,
                  layer: seq<string>, degrees': map<string, int>, next: seq<string>, done: set<string>, reached: set<string>)
    requires Layered(nodes, queue, layers, processed, degrees, pending, enqueued) && pending != []
    requires Drained(nodes, pending, processed, enqueued, layer, degrees', next, done, reached)
    ensures Layered(nodes, queue, layers + [layer], done, degrees', next, reached)
    ensures reached == enqueued ==> next == []
    ensures reached != enqueued ==> IdSet(nodes) - reached < IdSet(nodes) - enqueued
  {
    if next != [] {
      var t := next[0];
      assert t in next;
      assert t in reached && t !in enqueued;
    }
    if UniqueIds(nodes) {
      forall t | t in pending ensures Settled(nodes, processed, t) {
        PendingZero(nodes, processed, t);
      }
    }
    LayerAppend(layers, layer, processed);
    PrefixesKept(layers, layer);
    var grown := layers + [layer];
    if UniqueIds(nodes) {
      forall l, k | 0 <= l < |grown| && 0 <= k < |grown[l]|
        ensures Settled(nodes, Elems(Flatten(grown[..l])), grown[l][k])
      {
        if l < |layers| {
          assert grown[l] == layers[l];
        } else {
          assert grown[..l] == layers;
        }
      }
    }
  }

  /** Appending a layer of fresh ids keeps the flattened order duplicate-free
      and earlier layers' prefixes unchanged. */
  lemma LayerAppend(layers: seq<seq<string>>, layer: seq<string>, processed: set<string>)
    requires NoDup(Flatten(layers)) && Elems(Flatten(layers)) == processed
    requires NoDup(layer) && forall t :: t in layer ==> t !in processed
    ensures Flatten(layers + [layer]) == Flatten(layers) + layer
    ensures NoDup(Flatten(layers + [layer])) && Elems(Flatten(layers + [layer])) == processed + Elems(layer)
    ensures (layers + [layer])[..|layers|] == layers
  {
    var flat := Flatten(layers);
    assert Elems(flat + layer) == Elems(flat) + Elems(layer);
    assert (layers + [layer])[..|layers|] == layers;
    NoDupConcat(flat, layer);
  }

  lemma NoDupConcat(a: seq<string>, b: seq<string>)
    requires NoDup(a) && NoDup(b) && forall x :: x in a ==> x !in b
    ensures NoDup(a + b)
  {
    var f := a + b;
    forall i, j | 0 <= i < j < |f| ensures f[i] != f[j] {
      if i < |a| <= j {
        assert f[i] in a;
        assert f[j] in b;
      }
    }
  }

  lemma PrefixesKept(layers: seq<seq<string>>, layer: seq<string>)
    ensures forall l :: 0 <= l <= |layers| ==> (layers + [layer])[..l] == layers[..l]
  {
  }

  // ------------------------------------------------------ overflow layers

  /** Ids of the nodes that were not processed, in input order (one entry
      per node, as `nodes.filter` keeps them). */
  function Unplaced(nodes: seq<JsonNodeData>, processed: set<string>): seq<string>
    decreases |nodes|
  {
    if nodes == [] then []
    else Unplaced(nodes[..|nodes| - 1], processed)
         + (if nodes[|nodes| - 1].id in processed then [] else [nodes[|nodes| - 1].id])
  }

  /** `chunks` cuts `r` into consecutive runs of five ids (the overflow
      layer width); only the last run may be shorter. */
  predicate Chunked(chunks: seq<seq<string>>, r: seq<string>) {
    |chunks| == (|r| + 5 - 1) / 5
    && forall c :: 0 <= c < |chunks| ==>
         5 * c <= |r| && chunks[c] == r[5 * c .. Min(5 * c + 5, |r|)]
  }

  lemma ChunkedAppend(chunks: seq<seq<string>>, r: seq<string>, x: string)
    requires Chunked(chunks, r)
    ensures |r| % 5 == 0 ==> |r| / 5 == |chunks| && Chunked(chunks + [[x]], r + [x])
    ensures |r| % 5 != 0 ==>
              |r| / 5 == |chunks| - 1 && Chunked(chunks[|chunks| - 1 := chunks[|chunks| - 1] + [x]], r + [x])
  {
    if |r| % 5 == 0 {
      ChunkOpen(chunks, r, x);
    } else {
      ChunkExtend(chunks, r, x);
    }
  }

  /** A full last chunk: the new id opens a chunk of its own. */
  lemma ChunkOpen(chunks: seq<seq<string>>, r: seq<string>, x: string)
    requires Chunked(chunks, r) && |r| % 5 == 0
    ensures |r| / 5 == |chunks| && Chunked(chunks + [[x]], r + [x])
  {
    var r', n, grown := r + [x], |r|, chunks + [[x]];
    assert (n + 1 + 4) / 5 == n / 5 + 1;
    forall c | 0 <= c < |grown|
      ensures 5 * c <= |r'| && grown[c] == r'[5 * c .. Min(5 * c + 5, |r'|)]
    {
      if c < |chunks| {
        assert 5 * c + 5 <= n;
        assert r'[5 * c .. 5 * c + 5] == r[5 * c .. 5 * c + 5];
      } else {
        assert r'[n .. n + 1] == [x];
      }
    }
  }

  /** A short last chunk: the new id joins it. */
  lemma ChunkExtend(chunks: seq<seq<string>>, r: seq<string>, x: string)
    requires Chunked(chunks, r) && |r| % 5 != 0
    ensures |r| / 5 == |chunks| - 1 && Chunked(chunks[|chunks| - 1 := chunks[|chunks| - 1] + [x]], r + [x])
  {
    var r', n, last := r + [x], |r|, |chunks| - 1;
    assert (n + 1 + 4) / 5 == (n + 4) / 5;
    assert last == n / 5 && 5 * last < n < 5 * last + 5;
    var grown := chunks[last := chunks[last] + [x]];
    forall c | 0 <= c < |grown|
      ensures 5 * c <= |r'| && grown[c] == r'[5 * c .. Min(5 * c + 5, |r'|)]
    {
      if c < last {
        assert 5 * c + 5 <= n;
        assert r'[5 * c .. 5 * c + 5] == r[5 * c .. 5 * c + 5];
      } else {
        assert r'[5 * c .. n + 1] == r[5 * c .. n] + [x];
      }
    }
  }

  /** `extended` is `layers` followed by the overflow layers of `r`. */
  ghost predicate Overflowed(layers: seq<seq<string>>, extended: seq<seq<string>>, r: seq<string>) {
    |extended| >= |layers| && extended[..|layers|] == layers && Chunked(extended[|layers|..], r)
  }

  /** One more unprocessed id goes to layer `|layers| + index / 5`, which is
      either the last overflow layer or a new one. */
  lemma OverflowPush(layers: seq<seq<string>>, extended: seq<seq<string>>, r: seq<string>, x: string)
    requires Overflowed(layers, extended, r)
    ensures |layers| + |r| / 5 <= |extended|
    ensures var grown := if |layers| + |r| / 5 == |extended| then extended + [[]] else extended;
            Overflowed(layers, grown[|layers| + |r| / 5 := grown[|layers| + |r| / 5] + [x]], r + [x])
  {
    var chunks := extended[|layers|..];
    ChunkedAppend(chunks, r, x);
    var index := |layers| + |r| / 5;
    if |r| % 5 == 0 {
      var pushed := (extended + [[]])[index := [x]];
      assert pushed == extended + [[x]];
      assert pushed[|layers|..] == chunks + [[x]];
    } else {
      var pushed := extended[index := extended[index] + [x]];
      assert pushed[|layers|..] == chunks[|chunks| - 1 := chunks[|chunks| - 1] + [x]];
    }
  }

  /** Lines 162-170: the nodes left unprocessed (cycles and what hangs off
      them), in input order, fill new layers `5` at a time
      after the last topological layer. */
  method AddRemaining(nodes: seq<JsonNodeData>, processed: set<string>, layers: seq<seq<string>>) returns (extended: seq<seq<string>>)
    ensures |extended| >= |layers| && extended[..|layers|] == layers
    ensures Chunked(extended[|layers|..], Unplaced(nodes, processed))
  {
    extended := layers;
    var index := 0;
    assert Overflowed(layers, extended, []);
    for i := 0 to |nodes|
      invariant index == |Unplaced(nodes[..i], processed)|
      invariant Overflowed(layers, extended, Unplaced(nodes[..i], processed))
    {
      ghost var r := Unplaced(nodes[..i], processed);
      assert Unplaced(nodes[..i + 1], processed) == r + (if nodes[i].id in processed then [] else [nodes[i].id]) by {
        assert nodes[..i + 1][..i] == nodes[..i];
      }
      if nodes[i].id !in processed {
        OverflowPush(layers, extended, r, nodes[i].id);
        var layerIndex := |layers| + index / 5;
        if layerIndex == |extended| {
          extended := extended + [[]];
        }
        extended := extended[layerIndex := extended[layerIndex] + [nodes[i].id]];
        index := index + 1;
      } else {
        assert r + [] == r;
      }
    }
    assert nodes[..|nodes|] == nodes;
  }

  // ------------------------------------------------------------ positions

  /** Every id in the layers has an entry in `nodeMap`. */
  predicate Mapped(layers: seq<seq<string>>, nodeMap: map<string, JsonNodeData>) {
    forall l, k :: 0 <= l < |layers| && 0 <= k < |layers[l]| ==> layers[l][k] in nodeMap
  }

  /** Position of the `nodeIndex`-th node of layer `layerIndex`. */
  function Pos(layerIndex: nat, nodeIndex: nat): Position {
    Position(layerIndex * LayerWidth, nodeIndex * NodeHeight + (if layerIndex % 2 == 0 then 0 else NodeHeight / 2))
  }

  function PlaceLayer(ids: seq<string>, layerIndex: nat, nodeMap: map<string, JsonNodeData>): seq<Placed>
    requires forall k :: 0 <= k < |ids| ==> ids[k] in nodeMap
  {
    seq(|ids|, k requires 0 <= k < |ids| && ids[k] in nodeMap => Placed(nodeMap[ids[k]], Pos(layerIndex, k)))
  }

  /** The layout result: layers in index order, each in its own order. */
  function Place(layers: seq<seq<string>>, nodeMap: map<string, JsonNodeData>): seq<Placed>
    requires Mapped(layers, nodeMap)
    decreases |layers|
  {
    if layers == [] then []
    else
      assert forall l :: 0 <= l < |layers| - 1 ==> layers[..|layers| - 1][l] == layers[l];
      Place(layers[..|layers| - 1], nodeMap) + PlaceLayer(layers[|layers| - 1], |layers| - 1, nodeMap)
  }

  /** Lines 172-190: every layer, in index order, places its nodes top to
      bottom. */
  method PlaceLayers(layers: seq<seq<string>>, nodeMap: map<string, JsonNodeData>) returns (result: seq<Placed>)
    requires Mapped(layers, nodeMap)
    ensures result == Place(layers, nodeMap)
  {
    result := [];
    for l := 0 to |layers|
      invariant Mapped(layers[..l], nodeMap)
      invariant result == Place(layers[..l], nodeMap)
    {
      assert layers[..l + 1][..l] == layers[..l];
      ghost var before := result;
      var layerNodes := layers[l];
      for k := 0 to |layerNodes|
        invariant result == before + PlaceLayer(layerNodes[..k], l, nodeMap)
      {
        var node := nodeMap[layerNodes[k]];
        result := result + [Placed(node, Position(l * LayerWidth, k * NodeHeight + (if l % 2 == 0 then 0 else NodeHeight / 2)))];
        assert PlaceLayer(layerNodes[..k + 1], l, nodeMap) == PlaceLayer(layerNodes[..k], l, nodeMap) + [Placed(node, Pos(l, k))];
      }
      assert layerNodes[..|layerNodes|] == layerNodes;
    }
    assert layers[..|layers|] == layers;
  }

  // ------------------------------------------------------------ the layout

  /** What the topological pass produces: non-empty layers holding each id
      at most once; the first layer is exactly the roots in key order; with
      unique ids every layer's nodes have all their predecessors in earlier
      layers, and every id left out has a predecessor that was left out too
      (it lies on or behind a cycle). */
  ghost predicate KahnLayers(nodes: seq<JsonNodeData>, kahn: seq<seq<string>>) {
    (forall l :: 0 <= l < |kahn| ==> kahn[l] != [])
    && NoDup(Flatten(kahn)) && Elems(Flatten(kahn)) <= IdSet(nodes)
    && (kahn == [] <==> Roots(FirstIds(nodes), nodes) == [])
    && (kahn != [] ==> kahn[0] == Roots(FirstIds(nodes), nodes))
    && (UniqueIds(nodes) ==> KahnOrder(nodes, kahn) && Earliest(nodes, kahn))
    && (UniqueIds(nodes) ==>
          forall t :: t in IdSet(nodes) && t !in Flatten(kahn) ==> !Settled(nodes, Elems(Flatten(kahn)), t))
  }

  /** The layers of the layout: the first `settled` from the topological
      pass, the rest overflow layers of the ids it left out, and every id in
      them known. */
  ghost predicate Laid(nodes: seq<JsonNodeData>, layers: seq<seq<string>>, settled: nat) {
    settled <= |layers| && KahnLayers(nodes, layers[..settled])
    && Chunked(layers[settled..], Unplaced(nodes, Elems(Flatten(layers[..settled]))))
    && Mapped(layers, NodeMap(nodes))
  }

  /** Lines 78-160: the node map, the in-degrees and the topological layers. */
  method SortTopologically(nodes: seq<JsonNodeData>) returns (nodeMap: map<string, JsonNodeData>, kahn: seq<seq<string>>, processed: set<string>)
    ensures nodeMap == NodeMap(nodes)
    ensures kahn == KahnLayersOf(nodes)
    ensures KahnLayers(nodes, kahn) && Elems(Flatten(kahn)) == processed
  {
    var order, inDegree;
    nodeMap, order, inDegree := IndexNodes(nodes);
    assert inDegree == InDegrees(nodes);
    var queue := InitialQueue(nodes, order, inDegree);
    RootsMembers(order, nodes);
    kahn, processed := Layering(nodes, nodeMap, inDegree, queue);
  }

  /** Lines 77-191: `calculateHierarchicalLayout`. `layers` are the layers the
      source keeps in its `layers` map: the first `settled` of them from the
      topological pass, the rest overflow layers. */
  method CalculateHierarchicalLayout(nodes: seq<JsonNodeData>) returns (result: seq<Placed>, ghost layers: seq<seq<string>>, ghost settled: nat)
    ensures Laid(nodes, layers, settled) && result == Place(layers, NodeMap(nodes))
    ensures layers[..settled] == KahnLayersOf(nodes)
    ensures forall i :: 0 <= i < |result| ==> result[i].node.id in NodeMap(nodes) && result[i].node == NodeMap(nodes)[result[i].node.id]
    ensures UniqueIds(nodes) ==> |result| == |nodes| && NoDup(PlacedIds(result)) && Elems(PlacedIds(result)) == IdSet(nodes)
  {
    var nodeMap, kahn, processed := SortTopologically(nodes);
    var all := AddRemaining(nodes, processed, kahn);
    assert all[..|kahn|] == kahn;
    UnplacedMembers(nodes, processed);
    LayersCover(nodes, all, |kahn|, processed);
    result := PlaceLayers(all, nodeMap);
    layers, settled := all, |kahn|;
    PlaceNodes(layers, nodeMap);
    if UniqueIds(nodes) {
      PlacedOnce(nodes, layers, settled, processed);
      PlaceIds(layers, nodeMap);
    }
  }

  /** Cutting into runs of five is determined by the ids: the overflow
      layers, and with them the whole layout, are a function of the input. */
  lemma ChunkedUnique(a: seq<seq<string>>, b: seq<seq<string>>, r: seq<string>)
    requires Chunked(a, r) && Chunked(b, r)
    ensures a == b
  {
    assert |a| == |b|;
    forall c | 0 <= c < |a| ensures a[c] == b[c] {
    }
  }

  /** With unique ids, layer `l` holds exactly the known ids that are in no
      earlier layer and whose predecessors all lie in earlier layers: each id
      is placed in the first layer its predecessors allow. */
  lemma LayerMembers(nodes: seq<JsonNodeData>, kahn: seq<seq<string>>, l: nat)
    requires KahnLayers(nodes, kahn) && UniqueIds(nodes) && l < |kahn|
    ensures forall t :: t in kahn[l] <==>
              t in IdSet(nodes) && t !in Flatten(kahn[..l]) && Settled(nodes, Elems(Flatten(kahn[..l])), t)
  {
    var before, upto := Flatten(kahn[..l]), Flatten(kahn[..l + 1]);
    assert kahn[..l + 1][..l] == kahn[..l];
    assert upto == before + kahn[l];
    assert kahn == kahn[..l + 1] + kahn[l + 1..];
    FlattenSplit(kahn[..l + 1], kahn[l + 1..]);
    forall t | t in kahn[l]
      ensures t in IdSet(nodes) && t !in before && Settled(nodes, Elems(before), t)
    {
      var k :| 0 <= k < |kahn[l]| && kahn[l][k] == t;
      FlattenMember(kahn, l, k);
      NoDupApart(before, kahn[l], Flatten(kahn[l + 1..]));
    }
  }

  /** In a duplicate-free concatenation the first two parts share no id. */
  lemma NoDupApart(a: seq<string>, b: seq<string>, c: seq<string>)
    requires NoDup(a + b + c)
    ensures forall x :: x in b ==> x !in a
  {
    var f := a + b + c;
    forall i, j | 0 <= i < |a| && 0 <= j < |b| ensures a[i] != b[j] {
      assert f[i] == a[i] && f[|a| + j] == b[j];
    }
  }

  /** A node with only an id and `nextNodes`. */
  function Plain(id: string, next: seq<string>): JsonNodeData {
    JsonNodeData(id, id, None, None, None, None, None, None, None, Some(next), None)
  }

  /** The fan-out `a -> b, c`. */
  function FanOut(): seq<JsonNodeData> {
    [Plain("a", ["b", "c"]), Plain("b", []), Plain("c", [])]
  }

  lemma FanOutIndex()
    ensures NodeMap(FanOut()) == map["a" := FanOut()[0], "b" := FanOut()[1], "c" := FanOut()[2]]
    ensures FirstIds(FanOut()) == ["a", "b", "c"]
  {
    var nodes := FanOut();
    assert nodes[..2] == nodes[..2] && nodes[..2][..1] == nodes[..1] && nodes[..1][..0] == [];
    assert NodeMap(nodes[..1]) == map["a" := nodes[0]];
    assert NodeMap(nodes[..2]) == map["a" := nodes[0], "b" := nodes[1]];
    assert FirstIds(nodes[..1]) == ["a"];
    assert FirstIds(nodes[..2]) == ["a", "b"];
  }

  lemma FanOutDegrees()
    ensures InDegree(FanOut(), "a") == 0 && InDegree(FanOut(), "b") == 1 && InDegree(FanOut(), "c") == 1
    ensures InDegrees(FanOut()) == map["a" := 0, "b" := 1, "c" := 1]
  {
    var nodes := FanOut();
    assert nodes[..2][..1] == nodes[..1] && nodes[..1][..0] == [];
    assert Links(nodes[0]) == ["b", "c"] && Links(nodes[1]) == [] && Links(nodes[2]) == [];
    assert ["b", "c"][..1] == ["b"] && ["b"][..0] == [];
    forall t | t in {"a", "b", "c"}
      ensures InDegree(nodes, t) == if t == "a" then 0 else 1
    {
      assert Occurrences(t, ["b", "c"]) == if t == "a" then 0 else 1;
      assert Pending(nodes[..1], {}, t) == Occurrences(t, ["b", "c"]);
      assert Pending(nodes[..2], {}, t) == Pending(nodes[..1], {}, t);
    }
    assert IdSet(nodes) == {"a", "b", "c"} by {
      assert nodes[0].id == "a" && nodes[1].id == "b" && nodes[2].id == "c";
    }
  }

  lemma FanOutRoots()
    ensures Roots(FirstIds(FanOut()), FanOut()) == ["a"]
  {
    FanOutIndex();
    FanOutDegrees();
    var nodes, ids := FanOut(), ["a", "b", "c"];
    assert ids[..2] == ["a", "b"] && ids[..2][..1] == ["a"] && ids[..1][..0] == [];
    assert Roots(ids[..1], nodes) == ["a"];
    assert Roots(ids[..2], nodes) == ["a"];
  }

  lemma FanOutLinks()
    ensures LinksOf(NodeMap(FanOut()), "a") == ["b", "c"]
    ensures LinksOf(NodeMap(FanOut()), "b") == [] && LinksOf(NodeMap(FanOut()), "c") == []
  {
    var nodes := FanOut();
    FanOutIndex();
    assert Links(nodes[0]) == ["b", "c"] && Links(nodes[1]) == [] && Links(nodes[2]) == [];
  }

  /** Draining the root queue `[a]` releases `b` and `c` in link order. */
  lemma FanOutFirstLayer()
    ensures LayerOf(NodeMap(FanOut()), map["a" := 0, "b" := 1, "c" := 1], ["a"], {})
              == LayerState(["a"], map["a" := 0, "b" := 0, "c" := 0], ["b", "c"], {"a"})
  {
    var nodeMap := NodeMap(FanOut());
    var degrees := map["a" := 0, "b" := 1, "c" := 1];
    var degrees' := map["a" := 0, "b" := 0, "c" := 0];
    FanOutLinks();
    FanOutRelease();
    assert ["a"][1..] == [] && [] + ["a"] == ["a"] && {} + {"a"} == {"a"};
    var after := LayerState(["a"], degrees', ["b", "c"], {"a"});
    assert Drain(nodeMap, after, 0) == after;
    assert Drain(nodeMap, LayerState([], degrees, ["a"], {}), 1) == Drain(nodeMap, after, 0);
  }

  /** Draining `[b, c]` releases nothing further. */
  lemma FanOutSecondLayer()
    ensures LayerOf(NodeMap(FanOut()), map["a" := 0, "b" := 0, "c" := 0], ["b", "c"], {"a"})
              == LayerState(["b", "c"], map["a" := 0, "b" := 0, "c" := 0], [], {"a", "b", "c"})
  {
    var nodeMap := NodeMap(FanOut());
    var degrees := map["a" := 0, "b" := 0, "c" := 0];
    FanOutLinks();
    assert ["b", "c"][1..] == ["c"] && ["c"][1..] == [];
    assert [] + ["b"] == ["b"] && ["b"] + ["c"] == ["b", "c"];
    assert {"a"} + {"b"} == {"a", "b"} && {"a", "b"} + {"c"} == {"a", "b", "c"};
    assert ReleaseAll([], degrees, {"a", "b"}, ["c"]) == (degrees, ["c"]);
    assert ReleaseAll([], degrees, {"a", "b", "c"}, []) == (degrees, []);
    var last := LayerState(["b", "c"], degrees, [], {"a", "b", "c"});
    assert Drain(nodeMap, last, 0) == last;
    var middle := LayerState(["b"], degrees, ["c"], {"a", "b"});
    assert Drain(nodeMap, middle, 1) == Drain(nodeMap, last, 0);
    assert Drain(nodeMap, LayerState([], degrees, ["b", "c"], {"a"}), 2) == Drain(nodeMap, middle, 1);
  }

  /** For the fan-out, `b` and `c` share the second layer in link order. */
  lemma FanOutLayers()
    ensures KahnLayersOf(FanOut()) == [["a"], ["b", "c"]]
  {
    var nodeMap := NodeMap(FanOut());
    var degrees := map["a" := 0, "b" := 1, "c" := 1];
    var degrees' := map["a" := 0, "b" := 0, "c" := 0];
    assert Kahn(nodeMap, degrees', ["b", "c"], {"a"}) == [["b", "c"]] by {
      FanOutSecondLayer();
      assert Kahn(nodeMap, degrees', [], {"a", "b", "c"}) == [];
    }
    assert Kahn(nodeMap, degrees, ["a"], {}) == [["a"], ["b", "c"]] by {
      FanOutFirstLayer();
    }
    FanOutDegrees();
    FanOutRoots();
  }

  lemma FanOutRelease()
    ensures ReleaseAll(["b", "c"], map["a" := 0, "b" := 1, "c" := 1], {"a"}, [])
              == (map["a" := 0, "b" := 0, "c" := 0], ["b", "c"])
  {
    var degrees := map["a" := 0, "b" := 1, "c" := 1];
    var d1, d2 := degrees["b" := 0], degrees["b" := 0]["c" := 0];
    assert "a"[0] != "b"[0] && "a"[0] != "c"[0] && "b"[0] != "c"[0];
    assert "b" in degrees && "b" !in {"a"} && degrees["b"] == 1 && d1["b"] == 0;
    assert "c" in d1 && "c" !in {"a"} && d1["c"] == 1 && d2["c"] == 0;
    assert d2 == map["a" := 0, "b" := 0, "c" := 0];
    assert ["b", "c"][1..] == ["c"] && ["c"][1..] == [];
    assert [] + ["b"] == ["b"] && ["b"] + ["c"] == ["b", "c"];
    assert d1["c" := d1["c"] - 1] == d2;
    assert ReleaseAll([], d2, {"a"}, ["b", "c"]) == (d2, ["b", "c"]);
    assert ReleaseAll(["c"], d1, {"a"}, ["b"]) == ReleaseAll([], d2, {"a"}, ["b", "c"]);
    assert degrees["b" := degrees["b"] - 1] == d1;
    assert ReleaseAll(["b", "c"], degrees, {"a"}, []) == ReleaseAll(["c"], d1, {"a"}, ["b"]);
  }

  /** Each fan-out column on its own: one column per layer, odd columns
      shifted down by half a node height. */
  lemma FanOutColumns()
    ensures "a" in NodeMap(FanOut()) && "b" in NodeMap(FanOut()) && "c" in NodeMap(FanOut())
    ensures PlaceLayer(["a"], 0, NodeMap(FanOut())) == [Placed(FanOut()[0], Position(0, 0))]
    ensures PlaceLayer(["b", "c"], 1, NodeMap(FanOut()))
              == [Placed(FanOut()[1], Position(300, 90)), Placed(FanOut()[2], Position(300, 270))]
  {
    FanOutIndex();
    assert Pos(0, 0) == Position(0, 0);
    assert Pos(1, 0) == Position(300, 90) && Pos(1, 1) == Position(300, 270);
  }

  /** Placing the two fan-out layers, first column first. */
  lemma FanOutPlace()
    ensures Mapped([["a"], ["b", "c"]], NodeMap(FanOut()))
    ensures Place([["a"], ["b", "c"]], NodeMap(FanOut()))
              == [Placed(FanOut()[0], Position(0, 0)), Placed(FanOut()[1], Position(300, 90)), Placed(FanOut()[2], Position(300, 270))]
  {
    var nodes := FanOut();
    var nodeMap := NodeMap(nodes);
    FanOutColumns();
    var layers := [["a"], ["b", "c"]];
    assert Mapped(layers, nodeMap);
    var first := Placed(nodes[0], Position(0, 0));
    assert layers[..1] == [["a"]] && [["a"]][..0] == [];
    assert Place([["a"]], nodeMap) == [first] by {
      assert Place([], nodeMap) == [];
    }
    assert Place(layers, nodeMap) == Place([["a"]], nodeMap) + PlaceLayer(["b", "c"], 1, nodeMap);
  }

  /** ... so `a` lands at (0, 0), `b` at (300, 90) and `c` at (300, 270). */
  lemma FanOutLayout()
    ensures Mapped(KahnLayersOf(FanOut()), NodeMap(FanOut()))
            && Place(KahnLayersOf(FanOut()), NodeMap(FanOut()))
               == [Placed(FanOut()[0], Position(0, 0)), Placed(FanOut()[1], Position(300, 90)), Placed(FanOut()[2], Position(300, 270))]
  {
    FanOutLayers();
    FanOutPlace();
  }

  function PlacedIds(result: seq<Placed>): seq<string> {
    seq(|result|, k requires 0 <= k < |result| => result[k].node.id)
  }

  lemma {:induction false} FlattenSplit(a: seq<seq<string>>, b: seq<seq<string>>)
    ensures Flatten(a + b) == Flatten(a) + Flatten(b)
    decreases |b|
  {
    if b != [] {
      var p := b[..|b| - 1];
      assert (a + b)[..|a + b| - 1] == a + p;
      assert (a + b)[|a + b| - 1] == b[|b| - 1];
      FlattenSplit(a, p);
      assert Flatten(a + b) == Flatten(a + p) + b[|b| - 1];
      assert Flatten(b) == Flatten(p) + b[|b| - 1];
      assert (Flatten(a) + Flatten(p)) + b[|b| - 1] == Flatten(a) + (Flatten(p) + b[|b| - 1]);
    } else {
      assert a + b == a;
    }
  }

  lemma {:induction false} FlattenMember(layers: seq<seq<string>>, l: nat, k: nat)
    requires l < |layers| && k < |layers[l]|
    ensures layers[l][k] in Flatten(layers)
    decreases |layers|
  {
    var p := layers[..|layers| - 1];
    if l < |layers| - 1 {
      assert p[l] == layers[l];
      FlattenMember(p, l, k);
    }
  }

  /** Cutting into chunks loses and adds nothing. */
  lemma {:induction false} ChunkedFlatten(chunks: seq<seq<string>>, r: seq<string>)
    requires Chunked(chunks, r)
    ensures Flatten(chunks) == r
  {
    ChunkPrefix(chunks, r, |chunks|);
    assert chunks[..|chunks|] == chunks;
    assert r[..|r|] == r;
  }

  lemma {:induction false} ChunkPrefix(chunks: seq<seq<string>>, r: seq<string>, m: nat)
    requires Chunked(chunks, r) && m <= |chunks|
    ensures Flatten(chunks[..m]) == r[..Min(5 * m, |r|)]
    decreases m
  {
    if m > 0 {
      ChunkPrefix(chunks, r, m - 1);
      assert chunks[..m][..m - 1] == chunks[..m - 1];
      assert r[..Min(5 * m, |r|)] == r[..5 * (m - 1)] + r[5 * (m - 1) .. Min(5 * m, |r|)];
    }
  }

  lemma {:induction false} UnplacedMembers(nodes: seq<JsonNodeData>, processed: set<string>)
    ensures forall t :: t in Unplaced(nodes, processed) <==> t in IdSet(nodes) && t !in processed
    ensures UniqueIds(nodes) ==> NoDup(Unplaced(nodes, processed))
    decreases |nodes|
  {
    if nodes != [] {
      var p := nodes[..|nodes| - 1];
      var last := nodes[|nodes| - 1];
      UnplacedMembers(p, processed);
      assert IdSet(nodes) == IdSet(p) + {last.id} by {
        assert forall k :: 0 <= k < |p| ==> p[k] == nodes[k];
      }
      if UniqueIds(nodes) {
        assert Ids(p) == Ids(nodes)[..|nodes| - 1];
        assert last.id !in IdSet(p) by {
          forall k | 0 <= k < |p| ensures p[k].id != last.id {
            assert Ids(nodes)[k] != Ids(nodes)[|nodes| - 1];
          }
        }
      }
    }
  }

  lemma {:induction false} NoDupCard(s: seq<string>)
    requires NoDup(s)
    ensures |Elems(s)| == |s|
    decreases |s|
  {
    if s != [] {
      var p := s[..|s| - 1];
      assert s == p + [s[|s| - 1]];
      assert Elems(s) == Elems(p) + {s[|s| - 1]};
      NoDupCard(p);
    }
  }

  /** Every id in the layers is a known id. */
  lemma LayersCover(nodes: seq<JsonNodeData>, layers: seq<seq<string>>, settled: nat, processed: set<string>)
    requires settled <= |layers| && Elems(Flatten(layers[..settled])) == processed && processed <= IdSet(nodes)
    requires Chunked(layers[settled..], Unplaced(nodes, processed))
    requires forall t :: t in Unplaced(nodes, processed) <==> t in IdSet(nodes) && t !in processed
    ensures Flatten(layers) == Flatten(layers[..settled]) + Unplaced(nodes, processed)
    ensures Mapped(layers, NodeMap(nodes))
  {
    assert layers == layers[..settled] + layers[settled..];
    FlattenSplit(layers[..settled], layers[settled..]);
    ChunkedFlatten(layers[settled..], Unplaced(nodes, processed));
    forall l, k | 0 <= l < |layers| && 0 <= k < |layers[l]| ensures layers[l][k] in NodeMap(nodes) {
      FlattenMember(layers, l, k);
    }
  }

  /** With unique ids the layers hold every id exactly once. */
  lemma PlacedOnce(nodes: seq<JsonNodeData>, layers: seq<seq<string>>, settled: nat, processed: set<string>)
    requires UniqueIds(nodes) && settled <= |layers|
    requires NoDup(Flatten(layers[..settled])) && Elems(Flatten(layers[..settled])) == processed && processed <= IdSet(nodes)
    requires Flatten(layers) == Flatten(layers[..settled]) + Unplaced(nodes, processed)
    ensures NoDup(Flatten(layers)) && Elems(Flatten(layers)) == IdSet(nodes) && |Flatten(layers)| == |nodes|
  {
    UnplacedMembers(nodes, processed);
    var settledIds, rest := Flatten(layers[..settled]), Unplaced(nodes, processed);
    var all := settledIds + rest;
    NoDupConcat(settledIds, rest);
    assert Elems(all) == Elems(settledIds) + Elems(rest);
    assert Elems(all) == IdSet(nodes) by {
      forall x | x in IdSet(nodes) ensures x in Elems(all) {
        if x !in processed { assert x in rest; }
      }
    }
    NoDupCard(all);
    IdsCard(nodes);
  }

  /** With unique ids there are as many ids as nodes. */
  lemma IdsCard(nodes: seq<JsonNodeData>)
    requires UniqueIds(nodes)
    ensures |IdSet(nodes)| == |nodes|
  {
    assert Elems(Ids(nodes)) == IdSet(nodes) by {
      forall x | x in IdSet(nodes) ensures x in Elems(Ids(nodes)) {
        var k :| 0 <= k < |nodes| && nodes[k].id == x;
        assert Ids(nodes)[k] == x;
      }
    }
    NoDupCard(Ids(nodes));
  }

  lemma {:induction false} PlaceIds(layers: seq<seq<string>>, nodeMap: map<string, JsonNodeData>)
    requires Mapped(layers, nodeMap) && forall x :: x in nodeMap ==> nodeMap[x].id == x
    ensures PlacedIds(Place(layers, nodeMap)) == Flatten(layers)
    decreases |layers|
  {
    if layers != [] {
      var p := layers[..|layers| - 1];
      var last := layers[|layers| - 1];
      assert Mapped(p, nodeMap) by {
        assert forall l :: 0 <= l < |p| ==> p[l] == layers[l];
      }
      PlaceIds(p, nodeMap);
      var a, b := Place(p, nodeMap), PlaceLayer(last, |layers| - 1, nodeMap);
      assert PlacedIds(a + b) == PlacedIds(a) + PlacedIds(b);
      assert PlacedIds(b) == last;
    }
  }

  /** Each placed node is the map's entry for its own id. */
  lemma {:induction false} PlaceNodes(layers: seq<seq<string>>, nodeMap: map<string, JsonNodeData>)
    requires Mapped(layers, nodeMap) && forall x :: x in nodeMap ==> nodeMap[x].id == x
    ensures forall i :: 0 <= i < |Place(layers, nodeMap)| ==>
              Place(layers, nodeMap)[i].node.id in nodeMap && Place(layers, nodeMap)[i].node == nodeMap[Place(layers, nodeMap)[i].node.id]
    decreases |layers|
  {
    if layers != [] {
      var p := layers[..|layers| - 1];
      assert Mapped(p, nodeMap) by {
        assert forall l :: 0 <= l < |p| ==> p[l] == layers[l];
      }
      PlaceNodes(p, nodeMap);
      var a: seq<Placed> := Place(p, nodeMap);
      var b: seq<Placed> := PlaceLayer(layers[|layers| - 1], |layers| - 1, nodeMap);
      var all: seq<Placed> := a + b;
      assert Place(layers, nodeMap) == all;
      forall i | 0 <= i < |all| ensures all[i].node.id in nodeMap && all[i].node == nodeMap[all[i].node.id] {
        if i >= |a| {
          assert all[i] == b[i - |a|];
        } else {
          assert all[i] == a[i];
        }
      }
    }
  }

  lemma {:induction false} PlaceLength(layers: seq<seq<string>>, nodeMap: map<string, JsonNodeData>)
    requires Mapped(layers, nodeMap)
    ensures |Place(layers, nodeMap)| == |Flatten(layers)|
    decreases |layers|
  {
    if layers != [] {
      var p := layers[..|layers| - 1];
      assert Mapped(p, nodeMap) by {
        assert forall l :: 0 <= l < |p| ==> p[l] == layers[l];
      }
      PlaceLength(p, nodeMap);
    }
  }

  /** The node `k` of layer `l` lands at `x = 300 * l` and `y = 180 * k`,
      90 lower on odd layers, after all nodes of earlier layers. */
  lemma {:induction false} PlaceAt(layers: seq<seq<string>>, nodeMap: map<string, JsonNodeData>, l: nat, k: nat)
    requires Mapped(layers, nodeMap) && l < |layers| && k < |layers[l]|
    ensures |Place(layers, nodeMap)| == |Flatten(layers)|
    ensures |Flatten(layers[..l])| + k < |Flatten(layers)|
    ensures Place(layers, nodeMap)[|Flatten(layers[..l])| + k]
              == Placed(nodeMap[layers[l][k]], Position(l * 300, k * 180 + (if l % 2 == 1 then 90 else 0)))
    decreases |layers|
  {
    var p := layers[..|layers| - 1];
    assert Mapped(p, nodeMap) by {
      assert forall i :: 0 <= i < |p| ==> p[i] == layers[i];
    }
    PlaceLength(layers, nodeMap);
    PlaceLength(p, nodeMap);
    if l == |layers| - 1 {
      assert layers[..l] == p;
    } else {
      assert p[..l] == layers[..l] && p[l] == layers[l];
      PlaceAt(p, nodeMap, l, k);
    }
  }
}
