/** Graph metrics for the canvas (`calculateGraphMetrics`): node and edge
    counts, a cluster estimate, and the deepest path a depth-first sweep with
    one shared visited set finds. */
module Metrics {
  import opened FlowTypes

  function Max(a: nat, b: nat): nat {
    if a >= b then a else b
  }

  function NodeIds(nodes: seq<FlowNode>): seq<string> {
    seq(|nodes|, k requires 0 <= k < |nodes| => nodes[k].id)
  }

  predicate NoDup(s: seq<string>) {
    forall i, j :: 0 <= i < j < |s| ==> s[i] != s[j]
  }

  // -------------------------------------------------------- the adjacency

  /** Targets of the edges leaving `id`, in edge order. */
  function Successors(edges: seq<FlowEdge>, id: string): seq<string>
    decreases |edges|
  {
    if edges == [] then []
    else
      var e := edges[|edges| - 1];
      Successors(edges[..|edges| - 1], id) + (if e.source == id then [e.target] else [])
  }

  function Sources(edges: seq<FlowEdge>): set<string> {
    set k | 0 <= k < |edges| :: edges[k].source
  }

  /** Lines 183-190: each source with its successors, in edge order. */
  function Adjacency(edges: seq<FlowEdge>): map<string, seq<string>> {
    map s | s in Sources(edges) :: Successors(edges, s)
  }

  /** `adjacencyList.get(id) || []`. */
  function Children(adj: map<string, seq<string>>, id: string): seq<string> {
    if id in adj then adj[id] else []
  }

  /** Every id some list of `adj` holds. */
  function Targets(adj: map<string, seq<string>>): set<string> {
    set s, i | s in adj && 0 <= i < |adj[s]| :: adj[s][i]
  }

  /** A walk along `adj`: each id is a child of the one before. */
  predicate IsPath(adj: map<string, seq<string>>, p: seq<string>) {
    forall i :: 0 <= i < |p| - 1 ==> p[i + 1] in Children(adj, p[i])
  }

  /** One more edge appends its target to its source's list, creating the
      list when the source is new. */
  lemma AdjacencyStep(edges: seq<FlowEdge>, i: nat)
    requires i < |edges|
    ensures Adjacency(edges[..i + 1])
            == Adjacency(edges[..i])[edges[i].source := Children(Adjacency(edges[..i]), edges[i].source) + [edges[i].target]]
  {
    var p, q, e := edges[..i], edges[..i + 1], edges[i];
    assert q[..i] == p && q[i] == e;
    assert Sources(q) == Sources(p) + {e.source} by {
      assert forall k :: 0 <= k < i ==> q[k] == p[k];
    }
    var m := Adjacency(p)[e.source := Children(Adjacency(p), e.source) + [e.target]];
    forall x | x in m ensures Adjacency(q)[x] == m[x] {
      assert Successors(q, x) == Successors(p, x) + (if e.source == x then [e.target] else []);
      ChildrenAreSuccessors(p, x);
    }
    assert Adjacency(q).Keys == m.Keys;
  }

  /** Lines 185-190. */
  method BuildAdjacency(edges: seq<FlowEdge>) returns (adj: map<string, seq<string>>)
    ensures adj == Adjacency(edges)
  {
    adj := map[];
    assert Sources(edges[..0]) == {};
    for i := 0 to |edges|
      invariant adj == Adjacency(edges[..i])
    {
      var edge := edges[i];
      AdjacencyStep(edges, i);
      if edge.source !in adj {
        adj := adj[edge.source := []];
      }
      adj := adj[edge.source := adj[edge.source] + [edge.target]];
    }
    assert edges[..|edges|] == edges;
  }

  lemma {:induction false} SuccessorsOutside(edges: seq<FlowEdge>, s: string)
    requires s !in Sources(edges)
    ensures Successors(edges, s) == []
    decreases |edges|
  {
    if edges != [] {
      var p := edges[..|edges| - 1];
      assert s !in Sources(p) by {
        assert forall k :: 0 <= k < |p| ==> p[k] == edges[k];
      }
      SuccessorsOutside(p, s);
    }
  }

  /** The children of an id are the targets of its edges, in edge order. */
  lemma ChildrenAreSuccessors(edges: seq<FlowEdge>, id: string)
    ensures Children(Adjacency(edges), id) == Successors(edges, id)
  {
    if id !in Sources(edges) {
      SuccessorsOutside(edges, id);
    }
  }

  /** A successor is the target of an edge from the id. */
  lemma {:induction false} SuccessorEdge(edges: seq<FlowEdge>, id: string, t: string)
    requires t in Successors(edges, id)
    ensures exists k :: 0 <= k < |edges| && edges[k].source == id && edges[k].target == t
    decreases |edges|
  {
    var p := edges[..|edges| - 1];
    if t in Successors(p, id) {
      SuccessorEdge(p, id, t);
      var k :| 0 <= k < |p| && p[k].source == id && p[k].target == t;
      assert edges[k] == p[k];
    } else {
      assert edges[|edges| - 1].source == id && edges[|edges| - 1].target == t;
    }
  }

  // ------------------------------------------------- the depth-first sweep

  /** The state of a sweep: the deepest depth so far, the visited ids, and a
      path that reaches that depth. */
  datatype Walk = Walk(best: nat, visited: set<string>, path: seq<string>)

  /** Folding a child's walk into its parent's: the deeper one wins, the
      earlier one on a tie (`Math.max`). */
  function Taken(acc: Walk, nodeId: string, child: Walk): Walk {
    Walk(Max(acc.best, child.best), child.visited, if child.best > acc.best then [nodeId] + child.path else acc.path)
  }

  /** Lines 205-218: `dfs(nodeId, ..., visited, depth)` as a value: the id
      is marked visited, then its children are explored in order. What the
      result means is `Explored`, proved in `VisitExplored`. */
  function Visit(adj: map<string, seq<string>>, nodeId: string, visited: set<string>, depth: nat): (w: Walk)
    requires nodeId !in visited
    ensures visited + {nodeId} <= w.visited
    decreases Targets(adj) + {nodeId} - visited, 0
  {
    VisitChildren(adj, nodeId, Children(adj, nodeId), depth, Walk(depth, visited + {nodeId}, [nodeId]))
  }

  /** Lines 211-215: the children in order, each unvisited one explored with
      the visited set as the earlier ones left it. */
  function VisitChildren(adj: map<string, seq<string>>, nodeId: string, children: seq<string>, depth: nat, acc: Walk): (w: Walk)
    requires forall i :: 0 <= i < |children| ==> children[i] in Children(adj, nodeId)
    ensures acc.visited <= w.visited
    decreases Targets(adj) - acc.visited, 1, |children|
  {
    if children == [] then acc
    else
      var child := children[0];
      assert forall i :: 0 <= i < |children| - 1 ==> children[1..][i] == children[i + 1];
      assert child in Targets(adj) by {
        ChildTarget(adj, nodeId, child);
      }
      if child in acc.visited then VisitChildren(adj, nodeId, children[1..], depth, acc)
      else VisitChildren(adj, nodeId, children[1..], depth, Taken(acc, nodeId, Visit(adj, child, acc.visited, depth + 1)))
  }

  /** What `dfs(nodeId, ..., visited, depth)` leaves: a result at least
      `depth`; a visited set grown by the id and by ids of the adjacency only;
      and a path that starts at the id, follows the adjacency, repeats no id,
      uses only ids this call visited, and is one longer than the depth
      gained. */
  ghost predicate Explored(adj: map<string, seq<string>>, nodeId: string, visited: set<string>, depth: nat, w: Walk) {
    && w.best >= depth
    && visited + {nodeId} <= w.visited <= visited + {nodeId} + Targets(adj)
    && w.path != [] && w.path[0] == nodeId && |w.path| == w.best - depth + 1
    && IsPath(adj, w.path) && NoDup(w.path)
    && (forall x :: x in w.path ==> x in w.visited && x !in visited)
  }

  /** A walk of `dfs(nodeId, ..., depth)` under way: the id is visited, and
      the path starts there, follows the adjacency, repeats no id, uses only
      visited ids, and is one longer than the depth gained. */
  ghost predicate Started(adj: map<string, seq<string>>, nodeId: string, depth: nat, acc: Walk) {
    && nodeId in acc.visited
    && acc.path != [] && acc.path[0] == nodeId && acc.best >= depth && |acc.path| == acc.best - depth + 1
    && IsPath(adj, acc.path) && NoDup(acc.path) && (forall x :: x in acc.path ==> x in acc.visited)
  }

  /** What the children's loop leaves, started from `acc`: a walk still well
      formed, no shallower, grown only by ids of the adjacency, whose path is
      the old one or brings in only ids that were not visited. */
  ghost predicate Continued(adj: map<string, seq<string>>, nodeId: string, depth: nat, acc: Walk, w: Walk) {
    && Started(adj, nodeId, depth, w)
    && w.best >= acc.best
    && acc.visited <= w.visited <= acc.visited + Targets(adj)
    && (forall x :: x in w.path ==> x in acc.path || x !in acc.visited)
  }

  /** The depth `dfs` returns is a real path of the adjacency. */
  lemma {:induction false} VisitExplored(adj: map<string, seq<string>>, nodeId: string, visited: set<string>, depth: nat)
    requires nodeId !in visited
    ensures Explored(adj, nodeId, visited, depth, Visit(adj, nodeId, visited, depth))
    decreases Targets(adj) + {nodeId} - visited, 0
  {
    VisitChildrenExplored(adj, nodeId, Children(adj, nodeId), depth, Walk(depth, visited + {nodeId}, [nodeId]));
  }

  lemma {:induction false} VisitChildrenExplored(adj: map<string, seq<string>>, nodeId: string, children: seq<string>,
                                                depth: nat, acc: Walk)
    requires forall i :: 0 <= i < |children| ==> children[i] in Children(adj, nodeId)
    requires Started(adj, nodeId, depth, acc)
    ensures Continued(adj, nodeId, depth, acc, VisitChildren(adj, nodeId, children, depth, acc))
    decreases Targets(adj) - acc.visited, 1, |children|
  {
    if children != [] {
      var child := children[0];
      assert forall i :: 0 <= i < |children| - 1 ==> children[1..][i] == children[i + 1];
      ChildTarget(adj, nodeId, child);
      if child in acc.visited {
        VisitChildrenExplored(adj, nodeId, children[1..], depth, acc);
      } else {
        var c := Visit(adj, child, acc.visited, depth + 1);
        VisitExplored(adj, child, acc.visited, depth + 1);
        TakenStarted(adj, nodeId, depth, acc, child, c);
        var next := Taken(acc, nodeId, c);
        VisitChildrenExplored(adj, nodeId, children[1..], depth, next);
      }
    }
  }

  /** Folding in the walk of an unvisited child keeps the parent's walk
      well formed; the path it may bring in is new. */
  lemma TakenStarted(adj: map<string, seq<string>>, nodeId: string, depth: nat, acc: Walk, child: string, c: Walk)
    requires Started(adj, nodeId, depth, acc)
    requires child in Children(adj, nodeId) && child !in acc.visited
    requires Explored(adj, child, acc.visited, depth + 1, c)
    ensures Started(adj, nodeId, depth, Taken(acc, nodeId, c))
    ensures forall x :: x in Taken(acc, nodeId, c).path ==> x in acc.path || x !in acc.visited
  {
    var next := Taken(acc, nodeId, c);
    if c.best > acc.best {
      var path := [nodeId] + c.path;
      assert next.path == path;
      assert forall i :: 1 <= i < |path| ==> path[i] == c.path[i - 1];
      assert nodeId !in c.path;
      forall i | 0 <= i < |path| - 1 ensures path[i + 1] in Children(adj, path[i]) {
        if i > 0 {
          assert path[i] == c.path[i - 1] && path[i + 1] == c.path[i];
        }
      }
    } else {
      assert next.path == acc.path;
    }
  }

  /** One step of `VisitChildren`. */
  lemma VisitChildrenStep(adj: map<string, seq<string>>, nodeId: string, children: seq<string>, depth: nat, acc: Walk)
    requires children != [] && forall i :: 0 <= i < |children| ==> children[i] in Children(adj, nodeId)
    ensures children[0] in acc.visited ==>
              VisitChildren(adj, nodeId, children, depth, acc) == VisitChildren(adj, nodeId, children[1..], depth, acc)
    ensures children[0] !in acc.visited ==>
              VisitChildren(adj, nodeId, children, depth, acc)
              == VisitChildren(adj, nodeId, children[1..], depth, Taken(acc, nodeId, Visit(adj, children[0], acc.visited, depth + 1)))
  {
  }

  lemma ChildTarget(adj: map<string, seq<string>>, id: string, child: string)
    requires child in Children(adj, id)
    ensures child in Targets(adj)
  {
    assert id in adj;
    var k :| 0 <= k < |adj[id]| && adj[id][k] == child;
  }

  /** The loop of lines 211-215 part way: `rest` are the children still to
      come, and finishing them from `acc` gives the walk of the whole call. */
  ghost predicate Pending(adj: map<string, seq<string>>, nodeId: string, visited: set<string>, depth: nat,
                          rest: seq<string>, acc: Walk) {
    && nodeId !in visited && visited + {nodeId} <= acc.visited
    && (forall i :: 0 <= i < |rest| ==> rest[i] in Children(adj, nodeId))
    && VisitChildren(adj, nodeId, rest, depth, acc) == Visit(adj, nodeId, visited, depth)
  }

  /** One child of the loop: a visited one is skipped; an unvisited one is
      explored on a smaller frontier and folded in. */
  lemma PendingStep(adj: map<string, seq<string>>, nodeId: string, visited: set<string>, depth: nat,
                    rest: seq<string>, acc: Walk)
    requires rest != [] && Pending(adj, nodeId, visited, depth, rest, acc)
    ensures rest[0] in acc.visited ==> Pending(adj, nodeId, visited, depth, rest[1..], acc)
    ensures rest[0] !in acc.visited ==>
              && Targets(adj) + {rest[0]} - acc.visited < Targets(adj) + {nodeId} - visited
              && Pending(adj, nodeId, visited, depth, rest[1..],
                         Taken(acc, nodeId, Visit(adj, rest[0], acc.visited, depth + 1)))
  {
    ChildTarget(adj, nodeId, rest[0]);
    VisitChildrenStep(adj, nodeId, rest, depth, acc);
    assert forall i :: 0 <= i < |rest| - 1 ==> rest[1..][i] == rest[i + 1];
    if rest[0] !in acc.visited {
      assert nodeId in Targets(adj) + {nodeId} - visited;
    }
  }

  /** Before the first child, the whole call is still to come. */
  lemma PendingStart(adj: map<string, seq<string>>, nodeId: string, visited: set<string>, depth: nat)
    requires nodeId !in visited
    ensures Pending(adj, nodeId, visited, depth, Children(adj, nodeId), Walk(depth, visited + {nodeId}, [nodeId]))
  {
  }

  /** After the last child, the walk is the call's. */
  lemma PendingDone(adj: map<string, seq<string>>, nodeId: string, visited: set<string>, depth: nat, acc: Walk)
    requires Pending(adj, nodeId, visited, depth, [], acc)
    ensures acc == Visit(adj, nodeId, visited, depth)
  {
  }

  /** Lines 205-218, with the shared visited set passed in and handed back. */
  method Dfs(nodeId: string, adj: map<string, seq<string>>, visited: set<string>, depth: nat)
    returns (maxChildDepth: nat, visitedAfter: set<string>)
    requires nodeId !in visited
    ensures maxChildDepth == Visit(adj, nodeId, visited, depth).best
    ensures visitedAfter == Visit(adj, nodeId, visited, depth).visited
    decreases Targets(adj) + {nodeId} - visited, 0
  {
    visitedAfter := visited + {nodeId};
    maxChildDepth := depth;
    var children := Children(adj, nodeId);
    ghost var acc := Walk(depth, visitedAfter, [nodeId]);
    PendingStart(adj, nodeId, visited, depth);
    assert children[0..] == children;
    for i := 0 to |children|
      invariant acc.best == maxChildDepth && acc.visited == visitedAfter
      invariant Pending(adj, nodeId, visited, depth, children[i..], acc)
    {
      var childId := children[i];
      assert children[i..][0] == childId && children[i..][1..] == children[i + 1..];
      PendingStep(adj, nodeId, visited, depth, children[i..], acc);
      if childId !in visitedAfter {
        var childDepth;
        childDepth, visitedAfter := Dfs(childId, adj, visitedAfter, depth + 1);
        acc := Taken(acc, nodeId, Visit(adj, childId, acc.visited, depth + 1));
        maxChildDepth := Max(maxChildDepth, childDepth);
      }
    }
    assert children[|children|..] == [];
    PendingDone(adj, nodeId, visited, depth, acc);
  }

  // ------------------------------------------------------ the whole sweep

  /** Node ids and edge targets: every id a sweep can reach. */
  function Universe(nodes: seq<FlowNode>, edges: seq<FlowEdge>): set<string> {
    (set k | 0 <= k < |nodes| :: nodes[k].id) + (set k | 0 <= k < |edges| :: edges[k].target)
  }

  function Elems(s: seq<string>): set<string> {
    set x | x in s
  }

  /** The sweep state of lines 192-200: the visited ids come from the roots
      and the adjacency, and a positive depth comes with a path of one more id
      that starts at a root, follows the adjacency, repeats no id and was
      visited. */
  ghost predicate Deepest(adj: map<string, seq<string>>, roots: set<string>, acc: Walk) {
    && acc.visited <= roots + Targets(adj)
    && (acc.best > 0 ==>
          && |acc.path| == acc.best + 1 && acc.path[0] in roots
          && IsPath(adj, acc.path) && NoDup(acc.path) && Elems(acc.path) <= acc.visited)
  }

  /** Lines 195-200: each id not yet visited starts a `dfs` at depth 0 on
      the shared visited set; the deepest result wins. */
  function Sweep(adj: map<string, seq<string>>, ids: seq<string>, acc: Walk): (w: Walk)
    ensures acc.visited <= w.visited
    decreases |ids|
  {
    if ids == [] then acc
    else if ids[0] in acc.visited then Sweep(adj, ids[1..], acc)
    else
      var d := Visit(adj, ids[0], acc.visited, 0);
      Sweep(adj, ids[1..], Walk(Max(acc.best, d.best), d.visited, if d.best > acc.best then d.path else acc.path))
  }

  /** The sweep keeps `Deepest`, and visits something when there is an id. */
  lemma {:induction false} SweepDeepest(adj: map<string, seq<string>>, roots: set<string>, ids: seq<string>, acc: Walk)
    requires Elems(ids) <= roots && Deepest(adj, roots, acc)
    ensures Deepest(adj, roots, Sweep(adj, ids, acc)) && Sweep(adj, ids, acc).best >= acc.best
    ensures ids != [] ==> Sweep(adj, ids, acc).visited != {}
    decreases |ids|
  {
    if ids != [] {
      assert ids[0] in Elems(ids);
      assert Elems(ids[1..]) <= Elems(ids);
      if ids[0] in acc.visited {
        SweepDeepest(adj, roots, ids[1..], acc);
      } else {
        var d := Visit(adj, ids[0], acc.visited, 0);
        VisitExplored(adj, ids[0], acc.visited, 0);
        var next := Walk(Max(acc.best, d.best), d.visited, if d.best > acc.best then d.path else acc.path);
        assert Deepest(adj, roots, next);
        SweepDeepest(adj, roots, ids[1..], next);
      }
    }
  }

  /** `calculateMaxDepth(nodes, edges)`, as a value. */
  function MaxDepth(nodes: seq<FlowNode>, edges: seq<FlowEdge>): nat {
    Sweep(Adjacency(edges), NodeIds(nodes), Walk(0, {}, [])).best
  }

  /** Lines 181-203. */
  method CalculateMaxDepth(nodes: seq<FlowNode>, edges: seq<FlowEdge>) returns (maxDepth: nat)
    ensures maxDepth == MaxDepth(nodes, edges)
  {
    var adjacencyList := BuildAdjacency(edges);
    maxDepth := 0;
    var visited: set<string> := {};
    ghost var ids := NodeIds(nodes);
    ghost var acc := Walk(0, {}, []);
    assert ids[0..] == ids;
    for i := 0 to |nodes|
      invariant acc.best == maxDepth && acc.visited == visited
      invariant Sweep(adjacencyList, ids[i..], acc) == Sweep(adjacencyList, ids, Walk(0, {}, []))
    {
      var node := nodes[i];
      assert ids[i..][0] == node.id && ids[i..][1..] == ids[i + 1..];
      if node.id !in visited {
        var depth;
        depth, visited := Dfs(node.id, adjacencyList, visited, 0);
        ghost var d := Visit(adjacencyList, node.id, acc.visited, 0);
        acc := Walk(Max(acc.best, d.best), d.visited, if d.best > acc.best then d.path else acc.path);
        maxDepth := Max(maxDepth, depth);
      }
    }
    assert ids[|nodes|..] == [];
  }

  // ------------------------------------------------------------ properties

  /** Some edge runs from `s` to `t`. */
  predicate Edge(edges: seq<FlowEdge>, s: string, t: string) {
    exists k :: 0 <= k < |edges| && edges[k].source == s && edges[k].target == t
  }

  /** Each id of `p` after the first is the target of an edge from the one
      before. */
  predicate EdgePath(edges: seq<FlowEdge>, p: seq<string>) {
    forall i :: 0 <= i < |p| - 1 ==> Edge(edges, p[i], p[i + 1])
  }

  lemma PathAlongEdges(edges: seq<FlowEdge>, p: seq<string>)
    requires IsPath(Adjacency(edges), p)
    ensures EdgePath(edges, p)
  {
    forall i | 0 <= i < |p| - 1 ensures Edge(edges, p[i], p[i + 1]) {
      ChildrenAreSuccessors(edges, p[i]);
      SuccessorEdge(edges, p[i], p[i + 1]);
    }
  }

  lemma AdjacencyTargets(edges: seq<FlowEdge>)
    ensures Targets(Adjacency(edges)) <= set k | 0 <= k < |edges| :: edges[k].target
  {
    forall t | t in Targets(Adjacency(edges)) ensures exists k :: 0 <= k < |edges| && edges[k].target == t {
      var s, i :| s in Adjacency(edges) && 0 <= i < |Adjacency(edges)[s]| && Adjacency(edges)[s][i] == t;
      SuccessorEdge(edges, s, t);
    }
  }

  lemma {:induction false} SubsetCard(a: set<string>, b: set<string>)
    requires a <= b
    ensures |a| <= |b|
    decreases a
  {
    if a != {} {
      var x :| x in a;
      SubsetCard(a - {x}, b - {x});
    }
  }

  lemma {:induction false} NoDupCard(p: seq<string>)
    requires NoDup(p)
    ensures |Elems(p)| == |p|
  {
    if p != [] {
      assert NoDup(p[1..]) by {
        assert forall i :: 0 <= i < |p| - 1 ==> p[1..][i] == p[i + 1];
      }
      NoDupCard(p[1..]);
      assert Elems(p) == {p[0]} + Elems(p[1..]);
      assert p[0] !in Elems(p[1..]) by {
        assert forall i :: 0 <= i < |p| - 1 ==> p[1..][i] == p[i + 1];
      }
    }
  }

  /** Without edges every `dfs` returns its own depth. */
  lemma {:induction false} SweepFlat(ids: seq<string>, acc: Walk)
    ensures Sweep(map[], ids, acc).best == acc.best
    decreases |ids|
  {
    if ids != [] {
      if ids[0] in acc.visited {
        SweepFlat(ids[1..], acc);
      } else {
        var d := Visit(map[], ids[0], acc.visited, 0);
        assert d.best == 0 by {
          assert Children(map[], ids[0]) == [];
          assert d == VisitChildren(map[], ids[0], [], 0, Walk(0, acc.visited + {ids[0]}, [ids[0]]));
        }
        var next := Walk(Max(acc.best, d.best), d.visited, if d.best > acc.best then d.path else acc.path);
        SweepFlat(ids[1..], next);
      }
    }
  }

  /** Line 192 and 195-200: no nodes or no edges give depth 0. */
  lemma NoEdgesNoDepth(nodes: seq<FlowNode>, edges: seq<FlowEdge>)
    requires nodes == [] || edges == []
    ensures MaxDepth(nodes, edges) == 0
  {
    if edges == [] {
      assert Adjacency(edges) == map[];
      SweepFlat(NodeIds(nodes), Walk(0, {}, []));
    }
  }

  /** Lines 181-218: a positive depth is the length of a real edge path from a
      listed node, one that repeats no id. */
  lemma DepthIsPath(nodes: seq<FlowNode>, edges: seq<FlowEdge>)
    ensures MaxDepth(nodes, edges) > 0 ==>
              exists p :: |p| == MaxDepth(nodes, edges) + 1 && p[0] in Elems(NodeIds(nodes)) && NoDup(p) && EdgePath(edges, p)
  {
    var w := Sweep(Adjacency(edges), NodeIds(nodes), Walk(0, {}, []));
    SweepDeepest(Adjacency(edges), Elems(NodeIds(nodes)), NodeIds(nodes), Walk(0, {}, []));
    if w.best > 0 {
      PathAlongEdges(edges, w.path);
    }
  }

  /** Lines 192-200: the depth is below the number of ids the sweep visited,
      which are node ids and edge targets. */
  lemma DepthBound(nodes: seq<FlowNode>, edges: seq<FlowEdge>)
    requires nodes != []
    ensures MaxDepth(nodes, edges) < |Sweep(Adjacency(edges), NodeIds(nodes), Walk(0, {}, [])).visited|
    ensures MaxDepth(nodes, edges) < |Universe(nodes, edges)|
  {
    var roots := Elems(NodeIds(nodes));
    var w := Sweep(Adjacency(edges), NodeIds(nodes), Walk(0, {}, []));
    assert NodeIds(nodes) != [];
    SweepDeepest(Adjacency(edges), roots, NodeIds(nodes), Walk(0, {}, []));
    if w.best > 0 {
      NoDupCard(w.path);
      SubsetCard(Elems(w.path), w.visited);
    }
    assert w.visited <= Universe(nodes, edges) by {
      AdjacencyTargets(edges);
      assert roots <= set k | 0 <= k < |nodes| :: nodes[k].id;
    }
    SubsetCard(w.visited, Universe(nodes, edges));
  }

  /** Lines 172-179: `calculateGraphMetrics`. The cluster estimate is the
      ceiling of the node count over 50. */
  function CalculateGraphMetrics(nodes: seq<FlowNode>, edges: seq<FlowEdge>): (m: GraphMetrics)
    ensures m.nodeCount == |nodes| && m.edgeCount == |edges| && m.maxDepth == MaxDepth(nodes, edges)
    ensures m.clusters * 50 >= |nodes| && (m.clusters - 1) * 50 < |nodes|
  {
    GraphMetrics(|nodes|, |edges|, MaxDepth(nodes, edges), (|nodes| + 49) / 50)
  }
}
