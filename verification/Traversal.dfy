/**
 Breadth-first traversal from an anchor: the layered search over the multigraph
 index, proved to find exactly what admissible paths of bounded length reach.
 */
module Traversal {
  import opened Values
  import opened GraphModel

  /** No types means every type. */
  datatype Scope = Scope(anchor: string, types: set<string>, includeArchived: bool)

  /** An archived node is not visited, unless it is the anchor. */
  predicate Blocked(g: Graph, q: Scope, id: string) {
    !q.includeArchived && id != q.anchor && id in g.nodes && g.nodes[id].archived
  }

  predicate Usable(q: Scope, e: Edge) {
    (q.types == {} || e.typ in q.types) && (q.includeArchived || !e.archived)
  }

  /** One admissible hop along edge `key`, in either direction of the edge. */
  predicate Hop(g: Graph, q: Scope, a: string, key: string, b: string) {
    && key in g.edges
    && Usable(q, g.edges[key])
    && ((g.edges[key].source == a && g.edges[key].target == b) || (g.edges[key].target == a && g.edges[key].source == b))
    && !Blocked(g, q, b)
  }

  // -------------------------------------------------- reachability, by paths

  ghost predicate Adjacent(g: Graph, q: Scope, a: string, b: string) {
    exists key :: Hop(g, q, a, key, b)
  }

  /** A path from the anchor: each node is one admissible hop from the one before. */
  ghost predicate Path(g: Graph, q: Scope, path: seq<string>) {
    && path != [] && path[0] == q.anchor
    && forall i :: 0 <= i < |path| - 1 ==> Adjacent(g, q, path[i], path[i + 1])
  }

  ghost predicate Within(g: Graph, q: Scope, depth: nat, id: string) {
    exists path :: Path(g, q, path) && |path| <= depth + 1 && path[|path| - 1] == id
  }

  // ---------------------------------------------------- reachability, by layers

  function Neighbours(g: Graph, q: Scope, from: set<string>): set<string> {
    (set e | e in g.edges && Usable(q, g.edges[e]) && g.edges[e].source in from && !Blocked(g, q, g.edges[e].target)
       :: g.edges[e].target)
    + set e | e in g.edges && Usable(q, g.edges[e]) && g.edges[e].target in from && !Blocked(g, q, g.edges[e].source)
       :: g.edges[e].source
  }

  function Crossed(g: Graph, q: Scope, from: set<string>): set<string> {
    set e | e in g.edges && Usable(q, g.edges[e])
            && ((g.edges[e].source in from && !Blocked(g, q, g.edges[e].target))
                || (g.edges[e].target in from && !Blocked(g, q, g.edges[e].source)))
  }

  function Ball(g: Graph, q: Scope, depth: nat): set<string> {
    if depth == 0 then {q.anchor} else Ball(g, q, depth - 1) + Neighbours(g, q, Ball(g, q, depth - 1))
  }

  lemma NeighbourIff(g: Graph, q: Scope, from: set<string>, b: string)
    ensures b in Neighbours(g, q, from) <==> exists a, key :: a in from && Hop(g, q, a, key, b)
  {
    if b in Neighbours(g, q, from) {
      if e :| e in g.edges && Usable(q, g.edges[e]) && g.edges[e].source in from && !Blocked(g, q, b) && g.edges[e].target == b {
        assert Hop(g, q, g.edges[e].source, e, b);
      } else {
        var e :| e in g.edges && Usable(q, g.edges[e]) && g.edges[e].target in from && !Blocked(g, q, b) && g.edges[e].source == b;
        assert Hop(g, q, g.edges[e].target, e, b);
      }
    }
  }

  lemma CrossedIff(g: Graph, q: Scope, from: set<string>, key: string)
    ensures key in Crossed(g, q, from) <==> exists a, b :: a in from && Hop(g, q, a, key, b)
  {
    if key in Crossed(g, q, from) {
      var e := g.edges[key];
      assert e.source in from && !Blocked(g, q, e.target) ==> Hop(g, q, e.source, key, e.target);
      assert e.target in from && !Blocked(g, q, e.source) ==> Hop(g, q, e.target, key, e.source);
    }
  }

  lemma {:induction false} BallToPath(g: Graph, q: Scope, depth: nat, id: string)
    requires id in Ball(g, q, depth)
    ensures Within(g, q, depth, id)
  {
    hide Hop, Neighbours;
    if depth == 0 {
      assert Path(g, q, [q.anchor]);
    } else if id in Ball(g, q, depth - 1) {
      BallToPath(g, q, depth - 1, id);
    } else {
      NeighbourIff(g, q, Ball(g, q, depth - 1), id);
      var a, key :| a in Ball(g, q, depth - 1) && Hop(g, q, a, key, id);
      BallToPath(g, q, depth - 1, a);
      var path :| Path(g, q, path) && |path| <= depth && path[|path| - 1] == a;
      assert Adjacent(g, q, a, id);
      assert Path(g, q, path + [id]) by { LongerPath(g, q, path, id); }
    }
  }

  lemma LongerPath(g: Graph, q: Scope, path: seq<string>, id: string)
    requires Path(g, q, path) && Adjacent(g, q, path[|path| - 1], id)
    ensures Path(g, q, path + [id])
  {
    hide Adjacent;
    var longer := path + [id];
    forall i | 0 <= i < |longer| - 1 ensures Adjacent(g, q, longer[i], longer[i + 1]) {
      assert i < |path| - 1 ==> longer[i] == path[i] && longer[i + 1] == path[i + 1];
    }
  }

  lemma ShorterPath(g: Graph, q: Scope, path: seq<string>)
    requires Path(g, q, path) && |path| > 1
    ensures Path(g, q, path[..|path| - 1]) && Adjacent(g, q, path[|path| - 2], path[|path| - 1])
  {
    hide Adjacent;
    var shorter := path[..|path| - 1];
    forall i | 0 <= i < |shorter| - 1 ensures Adjacent(g, q, shorter[i], shorter[i + 1]) {
      assert shorter[i] == path[i] && shorter[i + 1] == path[i + 1];
    }
    var k := |path| - 2;
    assert Adjacent(g, q, path[k], path[k + 1]);
  }

  lemma {:induction false} PathToBall(g: Graph, q: Scope, depth: nat, path: seq<string>)
    requires Path(g, q, path) && |path| <= depth + 1
    ensures path[|path| - 1] in Ball(g, q, depth)
  {
    hide Hop, Neighbours;
    var k := |path| - 1;
    if k == 0 {
      AnchorIn(g, q, depth);
    } else {
      ShorterPath(g, q, path);
      PathToBall(g, q, depth - 1, path[..k]);
      var key :| Hop(g, q, path[k - 1], key, path[k]);
      NeighbourIff(g, q, Ball(g, q, depth - 1), path[k]);
    }
  }

  lemma {:induction false} AnchorIn(g: Graph, q: Scope, depth: nat)
    ensures q.anchor in Ball(g, q, depth)
  {
    if depth > 0 {
      AnchorIn(g, q, depth - 1);
    }
  }

  /** Layers and paths agree. */
  lemma BallIsReachability(g: Graph, q: Scope, depth: nat, id: string)
    ensures id in Ball(g, q, depth) <==> Within(g, q, depth, id)
  {
    if id in Ball(g, q, depth) {
      BallToPath(g, q, depth, id);
    }
    if Within(g, q, depth, id) {
      var path :| Path(g, q, path) && |path| <= depth + 1 && path[|path| - 1] == id;
      PathToBall(g, q, depth, path);
    }
  }

  // ------------------------------------------------------------- the result

  /** What the traversal returns: live nodes within the depth, and the edges that
      can be hopped along from a node less deep. */
  function RelatedNodes(g: Graph, q: Scope, depth: int): set<string> {
    if q.anchor !in g.nodes then {}
    else Ball(g, q, if depth < 0 then 0 else depth) * g.nodes.Keys
  }

  function RelatedEdges(g: Graph, q: Scope, depth: int): set<string> {
    if q.anchor !in g.nodes || depth <= 0 then {} else Crossed(g, q, Ball(g, q, depth - 1))
  }

  /** The returned nodes are those that an admissible path of at most `depth` hops
      reaches, and the returned edges those that continue a shorter path. */
  lemma RelatedIsReachability(g: Graph, q: Scope, depth: nat)
    requires q.anchor in g.nodes
    ensures forall id :: id in RelatedNodes(g, q, depth) <==> id in g.nodes && Within(g, q, depth, id)
    ensures forall key :: key in RelatedEdges(g, q, depth) <==>
              depth > 0 && exists a, b :: Within(g, q, depth - 1, a) && Hop(g, q, a, key, b)
  {
    hide Hop, Within, Ball, Crossed;
    forall id ensures id in Ball(g, q, depth) <==> Within(g, q, depth, id) {
      BallIsReachability(g, q, depth, id);
    }
    if depth > 0 {
      var less := depth - 1;
      forall id ensures id in Ball(g, q, less) <==> Within(g, q, less, id) {
        BallIsReachability(g, q, less, id);
      }
      forall key
        ensures key in RelatedEdges(g, q, depth) <==> exists a, b :: Within(g, q, depth - 1, a) && Hop(g, q, a, key, b)
      {
        CrossedIff(g, q, Ball(g, q, depth - 1), key);
      }
    }
  }

  /** A greater depth never loses anything; and no archived node but the anchor is
      returned unless asked for. */
  lemma RelatedGrows(g: Graph, q: Scope, depth: int, more: int)
    requires depth <= more
    ensures RelatedNodes(g, q, depth) <= RelatedNodes(g, q, more)
    ensures RelatedEdges(g, q, depth) <= RelatedEdges(g, q, more)
  {
    hide Neighbours;
    BallGrows(g, q, if depth < 0 then 0 else depth, if more < 0 then 0 else more);
    if depth > 0 {
      BallGrows(g, q, depth - 1, more - 1);
    }
  }

  lemma {:induction false} BallGrows(g: Graph, q: Scope, depth: nat, more: nat)
    requires depth <= more
    ensures Ball(g, q, depth) <= Ball(g, q, more)
    decreases more
  {
    if depth < more {
      BallGrows(g, q, depth, more - 1);
    }
  }

  lemma {:induction false} NoArchivedNode(g: Graph, q: Scope, depth: nat, id: string)
    requires !q.includeArchived && id in Ball(g, q, depth) && id != q.anchor && id in g.nodes
    ensures !g.nodes[id].archived
  {
    if id !in Ball(g, q, depth - 1) {
      assert id in Neighbours(g, q, Ball(g, q, depth - 1));
      assert !Blocked(g, q, id);
    } else {
      NoArchivedNode(g, q, depth - 1, id);
    }
  }

  // ------------------------------------------------------------ the algorithm

  /** Both directions from one node of the layer. */
  lemma NeighboursOf(g: Graph, q: Scope, done: set<string>, id: string)
    ensures Neighbours(g, q, done + {id}) == Neighbours(g, q, done) + Neighbours(g, q, {id})
    ensures Crossed(g, q, done + {id}) == Crossed(g, q, done) + Crossed(g, q, {id})
  {
    hide Usable, Blocked;
    assert forall x :: x in done + {id} <==> x in done || x in {id};
  }

  /** What the index gives at one node, and what part of it may be crossed. */
  function OutUsable(g: Graph, q: Scope, arcs: set<Arc>, id: string): set<Arc> {
    set a | a in arcs && a.source == id && a.key in g.edges && Usable(q, g.edges[a.key]) && !Blocked(g, q, a.target)
  }

  function InUsable(g: Graph, q: Scope, arcs: set<Arc>, id: string): set<Arc> {
    set a | a in arcs && a.target == id && a.key in g.edges && Usable(q, g.edges[a.key]) && !Blocked(g, q, a.source)
  }

  function Keys(arcs: set<Arc>): set<string> {
    set a | a in arcs :: a.key
  }

  function Targets(arcs: set<Arc>): set<string> {
    set a | a in arcs :: a.target
  }

  function Sources(arcs: set<Arc>): set<string> {
    set a | a in arcs :: a.source
  }

  lemma IndexGivesNeighbours(g: Graph, q: Scope, id: string)
    requires forall e :: e in g.edges ==> g.edges[e].id == e
    ensures var outs, ins := OutUsable(g, q, Arcs(g.edges), id), InUsable(g, q, Arcs(g.edges), id);
            && Targets(outs) + Sources(ins) == Neighbours(g, q, {id})
            && Keys(outs) + Keys(ins) == Crossed(g, q, {id})
  {
    hide Usable, Blocked;
    var outs, ins := OutUsable(g, q, Arcs(g.edges), id), InUsable(g, q, Arcs(g.edges), id);
    assert forall e :: e in g.edges ==> ArcOf(g.edges[e]) in Arcs(g.edges);
    forall e | e in Crossed(g, q, {id}) ensures e in Keys(outs) + Keys(ins) {
      assert ArcOf(g.edges[e]) in outs || ArcOf(g.edges[e]) in ins;
    }
    forall b | b in Neighbours(g, q, {id}) ensures b in Targets(outs) + Sources(ins) {
      if e :| e in g.edges && Usable(q, g.edges[e]) && g.edges[e].source == id && !Blocked(g, q, b) && g.edges[e].target == b {
        assert ArcOf(g.edges[e]) in outs;
      } else {
        var e :| e in g.edges && Usable(q, g.edges[e]) && g.edges[e].target == id && !Blocked(g, q, b) && g.edges[e].source == b;
        assert ArcOf(g.edges[e]) in ins;
      }
    }
  }

  method VisitOut(g: Graph, q: Scope, arcs: set<Arc>, id: string, nodes: set<string>, crossed: set<string>, next: set<string>)
    returns (nodes': set<string>, crossed': set<string>, next': set<string>)
    requires forall a :: a in arcs ==> a.key in g.edges
    ensures var outs := OutUsable(g, q, arcs, id);
            nodes' == nodes + Targets(outs) && crossed' == crossed + Keys(outs) && next' == next + (Targets(outs) - nodes)
  {
    nodes', crossed', next' := nodes, crossed, next;
    var left := set a | a in arcs && a.source == id;
    ghost var all := left;
    ghost var outs := {};
    while left != {}
      invariant left <= all
      invariant outs == set a | a in all && a !in left && Usable(q, g.edges[a.key]) && !Blocked(g, q, a.target)
      invariant nodes' == nodes + Targets(outs)
      invariant crossed' == crossed + Keys(outs)
      invariant next' == next + (Targets(outs) - nodes)
    {
      var a :| a in left;
      left := left - {a};
      if !Usable(q, g.edges[a.key]) {
        continue;
      }
      if Blocked(g, q, a.target) {
        continue;
      }
      outs := outs + {a};
      crossed' := crossed' + {a.key};
      if a.target !in nodes' {
        nodes' := nodes' + {a.target};
        next' := next' + {a.target};
      }
    }
    assert outs == OutUsable(g, q, arcs, id);
  }

  method VisitIn(g: Graph, q: Scope, arcs: set<Arc>, id: string, nodes: set<string>, crossed: set<string>, next: set<string>)
    returns (nodes': set<string>, crossed': set<string>, next': set<string>)
    requires forall a :: a in arcs ==> a.key in g.edges
    ensures var ins := InUsable(g, q, arcs, id);
            nodes' == nodes + Sources(ins) && crossed' == crossed + Keys(ins) && next' == next + (Sources(ins) - nodes)
  {
    nodes', crossed', next' := nodes, crossed, next;
    var left := set a | a in arcs && a.target == id;
    ghost var all := left;
    ghost var ins := {};
    while left != {}
      invariant left <= all
      invariant ins == set a | a in all && a !in left && Usable(q, g.edges[a.key]) && !Blocked(g, q, a.source)
      invariant nodes' == nodes + Sources(ins)
      invariant crossed' == crossed + Keys(ins)
      invariant next' == next + (Sources(ins) - nodes)
    {
      var a :| a in left;
      left := left - {a};
      if !Usable(q, g.edges[a.key]) {
        continue;
      }
      if Blocked(g, q, a.source) {
        continue;
      }
      ins := ins + {a};
      crossed' := crossed' + {a.key};
      if a.source !in nodes' {
        nodes' := nodes' + {a.source};
        next' := next' + {a.source};
      }
    }
    assert ins == InUsable(g, q, arcs, id);
  }

  /** One layer: every node of it is left in both directions. */
  method Expand(g: Graph, q: Scope, arcs: set<Arc>, layer: set<string>, nodes: set<string>, crossed: set<string>)
    returns (nodes': set<string>, crossed': set<string>, next: set<string>)
    requires arcs == Arcs(g.edges) && forall e :: e in g.edges ==> g.edges[e].id == e
    ensures nodes' == nodes + Neighbours(g, q, layer)
    ensures crossed' == crossed + Crossed(g, q, layer)
    ensures next == Neighbours(g, q, layer) - nodes
  {
    hide Neighbours, Crossed, OutUsable, InUsable;
    nodes', crossed', next := nodes, crossed, {};
    NothingFromNowhere(g, q);
    var left := layer;
    assert layer - left == {};
    while left != {}
      invariant left <= layer
      invariant nodes' == nodes + Neighbours(g, q, layer - left)
      invariant crossed' == crossed + Crossed(g, q, layer - left)
      invariant next == Neighbours(g, q, layer - left) - nodes
    {
      var id :| id in left;
      NeighboursOf(g, q, layer - left, id);
      IndexGivesNeighbours(g, q, id);
      assert layer - (left - {id}) == layer - left + {id};
      left := left - {id};
      nodes', crossed', next := VisitOut(g, q, arcs, id, nodes', crossed', next);
      nodes', crossed', next := VisitIn(g, q, arcs, id, nodes', crossed', next);
    }
    assert layer - left == layer;
  }

  lemma NothingFromNowhere(g: Graph, q: Scope)
    ensures Neighbours(g, q, {}) == {} && Crossed(g, q, {}) == {}
  {
  }

  /** A frontier is enough: what the earlier layers lead to is already in the ball. */
  lemma FrontierSuffices(g: Graph, q: Scope, inner: set<string>, ball: set<string>, frontier: set<string>)
    requires inner <= ball && Neighbours(g, q, inner) <= ball && ball == inner + frontier
    ensures ball + Neighbours(g, q, frontier) == ball + Neighbours(g, q, ball)
    ensures Crossed(g, q, inner) + Crossed(g, q, frontier) == Crossed(g, q, ball)
  {
    hide Usable, Blocked;
  }

  /** `get_related_nodes`. */
  method GetRelatedNodes(g: Graph, arcs: set<Arc>, q: Scope, depth: int) returns (nodes: set<string>, edges: set<string>)
    requires arcs == Arcs(g.edges) && forall e :: e in g.edges ==> g.edges[e].id == e
    ensures nodes == RelatedNodes(g, q, depth) && edges == RelatedEdges(g, q, depth)
  {
    hide Neighbours, Crossed;
    if q.anchor !in g.nodes {
      return {}, {};
    }
    nodes, edges := {q.anchor}, {};
    var layer := {q.anchor};
    var i := 0;
    ghost var inner: set<string> := {};
    NothingFromNowhere(g, q);
    while i < depth
      invariant 0 <= i && (i <= depth || depth < 0) && (depth < 0 ==> i == 0)
      invariant nodes == Ball(g, q, i)
      invariant inner == if i == 0 then {} else Ball(g, q, i - 1)
      invariant inner <= nodes && Neighbours(g, q, inner) <= nodes && nodes == inner + layer
      invariant edges == Crossed(g, q, inner)
    {
      FrontierSuffices(g, q, inner, nodes, layer);
      var was := nodes;
      nodes, edges, layer := Expand(g, q, arcs, layer, nodes, edges);
      inner := was;
      i := i + 1;
    }
    CrossedAreEdges(g, q, inner);
    edges := edges * g.edges.Keys;
    nodes := nodes * g.nodes.Keys;
  }

  lemma CrossedAreEdges(g: Graph, q: Scope, from: set<string>)
    ensures Crossed(g, q, from) <= g.edges.Keys
  {
  }
}
