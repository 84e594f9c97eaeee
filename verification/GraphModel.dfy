/**
 The knowledge graph as values: the node dictionary with its insertion order, the
 edge dictionary, the arcs of the multigraph index, the searchable text, and what
 adding nodes and edges means, failures part-way included.
 */
module GraphModel {
  import opened Values
  import opened Lists

  datatype Node = Node(id: string, name: string, description: string, summary: string, tags: seq<string>,
                       subtypes: seq<string>, aliases: seq<string>, typ: string, archived: bool, updatedAt: int)

  datatype Edge = Edge(id: string, source: string, target: string, typ: string, caption: string, archived: bool)

  /** One entry of the multigraph: its key is the edge's id. */
  datatype Arc = Arc(source: string, target: string, key: string)

  /** A dictionary remembers the order in which its keys came in. */
  datatype Graph = Graph(nodes: map<string, Node>, order: seq<string>, edges: map<string, Edge>)

  /** Case folding and the localised labels of node types. */
  datatype Wording = Wording(lower: string -> string, labels: map<string, string>)

  /** The configured answer for an edge type between two node types. */
  type Rules = (string, string, string) -> bool

  ghost predicate GraphOk(g: Graph) {
    && NoDup(g.order)
    && (forall id :: id in g.order <==> id in g.nodes)
    && (forall id :: id in g.nodes ==> g.nodes[id].id == id)
    && (forall e :: e in g.edges ==> g.edges[e].id == e && g.edges[e].source in g.nodes && g.edges[e].target in g.nodes)
  }

  function ArcOf(e: Edge): Arc {
    Arc(e.source, e.target, e.id)
  }

  function Arcs(edges: map<string, Edge>): set<Arc> {
    set e | e in edges :: ArcOf(edges[e])
  }

  lemma ArcsAfterAdd(edges: map<string, Edge>, e: Edge)
    requires e.id !in edges
    ensures Arcs(edges[e.id := e]) == Arcs(edges) + {ArcOf(e)}
  {
    var edges' := edges[e.id := e];
    assert forall k :: k in edges ==> edges'[k] == edges[k];
    forall a | a in Arcs(edges) + {ArcOf(e)} ensures a in Arcs(edges') {
      if a != ArcOf(e) {
        var k :| k in edges && a == ArcOf(edges[k]);
        assert edges'[k] == edges[k];
      } else {
        assert edges'[e.id] == e;
      }
    }
  }

  lemma ArcsAfterRemove(edges: map<string, Edge>, id: string)
    requires id in edges && forall e :: e in edges ==> edges[e].id == e
    ensures Arcs(edges - {id}) == Arcs(edges) - {ArcOf(edges[id])}
  {
    var edges' := edges - {id};
    forall a | a in Arcs(edges) - {ArcOf(edges[id])} ensures a in Arcs(edges') {
      var k :| k in edges && a == ArcOf(edges[k]);
      assert edges'[k] == edges[k];
    }
    forall a | a in Arcs(edges') ensures a in Arcs(edges) - {ArcOf(edges[id])} {
      var k :| k in edges' && a == ArcOf(edges'[k]);
      assert a.key == k != id;
    }
  }

  /** Changing an edge but not its ends or id leaves its arc alone. */
  lemma ArcsAfterEdit(edges: map<string, Edge>, id: string, e: Edge)
    requires id in edges && ArcOf(e) == ArcOf(edges[id])
    ensures Arcs(edges[id := e]) == Arcs(edges)
  {
    var edges' := edges[id := e];
    assert forall k :: k in edges ==> ArcOf(edges'[k]) == ArcOf(edges[k]);
    forall a | a in Arcs(edges) ensures a in Arcs(edges') {
      var k :| k in edges && a == ArcOf(edges[k]);
      assert ArcOf(edges'[k]) == a;
    }
  }

  // --------------------------------------------------------- searchable text

  function Join(words: seq<string>): string {
    if words == [] then ""
    else if |words| == 1 then words[0]
    else Join(words[..|words| - 1]) + " " + words[|words| - 1]
  }

  function Text(w: Wording, n: Node): string {
    var typeText := if n.typ in w.labels then w.labels[n.typ] else w.lower(n.typ);
    w.lower(n.name + " " + n.description + " " + n.summary + " " + Join(n.tags) + " " + Join(n.subtypes) + " "
            + Join(n.aliases) + " " + typeText)
  }

  function Texts(w: Wording, nodes: map<string, Node>): map<string, string> {
    map id | id in nodes :: Text(w, nodes[id])
  }

  // ---------------------------------------------------------- adding in order

  function WithNode(g: Graph, n: Node): Graph {
    Graph(g.nodes[n.id := n], g.order + [n.id], g.edges)
  }

  /** The nodes go in one by one, up to the first id that is taken. */
  function AddNodesUpTo(g: Graph, ns: seq<Node>): (Graph, bool) {
    if ns == [] then (g, true)
    else
      var k := |ns| - 1;
      var (g', ok) := AddNodesUpTo(g, ns[..k]);
      if !ok || ns[k].id in g'.nodes then (g', false) else (WithNode(g', ns[k]), true)
  }

  /** The id `name_to_id` gives a name: the last node that bears it. */
  function LastNamed(nodes: map<string, Node>, order: seq<string>, name: string): Option<string> {
    if order == [] then None
    else
      var k := |order| - 1;
      if order[k] in nodes && nodes[order[k]].name == name then Some(order[k]) else LastNamed(nodes, order[..k], name)
  }

  /** An edge end is an id, or failing that a name. */
  function Resolve(g: Graph, end: string): Option<string> {
    if end in g.nodes then Some(end) else LastNamed(g.nodes, g.order, end)
  }

  datatype Linked = Unresolved | Duplicate | NotAllowed | Linked(edge: Edge)

  function Link(g: Graph, rules: Rules, e: Edge): Linked {
    var source, target := Resolve(g, e.source), Resolve(g, e.target);
    if source.None? || target.None? then Unresolved
    else if e.id in g.edges then Duplicate
    else if source.value in g.nodes && target.value in g.nodes
            && !rules(e.typ, g.nodes[source.value].typ, g.nodes[target.value].typ) then NotAllowed
    else Linked(e.(source := source.value, target := target.value))
  }

  function WithEdge(g: Graph, e: Edge): Graph {
    g.(edges := g.edges[e.id := e])
  }

  function AddEdgesUpTo(g: Graph, rules: Rules, es: seq<Edge>): (Graph, bool) {
    if es == [] then (g, true)
    else
      var k := |es| - 1;
      var (g', ok) := AddEdgesUpTo(g, rules, es[..k]);
      if !ok then (g', false)
      else
        match Link(g', rules, es[k])
        case Linked(e) => (WithEdge(g', e), true)
        case _ => (g', false)
  }

  function AddAll(g: Graph, rules: Rules, ns: seq<Node>, es: seq<Edge>): (Graph, bool) {
    var (g1, ok) := AddNodesUpTo(g, ns);
    if ok then AddEdgesUpTo(g1, rules, es) else (g1, false)
  }

  /** What is there stays as it is. */
  ghost predicate Extends(g: Graph, g': Graph) {
    && g.order <= g'.order
    && (forall id :: id in g.nodes ==> id in g'.nodes && g'.nodes[id] == g.nodes[id])
    && (forall e :: e in g.edges ==> e in g'.edges && g'.edges[e] == g.edges[e])
  }

  lemma {:induction false} LastNamedFacts(nodes: map<string, Node>, order: seq<string>, name: string)
    ensures var r := LastNamed(nodes, order, name);
            && (r.Some? ==> r.value in order && r.value in nodes && nodes[r.value].name == name)
            && (r.None? ==> forall id :: id in order && id in nodes ==> nodes[id].name != name)
  {
    if order != [] {
      LastNamedFacts(nodes, order[..|order| - 1], name);
      assert forall id :: id in order <==> id == order[|order| - 1] || id in order[..|order| - 1];
    }
  }

  lemma LinkIsLive(g: Graph, rules: Rules, e: Edge)
    requires GraphOk(g) && Link(g, rules, e).Linked?
    ensures GraphOk(WithEdge(g, Link(g, rules, e).edge)) && Extends(g, WithEdge(g, Link(g, rules, e).edge))
    ensures Link(g, rules, e).edge.id == e.id && e.id !in g.edges
  {
    LastNamedFacts(g.nodes, g.order, e.source);
    LastNamedFacts(g.nodes, g.order, e.target);
  }

  lemma WithNodeOk(g: Graph, n: Node)
    requires GraphOk(g) && n.id !in g.nodes
    ensures GraphOk(WithNode(g, n)) && Extends(g, WithNode(g, n))
  {
  }

  lemma ExtendsTrans(a: Graph, b: Graph, c: Graph)
    requires Extends(a, b) && Extends(b, c)
    ensures Extends(a, c)
  {
  }

  lemma ExtendsRefl(g: Graph)
    ensures Extends(g, g)
  {
  }

  /** The nodes of a list are in, as they were given. */
  ghost predicate HasNodes(g: Graph, ns: seq<Node>) {
    forall i :: 0 <= i < |ns| ==> ns[i].id in g.nodes && g.nodes[ns[i].id] == ns[i]
  }

  ghost predicate NoneOf(g: Graph, ns: seq<Node>) {
    forall i :: 0 <= i < |ns| ==> ns[i].id !in g.nodes
  }

  lemma {:induction false} AddNodesFacts(g: Graph, ns: seq<Node>)
    requires GraphOk(g)
    ensures var (g', ok) := AddNodesUpTo(g, ns);
            GraphOk(g') && Extends(g, g') && g'.edges == g.edges && (ok ==> HasNodes(g', ns) && NoneOf(g, ns))
  {
    hide GraphOk, Extends, HasNodes, NoneOf;
    if ns == [] {
      ExtendsRefl(g);
      NoNodes(g, g);
    } else {
      var k := |ns| - 1;
      AddNodesFacts(g, ns[..k]);
      var (g0, ok) := AddNodesUpTo(g, ns[..k]);
      if ok && ns[k].id !in g0.nodes {
        WithNodeOk(g0, ns[k]);
        ExtendsTrans(g, g0, WithNode(g0, ns[k]));
        OneMoreNode(g, g0, ns);
      }
    }
  }

  lemma NoNodes(g: Graph, g': Graph)
    ensures HasNodes(g, []) && NoneOf(g', [])
  {
  }

  lemma OneMoreNode(g: Graph, g0: Graph, ns: seq<Node>)
    requires ns != [] && HasNodes(g0, ns[..|ns| - 1]) && NoneOf(g, ns[..|ns| - 1]) && Extends(g, g0)
    requires ns[|ns| - 1].id !in g0.nodes
    ensures HasNodes(WithNode(g0, ns[|ns| - 1]), ns) && NoneOf(g, ns)
  {
    var k := |ns| - 1;
    forall i | 0 <= i < |ns|
      ensures ns[i].id !in g.nodes
      ensures ns[i].id in WithNode(g0, ns[k]).nodes && WithNode(g0, ns[k]).nodes[ns[i].id] == ns[i]
    {
      if i < k {
        assert ns[..k][i] == ns[i];
      }
    }
  }

  /** The edges of a list are in, between the ends that `g` resolves theirs to. */
  ghost predicate HasEdges(g: Graph, g': Graph, es: seq<Edge>) {
    forall i :: 0 <= i < |es| ==>
      && es[i].id !in g.edges && es[i].id in g'.edges
      && Resolve(g, es[i].source) == Some(g'.edges[es[i].id].source)
      && Resolve(g, es[i].target) == Some(g'.edges[es[i].id].target)
      && g'.edges[es[i].id] == es[i].(source := g'.edges[es[i].id].source, target := g'.edges[es[i].id].target)
  }

  lemma {:induction false} AddEdgesFacts(g: Graph, rules: Rules, es: seq<Edge>)
    requires GraphOk(g)
    ensures var (g', ok) := AddEdgesUpTo(g, rules, es);
            GraphOk(g') && Extends(g, g') && g'.nodes == g.nodes && g'.order == g.order && (ok ==> HasEdges(g, g', es))
  {
    hide GraphOk, Extends, HasEdges, Link;
    if es == [] {
      ExtendsRefl(g);
      NoEdges(g);
    } else {
      var k := |es| - 1;
      AddEdgesFacts(g, rules, es[..k]);
      var (g0, ok) := AddEdgesUpTo(g, rules, es[..k]);
      if ok && Link(g0, rules, es[k]).Linked? {
        LinkIsLive(g0, rules, es[k]);
        ExtendsTrans(g, g0, WithEdge(g0, Link(g0, rules, es[k]).edge));
        OneMoreEdge(g, g0, rules, es);
      }
    }
  }

  lemma NoEdges(g: Graph)
    ensures HasEdges(g, g, [])
  {
  }

  lemma OneMoreEdge(g: Graph, g0: Graph, rules: Rules, es: seq<Edge>)
    requires es != [] && HasEdges(g, g0, es[..|es| - 1]) && Extends(g, g0)
    requires g0.nodes == g.nodes && g0.order == g.order && Link(g0, rules, es[|es| - 1]).Linked?
    ensures HasEdges(g, WithEdge(g0, Link(g0, rules, es[|es| - 1]).edge), es)
  {
    hide LastNamed;
    var k := |es| - 1;
    forall i | 0 <= i < |es|
      ensures var g', e := WithEdge(g0, Link(g0, rules, es[k]).edge), es[i];
              && e.id !in g.edges && e.id in g'.edges
              && Resolve(g, e.source) == Some(g'.edges[e.id].source)
              && Resolve(g, e.target) == Some(g'.edges[e.id].target)
              && g'.edges[e.id] == e.(source := g'.edges[e.id].source, target := g'.edges[e.id].target)
    {
      if i < k {
        assert es[..k][i] == es[i];
      }
    }
  }

  /** Whether it succeeds or fails part-way, an addition keeps the graph well
      formed and everything that was in it; and a success puts in every node as
      given and every edge between the resolved ends. */
  lemma AddAllFacts(g: Graph, rules: Rules, ns: seq<Node>, es: seq<Edge>)
    requires GraphOk(g)
    ensures var (g', ok) := AddAll(g, rules, ns, es);
            && GraphOk(g') && Extends(g, g')
            && (ok ==> NoneOf(g, ns) && HasNodes(g', ns) && HasEdges(g.(nodes := g'.nodes, order := g'.order), g', es))
  {
    hide GraphOk, Extends, HasEdges, HasNodes, NoneOf;
    AddNodesFacts(g, ns);
    var (g1, ok) := AddNodesUpTo(g, ns);
    AddEdgesFacts(g1, rules, es);
    var g2 := AddEdgesUpTo(g1, rules, es).0;
    ExtendsTrans(g, g1, g2);
    SameNodesHeld(g1, g2, ns);
    assert g1 == g.(nodes := g2.nodes, order := g2.order);
  }

  lemma SameNodesHeld(g: Graph, g': Graph, ns: seq<Node>)
    requires g.nodes == g'.nodes
    ensures HasNodes(g, ns) == HasNodes(g', ns)
  {
  }

  lemma {:induction false} FirstTakenStops(g: Graph, ns: seq<Node>)
    requires ns != [] && ns[0].id in g.nodes
    ensures AddNodesUpTo(g, ns) == (g, false)
  {
    if |ns| == 1 {
      assert ns[..0] == [];
    } else {
      assert ns[..|ns| - 1][0] == ns[0];
      FirstTakenStops(g, ns[..|ns| - 1]);
    }
  }

  lemma {:induction false} FirstGoesIn(g: Graph, ns: seq<Node>)
    requires GraphOk(g) && ns != [] && ns[0].id !in g.nodes
    ensures ns[0].id in AddNodesUpTo(g, ns).0.nodes
  {
    if |ns| == 1 {
      assert ns[..0] == [];
    } else {
      assert ns[..|ns| - 1][0] == ns[0];
      FirstGoesIn(g, ns[..|ns| - 1]);
      AddNodesFacts(g, ns);
    }
  }

  lemma {:induction false} FirstRefusedStops(g: Graph, rules: Rules, es: seq<Edge>)
    requires es != [] && !Link(g, rules, es[0]).Linked?
    ensures AddEdgesUpTo(g, rules, es) == (g, false)
  {
    if |es| == 1 {
      assert es[..0] == [];
    } else {
      assert es[..|es| - 1][0] == es[0];
      FirstRefusedStops(g, rules, es[..|es| - 1]);
    }
  }

  lemma {:induction false} FirstLinkGoesIn(g: Graph, rules: Rules, es: seq<Edge>)
    requires GraphOk(g) && es != [] && Link(g, rules, es[0]).Linked?
    ensures es[0].id in AddEdgesUpTo(g, rules, es).0.edges
  {
    hide Link, GraphOk, HasEdges;
    if |es| == 1 {
      assert es[..0] == [];
      LinkIsLive(g, rules, es[0]);
    } else {
      var k := |es| - 1;
      assert es[..k][0] == es[0];
      FirstLinkGoesIn(g, rules, es[..k]);
      AddEdgesFacts(g, rules, es[..k]);
      var (g0, ok) := AddEdgesUpTo(g, rules, es[..k]);
      if ok && Link(g0, rules, es[k]).Linked? {
        LinkIsLive(g0, rules, es[k]);
      }
    }
  }

  /** A failed addition reports that nothing was added. That is so exactly when the
      very first item was refused: what came before the refused one stays in. */
  lemma FailedAddLeavesNoTraceIff(g: Graph, rules: Rules, ns: seq<Node>, es: seq<Edge>)
    requires GraphOk(g) && !AddAll(g, rules, ns, es).1
    ensures AddAll(g, rules, ns, es).0 == g <==>
            (if ns != [] then ns[0].id in g.nodes else es != [] && !Link(g, rules, es[0]).Linked?)
  {
    hide Link;
    AddNodesFacts(g, ns);
    var g1 := AddNodesUpTo(g, ns).0;
    AddEdgesFacts(g1, rules, es);
    if ns != [] {
      if ns[0].id in g.nodes {
        FirstTakenStops(g, ns);
      } else {
        FirstGoesIn(g, ns);
      }
    } else {
      assert es != [];
      if Link(g, rules, es[0]).Linked? {
        LinkIsLive(g, rules, es[0]);
        FirstLinkGoesIn(g, rules, es);
      } else {
        FirstRefusedStops(g, rules, es);
      }
    }
  }

  // ------------------------------------------------------------------ loading

  const EMPTY_GRAPH := Graph(map[], [], map[])

  /** A stored node of an id that was there already takes its place. */
  function Overwritten(g: Graph, n: Node): Graph {
    Graph(g.nodes[n.id := n], if n.id in g.nodes then g.order else g.order + [n.id], g.edges)
  }

  function LoadedNodes(ns: seq<Node>): Graph {
    if ns == [] then EMPTY_GRAPH else Overwritten(LoadedNodes(ns[..|ns| - 1]), ns[|ns| - 1])
  }

  function LoadedEdges(g: Graph, es: seq<Edge>): Graph {
    if es == [] then g else WithEdge(LoadedEdges(g, es[..|es| - 1]), es[|es| - 1])
  }

  lemma LoadedPush(ns: seq<Node>, i: nat)
    requires i < |ns|
    ensures LoadedNodes(ns[..i + 1]) == Overwritten(LoadedNodes(ns[..i]), ns[i])
  {
    assert ns[..i + 1][..i] == ns[..i];
  }

  /** The nodes that adding the edges to the index makes, there or not. */
  function Ends(es: seq<Edge>): set<string> {
    (set e | e in es :: e.source) + (set e | e in es :: e.target)
  }

  function AllArcs(es: seq<Edge>): set<Arc> {
    set e | e in es :: ArcOf(e)
  }

  /** No stored edge, even one that a later edge of its id replaces, lacks an end, and
      edges of one id join the same nodes. */
  ghost predicate Connected(ns: seq<Node>, es: seq<Edge>) {
    && (forall e :: e in es ==> HasId(ns, e.source) && HasId(ns, e.target))
    && (forall d, e :: d in es && e in es && d.id == e.id ==> ArcOf(d) == ArcOf(e))
  }

  ghost predicate HasId(ns: seq<Node>, id: string) {
    exists n :: n in ns && n.id == id
  }

  lemma {:induction false} LoadedNodesFacts(ns: seq<Node>)
    ensures GraphOk(LoadedNodes(ns)) && LoadedNodes(ns).edges == map[]
    ensures forall id :: id in LoadedNodes(ns).nodes <==> HasId(ns, id)
  {
    if ns != [] {
      var k := |ns| - 1;
      LoadedNodesFacts(ns[..k]);
      forall id ensures HasId(ns, id) <==> HasId(ns[..k], id) || id == ns[k].id {
        assert forall n :: n in ns <==> n in ns[..k] || n == ns[k];
        assert ns[k] in ns;
      }
    }
  }

  lemma {:induction false} LoadedEdgesFacts(g: Graph, es: seq<Edge>)
    requires g.edges == map[]
    ensures LoadedEdges(g, es).nodes == g.nodes && LoadedEdges(g, es).order == g.order
    ensures forall e :: e in es ==> e.id in LoadedEdges(g, es).edges
    ensures forall id :: id in LoadedEdges(g, es).edges ==>
              LoadedEdges(g, es).edges[id] in es && LoadedEdges(g, es).edges[id].id == id
  {
    if es != [] {
      LoadedEdgesFacts(g, es[..|es| - 1]);
    }
  }

  /** What the index holds after loading agrees with the dictionaries exactly when the
      stored graph is connected; repeated node ids do no harm. */
  lemma LoadedAgreeIff(ns: seq<Node>, es: seq<Edge>)
    ensures var g := LoadedEdges(LoadedNodes(ns), es);
            GraphOk(g) && g.nodes.Keys + Ends(es) == g.nodes.Keys && AllArcs(es) == Arcs(g.edges) <==> Connected(ns, es)
  {
    hide HasId, GraphOk, LoadedNodes, LoadedEdges, Ends, AllArcs, Arcs, ArcOf;
    var g := LoadedEdges(LoadedNodes(ns), es);
    LoadedNodesFacts(ns);
    LoadedEdgesFacts(LoadedNodes(ns), es);
    EndsIff(g.nodes.Keys, es);
    ArcsIff(g.edges, es);
    if g.nodes.Keys + Ends(es) == g.nodes.Keys {
      WithEdgesOk(LoadedNodes(ns), g.edges);
      assert LoadedNodes(ns).(edges := g.edges) == g;
    }
  }

  lemma WithEdgesOk(g: Graph, edges: map<string, Edge>)
    requires GraphOk(g)
    requires forall id :: id in edges ==> edges[id].id == id && edges[id].source in g.nodes && edges[id].target in g.nodes
    ensures GraphOk(g.(edges := edges))
  {
  }

  lemma ArcsIff(edges: map<string, Edge>, es: seq<Edge>)
    requires forall e :: e in es ==> e.id in edges
    requires forall id :: id in edges ==> edges[id] in es && edges[id].id == id
    ensures AllArcs(es) == Arcs(edges) <==> forall d, e :: d in es && e in es && d.id == e.id ==> ArcOf(d) == ArcOf(e)
  {
    if forall d, e :: d in es && e in es && d.id == e.id ==> ArcOf(d) == ArcOf(e) {
      forall e | e in es ensures ArcOf(e) in Arcs(edges) {
        assert ArcOf(edges[e.id]) in Arcs(edges);
      }
    }
    if AllArcs(es) == Arcs(edges) {
      forall e | e in es ensures ArcOf(e) == ArcOf(edges[e.id]) {
        assert ArcOf(e) in Arcs(edges);
      }
    }
  }

  lemma EndsIff(ids: set<string>, es: seq<Edge>)
    ensures ids + Ends(es) == ids <==> forall e :: e in es ==> e.source in ids && e.target in ids
  {
    if ids + Ends(es) == ids {
      forall e | e in es ensures e.source in ids && e.target in ids {
        assert e.source in Ends(es) && e.target in Ends(es);
      }
    }
  }

  lemma EndsPush(g: Graph, es: seq<Edge>, i: nat)
    requires i < |es|
    ensures Ends(es[..i + 1]) == Ends(es[..i]) + {es[i].source, es[i].target}
    ensures AllArcs(es[..i + 1]) == AllArcs(es[..i]) + {ArcOf(es[i])}
    ensures LoadedEdges(g, es[..i + 1]) == WithEdge(LoadedEdges(g, es[..i]), es[i])
  {
    assert es[..i + 1][..i] == es[..i];
    assert forall d :: d in es[..i + 1] <==> d in es[..i] || d == es[i];
  }

  // ------------------------------------------- the derived maps, step by step

  lemma TextsAfterAdd(w: Wording, nodes: map<string, Node>, n: Node)
    ensures Texts(w, nodes[n.id := n]) == Texts(w, nodes)[n.id := Text(w, n)]
  {
    hide Text;
  }

  lemma EditedNodeOk(g: Graph, n: Node)
    requires GraphOk(g) && n.id in g.nodes
    ensures GraphOk(g.(nodes := g.nodes[n.id := n]))
  {
  }

  lemma EditedEdgeOk(g: Graph, e: Edge)
    requires GraphOk(g) && e.id in g.edges && ArcOf(e) == ArcOf(g.edges[e.id])
    ensures GraphOk(WithEdge(g, e)) && Arcs(WithEdge(g, e).edges) == Arcs(g.edges)
  {
    ArcsAfterEdit(g.edges, e.id, e);
  }

  lemma WithEdgeOk(g: Graph, e: Edge)
    requires GraphOk(g) && e.id !in g.edges && e.source in g.nodes && e.target in g.nodes
    ensures GraphOk(WithEdge(g, e)) && Arcs(WithEdge(g, e).edges) == Arcs(g.edges) + {ArcOf(e)}
  {
    ArcsAfterAdd(g.edges, e);
  }

  function WithoutEdge(g: Graph, id: string): Graph {
    g.(edges := g.edges - {id})
  }

  lemma WithoutEdgeOk(g: Graph, id: string)
    requires GraphOk(g) && id in g.edges
    ensures GraphOk(WithoutEdge(g, id)) && Arcs(WithoutEdge(g, id).edges) == Arcs(g.edges) - {ArcOf(g.edges[id])}
  {
    ArcsAfterRemove(g.edges, id);
  }

  function OtherId(id: string): string -> bool {
    x => x != id
  }

  function WithoutNode(g: Graph, id: string): Graph {
    g.(nodes := g.nodes - {id}, order := Select(g.order, OtherId(id)))
  }

  lemma WithoutNodeOk(g: Graph, w: Wording, id: string)
    requires GraphOk(g) && EdgesOf(g.edges, id) == {}
    ensures GraphOk(WithoutNode(g, id)) && Texts(w, WithoutNode(g, id).nodes) == Texts(w, g.nodes) - {id}
  {
    hide Text, Select;
    SelectFacts(g.order, OtherId(id));
    TextsAfterRemove(w, g.nodes, id);
    hide Texts;
    forall e | e in g.edges ensures g.edges[e].source != id && g.edges[e].target != id {
      assert e !in EdgesOf(g.edges, id);
    }
  }

  lemma TextsAfterRemove(w: Wording, nodes: map<string, Node>, id: string)
    ensures Texts(w, nodes - {id}) == Texts(w, nodes) - {id}
  {
    hide Text;
  }

  // ---------------------------------------------------------------- archiving

  function ArchivedNodes(nodes: map<string, Node>, ids: seq<string>, archived: bool, now: int): map<string, Node> {
    map id | id in nodes ::
      if id in ids && nodes[id].archived != archived then nodes[id].(archived := archived, updatedAt := now) else nodes[id]
  }

  lemma ArchivedNodesStep(nodes: map<string, Node>, ids: seq<string>, id: string, archived: bool, now: int)
    ensures var m, m' := ArchivedNodes(nodes, ids, archived, now), ArchivedNodes(nodes, ids + [id], archived, now);
            m' == if id in m && m[id].archived != archived then m[id := m[id].(archived := archived, updatedAt := now)] else m
  {
    assert forall x :: x in ids + [id] <==> x in ids || x == id;
  }

  lemma ArchivedNodesOk(g: Graph, w: Wording, ids: seq<string>, archived: bool, now: int)
    requires GraphOk(g)
    ensures GraphOk(g.(nodes := ArchivedNodes(g.nodes, ids, archived, now)))
    ensures Texts(w, ArchivedNodes(g.nodes, ids, archived, now)) == Texts(w, g.nodes)
  {
    hide Texts, Text;
    ArchivedTexts(w, g.nodes, ids, archived, now);
  }

  lemma ArchivedTexts(w: Wording, nodes: map<string, Node>, ids: seq<string>, archived: bool, now: int)
    ensures Texts(w, ArchivedNodes(nodes, ids, archived, now)) == Texts(w, nodes)
  {
    hide Text;
    forall id | id in nodes ensures Text(w, ArchivedNodes(nodes, ids, archived, now)[id]) == Text(w, nodes[id]) {
      TextIgnores(w, nodes[id], archived, now);
    }
  }

  lemma TextIgnores(w: Wording, n: Node, archived: bool, now: int)
    ensures Text(w, n.(archived := archived, updatedAt := now)) == Text(w, n)
  {
  }

  function ArchivedEdges(edges: map<string, Edge>, ids: seq<string>, archived: bool): map<string, Edge> {
    map e | e in edges :: if e in ids then edges[e].(archived := archived) else edges[e]
  }

  lemma ArchivedEdgesStep(edges: map<string, Edge>, ids: seq<string>, id: string, archived: bool)
    ensures var m, m' := ArchivedEdges(edges, ids, archived), ArchivedEdges(edges, ids + [id], archived);
            m' == if id in m && m[id].archived != archived then m[id := m[id].(archived := archived)] else m
  {
    assert forall x :: x in ids + [id] <==> x in ids || x == id;
  }

  lemma ArchivedEdgesOk(g: Graph, ids: seq<string>, archived: bool)
    requires GraphOk(g)
    ensures GraphOk(g.(edges := ArchivedEdges(g.edges, ids, archived)))
    ensures Arcs(ArchivedEdges(g.edges, ids, archived)) == Arcs(g.edges)
  {
    var m := ArchivedEdges(g.edges, ids, archived);
    assert forall e :: e in g.edges ==> ArcOf(m[e]) == ArcOf(g.edges[e]);
    forall a | a in Arcs(g.edges) ensures a in Arcs(m) {
      var e :| e in g.edges && a == ArcOf(g.edges[e]);
      assert a == ArcOf(m[e]);
    }
  }

  lemma NothingArchived(g: Graph, archived: bool, now: int)
    ensures ArchivedNodes(g.nodes, [], archived, now) == g.nodes
    ensures ArchivedEdges(g.edges, [], archived) == g.edges
  {
  }

  // ----------------------------------------------------------- edges at nodes

  predicate Touches(e: Edge, ids: seq<string>) {
    e.source in ids || e.target in ids
  }

  function EdgesOf(edges: map<string, Edge>, id: string): set<string> {
    set e | e in edges && (edges[e].source == id || edges[e].target == id)
  }

  /** The edges with an end among these ids. */
  function Touching(edges: map<string, Edge>, ids: seq<string>): set<string> {
    set e | e in edges && Touches(edges[e], ids)
  }

  lemma TouchingStep(edges: map<string, Edge>, ids: seq<string>, id: string)
    ensures var left := edges - Touching(edges, ids);
            && Touching(edges, ids + [id]) == Touching(edges, ids) + EdgesOf(left, id)
            && Touching(edges, ids) !! EdgesOf(left, id)
            && edges - Touching(edges, ids + [id]) == left - EdgesOf(left, id)
  {
    assert forall x :: x in ids + [id] <==> x in ids || x == id;
  }

  function Elems(s: seq<string>): set<string> {
    set x | x in s
  }

  lemma ElemsAppend(s: seq<string>, t: seq<string>)
    ensures Elems(s + t) == Elems(s) + Elems(t)
    ensures NoDup(s) && NoDup(t) && Elems(s) !! Elems(t) ==> NoDup(s + t)
  {
    if NoDup(s) && NoDup(t) && Elems(s) !! Elems(t) {
      forall i, j | 0 <= i < j < |s + t| ensures (s + t)[i] != (s + t)[j] {
        if i < |s| && j >= |s| {
          assert s[i] in Elems(s) && t[j - |s|] in Elems(t);
        }
      }
    }
  }

  /** What a scan of all edges finds at these nodes. */
  function Incident(edges: map<string, Edge>, ids: seq<string>): map<string, Edge> {
    map e | e in edges && Touches(edges[e], ids) :: edges[e]
  }

  function OutKeys(arcs: set<Arc>, id: string): set<string> {
    set a | a in arcs && a.source == id :: a.key
  }

  function InKeys(arcs: set<Arc>, id: string): set<string> {
    set a | a in arcs && a.target == id :: a.key
  }

  lemma ArcsAt(edges: map<string, Edge>, id: string)
    requires forall e :: e in edges ==> edges[e].id == e
    ensures forall e :: e in OutKeys(Arcs(edges), id) <==> e in edges && edges[e].source == id
    ensures forall e :: e in InKeys(Arcs(edges), id) <==> e in edges && edges[e].target == id
  {
    forall e | e in edges ensures ArcOf(edges[e]) in Arcs(edges) && ArcOf(edges[e]).key == e {
    }
  }

  lemma IncidentStep(edges: map<string, Edge>, ids: seq<string>, id: string)
    requires forall e :: e in edges ==> edges[e].id == e
    ensures var outgoing, incoming := OutKeys(Arcs(edges), id), InKeys(Arcs(edges), id);
            && (forall e :: e in outgoing || e in incoming ==> e in edges)
            && Incident(edges, ids + [id]) ==
               Incident(edges, ids) + (map e | e in outgoing :: edges[e]) + map e | e in incoming :: edges[e]
  {
    ArcsAt(edges, id);
    assert forall x :: x in ids + [id] <==> x in ids || x == id;
  }

  lemma NothingIncident(g: Graph, ids: seq<string>, id: string)
    requires GraphOk(g) && id !in g.nodes
    ensures Incident(g.edges, ids + [id]) == Incident(g.edges, ids)
    ensures EdgesOf(g.edges, id) == {}
  {
    assert forall x :: x in ids + [id] <==> x in ids || x == id;
  }
}
