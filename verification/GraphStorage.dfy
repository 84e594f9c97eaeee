/**
 The graph store: the node and edge dictionaries, the multigraph index over them
 and the searchable-text cache, updated step by step. `Valid` says that the four
 agree; every mutator keeps it, whichever way it ends.
 */
module GraphStorage {
  import opened Values
  import opened Lists
  import opened GraphModel
  import Traversal

  /** What an edit may set on a node, once validated. */
  datatype Fields = Fields(name: string, description: string, summary: string, tags: seq<string>,
                           subtypes: seq<string>, aliases: seq<string>)

  datatype NodeEdit = NodeNotFound | Stale | InvalidNode | NodeEdited(node: Node)
  datatype EdgeEdit = EdgeNotFound | EdgeNotAllowed | EdgeEdited(edge: Edge)

  function WithFields(n: Node, f: Fields, now: int): Node {
    n.(name := f.name, description := f.description, summary := f.summary, tags := f.tags, subtypes := f.subtypes,
       aliases := f.aliases, updatedAt := now)
  }

  const MAX_DELETES: nat := 10

  class GraphStorage {
    const rules: Rules
    const wording: Wording
    var nodes: map<string, Node>
    var order: seq<string>
    var edges: map<string, Edge>
    /** The multigraph: its nodes, and its arcs with the edge objects behind them. */
    var graphNodes: set<string>
    var graphArcs: set<Arc>
    var cache: map<string, string>

    function View(): Graph
      reads this
    {
      Graph(nodes, order, edges)
    }

    ghost predicate Valid()
      reads this
    {
      && GraphOk(View())
      && graphNodes == nodes.Keys
      && graphArcs == Arcs(edges)
      && cache == Texts(wording, nodes)
    }

    /** Loads whatever is stored: the last node or edge of an id wins, and the index makes up
        the ends it does not know. Everything agrees exactly when the graph is connected. */
    constructor Load(rules: Rules, wording: Wording, ns: seq<Node>, es: seq<Edge>)
      ensures this.rules == rules && this.wording == wording
      ensures View() == LoadedEdges(LoadedNodes(ns), es)
      ensures graphNodes == nodes.Keys + Ends(es) && graphArcs == AllArcs(es) && cache == Texts(wording, nodes)
      ensures Valid() <==> Connected(ns, es)
    {
      this.rules, this.wording := rules, wording;
      nodes, order, edges, graphNodes, graphArcs, cache := map[], [], map[], {}, {}, map[];
      new;
      hide GraphOk, Arcs, Texts, Text, Connected, Ends, AllArcs, ArcOf, LoadedNodes, LoadedEdges;
      EmptyOk(wording);
      for i := 0 to |ns|
        invariant this.rules == rules && this.wording == wording
        invariant View() == LoadedNodes(ns[..i]) && graphNodes == nodes.Keys && graphArcs == {}
        invariant cache == Texts(wording, nodes)
      {
        LoadedPush(ns, i);
        TextsAfterAdd(wording, nodes, ns[i]);
        if ns[i].id !in nodes {
          order := order + [ns[i].id];
        }
        nodes := nodes[ns[i].id := ns[i]];
        graphNodes := graphNodes + {ns[i].id};
        cache := cache[ns[i].id := Text(wording, ns[i])];
      }
      assert ns[..|ns|] == ns;
      for i := 0 to |es|
        invariant this.rules == rules && this.wording == wording
        invariant View() == LoadedEdges(LoadedNodes(ns), es[..i]) && cache == Texts(wording, nodes)
        invariant graphNodes == nodes.Keys + Ends(es[..i]) && graphArcs == AllArcs(es[..i])
      {
        EndsPush(LoadedNodes(ns), es, i);
        edges := edges[es[i].id := es[i]];
        graphNodes := graphNodes + {es[i].source, es[i].target};
        graphArcs := graphArcs + {ArcOf(es[i])};
      }
      assert es[..|es|] == es;
      LoadedAgreeIff(ns, es);
    }

    /** The three places a new node goes to. */
    method PutNode(n: Node)
      requires Valid() && n.id !in nodes
      modifies this`nodes, this`order, this`graphNodes, this`cache
      ensures Valid() && View() == WithNode(old(View()), n)
    {
      hide GraphOk, Arcs, Texts;
      WithNodeOk(View(), n);
      TextsAfterAdd(wording, nodes, n);
      nodes := nodes[n.id := n];
      order := order + [n.id];
      graphNodes := graphNodes + {n.id};
      cache := cache[n.id := Text(wording, n)];
    }

    method PutEdge(e: Edge)
      requires Valid() && e.id !in edges && e.source in nodes && e.target in nodes
      modifies this`edges, this`graphArcs
      ensures Valid() && View() == WithEdge(old(View()), e)
    {
      hide GraphOk, Arcs, Texts;
      WithEdgeOk(View(), e);
      edges := edges[e.id := e];
      graphArcs := graphArcs + {Arc(e.source, e.target, e.id)};
    }

    /** `name_to_id`, where a later node of the same name wins. */
    method NameToId() returns (names: map<string, string>)
      ensures forall name :: Lookup(names, name) == LastNamed(nodes, order, name)
      requires Valid()
    {
      names := map[];
      for i := 0 to |order|
        invariant forall name :: Lookup(names, name) == LastNamed(nodes, order[..i], name)
      {
        assert order[..i + 1][..i] == order[..i];
        assert order[i] in nodes;
        names := names[nodes[order[i]].name := order[i]];
      }
      assert order[..|order|] == order;
    }

    /** Adds nodes and then edges; a refused item ends it with what is already in. */
    method AddNodes(ns: seq<Node>, es: seq<Edge>) returns (ok: bool)
      requires Valid()
      modifies this
      ensures Valid() && (View(), ok) == AddAll(old(View()), rules, ns, es)
    {
      hide GraphOk, Arcs, Texts, LastNamed;
      ghost var g := View();
      for i := 0 to |ns|
        invariant Valid() && AddNodesUpTo(g, ns[..i]) == (View(), true)
      {
        assert ns[..i + 1][..i] == ns[..i];
        if ns[i].id in nodes {
          NodeRefusalStays(g, ns, i + 1);
          return false;
        }
        PutNode(ns[i]);
      }
      assert ns[..|ns|] == ns;
      ghost var g1 := View();
      var names := NameToId();
      for i := 0 to |es|
        invariant Valid() && AddEdgesUpTo(g1, rules, es[..i]) == (View(), true)
        invariant nodes == g1.nodes && order == g1.order
      {
        assert es[..i + 1][..i] == es[..i];
        var linked := LinkWith(names, es[i]);
        if !linked.Linked? {
          EdgeRefusalStays(g1, rules, es, i + 1);
          return false;
        }
        PutEdge(linked.edge);
      }
      assert es[..|es|] == es;
      ok := true;
    }

    /** Resolves an edge's ends and checks it against the store. */
    method LinkWith(names: map<string, string>, e: Edge) returns (r: Linked)
      requires Valid() && forall name :: Lookup(names, name) == LastNamed(nodes, order, name)
      ensures r == Link(View(), rules, e)
      ensures r.Linked? ==> r.edge.id !in edges && r.edge.source in nodes && r.edge.target in nodes
    {
      hide GraphOk, LastNamed, Arcs, Texts;
      LastNamedFacts(nodes, order, e.source);
      LastNamedFacts(nodes, order, e.target);
      assert Lookup(names, e.source) == LastNamed(nodes, order, e.source);
      assert Lookup(names, e.target) == LastNamed(nodes, order, e.target);
      var source, target := e.source, e.target;
      if source !in nodes {
        if source !in names {
          return Unresolved;
        }
        source := names[source];
      }
      if target !in nodes {
        if target !in names {
          return Unresolved;
        }
        target := names[target];
      }
      if e.id in edges {
        return Duplicate;
      }
      if !rules(e.typ, nodes[source].typ, nodes[target].typ) {
        return NotAllowed;
      }
      r := Linked(e.(source := source, target := target));
    }

    method AddEdge(e: Edge) returns (r: Linked)
      requires Valid()
      modifies this`edges, this`graphArcs
      ensures Valid() && r == Link(old(View()), rules, e)
      ensures View() == if r.Linked? then WithEdge(old(View()), r.edge) else old(View())
    {
      hide GraphOk, Arcs, Texts, LastNamed;
      var names := NameToId();
      r := LinkWith(names, e);
      if r.Linked? {
        PutEdge(r.edge);
      }
    }

    // -------------------------------------------------------------- in place

    /** `validated` is the outcome of validating the edited node, taken as given. */
    method UpdateNode(id: string, expected: Option<int>, validated: Option<Fields>, now: int) returns (r: NodeEdit)
      requires Valid()
      modifies this`nodes, this`cache
      ensures Valid() && edges == old(edges) && order == old(order)
      ensures r == (if id !in old(nodes) then NodeNotFound
                    else if expected.Some? && old(nodes)[id].updatedAt != expected.value then Stale
                    else if validated.None? then InvalidNode
                    else NodeEdited(WithFields(old(nodes)[id], validated.value, now)))
      ensures nodes == if r.NodeEdited? then old(nodes)[id := r.node] else old(nodes)
    {
      if id !in nodes {
        return NodeNotFound;
      }
      if expected.Some? && nodes[id].updatedAt != expected.value {
        return Stale;
      }
      if validated.None? {
        return InvalidNode;
      }
      var n := WithFields(nodes[id], validated.value, now);
      assert n.id == id;
      EditedNodeOk(View(), n);
      TextsAfterAdd(wording, nodes, n);
      nodes := nodes[id := n];
      cache := cache[id := Text(wording, n)];
      r := NodeEdited(n);
    }

    method SetNodesArchived(ids: seq<string>, archived: bool, now: int) returns (found: seq<string>)
      requires Valid()
      modifies this`nodes
      ensures Valid()
      ensures found == Select(ids, Present(old(nodes).Keys))
      ensures nodes == ArchivedNodes(old(nodes), ids, archived, now)
    {
      hide GraphOk, Arcs, Texts, ArchivedNodes, Select;
      NothingArchived(View(), archived, now);
      SelectNone([], Present(nodes.Keys));
      found := [];
      for i := 0 to |ids|
        invariant nodes == ArchivedNodes(old(nodes), ids[..i], archived, now) && nodes.Keys == old(nodes).Keys
        invariant found == Select(ids[..i], Present(old(nodes).Keys))
      {
        assert ids[..i + 1] == ids[..i] + [ids[i]];
        SelectPush(ids[..i], ids[i], Present(old(nodes).Keys));
        ArchivedNodesStep(old(nodes), ids[..i], ids[i], archived, now);
        var id := ids[i];
        if id in nodes {
          found := found + [id];
          if nodes[id].archived != archived {
            nodes := nodes[id := nodes[id].(archived := archived, updatedAt := now)];
          }
        }
      }
      assert ids[..|ids|] == ids;
      ArchivedNodesOk(old(View()), wording, ids, archived, now);
    }

    /** `typ` and `caption` are the validated values. */
    method UpdateEdge(id: string, typ: string, caption: string) returns (r: EdgeEdit)
      requires Valid()
      modifies this`edges
      ensures Valid() && edges.Keys == old(edges).Keys
      ensures r == (if id !in old(edges) then EdgeNotFound
                    else
                      var e := old(edges)[id];
                      if !rules(typ, nodes[e.source].typ, nodes[e.target].typ) then EdgeNotAllowed
                      else EdgeEdited(e.(typ := typ, caption := caption)))
      ensures edges == if r.EdgeEdited? then old(edges)[id := r.edge] else old(edges)
    {
      if id !in edges {
        return EdgeNotFound;
      }
      var e := edges[id].(typ := typ, caption := caption);
      if !rules(e.typ, nodes[e.source].typ, nodes[e.target].typ) {
        return EdgeNotAllowed;
      }
      EditedEdgeOk(View(), e);
      edges := edges[id := e];
      r := EdgeEdited(e);
    }

    method SetEdgesArchived(ids: seq<string>, archived: bool) returns (found: seq<string>)
      requires Valid()
      modifies this`edges
      ensures Valid()
      ensures found == Select(ids, Present(old(edges).Keys))
      ensures edges == ArchivedEdges(old(edges), ids, archived)
    {
      hide GraphOk, Arcs, Texts, ArchivedEdges, Select;
      NothingArchived(View(), archived, 0);
      SelectNone([], Present(edges.Keys));
      found := [];
      for i := 0 to |ids|
        invariant edges == ArchivedEdges(old(edges), ids[..i], archived) && edges.Keys == old(edges).Keys
        invariant found == Select(ids[..i], Present(old(edges).Keys))
      {
        assert ids[..i + 1] == ids[..i] + [ids[i]];
        SelectPush(ids[..i], ids[i], Present(old(edges).Keys));
        ArchivedEdgesStep(old(edges), ids[..i], ids[i], archived);
        var id := ids[i];
        if id in edges {
          found := found + [id];
          if edges[id].archived != archived {
            edges := edges[id := edges[id].(archived := archived)];
          }
        }
      }
      assert ids[..|ids|] == ids;
      ArchivedEdgesOk(old(View()), ids, archived);
    }

    // -------------------------------------------------------------- deletion

    /** The two places an edge leaves. */
    method DropEdge(id: string)
      requires Valid() && id in edges
      modifies this`edges, this`graphArcs
      ensures Valid() && View() == WithoutEdge(old(View()), id)
    {
      hide GraphOk, Arcs, Texts;
      WithoutEdgeOk(View(), id);
      graphArcs := graphArcs - {ArcOf(edges[id])};
      edges := edges - {id};
    }

    method DeleteEdge(id: string) returns (ok: bool)
      requires Valid()
      modifies this`edges, this`graphArcs
      ensures Valid() && ok == (id in old(edges)) && edges == old(edges) - {id}
    {
      ok := id in edges;
      if ok {
        DropEdge(id);
      }
    }

    method DeleteEdges(ids: seq<string>) returns (deleted: seq<string>)
      requires Valid()
      modifies this`edges, this`graphArcs
      ensures Valid()
      ensures NoDup(deleted) && forall e :: e in deleted <==> e in ids && e in old(edges)
      ensures edges == old(edges) - Elems(ids)
    {
      hide GraphOk, Arcs, Texts;
      deleted := [];
      for i := 0 to |ids|
        invariant Valid()
        invariant NoDup(deleted) && forall e :: e in deleted <==> e in ids[..i] && e in old(edges)
        invariant edges == old(edges) - Elems(ids[..i])
      {
        assert ids[..i + 1] == ids[..i] + [ids[i]];
        ElemsAppend(ids[..i], [ids[i]]);
        if ids[i] in edges {
          DropEdge(ids[i]);
          deleted := deleted + [ids[i]];
        }
      }
      assert ids[..|ids|] == ids;
    }

    /** The edges at one node, by a scan of the edge dictionary. */
    method EdgesAt(id: string) returns (found: seq<string>)
      ensures NoDup(found) && Elems(found) == EdgesOf(edges, id)
    {
      found := [];
      var left := edges.Keys;
      while left != {}
        invariant left <= edges.Keys && NoDup(found)
        invariant forall e :: e in found <==> e in edges && e !in left && (edges[e].source == id || edges[e].target == id)
      {
        var e :| e in left;
        left := left - {e};
        if edges[e].source == id || edges[e].target == id {
          found := found + [e];
        }
      }
    }

    /** One node goes, after the edges at it. */
    method DropNode(id: string) returns (removed: seq<string>)
      requires Valid() && id in nodes
      modifies this
      ensures Valid()
      ensures View() == WithoutNode(old(View()), id).(edges := old(edges) - EdgesOf(old(edges), id))
      ensures NoDup(removed) && Elems(removed) == EdgesOf(old(edges), id)
    {
      hide GraphOk, Arcs, Texts;
      removed := EdgesAt(id);
      for i := 0 to |removed|
        modifies this`edges, this`graphArcs
        invariant Valid() && edges == old(edges) - Elems(removed[..i])
      {
        assert removed[i] !in removed[..i] && removed[i] in Elems(removed);
        DropEdge(removed[i]);
        assert removed[..i + 1] == removed[..i] + [removed[i]];
        ElemsAppend(removed[..i], [removed[i]]);
      }
      assert removed[..|removed|] == removed;
      WithoutNodeOk(View(), wording, id);
      graphNodes := graphNodes - {id};
      nodes := nodes - {id};
      order := Select(order, OtherId(id));
      cache := cache - {id};
    }

    /** Deletes up to ten nodes. Every edge at one of them goes too, and is reported
        exactly once. */
    method DeleteNodes(ids: seq<string>, confirmed: bool) returns (ok: bool, deleted: seq<string>, affected: seq<string>)
      requires Valid()
      modifies this
      ensures Valid() && ok == (|ids| <= MAX_DELETES && confirmed)
      ensures !ok ==> View() == old(View()) && deleted == [] && affected == []
      ensures ok ==> NoDup(deleted) && (forall id :: id in deleted <==> id in ids && id in old(nodes))
      ensures ok ==> nodes == old(nodes) - Elems(ids)
      ensures ok ==> NoDup(affected) && Elems(affected) == Touching(old(edges), ids)
      ensures ok ==> edges == old(edges) - Touching(old(edges), ids)
    {
      hide GraphOk, Arcs, Texts, Touching, EdgesOf;
      deleted, affected := [], [];
      if |ids| > MAX_DELETES || !confirmed {
        return false, [], [];
      }
      TouchingNothing(edges);
      for i := 0 to |ids|
        invariant Valid()
        invariant NoDup(deleted) && forall id :: id in deleted <==> id in ids[..i] && id in old(nodes)
        invariant nodes == old(nodes) - Elems(ids[..i])
        invariant NoDup(affected) && Elems(affected) == Touching(old(edges), ids[..i])
        invariant edges == old(edges) - Touching(old(edges), ids[..i])
      {
        assert ids[..i + 1] == ids[..i] + [ids[i]];
        ElemsAppend(ids[..i], [ids[i]]);
        TouchingStep(old(edges), ids[..i], ids[i]);
        if ids[i] in nodes {
          var removed := DropNode(ids[i]);
          ElemsAppend(affected, removed);
          affected := affected + removed;
          deleted := deleted + [ids[i]];
        } else {
          NothingIncident(View(), [], ids[i]);
        }
      }
      assert ids[..|ids|] == ids;
      ok := true;
    }

    // -------------------------------------------------------------- reading

    /** The edges at the given nodes, collected from the index: what a scan of all
        edges finds. */
    method GetIncidentEdges(ids: seq<string>) returns (found: map<string, Edge>)
      requires Valid()
      ensures found == Incident(edges, ids)
    {
      found := map[];
      for i := 0 to |ids|
        invariant found == Incident(edges, ids[..i])
      {
        assert ids[..i + 1] == ids[..i] + [ids[i]];
        IncidentStep(edges, ids[..i], ids[i]);
        hide Incident, Touches, Arcs, Texts;
        if ids[i] !in nodes {
          NothingIncident(View(), ids[..i], ids[i]);
        } else if ids[i] in graphNodes {
          var outgoing, incoming := OutKeys(graphArcs, ids[i]), InKeys(graphArcs, ids[i]);
          found := found + map e | e in outgoing :: edges[e];
          found := found + map e | e in incoming :: edges[e];
        }
      }
      assert ids[..|ids|] == ids;
    }

    /** Traversal over the store's own index. */
    method RelatedTo(q: Traversal.Scope, depth: int) returns (found: set<string>, crossed: set<string>)
      requires Valid()
      ensures found == Traversal.RelatedNodes(View(), q, depth) && crossed == Traversal.RelatedEdges(View(), q, depth)
    {
      found, crossed := Traversal.GetRelatedNodes(View(), graphArcs, q, depth);
    }

    /** Text search before ranking and the limit: the hits in insertion order, each
        with the terms it matched. A text missing from the cache is built and kept,
        so the cache need not be complete; it must not be wrong. */
    method SearchNodes(q: Query) returns (results: seq<string>, matched: map<string, seq<string>>)
      requires GraphOk(View()) && CacheSound(wording, nodes, cache)
      modifies this`cache
      ensures results == Select(order, IsHit(View(), wording, q))
      ensures matched == HitTerms(View(), wording, q, order)
      ensures CacheSound(wording, nodes, cache)
      ensures old(cache) == Texts(wording, nodes) ==> cache == old(cache)
    {
      hide Text, Select, Contains, Hit, TermsIn, HitTerms, GraphOk;
      OrderIs(View());
      results, matched := [], map[];
      SelectNone([], IsHit(View(), wording, q));
      assert matched == HitTerms(View(), wording, q, []) by { NoHitTerms(View(), wording, q); }
      for i := 0 to |order|
        invariant results == Select(order[..i], IsHit(View(), wording, q))
        invariant matched == HitTerms(View(), wording, q, order[..i])
        invariant CacheSound(wording, nodes, cache)
        invariant old(cache) == Texts(wording, nodes) ==> cache == old(cache)
      {
        assert order[i] in nodes;
        var n := nodes[order[i]];
        SearchStep(View(), wording, q, order[..i], n.id);
        HitIs(View(), wording, q, n.id);
        assert order[..i + 1] == order[..i] + [n.id];
        if Shown(n, q) {
          if q.matchAll {
            results := results + [n.id];
          } else {
            if n.id !in cache {
              cache := cache[n.id := Text(wording, n)];
            }
            var hits := Select(q.terms, OccursIn(cache[n.id]));
            if hits != [] {
              matched := matched[n.id := hits];
              results := results + [n.id];
            }
          }
        }
      }
      assert order[..|order|] == order;
    }
  }

  // ------------------------------------------------------------------- search

  /** A normalised query: its terms, and the filters. No types means every type. */
  datatype Query = Query(matchAll: bool, terms: seq<string>, types: set<string>, includeArchived: bool)

  ghost predicate CacheSound(w: Wording, nodes: map<string, Node>, cache: map<string, string>) {
    forall id :: id in cache && id in nodes ==> cache[id] == Text(w, nodes[id])
  }

  /** Substring search. */
  predicate Contains(text: string, term: string) {
    term <= text || (text != "" && Contains(text[1..], term))
  }

  function OccursIn(text: string): string -> bool {
    term => Contains(text, term)
  }

  predicate Shown(n: Node, q: Query) {
    (q.types == {} || n.typ in q.types) && (q.includeArchived || !n.archived)
  }

  function TermsIn(w: Wording, n: Node, q: Query): seq<string> {
    Select(q.terms, OccursIn(Text(w, n)))
  }

  /** A hit by the node's own text, without any cache. */
  predicate Hit(g: Graph, w: Wording, q: Query, id: string) {
    id in g.nodes && Shown(g.nodes[id], q) && (q.matchAll || TermsIn(w, g.nodes[id], q) != [])
  }

  function IsHit(g: Graph, w: Wording, q: Query): string -> bool {
    id => Hit(g, w, q, id)
  }

  function HitTerms(g: Graph, w: Wording, q: Query, ids: seq<string>): map<string, seq<string>> {
    map id | id in ids && id in g.nodes && Hit(g, w, q, id) && !q.matchAll :: TermsIn(w, g.nodes[id], q)
  }

  lemma HitIs(g: Graph, w: Wording, q: Query, id: string)
    requires id in g.nodes
    ensures Hit(g, w, q, id) <==> Shown(g.nodes[id], q) && (q.matchAll || TermsIn(w, g.nodes[id], q) != [])
    ensures TermsIn(w, g.nodes[id], q) == Select(q.terms, OccursIn(Text(w, g.nodes[id])))
  {
  }

  lemma OrderIs(g: Graph)
    requires GraphOk(g)
    ensures forall id :: id in g.order <==> id in g.nodes
    ensures forall id :: id in g.nodes ==> g.nodes[id].id == id
  {
  }

  lemma NoHitTerms(g: Graph, w: Wording, q: Query)
    ensures HitTerms(g, w, q, []) == map[]
  {
  }

  lemma SearchStep(g: Graph, w: Wording, q: Query, ids: seq<string>, id: string)
    requires id in g.nodes
    ensures Select(ids + [id], IsHit(g, w, q)) == Select(ids, IsHit(g, w, q)) + if Hit(g, w, q, id) then [id] else []
    ensures HitTerms(g, w, q, ids + [id]) ==
            if Hit(g, w, q, id) && !q.matchAll then HitTerms(g, w, q, ids)[id := TermsIn(w, g.nodes[id], q)]
            else HitTerms(g, w, q, ids)
  {
    SelectAppend(ids, [id], IsHit(g, w, q));
    assert [id][1..] == [];
    assert Select([id], IsHit(g, w, q)) == if Hit(g, w, q, id) then [id] else [];
    hide Hit, TermsIn;
    assert forall x :: x in ids + [id] <==> x in ids || x == id;
  }

  /** Matching any term is matching one of them on its own. */
  lemma AnyTermIsUnion(g: Graph, w: Wording, q: Query, id: string)
    requires !q.matchAll
    ensures Hit(g, w, q, id) <==> exists t :: t in q.terms && Hit(g, w, q.(terms := [t]), id)
  {
    if id in g.nodes {
      var text := Text(w, g.nodes[id]);
      SelectFacts(q.terms, OccursIn(text));
      forall t ensures (Select([t], OccursIn(text)) != []) <==> Contains(text, t) {
        SelectFacts([t], OccursIn(text));
        assert t in [t];
      }
      if Hit(g, w, q, id) {
        var t := Select(q.terms, OccursIn(text))[0];
        assert t in q.terms && Contains(text, t);
        assert Hit(g, w, q.(terms := [t]), id);
      }
      if t :| t in q.terms && Hit(g, w, q.(terms := [t]), id) {
        assert Select([t], OccursIn(text)) != [];
        assert t in Select(q.terms, OccursIn(text));
      }
    }
  }

  function Present(ids: set<string>): string -> bool {
    id => id in ids
  }

  lemma EmptyOk(w: Wording)
    ensures LoadedNodes([]) == EMPTY_GRAPH && (forall g :: LoadedEdges(g, []) == g) && Ends([]) == {} && AllArcs([]) == {} && Texts(w, map[]) == map[]
  {
  }

  lemma TouchingNothing(edges: map<string, Edge>)
    ensures Touching(edges, []) == {}
  {
  }

  lemma {:induction false} NodeRefusalStays(g: Graph, ns: seq<Node>, k: nat)
    requires k <= |ns| && !AddNodesUpTo(g, ns[..k]).1
    ensures AddNodesUpTo(g, ns) == AddNodesUpTo(g, ns[..k])
  {
    if k == |ns| {
      assert ns[..k] == ns;
    } else {
      assert ns[..|ns| - 1][..k] == ns[..k];
      NodeRefusalStays(g, ns[..|ns| - 1], k);
    }
  }

  lemma {:induction false} EdgeRefusalStays(g: Graph, rules: Rules, es: seq<Edge>, k: nat)
    requires k <= |es| && !AddEdgesUpTo(g, rules, es[..k]).1
    ensures AddEdgesUpTo(g, rules, es) == AddEdgesUpTo(g, rules, es[..k])
  {
    hide Link;
    if k == |es| {
      assert es[..k] == es;
    } else {
      assert es[..|es| - 1][..k] == es[..k];
      EdgeRefusalStays(g, rules, es[..|es| - 1], k);
    }
  }
}
