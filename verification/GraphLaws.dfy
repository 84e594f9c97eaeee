/**
 The graph store, said of nodes, edges and words themselves: when an edge is accepted,
 when an addition succeeds, which words find a node, and which nodes and edges lie
 within reach of an anchor.
 */
module GraphLaws {
  import opened Values
  import opened Lists
  import opened GraphModel
  import opened GraphStorage
  import opened Traversal

  // ------------------------------------------------------------------- adding

  /** This end of an edge stands for this node: it is its id; or no node has that id, and it
      is the name of the node, the last one of that name to come in. */
  ghost predicate StandsFor(g: Graph, end: string, id: string) {
    if end in g.nodes then id == end
    else exists k :: 0 <= k < |g.order| && g.order[k] == id && Bears(g, id, end)
                     && forall j :: k < j < |g.order| ==> !Bears(g, g.order[j], end)
  }

  ghost predicate Bears(g: Graph, id: string, name: string) {
    id in g.nodes && g.nodes[id].name == name
  }

  lemma {:induction false} LastNamedIs(nodes: map<string, Node>, order: seq<string>, name: string) returns (k: nat)
    ensures match LastNamed(nodes, order, name)
            case Some(id) => k < |order| && order[k] == id && id in nodes && nodes[id].name == name
                             && forall j :: k < j < |order| ==> !(order[j] in nodes && nodes[order[j]].name == name)
            case None => forall j :: 0 <= j < |order| ==> !(order[j] in nodes && nodes[order[j]].name == name)
  {
    k := 0;
    if order != [] {
      var n := |order| - 1;
      if order[n] in nodes && nodes[order[n]].name == name {
        k := n;
      } else {
        k := LastNamedIs(nodes, order[..n], name);
      }
    }
  }

  lemma ResolveIs(g: Graph, end: string)
    requires GraphOk(g)
    ensures forall id :: Resolve(g, end) == Some(id) <==> StandsFor(g, end, id)
    ensures Resolve(g, end).Some? ==> Resolve(g, end).value in g.nodes
  {
    if end !in g.nodes {
      var k := LastNamedIs(g.nodes, g.order, end);
      if LastNamed(g.nodes, g.order, end).Some? {
        assert g.order[k] == LastNamed(g.nodes, g.order, end).value;
      }
    }
  }

  /** The edge fits: its ends stand for two nodes between whose types the rules allow it. */
  ghost predicate Fits(g: Graph, rules: Rules, e: Edge, source: string, target: string) {
    && StandsFor(g, e.source, source) && StandsFor(g, e.target, target) && source in g.nodes && target in g.nodes
    && rules(e.typ, g.nodes[source].typ, g.nodes[target].typ)
  }

  ghost predicate FitsIn(g: Graph, rules: Rules, e: Edge) {
    exists source, target :: Fits(g, rules, e, source, target)
  }

  /** An edge is accepted if and only if its ends stand for nodes, its id is new and the
      rules allow it; it then joins those nodes. The refusals say which of these failed,
      in this order. */
  lemma LinkIs(g: Graph, rules: Rules, e: Edge)
    requires GraphOk(g)
    ensures var r := Link(g, rules, e);
            && (r.Linked? <==> e.id !in g.edges && FitsIn(g, rules, e))
            && (r.Linked? ==> Fits(g, rules, e, r.edge.source, r.edge.target)
                              && r.edge == e.(source := r.edge.source, target := r.edge.target))
            && (r.Unresolved? <==> (forall s :: !StandsFor(g, e.source, s)) || (forall t :: !StandsFor(g, e.target, t)))
            && (r.Duplicate? ==> e.id in g.edges)
            && (r.NotAllowed? ==> e.id !in g.edges && !FitsIn(g, rules, e))
  {
    ResolveIs(g, e.source);
    ResolveIs(g, e.target);
    hide StandsFor, Resolve;
    var s, t := Resolve(g, e.source), Resolve(g, e.target);
    if s.Some? && t.Some? {
      assert StandsFor(g, e.source, s.value) && StandsFor(g, e.target, t.value);
      assert Fits(g, rules, e, s.value, t.value) <==> rules(e.typ, g.nodes[s.value].typ, g.nodes[t.value].typ);
    }
  }

  function IdsOf(ns: seq<Node>): seq<string> {
    seq(|ns|, i requires 0 <= i < |ns| => ns[i].id)
  }

  function EdgeIds(es: seq<Edge>): seq<string> {
    seq(|es|, i requires 0 <= i < |es| => es[i].id)
  }

  /** Every id is new and given once. */
  ghost predicate NewIds(ids: seq<string>, taken: set<string>) {
    NoDup(ids) && forall id :: id in ids ==> id !in taken
  }

  /** `g'` has these nodes besides, in their order. */
  ghost predicate WithThese(g: Graph, ns: seq<Node>, g': Graph) {
    && g'.edges == g.edges && g'.order == g.order + IdsOf(ns)
    && (forall i :: 0 <= i < |ns| ==> Lookup(g'.nodes, ns[i].id) == Some(ns[i]))
    && (forall id :: id !in IdsOf(ns) ==> Lookup(g'.nodes, id) == Lookup(g.nodes, id))
  }

  lemma NewIdsPush(ids: seq<string>, id: string, taken: set<string>)
    ensures NewIds(ids + [id], taken) <==> NewIds(ids, taken) && id !in ids && id !in taken
  {
    var all := ids + [id];
    assert all[|ids|] == id;
    assert forall i :: 0 <= i < |ids| ==> all[i] == ids[i];
    assert NoDup(all) ==> forall i :: 0 <= i < |ids| ==> all[i] != all[|ids|];
  }

  lemma {:induction false} NodesIn(g: Graph, ns: seq<Node>)
    ensures AddNodesUpTo(g, ns).1 <==> NewIds(IdsOf(ns), g.nodes.Keys)
    ensures AddNodesUpTo(g, ns).1 ==> WithThese(g, ns, AddNodesUpTo(g, ns).0)
  {
    if ns == [] {
      assert IdsOf(ns) == [] && g.order + [] == g.order;
    } else {
      var k := |ns| - 1;
      NodesIn(g, ns[..k]);
      assert IdsOf(ns) == IdsOf(ns[..k]) + [ns[k].id];
      NewIdsPush(IdsOf(ns[..k]), ns[k].id, g.nodes.Keys);
      hide NewIds, WithThese, IdsOf;
      if AddNodesUpTo(g, ns[..k]).1 {
        OneMoreIn(g, ns, AddNodesUpTo(g, ns[..k]).0);
      }
    }
  }

  lemma OneMoreIn(g: Graph, ns: seq<Node>, g0: Graph)
    requires ns != [] && WithThese(g, ns[..|ns| - 1], g0)
    ensures var id := ns[|ns| - 1].id;
            && (id in g0.nodes <==> id in g.nodes || id in IdsOf(ns[..|ns| - 1]))
            && (id !in g0.nodes ==> WithThese(g, ns, WithNode(g0, ns[|ns| - 1])))
  {
    var k := |ns| - 1;
    var before, id := IdsOf(ns[..k]), ns[k].id;
    assert IdsOf(ns) == before + [id];
    if id in before {
      var i :| 0 <= i < k && before[i] == id;
      assert Lookup(g0.nodes, ns[..k][i].id) == Some(ns[..k][i]);
    } else {
      assert Lookup(g0.nodes, id) == Lookup(g.nodes, id);
    }
    if id !in g0.nodes {
      var g' := WithNode(g0, ns[k]);
      assert g'.order == g.order + IdsOf(ns);
      forall i | 0 <= i < |ns| ensures Lookup(g'.nodes, ns[i].id) == Some(ns[i]) {
        if i < k {
          assert ns[..k][i] == ns[i];
          assert Lookup(g0.nodes, ns[i].id) == Some(ns[i]);
        }
      }
      forall x | x !in IdsOf(ns) ensures Lookup(g'.nodes, x) == Lookup(g.nodes, x) {
        assert x !in before && x != id;
        assert Lookup(g0.nodes, x) == Lookup(g.nodes, x);
      }
    }
  }

  /** Every edge fits, and its id is new and given once. */
  ghost predicate NewEdges(g: Graph, rules: Rules, es: seq<Edge>) {
    NewIds(EdgeIds(es), g.edges.Keys) && forall e :: e in es ==> FitsIn(g, rules, e)
  }

  lemma {:induction false} EdgesIn(g: Graph, rules: Rules, es: seq<Edge>)
    requires GraphOk(g)
    ensures AddEdgesUpTo(g, rules, es).1 <==> NewEdges(g, rules, es)
    ensures var (g', ok) := AddEdgesUpTo(g, rules, es);
            && g'.nodes == g.nodes && g'.order == g.order && GraphOk(g')
            && (ok ==> forall id :: id in g'.edges <==> id in g.edges || id in EdgeIds(es))
  {
    AddEdgesFacts(g, rules, es);
    hide FitsIn, Link, Extends, HasEdges, GraphOk, NewIds, EdgeIds;
    if es == [] {
      NoEdgeIds(g);
    } else {
      var k := |es| - 1;
      EdgesIn(g, rules, es[..k]);
      var (g0, ok) := AddEdgesUpTo(g, rules, es[..k]);
      PushedIds(es);
      NewIdsPush(EdgeIds(es[..k]), es[k].id, g.edges.Keys);
      assert forall e :: e in es <==> e in es[..k] || e == es[k];
      if ok {
        LinkIs(g0, rules, es[k]);
        SameFits(g, g0, rules, es[k]);
        if Link(g0, rules, es[k]).Linked? {
          LinkIsLive(g0, rules, es[k]);
        }
      }
    }
  }

  lemma NoEdgeIds(g: Graph)
    ensures EdgeIds([]) == [] && NewIds([], g.edges.Keys)
  {
  }

  lemma PushedIds(es: seq<Edge>)
    requires es != []
    ensures EdgeIds(es) == EdgeIds(es[..|es| - 1]) + [es[|es| - 1].id]
  {
  }

  lemma SameFits(g: Graph, g0: Graph, rules: Rules, e: Edge)
    requires g0.nodes == g.nodes && g0.order == g.order
    ensures FitsIn(g, rules, e) <==> FitsIn(g0, rules, e)
  {
    forall s, t ensures Fits(g, rules, e, s, t) <==> Fits(g0, rules, e, s, t) {
      StandsForSame(g, g0, e.source, s);
      StandsForSame(g, g0, e.target, t);
    }
  }

  lemma StandsForSame(g: Graph, g0: Graph, end: string, id: string)
    requires g0.nodes == g.nodes && g0.order == g.order
    ensures StandsFor(g, end, id) <==> StandsFor(g0, end, id)
  {
    forall x ensures Bears(g, x, end) == Bears(g0, x, end) {
    }
  }

  /** An addition succeeds if and only if every node id is new and given once, and then
      every edge id is, and every edge fits among the nodes there are by then. */
  lemma AddAllIff(g: Graph, rules: Rules, ns: seq<Node>, es: seq<Edge>, g1: Graph)
    requires GraphOk(g) && (NewIds(IdsOf(ns), g.nodes.Keys) ==> WithThese(g, ns, g1))
    ensures AddAll(g, rules, ns, es).1 <==> NewIds(IdsOf(ns), g.nodes.Keys) && NewEdges(g1, rules, es)
  {
    NodesIn(g, ns);
    AddNodesFacts(g, ns);
    if NewIds(IdsOf(ns), g.nodes.Keys) {
      var g' := AddNodesUpTo(g, ns).0;
      OnlyOne(g, ns, g1, g');
      EdgesIn(g', rules, es);
    }
  }

  lemma OnlyOne(g: Graph, ns: seq<Node>, a: Graph, b: Graph)
    requires WithThese(g, ns, a) && WithThese(g, ns, b)
    ensures a == b
  {
    forall id ensures Lookup(a.nodes, id) == Lookup(b.nodes, id) {
      if id in IdsOf(ns) {
        var i :| 0 <= i < |ns| && IdsOf(ns)[i] == id;
        assert Lookup(a.nodes, ns[i].id) == Lookup(b.nodes, ns[i].id);
      }
    }
    assert a.nodes == b.nodes by {
      assert forall id :: id in a.nodes <==> Lookup(a.nodes, id).Some?;
      assert forall id :: id in b.nodes <==> Lookup(b.nodes, id).Some?;
      assert forall id :: id in a.nodes ==> Lookup(a.nodes, id) == Some(a.nodes[id]);
      assert forall id :: id in b.nodes ==> Lookup(b.nodes, id) == Some(b.nodes[id]);
    }
  }

  // ------------------------------------------------------------------ loading

  /** What is loaded: each id once, in the order of its first node; and of the nodes and of
      the edges of one id the last. */
  lemma {:induction false} NodesLoaded(ns: seq<Node>)
    ensures FirstCome(LoadedNodes(ns).order, IdsOf(ns))
    ensures forall id :: id in LoadedNodes(ns).order <==> id in IdsOf(ns)
    ensures forall id :: id in LoadedNodes(ns).nodes <==> id in IdsOf(ns)
    ensures forall i :: 0 <= i < |ns| && LastOfId(ns, i) ==> Lookup(LoadedNodes(ns).nodes, ns[i].id) == Some(ns[i])
  {
    hide FirstCome, IdsOf, LastOfId, LoadedNodes;
    if ns == [] {
      NothingLoaded();
    } else {
      NodesLoaded(ns[..|ns| - 1]);
      OneMoreLoaded(ns);
      LastOnesLoaded(ns);
    }
  }

  lemma NothingLoaded()
    ensures LoadedNodes([]) == EMPTY_GRAPH && IdsOf([]) == [] && FirstCome([], [])
  {
  }

  lemma OneMoreLoaded(ns: seq<Node>)
    requires ns != []
    requires var before := LoadedNodes(ns[..|ns| - 1]);
             && FirstCome(before.order, IdsOf(ns[..|ns| - 1]))
             && (forall id :: id in before.order <==> id in IdsOf(ns[..|ns| - 1]))
             && (forall id :: id in before.nodes <==> id in IdsOf(ns[..|ns| - 1]))
    ensures FirstCome(LoadedNodes(ns).order, IdsOf(ns))
    ensures forall id :: id in LoadedNodes(ns).order <==> id in IdsOf(ns)
    ensures forall id :: id in LoadedNodes(ns).nodes <==> id in IdsOf(ns)
  {
    var k := |ns| - 1;
    var ids, before := IdsOf(ns[..k]), LoadedNodes(ns[..k]);
    PushedNodeIds(ns);
    assert LoadedNodes(ns) == Overwritten(before, ns[k]);
    hide FirstCome, IdsOf, LoadedNodes;
    ComesLater(before.order, ids, ns[k].id);
    assert forall id :: id in ids + [ns[k].id] <==> id in ids || id == ns[k].id;
  }

  lemma LastOnesLoaded(ns: seq<Node>)
    requires ns != []
    requires var k := |ns| - 1;
             forall i :: 0 <= i < k && LastOfId(ns[..k], i) ==> Lookup(LoadedNodes(ns[..k]).nodes, ns[..k][i].id) == Some(ns[..k][i])
    ensures forall i :: 0 <= i < |ns| && LastOfId(ns, i) ==> Lookup(LoadedNodes(ns).nodes, ns[i].id) == Some(ns[i])
  {
    var k := |ns| - 1;
    assert LoadedNodes(ns) == Overwritten(LoadedNodes(ns[..k]), ns[k]);
    hide LastOfId, LoadedNodes;
    forall i | 0 <= i < |ns| && LastOfId(ns, i) ensures Lookup(LoadedNodes(ns).nodes, ns[i].id) == Some(ns[i]) {
      LastBefore(ns, i);
      if i < k {
        assert ns[..k][i] == ns[i];
        assert Lookup(LoadedNodes(ns[..k]).nodes, ns[i].id) == Some(ns[i]);
      }
    }
  }

  predicate LastOfId(ns: seq<Node>, i: nat)
    requires i < |ns|
  {
    forall j :: i < j < |ns| ==> ns[j].id != ns[i].id
  }

  lemma LastBefore(ns: seq<Node>, i: nat)
    requires i < |ns| && LastOfId(ns, i)
    ensures var k := |ns| - 1; i < k ==> LastOfId(ns[..k], i) && ns[k].id != ns[i].id
  {
  }

  lemma PushedNodeIds(ns: seq<Node>)
    requires ns != []
    ensures IdsOf(ns) == IdsOf(ns[..|ns| - 1]) + [ns[|ns| - 1].id]
  {
  }

  lemma ComesLater(found: seq<string>, ids: seq<string>, id: string)
    requires FirstCome(found, ids) && forall x :: x in found <==> x in ids
    ensures FirstCome(if id in ids then found else found + [id], ids + [id])
  {
    var all, now := ids + [id], if id in ids then found else found + [id];
    forall i, j | 0 <= i < j < |now| ensures Before(now[i], now[j], all) {
      if j < |found| {
        assert Before(found[i], found[j], ids);
        var k :| 0 <= k < |ids| && ids[k] == found[i] && found[j] !in ids[..k + 1];
        assert all[..k + 1] == ids[..k + 1] && all[k] == found[i];
      } else {
        assert found[i] in ids;
        var k :| 0 <= k < |ids| && ids[k] == found[i];
        assert all[..k + 1] == ids[..k + 1] && all[k] == found[i];
      }
    }
  }

  lemma {:induction false} EdgesLoaded(g: Graph, es: seq<Edge>)
    requires g.edges == map[]
    ensures forall i :: 0 <= i < |es| && es[i].id !in EdgeIds(es)[i + 1..] ==> Lookup(LoadedEdges(g, es).edges, es[i].id) == Some(es[i])
  {
    if es != [] {
      var k := |es| - 1;
      EdgesLoaded(g, es[..k]);
      forall i | 0 <= i < |es| && es[i].id !in EdgeIds(es)[i + 1..] ensures Lookup(LoadedEdges(g, es).edges, es[i].id) == Some(es[i]) {
        if i < k {
          PushedIds(es);
          assert EdgeIds(es)[i + 1..] == EdgeIds(es[..k])[i + 1..] + [es[k].id];
          assert es[..k][i] == es[i];
          assert Lookup(LoadedEdges(g, es[..k]).edges, es[i].id) == Some(es[i]);
        }
      }
    }
  }

  // ------------------------------------------------------------------ editing

  /** Archiving touches the named nodes whose flag differs, and of them the flag and the time;
      of edges it touches the flag alone. */
  lemma ArchivingIs(nodes: map<string, Node>, edges: map<string, Edge>, ids: seq<string>, archived: bool, now: int)
    ensures forall id :: id in nodes ==>
              && id in ArchivedNodes(nodes, ids, archived, now)
              && var n, n' := nodes[id], ArchivedNodes(nodes, ids, archived, now)[id];
                 && n' == n.(archived := n'.archived, updatedAt := n'.updatedAt)
                 && n'.archived == (if id in ids then archived else n.archived)
                 && n'.updatedAt == (if n'.archived != n.archived then now else n.updatedAt)
    ensures ArchivedNodes(nodes, ids, archived, now).Keys == nodes.Keys
    ensures forall id :: id in edges ==>
              && id in ArchivedEdges(edges, ids, archived)
              && var e, e' := edges[id], ArchivedEdges(edges, ids, archived)[id];
                 e' == e.(archived := e'.archived) && e'.archived == (if id in ids then archived else e.archived)
    ensures ArchivedEdges(edges, ids, archived).Keys == edges.Keys
  {
  }

  /** An edit sets the fields that can be edited, and the time, and nothing else. */
  lemma FieldsAre(n: Node, f: Fields, now: int)
    ensures var n' := WithFields(n, f, now);
            && n'.id == n.id && n'.typ == n.typ && n'.archived == n.archived && n'.updatedAt == now
            && Fields(n'.name, n'.description, n'.summary, n'.tags, n'.subtypes, n'.aliases) == f
  {
  }

  /** The edges at some nodes are those with an end among them, with nothing changed. */
  lemma IncidentIs(edges: map<string, Edge>, ids: seq<string>)
    ensures forall e :: e in Incident(edges, ids) <==> e in edges && (edges[e].source in ids || edges[e].target in ids)
    ensures forall e :: e in Incident(edges, ids) ==> Incident(edges, ids)[e] == edges[e]
    ensures Touching(edges, ids) == Incident(edges, ids).Keys
  {
  }

  // ---------------------------------------------------------------- searching

  /** The term stands in the text, from here. */
  ghost predicate OccursAt(text: string, term: string, i: int) {
    0 <= i <= |text| - |term| && text[i..i + |term|] == term
  }

  ghost predicate Occurs(text: string, term: string) {
    exists i :: OccursAt(text, term, i)
  }

  lemma {:induction false} ContainsIs(text: string, term: string)
    ensures Contains(text, term) <==> Occurs(text, term)
    decreases |text|
  {
    if term <= text {
      assert OccursAt(text, term, 0);
    } else if text != "" {
      ContainsIs(text[1..], term);
      OccursLater(text, term);
      hide Occurs;
    }
  }

  lemma OccursLater(text: string, term: string)
    requires text != "" && !(term <= text)
    ensures Occurs(text, term) <==> Occurs(text[1..], term)
  {
    if Occurs(text[1..], term) {
      var i :| OccursAt(text[1..], term, i);
      assert text[i + 1..i + 1 + |term|] == text[1..][i..i + |term|];
      assert OccursAt(text, term, i + 1);
    }
    if Occurs(text, term) {
      var i :| OccursAt(text, term, i);
      assert i > 0;
      assert text[1..][i - 1..i - 1 + |term|] == text[i..i + |term|];
      assert OccursAt(text[1..], term, i - 1);
    }
  }

  /** Which nodes a search finds: those of the wanted types, archived ones only if asked for,
      in whose text one of the terms stands; and the terms it matched, in order. */
  lemma HitIff(g: Graph, w: Wording, q: Query, id: string)
    requires id in g.nodes
    ensures var n := g.nodes[id];
            Hit(g, w, q, id) <==>
              && (q.types != {} ==> n.typ in q.types)
              && (n.archived ==> q.includeArchived)
              && (q.matchAll || exists t :: t in q.terms && Occurs(Text(w, n), t))
    ensures forall t :: t in TermsIn(w, g.nodes[id], q) <==> t in q.terms && Occurs(Text(w, g.nodes[id]), t)
    ensures Kept(TermsIn(w, g.nodes[id], q), q.terms, OccursIn(Text(w, g.nodes[id])))
  {
    var text := Text(w, g.nodes[id]);
    hide Text, Kept;
    SelectFacts(q.terms, OccursIn(text));
    SelectKeeps(q.terms, OccursIn(text));
    forall t ensures Contains(text, t) <==> Occurs(text, t) {
      ContainsIs(text, t);
    }
    if TermsIn(w, g.nodes[id], q) != [] {
      assert TermsIn(w, g.nodes[id], q)[0] in TermsIn(w, g.nodes[id], q);
    }
  }

  /** Case folding goes letter by letter, and leaves the blank alone. */
  ghost predicate Letterwise(w: Wording) {
    w.lower(" ") == " " && forall a, b :: w.lower(a + b) == w.lower(a) + w.lower(b)
  }

  predicate OneWord(term: string) {
    term != "" && ' ' !in term
  }

  lemma LettersOf(text: string, term: string, i: int, at: int)
    requires OccursAt(text, term, i)
    ensures i <= at < i + |term| ==> text[at] in term
  {
    if i <= at < i + |term| {
      assert text[i..i + |term|][at - i] == text[at];
    }
  }

  lemma WordInEither(a: string, b: string, term: string)
    requires OneWord(term)
    ensures Occurs(a + " " + b, term) <==> Occurs(a, term) || Occurs(b, term)
  {
    var ab := a + " " + b;
    if Occurs(a, term) {
      var i :| OccursAt(a, term, i);
      assert ab[i..i + |term|] == a[i..i + |term|];
      assert OccursAt(ab, term, i);
    }
    if Occurs(b, term) {
      var i :| OccursAt(b, term, i);
      assert ab[|a| + 1 + i..|a| + 1 + i + |term|] == b[i..i + |term|];
      assert OccursAt(ab, term, |a| + 1 + i);
    }
    if Occurs(ab, term) {
      var i :| OccursAt(ab, term, i);
      LettersOf(ab, term, i, |a|);
      if i + |term| <= |a| {
        assert a[i..i + |term|] == ab[i..i + |term|];
        assert OccursAt(a, term, i);
      } else {
        assert b[i - |a| - 1..i - |a| - 1 + |term|] == ab[i..i + |term|];
        assert OccursAt(b, term, i - |a| - 1);
      }
    }
  }

  lemma FoldedPair(w: Wording, a: string, b: string, term: string)
    requires Letterwise(w) && OneWord(term)
    ensures Occurs(w.lower(a + " " + b), term) <==> Occurs(w.lower(a), term) || Occurs(w.lower(b), term)
  {
    assert w.lower(a + " " + b) == w.lower(a) + " " + w.lower(b);
    WordInEither(w.lower(a), w.lower(b), term);
  }

  ghost predicate InOne(w: Wording, words: seq<string>, term: string) {
    exists i :: 0 <= i < |words| && Occurs(w.lower(words[i]), term)
  }

  lemma NothingFolded(w: Wording)
    requires Letterwise(w)
    ensures w.lower("") == ""
  {
    assert "" + "" == "";
    assert w.lower("") == w.lower("") + w.lower("");
  }

  lemma {:induction false} WordInJoin(w: Wording, words: seq<string>, term: string)
    requires Letterwise(w) && OneWord(term)
    ensures Occurs(w.lower(Join(words)), term) <==> InOne(w, words, term)
  {
    hide Occurs;
    if words == [] {
      NothingFolded(w);
      NotInNothing(term);
    } else {
      var k := |words| - 1;
      OneMoreWord(w, words, term);
      if k > 0 {
        WordInJoin(w, words[..k], term);
        FoldedPair(w, Join(words[..k]), words[k], term);
      } else {
        assert !InOne(w, words[..k], term);
      }
    }
  }

  lemma NotInNothing(term: string)
    requires term != ""
    ensures !Occurs("", term)
  {
  }

  lemma OneMoreWord(w: Wording, words: seq<string>, term: string)
    requires words != []
    ensures InOne(w, words, term) <==> InOne(w, words[..|words| - 1], term) || Occurs(w.lower(words[|words| - 1]), term)
  {
    hide Occurs;
    var before := words[..|words| - 1];
    if InOne(w, before, term) {
      var i :| 0 <= i < |before| && Occurs(w.lower(before[i]), term);
      assert words[i] == before[i];
    }
    if InOne(w, words, term) {
      var i :| 0 <= i < |words| && Occurs(w.lower(words[i]), term);
      assert i < |before| ==> before[i] == words[i];
    }
  }

  /** Which fields are searched: a word stands in a node's text if and only if it stands in
      its name, its description, its summary, one of its tags, subtypes or aliases, or the
      words for its type. */
  lemma FieldsSearched(w: Wording, n: Node, term: string)
    requires Letterwise(w) && OneWord(term)
    ensures Occurs(Text(w, n), term) <==>
              || Occurs(w.lower(n.name), term) || Occurs(w.lower(n.description), term) || Occurs(w.lower(n.summary), term)
              || InOne(w, n.tags, term) || InOne(w, n.subtypes, term) || InOne(w, n.aliases, term)
              || Occurs(w.lower(if n.typ in w.labels then w.labels[n.typ] else w.lower(n.typ)), term)
  {
    hide Occurs, Letterwise, InOne, Join;
    var kind := if n.typ in w.labels then w.labels[n.typ] else w.lower(n.typ);
    WordInJoin(w, n.tags, term);
    WordInJoin(w, n.subtypes, term);
    WordInJoin(w, n.aliases, term);
    FoldedPair(w, n.name, n.description, term);
    var t1 := n.name + " " + n.description;
    FoldedPair(w, t1, n.summary, term);
    var t2 := t1 + " " + n.summary;
    FoldedPair(w, t2, Join(n.tags), term);
    var t3 := t2 + " " + Join(n.tags);
    FoldedPair(w, t3, Join(n.subtypes), term);
    var t4 := t3 + " " + Join(n.subtypes);
    FoldedPair(w, t4, Join(n.aliases), term);
    var t5 := t4 + " " + Join(n.aliases);
    FoldedPair(w, t5, kind, term);
  }

  // --------------------------------------------------------------- traversing

  /** The edge is of a wanted type, and archived only if archived ones are asked for. */
  ghost predicate Followed(q: Scope, e: Edge) {
    (q.types != {} ==> e.typ in q.types) && (e.archived ==> q.includeArchived)
  }

  /** The node is the anchor, or archived only if archived ones are asked for. */
  ghost predicate Visited(g: Graph, q: Scope, id: string) {
    id in g.nodes && (g.nodes[id].archived ==> id == q.anchor || q.includeArchived)
  }

  /** A followed edge joins this node to one reached before. */
  ghost predicate LedTo(g: Graph, q: Scope, near: set<string>, key: string, id: string) {
    && key in g.edges && Followed(q, g.edges[key])
    && ((g.edges[key].source in near && g.edges[key].target == id) || (g.edges[key].target in near && g.edges[key].source == id))
  }

  lemma FollowedIs(g: Graph, q: Scope)
    ensures forall e: Edge :: Usable(q, e) <==> Followed(q, e)
    ensures forall id :: id in g.nodes ==> (!Blocked(g, q, id) <==> Visited(g, q, id))
  {
  }

  lemma {:induction false} BallInGraph(g: Graph, q: Scope, depth: nat)
    requires GraphOk(g) && q.anchor in g.nodes
    ensures Ball(g, q, depth) <= g.nodes.Keys
  {
    if depth > 0 {
      BallInGraph(g, q, depth - 1);
    }
  }

  /** Step by step: at depth 0 there is the anchor alone. One step further come the followed
      edges at a node reached before that lead to a node one may visit, and the nodes they
      lead to; and nothing else. */
  lemma ReachIs(g: Graph, q: Scope, depth: nat)
    requires GraphOk(g) && q.anchor in g.nodes
    ensures RelatedNodes(g, q, 0) == {q.anchor} && RelatedEdges(g, q, 0) == {}
    ensures var near := RelatedNodes(g, q, depth);
            && (forall key :: key in RelatedEdges(g, q, depth + 1) <==>
                  && key in g.edges && Followed(q, g.edges[key])
                  && ((g.edges[key].source in near && Visited(g, q, g.edges[key].target))
                      || (g.edges[key].target in near && Visited(g, q, g.edges[key].source))))
            && (forall id :: id in RelatedNodes(g, q, depth + 1) <==>
                  id in near || (Visited(g, q, id) && exists key :: LedTo(g, q, near, key, id)))
  {
    hide Usable, Blocked, Followed, Visited, Ball, RelatedNodes, RelatedEdges, Neighbours, Crossed, LedTo, GraphOk;
    FollowedIs(g, q);
    ReachStep(g, q, depth);
    StepIs(g, q, RelatedNodes(g, q, depth));
  }

  /** Nothing is within reach of a node that is not there, and no step is taken on a depth
      below one. */
  lemma NoReach(g: Graph, q: Scope, depth: int)
    ensures q.anchor !in g.nodes ==> RelatedNodes(g, q, depth) == {} && RelatedEdges(g, q, depth) == {}
    ensures q.anchor in g.nodes && depth <= 0 ==> RelatedNodes(g, q, depth) == {q.anchor} && RelatedEdges(g, q, depth) == {}
  {
    assert q.anchor in g.nodes ==> {q.anchor} * g.nodes.Keys == {q.anchor};
  }

  lemma ReachStep(g: Graph, q: Scope, depth: nat)
    requires GraphOk(g) && q.anchor in g.nodes
    ensures RelatedNodes(g, q, 0) == {q.anchor} && RelatedEdges(g, q, 0) == {}
    ensures var near := RelatedNodes(g, q, depth);
            && RelatedNodes(g, q, depth + 1) == near + Neighbours(g, q, near)
            && RelatedEdges(g, q, depth + 1) == Crossed(g, q, near)
  {
    hide Neighbours, Crossed, GraphOk;
    BallInGraph(g, q, depth);
    BallInGraph(g, q, depth + 1);
    assert Ball(g, q, depth) * g.nodes.Keys == Ball(g, q, depth);
    assert Ball(g, q, depth + 1) * g.nodes.Keys == Ball(g, q, depth + 1);
    assert {q.anchor} * g.nodes.Keys == {q.anchor};
  }

  lemma StepIs(g: Graph, q: Scope, near: set<string>)
    requires GraphOk(g)
    requires forall e: Edge :: Usable(q, e) <==> Followed(q, e)
    requires forall id :: id in g.nodes ==> (!Blocked(g, q, id) <==> Visited(g, q, id))
    ensures forall key :: key in Crossed(g, q, near) <==>
                  && key in g.edges && Followed(q, g.edges[key])
                  && ((g.edges[key].source in near && Visited(g, q, g.edges[key].target))
                      || (g.edges[key].target in near && Visited(g, q, g.edges[key].source)))
    ensures forall id :: id in Neighbours(g, q, near) <==> Visited(g, q, id) && exists key :: LedTo(g, q, near, key, id)
  {
    hide Usable, Blocked, Followed;
    assert forall id :: Visited(g, q, id) ==> id in g.nodes;
    forall id ensures id in Neighbours(g, q, near) <==> Visited(g, q, id) && exists key :: LedTo(g, q, near, key, id) {
      NeighbourIff(g, q, near, id);
      hide Neighbours, Crossed, Visited;
      if id in Neighbours(g, q, near) {
        var a, key :| a in near && Hop(g, q, a, key, id);
        assert LedTo(g, q, near, key, id);
      }
      if Visited(g, q, id) && exists key :: LedTo(g, q, near, key, id) {
        var key :| LedTo(g, q, near, key, id);
        var a := if g.edges[key].source in near && g.edges[key].target == id then g.edges[key].source else g.edges[key].target;
        assert Hop(g, q, a, key, id) by { assert id in g.nodes; }
      }
    }
  }
}
