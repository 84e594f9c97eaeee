/**
 The migration converges: one parent's pass leaves that parent in step with its
 codes and the others as they were, so a second migration changes nothing; and
 the pass keeps ids unique and references whole.
 */
module MigrationFacts {
  import opened Values
  import opened Lists
  import opened Migration

  // -------------------------------------------------------------- assumptions

  /** A HAS_ITEM edge from a classification to an item. */
  predicate IsItemLink(nodes: seq<Node>, e: Edge) {
    && e.typ == HAS_ITEM
    && FindNode(nodes, e.source).Some? && FindNode(nodes, e.source).value.typ == CLASSIFICATION
    && FindNode(nodes, e.target).Some? && FindNode(nodes, e.target).value.typ == ITEM
  }

  /** No item belongs to two classifications. */
  ghost predicate Unshared(g: Graph) {
    forall e, f :: e in g.edges && f in g.edges && IsItemLink(g.nodes, e) && IsItemLink(g.nodes, f) && e.target == f.target
      ==> e.source == f.source
  }

  /** This classification wants a code that it has no item for. */
  ghost predicate NeedsNew(g: Graph, p: Node, code: string) {
    && p in g.nodes && p.typ == CLASSIFICATION && !p.codes.Unreadable?
    && Wants(WantedBy(p), code) && Lead(g, p.id, code).None?
  }

  ghost predicate HasEdgeId(edges: seq<Edge>, id: string) {
    exists e :: e in edges && e.id == id
  }

  /** The ids to be derived are not in use, and no two of them coincide. */
  ghost predicate FreshIds(g: Graph, derive: Derive) {
    && (forall p, c :: NeedsNew(g, p, c) ==>
          !HasId(g.nodes, derive(p.id, c)) && !HasEdgeId(g.edges, derive(p.id, "edge:" + c)))
    && (forall p, c, q, d :: NeedsNew(g, p, c) && NeedsNew(g, q, d)
          && (derive(p.id, c) == derive(q.id, d) || derive(p.id, "edge:" + c) == derive(q.id, "edge:" + d))
          ==> p.id == q.id && c == d)
  }

  /** Sound ids and references. */
  ghost predicate Base(g: Graph, derive: Derive) {
    Unique(g.nodes) && UniqueEdges(g.edges) && NoDangling(g) && FreshIds(g, derive)
  }

  ghost predicate Ready(g: Graph, derive: Derive) {
    Base(g, derive) && Unshared(g)
  }

  /** A classification that can be brought in step. */
  ghost predicate Parent(g: Graph, p: Node) {
    p in g.nodes && p.typ == CLASSIFICATION && !p.codes.Unreadable?
  }

  // ------------------------------------------------------ sequences, once more

  lemma {:induction false} UniqueSelect(nodes: seq<Node>, keep: Node -> bool)
    requires Unique(nodes)
    ensures Unique(Select(nodes, keep))
  {
    if nodes != [] {
      UniqueSelect(nodes[1..], keep);
      SelectFacts(nodes[1..], keep);
      var rest := Select(nodes[1..], keep);
      forall i | 0 <= i < |rest| ensures rest[i].id != nodes[0].id {
        assert rest[i] in nodes[1..];
      }
    }
  }

  lemma {:induction false} UniqueEdgesSelect(edges: seq<Edge>, keep: Edge -> bool)
    requires UniqueEdges(edges)
    ensures UniqueEdges(Select(edges, keep))
  {
    if edges != [] {
      UniqueEdgesSelect(edges[1..], keep);
      SelectFacts(edges[1..], keep);
      var rest := Select(edges[1..], keep);
      forall i | 0 <= i < |rest| ensures rest[i].id != edges[0].id {
        assert rest[i] in edges[1..];
      }
    }
  }

  /** Selecting again what an earlier selection keeps anyway. */
  lemma {:induction false} SelectThrough<T>(s: seq<T>, keep: T -> bool, was: T -> bool, now: T -> bool)
    requires forall x :: x in s && was(x) ==> keep(x)
    requires forall x :: x in s && keep(x) ==> now(x) == was(x)
    ensures Select(Select(s, keep), now) == Select(s, was)
  {
    if s != [] {
      SelectThrough(s[1..], keep, was, now);
      if keep(s[0]) {
        assert ([s[0]] + Select(s[1..], keep))[1..] == Select(s[1..], keep);
      }
    }
  }

  // ----------------------------------------------------------- what is doomed

  lemma DoomedAre(g: Graph, p: Node, ws: seq<Want>, id: string)
    requires id in Doomed(g, p.id, ws)
    ensures FindNode(g.nodes, id).Some?
    ensures var n := FindNode(g.nodes, id).value;
            n.typ == ITEM && n.generated && n.code.Some? && WantIndex(ws, n.code.value).None?
    ensures exists e :: e in g.edges && e.typ == HAS_ITEM && e.source == p.id && e.target == id
  {
  }

  /** What links say about their targets. */
  lemma LinkIs(nodes: seq<Node>, cid: string, e: Edge)
    requires LinkCode(nodes, cid, e).Some?
    ensures e.typ == HAS_ITEM && e.source == cid && FindNode(nodes, e.target).Some?
    ensures FindNode(nodes, e.target).value.typ == ITEM && FindNode(nodes, e.target).value.code == LinkCode(nodes, cid, e)
  {
  }

  lemma FoundIs(g: Graph, cid: string, code: string, e: Edge)
    ensures e in Found(g, cid, code) <==> e in g.edges && LinkCode(g.nodes, cid, e) == Some(code)
  {
    SelectFacts(g.edges, LinksTo(g.nodes, cid, code));
  }

  /** The lead item of a code bears that code, and is linked from the classification. */
  lemma LeadIs(g: Graph, cid: string, code: string)
    requires Lead(g, cid, code).Some?
    ensures var id := Lead(g, cid, code).value;
            && FindNode(g.nodes, id).Some? && FindNode(g.nodes, id).value.typ == ITEM
            && FindNode(g.nodes, id).value.code == Some(code)
            && exists e :: e in g.edges && e.typ == HAS_ITEM && e.source == cid && e.target == id
  {
    var e := Found(g, cid, code)[0];
    FoundIs(g, cid, code, e);
    LinkIs(g.nodes, cid, e);
  }

  // -------------------------------------------------------------- new entries

  lemma {:induction false} NewItemsAre(g: Graph, derive: Derive, p: Node, ws: seq<Want>, k: nat, n: Node)
    requires k <= |ws|
    ensures n in NewItems(g, derive, p, ws, k) <==>
            exists i :: 0 <= i < k && Lead(g, p.id, ws[i].code).None? && n == NewItem(derive, p, ws[i], i)
  {
    hide Lead, NewItem;
    if k > 0 {
      NewItemsAre(g, derive, p, ws, k - 1, n);
    }
  }

  lemma {:induction false} NewLinksAre(g: Graph, derive: Derive, p: Node, ws: seq<Want>, k: nat, e: Edge)
    requires k <= |ws|
    ensures e in NewLinks(g, derive, p, ws, k) <==>
            exists i :: 0 <= i < k && Lead(g, p.id, ws[i].code).None? && e == NewLink(derive, p, ws[i])
  {
    hide Lead, NewLink;
    if k > 0 {
      NewLinksAre(g, derive, p, ws, k - 1, e);
    }
  }

  lemma Needed(g: Graph, p: Node, i: nat)
    requires Parent(g, p) && i < |WantedBy(p)| && Lead(g, p.id, WantedBy(p)[i].code).None?
    ensures NeedsNew(g, p, WantedBy(p)[i].code)
  {
  }

  lemma DistinctWanted(p: Node)
    ensures DistinctWants(WantedBy(p))
  {
    if p.codes.Listed? {
      OrderedDistinct(p.codes.entries);
    }
  }

  /** The ids derived for a missing code are free, and two missing codes differ in them. */
  lemma DerivedApart(g: Graph, derive: Derive, p: Node, i: nat, j: nat)
    requires Base(g, derive) && Parent(g, p) && i <= j < |WantedBy(p)|
    requires Lead(g, p.id, WantedBy(p)[i].code).None? && Lead(g, p.id, WantedBy(p)[j].code).None?
    ensures !HasId(g.nodes, derive(p.id, WantedBy(p)[i].code)) && !HasEdgeId(g.edges, derive(p.id, "edge:" + WantedBy(p)[i].code))
    ensures i < j ==>
      && derive(p.id, WantedBy(p)[i].code) != derive(p.id, WantedBy(p)[j].code)
      && derive(p.id, "edge:" + WantedBy(p)[i].code) != derive(p.id, "edge:" + WantedBy(p)[j].code)
  {
    Needed(g, p, i);
    Needed(g, p, j);
    DistinctWanted(p);
    hide Lead, WantedBy, Unshared, NoDangling, Unique, UniqueEdges, NeedsNew;
  }

  lemma {:induction false} NewItemsUnique(g: Graph, derive: Derive, p: Node, k: nat)
    requires Base(g, derive) && Parent(g, p) && k <= |WantedBy(p)|
    ensures Unique(NewItems(g, derive, p, WantedBy(p), k))
    ensures forall n :: n in NewItems(g, derive, p, WantedBy(p), k) ==> !HasId(g.nodes, n.id)
  {
    hide Lead, Base, Unique, WantedBy, HasId;
    if k == 0 {
      UniqueNone();
    } else {
      NewItemsUnique(g, derive, p, k - 1);
      var ws, before := WantedBy(p), NewItems(g, derive, p, WantedBy(p), k - 1);
      if Lead(g, p.id, ws[k - 1].code).None? {
        DerivedApart(g, derive, p, k - 1, k - 1);
        forall n | n in before ensures n.id != derive(p.id, ws[k - 1].code) {
          NewItemsAre(g, derive, p, ws, k - 1, n);
          var i :| 0 <= i < k - 1 && Lead(g, p.id, ws[i].code).None? && n == NewItem(derive, p, ws[i], i);
          DerivedApart(g, derive, p, i, k - 1);
        }
        UniquePush(before, NewItem(derive, p, ws[k - 1], k - 1));
      } else {
        assert NewItems(g, derive, p, ws, k) == before;
      }
    }
  }

  lemma UniqueNone()
    ensures Unique([])
  {
  }

  lemma UniquePush(nodes: seq<Node>, n: Node)
    requires Unique(nodes) && forall m :: m in nodes ==> m.id != n.id
    ensures Unique(nodes + [n])
  {
  }

  lemma UniqueJoin(a: seq<Node>, b: seq<Node>)
    requires Unique(a) && Unique(b) && forall m :: m in b ==> !HasId(a, m.id)
    ensures Unique(a + b)
  {
    forall i, j | 0 <= i < j < |a + b| ensures (a + b)[i].id != (a + b)[j].id {
      if i < |a| && j >= |a| {
        assert b[j - |a|] in b && a[i] in a;
      }
    }
  }

  lemma {:induction false} NewLinksUnique(g: Graph, derive: Derive, p: Node, k: nat)
    requires Base(g, derive) && Parent(g, p) && k <= |WantedBy(p)|
    ensures UniqueEdges(NewLinks(g, derive, p, WantedBy(p), k))
    ensures forall e :: e in NewLinks(g, derive, p, WantedBy(p), k) ==> !HasEdgeId(g.edges, e.id)
  {
    hide Lead, Base, UniqueEdges, WantedBy, HasEdgeId;
    if k == 0 {
      UniqueEdgesNone();
    } else {
      NewLinksUnique(g, derive, p, k - 1);
      var ws, before := WantedBy(p), NewLinks(g, derive, p, WantedBy(p), k - 1);
      if Lead(g, p.id, ws[k - 1].code).None? {
        DerivedApart(g, derive, p, k - 1, k - 1);
        forall e | e in before ensures e.id != derive(p.id, "edge:" + ws[k - 1].code) {
          NewLinksAre(g, derive, p, ws, k - 1, e);
          var i :| 0 <= i < k - 1 && Lead(g, p.id, ws[i].code).None? && e == NewLink(derive, p, ws[i]);
          DerivedApart(g, derive, p, i, k - 1);
        }
        UniqueEdgesPush(before, NewLink(derive, p, ws[k - 1]));
      } else {
        assert NewLinks(g, derive, p, ws, k) == before;
      }
    }
  }

  lemma UniqueEdgesNone()
    ensures UniqueEdges([])
  {
  }

  lemma UniqueEdgesPush(edges: seq<Edge>, e: Edge)
    requires UniqueEdges(edges) && forall f :: f in edges ==> f.id != e.id
    ensures UniqueEdges(edges + [e])
  {
  }

  lemma UniqueEdgesJoin(a: seq<Edge>, b: seq<Edge>)
    requires UniqueEdges(a) && UniqueEdges(b) && forall f :: f in b ==> !HasEdgeId(a, f.id)
    ensures UniqueEdges(a + b)
  {
    forall i, j | 0 <= i < j < |a + b| ensures (a + b)[i].id != (a + b)[j].id {
      if i < |a| && j >= |a| {
        assert b[j - |a|] in b && a[i] in a;
      }
    }
  }

  // --------------------------------------------- the graph after one pass

  lemma RefreshKeeps(g: Graph, cid: string, ws: seq<Want>, n: Node)
    ensures var m := Refresh(g, cid, ws, n);
            m == n.(name := m.name, position := m.position) && (m != n ==> n.generated && n.code.Some? && Lead(g, cid, n.code.value) == Some(n.id))
  {
    hide Lead;
  }

  lemma RefreshedUnique(g: Graph, cid: string, ws: seq<Want>)
    requires Unique(g.nodes)
    ensures Unique(RefreshAll(g, cid, ws))
    ensures forall id :: HasId(RefreshAll(g, cid, ws), id) <==> HasId(g.nodes, id)
  {
    hide Refresh;
    var ns := RefreshAll(g, cid, ws);
    forall i | 0 <= i < |g.nodes| ensures ns[i].id == g.nodes[i].id {
      RefreshKeeps(g, cid, ws, g.nodes[i]);
    }
    forall id ensures HasId(ns, id) <==> HasId(g.nodes, id) {
      if n :| n in ns && n.id == id {
        var i :| 0 <= i < |ns| && ns[i] == n;
        assert g.nodes[i] in g.nodes;
      }
      if n :| n in g.nodes && n.id == id {
        var i :| 0 <= i < |g.nodes| && g.nodes[i] == n;
        assert ns[i] in ns;
      }
    }
  }

  /** All nodes of the pass, before the doomed ones go: unique, refreshed or new. */
  lemma AllNodesUnique(g: Graph, derive: Derive, p: Node)
    requires Base(g, derive) && Parent(g, p)
    ensures Unique(RefreshAll(g, p.id, WantedBy(p)) + NewItems(g, derive, p, WantedBy(p), |WantedBy(p)|))
    ensures Unique(Sync(g, derive, p).nodes)
  {
    hide Refresh, Lead, NoDangling, Unshared, FreshIds, Unique;
    var ws := WantedBy(p);
    RefreshedUnique(g, p.id, ws);
    NewItemsUnique(g, derive, p, |ws|);
    UniqueJoin(RefreshAll(g, p.id, ws), NewItems(g, derive, p, ws, |ws|));
    UniqueSelect(RefreshAll(g, p.id, ws) + NewItems(g, derive, p, ws, |ws|), KeepsNode(Doomed(g, p.id, ws)));
  }

  lemma NodesAfter(g: Graph, derive: Derive, p: Node, n: Node)
    requires Base(g, derive) && Parent(g, p)
    ensures var ws, doomed := WantedBy(p), Doomed(g, p.id, WantedBy(p));
            n in Sync(g, derive, p).nodes <==>
              && n.id !in doomed
              && ((exists m :: m in g.nodes && n == Refresh(g, p.id, ws, m))
                  || exists i :: 0 <= i < |ws| && Lead(g, p.id, ws[i].code).None? && n == NewItem(derive, p, ws[i], i))
  {
    hide Refresh, Lead, NewItem, Doomed, Base;
    var ws := WantedBy(p);
    var all := RefreshAll(g, p.id, ws) + NewItems(g, derive, p, ws, |ws|);
    SelectFacts(all, KeepsNode(Doomed(g, p.id, ws)));
    NewItemsAre(g, derive, p, ws, |ws|, n);
    RefreshAllAre(g, p.id, ws, n);
  }

  lemma RefreshAllAre(g: Graph, cid: string, ws: seq<Want>, n: Node)
    ensures n in RefreshAll(g, cid, ws) <==> exists m :: m in g.nodes && n == Refresh(g, cid, ws, m)
  {
    hide Refresh;
    var ns := RefreshAll(g, cid, ws);
    if n in ns {
      var i :| 0 <= i < |ns| && ns[i] == n;
      assert g.nodes[i] in g.nodes;
    }
    if m :| m in g.nodes && n == Refresh(g, cid, ws, m) {
      var i :| 0 <= i < |g.nodes| && g.nodes[i] == m;
      assert ns[i] == n;
    }
  }

  /** Looking up an old id: gone if doomed, refreshed otherwise. */
  lemma FindAfter(g: Graph, derive: Derive, p: Node, id: string)
    requires Base(g, derive) && Parent(g, p) && FindNode(g.nodes, id).Some?
    ensures FindNode(Sync(g, derive, p).nodes, id) ==
            if id in Doomed(g, p.id, WantedBy(p)) then None
            else Some(Refresh(g, p.id, WantedBy(p), FindNode(g.nodes, id).value))
  {
    hide Refresh, Lead, Doomed, Base, Sync;
    var ws, g' := WantedBy(p), Sync(g, derive, p);
    FindNodeIff(g.nodes, id);
    FindNodeIff(g'.nodes, id);
    if id in Doomed(g, p.id, ws) {
      if n :| n in g'.nodes && n.id == id {
        NodesAfter(g, derive, p, n);
        assert false;
      }
    } else {
      var n := Refresh(g, p.id, ws, FindNode(g.nodes, id).value);
      RefreshKeeps(g, p.id, ws, FindNode(g.nodes, id).value);
      NodesAfter(g, derive, p, n);
      AllNodesUnique(g, derive, p);
      FindUnique(g'.nodes, n);
    }
  }

  lemma FindNew(g: Graph, derive: Derive, p: Node, i: nat)
    requires Base(g, derive) && Parent(g, p) && i < |WantedBy(p)| && Lead(g, p.id, WantedBy(p)[i].code).None?
    ensures FindNode(Sync(g, derive, p).nodes, derive(p.id, WantedBy(p)[i].code)) == Some(NewItem(derive, p, WantedBy(p)[i], i))
    ensures derive(p.id, WantedBy(p)[i].code) !in Doomed(g, p.id, WantedBy(p))
    ensures !HasId(g.nodes, derive(p.id, WantedBy(p)[i].code))
  {
    hide Refresh, Lead, Doomed, Sync, Unique, UniqueEdges, NoDangling, Unshared;
    var ws, n := WantedBy(p), NewItem(derive, p, WantedBy(p)[i], i);
    Needed(g, p, i);
    assert !HasId(g.nodes, n.id);
    if n.id in Doomed(g, p.id, ws) {
      DoomedAre(g, p, ws, n.id);
      FindNodeIff(g.nodes, n.id);
    }
    NodesAfter(g, derive, p, n);
    AllNodesUnique(g, derive, p);
    FindUnique(Sync(g, derive, p).nodes, n);
  }

  // --------------------------------------------------- the links after one pass

  /** Classifications come through a pass untouched. */
  lemma ParentsStay(g: Graph, derive: Derive, p: Node, q: Node)
    requires Base(g, derive) && Parent(g, p) && q in g.nodes && q.typ != ITEM
    ensures q in Sync(g, derive, p).nodes && FindNode(Sync(g, derive, p).nodes, q.id) == Some(q)
    ensures q.id !in Doomed(g, p.id, WantedBy(p))
  {
    hide Lead, Doomed, Sync, Unshared, NoDangling, FreshIds;
    FindUnique(g.nodes, q);
    if q.id in Doomed(g, p.id, WantedBy(p)) {
      DoomedAre(g, p, WantedBy(p), q.id);
    }
    FindAfter(g, derive, p, q.id);
    RefreshKeeps(g, p.id, WantedBy(p), q);
    if Refresh(g, p.id, WantedBy(p), q) != q {
      LeadIs(g, p.id, q.code.value);
    }
    FindNodeIff(Sync(g, derive, p).nodes, q.id);
  }

  /** An old edge that is kept says what it said. */
  lemma LinkCodeKept(g: Graph, derive: Derive, p: Node, cid: string, e: Edge)
    requires Base(g, derive) && Parent(g, p) && e in g.edges && e.target !in Doomed(g, p.id, WantedBy(p))
    ensures LinkCode(Sync(g, derive, p).nodes, cid, e) == LinkCode(g.nodes, cid, e)
  {
    hide Lead, Doomed, Sync, Unshared, FreshIds, Refresh, Unique, UniqueEdges;
    assert HasId(g.nodes, e.target);
    FindNodeIff(g.nodes, e.target);
    FindAfter(g, derive, p, e.target);
    RefreshKeeps(g, p.id, WantedBy(p), FindNode(g.nodes, e.target).value);
  }

  lemma LinkCodeNew(g: Graph, derive: Derive, p: Node, cid: string, i: nat)
    requires Base(g, derive) && Parent(g, p) && i < |WantedBy(p)| && Lead(g, p.id, WantedBy(p)[i].code).None?
    ensures LinkCode(Sync(g, derive, p).nodes, cid, NewLink(derive, p, WantedBy(p)[i])) ==
            if cid == p.id then Some(WantedBy(p)[i].code) else None
    ensures KeepsEdge(Doomed(g, p.id, WantedBy(p)))(NewLink(derive, p, WantedBy(p)[i]))
  {
    hide Lead, Doomed, Sync, Base, Refresh;
    FindNew(g, derive, p, i);
    ParentsStay(g, derive, p, p);
  }

  lemma NewLinksKept(g: Graph, derive: Derive, p: Node)
    requires Base(g, derive) && Parent(g, p)
    ensures var ws := WantedBy(p);
            var links := NewLinks(g, derive, p, ws, |ws|);
            Select(links, KeepsEdge(Doomed(g, p.id, ws))) == links
  {
    hide Lead, Doomed, Base, NewLink, KeepsEdge;
    var ws := WantedBy(p);
    var links := NewLinks(g, derive, p, ws, |ws|);
    forall e | e in links ensures KeepsEdge(Doomed(g, p.id, ws))(e) {
      NewLinksAre(g, derive, p, ws, |ws|, e);
      var i :| 0 <= i < |ws| && Lead(g, p.id, ws[i].code).None? && e == NewLink(derive, p, ws[i]);
      LinkCodeNew(g, derive, p, p.id, i);
    }
    SelectAll(links, KeepsEdge(Doomed(g, p.id, ws)));
  }

  /** Among the first `k` new links, the one for this code. */
  function NewLinkFor(g: Graph, derive: Derive, p: Node, cid: string, code: string, k: nat): seq<Edge> {
    var i := WantIndex(WantedBy(p), code);
    if cid == p.id && Lead(g, p.id, code).None? && i.Some? && i.value < k then [NewLink(derive, p, WantedBy(p)[i.value])] else []
  }

  lemma NewLinkForStep(g: Graph, derive: Derive, p: Node, cid: string, code: string, k: nat)
    requires 0 < k <= |WantedBy(p)|
    ensures NewLinkFor(g, derive, p, cid, code, k) ==
            NewLinkFor(g, derive, p, cid, code, k - 1)
            + if cid == p.id && Lead(g, p.id, code).None? && WantedBy(p)[k - 1].code == code
              then [NewLink(derive, p, WantedBy(p)[k - 1])] else []
  {
    hide Lead, NewLink;
    DistinctWanted(p);
  }

  lemma {:induction false} NewLinksFound(g: Graph, derive: Derive, p: Node, cid: string, code: string, k: nat)
    requires Base(g, derive) && Parent(g, p) && k <= |WantedBy(p)|
    ensures Select(NewLinks(g, derive, p, WantedBy(p), k), LinksTo(Sync(g, derive, p).nodes, cid, code)) ==
            NewLinkFor(g, derive, p, cid, code, k)
  {
    hide Lead, Doomed, Sync, Base, LinkCode, NewLink, LinksTo, WantedBy, NewLinkFor;
    var ws := WantedBy(p);
    var to := LinksTo(Sync(g, derive, p).nodes, cid, code);
    if k == 0 {
      NoLinkYet(g, derive, p, cid, code);
      SelectNone([], to);
    } else {
      NewLinksFound(g, derive, p, cid, code, k - 1);
      NewLinkForStep(g, derive, p, cid, code, k);
      var links := NewLinks(g, derive, p, ws, k - 1);
      if Lead(g, p.id, ws[k - 1].code).None? {
        var e := NewLink(derive, p, ws[k - 1]);
        LinkCodeNew(g, derive, p, cid, k - 1);
        SelectAppend(links, [e], to);
        SelectsOne(e, to);
        ToIs(Sync(g, derive, p).nodes, cid, code, e);
        assert NewLinks(g, derive, p, ws, k) == links + [e];
      } else {
        assert NewLinks(g, derive, p, ws, k) == links;
      }
    }
  }

  lemma NoLinkYet(g: Graph, derive: Derive, p: Node, cid: string, code: string)
    ensures NewLinkFor(g, derive, p, cid, code, 0) == []
  {
  }

  lemma ToIs(nodes: seq<Node>, cid: string, code: string, e: Edge)
    ensures LinksTo(nodes, cid, code)(e) == (LinkCode(nodes, cid, e) == Some(code))
  {
  }

  lemma SelectsOne(e: Edge, keep: Edge -> bool)
    ensures Select([e], keep) == if keep(e) then [e] else []
  {
    assert [e][1..] == [];
  }

  /** The links of a code after the pass are those before it, unless the code was
      doomed or new. */
  lemma FoundAfter(g: Graph, derive: Derive, p: Node, cid: string, code: string)
    requires Base(g, derive) && Parent(g, p) && HasId(g.nodes, cid)
    requires cid !in Doomed(g, p.id, WantedBy(p))
    requires forall e :: e in g.edges && LinkCode(g.nodes, cid, e) == Some(code) ==> e.target !in Doomed(g, p.id, WantedBy(p))
    ensures Found(Sync(g, derive, p), cid, code) ==
            Found(g, cid, code)
            + Select(NewLinks(g, derive, p, WantedBy(p), |WantedBy(p)|), LinksTo(Sync(g, derive, p).nodes, cid, code))
  {
    hide Lead, Doomed, Base, LinkCode, NewLink;
    var ws, g' := WantedBy(p), Sync(g, derive, p);
    var keep, was, now := KeepsEdge(Doomed(g, p.id, ws)), LinksTo(g.nodes, cid, code), LinksTo(g'.nodes, cid, code);
    var links := NewLinks(g, derive, p, ws, |ws|);
    NewLinksKept(g, derive, p);
    SelectAppend(g.edges, links, keep);
    SelectAppend(Select(g.edges, keep), links, now);
    forall e | e in g.edges
      ensures was(e) ==> keep(e)
      ensures keep(e) ==> now(e) == was(e)
    {
      if was(e) {
        LinkIs(g.nodes, cid, e);
      }
      if keep(e) {
        LinkCodeKept(g, derive, p, cid, e);
      }
    }
    SelectThrough(g.edges, keep, was, now);
  }

  /** Another classification's links: none is doomed, none is new. */
  lemma OthersLinks(g: Graph, derive: Derive, p: Node, q: Node, code: string)
    requires Ready(g, derive) && Parent(g, p) && q in g.nodes && q.typ == CLASSIFICATION && q.id != p.id
    ensures Found(Sync(g, derive, p), q.id, code) == Found(g, q.id, code)
  {
    hide Lead, Sync, UniqueEdges, FreshIds, NewLink, Found;
    ParentsStay(g, derive, p, q);
    FindUnique(g.nodes, p);
    FindUnique(g.nodes, q);
    forall e | e in g.edges && LinkCode(g.nodes, q.id, e) == Some(code)
      ensures e.target !in Doomed(g, p.id, WantedBy(p))
    {
      NotSharedNotDoomed(g, derive, p, q, e);
    }
    NewLinksFound(g, derive, p, q.id, code, |WantedBy(p)|);
    FoundAfter(g, derive, p, q.id, code);
  }

  lemma NotSharedNotDoomed(g: Graph, derive: Derive, p: Node, q: Node, e: Edge)
    requires Ready(g, derive) && Parent(g, p) && q in g.nodes && q.typ == CLASSIFICATION && q.id != p.id
    requires e in g.edges && LinkCode(g.nodes, q.id, e).Some?
    ensures e.target !in Doomed(g, p.id, WantedBy(p))
  {
    hide Doomed, FreshIds, NoDangling, UniqueEdges;
    FindUnique(g.nodes, p);
    FindUnique(g.nodes, q);
    LinkIs(g.nodes, q.id, e);
    forall f | f in g.edges && f.typ == HAS_ITEM && f.source == p.id ensures f.target != e.target {
      if f.target == e.target {
        OneSource(g, e, f);
      }
    }
    if e.target in Doomed(g, p.id, WantedBy(p)) {
      DoomedAre(g, p, WantedBy(p), e.target);
    }
  }

  lemma OneSource(g: Graph, e: Edge, f: Edge)
    requires Unshared(g) && e in g.edges && f in g.edges && e.target == f.target
    requires IsItemLink(g.nodes, e) && IsItemLink(g.nodes, f)
    ensures e.source == f.source
  {
  }

  /** The parent's own links, for a code it wants: as before, or just the new one. */
  lemma OwnLinks(g: Graph, derive: Derive, p: Node, i: nat)
    requires Base(g, derive) && Parent(g, p) && i < |WantedBy(p)|
    ensures var code := WantedBy(p)[i].code;
            Found(Sync(g, derive, p), p.id, code) ==
            if Lead(g, p.id, code).Some? then Found(g, p.id, code) else [NewLink(derive, p, WantedBy(p)[i])]
  {
    hide Sync, Unique, UniqueEdges, FreshIds, NewLink, Unshared, NoDangling;
    var code := WantedBy(p)[i].code;
    DistinctWanted(p);
    assert Wants(WantedBy(p), code);
    assert WantIndex(WantedBy(p), code) == Some(i);
    ParentsStay(g, derive, p, p);
    forall e | e in g.edges && LinkCode(g.nodes, p.id, e) == Some(code)
      ensures e.target !in Doomed(g, p.id, WantedBy(p))
    {
      LinkIs(g.nodes, p.id, e);
      if e.target in Doomed(g, p.id, WantedBy(p)) {
        DoomedAre(g, p, WantedBy(p), e.target);
      }
    }
    NewLinksFound(g, derive, p, p.id, code, |WantedBy(p)|);
    FoundAfter(g, derive, p, p.id, code);
  }

  // ----------------------------------------------------------------- in step

  /** Nothing is left to do for this classification. */
  ghost predicate Synced(g: Graph, cid: string, ws: seq<Want>) {
    && (forall i :: 0 <= i < |ws| ==> Stands(g, cid, ws, i))
    && (forall e :: e in g.edges ==> !Unwanted(g, cid, ws, e))
  }

  /** The i-th wanted code has an item, up to date if it is a generated one. */
  ghost predicate Stands(g: Graph, cid: string, ws: seq<Want>, i: nat)
    requires i < |ws|
  {
    var lead := Lead(g, cid, ws[i].code);
    lead.Some? &&
      var item := FindNode(g.nodes, lead.value);
      item.Some? && (item.value.generated ==> item.value.name == ws[i].caption && item.value.position == Some(i))
  }

  lemma {:induction false} NothingNew(g: Graph, derive: Derive, p: Node, ws: seq<Want>, k: nat)
    requires k <= |ws| && forall i :: 0 <= i < |ws| ==> Stands(g, p.id, ws, i)
    ensures NewItems(g, derive, p, ws, k) == [] && NewLinks(g, derive, p, ws, k) == []
  {
    hide Lead;
    if k > 0 {
      assert Stands(g, p.id, ws, k - 1);
      NothingNew(g, derive, p, ws, k - 1);
    }
  }

  /** A classification that is in step is left alone. */
  lemma SyncedIsFixed(g: Graph, derive: Derive, p: Node, ws: seq<Want>)
    requires Unique(g.nodes) && Synced(g, p.id, ws)
    ensures SyncTo(g, derive, p, ws) == g
  {
    hide Lead, Unwanted;
    assert Doomed(g, p.id, ws) == {};
    NothingNew(g, derive, p, ws, |ws|);
    forall n | n in g.nodes ensures Refresh(g, p.id, ws, n) == n {
      if n.code.Some? && n.generated {
        var i := WantIndex(ws, n.code.value);
        if i.Some? && Lead(g, p.id, n.code.value) == Some(n.id) {
          assert Stands(g, p.id, ws, i.value);
          FindUnique(g.nodes, n);
        }
      }
    }
    assert RefreshAll(g, p.id, ws) == g.nodes;
    SelectAll(g.nodes, KeepsNode({}));
    SelectAll(g.edges, KeepsEdge({}));
    assert g.nodes + [] == g.nodes && g.edges + [] == g.edges;
  }

  lemma EdgesAfter(g: Graph, derive: Derive, p: Node, e: Edge)
    requires Parent(g, p)
    ensures var ws := WantedBy(p);
            e in Sync(g, derive, p).edges <==>
              && KeepsEdge(Doomed(g, p.id, ws))(e)
              && (e in g.edges
                  || exists i :: 0 <= i < |ws| && Lead(g, p.id, ws[i].code).None? && e == NewLink(derive, p, ws[i]))
  {
    hide Lead, Doomed, NewLink, KeepsEdge;
    var ws := WantedBy(p);
    SelectFacts(g.edges + NewLinks(g, derive, p, ws, |ws|), KeepsEdge(Doomed(g, p.id, ws)));
    NewLinksAre(g, derive, p, ws, |ws|, e);
  }

  /** A pass brings its own parent in step. */
  lemma SyncedAfter(g: Graph, derive: Derive, p: Node)
    requires Base(g, derive) && Parent(g, p)
    ensures Synced(Sync(g, derive, p), p.id, WantedBy(p))
  {
    hide Sync, Base, Found, Doomed, Refresh, NewItem, NewLink;
    var ws, g' := WantedBy(p), Sync(g, derive, p);
    forall i | 0 <= i < |ws| ensures Stands(g', p.id, ws, i) {
      StandsAfter(g, derive, p, i);
    }
    forall e | e in g'.edges ensures !Unwanted(g', p.id, ws, e) {
      NotUnwantedAfter(g, derive, p, e);
    }
  }

  lemma StandsAfter(g: Graph, derive: Derive, p: Node, i: nat)
    requires Base(g, derive) && Parent(g, p) && i < |WantedBy(p)|
    ensures Stands(Sync(g, derive, p), p.id, WantedBy(p), i)
  {
    hide Sync, Base, Found, Doomed;
    var ws := WantedBy(p);
    var code := ws[i].code;
    OwnLinks(g, derive, p, i);
    DistinctWanted(p);
    if Lead(g, p.id, code).Some? {
      var id := Lead(g, p.id, code).value;
      LeadIs(g, p.id, code);
      FindNodeIff(g.nodes, id);
      if id in Doomed(g, p.id, ws) {
        DoomedAre(g, p, ws, id);
      }
      FindAfter(g, derive, p, id);
    } else {
      FindNew(g, derive, p, i);
    }
  }

  lemma NotUnwantedAfter(g: Graph, derive: Derive, p: Node, e: Edge)
    requires Base(g, derive) && Parent(g, p) && e in Sync(g, derive, p).edges
    ensures !Unwanted(Sync(g, derive, p), p.id, WantedBy(p), e)
  {
    hide Sync, UniqueEdges, Unique, FreshIds, Unshared, Lead, Refresh, LinkCode;
    var ws, g' := WantedBy(p), Sync(g, derive, p);
    EdgesAfter(g, derive, p, e);
    if e in g.edges {
      LinkCodeKept(g, derive, p, p.id, e);
      assert HasId(g.nodes, e.target);
      FindNodeIff(g.nodes, e.target);
      FindAfter(g, derive, p, e.target);
      RefreshKeeps(g, p.id, ws, FindNode(g.nodes, e.target).value);
    } else {
      var i :| 0 <= i < |ws| && Lead(g, p.id, ws[i].code).None? && e == NewLink(derive, p, ws[i]);
      LinkCodeNew(g, derive, p, p.id, i);
    }
  }

  /** A pass leaves every other classification in step that was. */
  lemma OthersStaySynced(g: Graph, derive: Derive, p: Node, q: Node)
    requires Ready(g, derive) && Parent(g, p) && Parent(g, q) && q.id != p.id
    requires Synced(g, q.id, WantedBy(q))
    ensures Synced(Sync(g, derive, p), q.id, WantedBy(q))
  {
    hide Sync, Base, Found, Doomed, Refresh, LinkCode, NewLink;
    var ws, g' := WantedBy(q), Sync(g, derive, p);
    forall i | 0 <= i < |ws| ensures Stands(g', q.id, ws, i) {
      assert Stands(g, q.id, ws, i);
      OthersLinks(g, derive, p, q, ws[i].code);
      OthersItem(g, derive, p, q, ws[i].code);
    }
    forall e | e in g'.edges ensures !Unwanted(g', q.id, ws, e) {
      OthersNotUnwanted(g, derive, p, q, e);
    }
  }

  lemma LeadEdge(g: Graph, cid: string, code: string) returns (e: Edge)
    requires Lead(g, cid, code).Some?
    ensures e in g.edges && LinkCode(g.nodes, cid, e) == Some(code) && e.target == Lead(g, cid, code).value
    ensures e.typ == HAS_ITEM && e.source == cid
  {
    e := Found(g, cid, code)[0];
    FoundIs(g, cid, code, e);
    LinkIs(g.nodes, cid, e);
  }

  lemma OthersNotUnwanted(g: Graph, derive: Derive, p: Node, q: Node, e: Edge)
    requires Base(g, derive) && Parent(g, p) && Parent(g, q) && q.id != p.id
    requires e in Sync(g, derive, p).edges && Synced(g, q.id, WantedBy(q))
    ensures !Unwanted(Sync(g, derive, p), q.id, WantedBy(q), e)
  {
    hide Sync, UniqueEdges, Unique, FreshIds, Unshared, Lead, Refresh, LinkCode, Stands;
    var ws, g' := WantedBy(p), Sync(g, derive, p);
    EdgesAfter(g, derive, p, e);
    if e in g.edges {
      LinkCodeKept(g, derive, p, q.id, e);
      assert !Unwanted(g, q.id, WantedBy(q), e);
      assert HasId(g.nodes, e.target);
      FindNodeIff(g.nodes, e.target);
      FindAfter(g, derive, p, e.target);
      RefreshKeeps(g, p.id, ws, FindNode(g.nodes, e.target).value);
    } else {
      var i :| 0 <= i < |ws| && Lead(g, p.id, ws[i].code).None? && e == NewLink(derive, p, ws[i]);
      LinkCodeNew(g, derive, p, q.id, i);
    }
  }

  /** Another classification's lead item is not touched. */
  lemma OthersItem(g: Graph, derive: Derive, p: Node, q: Node, code: string)
    requires Ready(g, derive) && Parent(g, p) && q in g.nodes && q.typ == CLASSIFICATION && q.id != p.id
    requires Lead(g, q.id, code).Some?
    ensures FindNode(Sync(g, derive, p).nodes, Lead(g, q.id, code).value) == FindNode(g.nodes, Lead(g, q.id, code).value)
  {
    hide Sync, UniqueEdges, NoDangling, FreshIds, Doomed, Found;
    var id := Lead(g, q.id, code).value;
    var e := LeadEdge(g, q.id, code);
    LeadIs(g, q.id, code);
    NotSharedNotDoomed(g, derive, p, q, e);
    FindAfter(g, derive, p, id);
    var n := FindNode(g.nodes, id).value;
    FindNodeIff(g.nodes, id);
    RefreshKeeps(g, p.id, WantedBy(p), n);
    FindUnique(g.nodes, p);
    FindUnique(g.nodes, q);
    forall f | f in g.edges && f.typ == HAS_ITEM && f.source == p.id ensures f.target != id {
      if f.target == id {
        OneSource(g, e, f);
      }
    }
    if Refresh(g, p.id, WantedBy(p), n) != n {
      LeadIs(g, p.id, n.code.value);
    }
  }

  // ------------------------------------------------- what every pass keeps

  lemma UniqueEdgesAfter(g: Graph, derive: Derive, p: Node)
    requires Base(g, derive) && Parent(g, p)
    ensures UniqueEdges(Sync(g, derive, p).edges)
  {
    hide Doomed, FreshIds, Unique, Unshared, NoDangling, KeepsEdge, Lead;
    var ws := WantedBy(p);
    NewLinksUnique(g, derive, p, |ws|);
    UniqueEdgesJoin(g.edges, NewLinks(g, derive, p, ws, |ws|));
    UniqueEdgesSelect(g.edges + NewLinks(g, derive, p, ws, |ws|), KeepsEdge(Doomed(g, p.id, ws)));
  }

  lemma NoDanglingAfter(g: Graph, derive: Derive, p: Node)
    requires Base(g, derive) && Parent(g, p)
    ensures NoDangling(Sync(g, derive, p))
  {
    hide Doomed, FreshIds, Unique, Unshared, UniqueEdges, Sync, Refresh, Lead, HasId;
    var ws, g' := WantedBy(p), Sync(g, derive, p);
    forall e | e in g'.edges ensures HasId(g'.nodes, e.source) && HasId(g'.nodes, e.target) {
      EdgesAfter(g, derive, p, e);
      FindNodeIff(g'.nodes, e.source);
      FindNodeIff(g'.nodes, e.target);
      if e in g.edges {
        FindNodeIff(g.nodes, e.source);
        FindNodeIff(g.nodes, e.target);
        FindAfter(g, derive, p, e.source);
        FindAfter(g, derive, p, e.target);
      } else {
        var i :| 0 <= i < |ws| && Lead(g, p.id, ws[i].code).None? && e == NewLink(derive, p, ws[i]);
        FindNew(g, derive, p, i);
        ParentsStay(g, derive, p, p);
      }
    }
  }

  /** What an edge of the new graph says, old or new. */
  lemma ItemLinkAfter(g: Graph, derive: Derive, p: Node, e: Edge)
    requires Base(g, derive) && Parent(g, p) && e in Sync(g, derive, p).edges && IsItemLink(Sync(g, derive, p).nodes, e)
    ensures if HasId(g.nodes, e.target) then e in g.edges && IsItemLink(g.nodes, e) else e.source == p.id
  {
    hide Doomed, FreshIds, Unique, Unshared, UniqueEdges, Sync, Refresh, Lead, HasId;
    var ws, g' := WantedBy(p), Sync(g, derive, p);
    EdgesAfter(g, derive, p, e);
    if e in g.edges {
      FindNodeIff(g.nodes, e.source);
      FindNodeIff(g.nodes, e.target);
      FindAfter(g, derive, p, e.source);
      FindAfter(g, derive, p, e.target);
      RefreshKeeps(g, p.id, ws, FindNode(g.nodes, e.source).value);
      RefreshKeeps(g, p.id, ws, FindNode(g.nodes, e.target).value);
    } else {
      var i :| 0 <= i < |ws| && Lead(g, p.id, ws[i].code).None? && e == NewLink(derive, p, ws[i]);
      FindNew(g, derive, p, i);
    }
  }

  lemma UnsharedAfter(g: Graph, derive: Derive, p: Node)
    requires Ready(g, derive) && Parent(g, p)
    ensures Unshared(Sync(g, derive, p))
  {
    hide Doomed, FreshIds, Unique, UniqueEdges, NoDangling, Sync, HasId, IsItemLink;
    var g' := Sync(g, derive, p);
    forall e, f | e in g'.edges && f in g'.edges && IsItemLink(g'.nodes, e) && IsItemLink(g'.nodes, f) && e.target == f.target
      ensures e.source == f.source
    {
      ItemLinkAfter(g, derive, p, e);
      ItemLinkAfter(g, derive, p, f);
    }
  }

  /** A classification of the new graph is one of the old. */
  lemma ParentWas(g: Graph, derive: Derive, p: Node, q: Node)
    requires Base(g, derive) && Parent(g, p) && q in Sync(g, derive, p).nodes && q.typ == CLASSIFICATION
    ensures q in g.nodes
  {
    hide Doomed, Base, Sync, Lead;
    var ws := WantedBy(p);
    NodesAfter(g, derive, p, q);
    if m :| m in g.nodes && q == Refresh(g, p.id, ws, m) {
      RefreshKeeps(g, p.id, ws, m);
      ParentsStay(g, derive, p, m);
      RefreshOfOthers(g, derive, p, m);
    }
  }

  lemma RefreshOfOthers(g: Graph, derive: Derive, p: Node, m: Node)
    requires Base(g, derive) && Parent(g, p) && m in g.nodes && m.typ != ITEM
    ensures Refresh(g, p.id, WantedBy(p), m) == m
  {
    hide FreshIds, Unshared, UniqueEdges, NoDangling, Lead;
    FindUnique(g.nodes, m);
    RefreshKeeps(g, p.id, WantedBy(p), m);
    if Refresh(g, p.id, WantedBy(p), m) != m {
      LeadIs(g, p.id, m.code.value);
    }
  }

  /** What is still missing after a pass was missing before, under another parent. */
  lemma StillNeeded(g: Graph, derive: Derive, p: Node, q: Node, code: string)
    requires Ready(g, derive) && Parent(g, p) && NeedsNew(Sync(g, derive, p), q, code)
    ensures NeedsNew(g, q, code) && q.id != p.id
  {
    hide Base, Sync, Found, Doomed;
    ParentWas(g, derive, p, q);
    if q.id == p.id {
      SameId(g, derive, p, q);
      SyncedAfter(g, derive, p);
      SyncedHasLead(Sync(g, derive, p), p.id, WantedBy(p), code);
    } else {
      OthersLinks(g, derive, p, q, code);
    }
  }

  lemma SyncedHasLead(g: Graph, cid: string, ws: seq<Want>, code: string)
    requires Synced(g, cid, ws) && Wants(ws, code)
    ensures Lead(g, cid, code).Some?
  {
    hide Lead;
    var i :| 0 <= i < |ws| && ws[i].code == code;
    assert Stands(g, cid, ws, i);
  }

  lemma SameId(g: Graph, derive: Derive, p: Node, q: Node)
    requires Base(g, derive) && p in g.nodes && q in g.nodes && p.id == q.id
    ensures p == q
  {
    FindUnique(g.nodes, p);
    FindUnique(g.nodes, q);
  }

  /** The ids this parent would still derive stay free. */
  lemma StaysFree(g: Graph, derive: Derive, p: Node, q: Node, code: string)
    requires Base(g, derive) && Parent(g, p) && NeedsNew(g, q, code) && q.id != p.id
    ensures !HasId(Sync(g, derive, p).nodes, derive(q.id, code))
    ensures !HasEdgeId(Sync(g, derive, p).edges, derive(q.id, "edge:" + code))
  {
    hide Sync, Found, Doomed, Unique, UniqueEdges, NoDangling, Unshared, Lead, KeepsEdge;
    var ws, g' := WantedBy(p), Sync(g, derive, p);
    forall n | n in g'.nodes ensures n.id != derive(q.id, code) {
      NodesAfter(g, derive, p, n);
      if m :| m in g.nodes && n == Refresh(g, p.id, ws, m) {
        RefreshKeeps(g, p.id, ws, m);
      } else {
        var i :| 0 <= i < |ws| && Lead(g, p.id, ws[i].code).None? && n == NewItem(derive, p, ws[i], i);
        Needed(g, p, i);
      }
    }
    forall e | e in g'.edges ensures e.id != derive(q.id, "edge:" + code) {
      EdgesAfter(g, derive, p, e);
      if e !in g.edges {
        var i :| 0 <= i < |ws| && Lead(g, p.id, ws[i].code).None? && e == NewLink(derive, p, ws[i]);
        Needed(g, p, i);
      }
    }
  }

  lemma FreshAfter(g: Graph, derive: Derive, p: Node)
    requires Ready(g, derive) && Parent(g, p)
    ensures FreshIds(Sync(g, derive, p), derive)
  {
    hide Sync, NeedsNew, Unique, UniqueEdges, NoDangling, Unshared, HasId, HasEdgeId;
    var g' := Sync(g, derive, p);
    forall q, c | NeedsNew(g', q, c)
      ensures NeedsNew(g, q, c)
      ensures !HasId(g'.nodes, derive(q.id, c)) && !HasEdgeId(g'.edges, derive(q.id, "edge:" + c))
    {
      StillNeeded(g, derive, p, q, c);
      StaysFree(g, derive, p, q, c);
    }
  }

  /** One pass keeps the graph fit for the next. */
  lemma ReadyAfter(g: Graph, derive: Derive, p: Node)
    requires Ready(g, derive) && p in g.nodes && p.typ == CLASSIFICATION
    ensures Ready(Sync(g, derive, p), derive)
  {
    if !p.codes.Unreadable? {
      hide Sync, Unique, UniqueEdges, NoDangling, Unshared, FreshIds;
      assert Parent(g, p);
      AllNodesUnique(g, derive, p);
      UniqueEdgesAfter(g, derive, p);
      NoDanglingAfter(g, derive, p);
      UnsharedAfter(g, derive, p);
      FreshAfter(g, derive, p);
    }
  }

  // ---------------------------------------------------------- all the passes

  /** Readable parents are in step. */
  ghost predicate InStep(g: Graph, p: Node) {
    p.codes.Unreadable? || Synced(g, p.id, WantedBy(p))
  }

  /** What all passes together establish and keep. */
  ghost predicate Passed(g: Graph, g': Graph, derive: Derive, parents: seq<Node>) {
    && Ready(g', derive)
    && (forall q :: q in parents ==> q in g'.nodes && InStep(g', q))
    && (forall q :: q in g.nodes && q.typ != ITEM ==> q in g'.nodes)
    && (forall n :: n in g.nodes && !n.generated ==> n in g'.nodes)
    && (forall q :: q in g'.nodes && q.typ == CLASSIFICATION ==> q in g.nodes)
    && (forall n :: n in g'.nodes && n.typ != ITEM ==> n in g.nodes)
  }

  lemma OnePass(g: Graph, g1: Graph, derive: Derive, done: seq<Node>, p: Node)
    requires Passed(g, g1, derive, done) && p in g1.nodes && p.typ == CLASSIFICATION
    requires forall q :: q in done ==> q.id != p.id && q.typ == CLASSIFICATION
    ensures Passed(g, Sync(g1, derive, p), derive, done + [p])
  {
    hide Base, Synced, Sync;
    ReadyAfter(g1, derive, p);
    if p.codes.Unreadable? {
      UnreadableIsFixed(g1, derive, p);
    } else {
      var g2 := Sync(g1, derive, p);
      SyncedAfter(g1, derive, p);
      forall q | q in done ensures q in g2.nodes && InStep(g2, q) {
        ParentsStay(g1, derive, p, q);
        if !q.codes.Unreadable? {
          OthersStaySynced(g1, derive, p, q);
        }
      }
      ParentsStay(g1, derive, p, p);
      forall n | n in g.nodes && (n.typ != ITEM || !n.generated) ensures n in g2.nodes {
        AuthoredStays(g1, derive, p, n);
      }
      forall n | n in g2.nodes && n.typ != ITEM ensures n in g1.nodes {
        OldNode(g1, derive, p, n);
      }
    }
  }

  lemma UnreadableIsFixed(g: Graph, derive: Derive, p: Node)
    requires p.codes.Unreadable?
    ensures Sync(g, derive, p) == g
  {
  }

  lemma OldNode(g: Graph, derive: Derive, p: Node, n: Node)
    requires Base(g, derive) && Parent(g, p) && n in Sync(g, derive, p).nodes && n.typ != ITEM
    ensures n in g.nodes
  {
    hide Doomed, Base, Sync, Lead;
    NodesAfter(g, derive, p, n);
    if m :| m in g.nodes && n == Refresh(g, p.id, WantedBy(p), m) {
      RefreshKeeps(g, p.id, WantedBy(p), m);
      RefreshOfOthers(g, derive, p, m);
    }
  }

  /** Only generated items are ever rewritten or removed. */
  lemma AuthoredStays(g: Graph, derive: Derive, p: Node, n: Node)
    requires Base(g, derive) && Parent(g, p) && n in g.nodes && (n.typ != ITEM || !n.generated)
    ensures n in Sync(g, derive, p).nodes
  {
    hide Doomed, Lead, Sync, Unshared, FreshIds, NoDangling;
    FindUnique(g.nodes, n);
    if n.id in Doomed(g, p.id, WantedBy(p)) {
      DoomedAre(g, p, WantedBy(p), n.id);
    }
    FindAfter(g, derive, p, n.id);
    RefreshKeeps(g, p.id, WantedBy(p), n);
    if n.typ != ITEM {
      RefreshOfOthers(g, derive, p, n);
    }
    FindNodeIff(Sync(g, derive, p).nodes, n.id);
  }

  lemma {:induction false} AllPasses(g: Graph, derive: Derive, parents: seq<Node>)
    requires Ready(g, derive) && Unique(parents)
    requires forall q :: q in parents ==> q in g.nodes && q.typ == CLASSIFICATION
    ensures Passed(g, SyncAll(g, derive, parents), derive, parents)
  {
    hide Base, Sync, InStep;
    if parents != [] {
      var k := |parents| - 1;
      AllPasses(g, derive, parents[..k]);
      OnePass(g, SyncAll(g, derive, parents[..k]), derive, parents[..k], parents[k]);
      assert parents[..k] + [parents[k]] == parents;
    }
  }

  lemma {:induction false} InStepIsFixed(g: Graph, derive: Derive, parents: seq<Node>)
    requires Unique(g.nodes) && forall q :: q in parents ==> InStep(g, q)
    ensures SyncAll(g, derive, parents) == g
  {
    hide Synced;
    if parents != [] {
      var k := |parents| - 1;
      InStepIsFixed(g, derive, parents[..k]);
      assert InStep(g, parents[k]) by { assert parents[k] in parents; }
      if !parents[k].codes.Unreadable? {
        SyncedIsFixed(g, derive, parents[k], WantedBy(parents[k]));
      }
    }
  }

  // ---------------------------------------------------------- the migration

  lemma RetypeTwice(n: Node)
    ensures Retype(Retype(n)) == Retype(n)
    ensures Retype(n).typ != "InstanceVariable"
  {
  }

  lemma RetypedAlready(nodes: seq<Node>)
    requires forall n :: n in nodes ==> Retype(n) == n
    ensures RetypeAll(nodes) == nodes
  {
    assert forall i :: 0 <= i < |nodes| ==> nodes[i] in nodes;
  }

  /** Migrating an admissible graph passes the script's own validation, brings every
      readable classification in step with its codes, and touches no authored item. */
  lemma MigrationDelivers(g: Graph, derive: Derive)
    requires Ready(Retyped(g), derive)
    ensures var g' := Migrated(g, derive, true);
            && Accepted(g')
            && Ready(g', derive)
            && (forall p :: p in g'.nodes && p.typ == CLASSIFICATION ==> InStep(g', p))
            && (forall n :: n in g.nodes && !n.generated ==> Retype(n) in g'.nodes)
  {
    hide Base, InStep, Retype;
    var g0 := Retyped(g);
    SelectFacts(g0.nodes, IsParent());
    ReadyUnique(g0, derive);
    UniqueSelect(g0.nodes, IsParent());
    AllPasses(g0, derive, Parents(g0));
    var g' := Migrated(g, derive, true);
    ReadyUnique(g', derive);
    forall n | n in g'.nodes ensures n.typ != "InstanceVariable" {
      if n.typ != ITEM {
        var i :| 0 <= i < |g.nodes| && g0.nodes[i] == n;
        RetypeTwice(g.nodes[i]);
      }
    }
    forall n | n in g.nodes && !n.generated ensures Retype(n) in g'.nodes {
      var i :| 0 <= i < |g.nodes| && g.nodes[i] == n;
      assert g0.nodes[i] == Retype(n);
      RetypeGenerated(n);
    }
  }

  lemma RetypeGenerated(n: Node)
    ensures Retype(n).generated == n.generated
  {
  }

  lemma ReadyUnique(g: Graph, derive: Derive)
    requires Ready(g, derive)
    ensures Unique(g.nodes) && UniqueEdges(g.edges) && NoDangling(g)
  {
  }

  /** Migrating twice is migrating once. */
  lemma MigrationConverges(g: Graph, derive: Derive)
    requires Ready(Retyped(g), derive)
    ensures var g' := Migrated(g, derive, true); Migrated(g', derive, true) == g'
  {
    hide Base, InStep, Retype;
    MigrationDelivers(g, derive);
    var g0, g' := Retyped(g), Migrated(g, derive, true);
    SelectFacts(g0.nodes, IsParent());
    ReadyUnique(g0, derive);
    UniqueSelect(g0.nodes, IsParent());
    AllPasses(g0, derive, Parents(g0));
    forall n | n in g'.nodes ensures Retype(n) == n {
      if n.typ == ITEM {
        ItemKeepsType(n);
      } else {
        var i :| 0 <= i < |g.nodes| && g0.nodes[i] == n;
        RetypeTwice(g.nodes[i]);
      }
    }
    RetypedAlready(g'.nodes);
    SelectFacts(g'.nodes, IsParent());
    ReadyUnique(g', derive);
    InStepIsFixed(g', derive, Parents(g'));
  }

  lemma ItemKeepsType(n: Node)
    requires n.typ == ITEM
    ensures Retype(n) == n
  {
  }
}
