/**
 When a second migration changes nothing: the exact condition, on the graph before the
 first, with items that may be shared between classifications. Each pass is followed
 by what it removes, which items it leaves to whom, and what they are called.
 */
module MigrationExact {
  import opened Values
  import opened Lists
  import opened Migration
  import opened MigrationFacts

  // ---------------------------------------------------------------- soundness

  ghost predicate Wanting(g: Graph, p: Node, code: string) {
    Parent(g, p) && Wants(WantedBy(p), code)
  }

  /** A derived id that is in use is in use for what it is derived for, and derived ids
      are distinct. */
  ghost predicate OwnIds(g: Graph, derive: Derive) {
    && (forall p, c :: Wanting(g, p, c) && HasId(g.nodes, derive(p.id, c)) ==>
          exists e :: e in Found(g, p.id, c) && e.target == derive(p.id, c))
    && (forall p, c, e :: Wanting(g, p, c) && e in g.edges && e.id == derive(p.id, "edge:" + c) ==> e in Found(g, p.id, c))
    && (forall p, c, q, d :: Wanting(g, p, c) && Wanting(g, q, d)
          && (derive(p.id, c) == derive(q.id, d) || derive(p.id, "edge:" + c) == derive(q.id, "edge:" + d))
          ==> p.id == q.id && c == d)
  }

  ghost predicate Sound(g: Graph, derive: Derive) {
    Unique(g.nodes) && UniqueEdges(g.edges) && NoDangling(g) && OwnIds(g, derive)
  }

  lemma NeededIsWanted(g: Graph, p: Node, c: string)
    requires NeedsNew(g, p, c)
    ensures Wanting(g, p, c) && Found(g, p.id, c) == []
  {
  }

  lemma SoundIsBase(g: Graph, derive: Derive)
    requires Sound(g, derive)
    ensures Base(g, derive)
  {
    hide NeedsNew, Wanting, Unique, UniqueEdges, NoDangling, Found;
    forall p, c | NeedsNew(g, p, c) ensures Wanting(g, p, c) && Found(g, p.id, c) == [] {
      NeededIsWanted(g, p, c);
    }
  }

  // ------------------------------------------------------- links after a pass

  function Stays(gone: set<string>): Edge -> bool {
    (e: Edge) => e.target !in gone
  }

  /** The classification's links of a code to items that are not gone. */
  function Left(g: Graph, gone: set<string>, cid: string, code: string): seq<Edge> {
    Select(Found(g, cid, code), Stays(gone))
  }

  /** Two selections in either order, where they do not interfere. */
  lemma {:induction false} SelectCross<T>(s: seq<T>, keep: T -> bool, now: T -> bool, was: T -> bool, stays: T -> bool)
    requires forall x :: x in s && keep(x) ==> now(x) == was(x)
    requires forall x :: x in s && was(x) ==> keep(x) == stays(x)
    ensures Select(Select(s, keep), now) == Select(Select(s, was), stays)
  {
    if s != [] {
      SelectCross(s[1..], keep, now, was, stays);
      var a, b := Select(s[1..], keep), Select(s[1..], was);
      assert ([s[0]] + a)[1..] == a && ([s[0]] + b)[1..] == b;
    }
  }

  /** After one pass a classification has its links to what was not doomed, and a new
      one if the pass was its own and it had none of the code. */
  lemma FoundStep(g: Graph, derive: Derive, p: Node, q: Node, code: string)
    requires Base(g, derive) && Parent(g, p) && q in g.nodes && q.typ == CLASSIFICATION
    ensures Found(Sync(g, derive, p), q.id, code) ==
            Left(g, Doomed(g, p.id, WantedBy(p)), q.id, code) + NewLinkFor(g, derive, p, q.id, code, |WantedBy(p)|)
  {
    ParentsStay(g, derive, p, q);
    hide Lead, Doomed, Base, LinkCode, NewLink, NewLinkFor;
    var ws, g' := WantedBy(p), Sync(g, derive, p);
    var doomed := Doomed(g, p.id, ws);
    var keep, was, now := KeepsEdge(doomed), LinksTo(g.nodes, q.id, code), LinksTo(g'.nodes, q.id, code);
    var links := NewLinks(g, derive, p, ws, |ws|);
    NewLinksKept(g, derive, p);
    NewLinksFound(g, derive, p, q.id, code, |ws|);
    SelectAppend(g.edges, links, keep);
    SelectAppend(Select(g.edges, keep), links, now);
    forall e | e in g.edges
      ensures keep(e) ==> now(e) == was(e)
      ensures was(e) ==> keep(e) == Stays(doomed)(e)
    {
      if was(e) {
        LinkIs(g.nodes, q.id, e);
      }
      if keep(e) {
        LinkCodeKept(g, derive, p, q.id, e);
      }
    }
    SelectCross(g.edges, keep, now, was, Stays(doomed));
  }

  lemma LeftIs(g: Graph, gone: set<string>, cid: string, code: string, e: Edge)
    ensures e in Left(g, gone, cid, code) <==> e in Found(g, cid, code) && e.target !in gone
  {
    SelectFacts(Found(g, cid, code), Stays(gone));
  }

  /** What is doomed, seen from the links. */
  lemma DoomedIff(g: Graph, cid: string, ws: seq<Want>, id: string)
    ensures id in Doomed(g, cid, ws) <==>
            FindNode(g.nodes, id).Some? && FindNode(g.nodes, id).value.generated
            && exists c, e :: WantIndex(ws, c).None? && e in Found(g, cid, c) && e.target == id
  {
    hide Found, LinkCode, WantIndex, FindNode;
    forall e, c ensures e in Found(g, cid, c) <==> e in g.edges && LinkCode(g.nodes, cid, e) == Some(c) {
      FoundIs(g, cid, c, e);
    }
    if id in Doomed(g, cid, ws) {
      var e :| e in g.edges && Unwanted(g, cid, ws, e) && e.target == id;
      assert e in Found(g, cid, LinkCode(g.nodes, cid, e).value);
    }
    if FindNode(g.nodes, id).Some? && FindNode(g.nodes, id).value.generated {
      if c, e :| WantIndex(ws, c).None? && e in Found(g, cid, c) && e.target == id {
        assert Unwanted(g, cid, ws, e);
      }
    }
  }

  /** The order of the classifications, and what they are, do not change. */
  lemma SameParents(g: Graph, derive: Derive, p: Node)
    requires Base(g, derive) && Parent(g, p)
    ensures Parents(Sync(g, derive, p)) == Parents(g)
  {
    var ws := WantedBy(p);
    var doomed := Doomed(g, p.id, ws);
    var kept, added := RefreshAll(g, p.id, ws), NewItems(g, derive, p, ws, |ws|);
    hide Doomed, Lead, Base;
    SelectAppend(kept, added, KeepsNode(doomed));
    SelectAppend(Select(kept, KeepsNode(doomed)), Select(added, KeepsNode(doomed)), IsParent());
    forall n | n in Select(added, KeepsNode(doomed)) ensures n.typ == ITEM {
      SelectFacts(added, KeepsNode(doomed));
      NewItemsAre(g, derive, p, ws, |ws|, n);
    }
    SelectNone(Select(added, KeepsNode(doomed)), IsParent());
    forall n | n in kept ensures IsParent()(n) ==> KeepsNode(doomed)(n) {
      RefreshAllAre(g, p.id, ws, n);
      var m :| m in g.nodes && n == Refresh(g, p.id, ws, m);
      RefreshKeeps(g, p.id, ws, m);
      if n.typ == CLASSIFICATION {
        ParentsStay(g, derive, p, m);
      }
    }
    SelectThrough(kept, KeepsNode(doomed), IsParent(), IsParent());
    ParentsUnrefreshed(g, derive, p);
  }

  lemma ParentsUnrefreshed(g: Graph, derive: Derive, p: Node)
    requires Base(g, derive) && Parent(g, p)
    ensures Select(RefreshAll(g, p.id, WantedBy(p)), IsParent()) == Parents(g)
  {
    hide Base, Refresh;
    forall i | 0 <= i < |g.nodes|
      ensures IsParent()(Refresh(g, p.id, WantedBy(p), g.nodes[i])) == IsParent()(g.nodes[i])
      ensures IsParent()(g.nodes[i]) ==> Refresh(g, p.id, WantedBy(p), g.nodes[i]) == g.nodes[i]
    {
      RefreshKeeps(g, p.id, WantedBy(p), g.nodes[i]);
      if g.nodes[i].typ == CLASSIFICATION {
        RefreshOfOthers(g, derive, p, g.nodes[i]);
      }
    }
    SelectAlike(RefreshAll(g, p.id, WantedBy(p)), g.nodes, IsParent());
  }

  lemma {:induction false} SelectAlike(a: seq<Node>, b: seq<Node>, keep: Node -> bool)
    requires |a| == |b| && forall i :: 0 <= i < |a| ==> keep(a[i]) == keep(b[i]) && (keep(b[i]) ==> a[i] == b[i])
    ensures Select(a, keep) == Select(b, keep)
  {
    if a != [] {
      assert forall i :: 0 <= i < |a[1..]| ==> a[1..][i] == a[i + 1] && b[1..][i] == b[i + 1];
      SelectAlike(a[1..], b[1..], keep);
    }
  }

  // -------------------------------------------------------- a pass stays sound

  lemma WantingWas(g: Graph, derive: Derive, p: Node, q: Node, c: string)
    requires Base(g, derive) && Parent(g, p) && Wanting(Sync(g, derive, p), q, c)
    ensures Wanting(g, q, c)
  {
    ParentWas(g, derive, p, q);
  }

  lemma OwnItem(g: Graph, derive: Derive, q: Node, c: string) returns (e: Edge)
    requires Sound(g, derive) && Wanting(g, q, c) && HasId(g.nodes, derive(q.id, c))
    ensures e in Found(g, q.id, c) && e.target == derive(q.id, c)
  {
    hide Unique, UniqueEdges, NoDangling, Wanting, HasId, Found;
    e :| e in Found(g, q.id, c) && e.target == derive(q.id, c);
  }

  lemma DerivedOnce(g: Graph, derive: Derive, p: Node, c: string, q: Node, d: string)
    requires Sound(g, derive) && Wanting(g, p, c) && Wanting(g, q, d)
    requires derive(p.id, c) == derive(q.id, d) || derive(p.id, "edge:" + c) == derive(q.id, "edge:" + d)
    ensures p.id == q.id && c == d
  {
    hide Unique, UniqueEdges, NoDangling, Wanting, HasId, Found;
  }

  lemma OwnItemAfter(g: Graph, derive: Derive, p: Node, q: Node, c: string)
    requires Sound(g, derive) && Parent(g, p) && Wanting(g, q, c)
    requires HasId(Sync(g, derive, p).nodes, derive(q.id, c))
    ensures exists e :: e in Found(Sync(g, derive, p), q.id, c) && e.target == derive(q.id, c)
  {
    hide Sync, Doomed, Found, Sound, Base, Lead, Refresh, WantedBy, NewItem, Wanting, Left, NewLinkFor;
    SoundIsBase(g, derive);
    var g', ws := Sync(g, derive, p), WantedBy(p);
    var n :| n in g'.nodes && n.id == derive(q.id, c);
    NodesAfter(g, derive, p, n);
    IsAParent(g, q, c);
    FoundStep(g, derive, p, q, c);
    if m :| m in g.nodes && n == Refresh(g, p.id, ws, m) {
      RefreshKeeps(g, p.id, ws, m);
      var e := OwnItem(g, derive, q, c);
      LeftIs(g, Doomed(g, p.id, ws), q.id, c, e);
    } else {
      var i :| 0 <= i < |ws| && Lead(g, p.id, ws[i].code).None? && n == NewItem(derive, p, ws[i], i);
      NewLinkIsFor(g, derive, p, i);
      NewEnds(derive, p, ws[i], i);
      DerivedOnce(g, derive, p, ws[i].code, q, c);
      assert NewLink(derive, p, ws[i]) in Found(g', q.id, c);
    }
  }

  lemma IsAParent(g: Graph, q: Node, c: string)
    requires Wanting(g, q, c)
    ensures q in g.nodes && q.typ == CLASSIFICATION && Parent(g, q)
  {
  }

  lemma NewEnds(derive: Derive, p: Node, w: Want, i: nat)
    ensures NewItem(derive, p, w, i).id == derive(p.id, w.code) == NewLink(derive, p, w).target
    ensures NewLink(derive, p, w).id == derive(p.id, "edge:" + w.code)
  {
  }

  /** The new link of a missing code. */
  lemma NewLinkIsFor(g: Graph, derive: Derive, p: Node, i: nat)
    requires Parent(g, p) && i < |WantedBy(p)| && Lead(g, p.id, WantedBy(p)[i].code).None?
    ensures Wanting(g, p, WantedBy(p)[i].code)
    ensures NewLinkFor(g, derive, p, p.id, WantedBy(p)[i].code, |WantedBy(p)|) == [NewLink(derive, p, WantedBy(p)[i])]
  {
    hide Lead;
    DistinctWanted(p);
    assert Wants(WantedBy(p), WantedBy(p)[i].code);
  }

  lemma OwnLink(g: Graph, derive: Derive, q: Node, c: string, e: Edge)
    requires Sound(g, derive) && Wanting(g, q, c) && e in g.edges && e.id == derive(q.id, "edge:" + c)
    ensures e in Found(g, q.id, c)
  {
    hide Unique, UniqueEdges, NoDangling, Wanting, HasId, Found;
  }

  lemma OwnLinkAfter(g: Graph, derive: Derive, p: Node, q: Node, c: string, e: Edge)
    requires Sound(g, derive) && Parent(g, p) && Wanting(g, q, c)
    requires e in Sync(g, derive, p).edges && e.id == derive(q.id, "edge:" + c)
    ensures e in Found(Sync(g, derive, p), q.id, c)
  {
    hide Sync, Doomed, Found, Sound, Base, Lead, WantedBy, NewLink, Wanting, Left, NewLinkFor;
    SoundIsBase(g, derive);
    IsAParent(g, q, c);
    FoundStep(g, derive, p, q, c);
    var ws := WantedBy(p);
    EdgesAfter(g, derive, p, e);
    if e in g.edges {
      OwnLink(g, derive, q, c, e);
      LeftIs(g, Doomed(g, p.id, ws), q.id, c, e);
    } else {
      var i :| 0 <= i < |ws| && Lead(g, p.id, ws[i].code).None? && e == NewLink(derive, p, ws[i]);
      NewLinkIsFor(g, derive, p, i);
      NewEnds(derive, p, ws[i], i);
      DerivedOnce(g, derive, p, ws[i].code, q, c);
    }
  }

  lemma SoundAfter(g: Graph, derive: Derive, p: Node)
    requires Sound(g, derive) && Parent(g, p)
    ensures Sound(Sync(g, derive, p), derive)
  {
    hide Sync, Unique, UniqueEdges, NoDangling, Base, OwnIds;
    SoundIsBase(g, derive);
    AllNodesUnique(g, derive, p);
    UniqueEdgesAfter(g, derive, p);
    NoDanglingAfter(g, derive, p);
    OwnIdsAfter(g, derive, p);
  }

  lemma OwnIdsAfter(g: Graph, derive: Derive, p: Node)
    requires Sound(g, derive) && Parent(g, p)
    ensures OwnIds(Sync(g, derive, p), derive)
  {
    hide Sync, Sound, Base, Wanting, Found, HasId;
    SoundIsBase(g, derive);
    var g' := Sync(g, derive, p);
    forall q, c | Wanting(g', q, c) ensures Wanting(g, q, c) {
      WantingWas(g, derive, p, q, c);
    }
    forall q, c | Wanting(g', q, c) && HasId(g'.nodes, derive(q.id, c))
      ensures exists e :: e in Found(g', q.id, c) && e.target == derive(q.id, c)
    {
      OwnItemAfter(g, derive, p, q, c);
    }
    forall q, c, e | Wanting(g', q, c) && e in g'.edges && e.id == derive(q.id, "edge:" + c) ensures e in Found(g', q.id, c) {
      OwnLinkAfter(g, derive, p, q, c, e);
    }
    forall q, c, r, d | Wanting(g', q, c) && Wanting(g', r, d)
                        && (derive(q.id, c) == derive(r.id, d) || derive(q.id, "edge:" + c) == derive(r.id, "edge:" + d))
      ensures q.id == r.id && c == d
    {
      DerivedOnce(g, derive, q, c, r, d);
    }
  }

  // ------------------------------------------ the first migration, followed

  function DoomedBy(g: Graph, p: Node): set<string> {
    if p.codes.Unreadable? then {} else Doomed(g, p.id, WantedBy(p))
  }

  /** The items of `g` that the passes of these classifications remove. */
  function GoneBy(g: Graph, done: seq<Node>): set<string> {
    if done == [] then {} else GoneBy(g, done[..|done| - 1]) + DoomedBy(g, done[|done| - 1])
  }

  /** With these items gone, this item stands for its code in the classification. */
  predicate Leads(g: Graph, gone: set<string>, p: Node, n: Node) {
    && !p.codes.Unreadable? && n.generated && n.code.Some? && WantIndex(WantedBy(p), n.code.value).Some?
    && var left := Left(g, gone, p.id, n.code.value);
       left != [] && left[0].target == n.id
  }

  /** A classification names and places the item that stands for its code. */
  function Speak(g: Graph, gone: set<string>, p: Node, n: Node): Node {
    if Leads(g, gone, p, n) then
      var i := WantIndex(WantedBy(p), n.code.value).value;
      n.(name := WantedBy(p)[i].caption, position := Some(i))
    else n
  }

  /** What the passes make of an item, each speaking for the items still there. */
  function Said(g: Graph, done: seq<Node>, n: Node): Node {
    if done == [] then n
    else
      var k := |done| - 1;
      Speak(g, GoneBy(g, done[..k]), done[k], Said(g, done[..k], n))
  }

  /** The same when these items are gone from the start. */
  function Again(g: Graph, gone: set<string>, done: seq<Node>, n: Node): Node {
    if done == [] then n
    else Speak(g, gone, done[|done| - 1], Again(g, gone, done[..|done| - 1], n))
  }

  /** The link that the passes have added between this classification and this code. */
  function Added(g: Graph, derive: Derive, done: seq<Node>, q: Node, code: string): seq<Edge> {
    if done == [] then []
    else
      var k := |done| - 1;
      var i := WantIndex(WantedBy(q), code);
      if done[k] != q then Added(g, derive, done[..k], q, code)
      else if q.codes.Unreadable? || i.None? || Left(g, GoneBy(g, done[..k]), q.id, code) != [] then []
      else [NewLink(derive, q, WantedBy(q)[i.value])]
  }

  lemma {:induction false} AddedIs(g: Graph, derive: Derive, done: seq<Node>, q: Node, code: string)
    ensures Added(g, derive, done, q, code) == [] ||
            (&& q in done && !q.codes.Unreadable? && WantIndex(WantedBy(q), code).Some?
             && Added(g, derive, done, q, code) == [NewLink(derive, q, WantedBy(q)[WantIndex(WantedBy(q), code).value])])
  {
    hide Left, GoneBy, WantedBy, NewLink;
    if done != [] {
      AddedIs(g, derive, done[..|done| - 1], q, code);
      assert forall x :: x in done[..|done| - 1] ==> x in done;
    }
  }

  lemma SpeakKeeps(g: Graph, gone: set<string>, p: Node, n: Node)
    ensures var m := Speak(g, gone, p, n); m == n.(name := m.name, position := m.position)
  {
  }

  lemma {:induction false} SaidKeeps(g: Graph, done: seq<Node>, n: Node)
    ensures var m := Said(g, done, n); m == n.(name := m.name, position := m.position)
  {
    hide Speak;
    if done != [] {
      var k := |done| - 1;
      SaidKeeps(g, done[..k], n);
      SpeakKeeps(g, GoneBy(g, done[..k]), done[k], Said(g, done[..k], n));
    }
  }

  /** A node that a pass has made. */
  ghost predicate Made(g: Graph, derive: Derive, done: seq<Node>, n: Node) {
    exists q, code :: q in done && MadeFor(g, derive, done, q, code, n)
  }

  ghost predicate MadeFor(g: Graph, derive: Derive, done: seq<Node>, q: Node, code: string, n: Node) {
    && Added(g, derive, done, q, code) != [] && WantIndex(WantedBy(q), code).Some?
    && var i := WantIndex(WantedBy(q), code).value;
       n == NewItem(derive, q, WantedBy(q)[i], i)
  }

  /** Where the passes of `done` have led from `g`. */
  ghost predicate Tracks(g: Graph, derive: Derive, done: seq<Node>, t: Graph) {
    && Sound(t, derive) && Parents(t) == Parents(g)
    && NodesTracked(g, derive, done, t)
    && LinksTracked(g, derive, done, t)
  }

  /** What is there, is what was said of an old item that is not gone, or was made; and a
      made item has no id of an old one that is still there. */
  ghost predicate NodesTracked(g: Graph, derive: Derive, done: seq<Node>, t: Graph) {
    && (forall n :: n in g.nodes && n.id !in GoneBy(g, done) ==> Said(g, done, n) in t.nodes)
    && (forall m :: m in t.nodes ==>
          || (exists n :: n in g.nodes && n.id !in GoneBy(g, done) && m == Said(g, done, n))
          || Made(g, derive, done, m))
    && (forall q, code, m :: q in done && MadeFor(g, derive, done, q, code, m) ==>
          m in t.nodes && (HasId(g.nodes, m.id) ==> m.id in GoneBy(g, done)))
  }

  ghost predicate LinksTracked(g: Graph, derive: Derive, done: seq<Node>, t: Graph) {
    forall q, code :: q in Parents(g) ==>
      Found(t, q.id, code) == Left(g, GoneBy(g, done), q.id, code) + Added(g, derive, done, q, code)
  }

  lemma {:induction false} LeftAll(g: Graph, cid: string, code: string)
    ensures Left(g, {}, cid, code) == Found(g, cid, code)
  {
    SelectAll(Found(g, cid, code), Stays({}));
  }

  lemma TracksNothing(g: Graph, derive: Derive)
    requires Sound(g, derive)
    ensures Tracks(g, derive, [], g)
  {
    hide Sound, Left, Found;
    forall q, code | q in Parents(g)
      ensures Found(g, q.id, code) == Left(g, GoneBy(g, []), q.id, code) + Added(g, derive, [], q, code)
    {
      LeftAll(g, q.id, code);
    }
  }

  lemma LinksOf(g: Graph, derive: Derive, done: seq<Node>, t: Graph, q: Node, code: string)
    requires Tracks(g, derive, done, t) && q in Parents(g)
    ensures Found(t, q.id, code) == Left(g, GoneBy(g, done), q.id, code) + Added(g, derive, done, q, code)
  {
    hide Sound, Found, Left, Added, GoneBy, NodesTracked;
  }

  lemma NotDoneNotAdded(g: Graph, derive: Derive, done: seq<Node>, q: Node, code: string)
    requires q !in done
    ensures Added(g, derive, done, q, code) == []
  {
    AddedIs(g, derive, done, q, code);
  }

  /** A target of an old link is an old item. */
  lemma LinkedIsOld(g: Graph, cid: string, code: string, e: Edge)
    requires NoDangling(g) && e in Found(g, cid, code)
    ensures HasId(g.nodes, e.target) && FindNode(g.nodes, e.target).Some?
    ensures FindNode(g.nodes, e.target).value in g.nodes && FindNode(g.nodes, e.target).value.id == e.target
  {
    FoundIs(g, cid, code, e);
    FindNodeIff(g.nodes, e.target);
  }

  /** What a pass dooms in the graph it meets is what it dooms in the old one and is
      still there. */
  lemma DoomedTracked(g: Graph, derive: Derive, done: seq<Node>, t: Graph, p: Node, id: string)
    requires Sound(g, derive) && Tracks(g, derive, done, t) && p in Parents(g) && Parent(g, p) && p !in done
    ensures id in Doomed(t, p.id, WantedBy(p)) <==> id in Doomed(g, p.id, WantedBy(p)) && id !in GoneBy(g, done)
  {
    hide Sound, Tracks, Found, Doomed, WantedBy, GoneBy, Left, Parents, FindNode, WantIndex, Said, Unique, NoDangling, Added,
         Parent;
    var ws, gone := WantedBy(p), GoneBy(g, done);
    SoundParts(g, derive);
    DoomedIff(g, p.id, ws, id);
    DoomedIff(t, p.id, ws, id);
    forall c ensures Found(t, p.id, c) == Left(g, gone, p.id, c) {
      NotDoneNotAdded(g, derive, done, p, c);
      LinksOf(g, derive, done, t, p, c);
    }
    if id in Doomed(t, p.id, ws) {
      var c, e :| WantIndex(ws, c).None? && e in Found(t, p.id, c) && e.target == id;
      LeftIs(g, gone, p.id, c, e);
      LinkedIsOld(g, p.id, c, e);
      OldNodeNow(g, derive, done, t, FindNode(g.nodes, id).value);
    }
    if id in Doomed(g, p.id, ws) && id !in gone {
      var c, e :| WantIndex(ws, c).None? && e in Found(g, p.id, c) && e.target == id;
      LeftIs(g, gone, p.id, c, e);
      LinkedIsOld(g, p.id, c, e);
      OldNodeNow(g, derive, done, t, FindNode(g.nodes, id).value);
      assert e in Found(t, p.id, c);
    }
  }

  lemma SoundParts(g: Graph, derive: Derive)
    requires Sound(g, derive)
    ensures Unique(g.nodes) && UniqueEdges(g.edges) && NoDangling(g)
  {
  }

  lemma OldNodeNow(g: Graph, derive: Derive, done: seq<Node>, t: Graph, n: Node)
    requires Unique(g.nodes) && Tracks(g, derive, done, t) && n in g.nodes && n.id !in GoneBy(g, done)
    ensures FindNode(g.nodes, n.id) == Some(n) && FindNode(t.nodes, n.id) == Some(Said(g, done, n))
    ensures Said(g, done, n).generated == n.generated && Said(g, done, n).code == n.code && Said(g, done, n).id == n.id
  {
    hide GoneBy, Found, LinksTracked, Parents, OwnIds, UniqueEdges, NoDangling, Made, MadeFor;
    FindUnique(g.nodes, n);
    SaidKeeps(g, done, n);
    FindUnique(t.nodes, Said(g, done, n));
  }

  // -------------------------------------------------------- one pass further

  lemma OneMore(g: Graph, derive: Derive, done: seq<Node>, p: Node)
    ensures GoneBy(g, done + [p]) == GoneBy(g, done) + DoomedBy(g, p)
    ensures forall n :: Said(g, done + [p], n) == Speak(g, GoneBy(g, done), p, Said(g, done, n))
    ensures forall q, code :: q != p ==> Added(g, derive, done + [p], q, code) == Added(g, derive, done, q, code)
    ensures forall code :: Added(g, derive, done + [p], p, code) ==
              var i := WantIndex(WantedBy(p), code);
              if p.codes.Unreadable? || i.None? || Left(g, GoneBy(g, done), p.id, code) != [] then []
              else [NewLink(derive, p, WantedBy(p)[i.value])]
  {
    hide DoomedBy, Speak, WantedBy, Left, NewLink;
    assert (done + [p])[..|done|] == done;
  }

  lemma ParentsAreNodes(g: Graph, q: Node)
    ensures q in Parents(g) <==> q in g.nodes && q.typ == CLASSIFICATION
  {
    SelectFacts(g.nodes, IsParent());
  }

  /** The links the pass of `p` meets are those of the old graph that are not gone. */
  lemma LinksMet(g: Graph, derive: Derive, done: seq<Node>, t: Graph, p: Node, code: string)
    requires Tracks(g, derive, done, t) && p in Parents(g) && p !in done
    ensures Found(t, p.id, code) == Left(g, GoneBy(g, done), p.id, code)
  {
    hide Tracks, Found, Left, GoneBy, Parents, Added;
    NotDoneNotAdded(g, derive, done, p, code);
    LinksOf(g, derive, done, t, p, code);
  }

  lemma RefreshIsSpeak(g: Graph, derive: Derive, done: seq<Node>, t: Graph, p: Node, m: Node)
    requires Tracks(g, derive, done, t) && p in Parents(g) && p !in done && !p.codes.Unreadable?
    ensures Refresh(t, p.id, WantedBy(p), m) == Speak(g, GoneBy(g, done), p, m)
  {
    hide Tracks, Found, Left, GoneBy, Parents, WantedBy;
    if m.code.Some? {
      LinksMet(g, derive, done, t, p, m.code.value);
    }
  }

  /** A made item is no concern of a later pass. */
  lemma MadeUnmoved(g: Graph, derive: Derive, done: seq<Node>, t: Graph, p: Node, q: Node, code: string, m: Node)
    requires Sound(g, derive) && Tracks(g, derive, done, t) && p in Parents(g) && p !in done && Parent(g, p)
    requires q in done && MadeFor(g, derive, done, q, code, m)
    ensures Refresh(t, p.id, WantedBy(p), m) == m && m.id !in Doomed(t, p.id, WantedBy(p))
  {
    assert HasId(g.nodes, m.id) ==> m.id in GoneBy(g, done);
    hide Sound, Tracks, Found, GoneBy, Parents, WantedBy, FindNode, Made, MadeFor, HasId;
    SoundParts(g, derive);
    var gone := GoneBy(g, done);
    forall c, e | e in Left(g, gone, p.id, c) ensures e.target != m.id {
      LeftIs(g, gone, p.id, c, e);
      LinkedIsOld(g, p.id, c, e);
    }
    RefreshIsSpeak(g, derive, done, t, p, m);
    if m.id in Doomed(t, p.id, WantedBy(p)) {
      DoomedIff(t, p.id, WantedBy(p), m.id);
      var c, e :| WantIndex(WantedBy(p), c).None? && e in Found(t, p.id, c) && e.target == m.id;
      LinksMet(g, derive, done, t, p, c);
    }
  }

  lemma OldNodesStep(g: Graph, derive: Derive, done: seq<Node>, t: Graph, p: Node, n: Node)
    requires Sound(g, derive) && Tracks(g, derive, done, t) && p in Parents(g) && p !in done && Parent(g, p) && Parent(t, p)
    requires n in g.nodes && n.id !in GoneBy(g, done + [p])
    ensures Said(g, done + [p], n) in Sync(t, derive, p).nodes
  {
    hide Sound, Found, Parents, WantedBy, Refresh, Speak, Doomed, LinksTracked, GoneBy, Said, Base, Sync, Made, MadeFor;
    OneMore(g, derive, done, p);
    SoundIsBase(t, derive);
    SoundParts(g, derive);
    DoomedTracked(g, derive, done, t, p, n.id);
    RefreshIsSpeak(g, derive, done, t, p, Said(g, done, n));
    OldNodeNow(g, derive, done, t, n);
    RefreshKeeps(t, p.id, WantedBy(p), Said(g, done, n));
    NodesAfter(t, derive, p, Said(g, done + [p], n));
  }

  lemma NewNodesStep(g: Graph, derive: Derive, done: seq<Node>, t: Graph, p: Node, m: Node)
    requires Sound(g, derive) && Tracks(g, derive, done, t) && p in Parents(g) && p !in done && Parent(g, p) && Parent(t, p)
    requires m in Sync(t, derive, p).nodes
    ensures (exists n :: n in g.nodes && n.id !in GoneBy(g, done + [p]) && m == Said(g, done + [p], n))
            || Made(g, derive, done + [p], m)
  {
    hide Sound, Found, Parents, WantedBy, Refresh, Speak, Doomed, LinksTracked, GoneBy, Said, Base, Sync, Made, NewItem, Lead,
         Added;
    var ws := WantedBy(p);
    OneMore(g, derive, done, p);
    SoundIsBase(t, derive);
    NodesAfter(t, derive, p, m);
    if b :| b in t.nodes && m == Refresh(t, p.id, ws, b) {
      RefreshKeeps(t, p.id, ws, b);
      if n :| n in g.nodes && n.id !in GoneBy(g, done) && b == Said(g, done, n) {
        SaidKeeps(g, done, n);
        DoomedTracked(g, derive, done, t, p, n.id);
        RefreshIsSpeak(g, derive, done, t, p, b);
        assert m == Said(g, done + [p], n);
      } else {
        MadeStaysMade(g, derive, done, t, p, b);
      }
    } else {
      var i :| 0 <= i < |ws| && Lead(t, p.id, ws[i].code).None? && m == NewItem(derive, p, ws[i], i);
      NowMade(g, derive, done, t, p, i);
    }
  }

  lemma MadeStaysMade(g: Graph, derive: Derive, done: seq<Node>, t: Graph, p: Node, b: Node)
    requires Sound(g, derive) && Tracks(g, derive, done, t) && p in Parents(g) && p !in done && Parent(g, p)
    requires Made(g, derive, done, b)
    ensures Refresh(t, p.id, WantedBy(p), b) == b && Made(g, derive, done + [p], b)
  {
    var q, code :| q in done && MadeFor(g, derive, done, q, code, b);
    MadeUnmoved(g, derive, done, t, p, q, code, b);
    OneMore(g, derive, done, p);
    hide Sound, Tracks, Parents, Refresh, Added, WantedBy, GoneBy;
    assert MadeFor(g, derive, done + [p], q, code, b);
  }

  lemma NowMade(g: Graph, derive: Derive, done: seq<Node>, t: Graph, p: Node, i: nat)
    requires Tracks(g, derive, done, t) && p in Parents(g) && p !in done && Parent(g, p)
    requires i < |WantedBy(p)| && Lead(t, p.id, WantedBy(p)[i].code).None?
    ensures WantIndex(WantedBy(p), WantedBy(p)[i].code) == Some(i)
    ensures Added(g, derive, done + [p], p, WantedBy(p)[i].code) == [NewLink(derive, p, WantedBy(p)[i])]
    ensures Made(g, derive, done + [p], NewItem(derive, p, WantedBy(p)[i], i))
    ensures MadeFor(g, derive, done + [p], p, WantedBy(p)[i].code, NewItem(derive, p, WantedBy(p)[i], i))
  {
    hide Tracks, Parents, GoneBy, Found, Left, Added, NewLink, NewItem;
    var code := WantedBy(p)[i].code;
    DistinctWanted(p);
    assert Wants(WantedBy(p), code);
    assert WantIndex(WantedBy(p), code) == Some(i);
    LinksMet(g, derive, done, t, p, code);
    OneMore(g, derive, done, p);
    assert MadeFor(g, derive, done + [p], p, code, NewItem(derive, p, WantedBy(p)[i], i));
    assert p in done + [p];
  }

  lemma MadeNodesStep(g: Graph, derive: Derive, done: seq<Node>, t: Graph, p: Node, q: Node, code: string, m: Node)
    requires Sound(g, derive) && Tracks(g, derive, done, t) && p in Parents(g) && p !in done && Parent(g, p) && Parent(t, p)
    requires q in done + [p] && MadeFor(g, derive, done + [p], q, code, m)
    ensures m in Sync(t, derive, p).nodes && (HasId(g.nodes, m.id) ==> m.id in GoneBy(g, done + [p]))
  {
    hide Sound, Found, Parents, WantedBy, Refresh, Speak, Doomed, LinksTracked, GoneBy, Said, Base, Sync, Made, NewItem, HasId,
         Left, Added;
    var ws := WantedBy(p);
    OneMore(g, derive, done, p);
    SoundIsBase(t, derive);
    if q == p {
      var i := WantIndex(ws, code).value;
      assert ws[i].code == code;
      LinksMet(g, derive, done, t, p, code);
      NoneFoundNoLead(t, p.id, code);
      FindNew(t, derive, p, i);
      FindNodeIff(Sync(t, derive, p).nodes, m.id);
      NewEnds(derive, p, ws[i], i);
      if HasId(g.nodes, m.id) && m.id !in GoneBy(g, done) {
        OldIdStillThere(g, derive, done, t, m.id);
      }
    } else {
      assert MadeFor(g, derive, done, q, code, m);
      MadeUnmoved(g, derive, done, t, p, q, code, m);
      NodesAfter(t, derive, p, m);
    }
  }

  lemma NoneFoundNoLead(t: Graph, cid: string, code: string)
    requires Found(t, cid, code) == []
    ensures Lead(t, cid, code).None?
  {
  }

  lemma OldIdStillThere(g: Graph, derive: Derive, done: seq<Node>, t: Graph, id: string)
    requires Tracks(g, derive, done, t) && HasId(g.nodes, id) && id !in GoneBy(g, done)
    ensures HasId(t.nodes, id)
  {
    hide GoneBy, Said, Parents, Sound, LinksTracked, Made, MadeFor;
    var n :| n in g.nodes && n.id == id;
    SaidKeeps(g, done, n);
    assert Said(g, done, n) in t.nodes;
  }

  lemma NodesStep(g: Graph, derive: Derive, done: seq<Node>, t: Graph, p: Node)
    requires Sound(g, derive) && Tracks(g, derive, done, t) && p in Parents(g) && p !in done && Parent(g, p) && Parent(t, p)
    ensures NodesTracked(g, derive, done + [p], Sync(t, derive, p))
  {
    hide Sound, Tracks, Parents, GoneBy, Said, Sync, Made, MadeFor, HasId, Parent;
    var done', t' := done + [p], Sync(t, derive, p);
    forall n | n in g.nodes && n.id !in GoneBy(g, done') ensures Said(g, done', n) in t'.nodes {
      OldNodesStep(g, derive, done, t, p, n);
    }
    forall m | m in t'.nodes
      ensures (exists n :: n in g.nodes && n.id !in GoneBy(g, done') && m == Said(g, done', n)) || Made(g, derive, done', m)
    {
      NewNodesStep(g, derive, done, t, p, m);
    }
    forall q, code, m | q in done' && MadeFor(g, derive, done', q, code, m)
      ensures m in t'.nodes && (HasId(g.nodes, m.id) ==> m.id in GoneBy(g, done'))
    {
      MadeNodesStep(g, derive, done, t, p, q, code, m);
    }
  }

  lemma {:induction false} SelectJoin(s: seq<Edge>, a: set<string>, b: set<string>, ab: set<string>)
    requires forall e :: e in s ==> (e.target in ab <==> e.target in a || e.target in b)
    ensures Select(Select(s, Stays(a)), Stays(b)) == Select(s, Stays(ab))
  {
    if s != [] {
      SelectJoin(s[1..], a, b, ab);
      var rest := Select(s[1..], Stays(a));
      assert ([s[0]] + rest)[1..] == rest;
    }
  }

  lemma LinksStep(g: Graph, derive: Derive, done: seq<Node>, t: Graph, p: Node, q: Node, code: string)
    requires Sound(g, derive) && Tracks(g, derive, done, t) && p in Parents(g) && p !in done && Parent(g, p) && Parent(t, p)
    requires q in Parents(g)
    ensures Found(Sync(t, derive, p), q.id, code) ==
            Left(g, GoneBy(g, done + [p]), q.id, code) + Added(g, derive, done + [p], q, code)
  {
    hide Sound, Tracks, Parents, GoneBy, Said, Sync, Made, MadeFor, HasId, Found, Doomed, Added, Base, NewLinkFor, WantedBy;
    var D := Doomed(t, p.id, WantedBy(p));
    SoundParts(g, derive);
    SoundIsBase(t, derive) by { TracksSound(g, derive, done, t); }
    StillAParent(g, derive, done, t, q);
    FoundStep(t, derive, p, q, code);
    LinksOf(g, derive, done, t, q, code);
    SelectAppend(Left(g, GoneBy(g, done), q.id, code), Added(g, derive, done, q, code), Stays(D));
    AddedStays(g, derive, done, t, p, q, code);
    OneMore(g, derive, done, p);
    forall e | e in Found(g, q.id, code)
      ensures e.target in GoneBy(g, done + [p]) <==> e.target in GoneBy(g, done) || e.target in D
    {
      DoomedTracked(g, derive, done, t, p, e.target);
    }
    SelectJoin(Found(g, q.id, code), GoneBy(g, done), D, GoneBy(g, done + [p]));
    AddedOrNew(g, derive, done, t, p, q, code);
  }

  lemma TracksSound(g: Graph, derive: Derive, done: seq<Node>, t: Graph)
    requires Tracks(g, derive, done, t)
    ensures Sound(t, derive)
  {
  }

  lemma StillAParent(g: Graph, derive: Derive, done: seq<Node>, t: Graph, q: Node)
    requires Tracks(g, derive, done, t) && q in Parents(g)
    ensures q in t.nodes && q.typ == CLASSIFICATION
  {
    ParentsAreNodes(t, q);
  }

  /** A link the passes have added is not dropped by a later one. */
  lemma AddedStays(g: Graph, derive: Derive, done: seq<Node>, t: Graph, p: Node, q: Node, code: string)
    requires Sound(g, derive) && Tracks(g, derive, done, t) && p in Parents(g) && p !in done && Parent(g, p)
    ensures Select(Added(g, derive, done, q, code), Stays(Doomed(t, p.id, WantedBy(p)))) == Added(g, derive, done, q, code)
  {
    hide Sound, Tracks, Parents, GoneBy, Doomed, Added, WantedBy, NewItem;
    AddedIs(g, derive, done, q, code);
    var added := Added(g, derive, done, q, code);
    if added == [] {
      SelectNone([], Stays(Doomed(t, p.id, WantedBy(p))));
    } else {
      var i := WantIndex(WantedBy(q), code).value;
      var m := NewItem(derive, q, WantedBy(q)[i], i);
      assert MadeFor(g, derive, done, q, code, m);
      MadeUnmoved(g, derive, done, t, p, q, code, m);
      NewEnds(derive, q, WantedBy(q)[i], i);
      SelectAll(added, Stays(Doomed(t, p.id, WantedBy(p))));
    }
  }

  lemma AddedOrNew(g: Graph, derive: Derive, done: seq<Node>, t: Graph, p: Node, q: Node, code: string)
    requires Sound(g, derive) && Tracks(g, derive, done, t) && p in Parents(g) && q in Parents(g) && p !in done && Parent(g, p)
    ensures Added(g, derive, done + [p], q, code) ==
            Added(g, derive, done, q, code) + NewLinkFor(t, derive, p, q.id, code, |WantedBy(p)|)
  {
    hide Sound, Tracks, Parents, GoneBy, Found, Left, Added, NewLink, WantedBy;
    OneMore(g, derive, done, p);
    if q == p {
      NotDoneNotAdded(g, derive, done, p, code);
      LinksMet(g, derive, done, t, p, code);
    } else {
      ParentsAreNodes(g, p);
      ParentsAreNodes(g, q);
      SoundIsBase(g, derive);
      if q.id == p.id {
        SameId(g, derive, p, q);
      }
    }
  }

  lemma TracksStep(g: Graph, derive: Derive, done: seq<Node>, t: Graph, p: Node)
    requires Sound(g, derive) && Tracks(g, derive, done, t) && p in Parents(g) && p !in done
    ensures Tracks(g, derive, done + [p], Sync(t, derive, p))
  {
    ParentsAreNodes(g, p);
    StillAParent(g, derive, done, t, p);
    if p.codes.Unreadable? {
      UnreadableStep(g, derive, done, t, p);
    } else {
      assert Parent(g, p) && Parent(t, p) && Sound(t, derive) && Parents(t) == Parents(g);
      hide Sound, Parents, Sync, NodesTracked, GoneBy, Found, Left, Added;
      SoundIsBase(t, derive);
      SoundAfter(t, derive, p);
      SameParents(t, derive, p);
      NodesStep(g, derive, done, t, p);
      forall q, code | q in Parents(g)
        ensures Found(Sync(t, derive, p), q.id, code) ==
                Left(g, GoneBy(g, done + [p]), q.id, code) + Added(g, derive, done + [p], q, code)
      {
        LinksStep(g, derive, done, t, p, q, code);
      }
    }
  }

  lemma UnreadableStep(g: Graph, derive: Derive, done: seq<Node>, t: Graph, p: Node)
    requires Tracks(g, derive, done, t) && p.codes.Unreadable? && p !in done
    ensures Tracks(g, derive, done + [p], Sync(t, derive, p))
  {
    UnreadableIsFixed(t, derive, p);
    OneMore(g, derive, done, p);
    hide Sound, Parents, Sync, GoneBy, Found, Left, Added, Said, NewItem;
    var gone := GoneBy(g, done);
    assert GoneBy(g, done + [p]) == gone;
    forall q, code, m ensures q in done + [p] && MadeFor(g, derive, done + [p], q, code, m) <==> q in done && MadeFor(g, derive, done, q, code, m) {
      if q == p {
        NotDoneNotAdded(g, derive, done, p, code);
      }
    }
    forall m ensures Made(g, derive, done + [p], m) <==> Made(g, derive, done, m) {
    }
    forall q, code ensures Added(g, derive, done + [p], q, code) == Added(g, derive, done, q, code) {
      if q == p {
        NotDoneNotAdded(g, derive, done, p, code);
      }
    }
    hide MadeFor, Made;
  }

  /** The whole migration, followed. */
  lemma {:induction false} TracksAll(g: Graph, derive: Derive, done: seq<Node>)
    requires Sound(g, derive) && done <= Parents(g) && Unique(Parents(g))
    ensures Tracks(g, derive, done, SyncAll(g, derive, done))
  {
    hide Sound, Tracks, Parents, Sync;
    if done == [] {
      TracksNothing(g, derive);
    } else {
      var k := |done| - 1;
      TracksAll(g, derive, done[..k]);
      assert done[k] == Parents(g)[k];
      assert done[k] !in done[..k];
      TracksStep(g, derive, done[..k], SyncAll(g, derive, done[..k]), done[k]);
      assert done[..k] + [done[k]] == done;
    }
  }

  // ------------------------------------------------------------ the condition

  /** No classification loses to a later one the last item of a code it wants. */
  predicate NothingLost(g: Graph) {
    var ps := Parents(g);
    forall j, i :: 0 <= j < |ps| && !ps[j].codes.Unreadable? && 0 <= i < |WantedBy(ps[j])| ==>
      var code := WantedBy(ps[j])[i].code;
      Left(g, GoneBy(g, ps[..j]), ps[j].id, code) != [] ==> Left(g, GoneBy(g, ps), ps[j].id, code) != []
  }

  /** Every item that stays has its last word: the classifications that end up with it in
      front would not name or place it otherwise than the passes do. */
  predicate LastWords(g: Graph) {
    var ps := Parents(g);
    forall n :: n in g.nodes && n.id !in GoneBy(g, ps) ==> Again(g, GoneBy(g, ps), ps, Said(g, ps, n)) == Said(g, ps, n)
  }

  /** Decided on the graph before the migration. */
  predicate Settles(g: Graph) {
    NothingLost(g) && LastWords(g)
  }

  // ------------------------------------------------------ the second migration

  lemma NothingDoomedAtEnd(g: Graph, derive: Derive, t: Graph, q: Node)
    requires Sound(g, derive) && Tracks(g, derive, Parents(g), t) && q in Parents(g)
    ensures DoomedBy(t, q) == {}
  {
    if !q.codes.Unreadable? {
      hide Sound, Tracks, Found, Doomed, WantedBy, GoneBy, Left, Parents, FindNode, Said, Unique, NoDangling, Added;
      SoundParts(g, derive);
      var ws, gone := WantedBy(q), GoneBy(g, Parents(g));
      GoneIncludes(g, Parents(g), q);
      forall id ensures id !in Doomed(t, q.id, ws) {
        if id in Doomed(t, q.id, ws) {
          DoomedIff(t, q.id, ws, id);
          DoomedIff(g, q.id, ws, id);
          var c, e :| WantIndex(ws, c).None? && e in Found(t, q.id, c) && e.target == id;
          LinksOf(g, derive, Parents(g), t, q, c);
          AddedIs(g, derive, Parents(g), q, c);
          LeftIs(g, gone, q.id, c, e);
          LinkedIsOld(g, q.id, c, e);
          OldNodeNow(g, derive, Parents(g), t, FindNode(g.nodes, id).value);
        }
      }
    }
  }

  lemma {:induction false} GoneIncludes(g: Graph, done: seq<Node>, q: Node)
    requires q in done
    ensures DoomedBy(g, q) <= GoneBy(g, done)
  {
    hide DoomedBy;
    if q != done[|done| - 1] {
      GoneIncludes(g, done[..|done| - 1], q);
    }
  }

  lemma {:induction false} NothingGone(t: Graph, done: seq<Node>)
    requires forall q :: q in done ==> DoomedBy(t, q) == {}
    ensures GoneBy(t, done) == {}
  {
    hide DoomedBy;
    if done != [] {
      NothingGone(t, done[..|done| - 1]);
    }
  }

  /** Every wanted code of every readable classification has an item. */
  ghost predicate AllFound(t: Graph, ps: seq<Node>) {
    forall q, i :: q in ps && !q.codes.Unreadable? && 0 <= i < |WantedBy(q)| ==> Found(t, q.id, WantedBy(q)[i].code) != []
  }

  ghost predicate AllSaid(t: Graph, ps: seq<Node>) {
    forall n :: n in t.nodes ==> Said(t, ps, n) == n
  }

  /** A pass that dooms nothing and misses nothing only renames and replaces. */
  lemma QuietPass(t: Graph, derive: Derive, p: Node)
    requires !p.codes.Unreadable? && Doomed(t, p.id, WantedBy(p)) == {}
    requires forall i :: 0 <= i < |WantedBy(p)| ==> Found(t, p.id, WantedBy(p)[i].code) != []
    ensures Sync(t, derive, p) == Graph(RefreshAll(t, p.id, WantedBy(p)), t.edges)
  {
    hide Doomed, Found;
    var ws := WantedBy(p);
    NoneNew(t, derive, p, ws, |ws|);
    var nodes := RefreshAll(t, p.id, ws);
    assert nodes + [] == nodes && t.edges + [] == t.edges;
    hide RefreshAll;
    SelectAll(nodes, KeepsNode({}));
    SelectAll(t.edges, KeepsEdge({}));
  }

  lemma {:induction false} NoneNew(t: Graph, derive: Derive, p: Node, ws: seq<Want>, k: nat)
    requires k <= |ws| && forall i :: 0 <= i < |ws| ==> Found(t, p.id, ws[i].code) != []
    ensures NewItems(t, derive, p, ws, k) == [] && NewLinks(t, derive, p, ws, k) == []
  {
    hide Found;
    if k > 0 {
      NoneNew(t, derive, p, ws, k - 1);
    }
  }

  /** Ids and edges of the graph before. */
  ghost predicate SameShape(t: Graph, u: Graph) {
    u.edges == t.edges && |u.nodes| == |t.nodes| && forall i :: 0 <= i < |t.nodes| ==> u.nodes[i].id == t.nodes[i].id
  }

  lemma NoneDoomedNow(t: Graph, derive: Derive, done: seq<Node>, u: Graph, p: Node)
    requires Sound(t, derive) && Tracks(t, derive, done, u) && p in Parents(t) && p !in done
    requires !p.codes.Unreadable? && GoneBy(t, done + [p]) == {}
    ensures Doomed(u, p.id, WantedBy(p)) == {} && GoneBy(t, done) == {}
  {
    ParentsAreNodes(t, p);
    OneMore(t, derive, done, p);
    hide Sound, Tracks, Parents, Doomed, Found, GoneBy, Left, WantedBy;
    forall id ensures id !in Doomed(u, p.id, WantedBy(p)) {
      DoomedTracked(t, derive, done, u, p, id);
    }
  }

  lemma AllFoundNow(t: Graph, derive: Derive, done: seq<Node>, u: Graph, p: Node, i: nat)
    requires Sound(t, derive) && Tracks(t, derive, done, u) && p in Parents(t) && p !in done
    requires !p.codes.Unreadable? && GoneBy(t, done) == {} && AllFound(t, Parents(t)) && i < |WantedBy(p)|
    ensures Found(u, p.id, WantedBy(p)[i].code) != []
  {
    hide Sound, Tracks, Parents, Found, GoneBy, Left, WantedBy;
    var code := WantedBy(p)[i].code;
    LinksMet(t, derive, done, u, p, code);
    LeftAll(t, p.id, code);
  }

  lemma RefreshKeepsIds(u: Graph, cid: string, ws: seq<Want>)
    ensures SameShape(u, Graph(RefreshAll(u, cid, ws), u.edges))
  {
    hide Refresh;
    forall i | 0 <= i < |u.nodes| ensures Refresh(u, cid, ws, u.nodes[i]).id == u.nodes[i].id {
      RefreshKeeps(u, cid, ws, u.nodes[i]);
    }
  }

  lemma ShapeStep(t: Graph, derive: Derive, done: seq<Node>, u: Graph, p: Node)
    requires Sound(t, derive) && Tracks(t, derive, done, u) && SameShape(t, u) && p in Parents(t) && p !in done
    requires GoneBy(t, done + [p]) == {} && AllFound(t, Parents(t))
    ensures SameShape(t, Sync(u, derive, p))
  {
    hide Sound, Tracks, Parents, Doomed, Found, GoneBy, AllFound, WantedBy, RefreshAll, Sync;
    if p.codes.Unreadable? {
      UnreadableStays(u, derive, p);
    } else {
      NoneDoomedNow(t, derive, done, u, p);
      forall i | 0 <= i < |WantedBy(p)| ensures Found(u, p.id, WantedBy(p)[i].code) != [] {
        AllFoundNow(t, derive, done, u, p, i);
      }
      QuietPass(u, derive, p);
      RefreshKeepsIds(u, p.id, WantedBy(p));
    }
  }

  lemma UnreadableStays(u: Graph, derive: Derive, p: Node)
    requires p.codes.Unreadable?
    ensures Sync(u, derive, p) == u
  {
  }

  lemma {:induction false} ShapeAll(t: Graph, derive: Derive, done: seq<Node>)
    requires Sound(t, derive) && done <= Parents(t) && Unique(Parents(t)) && AllFound(t, Parents(t))
    requires forall q :: q in Parents(t) ==> DoomedBy(t, q) == {}
    ensures SameShape(t, SyncAll(t, derive, done))
  {
    hide Sound, AllFound, Sync, Parents, DoomedBy;
    if done != [] {
      var k := |done| - 1;
      ShapeAll(t, derive, done[..k]);
      TracksAll(t, derive, done[..k]);
      assert done[k] == Parents(t)[k] && done[k] !in done[..k];
      assert done[..k] + [done[k]] == done;
      assert forall q :: q in done ==> q in Parents(t);
      NothingGone(t, done);
      ShapeStep(t, derive, done[..k], SyncAll(t, derive, done[..k]), done[k]);
    }
  }

  /** Once nothing is doomed, a migration changes nothing if and only if every wanted
      code has its item and every item what is said of it. */
  lemma FixedIff(t: Graph, derive: Derive)
    requires Sound(t, derive) && forall q :: q in Parents(t) ==> DoomedBy(t, q) == {}
    ensures SyncAll(t, derive, Parents(t)) == t <==> AllFound(t, Parents(t)) && AllSaid(t, Parents(t))
  {
    var ps := Parents(t);
    var u := SyncAll(t, derive, ps);
    SoundParts(t, derive);
    UniqueSelect(t.nodes, IsParent());
    TracksAll(t, derive, ps);
    NothingGone(t, ps);
    hide Sound, Parents, Sync, SyncAll, DoomedBy, GoneBy, Tracks;
    if AllFound(t, ps) && AllSaid(t, ps) {
      ShapeAll(t, derive, ps);
      forall i | 0 <= i < |t.nodes| ensures u.nodes[i] == t.nodes[i] {
        SaidIsThere(t, derive, ps, u, t.nodes[i]);
        TracksUnique(t, derive, ps, u);
        FindUnique(u.nodes, u.nodes[i]);
      }
      assert u.nodes == t.nodes;
    }
    if u == t {
      forall n | n in t.nodes ensures Said(t, ps, n) == n {
        SaidIsThere(t, derive, ps, u, n);
        FindUnique(t.nodes, n);
      }
      forall q, i | q in ps && !q.codes.Unreadable? && 0 <= i < |WantedBy(q)|
        ensures Found(t, q.id, WantedBy(q)[i].code) != []
      {
        WouldBeAdded(t, derive, ps, u, q, i);
      }
    }
  }

  lemma TracksUnique(g: Graph, derive: Derive, done: seq<Node>, t: Graph)
    requires Tracks(g, derive, done, t)
    ensures Unique(t.nodes)
  {
  }

  lemma SaidIsThere(t: Graph, derive: Derive, ps: seq<Node>, u: Graph, n: Node)
    requires Unique(t.nodes) && Tracks(t, derive, ps, u) && GoneBy(t, ps) == {} && n in t.nodes
    ensures FindNode(u.nodes, n.id) == Some(Said(t, ps, n))
  {
    hide GoneBy, Tracks, Said;
    OldNodeNow(t, derive, ps, u, n);
  }

  lemma WouldBeAdded(t: Graph, derive: Derive, ps: seq<Node>, u: Graph, q: Node, i: nat)
    requires Tracks(t, derive, ps, u) && u == t && ps == Parents(t) && q in ps && Unique(ps)
    requires !q.codes.Unreadable? && i < |WantedBy(q)| && forall r :: r in ps ==> DoomedBy(t, r) == {}
    ensures Found(t, q.id, WantedBy(q)[i].code) != []
  {
    var code := WantedBy(q)[i].code;
    assert Wants(WantedBy(q), code);
    hide Tracks, Parents, DoomedBy, Found, Left, WantedBy, Added, GoneBy;
    LinksOf(t, derive, ps, u, q, code);
    var j :| 0 <= j < |ps| && ps[j] == q;
    assert forall r :: r in ps[..j] ==> r in ps;
    NothingGone(t, ps[..j]);
    LeftAll(t, q.id, code);
    AddedAt(t, derive, ps, j, code);
  }

  /** A link is added exactly where the pass of the classification found none left. */
  lemma {:induction false} AddedAt(g: Graph, derive: Derive, ps: seq<Node>, j: nat, code: string)
    requires Unique(ps) && j < |ps| && !ps[j].codes.Unreadable? && WantIndex(WantedBy(ps[j]), code).Some?
    ensures Added(g, derive, ps, ps[j], code) != [] <==> Left(g, GoneBy(g, ps[..j]), ps[j].id, code) == []
    decreases |ps|
  {
    hide Left, GoneBy, WantedBy;
    var k := |ps| - 1;
    if j < k {
      assert ps[k].id != ps[j].id;
      assert ps[..k][j] == ps[j] && ps[..k][..j] == ps[..j];
      AddedAt(g, derive, ps[..k], j, code);
    }
  }

  // --------------------------------------------------------- the exact theorem

  /** What is found at the end, in terms of the graph before. */
  lemma AllFoundIff(g: Graph, derive: Derive, t: Graph)
    requires Sound(g, derive) && Tracks(g, derive, Parents(g), t) && Unique(Parents(g))
    ensures AllFound(t, Parents(g)) <==> NothingLost(g)
  {
    var ps := Parents(g);
    hide Sound, Tracks, Parents, Found, Left, WantedBy, Added, GoneBy;
    forall j, i | 0 <= j < |ps| && !ps[j].codes.Unreadable? && 0 <= i < |WantedBy(ps[j])|
      ensures var code := WantedBy(ps[j])[i].code;
              Found(t, ps[j].id, code) != [] <==>
              (Left(g, GoneBy(g, ps[..j]), ps[j].id, code) != [] ==> Left(g, GoneBy(g, ps), ps[j].id, code) != [])
    {
      var code := WantedBy(ps[j])[i].code;
      assert Wants(WantedBy(ps[j]), code);
      LinksOf(g, derive, ps, t, ps[j], code);
      AddedAt(g, derive, ps, j, code);
    }
    if NothingLost(g) {
      forall q, i | q in ps && !q.codes.Unreadable? && 0 <= i < |WantedBy(q)| ensures Found(t, q.id, WantedBy(q)[i].code) != [] {
        var j :| 0 <= j < |ps| && ps[j] == q;
      }
    }
    if AllFound(t, ps) {
      assert forall j :: 0 <= j < |ps| ==> ps[j] in ps;
    }
  }

  lemma SpeakAtEnd(g: Graph, derive: Derive, t: Graph, p: Node, n: Node, m: Node)
    requires Sound(g, derive) && Tracks(g, derive, Parents(g), t) && p in Parents(g)
    requires n in g.nodes && n.id !in GoneBy(g, Parents(g)) && m.id == n.id
    ensures Speak(t, {}, p, m) == Speak(g, GoneBy(g, Parents(g)), p, m)
  {
    hide Sound, Parents, Found, Left, WantedBy, Added, GoneBy, Tracks;
    if m.code.Some? {
      var code, ps := m.code.value, Parents(g);
      LinksOf(g, derive, ps, t, p, code);
      LeftAll(t, p.id, code);
      AddedIs(g, derive, ps, p, code);
      if Added(g, derive, ps, p, code) != [] {
        AddedIsNotOld(g, derive, t, p, code, n);
      }
    }
  }

  lemma AddedIsNotOld(g: Graph, derive: Derive, t: Graph, p: Node, code: string, n: Node)
    requires Tracks(g, derive, Parents(g), t) && p in Parents(g) && Added(g, derive, Parents(g), p, code) != []
    requires n in g.nodes && n.id !in GoneBy(g, Parents(g))
    ensures Added(g, derive, Parents(g), p, code)[0].target != n.id
  {
    hide Sound, Parents, LinksTracked, WantedBy, GoneBy, Added, Said;
    AddedIs(g, derive, Parents(g), p, code);
    var i := WantIndex(WantedBy(p), code).value;
    var m := NewItem(derive, p, WantedBy(p)[i], i);
    NewEnds(derive, p, WantedBy(p)[i], i);
    assert MadeFor(g, derive, Parents(g), p, code, m);
    assert HasId(g.nodes, n.id);
  }

  lemma {:induction false} SaidAtEnd(g: Graph, derive: Derive, t: Graph, done: seq<Node>, n: Node, m: Node)
    requires Sound(g, derive) && Tracks(g, derive, Parents(g), t)
    requires forall q :: q in done ==> q in Parents(g) && DoomedBy(t, q) == {}
    requires n in g.nodes && n.id !in GoneBy(g, Parents(g)) && m.id == n.id
    ensures Said(t, done, m) == Again(g, GoneBy(g, Parents(g)), done, m)
    ensures Said(t, done, m).id == n.id
  {
    hide Sound, Parents, DoomedBy, Tracks, Speak, GoneBy;
    if done != [] {
      var k := |done| - 1;
      SaidAtEnd(g, derive, t, done[..k], n, m);
      NothingGone(t, done[..k]);
      SpeakAtEnd(g, derive, t, done[k], n, Said(t, done[..k], m));
      SpeakKeeps(t, {}, done[k], Said(t, done[..k], m));
    }
  }

  /** A made item already has the name and place it gets. */
  lemma MadeIsSaid(g: Graph, derive: Derive, t: Graph, p: Node, q: Node, code: string, m: Node)
    requires Sound(g, derive) && Tracks(g, derive, Parents(g), t) && p in Parents(g) && q in Parents(g)
    requires MadeFor(g, derive, Parents(g), q, code, m)
    ensures Speak(t, {}, p, m) == m
  {
    if Leads(t, {}, p, m) {
      var c := m.code.value;
      assert HasId(g.nodes, m.id) ==> m.id in GoneBy(g, Parents(g));
      AddedIs(g, derive, Parents(g), q, code);
      ParentsAreNodes(g, p);
      ParentsAreNodes(g, q);
      var i := WantIndex(WantedBy(q), code).value;
      assert c == code;
      hide Sound, Parents, Found, GoneBy, Tracks, HasId, Added, Leads;
      SoundParts(g, derive);
      LeftAll(t, p.id, c);
      LeadsIs(t, {}, p, m);
      LinksOf(g, derive, Parents(g), t, p, c);
      AddedIs(g, derive, Parents(g), p, c);
      var e := Found(t, p.id, c)[0];
      assert e in Found(t, p.id, c);
      if e in Left(g, GoneBy(g, Parents(g)), p.id, c) {
        LeftIs(g, GoneBy(g, Parents(g)), p.id, c, e);
        LinkedIsOld(g, p.id, c, e);
      } else {
        DerivedOnce(g, derive, p, c, q, code);
        SoundIsBase(g, derive);
        SameId(g, derive, p, q);
      }
    }
  }

  lemma LeadsIs(g: Graph, gone: set<string>, p: Node, n: Node)
    requires Leads(g, gone, p, n)
    ensures n.code.Some? && !p.codes.Unreadable? && WantIndex(WantedBy(p), n.code.value).Some?
    ensures Left(g, gone, p.id, n.code.value) != [] && Left(g, gone, p.id, n.code.value)[0].target == n.id
  {
  }

  lemma {:induction false} MadeIsSaidThroughout(g: Graph, derive: Derive, t: Graph, done: seq<Node>, q: Node, code: string, m: Node)
    requires Sound(g, derive) && Tracks(g, derive, Parents(g), t) && q in Parents(g)
    requires forall r :: r in done ==> r in Parents(g) && DoomedBy(t, r) == {}
    requires MadeFor(g, derive, Parents(g), q, code, m)
    ensures Said(t, done, m) == m
  {
    hide Sound, Parents, DoomedBy, Tracks, Speak, GoneBy, MadeFor;
    if done != [] {
      var k := |done| - 1;
      MadeIsSaidThroughout(g, derive, t, done[..k], q, code, m);
      NothingGone(t, done[..k]);
      MadeIsSaid(g, derive, t, done[k], q, code, m);
    }
  }

  lemma AllSaidIff(g: Graph, derive: Derive, t: Graph)
    requires Sound(g, derive) && Tracks(g, derive, Parents(g), t)
    requires forall q :: q in Parents(g) ==> DoomedBy(t, q) == {}
    ensures AllSaid(t, Parents(g)) <==> LastWords(g)
  {
    var ps := Parents(g);
    hide Sound, Parents, DoomedBy, GoneBy, Said, Again, MadeFor, LinksTracked;
    forall n | n in g.nodes && n.id !in GoneBy(g, ps)
      ensures Said(t, ps, Said(g, ps, n)) == Again(g, GoneBy(g, ps), ps, Said(g, ps, n)) && Said(g, ps, n) in t.nodes
    {
      SaidKeeps(g, ps, n);
      SaidAtEnd(g, derive, t, ps, n, Said(g, ps, n)) by { assert Tracks(g, derive, ps, t); }
    }
    forall m | m in t.nodes && Made(g, derive, ps, m) ensures Said(t, ps, m) == m {
      var q, code :| q in ps && MadeFor(g, derive, ps, q, code, m);
      MadeIsSaidThroughout(g, derive, t, ps, q, code, m);
    }
  }

  /** The exact law. Migrating a sound graph twice gives the graph of migrating it once if
      and only if, in the graph before, no classification loses to a later one the last
      item of a code it wants, and every item that stays has its last word. */
  lemma MigrationConvergesIff(g: Graph, derive: Derive)
    requires Sound(Retyped(g), derive)
    ensures var g' := Migrated(g, derive, true);
            Migrated(g', derive, true) == g' <==> Settles(Retyped(g))
  {
    var g0, ps := Retyped(g), Parents(Retyped(g));
    var t := SyncAll(g0, derive, ps);
    SoundParts(g0, derive);
    UniqueSelect(g0.nodes, IsParent());
    TracksAll(g0, derive, ps);
    EndIsRetyped(g, derive, t);
    hide Sound, Parents, DoomedBy, SyncAll, Tracks, Retyped;
    forall q | q in ps ensures DoomedBy(t, q) == {} {
      NothingDoomedAtEnd(g0, derive, t, q);
    }
    TracksSound(g0, derive, ps, t);
    TracksParents(g0, derive, ps, t);
    FixedIff(t, derive);
    AllFoundIff(g0, derive, t);
    AllSaidIff(g0, derive, t);
  }

  lemma TracksParents(g: Graph, derive: Derive, done: seq<Node>, t: Graph)
    requires Tracks(g, derive, done, t)
    ensures Parents(t) == Parents(g)
  {
  }

  /** A migrated graph has nothing left to retype. */
  lemma EndIsRetyped(g: Graph, derive: Derive, t: Graph)
    requires Tracks(Retyped(g), derive, Parents(Retyped(g)), t)
    ensures Retyped(t) == t
  {
    hide Sound, Parents, LinksTracked, GoneBy, Said, Retype, NewItem;
    var g0 := Retyped(g);
    forall m | m in t.nodes ensures Retype(m) == m {
      if n :| n in g0.nodes && n.id !in GoneBy(g0, Parents(g0)) && m == Said(g0, Parents(g0), n) {
        SaidKeeps(g0, Parents(g0), n);
        var i :| 0 <= i < |g.nodes| && g0.nodes[i] == n;
        RetypeTwice(g.nodes[i]);
        RetypeIgnores(n, m);
      } else {
        var q, code :| q in Parents(g0) && MadeFor(g0, derive, Parents(g0), q, code, m);
        MadeIsItem(g0, derive, Parents(g0), q, code, m);
        ItemKeepsType(m);
      }
    }
    RetypedAlready(t.nodes);
  }

  lemma RetypeIgnores(n: Node, m: Node)
    requires Retype(n) == n && m == n.(name := m.name, position := m.position)
    ensures Retype(m) == m
  {
  }

  lemma MadeIsItem(g: Graph, derive: Derive, done: seq<Node>, q: Node, code: string, m: Node)
    requires MadeFor(g, derive, done, q, code, m)
    ensures m.typ == ITEM
  {
    hide Added;
  }

  /** Items that are not shared are enough. */
  lemma UnsharedSettles(g: Graph, derive: Derive)
    requires Sound(Retyped(g), derive) && Unshared(Retyped(g))
    ensures Settles(Retyped(g))
  {
    hide Settles, Migrated, Unshared, Base, Sound, Retyped;
    SoundIsBase(Retyped(g), derive);
    MigrationConverges(g, derive);
    MigrationConvergesIff(g, derive);
  }

  /** The shape of the failure: an item that an earlier classification wants, its only
      one of the code and not yet gone when its pass comes, and that a later one is linked
      to without wanting it. The second migration makes it anew. */
  lemma LostItemDoesNotConverge(g: Graph, derive: Derive, j: nat, i: nat)
    requires Sound(Retyped(g), derive) && j < |Parents(Retyped(g))|
    requires var ps := Parents(Retyped(g)); !ps[j].codes.Unreadable? && i < |WantedBy(ps[j])|
    requires var g0, ps := Retyped(g), Parents(Retyped(g));
             var code := WantedBy(ps[j])[i].code;
             && Left(g0, GoneBy(g0, ps[..j]), ps[j].id, code) != []
             && forall e :: e in Found(g0, ps[j].id, code) ==> exists k :: j < k < |ps| && e.target in DoomedBy(g0, ps[k])
    ensures Migrated(Migrated(g, derive, true), derive, true) != Migrated(g, derive, true)
  {
    var g0, ps := Retyped(g), Parents(Retyped(g));
    var code := WantedBy(ps[j])[i].code;
    MigrationConvergesIff(g, derive);
    hide Sound, Parents, GoneBy, DoomedBy, Migrated, Found, Retyped, WantedBy;
    forall e | e in Left(g0, GoneBy(g0, ps), ps[j].id, code) ensures false {
      LeftIs(g0, GoneBy(g0, ps), ps[j].id, code, e);
      var k :| j < k < |ps| && e.target in DoomedBy(g0, ps[k]);
      GoneIncludes(g0, ps, ps[k]);
    }
    if Left(g0, GoneBy(g0, ps), ps[j].id, code) != [] {
      assert Left(g0, GoneBy(g0, ps), ps[j].id, code)[0] in Left(g0, GoneBy(g0, ps), ps[j].id, code);
    }
  }
}
