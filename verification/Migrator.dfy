/**
 The migration as the script runs it: list surgery on the loaded graph, pass by
 pass, proved to make the graph that `Migrated` gives.
 */
module Migrator {
  import opened Values
  import opened Lists
  import opened Migration
  import opened MigrationFacts
  import opened MigrationExact
  import opened MigrationLaws

  // -------------------------------------------------------- steps of the loops

  function Targets(edges: seq<Edge>): seq<string> {
    seq(|edges|, i requires 0 <= i < |edges| => edges[i].target)
  }

  /** The items of each code, by edge order, as `existing` collects them. */
  ghost predicate Collected(g: Graph, cid: string, upTo: nat, existing: map<string, seq<string>>)
    requires upTo <= |g.edges|
  {
    forall c :: Lookup(existing, c).GetOr([]) == Targets(Select(g.edges[..upTo], LinksTo(g.nodes, cid, c)))
  }

  lemma CollectStep(g: Graph, cid: string, i: nat, existing: map<string, seq<string>>)
    requires i < |g.edges| && Collected(g, cid, i, existing)
    ensures var code, e := LinkCode(g.nodes, cid, g.edges[i]), g.edges[i];
            Collected(g, cid, i + 1,
                      if code.None? then existing
                      else existing[code.value := Lookup(existing, code.value).GetOr([]) + [e.target]])
  {
    var code, e := LinkCode(g.nodes, cid, g.edges[i]), g.edges[i];
    var existing' := if code.None? then existing
                     else existing[code.value := Lookup(existing, code.value).GetOr([]) + [e.target]];
    assert g.edges[..i + 1] == g.edges[..i] + [e];
    forall c ensures Lookup(existing', c).GetOr([]) == Targets(Select(g.edges[..i + 1], LinksTo(g.nodes, cid, c))) {
      hide LinkCode;
      SelectAppend(g.edges[..i], [e], LinksTo(g.nodes, cid, c));
      SelectsOne(e, LinksTo(g.nodes, cid, c));
      ToIs(g.nodes, cid, c, e);
      assert Lookup(existing, c).GetOr([]) == Targets(Select(g.edges[..i], LinksTo(g.nodes, cid, c)));
    }
  }

  lemma NothingCollected(g: Graph, cid: string)
    ensures Collected(g, cid, 0, map[])
  {
    assert g.edges[..0] == [];
  }

  /** One wanted code: at most the lead item's entry changes. */
  lemma RefreshStep(g: Graph, cid: string, ws: seq<Want>, k: nat, idx: nat)
    requires Unique(g.nodes) && DistinctWants(ws) && k < |ws| && idx < |g.nodes|
    requires Lead(g, cid, ws[k].code) == Some(g.nodes[idx].id)
    ensures RefreshAll(g, cid, ws[..k])[idx] == g.nodes[idx]
    ensures RefreshAll(g, cid, ws[..k + 1]) ==
            if g.nodes[idx].generated
            then RefreshAll(g, cid, ws[..k])[idx := g.nodes[idx].(name := ws[k].caption, position := Some(k))]
            else RefreshAll(g, cid, ws[..k])
  {
    hide Found;
    LeadIs(g, cid, ws[k].code);
    FindUnique(g.nodes, g.nodes[idx]);
    hide Lead, FindNode, Unique;
    WantPrefix(ws, k, ws[k].code);
    var a, b := RefreshAll(g, cid, ws[..k]), RefreshAll(g, cid, ws[..k + 1]);
    forall i | 0 <= i < |g.nodes| && i != idx ensures b[i] == a[i] {
      if g.nodes[i].code.Some? {
        WantPrefix(ws, k, g.nodes[i].code.value);
        OtherIndex(g.nodes, i, idx);
      }
    }
  }

  lemma OtherIndex(nodes: seq<Node>, i: nat, j: nat)
    requires Unique(nodes) && i < |nodes| && j < |nodes| && i != j
    ensures nodes[i].id != nodes[j].id
  {
  }

  lemma WantPrefix(ws: seq<Want>, k: nat, code: string)
    requires DistinctWants(ws) && k < |ws|
    ensures WantIndex(ws[..k + 1], code) == if ws[k].code == code then Some(k) else WantIndex(ws[..k], code)
    ensures ws[k].code == code ==> WantIndex(ws[..k], code).None?
  {
    assert ws[..k + 1][..k] == ws[..k];
  }

  lemma NoRefresh(g: Graph, cid: string, ws: seq<Want>, k: nat)
    requires DistinctWants(ws) && k < |ws| && Lead(g, cid, ws[k].code).None?
    ensures RefreshAll(g, cid, ws[..k + 1]) == RefreshAll(g, cid, ws[..k])
  {
    hide Lead;
    forall i | 0 <= i < |g.nodes| ensures RefreshAll(g, cid, ws[..k + 1])[i] == RefreshAll(g, cid, ws[..k])[i] {
      if g.nodes[i].code.Some? {
        WantPrefix(ws, k, g.nodes[i].code.value);
      }
    }
  }

  /** The unwanted generated items under these codes. */
  function DoomedUnder(g: Graph, cid: string, ws: seq<Want>, codes: set<string>): set<string> {
    set e | e in g.edges && Unwanted(g, cid, ws, e) && LinkCode(g.nodes, cid, e).value in codes :: e.target
  }

  function GeneratedAmong(nodes: seq<Node>, ids: seq<string>): set<string> {
    set id | id in ids && FindNode(nodes, id).Some? && FindNode(nodes, id).value.generated
  }

  lemma AmongNone(nodes: seq<Node>)
    ensures GeneratedAmong(nodes, []) == {}
  {
  }

  lemma AmongStep(nodes: seq<Node>, ids: seq<string>, j: nat)
    requires j < |ids| && FindNode(nodes, ids[j]).Some?
    ensures GeneratedAmong(nodes, ids[..j + 1]) ==
            GeneratedAmong(nodes, ids[..j]) + if FindNode(nodes, ids[j]).value.generated then {ids[j]} else {}
  {
    assert ids[..j + 1] == ids[..j] + [ids[j]];
  }

  lemma DoomedStep(g: Graph, cid: string, ws: seq<Want>, codes: set<string>, code: string)
    ensures DoomedUnder(g, cid, ws, codes + {code}) ==
            DoomedUnder(g, cid, ws, codes)
            + if WantIndex(ws, code).Some? then {} else GeneratedAmong(g.nodes, Targets(Found(g, cid, code)))
  {
    hide LinkCode, FindNode, Found;
    forall e ensures e in Found(g, cid, code) <==> e in g.edges && LinkCode(g.nodes, cid, e) == Some(code) {
      FoundIs(g, cid, code, e);
    }
    var found := Found(g, cid, code);
    forall id ensures id in Targets(found) <==> exists e :: e in found && e.target == id {
      TargetsAre(found, id);
    }
    forall id | id in DoomedUnder(g, cid, ws, codes + {code})
      ensures id in DoomedUnder(g, cid, ws, codes)
              || (WantIndex(ws, code).None? && id in GeneratedAmong(g.nodes, Targets(found)))
    {
      var e :| e in g.edges && Unwanted(g, cid, ws, e) && LinkCode(g.nodes, cid, e).value in codes + {code} && e.target == id;
      if LinkCode(g.nodes, cid, e).value !in codes {
        assert e in found;
      }
    }
    if WantIndex(ws, code).None? {
      forall id | id in GeneratedAmong(g.nodes, Targets(found)) ensures id in DoomedUnder(g, cid, ws, codes + {code}) {
        var e :| e in found && e.target == id;
        assert Unwanted(g, cid, ws, e);
      }
    }
  }

  lemma TargetsAre(edges: seq<Edge>, id: string)
    ensures id in Targets(edges) <==> exists e :: e in edges && e.target == id
  {
    if id in Targets(edges) {
      var i :| 0 <= i < |edges| && Targets(edges)[i] == id;
      assert edges[i] in edges;
    }
    if e :| e in edges && e.target == id {
      var i :| 0 <= i < |edges| && edges[i] == e;
      assert Targets(edges)[i] == id;
    }
  }

  lemma AllDoomed(g: Graph, cid: string, ws: seq<Want>, existing: map<string, seq<string>>)
    requires Collected(g, cid, |g.edges|, existing)
    ensures DoomedUnder(g, cid, ws, existing.Keys) == Doomed(g, cid, ws)
  {
    forall e | e in g.edges && Unwanted(g, cid, ws, e) ensures LinkCode(g.nodes, cid, e).value in existing {
      var c := LinkCode(g.nodes, cid, e).value;
      assert g.edges[..|g.edges|] == g.edges;
      FoundIs(g, cid, c, e);
      hide LinkCode, Unwanted, Found;
      var found := Found(g, cid, c);
      TargetsAre(found, e.target);
      assert Lookup(existing, c).GetOr([]) == Targets(found);
    }
  }

  lemma {:induction false} DropNodesTwice(nodes: seq<Node>, a: set<string>, b: set<string>)
    ensures Select(Select(nodes, KeepsNode(a)), KeepsNode(b)) == Select(nodes, KeepsNode(a + b))
  {
    if nodes != [] {
      DropNodesTwice(nodes[1..], a, b);
      var rest := Select(nodes[1..], KeepsNode(a));
      assert ([nodes[0]] + rest)[1..] == rest;
    }
  }

  lemma {:induction false} DropEdgesTwice(edges: seq<Edge>, a: set<string>, b: set<string>)
    ensures Select(Select(edges, KeepsEdge(a)), KeepsEdge(b)) == Select(edges, KeepsEdge(a + b))
  {
    if edges != [] {
      DropEdgesTwice(edges[1..], a, b);
      var rest := Select(edges[1..], KeepsEdge(a));
      assert ([edges[0]] + rest)[1..] == rest;
    }
  }

  // ------------------------------------------------------------------ the script

  class Migrator {
    const derive: Derive
    var nodes: seq<Node>
    var edges: seq<Edge>

    function View(): Graph
      reads this
    {
      Graph(nodes, edges)
    }

    constructor (derive: Derive, g: Graph)
      ensures this.derive == derive && View() == g
    {
      this.derive, nodes, edges := derive, g.nodes, g.edges;
    }

    /** Steps 1 and 2, one loop each. */
    method RetypeNodes()
      modifies this`nodes
      ensures nodes == RetypeAll(old(nodes))
      ensures |nodes| == |old(nodes)| && forall i :: 0 <= i < |nodes| ==> Becomes(old(nodes)[i], nodes[i])
    {
      hide Becomes;
      for i := 0 to |nodes|
        invariant |nodes| == |old(nodes)|
        invariant forall j :: i <= j < |nodes| ==> nodes[j] == old(nodes)[j]
        invariant forall j :: 0 <= j < i ==>
          if old(nodes)[j].typ == "InstanceVariable" then nodes[j] == Retype(old(nodes)[j]) else nodes[j] == old(nodes)[j]
      {
        if nodes[i].typ == "InstanceVariable" {
          nodes := nodes[i := nodes[i].(typ := "Variable", subtypes := WithSubtype(nodes[i].subtypes, "InstanceVariable"))];
        }
      }
      ghost var middle := nodes;
      for i := 0 to |nodes|
        invariant |nodes| == |middle|
        invariant forall j :: i <= j < |nodes| ==> nodes[j] == middle[j]
        invariant forall j :: 0 <= j < i ==> nodes[j] == Retype(old(nodes)[j])
      {
        if nodes[i].typ != "CodeList" {
          continue;
        }
        if !IsClassification(nodes[i]) {
          continue;
        }
        var subtype := if nodes[i].versioned then "ClassificationVersion" else "ClassificationSeries";
        nodes := nodes[i := nodes[i].(typ := CLASSIFICATION, subtypes := WithSubtype(nodes[i].subtypes, subtype))];
        nodes := nodes[i := nodes[i].(subtypes := RemoveAll(nodes[i].subtypes, [MARKER]))];
        nodes := nodes[i := nodes[i].(declared := true)];
      }
      forall i | 0 <= i < |nodes| ensures Becomes(old(nodes)[i], nodes[i]) {
        RetypeBecomes(old(nodes)[i]);
      }
    }

    /** Deduplicates the readable entries, and numbers them by their place. */
    method OrderCodes(entries: seq<Entry>) returns (ordered: seq<Want>)
      ensures ordered == Ordered(entries)
    {
      ordered := [];
      var seen: set<string> := {};
      for i := 0 to |entries|
        invariant ordered == Ordered(entries[..i])
        invariant forall c :: c in seen <==> Wants(ordered, c)
      {
        assert entries[..i + 1][..i] == entries[..i];
        match entries[i]
        case Skipped =>
        case Entry(code, caption) =>
          if code !in seen {
            seen := seen + {code};
            WantsPush(ordered, Want(code, if caption == "" then code else caption));
            ordered := ordered + [Want(code, if caption == "" then code else caption)];
          }
      }
      assert entries[..|entries|] == entries;
    }

    /** `by_id`. */
    method IndexNodes() returns (byId: map<string, nat>)
      requires Unique(nodes)
      ensures forall id :: id in byId <==> FindNode(nodes, id).Some?
      ensures forall id :: id in byId ==> byId[id] < |nodes| && nodes[byId[id]] == FindNode(nodes, id).value
    {
      byId := map[];
      for i := 0 to |nodes|
        invariant forall id :: id in byId <==> FindNode(nodes[..i], id).Some?
        invariant forall id :: id in byId ==> byId[id] < i && nodes[byId[id]] == FindNode(nodes[..i], id).value
      {
        assert nodes[..i + 1][..i] == nodes[..i];
        byId := byId[nodes[i].id := i];
      }
      assert nodes[..|nodes|] == nodes;
    }

    /** The items the classification is linked to, by code. */
    method CollectItems(cid: string, byId: map<string, nat>) returns (existing: map<string, seq<string>>)
      requires forall id :: id in byId <==> FindNode(nodes, id).Some?
      requires forall id :: id in byId ==> byId[id] < |nodes| && nodes[byId[id]] == FindNode(nodes, id).value
      ensures Collected(View(), cid, |edges|, existing)
    {
      hide Collected;
      existing := map[];
      NothingCollected(View(), cid);
      for i := 0 to |edges|
        invariant Collected(View(), cid, i, existing)
      {
        CollectStep(View(), cid, i, existing);
        var e := edges[i];
        if e.typ != HAS_ITEM || e.source != cid {
          continue;
        }
        if e.target !in byId || nodes[byId[e.target]].typ != ITEM {
          continue;
        }
        var code := nodes[byId[e.target]].code;
        if code.None? {
          continue;
        }
        var so := if code.value in existing then existing[code.value] else [];
        existing := existing[code.value := so + [e.target]];
      }
    }

    /** `_sync_items`: updates and creations first, then removals. */
    method SyncItems(p: Node)
      requires Unique(nodes)
      modifies this
      ensures View() == Sync(old(View()), derive, p)
    {
      hide Collected, Found, Select, FindNode;
      if p.codes.Unreadable? {
        return;
      }
      ghost var g := View();
      var ws := [];
      if p.codes.Listed? {
        ws := OrderCodes(p.codes.entries);
      }
      DistinctWanted(p);
      var byId := IndexNodes();
      var existing := CollectItems(p.id, byId);
      CreateAndUpdate(p, ws, byId, existing);
      SameFlags(g, p.id, ws);
      RemoveUnwanted(g, p, ws, byId, existing);
    }

    method CreateAndUpdate(p: Node, ws: seq<Want>, byId: map<string, nat>, existing: map<string, seq<string>>)
      requires Unique(nodes) && DistinctWants(ws)
      requires forall id :: id in byId <==> FindNode(nodes, id).Some?
      requires forall id :: id in byId ==> byId[id] < |nodes| && nodes[byId[id]] == FindNode(nodes, id).value
      requires Collected(View(), p.id, |edges|, existing)
      modifies this
      ensures nodes == RefreshAll(old(View()), p.id, ws) + NewItems(old(View()), derive, p, ws, |ws|)
      ensures edges == old(edges) + NewLinks(old(View()), derive, p, ws, |ws|)
    {
      hide Collected, RefreshAll, Lead, Unique, DistinctWants, NewItem, NewLink, FindNode;
      ghost var g := View();
      RefreshNothing(g, p.id);
      assert ws[..0] == [];
      for k := 0 to |ws|
        invariant nodes == RefreshAll(g, p.id, ws[..k]) + NewItems(g, derive, p, ws, k)
        invariant edges == g.edges + NewLinks(g, derive, p, ws, k)
      {
        LeadCollected(g, p.id, existing, ws[k].code);
        RefreshAllSize(g, p.id, ws[..k]);
        if ws[k].code in existing && existing[ws[k].code] != [] {
          var id := existing[ws[k].code][0];
          LeadIs(g, p.id, ws[k].code);
          FindNodeIff(g.nodes, id);
          var idx := byId[id];
          RefreshStep(g, p.id, ws, k, idx);
          if !nodes[idx].generated {
            continue;
          }
          if nodes[idx].name != ws[k].caption || nodes[idx].position != Some(k) {
            nodes := nodes[idx := nodes[idx].(name := ws[k].caption, position := Some(k))];
          }
        } else {
          NoRefresh(g, p.id, ws, k);
          nodes := nodes + [NewItem(derive, p, ws[k], k)];
          edges := edges + [NewLink(derive, p, ws[k])];
        }
      }
      assert ws[..|ws|] == ws;
    }

    method RemoveUnwanted(ghost g: Graph, p: Node, ws: seq<Want>, byId: map<string, nat>, existing: map<string, seq<string>>)
      requires Collected(g, p.id, |g.edges|, existing)
      requires forall id :: id in byId <==> FindNode(g.nodes, id).Some?
      requires forall id :: id in byId ==> byId[id] < |g.nodes| && g.nodes[byId[id]] == FindNode(g.nodes, id).value
      requires |g.nodes| <= |nodes| && forall i :: 0 <= i < |g.nodes| ==> nodes[i].generated == g.nodes[i].generated
      modifies this
      ensures nodes == Select(old(nodes), KeepsNode(Doomed(g, p.id, ws)))
      ensures edges == Select(old(edges), KeepsEdge(Doomed(g, p.id, ws)))
    {
      hide Collected, FindNode, WantIndex, Doomed, DoomedUnder, Select, GeneratedAmong, Targets, KeepsNode, KeepsEdge;
      var items := nodes;
      ghost var gone: set<string> := {};
      var left := existing.Keys;
      NothingDropped(nodes, edges);
      NoneDoomed(g, p.id, ws);
      assert existing.Keys - left == {};
      while left != {}
        invariant left <= existing.Keys
        invariant gone == DoomedUnder(g, p.id, ws, existing.Keys - left)
        invariant nodes == Select(items, KeepsNode(gone)) && edges == Select(old(edges), KeepsEdge(gone))
      {
        var code :| code in left;
        DoomedStep(g, p.id, ws, existing.Keys - left, code);
        LeadCollected(g, p.id, existing, code);
        assert existing.Keys - (left - {code}) == existing.Keys - left + {code};
        left := left - {code};
        if WantIndex(ws, code).Some? {
          continue;
        }
        var ids := existing[code];
        ghost var before := gone;
        AmongNone(g.nodes);
        for j := 0 to |ids|
          invariant gone == before + GeneratedAmong(g.nodes, ids[..j])
          invariant nodes == Select(items, KeepsNode(gone)) && edges == Select(old(edges), KeepsEdge(gone))
        {
          CollectedAreNodes(g, p.id, code, ids[j]);
          AmongStep(g.nodes, ids, j);
          var item := items[byId[ids[j]]];
          if !item.generated {
            continue;
          }
          DropNodesTwice(items, gone, {ids[j]});
          DropEdgesTwice(old(edges), gone, {ids[j]});
          gone := gone + {ids[j]};
          nodes := Select(nodes, KeepsNode({ids[j]}));
          edges := Select(edges, KeepsEdge({ids[j]}));
        }
        assert ids[..|ids|] == ids;
      }
      assert existing.Keys - left == existing.Keys;
      AllDoomed(g, p.id, ws, existing);
    }

    /** The whole script, with its validation at the end. */
    method Migrate(createItems: bool) returns (ok: bool)
      requires Ready(Retyped(View()), derive) || Sound(Retyped(View()), derive)
      modifies this
      ensures ok && View() == Migrated(old(View()), derive, createItems)
      ensures OthersRetyped(old(nodes), nodes)
      ensures createItems && Ready(Retyped(old(View())), derive) ==>
        forall p :: p in nodes && p.typ == "Classification" && !p.codes.Unreadable? ==> ItemsMatch(View(), p)
    {
      hide Ready, Sound, Sync, SyncAll, Accepted, Unique, RetypeAll, Select, Migrated, Retype, OthersRetyped, ItemsMatch, Becomes;
      ghost var g := Retyped(View());
      RetypeNodes();
      assert View() == g;
      if createItems {
        var parents := Select(nodes, IsParent());
        assert parents[..0] == [];
        NoPassYet(g, derive);
        for i := 0 to |parents|
          invariant View() == SyncAll(g, derive, parents[..i])
        {
          StillUnique(g, derive, parents[..i]);
          NextPass(g, derive, parents, i);
          SyncItems(parents[i]);
        }
        assert parents[..|parents|] == parents;
        MigratedIs(old(View()), derive);
        MigratedIsAccepted(old(View()), derive);
        MigrationIs(old(View()), derive);
      } else {
        RetypedIsAccepted(old(View()), derive);
        MigratedIs(old(View()), derive);
        NothingMore(g);
        OthersFollow(old(View()), g);
      }
      ok := Validate();
    }

    method Validate() returns (ok: bool)
      ensures ok <==> Accepted(View())
    {
      var whole := forall e :: e in edges ==> (exists n :: n in nodes && n.id == e.source) && (exists n :: n in nodes && n.id == e.target);
      assert whole <==> NoDangling(View());
      hide NoDangling, HasId;
      var nodesOnce := forall i, j :: 0 <= i < j < |nodes| ==> nodes[i].id != nodes[j].id;
      var edgesOnce := forall i, j :: 0 <= i < j < |edges| ==> edges[i].id != edges[j].id;
      assert (nodesOnce <==> Unique(nodes)) && (edgesOnce <==> UniqueEdges(edges));
      hide Unique, UniqueEdges;
      ok := whole && nodesOnce && edgesOnce && forall n :: n in nodes ==> n.typ != "InstanceVariable";
    }
  }

  lemma MigratedIs(g: Graph, derive: Derive)
    ensures Migrated(g, derive, true) == SyncAll(Retyped(g), derive, Select(Retyped(g).nodes, IsParent()))
    ensures Migrated(g, derive, false) == Retyped(g)
  {
  }

  lemma RefreshNothing(g: Graph, cid: string)
    ensures RefreshAll(g, cid, []) == g.nodes
  {
    hide Lead;
  }

  lemma NothingMore(g: Graph)
    ensures SameOthers(g, g)
  {
  }

  lemma NoPassYet(g: Graph, derive: Derive)
    ensures SyncAll(g, derive, []) == g
  {
  }

  lemma NextPass(g: Graph, derive: Derive, parents: seq<Node>, i: nat)
    requires i < |parents|
    ensures SyncAll(g, derive, parents[..i + 1]) == Sync(SyncAll(g, derive, parents[..i]), derive, parents[i])
  {
    hide Sync;
    assert parents[..i + 1][..i] == parents[..i];
  }

  lemma UniqueNow(g: Graph, derive: Derive)
    requires Ready(g, derive) || Sound(g, derive)
    ensures Unique(g.nodes) && UniqueEdges(g.edges) && NoDangling(g)
  {
    hide Unique, UniqueEdges, NoDangling, OwnIds, Unshared, FreshIds;
  }

  /** No pass makes two nodes of one id, so the next one finds its items by id. */
  lemma StillUnique(g: Graph, derive: Derive, done: seq<Node>)
    requires Ready(g, derive) || Sound(g, derive)
    requires done <= Parents(g)
    ensures Unique(SyncAll(g, derive, done).nodes)
  {
    hide Ready, Sound, Sync, SyncAll, InStep, LinksTracked, Unique, Select;
    UniqueNow(g, derive);
    UniqueSelect(g.nodes, IsParent());
    if Sound(g, derive) {
      TracksAll(g, derive, done);
      TracksUnique(g, derive, done, SyncAll(g, derive, done));
    } else {
      PassesUnique(g, derive, done);
    }
  }

  lemma PassesUnique(g: Graph, derive: Derive, done: seq<Node>)
    requires Ready(g, derive) && done <= Parents(g) && Unique(Parents(g))
    ensures Unique(SyncAll(g, derive, done).nodes)
  {
    hide Ready, Sync, SyncAll, InStep;
    SelectFacts(g.nodes, IsParent());
    AllPasses(g, derive, done);
    UniqueNow(SyncAll(g, derive, done), derive);
  }

  lemma MigratedIsAccepted(g: Graph, derive: Derive)
    requires Ready(Retyped(g), derive) || Sound(Retyped(g), derive)
    ensures Accepted(Migrated(g, derive, true))
  {
    hide Ready, Sound, Migrated, Retyped, Retype, Tracks, SyncAll;
    if Ready(Retyped(g), derive) {
      MigrationDelivers(g, derive);
    } else {
      var g0 := Retyped(g);
      var t := SyncAll(g0, derive, Parents(g0));
      MigratedIs(g, derive);
      UniqueNow(g0, derive);
      UniqueSelect(g0.nodes, IsParent());
      TracksAll(g0, derive, Parents(g0));
      TracksSound(g0, derive, Parents(g0), t);
      UniqueNow(t, derive);
      EndIsRetyped(g, derive, t);
      RetypedIsAccepted(t, derive);
    }
  }

  lemma RetypedIsAccepted(g: Graph, derive: Derive)
    requires Ready(Retyped(g), derive) || Sound(Retyped(g), derive)
    ensures Accepted(Retyped(g))
  {
    hide Retype, Ready, Sound;
    UniqueNow(Retyped(g), derive);
    forall n | n in Retyped(g).nodes ensures n.typ != "InstanceVariable" {
      var i :| 0 <= i < |g.nodes| && Retyped(g).nodes[i] == n;
      RetypeTwice(g.nodes[i]);
    }
  }

  lemma NothingDropped(nodes: seq<Node>, edges: seq<Edge>)
    ensures Select(nodes, KeepsNode({})) == nodes && Select(edges, KeepsEdge({})) == edges
  {
    SelectAll(nodes, KeepsNode({}));
    SelectAll(edges, KeepsEdge({}));
  }

  lemma NoneDoomed(g: Graph, cid: string, ws: seq<Want>)
    ensures DoomedUnder(g, cid, ws, {}) == {}
  {
  }

  lemma CollectedAreNodes(g: Graph, cid: string, code: string, id: string)
    requires id in Targets(Found(g, cid, code))
    ensures FindNode(g.nodes, id).Some?
  {
    TargetsAre(Found(g, cid, code), id);
    var e :| e in Found(g, cid, code) && e.target == id;
    FoundIs(g, cid, code, e);
    LinkIs(g.nodes, cid, e);
  }

  lemma WantsPush(ws: seq<Want>, w: Want)
    ensures forall c :: Wants(ws + [w], c) <==> Wants(ws, c) || c == w.code
  {
    assert (ws + [w])[|ws|] == w;
    forall c | Wants(ws, c) ensures Wants(ws + [w], c) {
      var i :| 0 <= i < |ws| && ws[i].code == c;
      assert (ws + [w])[i].code == c;
    }
  }

  lemma SameFlags(g: Graph, cid: string, ws: seq<Want>)
    ensures forall i :: 0 <= i < |g.nodes| ==> RefreshAll(g, cid, ws)[i].generated == g.nodes[i].generated
  {
    hide Refresh;
    forall i | 0 <= i < |g.nodes| ensures RefreshAll(g, cid, ws)[i].generated == g.nodes[i].generated {
      RefreshKeeps(g, cid, ws, g.nodes[i]);
    }
  }

  lemma RefreshAllSize(g: Graph, cid: string, ws: seq<Want>)
    ensures |RefreshAll(g, cid, ws)| == |g.nodes|
  {
  }

  lemma LeadCollected(g: Graph, cid: string, existing: map<string, seq<string>>, code: string)
    requires Collected(g, cid, |g.edges|, existing)
    ensures var ids := Lookup(existing, code).GetOr([]);
            && ids == Targets(Found(g, cid, code))
            && Lead(g, cid, code) == if ids == [] then None else Some(ids[0])
  {
    assert g.edges[..|g.edges|] == g.edges;
    hide Select;
    assert Lookup(existing, code).GetOr([]) == Targets(Found(g, cid, code));
  }
}
