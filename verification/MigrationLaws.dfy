/**
 What the migration delivers, said of the nodes, the edges and the code lists
 themselves: how a node is retyped, which items a classification has for its codes,
 what a made item looks like, and that everything else stays.
 */
module MigrationLaws {
  import opened Values
  import opened Lists
  import opened Migration
  import opened MigrationFacts
  import opened MigrationExact

  // ---------------------------------------------------------------- retyping

  /** The subtypes with this one, added at the end if it is new. */
  ghost predicate Gains(was: seq<string>, now: seq<string>, subtype: string) {
    now == if subtype in was then was else was + [subtype]
  }

  function IsNot(marker: string): string -> bool {
    s => s != marker
  }

  /** What a node becomes. An instance variable is a variable from now on and says what it
      was. A code list that is declared a classification, or bears the marker, becomes a
      declared classification, a version or a series, and loses the marker. Nothing else
      changes. */
  ghost predicate Becomes(n: Node, n': Node) {
    && n' == n.(typ := n'.typ, subtypes := n'.subtypes, declared := n'.declared)
    && (n.typ == "InstanceVariable" ==>
          n'.typ == "Variable" && n'.declared == n.declared && Gains(n.subtypes, n'.subtypes, "InstanceVariable"))
    && (n.typ == "CodeList" && (n.declared || "Statistical Classification" in n.subtypes) ==>
          && n'.typ == "Classification" && n'.declared
          && exists gained: seq<string> ::
               && Gains(n.subtypes, gained, if n.versioned then "ClassificationVersion" else "ClassificationSeries")
               && Kept(n'.subtypes, gained, IsNot("Statistical Classification")))
    && (n.typ == "InstanceVariable" || (n.typ == "CodeList" && (n.declared || "Statistical Classification" in n.subtypes)) || n' == n)
  }

  lemma RetypeBecomes(n: Node)
    ensures Becomes(n, Retype(n))
  {
    hide Select, Kept;
    var gained := WithSubtype(n.subtypes, if n.versioned then "ClassificationVersion" else "ClassificationSeries");
    SelectSame(gained, Outside([MARKER]), IsNot(MARKER));
    SelectKeeps(gained, IsNot(MARKER));
  }

  // ------------------------------------------------------------- the code list

  function CodesOf(entries: seq<Entry>): set<string> {
    set e | e in entries && e.Entry? :: e.code
  }

  /** The entry is readable and the first of its code. */
  predicate FirstOfCode(entries: seq<Entry>, k: nat) {
    k < |entries| && entries[k].Entry? && entries[k].code !in CodesOf(entries[..k])
  }

  function LabelOf(e: Entry): string
    requires e.Entry?
  {
    if e.caption != "" then e.caption else e.code
  }

  lemma {:induction false} OrderedSize(entries: seq<Entry>)
    ensures |Ordered(entries)| == |CodesOf(entries)|
  {
    if entries != [] {
      var k := |entries| - 1;
      OrderedSize(entries[..k]);
      CodesStep(entries);
      hide CodesOf;
    }
  }

  lemma CodesStep(entries: seq<Entry>)
    requires entries != []
    ensures var k := |entries| - 1;
            CodesOf(entries) == CodesOf(entries[..k]) + if entries[k].Entry? then {entries[k].code} else {}
    ensures var ws, codes := Ordered(entries[..|entries| - 1]), CodesOf(entries[..|entries| - 1]);
            forall c :: Wants(ws, c) <==> c in codes
  {
    OrderedDistinct(entries[..|entries| - 1]);
    hide Ordered;
    var before := entries[..|entries| - 1];
    assert forall e :: e in entries <==> e in before || e == entries[|entries| - 1];
  }

  lemma {:induction false} OrderedGrows(entries: seq<Entry>, k: nat)
    requires k <= |entries|
    ensures Ordered(entries[..k]) <= Ordered(entries)
  {
    if k < |entries| {
      var n := |entries| - 1;
      assert entries[..n][..k] == entries[..k];
      OrderedGrows(entries[..n], k);
    } else {
      assert entries[..k] == entries;
    }
  }

  /** A code is wanted at the place its first entry has among the distinct codes, under
      that entry's label. */
  lemma OrderedIs(entries: seq<Entry>, k: nat)
    requires FirstOfCode(entries, k)
    ensures var at := |CodesOf(entries[..k])|;
            at < |Ordered(entries)| && Ordered(entries)[at] == Want(entries[k].code, LabelOf(entries[k]))
  {
    OrderedSize(entries[..k]);
    OrderedGrows(entries, k + 1);
    OrderedDistinct(entries[..k]);
    assert entries[..k + 1][..k] == entries[..k];
    var before := Ordered(entries[..k]);
    assert !Wants(before, entries[k].code);
    assert Ordered(entries[..k + 1]) == before + [Want(entries[k].code, LabelOf(entries[k]))];
  }

  /** And the other way round: every place is the place of a first entry. */
  lemma {:induction false} WantedAt(entries: seq<Entry>, i: nat) returns (k: nat)
    requires i < |Ordered(entries)|
    ensures FirstOfCode(entries, k) && |CodesOf(entries[..k])| == i
    ensures Ordered(entries)[i] == Want(entries[k].code, LabelOf(entries[k]))
  {
    var n := |entries| - 1;
    OrderedDistinct(entries[..n]);
    if i < |Ordered(entries[..n])| {
      k := WantedAt(entries[..n], i);
      assert entries[..n][..k] == entries[..k];
    } else {
      k := n;
      OrderedSize(entries[..n]);
      assert !Wants(Ordered(entries[..n]), entries[n].code);
    }
  }

  function EntriesOf(p: Node): seq<Entry> {
    if p.codes.Listed? then p.codes.entries else []
  }

  // ---------------------------------------------------------------- the items

  /** The edge makes node `n` an item of the classification under this code. */
  ghost predicate IsItemFor(g: Graph, cid: string, code: string, e: Edge, n: Node) {
    && e.typ == "HAS_ITEM" && e.source == cid && e.target == n.id
    && n in g.nodes && n.typ == "ClassificationItem" && n.code == Some(code)
  }

  /** The first linked item of the entry's code, if it is generated, bears the entry's label
      and its place. */
  ghost predicate HasItem(g: Graph, p: Node, k: nat)
    requires k < |EntriesOf(p)| && EntriesOf(p)[k].Entry?
  {
    var entry := EntriesOf(p)[k];
    exists a, n :: 0 <= a < |g.edges| && IsItemFor(g, p.id, entry.code, g.edges[a], n)
      && (forall b, m :: 0 <= b < a ==> !IsItemFor(g, p.id, entry.code, g.edges[b], m))
      && (n.generated ==> n.name == LabelOf(entry) && n.position == Some(|CodesOf(EntriesOf(p)[..k])|))
  }

  /** Every listed code has its item, and no generated item stands under another code. */
  ghost predicate ItemsMatch(g: Graph, p: Node) {
    && (forall k: nat :: FirstOfCode(EntriesOf(p), k) ==> HasItem(g, p, k))
    && (forall e, n, code :: e in g.edges && IsItemFor(g, p.id, code, e, n) && n.generated ==> code in CodesOf(EntriesOf(p)))
  }

  lemma ItemLinkIs(g: Graph, cid: string, code: string, e: Edge, n: Node)
    requires Unique(g.nodes) && IsItemFor(g, cid, code, e, n)
    ensures LinkCode(g.nodes, cid, e) == Some(code) && FindNode(g.nodes, e.target) == Some(n)
  {
    FindUnique(g.nodes, n);
  }

  lemma InStepMatches(g: Graph, p: Node)
    requires Unique(g.nodes) && !p.codes.Unreadable? && InStep(g, p)
    ensures ItemsMatch(g, p)
  {
    var entries, ws := EntriesOf(p), WantedBy(p);
    assert ws == Ordered(entries);
    hide Unique, Stands, HasItem, IsItemFor, Unwanted;
    forall k: nat | FirstOfCode(entries, k) ensures HasItem(g, p, k) {
      OrderedIs(entries, k);
      assert Stands(g, p.id, ws, |CodesOf(entries[..k])|);
      StandsIsItem(g, p, k);
    }
    forall e, n, code | e in g.edges && IsItemFor(g, p.id, code, e, n) && n.generated ensures code in CodesOf(entries) {
      ItemLinkIs(g, p.id, code, e, n);
      assert !Unwanted(g, p.id, ws, e);
      UnwantedIs(g, p, code, e, n);
    }
  }

  lemma UnwantedIs(g: Graph, p: Node, code: string, e: Edge, n: Node)
    requires LinkCode(g.nodes, p.id, e) == Some(code) && FindNode(g.nodes, e.target) == Some(n) && n.generated
    requires !Unwanted(g, p.id, WantedBy(p), e)
    ensures code in CodesOf(EntriesOf(p))
  {
    OrderedDistinct(EntriesOf(p));
  }

  lemma StandsIsItem(g: Graph, p: Node, k: nat)
    requires Unique(g.nodes) && FirstOfCode(EntriesOf(p), k) && !p.codes.Unreadable?
    requires var at := |CodesOf(EntriesOf(p)[..k])|;
             && at < |WantedBy(p)| && WantedBy(p)[at] == Want(EntriesOf(p)[k].code, LabelOf(EntriesOf(p)[k]))
             && Stands(g, p.id, WantedBy(p), at)
    ensures HasItem(g, p, k)
  {
    var code := EntriesOf(p)[k].code;
    hide Unique;
    FoundFirst(g, p.id, code);
    var a :| 0 <= a < |g.edges| && LinkCode(g.nodes, p.id, g.edges[a]) == Some(code) && Found(g, p.id, code)[0] == g.edges[a]
             && forall b :: 0 <= b < a ==> LinkCode(g.nodes, p.id, g.edges[b]) != Some(code);
    LinkIs(g.nodes, p.id, g.edges[a]);
    var n := FindNode(g.nodes, g.edges[a].target).value;
    FindNodeIff(g.nodes, g.edges[a].target);
    assert IsItemFor(g, p.id, code, g.edges[a], n);
    forall b, m | 0 <= b < a ensures !IsItemFor(g, p.id, code, g.edges[b], m) {
      if IsItemFor(g, p.id, code, g.edges[b], m) {
        ItemLinkIs(g, p.id, code, g.edges[b], m);
      }
    }
  }

  lemma FoundFirst(g: Graph, cid: string, code: string)
    requires Found(g, cid, code) != []
    ensures exists a :: 0 <= a < |g.edges| && LinkCode(g.nodes, cid, g.edges[a]) == Some(code) && Found(g, cid, code)[0] == g.edges[a]
              && forall b :: 0 <= b < a ==> LinkCode(g.nodes, cid, g.edges[b]) != Some(code)
  {
    hide LinkCode;
    var at := SelectIndices(g.edges, LinksTo(g.nodes, cid, code));
    var a := at[0];
    forall b | 0 <= b < a ensures LinkCode(g.nodes, cid, g.edges[b]) != Some(code) {
      assert b !in at;
      assert !LinksTo(g.nodes, cid, code)(g.edges[b]);
    }
  }

  // ---------------------------------------------------------- what a pass makes

  /** A made item: the ids are derived, the label and the place are the entry's. */
  ghost predicate MadeItem(derive: Derive, p: Node, n: Node) {
    exists k: nat :: FirstOfCode(EntriesOf(p), k) && MadeAt(derive, p, n, k)
  }

  ghost predicate MadeAt(derive: Derive, p: Node, n: Node, k: nat)
    requires FirstOfCode(EntriesOf(p), k)
  {
    var entry := EntriesOf(p)[k];
    && n.id == derive(p.id, entry.code) && n.typ == "ClassificationItem" && n.name == LabelOf(entry)
    && n.code == Some(entry.code) && n.position == Some(|CodesOf(EntriesOf(p)[..k])|) && n.generated
    && n.subtypes == [] && !n.declared && !n.versioned && n.codes.Missing?
    && n.rest.Keys == {"description", "summary", "tags", "created_at", "updated_at"}
    && n.rest["description"] == Str("") && n.rest["summary"] == Str("") && n.rest["tags"] == List([])
    && n.rest["created_at"] == Get(p.rest, "created_at") && n.rest["updated_at"] == Get(p.rest, "updated_at")
  }

  /** Whatever is there after a pass was there, but for the name and the place of a
      generated item, or was made for one of the parent's codes; and likewise the links. */
  lemma PassMakes(g: Graph, derive: Derive, p: Node)
    requires Base(g, derive) && Parent(g, p)
    ensures forall n :: n in Sync(g, derive, p).nodes ==>
              || (exists m :: m in g.nodes && n == m.(name := n.name, position := n.position) && (n != m ==> m.generated))
              || MadeItem(derive, p, n)
    ensures forall e :: e in Sync(g, derive, p).edges ==>
              || e in g.edges
              || (exists code :: code in CodesOf(EntriesOf(p))
                    && e == Edge(derive(p.id, "edge:" + code), p.id, derive(p.id, code), "HAS_ITEM"))
  {
    hide Base, Sync, Refresh, Lead, NewItem, NewLink, MadeItem;
    var ws := WantedBy(p);
    forall n | n in Sync(g, derive, p).nodes
      ensures || (exists m :: m in g.nodes && n == m.(name := n.name, position := n.position) && (n != m ==> m.generated))
              || MadeItem(derive, p, n)
    {
      NodesAfter(g, derive, p, n);
      if m :| m in g.nodes && n == Refresh(g, p.id, ws, m) {
        RefreshKeeps(g, p.id, ws, m);
      } else {
        var i :| 0 <= i < |ws| && Lead(g, p.id, ws[i].code).None? && n == NewItem(derive, p, ws[i], i);
        NewItemIsMade(derive, p, i);
      }
    }
    forall e | e in Sync(g, derive, p).edges
      ensures || e in g.edges
              || (exists code :: code in CodesOf(EntriesOf(p))
                    && e == Edge(derive(p.id, "edge:" + code), p.id, derive(p.id, code), "HAS_ITEM"))
    {
      EdgesAfter(g, derive, p, e);
      if e !in g.edges {
        var i :| 0 <= i < |ws| && Lead(g, p.id, ws[i].code).None? && e == NewLink(derive, p, ws[i]);
        NewLinkIs(derive, p, i);
      }
    }
  }

  /** The item stands under a code of the parent that is not listed. */
  ghost predicate Unlisted(g: Graph, p: Node, n: Node) {
    n.generated && exists e, code :: e in g.edges && IsItemFor(g, p.id, code, e, n) && code !in CodesOf(EntriesOf(p))
  }

  /** Exactly the generated items under unlisted codes go, and with them exactly the edges
      that lose an end. */
  lemma PassKeeps(g: Graph, derive: Derive, p: Node)
    requires Base(g, derive) && Parent(g, p)
    ensures forall n :: n in g.nodes ==> (HasId(Sync(g, derive, p).nodes, n.id) <==> !Unlisted(g, p, n))
    ensures forall e :: e in g.edges ==>
              (e in Sync(g, derive, p).edges <==> HasId(Sync(g, derive, p).nodes, e.source) && HasId(Sync(g, derive, p).nodes, e.target))
  {
    var g', doomed := Sync(g, derive, p), Doomed(g, p.id, WantedBy(p));
    assert Unique(g.nodes) && NoDangling(g);
    forall n | n in g.nodes
      ensures n.id in doomed <==> Unlisted(g, p, n)
      ensures HasId(g'.nodes, n.id) <==> n.id !in doomed
    {
      DoomedIsUnlisted(g, p, n);
      FindUnique(g.nodes, n);
      FindAfter(g, derive, p, n.id);
      FindNodeIff(g'.nodes, n.id);
    }
    hide Unlisted, Base, Sync, Doomed, Unique;
    forall e | e in g.edges ensures e in g'.edges <==> HasId(g'.nodes, e.source) && HasId(g'.nodes, e.target) {
      EdgesAfter(g, derive, p, e);
      assert HasId(g.nodes, e.source) && HasId(g.nodes, e.target);
      if e !in g'.edges {
        assert !KeepsEdge(doomed)(e);
      }
    }
  }

  lemma DoomedIsUnlisted(g: Graph, p: Node, n: Node)
    requires Unique(g.nodes) && n in g.nodes
    ensures n.id in Doomed(g, p.id, WantedBy(p)) <==> Unlisted(g, p, n)
  {
    var ws := WantedBy(p);
    FindUnique(g.nodes, n);
    OrderedDistinct(EntriesOf(p));
    hide Unique, Ordered;
    if n.id in Doomed(g, p.id, ws) {
      var e :| e in g.edges && Unwanted(g, p.id, ws, e) && e.target == n.id;
      LinkIs(g.nodes, p.id, e);
      assert IsItemFor(g, p.id, n.code.value, e, n);
    }
    if Unlisted(g, p, n) {
      var e, code :| e in g.edges && IsItemFor(g, p.id, code, e, n) && code !in CodesOf(EntriesOf(p));
      assert Unwanted(g, p.id, ws, e);
    }
  }

  lemma NewItemIsMade(derive: Derive, p: Node, i: nat)
    requires i < |WantedBy(p)|
    ensures MadeItem(derive, p, NewItem(derive, p, WantedBy(p)[i], i))
  {
    var k := WantedAt(EntriesOf(p), i);
    assert MadeAt(derive, p, NewItem(derive, p, WantedBy(p)[i], i), k);
  }

  lemma NewLinkIs(derive: Derive, p: Node, i: nat)
    requires i < |WantedBy(p)|
    ensures var code := WantedBy(p)[i].code;
            code in CodesOf(EntriesOf(p))
            && NewLink(derive, p, WantedBy(p)[i]) == Edge(derive(p.id, "edge:" + code), p.id, derive(p.id, code), "HAS_ITEM")
  {
    var k := WantedAt(EntriesOf(p), i);
    assert EntriesOf(p)[k] in EntriesOf(p);
  }

  // ------------------------------------------------------------- the migration

  /** A node that is no item comes through a migration, retyped and otherwise as it was;
      and what is no item afterwards was there before. */
  ghost predicate OthersRetyped(before: seq<Node>, after: seq<Node>) {
    && (forall n :: n in before && n.typ != "ClassificationItem" ==> exists n' :: n' in after && Becomes(n, n'))
    && (forall n' :: n' in after && n'.typ != "ClassificationItem" ==> exists n :: n in before && Becomes(n, n'))
  }

  lemma RetypedAre(g: Graph)
    ensures forall n :: n in g.nodes ==> Retype(n) in Retyped(g).nodes && Becomes(n, Retype(n))
    ensures forall m :: m in Retyped(g).nodes ==> exists n :: n in g.nodes && m == Retype(n) && Becomes(n, m)
  {
    hide Retype, Becomes;
    forall n | n in g.nodes ensures Retype(n) in Retyped(g).nodes && Becomes(n, Retype(n)) {
      var i :| 0 <= i < |g.nodes| && g.nodes[i] == n;
      assert Retyped(g).nodes[i] == Retype(n);
      RetypeBecomes(n);
    }
    forall m | m in Retyped(g).nodes ensures exists n :: n in g.nodes && m == Retype(n) && Becomes(n, m) {
      var i :| 0 <= i < |g.nodes| && Retyped(g).nodes[i] == m;
      RetypeBecomes(g.nodes[i]);
    }
  }

  lemma ItemsStayItems(n: Node)
    ensures n.typ == ITEM <==> Retype(n).typ == ITEM
  {
  }

  /** The passes leave everything alone that is no item. */
  ghost predicate SameOthers(g: Graph, g': Graph) {
    forall n: Node :: n.typ != ITEM ==> (n in g'.nodes <==> n in g.nodes)
  }

  lemma OthersFollow(g: Graph, g': Graph)
    requires SameOthers(Retyped(g), g')
    ensures OthersRetyped(g.nodes, g'.nodes)
  {
    hide Retype, Becomes, Retyped;
    RetypedAre(g);
    forall n: Node ensures n.typ == ITEM <==> Retype(n).typ == ITEM {
      ItemsStayItems(n);
    }
  }

  lemma ReadyKeepsOthers(g: Graph, derive: Derive)
    requires Ready(g, derive)
    ensures SameOthers(g, SyncAll(g, derive, Parents(g)))
  {
    hide Base, InStep, Sync;
    ReadyUnique(g, derive);
    SelectFacts(g.nodes, IsParent());
    UniqueSelect(g.nodes, IsParent());
    AllPasses(g, derive, Parents(g));
  }

  lemma {:induction false} GoneAreItems(g: Graph, done: seq<Node>, n: Node)
    requires Unique(g.nodes) && n in g.nodes && n.id in GoneBy(g, done)
    ensures n.typ == ITEM
  {
    hide Doomed;
    if n.id !in GoneBy(g, done[..|done| - 1]) {
      var p := done[|done| - 1];
      DoomedAre(g, p, WantedBy(p), n.id);
      FindUnique(g.nodes, n);
    } else {
      GoneAreItems(g, done[..|done| - 1], n);
    }
  }

  lemma {:induction false} OthersUnsaid(g: Graph, done: seq<Node>, n: Node)
    requires Unique(g.nodes) && n in g.nodes && n.typ != ITEM
    ensures Said(g, done, n) == n
  {
    if done != [] {
      var k := |done| - 1;
      var gone := GoneBy(g, done[..k]);
      OthersUnsaid(g, done[..k], n);
      if Leads(g, gone, done[k], n) {
        var e := Left(g, gone, done[k].id, n.code.value)[0];
        LeftIs(g, gone, done[k].id, n.code.value, e);
        FoundIs(g, done[k].id, n.code.value, e);
        LinkIs(g.nodes, done[k].id, e);
        FindUnique(g.nodes, n);
      }
    }
  }

  lemma SoundKeepsOthers(g: Graph, derive: Derive)
    requires Sound(g, derive)
    ensures SameOthers(g, SyncAll(g, derive, Parents(g)))
  {
    SoundParts(g, derive);
    UniqueSelect(g.nodes, IsParent());
    TracksAll(g, derive, Parents(g));
    var t := SyncAll(g, derive, Parents(g));
    hide Sound, Parents, SyncAll, LinksTracked, Unique, GoneBy, Said, MadeFor;
    forall n: Node | n.typ != ITEM ensures n in t.nodes <==> n in g.nodes {
      if n in g.nodes {
        if n.id in GoneBy(g, Parents(g)) {
          GoneAreItems(g, Parents(g), n);
        }
        OthersUnsaid(g, Parents(g), n);
      }
      if n in t.nodes && n !in g.nodes {
        MadeOrSaid(g, derive, t, n);
      }
    }
  }

  lemma MadeOrSaid(g: Graph, derive: Derive, t: Graph, m: Node)
    requires Unique(g.nodes) && NodesTracked(g, derive, Parents(g), t) && m in t.nodes && m.typ != ITEM
    ensures m in g.nodes
  {
    hide Unique, Parents, GoneBy, Said, MadeFor;
    if n :| n in g.nodes && n.id !in GoneBy(g, Parents(g)) && m == Said(g, Parents(g), n) {
      SaidKeeps(g, Parents(g), n);
      OthersUnsaid(g, Parents(g), n);
    } else {
      var q, code :| q in Parents(g) && MadeFor(g, derive, Parents(g), q, code, m);
      MadeIsItem(g, derive, Parents(g), q, code, m);
    }
  }

  /** A migrated graph, in its own terms: nodes are retyped, no instance variable is left,
      and where items are not shared every readable classification has exactly the items
      that its codes ask for, beside those that people wrote, which stay. */
  lemma MigrationIs(g: Graph, derive: Derive)
    requires Ready(Retyped(g), derive) || Sound(Retyped(g), derive)
    ensures var g' := Migrated(g, derive, true);
            && OthersRetyped(g.nodes, g'.nodes)
            && (Ready(Retyped(g), derive) ==>
                  && (forall p :: p in g'.nodes && p.typ == "Classification" && !p.codes.Unreadable? ==> ItemsMatch(g', p))
                  && (forall n :: n in g.nodes && !n.generated ==> exists n' :: n' in g'.nodes && Becomes(n, n')))
  {
    var g0, g' := Retyped(g), Migrated(g, derive, true);
    assert g' == SyncAll(g0, derive, Parents(g0));
    hide Retyped, Migrated, SyncAll, Parents, Ready, Sound, ItemsMatch, Becomes, Retype, OthersRetyped, SameOthers;
    if Ready(g0, derive) {
      ReadyKeepsOthers(g0, derive);
      MigrationDelivers(g, derive);
      ReadyUnique(g', derive);
      forall p | p in g'.nodes && p.typ == CLASSIFICATION && !p.codes.Unreadable? ensures ItemsMatch(g', p) {
        InStepMatches(g', p);
      }
      forall n | n in g.nodes && !n.generated ensures exists n' :: n' in g'.nodes && Becomes(n, n') {
        RetypeBecomes(n);
      }
    } else {
      SoundKeepsOthers(g0, derive);
    }
    OthersFollow(g, g');
  }
}
