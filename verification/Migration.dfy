/**
 The metadata migration: retyping, and classification items that converge on their
 parent's list of codes. `Sync` says in closed form what one parent's pass does;
 the lemmas show that migrating twice is migrating once and that references hold.
 */
module Migration {
  import opened Values
  import opened Lists

  /** One entry of `metadata.codes`; an empty caption stands for a missing one. */
  datatype Entry = Skipped | Entry(code: string, caption: string)

  datatype Codes = Missing | Unreadable | Listed(entries: seq<Entry>)

  /** A node of the file. `rest` is everything the migration does not look at. */
  datatype Node = Node(id: string, typ: string, name: string, subtypes: seq<string>, declared: bool, versioned: bool,
                       codes: Codes, code: Option<string>, position: Option<nat>, generated: bool, rest: Dict)

  datatype Edge = Edge(id: string, source: string, target: string, typ: string)

  datatype Graph = Graph(nodes: seq<Node>, edges: seq<Edge>)

  /** `stable_item_id`: the id derived from a classification and a code. */
  type Derive = (string, string) -> string

  const CLASSIFICATION := "Classification"
  const ITEM := "ClassificationItem"
  const HAS_ITEM := "HAS_ITEM"
  const MARKER := "Statistical Classification"

  // ---------------------------------------------------------------- retyping

  function WithSubtype(subtypes: seq<string>, s: string): seq<string> {
    if s in subtypes then subtypes else subtypes + [s]
  }

  predicate IsClassification(n: Node) {
    n.declared || MARKER in n.subtypes
  }

  /** InstanceVariable to Variable; a declared CodeList to Classification. */
  function Retype(n: Node): Node {
    if n.typ == "InstanceVariable" then
      n.(typ := "Variable", subtypes := WithSubtype(n.subtypes, "InstanceVariable"))
    else if n.typ == "CodeList" && IsClassification(n) then
      var s := WithSubtype(n.subtypes, if n.versioned then "ClassificationVersion" else "ClassificationSeries");
      n.(typ := CLASSIFICATION, subtypes := RemoveAll(s, [MARKER]), declared := true)
    else n
  }

  function RetypeAll(nodes: seq<Node>): seq<Node> {
    seq(|nodes|, i requires 0 <= i < |nodes| => Retype(nodes[i]))
  }

  // ------------------------------------------------------------------ lookups

  /** `by_id.get(id)`: the last node with this id. */
  function FindNode(nodes: seq<Node>, id: string): Option<Node> {
    if nodes == [] then None
    else if nodes[|nodes| - 1].id == id then Some(nodes[|nodes| - 1])
    else FindNode(nodes[..|nodes| - 1], id)
  }

  /** The code of the item that this edge gives the classification, if it does. */
  function LinkCode(nodes: seq<Node>, cid: string, e: Edge): Option<string> {
    if e.typ != HAS_ITEM || e.source != cid then None
    else
      var item := FindNode(nodes, e.target);
      if item.None? || item.value.typ != ITEM then None else item.value.code
  }

  function LinksTo(nodes: seq<Node>, cid: string, code: string): Edge -> bool {
    (e: Edge) => LinkCode(nodes, cid, e) == Some(code)
  }

  /** The classification's edges to items of this code, in order. */
  function Found(g: Graph, cid: string, code: string): seq<Edge> {
    Select(g.edges, LinksTo(g.nodes, cid, code))
  }

  predicate Unique(nodes: seq<Node>) {
    forall i, j :: 0 <= i < j < |nodes| ==> nodes[i].id != nodes[j].id
  }

  predicate UniqueEdges(edges: seq<Edge>) {
    forall i, j :: 0 <= i < j < |edges| ==> edges[i].id != edges[j].id
  }

  ghost predicate HasId(nodes: seq<Node>, id: string) {
    exists n :: n in nodes && n.id == id
  }

  ghost predicate NoDangling(g: Graph) {
    forall e :: e in g.edges ==> HasId(g.nodes, e.source) && HasId(g.nodes, e.target)
  }

  lemma {:induction false} FindNodeIff(nodes: seq<Node>, id: string)
    ensures FindNode(nodes, id).Some? ==> FindNode(nodes, id).value in nodes && FindNode(nodes, id).value.id == id
    ensures FindNode(nodes, id).Some? <==> HasId(nodes, id)
  {
    if nodes != [] {
      FindNodeIff(nodes[..|nodes| - 1], id);
      assert forall n :: n in nodes <==> n in nodes[..|nodes| - 1] || n == nodes[|nodes| - 1];
    }
  }

  lemma FindUnique(nodes: seq<Node>, n: Node)
    requires Unique(nodes) && n in nodes
    ensures FindNode(nodes, n.id) == Some(n)
  {
    FindNodeIff(nodes, n.id);
    assert HasId(nodes, n.id);
  }

  // ------------------------------------------------------- the wanted codes

  datatype Want = Want(code: string, caption: string)

  ghost predicate Wants(ws: seq<Want>, code: string) {
    exists i :: 0 <= i < |ws| && ws[i].code == code
  }

  function WantIndex(ws: seq<Want>, code: string): (r: Option<nat>)
    ensures r.Some? <==> Wants(ws, code)
    ensures r.Some? ==> r.value < |ws| && ws[r.value].code == code
  {
    if ws == [] then None
    else
      var k := |ws| - 1;
      var r := WantIndex(ws[..k], code);
      assert forall i :: 0 <= i < k ==> ws[..k][i] == ws[i];
      if r.Some? then r
      else if ws[k].code == code then Some(k)
      else None
  }

  /** Readable entries, each code once, in order; a missing caption is the code. */
  function Ordered(entries: seq<Entry>): seq<Want> {
    if entries == [] then []
    else
      var k := |entries| - 1;
      var ws := Ordered(entries[..k]);
      match entries[k]
      case Skipped => ws
      case Entry(code, caption) =>
        if WantIndex(ws, code).Some? then ws else ws + [Want(code, if caption == "" then code else caption)]
  }

  function WantedBy(p: Node): seq<Want> {
    if p.codes.Listed? then Ordered(p.codes.entries) else []
  }

  predicate DistinctWants(ws: seq<Want>) {
    forall i, j :: 0 <= i < j < |ws| ==> ws[i].code != ws[j].code
  }

  lemma {:induction false} OrderedDistinct(entries: seq<Entry>)
    ensures DistinctWants(Ordered(entries))
    ensures forall c :: Wants(Ordered(entries), c) <==> exists e :: e in entries && e.Entry? && e.code == c
  {
    if entries != [] {
      var k := |entries| - 1;
      OrderedDistinct(entries[..k]);
      var ws := Ordered(entries[..k]);
      assert forall e :: e in entries <==> e in entries[..k] || e == entries[k];
      forall c
        ensures Wants(Ordered(entries), c) <==> Wants(ws, c) || (entries[k].Entry? && entries[k].code == c)
      {
        if entries[k].Entry? && WantIndex(ws, entries[k].code).None? {
          var ws' := Ordered(entries);
          assert ws'[|ws|].code == entries[k].code;
          assert forall i :: 0 <= i < |ws| ==> ws'[i] == ws[i];
        }
      }
    }
  }

  // ------------------------------------------------------------- one parent

  /** The item that stands for this code: the first one linked. */
  function Lead(g: Graph, cid: string, code: string): Option<string> {
    var found := Found(g, cid, code);
    if found == [] then None else Some(found[0].target)
  }

  /** A generated item that stands for a wanted code takes its caption and position. */
  function Refresh(g: Graph, cid: string, ws: seq<Want>, n: Node): Node {
    if n.code.None? || !n.generated then n
    else
      var i := WantIndex(ws, n.code.value);
      if i.Some? && Lead(g, cid, n.code.value) == Some(n.id) then n.(name := ws[i.value].caption, position := Some(i.value))
      else n
  }

  function RefreshAll(g: Graph, cid: string, ws: seq<Want>): seq<Node> {
    seq(|g.nodes|, i requires 0 <= i < |g.nodes| => Refresh(g, cid, ws, g.nodes[i]))
  }

  function NewItem(derive: Derive, p: Node, w: Want, position: nat): Node {
    Node(derive(p.id, w.code), ITEM, w.caption, [], false, false, Missing, Some(w.code), Some(position), true,
         map["description" := Str(""), "summary" := Str(""), "tags" := List([]),
             "created_at" := Get(p.rest, "created_at"), "updated_at" := Get(p.rest, "updated_at")])
  }

  function NewLink(derive: Derive, p: Node, w: Want): Edge {
    Edge(derive(p.id, "edge:" + w.code), p.id, derive(p.id, w.code), HAS_ITEM)
  }

  /** Items for the first `k` wanted codes that have none yet, in order. */
  function NewItems(g: Graph, derive: Derive, p: Node, ws: seq<Want>, k: nat): seq<Node>
    requires k <= |ws|
  {
    if k == 0 then []
    else NewItems(g, derive, p, ws, k - 1)
         + if Lead(g, p.id, ws[k - 1].code).None? then [NewItem(derive, p, ws[k - 1], k - 1)] else []
  }

  function NewLinks(g: Graph, derive: Derive, p: Node, ws: seq<Want>, k: nat): seq<Edge>
    requires k <= |ws|
  {
    if k == 0 then []
    else NewLinks(g, derive, p, ws, k - 1)
         + if Lead(g, p.id, ws[k - 1].code).None? then [NewLink(derive, p, ws[k - 1])] else []
  }

  /** This edge links a generated item under a code that is not wanted. */
  predicate Unwanted(g: Graph, cid: string, ws: seq<Want>, e: Edge) {
    var code := LinkCode(g.nodes, cid, e);
    && code.Some? && WantIndex(ws, code.value).None?
    && FindNode(g.nodes, e.target).Some? && FindNode(g.nodes, e.target).value.generated
  }

  function Doomed(g: Graph, cid: string, ws: seq<Want>): set<string> {
    set e | e in g.edges && Unwanted(g, cid, ws, e) :: e.target
  }

  function KeepsNode(doomed: set<string>): Node -> bool {
    (n: Node) => n.id !in doomed
  }

  function KeepsEdge(doomed: set<string>): Edge -> bool {
    (e: Edge) => e.source !in doomed && e.target !in doomed
  }

  /** One parent's pass, in closed form. */
  function SyncTo(g: Graph, derive: Derive, p: Node, ws: seq<Want>): Graph {
    var doomed := Doomed(g, p.id, ws);
    Graph(Select(RefreshAll(g, p.id, ws) + NewItems(g, derive, p, ws, |ws|), KeepsNode(doomed)),
          Select(g.edges + NewLinks(g, derive, p, ws, |ws|), KeepsEdge(doomed)))
  }

  function Sync(g: Graph, derive: Derive, p: Node): Graph {
    if p.codes.Unreadable? then g else SyncTo(g, derive, p, WantedBy(p))
  }

  function SyncAll(g: Graph, derive: Derive, parents: seq<Node>): Graph {
    if parents == [] then g
    else Sync(SyncAll(g, derive, parents[..|parents| - 1]), derive, parents[|parents| - 1])
  }

  function IsParent(): Node -> bool {
    (n: Node) => n.typ == CLASSIFICATION
  }

  function Parents(g: Graph): seq<Node> {
    Select(g.nodes, IsParent())
  }

  function Retyped(g: Graph): Graph {
    g.(nodes := RetypeAll(g.nodes))
  }

  function Migrated(g: Graph, derive: Derive, items: bool): Graph {
    if items then SyncAll(Retyped(g), derive, Parents(Retyped(g))) else Retyped(g)
  }

  /** The validation at the end passes. */
  ghost predicate Accepted(g: Graph) {
    && NoDangling(g) && Unique(g.nodes) && UniqueEdges(g.edges)
    && forall n :: n in g.nodes ==> n.typ != "InstanceVariable"
  }
}
