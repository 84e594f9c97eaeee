/**
 The shared-session document, its ops, and what applying one op means: the
 specification that the imperative `SessionStore` refines.

 An annotation dict is split into its bookkeeping entries, which are fields of
 `Ann`, and every other entry, which stays a JSON dict in `content`.
 */
module SessionModel {
  import opened Values
  import opened Lists

  // ---------------------------------------------------------------- document

  datatype Pos = Pos(x: real, y: real)

  const ORIGIN := Pos(0.0, 0.0)

  datatype AnnType = Group | Note | Text | Label | Line | Shape | Icon | VoteDot | Image | Freehand

  /** The `type` (or legacy `kind`) entry of an incoming annotation. */
  datatype RawType = Known(t: AnnType) | ArrowAlias | Unrecognised

  datatype Ann = Ann(
    id: string,
    typ: AnnType,
    version: int,
    fieldVersions: map<string, int>,
    createdBy: Json,
    updatedAt: int,
    content: Dict)

  /** The lists of ids that ops can add to and take from. */
  datatype Flag = HiddenNode | HiddenEdge | DimmedNode | DimmedEdge

  datatype Doc = Doc(
    nodeRefs: seq<string>,
    positions: map<string, Pos>,
    hiddenNodes: seq<string>,
    hiddenEdges: seq<string>,
    dimmedNodes: seq<string>,
    dimmedEdges: seq<string>,
    intensity: real,
    annotations: seq<Ann>)
  {
    function Flagged(f: Flag): seq<string> {
      match f
      case HiddenNode => hiddenNodes
      case HiddenEdge => hiddenEdges
      case DimmedNode => dimmedNodes
      case DimmedEdge => dimmedEdges
    }

    function WithFlagged(f: Flag, ids: seq<string>): Doc {
      match f
      case HiddenNode => this.(hiddenNodes := ids)
      case HiddenEdge => this.(hiddenEdges := ids)
      case DimmedNode => this.(dimmedNodes := ids)
      case DimmedEdge => this.(dimmedEdges := ids)
    }
  }

  const EMPTY_DOC := Doc([], map[], [], [], [], [], 1.0, [])

  /** The index of the first annotation with this id, or the length when there is none. */
  function IndexOf(anns: seq<Ann>, id: string): (i: nat)
    ensures i <= |anns|
    ensures i < |anns| ==> anns[i].id == id
    ensures forall j :: 0 <= j < i ==> anns[j].id != id
  {
    if anns == [] then 0
    else if anns[0].id == id then 0
    else
      var i := IndexOf(anns[1..], id);
      assert forall j :: 0 < j < i + 1 ==> anns[j] == anns[1..][j - 1];
      i + 1
  }

  predicate HasAnn(anns: seq<Ann>, id: string) {
    IndexOf(anns, id) < |anns|
  }

  function Find(anns: seq<Ann>, id: string): Option<Ann> {
    var i := IndexOf(anns, id);
    if i < |anns| then Some(anns[i]) else None
  }

  function OtherThan(id: string): Ann -> bool {
    (a: Ann) => a.id != id
  }

  // --------------------------------------------------------------------- ops

  datatype Payload =
    | NotAnObject
    | Payload(id: Option<string>, rawType: RawType, createdBy: Option<Json>, content: Dict)

  /** The optional `base_version` entry of an `annotation_updated` op. */
  datatype Base = NoBase | NotAnInt | Base(v: int)

  /** One incoming op. `None` stands for a position or number of the wrong shape. A
      delete has its `annotation_id`, empty when absent, and its `id` entry. */
  datatype Op =
    | NodesAdded(ids: seq<string>)
    | NodesRemoved(ids: seq<string>)
    | NodeMoved(id: string, position: Option<Pos>)
    | FlagSet(flag: Flag, ids: seq<string>)
    | FlagCleared(flag: Flag, ids: seq<string>)
    | EdgesFanOut(edges: Json)
    | IntensitySet(level: Option<real>)
    | AnnotationCreated(payload: Payload)
    | AnnotationUpdated(payload: Payload, base: Base)
    | AnnotationDeleted(annotationId: string, fallback: Option<string>)
    | GroupMembershipChanged(groupId: string, members: seq<string>)
    | SessionRenamed(newName: Option<string>)
    | LayoutApplied(places: map<string, Option<Pos>>)
    | Malformed

  /** The applied, normalised op: what the ring holds and subscribers receive. */
  datatype Effect =
    | ENodesAdded(ids: seq<string>)
    | ENodesRemoved(ids: seq<string>)
    | EMoved(id: string, position: Pos)
    | EFlagSet(flag: Flag, ids: seq<string>)
    | EFlagCleared(flag: Flag, ids: seq<string>)
    | EFanOut(edges: Json)
    | EIntensity(value: real)
    | EAnnotation(annotation: Ann)
    | EDeleted(id: string)
    | EMembers(groupId: string, members: seq<string>)
    | ERenamed(newName: Option<string>)
    | ELayout(positions: map<string, Pos>)

  datatype Applied = Applied(seqNo: nat, effect: Effect)

  datatype OpError = BadPayload | TypeChange | AnnotationLimit | GroupNotFound
                   | FieldConflict(id: string, fields: set<string>)

  // ------------------------------------------------------------ activity log

  /** What an activity record says it touched. */
  datatype Target =
    | TAnnotation(id: string)
    | TPosition(id: string)
    | TFlagged(flag: Flag, ids: seq<string>)
    | TIntensity
    | TLayout(nodeIds: set<string>)

  /** A value of the touched target, before or after the op. */
  datatype Snapshot =
    | Absent
    | AnAnnotation(a: Ann)
    | APosition(p: Pos)
    | Ids(ids: seq<string>)
    | ALevel(r: real)
    | Places(places: map<string, Option<Pos>>)

  datatype Change = Change(target: Target, before: Snapshot, after: Snapshot, inverse: Op)

  datatype Record = Record(actor: string, seqNo: nat, at: int, change: Change, undone: bool)

  datatype Session = Session(name: Option<string>, doc: Doc, seqNo: nat, updatedAt: int, log: seq<Record>)

  /** One session as the store holds it: the session, its ring, its deleted-id memory. */
  datatype Store = Store(session: Session, ring: seq<Applied>, deleted: seq<string>)

  datatype Config = Config(maxAnnotations: int, ringSize: nat, maxRecords: int, maxAge: int)

  /** The clock reading, the op's `client_id`, a freshly minted id, and whether to log. */
  datatype Env = Env(now: int, client: string, mint: string, record: bool)

  const DELETED_MEMORY: nat := 200
  const MEMBERS := "member_node_ids"
  const POSITION := "position"

  // ---------------------------------------------------------------- payloads

  function Canonical(t: RawType): Option<AnnType> {
    match t
    case Known(k) => Some(k)
    case ArrowAlias => Some(Line)
    case Unrecognised => None
  }

  predicate NumericPoint(v: Json) {
    && v.Obj?
    && Get(v.entries, "x").Num?
    && Get(v.entries, "y").Num?
  }

  predicate PositionOk(content: Dict) {
    Get(content, POSITION) != Null ==> NumericPoint(Get(content, POSITION))
  }

  /** The canonical type of a payload that passes the boundary checks. */
  function Validate(p: Payload, requireId: bool): Option<AnnType> {
    if p.NotAnObject? then None
    else if Canonical(p.rawType).None? then None
    else if requireId && p.id.None? then None
    else if !PositionOk(p.content) then None
    else Canonical(p.rawType)
  }

  /** The whole stored annotation as a payload, as an inverse op carries it. */
  function PayloadOf(a: Ann): Payload {
    Payload(Some(a.id), Known(a.typ), Some(a.createdBy), a.content)
  }

  /** The content fields a patch moves to a genuinely different value. */
  function Changed(stored: Dict, patch: Dict): set<string> {
    set k | k in patch && patch[k] != Get(stored, k)
  }

  function FieldVersion(a: Ann, field: string): int {
    if field in a.fieldVersions then a.fieldVersions[field] else 1
  }

  function Conflicts(a: Ann, patch: Dict, base: int): set<string> {
    set k | k in Changed(a.content, patch) && FieldVersion(a, k) > base
  }

  function Merge(a: Ann, p: Payload, now: int): Ann
    requires p.Payload?
  {
    var changed := Changed(a.content, p.content);
    Ann(a.id, a.typ, a.version + 1,
        a.fieldVersions + (map k | k in changed :: a.version + 1),
        p.createdBy.GetOr(a.createdBy), now, a.content + p.content)
  }

  function DropMembers(a: Ann, drop: seq<string>): Ann {
    if MEMBERS in a.content && a.content[MEMBERS].List? then
      a.(content := a.content[MEMBERS := List(Select(a.content[MEMBERS].items, NotNaming(drop)))])
    else a
  }

  function NotNaming(drop: seq<string>): Json -> bool {
    (v: Json) => !(v.Str? && v.s in drop)
  }

  function SetMembers(a: Ann, members: seq<string>): Ann {
    a.(content := a.content[MEMBERS := List(seq(|members|, i requires 0 <= i < |members| => Str(members[i])))])
  }

  function DropNodes(doc: Doc, drop: seq<string>): Doc {
    doc.(nodeRefs := RemoveAll(doc.nodeRefs, drop),
         positions := map k | k in doc.positions && k !in drop :: doc.positions[k],
         hiddenNodes := RemoveAll(doc.hiddenNodes, drop),
         dimmedNodes := RemoveAll(doc.dimmedNodes, drop),
         annotations := seq(|doc.annotations|, i requires 0 <= i < |doc.annotations| =>
           DropMembers(doc.annotations[i], drop)))
  }

  function Clamp(v: real): real {
    if v > 1.0 then 1.0 else if v < 0.0 then 0.0 else v
  }

  /** `annotation_id or id`: an empty `annotation_id` counts as absent. */
  function DeletedId(annotationId: string, fallback: Option<string>): Option<string> {
    if annotationId != "" then Some(annotationId) else fallback
  }

  /** The ids an op deletes: one, or none. */
  function DeletedIds(op: Op): seq<string> {
    match op
    case AnnotationDeleted(annotationId, fallback) =>
      var id := DeletedId(annotationId, fallback);
      if id.Some? then [id.value] else []
    case _ => []
  }

  predicate Deleting(op: Op, id: string) {
    op.AnnotationDeleted? && DeletedId(op.annotationId, op.fallback) == Some(id)
  }

  /** The delete an inverse carries: it names the id under `annotation_id` only, so
      of the empty id it names nothing. */
  function DeleteOf(id: string): Op {
    AnnotationDeleted(id, None)
  }

  // ---------------------------------------------------------- applying an op

  /** What one op would do to a session, before it is numbered and recorded. */
  datatype Plan =
    | Reject(error: OpError)
    | Drop
    | Step(name: Option<string>, doc: Doc, deleted: seq<string>, effect: Effect, change: Option<Change>)

  datatype Outcome =
    | Rejected(error: OpError)
    | Dropped
    | Done(store: Store, applied: Applied)

  function PlanOp(cfg: Config, s: Session, deleted: seq<string>, op: Op, env: Env): Plan {
    match op
    case NodesAdded(ids) =>
      Step(s.name, s.doc.(nodeRefs := Union(s.doc.nodeRefs, ids)), deleted, ENodesAdded(ids), None)
    case NodesRemoved(ids) =>
      Step(s.name, DropNodes(s.doc, ids), deleted, ENodesRemoved(ids), None)
    case NodeMoved(id, position) => PlanMove(s, deleted, id, position)
    case FlagSet(flag, ids) => PlanFlagSet(s, deleted, flag, ids)
    case FlagCleared(flag, ids) => PlanFlagCleared(s, deleted, flag, ids)
    case EdgesFanOut(edges) =>
      Step(s.name, s.doc, deleted, EFanOut(edges), None)
    case IntensitySet(level) => PlanIntensity(s, deleted, level)
    case AnnotationCreated(payload) => PlanCreate(cfg, s, deleted, payload, env)
    case AnnotationUpdated(payload, base) => PlanUpdate(s, deleted, payload, base, env)
    case AnnotationDeleted(annotationId, fallback) =>
      var id := DeletedId(annotationId, fallback);
      if id.None? then Reject(BadPayload) else PlanDelete(s, deleted, id.value)
    case GroupMembershipChanged(groupId, members) => PlanGroup(s, deleted, groupId, members, env)
    case SessionRenamed(newName) =>
      Step(newName, s.doc, deleted, ERenamed(newName), None)
    case LayoutApplied(places) => PlanLayout(s, deleted, places)
    case Malformed => Reject(BadPayload)
  }

  function PlanMove(s: Session, deleted: seq<string>, id: string, position: Option<Pos>): Plan {
    if position.None? then Reject(BadPayload)
    else
      var before := Lookup(s.doc.positions, id);
      Step(s.name, s.doc.(positions := s.doc.positions[id := position.value]), deleted,
           EMoved(id, position.value),
           Some(Change(TPosition(id), PositionSnapshot(before), APosition(position.value),
                       NodeMoved(id, Some(before.GetOr(ORIGIN))))))
  }

  /** Hiding and dimming: only ids that were not in the list yet are logged. */
  function PlanFlagSet(s: Session, deleted: seq<string>, flag: Flag, ids: seq<string>): Plan {
    var held := s.doc.Flagged(flag);
    var novel := SortedSet(Select(ids, Outside(held)));
    Step(s.name, s.doc.WithFlagged(flag, Union(held, ids)), deleted, EFlagSet(flag, ids),
         if novel == [] || flag == HiddenEdge then None
         else Some(Change(TFlagged(flag, novel), Ids([]), Ids(novel), FlagCleared(flag, novel))))
  }

  /** Showing and undimming: only ids that were in the list are logged. */
  function PlanFlagCleared(s: Session, deleted: seq<string>, flag: Flag, ids: seq<string>): Plan {
    var held := s.doc.Flagged(flag);
    var novel := SortedSet(Select(ids, Inside(held)));
    Step(s.name, s.doc.WithFlagged(flag, RemoveAll(held, ids)), deleted, EFlagCleared(flag, ids),
         if novel == [] || flag == HiddenEdge then None
         else Some(Change(TFlagged(flag, novel), Ids(novel), Ids([]), FlagSet(flag, novel))))
  }

  function PlanIntensity(s: Session, deleted: seq<string>, level: Option<real>): Plan {
    if level.None? then Reject(BadPayload)
    else
      var value, before := Clamp(level.value), s.doc.intensity;
      Step(s.name, s.doc.(intensity := value), deleted, EIntensity(value),
           if value == before then None
           else Some(Change(TIntensity, ALevel(before), ALevel(value), IntensitySet(Some(before)))))
  }

  function PlanLayout(s: Session, deleted: seq<string>, places: map<string, Option<Pos>>): Plan {
    if exists k :: k in places && places[k].None? then Reject(BadPayload)
    else
      var normal := map k | k in places && places[k].Some? :: places[k].value;
      var positions := s.doc.positions;
      Step(s.name, s.doc.(positions := positions + normal), deleted, ELayout(normal),
           Some(Change(TLayout(normal.Keys),
                       Places(map k | k in normal :: Lookup(positions, k)),
                       Places(map k | k in normal :: Some(normal[k])),
                       LayoutApplied(map k | k in normal :: Some(Lookup(positions, k).GetOr(ORIGIN))))))
  }

  function PositionSnapshot(p: Option<Pos>): Snapshot {
    match p
    case None => Absent
    case Some(q) => APosition(q)
  }

  function Inside(keep: seq<string>): string -> bool {
    x => x in keep
  }

  /** `annotation_created`: a new annotation, or an in-place upsert of a live one. */
  function PlanCreate(cfg: Config, s: Session, deleted: seq<string>, p: Payload, env: Env): Plan {
    var t := Validate(p, false);
    var anns := s.doc.annotations;
    if t.None? then Reject(BadPayload)
    else if p.id.Some? && p.id.value in deleted then Drop
    else if p.id.Some? && HasAnn(anns, p.id.value) then
      var i := IndexOf(anns, p.id.value);
      if anns[i].typ != t.value then Reject(TypeChange)
      else PlanMerge(s, deleted, i, p, env)
    else if |anns| >= cfg.maxAnnotations then Reject(AnnotationLimit)
    else
      var a := Ann(p.id.GetOr(env.mint), t.value, 1, map[], p.createdBy.GetOr(Str(env.client)), env.now, p.content);
      Step(s.name, s.doc.(annotations := anns + [a]), deleted, EAnnotation(a),
           Some(Change(TAnnotation(a.id), Absent, AnAnnotation(a), DeleteOf(a.id))))
  }

  /** The shared tail of an upsert and an update: merge, version, log the prior value. */
  function PlanMerge(s: Session, deleted: seq<string>, i: nat, p: Payload, env: Env): Plan
    requires i < |s.doc.annotations| && p.Payload?
  {
    var prior := s.doc.annotations[i];
    var merged := Merge(prior, p, env.now);
    Step(s.name, s.doc.(annotations := s.doc.annotations[i := merged]), deleted, EAnnotation(merged),
         Some(Change(TAnnotation(prior.id), AnAnnotation(prior), AnAnnotation(merged),
                     AnnotationUpdated(PayloadOf(prior), NoBase))))
  }

  function PlanUpdate(s: Session, deleted: seq<string>, p: Payload, base: Base, env: Env): Plan {
    var t := Validate(p, true);
    var anns := s.doc.annotations;
    if t.None? then Reject(BadPayload)
    else if !HasAnn(anns, p.id.value) then Drop
    else
      var i := IndexOf(anns, p.id.value);
      if anns[i].typ != t.value then Reject(TypeChange)
      else if base.NotAnInt? then Reject(BadPayload)
      else if base.Base? && Conflicts(anns[i], p.content, base.v) != {} then
        Reject(FieldConflict(p.id.value, Conflicts(anns[i], p.content, base.v)))
      else PlanMerge(s, deleted, i, p, env)
  }

  function PlanDelete(s: Session, deleted: seq<string>, id: string): Plan {
    var removed := Find(s.doc.annotations, id);
    Step(s.name, s.doc.(annotations := Select(s.doc.annotations, OtherThan(id))),
         Last(deleted + [id], DELETED_MEMORY), EDeleted(id),
         if removed.None? then None
         else Some(Change(TAnnotation(id), AnAnnotation(removed.value), Absent,
                          AnnotationCreated(PayloadOf(removed.value)))))
  }

  function PlanGroup(s: Session, deleted: seq<string>, groupId: string, members: seq<string>, env: Env): Plan {
    var i := IndexOf(s.doc.annotations, groupId);
    if i == |s.doc.annotations| || s.doc.annotations[i].typ != Group then Reject(GroupNotFound)
    else
      var g := SetMembers(s.doc.annotations[i], members).(updatedAt := env.now);
      Step(s.name, s.doc.(annotations := s.doc.annotations[i := g]), deleted, EMembers(groupId, members), None)
  }

  /** Retention: drop what is too old, then keep the newest records. */
  function Prune(cfg: Config, log: seq<Record>, now: int): seq<Record> {
    var kept := if cfg.maxAge > 0 then Select(log, NotOlderThan(now - cfg.maxAge)) else log;
    if cfg.maxRecords > 0 then Last(kept, cfg.maxRecords) else kept
  }

  function NotOlderThan(cutoff: int): Record -> bool {
    (r: Record) => r.at >= cutoff
  }

  function ApplyOp(cfg: Config, st: Store, op: Op, env: Env): Outcome {
    match PlanOp(cfg, st.session, st.deleted, op, env)
    case Reject(e) => Rejected(e)
    case Drop => Dropped
    case Step(name, doc, deleted, effect, change) =>
      var n := st.session.seqNo + 1;
      var applied := Applied(n, effect);
      var log :=
        if env.record && change.Some? && env.client != "" then
          Prune(cfg, st.session.log + [Record(env.client, n, env.now, change.value, false)], env.now)
        else st.session.log;
      Done(Store(Session(name, doc, n, env.now, log), Last(st.ring + [applied], cfg.ringSize), deleted), applied)
  }

  /** The annotation an op is aimed at, when that annotation exists. */
  function TargetOf(op: Op, doc: Doc): Option<string> {
    var id :=
      match op
      case AnnotationUpdated(p, _) => if p.Payload? then p.id else None
      case AnnotationCreated(p) => if p.Payload? then p.id else None
      case AnnotationDeleted(annotationId, fallback) => DeletedId(annotationId, fallback)
      case GroupMembershipChanged(groupId, _) => Some(groupId)
      case _ => None;
    if id.Some? && HasAnn(doc.annotations, id.value) then id else None
  }

  // ---------------------------------------------------------------- catch-up

  /** The ops after `since` still in the ring, or `None` when one of them is gone. */
  function OpsSince(st: Store, since: int): Option<seq<Applied>> {
    if since >= st.session.seqNo then Some([])
    else if st.ring == [] then None
    else if st.ring[0].seqNo > since + 1 then None
    else Some(Select(st.ring, After(since)))
  }

  function After(since: int): Applied -> bool {
    (a: Applied) => a.seqNo > since
  }
}
