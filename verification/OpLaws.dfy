/**
 What each op does to a session, said of the session's own fields: which entries
 appear, which go, in what order the rest stays, what is refused, and what the
 activity log gains.
 */
module OpLaws {
  import opened Values
  import opened Lists
  import opened SessionModel
  import opened SessionFacts
  import opened Undo

  /** The numbering of every applied op, the newest end of the ring, and the frame of
      everything that is not the document. */
  lemma AppliedIs(cfg: Config, st: Store, op: Op, env: Env)
    requires ApplyOp(cfg, st, op, env).Done?
    ensures var o := ApplyOp(cfg, st, op, env);
            && o.store.session.seqNo == st.session.seqNo + 1 == o.applied.seqNo
            && o.store.session.updatedAt == env.now
            && |o.store.ring| == (if |st.ring| + 1 <= cfg.ringSize then |st.ring| + 1 else cfg.ringSize)
            && (forall i :: 0 <= i < |o.store.ring| ==>
                  o.store.ring[i] == (st.ring + [o.applied])[|st.ring| + 1 - |o.store.ring| + i])
            && (!op.AnnotationDeleted? ==> o.store.deleted == st.deleted)
            && (!op.SessionRenamed? ==> o.store.session.name == st.session.name)
  {
    hide PlanOp, Prune;
    PlanFrame(cfg, st.session, st.deleted, op, env);
  }

  lemma PlanFrame(cfg: Config, s: Session, deleted: seq<string>, op: Op, env: Env)
    requires PlanOp(cfg, s, deleted, op, env).Step?
    ensures var q := PlanOp(cfg, s, deleted, op, env);
            (!op.AnnotationDeleted? ==> q.deleted == deleted) && (!op.SessionRenamed? ==> q.name == s.name)
  {
    hide DropNodes, Validate, Merge, Conflicts, SetMembers, Union, RemoveAll, SortedSet, Select, Last, DeletedId;
  }

  // ---------------------------------------------------------------- node refs

  lemma NodesAddedIs(cfg: Config, st: Store, ids: seq<string>, env: Env)
    ensures var o := ApplyOp(cfg, st, NodesAdded(ids), env);
            && o.Done? && o.applied.effect == ENodesAdded(ids)
            && var doc, doc' := st.session.doc, o.store.session.doc;
               && doc' == doc.(nodeRefs := doc'.nodeRefs)
               && doc.nodeRefs <= doc'.nodeRefs
               && var added := doc'.nodeRefs[|doc.nodeRefs|..];
                  FirstCome(added, ids) && forall x :: x in added <==> x in ids && x !in doc.nodeRefs
  {
    UnionAppends(st.session.doc.nodeRefs, ids);
  }

  /** The id is not among those removed. */
  function Survives(ids: seq<string>): string -> bool {
    x => x !in ids
  }

  /** A member entry that names none of the removed nodes. */
  function Remains(ids: seq<string>): Json -> bool {
    (v: Json) => v.Str? ==> v.s !in ids
  }

  /** An annotation after these nodes are gone: its list of members is thinned, if it has
      one, and nothing else changes. */
  ghost predicate Thinned(a: Ann, a': Ann, ids: seq<string>) {
    && a' == a.(content := a'.content)
    && (forall k :: k != MEMBERS ==> Lookup(a'.content, k) == Lookup(a.content, k))
    && (if MEMBERS in a.content && a.content[MEMBERS].List?
        then MEMBERS in a'.content && a'.content[MEMBERS].List?
             && Kept(a'.content[MEMBERS].items, a.content[MEMBERS].items, Remains(ids))
        else Lookup(a'.content, MEMBERS) == Lookup(a.content, MEMBERS))
  }

  /** Removing nodes takes their ids out of the refs, the positions, the hidden and the
      dimmed nodes and every list of members, and out of nothing else. */
  lemma NodesRemovedIs(cfg: Config, st: Store, ids: seq<string>, env: Env)
    ensures var o := ApplyOp(cfg, st, NodesRemoved(ids), env);
            && o.Done? && o.applied.effect == ENodesRemoved(ids)
            && var doc, doc' := st.session.doc, o.store.session.doc;
               && doc' == doc.(nodeRefs := doc'.nodeRefs, positions := doc'.positions, hiddenNodes := doc'.hiddenNodes,
                               dimmedNodes := doc'.dimmedNodes, annotations := doc'.annotations)
               && Kept(doc'.nodeRefs, doc.nodeRefs, Survives(ids))
               && Kept(doc'.hiddenNodes, doc.hiddenNodes, Survives(ids))
               && Kept(doc'.dimmedNodes, doc.dimmedNodes, Survives(ids))
               && (forall k :: Lookup(doc'.positions, k) == if k in ids then None else Lookup(doc.positions, k))
               && |doc'.annotations| == |doc.annotations|
               && forall i :: 0 <= i < |doc.annotations| ==> Thinned(doc.annotations[i], doc'.annotations[i], ids)
  {
    hide Select, Kept;
    var doc := st.session.doc;
    RemovalKeeps(doc.nodeRefs, ids);
    RemovalKeeps(doc.hiddenNodes, ids);
    RemovalKeeps(doc.dimmedNodes, ids);
    forall i | 0 <= i < |doc.annotations| ensures Thinned(doc.annotations[i], DropMembers(doc.annotations[i], ids), ids) {
      MembersThinned(doc.annotations[i], ids);
    }
  }

  lemma RemovalKeeps(was: seq<string>, ids: seq<string>)
    ensures Kept(RemoveAll(was, ids), was, Survives(ids))
  {
    SelectSame(was, Outside(ids), Survives(ids));
    SelectKeeps(was, Survives(ids));
  }

  lemma MembersThinned(a: Ann, ids: seq<string>)
    ensures Thinned(a, DropMembers(a, ids), ids)
  {
    hide Kept;
    if MEMBERS in a.content && a.content[MEMBERS].List? {
      SelectSame(a.content[MEMBERS].items, NotNaming(ids), Remains(ids));
      SelectKeeps(a.content[MEMBERS].items, Remains(ids));
    }
  }

  lemma NodeMovedIs(cfg: Config, st: Store, id: string, position: Option<Pos>, env: Env)
    ensures var o := ApplyOp(cfg, st, NodeMoved(id, position), env);
            if position.None? then o == Rejected(BadPayload)
            else
              && o.Done? && o.applied.effect == EMoved(id, position.value)
              && var doc, doc' := st.session.doc, o.store.session.doc;
                 && doc' == doc.(positions := doc'.positions)
                 && forall k :: Lookup(doc'.positions, k) == if k == id then position else Lookup(doc.positions, k)
  {
    hide Prune;
  }

  lemma LayoutAppliedIs(cfg: Config, st: Store, places: map<string, Option<Pos>>, env: Env)
    ensures var o := ApplyOp(cfg, st, LayoutApplied(places), env);
            if exists k :: k in places && places[k].None? then o == Rejected(BadPayload)
            else
              && o.Done? && o.applied.effect.ELayout?
              && (forall k :: Lookup(o.applied.effect.positions, k) == if k in places then places[k] else None)
              && var doc, doc' := st.session.doc, o.store.session.doc;
                 && doc' == doc.(positions := doc'.positions)
                 && forall k :: Lookup(doc'.positions, k) == if k in places then places[k] else Lookup(doc.positions, k)
  {
    hide Prune;
  }

  // -------------------------------------------------------------------- flags

  /** Nothing but this list of ids has changed. */
  ghost predicate OnlyFlag(doc: Doc, doc': Doc, flag: Flag) {
    match flag
    case HiddenNode => doc' == doc.(hiddenNodes := doc'.hiddenNodes)
    case HiddenEdge => doc' == doc.(hiddenEdges := doc'.hiddenEdges)
    case DimmedNode => doc' == doc.(dimmedNodes := doc'.dimmedNodes)
    case DimmedEdge => doc' == doc.(dimmedEdges := doc'.dimmedEdges)
  }

  ghost function ListOf(doc: Doc, flag: Flag): seq<string> {
    if flag == HiddenNode then doc.hiddenNodes
    else if flag == HiddenEdge then doc.hiddenEdges
    else if flag == DimmedNode then doc.dimmedNodes
    else doc.dimmedEdges
  }

  lemma FlagSetIs(cfg: Config, st: Store, flag: Flag, ids: seq<string>, env: Env)
    ensures var o := ApplyOp(cfg, st, FlagSet(flag, ids), env);
            && o.Done? && o.applied.effect == EFlagSet(flag, ids)
            && OnlyFlag(st.session.doc, o.store.session.doc, flag)
            && var was, now := ListOf(st.session.doc, flag), ListOf(o.store.session.doc, flag);
               && was <= now
               && FirstCome(now[|was|..], ids)
               && forall x :: x in now[|was|..] <==> x in ids && x !in was
  {
    hide Prune, SortedSet, Select;
    UnionAppends(ListOf(st.session.doc, flag), ids);
  }

  lemma FlagClearedIs(cfg: Config, st: Store, flag: Flag, ids: seq<string>, env: Env)
    ensures var o := ApplyOp(cfg, st, FlagCleared(flag, ids), env);
            && o.Done? && o.applied.effect == EFlagCleared(flag, ids)
            && OnlyFlag(st.session.doc, o.store.session.doc, flag)
            && Kept(ListOf(o.store.session.doc, flag), ListOf(st.session.doc, flag), Survives(ids))
  {
    hide Prune, SortedSet, Select, Kept;
    RemovalKeeps(ListOf(st.session.doc, flag), ids);
  }

  // -------------------------------------------------------------- small ops

  lemma IntensitySetIs(cfg: Config, st: Store, level: Option<real>, env: Env)
    ensures var o := ApplyOp(cfg, st, IntensitySet(level), env);
            if level.None? then o == Rejected(BadPayload)
            else
              && o.Done?
              && var doc, doc' := st.session.doc, o.store.session.doc;
                 && o.applied.effect == EIntensity(doc'.intensity)
                 && doc' == doc.(intensity := doc'.intensity)
                 && 0.0 <= doc'.intensity <= 1.0
                 && (0.0 <= level.value <= 1.0 ==> doc'.intensity == level.value)
                 && (level.value < 0.0 ==> doc'.intensity == 0.0)
                 && (level.value > 1.0 ==> doc'.intensity == 1.0)
  {
    hide Prune;
  }

  /** Renaming, fanning out edges, and an op of no known shape. */
  lemma OtherOpsAre(cfg: Config, st: Store, newName: Option<string>, edges: Json, env: Env)
    ensures var o := ApplyOp(cfg, st, SessionRenamed(newName), env);
            && o.Done? && o.applied.effect == ERenamed(newName)
            && o.store.session.name == newName && o.store.session.doc == st.session.doc
    ensures var o := ApplyOp(cfg, st, EdgesFanOut(edges), env);
            o.Done? && o.applied.effect == EFanOut(edges) && o.store.session.doc == st.session.doc
    ensures ApplyOp(cfg, st, Malformed, env) == Rejected(BadPayload)
  {
  }

  /** Membership changes on the first annotation with the group's id, if it is a group. */
  lemma GroupMembershipIs(cfg: Config, st: Store, groupId: string, members: seq<string>, env: Env)
    ensures var o := ApplyOp(cfg, st, GroupMembershipChanged(groupId, members), env);
            var anns, i := st.session.doc.annotations, IndexOf(st.session.doc.annotations, groupId);
            if i == |anns| || anns[i].typ != Group then o == Rejected(GroupNotFound)
            else
              && o.Done? && o.applied.effect == EMembers(groupId, members)
              && o.store.session.doc == st.session.doc.(annotations := o.store.session.doc.annotations)
              && var anns' := o.store.session.doc.annotations;
                 && |anns'| == |anns|
                 && (forall j :: 0 <= j < |anns| && j != i ==> anns'[j] == anns[j])
                 && anns'[i] == anns[i].(content := anns'[i].content, updatedAt := env.now)
                 && (forall k :: k != MEMBERS ==> Lookup(anns'[i].content, k) == Lookup(anns[i].content, k))
                 && MEMBERS in anns'[i].content && anns'[i].content[MEMBERS].List?
                 && var items := anns'[i].content[MEMBERS].items;
                    |items| == |members| && forall j :: 0 <= j < |items| ==> items[j] == Str(members[j])
  {
    hide Prune;
  }

  // -------------------------------------------------------------- annotations

  /** What the boundary asks of an annotation: an object of a known type, and a position,
      if there is one, with two numbers. */
  ghost predicate Acceptable(p: Payload) {
    && p.Payload? && !p.rawType.Unrecognised?
    && (POSITION in p.content && p.content[POSITION] != Null ==>
          && p.content[POSITION].Obj?
          && var xy := p.content[POSITION].entries;
             "x" in xy && xy["x"].Num? && "y" in xy && xy["y"].Num?)
  }

  /** The type it asks for; an arrow is a line. */
  ghost predicate AsksFor(p: Payload, t: AnnType) {
    p.Payload? && (p.rawType == Known(t) || (p.rawType.ArrowAlias? && t == Line))
  }

  lemma ValidateIs(p: Payload, requireId: bool)
    ensures Validate(p, requireId).Some? <==> Acceptable(p) && (requireId ==> p.id.Some?)
    ensures forall t :: Validate(p, requireId) == Some(t) ==> AsksFor(p, t)
    ensures forall t :: Validate(p, requireId).Some? && AsksFor(p, t) ==> Validate(p, requireId) == Some(t)
  {
  }

  /** The patch gives the field a value it does not have. */
  ghost predicate Moves(a: Ann, p: Payload, k: string) {
    p.Payload? && k in p.content && p.content[k] != (if k in a.content then a.content[k] else Null)
  }

  /** `a'` is `a` with the patch laid over it: one version on, and that version noted for
      exactly the fields that moved. */
  ghost predicate MergedInto(a: Ann, p: Payload, now: int, a': Ann) {
    && p.Payload?
    && a'.id == a.id && a'.typ == a.typ && a'.version == a.version + 1 && a'.updatedAt == now
    && a'.createdBy == (if p.createdBy.Some? then p.createdBy.value else a.createdBy)
    && (forall k :: Lookup(a'.content, k) == if k in p.content then Some(p.content[k]) else Lookup(a.content, k))
    && (forall k :: Lookup(a'.fieldVersions, k) == if Moves(a, p, k) then Some(a.version + 1) else Lookup(a.fieldVersions, k))
  }

  lemma MergeIs(a: Ann, p: Payload, now: int)
    requires p.Payload?
    ensures MergedInto(a, p, now, Merge(a, p, now))
  {
  }

  /** The op laid the patch over the annotation at `i`, and did nothing else. */
  ghost predicate MergedAt(st: Store, i: nat, p: Payload, now: int, o: Outcome) {
    && o.Done? && i < |st.session.doc.annotations|
    && o.store.session.doc == st.session.doc.(annotations := o.store.session.doc.annotations)
    && var anns, anns' := st.session.doc.annotations, o.store.session.doc.annotations;
       && |anns'| == |anns|
       && (forall j :: 0 <= j < |anns| && j != i ==> anns'[j] == anns[j])
       && MergedInto(anns[i], p, now, anns'[i])
       && o.applied.effect == EAnnotation(anns'[i])
  }

  /** A create: refused on a bad payload, ignored for an id remembered as deleted, an
      upsert of a live annotation of the same type, and otherwise a new one at the end
      while there is room. */
  lemma CreatedIs(cfg: Config, st: Store, p: Payload, env: Env)
    ensures var o := ApplyOp(cfg, st, AnnotationCreated(p), env);
            var anns := st.session.doc.annotations;
            if !Acceptable(p) then o == Rejected(BadPayload)
            else if p.id.Some? && p.id.value in st.deleted then o == Dropped
            else if p.id.Some? && IndexOf(anns, p.id.value) < |anns| then
              var i := IndexOf(anns, p.id.value);
              if AsksFor(p, anns[i].typ) then MergedAt(st, i, p, env.now, o) else o == Rejected(TypeChange)
            else if |anns| >= cfg.maxAnnotations then o == Rejected(AnnotationLimit)
            else
              && o.Done?
              && var doc' := o.store.session.doc;
                 && |doc'.annotations| == |anns| + 1
                 && doc' == st.session.doc.(annotations := anns + [doc'.annotations[|anns|]])
                 && var a := doc'.annotations[|anns|];
                    && o.applied.effect == EAnnotation(a)
                    && a.id == (if p.id.Some? then p.id.value else env.mint) && AsksFor(p, a.typ)
                    && a.version == 1 && a.fieldVersions == map[] && a.updatedAt == env.now && a.content == p.content
                    && a.createdBy == (if p.createdBy.Some? then p.createdBy.value else Str(env.client))
  {
    hide Validate, Merge, Prune;
    ValidateIs(p, false);
    var anns := st.session.doc.annotations;
    if p.Payload? && p.id.Some? && HasAnn(anns, p.id.value) {
      MergeIs(anns[IndexOf(anns, p.id.value)], p, env.now);
    }
  }

  /** The fields that a patch moves although they moved after the version it was made from. */
  ghost predicate ConflictsOn(a: Ann, p: Payload, base: int, fields: set<string>) {
    forall k :: k in fields <==> Moves(a, p, k) && (if k in a.fieldVersions then a.fieldVersions[k] else 1) > base
  }

  /** An update: refused on a bad payload, ignored for an annotation that is gone, refused
      on a change of type, on a base version that is no number, and on a conflict, whose
      fields it names; otherwise merged. */
  lemma UpdatedIs(cfg: Config, st: Store, p: Payload, base: Base, env: Env)
    ensures var o := ApplyOp(cfg, st, AnnotationUpdated(p, base), env);
            var anns := st.session.doc.annotations;
            if !Acceptable(p) || p.id.None? then o == Rejected(BadPayload)
            else if IndexOf(anns, p.id.value) == |anns| then o == Dropped
            else
              var i := IndexOf(anns, p.id.value);
              if !AsksFor(p, anns[i].typ) then o == Rejected(TypeChange)
              else if base.NotAnInt? then o == Rejected(BadPayload)
              else if base.Base? && exists k :: Moves(anns[i], p, k) && (if k in anns[i].fieldVersions then anns[i].fieldVersions[k] else 1) > base.v then
                && o.Rejected? && o.error.FieldConflict? && o.error.id == p.id.value
                && ConflictsOn(anns[i], p, base.v, o.error.fields)
              else MergedAt(st, i, p, env.now, o)
  {
    hide Validate, Merge, Prune, Conflicts;
    ValidateIs(p, true);
    var anns := st.session.doc.annotations;
    if p.Payload? && p.id.Some? && HasAnn(anns, p.id.value) {
      var a := anns[IndexOf(anns, p.id.value)];
      MergeIs(a, p, env.now);
      if base.Base? {
        ConflictsAre(a, p, base.v);
      }
    }
  }

  lemma ConflictsAre(a: Ann, p: Payload, base: int)
    requires p.Payload?
    ensures ConflictsOn(a, p, base, Conflicts(a, p.content, base))
  {
  }

  function NotNamed(id: string): Ann -> bool {
    (a: Ann) => a.id != id
  }

  /** A delete takes `annotation_id`, or `id` when that is empty; it removes every
      annotation of that id and remembers the id, within the newest two hundred. */
  lemma DeletedIs(cfg: Config, st: Store, annotationId: string, fallback: Option<string>, env: Env)
    ensures var o := ApplyOp(cfg, st, AnnotationDeleted(annotationId, fallback), env);
            if annotationId == "" && fallback.None? then o == Rejected(BadPayload)
            else
              var id := if annotationId != "" then annotationId else fallback.value;
              && o.Done? && o.applied.effect == EDeleted(id)
              && o.store.session.doc == st.session.doc.(annotations := o.store.session.doc.annotations)
              && Kept(o.store.session.doc.annotations, st.session.doc.annotations, NotNamed(id))
              && var all, memory := st.deleted + [id], o.store.deleted;
                 |memory| <= 200 && memory == all[|all| - |memory|..] && (|memory| < 200 ==> memory == all)
  {
    hide Prune, Select, Kept;
    var id := if annotationId != "" then annotationId else fallback.GetOr("");
    SelectSame(st.session.doc.annotations, OtherThan(id), NotNamed(id));
    SelectKeeps(st.session.doc.annotations, NotNamed(id));
  }

  // -------------------------------------------------------------- the lease target

  /** The op speaks of this annotation. */
  ghost predicate Names(op: Op, id: string) {
    || (op.AnnotationCreated? && op.payload.Payload? && op.payload.id == Some(id))
    || (op.AnnotationUpdated? && op.payload.Payload? && op.payload.id == Some(id))
    || (op.AnnotationDeleted? && (op.annotationId == id != "" || (op.annotationId == "" && op.fallback == Some(id))))
    || (op.GroupMembershipChanged? && op.groupId == id)
  }

  /** An op is checked against the lease of exactly the existing annotation it names. */
  lemma TargetIs(op: Op, doc: Doc, id: string)
    ensures TargetOf(op, doc) == Some(id) <==> Names(op, id) && exists i :: 0 <= i < |doc.annotations| && doc.annotations[i].id == id
  {
  }

  // ------------------------------------------------------------------ the log

  /** The snapshot is what the document holds of the target. */
  ghost predicate Shows(doc: Doc, t: Target, shown: Snapshot) {
    match t
    case TAnnotation(id) =>
      var i := IndexOf(doc.annotations, id);
      shown == if i < |doc.annotations| then AnAnnotation(doc.annotations[i]) else Absent
    case TPosition(id) => shown == if id in doc.positions then APosition(doc.positions[id]) else Absent
    case TFlagged(flag, ids) =>
      shown.Ids? && Ascending(shown.ids) && forall x :: x in shown.ids <==> x in ids && x in ListOf(doc, flag)
    case TIntensity => shown == ALevel(doc.intensity)
    case TLayout(nodeIds) =>
      shown.Places? && forall k :: Lookup(shown.places, k) == if k in nodeIds then Some(Lookup(doc.positions, k)) else None
  }

  /** What an undo compares a record's `after` with. */
  lemma CurrentIs(doc: Doc, t: Target)
    ensures Shows(doc, t, Current(doc, t))
  {
    if t.TFlagged? {
      var held := Select(t.ids, Inside(doc.Flagged(t.flag)));
      SelectFacts(t.ids, Inside(doc.Flagged(t.flag)));
      SortedSetFacts(held);
    }
  }

  /** How an undo ends: with nothing to undo when the actor has no record that still stands;
      otherwise by the newest one, in a conflict when its target is no longer as it left it,
      before any lease, and without replaying it under somebody else's lease. */
  lemma UndoEnds(cfg: Config, st: Store, actor: string, holders: map<string, string>, env: Env)
    ensures var r, log, doc := UndoLast(cfg, st, actor, holders, env), st.session.log, st.session.doc;
            && (r.NothingToUndo? <==> forall j :: 0 <= j < |log| ==> !(log[j].actor == actor && !log[j].undone))
            && forall i :: 0 <= i < |log| && log[i].actor == actor && !log[i].undone
                           && (forall j :: i < j < |log| ==> !(log[j].actor == actor && !log[j].undone)) ==>
                 && (r.Conflicted? <==> Current(doc, log[i].change.target) != log[i].change.after)
                 && (r.LeaseHeld? ==> LeasedTo(doc, log[i].change.inverse, holders, actor, r.id))
                 && (r.LeaseHeld? <==> !r.Conflicted? && exists id :: LeasedTo(doc, log[i].change.inverse, holders, actor, id))
                 && (r.Undone? ==> r.index == i)
  {
    hide ApplyOp, Current, TargetOf;
    var latest := LatestUndoable(st.session.log, actor);
    if latest.Some? {
      forall id ensures LeasedTo(st.session.doc, st.session.log[latest.value].change.inverse, holders, actor, id) <==>
                        TargetOf(st.session.log[latest.value].change.inverse, st.session.doc) == Some(id) && id in holders && holders[id] != actor
      {
        TargetIs(st.session.log[latest.value].change.inverse, st.session.doc, id);
      }
    }
  }

  /** The op names this existing annotation, which somebody else holds. */
  ghost predicate LeasedTo(doc: Doc, op: Op, holders: map<string, string>, actor: string, id: string) {
    && Names(op, id) && id in holders && holders[id] != actor
    && exists i :: 0 <= i < |doc.annotations| && doc.annotations[i].id == id
  }

  /** Ids in this list that the op names, or names and that were not in it. */
  ghost predicate NewTo(found: seq<string>, ids: seq<string>, was: seq<string>) {
    Ascending(found) && forall x :: x in found <==> x in ids && x !in was
  }

  ghost predicate TakenFrom(found: seq<string>, ids: seq<string>, was: seq<string>) {
    Ascending(found) && forall x :: x in found <==> x in ids && x in was
  }

  /** What an op leaves in the log, if anything. */
  ghost predicate Worth(doc: Doc, doc': Doc, op: Op, effect: Effect, t: Target) {
    match op
    case NodeMoved(id, _) => t == TPosition(id)
    case FlagSet(flag, ids) => t.TFlagged? && t.flag == flag != HiddenEdge && t.ids != [] && NewTo(t.ids, ids, ListOf(doc, flag))
    case FlagCleared(flag, ids) => t.TFlagged? && t.flag == flag != HiddenEdge && t.ids != [] && TakenFrom(t.ids, ids, ListOf(doc, flag))
    case IntensitySet(_) => t == TIntensity && doc'.intensity != doc.intensity
    case AnnotationCreated(_) => effect.EAnnotation? && t == TAnnotation(effect.annotation.id)
    case AnnotationUpdated(_, _) => effect.EAnnotation? && t == TAnnotation(effect.annotation.id)
    case AnnotationDeleted(_, _) => effect.EDeleted? && t == TAnnotation(effect.id) && IndexOf(doc.annotations, effect.id) < |doc.annotations|
    case LayoutApplied(places) => t == TLayout(places.Keys)
    case _ => false
  }

  /** The log gains one record of an attributed op that is worth one, in front of the
      actor's undo; it tells the truth about the target, before and after. */
  lemma RecordIs(cfg: Config, st: Store, op: Op, env: Env)
    requires StoreOk(cfg, st) && MintIsNew(st, env) && ApplyOp(cfg, st, op, env).Done?
    ensures var o := ApplyOp(cfg, st, op, env);
            var doc, doc', log' := st.session.doc, o.store.session.doc, o.store.session.log;
            if env.record && env.client != "" && exists t :: Worth(doc, doc', op, o.applied.effect, t) then
              && log' != []
              && var r := log'[|log'| - 1];
                 && r.actor == env.client && r.seqNo == o.applied.seqNo && r.at == env.now && !r.undone
                 && Worth(doc, doc', op, o.applied.effect, r.change.target)
                 && Shows(doc, r.change.target, r.change.before) && Shows(doc', r.change.target, r.change.after)
            else log' == st.session.log
  {
    var q := PlanOp(cfg, st.session, st.deleted, op, env);
    var doc := st.session.doc;
    PlanRecords(cfg, st, op, env);
    assert Truthful(doc, op, q);
    hide PlanOp, Worth, Shows, StoreOk, Prune;
    if q.change.Some? {
      PruneKeepsNewest(cfg, st.session.log, Record(env.client, st.session.seqNo + 1, env.now, q.change.value, false), env.now);
    }
  }

  /** The plan logs a change exactly when there is something worth it, and truthfully. */
  ghost predicate Truthful(doc: Doc, op: Op, q: Plan) {
    q.Step? ==>
      if q.change.Some? then
        && Worth(doc, q.doc, op, q.effect, q.change.value.target)
        && Shows(doc, q.change.value.target, q.change.value.before)
        && Shows(q.doc, q.change.value.target, q.change.value.after)
      else forall t :: !Worth(doc, q.doc, op, q.effect, t)
  }

  lemma PlanRecords(cfg: Config, st: Store, op: Op, env: Env)
    requires StoreOk(cfg, st) && MintIsNew(st, env)
    ensures Truthful(st.session.doc, op, PlanOp(cfg, st.session, st.deleted, op, env))
  {
    if op.FlagSet? || op.FlagCleared? {
      FlagPlanRecords(cfg, st, op, env);
    } else if op.AnnotationCreated? || op.AnnotationUpdated? || op.AnnotationDeleted? {
      AnnotationPlanRecords(cfg, st, op, env);
    } else {
      PlainPlanRecords(cfg, st, op, env);
    }
  }

  lemma PlainPlanRecords(cfg: Config, st: Store, op: Op, env: Env)
    requires !op.FlagSet? && !op.FlagCleared? && !op.AnnotationCreated? && !op.AnnotationUpdated? && !op.AnnotationDeleted?
    ensures Truthful(st.session.doc, op, PlanOp(cfg, st.session, st.deleted, op, env))
  {
    hide DropNodes, SetMembers, Union;
  }

  lemma FlagPlanRecords(cfg: Config, st: Store, op: Op, env: Env)
    requires op.FlagSet? || op.FlagCleared?
    ensures Truthful(st.session.doc, op, PlanOp(cfg, st.session, st.deleted, op, env))
  {
    hide Truthful, PlanFlagSet, PlanFlagCleared;
    if op.FlagSet? {
      FlagSetTruthful(st.session, st.deleted, op.flag, op.ids);
    } else {
      FlagClearedTruthful(st.session, st.deleted, op.flag, op.ids);
    }
  }

  lemma FlagSetTruthful(s: Session, deleted: seq<string>, flag: Flag, ids: seq<string>)
    ensures Truthful(s.doc, FlagSet(flag, ids), PlanFlagSet(s, deleted, flag, ids))
  {
    var held := s.doc.Flagged(flag);
    FlagRecords(held, ids);
    var novel := SortedSet(Select(ids, Outside(held)));
    hide Union, RemoveAll, Select, SortedSet;
    assert Shows(s.doc, TFlagged(flag, novel), Ids([]));
    assert Shows(s.doc.WithFlagged(flag, Union(held, ids)), TFlagged(flag, novel), Ids(novel));
    hide NewTo, TakenFrom, Shows;
  }

  lemma FlagClearedTruthful(s: Session, deleted: seq<string>, flag: Flag, ids: seq<string>)
    ensures Truthful(s.doc, FlagCleared(flag, ids), PlanFlagCleared(s, deleted, flag, ids))
  {
    var held := s.doc.Flagged(flag);
    FlagRecords(held, ids);
    var novel := SortedSet(Select(ids, Inside(held)));
    hide Union, RemoveAll, Select, SortedSet;
    assert Shows(s.doc, TFlagged(flag, novel), Ids(novel));
    assert Shows(s.doc.WithFlagged(flag, RemoveAll(held, ids)), TFlagged(flag, novel), Ids([]));
    hide NewTo, TakenFrom, Shows;
  }

  lemma AnnotationPlanRecords(cfg: Config, st: Store, op: Op, env: Env)
    requires op.AnnotationCreated? || op.AnnotationUpdated? || op.AnnotationDeleted?
    requires StoreOk(cfg, st) && MintIsNew(st, env)
    ensures Truthful(st.session.doc, op, PlanOp(cfg, st.session, st.deleted, op, env))
  {
    hide Truthful, StoreOk, PlanMerge, PlanDelete;
    var anns := st.session.doc.annotations;
    if op.AnnotationDeleted? {
      hide DeletedId;
      var id := DeletedId(op.annotationId, op.fallback);
      if id.Some? {
        DeleteTruthful(cfg, st, op, id.value);
      } else {
        NoPlanTruthful(st.session.doc, op, BadPayload);
      }
    } else if op.AnnotationCreated? {
      CreateTruthful(cfg, st, op.payload, env);
    } else {
      ValidateIs(op.payload, true);
      hide Validate, Conflicts, Acceptable;
      NoPlanTruthful(st.session.doc, op, BadPayload);
      NoPlanTruthful(st.session.doc, op, TypeChange);
      if op.payload.Payload? && op.payload.id.Some? && HasAnn(anns, op.payload.id.value) {
        var i := IndexOf(anns, op.payload.id.value);
        NoPlanTruthful(st.session.doc, op, FieldConflict(op.payload.id.value, if op.base.Base? then Conflicts(anns[i], op.payload.content, op.base.v) else {}));
        MergeTruthful(cfg, st, op, i, op.payload, env);
      }
    }
  }

  lemma NoPlanTruthful(doc: Doc, op: Op, e: OpError)
    ensures Truthful(doc, op, Plan.Reject(e)) && Truthful(doc, op, Plan.Drop)
  {
  }

  lemma DeleteTruthful(cfg: Config, st: Store, op: Op, id: string)
    requires StoreOk(cfg, st) && op.AnnotationDeleted?
    ensures Truthful(st.session.doc, op, PlanDelete(st.session, st.deleted, id))
  {
    FindAfterRemove(st.session.doc.annotations, id);
    assert Find(Select(st.session.doc.annotations, OtherThan(id)), id).None?;
    hide Select, StoreOk;
  }

  lemma MergeTruthful(cfg: Config, st: Store, op: Op, i: nat, p: Payload, env: Env)
    requires StoreOk(cfg, st) && i < |st.session.doc.annotations| && p.Payload?
    requires op.AnnotationCreated? || op.AnnotationUpdated?
    ensures Truthful(st.session.doc, op, PlanMerge(st.session, st.deleted, i, p, env))
  {
    MergeRecords(cfg, st, i, p, env);
    hide Merge, StoreOk;
  }

  lemma CreateTruthful(cfg: Config, st: Store, p: Payload, env: Env)
    requires StoreOk(cfg, st) && MintIsNew(st, env)
    ensures Truthful(st.session.doc, AnnotationCreated(p), PlanCreate(cfg, st.session, st.deleted, p, env))
  {
    var anns, q := st.session.doc.annotations, PlanCreate(cfg, st.session, st.deleted, p, env);
    if q.Step? {
      assert p.Payload? by { ValidateIs(p, false); }
      if p.id.Some? && HasAnn(anns, p.id.value) {
        MergeTruthful(cfg, st, AnnotationCreated(p), IndexOf(anns, p.id.value), p, env);
        hide Truthful, Validate, StoreOk, PlanMerge;
      } else {
        FindAfterAppend(anns, q.effect.annotation, q.doc.annotations);
        assert Find(q.doc.annotations, q.effect.annotation.id) == Some(q.effect.annotation);
        hide Validate, StoreOk;
      }
    }
  }

  lemma FlagRecords(held: seq<string>, ids: seq<string>)
    ensures NewTo(SortedSet(Select(ids, Outside(held))), ids, held)
    ensures TakenFrom(SortedSet(Select(ids, Inside(held))), ids, held)
    ensures forall x :: x in Union(held, ids) <==> x in held || x in ids
    ensures forall x :: x in RemoveAll(held, ids) <==> x in held && x !in ids
    ensures forall f :: NewTo(f, ids, held) && f != [] ==> SortedSet(Select(ids, Outside(held))) != []
    ensures forall f :: TakenFrom(f, ids, held) && f != [] ==> SortedSet(Select(ids, Inside(held))) != []
  {
    SelectFacts(ids, Outside(held));
    SelectFacts(ids, Inside(held));
    SortedSetFacts(Select(ids, Outside(held)));
    SortedSetFacts(Select(ids, Inside(held)));
    UnionFacts(held, ids);
    RemoveAllFacts(held, ids);
    forall f | NewTo(f, ids, held) && f != [] ensures SortedSet(Select(ids, Outside(held))) != [] {
      assert f[0] in f;
    }
    forall f | TakenFrom(f, ids, held) && f != [] ensures SortedSet(Select(ids, Inside(held))) != [] {
      assert f[0] in f;
    }
  }

  lemma MergeRecords(cfg: Config, st: Store, i: nat, p: Payload, env: Env)
    requires StoreOk(cfg, st) && i < |st.session.doc.annotations| && p.Payload?
    ensures var q, anns := PlanMerge(st.session, st.deleted, i, p, env), st.session.doc.annotations;
            && q.effect.annotation.id == anns[i].id
            && IndexOf(anns, anns[i].id) == i == IndexOf(q.doc.annotations, anns[i].id)
            && q.doc.annotations[i] == q.effect.annotation
  {
    var q, anns := PlanMerge(st.session, st.deleted, i, p, env), st.session.doc.annotations;
    MergeAfter(cfg, st, i, p, env);
    IndexIs(anns, i);
    FindAfterUpdate(anns, i, q.effect.annotation, q.doc.annotations);
    IndexIs(q.doc.annotations, i);
  }

  function YoungEnough(cfg: Config, now: int): Record -> bool {
    (r: Record) => cfg.maxAge > 0 ==> r.at >= now - cfg.maxAge
  }

  /** Retention, exactly: of the records that are young enough the newest, up to the cap. */
  lemma PruneIs(cfg: Config, log: seq<Record>, now: int) returns (young: seq<Record>)
    ensures Kept(young, log, YoungEnough(cfg, now))
    ensures var left := Prune(cfg, log, now);
            && |left| == (if cfg.maxRecords > 0 && |young| > cfg.maxRecords then cfg.maxRecords else |young|)
            && left == young[|young| - |left|..]
  {
    young := Select(log, YoungEnough(cfg, now));
    SelectKeeps(log, YoungEnough(cfg, now));
    hide Kept;
    if cfg.maxAge > 0 {
      SelectSame(log, YoungEnough(cfg, now), NotOlderThan(now - cfg.maxAge));
    } else {
      SelectAll(log, YoungEnough(cfg, now));
    }
  }
}
