/**
 The session store's objects: one live session whose fields the ops update in
 place, its op ring and its memory of deleted ids. Every branch is proved against
 the plan of the same op, and the whole against `ApplyOp`.
 */
module SessionStore {
  import opened Values
  import opened Lists
  import opened SessionModel
  import opened Undo

  /** How a call on the store ends: an exception, `None`, or the applied op. */
  datatype Answer = Raised(error: OpError) | Ignored | AppliedAs(applied: Applied)

  /** How one branch ends, before the op is numbered and recorded. */
  datatype Branch = Refuse(error: OpError) | Skip | Took(effect: Effect, change: Option<Change>)

  /** The branch did what the plan says, and nothing else. */
  ghost predicate Follows(was: Store, now: Store, plan: Plan, b: Branch) {
    match plan
    case Reject(e) => b == Refuse(e) && now == was
    case Drop => b.Skip? && now == was
    case Step(name, doc, deleted, effect, change) =>
      b == Took(effect, change) && now == was.(session := was.session.(name := name, doc := doc), deleted := deleted)
  }

  /** The answer and the new state are those of `ApplyOp`. */
  ghost predicate Matches(cfg: Config, was: Store, op: Op, env: Env, now: Store, r: Answer) {
    match ApplyOp(cfg, was, op, env)
    case Rejected(e) => r == Raised(e) && now == was
    case Dropped => r.Ignored? && now == was
    case Done(st, applied) => r == AppliedAs(applied) && now == st
  }

  method Unite(existing: seq<string>, incoming: seq<string>) returns (result: seq<string>)
    ensures result == Union(existing, incoming)
  {
    var seen := set x | x in existing;
    result := existing;
    for i := 0 to |incoming|
      invariant Union(result, incoming[i..]) == Union(existing, incoming)
      invariant forall x :: x in seen <==> x in result
    {
      assert incoming[i..][1..] == incoming[i + 1..];
      if incoming[i] !in seen {
        seen := seen + {incoming[i]};
        result := result + [incoming[i]];
      }
    }
  }

  method SetVersions(versions: map<string, int>, changed: set<string>, version: int) returns (result: map<string, int>)
    ensures result == versions + map k | k in changed :: version
  {
    result := versions;
    var left := changed;
    while left != {}
      invariant left <= changed
      invariant result == versions + map k | k in changed && k !in left :: version
    {
      var field :| field in left;
      result := result[field := version];
      left := left - {field};
    }
  }

  class LiveSession {
    const cfg: Config
    var name: Option<string>
    var nodeRefs: seq<string>
    var positions: map<string, Pos>
    var hiddenNodes: seq<string>
    var hiddenEdges: seq<string>
    var dimmedNodes: seq<string>
    var dimmedEdges: seq<string>
    var intensity: real
    var annotations: seq<Ann>
    var seqNo: nat
    var updatedAt: int
    var log: seq<Record>
    var ring: seq<Applied>
    var deleted: seq<string>

    function State(): Doc
      reads this
    {
      Doc(nodeRefs, positions, hiddenNodes, hiddenEdges, dimmedNodes, dimmedEdges, intensity, annotations)
    }

    function ToDict(): Session
      reads this
    {
      Session(name, State(), seqNo, updatedAt, log)
    }

    function Held(): Store
      reads this
    {
      Store(ToDict(), ring, deleted)
    }

    /** A session as loaded: its ring and its deleted memory start empty. */
    constructor FromDict(cfg: Config, s: Session)
      ensures this.cfg == cfg && Held() == Store(s, [], [])
    {
      this.cfg := cfg;
      name, seqNo, updatedAt, log := s.name, s.seqNo, s.updatedAt, s.log;
      nodeRefs, positions, annotations := s.doc.nodeRefs, s.doc.positions, s.doc.annotations;
      hiddenNodes, hiddenEdges := s.doc.hiddenNodes, s.doc.hiddenEdges;
      dimmedNodes, dimmedEdges, intensity := s.doc.dimmedNodes, s.doc.dimmedEdges, s.doc.intensity;
      ring, deleted := [], [];
    }

    /** What a rollback puts back: everything but the memory of deleted ids. */
    method Restore(s: Session, saved: seq<Applied>)
      modifies this
      ensures Held() == Store(s, saved, old(deleted))
    {
      RestoreState(s.doc);
      name, seqNo, updatedAt, log := s.name, s.seqNo, s.updatedAt, s.log;
      ring := saved;
    }

    method RestoreState(doc: Doc)
      modifies this`nodeRefs, this`positions, this`hiddenNodes, this`hiddenEdges, this`dimmedNodes, this`dimmedEdges,
               this`intensity, this`annotations
      ensures State() == doc
    {
      nodeRefs, positions, annotations := doc.nodeRefs, doc.positions, doc.annotations;
      hiddenNodes, hiddenEdges := doc.hiddenNodes, doc.hiddenEdges;
      dimmedNodes, dimmedEdges, intensity := doc.dimmedNodes, doc.dimmedEdges, doc.intensity;
    }

    // ------------------------------------------------------------- the branches

    method RemoveNodes(ids: seq<string>)
      modifies this`nodeRefs, this`positions, this`hiddenNodes, this`dimmedNodes, this`annotations
      ensures State() == DropNodes(old(State()), ids)
    {
      nodeRefs := RemoveAll(nodeRefs, ids);
      positions := map k | k in positions && k !in ids :: positions[k];
      hiddenNodes := RemoveAll(hiddenNodes, ids);
      dimmedNodes := RemoveAll(dimmedNodes, ids);
      for i := 0 to |annotations|
        modifies this`annotations
        invariant |annotations| == |old(annotations)|
        invariant forall j :: 0 <= j < i ==> annotations[j] == DropMembers(old(annotations)[j], ids)
        invariant forall j :: i <= j < |annotations| ==> annotations[j] == old(annotations)[j]
      {
        var members := Get(annotations[i].content, MEMBERS);
        if members.List? {
          annotations := annotations[i := annotations[i].(
            content := annotations[i].content[MEMBERS := List(Select(members.items, NotNaming(ids)))])];
        }
      }
      assert annotations == DropNodes(old(State()), ids).annotations;
    }

    method Move(id: string, position: Option<Pos>) returns (b: Branch)
      modifies this`positions
      ensures Follows(old(Held()), Held(), PlanMove(old(ToDict()), deleted, id, position), b)
    {
      if position.None? {
        return Refuse(BadPayload);
      }
      var before := Lookup(positions, id);
      positions := positions[id := position.value];
      b := Took(EMoved(id, position.value),
                Some(Change(TPosition(id), PositionSnapshot(before), APosition(position.value),
                            NodeMoved(id, Some(before.GetOr(ORIGIN))))));
    }

    method Put(flag: Flag, ids: seq<string>)
      modifies this`hiddenNodes, this`hiddenEdges, this`dimmedNodes, this`dimmedEdges
      ensures State() == old(State()).WithFlagged(flag, ids)
    {
      match flag
      case HiddenNode => hiddenNodes := ids;
      case HiddenEdge => hiddenEdges := ids;
      case DimmedNode => dimmedNodes := ids;
      case DimmedEdge => dimmedEdges := ids;
    }

    method SetFlag(flag: Flag, ids: seq<string>) returns (b: Branch)
      modifies this`hiddenNodes, this`hiddenEdges, this`dimmedNodes, this`dimmedEdges
      ensures Follows(old(Held()), Held(), PlanFlagSet(old(ToDict()), deleted, flag, ids), b)
    {
      var held := State().Flagged(flag);
      var novel := SortedSet(Select(ids, Outside(held)));
      var united := Unite(held, ids);
      Put(flag, united);
      b := Took(EFlagSet(flag, ids), None);
      if novel != [] && flag != HiddenEdge {
        b := b.(change := Some(Change(TFlagged(flag, novel), Ids([]), Ids(novel), FlagCleared(flag, novel))));
      }
    }

    method ClearFlag(flag: Flag, ids: seq<string>) returns (b: Branch)
      modifies this`hiddenNodes, this`hiddenEdges, this`dimmedNodes, this`dimmedEdges
      ensures Follows(old(Held()), Held(), PlanFlagCleared(old(ToDict()), deleted, flag, ids), b)
    {
      var held := State().Flagged(flag);
      var novel := SortedSet(Select(ids, Inside(held)));
      Put(flag, RemoveAll(held, ids));
      b := Took(EFlagCleared(flag, ids), None);
      if novel != [] && flag != HiddenEdge {
        b := b.(change := Some(Change(TFlagged(flag, novel), Ids(novel), Ids([]), FlagSet(flag, novel))));
      }
    }

    method SetIntensity(level: Option<real>) returns (b: Branch)
      modifies this`intensity
      ensures Follows(old(Held()), Held(), PlanIntensity(old(ToDict()), deleted, level), b)
    {
      if level.None? {
        return Refuse(BadPayload);
      }
      var value, before := Clamp(level.value), intensity;
      intensity := value;
      b := Took(EIntensity(value), None);
      if value != before {
        b := b.(change := Some(Change(TIntensity, ALevel(before), ALevel(value), IntensitySet(Some(before)))));
      }
    }

    method ApplyLayout(places: map<string, Option<Pos>>) returns (b: Branch)
      modifies this`positions
      ensures Follows(old(Held()), Held(), PlanLayout(old(ToDict()), deleted, places), b)
    {
      if exists k :: k in places && places[k].None? {
        return Refuse(BadPayload);
      }
      var normal := map k | k in places && places[k].Some? :: places[k].value;
      var before := map k | k in normal :: Lookup(positions, k);
      positions := positions + normal;
      var inverse := map k | k in normal :: Some(before[k].GetOr(ORIGIN));
      b := Took(ELayout(normal),
                Some(Change(TLayout(normal.Keys), Places(before), Places(map k | k in normal :: Some(normal[k])),
                            LayoutApplied(inverse))));
      assert inverse == map k | k in normal :: Some(Lookup(old(positions), k).GetOr(ORIGIN));
    }

    /** Merges a patch into the annotation at `i`, field version by field version. */
    method MergeAt(i: nat, p: Payload, now: int) returns (b: Branch)
      requires i < |annotations| && p.Payload?
      modifies this`annotations
      ensures var was := old(annotations)[i];
              && annotations == old(annotations)[i := Merge(was, p, now)]
              && b == Took(EAnnotation(Merge(was, p, now)),
                           Some(Change(TAnnotation(was.id), AnAnnotation(was), AnAnnotation(Merge(was, p, now)),
                                       AnnotationUpdated(PayloadOf(was), NoBase))))
    {
      hide Changed;
      var prior := annotations[i];
      var fieldVersions := prior.fieldVersions;
      var changed := Changed(prior.content, p.content);
      var version := prior.version + 1;
      annotations := annotations[i := annotations[i].(content := prior.content + p.content,
                                                      createdBy := p.createdBy.GetOr(prior.createdBy))];
      annotations := annotations[i := annotations[i].(version := version)];
      fieldVersions := SetVersions(fieldVersions, changed, version);
      annotations := annotations[i := annotations[i].(fieldVersions := fieldVersions, updatedAt := now)];
      assert annotations == old(annotations)[i := Merge(prior, p, now)];
      b := Took(EAnnotation(annotations[i]),
                Some(Change(TAnnotation(prior.id), AnAnnotation(prior), AnAnnotation(annotations[i]),
                            AnnotationUpdated(PayloadOf(prior), NoBase))));
    }

    method CreateAnnotation(p: Payload, env: Env) returns (b: Branch)
      modifies this`annotations
      ensures Follows(old(Held()), Held(), PlanCreate(cfg, old(ToDict()), deleted, p, env), b)
    {
      var t := Validate(p, false);
      if t.None? {
        return Refuse(BadPayload);
      }
      if p.id.Some? && p.id.value in deleted {
        return Skip;
      }
      if p.id.Some? && HasAnn(annotations, p.id.value) {
        var i := IndexOf(annotations, p.id.value);
        if annotations[i].typ != t.value {
          return Refuse(TypeChange);
        }
        b := MergeAt(i, p, env.now);
        return;
      }
      if |annotations| >= cfg.maxAnnotations {
        return Refuse(AnnotationLimit);
      }
      var id := if p.id.Some? then p.id.value else env.mint;
      var a := Ann(id, t.value, 1, map[], p.createdBy.GetOr(Str(env.client)), env.now, p.content);
      annotations := annotations + [a];
      b := Took(EAnnotation(a), Some(Change(TAnnotation(id), Absent, AnAnnotation(a), DeleteOf(id))));
    }

    method UpdateAnnotation(p: Payload, base: Base, env: Env) returns (b: Branch)
      modifies this`annotations
      ensures Follows(old(Held()), Held(), PlanUpdate(old(ToDict()), deleted, p, base, env), b)
    {
      var t := Validate(p, true);
      if t.None? {
        return Refuse(BadPayload);
      }
      if !HasAnn(annotations, p.id.value) {
        return Skip;
      }
      var i := IndexOf(annotations, p.id.value);
      if annotations[i].typ != t.value {
        return Refuse(TypeChange);
      }
      if base.NotAnInt? {
        return Refuse(BadPayload);
      }
      if base.Base? {
        var conflicts := Conflicts(annotations[i], p.content, base.v);
        if conflicts != {} {
          return Refuse(FieldConflict(p.id.value, conflicts));
        }
      }
      b := MergeAt(i, p, env.now);
    }

    method DeleteAnnotation(annotationId: string, fallback: Option<string>) returns (b: Branch)
      modifies this`annotations, this`deleted
      ensures var id := DeletedId(annotationId, fallback);
              Follows(old(Held()), Held(),
                      if id.None? then Plan.Reject(BadPayload) else PlanDelete(old(ToDict()), old(deleted), id.value), b)
    {
      var named := if annotationId != "" then Some(annotationId) else fallback;
      if named.None? {
        return Refuse(BadPayload);
      }
      var id := named.value;
      var removed := Find(annotations, id);
      annotations := Select(annotations, OtherThan(id));
      deleted := Last(deleted + [id], DELETED_MEMORY);
      b := Took(EDeleted(id), None);
      if removed.Some? {
        b := b.(change := Some(Change(TAnnotation(id), AnAnnotation(removed.value), Absent,
                                      AnnotationCreated(PayloadOf(removed.value)))));
      }
    }

    method ChangeMembership(groupId: string, members: seq<string>, env: Env) returns (b: Branch)
      modifies this`annotations
      ensures Follows(old(Held()), Held(), PlanGroup(old(ToDict()), deleted, groupId, members, env), b)
    {
      var i := IndexOf(annotations, groupId);
      if i == |annotations| || annotations[i].typ != Group {
        return Refuse(GroupNotFound);
      }
      annotations := annotations[i := SetMembers(annotations[i], members)];
      annotations := annotations[i := annotations[i].(updatedAt := env.now)];
      b := Took(EMembers(groupId, members), None);
    }

    method AddNodes(ids: seq<string>) returns (b: Branch)
      modifies this`nodeRefs
      ensures Follows(old(Held()), Held(),
                      Step(name, old(State()).(nodeRefs := Union(old(nodeRefs), ids)), deleted, ENodesAdded(ids), None), b)
    {
      nodeRefs := Unite(nodeRefs, ids);
      b := Took(ENodesAdded(ids), None);
    }

    method TakeNodes(ids: seq<string>) returns (b: Branch)
      modifies this`nodeRefs, this`positions, this`hiddenNodes, this`dimmedNodes, this`annotations
      ensures Follows(old(Held()), Held(), Step(name, DropNodes(old(State()), ids), deleted, ENodesRemoved(ids), None), b)
    {
      hide DropNodes;
      RemoveNodes(ids);
      b := Took(ENodesRemoved(ids), None);
    }

    method FanOut(edges: Json) returns (b: Branch)
      ensures Follows(Held(), Held(), Step(name, State(), deleted, EFanOut(edges), None), b)
    {
      b := Took(EFanOut(edges), None);
    }

    method Rename(newName: Option<string>) returns (b: Branch)
      modifies this`name
      ensures Follows(old(Held()), Held(), Step(newName, State(), deleted, ERenamed(newName), None), b)
    {
      name := newName;
      b := Took(ERenamed(newName), None);
    }

    method Reject() returns (b: Branch)
      ensures Follows(Held(), Held(), Plan.Reject(BadPayload), b)
    {
      b := Refuse(BadPayload);
    }

    method Dispatch(op: Op, env: Env) returns (b: Branch)
      modifies this
      ensures Follows(old(Held()), Held(), PlanOp(cfg, old(ToDict()), old(deleted), op, env), b)
    {
      hide Follows, PlanMove, PlanFlagSet, PlanFlagCleared, PlanIntensity, PlanCreate, PlanUpdate, PlanDelete, PlanGroup,
           PlanLayout, Union, DropNodes;
      match op
      case NodesAdded(ids) => b := AddNodes(ids);
      case NodesRemoved(ids) => b := TakeNodes(ids);
      case NodeMoved(id, position) => b := Move(id, position);
      case FlagSet(flag, ids) => b := SetFlag(flag, ids);
      case FlagCleared(flag, ids) => b := ClearFlag(flag, ids);
      case EdgesFanOut(edges) => b := FanOut(edges);
      case IntensitySet(level) => b := SetIntensity(level);
      case AnnotationCreated(p) => b := CreateAnnotation(p, env);
      case AnnotationUpdated(p, base) => b := UpdateAnnotation(p, base, env);
      case AnnotationDeleted(annotationId, fallback) => b := DeleteAnnotation(annotationId, fallback);
      case GroupMembershipChanged(groupId, members) => b := ChangeMembership(groupId, members, env);
      case SessionRenamed(newName) => b := Rename(newName);
      case LayoutApplied(places) => b := ApplyLayout(places);
      case Malformed => b := Reject();
    }

    /** `apply_state_op`: the branch, then the number, the ring and the activity log. */
    method ApplyStateOp(op: Op, env: Env) returns (r: Answer)
      modifies this
      ensures Matches(cfg, old(Held()), op, env, Held(), r)
    {
      hide PlanOp, Prune, Last;
      var b := Dispatch(op, env);
      if b.Refuse? {
        return Raised(b.error);
      }
      if b.Skip? {
        return Ignored;
      }
      var applied := Number(b.effect, b.change, env);
      r := AppliedAs(applied);
    }

    /** Numbers the op, keeps it in the ring, and records what it changed. */
    method Number(effect: Effect, change: Option<Change>, env: Env) returns (applied: Applied)
      modifies this`seqNo, this`updatedAt, this`ring, this`log
      ensures seqNo == old(seqNo) + 1 && updatedAt == env.now
      ensures applied == Applied(seqNo, effect)
      ensures ring == Last(old(ring) + [applied], cfg.ringSize)
      ensures log == (if env.record && change.Some? && env.client != ""
                      then Prune(cfg, old(log) + [Record(env.client, seqNo, env.now, change.value, false)], env.now)
                      else old(log))
    {
      seqNo := seqNo + 1;
      updatedAt := env.now;
      applied := Applied(seqNo, effect);
      ring := Last(ring + [applied], cfg.ringSize);
      if env.record && change.Some? && env.client != "" {
        log := log + [Record(env.client, seqNo, env.now, change.value, false)];
        log := Prune(cfg, log, env.now);
      }
    }

    // ------------------------------------------------------- catch-up and undo

    method OpsAfter(since: int) returns (r: Option<seq<Applied>>)
      ensures r == OpsSince(Held(), since)
    {
      if since >= seqNo {
        return Some([]);
      }
      if ring == [] {
        return None;
      }
      if ring[0].seqNo > since + 1 {
        return None;
      }
      r := Some(Select(ring, After(since)));
    }

    /** The newest record of this actor that is not undone, searching from the end. */
    method FindLatestUndoable(actor: string) returns (r: Option<nat>)
      ensures r == LatestUndoable(log, actor)
    {
      var i := |log|;
      while i > 0
        invariant 0 <= i <= |log|
        invariant LatestUndoable(log[..i], actor) == LatestUndoable(log, actor)
      {
        i := i - 1;
        assert log[..i + 1][..i] == log[..i];
        if Eligible(log[i], actor) {
          return Some(i);
        }
      }
      r := None;
    }

    method ForgetDeleted(id: string)
      modifies this`deleted
      ensures deleted == RemoveFirst(old(deleted), id)
    {
      deleted := RemoveFirst(deleted, id);
    }

    method SetUndone(i: nat)
      requires i < |log|
      modifies this`log
      ensures Held() == MarkUndone(old(Held()), i)
    {
      log := log[i := log[i].(undone := true)];
    }
  }
}
