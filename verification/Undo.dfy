/**
 Actor-scoped undo: the activity log's search and conflict test, the replay of a
 stored inverse op, what one undo restores and leaves alone, and the stack law
 for a run of moves, layouts, visibility, dimming and intensity changes.
 */
module Undo {
  import opened Values
  import opened Lists
  import opened SessionModel
  import opened SessionFacts

  // ---------------------------------------------------------- the log search

  predicate Eligible(r: Record, actor: string) {
    r.actor == actor && !r.undone
  }

  /** The newest record of this actor that is not undone yet. */
  function LatestUndoable(log: seq<Record>, actor: string): (r: Option<nat>)
    ensures r.Some? ==> r.value < |log| && Eligible(log[r.value], actor)
    ensures r.Some? ==> forall j :: r.value < j < |log| ==> !Eligible(log[j], actor)
    ensures r.None? ==> forall j :: 0 <= j < |log| ==> !Eligible(log[j], actor)
  {
    if log == [] then None
    else if Eligible(log[|log| - 1], actor) then Some(|log| - 1)
    else LatestUndoable(log[..|log| - 1], actor)
  }

  /** The present value of what a record touched, in the shape of its `after`. */
  function Current(doc: Doc, t: Target): Snapshot {
    match t
    case TAnnotation(id) =>
      var a := Find(doc.annotations, id);
      if a.Some? then AnAnnotation(a.value) else Absent
    case TPosition(id) => PositionSnapshot(Lookup(doc.positions, id))
    case TFlagged(flag, ids) => Ids(SortedSet(Select(ids, Inside(doc.Flagged(flag)))))
    case TIntensity => ALevel(doc.intensity)
    case TLayout(nodeIds) => Places(map k | k in nodeIds :: Lookup(doc.positions, k))
  }

  /** `deque.remove(id)`: drops the first occurrence, if any. */
  function RemoveFirst(s: seq<string>, id: string): seq<string> {
    if s == [] then [] else if s[0] == id then s[1..] else [s[0]] + RemoveFirst(s[1..], id)
  }

  datatype UndoOutcome =
    | NothingToUndo
    | Conflicted
    | LeaseHeld(id: string)
    | Refused(error: OpError, left: Store)
    | CannotRevert(left: Store)
    | Undone(store: Store, applied: Applied, index: nat)

  const REPLAY_CLIENT := "undo-replay"

  function ReplayEnv(env: Env): Env {
    env.(client := REPLAY_CLIENT, record := false)
  }

  function MarkUndone(st: Store, i: nat): Store
    requires i < |st.session.log|
  {
    st.(session := st.session.(log := st.session.log[i := st.session.log[i].(undone := true)]))
  }

  /** Reverts the actor's latest eligible action. `holders` is the live lease snapshot. */
  function UndoLast(cfg: Config, st: Store, actor: string, holders: map<string, string>, env: Env): UndoOutcome {
    var i := LatestUndoable(st.session.log, actor);
    if i.None? then NothingToUndo
    else
      var c := st.session.log[i.value].change;
      var target := TargetOf(c.inverse, st.session.doc);
      if Current(st.session.doc, c.target) != c.after then Conflicted
      else if target.Some? && target.value in holders && holders[target.value] != actor then LeaseHeld(target.value)
      else
        var ready := Forget(st, c.inverse);
        match ApplyOp(cfg, ready, c.inverse, ReplayEnv(env))
        case Rejected(e) => Refused(e, ready)
        case Dropped => CannotRevert(ready)
        case Done(st', applied) => Undone(MarkUndone(st', i.value), applied, i.value)
  }

  /** Before re-creating a deleted annotation, its id leaves the deleted memory once. */
  function Forget(st: Store, inverse: Op): Store {
    if inverse.AnnotationCreated? && inverse.payload.Payload? && inverse.payload.id.Some?
    then st.(deleted := RemoveFirst(st.deleted, inverse.payload.id.value))
    else st
  }

  lemma {:induction false} RemoveFirstFacts(s: seq<string>, id: string)
    ensures |RemoveFirst(s, id)| <= |s|
    ensures multiset(RemoveFirst(s, id)) == multiset(s)[id := if id in s then multiset(s)[id] - 1 else 0]
  {
    if s != [] {
      assert s == [s[0]] + s[1..];
      if s[0] != id {
        RemoveFirstFacts(s[1..], id);
      }
    }
  }

  lemma ForgetOk(cfg: Config, st: Store, inverse: Op)
    requires StoreOk(cfg, st)
    ensures StoreOk(cfg, Forget(st, inverse))
  {
    if inverse.AnnotationCreated? && inverse.payload.Payload? && inverse.payload.id.Some? {
      RemoveFirstFacts(st.deleted, inverse.payload.id.value);
    }
  }

  // -------------------------------------------------------------- one undo

  /** Position with the default the code replays for "none": the origin. */
  function PlaceOf(doc: Doc, id: string): Pos {
    Lookup(doc.positions, id).GetOr(ORIGIN)
  }

  function PlaceIn(s: Snapshot): Pos {
    if s.APosition? then s.p else ORIGIN
  }

  /** The touched target is back to the record's `before`. */
  ghost predicate Restored(doc': Doc, c: Change) {
    match c.target
    case TAnnotation(id) =>
      if c.before.AnAnnotation? then
        var a := Find(doc'.annotations, id);
        && a.Some?
        && a.value.typ == c.before.a.typ && a.value.createdBy == c.before.a.createdBy
        && (forall k :: k in c.before.a.content ==> k in a.value.content && a.value.content[k] == c.before.a.content[k])
        && (c.after.Absent? ==> a.value.content == c.before.a.content)
      else !HasAnn(doc'.annotations, id)
    case TPosition(id) => PlaceOf(doc', id) == PlaceIn(c.before)
    case TFlagged(flag, ids) => forall x :: x in ids ==> (x in doc'.Flagged(flag) <==> c.before.Ids? && x in c.before.ids)
    case TIntensity => c.before.ALevel? && doc'.intensity == c.before.r
    case TLayout(nodeIds) =>
      c.before.Places? && forall k :: k in nodeIds && k in c.before.places ==>
        PlaceOf(doc', k) == c.before.places[k].GetOr(ORIGIN)
  }

  ghost predicate Touches(c: Change, node: string) {
    match c.target
    case TPosition(id) => node == id
    case TLayout(nodeIds) => node in nodeIds
    case _ => false
  }

  ghost predicate TouchesFlag(c: Change, flag: Flag, x: string) {
    c.target.TFlagged? && c.target.flag == flag && x in c.target.ids
  }

  /** Nothing but the record's target has moved. */
  ghost predicate Framed(s: Session, s': Session, c: Change) {
    && s'.name == s.name
    && s'.doc.nodeRefs == s.doc.nodeRefs
    && (c.target.TIntensity? || s'.doc.intensity == s.doc.intensity)
    && (forall id :: c.target != TAnnotation(id) ==> Find(s'.doc.annotations, id) == Find(s.doc.annotations, id))
    && (forall k :: !Touches(c, k) ==> Lookup(s'.doc.positions, k) == Lookup(s.doc.positions, k))
    && (forall flag, x :: !TouchesFlag(c, flag, x) ==> (x in s'.doc.Flagged(flag) <==> x in s.doc.Flagged(flag)))
  }

  function Undoables(log: seq<Record>, actor: string): nat {
    if log == [] then 0 else (if Eligible(log[0], actor) then 1 else 0) + Undoables(log[1..], actor)
  }

  lemma {:induction false} UndoablesAfterMark(log: seq<Record>, i: nat, actor: string)
    requires i < |log| && !log[i].undone
    ensures Undoables(log[i := log[i].(undone := true)], actor)
            == Undoables(log, actor) - (if log[i].actor == actor then 1 else 0)
  {
    var log' := log[i := log[i].(undone := true)];
    if i == 0 {
      assert log'[1..] == log[1..];
    } else {
      assert log'[1..] == log[1..][i - 1 := log[i].(undone := true)];
      UndoablesAfterMark(log[1..], i - 1, actor);
    }
  }

  /** What the inverse of a change or of a delete writes. */
  lemma RestoringMerge(cfg: Config, st: Store, c: Change, env: Env)
    requires ChangeOk(c) && c.target.TAnnotation? && c.before.AnAnnotation?
    requires Current(st.session.doc, c.target) == c.after
    requires ApplyOp(cfg, st, c.inverse, env).Done?
    ensures var e := ApplyOp(cfg, st, c.inverse, env).applied.effect;
            && e.EAnnotation?
            && e.annotation.typ == c.before.a.typ && e.annotation.createdBy == c.before.a.createdBy
            && (forall k :: k in c.before.a.content ==>
                  k in e.annotation.content && e.annotation.content[k] == c.before.a.content[k])
            && (c.after.Absent? ==> e.annotation.content == c.before.a.content)
  {
    hide Prune, Conflicts, Changed;
  }

  lemma InverseOfAnnotation(cfg: Config, st: Store, c: Change, env: Env)
    requires StoreOk(cfg, st) && ChangeOk(c) && c.target.TAnnotation?
    requires MintIsNew(st, env)
    requires Current(st.session.doc, c.target) == c.after
    requires ApplyOp(cfg, st, c.inverse, env).Done?
    ensures var s' := ApplyOp(cfg, st, c.inverse, env).store.session;
            Restored(s'.doc, c) && Framed(st.session, s', c)
  {
    AnnotationsAfter(cfg, st, c.inverse, env);
    AnnotationOpFrame(cfg, st, c.inverse, env);
    if c.before.AnAnnotation? {
      RestoringMerge(cfg, st, c, env);
    }
    hide ApplyOp, StoreOk;
    var anns' := ApplyOp(cfg, st, c.inverse, env).store.session.doc.annotations;
    assert HasAnn(anns', c.target.id) == Find(anns', c.target.id).Some?;
  }

  lemma MoveBack(cfg: Config, st: Store, c: Change, env: Env)
    requires ChangeOk(c) && c.target.TPosition?
    requires ApplyOp(cfg, st, c.inverse, env).Done?
    ensures var s' := ApplyOp(cfg, st, c.inverse, env).store.session;
            Restored(s'.doc, c) && Framed(st.session, s', c)
  {
    var op := NodeMoved(c.target.id, Some(PlaceIn(c.before)));
    var s' := ApplyOp(cfg, st, op, env).store.session;
    assert s'.doc == st.session.doc.(positions := st.session.doc.positions[c.target.id := PlaceIn(c.before)]);
  }

  lemma LayoutFrame(s: Session, s': Session, c: Change)
    requires ChangeOk(c) && c.target.TLayout? && s'.name == s.name
    requires s'.doc == s.doc.(positions := s.doc.positions + map k | k in c.target.nodeIds :: c.before.places[k].GetOr(ORIGIN))
    ensures Restored(s'.doc, c) && Framed(s, s', c)
  {
  }

  lemma LayoutBack(cfg: Config, st: Store, c: Change, env: Env)
    requires ChangeOk(c) && c.target.TLayout?
    requires ApplyOp(cfg, st, c.inverse, env).Done?
    ensures var s' := ApplyOp(cfg, st, c.inverse, env).store.session;
            Restored(s'.doc, c) && Framed(st.session, s', c)
  {
    var places := map k | k in c.target.nodeIds :: Some(c.before.places[k].GetOr(ORIGIN));
    var s' := ApplyOp(cfg, st, LayoutApplied(places), env).store.session;
    var normal := map k | k in places && places[k].Some? :: places[k].value;
    assert normal == map k | k in c.target.nodeIds :: c.before.places[k].GetOr(ORIGIN);
    LayoutFrame(st.session, s', c);
  }

  lemma LevelBack(cfg: Config, st: Store, c: Change, env: Env)
    requires ChangeOk(c) && c.target.TIntensity?
    requires ApplyOp(cfg, st, c.inverse, env).Done?
    ensures var s' := ApplyOp(cfg, st, c.inverse, env).store.session;
            Restored(s'.doc, c) && Framed(st.session, s', c)
  {
    var s' := ApplyOp(cfg, st, IntensitySet(Some(c.before.r)), env).store.session;
    assert s'.doc == st.session.doc.(intensity := c.before.r);
  }

  lemma FlagFrame(s: Session, s': Session, c: Change, list: seq<string>)
    requires ChangeOk(c) && c.target.TFlagged? && s'.name == s.name
    requires s'.doc == s.doc.WithFlagged(c.target.flag, list)
    requires forall x :: x in list <==> if x in c.target.ids then c.inverse.FlagSet? else x in s.doc.Flagged(c.target.flag)
    ensures Restored(s'.doc, c) && Framed(s, s', c)
  {
    assert s'.doc.Flagged(c.target.flag) == list;
    forall flag | flag != c.target.flag ensures s'.doc.Flagged(flag) == s.doc.Flagged(flag) {
    }
  }

  lemma FlagBack(cfg: Config, st: Store, c: Change, env: Env)
    requires ChangeOk(c) && c.target.TFlagged?
    requires ApplyOp(cfg, st, c.inverse, env).Done?
    ensures var s' := ApplyOp(cfg, st, c.inverse, env).store.session;
            Restored(s'.doc, c) && Framed(st.session, s', c)
  {
    var flag, ids := c.target.flag, c.target.ids;
    var held := st.session.doc.Flagged(flag);
    var s' := ApplyOp(cfg, st, c.inverse, env).store.session;
    UnionFacts(held, ids);
    RemoveAllFacts(held, ids);
    var list := if c.inverse.FlagSet? then Union(held, ids) else RemoveAll(held, ids);
    FlagFrame(st.session, s', c, list);
  }

  /** What a successful undo went through. */
  lemma UndoneIs(cfg: Config, st: Store, actor: string, holders: map<string, string>, env: Env)
    requires UndoLast(cfg, st, actor, holders, env).Undone?
    ensures var r := UndoLast(cfg, st, actor, holders, env);
            && LatestUndoable(st.session.log, actor) == Some(r.index)
            && var c := st.session.log[r.index].change;
               var replay := ApplyOp(cfg, Forget(st, c.inverse), c.inverse, ReplayEnv(env));
               && Current(st.session.doc, c.target) == c.after
               && replay.Done?
               && replay.store.session.log == st.session.log
               && r.store == MarkUndone(replay.store, r.index)
  {
  }

  /** Whatever the target, its inverse restores it and touches nothing else. */
  lemma InverseRestores(cfg: Config, st: Store, c: Change, env: Env)
    requires StoreOk(cfg, st) && ChangeOk(c) && MintIsNew(st, env)
    requires Current(st.session.doc, c.target) == c.after
    requires ApplyOp(cfg, st, c.inverse, env).Done?
    ensures var s' := ApplyOp(cfg, st, c.inverse, env).store.session;
            Restored(s'.doc, c) && Framed(st.session, s', c)
  {
    hide PlanOp, ApplyOp, Restored, Framed, StoreOk, Current;
    match c.target {
      case TAnnotation(_) => InverseOfAnnotation(cfg, st, c, env);
      case TPosition(_) => MoveBack(cfg, st, c, env);
      case TFlagged(_, _) => FlagBack(cfg, st, c, env);
      case TIntensity => LevelBack(cfg, st, c, env);
      case TLayout(_) => LayoutBack(cfg, st, c, env);
    }
  }

  /** A successful undo restores its target, leaves everything else alone, marks
      exactly its own record and adds none, so the actor has one fewer to undo. */
  lemma UndoRestores(cfg: Config, st: Store, actor: string, holders: map<string, string>, env: Env)
    requires StoreOk(cfg, st) && MintIsNew(st, env)
    requires UndoLast(cfg, st, actor, holders, env).Undone?
    ensures var r := UndoLast(cfg, st, actor, holders, env);
            var log := st.session.log;
            && r.index < |log| && Eligible(log[r.index], actor)
            && StoreOk(cfg, r.store)
            && r.store.session.seqNo == st.session.seqNo + 1
            && Restored(r.store.session.doc, log[r.index].change)
            && Framed(st.session, r.store.session, log[r.index].change)
            && r.store.session.log == log[r.index := log[r.index].(undone := true)]
            && Undoables(r.store.session.log, actor) == Undoables(log, actor) - 1
            && (forall other :: other != actor ==> Undoables(r.store.session.log, other) == Undoables(log, other))
  {
    hide UndoLast, PlanOp, ApplyOp, Restored, DocOk;
    UndoneIs(cfg, st, actor, holders, env);
    var i := UndoLast(cfg, st, actor, holders, env).index;
    var log := st.session.log;
    var c := log[i].change;
    assert log[i] in log;
    var ready := Forget(st, c.inverse);
    ForgetOk(cfg, st, c.inverse);
    OpKeepsStoreOk(cfg, ready, c.inverse, ReplayEnv(env));
    InverseRestores(cfg, ready, c, ReplayEnv(env));
    MarkKeepsOk(cfg, ApplyOp(cfg, ready, c.inverse, ReplayEnv(env)).store, i);
    forall a ensures Undoables(log[i := log[i].(undone := true)], a) == Undoables(log, a) - (if a == actor then 1 else 0) {
      UndoablesAfterMark(log, i, a);
    }
  }

  lemma MarkKeepsOk(cfg: Config, st: Store, i: nat)
    requires StoreOk(cfg, st) && i < |st.session.log|
    ensures StoreOk(cfg, MarkUndone(st, i))
  {
    var log' := MarkUndone(st, i).session.log;
    forall r | r in log' ensures ChangeOk(r.change) {
      var j :| 0 <= j < |log'| && log'[j] == r;
      assert st.session.log[j] in st.session.log;
    }
  }

  /** The store does not refuse the inverse. */
  predicate Revertible(cfg: Config, st: Store, c: Change) {
    c.target.TAnnotation? ==>
      && (c.after.Absent? ==> multiset(st.deleted)[c.target.id] <= 1 && |st.session.doc.annotations| < cfg.maxAnnotations)
      && (c.before.Absent? ==> c.target.id != "")
  }

  /** Exactly when an undo succeeds: there is an eligible record, what it touched is
      as it left it, nobody else holds a lease on the target; re-creating an annotation
      needs room, and an id remembered as deleted at most once; and a creation under
      the empty id cannot be undone, for its inverse names nothing. */
  lemma UndoSucceedsIff(cfg: Config, st: Store, actor: string, holders: map<string, string>, env: Env)
    requires StoreOk(cfg, st) && MintIsNew(st, env)
    ensures UndoLast(cfg, st, actor, holders, env).Undone? <==>
            var i := LatestUndoable(st.session.log, actor);
            && i.Some?
            && var c := st.session.log[i.value].change;
               var target := TargetOf(c.inverse, st.session.doc);
               && Current(st.session.doc, c.target) == c.after
               && (target.Some? && target.value in holders ==> holders[target.value] == actor)
               && Revertible(cfg, st, c)
  {
    hide ApplyOp, TargetOf, Current, Revertible;
    var i := LatestUndoable(st.session.log, actor);
    if i.Some? && Current(st.session.doc, st.session.log[i.value].change.target) == st.session.log[i.value].change.after {
      InverseApplies(cfg, st, st.session.log[i.value].change, ReplayEnv(env)) by {
        assert st.session.log[i.value] in st.session.log;
      }
    }
  }

  /** The failing input: an annotation created under the empty id, which the boundary
      accepts. Undoing the creation right away is refused. */
  lemma EmptyIdCreationNotUndone(cfg: Config, st: Store, p: Payload, env: Env, undo: Env)
    requires StoreOk(cfg, st) && p.Payload? && p.id == Some("") && Validate(p, false).Some?
    requires !HasAnn(st.session.doc.annotations, "") && "" !in st.deleted && |st.session.doc.annotations| < cfg.maxAnnotations
    requires env.record && env.client != ""
    ensures var made := ApplyOp(cfg, st, AnnotationCreated(p), env);
            made.Done? && UndoLast(cfg, made.store, env.client, map[], undo).Refused?
  {
    var a := Ann("", Validate(p, false).value, 1, map[], p.createdBy.GetOr(Str(env.client)), env.now, p.content);
    var r := Record(env.client, st.session.seqNo + 1, env.now,
                    Change(TAnnotation(""), Absent, AnAnnotation(a), DeleteOf("")), false);
    var made := ApplyOp(cfg, st, AnnotationCreated(p), env);
    assert made.Done? && made.store.session.log == Prune(cfg, st.session.log + [r], env.now);
    PruneKeepsNewest(cfg, st.session.log, r, env.now);
    FindAfterAppend(st.session.doc.annotations, a, made.store.session.doc.annotations);
    LatestIsLast(made.store.session.log, env.client);
    hide ApplyOp;
    EmptyDeleteRefused(cfg, made.store, ReplayEnv(undo));
  }

  lemma LatestIsLast(log: seq<Record>, actor: string)
    requires |log| > 0 && Eligible(log[|log| - 1], actor)
    ensures LatestUndoable(log, actor) == Some(|log| - 1)
  {
  }

  lemma EmptyDeleteRefused(cfg: Config, st: Store, env: Env)
    ensures ApplyOp(cfg, st, DeleteOf(""), env) == Rejected(BadPayload)
    ensures TargetOf(DeleteOf(""), st.session.doc).None? && Forget(st, DeleteOf("")) == st
  {
  }

  lemma InverseApplies(cfg: Config, st: Store, c: Change, env: Env)
    requires StoreOk(cfg, st) && ChangeOk(c) && Current(st.session.doc, c.target) == c.after
    ensures ApplyOp(cfg, Forget(st, c.inverse), c.inverse, env).Done? <==>
            Revertible(cfg, st, c)
  {
    hide ApplyOp, StoreOk;
    match c.target
    case TAnnotation(id) =>
      if c.after.Absent? {
        ReviveApplies(cfg, st, c.before.a, env);
      } else if c.before.Absent? {
        InverseDeleteApplies(cfg, st, id, env);
      } else {
        UpdateApplies(cfg, st, c.before.a, env);
      }
    case TPosition(id) => PlainApplies(cfg, st, c.inverse, env);
    case TFlagged(_, _) => PlainApplies(cfg, st, c.inverse, env);
    case TIntensity => PlainApplies(cfg, st, c.inverse, env);
    case TLayout(_) => PlainApplies(cfg, st, c.inverse, env);
  }

  lemma InverseDeleteApplies(cfg: Config, st: Store, id: string, env: Env)
    ensures ApplyOp(cfg, st, DeleteOf(id), env).Done? <==> id != ""
  {
  }

  lemma UpdateApplies(cfg: Config, st: Store, a: Ann, env: Env)
    requires PositionOk(a.content) && HasAnn(st.session.doc.annotations, a.id)
    requires Find(st.session.doc.annotations, a.id).value.typ == a.typ
    ensures ApplyOp(cfg, st, AnnotationUpdated(PayloadOf(a), NoBase), env).Done?
  {
  }

  /** Ops that carry well-formed values are never refused. */
  lemma PlainApplies(cfg: Config, st: Store, op: Op, env: Env)
    requires || (op.NodeMoved? && op.position.Some?) || op.FlagSet? || op.FlagCleared?
             || (op.IntensitySet? && op.level.Some?)
             || (op.LayoutApplied? && forall k :: k in op.places ==> op.places[k].Some?)
    ensures ApplyOp(cfg, st, op, env).Done?
  {
    hide Prune, SortedSet, Union, Select;
  }

  lemma ReviveApplies(cfg: Config, st: Store, a: Ann, env: Env)
    requires StoreOk(cfg, st) && PositionOk(a.content) && !HasAnn(st.session.doc.annotations, a.id)
    ensures var op := AnnotationCreated(PayloadOf(a));
            ApplyOp(cfg, Forget(st, op), op, env).Done? <==>
            multiset(st.deleted)[a.id] <= 1 && |st.session.doc.annotations| < cfg.maxAnnotations
  {
    var left := RemoveFirst(st.deleted, a.id);
    RemoveFirstFacts(st.deleted, a.id);
    assert a.id in left <==> multiset(left)[a.id] > 0;
    assert a.id in st.deleted <==> multiset(st.deleted)[a.id] > 0;
  }

  lemma DeleteResult(cfg: Config, st: Store, op: Op, id: string, env: Env)
    requires StoreOk(cfg, st) && Deleting(op, id)
    ensures var r := ApplyOp(cfg, st, op, env);
            && r.Done?
            && !HasAnn(r.store.session.doc.annotations, id)
            && r.store.deleted == Last(st.deleted + [id], DELETED_MEMORY)
            && (!HasAnn(st.session.doc.annotations, id) ==> r.store.session.log == st.session.log)
  {
    FindAfterRemove(st.session.doc.annotations, id);
    var anns' := ApplyOp(cfg, st, op, env).store.session.doc.annotations;
    assert HasAnn(anns', id) == Find(anns', id).Some?;
  }

  lemma DeleteLogged(cfg: Config, st: Store, op: Op, id: string, env: Env)
    requires StoreOk(cfg, st) && Deleting(op, id) && HasAnn(st.session.doc.annotations, id)
    requires env.record && env.client != ""
    ensures var log := ApplyOp(cfg, st, op, env).store.session.log;
            |log| > 0 && log[|log| - 1] == DeleteRecord(st, id, env)
  {
    var r := DeleteRecord(st, id, env);
    var log := Prune(cfg, st.session.log + [r], env.now);
    assert ApplyOp(cfg, st, op, env).store.session.log == log;
    PruneKeepsNewest(cfg, st.session.log, r, env.now);
  }

  lemma PruneKeepsNewest(cfg: Config, log: seq<Record>, r: Record, now: int)
    requires r.at >= now
    ensures var log' := Prune(cfg, log + [r], now); |log'| > 0 && log'[|log'| - 1] == r
  {
    assert EndsWith(log + [r], [r]);
    PruneKeepsTail(cfg, log + [r], [r], now);
    assert Capped(cfg, [r]) == [r];
    var log' := Prune(cfg, log + [r], now);
    assert log'[|log'| - 1] == log'[|log'| - 1..][0];
  }

  function DeleteRecord(st: Store, id: string, env: Env): Record
    requires HasAnn(st.session.doc.annotations, id)
  {
    var a := Find(st.session.doc.annotations, id).value;
    Record(env.client, st.session.seqNo + 1, env.now,
           Change(TAnnotation(id), AnAnnotation(a), Absent, AnnotationCreated(PayloadOf(a))), false)
  }

  /** A delete that is sent twice cannot be undone: the id is remembered twice and
      forgotten once, so the replayed create is dropped. */
  lemma RetriedDeleteBlocksUndo(cfg: Config, st: Store, op: Op, retry: Op, id: string, env: Env, again: Env, undo: Env)
    requires StoreOk(cfg, st) && HasAnn(st.session.doc.annotations, id) && MintIsNew(st, env)
    requires Deleting(op, id) && Deleting(retry, id) && env.record && env.client != ""
    ensures var once := ApplyOp(cfg, st, op, env);
            && once.Done?
            && var twice := ApplyOp(cfg, once.store, retry, again);
               && twice.Done?
               && UndoLast(cfg, twice.store, env.client, map[], undo).CannotRevert?
  {
    hide ApplyOp, UndoLast, RingOk, UniqueIds, Ascending, Deleting;
    AnnotationsFind(cfg, st, id);
    DeleteResult(cfg, st, op, id, env);
    var once := ApplyOp(cfg, st, op, env).store;
    DeleteLogged(cfg, st, op, id, env);
    OpKeepsStoreOk(cfg, st, op, env);
    DeleteResult(cfg, once, retry, id, again);
    var twice := ApplyOp(cfg, once, retry, again).store;
    hide StoreOk;
    LastTwo(st.deleted, once.deleted, twice.deleted, id);
    assert !HasAnn(twice.session.doc.annotations, id) && twice.session.log == once.session.log;
    TwiceRememberedBlocks(cfg, twice, Find(st.session.doc.annotations, id).value, env.client, undo);
  }

  lemma AnnotationsFind(cfg: Config, st: Store, id: string)
    requires StoreOk(cfg, st) && HasAnn(st.session.doc.annotations, id)
    ensures var a := Find(st.session.doc.annotations, id).value; a.id == id && PositionOk(a.content)
  {
  }

  lemma LastTwo(before: seq<string>, once: seq<string>, twice: seq<string>, id: string)
    requires once == Last(before + [id], DELETED_MEMORY) && twice == Last(once + [id], DELETED_MEMORY)
    ensures multiset(twice)[id] >= 2
  {
    var n := |twice| - 2;
    assert twice == twice[..n] + [id, id];
    assert multiset(twice) == multiset(twice[..n]) + multiset{id, id};
  }

  lemma TwiceRememberedBlocks(cfg: Config, st: Store, a: Ann, actor: string, undo: Env)
    requires PositionOk(a.content) && !HasAnn(st.session.doc.annotations, a.id)
    requires |st.session.log| > 0
    requires var r := st.session.log[|st.session.log| - 1];
             && Eligible(r, actor)
             && r.change == Change(TAnnotation(a.id), AnAnnotation(a), Absent, AnnotationCreated(PayloadOf(a)))
    requires multiset(st.deleted)[a.id] >= 2
    ensures UndoLast(cfg, st, actor, map[], undo).CannotRevert?
  {
    RemoveFirstFacts(st.deleted, a.id);
    var left := RemoveFirst(st.deleted, a.id);
    assert a.id in st.deleted;
    assert multiset(left)[a.id] > 0 && a.id in left;
    assert ApplyOp(cfg, st.(deleted := left), AnnotationCreated(PayloadOf(a)), ReplayEnv(undo)).Dropped?;
  }
}
