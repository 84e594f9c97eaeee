/**
 What every op keeps: unique ids, bounded counts, sound versions, canonical
 activity records and a contiguous ring.
 */
module SessionFacts {
  import opened Values
  import opened Lists
  import opened SessionModel

  // ------------------------------------------------- lists of annotations

  predicate UniqueIds(anns: seq<Ann>) {
    forall i, j :: 0 <= i < j < |anns| ==> anns[i].id != anns[j].id
  }

  lemma IndexIs(anns: seq<Ann>, i: nat)
    requires UniqueIds(anns) && i < |anns|
    ensures IndexOf(anns, anns[i].id) == i
  {
  }

  lemma FindAfterUpdate(anns: seq<Ann>, i: nat, a: Ann, anns': seq<Ann>)
    requires UniqueIds(anns) && i < |anns| && a.id == anns[i].id
    requires anns' == anns[i := a]
    ensures UniqueIds(anns')
    ensures forall id :: Find(anns', id) == if id == a.id then Some(a) else Find(anns, id)
  {
    forall id ensures Find(anns', id) == if id == a.id then Some(a) else Find(anns, id) {
      var j, k := IndexOf(anns', id), IndexOf(anns, id);
      assert j < |anns| ==> anns[j].id == anns'[j].id;
      assert k < |anns| ==> anns[k].id == anns'[k].id;
      assert j == k;
    }
  }

  lemma FindAfterAppend(anns: seq<Ann>, a: Ann, anns': seq<Ann>)
    requires UniqueIds(anns) && !HasAnn(anns, a.id)
    requires anns' == anns + [a]
    ensures UniqueIds(anns')
    ensures forall id :: Find(anns', id) == if id == a.id then Some(a) else Find(anns, id)
  {
    forall id ensures Find(anns', id) == if id == a.id then Some(a) else Find(anns, id) {
      var j, k := IndexOf(anns', id), IndexOf(anns, id);
      assert anns'[|anns|] == a;
      assert k < |anns| ==> anns'[k].id == id;
      assert j < |anns| ==> anns[j].id == id;
      assert j < |anns| + 1 ==> anns'[j].id == id;
    }
  }

  lemma FindAfterRemove(anns: seq<Ann>, id: string)
    requires UniqueIds(anns)
    ensures UniqueIds(Select(anns, OtherThan(id)))
    ensures forall x :: Find(Select(anns, OtherThan(id)), x) == if x == id then None else Find(anns, x)
  {
    hide Find, Select, UniqueIds;
    UniqueKept(anns, OtherThan(id));
    forall x ensures Find(Select(anns, OtherThan(id)), x) == if x == id then None else Find(anns, x) {
      FindKept(anns, id, x);
    }
  }

  lemma {:induction false} UniqueKept(anns: seq<Ann>, keep: Ann -> bool)
    requires UniqueIds(anns)
    ensures UniqueIds(Select(anns, keep))
  {
    if anns != [] {
      UniqueKept(anns[1..], keep);
      SelectFacts(anns[1..], keep);
      var rest := Select(anns[1..], keep);
      forall i | 0 <= i < |rest| ensures rest[i].id != anns[0].id {
        assert rest[i] in anns[1..];
      }
    }
  }

  lemma {:induction false} FindKept(anns: seq<Ann>, id: string, x: string)
    ensures Find(Select(anns, OtherThan(id)), x) == if x == id then None else Find(anns, x)
  {
    hide Find;
    FindCons(anns);
    if anns != [] {
      var kept := Select(anns[1..], OtherThan(id));
      FindKept(anns[1..], id, x);
      FindCons([anns[0]] + kept);
      assert ([anns[0]] + kept)[1..] == kept;
    }
  }

  lemma FindCons(anns: seq<Ann>)
    ensures anns == [] ==> forall x :: Find(anns, x) == None
    ensures anns != [] ==> forall x :: Find(anns, x) == if x == anns[0].id then Some(anns[0]) else Find(anns[1..], x)
  {
  }

  lemma FindAfterDropMembers(anns: seq<Ann>, drop: seq<string>, anns': seq<Ann>)
    requires UniqueIds(anns) && |anns'| == |anns|
    requires forall i :: 0 <= i < |anns| ==> anns'[i] == DropMembers(anns[i], drop)
    ensures UniqueIds(anns')
    ensures forall id :: HasAnn(anns', id) == HasAnn(anns, id)
    ensures forall id :: HasAnn(anns, id) ==> Find(anns', id) == Some(DropMembers(Find(anns, id).value, drop))
  {
    forall id ensures IndexOf(anns', id) == IndexOf(anns, id) {
      var j, k := IndexOf(anns', id), IndexOf(anns, id);
      assert j < |anns| ==> anns[j].id == anns'[j].id;
      assert k < |anns| ==> anns[k].id == anns'[k].id;
    }
  }

  // ------------------------------------------------------ well-formedness

  predicate AnnOk(a: Ann) {
    && a.version >= 1
    && (forall k :: k in a.fieldVersions ==> 1 <= a.fieldVersions[k] <= a.version)
    && PositionOk(a.content)
  }

  predicate DocOk(cfg: Config, doc: Doc) {
    && UniqueIds(doc.annotations)
    && |doc.annotations| <= cfg.maxAnnotations
    && (forall i :: 0 <= i < |doc.annotations| ==> AnnOk(doc.annotations[i]))
    && NoDup(doc.nodeRefs)
    && NoDup(doc.hiddenNodes)
    && NoDup(doc.hiddenEdges)
    && NoDup(doc.dimmedNodes)
    && NoDup(doc.dimmedEdges)
    && 0.0 <= doc.intensity <= 1.0
  }

  /** A record's before, after and inverse fit the target they speak of. */
  predicate ChangeOk(c: Change) {
    match c.target
    case TAnnotation(id) =>
      || (c.before.Absent? && c.after.AnAnnotation? && c.after.a.id == id && c.inverse == DeleteOf(id))
      || (&& c.before.AnAnnotation? && c.after.AnAnnotation?
          && c.before.a.id == id == c.after.a.id
          && c.before.a.typ == c.after.a.typ
          && PositionOk(c.before.a.content)
          && c.inverse == AnnotationUpdated(PayloadOf(c.before.a), NoBase))
      || (&& c.before.AnAnnotation? && c.after.Absent?
          && c.before.a.id == id
          && PositionOk(c.before.a.content)
          && c.inverse == AnnotationCreated(PayloadOf(c.before.a)))
    case TPosition(id) =>
      && c.after.APosition?
      && (c.before.Absent? || c.before.APosition?)
      && c.inverse == NodeMoved(id, Some(if c.before.APosition? then c.before.p else ORIGIN))
    case TFlagged(flag, ids) =>
      && flag != HiddenEdge && ids != [] && Ascending(ids)
      && (|| (c.before == Ids([]) && c.after == Ids(ids) && c.inverse == FlagCleared(flag, ids))
          || (c.before == Ids(ids) && c.after == Ids([]) && c.inverse == FlagSet(flag, ids)))
    case TIntensity =>
      && c.before.ALevel? && c.after.ALevel?
      && 0.0 <= c.before.r <= 1.0
      && c.inverse == IntensitySet(Some(c.before.r))
    case TLayout(nodeIds) =>
      && c.before.Places? && c.after.Places?
      && c.before.places.Keys == nodeIds == c.after.places.Keys
      && (forall k :: k in nodeIds ==> c.after.places[k].Some?)
      && c.inverse == LayoutApplied(map k | k in nodeIds :: Some(c.before.places[k].GetOr(ORIGIN)))
  }

  predicate LogOk(log: seq<Record>) {
    forall r :: r in log ==> ChangeOk(r.change)
  }

  /** The ring is a contiguous run of seqs that ends at the session's own. */
  predicate RingOk(cfg: Config, st: Store) {
    && |st.ring| <= cfg.ringSize
    && |st.ring| <= st.session.seqNo
    && forall i :: 0 <= i < |st.ring| ==> st.ring[i].seqNo == st.session.seqNo - |st.ring| + 1 + i
  }

  predicate StoreOk(cfg: Config, st: Store) {
    && DocOk(cfg, st.session.doc)
    && LogOk(st.session.log)
    && RingOk(cfg, st)
    && |st.deleted| <= DELETED_MEMORY
  }

  /** Minted ids are new: the one assumption made of the random id source. */
  predicate MintIsNew(st: Store, env: Env) {
    !HasAnn(st.session.doc.annotations, env.mint)
  }

  lemma MergeOk(a: Ann, p: Payload, now: int)
    requires AnnOk(a) && p.Payload? && PositionOk(p.content)
    ensures AnnOk(Merge(a, p, now))
  {
  }

  lemma PlanMergeOk(cfg: Config, st: Store, i: nat, p: Payload, env: Env)
    requires StoreOk(cfg, st) && i < |st.session.doc.annotations|
    requires p.Payload? && PositionOk(p.content)
    ensures var q := PlanMerge(st.session, st.deleted, i, p, env);
            DocOk(cfg, q.doc) && q.deleted == st.deleted && ChangeOk(q.change.value)
  {
    var anns := st.session.doc.annotations;
    MergeOk(anns[i], p, env.now);
    FindAfterUpdate(anns, i, Merge(anns[i], p, env.now), PlanMerge(st.session, st.deleted, i, p, env).doc.annotations);
  }

  lemma PlanCreateOk(cfg: Config, st: Store, p: Payload, env: Env)
    requires StoreOk(cfg, st) && MintIsNew(st, env)
    requires PlanCreate(cfg, st.session, st.deleted, p, env).Step?
    ensures var q := PlanCreate(cfg, st.session, st.deleted, p, env);
            DocOk(cfg, q.doc) && q.deleted == st.deleted && ChangeOk(q.change.value)
  {
    var anns := st.session.doc.annotations;
    if p.id.Some? && HasAnn(anns, p.id.value) {
      PlanMergeOk(cfg, st, IndexOf(anns, p.id.value), p, env);
    } else {
      var q := PlanCreate(cfg, st.session, st.deleted, p, env);
      FindAfterAppend(anns, q.effect.annotation, q.doc.annotations);
    }
  }

  lemma PlanDeleteOk(cfg: Config, st: Store, id: string)
    requires StoreOk(cfg, st)
    ensures var q := PlanDelete(st.session, st.deleted, id);
            DocOk(cfg, q.doc) && |q.deleted| <= DELETED_MEMORY && (q.change.Some? ==> ChangeOk(q.change.value))
  {
    var anns := st.session.doc.annotations;
    FindAfterRemove(anns, id);
    SelectFacts(anns, OtherThan(id));
    var kept := Select(anns, OtherThan(id));
    assert forall i :: 0 <= i < |kept| ==> kept[i] in kept && kept[i] in anns;
  }

  lemma PlanGroupOk(cfg: Config, st: Store, groupId: string, members: seq<string>, env: Env)
    requires StoreOk(cfg, st)
    requires PlanGroup(st.session, st.deleted, groupId, members, env).Step?
    ensures DocOk(cfg, PlanGroup(st.session, st.deleted, groupId, members, env).doc)
  {
    var anns := st.session.doc.annotations;
    var i := IndexOf(anns, groupId);
    var q := PlanGroup(st.session, st.deleted, groupId, members, env);
    FindAfterUpdate(anns, i, q.doc.annotations[i], q.doc.annotations);
  }

  lemma DropNodesOk(cfg: Config, doc: Doc, drop: seq<string>)
    requires DocOk(cfg, doc)
    ensures DocOk(cfg, DropNodes(doc, drop))
  {
    RemoveAllFacts(doc.nodeRefs, drop);
    RemoveAllFacts(doc.hiddenNodes, drop);
    RemoveAllFacts(doc.dimmedNodes, drop);
    FindAfterDropMembers(doc.annotations, drop, DropNodes(doc, drop).annotations);
  }

  lemma PlanFlagOk(cfg: Config, st: Store, op: Op, env: Env)
    requires StoreOk(cfg, st) && (op.FlagSet? || op.FlagCleared?)
    ensures var q := PlanOp(cfg, st.session, st.deleted, op, env);
            DocOk(cfg, q.doc) && q.deleted == st.deleted && (q.change.Some? ==> ChangeOk(q.change.value))
  {
    hide Union, RemoveAll, SortedSet, Select, UniqueIds, AnnOk, Ascending;
    var held := st.session.doc.Flagged(op.flag);
    UnionFacts(held, op.ids);
    RemoveAllFacts(held, op.ids);
    SortedSetFacts(Select(op.ids, Outside(held)));
    SortedSetFacts(Select(op.ids, Inside(held)));
  }

  lemma PlanLayoutOk(cfg: Config, st: Store, op: Op, env: Env)
    requires StoreOk(cfg, st) && op.LayoutApplied?
    requires PlanOp(cfg, st.session, st.deleted, op, env).Step?
    ensures var q := PlanOp(cfg, st.session, st.deleted, op, env);
            DocOk(cfg, q.doc) && q.deleted == st.deleted && ChangeOk(q.change.value)
  {
    var c := PlanOp(cfg, st.session, st.deleted, op, env).change.value;
    assert c.inverse.places == map k | k in c.target.nodeIds :: Some(c.before.places[k].GetOr(ORIGIN));
  }

  lemma PlanOk(cfg: Config, st: Store, op: Op, env: Env)
    requires StoreOk(cfg, st) && MintIsNew(st, env)
    requires PlanOp(cfg, st.session, st.deleted, op, env).Step?
    ensures var q := PlanOp(cfg, st.session, st.deleted, op, env);
            DocOk(cfg, q.doc) && |q.deleted| <= DELETED_MEMORY && (q.change.Some? ==> ChangeOk(q.change.value))
  {
    var doc := st.session.doc;
    match op
    case NodesAdded(ids) => UnionFacts(doc.nodeRefs, ids);
    case NodesRemoved(ids) => DropNodesOk(cfg, doc, ids);
    case FlagSet(_, _) => PlanFlagOk(cfg, st, op, env);
    case FlagCleared(_, _) => PlanFlagOk(cfg, st, op, env);
    case AnnotationCreated(payload) => PlanCreateOk(cfg, st, payload, env);
    case AnnotationUpdated(payload, base) =>
      PlanMergeOk(cfg, st, IndexOf(doc.annotations, payload.id.value), payload, env);
    case AnnotationDeleted(annotationId, fallback) => PlanDeleteOk(cfg, st, DeletedId(annotationId, fallback).value);
    case GroupMembershipChanged(groupId, members) => PlanGroupOk(cfg, st, groupId, members, env);
    case LayoutApplied(_) => PlanLayoutOk(cfg, st, op, env);
    case _ =>
  }

  lemma PruneOk(cfg: Config, log: seq<Record>, now: int)
    ensures forall r :: r in Prune(cfg, log, now) ==> r in log
  {
    var kept := if cfg.maxAge > 0 then Select(log, NotOlderThan(now - cfg.maxAge)) else log;
    SelectFacts(log, NotOlderThan(now - cfg.maxAge));
    assert forall r :: r in kept ==> r in log;
  }

  /** `log` ends with the records of `tail`. */
  predicate EndsWith<T(==)>(log: seq<T>, tail: seq<T>) {
    |tail| <= |log| && log[|log| - |tail|..] == tail
  }

  function Capped<T>(cfg: Config, s: seq<T>): seq<T> {
    if cfg.maxRecords > 0 then Last(s, cfg.maxRecords) else s
  }

  lemma CappedTail<T>(cfg: Config, s: seq<T>, tail: seq<T>)
    requires EndsWith(s, tail)
    ensures EndsWith(Capped(cfg, s), Capped(cfg, tail))
  {
    if 0 < cfg.maxRecords < |tail| {
      var c := cfg.maxRecords;
      assert s[|s| - c..] == s[|s| - |tail|..][|tail| - c..];
    } else if 0 < cfg.maxRecords < |s| {
      var c := cfg.maxRecords;
      assert s[|s| - c..][c - |tail|..] == s[|s| - |tail|..];
    }
  }

  lemma SelectTail<T>(s: seq<T>, tail: seq<T>, keep: T -> bool)
    requires EndsWith(s, tail) && forall x :: x in tail ==> keep(x)
    ensures EndsWith(Select(s, keep), tail)
  {
    var head := s[..|s| - |tail|];
    assert s == head + tail;
    SelectAppend(head, tail, keep);
    SelectAll(tail, keep);
  }

  /** Retention keeps the newest records that are within age, up to the cap. */
  lemma PruneKeepsTail(cfg: Config, log: seq<Record>, tail: seq<Record>, now: int)
    requires EndsWith(log, tail)
    requires cfg.maxAge > 0 ==> forall r :: r in tail ==> r.at >= now - cfg.maxAge
    ensures EndsWith(Prune(cfg, log, now), Capped(cfg, tail))
  {
    if cfg.maxAge > 0 {
      var keep := NotOlderThan(now - cfg.maxAge);
      SelectTail(log, tail, keep);
      CappedTail(cfg, Select(log, keep), tail);
    } else {
      CappedTail(cfg, log, tail);
    }
  }

  /** Every op keeps the store well formed, and advances the seq by exactly one. */
  lemma OpKeepsStoreOk(cfg: Config, st: Store, op: Op, env: Env)
    requires StoreOk(cfg, st) && MintIsNew(st, env)
    requires ApplyOp(cfg, st, op, env).Done?
    ensures var r := ApplyOp(cfg, st, op, env);
            && StoreOk(cfg, r.store)
            && r.store.session.seqNo == st.session.seqNo + 1 == r.applied.seqNo
  {
    hide PlanOp, DocOk, ChangeOk, Prune;
    PlanOk(cfg, st, op, env);
    var q := PlanOp(cfg, st.session, st.deleted, op, env);
    if q.change.Some? {
      PruneOk(cfg, st.session.log + [Record(env.client, st.session.seqNo + 1, env.now, q.change.value, false)], env.now);
    }
  }

  /** An annotation op leaves the rest of the document, and the name, alone. */
  lemma AnnotationOpFrame(cfg: Config, st: Store, op: Op, env: Env)
    requires op.AnnotationCreated? || op.AnnotationUpdated? || op.AnnotationDeleted?
    requires ApplyOp(cfg, st, op, env).Done?
    ensures var s, s' := st.session, ApplyOp(cfg, st, op, env).store.session;
            s'.doc == s.doc.(annotations := s'.doc.annotations) && s'.name == s.name
  {
    hide Validate, Merge, Prune;
  }

  // ------------------------------------------------ one annotation's lifetime

  /** Equal in everything but the group membership a node removal may shrink. */
  ghost predicate SameButMembers(a: Ann, b: Ann) {
    && a.id == b.id && a.typ == b.typ && a.version == b.version
    && a.fieldVersions == b.fieldVersions && a.createdBy == b.createdBy
    && forall k :: k != MEMBERS ==> Get(a.content, k) == Get(b.content, k)
  }

  /** An op leaves every annotation it is not aimed at as it was, members aside. */
  lemma UntargetedUnchanged(cfg: Config, st: Store, op: Op, env: Env, id: string)
    requires StoreOk(cfg, st) && MintIsNew(st, env)
    requires ApplyOp(cfg, st, op, env).Done?
    requires HasAnn(st.session.doc.annotations, id) && TargetOf(op, st.session.doc) != Some(id)
    ensures var after := Find(ApplyOp(cfg, st, op, env).store.session.doc.annotations, id);
            && after.Some?
            && SameButMembers(Find(st.session.doc.annotations, id).value, after.value)
            && (!op.NodesRemoved? ==> after == Find(st.session.doc.annotations, id))
  {
    AnnotationsAfter(cfg, st, op, env);
  }

  /** While an annotation lives, its type is fixed and its version never falls;
      a change to any field but the membership raises the version by one. */
  lemma LifetimeStep(cfg: Config, st: Store, op: Op, env: Env, id: string)
    requires StoreOk(cfg, st) && MintIsNew(st, env)
    requires ApplyOp(cfg, st, op, env).Done?
    requires HasAnn(st.session.doc.annotations, id)
    requires HasAnn(ApplyOp(cfg, st, op, env).store.session.doc.annotations, id)
    ensures var a := Find(st.session.doc.annotations, id).value;
            var b := Find(ApplyOp(cfg, st, op, env).store.session.doc.annotations, id).value;
            a.typ == b.typ && (SameButMembers(a, b) || b.version == a.version + 1)
  {
    AnnotationsAfter(cfg, st, op, env);
    if TargetOf(op, st.session.doc) == Some(id) {
      IndexIs(st.session.doc.annotations, IndexOf(st.session.doc.annotations, id));
    } else {
      UntargetedUnchanged(cfg, st, op, env, id);
    }
  }

  // ------------------------------------------------------ the deleted memory

  /** Applied in order, skipping what is refused or dropped. */
  function Run(cfg: Config, st: Store, ops: seq<(Op, Env)>): Store
    decreases |ops|
  {
    if ops == [] then st
    else
      var r := ApplyOp(cfg, st, ops[0].0, ops[0].1);
      Run(cfg, if r.Done? then r.store else st, ops[1..])
  }

  function Deletions(ops: seq<(Op, Env)>): nat {
    if ops == [] then 0 else (if ops[0].0.AnnotationDeleted? then 1 else 0) + Deletions(ops[1..])
  }

  ghost predicate MintsNew(cfg: Config, st: Store, ops: seq<(Op, Env)>)
    decreases |ops|
  {
    ops != [] ==>
      && MintIsNew(st, ops[0].1)
      && ops[0].1.mint !in st.deleted
      && var r := ApplyOp(cfg, st, ops[0].0, ops[0].1);
         MintsNew(cfg, if r.Done? then r.store else st, ops[1..])
  }

  /** `id` sits in the memory with at least `room` further deletions before it falls out. */
  predicate Remembered(st: Store, id: string, room: int) {
    exists j :: 0 <= j < |st.deleted| && st.deleted[j] == id && DELETED_MEMORY - |st.deleted| + j >= room
  }

  /** A deleted id stays gone until two hundred further deletions push it out. */
  lemma {:induction false} DeletedStaysGone(cfg: Config, st: Store, ops: seq<(Op, Env)>, id: string, room: nat)
    requires StoreOk(cfg, st) && MintsNew(cfg, st, ops)
    requires Remembered(st, id, room) && !HasAnn(st.session.doc.annotations, id)
    requires Deletions(ops) <= room
    ensures !HasAnn(Run(cfg, st, ops).session.doc.annotations, id)
    decreases |ops|
  {
    if ops != [] {
      var (op, env) := ops[0];
      var r := ApplyOp(cfg, st, op, env);
      if r.Done? {
        OpKeepsStoreOk(cfg, st, op, env);
        StillGone(cfg, st, op, env, id, room);
        DeletedStaysGone(cfg, r.store, ops[1..], id, if op.AnnotationDeleted? then room - 1 else room);
      } else {
        DeletedStaysGone(cfg, st, ops[1..], id, room);
      }
    }
  }

  lemma StillGone(cfg: Config, st: Store, op: Op, env: Env, id: string, room: nat)
    requires StoreOk(cfg, st) && MintIsNew(st, env) && env.mint !in st.deleted
    requires Remembered(st, id, room) && !HasAnn(st.session.doc.annotations, id)
    requires op.AnnotationDeleted? ==> room >= 1
    requires ApplyOp(cfg, st, op, env).Done?
    ensures var st' := ApplyOp(cfg, st, op, env).store;
            && !HasAnn(st'.session.doc.annotations, id)
            && Remembered(st', id, if op.AnnotationDeleted? then room - 1 else room)
  {
    NotRevived(cfg, st, op, env, id);
    var st' := ApplyOp(cfg, st, op, env).store;
    var j :| 0 <= j < |st.deleted| && st.deleted[j] == id && DELETED_MEMORY - |st.deleted| + j >= room;
    if op.AnnotationDeleted? {
      var j' := if |st.deleted| == DELETED_MEMORY then j - 1 else j;
      assert st'.deleted[j'] == (st.deleted + DeletedIds(op))[j];
    } else {
      DeletedUnchanged(cfg, st, op, env);
    }
  }

  lemma DeletedUnchanged(cfg: Config, st: Store, op: Op, env: Env)
    requires ApplyOp(cfg, st, op, env).Done? && !op.AnnotationDeleted?
    ensures ApplyOp(cfg, st, op, env).store.deleted == st.deleted
  {
  }

  lemma NotRevived(cfg: Config, st: Store, op: Op, env: Env, id: string)
    requires StoreOk(cfg, st) && MintIsNew(st, env) && env.mint != id
    requires id in st.deleted && !HasAnn(st.session.doc.annotations, id)
    requires ApplyOp(cfg, st, op, env).Done?
    ensures !HasAnn(ApplyOp(cfg, st, op, env).store.session.doc.annotations, id)
  {
    var anns := st.session.doc.annotations;
    var anns' := ApplyOp(cfg, st, op, env).store.session.doc.annotations;
    AnnotationsAfter(cfg, st, op, env);
    assert HasAnn(anns', id) == Find(anns', id).Some?;
    assert HasAnn(anns, id) == Find(anns, id).Some?;
  }

  lemma MergeAfter(cfg: Config, st: Store, i: nat, p: Payload, env: Env)
    requires StoreOk(cfg, st) && i < |st.session.doc.annotations| && p.Payload?
    ensures var q := PlanMerge(st.session, st.deleted, i, p, env);
            && q.effect.annotation.id == st.session.doc.annotations[i].id
            && forall id :: Find(q.doc.annotations, id) == if id == q.effect.annotation.id
                                                           then Some(q.effect.annotation)
                                                           else Find(st.session.doc.annotations, id)
  {
    var q := PlanMerge(st.session, st.deleted, i, p, env);
    FindAfterUpdate(st.session.doc.annotations, i, q.effect.annotation, q.doc.annotations);
  }

  /** How the annotations of any applied op look afterwards, id by id. */
  lemma AnnotationsAfter(cfg: Config, st: Store, op: Op, env: Env)
    requires StoreOk(cfg, st) && MintIsNew(st, env)
    requires ApplyOp(cfg, st, op, env).Done?
    ensures var r := ApplyOp(cfg, st, op, env);
            var anns, anns' := st.session.doc.annotations, r.store.session.doc.annotations;
            match op
            case AnnotationCreated(p) =>
              && p.Payload?
              && r.applied.effect.EAnnotation?
              && r.applied.effect.annotation.id == p.id.GetOr(env.mint)
              && (p.id.Some? ==> p.id.value !in st.deleted)
              && forall id :: Find(anns', id) == if id == r.applied.effect.annotation.id
                                                 then Some(r.applied.effect.annotation) else Find(anns, id)
            case AnnotationUpdated(p, _) =>
              && p.Payload? && p.id.Some?
              && r.applied.effect.EAnnotation?
              && r.applied.effect.annotation.id == p.id.value
              && HasAnn(anns, p.id.value)
              && forall id :: Find(anns', id) == if id == p.id.value
                                                 then Some(r.applied.effect.annotation) else Find(anns, id)
            case AnnotationDeleted(annotationId, fallback) =>
              && DeletedId(annotationId, fallback).Some?
              && forall id :: Find(anns', id) == if Some(id) == DeletedId(annotationId, fallback) then None else Find(anns, id)
            case GroupMembershipChanged(g, members) =>
              && HasAnn(anns, g)
              && forall id :: Find(anns', id) == if id == g
                                                 then Some(SetMembers(Find(anns, g).value, members).(updatedAt := env.now))
                                                 else Find(anns, id)
            case NodesRemoved(ids) =>
              && (forall id :: HasAnn(anns', id) == HasAnn(anns, id))
              && forall id :: HasAnn(anns, id) ==> Find(anns', id) == Some(DropMembers(Find(anns, id).value, ids))
            case _ => anns' == anns
  {
    var anns := st.session.doc.annotations;
    var q := PlanOp(cfg, st.session, st.deleted, op, env);
    match op
    case NodesRemoved(ids) => FindAfterDropMembers(anns, ids, q.doc.annotations);
    case AnnotationCreated(p) =>
      if p.id.Some? && HasAnn(anns, p.id.value) {
        MergeAfter(cfg, st, IndexOf(anns, p.id.value), p, env);
      } else {
        FindAfterAppend(anns, q.effect.annotation, q.doc.annotations);
      }
    case AnnotationUpdated(p, base) => MergeAfter(cfg, st, IndexOf(anns, p.id.value), p, env);
    case AnnotationDeleted(annotationId, fallback) => FindAfterRemove(anns, DeletedId(annotationId, fallback).value);
    case GroupMembershipChanged(groupId, members) =>
      var i := IndexOf(anns, groupId);
      FindAfterUpdate(anns, i, q.doc.annotations[i], q.doc.annotations);
    case _ =>
  }

  // ------------------------------------------------------------- the ring

  /** Catch-up is exact: the ops `since + 1 .. seq`, or nothing at all when the
      ring no longer holds op `since + 1`. */
  lemma OpsSinceExact(cfg: Config, st: Store, since: nat)
    requires StoreOk(cfg, st)
    ensures var r := OpsSince(st, since);
            var held := |st.ring| > 0 && st.ring[0].seqNo <= since + 1;
            && (r.None? <==> since < st.session.seqNo && !held)
            && (r.Some? && since < st.session.seqNo ==>
                  && since + |st.ring| >= st.session.seqNo
                  && r.value == st.ring[since + |st.ring| - st.session.seqNo..]
                  && |r.value| == st.session.seqNo - since
                  && forall i :: 0 <= i < |r.value| ==> r.value[i].seqNo == since + 1 + i)
  {
    if since < st.session.seqNo && |st.ring| > 0 && st.ring[0].seqNo <= since + 1 {
      SelectAfter(st.ring, st.session.seqNo - |st.ring| + 1, since);
    }
  }

  lemma {:induction false} SelectAfter(ring: seq<Applied>, first: int, since: int)
    requires forall i :: 0 <= i < |ring| ==> ring[i].seqNo == first + i
    requires first - 1 <= since < first + |ring|
    ensures Select(ring, After(since)) == ring[since + 1 - first..]
  {
    if ring != [] {
      if first > since {
        SelectAll(ring, After(since));
      } else {
        SelectAfter(ring[1..], first + 1, since);
      }
    }
  }
}
