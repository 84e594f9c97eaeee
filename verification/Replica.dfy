/**
 The client's mirror: how a subscriber folds an applied op into its own copy,
 and the proof that folding gives exactly the document the server then holds.
 `updatedAt` is left out of the comparison: `group_membership_changed` sets it
 on the server without sending it.
 */
module Replica {
  import opened Values
  import opened Lists
  import opened SessionModel
  import opened SessionFacts

  function Timeless(anns: seq<Ann>): (r: seq<Ann>)
    ensures |r| == |anns|
    ensures forall i :: 0 <= i < |anns| ==> r[i] == anns[i].(updatedAt := 0)
  {
    seq(|anns|, i requires 0 <= i < |anns| => anns[i].(updatedAt := 0))
  }

  /** What a subscriber and the server can agree on. */
  function View(s: Session): Doc {
    s.doc.(annotations := Timeless(s.doc.annotations))
  }

  /** The client's own transform of its mirror for one applied op. It skips a move
      and an annotation under the empty id. */
  function Fold(doc: Doc, e: Effect): Doc {
    match e
    case ENodesAdded(ids) => doc.(nodeRefs := Union(doc.nodeRefs, ids))
    case ENodesRemoved(ids) => DropNodes(doc, ids)
    case EMoved(id, position) => if id == "" then doc else doc.(positions := doc.positions[id := position])
    case EFlagSet(flag, ids) => doc.WithFlagged(flag, Union(doc.Flagged(flag), ids))
    case EFlagCleared(flag, ids) => doc.WithFlagged(flag, RemoveAll(doc.Flagged(flag), ids))
    case EFanOut(_) => doc
    case EIntensity(value) => doc.(intensity := Clamp(value))
    case EAnnotation(a) => if a.id == "" then doc else doc.(annotations := FoldAnnotation(doc.annotations, a))
    case EDeleted(id) => doc.(annotations := Select(doc.annotations, OtherThan(id)))
    case EMembers(groupId, members) =>
      doc.(annotations := seq(|doc.annotations|, i requires 0 <= i < |doc.annotations| =>
        var a := doc.annotations[i];
        if a.id == groupId && a.typ == Group then SetMembers(a, members) else a))
    case ERenamed(_) => doc
    case ELayout(positions) => doc.(positions := doc.positions + positions)
  }

  /** The mirror takes this op over: it carries no empty id, or moves it nowhere. */
  predicate Mirrored(doc: Doc, e: Effect) {
    match e
    case EMoved(id, position) => id != "" || Lookup(doc.positions, "") == Some(position)
    case EAnnotation(a) => a.id != ""
    case _ => true
  }

  /** Folding the op leads from one document to the next, if the op is mirrored, and
      only then. */
  ghost predicate Leads(doc: Doc, e: Effect, next: Doc) {
    Fold(doc, e) == next <==> Mirrored(doc, e)
  }

  /** Append an unknown annotation; lay a known one over the copy already held. */
  function FoldAnnotation(anns: seq<Ann>, a: Ann): seq<Ann> {
    var i := IndexOf(anns, a.id);
    if i == |anns| then anns + [a.(updatedAt := 0)]
    else anns[i := a.(updatedAt := 0, content := anns[i].content + a.content)]
  }

  lemma IndexOfTimeless(anns: seq<Ann>, id: string)
    ensures IndexOf(Timeless(anns), id) == IndexOf(anns, id)
  {
    var t := Timeless(anns);
    var i, j := IndexOf(t, id), IndexOf(anns, id);
    assert i < |anns| ==> anns[i].id == t[i].id;
    assert j < |anns| ==> anns[j].id == t[j].id;
  }

  lemma {:induction false} SelectTimeless(anns: seq<Ann>, id: string)
    ensures Select(Timeless(anns), OtherThan(id)) == Timeless(Select(anns, OtherThan(id)))
  {
    if anns != [] {
      SelectTimeless(anns[1..], id);
      assert Timeless(anns)[1..] == Timeless(anns[1..]);
      assert Timeless(anns)[0].id == anns[0].id;
    }
  }

  /** The planned effect leads a mirror to the planned document, as far as mirrors go. */
  ghost predicate Folds(s: Session, q: Plan)
    requires q.Step?
  {
    Leads(View(s), q.effect, q.doc.(annotations := Timeless(q.doc.annotations)))
  }

  /** Enough for an op that only changes the annotations. */
  lemma FoldsIfAnnotationsDo(s: Session, q: Plan)
    requires q.Step? && (q.effect.EAnnotation? || q.effect.EDeleted? || q.effect.EMembers?)
    requires q.name == s.name && q.doc == s.doc.(annotations := q.doc.annotations)
    requires Fold(View(s), q.effect).annotations == Timeless(q.doc.annotations) <==> Mirrored(View(s), q.effect)
    ensures Folds(s, q)
  {
  }

  lemma FoldMergeMatches(s: Session, deleted: seq<string>, i: nat, p: Payload, env: Env)
    requires UniqueIds(s.doc.annotations) && i < |s.doc.annotations| && p.Payload?
    ensures Folds(s, PlanMerge(s, deleted, i, p, env))
  {
    var anns := s.doc.annotations;
    var q := PlanMerge(s, deleted, i, p, env);
    IndexOfTimeless(anns, anns[i].id);
    IndexIs(anns, i);
    assert anns[i].content + (anns[i].content + p.content) == anns[i].content + p.content;
    assert FoldAnnotation(Timeless(anns), q.effect.annotation) == Timeless(q.doc.annotations);
    assert Timeless(anns)[i].version != Timeless(q.doc.annotations)[i].version;
    FoldsIfAnnotationsDo(s, q);
  }

  lemma FoldCreateMatches(cfg: Config, st: Store, p: Payload, env: Env)
    requires StoreOk(cfg, st) && MintIsNew(st, env)
    requires PlanCreate(cfg, st.session, st.deleted, p, env).Step?
    ensures Folds(st.session, PlanCreate(cfg, st.session, st.deleted, p, env))
  {
    var anns := st.session.doc.annotations;
    var q := PlanCreate(cfg, st.session, st.deleted, p, env);
    if p.id.Some? && HasAnn(anns, p.id.value) {
      FoldMergeMatches(st.session, st.deleted, IndexOf(anns, p.id.value), p, env);
    } else {
      IndexOfTimeless(anns, q.effect.annotation.id);
      assert Timeless(anns + [q.effect.annotation]) == Timeless(anns) + [q.effect.annotation.(updatedAt := 0)];
      assert |Timeless(anns)| != |Timeless(q.doc.annotations)|;
      FoldsIfAnnotationsDo(st.session, q);
    }
  }

  lemma FoldDeleteMatches(s: Session, deleted: seq<string>, id: string)
    ensures Folds(s, PlanDelete(s, deleted, id))
  {
    SelectTimeless(s.doc.annotations, id);
    FoldsIfAnnotationsDo(s, PlanDelete(s, deleted, id));
  }

  lemma FoldDropMatches(doc: Doc, drop: seq<string>)
    ensures DropNodes(doc.(annotations := Timeless(doc.annotations)), drop).annotations
            == Timeless(DropNodes(doc, drop).annotations)
  {
  }

  lemma FoldGroupMatches(s: Session, deleted: seq<string>, g: string, members: seq<string>, env: Env)
    requires UniqueIds(s.doc.annotations)
    requires PlanGroup(s, deleted, g, members, env).Step?
    ensures Folds(s, PlanGroup(s, deleted, g, members, env))
  {
    var i := IndexOf(s.doc.annotations, g);
    var q := PlanGroup(s, deleted, g, members, env);
    var sh' := Fold(View(s), EMembers(g, members)).annotations;
    var anns' := Timeless(q.doc.annotations);
    forall j | 0 <= j < |sh'| ensures sh'[j] == anns'[j] {
      assert s.doc.annotations[j].id == g <==> j == i;
    }
    assert sh' == anns';
    FoldsIfAnnotationsDo(s, q);
  }

  lemma FoldPlainMatches(cfg: Config, s: Session, deleted: seq<string>, op: Op, env: Env)
    requires !op.NodesRemoved? && !op.AnnotationCreated? && !op.AnnotationUpdated?
    requires !op.AnnotationDeleted? && !op.GroupMembershipChanged?
    requires PlanOp(cfg, s, deleted, op, env).Step?
    ensures Folds(s, PlanOp(cfg, s, deleted, op, env))
  {
    if op.NodeMoved? {
      var q := PlanOp(cfg, s, deleted, op, env);
      assert q.doc.positions == s.doc.positions[op.id := op.position.value];
      assert Lookup(q.doc.positions, op.id) == Some(op.position.value);
      if op.id == "" && Lookup(s.doc.positions, "") == Some(op.position.value) {
        assert q.doc.positions == s.doc.positions;
      }
    }
  }

  /** Whatever op the server applied, folding its broadcast form into a mirror of the
      document before gives a mirror of the document after, exactly when the op is
      one that mirrors take over. */
  lemma FoldMatchesServerIff(cfg: Config, st: Store, op: Op, env: Env)
    requires StoreOk(cfg, st) && MintIsNew(st, env)
    requires ApplyOp(cfg, st, op, env).Done?
    ensures var r := ApplyOp(cfg, st, op, env);
            Fold(View(st.session), r.applied.effect) == View(r.store.session) <==> Mirrored(View(st.session), r.applied.effect)
  {
    assert Folds(st.session, PlanOp(cfg, st.session, st.deleted, op, env)) by {
      match op
      case NodesRemoved(ids) => FoldDropMatches(st.session.doc, ids);
      case GroupMembershipChanged(g, members) => FoldGroupMatches(st.session, st.deleted, g, members, env);
      case AnnotationCreated(p) => FoldCreateMatches(cfg, st, p, env);
      case AnnotationUpdated(p, _) =>
        FoldMergeMatches(st.session, st.deleted, IndexOf(st.session.doc.annotations, p.id.value), p, env);
      case AnnotationDeleted(annotationId, fallback) =>
        FoldDeleteMatches(st.session, st.deleted, DeletedId(annotationId, fallback).value);
      case _ => FoldPlainMatches(cfg, st.session, st.deleted, op, env);
    }
  }

  /** Folding a run of ops, as a client does with a `catch_up` payload. */
  function FoldAll(doc: Doc, ops: seq<Applied>): Doc {
    if ops == [] then doc else Fold(FoldAll(doc, ops[..|ops| - 1]), ops[|ops| - 1].effect)
  }

  /** Every op of the run is taken over where it is folded. */
  predicate AllMirrored(doc: Doc, ops: seq<Applied>) {
    ops != [] ==>
      var before := ops[..|ops| - 1];
      AllMirrored(doc, before) && Mirrored(FoldAll(doc, before), ops[|ops| - 1].effect)
  }
}
