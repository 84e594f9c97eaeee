/**
 Field-level versioning of annotations: a patch that names the version it was
 derived from is refused exactly when one of the fields it changes was set to a
 different value after that version, so no committed patch loses an update.
 */
module Versions {
  import opened Values
  import opened Lists
  import opened SessionModel
  import opened SessionFacts

  /** For each live annotation, its content at versions 1, 2, ... of this lifetime. */
  type History = map<string, seq<Dict>>

  /** One committed step: an applied op, or bookkeeping that leaves the document alone. */
  datatype Link = Link(what: Option<(Op, Env)>, after: Store)

  ghost predicate Linked(cfg: Config, st: Store, l: Link) {
    match l.what
    case None => l.after.session.doc == st.session.doc && StoreOk(cfg, l.after)
    case Some((op, env)) =>
      && MintIsNew(st, env)
      && ApplyOp(cfg, st, op, env).Done?
      && l.after == ApplyOp(cfg, st, op, env).store
  }

  ghost predicate Chain(cfg: Config, st: Store, links: seq<Link>)
    decreases |links|
  {
    links == [] || (Linked(cfg, st, links[0]) && Chain(cfg, links[0].after, links[1..]))
  }

  function End(st: Store, links: seq<Link>): Store
    decreases |links|
  {
    if links == [] then st else End(links[0].after, links[1..])
  }

  function NoteEffect(h: History, e: Effect): History {
    match e
    case EAnnotation(a) => h[a.id := if a.version == 1 || a.id !in h then [a.content] else h[a.id] + [a.content]]
    case EDeleted(id) => h - {id}
    case _ => h
  }

  function NoteLink(cfg: Config, h: History, st: Store, l: Link): History {
    match l.what
    case None => h
    case Some((op, env)) =>
      var r := ApplyOp(cfg, st, op, env);
      if r.Done? then NoteEffect(h, r.applied.effect) else h
  }

  function NoteAll(cfg: Config, h: History, st: Store, links: seq<Link>): History
    decreases |links|
  {
    if links == [] then h else NoteAll(cfg, NoteLink(cfg, h, st, links[0]), links[0].after, links[1..])
  }

  /** The field's value changed when version `v` was written. */
  ghost predicate SetAt(h: seq<Dict>, field: string, v: int) {
    2 <= v <= |h| && Get(h[v - 2], field) != Get(h[v - 1], field)
  }

  /** From the version recorded for it onwards, the field has had its present value. */
  ghost predicate SteadyAt(a: Ann, h: seq<Dict>, field: string, v: int) {
    FieldVersion(a, field) <= v && 1 <= v <= a.version ==> v <= |h| && Get(h[v - 1], field) == Get(a.content, field)
  }

  /** `fieldVersions` tells the truth about this lifetime. Membership is exempt:
      it also changes without a version. */
  ghost predicate Truthful(a: Ann, h: seq<Dict>) {
    && |h| == a.version
    && (forall f, v :: f != MEMBERS ==> SteadyAt(a, h, f, v))
    && (forall f :: f != MEMBERS && f in a.fieldVersions ==> SetAt(h, f, a.fieldVersions[f]))
  }

  ghost predicate AllTruthful(doc: Doc, h: History) {
    forall i :: 0 <= i < |doc.annotations| ==>
      var a := doc.annotations[i]; a.id in h && Truthful(a, h[a.id])
  }

  lemma TruthfulMerge(a: Ann, h: seq<Dict>, p: Payload, now: int)
    requires AnnOk(a) && Truthful(a, h) && p.Payload?
    ensures Truthful(Merge(a, p, now), h + [Merge(a, p, now).content])
  {
    var m := Merge(a, p, now);
    var h' := h + [m.content];
    forall f, v | f != MEMBERS ensures SteadyAt(m, h', f, v) {
      assert SteadyAt(a, h, f, v);
    }
    forall f | f != MEMBERS && f in m.fieldVersions ensures SetAt(h', f, m.fieldVersions[f]) {
      if f in Changed(a.content, p.content) {
        assert SteadyAt(a, h, f, a.version);
      } else {
        assert SetAt(h, f, a.fieldVersions[f]);
      }
    }
  }

  lemma TruthfulSameButMembers(a: Ann, b: Ann, h: seq<Dict>)
    requires Truthful(a, h) && SameButMembers(a, b)
    ensures Truthful(b, h)
  {
    forall f, v | f != MEMBERS ensures SteadyAt(b, h, f, v) {
      assert SteadyAt(a, h, f, v);
    }
  }

  lemma FindInDoc(doc: Doc, i: nat)
    requires UniqueIds(doc.annotations) && i < |doc.annotations|
    ensures Find(doc.annotations, doc.annotations[i].id) == Some(doc.annotations[i])
  {
    IndexIs(doc.annotations, i);
  }

  lemma HistoryLink(cfg: Config, st: Store, h: History, l: Link)
    requires StoreOk(cfg, st) && AllTruthful(st.session.doc, h) && Linked(cfg, st, l)
    ensures StoreOk(cfg, l.after) && AllTruthful(l.after.session.doc, NoteLink(cfg, h, st, l))
  {
    if l.what.Some? {
      var (op, env) := l.what.value;
      OpKeepsStoreOk(cfg, st, op, env);
      var doc, doc' := st.session.doc, l.after.session.doc;
      var h' := NoteLink(cfg, h, st, l);
      forall i | 0 <= i < |doc'.annotations|
        ensures doc'.annotations[i].id in h' && Truthful(doc'.annotations[i], h'[doc'.annotations[i].id])
      {
        FindInDoc(doc', i);
        HistoryOne(cfg, st, h, op, env, doc'.annotations[i].id);
      }
    }
  }

  /** An op that rewrites a live annotation merges its payload into it. */
  lemma RewriteIsMerge(cfg: Config, st: Store, op: Op, env: Env)
    requires StoreOk(cfg, st) && MintIsNew(st, env) && ApplyOp(cfg, st, op, env).Done?
    requires var e := ApplyOp(cfg, st, op, env).applied.effect;
             e.EAnnotation? && HasAnn(st.session.doc.annotations, e.annotation.id)
    ensures var a := ApplyOp(cfg, st, op, env).applied.effect.annotation;
            && (op.AnnotationCreated? || op.AnnotationUpdated?) && op.payload.Payload?
            && a == Merge(Find(st.session.doc.annotations, a.id).value, op.payload, env.now)
  {
    hide Prune, Union, DropNodes, SortedSet, Select, RemoveAll;
  }

  lemma FreshIsVersionOne(cfg: Config, st: Store, op: Op, env: Env)
    requires StoreOk(cfg, st) && MintIsNew(st, env) && ApplyOp(cfg, st, op, env).Done?
    requires var e := ApplyOp(cfg, st, op, env).applied.effect;
             e.EAnnotation? && !HasAnn(st.session.doc.annotations, e.annotation.id)
    ensures var a := ApplyOp(cfg, st, op, env).applied.effect.annotation;
            a.version == 1 && a.fieldVersions == map[]
  {
  }

  /** The history stays truthful for the annotation `id`, if it lives after the op. */
  lemma HistoryOne(cfg: Config, st: Store, h: History, op: Op, env: Env, id: string)
    requires StoreOk(cfg, st) && AllTruthful(st.session.doc, h)
    requires MintIsNew(st, env) && ApplyOp(cfg, st, op, env).Done?
    requires HasAnn(ApplyOp(cfg, st, op, env).store.session.doc.annotations, id)
    ensures var r := ApplyOp(cfg, st, op, env);
            var h' := NoteEffect(h, r.applied.effect);
            id in h' && Truthful(Find(r.store.session.doc.annotations, id).value, h'[id])
  {
    var anns := st.session.doc.annotations;
    var e := ApplyOp(cfg, st, op, env).applied.effect;
    if e.EAnnotation? && e.annotation.id == id {
      assert Find(ApplyOp(cfg, st, op, env).store.session.doc.annotations, id) == Some(e.annotation) by {
        EffectIsStored(cfg, st, op, env);
      }
      if HasAnn(anns, id) {
        RewriteIsMerge(cfg, st, op, env);
        TruthfulMerge(anns[IndexOf(anns, id)], h[id], op.payload, env.now);
      } else {
        FreshIsVersionOne(cfg, st, op, env);
      }
    } else {
      Bystander(cfg, st, op, env, id);
      var a := anns[IndexOf(anns, id)];
      TruthfulSameButMembers(a, Find(ApplyOp(cfg, st, op, env).store.session.doc.annotations, id).value, h[id]);
    }
  }

  lemma EffectIsStored(cfg: Config, st: Store, op: Op, env: Env)
    requires StoreOk(cfg, st) && MintIsNew(st, env) && ApplyOp(cfg, st, op, env).Done?
    requires ApplyOp(cfg, st, op, env).applied.effect.EAnnotation?
    ensures var r := ApplyOp(cfg, st, op, env);
            Find(r.store.session.doc.annotations, r.applied.effect.annotation.id) == Some(r.applied.effect.annotation)
  {
    AnnotationsAfter(cfg, st, op, env);
  }

  lemma OnlyDeletesDelete(cfg: Config, st: Store, op: Op, env: Env)
    requires ApplyOp(cfg, st, op, env).Done?
    ensures var e := ApplyOp(cfg, st, op, env).applied.effect;
            && (e.EDeleted? ==> Deleting(op, e.id))
            && (e.EAnnotation? <==> op.AnnotationCreated? || op.AnnotationUpdated?)
  {
  }

  /** An annotation that lives on without being rewritten keeps all but its members. */
  lemma Bystander(cfg: Config, st: Store, op: Op, env: Env, id: string)
    requires StoreOk(cfg, st) && MintIsNew(st, env) && ApplyOp(cfg, st, op, env).Done?
    requires var e := ApplyOp(cfg, st, op, env).applied.effect; !(e.EAnnotation? && e.annotation.id == id)
    requires HasAnn(ApplyOp(cfg, st, op, env).store.session.doc.annotations, id)
    ensures var r := ApplyOp(cfg, st, op, env);
            && HasAnn(st.session.doc.annotations, id)
            && !(r.applied.effect.EDeleted? && r.applied.effect.id == id)
            && SameButMembers(Find(st.session.doc.annotations, id).value, Find(r.store.session.doc.annotations, id).value)
  {
    hide PlanOp;
    OnlyDeletesDelete(cfg, st, op, env);
    AnnotationsAfter(cfg, st, op, env);
    var anns, anns' := st.session.doc.annotations, ApplyOp(cfg, st, op, env).store.session.doc.annotations;
    assert HasAnn(anns, id) == Find(anns, id).Some?;
    assert HasAnn(anns', id) == Find(anns', id).Some?;
  }

  lemma {:induction false} HistoryChain(cfg: Config, st: Store, h: History, links: seq<Link>)
    requires StoreOk(cfg, st) && AllTruthful(st.session.doc, h) && Chain(cfg, st, links)
    ensures StoreOk(cfg, End(st, links)) && AllTruthful(End(st, links).session.doc, NoteAll(cfg, h, st, links))
    decreases |links|
  {
    if links != [] {
      HistoryLink(cfg, st, h, links[0]);
      HistoryChain(cfg, links[0].after, NoteLink(cfg, h, st, links[0]), links[1..]);
    }
  }

  /** A session nobody has written to yet. */
  predicate Untouched(st: Store) {
    st.session.doc == EMPTY_DOC && st.session.log == [] && st.ring == [] && st.deleted == []
  }

  /** After any committed run of a session, a well-formed patch against version
      `base` of a live annotation is refused as a conflict if and only if some
      field it changes took a different value after `base`. */
  lemma RefusedIffFieldMoved(cfg: Config, start: Store, links: seq<Link>, p: Payload, base: int, env: Env)
    requires Untouched(start) && cfg.maxAnnotations >= 0 && Chain(cfg, start, links)
    requires var st := End(start, links);
             && Validate(p, true).Some?
             && HasAnn(st.session.doc.annotations, p.id.value)
             && Find(st.session.doc.annotations, p.id.value).value.typ == Validate(p, true).value
             && 1 <= base <= Find(st.session.doc.annotations, p.id.value).value.version
             && MEMBERS !in p.content
    ensures var st := End(start, links);
            var h := NoteAll(cfg, map[], start, links);
            var a := Find(st.session.doc.annotations, p.id.value).value;
            var r := ApplyOp(cfg, st, AnnotationUpdated(p, Base(base)), env);
            && p.id.value in h && |h[p.id.value]| == a.version
            && (r.Done? || (r.Rejected? && r.error.FieldConflict?))
            && (r.Rejected? <==>
                  exists f, v :: f in Changed(a.content, p.content) && base < v && SetAt(h[p.id.value], f, v))
  {
    hide ApplyOp, Chain, NoteAll, End, Conflicts;
    HistoryChain(cfg, start, map[], links);
    var st := End(start, links);
    var anns := st.session.doc.annotations;
    var a := anns[IndexOf(anns, p.id.value)];
    var h := NoteAll(cfg, map[], start, links)[a.id];
    ConflictIffMoved(a, h, p.content, base);
    UpdateEnds(cfg, st, p, base, env);
  }

  /** How an update of a live annotation of its own type ends. */
  lemma UpdateEnds(cfg: Config, st: Store, p: Payload, base: int, env: Env)
    requires Validate(p, true).Some? && HasAnn(st.session.doc.annotations, p.id.value)
    requires Find(st.session.doc.annotations, p.id.value).value.typ == Validate(p, true).value
    ensures var a := Find(st.session.doc.annotations, p.id.value).value;
            var r := ApplyOp(cfg, st, AnnotationUpdated(p, Base(base)), env);
            && (r.Done? || (r.Rejected? && r.error.FieldConflict?))
            && (r.Rejected? <==> Conflicts(a, p.content, base) != {})
  {
    hide Prune, Conflicts, Merge;
  }

  lemma ConflictIffMoved(a: Ann, h: seq<Dict>, patch: Dict, base: int)
    requires Truthful(a, h) && 1 <= base <= a.version && MEMBERS !in patch
    ensures Conflicts(a, patch, base) != {} <==>
            exists f, v :: f in Changed(a.content, patch) && base < v && SetAt(h, f, v)
  {
    var clash := Conflicts(a, patch, base);
    if clash != {} {
      var f :| f in clash;
      assert SetAt(h, f, a.fieldVersions[f]);
    }
    forall f, v | f in Changed(a.content, patch) && base < v && SetAt(h, f, v)
      ensures f in clash
    {
      assert SteadyAt(a, h, f, v) && SteadyAt(a, h, f, v - 1);
    }
  }

  /** No lost update: every field a committed patch changes still had, just
      before, the value it had at the version the patch was derived from. */
  lemma NoLostUpdate(cfg: Config, start: Store, links: seq<Link>, p: Payload, base: int, env: Env, field: string)
    requires Untouched(start) && cfg.maxAnnotations >= 0 && Chain(cfg, start, links)
    requires ApplyOp(cfg, End(start, links), AnnotationUpdated(p, Base(base)), env).Done?
    requires var a := Find(End(start, links).session.doc.annotations, p.id.value).value;
             1 <= base <= a.version && field in Changed(a.content, p.content) && field != MEMBERS
    ensures var h := NoteAll(cfg, map[], start, links);
            var a := Find(End(start, links).session.doc.annotations, p.id.value).value;
            && p.id.value in h && base <= |h[p.id.value]|
            && Get(a.content, field) == Get(h[p.id.value][base - 1], field)
  {
    HistoryChain(cfg, start, map[], links);
    var anns := End(start, links).session.doc.annotations;
    var a := anns[IndexOf(anns, p.id.value)];
    assert field !in Conflicts(a, p.content, base);
    assert SteadyAt(a, NoteAll(cfg, map[], start, links)[a.id], field, base);
  }

  /** Two patches from one base that touch disjoint fields both commit, in either
      order, and leave the annotation with the same content and version. */
  lemma DisjointPatchesCommute(cfg: Config, st: Store, p: Payload, q: Payload, base: int, env1: Env, env2: Env)
    requires StoreOk(cfg, st) && p.Payload? && q.Payload? && p.id.Some? && p.id == q.id
    requires p.content.Keys !! q.content.Keys
    requires MintIsNew(st, env1) && MintIsNew(st, env2)
    requires ApplyOp(cfg, st, AnnotationUpdated(p, Base(base)), env1).Done?
    requires ApplyOp(cfg, st, AnnotationUpdated(q, Base(base)), env2).Done?
    ensures var afterP := ApplyOp(cfg, st, AnnotationUpdated(p, Base(base)), env1).store;
            var afterQ := ApplyOp(cfg, st, AnnotationUpdated(q, Base(base)), env2).store;
            var pq := ApplyOp(cfg, afterP, AnnotationUpdated(q, Base(base)), env2);
            var qp := ApplyOp(cfg, afterQ, AnnotationUpdated(p, Base(base)), env1);
            && pq.Done? && qp.Done?
            && (forall id :: id != p.id.value ==>
                  Find(pq.store.session.doc.annotations, id) == Find(qp.store.session.doc.annotations, id))
            && Find(pq.store.session.doc.annotations, p.id.value).Some?
            && Find(qp.store.session.doc.annotations, p.id.value).Some?
            && var a := Find(pq.store.session.doc.annotations, p.id.value).value;
               var b := Find(qp.store.session.doc.annotations, p.id.value).value;
               a.content == b.content && a.version == b.version && a.typ == b.typ
  {
    SecondPatchCommits(cfg, st, p, q, base, env1, env2);
    SecondPatchCommits(cfg, st, q, p, base, env2, env1);
    var a := Find(st.session.doc.annotations, p.id.value).value;
    MergesCommute(a, p, q, env1.now, env2.now);
  }

  lemma MergesCommute(a: Ann, p: Payload, q: Payload, now1: int, now2: int)
    requires p.Payload? && q.Payload? && p.content.Keys !! q.content.Keys
    ensures var pq, qp := Merge(Merge(a, p, now1), q, now2), Merge(Merge(a, q, now2), p, now1);
            pq.content == qp.content && pq.version == qp.version && pq.typ == qp.typ
  {
    assert a.content + p.content + q.content == a.content + q.content + p.content;
  }

  lemma SecondPatchCommits(cfg: Config, st: Store, p: Payload, q: Payload, base: int, env1: Env, env2: Env)
    requires StoreOk(cfg, st) && p.Payload? && q.Payload? && p.id.Some? && p.id == q.id
    requires p.content.Keys !! q.content.Keys
    requires MintIsNew(st, env1) && MintIsNew(st, env2)
    requires ApplyOp(cfg, st, AnnotationUpdated(p, Base(base)), env1).Done?
    requires ApplyOp(cfg, st, AnnotationUpdated(q, Base(base)), env2).Done?
    ensures HasAnn(st.session.doc.annotations, p.id.value)
    ensures var afterP := ApplyOp(cfg, st, AnnotationUpdated(p, Base(base)), env1).store;
            var a := Find(st.session.doc.annotations, p.id.value).value;
            var pq := ApplyOp(cfg, afterP, AnnotationUpdated(q, Base(base)), env2);
            && pq.Done?
            && (forall id :: Find(pq.store.session.doc.annotations, id) ==
                  if id == p.id.value then Some(Merge(Merge(a, p, env1.now), q, env2.now))
                  else Find(st.session.doc.annotations, id))
  {
    hide StoreOk, Prune;
    var i := IndexOf(st.session.doc.annotations, p.id.value);
    var a := st.session.doc.annotations[i];
    var m := Merge(a, p, env1.now);
    var mid := ApplyOp(cfg, st, AnnotationUpdated(p, Base(base)), env1).store;
    OpKeepsStoreOk(cfg, st, AnnotationUpdated(p, Base(base)), env1);
    AnnotationsAfter(cfg, st, AnnotationUpdated(p, Base(base)), env1);
    assert Find(mid.session.doc.annotations, p.id.value) == Some(m);
    assert forall k :: k in q.content ==> Get(m.content, k) == Get(a.content, k);
    assert Changed(m.content, q.content) == Changed(a.content, q.content);
    forall k | k in Changed(a.content, q.content) ensures FieldVersion(m, k) == FieldVersion(a, k) {
    }
    assert Conflicts(m, q.content, base) == Conflicts(a, q.content, base) == {};
    MergeAfter(cfg, mid, IndexOf(mid.session.doc.annotations, p.id.value), q, env2);
  }
}
