/**
 What one `apply_ops` batch guarantees: it numbers its state ops consecutively,
 its broadcast replays to the state it saved, it never touches an annotation
 somebody else has leased, its lease decisions survive to the commit, and when
 it fails it leaves no trace but the memory of deleted ids.
 */
module BatchFacts {
  import opened Values
  import opened Lists
  import opened SessionModel
  import opened SessionFacts
  import opened Replica
  import opened Leases
  import opened ManagerModel
  import opened EventBus
  import opened Undo

  /** Every id minted while the batch walks is new at that moment. */
  ghost predicate MintsFresh(cfg: Config, st: Store, w: map<string, string>, client: string, ops: seq<BatchOp>) {
    ops != [] ==>
      var n := |ops| - 1;
      var before := Walk(cfg, st, w, client, ops[..n]);
      && MintsFresh(cfg, st, w, client, ops[..n])
      && (before.WalkDone? && ops[n].ChangeState? ==> !HasAnn(before.store.session.doc.annotations, ops[n].mint))
  }

  /** One entry of the walk, seen from the store: nothing, or one applied op. */
  lemma WalkOneStep(cfg: Config, st: Store, w: map<string, string>, pending: seq<Pending>, client: string, op: BatchOp)
    requires WalkOne(cfg, st, w, pending, client, op).WalkDone?
    ensures var r := WalkOne(cfg, st, w, pending, client, op);
            || (r.store == st && StatesOf(r.pending) == StatesOf(pending))
            || (&& op.ChangeState?
                && (var o := ApplyOp(cfg, st, op.op, Env(op.now, client, op.mint, true));
                    o.Done? && r.store == o.store && r.working == w && r.pending == pending + [PState(o.applied)]
                    && StatesOf(r.pending) == StatesOf(pending) + [o.applied]))
  {
    hide ApplyOp, Work, Decide;
    var r := WalkOne(cfg, st, w, pending, client, op);
    assert r.pending != pending ==> r.pending[..|r.pending| - 1] == pending;
  }

  lemma RingPush(cfg: Config, ring: seq<Applied>, all: seq<Applied>, a: Applied)
    requires EndsWith(all, ring)
    ensures EndsWith(all + [a], Last(ring + [a], cfg.ringSize))
  {
    var longer, kept := ring + [a], Last(ring + [a], cfg.ringSize);
    assert (all + [a])[|all| - |ring|..] == longer;
    SuffixOfEnd(all + [a], longer, kept);
  }

  lemma SuffixOfEnd<T>(all: seq<T>, tail: seq<T>, kept: seq<T>)
    requires |tail| <= |all| && all[|all| - |tail|..] == tail && |kept| <= |tail|
    requires forall i :: 0 <= i < |kept| ==> kept[i] == tail[|tail| - |kept| + i]
    ensures EndsWith(all, kept)
  {
    forall i | 0 <= i < |kept| ensures all[|all| - |kept| + i] == kept[i] {
      assert tail[|tail| - |kept| + i] == all[|all| - |tail|..][|tail| - |kept| + i];
    }
  }

  /** The server's own document before the batch and after each of its state ops. */
  function Trail(cfg: Config, st: Store, w: map<string, string>, client: string, ops: seq<BatchOp>): (views: seq<Doc>)
    ensures |views| > 0
  {
    if ops == [] then [View(st.session)]
    else
      var n := |ops| - 1;
      var before, after := Walk(cfg, st, w, client, ops[..n]), Walk(cfg, st, w, client, ops);
      if before.WalkDone? && after.WalkDone? && |StatesOf(after.pending)| > |StatesOf(before.pending)|
      then Trail(cfg, st, w, client, ops[..n]) + [View(after.store.session)]
      else Trail(cfg, st, w, client, ops[..n])
  }

  /** Each op leads from its view to the next, as far as mirrors go. */
  ghost predicate Chained(views: seq<Doc>, ops: seq<Applied>) {
    && |views| == |ops| + 1
    && forall i :: 0 <= i < |ops| ==> Leads(views[i], ops[i].effect, views[i + 1])
  }

  /** The ops carry the seqs right after `base`. */
  ghost predicate Numbered(base: nat, ops: seq<Applied>) {
    forall i :: 0 <= i < |ops| ==> ops[i].seqNo == base + 1 + i
  }

  lemma ChainedJoin(views: seq<Doc>, ops: seq<Applied>, views': seq<Doc>, ops': seq<Applied>)
    requires Chained(views, ops) && Chained(views', ops') && views[|views| - 1] == views'[0]
    ensures Chained(views + views'[1..], ops + ops')
  {
    var v, o := views + views'[1..], ops + ops';
    forall i | 0 <= i < |o| ensures Leads(v[i], o[i].effect, v[i + 1]) {
      if i >= |ops| {
        assert Leads(views'[i - |ops|], ops'[i - |ops|].effect, views'[i - |ops| + 1]);
      }
    }
  }

  lemma ChainedPush(views: seq<Doc>, ops: seq<Applied>, a: Applied, v: Doc)
    requires Chained(views, ops) && Leads(views[|views| - 1], a.effect, v)
    ensures Chained(views + [v], ops + [a])
  {
    assert Chained([views[|views| - 1], v], [a]);
    ChainedJoin(views, ops, [views[|views| - 1], v], [a]);
    assert [views[|views| - 1], v][1..] == [v];
  }

  lemma NumberedPush(base: nat, ops: seq<Applied>, a: Applied)
    requires Numbered(base, ops) && a.seqNo == base + |ops| + 1
    ensures Numbered(base, ops + [a])
  {
  }

  /** Where a walk has led: the store it reached, the ops it will publish, and the
      documents it went through; `all` are the ops published before it. */
  ghost predicate LedThrough(cfg: Config, st: Store, st': Store, states: seq<Applied>, trail: seq<Doc>, all: seq<Applied>) {
    && StoreOk(cfg, st')
    && st'.session.seqNo == st.session.seqNo + |states|
    && Numbered(st.session.seqNo, states)
    && Chained(trail, states)
    && trail[0] == View(st.session)
    && trail[|trail| - 1] == View(st'.session)
    && EndsWith(all + states, st'.ring)
  }

  /** A batch keeps the store well formed; its ops carry the next seqs without a
      gap; replaying them goes through the documents the server went through; and
      the ring still ends with what it should. */
  lemma {:induction false} WalkFacts(cfg: Config, st: Store, w: map<string, string>, client: string,
                                     ops: seq<BatchOp>, all: seq<Applied>)
    requires StoreOk(cfg, st) && MintsFresh(cfg, st, w, client, ops)
    requires EndsWith(all, st.ring)
    requires Walk(cfg, st, w, client, ops).WalkDone?
    ensures var r := Walk(cfg, st, w, client, ops);
            && LedThrough(cfg, st, r.store, StatesOf(r.pending), Trail(cfg, st, w, client, ops), all)
            && (StatesOf(r.pending) == [] ==> r.store == st)
  {
    hide ApplyOp, StoreOk, LedThrough, WalkOne;
    if ops == [] {
      LedNowhere(cfg, st, all);
    } else {
      var n := |ops| - 1;
      WalkFacts(cfg, st, w, client, ops[..n], all);
      var b, r := Walk(cfg, st, w, client, ops[..n]), Walk(cfg, st, w, client, ops);
      WalkOneStep(cfg, b.store, b.working, b.pending, client, ops[n]);
      if StatesOf(r.pending) != StatesOf(b.pending) {
        LedOneFurther(cfg, st, b.store, StatesOf(b.pending), Trail(cfg, st, w, client, ops[..n]), all,
                      ops[n].op, Env(ops[n].now, client, ops[n].mint, true));
      }
    }
  }

  lemma LedNowhere(cfg: Config, st: Store, all: seq<Applied>)
    requires StoreOk(cfg, st) && EndsWith(all, st.ring)
    ensures LedThrough(cfg, st, st, [], [View(st.session)], all)
  {
    assert all + [] == all;
  }

  lemma LedOneFurther(cfg: Config, st: Store, st': Store, states: seq<Applied>, trail: seq<Doc>, all: seq<Applied>,
                      op: Op, env: Env)
    requires LedThrough(cfg, st, st', states, trail, all)
    requires MintIsNew(st', env) && ApplyOp(cfg, st', op, env).Done?
    ensures var r := ApplyOp(cfg, st', op, env);
            LedThrough(cfg, st, r.store, states + [r.applied], trail + [View(r.store.session)], all)
  {
    hide PlanOp, ApplyOp, StoreOk, EndsWith, View, Fold;
    OneMoreOp(cfg, st', op, env, all + states);
    var r := ApplyOp(cfg, st', op, env);
    ChainedPush(trail, states, r.applied, View(r.store.session));
    NumberedPush(st.session.seqNo, states, r.applied);
    assert (all + states) + [r.applied] == all + (states + [r.applied]);
  }

  lemma OneMoreOp(cfg: Config, st: Store, op: Op, env: Env, all: seq<Applied>)
    requires StoreOk(cfg, st) && MintIsNew(st, env) && EndsWith(all, st.ring)
    requires ApplyOp(cfg, st, op, env).Done?
    ensures var r := ApplyOp(cfg, st, op, env);
            && StoreOk(cfg, r.store)
            && r.store.session.seqNo == st.session.seqNo + 1 == r.applied.seqNo
            && Leads(View(st.session), r.applied.effect, View(r.store.session))
            && EndsWith(all + [r.applied], r.store.ring)
  {
    OpKeepsStoreOk(cfg, st, op, env);
    FoldMatchesServerIff(cfg, st, op, env);
    RingPush(cfg, st.ring, all, ApplyOp(cfg, st, op, env).applied);
    hide PlanOp, StoreOk, EndsWith, Fold, View;
  }

  // ---------------------------------------------------------------- atomicity

  /** The ids of the deletes that the walk applied, as far as it came. */
  function DeletedBy(cfg: Config, st: Store, w: map<string, string>, client: string, ops: seq<BatchOp>): seq<string> {
    if ops == [] then []
    else
      var n := |ops| - 1;
      var reached := Walk(cfg, st, w, client, ops[..n]).WalkDone? && Walk(cfg, st, w, client, ops).WalkDone?;
      DeletedBy(cfg, st, w, client, ops[..n])
      + if reached && ops[n].ChangeState? then DeletedIds(ops[n].op) else []
  }

  /** A batch that fails before its save leaves every part of the manager as it was,
      live leases included, with one exception: the memory of deleted ids keeps the
      ids that the batch had deleted when it failed. */
  lemma FailedBatchLeavesNoTrace(site: Site, m: Mgr, client: string, ops: seq<BatchOp>, within: bool, at: real)
    requires Idle(m) && BeginBatch(site, m, client, ops, within, at).1.Failed?
    requires |Held(m).deleted| <= DELETED_MEMORY
    ensures var m' := BeginBatch(site, m, client, ops, within, at).0;
            && m' == m.(leases := m'.leases, store := Some(Held(m).(deleted := Held(m').deleted)))
            && (forall t :: t >= at ==> Holders(m'.leases, t) == Holders(m.leases, t))
            && Held(m').deleted
               == Last(Held(m).deleted + DeletedBy(site.cfg, Held(m), Holders(m.leases, at), client, ops), DELETED_MEMORY)
  {
    hide ApplyOp;
    WalkRemembers(site.cfg, Held(m), Holders(m.leases, at), client, ops);
    hide Walk, DeletedBy;
    forall t | t >= at ensures Holders(Live(m.leases, at), t) == Holders(m.leases, t) {
    }
  }

  /** What the walk leaves in the memory, whether it is through or has failed. */
  function MemoryOf(r: Walked): seq<string> {
    if r.WalkDone? then r.store.deleted else r.deleted
  }

  lemma {:induction false} WalkRemembers(cfg: Config, st: Store, w: map<string, string>, client: string, ops: seq<BatchOp>)
    requires |st.deleted| <= DELETED_MEMORY
    ensures MemoryOf(Walk(cfg, st, w, client, ops)) == Last(st.deleted + DeletedBy(cfg, st, w, client, ops), DELETED_MEMORY)
  {
    hide WalkOne, Last;
    if ops == [] {
      LastShort(st.deleted);
    } else {
      var n := |ops| - 1;
      WalkRemembers(cfg, st, w, client, ops[..n]);
      var b, r := Walk(cfg, st, w, client, ops[..n]), Walk(cfg, st, w, client, ops);
      var before := DeletedBy(cfg, st, w, client, ops[..n]);
      var more := if b.WalkDone? && r.WalkDone? && ops[n].ChangeState? then DeletedIds(ops[n].op) else [];
      assert DeletedBy(cfg, st, w, client, ops) == before + more;
      LastAgain(st.deleted, before, more);
      if b.WalkDone? {
        WalkOneRemembers(cfg, b.store, b.working, b.pending, client, ops[n]);
      }
    }
  }

  lemma LastShort(s: seq<string>)
    requires |s| <= DELETED_MEMORY
    ensures s == Last(s + [], DELETED_MEMORY)
  {
    assert s + [] == s;
  }

  lemma LastAgain(s: seq<string>, t: seq<string>, u: seq<string>)
    ensures Last(Last(s + t, DELETED_MEMORY) + u, DELETED_MEMORY) == Last(s + (t + u), DELETED_MEMORY)
    ensures u == [] ==> Last(s + t, DELETED_MEMORY) == Last(s + (t + u), DELETED_MEMORY)
  {
    assert s + (t + u) == (s + t) + u;
    assert u == [] ==> t + u == t;
  }

  lemma WalkOneRemembers(cfg: Config, st: Store, w: map<string, string>, pending: seq<Pending>, client: string, op: BatchOp)
    requires |st.deleted| <= DELETED_MEMORY
    ensures var r := WalkOne(cfg, st, w, pending, client, op);
            MemoryOf(r) == if r.WalkDone? && op.ChangeState? then Last(st.deleted + DeletedIds(op.op), DELETED_MEMORY)
                           else st.deleted
  {
    LastShort(st.deleted);
    if op.ChangeState? {
      var env := Env(op.now, client, op.mint, true);
      if ApplyOp(cfg, st, op.op, env).Done? {
        OpRemembers(cfg, st, op.op, env);
      } else if ApplyOp(cfg, st, op.op, env).Dropped? {
        DroppedDeletesNothing(cfg, st, op.op, env);
      }
    }
    hide ApplyOp, TargetOf, Last, Work, Decide, DeletedIds;
  }

  /** An applied op puts exactly the ids it deletes into the memory. */
  lemma OpRemembers(cfg: Config, st: Store, op: Op, env: Env)
    requires ApplyOp(cfg, st, op, env).Done? && |st.deleted| <= DELETED_MEMORY
    ensures ApplyOp(cfg, st, op, env).store.deleted == Last(st.deleted + DeletedIds(op), DELETED_MEMORY)
  {
    LastShort(st.deleted);
    if !op.AnnotationDeleted? {
      DeletedUnchanged(cfg, st, op, env);
      hide ApplyOp;
    }
  }

  lemma DroppedDeletesNothing(cfg: Config, st: Store, op: Op, env: Env)
    requires ApplyOp(cfg, st, op, env).Dropped?
    ensures DeletedIds(op) == []
  {
  }

  /** The walk of a batch of one op that applies. */
  lemma WalkSingle(cfg: Config, st: Store, w: map<string, string>, client: string, ops: seq<BatchOp>)
    requires |ops| == 1 && ops[0].ChangeState?
    requires var target := TargetOf(ops[0].op, st.session.doc); target.None? || target.value !in w
    requires ApplyOp(cfg, st, ops[0].op, Env(ops[0].now, client, ops[0].mint, true)).Done?
    ensures var o := ApplyOp(cfg, st, ops[0].op, Env(ops[0].now, client, ops[0].mint, true));
            Walk(cfg, st, w, client, ops) == WalkDone(o.store, w, [PState(o.applied)])
  {
    hide ApplyOp, TargetOf;
    assert ops[..0] == [];
  }

  lemma StatesOfSingle(pending: seq<Pending>)
    requires |pending| == 1 && pending[0].PState?
    ensures StatesOf(pending) == [pending[0].applied]
  {
    assert pending[..0] == [];
  }

  /** The exception is observable: after a batch that deletes an annotation fails,
      the annotation is still there, but an upsert of its id is dropped. */
  lemma RolledBackDeleteBlocksUpsert(site: Site, m: Mgr, client: string, now: int, mint: string, at: real, p: Payload, env: Env)
    requires Idle(m) && StoreOk(site.cfg, Held(m))
    requires p.Payload? && p.id.Some? && Validate(p, false).Some?
    requires HasAnn(Held(m).session.doc.annotations, p.id.value) && p.id.value !in Holders(m.leases, at)
    ensures var (m', reply) := BeginBatch(site, m, client, [ChangeState(AnnotationDeleted("", p.id), now, mint)], false, at);
            && reply == Failed(OverBudget)
            && HasAnn(Held(m').session.doc.annotations, p.id.value)
            && ApplyOp(site.cfg, Held(m'), AnnotationCreated(p), env).Dropped?
  {
    var id, w := p.id.value, Holders(m.leases, at);
    var op, e := AnnotationDeleted("", p.id), Env(now, client, mint, true);
    DeleteApplies(site.cfg, Held(m), op, id, e);
    OpRemembers(site.cfg, Held(m), op, e);
    WalkSingle(site.cfg, Held(m), w, client, [ChangeState(op, now, mint)]);
    var o := ApplyOp(site.cfg, Held(m), op, e);
    StatesOfSingle([PState(o.applied)]);
    var m' := BeginBatch(site, m, client, [ChangeState(op, now, mint)], false, at).0;
    hide ApplyOp, Walk, TargetOf, StoreOk, Holders, Live, StatesOf, CommitEntries, Validate, HasAnn;
    assert Held(m').deleted == o.store.deleted;
    assert o.store.deleted[|o.store.deleted| - 1] == id;
    CreateOfDeletedIsDropped(site.cfg, Held(m'), p, env);
  }

  lemma DeleteApplies(cfg: Config, st: Store, op: Op, id: string, env: Env)
    requires Deleting(op, id)
    ensures ApplyOp(cfg, st, op, env).Done? && DeletedIds(op) == [id]
  {
  }

  lemma CreateOfDeletedIsDropped(cfg: Config, st: Store, p: Payload, env: Env)
    requires p.Payload? && p.id.Some? && Validate(p, false).Some? && p.id.value in st.deleted
    ensures ApplyOp(cfg, st, AnnotationCreated(p), env).Dropped?
  {
  }

  // ------------------------------------------------------- lease write safety

  /** An annotation that another client has leased comes through the whole walk
      unchanged, apart from member ids that a node removal drops. */
  lemma {:induction false} LeasedAnnotationSurvives(cfg: Config, st: Store, w: map<string, string>, client: string,
                                                    ops: seq<BatchOp>, id: string)
    requires StoreOk(cfg, st) && MintsFresh(cfg, st, w, client, ops)
    requires id in w && w[id] != client && HasAnn(st.session.doc.annotations, id)
    requires Walk(cfg, st, w, client, ops).WalkDone?
    ensures var r := Walk(cfg, st, w, client, ops);
            && id in r.working && r.working[id] == w[id]
            && HasAnn(r.store.session.doc.annotations, id)
            && SameButMembers(Find(st.session.doc.annotations, id).value, Find(r.store.session.doc.annotations, id).value)
            && ((forall i :: 0 <= i < |ops| && ops[i].ChangeState? ==> !ops[i].op.NodesRemoved?) ==>
                  Find(r.store.session.doc.annotations, id) == Find(st.session.doc.annotations, id))
  {
    hide SameButMembers;
    if ops == [] {
      SameButMembersRefl(Find(st.session.doc.annotations, id).value);
    } else {
      var n := |ops| - 1;
      LeasedAnnotationSurvives(cfg, st, w, client, ops[..n], id);
      WalkFacts(cfg, st, w, client, ops[..n], st.ring);
      var b := Walk(cfg, st, w, client, ops[..n]);
      LeasedAnnotationStep(cfg, b.store, b.working, b.pending, client, ops[n], id);
      SameButMembersTrans(Find(st.session.doc.annotations, id).value, Find(b.store.session.doc.annotations, id).value,
                          Find(Walk(cfg, st, w, client, ops).store.session.doc.annotations, id).value);
      assert ops[n].ChangeState? ==> ops[n] in ops;
    }
  }

  lemma SameButMembersRefl(a: Ann)
    ensures SameButMembers(a, a)
  {
  }

  lemma SameButMembersTrans(a: Ann, b: Ann, c: Ann)
    requires SameButMembers(a, b) && SameButMembers(b, c)
    ensures SameButMembers(a, c)
  {
  }

  lemma LeasedAnnotationStep(cfg: Config, st: Store, w: map<string, string>, pending: seq<Pending>, client: string, op: BatchOp, id: string)
    requires StoreOk(cfg, st) && (op.ChangeState? ==> !HasAnn(st.session.doc.annotations, op.mint))
    requires id in w && w[id] != client && HasAnn(st.session.doc.annotations, id)
    requires WalkOne(cfg, st, w, pending, client, op).WalkDone?
    ensures var r := WalkOne(cfg, st, w, pending, client, op);
            && id in r.working && r.working[id] == w[id]
            && HasAnn(r.store.session.doc.annotations, id)
            && SameButMembers(Find(st.session.doc.annotations, id).value, Find(r.store.session.doc.annotations, id).value)
            && (!(op.ChangeState? && op.op.NodesRemoved?) ==>
                  Find(r.store.session.doc.annotations, id) == Find(st.session.doc.annotations, id))
  {
    hide ApplyOp, SameButMembers;
    SameButMembersRefl(Find(st.session.doc.annotations, id).value);
    match op
    case ChangeState(o, now, mint) =>
      var env := Env(now, client, mint, true);
      if ApplyOp(cfg, st, o, env).Done? {
        UntargetedUnchanged(cfg, st, o, env, id);
      }
    case AcquireLease(ids) => WorkKeepsOthers(w, client, Acquire(ids), id);
    case ReleaseLease(ids) => WorkKeepsOthers(w, client, Release(ids), id);
    case _ =>
  }

  /** The annotation is there after as it was before, but for its member list. */
  ghost predicate Intact(before: seq<Ann>, after: seq<Ann>, id: string) {
    HasAnn(before, id) && HasAnn(after, id) && SameButMembers(Find(before, id).value, Find(after, id).value)
  }

  lemma UntargetedIntact(cfg: Config, st: Store, op: Op, env: Env, id: string)
    requires StoreOk(cfg, st) && MintIsNew(st, env) && HasAnn(st.session.doc.annotations, id)
    requires TargetOf(op, st.session.doc) != Some(id)
    ensures Intact(st.session.doc.annotations, st.session.doc.annotations, id)
    ensures var o := ApplyOp(cfg, st, op, env);
            o.Done? ==> Intact(st.session.doc.annotations, o.store.session.doc.annotations, id)
  {
    hide ApplyOp, StoreOk, TargetOf;
    SameButMembersRefl(Find(st.session.doc.annotations, id).value);
    if ApplyOp(cfg, st, op, env).Done? {
      UntargetedUnchanged(cfg, st, op, env, id);
    }
  }

  lemma CheckedKeeps(m: Mgr, op: Op, at: real, id: string)
    requires id in Live(m.leases, at)
    ensures id in Checked(m, op, at).leases && Checked(m, op, at).leases[id] == m.leases[id]
    ensures Checked(m, op, at) == m.(leases := Checked(m, op, at).leases)
    ensures id in m.leases && id in Holders(m.leases, at) && Holders(m.leases, at)[id] == m.leases[id].client
  {
  }

  /** The same for the synchronous writers and for undo, which check one op against
      the live leases just before they apply it. */
  lemma LeasedAnnotationSurvivesSync(site: Site, m: Mgr, checker: string, op: Op, env: Env, at: real, saves: bool, id: string)
    requires StoreOk(site.cfg, Held(m)) && MintIsNew(Held(m), env)
    requires id in Live(m.leases, at) && m.leases[id].client != checker && HasAnn(Held(m).session.doc.annotations, id)
    ensures var m' := SyncWrite(site, m, checker, op, env, at, saves).0;
            && Intact(Held(m).session.doc.annotations, Held(m').session.doc.annotations, id)
            && id in m'.leases && m'.leases[id] == m.leases[id]
  {
    hide ApplyOp, Intact, TargetOf, StoreOk, MintIsNew, Live, Holders, Checked, HasAnn, PublishTo;
    CheckedKeeps(m, op, at, id);
    if TargetOf(op, Held(m).session.doc) != Some(id) {
      UntargetedIntact(site.cfg, Held(m), op, env, id);
    } else {
      UntargetedIntact(site.cfg, Held(m), Malformed, env, id) by { NoTarget(Held(m).session.doc); }
    }
  }

  lemma NoTarget(doc: Doc)
    ensures TargetOf(Malformed, doc).None?
  {
  }

  lemma LeasedAnnotationSurvivesUndo(site: Site, m: Mgr, client: string, env: Env, at: real, saves: bool, marks: bool, id: string)
    requires StoreOk(site.cfg, Held(m)) && MintIsNew(Held(m), env)
    requires id in Live(m.leases, at) && m.leases[id].client != client && HasAnn(Held(m).session.doc.annotations, id)
    ensures var m' := UndoAction(site, m, client, env, at, saves, marks).0;
            && Intact(Held(m).session.doc.annotations, Held(m').session.doc.annotations, id)
            && id in m'.leases && m'.leases[id] == m.leases[id]
  {
    hide ApplyOp, Intact, TargetOf, StoreOk, Live, Holders, Checked, HasAnn, PublishTo, Current;
    UntargetedIntact(site.cfg, Held(m), Malformed, env, id) by { NoTarget(Held(m).session.doc); }
    CheckedKeeps(m, Malformed, at, id);
    var i := LatestUndoable(Held(m).session.log, client);
    if i.Some? {
      var inverse := Held(m).session.log[i.value].change.inverse;
      CheckedKeeps(m, inverse, at, id);
      ForgetOk(site.cfg, Held(m), inverse);
      if TargetOf(inverse, Held(m).session.doc) != Some(id) {
        UntargetedIntact(site.cfg, Forget(Held(m), inverse), inverse, ReplayEnv(env), id);
      }
    }
  }

  // ------------------------------------------------------ leases at the commit

  /** The lease ops of a batch, in order. */
  function LeaseChanges(ops: seq<BatchOp>): seq<LeaseChange> {
    if ops == [] then []
    else
      var n := |ops| - 1;
      match ops[n]
      case AcquireLease(ids) => LeaseChanges(ops[..n]) + [Acquire(ids)]
      case ReleaseLease(ids) => LeaseChanges(ops[..n]) + [Release(ids)]
      case _ => LeaseChanges(ops[..n])
  }

  lemma {:induction false} WalkIsLeaseWalk(site: Site, st: Store, w: map<string, string>, client: string,
                                           ops: seq<BatchOp>, m: Mgr, at: real)
    requires Walk(site.cfg, st, w, client, ops).WalkDone?
    ensures var r := Walk(site.cfg, st, w, client, ops);
            && r.working == WorkAll(w, client, LeaseChanges(ops))
            && CommitEntries(site, m, client, r.pending, at).leases
               == CommitAll(m.leases, w, client, LeaseChanges(ops), at, site.leaseTtl)
  {
    hide WalkOne, Work, Decide, Commit, CommitOne;
    if ops != [] {
      var n := |ops| - 1;
      WalkIsLeaseWalk(site, st, w, client, ops[..n], m, at);
      var b := Walk(site.cfg, st, w, client, ops[..n]);
      LeaseStep(site, b.store, b.working, b.pending, client, ops[n], m, at);
      var before := LeaseChanges(ops[..n]);
      if ops[n].AcquireLease? {
        assert (before + [Acquire(ops[n].ids)])[..|before|] == before;
      } else if ops[n].ReleaseLease? {
        assert (before + [Release(ops[n].ids)])[..|before|] == before;
      }
    }
  }

  /** What the walk appends for one op. */
  lemma WalkAppends(cfg: Config, st: Store, w: map<string, string>, pending: seq<Pending>, client: string, op: BatchOp)
    requires WalkOne(cfg, st, w, pending, client, op).WalkDone?
    ensures var r := WalkOne(cfg, st, w, pending, client, op);
            && (op.AcquireLease? ==>
                  && r.working == Work(w, client, Acquire(op.ids))
                  && r.pending == pending + [PAcquire(Decide(w, client, Acquire(op.ids)), Refusals(w, client, op.ids))])
            && (op.ReleaseLease? ==>
                  && r.working == Work(w, client, Release(op.ids))
                  && r.pending == pending + [PRelease(Decide(w, client, Release(op.ids)))])
            && (!op.AcquireLease? && !op.ReleaseLease? ==>
                  && r.working == w
                  && (r.pending == pending
                      || exists p: Pending :: r.pending == pending + [p] && !p.PAcquire? && !p.PRelease?))
  {
    hide ApplyOp, TargetOf, Work, Decide, Refusals;
  }

  lemma CommitAppended(site: Site, m: Mgr, client: string, pending: seq<Pending>, p: Pending, at: real)
    ensures CommitEntries(site, m, client, pending + [p], at)
            == CommitOne(site, CommitEntries(site, m, client, pending, at), client, p, at)
  {
    assert (pending + [p])[..|pending|] == pending;
  }

  lemma LeaseStep(site: Site, st: Store, w: map<string, string>, pending: seq<Pending>, client: string,
                  op: BatchOp, m: Mgr, at: real)
    requires WalkOne(site.cfg, st, w, pending, client, op).WalkDone?
    ensures var r := WalkOne(site.cfg, st, w, pending, client, op);
            var h := CommitEntries(site, m, client, pending, at).leases;
            var h' := CommitEntries(site, m, client, r.pending, at).leases;
            && (op.AcquireLease? ==>
                  && r.working == Work(w, client, Acquire(op.ids))
                  && h' == Commit(h, w, client, Acquire(op.ids), at, site.leaseTtl))
            && (op.ReleaseLease? ==>
                  && r.working == Work(w, client, Release(op.ids))
                  && h' == Commit(h, w, client, Release(op.ids), at, site.leaseTtl))
            && (!op.AcquireLease? && !op.ReleaseLease? ==> r.working == w && h' == h)
  {
    hide WalkOne, CommitEntries, Work, Decide, PublishTo, Granting, Without, Claiming, Live;
    WalkAppends(site.cfg, st, w, pending, client, op);
    var r := WalkOne(site.cfg, st, w, pending, client, op);
    if r.pending != pending {
      var p := r.pending[|pending|];
      CommitAppended(site, m, client, pending, p, at);
      assert r.pending == pending + [p];
    }
  }

  /** What a batch promised about leases when it walked is what its commit does,
      whatever expired and whoever left during the save: all its grants go through,
      and every id it granted or released ends with the holder it decided on. */
  lemma BatchLeasesHold(site: Site, m: Mgr, client: string, ops: seq<BatchOp>, start: real,
                        later: Mgr, steps: seq<Meanwhile>, at: real)
    requires site.leaseTtl > 0.0 && start <= at
    requires BeginBatch(site, m, client, ops, true, start).1.Suspended?
    requires var f := BeginBatch(site, m, client, ops, true, start).0.flight;
             later.flight.Some? && f.Some? && later.flight.value == f.value.(saved := later.flight.value.saved)
    requires later.leases == Disturb(m.leases, steps)
    ensures var w := Holders(m.leases, start);
            var held := LeaseChanges(ops);
            var end := CommitBatch(site, later, at).0;
            && AllGranted(later.leases, w, client, held, at, site.leaseTtl)
            && forall e :: EndsHeld(Lookup(w, e), Lookup(Holders(end.leases, at), e), client, held, e)
  {
    hide AllGranted, Settled, Holders, Disturb, ApplyOp, CommitAll, WorkAll, EndsHeld, Lookup;
    SimulationRefinesMap(m.leases, start, steps, at, site.leaseTtl, client, LeaseChanges(ops));
    WalkIsLeaseWalk(site, Held(m), Holders(m.leases, start), client, ops, later.(flight := None), at);
    forall e: string
      ensures EndsHeld(Lookup(Holders(m.leases, start), e), Lookup(Holders(CommitBatch(site, later, at).0.leases, at), e),
                      client, LeaseChanges(ops), e)
    {
      LeaseOutcome(m.leases, start, steps, at, site.leaseTtl, client, LeaseChanges(ops), e);
    }
  }

  /** An id that a batch acquires while nobody else has it, and does not release again, is
      the client's in the end; one that it releases and does not acquire again is not. */
  lemma {:induction false} HolderAfterBatch(was: Option<string>, client: string, ops: seq<BatchOp>, k: nat, e: string)
    requires k < |ops| && (was.Some? ==> was.value == client)
    requires forall j :: k < j < |ops| ==> !(ops[j].AcquireLease? && e in ops[j].ids) && !(ops[j].ReleaseLease? && e in ops[j].ids)
    requires (ops[k].AcquireLease? || ops[k].ReleaseLease?) && e in ops[k].ids
    ensures Mentioned(LeaseChanges(ops), e)
    ensures HolderAfter(was, client, LeaseChanges(ops), e) == if ops[k].AcquireLease? then Some(client) else None
  {
    var n := |ops| - 1;
    var before := LeaseChanges(ops[..n]);
    hide Mentioned, HolderAfter;
    OwnOrFree(was, client, before, e);
    if k < n {
      HolderAfterBatch(was, client, ops[..n], k, e);
    }
    if ops[n].AcquireLease? {
      OneMoreChange(was, client, before, Acquire(ops[n].ids), e);
    } else if ops[n].ReleaseLease? {
      OneMoreChange(was, client, before, Release(ops[n].ids), e);
    }
  }

  lemma OneMoreChange(was: Option<string>, client: string, before: seq<LeaseChange>, op: LeaseChange, e: string)
    ensures Mentioned(before + [op], e) <==> Mentioned(before, e) || e in op.ids
    ensures var held := HolderAfter(was, client, before, e);
            HolderAfter(was, client, before + [op], e) ==
            if e !in op.ids then held
            else if op.Acquire? && held.None? then Some(client)
            else if op.Release? && held == Some(client) then None
            else held
  {
    var now := before + [op];
    assert now[..|now| - 1] == before && now[|before|] == op;
    if Mentioned(before, e) {
      var i :| 0 <= i < |before| && e in before[i].ids;
      assert now[i] == before[i];
    }
  }

  /** A commit by one client leaves every live lease of another client in place. */
  lemma {:induction false} CommitKeepsOthersLeases(site: Site, m: Mgr, client: string, pending: seq<Pending>, at: real, e: string)
    requires e in Live(m.leases, at) && m.leases[e].client != client
    ensures var h := CommitEntries(site, m, client, pending, at).leases; e in h && h[e] == m.leases[e]
  {
    if pending != [] {
      var n := |pending| - 1;
      CommitKeepsOthersLeases(site, m, client, pending[..n], at, e);
    }
  }
}
