/**
 Every step of the protocol keeps its invariant, so it holds after every run:
 the published ops are consecutive and saved before they are seen, a failed
 batch leaves no trace, and every client that has not strayed holds exactly the
 saved document at its seq.
 */
module Convergence {
  import opened Values
  import opened Lists
  import opened SessionModel
  import opened SessionFacts
  import opened Replica
  import opened Undo
  import opened Leases
  import opened Presence
  import opened EventBus
  import opened ManagerModel
  import opened BatchFacts
  import opened Protocol

  // ------------------------------------------------------------------ helpers

  /** The copies stay good when the saved history grows and nothing is in flight. */
  lemma CopiesGrow(s: Sys, s': Sys)
    requires HistoryOk(s) && ClientsOk(s) && !InFlight(s.m)
    requires s.views <= s'.views && |s.ops| <= |s'.ops|
    ensures forall id :: id in s.clients ==> CopyOk(s', s.clients[id])
  {
    forall id | id in s.clients ensures CopyOk(s', s.clients[id]) {
      assert CopyOk(s, s.clients[id]);
    }
  }

  lemma SavedChain(s: Sys)
    requires HistoryOk(s)
    ensures Chained(s.views, s.ops) && Numbered(0, s.ops)
  {
    forall i | 0 <= i < |s.ops| ensures Leads(s.views[i], s.ops[i].effect, s.views[i + 1]) && s.ops[i].seqNo == i + 1 {
      assert LiveOps(s)[i] == s.ops[i] && LiveViews(s)[i] == s.views[i] && LiveViews(s)[i + 1] == s.views[i + 1];
    }
  }

  lemma NumberedJoin(ops: seq<Applied>, more: seq<Applied>)
    requires Numbered(0, ops) && Numbered(|ops|, more)
    ensures Numbered(0, ops + more)
  {
  }

  /** A mirror that starts on the history stays on it exactly as long as it takes
      every op over. */
  lemma {:induction false} FoldAllChained(views: seq<Doc>, ops: seq<Applied>, i: nat)
    requires Chained(views, ops) && i <= |ops| && AllMirrored(views[i], ops[i..])
    ensures FoldAll(views[i], ops[i..]) == views[|ops|]
    decreases |ops|
  {
    if i < |ops| {
      var n := |ops| - 1;
      assert Chained(views[..n + 1], ops[..n]);
      assert ops[i..][..n - i] == ops[..n][i..];
      FoldAllChained(views[..n + 1], ops[..n], i);
      assert Leads(views[n], ops[n].effect, views[n + 1]);
    }
  }

  /** A step that moves only queues, rosters, holders and clients keeps the invariant
      when the lines and the copies stay good. */
  lemma Sideways(site: Site, s: Sys, s': Sys)
    requires Inv(site, s)
    requires s' == s.(m := s'.m, clients := s'.clients)
    requires var m' := s'.m;
             m' == s.m.(room := m'.room, queues := m'.queues, claims := m'.claims, leases := m'.leases, nextSub := m'.nextSub)
    requires forall id :: id in s'.clients ==> CopyOk(s, s'.clients[id])
    requires LinesOk(s'.m.queues, s'.clients, Published(s))
    requires forall id :: id in s'.clients || id in s'.m.queues ==> id < s'.m.nextSub
    ensures Inv(site, s')
  {
    hide View, DocOk, LogOk, QueueOk, Chained, Numbered, StandsAt, CopyOk;
    assert LiveOps(s') == LiveOps(s) && LiveViews(s') == LiveViews(s) && Published(s') == Published(s);
    forall id | id in s'.clients ensures CopyOk(s', s'.clients[id]) {
      SameCopy(s, s', s'.clients[id]);
    }
  }

  lemma SameCopy(s: Sys, s': Sys, c: Client)
    requires CopyOk(s, c)
    requires s'.ops == s.ops && s'.views == s.views && s'.m.flight == s.m.flight && s'.m.store == s.m.store
    ensures CopyOk(s', c)
  {
    hide View;
  }

  lemma InitOk(site: Site, name: Option<string>, now: int)
    requires site.cfg.maxAnnotations >= 0
    ensures Inv(site, Init(name, now))
  {
  }

  // ------------------------------------------------------ one write at a time

  /** A synchronous write that was saved and published extends the history by one. */
  lemma OneWriteKeeps(site: Site, s: Sys, m': Mgr, client: string, applied: Applied)
    requires Inv(site, s) && s.m.flight.None? && m'.flight.None? && m'.store.Some? && m'.disk.Some?
    requires StandsAt(site.cfg, Held(m'), s.views + [View(Held(m').session)], s.ops + [applied])
    requires Leads(s.views[|s.views| - 1], applied.effect, View(Held(m').session))
    requires applied.seqNo == |s.ops| + 1
    requires Saved(m').seqNo == |s.ops| + 1 && View(Saved(m')) == View(Held(m').session)
    requires DocOk(site.cfg, Saved(m').doc) && LogOk(Saved(m').log)
    requires m'.queues == PublishTo(s.m.queues, StateOp(client, applied), site.queueMax) && m'.nextSub == s.m.nextSub
    ensures Inv(site, Wrote1(s, m', applied))
  {
    hide Leads, View, StandsAt, DocOk, QueueOk;
    var s' := Wrote1(s, m', applied);
    var v := View(Held(m').session);
    SavedChain(s);
    ChainedPush(s.views, s.ops, applied, v);
    NumberedPush(0, s.ops, applied);
    assert LiveViews(s') == s.views + [v];
    assert s'.published == s'.ops[s.boot..s.boot + |s'.published|];
    assert Published(s') == Published(s) + [applied];
    LinesFromClients(s);
    PublishKeepsLines(s.m.queues, StateOp(client, applied), site.queueMax, s.clients, Published(s));
    CopiesGrow(s, s');
  }

  /** A write, a refusal or a failed save by a synchronous writer. */
  lemma SyncKeeps(site: Site, s: Sys, checker: string, op: Op, env: Env, at: real, saves: bool)
    requires Inv(site, s) && Enabled(site, s, Sync(checker, op, env, at, saves))
    ensures Inv(site, Next(site, s, Sync(checker, op, env, at, saves)))
  {
    hide ApplyOp, Leads, View, DocOk, LogOk, RingOk, QueueOk, CopyOk;
    var (m', reply) := SyncWrite(site, s.m, checker, op, env, at, saves);
    if Idle(s.m) {
      LiveIsSaved(s);
      if ApplyOp(site.cfg, Held(s.m), op, env).Done? {
        var r := ApplyOp(site.cfg, Held(s.m), op, env);
        OneMoreOp(site.cfg, Held(s.m), op, env, s.ops);
        if reply.Wrote? {
          OneWriteKeeps(site, s, m', env.client, r.applied);
        } else {
          SameButDeleted(site, s, m');
        }
      } else {
        SameButDeleted(site, s, m');
      }
    } else {
      assert Next(site, s, Sync(checker, op, env, at, saves)) == s;
    }
  }

  lemma LiveIsSaved(s: Sys)
    requires HistoryOk(s) && s.m.flight.None? && s.flown == []
    ensures LiveViews(s) == s.views && LiveOps(s) == s.ops
  {
  }

  /** Nothing the invariant speaks of has changed but the memory of deleted ids. */
  lemma SameButDeleted(site: Site, s: Sys, m': Mgr)
    requires Inv(site, s) && Idle(s.m) && m'.store.Some?
    requires m' == s.m.(leases := m'.leases, claims := m'.claims, store := Some(Held(s.m).(deleted := Held(m').deleted)))
    requires |Held(m').deleted| <= DELETED_MEMORY
    ensures Inv(site, s.(m := m'))
  {
    hide Chained, View, DocOk, LogOk, QueueOk;
    var s' := s.(m := m');
    assert LiveOps(s') == LiveOps(s) && LiveViews(s') == LiveViews(s);
    forall id | id in s.clients ensures CopyOk(s', s.clients[id]) && LineOk(s', id, s.clients[id]) {
      assert CopyOk(s, s.clients[id]) && LineOk(s, id, s.clients[id]);
    }
  }

  lemma UndoKeeps(site: Site, s: Sys, client: string, env: Env, at: real, saves: bool, marks: bool)
    requires Inv(site, s) && Enabled(site, s, Undoes(client, env, at, saves, marks))
    ensures Inv(site, Next(site, s, Undoes(client, env, at, saves, marks)))
  {
    hide UndoLast, ApplyOp, Leads, View, DocOk, LogOk, QueueOk, CopyOk, RingOk, Chained;
    var m' := UndoAction(site, s.m, client, env, at, saves, marks).0;
    if Idle(s.m) {
      LiveIsSaved(s);
      UndoShrinksMemory(site.cfg, Held(s.m), client, Holders(s.m.leases, at), env);
      var r := UndoLast(site.cfg, Held(s.m), client, Holders(s.m.leases, at), env);
      if r.Undone? && saves {
        UndoIsOneOp(site.cfg, Held(s.m), client, Holders(s.m.leases, at), env, s.ops);
        UndoDisk(site.cfg, Held(s.m), client, Holders(s.m.leases, at), env);
        OneWriteKeeps(site, s, m', REPLAY_CLIENT, r.applied);
      } else {
        SameButDeleted(site, s, m');
      }
    } else {
      assert Next(site, s, Undoes(client, env, at, saves, marks)) == s;
    }
  }

  lemma UndoShrinksMemory(cfg: Config, st: Store, actor: string, holders: map<string, string>, env: Env)
    requires StoreOk(cfg, st) && MintIsNew(st, env)
    ensures var r := UndoLast(cfg, st, actor, holders, env);
            && (r.Refused? || r.CannotRevert? ==>
                  r.left == st.(deleted := r.left.deleted) && |r.left.deleted| <= DELETED_MEMORY)
            && (r.Undone? ==> |r.store.deleted| <= DELETED_MEMORY)
  {
    hide ApplyOp, DocOk, LogOk;
    var i := LatestUndoable(st.session.log, actor);
    if i.Some? {
      ForgetOk(cfg, st, st.session.log[i.value].change.inverse);
      if UndoLast(cfg, st, actor, holders, env).Undone? {
        OpKeepsStoreOk(cfg, Forget(st, st.session.log[i.value].change.inverse),
                       st.session.log[i.value].change.inverse, ReplayEnv(env));
      }
    }
  }

  /** To everyone but its actor an undo is one more op on the store. */
  lemma UndoIsOneOp(cfg: Config, st: Store, actor: string, holders: map<string, string>, env: Env, all: seq<Applied>)
    requires StoreOk(cfg, st) && MintIsNew(st, env) && EndsWith(all, st.ring)
    requires UndoLast(cfg, st, actor, holders, env).Undone?
    ensures var r := UndoLast(cfg, st, actor, holders, env);
            && StoreOk(cfg, r.store)
            && r.store.session.seqNo == st.session.seqNo + 1 == r.applied.seqNo
            && Leads(View(st.session), r.applied.effect, View(r.store.session))
            && EndsWith(all + [r.applied], r.store.ring)
  {
    hide UndoLast, ApplyOp, Leads, DocOk, LogOk, RingOk, EndsWith;
    UndoneIs(cfg, st, actor, holders, env);
    UndoRestores(cfg, st, actor, holders, env);
    var r := UndoLast(cfg, st, actor, holders, env);
    var inverse := st.session.log[r.index].change.inverse;
    var ready := Forget(st, inverse);
    ForgetOk(cfg, st, inverse);
    OneMoreOp(cfg, ready, inverse, ReplayEnv(env), all);
    UndoneApplied(cfg, st, actor, holders, env);
  }

  lemma UndoneApplied(cfg: Config, st: Store, actor: string, holders: map<string, string>, env: Env)
    requires UndoLast(cfg, st, actor, holders, env).Undone?
    ensures var r := UndoLast(cfg, st, actor, holders, env);
            && r.index < |st.session.log|
            && var inverse := st.session.log[r.index].change.inverse;
               var replay := ApplyOp(cfg, Forget(st, inverse), inverse, ReplayEnv(env));
               replay.Done? && r.applied == replay.applied
  {
    hide ApplyOp;
  }

  /** What the first of an undo's two saves writes shows the same document. */
  lemma UndoDisk(cfg: Config, st: Store, actor: string, holders: map<string, string>, env: Env)
    requires StoreOk(cfg, st) && MintIsNew(st, env)
    requires UndoLast(cfg, st, actor, holders, env).Undone?
    ensures var s' := UndoLast(cfg, st, actor, holders, env).store.session;
            && View(s'.(log := st.session.log)) == View(s')
            && DocOk(cfg, s'.doc) && LogOk(s'.log) && LogOk(st.session.log)
  {
    hide UndoLast, ApplyOp, DocOk, LogOk;
    UndoRestores(cfg, st, actor, holders, env);
  }

  // ----------------------------------------------------------------- batches

  lemma FailedWalkMemory(cfg: Config, st: Store, w: map<string, string>, client: string, ops: seq<BatchOp>)
    requires |st.deleted| <= DELETED_MEMORY && Walk(cfg, st, w, client, ops).WalkFailed?
    ensures |Walk(cfg, st, w, client, ops).deleted| <= DELETED_MEMORY
  {
    hide Walk, DeletedBy;
    WalkRemembers(cfg, st, w, client, ops);
  }

  lemma BeginKeeps(site: Site, s: Sys, client: string, batch: seq<BatchOp>, within: bool, at: real)
    requires Inv(site, s) && Enabled(site, s, Begin(client, batch, within, at))
    ensures Inv(site, Next(site, s, Begin(client, batch, within, at)))
  {
    hide Walk, View, Leads, DocOk, LogOk, RingOk, QueueOk, CopyOk, Chained, Numbered, EndsWith;
    if s.m.store.None? {
      assert Next(site, s, Begin(client, batch, within, at)) == s;
      return;
    }
    var (m', reply) := BeginBatch(site, s.m, client, batch, within, at);
    var w := Holders(s.m.leases, at);
    var walked := Walk(site.cfg, Held(s.m), w, client, batch);
    LiveIsSaved(s);
    if walked.WalkFailed? {
      FailedWalkMemory(site.cfg, Held(s.m), w, client, batch);
      SameButDeleted(site, s, m');
    } else {
      WalkFacts(site.cfg, Held(s.m), w, client, batch, s.ops);
      if reply.Failed? {
        SameButDeleted(site, s, m');
      } else if reply.Wrote? {
        QuietCommitKeeps(site, s, s.m.(leases := Live(s.m.leases, at)), client, walked.pending, at);
      } else {
        LaunchKeeps(site, s, m', Trail(site.cfg, Held(s.m), w, client, batch));
      }
    }
  }

  /** A batch without state ops commits at once and only touches claims and leases. */
  lemma QuietCommitKeeps(site: Site, s: Sys, m: Mgr, client: string, pending: seq<Pending>, at: real)
    requires Inv(site, s) && Idle(s.m) && m == s.m.(leases := m.leases)
    requires StatesOf(pending) == []
    ensures Inv(site, s.(m := CommitEntries(site, m, client, pending, at), flown := []))
  {
    hide View, DocOk, LogOk, QueueOk, Chained, StandsAt, CommitEntries;
    var s' := s.(m := CommitEntries(site, m, client, pending, at), flown := []);
    LinesFromClients(s);
    CommitKeepsLines(site, m, client, pending, at, s.clients, Published(s));
    assert Published(s) + [] == Published(s);
    CopiesGrow(s, s');
    assert LiveOps(s') == LiveOps(s) && LiveViews(s') == LiveViews(s);
  }

  lemma LaunchKeeps(site: Site, s: Sys, m': Mgr, trail: seq<Doc>)
    requires Inv(site, s) && Idle(s.m) && m'.store.Some? && m'.flight.Some?
    requires var f := m'.flight.value;
             && !f.saved && f.session == Held(s.m).session && f.ring == Held(s.m).ring && f.snapshot == Held(m').session
             && StatesOf(f.pending) != []
             && LedThrough(site.cfg, Held(s.m), Held(m'), StatesOf(f.pending), trail, s.ops)
             && m' == s.m.(leases := m'.leases, store := m'.store, flight := m'.flight)
    ensures Inv(site, s.(m := m', flown := trail[1..]))
  {
    hide View, DocOk, LogOk, QueueOk, StandsAt, Chained, Numbered, CopyOk;
    var states := StatesOf(m'.flight.value.pending);
    ChainedSize(trail, states);
    var s' := s.(m := m', flown := trail[1..]);
    LiveIsSaved(s);
    LaunchHistory(site.cfg, s, Held(m'), states, trail);
    StandsSame(site.cfg, Held(s.m), Held(m'), s.views, s.ops);
    CopiesGrow(s, s');
    assert Published(s') == Published(s);
    forall id | id in s.clients ensures LineOk(s', id, s.clients[id]) {
      assert LineOk(s, id, s.clients[id]);
    }
  }

  lemma ChainedSize(views: seq<Doc>, ops: seq<Applied>)
    requires Chained(views, ops)
    ensures |views| == |ops| + 1
  {
  }

  /** The live history of the batch that has just been walked. */
  lemma LaunchHistory(cfg: Config, s: Sys, st': Store, states: seq<Applied>, trail: seq<Doc>)
    requires HistoryOk(s) && s.m.flight.None? && s.flown == []
    requires StandsAt(cfg, Held(s.m), s.views, s.ops) && LedThrough(cfg, Held(s.m), st', states, trail, s.ops)
    ensures Chained(s.views + trail[1..], s.ops + states) && Numbered(0, s.ops + states)
    ensures StandsAt(cfg, st', s.views + trail[1..], s.ops + states)
  {
    hide View, StoreOk, EndsWith, Leads;
    SavedChain(s);
    ChainedJoin(s.views, s.ops, trail, states);
    NumberedJoin(s.ops, states);
    assert (s.views + trail[1..])[|s.ops| + |states|] == trail[|trail| - 1];
  }

  /** The rollback copy differs from the store it was taken of in the deleted memory only. */
  lemma StandsSame(cfg: Config, st: Store, later: Store, views: seq<Doc>, ops: seq<Applied>)
    requires StandsAt(cfg, st, views, ops) && |later.deleted| <= DELETED_MEMORY
    ensures StandsAt(cfg, st.(deleted := later.deleted), views, ops)
  {
    hide View, DocOk, LogOk, EndsWith;
  }

  lemma SaveSucceedsKeeps(site: Site, s: Sys)
    requires Inv(site, s) && Enabled(site, s, SaveSucceeds)
    ensures Inv(site, Next(site, s, SaveSucceeds))
  {
    hide DocOk, LogOk, QueueOk, RingOk, Chained, Numbered;
    var s' := Next(site, s, SaveSucceeds);
    var states := StatesOf(s.m.flight.value.pending);
    assert LiveOps(s') == s.ops + states == LiveOps(s);
    assert LiveViews(s') == s'.views == LiveViews(s);
    assert (s.ops + states)[|s.ops|..] == states;
    assert s'.ops[s.boot..s.boot + |s.published|] == s.published;
    assert Published(s') == Published(s);
    forall id | id in s'.clients ensures CopyOk(s', s'.clients[id]) && LineOk(s', id, s'.clients[id]) {
      assert CopyOk(s, s.clients[id]) && LineOk(s, id, s.clients[id]);
    }
  }

  lemma CommitsBatchKeeps(site: Site, s: Sys, at: real)
    requires Inv(site, s) && Enabled(site, s, CommitsBatch(at))
    ensures Inv(site, Next(site, s, CommitsBatch(at)))
  {
    hide View, DocOk, LogOk, QueueOk, Chained, Numbered, StandsAt, CommitEntries, LinesOk;
    var f := s.m.flight.value;
    var states := StatesOf(f.pending);
    var m' := CommitEntries(site, s.m.(flight := None), f.client, f.pending, at);
    LinesFromClients(s);
    CommitKeepsLines(site, s.m.(flight := None), f.client, f.pending, at, s.clients, Published(s));
    PublishedGrows(s, states);
    AllPublished(site, s, m');
  }

  lemma PublishedGrows(s: Sys, states: seq<Applied>)
    requires HistoryOk(s) && EndsWith(s.ops, states) && s.boot + |s.published| + |states| == |s.ops|
    ensures Published(s) + states == s.ops
    ensures s.published + states == s.ops[s.boot..]
  {
    hide Chained, Numbered;
    assert s.ops[s.boot + |s.published|..] == states;
  }

  lemma AllPublished(site: Site, s: Sys, m': Mgr)
    requires Inv(site, s) && s.m.flight.Some? && s.m.flight.value.saved
    requires m' == s.m.(flight := None, queues := m'.queues, leases := m'.leases, claims := m'.claims)
    requires m'.queues.Keys == s.m.queues.Keys && LinesOk(m'.queues, s.clients, s.ops)
    ensures Inv(site, s.(m := m', published := s.published + StatesOf(s.m.flight.value.pending)))
  {
    hide View, DocOk, LogOk, QueueOk, Chained, Numbered, StandsAt, StatesOf, StoreOk;
    var s' := s.(m := m', published := s.published + StatesOf(s.m.flight.value.pending));
    PublishedGrows(s, StatesOf(s.m.flight.value.pending));
    assert LiveOps(s') == LiveOps(s) && LiveViews(s') == LiveViews(s);
    assert Published(s') == s.ops;
    CopiesGrow(s, s');
  }

  lemma StrandedCopy(s: Sys, s': Sys, c: Client)
    requires CopyOk(s, c) && s'.ops == s.ops && s'.views == s.views
    ensures CopyOk(s', c.(ahead := false, stray := c.stray || c.ahead))
  {
    hide View;
  }

  lemma QueueForgets(queue: seq<Event>, published: seq<Applied>, seen: Option<nat>)
    requires QueueOk(queue, published, seen)
    ensures QueueOk(queue, published, None)
  {
  }

  lemma SaveRaisesKeeps(site: Site, s: Sys)
    requires Inv(site, s) && Enabled(site, s, SaveRaises)
    ensures Inv(site, Next(site, s, SaveRaises))
  {
    hide View, DocOk, LogOk, QueueOk, StandsAt, Chained, Numbered, CopyOk;
    var s' := Next(site, s, SaveRaises);
    SavedChain(s);
    assert LiveViews(s') == s.views && LiveOps(s') == s.ops;
    assert Published(s') == Published(s);
    forall id | id in s'.clients ensures CopyOk(s', s'.clients[id]) && LineOk(s', id, s'.clients[id]) {
      assert CopyOk(s, s.clients[id]) && LineOk(s, id, s.clients[id]);
      StrandedCopy(s, s', s.clients[id]);
      if s.clients[id].open {
        QueueForgets(s.m.queues[id], Published(s), Seen(s.clients[id]));
      }
    }
  }

  // ---------------------------------------------------------------- restarts

  lemma RebootKeeps(site: Site, s: Sys)
    requires HistoryOk(s) && (s.m.disk.Some? ==> DiskOk(site.cfg, s.m.disk.value, s.views, s.ops))
    requires forall id :: id in s.clients ==> CopyOk(s, s.clients[id]) && id < s.m.nextSub
    ensures Inv(site, Reboot(s))
  {
    hide View, DocOk, LogOk;
    var s' := Reboot(s);
    SavedChain(s);
    assert LiveViews(s') == s.views && LiveOps(s') == s.ops;
    forall id | id in s'.clients ensures CopyOk(s', s'.clients[id]) && LineOk(s', id, s'.clients[id]) {
      assert CopyOk(s, s.clients[id]);
    }
  }

  /** The process dies after one more save, before anything is published. */
  lemma DiesAfterSaveKeeps(site: Site, s: Sys, st: Store, disk: Session, applied: Applied)
    requires Inv(site, s) && Idle(s.m)
    requires StoreOk(site.cfg, st) && st.session.seqNo == |s.ops| + 1 == applied.seqNo == disk.seqNo
    requires Leads(View(Held(s.m).session), applied.effect, View(st.session)) && View(disk) == View(st.session)
    requires DocOk(site.cfg, disk.doc) && LogOk(disk.log)
    ensures Inv(site, Reboot(Saves1(s, st, disk, applied)))
  {
    hide Leads, View, DocOk, LogOk, RingOk, QueueOk, CopyOk, LineOk, Chained, Numbered, EndsWith;
    LiveIsSaved(s);
    SavedChain(s);
    var v := View(st.session);
    ChainedPush(s.views, s.ops, applied, v);
    NumberedPush(0, s.ops, applied);
    var mid := Saves1(s, st, disk, applied);
    assert LiveViews(mid) == s.views + [v] && LiveOps(mid) == s.ops + [applied];
    assert s.published == mid.ops[s.boot..s.boot + |s.published|];
    CopiesGrow(s, mid);
    RebootKeeps(site, mid);
  }

  lemma DiesAfterSyncKeeps(site: Site, s: Sys, op: Op, env: Env)
    requires Inv(site, s) && Enabled(site, s, DiesAfterSync(op, env))
    ensures Inv(site, Next(site, s, DiesAfterSync(op, env)))
  {
    hide ApplyOp, Leads, View, DocOk, LogOk, RingOk, ClientsOk, HistoryOk, Saves1, Reboot;
    var r := ApplyOp(site.cfg, Held(s.m), op, env);
    LiveIsSaved(s) by { assert HistoryOk(s); }
    OneMoreOp(site.cfg, Held(s.m), op, env, s.ops);
    DiesAfterSaveKeeps(site, s, r.store, r.store.session, r.applied);
  }

  lemma DiesAfterUndoKeeps(site: Site, s: Sys, client: string, env: Env, at: real)
    requires Inv(site, s) && Enabled(site, s, DiesAfterUndo(client, env, at))
    ensures Inv(site, Next(site, s, DiesAfterUndo(client, env, at)))
  {
    hide UndoLast, Leads, View, DocOk, LogOk, RingOk, ClientsOk, HistoryOk, Saves1, Reboot;
    var holders := Holders(s.m.leases, at);
    var r := UndoLast(site.cfg, Held(s.m), client, holders, env);
    LiveIsSaved(s) by { assert HistoryOk(s); }
    UndoIsOneOp(site.cfg, Held(s.m), client, holders, env, s.ops);
    UndoDisk(site.cfg, Held(s.m), client, holders, env);
    DiesAfterSaveKeeps(site, s, r.store, r.store.session.(log := Held(s.m).session.log), r.applied);
  }

  // ------------------------------------------------------------- subscribers

  lemma JoinsKeeps(site: Site, s: Sys, client: string, name: Option<string>, guest: string, from: Option<nat>)
    requires Inv(site, s) && Enabled(site, s, Joins(client, name, guest, from))
    ensures Inv(site, Next(site, s, Joins(client, name, guest, from)))
  {
    hide View, QueueOk, Chained, Numbered, DiskOk, FlightOk, StandsAt, LinesOk, CopyOk, PublishTo;
    var s' := Next(site, s, Joins(client, name, guest, from));
    var e := PresenceJoined(Join(s.m.room, client, name, guest).roster[client]);
    JoinerCopy(s, from);
    LinesFromClients(s);
    LinesWithNewcomer(s.m.queues, s.clients, s.m.nextSub, s'.clients[s.m.nextSub], Published(s));
    PublishKeepsLines(s.m.queues[s.m.nextSub := []], e, site.queueMax, s'.clients, Published(s));
    Sideways(site, s, s');
  }

  lemma JoinerCopy(s: Sys, from: Option<nat>)
    requires s.boot + |s.published| <= |s.ops| && ClientsOk(s)
    requires from.Some? ==> from.value in s.clients
    ensures CopyOk(s, (if from.Some? then s.clients[from.value] else NO_CLIENT).(open := true, current := false))
  {
    if from.Some? {
      assert CopyOk(s, s.clients[from.value]);
    }
  }

  lemma LinesWithNewcomer(queues: map<nat, seq<Event>>, clients: map<nat, Client>, id: nat, c: Client, published: seq<Applied>)
    requires LinesOk(queues, clients, published) && id !in queues && !c.current
    ensures LinesOk(queues[id := []], clients[id := c], published)
  {
    assert StatesIn([]) == [];
    assert QueueOk([], published, None);
    hide QueueOk;
  }

  lemma LeavesKeeps(site: Site, s: Sys, client: string, gone: nat)
    requires Inv(site, s) && Enabled(site, s, Leaves(client, gone))
    ensures Inv(site, Next(site, s, Leaves(client, gone)))
  {
    hide View, DocOk, LogOk, QueueOk, Chained, Numbered, StandsAt, LinesOk, PublishTo;
    var clients' := s.clients[gone := s.clients[gone].(open := false, current := false)];
    LinesFromClients(s);
    LinesWithout(s.m.queues, s.clients, gone, Published(s));
    DisconnectKeepsLines(site, s.m, client, gone, clients', Published(s));
    forall id | id in clients' ensures CopyOk(s, clients'[id]) {
      assert CopyOk(s, s.clients[id]);
    }
    Sideways(site, s, s.(m := Disconnect(site, s.m, client, gone), clients := clients'));
  }

  lemma LinesWithout(queues: map<nat, seq<Event>>, clients: map<nat, Client>, gone: nat, published: seq<Applied>)
    requires gone in clients && LinesOk(queues, clients, published)
    ensures LinesOk(queues - {gone}, clients[gone := clients[gone].(open := false, current := false)], published)
  {
    hide QueueOk;
  }

  lemma PublishSomeKeeps(site: Site, queues: map<nat, seq<Event>>, e: Event, really: bool, clients: map<nat, Client>, published: seq<Applied>)
    requires LinesOk(queues, clients, published) && !e.Resync? && !e.StateOp?
    ensures LinesOk(PublishSome(site, queues, e, really), clients, published)
    ensures PublishSome(site, queues, e, really).Keys == queues.Keys
  {
    hide LinesOk, PublishTo;
    PublishKeepsLines(queues, e, site.queueMax, clients, published);
  }

  lemma DisconnectKeepsLines(site: Site, m: Mgr, client: string, gone: nat, clients: map<nat, Client>, published: seq<Applied>)
    requires LinesOk(m.queues - {gone}, clients, published)
    ensures var m' := Disconnect(site, m, client, gone);
            && LinesOk(m'.queues, clients, published)
            && m'.queues.Keys <= m.queues.Keys
            && m' == m.(room := m'.room, queues := m'.queues, claims := m'.claims, leases := m'.leases)
  {
    hide LinesOk, PublishTo, PublishSome;
    var q0, claims, leases := m.queues - {gone}, Freed(m.claims, client), Freed(m.leases, client);
    var q1 := PublishSome(site, q0, AllReleased(client, false, claims), claims != {});
    var q2 := PublishSome(site, q1, AllReleased(client, true, leases), leases != {});
    PublishSomeKeeps(site, q0, AllReleased(client, false, claims), claims != {}, clients, published);
    PublishSomeKeeps(site, q1, AllReleased(client, true, leases), leases != {}, clients, published);
    PublishKeepsLines(q2, PresenceLeft(client), site.queueMax, clients, published);
  }

  /** A snapshot is good whenever it is taken, and has seen all that is published. */
  lemma SnapshotOk(site: Site, s: Sys, c: Client)
    requires Inv(site, s) && c.open && s.m.store.Some?
    ensures CopyOk(s, TakeWhole(s.m, c, Held(s.m).session))
    ensures |Published(s)| <= TakeWhole(s.m, c, Held(s.m).session).seqNo
  {
    hide View, DocOk, LogOk, Chained, Numbered;
    if !InFlight(s.m) {
      assert LiveViews(s) == s.views;
    }
  }

  /** The ops that catch-up finds in the ring are those of the history. */
  lemma MissedOps(site: Site, s: Sys, c: Client)
    requires Inv(site, s) && s.m.store.Some? && CatchUp(s.m, Some(c.seqNo)).Missed?
    requires c.seqNo < Held(s.m).session.seqNo
    ensures c.seqNo <= |LiveOps(s)| && CatchUp(s.m, Some(c.seqNo)).ops == LiveOps(s)[c.seqNo..]
  {
    hide View, DocOk, LogOk, Chained, ClientsOk, FlightOk;
    OpsSinceExact(site.cfg, Held(s.m), c.seqNo);
    var live, ring := LiveOps(s), Held(s.m).ring;
    assert live[|live| - |ring|..] == ring;
  }

  lemma ReplayOk(site: Site, s: Sys, c: Client)
    requires Inv(site, s) && CopyOk(s, c) && c.open && c.started && s.m.store.Some?
    requires CatchUp(s.m, Some(c.seqNo)).Missed?
    ensures var p := CatchUp(s.m, Some(c.seqNo));
            var c' := Replayed(s.m, c, p.seqNo, p.ops);
            CopyOk(s, c') && |Published(s)| <= c'.seqNo
  {
    hide View, Fold, Mirrored, DocOk, LogOk;
    var p := CatchUp(s.m, Some(c.seqNo));
    if c.seqNo < Held(s.m).session.seqNo && !c.stray {
      hide OpsSince;
      assert !c.ahead;
      MissedOps(site, s, c);
      var live := LiveOps(s);
      assert LiveViews(s)[c.seqNo] == s.views[c.seqNo];
      if AllMirrored(c.copy, p.ops) {
        FoldAllChained(LiveViews(s), live, c.seqNo);
      }
      if !InFlight(s.m) {
        assert LiveViews(s) == s.views;
      }
    } else if !c.stray && !InFlight(s.m) {
      assert LiveViews(s) == s.views;
    }
  }

  lemma CatchesUpKeeps(site: Site, s: Sys, id: nat)
    requires Inv(site, s) && Enabled(site, s, CatchesUp(id))
    ensures Inv(site, Next(site, s, CatchesUp(id)))
  {
    hide View, Fold, Chained, Numbered, DiskOk, FlightOk, StandsAt, CopyOk, CatchUp;
    var s' := Next(site, s, CatchesUp(id));
    var c := s.clients[id];
    assert CopyOk(s, c) && LineOk(s, id, c);
    if s.m.store.None? {
      NothingThere(s.m, if c.started then Some(c.seqNo) else None);
      assert s' == s;
      return;
    }
    if CatchUp(s.m, if c.started then Some(c.seqNo) else None).Missed? {
      NeverStartedTakesWhole(s.m);
      ReplayOk(site, s, c);
    } else {
      ThereIsSomething(s.m, if c.started then Some(c.seqNo) else None);
      SnapshotOk(site, s, c);
    }
    QueueSeen(s.m.queues[id], Published(s), Seen(c), Seen(s'.clients[id]));
    LinesFromClients(s);
    Sideways(site, s, s');
  }

  lemma NeverStartedTakesWhole(m: Mgr)
    requires m.store.Some?
    ensures CatchUp(m, None) == Whole(Held(m).session)
  {
  }

  lemma NothingThere(m: Mgr, since: Option<int>)
    requires m.store.None?
    ensures CatchUp(m, since).NotThere?
  {
  }

  lemma ThereIsSomething(m: Mgr, since: Option<int>)
    requires m.store.Some?
    ensures !CatchUp(m, since).NotThere?
    ensures CatchUp(m, since).Whole? ==> CatchUp(m, since).session == Held(m).session
  {
  }

  lemma QueueSeen(queue: seq<Event>, published: seq<Applied>, seen: Option<nat>, seen': Option<nat>)
    requires QueueOk(queue, published, seen) && (seen'.Some? ==> |published| <= seen'.value)
    ensures QueueOk(queue, published, seen')
  {
  }

  /** Taking an op off the line: it is old, or it is exactly the next one. */
  lemma DeliveredOp(site: Site, s: Sys, id: nat)
    requires Inv(site, s) && id in s.clients && s.clients[id].open && s.clients[id].current
    requires id in s.m.queues && s.m.queues[id] != [] && s.m.queues[id][0].StateOp?
    ensures var c, q := s.clients[id], s.m.queues[id];
            var c' := Delivered(s.m, c, q[0]);
            && CopyOk(s, c')
            && QueueOk(q[1..], Published(s), Seen(c'))
            && (!c.stray ==> q[0].applied.seqNo <= c.seqNo + 1)
  {
    hide View, StoreOk, DiskOk, FlightOk, Chained, Fold, Mirrored;
    var c, q := s.clients[id], s.m.queues[id];
    var a := q[0].applied;
    assert CopyOk(s, c) && LineOk(s, id, c);
    StatesInHead(q);
    SavedChain(s);
    var lines, pub := StatesIn(q), Published(s);
    var k := |pub| - |lines|;
    assert a == lines[0] == pub[k..][0] == s.ops[k] && s.ops[k].seqNo == k + 1;
    assert pub[k..][1..] == pub[k + 1..];
    if !c.stray && c.seqNo == k {
      NextView(s, k);
    }
  }

  lemma NextView(s: Sys, k: nat)
    requires Chained(s.views, s.ops) && k < |s.ops|
    ensures Leads(s.views[k], s.ops[k].effect, s.views[k + 1])
  {
  }

  lemma DeliversKeeps(site: Site, s: Sys, id: nat)
    requires Inv(site, s) && Enabled(site, s, Delivers(id))
    ensures Inv(site, Next(site, s, Delivers(id)))
  {
    hide View, Fold, Mirrored, Chained, Numbered, SessionOk, FlightOk, CopyOk, QueueOk;
    var s' := Next(site, s, Delivers(id));
    var c, q := s.clients[id], s.m.queues[id];
    assert CopyOk(s, c) && LineOk(s, id, c);
    if q[0].StateOp? {
      DeliveredOp(site, s, id);
    } else if q[0].Resync? && s.m.store.Some? {
      SnapshotOk(site, s, c);
      DropHead(q, Published(s), Seen(c), Seen(s'.clients[id]));
    } else {
      EndedCopy(s, c);
      DropHead(q, Published(s), Seen(c), Seen(s'.clients[id]));
    }
    LinesFromClients(s);
    Sideways(site, s, s');
  }

  lemma EndedCopy(s: Sys, c: Client)
    requires CopyOk(s, c)
    ensures CopyOk(s, c.(current := false))
  {
  }

  /** Taking an event that carries no op off the line. */
  lemma DropHead(queue: seq<Event>, published: seq<Applied>, seen: Option<nat>, seen': Option<nat>)
    requires queue != [] && !queue[0].StateOp? && QueueOk(queue, published, seen)
    requires (seen' == seen && !queue[0].Resync?) || (seen'.Some? ==> |published| <= seen'.value)
    ensures QueueOk(queue[1..], published, seen')
  {
    StatesInHead(queue);
  }

  /** A delete leaves neither a store nor a disk copy, and what was published before
      it stays on the lines. */
  lemma RemoveKeeps(site: Site, s: Sys)
    requires Inv(site, s) && s.m.flight.None?
    ensures Inv(site, s.(m := Remove(site, s.m).0))
  {
    hide View, Chained, Numbered, DiskOk, StandsAt, QueueOk;
    var s' := s.(m := Remove(site, s.m).0);
    LinesFromClients(s);
    PublishKeepsLines(s.m.queues, SessionDeleted, site.queueMax, s.clients, Published(s));
    hide LinesOk, PublishTo;
    assert LiveOps(s') == LiveOps(s) && LiveViews(s') == LiveViews(s) && Published(s') == Published(s);
    forall id | id in s'.clients ensures CopyOk(s', s'.clients[id]) {
      assert CopyOk(s, s.clients[id]);
    }
    LinesToClients(s');
  }

  lemma LinesToClients(s: Sys)
    requires s.boot + |s.published| <= |s.ops| && LinesOk(s.m.queues, s.clients, Published(s))
    ensures forall id :: id in s.clients ==> LineOk(s, id, s.clients[id])
  {
  }

  lemma DeletesKeeps(site: Site, s: Sys, waits: bool)
    requires Inv(site, s) && Enabled(site, s, Deletes(waits))
    ensures Inv(site, Next(site, s, Deletes(waits)))
  {
    hide Inv, Remove;
    if s.m.flight.None? {
      RemoveKeeps(site, s);
    } else {
      assert Next(site, s, Deletes(waits)) == s;
    }
  }

  // -------------------------------------------------------------------- runs

  lemma StepKeeps(site: Site, s: Sys, a: Act)
    requires Inv(site, s) && Enabled(site, s, a)
    ensures Inv(site, Next(site, s, a))
  {
    hide Next;
    match a
    case Begin(client, batch, within, at) => BeginKeeps(site, s, client, batch, within, at);
    case SaveSucceeds => SaveSucceedsKeeps(site, s);
    case CommitsBatch(at) => CommitsBatchKeeps(site, s, at);
    case SaveRaises => SaveRaisesKeeps(site, s);
    case Sync(checker, op, env, at, saves) => SyncKeeps(site, s, checker, op, env, at, saves);
    case DiesAfterSync(op, env) => DiesAfterSyncKeeps(site, s, op, env);
    case Undoes(client, env, at, saves, marks) => UndoKeeps(site, s, client, env, at, saves, marks);
    case Joins(client, name, guest, from) => JoinsKeeps(site, s, client, name, guest, from);
    case Leaves(client, id) => LeavesKeeps(site, s, client, id);
    case CatchesUp(id) => CatchesUpKeeps(site, s, id);
    case Delivers(id) => DeliversKeeps(site, s, id);
    case DiesAfterUndo(client, env, at) => DiesAfterUndoKeeps(site, s, client, env, at);
    case Dies => DiesKeeps(site, s);
    case Deletes(waits) => DeletesKeeps(site, s, waits);
  }

  lemma DiesKeeps(site: Site, s: Sys)
    requires Inv(site, s)
    ensures Inv(site, Next(site, s, Dies))
  {
    hide DocOk, LogOk, StandsAt, Chained, Numbered, QueueOk;
    forall id | id in s.clients ensures CopyOk(s, s.clients[id]) && id < s.m.nextSub {
    }
    RebootKeeps(site, s);
  }

  function Reach(site: Site, s: Sys, acts: seq<Act>): Sys {
    if acts == [] then s else Next(site, Reach(site, s, acts[..|acts| - 1]), acts[|acts| - 1])
  }

  /** A run: every act is enabled where it happens. */
  ghost predicate Runs(site: Site, s: Sys, acts: seq<Act>) {
    acts != [] ==>
      && Runs(site, s, acts[..|acts| - 1])
      && Enabled(site, Reach(site, s, acts[..|acts| - 1]), acts[|acts| - 1])
  }

  lemma OneMoreAct(site: Site, s: Sys, acts: seq<Act>, a: Act)
    ensures Reach(site, s, acts + [a]) == Next(site, Reach(site, s, acts), a)
    ensures Runs(site, s, acts + [a]) <==> Runs(site, s, acts) && Enabled(site, Reach(site, s, acts), a)
  {
    hide Next, Enabled;
    assert (acts + [a])[..|acts|] == acts;
  }

  /** A run after a run is a run. */
  lemma {:induction false} RunsJoin(site: Site, s: Sys, first: seq<Act>, rest: seq<Act>)
    ensures Reach(site, s, first + rest) == Reach(site, Reach(site, s, first), rest)
    ensures Runs(site, s, first + rest) <==> Runs(site, s, first) && Runs(site, Reach(site, s, first), rest)
    decreases |rest|
  {
    hide Next, Enabled;
    if rest == [] {
      assert first + rest == first;
    } else {
      var n := |rest| - 1;
      RunsJoin(site, s, first, rest[..n]);
      assert first + rest == (first + rest[..n]) + [rest[n]];
      OneMoreAct(site, s, first + rest[..n], rest[n]);
      assert rest == rest[..n] + [rest[n]];
      OneMoreAct(site, Reach(site, s, first), rest[..n], rest[n]);
    }
  }

  lemma {:induction false} RunKeeps(site: Site, s: Sys, acts: seq<Act>)
    requires Inv(site, s) && Runs(site, s, acts)
    ensures Inv(site, Reach(site, s, acts))
  {
    hide Inv, Enabled, Next;
    if acts != [] {
      RunKeeps(site, s, acts[..|acts| - 1]);
      StepKeeps(site, Reach(site, s, acts[..|acts| - 1]), acts[|acts| - 1]);
    }
  }
}
