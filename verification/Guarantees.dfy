/**
 What the protocol guarantees over every run from a new session: convergence,
 order, atomicity, what a delete ends, and what a lease promises.
 */
module Guarantees {
  import opened Values
  import opened Lists
  import opened SessionModel
  import opened SessionFacts
  import opened Undo
  import opened Replica
  import opened Leases
  import opened Presence
  import opened EventBus
  import opened ManagerModel
  import opened BatchFacts
  import opened Protocol
  import opened Convergence

  lemma ReachableOk(site: Site, name: Option<string>, now: int, acts: seq<Act>)
    requires site.cfg.maxAnnotations >= 0 && Runs(site, Init(name, now), acts)
    ensures Inv(site, Reach(site, Init(name, now), acts))
  {
    hide Inv, Runs, Reach;
    InitOk(site, name, now);
    RunKeeps(site, Init(name, now), acts);
  }

  // -------------------------------------------------------------- convergence

  /** The line is drained, nothing is in flight, and the subscriber follows it. */
  ghost predicate Quiet(s: Sys, id: nat) {
    && Idle(s.m) && id in s.clients && s.clients[id].current
    && id in s.m.queues && StatesIn(s.m.queues[id]) == [] && !Marked(s.m.queues[id])
  }

  ghost predicate Agrees(s: Sys, id: nat)
    requires id in s.clients
  {
    s.clients[id].seqNo == Held(s.m).session.seqNo && s.clients[id].copy == View(Held(s.m).session)
  }

  /** Convergence: a subscriber's copy is the saved document at the subscriber's seq;
      and once its line is drained and nothing is in flight it is the server's. */
  lemma ReplicasConverge(site: Site, name: Option<string>, now: int, acts: seq<Act>, id: nat)
    requires site.cfg.maxAnnotations >= 0 && Runs(site, Init(name, now), acts)
    requires id in Reach(site, Init(name, now), acts).clients
    ensures CopyOnHistory(Reach(site, Init(name, now), acts), id)
  {
    ReachableOk(site, name, now, acts);
    hide *;
    CopyConverges(site, Reach(site, Init(name, now), acts), id);
  }

  ghost predicate CopyOnHistory(s: Sys, id: nat) {
    && id in s.clients && |s.views| == |s.ops| + 1
    && (s.m.disk.Some? ==> s.m.disk.value.seqNo == |s.ops| && View(s.m.disk.value) == s.views[|s.ops|])
    && var c := s.clients[id];
       && (c.started && !c.ahead && !c.stray ==> c.seqNo <= |s.ops| && c.copy == s.views[c.seqNo])
       && (!c.stray && Quiet(s, id) ==> Agrees(s, id))
  }

  lemma CopyConverges(site: Site, s: Sys, id: nat)
    requires Inv(site, s) && id in s.clients
    ensures CopyOnHistory(s, id)
  {
    hide View, Chained, Numbered, StoreOk, DocOk, LogOk, StatesIn, Marked, StatesOf, EndsWith;
    assert CopyOk(s, s.clients[id]) && LineOk(s, id, s.clients[id]);
  }

  ghost predicate InOrderAndSaved(s: Sys) {
    && (forall i :: 0 <= i < |s.published| ==> s.published[i].seqNo == s.boot + 1 + i)
    && s.boot + |s.published| <= |s.ops|
    && (s.m.disk.Some? ==> s.m.disk.value.seqNo == |s.ops|)
    && (forall i :: 0 <= i < |s.published| ==> s.boot + i < |s.ops| && s.published[i] == s.ops[s.boot + i])
  }

  /** The published ops of one process lifetime carry consecutive seqs, from the one
      after the seq it loaded, and every one of them is in the saved history. */
  lemma PublishedInOrderAndSaved(site: Site, name: Option<string>, now: int, acts: seq<Act>)
    requires site.cfg.maxAnnotations >= 0 && Runs(site, Init(name, now), acts)
    ensures InOrderAndSaved(Reach(site, Init(name, now), acts))
  {
    ReachableOk(site, name, now, acts);
    hide *;
    PublishedAreSaved(site, Reach(site, Init(name, now), acts));
  }

  lemma PublishedAreSaved(site: Site, s: Sys)
    requires Inv(site, s)
    ensures InOrderAndSaved(s)
  {
    assert HistoryOk(s) && (s.m.disk.Some? ==> s.m.disk.value.seqNo == |s.ops|);
    hide Inv, DiskOk, View, Chained;
    SavedChain(s);
    PublishedPart(s);
    hide HistoryOk;
  }

  lemma PublishedPart(s: Sys)
    requires HistoryOk(s)
    ensures s.boot + |s.published| <= |s.ops| && s.published == s.ops[s.boot..s.boot + |s.published|]
  {
    hide Chained, Numbered, LiveOps, LiveViews;
  }

  /** An op reaches a subscriber in order: what it takes off its line is old or is
      exactly the next op. A gap can only come with a marker in front. */
  lemma DeliveriesHaveNoGap(site: Site, name: Option<string>, now: int, acts: seq<Act>, id: nat)
    requires site.cfg.maxAnnotations >= 0 && Runs(site, Init(name, now), acts)
    requires NextIsOp(Reach(site, Init(name, now), acts), id)
    ensures var s := Reach(site, Init(name, now), acts);
            NextIsOp(s, id) && s.m.queues[id][0].applied.seqNo <= s.clients[id].seqNo + 1
  {
    ReachableOk(site, name, now, acts);
    hide *;
    NoGap(site, Reach(site, Init(name, now), acts), id);
  }

  /** A subscriber that is up to date has a state op at the front of its line. */
  predicate NextIsOp(s: Sys, id: nat) {
    && id in s.clients && s.clients[id].open && s.clients[id].current && !s.clients[id].stray
    && id in s.m.queues && s.m.queues[id] != [] && s.m.queues[id][0].StateOp?
  }

  lemma NoGap(site: Site, s: Sys, id: nat)
    requires Inv(site, s) && NextIsOp(s, id)
    ensures NextIsOp(s, id) && s.m.queues[id][0].applied.seqNo <= s.clients[id].seqNo + 1
  {
    hide Inv, QueueOk, CopyOk, Delivered;
    DeliveredOp(site, s, id);
  }

  /** One write reaches a subscriber whose line is drained: it then agrees with the
      server exactly when the op is one that mirrors take over. */
  lemma OneWriteConvergesIff(site: Site, s: Sys, id: nat, checker: string, op: Op, env: Env, at: real)
    requires Inv(site, s) && Enabled(site, s, Sync(checker, op, env, at, true))
    requires Quiet(s, id) && !s.clients[id].stray && s.m.queues[id] == []
    requires SyncWrite(site, s.m, checker, op, env, at, true).1.Wrote?
    ensures var s1 := Next(site, s, Sync(checker, op, env, at, true));
            var s2 := Next(site, s1, Delivers(id));
            && Enabled(site, s1, Delivers(id)) && id in s2.clients && Quiet(s2, id)
            && (Agrees(s2, id) <==>
                Mirrored(View(Held(s.m).session), ApplyOp(site.cfg, Held(s.m), op, env).applied.effect))
  {
    hide View, Fold, Mirrored, ApplyOp, TargetOf, Holders, Live;
    CopyConverges(site, s, id);
    assert CopyOk(s, s.clients[id]);
    var st := Held(s.m);
    var o := ApplyOp(site.cfg, st, op, env);
    WriteLeads(site, s, op, env);
    var s1 := Next(site, s, Sync(checker, op, env, at, true));
    assert s1.m.queues[id] == [StateOp(env.client, o.applied)];
    var s2 := Next(site, s1, Delivers(id));
    assert s2.m.queues[id] == [];
    assert s1.clients == s.clients && s2.m.store == s1.m.store == Some(o.store);
    assert Enabled(site, s1, Delivers(id));
    var c := s.clients[id];
    assert c.seqNo == st.session.seqNo && c.copy == View(st.session);
    assert s2.clients[id] == Delivered(s1.m, c, StateOp(env.client, o.applied));
    assert Quiet(s2, id);
    assert Agrees(s2, id) <==> Fold(c.copy, o.applied.effect) == View(o.store.session);
  }

  lemma WriteLeads(site: Site, s: Sys, op: Op, env: Env)
    requires Inv(site, s) && Idle(s.m) && MintIsNew(Held(s.m), env)
    ensures var o := ApplyOp(site.cfg, Held(s.m), op, env);
            o.Done? ==>
              && o.applied.seqNo == Held(s.m).session.seqNo + 1 == o.store.session.seqNo
              && Leads(View(Held(s.m).session), o.applied.effect, View(o.store.session))
  {
    hide ApplyOp, View, Leads;
    if ApplyOp(site.cfg, Held(s.m), op, env).Done? {
      assert StoreOk(site.cfg, Held(s.m));
      hide StoreOk;
      OpKeepsStoreOk(site.cfg, Held(s.m), op, env);
      OneMoreOp(site.cfg, Held(s.m), op, env, Held(s.m).ring) by { EndsWithItself(Held(s.m).ring); }
    }
  }

  lemma EndsWithItself<T>(l: seq<T>)
    ensures EndsWith(l, l)
  {
  }

  /** The failing input: a move of the node with the empty id, to a new place. */
  lemma EmptyIdMoveDiverges(site: Site, s: Sys, id: nat, p: Pos, env: Env, at: real)
    requires Inv(site, s) && Idle(s.m) && MintIsNew(Held(s.m), env)
    requires Quiet(s, id) && !s.clients[id].stray && s.m.queues[id] == []
    requires Lookup(Held(s.m).session.doc.positions, "") != Some(p)
    ensures var s1 := Next(site, s, Sync("", NodeMoved("", Some(p)), env, at, true));
            var s2 := Next(site, s1, Delivers(id));
            id in s2.clients && Quiet(s2, id) && !Agrees(s2, id)
  {
    EmptyIdMoveApplies(site, s, p, env, at);
    hide SyncWrite, Next, Quiet, Agrees, Inv, ApplyOp;
    OneWriteConvergesIff(site, s, id, "", NodeMoved("", Some(p)), env, at);
  }

  lemma EmptyIdMoveApplies(site: Site, s: Sys, p: Pos, env: Env, at: real)
    requires Idle(s.m) && Lookup(Held(s.m).session.doc.positions, "") != Some(p)
    ensures var o := ApplyOp(site.cfg, Held(s.m), NodeMoved("", Some(p)), env);
            o.Done? && !Mirrored(View(Held(s.m).session), o.applied.effect)
    ensures SyncWrite(site, s.m, "", NodeMoved("", Some(p)), env, at, true).1.Wrote?
  {
    hide Prune, PublishTo, Timeless;
  }

  // --------------------------------------------------- leaving and releasing

  /** A close releases the client's leases and claims exactly when it closes the
      last connection, and never anybody else's. */
  lemma ReleasedWithLastConnection(site: Site, m: Mgr, visits: seq<Visit>, client: string, sub: nat)
    requires m.room == AfterAll(EMPTY_ROOM, visits)
    ensures var m' := Disconnect(site, m, client, sub);
            && (OpenConnections(visits, client) == 1 ==>
                  m'.leases == WithoutClient(m.leases, client) && m'.claims == WithoutClient(m.claims, client))
            && (OpenConnections(visits, client) != 1 ==> m'.leases == m.leases && m'.claims == m.claims)
            && m'.room == AfterAll(EMPTY_ROOM, visits + [Closed(client)])
  {
    DepartsWithLastConnection(visits, client);
    hide Leave, AfterAll, PublishTo, PublishSome;
    assert AfterAll(EMPTY_ROOM, visits + [Closed(client)]) == Leave(m.room, client).0 by { OneMoreVisit(visits, client); }
  }

  lemma OneMoreVisit(visits: seq<Visit>, client: string)
    ensures AfterAll(EMPTY_ROOM, visits + [Closed(client)]) == Leave(AfterAll(EMPTY_ROOM, visits), client).0
  {
    assert (visits + [Closed(client)])[..|visits|] == visits;
  }
}
