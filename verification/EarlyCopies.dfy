/**
 The copy a subscriber takes while a batch is unsaved. `catch_up` does not look at the
 lock; here is exactly when that goes wrong: which copies converge in every later
 run, and which can be ahead of the disk after a crash.
 */
module EarlyCopies {
  import opened Values
  import opened Lists
  import opened SessionModel
  import opened SessionFacts
  import opened Undo
  import opened Replica
  import opened Leases
  import opened Presence
  import opened EventBus
  import opened ManagerModel
  import opened BatchFacts
  import opened Protocol
  import opened Convergence
  import opened Atomicity
  import opened Guarantees
  import UndoStack

  // --------------------------------------------------------- later behaviour

  /** The act makes subscriber `id` take a copy. */
  predicate Copies(s: Sys, a: Act, id: nat) {
    || a == CatchesUp(id)
    || (a == Delivers(id) && id in s.m.queues && Marked(s.m.queues[id]))
  }

  /** Subscriber `id` takes no further copy while a batch is unsaved. */
  ghost predicate CalmFor(site: Site, s: Sys, acts: seq<Act>, id: nat) {
    acts != [] ==>
      var before := Reach(site, s, acts[..|acts| - 1]);
      && CalmFor(site, s, acts[..|acts| - 1], id)
      && (Copies(before, acts[|acts| - 1], id) ==> !InFlight(before.m))
  }

  /** Every op saved after seq `base` is one that mirrors take over. */
  ghost predicate MirroredFrom(s: Sys, base: nat) {
    |s.views| == |s.ops| + 1 && forall i :: base <= i < |s.ops| ==> Mirrored(s.views[i], s.ops[i].effect)
  }

  /** The line is empty and the session idle, and the copy is not the server's. */
  ghost predicate Apart(s: Sys, id: nat) {
    && Idle(s.m) && id in s.clients && s.clients[id].current
    && id in s.m.queues && s.m.queues[id] == []
    && !Agrees(s, id)
  }

  /** The silent kind: the seqs agree, so no later op will show the difference. */
  ghost predicate SilentlyApart(s: Sys, id: nat) {
    Apart(s, id) && s.clients[id].seqNo == Held(s.m).session.seqNo
  }

  /** No later run ends with this subscriber apart from the server. */
  ghost predicate Converges(site: Site, s: Sys, id: nat) {
    forall later :: Runs(site, s, later) && CalmFor(site, s, later, id) && MirroredFrom(Reach(site, s, later), |s.ops|)
      ==> !Apart(Reach(site, s, later), id)
  }

  /** Some later run ends with it silently apart. */
  ghost predicate EndsAtSameSeqApart(site: Site, s: Sys, id: nat) {
    exists later :: Runs(site, s, later) && CalmFor(site, s, later, id) && MirroredFrom(Reach(site, s, later), |s.ops|)
      && SilentlyApart(Reach(site, s, later), id)
  }

  predicate Crashes(a: Act) {
    a.Dies? || a.DiesAfterSync? || a.DiesAfterUndo?
  }

  /** No later crash leaves this subscriber with a seq beyond the one reloaded. */
  ghost predicate NeverAhead(site: Site, s: Sys, id: nat) {
    forall later, crash :: Runs(site, s, later) && CalmFor(site, s, later, id)
                           && MirroredFrom(Reach(site, s, later), |s.ops|)
                           && Crashes(crash) && Enabled(site, Reach(site, s, later), crash)
      ==> NotAhead(Next(site, Reach(site, s, later), crash), id)
  }

  predicate NotAhead(s: Sys, id: nat) {
    id in s.clients && s.m.store.Some? ==> s.clients[id].seqNo <= Held(s.m).session.seqNo
  }

  // ---------------------------------------------------------- good copies stay

  /** A copy on the saved history, taken no earlier than seq `base`. */
  ghost predicate Good(s: Sys, id: nat, base: nat) {
    id in s.clients && var c := s.clients[id]; c.started && !c.ahead && !c.stray && base <= c.seqNo
  }

  /** The history only grows. */
  lemma HistoryGrows(site: Site, s: Sys, a: Act)
    requires Inv(site, s) && Enabled(site, s, a)
    ensures s.views <= Next(site, s, a).views && s.ops <= Next(site, s, a).ops
  {
    hide ApplyOp, UndoLast, Connect, Disconnect, CaughtUp, Delivered, CommitBatch, BeginBatch, SyncWrite, UndoAction, Remove,
         DeleteSync, View, Inv, Trail, StatesOf;
  }

  lemma MirroredEarlier(site: Site, s: Sys, a: Act, base: nat)
    requires Inv(site, s) && Enabled(site, s, a) && MirroredFrom(Next(site, s, a), base)
    ensures MirroredFrom(s, base)
  {
    HistoryGrows(site, s, a);
    assert |s.views| == |s.ops| + 1;
    hide Next, Inv, Enabled;
  }

  /** What the front of a followed line is, and that folding it stays on the history. */
  lemma FoldStaysGood(site: Site, s: Sys, id: nat, base: nat)
    requires Inv(site, s) && Enabled(site, s, Delivers(id)) && Good(s, id, base) && MirroredFrom(s, base)
    requires s.m.queues[id][0].StateOp?
    ensures Good(Next(site, s, Delivers(id)), id, base)
  {
    hide Inv, Next, Enabled, MirroredFrom, Delivered, View;
    DeliveryIs(site, s, id);
    CopyIsKnown(site, s, id);
    DeliveredIsGood(s, id, base);
  }

  lemma DeliveredIsGood(s: Sys, id: nat, base: nat)
    requires id in s.clients && id in s.m.queues && s.m.queues[id] != [] && s.m.queues[id][0].StateOp?
    requires Good(s, id, base) && MirroredFrom(s, base)
    requires var c, a := s.clients[id], s.m.queues[id][0].applied;
             && a.seqNo <= c.seqNo + 1 && 1 <= a.seqNo <= |s.ops| && a == s.ops[a.seqNo - 1]
             && c.seqNo <= |s.ops| && c.seqNo < |s.views| && c.copy == s.views[c.seqNo]
    ensures var c' := Delivered(s.m, s.clients[id], s.m.queues[id][0]);
            c'.started && !c'.ahead && !c'.stray && base <= c'.seqNo
  {
    hide Fold, Mirrored;
    var c, a := s.clients[id], s.m.queues[id][0].applied;
    if a.seqNo > c.seqNo {
      assert Mirrored(s.views[c.seqNo], s.ops[c.seqNo].effect);
    }
  }

  lemma DeliveryIs(site: Site, s: Sys, id: nat)
    requires Inv(site, s) && Enabled(site, s, Delivers(id)) && s.m.queues[id][0].StateOp?
    ensures id in s.clients && id in s.m.queues && s.m.queues[id] != [] && s.m.queues[id][0].StateOp?
    ensures var e := Next(site, s, Delivers(id));
            id in e.clients && e.clients[id] == Delivered(s.m, s.clients[id], s.m.queues[id][0])
    ensures var c, a := s.clients[id], s.m.queues[id][0].applied;
            1 <= a.seqNo <= |s.ops| && a == s.ops[a.seqNo - 1] && (!c.stray ==> a.seqNo <= c.seqNo + 1)
  {
    DeliveredOp(site, s, id);
    FrontIsHistory(s, id);
    hide Inv, Delivered, HistoryOk, ClientsOk;
  }

  lemma CopyIsKnown(site: Site, s: Sys, id: nat)
    requires Inv(site, s) && id in s.clients
    ensures var c := s.clients[id];
            c.started && !c.stray && !c.ahead ==> c.seqNo <= |s.ops| && c.seqNo < |s.views| && c.copy == s.views[c.seqNo]
  {
    hide View, Chained, Numbered, StoreOk;
    assert CopyOk(s, s.clients[id]);
  }

  lemma FrontIsHistory(s: Sys, id: nat)
    requires HistoryOk(s) && ClientsOk(s) && id in s.clients && s.clients[id].open
    requires id in s.m.queues && s.m.queues[id] != [] && s.m.queues[id][0].StateOp?
    ensures var a := s.m.queues[id][0].applied; 1 <= a.seqNo <= |s.ops| && a == s.ops[a.seqNo - 1]
  {
    hide View, Chained;
    var q := s.m.queues[id];
    assert LineOk(s, id, s.clients[id]);
    StatesInHead(q);
    SavedChain(s);
    var lines, pub := StatesIn(q), Published(s);
    var k := |pub| - |lines|;
    assert q[0].applied == lines[0] == pub[k..][0] == s.ops[k] && s.ops[k].seqNo == k + 1;
  }

  /** A run of ops of the history that mirrors take over is folded in whole. */
  lemma {:induction false} HistoryIsFolded(views: seq<Doc>, ops: seq<Applied>, i: nat)
    requires Chained(views, ops) && i <= |ops|
    requires forall j :: i <= j < |ops| ==> Mirrored(views[j], ops[j].effect)
    ensures AllMirrored(views[i], ops[i..])
    decreases |ops|
  {
    hide Mirrored, Fold;
    if i < |ops| {
      var n := |ops| - 1;
      assert Chained(views[..n + 1], ops[..n]);
      assert ops[i..][..n - i] == ops[..n][i..];
      HistoryIsFolded(views[..n + 1], ops[..n], i);
      FoldAllChained(views[..n + 1], ops[..n], i);
    }
  }

  /** A good copy that catches up while nothing is unsaved is good. */
  lemma CatchUpStaysGood(site: Site, s: Sys, id: nat, base: nat)
    requires Inv(site, s) && Enabled(site, s, CatchesUp(id)) && Good(s, id, base) && MirroredFrom(s, base)
    requires !InFlight(s.m)
    ensures Good(Next(site, s, CatchesUp(id)), id, base)
  {
    hide View, Fold, Mirrored, Chained, FlightOk, DocOk, LogOk, CatchUp;
    var c := s.clients[id];
    assert CopyOk(s, c);
    if s.m.store.None? {
      NothingThere(s.m, Some(c.seqNo));
    } else {
      ThereIsSomething(s.m, Some(c.seqNo));
      MissedIs(site, s, c);
      assert LiveOps(s) == s.ops;
      if CatchUp(s.m, Some(c.seqNo)).Missed? {
        SavedChain(s);
        HistoryIsFolded(s.views, s.ops, c.seqNo);
      }
    }
  }

  lemma MissedIs(site: Site, s: Sys, c: Client)
    requires Inv(site, s) && s.m.store.Some? && c.seqNo <= |LiveOps(s)|
    ensures var p := CatchUp(s.m, Some(c.seqNo));
            && (p.Missed? ==> p.seqNo == |LiveOps(s)| && p.ops == LiveOps(s)[c.seqNo..])
            && (p.Whole? ==> c.seqNo <= Held(s.m).session.seqNo)
  {
    hide View, DocOk, LogOk, Chained, Numbered;
    OpsSinceExact(site.cfg, Held(s.m), c.seqNo);
    var live, ring := LiveOps(s), Held(s.m).ring;
    assert live[|live| - |ring|..] == ring;
  }

  /** Acts that act on subscriber `id` itself. */
  predicate ActsOn(a: Act, id: nat) {
    a == CatchesUp(id) || a == Delivers(id) || (a.Leaves? && a.id == id)
  }

  /** Its copy is settled or stranded at most. */
  predicate SettledAtMost(c: Client, c': Client) {
    && c' == c.(ahead := c'.ahead, stray := c'.stray, open := c'.open, current := c'.current)
    && (c'.ahead ==> c.ahead) && (c'.stray ==> c.stray || c.ahead)
  }

  /** What other acts do to a subscriber: they settle its copy, strand it or cut it off. */
  lemma OthersLeaveCopy(site: Site, s: Sys, a: Act, id: nat)
    requires Inv(site, s) && Enabled(site, s, a) && id in s.clients && !ActsOn(a, id)
    ensures id in Next(site, s, a).clients
    ensures var c, c' := s.clients[id], Next(site, s, a).clients[id];
            && SettledAtMost(c, c')
            && (if Crashes(a) then !c'.open && !c'.current else c'.open == c.open && c'.current == c.current)
  {
    NewcomerIsNew(site, s, id);
    hide Inv, SettledAtMost;
    if Crashes(a) {
      CrashCutsOff(site, s, a, id);
    } else {
      PlainLeavesCopy(site, s, a, id);
    }
  }

  lemma CrashCutsOff(site: Site, s: Sys, a: Act, id: nat)
    requires Enabled(site, s, a) && Crashes(a) && id in s.clients
    ensures id in Next(site, s, a).clients
    ensures var c, c' := s.clients[id], Next(site, s, a).clients[id]; SettledAtMost(c, c') && !c'.open && !c'.current
  {
    hide ApplyOp, UndoLast, View, Restart, Holders;
  }

  lemma PlainLeavesCopy(site: Site, s: Sys, a: Act, id: nat)
    requires Enabled(site, s, a) && !Crashes(a) && !ActsOn(a, id) && id in s.clients && id != s.m.nextSub
    ensures id in Next(site, s, a).clients
    ensures var c, c' := s.clients[id], Next(site, s, a).clients[id];
            SettledAtMost(c, c') && c'.open == c.open && c'.current == c.current
  {
    hide ApplyOp, UndoLast, Connect, Disconnect, CaughtUp, Delivered, CommitBatch, BeginBatch, SyncWrite, UndoAction, Remove,
         DeleteSync, View, Trail, StatesOf, MintsFresh, MintIsNew, RollBack, SaveDone, Holders, Reboot, Held;
    match a {
      case SaveSucceeds =>
      case SaveRaises =>
      case _ =>
    }
  }

  lemma GoodStep(site: Site, s: Sys, a: Act, id: nat, base: nat)
    requires Inv(site, s) && Enabled(site, s, a) && Good(s, id, base) && MirroredFrom(s, base)
    requires Copies(s, a, id) ==> !InFlight(s.m)
    ensures Good(Next(site, s, a), id, base)
  {
    hide Inv, MirroredFrom, Next, Enabled, SettledAtMost;
    if a == CatchesUp(id) {
      CatchUpStaysGood(site, s, id, base);
    } else if a == Delivers(id) {
      DeliveryStaysGood(site, s, id, base);
    } else if a.Leaves? && a.id == id {
      LeavingStaysGood(site, s, a.client, id, base);
    } else {
      OthersStayGood(site, s, a, id, base);
    }
  }

  lemma DeliveryStaysGood(site: Site, s: Sys, id: nat, base: nat)
    requires Inv(site, s) && Enabled(site, s, Delivers(id)) && Good(s, id, base) && MirroredFrom(s, base)
    requires Copies(s, Delivers(id), id) ==> !InFlight(s.m)
    ensures Good(Next(site, s, Delivers(id)), id, base)
  {
    hide Inv, MirroredFrom, View, InFlight;
    if s.m.queues[id][0].StateOp? {
      FoldStaysGood(site, s, id, base);
    } else {
      SeqWithin(site, s, id);
      NoticeStaysGood(site, s, id, base);
    }
  }

  lemma NoticeStaysGood(site: Site, s: Sys, id: nat, base: nat)
    requires Enabled(site, s, Delivers(id)) && Good(s, id, base) && !s.m.queues[id][0].StateOp?
    requires Copies(s, Delivers(id), id) ==> !InFlight(s.m)
    requires s.m.store.Some? ==> s.clients[id].seqNo <= Held(s.m).session.seqNo
    ensures Good(Next(site, s, Delivers(id)), id, base)
  {
    hide View, InFlight;
  }

  lemma LeavingStaysGood(site: Site, s: Sys, client: string, id: nat, base: nat)
    requires Enabled(site, s, Leaves(client, id)) && Good(s, id, base)
    ensures Good(Next(site, s, Leaves(client, id)), id, base)
  {
    hide Disconnect;
  }

  lemma OthersStayGood(site: Site, s: Sys, a: Act, id: nat, base: nat)
    requires Inv(site, s) && Enabled(site, s, a) && Good(s, id, base) && !ActsOn(a, id)
    ensures Good(Next(site, s, a), id, base)
  {
    OthersLeaveCopy(site, s, a, id);
    hide Inv, Next, Enabled;
  }

  lemma NewcomerIsNew(site: Site, s: Sys, id: nat)
    requires Inv(site, s) && id in s.clients
    ensures id != s.m.nextSub
  {
  }

  lemma SeqWithin(site: Site, s: Sys, id: nat)
    requires Inv(site, s) && id in s.clients
    ensures var c := s.clients[id];
            c.started && !c.stray && !c.ahead && s.m.store.Some? ==> c.seqNo <= Held(s.m).session.seqNo
  {
    hide View, Chained, Numbered, DocOk, LogOk;
    assert CopyOk(s, s.clients[id]);
  }

  // -------------------------------------------- a marker in line heals a copy

  /** Nothing can make this subscriber end apart: its copy is good; or a marker waits at
      the front of its line; or it has left; or the session is gone. */
  ghost predicate Healthy(s: Sys, id: nat, base: nat) {
    && id in s.clients && base <= |s.ops|
    && (|| Good(s, id, base)
        || (s.clients[id].current && id in s.m.queues && Marked(s.m.queues[id]))
        || !s.clients[id].open
        || s.m.store.None?)
  }

  predicate MarkStays(queues: map<nat, seq<Event>>, queues': map<nat, seq<Event>>, id: nat) {
    id in queues && Marked(queues[id]) ==> id in queues' && Marked(queues'[id])
  }

  lemma PublishKeepsMark(queues: map<nat, seq<Event>>, e: Event, max: int, id: nat)
    ensures MarkStays(queues, PublishTo(queues, e, max), id)
  {
  }

  lemma {:induction false} CommitKeepsMark(site: Site, m: Mgr, client: string, pending: seq<Pending>, at: real, id: nat)
    ensures MarkStays(m.queues, CommitEntries(site, m, client, pending, at).queues, id)
  {
    hide PublishTo, Granting, Without, Claiming, Live;
    if pending != [] {
      var n := |pending| - 1;
      CommitKeepsMark(site, m, client, pending[..n], at, id);
      var q := CommitEntries(site, m, client, pending[..n], at).queues;
      forall e: Event ensures MarkStays(q, PublishTo(q, e, site.queueMax), id) {
        PublishKeepsMark(q, e, site.queueMax, id);
      }
    }
  }

  lemma DisconnectKeepsMark(site: Site, m: Mgr, client: string, sub: nat, id: nat)
    requires id != sub
    ensures MarkStays(m.queues, Disconnect(site, m, client, sub).queues, id)
  {
    hide PublishTo, Freed, WithoutClient, Leave;
    forall q: map<nat, seq<Event>>, e: Event ensures MarkStays(q, PublishTo(q, e, site.queueMax), id) {
      PublishKeepsMark(q, e, site.queueMax, id);
    }
  }

  lemma WritersKeepMark(site: Site, m: Mgr, checker: string, op: Op, env: Env, at: real, saves: bool, marks: bool, id: nat)
    ensures MarkStays(m.queues, SyncWrite(site, m, checker, op, env, at, saves).0.queues, id)
    ensures MarkStays(m.queues, UndoAction(site, m, checker, env, at, saves, marks).0.queues, id)
    ensures MarkStays(m.queues, Remove(site, m).0.queues, id)
  {
    UndoKeepsMark(site, m, checker, env, at, saves, marks, id);
    hide ApplyOp, UndoAction, PublishTo, TargetOf, Live, Holders;
    forall q: map<nat, seq<Event>>, e: Event ensures MarkStays(q, PublishTo(q, e, site.queueMax), id) {
      PublishKeepsMark(q, e, site.queueMax, id);
    }
  }

  lemma UndoKeepsMark(site: Site, m: Mgr, client: string, env: Env, at: real, saves: bool, marks: bool, id: nat)
    ensures MarkStays(m.queues, UndoAction(site, m, client, env, at, saves, marks).0.queues, id)
  {
    hide UndoLast, PublishTo, TargetOf, Live, Holders, LatestUndoable;
    forall q: map<nat, seq<Event>>, e: Event ensures MarkStays(q, PublishTo(q, e, site.queueMax), id) {
      PublishKeepsMark(q, e, site.queueMax, id);
    }
  }

  lemma BeginKeepsMark(site: Site, m: Mgr, client: string, ops: seq<BatchOp>, within: bool, at: real, id: nat)
    ensures MarkStays(m.queues, BeginBatch(site, m, client, ops, within, at).0.queues, id)
  {
    hide Walk, CommitEntries, Live, Holders, StatesOf;
    if m.store.Some? {
      var walked := Walk(site.cfg, m.store.value, Holders(m.leases, at), client, ops);
      if walked.WalkDone? {
        CommitKeepsMark(site, m.(leases := Live(m.leases, at)), client, walked.pending, at, id);
      }
    }
  }

  lemma ConnectKeepsMark(site: Site, m: Mgr, client: string, name: Option<string>, guest: string, id: nat)
    requires id != m.nextSub
    ensures MarkStays(m.queues, Connect(site, m, client, name, guest).queues, id)
  {
    hide Join;
  }

  /** What any act but a crash, a delivery to it or its leaving does to a subscriber. */
  lemma OthersKeepMark(site: Site, s: Sys, a: Act, id: nat)
    requires Inv(site, s) && Enabled(site, s, a) && id in s.clients && s.clients[id].current
    requires !Crashes(a) && a != Delivers(id) && !(a.Leaves? && a.id == id)
    ensures var e := Next(site, s, a);
            && id in e.clients && e.clients[id].current
            && MarkStays(s.m.queues, e.m.queues, id)
  {
    NewcomerIsNew(site, s, id);
    NotActedOn(site, s, a, id);
    OthersLeaveCopy(site, s, a, id);
    OthersMarkQueue(site, s, a, id);
    hide Inv, Next, Enabled, MarkStays;
  }

  lemma NotActedOn(site: Site, s: Sys, a: Act, id: nat)
    requires Enabled(site, s, a) && id in s.clients && s.clients[id].current
    requires a != Delivers(id) && !(a.Leaves? && a.id == id)
    ensures !ActsOn(a, id)
  {
    hide MintsFresh, ApplyOp, UndoLast, MintIsNew;
  }

  lemma OthersMarkQueue(site: Site, s: Sys, a: Act, id: nat)
    requires Enabled(site, s, a) && id != s.m.nextSub
    requires !Crashes(a) && a != Delivers(id) && !(a.Leaves? && a.id == id)
    ensures MarkStays(s.m.queues, Next(site, s, a).m.queues, id)
  {
    hide MarkStays, ApplyOp, UndoLast, PublishTo, Disconnect, CaughtUp, Delivered, CommitEntries, Connect, Holders,
         SyncWrite, UndoAction, BeginBatch, Remove, Trail, StatesOf, View, MintsFresh, MintIsNew, Strand, Settle;
    SameQueues(s.m.queues, id);
    match a {
      case Begin(client, batch, within, at) => BeginKeepsMark(site, s.m, client, batch, within, at, id);
      case CommitsBatch(at) =>
        CommitKeepsMark(site, s.m.(flight := None), s.m.flight.value.client, s.m.flight.value.pending, at, id);
      case Sync(checker, op, env, at, saves) => WritersKeepMark(site, s.m, checker, op, env, at, saves, true, id);
      case Undoes(client, env, at, saves, marks) => WritersKeepMark(site, s.m, client, Malformed, env, at, saves, marks, id);
      case Joins(client, name, guest, _) => ConnectKeepsMark(site, s.m, client, name, guest, id);
      case Leaves(client, sub) => DisconnectKeepsMark(site, s.m, client, sub, id);
      case Delivers(sub) => SameQueue(s.m.queues, sub, id);
      case Deletes(_) => WritersKeepMark(site, s.m, "", Malformed, Env(0, "", "", false), 0.0, false, false, id);
      case _ =>
    }
  }

  lemma SameQueues(queues: map<nat, seq<Event>>, id: nat)
    ensures MarkStays(queues, queues, id)
  {
  }

  lemma SameQueue(queues: map<nat, seq<Event>>, sub: nat, id: nat)
    requires sub in queues && queues[sub] != [] && sub != id
    ensures MarkStays(queues, queues[sub := queues[sub][1..]], id)
  {
  }

  lemma HealthyStep(site: Site, s: Sys, a: Act, id: nat, base: nat)
    requires Inv(site, s) && Enabled(site, s, a) && Healthy(s, id, base) && MirroredFrom(s, base)
    requires Copies(s, a, id) ==> !InFlight(s.m)
    ensures Healthy(Next(site, s, a), id, base)
  {
    HistoryGrows(site, s, a);
    if Good(s, id, base) {
      GoodStep(site, s, a, id, base);
      hide *;
      GoodIsHealthy(Next(site, s, a), id, base);
    } else if s.m.store.None? {
      assert Gone(s.m);
      GoneStep(site, s, a);
      StaysKnown(site, s, a, id);
    } else if !s.clients[id].open {
      StaysClosed(site, s, a, id);
    } else {
      MarkedStep(site, s, a, id, base);
    }
  }

  lemma GoodIsHealthy(s: Sys, id: nat, base: nat)
    requires Good(s, id, base) && base <= |s.ops|
    ensures Healthy(s, id, base)
  {
  }

  lemma StaysKnown(site: Site, s: Sys, a: Act, id: nat)
    requires id in s.clients
    ensures id in Next(site, s, a).clients
  {
    hide ApplyOp, UndoLast, Connect, Disconnect, CaughtUp, Delivered, CommitBatch, BeginBatch, SyncWrite,
         UndoAction, Remove, DeleteSync, View, Trail, StatesOf;
  }

  lemma StaysClosed(site: Site, s: Sys, a: Act, id: nat)
    requires Inv(site, s) && Enabled(site, s, a) && id in s.clients && !s.clients[id].open
    ensures id in Next(site, s, a).clients && !Next(site, s, a).clients[id].open
  {
    NobodyActsOnClosed(site, s, a, id);
    hide Inv, Next, Enabled;
    OthersLeaveCopy(site, s, a, id);
  }

  lemma NobodyActsOnClosed(site: Site, s: Sys, a: Act, id: nat)
    requires Enabled(site, s, a) && id in s.clients && !s.clients[id].open
    ensures !ActsOn(a, id)
  {
    hide MintsFresh, ApplyOp, UndoLast, MintIsNew;
  }

  lemma MarkedStep(site: Site, s: Sys, a: Act, id: nat, base: nat)
    requires Inv(site, s) && Enabled(site, s, a) && id in s.clients && base <= |s.ops| <= |Next(site, s, a).ops|
    requires s.clients[id].current && id in s.m.queues && Marked(s.m.queues[id]) && s.m.store.Some?
    requires Copies(s, a, id) ==> !InFlight(s.m)
    ensures Healthy(Next(site, s, a), id, base)
  {
    hide Inv, View, Disconnect;
    if a == Delivers(id) {
      WholeIsAtEnd(site, s);
    } else if Crashes(a) {
      hide Next, Enabled;
      CrashCutsOff(site, s, a, id);
    } else if !(a.Leaves? && a.id == id) {
      hide Next, Enabled;
      OthersKeepMark(site, s, a, id);
    }
  }

  lemma WholeIsAtEnd(site: Site, s: Sys)
    requires Inv(site, s) && s.m.store.Some?
    ensures |s.ops| <= Held(s.m).session.seqNo
    ensures !InFlight(s.m) ==> Held(s.m).session.seqNo == |s.ops|
  {
    hide View, Chained, Numbered, DocOk, LogOk;
  }

  /** Along calm runs a healthy subscriber stays healthy. */
  lemma {:induction false} HealthyRun(site: Site, s: Sys, later: seq<Act>, id: nat, base: nat)
    requires Inv(site, s) && Runs(site, s, later) && CalmFor(site, s, later, id)
    requires Healthy(s, id, base) && MirroredFrom(Reach(site, s, later), base)
    ensures Healthy(Reach(site, s, later), id, base)
  {
    hide Inv, Enabled, Next, Healthy, MirroredFrom, Copies, InFlight;
    if later != [] {
      var n := |later| - 1;
      var before := Reach(site, s, later[..n]);
      RunKeeps(site, s, later[..n]);
      MirroredEarlier(site, before, later[n], base);
      HealthyRun(site, s, later[..n], id, base);
      HealthyStep(site, before, later[n], id, base);
    }
  }

  lemma {:induction false} GoodRun(site: Site, s: Sys, later: seq<Act>, id: nat, base: nat)
    requires Inv(site, s) && Runs(site, s, later) && CalmFor(site, s, later, id)
    requires Good(s, id, base) && MirroredFrom(Reach(site, s, later), base)
    ensures Good(Reach(site, s, later), id, base)
  {
    hide Inv, Enabled, Next, Good, MirroredFrom, Copies, InFlight;
    if later != [] {
      var n := |later| - 1;
      var before := Reach(site, s, later[..n]);
      RunKeeps(site, s, later[..n]);
      MirroredEarlier(site, before, later[n], base);
      GoodRun(site, s, later[..n], id, base);
      GoodStep(site, before, later[n], id, base);
    }
  }

  lemma HealthyIsNotApart(site: Site, s: Sys, id: nat, base: nat)
    requires Inv(site, s) && Healthy(s, id, base)
    ensures !Apart(s, id)
  {
    CopyConverges(site, s, id);
    assert CopyOk(s, s.clients[id]);
    hide Inv;
  }

  /** A copy taken while nothing is unsaved is good, and a marker is no worse. */
  lemma CalmCopyIsHealthy(site: Site, s: Sys, id: nat)
    requires Inv(site, s) && Enabled(site, s, CatchesUp(id)) && s.m.store.Some?
    requires !Next(site, s, CatchesUp(id)).clients[id].stray
    ensures !InFlight(s.m) ==> Good(Next(site, s, CatchesUp(id)), id, |s.ops|)
    ensures Marked(s.m.queues[id]) ==> Healthy(Next(site, s, CatchesUp(id)), id, |s.ops|)
  {
    var c := s.clients[id];
    ThereIsSomething(s.m, if c.started then Some(c.seqNo) else None);
    WholeIsAtEnd(site, s);
    hide Inv, View, FoldAll, AllMirrored, OpsSince;
  }

  // ----------------------------------------- the run that ends silently apart

  lemma {:induction false} CalmJoin(site: Site, s: Sys, first: seq<Act>, rest: seq<Act>, id: nat)
    requires CalmFor(site, s, first, id) && CalmFor(site, Reach(site, s, first), rest, id)
    ensures CalmFor(site, s, first + rest, id)
    decreases |rest|
  {
    hide Next, Copies, InFlight;
    if rest == [] {
      assert first + rest == first;
    } else {
      var n := |rest| - 1;
      CalmJoin(site, s, first, rest[..n], id);
      RunsJoin(site, s, first, rest[..n]);
      assert (first + rest)[..|first + rest| - 1] == first + rest[..n];
    }
  }

  lemma OneAct(site: Site, s: Sys, a: Act, id: nat)
    requires Enabled(site, s, a) && (Copies(s, a, id) ==> !InFlight(s.m))
    ensures Runs(site, s, [a]) && CalmFor(site, s, [a], id) && Reach(site, s, [a]) == Next(site, s, a)
  {
    hide Next, Enabled, Copies, InFlight;
    assert [a][..0] == [];
  }

  /** The subscriber follows an empty line with a copy of this seq and document. */
  ghost predicate Waits(s: Sys, id: nat, seqNo: nat, copy: Doc) {
    && id in s.clients && s.clients[id].open && s.clients[id].current
    && s.clients[id].seqNo == seqNo && s.clients[id].copy == copy
    && id in s.m.queues && s.m.queues[id] == []
  }

  lemma StaleDelivery(site: Site, s: Sys, id: nat)
    requires Inv(site, s) && InFlight(s.m) && Enabled(site, s, Delivers(id)) && s.clients[id].ahead
    requires !Marked(s.m.queues[id])
    ensures var q := s.m.queues[id];
            && Next(site, s, Delivers(id)) == s.(m := s.m.(queues := s.m.queues[id := q[1..]]))
            && !Marked(q[1..])
  {
    hide View, Chained, Numbered, Fold, Mirrored, StoreOk, StatesIn;
    assert CopyOk(s, s.clients[id]) && LineOk(s, id, s.clients[id]);
    if s.m.queues[id][0].StateOp? {
      FrontIsHistory(s, id);
    }
    assert s.clients[id := s.clients[id]] == s.clients;
  }

  ghost predicate Draining(site: Site, s: Sys, id: nat) {
    && Inv(site, s) && InFlight(s.m) && id in s.clients && s.clients[id].current && s.clients[id].ahead
    && s.clients[id].open && id in s.m.queues && !Marked(s.m.queues[id])
  }

  lemma DrainStep(site: Site, s: Sys, id: nat)
    requires Draining(site, s, id) && s.m.queues[id] != []
    ensures Enabled(site, s, Delivers(id)) && !Copies(s, Delivers(id), id)
    ensures Next(site, s, Delivers(id)) == s.(m := s.m.(queues := s.m.queues[id := s.m.queues[id][1..]]))
    ensures Draining(site, Next(site, s, Delivers(id)), id)
  {
    hide Inv, Next;
    StaleDelivery(site, s, id);
    StepKeeps(site, s, Delivers(id));
  }

  lemma Drained(site: Site, s: Sys, id: nat)
    requires id in s.m.queues && s.m.queues[id] == []
    ensures Runs(site, s, []) && CalmFor(site, s, [], id) && Reach(site, s, []) == s.(m := s.m.(queues := s.m.queues[id := []]))
  {
    assert s.m.queues[id := []] == s.m.queues;
  }

  /** While the batch is unsaved its copy lets every older op pass by. */
  lemma {:induction false} DrainedEarly(site: Site, s: Sys, id: nat) returns (acts: seq<Act>)
    requires Draining(site, s, id)
    ensures Runs(site, s, acts) && CalmFor(site, s, acts, id)
    ensures Reach(site, s, acts) == s.(m := s.m.(queues := s.m.queues[id := []]))
    decreases |s.m.queues[id]|
  {
    hide Inv, Next, Enabled, Copies, Runs, CalmFor, Reach, InFlight, Marked;
    if s.m.queues[id] == [] {
      Drained(site, s, id);
      return [];
    }
    DrainStep(site, s, id);
    OneAct(site, s, Delivers(id), id);
    var t := Next(site, s, Delivers(id));
    var rest := DrainedEarly(site, t, id);
    RunsJoin(site, s, [Delivers(id)], rest);
    CalmJoin(site, s, [Delivers(id)], rest, id);
    acts := [Delivers(id)] + rest;
    assert t.m.queues[id := []] == s.m.queues[id := []];
  }

  function NotAmong(names: seq<string>): (x: string)
    ensures x !in names
  {
    if names == [] then "x"
    else
      LongestIsNew(names);
      Longest(names) + "x"
  }

  function Longest(names: seq<string>): string {
    if names == [] then "" else Longest(names[1..]) + names[0]
  }

  lemma {:induction false} LongestIsNew(names: seq<string>)
    ensures forall y :: y in names ==> |y| <= |Longest(names)|
  {
    if names != [] {
      LongestIsNew(names[1..]);
      assert forall y :: y in names <==> y == names[0] || y in names[1..];
    }
  }

  /** A write that adds the node `x`. */
  function AddNode(m: Mgr, x: string): Act {
    Sync("", NodesAdded([x]), Env(0, "w", UndoStack.Longer(Held(m).session.doc.annotations), false), 0.0, true)
  }

  lemma AddNodeApplies(cfg: Config, st: Store, x: string, env: Env)
    ensures var o := ApplyOp(cfg, st, NodesAdded([x]), env);
            && o == Done(o.store, Applied(st.session.seqNo + 1, ENodesAdded([x])))
            && o.store.session.seqNo == st.session.seqNo + 1 && x in o.store.session.doc.nodeRefs
    ensures TargetOf(NodesAdded([x]), st.session.doc).None?
  {
    UnionFacts(st.session.doc.nodeRefs, [x]);
    assert x in [x];
    hide Union, Prune;
  }

  /** One write, delivered at once to a subscriber with a higher seq: it lets it pass. */
  lemma OneRound(site: Site, s: Sys, id: nat, x: string, seqNo: nat, copy: Doc) returns (acts: seq<Act>)
    requires Inv(site, s) && Idle(s.m) && Waits(s, id, seqNo, copy) && Held(s.m).session.seqNo < seqNo
    ensures Runs(site, s, acts) && CalmFor(site, s, acts, id)
    ensures var e := Reach(site, s, acts);
            && Inv(site, e) && Idle(e.m) && Waits(e, id, seqNo, copy)
            && Held(e.m).session.seqNo == Held(s.m).session.seqNo + 1 && x in Held(e.m).session.doc.nodeRefs
            && s.views <= e.views && |e.ops| == |s.ops| + 1 && s.ops <= e.ops
            && e.ops[|s.ops|].effect == ENodesAdded([x])
  {
    var a := AddNode(s.m, x);
    var t, e := Next(site, s, a), Next(site, Next(site, s, a), Delivers(id));
    AddNodeApplies(site.cfg, Held(s.m), x, a.env);
    RoundFacts(site, s, id, x, seqNo, copy);
    StepKeeps(site, s, a);
    StepKeeps(site, t, Delivers(id));
    OneAct(site, s, a, id);
    OneAct(site, t, Delivers(id), id);
    hide Inv, Next, Enabled, Copies;
    RunsJoin(site, s, [a], [Delivers(id)]);
    CalmJoin(site, s, [a], [Delivers(id)], id);
    acts := [a] + [Delivers(id)];
  }

  lemma RoundFacts(site: Site, s: Sys, id: nat, x: string, seqNo: nat, copy: Doc)
    requires Idle(s.m) && Waits(s, id, seqNo, copy) && Held(s.m).session.seqNo < seqNo
    requires var o := ApplyOp(site.cfg, Held(s.m), NodesAdded([x]), AddNode(s.m, x).env);
             && o == Done(o.store, Applied(Held(s.m).session.seqNo + 1, ENodesAdded([x])))
             && o.store.session.seqNo == Held(s.m).session.seqNo + 1 && x in o.store.session.doc.nodeRefs
    requires TargetOf(NodesAdded([x]), Held(s.m).session.doc).None?
    ensures var a := AddNode(s.m, x);
            var t := Next(site, s, a);
            var e := Next(site, t, Delivers(id));
            && Enabled(site, s, a) && Enabled(site, t, Delivers(id)) && !Copies(s, a, id) && !Copies(t, Delivers(id), id)
            && Idle(e.m) && Waits(e, id, seqNo, copy)
            && Held(e.m).session.seqNo == Held(s.m).session.seqNo + 1 && x in Held(e.m).session.doc.nodeRefs
            && s.views <= e.views && |e.ops| == |s.ops| + 1 && s.ops <= e.ops
            && e.ops[|s.ops|].effect == ENodesAdded([x])
  {
    hide ApplyOp, TargetOf, View, Fold, Mirrored, Holders, Live;
    var a := AddNode(s.m, x);
    var t := Next(site, s, a);
    assert t.m.queues[id] == Push([], t.m.queues[id][0], Resync, site.queueMax);
    assert |t.m.queues[id]| == 1 && t.m.queues[id][0].StateOp? && t.clients == s.clients;
    assert t.m.queues[id][1..] == [];
  }

  lemma {:induction false} Rounds(site: Site, s: Sys, id: nat, x: string, seqNo: nat, copy: Doc, k: nat) returns (acts: seq<Act>)
    requires Inv(site, s) && Idle(s.m) && Waits(s, id, seqNo, copy) && Held(s.m).session.seqNo + k <= seqNo
    ensures Runs(site, s, acts) && CalmFor(site, s, acts, id)
    ensures var e := Reach(site, s, acts);
            && Inv(site, e) && Idle(e.m) && Waits(e, id, seqNo, copy)
            && Held(e.m).session.seqNo == Held(s.m).session.seqNo + k
            && (k > 0 ==> x in Held(e.m).session.doc.nodeRefs)
            && s.ops <= e.ops && (forall i :: |s.ops| <= i < |e.ops| ==> e.ops[i].effect == ENodesAdded([x]))
    decreases k
  {
    hide Inv, Next, Enabled, Copies, Waits;
    if k == 0 {
      return [];
    }
    var first := Rounds(site, s, id, x, seqNo, copy, k - 1);
    var t := Reach(site, s, first);
    var last := OneRound(site, t, id, x, seqNo, copy);
    RunsJoin(site, s, first, last);
    CalmJoin(site, s, first, last, id);
    acts := first + last;
  }

  /** The save fails: the copy of the batch is left with a seq the store has not got. */
  lemma FailureLeavesBehind(site: Site, s: Sys, id: nat)
    requires Inv(site, s) && InFlight(s.m) && id in s.clients && s.clients[id].ahead && s.clients[id].current
    requires id in s.m.queues && s.m.queues[id] == []
    ensures var e := Next(site, s, SaveRaises);
            && Enabled(site, s, SaveRaises) && !Copies(s, SaveRaises, id)
            && Idle(e.m) && Waits(e, id, s.clients[id].seqNo, s.clients[id].copy)
            && Held(e.m).session.seqNo == |s.ops| < s.clients[id].seqNo && e.ops == s.ops
  {
    hide View, Chained, Numbered, StoreOk;
    assert CopyOk(s, s.clients[id]);
  }

  /** The continuation: let the line run dry, let the save fail, let others write as many
      ops as the batch had, and let the subscriber take each for an old one. */
  lemma EndsSilentlyApart(site: Site, s: Sys, id: nat) returns (later: seq<Act>)
    requires Inv(site, s) && InFlight(s.m) && id in s.clients && s.clients[id].ahead && s.clients[id].current
    requires s.clients[id].open && id in s.m.queues && !Marked(s.m.queues[id])
    ensures Runs(site, s, later) && CalmFor(site, s, later, id)
    ensures MirroredFrom(Reach(site, s, later), |s.ops|) && SilentlyApart(Reach(site, s, later), id)
  {
    var c := s.clients[id];
    var x := NotAmong(c.copy.nodeRefs);
    var drain := DrainedEarly(site, s, id);
    var s2 := s.(m := s.m.(queues := s.m.queues[id := []]));
    RunKeeps(site, s, drain);
    FailureLeavesBehind(site, s2, id);
    var s3 := Next(site, s2, SaveRaises);
    StepKeeps(site, s2, SaveRaises);
    OneAct(site, s2, SaveRaises, id);
    hide Inv, Next, Enabled, Copies;
    var rounds := Rounds(site, s3, id, x, c.seqNo, c.copy, c.seqNo - |s.ops|);
    RunsJoin(site, s2, [SaveRaises], rounds);
    CalmJoin(site, s2, [SaveRaises], rounds, id);
    RunsJoin(site, s, drain, [SaveRaises] + rounds);
    CalmJoin(site, s, drain, [SaveRaises] + rounds, id);
    later := drain + ([SaveRaises] + rounds);
    ApartByNode(site, Reach(site, s, later), id, c.seqNo, c.copy, x, |s.ops|);
  }

  lemma ApartByNode(site: Site, e: Sys, id: nat, seqNo: nat, copy: Doc, x: string, base: nat)
    requires Inv(site, e) && Idle(e.m) && Waits(e, id, seqNo, copy) && Held(e.m).session.seqNo == seqNo
    requires x in Held(e.m).session.doc.nodeRefs && x !in copy.nodeRefs
    requires forall i :: base <= i < |e.ops| ==> e.ops[i].effect == ENodesAdded([x])
    ensures MirroredFrom(e, base) && SilentlyApart(e, id)
  {
    ViewKeepsRefs(Held(e.m).session);
    assert |e.views| == |e.ops| + 1;
    hide View, Inv;
  }

  lemma ViewKeepsRefs(s: Session)
    ensures View(s).nodeRefs == s.doc.nodeRefs
  {
  }

  // -------------------------------------------------------------- the exact laws

  /** A copy taken from the batch in flight. */
  lemma EarlyCopyIsAhead(site: Site, s: Sys, id: nat)
    requires Inv(site, s) && Enabled(site, s, CatchesUp(id)) && InFlight(s.m)
    requires !Next(site, s, CatchesUp(id)).clients[id].stray
    ensures var s1 := Next(site, s, CatchesUp(id));
            && id in s1.clients && s1.clients[id].ahead && s1.clients[id].current && s1.clients[id].open
            && InFlight(s1.m) && s1.m.queues == s.m.queues && id in s1.m.queues && s1.ops == s.ops
  {
    assert LineOk(s, id, s.clients[id]);
    ThereIsSomething(s.m, if s.clients[id].started then Some(s.clients[id].seqNo) else None);
    hide Inv, View, FoldAll, AllMirrored, OpsSince;
  }

  /** Exactly which copies converge. A subscriber that catches up, on ops that its mirror
      takes over, ends no later run apart from the server if and only if no batch was
      unsaved when it caught up, or a marker was already waiting at the front of its
      line; and otherwise some run ends with it silently apart. Later runs take no more
      copies of unsaved batches and save only ops that mirrors take over. The bound of
      the queues does not matter. */
  lemma EarlyCopyConvergesIff(site: Site, s: Sys, id: nat)
    requires Inv(site, s) && Enabled(site, s, CatchesUp(id)) && s.m.store.Some?
    requires !Next(site, s, CatchesUp(id)).clients[id].stray
    ensures id in s.m.queues
    ensures Converges(site, Next(site, s, CatchesUp(id)), id) <==> !InFlight(s.m) || Marked(s.m.queues[id])
    ensures EndsAtSameSeqApart(site, Next(site, s, CatchesUp(id)), id) <==> InFlight(s.m) && !Marked(s.m.queues[id])
  {
    var s1 := Next(site, s, CatchesUp(id));
    SubscriberHasLine(site, s, id);
    hide Inv, Next, Enabled, Runs, CalmFor, MirroredFrom, Reach, Good, Healthy, Apart;
    StepKeeps(site, s, CatchesUp(id));
    CalmCopyIsHealthy(site, s, id);
    if !InFlight(s.m) || Marked(s.m.queues[id]) {
      if !InFlight(s.m) {
        GoodIsHealthy(s1, id, |s.ops|);
      }
      forall later: seq<Act> | Runs(site, s1, later) && CalmFor(site, s1, later, id) && MirroredFrom(Reach(site, s1, later), |s1.ops|)
        ensures !Apart(Reach(site, s1, later), id)
      {
        HealthyRun(site, s1, later, id, |s.ops|);
        RunKeeps(site, s1, later);
        HealthyIsNotApart(site, Reach(site, s1, later), id, |s.ops|);
      }
    } else {
      EarlyCopyIsAhead(site, s, id);
      var later := EndsSilentlyApart(site, s1, id);
    }
  }

  lemma SubscriberHasLine(site: Site, s: Sys, id: nat)
    requires Inv(site, s) && Enabled(site, s, CatchesUp(id))
    ensures id in s.m.queues && id in s.clients && Next(site, s, CatchesUp(id)).ops == s.ops
  {
    assert LineOk(s, id, s.clients[id]);
  }

  lemma CrashNotAhead(site: Site, s: Sys, crash: Act, id: nat, base: nat)
    requires Inv(site, s) && Enabled(site, s, crash) && Crashes(crash) && Good(s, id, base)
    ensures NotAhead(Next(site, s, crash), id)
  {
    StepKeeps(site, s, crash);
    CrashKeepsGood(site, s, crash, id, base);
    hide Next, Enabled;
    SeqWithin(site, Next(site, s, crash), id);
  }

  lemma CrashKeepsGood(site: Site, s: Sys, crash: Act, id: nat, base: nat)
    requires Enabled(site, s, crash) && Crashes(crash) && Good(s, id, base)
    ensures Good(Next(site, s, crash), id, base)
  {
    hide ApplyOp, UndoLast, View;
  }

  /** Exactly which copies a crash can leave ahead of the disk: those of an unsaved batch. */
  lemma NeverAheadIff(site: Site, s: Sys, id: nat)
    requires Inv(site, s) && Enabled(site, s, CatchesUp(id)) && s.m.store.Some?
    requires !Next(site, s, CatchesUp(id)).clients[id].stray
    ensures NeverAhead(site, Next(site, s, CatchesUp(id)), id) <==> !InFlight(s.m)
  {
    var s1 := Next(site, s, CatchesUp(id));
    SubscriberHasLine(site, s, id);
    hide Next, Inv, Enabled, Runs, Reach, CalmFor, MirroredFrom, NotAhead, Good, Healthy;
    StepKeeps(site, s, CatchesUp(id));
    CalmCopyIsHealthy(site, s, id);
    if !InFlight(s.m) {
      forall later, crash | Runs(site, s1, later) && CalmFor(site, s1, later, id)
                            && MirroredFrom(Reach(site, s1, later), |s1.ops|)
                            && Crashes(crash) && Enabled(site, Reach(site, s1, later), crash)
        ensures NotAhead(Next(site, Reach(site, s1, later), crash), id)
      {
        GoodRun(site, s1, later, id, |s.ops|);
        RunKeeps(site, s1, later);
        CrashNotAhead(site, Reach(site, s1, later), crash, id, |s.ops|);
      }
    } else {
      EarlyCopyIsAhead(site, s, id);
      DyingNow(site, s1, id);
      NoActYet(site, s1, id);
      AheadAtOnce(site, s1, id);
    }
  }

  lemma NoActYet(site: Site, s: Sys, id: nat)
    ensures Reach(site, s, []) == s && Runs(site, s, []) && CalmFor(site, s, [], id)
  {
  }

  lemma AheadAtOnce(site: Site, s: Sys, id: nat)
    requires Reach(site, s, []) == s && Runs(site, s, []) && CalmFor(site, s, [], id) && MirroredFrom(s, |s.ops|)
    requires Enabled(site, s, Dies) && !NotAhead(Next(site, s, Dies), id)
    ensures !NeverAhead(site, s, id)
  {
    hide Runs, CalmFor, MirroredFrom, Enabled, NotAhead, Next, Reach;
    assert Crashes(Dies);
  }

  lemma DyingNow(site: Site, s: Sys, id: nat)
    requires Inv(site, s) && InFlight(s.m) && id in s.clients && s.clients[id].ahead
    ensures Enabled(site, s, Dies) && MirroredFrom(s, |s.ops|) && !NotAhead(Next(site, s, Dies), id)
  {
    hide View, Chained, Numbered, StoreOk;
    assert CopyOk(s, s.clients[id]);
  }
}
