/**
 The whole protocol over runs: batches that save asynchronously, synchronous
 writers, undo, failed saves, deletes, restarts, subscribers with lossy queues, and
 the clients' replicas. The ghost history holds the saved documents by seq.

 One incarnation of one session: once it is deleted nobody joins it anew.
 */
module Protocol {
  import opened Values
  import opened Lists
  import opened SessionModel
  import opened SessionFacts
  import opened Replica
  import opened Undo
  import opened Leases
  import opened Presence
  import opened EventBus
  import opened ManagerModel
  import opened BatchFacts

  /** A subscriber's copy of the document. It is known by the id of its subscription,
      which is `open` or not; `current` says it has caught up on it. `ahead` marks a
      copy taken from a batch that is not saved yet, `stray` one that has left the
      history: its batch was rolled back or lost, or it was sent an op that mirrors
      do not take over. */
  datatype Client = Client(open: bool, started: bool, current: bool, seqNo: nat, copy: Doc,
                           ahead: bool, stray: bool)

  /** `views[k]` is the saved document at seq k and `ops` the saved ops. `flown` are
      the views of the batch in flight. `boot` is the seq the process loaded. */
  datatype Sys = Sys(m: Mgr, views: seq<Doc>, ops: seq<Applied>, flown: seq<Doc>,
                     boot: nat, published: seq<Applied>, clients: map<nat, Client>)

  /** A batch and an asynchronous delete act when they get the lock; everybody else
      acts at once, and may find the lock held or the session gone. */
  datatype Act =
    | Begin(client: string, batch: seq<BatchOp>, within: bool, at: real)
    | SaveSucceeds
    | CommitsBatch(at: real)
    | SaveRaises
    | Sync(checker: string, op: Op, env: Env, at: real, saves: bool)
    | DiesAfterSync(op: Op, env: Env)
    | Undoes(client: string, env: Env, at: real, saves: bool, marks: bool)
    | DiesAfterUndo(client: string, env: Env, at: real)
    | Joins(client: string, name: Option<string>, guest: string, from: Option<nat>)
    | Leaves(client: string, id: nat)
    | CatchesUp(id: nat)
    | Delivers(id: nat)
    | Dies
    | Deletes(waits: bool)

  const NO_CLIENT := Client(false, false, false, 0, EMPTY_DOC, false, false)

  function Init(name: Option<string>, now: int): Sys {
    var s := Session(name, EMPTY_DOC, 0, now, []);
    Sys(Mgr(Some(Store(s, [], [])), Some(s), None, map[], map[], EMPTY_ROOM, map[], 0), [View(s)], [], [], 0, [], map[])
  }

  /** What the environment owes: a lock is waited for, minted ids are new, a save
      ends once, and a subscriber is there. */
  ghost predicate Enabled(site: Site, s: Sys, a: Act) {
    match a
    case Begin(client, batch, _, at) =>
      && s.m.flight.None?
      && (s.m.store.Some? ==> MintsFresh(site.cfg, s.m.store.value, Holders(s.m.leases, at), client, batch))
    case SaveSucceeds => InFlight(s.m)
    case CommitsBatch(_) => s.m.flight.Some? && s.m.flight.value.saved
    case SaveRaises => InFlight(s.m)
    case Sync(_, _, env, _, _) => Idle(s.m) ==> MintIsNew(s.m.store.value, env)
    case DiesAfterSync(op, env) =>
      Idle(s.m) && MintIsNew(s.m.store.value, env) && ApplyOp(site.cfg, s.m.store.value, op, env).Done?
    case Undoes(_, env, _, _, _) => Idle(s.m) ==> MintIsNew(s.m.store.value, env)
    case DiesAfterUndo(client, env, at) =>
      && Idle(s.m) && MintIsNew(s.m.store.value, env)
      && UndoLast(site.cfg, s.m.store.value, client, Holders(s.m.leases, at), env).Undone?
    case Joins(_, _, _, from) => s.m.store.Some? && (from.Some? ==> from.value in s.clients && !s.clients[from.value].open)
    case Leaves(_, id) => id in s.clients && s.clients[id].open
    case CatchesUp(id) => id in s.clients && s.clients[id].open && !s.clients[id].current
    case Delivers(id) =>
      id in s.clients && s.clients[id].open && s.clients[id].current && id in s.m.queues && s.m.queues[id] != []
    case Dies => true
    case Deletes(waits) => waits ==> s.m.flight.None?
  }

  predicate InFlight(m: Mgr) {
    m.flight.Some? && !m.flight.value.saved
  }

  /** A client that takes the whole session it was handed. */
  function TakeWhole(m: Mgr, c: Client, session: Session): Client {
    Client(c.open, true, true, session.seqNo, View(session), InFlight(m), false)
  }

  /** A client that replays the ops it missed; what it strayed from, it keeps. */
  function Replayed(m: Mgr, c: Client, seqNo: nat, ops: seq<Applied>): Client {
    var stray := c.stray || !AllMirrored(c.copy, ops);
    Client(c.open, true, true, seqNo, FoldAll(c.copy, ops), InFlight(m) && !stray, stray)
  }

  /** With the session gone there is nothing to catch up on. */
  function CaughtUp(m: Mgr, c: Client): Client {
    match CatchUp(m, if c.started then Some(c.seqNo) else None)
    case Missed(seqNo, ops) => Replayed(m, c, seqNo, ops)
    case Whole(session) => TakeWhole(m, c, session)
    case NotThere => c
  }

  /** The stream handler turns a resync marker into a snapshot, or ends the stream when
      the session is gone; an op is folded in only when it is newer than the copy. */
  function Delivered(m: Mgr, c: Client, e: Event): Client {
    match e
    case StateOp(_, applied) =>
      if applied.seqNo <= c.seqNo then c
      else c.(seqNo := applied.seqNo, copy := Fold(c.copy, applied.effect),
              stray := c.stray || !Mirrored(c.copy, applied.effect))
    case Resync =>
      var payload := CatchUp(m, None);
      if payload.Whole? then TakeWhole(m, c, payload.session) else c.(current := false)
    case _ => c
  }

  /** Copies taken from the batch in flight: settled by its save, stray without it. */
  function Settle(clients: map<nat, Client>): map<nat, Client> {
    map id | id in clients :: clients[id].(ahead := false)
  }

  function Strand(clients: map<nat, Client>): map<nat, Client> {
    map id | id in clients :: clients[id].(ahead := false, stray := clients[id].stray || clients[id].ahead)
  }

  function CutOff(clients: map<nat, Client>): map<nat, Client> {
    map id | id in clients :: clients[id].(open := false, current := false)
  }

  function Reboot(s: Sys): Sys {
    s.(m := Restart(s.m), flown := [], boot := |s.ops|, published := [],
       clients := CutOff(if InFlight(s.m) then Strand(s.clients) else s.clients))
  }

  /** The history after one more op, saved with this session as the disk copy. */
  function Saves1(s: Sys, st: Store, disk: Session, applied: Applied): Sys {
    s.(m := s.m.(store := Some(st), disk := Some(disk)), views := s.views + [View(st.session)], ops := s.ops + [applied])
  }

  /** The history after one more op that is saved and published at once. */
  function Wrote1(s: Sys, m': Mgr, applied: Applied): Sys {
    s.(m := m', views := s.views + [View(Held(m').session)], ops := s.ops + [applied], published := s.published + [applied])
  }

  function Next(site: Site, s: Sys, a: Act): Sys {
    match a
    case Begin(client, batch, within, at) =>
      var (m', reply) := BeginBatch(site, s.m, client, batch, within, at);
      s.(m := m', flown := if reply.Suspended?
                           then Trail(site.cfg, Held(s.m), Holders(s.m.leases, at), client, batch)[1..] else [])
    case SaveSucceeds =>
      if s.m.flight.None? then s
      else s.(m := SaveDone(s.m), views := s.views + s.flown, ops := s.ops + StatesOf(s.m.flight.value.pending),
              flown := [], clients := Settle(s.clients))
    case CommitsBatch(at) =>
      if s.m.flight.None? then s
      else s.(m := CommitBatch(site, s.m, at).0, published := s.published + StatesOf(s.m.flight.value.pending))
    case SaveRaises =>
      if s.m.flight.None? then s
      else s.(m := RollBack(s.m).0, flown := [], clients := Strand(s.clients))
    case Sync(checker, op, env, at, saves) =>
      var (m', reply) := SyncWrite(site, s.m, checker, op, env, at, saves);
      if reply.Wrote? then Wrote1(s, m', reply.results[0].applied) else s.(m := m')
    case DiesAfterSync(op, env) =>
      (match ApplyOp(site.cfg, Held(s.m), op, env)
       case Done(st, applied) => Reboot(Saves1(s, st, st.session, applied))
       case _ => s)
    case Undoes(client, env, at, saves, marks) =>
      var m' := UndoAction(site, s.m, client, env, at, saves, marks).0;
      (match UndoLast(site.cfg, Held(s.m), client, Holders(s.m.leases, at), env)
       case Undone(_, applied, _) => if Idle(s.m) && saves then Wrote1(s, m', applied) else s.(m := m')
       case _ => s.(m := m'))
    case DiesAfterUndo(client, env, at) =>
      (match UndoLast(site.cfg, Held(s.m), client, Holders(s.m.leases, at), env)
       case Undone(st, applied, _) =>
         Reboot(Saves1(s, st, st.session.(log := Held(s.m).session.log), applied))
       case _ => s)
    case Joins(client, name, guest, from) =>
      var c := if from.Some? && from.value in s.clients then s.clients[from.value] else NO_CLIENT;
      s.(m := Connect(site, s.m, client, name, guest),
         clients := s.clients[s.m.nextSub := c.(open := true, current := false)])
    case Leaves(client, id) =>
      if id in s.clients then
        s.(m := Disconnect(site, s.m, client, id),
           clients := s.clients[id := s.clients[id].(open := false, current := false)])
      else s
    case CatchesUp(id) =>
      if id in s.clients then s.(clients := s.clients[id := CaughtUp(s.m, s.clients[id])]) else s
    case Delivers(id) =>
      if id in s.clients && id in s.m.queues && s.m.queues[id] != [] then
        s.(m := s.m.(queues := s.m.queues[id := s.m.queues[id][1..]]),
           clients := s.clients[id := Delivered(s.m, s.clients[id], s.m.queues[id][0])])
      else s
    case Dies => Reboot(s)
    case Deletes(waits) => s.(m := if waits then Remove(site, s.m).0 else DeleteSync(site, s.m).0)
  }

  // --------------------------------------------------------------- invariants

  /** Saved ops plus those of a batch in flight, and the documents they lead through. */
  function LiveOps(s: Sys): seq<Applied> {
    if InFlight(s.m) then s.ops + StatesOf(s.m.flight.value.pending) else s.ops
  }

  function LiveViews(s: Sys): seq<Doc> {
    s.views + s.flown
  }

  /** The store stands at the end of this history. */
  ghost predicate StandsAt(cfg: Config, st: Store, views: seq<Doc>, ops: seq<Applied>) {
    && StoreOk(cfg, st)
    && |views| == |ops| + 1
    && st.session.seqNo == |ops|
    && View(st.session) == views[|views| - 1]
    && EndsWith(ops, st.ring)
  }

  ghost predicate HistoryOk(s: Sys) {
    && Chained(LiveViews(s), LiveOps(s)) && Numbered(0, LiveOps(s))
    && |s.views| == |s.ops| + 1
    && s.boot + |s.published| <= |s.ops|
    && s.published == s.ops[s.boot..s.boot + |s.published|]
  }

  ghost predicate DiskOk(cfg: Config, disk: Session, views: seq<Doc>, ops: seq<Applied>) {
    && disk.seqNo == |ops|
    && |views| > 0 && View(disk) == views[|views| - 1]
    && DocOk(cfg, disk.doc) && LogOk(disk.log)
  }

  /** Memory and disk hold the session together, or neither does. */
  ghost predicate SessionOk(cfg: Config, s: Sys) {
    if s.m.store.Some? then
      && s.m.disk.Some? && DiskOk(cfg, s.m.disk.value, s.views, s.ops)
      && StandsAt(cfg, s.m.store.value, LiveViews(s), LiveOps(s))
    else s.m.disk.None? && s.m.flight.None?
  }

  /** Before its save a batch can go back to the saved history; after it, all that
      is left is to publish its ops. */
  ghost predicate FlightOk(cfg: Config, s: Sys) {
    match s.m.flight
    case None => s.flown == [] && s.boot + |s.published| == |s.ops|
    case Some(f) =>
      var states := StatesOf(f.pending);
      && states != []
      && f.snapshot == Held(s.m).session
      && (if f.saved then s.flown == [] && EndsWith(s.ops, states) && s.boot + |s.published| + |states| == |s.ops|
          else && |s.flown| == |states|
               && s.boot + |s.published| == |s.ops|
               && StandsAt(cfg, Store(f.session, f.ring, Held(s.m).deleted), s.views, s.ops))
  }

  function StatesIn(queue: seq<Event>): seq<Applied> {
    if queue == [] then []
    else
      var n := |queue| - 1;
      if queue[n].StateOp? then StatesIn(queue[..n]) + [queue[n].applied] else StatesIn(queue[..n])
  }

  predicate Marked(queue: seq<Event>) {
    queue != [] && queue[0].Resync?
  }

  /** The queue ends like the published ops; without a marker in front, it misses
      nothing after what the client has seen; a marker is only ever in front. */
  ghost predicate QueueOk(queue: seq<Event>, published: seq<Applied>, seen: Option<nat>) {
    && EndsWith(published, StatesIn(queue))
    && (seen.Some? && !Marked(queue) ==> |published| <= seen.value + |StatesIn(queue)|)
    && (forall i :: 0 < i < |queue| ==> !queue[i].Resync?)
  }

  function Published(s: Sys): seq<Applied>
    requires s.boot + |s.published| <= |s.ops|
  {
    s.ops[..s.boot + |s.published|]
  }

  function Seen(c: Client): Option<nat> {
    if c.current && !c.stray then Some(c.seqNo) else None
  }

  /** What a client's copy is worth. */
  ghost predicate CopyOk(s: Sys, c: Client) {
    && (c.started && !c.stray && !c.ahead ==> c.seqNo <= |s.ops| && c.seqNo < |s.views| && c.copy == s.views[c.seqNo])
    && (c.ahead ==> c.started && !c.stray && InFlight(s.m)
                    && c.seqNo == Held(s.m).session.seqNo && c.copy == View(Held(s.m).session))
    && (c.current ==> c.open && c.started)
  }

  ghost predicate LineOk(s: Sys, id: nat, c: Client)
    requires s.boot + |s.published| <= |s.ops|
  {
    c.open ==> id in s.m.queues && QueueOk(s.m.queues[id], Published(s), Seen(c))
  }

  ghost predicate ClientsOk(s: Sys)
    requires s.boot + |s.published| <= |s.ops|
  {
    && (forall id :: id in s.clients ==> CopyOk(s, s.clients[id]) && LineOk(s, id, s.clients[id]))
    && (forall id :: id in s.clients || id in s.m.queues ==> id < s.m.nextSub)
  }

  ghost predicate Inv(site: Site, s: Sys) {
    && HistoryOk(s)
    && SessionOk(site.cfg, s)
    && FlightOk(site.cfg, s)
    && ClientsOk(s)
  }

  // ------------------------------------------------------------------- queues

  lemma PushKeeps(queue: seq<Event>, e: Event, max: int, published: seq<Applied>, seen: Option<nat>)
    requires QueueOk(queue, published, seen) && !e.Resync?
    ensures QueueOk(Push(queue, e, Resync, max), if e.StateOp? then published + [e.applied] else published, seen)
  {
    var queue' := queue + [e];
    assert queue'[..|queue|] == queue;
    assert StatesIn([Resync]) == [] by { assert [Resync][..0] == []; }
    if e.StateOp? {
      var l := StatesIn(queue);
      assert (published + [e.applied])[|published| - |l|..] == published[|published| - |l|..] + [e.applied];
    }
  }

  lemma {:induction false} StatesInHead(queue: seq<Event>)
    requires queue != []
    ensures StatesIn(queue) == (if queue[0].StateOp? then [queue[0].applied] else []) + StatesIn(queue[1..])
  {
    var n := |queue| - 1;
    if n == 0 {
      assert queue[..0] == [];
    } else {
      StatesInHead(queue[..n]);
      assert queue[..n][1..] == queue[1..][..n - 1];
    }
  }

  /** Publishing one event keeps every line, and extends the published ops by the
      state op it carries. */
  ghost predicate LinesOk(queues: map<nat, seq<Event>>, clients: map<nat, Client>, published: seq<Applied>) {
    forall id :: id in clients && clients[id].open ==> id in queues && QueueOk(queues[id], published, Seen(clients[id]))
  }

  lemma PublishKeepsLines(queues: map<nat, seq<Event>>, e: Event, max: int, clients: map<nat, Client>, published: seq<Applied>)
    requires LinesOk(queues, clients, published) && !e.Resync?
    ensures LinesOk(PublishTo(queues, e, max), clients, if e.StateOp? then published + [e.applied] else published)
    ensures PublishTo(queues, e, max).Keys == queues.Keys
  {
    forall id | id in clients && clients[id].open
      ensures QueueOk(PublishTo(queues, e, max)[id], if e.StateOp? then published + [e.applied] else published, Seen(clients[id]))
    {
      PushKeeps(queues[id], e, max, published, Seen(clients[id]));
    }
  }

  lemma {:induction false} CommitKeepsLines(site: Site, m: Mgr, client: string, pending: seq<Pending>, at: real,
                                            clients: map<nat, Client>, published: seq<Applied>)
    requires LinesOk(m.queues, clients, published)
    ensures var m' := CommitEntries(site, m, client, pending, at);
            && LinesOk(m'.queues, clients, published + StatesOf(pending))
            && m'.queues.Keys == m.queues.Keys
            && m' == m.(queues := m'.queues, leases := m'.leases, claims := m'.claims)
  {
    hide LinesOk, PublishTo;
    if pending == [] {
      assert published + StatesOf(pending) == published;
    } else {
      var n := |pending| - 1;
      CommitKeepsLines(site, m, client, pending[..n], at, clients, published);
      var m1 := CommitEntries(site, m, client, pending[..n], at);
      var before := published + StatesOf(pending[..n]);
      match pending[n] {
        case PState(applied) =>
          PublishKeepsLines(m1.queues, StateOp(client, applied), site.queueMax, clients, before);
          assert before + [applied] == published + StatesOf(pending);
        case PClaim(claimed, ids) =>
          var live := Live(m1.claims, at);
          PublishKeepsLines(m1.queues, ClaimOp(client, true, ids), site.queueMax, clients, before);
          PublishKeepsLines(m1.queues, ClaimOp(client, false, Select(Distinct(ids), HeldBy(live, client))), site.queueMax, clients, before);
        case PAcquire(ids, _) =>
          PublishKeepsLines(m1.queues, LeaseOp(client, true, ids), site.queueMax, clients, before);
        case PRelease(ids) =>
          PublishKeepsLines(m1.queues, LeaseOp(client, false, ids), site.queueMax, clients, before);
      }
    }
  }

  lemma LinesFromClients(s: Sys)
    requires s.boot + |s.published| <= |s.ops| && ClientsOk(s)
    ensures LinesOk(s.m.queues, s.clients, Published(s))
  {
  }
}
