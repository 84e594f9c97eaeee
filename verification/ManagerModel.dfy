/**
 The session manager as a state machine: what each of its entry points does to
 the session, the disk copy, the lease and claim maps, the roster and the
 subscribers' queues. A batch that changes state suspends at its awaited save
 and is in flight until it commits or rolls back.
 */
module ManagerModel {
  import opened Values
  import opened Lists
  import opened SessionModel
  import opened Undo
  import opened Leases
  import opened Presence
  import opened EventBus

  /** One entry of an `apply_ops` batch. A state op comes with the clock reading and
      the random id that are drawn while it is applied. */
  datatype BatchOp =
    | ChangeState(op: Op, now: int, mint: string)
    | ClaimSelection(ids: seq<string>)
    | ReleaseSelection(ids: seq<string>)
    | AcquireLease(ids: seq<string>)
    | ReleaseLease(ids: seq<string>)

  /** What the batch will do once it is saved, in arrival order. */
  datatype Pending =
    | PState(applied: Applied)
    | PClaim(claimed: bool, ids: seq<string>)
    | PAcquire(ids: seq<string>, denied: map<string, string>)
    | PRelease(ids: seq<string>)

  datatype WriteError = OpFailed(e: OpError) | LeaseTaken(id: string, holder: string) | OverBudget | SaveError
                      | UndoRefused | NothingUndoable | NoSession | Busy

  datatype Walked =
    | WalkFailed(error: WriteError, deleted: seq<string>)
    | WalkDone(store: Store, working: map<string, string>, pending: seq<Pending>)

  /** A batch between its last in-memory op and the end of its save. */
  datatype Flight = Flight(client: string, session: Session, ring: seq<Applied>,
                           pending: seq<Pending>, snapshot: Session, saved: bool)

  datatype Site = Site(cfg: Config, leaseTtl: real, claimTtl: real, queueMax: int)

  /** The session in memory and on disk, while it exists; the batch that holds its
      lock; and what the manager keeps beside the session. */
  datatype Mgr = Mgr(store: Option<Store>, disk: Option<Session>, flight: Option<Flight>, leases: Holds, claims: Holds,
                     room: Room, queues: map<nat, seq<Event>>, nextSub: nat)

  const NO_SESSION := Session(None, EMPTY_DOC, 0, 0, [])

  function Held(m: Mgr): Store {
    m.store.GetOr(Store(NO_SESSION, [], []))
  }

  function Saved(m: Mgr): Session {
    m.disk.GetOr(NO_SESSION)
  }

  /** The session is there and nobody holds its lock: a synchronous writer gets in. */
  predicate Idle(m: Mgr) {
    m.store.Some? && m.flight.None?
  }

  datatype Reply = Failed(error: WriteError) | Suspended | Nothing | Wrote(results: seq<Pending>) | Removed(existed: bool)

  // ---------------------------------------------------------------- the walk

  function WalkOne(cfg: Config, st: Store, w: map<string, string>, pending: seq<Pending>, client: string, op: BatchOp): Walked {
    match op
    case ChangeState(o, now, mint) =>
      var target := TargetOf(o, st.session.doc);
      if target.Some? && target.value in w && w[target.value] != client then
        WalkFailed(LeaseTaken(target.value, w[target.value]), st.deleted)
      else
        (match ApplyOp(cfg, st, o, Env(now, client, mint, true))
         case Rejected(e) => WalkFailed(OpFailed(e), st.deleted)
         case Dropped => WalkDone(st, w, pending)
         case Done(st', applied) => WalkDone(st', w, pending + [PState(applied)]))
    case ClaimSelection(ids) => WalkDone(st, w, pending + [PClaim(true, ids)])
    case ReleaseSelection(ids) => WalkDone(st, w, pending + [PClaim(false, ids)])
    case AcquireLease(ids) =>
      WalkDone(st, Work(w, client, Acquire(ids)),
               pending + [PAcquire(Decide(w, client, Acquire(ids)), Refusals(w, client, ids))])
    case ReleaseLease(ids) =>
      WalkDone(st, Work(w, client, Release(ids)), pending + [PRelease(Decide(w, client, Release(ids)))])
  }

  function Walk(cfg: Config, st: Store, w: map<string, string>, client: string, ops: seq<BatchOp>): Walked {
    if ops == [] then WalkDone(st, w, [])
    else
      var n := |ops| - 1;
      match Walk(cfg, st, w, client, ops[..n])
      case WalkFailed(e, deleted) => WalkFailed(e, deleted)
      case WalkDone(st', w', pending) => WalkOne(cfg, st', w', pending, client, ops[n])
  }

  /** The state ops among the pending entries, in order. */
  function StatesOf(pending: seq<Pending>): seq<Applied> {
    if pending == [] then []
    else
      var n := |pending| - 1;
      if pending[n].PState? then StatesOf(pending[..n]) + [pending[n].applied] else StatesOf(pending[..n])
  }

  // -------------------------------------------------------------- the commit

  function CommitOne(site: Site, m: Mgr, client: string, entry: Pending, at: real): Mgr {
    match entry
    case PState(applied) =>
      m.(queues := PublishTo(m.queues, StateOp(client, applied), site.queueMax))
    case PClaim(claimed, ids) =>
      var live := Live(m.claims, at);
      if claimed then
        m.(claims := Claiming(live, client, ids, at + site.claimTtl),
           queues := PublishTo(m.queues, ClaimOp(client, true, ids), site.queueMax))
      else
        m.(claims := Without(live, client, ids),
           queues := PublishTo(m.queues, ClaimOp(client, false, Select(Distinct(ids), HeldBy(live, client))), site.queueMax))
    case PAcquire(ids, _) =>
      if ids == [] then m
      else m.(leases := Granting(Live(m.leases, at), client, ids, at + site.leaseTtl),
              queues := PublishTo(m.queues, LeaseOp(client, true, ids), site.queueMax))
    case PRelease(ids) =>
      if ids == [] then m
      else m.(leases := Without(Live(m.leases, at), client, ids),
              queues := PublishTo(m.queues, LeaseOp(client, false, ids), site.queueMax))
  }

  function CommitEntries(site: Site, m: Mgr, client: string, pending: seq<Pending>, at: real): Mgr {
    if pending == [] then m
    else CommitOne(site, CommitEntries(site, m, client, pending[..|pending| - 1], at), client, pending[|pending| - 1], at)
  }

  // ------------------------------------------------------------ entry points

  /** `apply_ops`, from where it has the lock up to its first await, or to its end when
      nothing is saved. The session is fetched again under the lock. */
  function BeginBatch(site: Site, m: Mgr, client: string, ops: seq<BatchOp>, withinBudget: bool, at: real): (Mgr, Reply) {
    if m.store.None? then (m, Failed(NoSession))
    else
      var was := m.store.value;
      var m1 := m.(leases := Live(m.leases, at));
      match Walk(site.cfg, was, Holders(m.leases, at), client, ops)
      case WalkFailed(e, deleted) => (m1.(store := Some(was.(deleted := deleted))), Failed(e))
      case WalkDone(st, _, pending) =>
        if StatesOf(pending) == [] then (CommitEntries(site, m1, client, pending, at), Wrote(pending))
        else if !withinBudget then (m1.(store := Some(was.(deleted := st.deleted))), Failed(OverBudget))
        else (m1.(store := Some(st), flight := Some(Flight(client, was.session, was.ring, pending, st.session, false))),
              Suspended)
  }

  /** The worker thread has written the snapshot. */
  function SaveDone(m: Mgr): Mgr
    requires m.flight.Some?
  {
    m.(disk := Some(m.flight.value.snapshot), flight := Some(m.flight.value.(saved := true)))
  }

  /** The rest of `apply_ops` after a save that succeeded. */
  function CommitBatch(site: Site, m: Mgr, at: real): (Mgr, Reply)
    requires m.flight.Some?
  {
    (CommitEntries(site, m.(flight := None), m.flight.value.client, m.flight.value.pending, at),
     Wrote(m.flight.value.pending))
  }

  /** The rest of `apply_ops` after a save that raised. */
  function RollBack(m: Mgr): (Mgr, Reply)
    requires m.flight.Some?
  {
    (m.(store := Some(Store(m.flight.value.session, m.flight.value.ring, Held(m).deleted)), flight := None),
     Failed(SaveError))
  }

  /** The lease snapshot is taken, and so pruned, only for an op aimed at an annotation. */
  function Checked(m: Mgr, op: Op, at: real): Mgr {
    if TargetOf(op, Held(m).session.doc).Some? then m.(leases := Live(m.leases, at)) else m
  }

  /** A synchronous writer: refuse while the lock is held, check the lease against
      `checker`, apply, save, publish. */
  function SyncWrite(site: Site, m: Mgr, checker: string, op: Op, env: Env, at: real, saves: bool): (Mgr, Reply) {
    if m.flight.Some? then (m, Failed(Busy))
    else if m.store.None? then (m, Failed(NoSession))
    else
      var was := m.store.value;
      var m1 := Checked(m, op, at);
      var holders := Holders(m.leases, at);
      var target := TargetOf(op, was.session.doc);
      if target.Some? && target.value in holders && holders[target.value] != checker then
        (m1, Failed(LeaseTaken(target.value, holders[target.value])))
      else
        match ApplyOp(site.cfg, was, op, env)
        case Rejected(e) => (m1, Failed(OpFailed(e)))
        case Dropped => (m1, Nothing)
        case Done(st, applied) =>
          if saves then
            (m1.(store := Some(st), disk := Some(st.session),
                 queues := PublishTo(m.queues, StateOp(env.client, applied), site.queueMax)),
             Wrote([PState(applied)]))
          else (m1.(store := Some(was.(deleted := st.deleted))), Failed(SaveError))
  }

  /** `undo_last_action`: refuse while the lock is held; the replay is saved and
      published, then the record is marked and saved again. Each save may raise. */
  function UndoAction(site: Site, m: Mgr, client: string, env: Env, at: real, saves: bool, marks: bool): (Mgr, Reply) {
    if m.flight.Some? then (m, Failed(Busy))
    else if m.store.None? then (m, Failed(NoSession))
    else
      var was := m.store.value;
      var latest := LatestUndoable(was.session.log, client);
      var m1 := if latest.None? then m else Checked(m, was.session.log[latest.value].change.inverse, at);
      match UndoLast(site.cfg, was, client, Holders(m.leases, at), env)
      case NothingToUndo => (m, Failed(NothingUndoable))
      case Conflicted => (m, Failed(UndoRefused))
      case LeaseHeld(id) => (m1, Failed(LeaseTaken(id, Lookup(Holders(m.leases, at), id).GetOr(""))))
      case Refused(e, left) => (m1.(store := Some(left)), Failed(OpFailed(e)))
      case CannotRevert(left) => (m1.(store := Some(left)), Failed(UndoRefused))
      case Undone(st, applied, i) =>
        if !saves then (m1.(store := Some(was.(deleted := st.deleted))), Failed(SaveError))
        else
          (m1.(store := Some(st),
               disk := Some(if marks then st.session else st.session.(log := was.session.log)),
               queues := PublishTo(m.queues, StateOp(REPLAY_CLIENT, applied), site.queueMax)),
           if marks then Wrote([PState(applied)]) else Failed(SaveError))
  }

  /** What both deletes do once they may: nothing is left in memory or on disk. */
  function Remove(site: Site, m: Mgr): (Mgr, Reply) {
    var existed := m.store.Some? || m.disk.Some?;
    (m.(store := None, disk := None,
        queues := if existed then PublishTo(m.queues, SessionDeleted, site.queueMax) else m.queues),
     Removed(existed))
  }

  /** `delete_session_sync` refuses while the lock is held; `delete_session` waits for
      the lock and then removes. */
  function DeleteSync(site: Site, m: Mgr): (Mgr, Reply) {
    if m.flight.Some? then (m, Failed(Busy)) else Remove(site, m)
  }

  function Connect(site: Site, m: Mgr, client: string, name: Option<string>, guest: string): Mgr {
    var room := Join(m.room, client, name, guest);
    m.(room := room, nextSub := m.nextSub + 1,
       queues := PublishTo(m.queues[m.nextSub := []], PresenceJoined(room.roster[client]), site.queueMax))
  }

  function Freed(h: Holds, client: string): set<string> {
    set e | e in h && h[e].client == client
  }

  function PublishSome(site: Site, queues: map<nat, seq<Event>>, e: Event, really: bool): map<nat, seq<Event>> {
    if really then PublishTo(queues, e, site.queueMax) else queues
  }

  function Disconnect(site: Site, m: Mgr, client: string, sub: nat): Mgr {
    var (room, left) := Leave(m.room, client);
    var queues := m.queues - {sub};
    if left.None? then m.(room := room, queues := queues)
    else
      var claims, leases := Freed(m.claims, client), Freed(m.leases, client);
      var q1 := PublishSome(site, queues, AllReleased(client, false, claims), claims != {});
      var q2 := PublishSome(site, q1, AllReleased(client, true, leases), leases != {});
      m.(room := room, claims := WithoutClient(m.claims, client), leases := WithoutClient(m.leases, client),
         queues := PublishTo(q2, PresenceLeft(client), site.queueMax))
  }

  datatype CatchUpPayload = Missed(seqNo: nat, ops: seq<Applied>) | Whole(session: Session) | NotThere

  function CatchUp(m: Mgr, since: Option<int>): CatchUpPayload {
    if m.store.None? then NotThere
    else if since.Some? && OpsSince(m.store.value, since.value).Some?
    then Missed(m.store.value.session.seqNo, OpsSince(m.store.value, since.value).value)
    else Whole(m.store.value.session)
  }

  /** The process dies and comes back: only the disk copy survives. */
  function Restart(m: Mgr): Mgr {
    Mgr(if m.disk.Some? then Some(Store(m.disk.value, [], [])) else None,
        m.disk, None, map[], map[], EMPTY_ROOM, map[], m.nextSub)
  }
}
