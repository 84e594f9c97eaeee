/**
 The session manager itself: the object that runs batches, synchronous writers,
 undo, connections and catch-up on its session, lease and claim maps, roster and
 bus. Every entry point is proved to make the step of the state machine that
 `ManagerModel` gives it, so what is proved of the machine holds of the object.
 */
module Manager {
  import opened Values
  import opened Lists
  import opened SessionModel
  import opened Undo
  import opened Leases
  import opened Presence
  import opened EventBus
  import opened ManagerModel
  import opened SessionStore

  // ----------------------------------------------------------- walking a batch

  lemma {:induction false} FailureStays(cfg: Config, st: Store, w: map<string, string>, client: string, ops: seq<BatchOp>, k: nat)
    requires k <= |ops| && Walk(cfg, st, w, client, ops[..k]).WalkFailed?
    ensures Walk(cfg, st, w, client, ops) == Walk(cfg, st, w, client, ops[..k])
    decreases |ops|
  {
    if k == |ops| {
      assert ops[..k] == ops;
    } else {
      var n := |ops| - 1;
      assert ops[..n][..k] == ops[..k];
      FailureStays(cfg, st, w, client, ops[..n], k);
    }
  }

  lemma WalkNext(cfg: Config, st: Store, w: map<string, string>, client: string, ops: seq<BatchOp>, i: nat)
    requires i < |ops| && Walk(cfg, st, w, client, ops[..i]).WalkDone?
    ensures var r := Walk(cfg, st, w, client, ops[..i]);
            Walk(cfg, st, w, client, ops[..i + 1]) == WalkOne(cfg, r.store, r.working, r.pending, client, ops[i])
  {
    assert ops[..i + 1][..i] == ops[..i];
  }

  lemma StatesOfPush(pending: seq<Pending>, p: Pending)
    ensures StatesOf(pending + [p]) == StatesOf(pending) + if p.PState? then [p.applied] else []
  {
    assert (pending + [p])[..|pending|] == pending;
  }

  lemma WalkNothing(cfg: Config, st: Store, w: map<string, string>, client: string)
    ensures Walk(cfg, st, w, client, []) == WalkDone(st, w, [])
  {
  }

  /** A batch with no applied state op leaves the session as it was. */
  lemma {:induction false} WalkWithoutStates(cfg: Config, st: Store, w: map<string, string>, client: string, ops: seq<BatchOp>)
    requires Walk(cfg, st, w, client, ops).WalkDone? && StatesOf(Walk(cfg, st, w, client, ops).pending) == []
    ensures Walk(cfg, st, w, client, ops).store == st
  {
    hide ApplyOp, TargetOf, Work, Decide;
    if ops != [] {
      var b := Walk(cfg, st, w, client, ops[..|ops| - 1]);
      var pending := Walk(cfg, st, w, client, ops).pending;
      if pending != b.pending {
        StatesOfPush(b.pending, pending[|b.pending|]);
      }
      WalkWithoutStates(cfg, st, w, client, ops[..|ops| - 1]);
    }
  }

  lemma QuietKeepsLog(cfg: Config, st: Store, op: Op, env: Env)
    requires !env.record
    ensures var o := ApplyOp(cfg, st, op, env); o.Done? ==> o.store.session.log == st.session.log
  {
    hide PlanOp;
  }

  lemma AcquireStep(w: map<string, string>, client: string, ids: seq<string>, eid: string)
    ensures var g, g' := Select(ids, OpenIn(w, client)), Select(ids + [eid], OpenIn(w, client));
            var u, u' := w + (map e | e in g :: client), w + (map e | e in g' :: client);
            if eid in u && u[eid] != client
            then u' == u && g' == g && Refusals(w, client, ids + [eid]) == Refusals(w, client, ids)[eid := u[eid]]
            else u' == u[eid := client] && g' == g + [eid] && Refusals(w, client, ids + [eid]) == Refusals(w, client, ids)
  {
    hide Select;
    SelectPush(ids, eid, OpenIn(w, client));
    SelectFacts(ids, OpenIn(w, client));
    var g, g' := Select(ids, OpenIn(w, client)), Select(ids + [eid], OpenIn(w, client));
    assert forall x :: x in ids + [eid] <==> x in ids || x == eid;
    assert forall x :: x in g + [eid] <==> x in g || x == eid;
  }

  /** Grants what is free or already the client's, on the working copy. */
  method SimulateAcquire(w: map<string, string>, client: string, ids: seq<string>)
    returns (working: map<string, string>, granted: seq<string>, denied: map<string, string>)
    ensures granted == Decide(w, client, LeaseChange.Acquire(ids))
    ensures working == Work(w, client, LeaseChange.Acquire(ids))
    ensures denied == Refusals(w, client, ids)
    ensures FirstCome(granted, ids) && forall e :: e in granted <==> e in ids && (e in w ==> w[e] == client)
    ensures forall e :: Lookup(working, e) == if e in granted then Some(client) else Lookup(w, e)
    ensures forall e :: Lookup(denied, e) == if e in ids && e in w && w[e] != client then Some(w[e]) else None
  {
    hide Select, Distinct, FirstCome;
    var wanted := Distinct(ids);
    DistinctFacts(ids);
    SelectNone([], OpenIn(w, client));
    working, granted, denied := w, [], map[];
    for i := 0 to |wanted|
      invariant granted == Select(wanted[..i], OpenIn(w, client))
      invariant working == w + map e | e in granted :: client
      invariant denied == Refusals(w, client, wanted[..i])
    {
      var eid := wanted[i];
      assert wanted[..i + 1] == wanted[..i] + [eid];
      AcquireStep(w, client, wanted[..i], eid);
      if eid in working && working[eid] != client {
        denied := denied[eid := working[eid]];
      } else {
        working := working[eid := client];
        granted := granted + [eid];
      }
    }
    assert wanted[..|wanted|] == wanted;
    assert granted == Decide(w, client, LeaseChange.Acquire(ids)) && working == Work(w, client, LeaseChange.Acquire(ids));
    RefusalsOf(w, client, ids, wanted);
    hide Decide, Work, Refusals, OpenIn;
    AcquireLaw(w, client, ids);
  }

  lemma RefusalsOf(w: map<string, string>, client: string, ids: seq<string>, wanted: seq<string>)
    requires forall e :: e in wanted <==> e in ids
    ensures Refusals(w, client, wanted) == Refusals(w, client, ids)
  {
  }

  method SimulateRelease(w: map<string, string>, client: string, ids: seq<string>)
    returns (working: map<string, string>, released: seq<string>)
    ensures released == Decide(w, client, LeaseChange.Release(ids))
    ensures working == Work(w, client, LeaseChange.Release(ids))
    ensures FirstCome(released, ids) && forall e :: e in released <==> e in ids && e in w && w[e] == client
    ensures forall e :: Lookup(working, e) == if e in released then None else Lookup(w, e)
  {
    hide Select, Distinct, FirstCome;
    var wanted := Distinct(ids);
    DistinctFacts(ids);
    SelectNone([], HeldIn(w, client));
    working, released := w, [];
    for i := 0 to |wanted|
      invariant released == Select(wanted[..i], HeldIn(w, client))
      invariant working == map e | e in w && e !in released :: w[e]
    {
      var eid := wanted[i];
      assert wanted[..i + 1] == wanted[..i] + [eid];
      SelectPush(wanted[..i], eid, HeldIn(w, client));
      SelectFacts(wanted[..i], HeldIn(w, client));
      if eid in working && working[eid] == client {
        working := working - {eid};
        released := released + [eid];
      }
    }
    assert wanted[..|wanted|] == wanted;
    assert released == Decide(w, client, LeaseChange.Release(ids)) && working == Work(w, client, LeaseChange.Release(ids));
    hide Decide, Work, HeldIn;
    ReleaseLaw(w, client, ids);
  }

  class SessionManager {
    const site: Site
    /** The session in memory; null once it is deleted. */
    var session: LiveSession?
    const leases: LeaseMap
    const claims: ClaimMap
    const presence: PresenceRegistry
    const bus: InProcessEventBus
    /** What the persistence backend holds. */
    var disk: Option<Session>
    /** The batch that holds the session's lock while it awaits its save. */
    var flight: Option<Flight>

    ghost predicate Valid()
      reads this
    {
      && (session != null ==> session.cfg == site.cfg)
      && leases.ttl == site.leaseTtl
      && claims.ttl == site.claimTtl
      && bus.queueMax == site.queueMax
    }

    function View(): Mgr
      reads this, session, leases, claims, presence, bus
    {
      Mgr(if session == null then None else Some(session.Held()), disk, flight, leases.leases, claims.claims, presence.View(), bus.queues, bus.nextId)
    }

    /** A manager that starts from what the disk holds. */
    constructor (site: Site, disk: Session)
      ensures Valid() && this.site == site
      ensures View() == Mgr(Some(Store(disk, [], [])), Some(disk), None, map[], map[], EMPTY_ROOM, map[], 0)
      ensures session != null && fresh(session) && fresh(leases) && fresh(claims) && fresh(presence) && fresh(bus)
    {
      this.site, this.disk, flight := site, Some(disk), None;
      session := new LiveSession.FromDict(site.cfg, disk);
      leases := new LeaseMap(site.leaseTtl);
      claims := new ClaimMap(site.claimTtl);
      presence := new PresenceRegistry();
      bus := new InProcessEventBus(site.queueMax);
    }

    // ----------------------------------------------------------------- batches

    /** Applies the batch in memory, up to its first refusal. */
    method WalkBatch(client: string, ops: seq<BatchOp>, holders: map<string, string>)
      returns (error: Option<WriteError>, pending: seq<Pending>, changed: bool)
      requires Valid() && session != null
      modifies session
      ensures match Walk(site.cfg, old(session.Held()), holders, client, ops)
              case WalkFailed(e, deleted) => error == Some(e) && session.deleted == deleted
              case WalkDone(st, _, all) => error.None? && session.Held() == st && pending == all && (changed <==> StatesOf(all) != [])
    {
      hide Walk, ApplyOp, TargetOf;
      ghost var was := session.Held();
      var working := holders;
      pending := [];
      assert Walk(site.cfg, was, holders, client, []) == WalkDone(was, holders, []) by { WalkNothing(site.cfg, was, holders, client); }
      changed := false;
      for i := 0 to |ops|
        invariant Walk(site.cfg, was, holders, client, ops[..i]) == WalkDone(session.Held(), working, pending)
        invariant changed <==> StatesOf(pending) != []
      {

        WalkNext(site.cfg, was, holders, client, ops, i);
        if Walk(site.cfg, was, holders, client, ops[..i + 1]).WalkFailed? {
          FailureStays(site.cfg, was, holders, client, ops, i + 1);
        }
        match ops[i]
        case ChangeState(op, now, mint) =>
          var target := TargetOf(op, session.State());
          if target.Some? && target.value in working && working[target.value] != client {
            return Some(LeaseTaken(target.value, working[target.value])), pending, changed;
          }
          var r := session.ApplyStateOp(op, Env(now, client, mint, true));
          if r.Raised? {
            return Some(OpFailed(r.error)), pending, changed;
          }
          if r.AppliedAs? {
            changed := true;
            StatesOfPush(pending, PState(r.applied));
            pending := pending + [PState(r.applied)];
          }
        case ClaimSelection(ids) =>
          StatesOfPush(pending, PClaim(true, ids));
          pending := pending + [PClaim(true, ids)];
        case ReleaseSelection(ids) =>
          StatesOfPush(pending, PClaim(false, ids));
          pending := pending + [PClaim(false, ids)];
        case AcquireLease(ids) =>
          var granted, denied;
          working, granted, denied := SimulateAcquire(working, client, ids);
          StatesOfPush(pending, PAcquire(granted, denied));
          pending := pending + [PAcquire(granted, denied)];
        case ReleaseLease(ids) =>
          var released;
          working, released := SimulateRelease(working, client, ids);
          StatesOfPush(pending, PRelease(released));
          pending := pending + [PRelease(released)];
      }
      assert ops[..|ops|] == ops;
      error := None;
    }

    /** Carries out one pending entry: its lease or claim effect, and its broadcast. */
    method CommitEntry(client: string, entry: Pending, at: real)
      requires Valid()
      modifies leases, claims, bus`queues
      ensures View() == CommitOne(site, old(View()), client, entry, at)
    {
      hide PublishTo, Granting, Without, Claiming, Live;
      match entry
      case PState(applied) =>
        bus.Publish(StateOp(client, applied));
      case PClaim(claimed, ids) =>
        if claimed {
          claims.Claim(client, ids, at);
          bus.Publish(ClaimOp(client, true, ids));
        } else {
          var released := claims.Release(client, ids, at);
          bus.Publish(ClaimOp(client, false, released));
        }
      case PAcquire(ids, _) =>
        if ids != [] {
          var _, _ := leases.Acquire(client, ids, at);
          bus.Publish(EventBus.Event.LeaseOp(client, true, ids));
        }
      case PRelease(ids) =>
        if ids != [] {
          var _ := leases.Release(client, ids, at);
          bus.Publish(EventBus.Event.LeaseOp(client, false, ids));
        }
    }

    method CommitPending(client: string, pending: seq<Pending>, at: real)
      requires Valid()
      modifies leases, claims, bus`queues
      ensures View() == CommitEntries(site, old(View()), client, pending, at)
    {
      hide CommitOne;
      ghost var was := View();
      for i := 0 to |pending|
        invariant View() == CommitEntries(site, was, client, pending[..i], at)
      {
        assert pending[..i + 1][..i] == pending[..i];
        CommitEntry(client, pending[i], at);
      }
      assert pending[..|pending|] == pending;
    }

    /** `apply_ops` under the lock, up to its awaited save: all of the batch in memory, or
        none of it. The session may have been deleted while the batch waited. */
    method BeginBatch(client: string, ops: seq<BatchOp>, withinBudget: bool, at: real) returns (r: Reply)
      requires Valid() && flight.None?
      modifies this`flight, session, leases, claims, bus`queues
      ensures Valid() && (View(), r) == ManagerModel.BeginBatch(site, old(View()), client, ops, withinBudget, at)
    {
      hide Walk, CommitEntries, Live, Holders;
      if session == null {
        return Failed(NoSession);
      }
      var saved, ring := session.ToDict(), session.ring;
      var holders := leases.Snapshot(at);
      var error, pending, changed := WalkBatch(client, ops, holders);
      if error.Some? {
        session.Restore(saved, ring);
        return Failed(error.value);
      }
      if changed {
        if !withinBudget {
          session.Restore(saved, ring);
          return Failed(OverBudget);
        }
        flight := Some(Flight(client, saved, ring, pending, session.ToDict(), false));
        return Suspended;
      }
      WalkWithoutStates(site.cfg, old(session.Held()), holders, client, ops);
      CommitPending(client, pending, at);
      r := Wrote(pending);
    }

    /** The snapshot taken before the await is written. */
    method SaveSnapshot()
      requires flight.Some?
      modifies this`disk, this`flight
      ensures View() == SaveDone(old(View()))
    {
      disk := Some(flight.value.snapshot);
      flight := Some(flight.value.(saved := true));
    }

    method CommitBatch(at: real) returns (r: Reply)
      requires Valid() && flight.Some?
      modifies this`flight, leases, claims, bus`queues
      ensures (View(), r) == ManagerModel.CommitBatch(site, old(View()), at)
    {
      var f := flight.value;
      flight := None;
      CommitPending(f.client, f.pending, at);
      r := Wrote(f.pending);
    }

    method RollBack() returns (r: Reply)
      requires flight.Some? && session != null
      modifies this`flight, session
      ensures (View(), r) == ManagerModel.RollBack(old(View()))
    {
      session.Restore(flight.value.session, flight.value.ring);
      flight := None;
      r := Failed(SaveError);
    }

    // ----------------------------------------------------- synchronous writers

    /** The holder in the way of this op, if there is one. */
    method LeaseConflict(checker: string, op: Op, at: real) returns (conflict: Option<(string, string)>)
      requires session != null
      modifies leases
      ensures View() == Checked(old(View()), op, at)
      ensures var target, holders := TargetOf(op, session.State()), Holders(old(leases.leases), at);
              conflict == if target.Some? && target.value in holders && holders[target.value] != checker
                          then Some((target.value, holders[target.value])) else None
    {
      hide TargetOf, Live, Holders;
      var target := TargetOf(op, session.State());
      if target.Some? {
        var holders := leases.Snapshot(at);
        if target.value in holders && holders[target.value] != checker {
          return Some((target.value, holders[target.value]));
        }
      }
      conflict := None;
    }

    /** `_apply_op_sync`: apply, save, publish, or put everything back. */
    method ApplyOpSync(client: string, op: Op, env: Env, saves: bool) returns (r: Reply)
      requires Valid() && session != null
      modifies this`disk, session, bus`queues
      ensures match ApplyOp(site.cfg, old(session.Held()), op, env)
              case Rejected(e) => r == Failed(OpFailed(e)) && View() == old(View())
              case Dropped => r == Nothing && View() == old(View())
              case Done(st, applied) =>
                if saves then
                  && r == Wrote([PState(applied)])
                  && View() == old(View()).(store := Some(st), disk := Some(st.session),
                                            queues := PublishTo(old(bus.queues), StateOp(client, applied), site.queueMax))
                else
                  && r == Failed(SaveError)
                  && View() == old(View()).(store := Some(old(session.Held()).(deleted := st.deleted)))
    {
      hide ApplyOp, PublishTo;
      var saved, ring := session.ToDict(), session.ring;
      var answer := session.ApplyStateOp(op, env);
      if answer.Raised? {
        return Failed(OpFailed(answer.error));
      }
      if answer.Ignored? {
        return Nothing;
      }
      if !saves {
        session.Restore(saved, ring);
        return Failed(SaveError);
      }
      disk := Some(session.ToDict());
      bus.Publish(StateOp(client, answer.applied));
      r := Wrote([PState(answer.applied)]);
    }

    /** A synchronous writer: busy while a batch holds the lock. */
    method SyncWrite(checker: string, op: Op, env: Env, at: real, saves: bool) returns (r: Reply)
      requires Valid()
      modifies this`disk, session, leases, bus`queues
      ensures (View(), r) == ManagerModel.SyncWrite(site, old(View()), checker, op, env, at, saves)
    {
      hide ApplyOp, PublishTo, TargetOf, Live, Holders;
      if flight.Some? {
        return Failed(Busy);
      }
      if session == null {
        return Failed(NoSession);
      }
      var conflict := LeaseConflict(checker, op, at);
      if conflict.Some? {
        return Failed(LeaseTaken(conflict.value.0, conflict.value.1));
      }
      r := ApplyOpSync(env.client, op, env, saves);
    }

    /** `undo_last_action`. The replay is published under a client id of its own, so
        that the requesting browser does not take it for an echo. */
    method UndoLastAction(client: string, env: Env, at: real, saves: bool, marks: bool) returns (r: Reply)
      requires Valid()
      modifies this`disk, session, leases, bus`queues
      ensures (View(), r) == UndoAction(site, old(View()), client, env, at, saves, marks)
    {
      hide ApplyOp, PublishTo, TargetOf, Live, Holders, LatestUndoable, Current, Checked, RemoveFirst;
      if flight.Some? {
        return Failed(Busy);
      }
      if session == null {
        return Failed(NoSession);
      }
      var i := session.FindLatestUndoable(client);
      if i.None? {
        return Failed(NothingUndoable);
      }
      var change := session.log[i.value].change;
      if Current(session.State(), change.target) != change.after {
        return Failed(UndoRefused);
      }
      var conflict := LeaseConflict(client, change.inverse, at);
      if conflict.Some? {
        return Failed(LeaseTaken(conflict.value.0, conflict.value.1));
      }
      if change.inverse.AnnotationCreated? && change.inverse.payload.Payload? && change.inverse.payload.id.Some? {
        session.ForgetDeleted(change.inverse.payload.id.value);
      }
      QuietKeepsLog(site.cfg, session.Held(), change.inverse, ReplayEnv(env));
      r := ApplyOpSync(REPLAY_CLIENT, change.inverse, ReplayEnv(env), saves);
      if r.Nothing? {
        return Failed(UndoRefused);
      }
      if r.Wrote? {
        session.SetUndone(i.value);
        if !marks {
          return Failed(SaveError);
        }
        disk := Some(session.ToDict());
      }
    }

    // ------------------------------------------------------------------ deletes

    /** `delete_session`, once it has the lock. */
    method DeleteSession() returns (r: Reply)
      requires Valid() && flight.None?
      modifies this`session, this`disk, bus`queues
      ensures Valid() && (View(), r) == Remove(site, old(View()))
    {
      hide PublishTo;
      var existed := session != null || disk.Some?;
      session := null;
      disk := None;
      if existed {
        bus.Publish(SessionDeleted);
      }
      r := Removed(existed);
    }

    /** `delete_session_sync`: busy while a batch holds the lock, which could otherwise
        save the session again after it is gone. */
    method DeleteSessionSync() returns (r: Reply)
      requires Valid()
      modifies this`session, this`disk, bus`queues
      ensures Valid() && (View(), r) == DeleteSync(site, old(View()))
    {
      if flight.Some? {
        return Failed(Busy);
      }
      r := DeleteSession();
    }

    // ------------------------------------------------------------- connections

    method Connect(client: string, name: Option<string>, guest: string) returns (id: nat)
      requires Valid()
      modifies presence, bus
      ensures id == old(bus.nextId)
      ensures View() == ManagerModel.Connect(site, old(View()), client, name, guest)
    {
      hide PublishTo, Join;
      id := bus.Subscribe();
      var member := presence.JoinRoom(client, name, guest);
      bus.Publish(PresenceJoined(member));
    }

    method Disconnect(client: string, id: nat)
      requires Valid()
      modifies presence, leases, claims, bus`queues
      ensures View() == ManagerModel.Disconnect(site, old(View()), client, id)
    {
      hide PublishTo, Leave;
      bus.Unsubscribe(id);
      var left := presence.LeaveRoom(client);
      if left.Some? {
        var released := claims.ReleaseAll(client);
        if released != {} {
          bus.Publish(AllReleased(client, false, released));
        }
        var releasedLeases := leases.ReleaseAll(client);
        if releasedLeases != {} {
          bus.Publish(AllReleased(client, true, releasedLeases));
        }
        bus.Publish(PresenceLeft(client));
      }
    }

    /** Reads the store as it is, lock or no lock; the claim and lease snapshots prune. */
    method CatchUp(since: Option<int>, at: real)
      returns (payload: CatchUpPayload, claimed: map<string, string>, leased: map<string, string>)
      modifies leases, claims
      ensures payload == ManagerModel.CatchUp(old(View()), since)
      ensures payload.NotThere? <==> session == null
      ensures payload.Missed? ==> payload.seqNo == session.seqNo
      ensures payload.Whole? ==>
        && payload.session.name == session.name && payload.session.seqNo == session.seqNo
        && payload.session.updatedAt == session.updatedAt && payload.session.log == session.log
        && payload.session.doc == Doc(session.nodeRefs, session.positions, session.hiddenNodes, session.hiddenEdges,
                                      session.dimmedNodes, session.dimmedEdges, session.intensity, session.annotations)
      ensures payload.NotThere? ==> View() == old(View())
      ensures !payload.NotThere? ==>
        && claimed == Holders(old(claims.claims), at) && leased == Holders(old(leases.leases), at)
        && View() == old(View()).(leases := Live(old(leases.leases), at), claims := Live(old(claims.claims), at))
    {
      hide Live, Holders, OpsSince;
      if session == null {
        return NotThere, map[], map[];
      }
      claimed := claims.Snapshot(at);
      leased := leases.Snapshot(at);
      if since.Some? {
        var missed := session.OpsAfter(since.value);
        if missed.Some? {
          payload := Missed(session.seqNo, missed.value);
          return;
        }
      }
      payload := Whole(session.ToDict());
    }
  }
}
