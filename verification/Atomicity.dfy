/**
 What one batch, one failed save and one delete do to a run: writers that try while
 the lock is held are refused, a failed save leaves no trace, a batch's leases hold
 until its commit, and nothing brings a deleted session back.
 */
module Atomicity {
  import opened Values
  import opened Lists
  import opened SessionModel
  import opened SessionFacts
  import opened Undo
  import opened Replica
  import opened Leases
  import opened Presence
  import opened EventBus
  import opened ManagerModel
  import opened BatchFacts
  import opened Protocol
  import opened Convergence

  // --------------------------------------------------------- under the lock

  /** Acts that do not end the save a batch waits for. Writers that try, undos and
      deletes among them, are allowed. */
  predicate KeepsWaiting(a: Act) {
    !a.SaveSucceeds? && !a.SaveRaises? && !a.Dies?
  }

  /** While a batch awaits its save, whatever is attempted, no writer gets in: the
      store, the disk copy, the history and the rollback copy stay as they are. */
  lemma {:induction false} NothingWrittenInFlight(site: Site, s: Sys, mid: seq<Act>)
    requires InFlight(s.m) && Runs(site, s, mid)
    requires forall i :: 0 <= i < |mid| ==> KeepsWaiting(mid[i])
    ensures Untouched(s, Reach(site, s, mid))
  {
    hide Untouched, Enabled, Next, InFlight, KeepsWaiting;
    if mid == [] {
      UntouchedRefl(s);
    } else {
      var n := |mid| - 1;
      var before := Reach(site, s, mid[..n]);
      NothingWrittenInFlight(site, s, mid[..n]);
      StillInFlight(s, before);
      assert KeepsWaiting(mid[n]);
      WaitingStep(site, before, mid[n]);
      UntouchedTrans(s, before, Reach(site, s, mid));
    }
  }

  ghost predicate Untouched(s: Sys, e: Sys) {
    && e.m.store == s.m.store && e.m.disk == s.m.disk && e.m.flight == s.m.flight
    && e.views == s.views && e.ops == s.ops && e.flown == s.flown && e.published == s.published && e.boot == s.boot
  }

  lemma UntouchedRefl(s: Sys)
    ensures Untouched(s, s)
  {
  }

  lemma UntouchedTrans(s: Sys, t: Sys, u: Sys)
    requires Untouched(s, t) && Untouched(t, u)
    ensures Untouched(s, u)
  {
  }

  lemma StillInFlight(s: Sys, e: Sys)
    requires Untouched(s, e) && InFlight(s.m)
    ensures InFlight(e.m)
  {
  }

  lemma WaitingStep(site: Site, s: Sys, a: Act)
    requires InFlight(s.m) && Enabled(site, s, a) && KeepsWaiting(a)
    ensures Untouched(s, Next(site, s, a))
    ensures a.Sync? || a.Undoes? || a.Deletes? ==> Next(site, s, a) == s
  {
    hide BeginBatch, ApplyOp, UndoLast, Connect, Disconnect, CatchUp, CaughtUp, Delivered, Remove, CommitBatch;
    match a {
      case Joins(client, name, guest, from) => ConnectIs(site, s.m, client, name, guest);
      case Leaves(client, id) => DisconnectIs(site, s.m, client, id);
      case _ =>
    }
  }

  lemma ConnectIs(site: Site, m: Mgr, client: string, name: Option<string>, guest: string)
    ensures var m' := Connect(site, m, client, name, guest);
            m' == m.(room := m'.room, queues := m'.queues, nextSub := m'.nextSub)
  {
  }

  lemma DisconnectIs(site: Site, m: Mgr, client: string, id: nat)
    ensures var m' := Disconnect(site, m, client, id);
            && m' == m.(room := m'.room, queues := m'.queues, leases := m'.leases, claims := m'.claims)
            && (m'.leases == m.leases || m'.leases == WithoutClient(m.leases, client))
  {
  }

  // ---------------------------------------------------------- a failed save

  /** All or nothing: a batch whose save raises leaves the session, its ring, the disk,
      the saved history and the published ops as they were before it began, and
      everything else as it found it when the save raised; only the memory of deleted
      ids keeps the ids it had deleted. No write of anybody is undone with it. */
  lemma FailedSaveLeavesNoTrace(site: Site, s: Sys, client: string, batch: seq<BatchOp>, at: real, mid: seq<Act>)
    requires Inv(site, s) && Suspends(site, s, client, batch, at)
    requires Runs(site, Next(site, s, Begin(client, batch, true, at)), mid)
    requires forall i :: 0 <= i < |mid| ==> KeepsWaiting(mid[i])
    ensures var before := Reach(site, Next(site, s, Begin(client, batch, true, at)), mid);
            var e := Next(site, before, SaveRaises);
            && Enabled(site, before, SaveRaises)
            && e.m == before.m.(store := e.m.store, flight := None)
            && e.m.store == Some(Held(s.m).(deleted := MemoryAfter(site, s.m, client, batch, at)))
            && e.m.disk == s.m.disk && e.views == s.views && e.ops == s.ops && e.published == s.published
  {
    hide *;
    var s1 := Next(site, s, Begin(client, batch, true, at));
    MemoryBounded(site, s);
    Launched(site, s, client, batch, at);
    NothingWrittenInFlight(site, s1, mid);
    RaisedAfter(site, s1, Reach(site, s1, mid));
  }

  /** A batch gets the lock, walks through, and awaits its save. */
  ghost predicate Suspends(site: Site, s: Sys, client: string, batch: seq<BatchOp>, at: real) {
    && Enabled(site, s, Begin(client, batch, true, at))
    && BeginBatch(site, s.m, client, batch, true, at).1.Suspended?
  }

  /** What the deleted memory holds once the batch has walked. */
  function MemoryAfter(site: Site, m: Mgr, client: string, batch: seq<BatchOp>, at: real): seq<string> {
    Last(Held(m).deleted + DeletedBy(site.cfg, Held(m), Holders(m.leases, at), client, batch), DELETED_MEMORY)
  }

  /** What the first half of a batch leaves behind when it suspends. */
  lemma Launched(site: Site, s: Sys, client: string, batch: seq<BatchOp>, at: real)
    requires |Held(s.m).deleted| <= DELETED_MEMORY && Suspends(site, s, client, batch, at)
    ensures var s1 := Next(site, s, Begin(client, batch, true, at));
            && InFlight(s1.m) && s1.m.flight.Some? && s1.m.store.Some? && s1.m.disk == s.m.disk
            && s1.views == s.views && s1.ops == s.ops && s1.published == s.published
            && s1.m.leases == Live(s.m.leases, at)
            && s1.m.flight == BeginBatch(site, s.m, client, batch, true, at).0.flight
            && s1.m.flight.value.session == Held(s.m).session && s1.m.flight.value.ring == Held(s.m).ring
            && s1.m.store.value.deleted == MemoryAfter(site, s.m, client, batch, at)
  {
    hide Walk, Trail, CommitEntries, StatesOf, DeletedBy, Enabled;
    WalkRemembers(site.cfg, Held(s.m), Holders(s.m.leases, at), client, batch);
  }

  lemma RaisedAfter(site: Site, s1: Sys, before: Sys)
    requires Untouched(s1, before) && InFlight(s1.m) && s1.m.flight.Some? && s1.m.store.Some?
    ensures var e := Next(site, before, SaveRaises);
            && Enabled(site, before, SaveRaises)
            && e.m == before.m.(store := e.m.store, flight := None)
            && e.m.store == Some(Store(s1.m.flight.value.session, s1.m.flight.value.ring, s1.m.store.value.deleted))
            && e.m.disk == s1.m.disk && e.views == s1.views && e.ops == s1.ops && e.published == s1.published
  {
  }

  // ---------------------------------------------------------- the leases hold

  /** Acts under which a batch keeps the lock: it awaits its save, or has been saved. */
  predicate KeepsLock(a: Act) {
    !a.CommitsBatch? && !a.SaveRaises? && !a.Dies?
  }

  lemma {:induction false} DisturbOneMore(h: Holds, steps: seq<Meanwhile>, step: Meanwhile)
    ensures Disturb(h, steps + [step]) == Disturb(Disturb(h, steps), [step])
    decreases |steps|
  {
    if steps == [] {
      assert steps + [step] == [step];
    } else {
      assert (steps + [step])[1..] == steps[1..] + [step];
      match steps[0]
      case Pruned(now) => DisturbOneMore(Live(h, now), steps[1..], step);
      case Departed(client) => DisturbOneMore(WithoutClient(h, client), steps[1..], step);
    }
  }

  /** While a batch has the lock, the lease map only loses holders who leave. */
  lemma {:induction false} LeasesOnlyDepart(site: Site, s: Sys, mid: seq<Act>) returns (steps: seq<Meanwhile>)
    requires s.m.flight.Some? && Runs(site, s, mid)
    requires forall i :: 0 <= i < |mid| ==> KeepsLock(mid[i])
    ensures var e := Reach(site, s, mid);
            && e.m.leases == Disturb(s.m.leases, steps)
            && SameBatch(s.m, e.m)
  {
    hide Enabled, Next, KeepsLock;
    if mid == [] {
      return [];
    }
    var n := |mid| - 1;
    var before := Reach(site, s, mid[..n]);
    var earlier := LeasesOnlyDepart(site, s, mid[..n]);
    assert KeepsLock(mid[n]);
    var more := LockedStep(site, before, mid[n]);
    if more == [] {
      steps := earlier;
    } else {
      assert more == [more[0]];
      DisturbOneMore(s.m.leases, earlier, more[0]);
      steps := earlier + more;
    }
  }

  predicate SameBatch(m: Mgr, m': Mgr) {
    && m.flight.Some? && m'.flight.Some?
    && m'.flight.value == m.flight.value.(saved := m'.flight.value.saved)
  }

  lemma LockedStep(site: Site, s: Sys, a: Act) returns (step: seq<Meanwhile>)
    requires s.m.flight.Some? && Enabled(site, s, a) && KeepsLock(a)
    ensures |step| <= 1
    ensures var e := Next(site, s, a);
            && e.m.leases == (if step == [] then s.m.leases else Disturb(s.m.leases, step))
            && SameBatch(s.m, e.m)
  {
    hide BeginBatch, ApplyOp, UndoLast, Connect, Disconnect, CatchUp, CaughtUp, Delivered, Remove, CommitBatch;
    step := [];
    match a {
      case Joins(client, name, guest, from) => ConnectIs(site, s.m, client, name, guest);
      case Leaves(client, id) =>
        DisconnectIs(site, s.m, client, id);
        if Disconnect(site, s.m, client, id).leases != s.m.leases {
          step := [Departed(client)];
          DepartedIs(s.m.leases, client);
        }
      case _ =>
    }
  }

  lemma DepartedIs(h: Holds, client: string)
    ensures Disturb(h, [Departed(client)]) == WithoutClient(h, client)
  {
    assert [Departed(client)][1..] == [];
  }

  /** Along every run from a batch's walk to its commit: all the leases the walk granted
      are granted, and who holds what in the end is what the batch's lease ops make of
      the holders at its start, whatever expired and whoever left in between. */
  lemma BatchLeasesHoldInRuns(site: Site, s: Sys, client: string, batch: seq<BatchOp>, start: real, mid: seq<Act>, at: real)
    requires Inv(site, s) && site.leaseTtl > 0.0 && start <= at && Suspends(site, s, client, batch, start)
    requires Runs(site, Next(site, s, Begin(client, batch, true, start)), mid + [CommitsBatch(at)])
    requires forall i :: 0 <= i < |mid| ==> KeepsLock(mid[i])
    ensures var s1 := Next(site, s, Begin(client, batch, true, start));
            LeasesKept(s.m.leases, Reach(site, s1, mid), Reach(site, s1, mid + [CommitsBatch(at)]), client, batch, start, at, site.leaseTtl)
  {
    hide *;
    var s1 := Next(site, s, Begin(client, batch, true, start));
    MemoryBounded(site, s);
    OneMoreAct(site, s1, mid, CommitsBatch(at));
    Launched(site, s, client, batch, start);
    var later := Reach(site, s1, mid);
    var steps := LeasesOnlyDepart(site, s1, mid);
    PrunedFirst(s.m.leases, start, steps);
    CommitIs(site, later, at) by { SameLock(s1.m, later.m); }
    CommittedLeases(site, s, client, batch, start, s1, later, [Pruned(start)] + steps, at);
  }

  lemma MemoryBounded(site: Site, s: Sys)
    requires Inv(site, s)
    ensures |Held(s.m).deleted| <= DELETED_MEMORY
  {
  }

  lemma SameLock(m: Mgr, m': Mgr)
    requires SameBatch(m, m')
    ensures m'.flight.Some?
  {
  }

  /** Every grant of the walk went through, and what the ops make of the holders at the
      start is what is held. */
  ghost predicate LeasesKept(h: Holds, later: Sys, end: Sys, client: string, batch: seq<BatchOp>, start: real, at: real, ttl: real) {
    var w, held := Holders(h, start), LeaseChanges(batch);
    && AllGranted(later.m.leases, w, client, held, at, ttl)
    && forall e :: EndsHeld(Lookup(w, e), Lookup(Holders(end.m.leases, at), e), client, held, e)
  }

  /** An id that a batch acquires while nobody else holds it is the client's once the batch
      is committed; one that it releases is nobody's. The last op that names it counts. */
  lemma AcquiredIsHeld(site: Site, s: Sys, client: string, batch: seq<BatchOp>, start: real, mid: seq<Act>, at: real,
                       k: nat, e: string)
    requires Inv(site, s) && site.leaseTtl > 0.0 && start <= at && Suspends(site, s, client, batch, start)
    requires Runs(site, Next(site, s, Begin(client, batch, true, start)), mid + [CommitsBatch(at)])
    requires forall i :: 0 <= i < |mid| ==> KeepsLock(mid[i])
    requires k < |batch| && (batch[k].AcquireLease? || batch[k].ReleaseLease?) && e in batch[k].ids
    requires forall j :: k < j < |batch| ==>
               !(batch[j].AcquireLease? && e in batch[j].ids) && !(batch[j].ReleaseLease? && e in batch[j].ids)
    requires !Taken(s.m.leases, client, e, start)
    ensures var h := Reach(site, Next(site, s, Begin(client, batch, true, start)), mid + [CommitsBatch(at)]).m.leases;
            if batch[k].AcquireLease? then e in h && h[e].expires > at && h[e].client == client
            else e !in h || h[e].expires <= at
  {
    hide Inv, Suspends, Runs, Next, Enabled, Reach, KeepsLock, AllGranted, LeaseChanges, HolderAfter, Mentioned;
    var s1 := Next(site, s, Begin(client, batch, true, start));
    BatchLeasesHoldInRuns(site, s, client, batch, start, mid, at);
    HolderAfterBatch(Lookup(Holders(s.m.leases, start), e), client, batch, k, e);
    var end := Reach(site, s1, mid + [CommitsBatch(at)]);
    assert EndsHeld(Lookup(Holders(s.m.leases, start), e), Lookup(Holders(end.m.leases, at), e), client, LeaseChanges(batch), e);
  }

  lemma CommittedLeases(site: Site, s: Sys, client: string, batch: seq<BatchOp>, start: real, s1: Sys, later: Sys,
                        steps: seq<Meanwhile>, at: real)
    requires site.leaseTtl > 0.0 && start <= at && Suspends(site, s, client, batch, start)
    requires s1.m.flight == BeginBatch(site, s.m, client, batch, true, start).0.flight && SameBatch(s1.m, later.m)
    requires later.m.leases == Disturb(s.m.leases, steps)
    requires Next(site, later, CommitsBatch(at)).m == CommitBatch(site, later.m, at).0
    ensures LeasesKept(s.m.leases, later, Next(site, later, CommitsBatch(at)), client, batch, start, at, site.leaseTtl)
  {
    hide BeginBatch, Next, Enabled, AllGranted, EndsHeld, Holders, CommitEntries, Disturb;
    BatchLeasesHold(site, s.m, client, batch, start, later.m, steps, at);
  }

  lemma PrunedFirst(h: Holds, at: real, steps: seq<Meanwhile>)
    ensures Disturb(Live(h, at), steps) == Disturb(h, [Pruned(at)] + steps)
  {
    assert ([Pruned(at)] + steps)[1..] == steps;
  }

  lemma CommitIs(site: Site, s: Sys, at: real)
    requires s.m.flight.Some?
    ensures Next(site, s, CommitsBatch(at)).m == CommitBatch(site, s.m, at).0
  {
    hide CommitBatch;
  }

  // ------------------------------------------------------- what a delete ends

  /** Nothing of the session is left, in memory, on disk or in flight. */
  predicate Gone(m: Mgr) {
    m.store.None? && m.disk.None? && m.flight.None?
  }

  /** The saved history has not grown, and nothing more was published. */
  ghost predicate NothingAdded(s: Sys, e: Sys) {
    e.views == s.views && e.ops == s.ops && e.published <= s.published
  }

  /** No act brings a deleted session back: batches that waited for its lock, writers
      that come later, failed or repeated deletes, crashes. */
  lemma GoneStep(site: Site, s: Sys, a: Act)
    requires Gone(s.m) && Enabled(site, s, a)
    ensures Gone(Next(site, s, a).m) && NothingAdded(s, Next(site, s, a))
  {
    hide ApplyOp, UndoLast, Connect, Disconnect, CaughtUp, Delivered, CommitBatch, Walk, PublishTo;
    match a {
      case Joins(client, name, guest, from) => ConnectIs(site, s.m, client, name, guest);
      case Leaves(client, id) => DisconnectIs(site, s.m, client, id);
      case _ =>
    }
  }

  lemma {:induction false} GoneStaysGone(site: Site, s: Sys, acts: seq<Act>)
    requires Gone(s.m) && Runs(site, s, acts)
    ensures Gone(Reach(site, s, acts).m) && NothingAdded(s, Reach(site, s, acts))
  {
    hide Next, Enabled;
    if acts != [] {
      GoneStaysGone(site, s, acts[..|acts| - 1]);
      GoneStep(site, Reach(site, s, acts[..|acts| - 1]), acts[|acts| - 1]);
    }
  }

  /** Whoever asks for a session that is gone is told so, and changes nothing. */
  lemma GoneAnswers(site: Site, m: Mgr, client: string, batch: seq<BatchOp>, within: bool, op: Op, env: Env,
                    at: real, saves: bool, marks: bool, since: Option<int>)
    requires Gone(m)
    ensures BeginBatch(site, m, client, batch, within, at) == (m, Failed(NoSession))
    ensures SyncWrite(site, m, client, op, env, at, saves) == (m, Failed(NoSession))
    ensures UndoAction(site, m, client, env, at, saves, marks) == (m, Failed(NoSession))
    ensures CatchUp(m, since).NotThere?
    ensures DeleteSync(site, m) == Remove(site, m) == (m, Removed(false))
    ensures Gone(Restart(m))
  {
  }

  /** A delete that goes through ends the session for good: along every later run, with
      batches that were waiting for the lock when it was deleted and with writers that
      come after it, nothing is saved or published, and the disk stays empty. A delete
      that comes while a batch holds the lock does nothing, or waits. */
  lemma DeletedSessionStaysDeleted(site: Site, s: Sys, waits: bool, later: seq<Act>)
    requires Inv(site, s) && Runs(site, s, [Deletes(waits)] + later)
    ensures s.m.flight.Some? ==> !waits && Next(site, s, Deletes(waits)) == s
    ensures s.m.flight.None? ==>
              var e := Reach(site, s, [Deletes(waits)] + later);
              Gone(e.m) && NothingAdded(s, e)
  {
    hide *;
    RunsJoin(site, s, [Deletes(waits)], later);
    OneMoreAct(site, s, [], Deletes(waits));
    assert [] + [Deletes(waits)] == [Deletes(waits)];
    DeleteStep(site, s, waits) by { NoActs(site, s); }
    if s.m.flight.None? {
      GoneStaysGone(site, Next(site, s, Deletes(waits)), later) by { NoActs(site, s); }
      NoActs(site, s);
      NothingAddedTrans(s, Next(site, s, Deletes(waits)), Reach(site, s, [Deletes(waits)] + later));
    }
  }

  lemma NoActs(site: Site, s: Sys)
    ensures Reach(site, s, []) == s
  {
  }

  lemma NothingAddedTrans(s: Sys, t: Sys, u: Sys)
    requires NothingAdded(s, t) && NothingAdded(t, u)
    ensures NothingAdded(s, u)
  {
  }

  lemma DeleteStep(site: Site, s: Sys, waits: bool)
    requires Enabled(site, s, Deletes(waits))
    ensures s.m.flight.Some? ==> !waits && Next(site, s, Deletes(waits)) == s
    ensures s.m.flight.None? ==> Gone(Next(site, s, Deletes(waits)).m) && NothingAdded(s, Next(site, s, Deletes(waits)))
  {
    hide PublishTo;
  }
}
