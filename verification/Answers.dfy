/**
 What callers are answered and what subscribers are told, entry point by entry point:
 the reply to a batch op by op, the refusals, and the events that reach every line.
 */
module Answers {
  import opened Values
  import opened Lists
  import opened SessionModel
  import opened SessionFacts
  import opened Undo
  import opened Leases
  import opened Presence
  import opened EventBus
  import opened ManagerModel
  import opened BatchFacts
  import opened OpLaws

  // ---------------------------------------------------------------- broadcasts

  /** A line after these events: all of them at its end, if there is room; otherwise a
      marker, and the events since the last one that found it full. */
  ghost predicate Hears(before: seq<Event>, after: seq<Event>, events: seq<Event>, max: int) {
    || (after == before + events && (events == [] || max <= 0 || |after| <= max))
    || (max > 0 && |before| + |events| > max && exists j :: SinceMark(after, events, j))
  }

  ghost predicate SinceMark(after: seq<Event>, events: seq<Event>, j: int) {
    0 < j <= |events| && after == [Resync] + events[j..]
  }

  ghost predicate AllHear(queues: map<nat, seq<Event>>, queues': map<nat, seq<Event>>, events: seq<Event>, max: int) {
    queues'.Keys == queues.Keys && forall s :: s in queues ==> Hears(queues[s], queues'[s], events, max)
  }

  lemma NobodyHears(queues: map<nat, seq<Event>>, max: int)
    ensures AllHear(queues, queues, [], max)
  {
    assert forall q: seq<Event> :: q + [] == q;
  }

  lemma PublishHeard(queues: map<nat, seq<Event>>, e: Event, max: int)
    ensures AllHear(queues, PublishTo(queues, e, max), [e], max)
  {
    forall s | s in queues ensures Hears(queues[s], PublishTo(queues, e, max)[s], [e], max) {
      assert SinceMark([Resync], [e], 1);
    }
  }

  lemma HearsThen(a: seq<Event>, b: seq<Event>, c: seq<Event>, first: seq<Event>, next: seq<Event>, max: int)
    requires Hears(a, b, first, max) && Hears(b, c, next, max)
    ensures Hears(a, c, first + next, max)
  {
    if j :| SinceMark(c, next, j) && max > 0 && |b| + |next| > max {
      assert (first + next)[|first| + j..] == next[j..];
      assert SinceMark(c, first + next, |first| + j);
      if i :| SinceMark(b, first, i) && max > 0 && |a| + |first| > max {
      } else {
        assert b == a + first;
      }
    } else if i :| SinceMark(b, first, i) && max > 0 && |a| + |first| > max {
      assert c == b + next;
      assert (first + next)[i..] == first[i..] + next;
      assert SinceMark(c, first + next, i);
    } else {
      assert c == a + (first + next);
    }
  }

  lemma AllHearThen(a: map<nat, seq<Event>>, b: map<nat, seq<Event>>, c: map<nat, seq<Event>>,
                    first: seq<Event>, next: seq<Event>, max: int)
    requires AllHear(a, b, first, max) && AllHear(b, c, next, max)
    ensures AllHear(a, c, first + next, max)
  {
    hide Hears;
    forall s | s in a ensures Hears(a[s], c[s], first + next, max) {
      HearsThen(a[s], b[s], c[s], first, next, max);
    }
  }

  // ------------------------------------------------------------- a batch commits

  /** An empty lease decision is told to nobody. */
  predicate Silent(p: Pending) {
    (p.PAcquire? || p.PRelease?) && p.ids == []
  }

  /** The event that tells of this entry. A claim's release names what was really held. */
  ghost predicate TellsOf(client: string, p: Pending, e: Event) {
    match p
    case PState(applied) => e == StateOp(client, applied)
    case PClaim(claimed, ids) =>
      && e.ClaimOp? && e.client == client && e.claimed == claimed
      && (claimed ==> e.ids == ids) && (!claimed ==> FirstCome(e.ids, ids) && forall x :: x in e.ids ==> x in ids)
    case PAcquire(ids, _) => e == LeaseOp(client, true, ids)
    case PRelease(ids) => e == LeaseOp(client, false, ids)
  }

  /** One event for each entry that is not silent, in order. */
  ghost predicate Announced(client: string, pending: seq<Pending>, events: seq<Event>) {
    if pending == [] then events == []
    else
      var n := |pending| - 1;
      if Silent(pending[n]) then Announced(client, pending[..n], events)
      else events != [] && TellsOf(client, pending[n], events[|events| - 1])
           && Announced(client, pending[..n], events[..|events| - 1])
  }

  /** What one entry does at commit: its event; the lease or claim it takes or gives back;
      and nothing else. */
  lemma CommitOneTells(site: Site, m: Mgr, client: string, p: Pending, at: real) returns (events: seq<Event>)
    ensures var m' := CommitOne(site, m, client, p, at);
            && AllHear(m.queues, m'.queues, events, site.queueMax)
            && (if Silent(p) then events == [] && m' == m else |events| == 1 && TellsOf(client, p, events[0]))
            && m' == m.(queues := m'.queues, leases := m'.leases, claims := m'.claims)
            && (p.PState? || p.PClaim? ==> m'.leases == m.leases)
            && (!p.PClaim? ==> m'.claims == m.claims)
            && (p.PClaim? && !p.claimed ==>
                  forall x :: x in events[0].ids <==>
                    x in p.ids && x in m.claims && m.claims[x].expires > at && m.claims[x].client == client)
            && (p.PClaim? ==>
                  forall x :: Lookup(m'.claims, x) ==
                    if p.claimed && x in p.ids then Some(Hold(client, at + site.claimTtl))
                    else if x in m.claims && m.claims[x].expires > at && (p.claimed || x !in p.ids || m.claims[x].client != client)
                    then Some(m.claims[x]) else None)
            && (!Silent(p) && (p.PAcquire? || p.PRelease?) ==>
                  forall x :: Lookup(m'.leases, x) ==
                    if p.PAcquire? && x in p.ids && !Taken(m.leases, client, x, at) then Some(Hold(client, at + site.leaseTtl))
                    else if x in m.leases && m.leases[x].expires > at && (p.PAcquire? || x !in p.ids || m.leases[x].client != client)
                    then Some(m.leases[x]) else None)
  {
    hide PublishTo, AllHear, Granting, Without, Claiming, Live, Select, Distinct, FirstCome, Taken;
    NobodyHears(m.queues, site.queueMax);
    events := [];
    match p {
      case PState(applied) =>
        events := [StateOp(client, applied)];
        PublishHeard(m.queues, events[0], site.queueMax);
      case PClaim(claimed, ids) =>
        ClaimCallsAre(m.claims, client, ids, at, site.claimTtl);
        LeaseCallsAre(m.claims, client, ids, at, site.claimTtl);
        events := [ClaimOp(client, claimed, if claimed then ids else Select(Distinct(ids), HeldBy(Live(m.claims, at), client)))];
        PublishHeard(m.queues, events[0], site.queueMax);
      case PAcquire(ids, _) =>
        if ids != [] {
          LeaseCallsAre(m.leases, client, ids, at, site.leaseTtl);
          events := [LeaseOp(client, true, ids)];
          PublishHeard(m.queues, events[0], site.queueMax);
        }
      case PRelease(ids) =>
        if ids != [] {
          LeaseCallsAre(m.leases, client, ids, at, site.leaseTtl);
          events := [LeaseOp(client, false, ids)];
          PublishHeard(m.queues, events[0], site.queueMax);
        }
    }
  }

  /** A commit tells every subscriber of its entries, one event each, in arrival order. */
  lemma {:induction false} CommitTells(site: Site, m: Mgr, client: string, pending: seq<Pending>, at: real) returns (events: seq<Event>)
    ensures AllHear(m.queues, CommitEntries(site, m, client, pending, at).queues, events, site.queueMax)
    ensures Announced(client, pending, events)
  {
    hide AllHear, CommitOne, TellsOf;
    if pending == [] {
      NobodyHears(m.queues, site.queueMax);
      return [];
    }
    var n := |pending| - 1;
    var m1 := CommitEntries(site, m, client, pending[..n], at);
    var before := CommitTells(site, m, client, pending[..n], at);
    var now := CommitOneTells(site, m1, client, pending[n], at);
    AllHearThen(m.queues, m1.queues, CommitOne(site, m1, client, pending[n], at).queues, before, now, site.queueMax);
    events := before + now;
    if Silent(pending[n]) {
      assert events == before;
    } else {
      assert events[..|events| - 1] == before && events[|events| - 1] == now[0];
    }
  }

  /** The answer after the save is the list of what was done, and everybody is told. */
  lemma CommitAnswers(site: Site, m: Mgr, at: real) returns (events: seq<Event>)
    requires m.flight.Some?
    ensures var (m', r) := CommitBatch(site, m, at);
            && r == Wrote(m.flight.value.pending) && m'.flight.None? && m'.store == m.store && m'.disk == m.disk
            && AllHear(m.queues, m'.queues, events, site.queueMax)
            && Announced(m.flight.value.client, m.flight.value.pending, events)
  {
    hide AllHear, Announced;
    events := CommitTells(site, m.(flight := None), m.flight.value.client, m.flight.value.pending, at);
    CommitFrame(site, m.(flight := None), m.flight.value.client, m.flight.value.pending, at);
  }

  lemma {:induction false} CommitFrame(site: Site, m: Mgr, client: string, pending: seq<Pending>, at: real)
    ensures var m' := CommitEntries(site, m, client, pending, at);
            m' == m.(queues := m'.queues, leases := m'.leases, claims := m'.claims)
  {
    hide PublishTo, Granting, Without, Claiming, Live, Select;
    if pending != [] {
      CommitFrame(site, m, client, pending[..|pending| - 1], at);
    }
  }

  // ------------------------------------------------------------ a batch is answered

  /** A batch walks on from where a shorter one ends. */
  lemma {:induction false} WalkPrefix(cfg: Config, st: Store, w: map<string, string>, client: string, ops: seq<BatchOp>, k: nat)
    requires k <= |ops| && Walk(cfg, st, w, client, ops).WalkDone?
    ensures Walk(cfg, st, w, client, ops[..k]).WalkDone?
    ensures Walk(cfg, st, w, client, ops[..k]).pending <= Walk(cfg, st, w, client, ops).pending
  {
    if k == |ops| {
      assert ops[..k] == ops;
    } else {
      var n := |ops| - 1;
      assert ops[..n][..k] == ops[..k];
      hide ApplyOp, TargetOf, Work, Decide, Refusals;
      WalkPrefix(cfg, st, w, client, ops[..n], k);
    }
  }

  /** What a batch op is answered, once the batch has walked through: the applied op, or
      nothing for one that is dropped; a selection as asked; of a lease op the ids it was
      granted or gave back, and the holders of the rest, as the earlier ops left them. */
  ghost predicate Answered(cfg: Config, st: Store, w: map<string, string>, client: string, ops: seq<BatchOp>, k: nat,
                           before: Walked, p: Option<Pending>)
    requires k < |ops| && before.WalkDone?
  {
    match ops[k]
    case ChangeState(op, now, mint) =>
      (match ApplyOp(cfg, before.store, op, Env(now, client, mint, true))
       case Done(_, applied) => p == Some(PState(applied))
       case Dropped => p == None
       case Rejected(_) => false)
    case ClaimSelection(ids) => p == Some(PClaim(true, ids))
    case ReleaseSelection(ids) => p == Some(PClaim(false, ids))
    case AcquireLease(ids) =>
      && p.Some? && p.value.PAcquire? && FirstCome(p.value.ids, ids)
      && (forall e :: e in p.value.ids <==> e in ids && HolderBefore(w, client, ops[..k], e) in {None, Some(client)})
      && (forall e :: Lookup(p.value.denied, e) ==
                      if e in ids && HolderBefore(w, client, ops[..k], e) !in {None, Some(client)}
                      then HolderBefore(w, client, ops[..k], e) else None)
    case ReleaseLease(ids) =>
      && p.Some? && p.value.PRelease? && FirstCome(p.value.ids, ids)
      && forall e :: e in p.value.ids <==> e in ids && HolderBefore(w, client, ops[..k], e) == Some(client)
  }

  /** Who holds an id once these ops have been walked. */
  function HolderBefore(w: map<string, string>, client: string, done: seq<BatchOp>, e: string): Option<string> {
    HolderAfter(Lookup(w, e), client, LeaseChanges(done), e)
  }

  /** The entry for the k-th op comes right after those of the ops before it. */
  lemma BatchAnswers(cfg: Config, st: Store, w: map<string, string>, client: string, ops: seq<BatchOp>, k: nat)
    requires Walk(cfg, st, w, client, ops).WalkDone? && k < |ops|
    ensures Walk(cfg, st, w, client, ops[..k]).WalkDone?
    ensures var before, upTo, all := Walk(cfg, st, w, client, ops[..k]), Walk(cfg, st, w, client, ops[..k + 1]), Walk(cfg, st, w, client, ops);
            && upTo.WalkDone? && upTo.pending <= all.pending
            && (|| (upTo.pending == before.pending && Answered(cfg, st, w, client, ops, k, before, None))
                || (&& |upTo.pending| == |before.pending| + 1 && before.pending <= upTo.pending
                    && Answered(cfg, st, w, client, ops, k, before, Some(upTo.pending[|before.pending|]))))
  {
    WalkPrefix(cfg, st, w, client, ops, k);
    WalkPrefix(cfg, st, w, client, ops, k + 1);
    assert ops[..k + 1][..k] == ops[..k];
    var before := Walk(cfg, st, w, client, ops[..k]);
    hide ApplyOp, TargetOf, Work, Decide, Refusals, FirstCome, LeaseChanges, HolderAfter;
    assert Walk(cfg, st, w, client, ops[..k + 1]) == WalkOne(cfg, before.store, before.working, before.pending, client, ops[k]);
    if ops[k].AcquireLease? || ops[k].ReleaseLease? {
      WorkingIs(cfg, st, w, client, ops[..k]);
      AcquireLaw(before.working, client, ops[k].ids);
      ReleaseLaw(before.working, client, ops[k].ids);
      forall e ensures Lookup(before.working, e) == HolderBefore(w, client, ops[..k], e) {
        WorkAllIs(w, client, LeaseChanges(ops[..k]), e);
      }
      LeaseEntryAnswered(cfg, st, w, client, ops, k, before);
    }
  }

  lemma LeaseEntryAnswered(cfg: Config, st: Store, w: map<string, string>, client: string, ops: seq<BatchOp>, k: nat, before: Walked)
    requires k < |ops| && before.WalkDone? && (ops[k].AcquireLease? || ops[k].ReleaseLease?)
    requires forall e :: Lookup(before.working, e) == HolderBefore(w, client, ops[..k], e)
    ensures var r := WalkOne(cfg, before.store, before.working, before.pending, client, ops[k]);
            && r.WalkDone? && |r.pending| == |before.pending| + 1 && before.pending <= r.pending
            && Answered(cfg, st, w, client, ops, k, before, Some(r.pending[|before.pending|]))
  {
    EntryIs(before.working, client, ops[k].ids);
    hide ApplyOp, TargetOf, Work, Decide, Refusals, FirstCome, HolderBefore, Lookup;
  }

  lemma EntryIs(w: map<string, string>, client: string, ids: seq<string>)
    ensures FirstCome(Decide(w, client, Acquire(ids)), ids) && FirstCome(Decide(w, client, Release(ids)), ids)
    ensures forall e :: e in Decide(w, client, Acquire(ids)) <==> e in ids && Lookup(w, e) in {None, Some(client)}
    ensures forall e :: e in Decide(w, client, Release(ids)) <==> e in ids && Lookup(w, e) == Some(client)
    ensures forall e :: Lookup(Refusals(w, client, ids), e) ==
                        if e in ids && Lookup(w, e) !in {None, Some(client)} then Lookup(w, e) else None
  {
    AcquireLaw(w, client, ids);
    ReleaseLaw(w, client, ids);
    hide Decide, Refusals, FirstCome;
  }

  lemma {:induction false} WorkingIs(cfg: Config, st: Store, w: map<string, string>, client: string, ops: seq<BatchOp>)
    requires Walk(cfg, st, w, client, ops).WalkDone?
    ensures Walk(cfg, st, w, client, ops).working == WorkAll(w, client, LeaseChanges(ops))
  {
    hide ApplyOp, TargetOf, Work, Decide, Refusals;
    if ops != [] {
      WorkingIs(cfg, st, w, client, ops[..|ops| - 1]);
    }
  }

  /** After these ops, the next one stops the batch: somebody else holds the annotation it
      is aimed at, as the earlier ops left the leases; or the op itself is refused. */
  ghost predicate Stops(cfg: Config, st: Store, w: map<string, string>, client: string, done: seq<BatchOp>, op: BatchOp, e: WriteError) {
    var before := Walk(cfg, st, w, client, done);
    && before.WalkDone? && op.ChangeState?
    && var o, doc := ApplyOp(cfg, before.store, op.op, Env(op.now, client, op.mint, true)), before.store.session.doc;
       || (exists id :: LeasedAway(doc, op.op, HolderBefore(w, client, done, id), client, id)
                        && e == LeaseTaken(id, HolderBefore(w, client, done, id).value))
       || (o.Rejected? && e == OpFailed(o.error)
           && forall id :: !LeasedAway(doc, op.op, HolderBefore(w, client, done, id), client, id))
  }

  ghost predicate StopsAt(cfg: Config, st: Store, w: map<string, string>, client: string, ops: seq<BatchOp>, k: nat, e: WriteError)
    requires k < |ops|
  {
    Stops(cfg, st, w, client, ops[..k], ops[k], e)
  }

  /** The op names this existing annotation, and the holder of its lease is somebody else. */
  ghost predicate LeasedAway(doc: Doc, op: Op, holder: Option<string>, client: string, id: string) {
    && holder.Some? && holder.value != client && Names(op, id)
    && exists i :: 0 <= i < |doc.annotations| && doc.annotations[i].id == id
  }

  /** A batch fails in memory if and only if one of its ops stops it, with that op's error. */
  lemma {:induction false} WalkFailsIff(cfg: Config, st: Store, w: map<string, string>, client: string, ops: seq<BatchOp>)
    ensures var r := Walk(cfg, st, w, client, ops);
            && (r.WalkFailed? ==> exists k :: 0 <= k < |ops| && StopsAt(cfg, st, w, client, ops, k, r.error))
            && (r.WalkDone? ==> forall k, e :: 0 <= k < |ops| ==> !StopsAt(cfg, st, w, client, ops, k, e))
  {
    hide StopsAt;
    if ops != [] {
      var n := |ops| - 1;
      WalkFailsIff(cfg, st, w, client, ops[..n]);
      forall k, e | 0 <= k < n ensures StopsAt(cfg, st, w, client, ops, k, e) <==> StopsAt(cfg, st, w, client, ops[..n], k, e) {
        StopsEarlier(cfg, st, w, client, ops, k, e);
      }
      LastStops(cfg, st, w, client, ops);
    }
  }

  lemma StopsEarlier(cfg: Config, st: Store, w: map<string, string>, client: string, ops: seq<BatchOp>, k: nat, e: WriteError)
    requires k < |ops| - 1
    ensures StopsAt(cfg, st, w, client, ops, k, e) <==> StopsAt(cfg, st, w, client, ops[..|ops| - 1], k, e)
  {
    hide Stops;
    assert ops[..|ops| - 1][..k] == ops[..k] && ops[..|ops| - 1][k] == ops[k];
  }

  lemma LastStops(cfg: Config, st: Store, w: map<string, string>, client: string, ops: seq<BatchOp>)
    requires ops != []
    ensures var n, r := |ops| - 1, Walk(cfg, st, w, client, ops);
            if Walk(cfg, st, w, client, ops[..n]).WalkFailed? then r.WalkFailed? && r.error == Walk(cfg, st, w, client, ops[..n]).error
            else if r.WalkFailed? then StopsAt(cfg, st, w, client, ops, n, r.error)
            else forall e :: !StopsAt(cfg, st, w, client, ops, n, e)
    ensures var n := |ops| - 1;
            Walk(cfg, st, w, client, ops[..n]).WalkFailed? ==> forall e :: !StopsAt(cfg, st, w, client, ops, n, e)
  {
    var n := |ops| - 1;
    var before := Walk(cfg, st, w, client, ops[..n]);
    hide ApplyOp, TargetOf, Work, Decide, Refusals, Names, LeaseChanges, HolderAfter;
    if before.WalkDone? && ops[n].ChangeState? {
      var doc, op := before.store.session.doc, ops[n].op;
      WorkingIs(cfg, st, w, client, ops[..n]);
      forall id ensures Lookup(before.working, id) == HolderBefore(w, client, ops[..n], id) {
        WorkAllIs(w, client, LeaseChanges(ops[..n]), id);
      }
      forall id ensures LeasedAway(doc, op, HolderBefore(w, client, ops[..n], id), client, id) <==>
                        TargetOf(op, doc) == Some(id) && id in before.working && before.working[id] != client {
        TargetIs(op, doc, id);
        assert id in before.working <==> Lookup(before.working, id).Some?;
      }
      hide LeasedAway, HolderBefore;
    }
  }

  /** How a batch is answered up to its save. */
  lemma BeginAnswers(site: Site, m: Mgr, client: string, ops: seq<BatchOp>, within: bool, at: real)
    requires m.store.Some?
    ensures var (m', r) := BeginBatch(site, m, client, ops, within, at);
            var walked := Walk(site.cfg, m.store.value, Holders(m.leases, at), client, ops);
            && (walked.WalkFailed? ==> r == Failed(walked.error))
            && (walked.WalkDone? && (forall p :: p in walked.pending ==> !p.PState?) ==> r == Wrote(walked.pending) && m'.flight == m.flight)
            && (walked.WalkDone? && (exists p :: p in walked.pending && p.PState?) ==>
                  if within then r == Suspended && m'.flight.Some? && m'.flight.value.client == client
                                 && m'.flight.value.pending == walked.pending && !m'.flight.value.saved
                                 && m'.store == Some(walked.store) && m'.flight.value.snapshot == walked.store.session
                  else r == Failed(OverBudget) && m'.flight == m.flight)
            && (!r.Wrote? ==> m'.queues == m.queues && m'.claims == m.claims)
            && m'.disk == m.disk && m'.room == m.room
  {
    var walked := Walk(site.cfg, m.store.value, Holders(m.leases, at), client, ops);
    if walked.WalkDone? {
      StatesAmong(walked.pending);
      CommitFrame(site, m.(leases := Live(m.leases, at)), client, walked.pending, at);
    }
    hide Walk, StatesOf, CommitEntries, Live, Holders;
  }

  lemma {:induction false} StatesAmong(pending: seq<Pending>)
    ensures StatesOf(pending) != [] <==> exists p :: p in pending && p.PState?
  {
    if pending != [] {
      StatesAmong(pending[..|pending| - 1]);
      assert forall p :: p in pending <==> p in pending[..|pending| - 1] || p == pending[|pending| - 1];
    }
  }

  // ---------------------------------------------------------- synchronous writers

  /** Somebody else than the checker has a live lease on the annotation the op is aimed at. */
  ghost predicate Blocks(m: Mgr, op: Op, checker: string, at: real, id: string, holder: string) {
    && m.store.Some? && holder != checker
    && id in m.leases && m.leases[id].expires > at && m.leases[id].client == holder
    && Names(op, id) && exists i :: 0 <= i < |m.store.value.session.doc.annotations| && m.store.value.session.doc.annotations[i].id == id
  }

  lemma BlocksIff(m: Mgr, op: Op, checker: string, at: real)
    requires m.store.Some?
    ensures var target, holders := TargetOf(op, m.store.value.session.doc), Holders(m.leases, at);
            forall id, h :: Blocks(m, op, checker, at, id, h) <==>
              target == Some(id) && id in holders && holders[id] == h && h != checker
  {
    hide TargetOf, Names;
    forall id ensures TargetOf(op, m.store.value.session.doc) == Some(id) <==>
                      Names(op, id) && exists i :: 0 <= i < |m.store.value.session.doc.annotations| && m.store.value.session.doc.annotations[i].id == id
    {
      TargetIs(op, m.store.value.session.doc, id);
    }
  }

  /** The writer got in, and this is what came of the op. */
  ghost predicate WriteEnds(site: Site, m: Mgr, op: Op, env: Env, saves: bool, m': Mgr, r: Reply)
    requires m.store.Some?
  {
    match ApplyOp(site.cfg, m.store.value, op, env)
    case Rejected(e) => r == Failed(OpFailed(e)) && m'.store == m.store && m'.disk == m.disk && m'.queues == m.queues
    case Dropped => r == Nothing && m'.store == m.store && m'.disk == m.disk && m'.queues == m.queues
    case Done(st, applied) =>
      if saves then
        && r == Wrote([PState(applied)]) && m'.store == Some(st) && m'.disk == Some(st.session)
        && AllHear(m.queues, m'.queues, [StateOp(env.client, applied)], site.queueMax)
      else
        && r == Failed(SaveError) && m'.disk == m.disk && m'.queues == m.queues
        && m'.store == Some(m.store.value.(deleted := st.deleted))
  }

  /** How a synchronous writer is answered, and what it tells: busy while the lock is held,
      not found when the session is gone, the holder's name when a lease is in the way;
      otherwise the op's own outcome, saved and told, or put back. */
  lemma SyncAnswers(site: Site, m: Mgr, checker: string, op: Op, env: Env, at: real, saves: bool)
    ensures var (m', r) := SyncWrite(site, m, checker, op, env, at, saves);
            && (m.flight.Some? ==> r == Failed(Busy) && m' == m)
            && (m.flight.None? && m.store.None? ==> r == Failed(NoSession) && m' == m)
            && (Idle(m) ==> forall id, h :: Blocks(m, op, checker, at, id, h) ==>
                  r == Failed(LeaseTaken(id, h)) && m' == m.(leases := m'.leases))
            && (Idle(m) && (forall id, h :: !Blocks(m, op, checker, at, id, h)) ==> WriteEnds(site, m, op, env, saves, m', r))
            && m' == m.(store := m'.store, disk := m'.disk, leases := m'.leases, queues := m'.queues)
  {
    if Idle(m) {
      BlocksIff(m, op, checker, at);
      var target, holders := TargetOf(op, m.store.value.session.doc), Holders(m.leases, at);
      hide SyncWrite, WriteEnds, Blocks, TargetOf, Holders;
      if target.Some? && target.value in holders && holders[target.value] != checker {
        assert Blocks(m, op, checker, at, target.value, holders[target.value]);
        BlockedAnswer(site, m, checker, op, env, at, saves);
      } else {
        FreeAnswer(site, m, checker, op, env, at, saves);
      }
    }
  }

  lemma BlockedAnswer(site: Site, m: Mgr, checker: string, op: Op, env: Env, at: real, saves: bool)
    requires Idle(m)
    requires var target, holders := TargetOf(op, m.store.value.session.doc), Holders(m.leases, at);
             target.Some? && target.value in holders && holders[target.value] != checker
    ensures var (m', r) := SyncWrite(site, m, checker, op, env, at, saves);
            var target, holders := TargetOf(op, m.store.value.session.doc), Holders(m.leases, at);
            r == Failed(LeaseTaken(target.value, holders[target.value])) && m' == m.(leases := m'.leases)
  {
    hide ApplyOp, TargetOf, Live, Holders, PublishTo;
  }

  lemma CheckedIs(m: Mgr, op: Op, at: real)
    ensures Checked(m, op, at) == m.(leases := Checked(m, op, at).leases)
  {
  }

  lemma FreeAnswer(site: Site, m: Mgr, checker: string, op: Op, env: Env, at: real, saves: bool)
    requires Idle(m)
    requires var target, holders := TargetOf(op, m.store.value.session.doc), Holders(m.leases, at);
             !(target.Some? && target.value in holders && holders[target.value] != checker)
    ensures var (m', r) := SyncWrite(site, m, checker, op, env, at, saves);
            && WriteEnds(site, m, op, env, saves, m', r)
            && m' == m.(store := m'.store, disk := m'.disk, leases := m'.leases, queues := m'.queues)
  {
    CheckedIs(m, op, at);
    hide ApplyOp, TargetOf, Live, Holders, PublishTo, AllHear, Checked, Held;
    var o := ApplyOp(site.cfg, m.store.value, op, env);
    if o.Done? {
      PublishHeard(m.queues, StateOp(env.client, o.applied), site.queueMax);
    }
  }

  /** How an undo is answered: busy, not found, nothing to undo; refused when the target has
      moved on since, or is leased to somebody else; otherwise the replay is told to all,
      under a client id of its own. */
  lemma UndoAnswers(site: Site, m: Mgr, client: string, env: Env, at: real, saves: bool, marks: bool)
    ensures var (m', r) := UndoAction(site, m, client, env, at, saves, marks);
            && (m.flight.Some? ==> r == Failed(Busy) && m' == m)
            && (m.flight.None? && m.store.None? ==> r == Failed(NoSession) && m' == m)
            && (Idle(m) ==>
                  match UndoLast(site.cfg, m.store.value, client, Holders(m.leases, at), env)
                  case NothingToUndo => r == Failed(NothingUndoable) && m' == m
                  case Conflicted => r == Failed(UndoRefused) && m' == m
                  case LeaseHeld(id) => r.Failed? && r.error.LeaseTaken? && r.error.id == id && m' == m.(leases := m'.leases)
                  case Refused(e, left) => r == Failed(OpFailed(e)) && m'.disk == m.disk && m'.queues == m.queues
                  case CannotRevert(left) => r == Failed(UndoRefused) && m'.disk == m.disk && m'.queues == m.queues
                  case Undone(st, applied, _) =>
                    if !saves then r == Failed(SaveError) && m'.disk == m.disk && m'.queues == m.queues
                    else
                      && r == (if marks then Wrote([PState(applied)]) else Failed(SaveError))
                      && m'.store == Some(st)
                      && AllHear(m.queues, m'.queues, [StateOp("undo-replay", applied)], site.queueMax))
            && m' == m.(store := m'.store, disk := m'.disk, leases := m'.leases, queues := m'.queues)
  {
    forall applied: Applied ensures AllHear(m.queues, PublishTo(m.queues, StateOp(REPLAY_CLIENT, applied), site.queueMax),
                                            [StateOp(REPLAY_CLIENT, applied)], site.queueMax)
    {
      PublishHeard(m.queues, StateOp(REPLAY_CLIENT, applied), site.queueMax);
    }
    hide UndoLast, ApplyOp, TargetOf, Live, Holders, PublishTo, AllHear, LatestUndoable;
  }

  // ------------------------------------------------------- coming, going, deleting

  /** A new subscriber's line starts empty, and everybody, it included, is told who joined. */
  lemma ConnectTells(site: Site, m: Mgr, client: string, name: Option<string>, guest: string)
    ensures var m' := Connect(site, m, client, name, guest);
            && client in m'.room.roster
            && AllHear(m.queues[m.nextSub := []], m'.queues, [PresenceJoined(m'.room.roster[client])], site.queueMax)
            && m' == m.(room := m'.room, queues := m'.queues, nextSub := m.nextSub + 1)
  {
    hide PublishTo, AllHear;
    JoinIs(m.room, client, name, guest);
    PublishHeard(m.queues[m.nextSub := []], PresenceJoined(Join(m.room, client, name, guest).roster[client]), site.queueMax);
  }

  /** A close drops the line. If it was the client's last, the others are told what claims
      and what leases are free again, if any were held, and then that the client has left. */
  lemma DisconnectTells(site: Site, m: Mgr, client: string, sub: nat) returns (events: seq<Event>)
    ensures var m' := Disconnect(site, m, client, sub);
            && AllHear(m.queues - {sub}, m'.queues, events, site.queueMax)
            && (Leave(m.room, client).1.None? ==> events == [])
            && (Leave(m.room, client).1.Some? ==>
                  && events != [] && events[|events| - 1] == PresenceLeft(client)
                  && (forall e :: e in events[..|events| - 1] ==>
                        && e.AllReleased? && e.client == client && e.freed != {}
                        && forall x :: x in e.freed <==>
                             if e.leases then x in m.leases && m.leases[x].client == client
                             else x in m.claims && m.claims[x].client == client)
                  && (|events| == 3 ==> !events[0].leases && events[1].leases)
                  && |events| == 1 + (if exists x :: x in m.claims && m.claims[x].client == client then 1 else 0)
                                 + (if exists x :: x in m.leases && m.leases[x].client == client then 1 else 0))
  {
    hide PublishTo, AllHear, Leave;
    var max, q := site.queueMax, m.queues - {sub};
    NobodyHears(q, max);
    events := [];
    if Leave(m.room, client).1.Some? {
      var claims, leases := Freed(m.claims, client), Freed(m.leases, client);
      FreedIs(m.claims, client);
      FreedIs(m.leases, client);
      hide Freed;
      var c, l := AllReleased(client, false, claims), AllReleased(client, true, leases);
      var q1 := PublishSome(site, q, c, claims != {});
      if claims != {} {
        PublishHeard(q, c, max);
        events := [c];
      }
      var q2 := PublishSome(site, q1, l, leases != {});
      if leases != {} {
        PublishHeard(q1, l, max);
        AllHearThen(q, q1, q2, events, [l], max);
        events := events + [l];
      }
      PublishHeard(q2, PresenceLeft(client), max);
      AllHearThen(q, q2, PublishTo(q2, PresenceLeft(client), max), events, [PresenceLeft(client)], max);
      var before := events;
      events := before + [PresenceLeft(client)];
      assert events[..|events| - 1] == before;
    }
  }

  lemma FreedIs(h: Holds, client: string)
    ensures forall x :: x in Freed(h, client) <==> x in h && h[x].client == client
    ensures Freed(h, client) != {} <==> exists x :: x in h && h[x].client == client
  {
    if x :| x in h && h[x].client == client {
      assert x in Freed(h, client);
    }
  }

  /** A delete says whether there was a session, and if so tells everybody. */
  lemma RemoveTells(site: Site, m: Mgr)
    ensures var (m', r) := Remove(site, m);
            && r == Removed(m.store.Some? || m.disk.Some?) && m'.store.None? && m'.disk.None?
            && (r.existed ==> AllHear(m.queues, m'.queues, [SessionDeleted], site.queueMax))
            && (!r.existed ==> m'.queues == m.queues)
            && m' == m.(store := None, disk := None, queues := m'.queues)
  {
    hide PublishTo, AllHear;
    PublishHeard(m.queues, SessionDeleted, site.queueMax);
  }

  // ------------------------------------------------------------------- catching up

  /** What a catch-up hands out: nothing when the session is gone; the ops after the
      client's seq, none missing, when the ring still has them all; and otherwise, or for a
      newcomer, the whole session as it is. */
  lemma CatchUpIs(site: Site, m: Mgr, since: Option<nat>)
    requires m.store.Some? ==> StoreOk(site.cfg, m.store.value)
    ensures var p := CatchUp(m, if since.Some? then Some(since.value) else None);
            if m.store.None? then p == NotThere
            else
              var s, ring := m.store.value.session, m.store.value.ring;
              if since.Some? && since.value >= s.seqNo then p == Missed(s.seqNo, [])
              else if since.Some? && ring != [] && ring[0].seqNo <= since.value + 1 then
                && p.Missed? && p.seqNo == s.seqNo && |p.ops| == s.seqNo - since.value
                && forall i :: 0 <= i < |p.ops| ==> p.ops[i] in ring && p.ops[i].seqNo == since.value + 1 + i
              else p == Whole(s)
  {
    if m.store.Some? && since.Some? {
      OpsSinceExact(site.cfg, m.store.value, since.value);
    }
  }
}
