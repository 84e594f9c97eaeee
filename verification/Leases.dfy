/**
 Edit leases and selection claims: maps from an element to its holder with a
 time to live, the objects that keep them, and the proof that the lease walk a
 batch simulates before it saves is what its commit does to the real map.
 Clock readings are parameters.
 */
module Leases {
  import opened Values
  import opened Lists

  datatype Hold = Hold(client: string, expires: real)

  type Holds = map<string, Hold>

  /** What pruning leaves: the entries that have not expired. */
  function Live(h: Holds, now: real): Holds {
    map e | e in h && h[e].expires > now :: h[e]
  }

  /** The snapshot callers see: element to holder, live entries only. */
  function Holders(h: Holds, now: real): map<string, string> {
    map e | e in h && h[e].expires > now :: h[e].client
  }

  /** Nobody else holds the element. */
  predicate FreeFor(h: Holds, client: string, e: string) {
    e !in h || h[e].client == client
  }

  function Open(h: Holds, client: string): string -> bool {
    e => FreeFor(h, client, e)
  }

  function Granting(h: Holds, client: string, ids: seq<string>, expires: real): Holds {
    h + map e | e in ids && FreeFor(h, client, e) :: Hold(client, expires)
  }

  function Denials(h: Holds, client: string, ids: seq<string>): map<string, string> {
    map e | e in ids && !FreeFor(h, client, e) :: h[e].client
  }

  function Without(h: Holds, client: string, ids: seq<string>): Holds {
    map e | e in h && !(e in ids && h[e].client == client) :: h[e]
  }

  function WithoutClient(h: Holds, client: string): Holds {
    map e | e in h && h[e].client != client :: h[e]
  }

  lemma GrantingStep(h: Holds, client: string, ids: seq<string>, e: string, expires: real)
    ensures Granting(h, client, ids + [e], expires) ==
            if FreeFor(h, client, e) then Granting(h, client, ids, expires)[e := Hold(client, expires)]
            else Granting(h, client, ids, expires)
  {
    var g, g' := Granting(h, client, ids, expires), Granting(h, client, ids + [e], expires);
    assert forall x :: x in ids + [e] <==> x in ids || x == e;
    if FreeFor(h, client, e) {
      assert g' == g[e := Hold(client, expires)];
    } else {
      assert g' == g;
    }
  }

  lemma DenialsStep(h: Holds, client: string, ids: seq<string>, e: string)
    ensures Denials(h, client, ids + [e]) ==
            if FreeFor(h, client, e) then Denials(h, client, ids) else Denials(h, client, ids)[e := h[e].client]
  {
    assert forall x :: x in ids + [e] <==> x in ids || x == e;
  }

  lemma NothingAsked(h: Holds, client: string, expires: real)
    ensures Granting(h, client, [], expires) == h && Denials(h, client, []) == map[]
  {
  }

  lemma TakenIsNotFree(h: Holds, client: string, ids: seq<string>, e: string, expires: real)
    ensures var g := Granting(h, client, ids, expires);
            && (e in g && g[e].client != client <==> !FreeFor(h, client, e))
            && (!FreeFor(h, client, e) ==> g[e].client == h[e].client)
  {
  }

  /** First-editor-wins leases. */
  class LeaseMap {
    const ttl: real
    var leases: Holds

    constructor (ttl: real)
      ensures this.ttl == ttl && leases == map[]
    {
      this.ttl := ttl;
      leases := map[];
    }

    method Prune(now: real)
      modifies this
      ensures leases == Live(old(leases), now)
    {
      leases := Live(leases, now);
    }

    method Snapshot(now: real) returns (holders: map<string, string>)
      modifies this
      ensures leases == Live(old(leases), now)
      ensures holders == Holders(old(leases), now)
    {
      Prune(now);
      holders := map e | e in leases :: leases[e].client;
    }

    /** Acquires or renews what nobody else holds and reports the holders of the rest. */
    method Acquire(client: string, ids: seq<string>, now: real)
      returns (granted: seq<string>, denied: map<string, string>)
      modifies this
      ensures leases == Granting(Live(old(leases), now), client, ids, now + ttl)
      ensures granted == Select(ids, Open(Live(old(leases), now), client))
      ensures denied == Denials(Live(old(leases), now), client, ids)
    {
      hide Granting, Denials, Live;
      Prune(now);
      ghost var before := leases;
      granted, denied := [], map[];
      NothingAsked(before, client, now + ttl);
      for i := 0 to |ids|
        invariant leases == Granting(before, client, ids[..i], now + ttl)
        invariant granted == Select(ids[..i], Open(before, client))
        invariant denied == Denials(before, client, ids[..i])
      {
        GrantingStep(before, client, ids[..i], ids[i], now + ttl);
        DenialsStep(before, client, ids[..i], ids[i]);
        TakenIsNotFree(before, client, ids[..i], ids[i], now + ttl);
        SelectAppend(ids[..i], [ids[i]], Open(before, client));
        assert ids[..i + 1] == ids[..i] + [ids[i]];
        if ids[i] in leases && leases[ids[i]].client != client {
          denied := denied[ids[i] := leases[ids[i]].client];
        } else {
          leases := leases[ids[i] := Hold(client, now + ttl)];
          granted := granted + [ids[i]];
        }
      }
      assert ids[..|ids|] == ids;
    }

    method Release(client: string, ids: seq<string>, now: real) returns (released: seq<string>)
      modifies this
      ensures leases == Without(Live(old(leases), now), client, ids)
      ensures NoDup(released)
      ensures forall e :: e in released <==>
        e in ids && e in Live(old(leases), now) && Live(old(leases), now)[e].client == client
    {
      Prune(now);
      ghost var before := leases;
      released := [];
      for i := 0 to |ids|
        invariant leases == Without(before, client, ids[..i])
        invariant NoDup(released)
        invariant forall e :: e in released <==> e in ids[..i] && e in before && before[e].client == client
      {
        assert ids[..i + 1] == ids[..i] + [ids[i]];
        if ids[i] in leases && leases[ids[i]].client == client {
          leases := leases - {ids[i]};
          released := released + [ids[i]];
        }
      }
      assert ids[..|ids|] == ids;
    }

    method ReleaseAll(client: string) returns (released: set<string>)
      modifies this
      ensures leases == WithoutClient(old(leases), client)
      ensures released == set e | e in old(leases) && old(leases)[e].client == client
    {
      released := set e | e in leases && leases[e].client == client;
      leases := leases - released;
    }
  }

  /** Advisory claims: the last selector wins. */
  class ClaimMap {
    const ttl: real
    var claims: Holds

    constructor (ttl: real)
      ensures this.ttl == ttl && claims == map[]
    {
      this.ttl := ttl;
      claims := map[];
    }

    method Snapshot(now: real) returns (holders: map<string, string>)
      modifies this
      ensures claims == Live(old(claims), now)
      ensures holders == Holders(old(claims), now)
    {
      claims := Live(claims, now);
      holders := map e | e in claims :: claims[e].client;
    }

    method Claim(client: string, ids: seq<string>, now: real)
      modifies this
      ensures claims == Claiming(Live(old(claims), now), client, ids, now + ttl)
    {
      hide Live, Claiming;
      claims := Live(claims, now);
      ghost var before := claims;
      NothingClaimed(before, client, now + ttl);
      for i := 0 to |ids|
        invariant claims == Claiming(before, client, ids[..i], now + ttl)
      {
        assert ids[..i + 1] == ids[..i] + [ids[i]];
        ClaimingStep(before, client, ids[..i], ids[i], now + ttl);
        claims := claims[ids[i] := Hold(client, now + ttl)];
      }
      assert ids[..|ids|] == ids;
    }

    method Release(client: string, ids: seq<string>, now: real) returns (released: seq<string>)
      modifies this
      ensures claims == Without(Live(old(claims), now), client, ids)
      ensures released == Select(Distinct(ids), HeldBy(Live(old(claims), now), client))
    {
      hide Select, Distinct;
      claims := Live(claims, now);
      ghost var before := claims;
      released := [];
      NothingHeldOf(before, client);
      for i := 0 to |ids|
        invariant claims == Without(before, client, ids[..i])
        invariant released == Select(Distinct(ids[..i]), HeldBy(before, client))
      {
        HeldStep(before, client, ids, i);
        if ids[i] in claims && claims[ids[i]].client == client {
          claims := claims - {ids[i]};
          released := released + [ids[i]];
        }
      }
      assert ids[..|ids|] == ids;
    }

    method ReleaseAll(client: string) returns (released: set<string>)
      modifies this
      ensures claims == WithoutClient(old(claims), client)
      ensures released == set e | e in old(claims) && old(claims)[e].client == client
    {
      released := set e | e in claims && claims[e].client == client;
      claims := claims - released;
    }
  }

  function Claiming(h: Holds, client: string, ids: seq<string>, expires: real): Holds {
    h + map e | e in ids :: Hold(client, expires)
  }

  lemma NothingClaimed(h: Holds, client: string, expires: real)
    ensures Claiming(h, client, [], expires) == h
  {
  }

  lemma ClaimingStep(h: Holds, client: string, ids: seq<string>, e: string, expires: real)
    ensures Claiming(h, client, ids + [e], expires) == Claiming(h, client, ids, expires)[e := Hold(client, expires)]
  {
    assert forall x :: x in ids + [e] <==> x in ids || x == e;
  }

  function HeldBy(h: Holds, client: string): string -> bool {
    e => e in h && h[e].client == client
  }

  lemma NothingHeldOf(h: Holds, client: string)
    ensures Select(Distinct([]), HeldBy(h, client)) == []
  {
  }

  lemma HeldStep(h: Holds, client: string, ids: seq<string>, i: nat)
    requires i < |ids|
    ensures Select(Distinct(ids[..i + 1]), HeldBy(h, client)) ==
            Select(Distinct(ids[..i]), HeldBy(h, client))
            + if ids[i] !in ids[..i] && ids[i] in h && h[ids[i]].client == client then [ids[i]] else []
  {
    assert ids[..i + 1][..i] == ids[..i];
    SelectPush(Distinct(ids[..i]), ids[i], HeldBy(h, client));
  }

  /** `dict.fromkeys(ids)`: each id once, where it first occurs. */
  function Distinct(ids: seq<string>): seq<string> {
    if ids == [] then []
    else
      var n := |ids| - 1;
      if ids[n] in ids[..n] then Distinct(ids[..n]) else Distinct(ids[..n]) + [ids[n]]
  }

  lemma {:induction false} DistinctFacts(ids: seq<string>)
    ensures NoDup(Distinct(ids))
    ensures forall e :: e in Distinct(ids) <==> e in ids
  {
    if ids != [] {
      var n := |ids| - 1;
      DistinctFacts(ids[..n]);
      assert ids == ids[..n] + [ids[n]];
    }
  }

  /** Somebody else holds the id at this time. */
  predicate Taken(h: Holds, client: string, e: string, now: real) {
    e in h && h[e].expires > now && h[e].client != client
  }

  /** The lease calls, id by id: an expired lease counts for nothing; an acquire takes or
      renews what is not taken and names the holder of what is; a release, and a
      departure, end what the client holds. */
  lemma LeaseCallsAre(h: Holds, client: string, ids: seq<string>, now: real, ttl: real)
    ensures forall e :: Lookup(Holders(h, now), e) == if e in h && h[e].expires > now then Some(h[e].client) else None
    ensures forall e :: Lookup(Granting(Live(h, now), client, ids, now + ttl), e) ==
                        if e in ids && !Taken(h, client, e, now) then Some(Hold(client, now + ttl))
                        else if e in h && h[e].expires > now then Some(h[e]) else None
    ensures forall e :: e in Select(ids, Open(Live(h, now), client)) <==> e in ids && !Taken(h, client, e, now)
    ensures forall e :: Lookup(Denials(Live(h, now), client, ids), e) ==
                        if e in ids && Taken(h, client, e, now) then Some(h[e].client) else None
    ensures forall e :: Lookup(Without(Live(h, now), client, ids), e) ==
                        if e in h && h[e].expires > now && (e in ids ==> h[e].client != client) then Some(h[e]) else None
    ensures forall e :: Lookup(WithoutClient(h, client), e) == if e in h && h[e].client != client then Some(h[e]) else None
  {
    SelectFacts(ids, Open(Live(h, now), client));
  }

  /** A claim goes to the last selector, whoever had it, and lasts its time to live. */
  lemma ClaimCallsAre(h: Holds, client: string, ids: seq<string>, now: real, ttl: real)
    ensures forall e :: Lookup(Claiming(Live(h, now), client, ids, now + ttl), e) ==
                        if e in ids then Some(Hold(client, now + ttl))
                        else if e in h && h[e].expires > now then Some(h[e]) else None
    ensures FirstCome(Select(Distinct(ids), HeldBy(Live(h, now), client)), ids)
    ensures forall e :: e in Select(Distinct(ids), HeldBy(Live(h, now), client)) <==>
                        e in ids && e in h && h[e].expires > now && h[e].client == client
  {
    DistinctInOrder(ids);
    DistinctFacts(ids);
    SelectFirstCome(Distinct(ids), ids, HeldBy(Live(h, now), client));
    SelectFacts(Distinct(ids), HeldBy(Live(h, now), client));
  }

  /** No call by one client displaces another client's live lease or its expiry. */
  lemma AcquireNeverDisplaces(h: Holds, client: string, ids: seq<string>, now: real, ttl: real, e: string)
    requires e in Live(h, now) && h[e].client != client
    ensures var h' := Granting(Live(h, now), client, ids, now + ttl); e in h' && h'[e] == h[e]
    ensures var h' := Without(Live(h, now), client, ids); e in h' && h'[e] == h[e]
    ensures e in WithoutClient(h, client) && WithoutClient(h, client)[e] == h[e]
  {
  }

  // ------------------------------------------------------------ the simulation

  datatype LeaseChange = Acquire(ids: seq<string>) | Release(ids: seq<string>)

  function OpenIn(w: map<string, string>, client: string): string -> bool {
    e => e !in w || w[e] == client
  }

  function HeldIn(w: map<string, string>, client: string): string -> bool {
    e => e in w && w[e] == client
  }

  /** Who holds what this client asked for and may not have. */
  function Refusals(w: map<string, string>, client: string, ids: seq<string>): map<string, string> {
    map e | e in ids && e in w && w[e] != client :: w[e]
  }

  /** What a batch decides for one lease op, on its working copy of the snapshot. */
  function Decide(w: map<string, string>, client: string, op: LeaseChange): seq<string> {
    match op
    case Acquire(ids) => Select(Distinct(ids), OpenIn(w, client))
    case Release(ids) => Select(Distinct(ids), HeldIn(w, client))
  }

  /** The working copy after that decision. */
  function Work(w: map<string, string>, client: string, op: LeaseChange): map<string, string> {
    var decided := Decide(w, client, op);
    match op
    case Acquire(_) => w + map e | e in decided :: client
    case Release(_) => map e | e in w && e !in decided :: w[e]
  }

  function WorkAll(w: map<string, string>, client: string, ops: seq<LeaseChange>): map<string, string> {
    if ops == [] then w
    else Work(WorkAll(w, client, ops[..|ops| - 1]), client, ops[|ops| - 1])
  }

  lemma {:induction false} DistinctInOrder(ids: seq<string>)
    ensures FirstCome(Distinct(ids), ids)
  {
    DistinctFacts(ids);
    if ids != [] {
      var n := |ids| - 1;
      var rest := Distinct(ids[..n]);
      DistinctInOrder(ids[..n]);
      DistinctFacts(ids[..n]);
      var found := Distinct(ids);
      forall i, j | 0 <= i < j < |found| ensures Before(found[i], found[j], ids) {
        if j < |rest| {
          assert Before(rest[i], rest[j], ids[..n]);
          var k :| 0 <= k < n && ids[..n][k] == rest[i] && rest[j] !in ids[..n][..k + 1];
          assert ids[..n][..k + 1] == ids[..k + 1];
        } else {
          assert rest[i] in rest;
          var k :| 0 <= k < n && ids[..n][k] == rest[i];
          assert ids[..k + 1] <= ids[..n];
        }
      }
    }
  }

  lemma SelectFirstCome(all: seq<string>, ids: seq<string>, keep: string -> bool)
    requires FirstCome(all, ids)
    ensures FirstCome(Select(all, keep), ids)
  {
    SelectFacts(all, keep);
    var found := Select(all, keep);
    var at := SelectIndices(all, keep);
    forall i, j | 0 <= i < j < |found| ensures Before(found[i], found[j], ids) {
      assert all[at[i]] == found[i] && all[at[j]] == found[j] && at[i] < at[j];
      assert Before(all[at[i]], all[at[j]], ids);
    }
  }

  /** An acquire is granted what nobody else holds, once each; the working copy gains
      exactly that; and the answer names the holder of everything else. */
  lemma AcquireLaw(w: map<string, string>, client: string, ids: seq<string>)
    ensures var granted := Decide(w, client, Acquire(ids));
            && FirstCome(granted, ids)
            && (forall e :: e in granted <==> e in ids && (e in w ==> w[e] == client))
            && (forall e :: Lookup(Work(w, client, Acquire(ids)), e) == if e in granted then Some(client) else Lookup(w, e))
            && (forall e :: Lookup(Refusals(w, client, ids), e) ==
                            if e in ids && e in w && w[e] != client then Some(w[e]) else None)
  {
    DistinctInOrder(ids);
    DistinctFacts(ids);
    SelectFirstCome(Distinct(ids), ids, OpenIn(w, client));
    SelectFacts(Distinct(ids), OpenIn(w, client));
  }

  /** A release gives back what the client holds, once each, and nothing else. */
  lemma ReleaseLaw(w: map<string, string>, client: string, ids: seq<string>)
    ensures var released := Decide(w, client, Release(ids));
            && FirstCome(released, ids)
            && (forall e :: e in released <==> e in ids && e in w && w[e] == client)
            && (forall e :: Lookup(Work(w, client, Release(ids)), e) == if e in released then None else Lookup(w, e))
  {
    DistinctInOrder(ids);
    DistinctFacts(ids);
    SelectFirstCome(Distinct(ids), ids, HeldIn(w, client));
    SelectFacts(Distinct(ids), HeldIn(w, client));
  }

  /** Who holds an id after this client's ops, taken one by one: an acquire takes what is
      free, a release frees what the client holds. */
  function HolderAfter(was: Option<string>, client: string, ops: seq<LeaseChange>, e: string): Option<string> {
    if ops == [] then was
    else
      var op, before := ops[|ops| - 1], HolderAfter(was, client, ops[..|ops| - 1], e);
      if e !in op.ids then before
      else if op.Acquire? && before.None? then Some(client)
      else if op.Release? && before == Some(client) then None
      else before
  }

  lemma {:induction false} WorkAllIs(w: map<string, string>, client: string, ops: seq<LeaseChange>, e: string)
    ensures Lookup(WorkAll(w, client, ops), e) == HolderAfter(Lookup(w, e), client, ops, e)
  {
    hide Work;
    if ops != [] {
      var n := |ops| - 1;
      WorkAllIs(w, client, ops[..n], e);
      AcquireLaw(WorkAll(w, client, ops[..n]), client, ops[n].ids);
      ReleaseLaw(WorkAll(w, client, ops[..n]), client, ops[n].ids);
    }
  }

  predicate Mentioned(ops: seq<LeaseChange>, e: string) {
    exists k :: 0 <= k < |ops| && e in ops[k].ids
  }

  /** An id that nobody else holds, and that the ops speak of, is settled by them; or it
      is free at the end. */
  lemma {:induction false} SettledOrFree(w: map<string, string>, client: string, ops: seq<LeaseChange>, e: string)
    requires (e in w ==> w[e] == client) && Mentioned(ops, e)
    ensures e in Settled(w, client, ops) || HolderAfter(Lookup(w, e), client, ops, e).None?
  {
    hide Work, Decide;
    var n := |ops| - 1;
    var w' := WorkAll(w, client, ops[..n]);
    WorkAllIs(w, client, ops[..n], e);
    OwnOrFree(Lookup(w, e), client, ops[..n], e);
    AcquireLaw(w', client, ops[n].ids);
    ReleaseLaw(w', client, ops[n].ids);
    if e !in ops[n].ids {
      var k :| 0 <= k < |ops| && e in ops[k].ids;
      assert ops[..n][k] == ops[k];
      SettledOrFree(w, client, ops[..n], e);
    }
  }

  lemma {:induction false} OwnOrFree(was: Option<string>, client: string, ops: seq<LeaseChange>, e: string)
    requires was.Some? ==> was.value == client
    ensures HolderAfter(was, client, ops, e).Some? ==> HolderAfter(was, client, ops, e).value == client
  {
    if ops != [] {
      OwnOrFree(was, client, ops[..|ops| - 1], e);
    }
  }

  /** The same op at commit: the decided ids, on the real map. */
  function Commit(h: Holds, w: map<string, string>, client: string, op: LeaseChange, now: real, ttl: real): Holds {
    var decided := Decide(w, client, op);
    if decided == [] then h
    else if op.Acquire? then Granting(Live(h, now), client, decided, now + ttl)
    else Without(Live(h, now), client, decided)
  }

  function CommitAll(h: Holds, w: map<string, string>, client: string, ops: seq<LeaseChange>, now: real, ttl: real): Holds {
    if ops == [] then h
    else
      var n := |ops| - 1;
      Commit(CommitAll(h, w, client, ops[..n], now, ttl), WorkAll(w, client, ops[..n]), client, ops[n], now, ttl)
  }

  /** The acquire, if it is one, is granted in full by the real map. */
  predicate GrantedInFull(h: Holds, w: map<string, string>, client: string, op: LeaseChange, now: real) {
    op.Acquire? ==>
      var decided := Decide(w, client, op);
      Select(decided, Open(Live(h, now), client)) == decided && Denials(Live(h, now), client, decided) == map[]
  }

  /** Every acquire that the walk granted is granted in full at commit. */
  predicate AllGranted(h: Holds, w: map<string, string>, client: string, ops: seq<LeaseChange>, now: real, ttl: real) {
    ops != [] ==>
      var n := |ops| - 1;
      && AllGranted(h, w, client, ops[..n], now, ttl)
      && GrantedInFull(CommitAll(h, w, client, ops[..n], now, ttl), WorkAll(w, client, ops[..n]), client, ops[n], now)
  }

  /** The ids the batch granted or released at some point. */
  function Settled(w: map<string, string>, client: string, ops: seq<LeaseChange>): set<string> {
    if ops == [] then {}
    else
      var n := |ops| - 1;
      Settled(w, client, ops[..n]) + set e | e in Decide(WorkAll(w, client, ops[..n]), client, ops[n])
  }

  /** What can happen to the map while a batch awaits its save: the lock keeps out
      every acquire and release, so only pruning and disconnects remain. */
  datatype Meanwhile = Pruned(now: real) | Departed(client: string)

  function Disturb(h: Holds, steps: seq<Meanwhile>): Holds
    decreases |steps|
  {
    if steps == [] then h
    else match steps[0]
      case Pruned(now) => Disturb(Live(h, now), steps[1..])
      case Departed(client) => Disturb(WithoutClient(h, client), steps[1..])
  }

  lemma {:induction false} DisturbShrinks(h: Holds, steps: seq<Meanwhile>)
    ensures forall e :: e in Disturb(h, steps) ==> e in h && Disturb(h, steps)[e] == h[e]
    decreases |steps|
  {
    if steps != [] {
      match steps[0]
      case Pruned(now) => DisturbShrinks(Live(h, now), steps[1..]);
      case Departed(client) => DisturbShrinks(WithoutClient(h, client), steps[1..]);
    }
  }

  /** The real holders `u` against the simulated ones `w`: nobody holds more than the
      simulation thinks, and on settled ids both agree. */
  ghost predicate Tracks(u: map<string, string>, w: map<string, string>, client: string, settled: set<string>) {
    && (forall e :: e in u ==> e in w && w[e] == u[e])
    && (forall e :: e in settled ==> Lookup(u, e) == Lookup(w, e))
  }

  lemma HoldersAfterGrant(h: Holds, client: string, ids: seq<string>, now: real, ttl: real)
    requires ttl > 0.0 && forall e :: e in ids ==> FreeFor(Live(h, now), client, e)
    ensures Holders(Granting(Live(h, now), client, ids, now + ttl), now) == Holders(h, now) + map e | e in ids :: client
  {
  }

  lemma HoldersAfterRelease(h: Holds, client: string, ids: seq<string>, now: real)
    ensures Holders(Without(Live(h, now), client, ids), now) ==
            map e | e in Holders(h, now) && !(e in ids && Holders(h, now)[e] == client) :: Holders(h, now)[e]
  {
  }

  lemma AcquireTracks(h: Holds, w: map<string, string>, client: string, ids: seq<string>, now: real, ttl: real, settled: set<string>)
    requires ttl > 0.0 && Tracks(Holders(h, now), w, client, settled)
    requires forall e :: e in ids ==> e !in w || w[e] == client
    ensures Tracks(Holders(Granting(Live(h, now), client, ids, now + ttl), now), w + map e | e in ids :: client, client,
                   settled + set e | e in ids)
    ensures Select(ids, Open(Live(h, now), client)) == ids
    ensures Denials(Live(h, now), client, ids) == map[]
  {
    forall e | e in ids ensures FreeFor(Live(h, now), client, e) {
      assert e in Live(h, now) ==> e in Holders(h, now) && Holders(h, now)[e] == h[e].client;
    }
    SelectAll(ids, Open(Live(h, now), client));
    HoldersAfterGrant(h, client, ids, now, ttl);
    hide Tracks, Granting, Holders, Live;
    BothGranted(Holders(h, now), w, client, ids, settled);
  }

  lemma BothGranted(u: map<string, string>, w: map<string, string>, client: string, ids: seq<string>, settled: set<string>)
    requires Tracks(u, w, client, settled)
    requires forall e :: e in ids ==> e !in w || w[e] == client
    ensures Tracks(u + map e | e in ids :: client, w + map e | e in ids :: client, client, settled + set e | e in ids)
  {
    var u', w' := u + map e | e in ids :: client, w + map e | e in ids :: client;
    forall e | e in settled || e in ids ensures Lookup(u', e) == Lookup(w', e) {
      if e !in ids {
        assert Lookup(u, e) == Lookup(w, e);
      }
    }
  }

  lemma ReleaseTracks(h: Holds, w: map<string, string>, client: string, ids: seq<string>, now: real, settled: set<string>)
    requires Tracks(Holders(h, now), w, client, settled)
    requires forall e :: e in ids ==> e in w && w[e] == client
    ensures Tracks(Holders(Without(Live(h, now), client, ids), now), map e | e in w && e !in ids :: w[e], client,
                   settled + set e | e in ids)
  {
    HoldersAfterRelease(h, client, ids, now);
  }

  lemma CommitTracks(h: Holds, w: map<string, string>, client: string, op: LeaseChange, now: real, ttl: real, settled: set<string>)
    requires ttl > 0.0 && Tracks(Holders(h, now), w, client, settled)
    ensures Tracks(Holders(Commit(h, w, client, op, now, ttl), now), Work(w, client, op), client,
                   settled + set e | e in Decide(w, client, op))
    ensures GrantedInFull(h, w, client, op, now)
  {
    hide Tracks, Granting, Without, Denials;
    var decided := Decide(w, client, op);
    if op.Acquire? {
      SelectFacts(Distinct(op.ids), OpenIn(w, client));
      AcquireTracks(h, w, client, decided, now, ttl, settled);
    } else {
      SelectFacts(Distinct(op.ids), HeldIn(w, client));
      ReleaseTracks(h, w, client, decided, now, settled);
    }
    if decided == [] {
      assert Work(w, client, op) == w;
      assert settled + (set e | e in decided) == settled;
    }
  }

  lemma {:induction false} CommitAllTracks(h: Holds, w: map<string, string>, client: string, ops: seq<LeaseChange>,
                                           now: real, ttl: real)
    requires ttl > 0.0 && Tracks(Holders(h, now), w, client, {})
    ensures AllGranted(h, w, client, ops, now, ttl)
    ensures Tracks(Holders(CommitAll(h, w, client, ops, now, ttl), now), WorkAll(w, client, ops), client,
                   Settled(w, client, ops))
  {
    hide Tracks, Commit, Work, Decide, GrantedInFull, Holders;
    if ops != [] {
      var n := |ops| - 1;
      CommitAllTracks(h, w, client, ops[..n], now, ttl);
      CommitTracks(CommitAll(h, w, client, ops[..n], now, ttl), WorkAll(w, client, ops[..n]), client, ops[n], now, ttl,
                   Settled(w, client, ops[..n]));
    }
  }

  /** The walk over a snapshot refines the real map: whatever expired or departed
      while the batch was being saved, commit grants everything the walk granted,
      and on every id the batch settled the real holder is the simulated one. */
  lemma SimulationRefinesMap(h: Holds, start: real, steps: seq<Meanwhile>, now: real, ttl: real,
                             client: string, ops: seq<LeaseChange>)
    requires ttl > 0.0 && start <= now
    ensures var w, h' := Holders(h, start), Disturb(h, steps);
            && AllGranted(h', w, client, ops, now, ttl)
            && (forall e :: e in Settled(w, client, ops) ==>
                  Lookup(Holders(CommitAll(h', w, client, ops, now, ttl), now), e) == Lookup(WorkAll(w, client, ops), e))
            && forall e :: e in Holders(CommitAll(h', w, client, ops, now, ttl), now) ==>
                 Lookup(Holders(CommitAll(h', w, client, ops, now, ttl), now), e) == Lookup(WorkAll(w, client, ops), e)
  {
    DisturbShrinks(h, steps);
    CommitAllTracks(Disturb(h, steps), Holders(h, start), client, ops, now, ttl);
  }

  /** Who is to hold an id in the end: what is left of a lease is what the ops make of it,
      taken one by one; and an id that they speak of, and that nobody else held at the
      start, is held exactly so. */
  ghost predicate EndsHeld(was: Option<string>, held: Option<string>, client: string, ops: seq<LeaseChange>, e: string) {
    && (held.Some? ==> held == HolderAfter(was, client, ops, e))
    && ((was.Some? ==> was.value == client) && Mentioned(ops, e) ==> held == HolderAfter(was, client, ops, e))
  }

  /** Who holds what after the commit, id by id. */
  lemma LeaseOutcome(h: Holds, start: real, steps: seq<Meanwhile>, now: real, ttl: real,
                     client: string, ops: seq<LeaseChange>, e: string)
    requires ttl > 0.0 && start <= now
    ensures EndsHeld(Lookup(Holders(h, start), e),
                    Lookup(Holders(CommitAll(Disturb(h, steps), Holders(h, start), client, ops, now, ttl), now), e),
                    client, ops, e)
  {
    var w := Holders(h, start);
    SimulationRefinesMap(h, start, steps, now, ttl, client, ops);
    hide CommitAll, Settled, WorkAll, Disturb, AllGranted, Holders;
    WorkAllIs(w, client, ops, e);
    if (e in w ==> w[e] == client) && Mentioned(ops, e) {
      SettledOrFree(w, client, ops, e);
    }
  }

  /** The walk never takes an id from another client. */
  lemma {:induction false} WalkKeepsOthers(w: map<string, string>, client: string, ops: seq<LeaseChange>, e: string)
    requires e in w && w[e] != client
    ensures e in WorkAll(w, client, ops) && WorkAll(w, client, ops)[e] == w[e]
  {
    if ops != [] {
      var n := |ops| - 1;
      WalkKeepsOthers(w, client, ops[..n], e);
      WorkKeepsOthers(WorkAll(w, client, ops[..n]), client, ops[n], e);
    }
  }

  lemma WorkKeepsOthers(w: map<string, string>, client: string, op: LeaseChange, e: string)
    requires e in w && w[e] != client
    ensures e in Work(w, client, op) && Work(w, client, op)[e] == w[e]
  {
    SelectFacts(Distinct(op.ids), OpenIn(w, client));
    SelectFacts(Distinct(op.ids), HeldIn(w, client));
  }
}
