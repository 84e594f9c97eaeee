/**
 The per-client rate limiter: a token bucket that forgets idle clients. Proved:
 what a client is granted over any window is bounded, and forgetting is
 unobservable, both exactly when an idle client's bucket has had time to fill up.
 */
module TokenBucket {
  import opened Values

  datatype Limits = Limits(capacity: real, refill: real, idleTtl: real, sweepEvery: real)
  {
    predicate Sane() {
      capacity >= 0.0 && refill >= 0.0 && idleTtl >= 0.0
    }

    /** A client that is silent for `idleTtl` refills completely. */
    predicate FillsWhileIdle() {
      Gain(refill, idleTtl) >= capacity
    }
  }

  /** Tokens left, and when, of each client with an entry. */
  datatype Level = Level(tokens: real, at: real)

  datatype Bucket = Bucket(levels: map<string, Level>, lastSweep: real)

  const FRESH := Bucket(map[], 0.0)

  datatype Call = Call(key: string, amount: real, now: real)

  /** What is refilled in this time. */
  function Gain(refill: real, time: real): real {
    refill * time
  }

  lemma GainAdds(refill: real, x: real, y: real)
    ensures Gain(refill, x) + Gain(refill, y) == Gain(refill, x + y)
  {
  }

  lemma GainNothing(refill: real, x: real)
    ensures Gain(refill, x - x) == 0.0
  {
  }

  lemma GainNotNegative(refill: real, x: real)
    requires refill >= 0.0 && x >= 0.0
    ensures Gain(refill, x) >= 0.0
  {
  }

  lemma GainGrows(refill: real, x: real, y: real)
    requires refill > 0.0 && x <= y
    ensures Gain(refill, x) <= Gain(refill, y)
    ensures x < y ==> Gain(refill, x) < Gain(refill, y)
  {
    GainAdds(refill, x, y - x);
    assert refill * (y - x) >= 0.0;
    assert x < y ==> refill * (y - x) > 0.0;
  }

  function Evict(l: Limits, b: Bucket, now: real): Bucket {
    Bucket(map k | k in b.levels && b.levels[k].at >= now - l.idleTtl :: b.levels[k], now)
  }

  /** What the client could take now. */
  function Available(l: Limits, b: Bucket, key: string, now: real): real {
    if key !in b.levels then l.capacity
    else
      var filled := b.levels[key].tokens + Gain(l.refill, now - b.levels[key].at);
      if filled < l.capacity then filled else l.capacity
  }

  function Take(l: Limits, b: Bucket, c: Call): (Bucket, bool) {
    var available := Available(l, b, c.key, c.now);
    var granted := available >= c.amount;
    (b.(levels := b.levels[c.key := Level(if granted then available - c.amount else available, c.now)]), granted)
  }

  function Consume(l: Limits, b: Bucket, c: Call): (Bucket, bool) {
    Take(l, if c.now - b.lastSweep >= l.sweepEvery then Evict(l, b, c.now) else b, c)
  }

  /** The limiter as the program keeps it: two dictionaries over the same keys. */
  class Limiter {
    const limits: Limits
    var tokens: map<string, real>
    var last: map<string, real>
    var lastSweep: real

    ghost predicate Valid()
      reads this
    {
      tokens.Keys == last.Keys
    }

    ghost function View(): Bucket
      reads this
      requires Valid()
    {
      Bucket(map k | k in tokens :: Level(tokens[k], last[k]), lastSweep)
    }

    constructor (limits: Limits)
      ensures this.limits == limits && Valid() && View() == FRESH
    {
      this.limits := limits;
      tokens, last, lastSweep := map[], map[], 0.0;
    }

    method ConsumeTokens(key: string, amount: real, now: real) returns (ok: bool)
      requires Valid()
      modifies this
      ensures Valid() && (View(), ok) == Consume(limits, old(View()), Call(key, amount, now))
    {
      hide Gain, Evict;
      if now - lastSweep >= limits.sweepEvery {
        EvictIdle(now);
      }
      ghost var before := View();
      var left := if key in tokens then tokens[key] else limits.capacity;
      var since := if key in last then last[key] else now;
      left := left + Gain(limits.refill, now - since);
      if left > limits.capacity {
        left := limits.capacity;
      }
      assert left == Available(limits, before, key, now) by { GainNothing(limits.refill, now); }
      last := last[key := now];
      if left < amount {
        tokens := tokens[key := left];
        assert View().levels == before.levels[key := Level(left, now)];
        return false;
      }
      tokens := tokens[key := left - amount];
      assert View().levels == before.levels[key := Level(left - amount, now)];
      ok := true;
    }

    method EvictIdle(now: real)
      requires Valid()
      modifies this
      ensures Valid() && View() == Evict(limits, old(View()), now)
    {
      var cutoff := now - limits.idleTtl;
      var stale := set k | k in last && last[k] < cutoff;
      var left := stale;
      while left != {}
        modifies this`tokens, this`last
        invariant left <= stale && Valid()
        invariant forall k :: k in tokens <==> k in old(tokens) && !(k in stale && k !in left)
        invariant forall k :: k in tokens ==> tokens[k] == old(tokens)[k] && last[k] == old(last)[k]
      {
        var k :| k in left;
        tokens := tokens - {k};
        last := last - {k};
        left := left - {k};
      }
      lastSweep := now;
    }
  }

  // --------------------------------------------------------- runs of one limiter

  predicate Monotone(calls: seq<Call>) {
    && (calls != [] ==> calls[0].now >= 0.0)
    && forall i, j :: 0 <= i <= j < |calls| ==> calls[i].now <= calls[j].now
  }

  /** One call on the limiter that evicts, or on one that never does. */
  function Answer(l: Limits, b: Bucket, c: Call, evicting: bool): (Bucket, bool) {
    if evicting then Consume(l, b, c) else Take(l, b, c)
  }

  function After(l: Limits, calls: seq<Call>, evicting: bool): Bucket {
    if calls == [] then FRESH
    else Answer(l, After(l, calls[..|calls| - 1], evicting), calls[|calls| - 1], evicting).0
  }

  function Granted(l: Limits, calls: seq<Call>, k: nat, evicting: bool): bool
    requires k < |calls|
  {
    Answer(l, After(l, calls[..k], evicting), calls[k], evicting).1
  }

  ghost predicate SameAnswers(l: Limits, calls: seq<Call>) {
    forall k :: 0 <= k < |calls| ==> Granted(l, calls, k, true) == Granted(l, calls, k, false)
  }

  /** The amount granted to `key` by the calls from `i` up to `j`. */
  function Total(l: Limits, calls: seq<Call>, key: string, i: nat, j: nat, evicting: bool): real
    requires i <= j <= |calls|
    decreases j
  {
    if i == j then 0.0
    else
      Total(l, calls, key, i, j - 1, evicting)
      + if calls[j - 1].key == key && Granted(l, calls, j - 1, evicting) then calls[j - 1].amount else 0.0
  }

  /** No window of calls gives any client more than one full bucket plus its refill. */
  ghost predicate Bounded(l: Limits, calls: seq<Call>, evicting: bool) {
    forall key, i, j :: 0 <= i < j <= |calls| ==>
      Total(l, calls, key, i, j, evicting) <= l.capacity + Gain(l.refill, calls[j - 1].now - calls[i].now)
  }

  // ------------------------------------------------------------- the plain bound

  /** Every level is between nothing and a time already past. */
  ghost predicate LevelsOk(b: Bucket, now: real) {
    forall k :: k in b.levels ==> b.levels[k].tokens >= 0.0 && b.levels[k].at <= now
  }

  lemma AvailableOk(l: Limits, b: Bucket, key: string, now: real)
    requires l.Sane() && LevelsOk(b, now)
    ensures 0.0 <= Available(l, b, key, now) <= l.capacity
  {
    hide Gain;
    if key in b.levels {
      GainNotNegative(l.refill, now - b.levels[key].at);
    }
  }

  lemma {:induction false} RunOk(l: Limits, calls: seq<Call>, evicting: bool)
    requires l.Sane() && Monotone(calls)
    ensures forall now :: (calls == [] || calls[|calls| - 1].now <= now) ==> LevelsOk(After(l, calls, evicting), now)
  {
    hide Gain;
    if calls != [] {
      var n := |calls| - 1;
      RunOk(l, calls[..n], evicting);
      var b := After(l, calls[..n], evicting);
      var c := calls[n];
      assert LevelsOk(b, c.now);
      AvailableOk(l, b, c.key, c.now);
      AvailableOk(l, Evict(l, b, c.now), c.key, c.now);
    }
  }

  /** What the window has granted so far is paid for by the bucket it started with
      and by what has been refilled since. */
  ghost predicate PaidFor(l: Limits, b: Bucket, key: string, total: real, start: real) {
    total != 0.0 ==> key in b.levels && total + b.levels[key].tokens <= l.capacity + Gain(l.refill, b.levels[key].at - start)
  }

  lemma PaidForStep(l: Limits, b: Bucket, key: string, total: real, start: real, c: Call)
    requires l.Sane() && LevelsOk(b, c.now) && PaidFor(l, b, key, total, start) && start <= c.now
    ensures var (b', granted) := Take(l, b, c);
            PaidFor(l, b', key, total + if c.key == key && granted then c.amount else 0.0, start)
  {
    hide Gain;
    AvailableOk(l, b, c.key, c.now);
    if c.key == key {
      GainNotNegative(l.refill, c.now - start);
      if total != 0.0 {
        GainAdds(l.refill, b.levels[key].at - start, c.now - b.levels[key].at);
      }
    }
  }

  lemma NothingToPay(l: Limits, b: Bucket, key: string, start: real)
    ensures PaidFor(l, b, key, 0.0, start)
  {
  }

  lemma {:induction false} WindowPaidFor(l: Limits, calls: seq<Call>, key: string, i: nat, j: nat)
    requires l.Sane() && Monotone(calls) && i < |calls| && i <= j <= |calls|
    ensures PaidFor(l, After(l, calls[..j], false), key, Total(l, calls, key, i, j, false), calls[i].now)
    decreases j
  {
    hide Gain, Take, LevelsOk, PaidFor;
    if i == j {
      NothingToPay(l, After(l, calls[..j], false), key, calls[i].now);
    } else {
      WindowPaidFor(l, calls, key, i, j - 1);
      assert calls[..j][..j - 1] == calls[..j - 1];
      RunOk(l, calls[..j - 1], false);
      PaidForStep(l, After(l, calls[..j - 1], false), key, Total(l, calls, key, i, j - 1, false), calls[i].now, calls[j - 1]);
    }
  }

  lemma PaidForIsBounded(l: Limits, b: Bucket, key: string, total: real, start: real, end: real)
    requires l.Sane() && LevelsOk(b, end) && PaidFor(l, b, key, total, start) && start <= end
    ensures total <= l.capacity + Gain(l.refill, end - start)
  {
    hide Gain;
    GainNotNegative(l.refill, end - start);
    if key in b.levels {
      GainNotNegative(l.refill, end - b.levels[key].at);
      GainAdds(l.refill, b.levels[key].at - start, end - b.levels[key].at);
    }
  }

  lemma PlainIsBounded(l: Limits, calls: seq<Call>)
    requires l.Sane() && Monotone(calls)
    ensures Bounded(l, calls, false)
  {
    hide Gain, LevelsOk, PaidFor, Total, After;
    forall key, i, j | 0 <= i < j <= |calls|
      ensures Total(l, calls, key, i, j, false) <= l.capacity + Gain(l.refill, calls[j - 1].now - calls[i].now)
    {
      WindowPaidFor(l, calls, key, i, j);
      RunOk(l, calls[..j], false);
      PaidForIsBounded(l, After(l, calls[..j], false), key, Total(l, calls, key, i, j, false), calls[i].now, calls[j - 1].now);
    }
  }

  // ------------------------------------------------------------ the exact bound

  /** What the window from call `i` leaves a client at this time, before call `k`. */
  function Leaves(l: Limits, calls: seq<Call>, key: string, i: nat, k: nat, now: real): real
    requires i <= k <= |calls| && i < |calls|
  {
    l.capacity + Gain(l.refill, now - calls[i].now) - Total(l, calls, key, i, k, false)
  }

  /** What a client has is the least of a full bucket and what each window leaves it. */
  ghost predicate LeastLeft(l: Limits, calls: seq<Call>, key: string, k: nat, now: real, has: real)
    requires k <= |calls|
  {
    && has <= l.capacity
    && (forall i :: 0 <= i < k ==> has <= Leaves(l, calls, key, i, k, now))
    && (has == l.capacity || exists i :: 0 <= i < k && has == Leaves(l, calls, key, i, k, now))
  }

  lemma {:induction false} AvailableIsLeast(l: Limits, calls: seq<Call>, key: string, k: nat, now: real)
    requires l.refill >= 0.0 && Monotone(calls) && k <= |calls| && (k > 0 ==> calls[k - 1].now <= now)
    ensures LeastLeft(l, calls, key, k, now, Available(l, After(l, calls[..k], false), key, now))
    decreases k
  {
    hide Gain;
    if k > 0 {
      var c := calls[k - 1];
      assert calls[..k][..k - 1] == calls[..k - 1];
      AvailableIsLeast(l, calls, key, k - 1, if c.key == key then c.now else now);
      OneMoreCall(l, calls, key, k, now);
    }
  }

  lemma TotalStep(l: Limits, calls: seq<Call>, key: string, i: nat, k: nat)
    requires i < k <= |calls|
    ensures Total(l, calls, key, i, k, false) == Total(l, calls, key, i, k - 1, false)
            + if calls[k - 1].key == key && Granted(l, calls, k - 1, false) then calls[k - 1].amount else 0.0
    ensures Total(l, calls, key, k - 1, k - 1, false) == 0.0
  {
  }

  /** How one call changes what a client has later. */
  lemma AvailableAfter(l: Limits, b: Bucket, c: Call, key: string, now: real)
    ensures var has := Available(l, Take(l, b, c).0, key, now);
            if c.key != key then has == Available(l, b, key, now)
            else
              var filled := Available(l, b, key, c.now) - (if Take(l, b, c).1 then c.amount else 0.0) + Gain(l.refill, now - c.now);
              has == if filled < l.capacity then filled else l.capacity
  {
  }

  lemma OneMoreCall(l: Limits, calls: seq<Call>, key: string, k: nat, now: real)
    requires l.refill >= 0.0 && Monotone(calls) && 0 < k <= |calls| && calls[k - 1].now <= now
    requires calls[..k][..k - 1] == calls[..k - 1]
    requires var c := calls[k - 1]; var t := if c.key == key then c.now else now;
             LeastLeft(l, calls, key, k - 1, t, Available(l, After(l, calls[..k - 1], false), key, t))
    ensures LeastLeft(l, calls, key, k, now, Available(l, After(l, calls[..k], false), key, now))
  {
    var c := calls[k - 1];
    var b := After(l, calls[..k - 1], false);
    AvailableAfter(l, b, c, key, now);
    hide Gain, Total, Available, Take, After;
    assert After(l, calls[..k], false) == Take(l, b, c).0 by { AfterStep(l, calls, k); }
    assert Granted(l, calls, k - 1, false) == Take(l, b, c).1;
    var has := Available(l, After(l, calls[..k], false), key, now);
    GainNotNegative(l.refill, now - c.now);
    forall i | 0 <= i < k
      ensures Total(l, calls, key, i, k, false) == Total(l, calls, key, i, k - 1, false)
              + if c.key == key && Granted(l, calls, k - 1, false) then c.amount else 0.0
      ensures Gain(l.refill, c.now - calls[i].now) + Gain(l.refill, now - c.now) == Gain(l.refill, now - calls[i].now)
    {
      TotalStep(l, calls, key, i, k);
      GainAdds(l.refill, c.now - calls[i].now, now - c.now);
    }
    TotalStep(l, calls, key, k - 1, k);
    GainNothing(l.refill, c.now);
    if c.key == key {
      LeastAfterOwn(l, calls, key, k, now, Available(l, b, key, c.now), has);
    } else {
      LeastAfterOther(l, calls, key, k, now, has);
    }
  }

  lemma AfterStep(l: Limits, calls: seq<Call>, k: nat)
    requires 0 < k <= |calls| && calls[..k][..k - 1] == calls[..k - 1]
    ensures After(l, calls[..k], false) == Take(l, After(l, calls[..k - 1], false), calls[k - 1]).0
  {
    hide Take;
  }

  lemma LeastAfterOther(l: Limits, calls: seq<Call>, key: string, k: nat, now: real, has: real)
    requires 0 < k <= |calls| && calls[k - 1].now <= now && Gain(l.refill, now - calls[k - 1].now) >= 0.0
    requires LeastLeft(l, calls, key, k - 1, now, has)
    requires forall i :: 0 <= i < k ==> Total(l, calls, key, i, k, false) == Total(l, calls, key, i, k - 1, false)
    requires Total(l, calls, key, k - 1, k - 1, false) == 0.0
    ensures LeastLeft(l, calls, key, k, now, has)
  {
    hide Gain, Total;
    forall i | 0 <= i < k ensures has <= Leaves(l, calls, key, i, k, now) {
      assert i < k - 1 ==> Leaves(l, calls, key, i, k, now) == Leaves(l, calls, key, i, k - 1, now);
    }
    if has != l.capacity {
      var i :| 0 <= i < k - 1 && has == Leaves(l, calls, key, i, k - 1, now);
      assert has == Leaves(l, calls, key, i, k, now);
    }
  }

  lemma LeastAfterOwn(l: Limits, calls: seq<Call>, key: string, k: nat, now: real, had: real, has: real)
    requires 0 < k <= |calls| && calls[k - 1].key == key
    requires LeastLeft(l, calls, key, k - 1, calls[k - 1].now, had)
    requires var spent, gained := if Granted(l, calls, k - 1, false) then calls[k - 1].amount else 0.0,
                                  Gain(l.refill, now - calls[k - 1].now);
             && has == (if had - spent + gained < l.capacity then had - spent + gained else l.capacity)
             && (forall i :: 0 <= i < k ==> Total(l, calls, key, i, k, false) == Total(l, calls, key, i, k - 1, false) + spent)
             && (forall i :: 0 <= i < k ==>
                   Gain(l.refill, calls[k - 1].now - calls[i].now) + gained == Gain(l.refill, now - calls[i].now))
    requires Total(l, calls, key, k - 1, k - 1, false) == 0.0 && Gain(l.refill, calls[k - 1].now - calls[k - 1].now) == 0.0
    ensures LeastLeft(l, calls, key, k, now, has)
  {
    hide Gain, Total, Granted;
    var t := calls[k - 1].now;
    var spent, gained := if Granted(l, calls, k - 1, false) then calls[k - 1].amount else 0.0, Gain(l.refill, now - t);
    assert Leaves(l, calls, key, k - 1, k, now) == l.capacity - spent + gained;
    forall i | 0 <= i < k ensures has <= Leaves(l, calls, key, i, k, now) {
      assert i < k - 1 ==> Leaves(l, calls, key, i, k, now) == Leaves(l, calls, key, i, k - 1, t) - spent + gained;
    }
    if has != l.capacity && had != l.capacity {
      var i :| 0 <= i < k - 1 && had == Leaves(l, calls, key, i, k - 1, t);
      assert has == Leaves(l, calls, key, i, k, now);
    }
  }

  /** Call `k` does not fit: in some window up to it the client would get more than one
      full bucket and what is refilled in the meantime. */
  ghost predicate Exceeds(l: Limits, calls: seq<Call>, k: nat, evicting: bool)
    requires k < |calls|
  {
    exists i :: 0 <= i <= k &&
      Total(l, calls, calls[k].key, i, k, evicting) + calls[k].amount > l.capacity + Gain(l.refill, calls[k].now - calls[i].now)
  }

  /** A call is refused if and only if it does not fit. */
  ghost predicate RefusesExactly(l: Limits, calls: seq<Call>, evicting: bool) {
    forall k :: 0 <= k < |calls| ==> (!Granted(l, calls, k, evicting) <==> Exceeds(l, calls, k, evicting))
  }

  /** Without eviction the bucket refuses nothing that fits and grants nothing that does not. */
  lemma PlainIsExact(l: Limits, calls: seq<Call>)
    requires l.refill >= 0.0 && Monotone(calls)
    ensures RefusesExactly(l, calls, false)
  {
    hide Gain, Exceeds, Granted, Monotone;
    forall k | 0 <= k < |calls| ensures !Granted(l, calls, k, false) <==> Exceeds(l, calls, k, false) {
      AnswerIsExact(l, calls, k);
    }
  }

  lemma AnswerIsExact(l: Limits, calls: seq<Call>, k: nat)
    requires l.refill >= 0.0 && Monotone(calls) && k < |calls|
    ensures !Granted(l, calls, k, false) <==> Exceeds(l, calls, k, false)
  {
    var c := calls[k];
    var has := Available(l, After(l, calls[..k], false), c.key, c.now);
    AvailableIsLeast(l, calls, c.key, k, c.now);
    TakeIs(l, After(l, calls[..k], false), c);
    assert Granted(l, calls, k, false) <==> has >= c.amount;
    hide Gain, Total, Available, Take, After, Granted, Monotone;
    LeastDecides(l, calls, k, has);
  }

  lemma LeastDecides(l: Limits, calls: seq<Call>, k: nat, has: real)
    requires k < |calls| && LeastLeft(l, calls, calls[k].key, k, calls[k].now, has)
    ensures has < calls[k].amount <==> Exceeds(l, calls, k, false)
  {
    var c := calls[k];
    GainNothing(l.refill, c.now);
    NothingYet(l, calls, c.key, k);
    hide Gain, Total;
    if has < c.amount {
      if has == l.capacity {
        assert Total(l, calls, c.key, k, k, false) + c.amount > l.capacity + Gain(l.refill, c.now - calls[k].now);
      } else {
        var i :| 0 <= i < k && has == Leaves(l, calls, c.key, i, k, c.now);
        assert Total(l, calls, c.key, i, k, false) + c.amount > l.capacity + Gain(l.refill, c.now - calls[i].now);
      }
    }
    if Exceeds(l, calls, k, false) {
      var i :| 0 <= i <= k && Total(l, calls, c.key, i, k, false) + c.amount > l.capacity + Gain(l.refill, c.now - calls[i].now);
      assert i < k ==> has <= Leaves(l, calls, c.key, i, k, c.now);
    }
  }

  lemma TakeIs(l: Limits, b: Bucket, c: Call)
    ensures Take(l, b, c).1 <==> Available(l, b, c.key, c.now) >= c.amount
  {
  }

  lemma NothingYet(l: Limits, calls: seq<Call>, key: string, k: nat)
    requires k <= |calls|
    ensures Total(l, calls, key, k, k, false) == 0.0
  {
  }

  // ------------------------------------------------- eviction is not observable

  /** The evicting bucket keeps some of the plain one's levels; the others are full. */
  ghost predicate Tracks(l: Limits, e: Bucket, p: Bucket, now: real) {
    && (forall k :: k in e.levels ==> k in p.levels && e.levels[k] == p.levels[k])
    && (forall k :: k in p.levels && k !in e.levels ==>
          p.levels[k].tokens + Gain(l.refill, now - p.levels[k].at) >= l.capacity)
  }

  lemma TracksLater(l: Limits, e: Bucket, p: Bucket, now: real, later: real)
    requires l.Sane() && Tracks(l, e, p, now) && now <= later
    ensures Tracks(l, e, p, later)
  {
    hide Gain;
    forall k | k in p.levels && k !in e.levels
      ensures p.levels[k].tokens + Gain(l.refill, later - p.levels[k].at) >= l.capacity
    {
      GainAdds(l.refill, now - p.levels[k].at, later - now);
      GainNotNegative(l.refill, later - now);
    }
  }

  lemma EvictTracks(l: Limits, e: Bucket, p: Bucket, now: real)
    requires l.Sane() && l.FillsWhileIdle() && Tracks(l, e, p, now) && LevelsOk(p, now)
    ensures Tracks(l, Evict(l, e, now), p, now)
  {
    hide Gain;
    forall k | k in e.levels && e.levels[k].at < now - l.idleTtl
      ensures p.levels[k].tokens + Gain(l.refill, now - p.levels[k].at) >= l.capacity
    {
      GainAdds(l.refill, now - p.levels[k].at - l.idleTtl, l.idleTtl);
      GainNotNegative(l.refill, now - p.levels[k].at - l.idleTtl);
    }
  }

  lemma TakeTracks(l: Limits, e: Bucket, p: Bucket, c: Call)
    requires Tracks(l, e, p, c.now)
    ensures Take(l, e, c).1 == Take(l, p, c).1
    ensures Tracks(l, Take(l, e, c).0, Take(l, p, c).0, c.now)
  {
    hide Gain;
    assert Available(l, e, c.key, c.now) == Available(l, p, c.key, c.now);
  }

  lemma ConsumeTracks(l: Limits, e: Bucket, p: Bucket, c: Call)
    requires l.Sane() && l.FillsWhileIdle() && Tracks(l, e, p, c.now) && LevelsOk(p, c.now)
    ensures Consume(l, e, c).1 == Take(l, p, c).1
    ensures Tracks(l, Consume(l, e, c).0, Take(l, p, c).0, c.now)
  {
    hide Gain, Tracks, Take, Evict;
    EvictTracks(l, e, p, c.now);
    TakeTracks(l, e, p, c);
    TakeTracks(l, Evict(l, e, c.now), p, c);
  }

  lemma {:induction false} RunTracks(l: Limits, calls: seq<Call>)
    requires l.Sane() && l.FillsWhileIdle() && Monotone(calls)
    ensures forall now :: (calls == [] || calls[|calls| - 1].now <= now) ==>
              Tracks(l, After(l, calls, true), After(l, calls, false), now)
  {
    hide Gain, Tracks, Consume, Take;
    if calls == [] {
      EmptyTracks(l);
    } else {
      var n := |calls| - 1;
      RunTracks(l, calls[..n]);
      RunOk(l, calls[..n], false);
      ConsumeTracks(l, After(l, calls[..n], true), After(l, calls[..n], false), calls[n]);
      forall now | calls[n].now <= now ensures Tracks(l, After(l, calls, true), After(l, calls, false), now) {
        TracksLater(l, After(l, calls, true), After(l, calls, false), calls[n].now, now);
      }
    }
  }

  lemma EmptyTracks(l: Limits)
    ensures forall now :: Tracks(l, FRESH, FRESH, now)
  {
  }

  lemma FillingHides(l: Limits, calls: seq<Call>)
    requires l.Sane() && l.FillsWhileIdle() && Monotone(calls)
    ensures SameAnswers(l, calls)
  {
    hide Gain, Tracks, Consume, Take;
    forall k | 0 <= k < |calls| ensures Granted(l, calls, k, true) == Granted(l, calls, k, false) {
      assert Monotone(calls[..k]);
      RunTracks(l, calls[..k]);
      RunOk(l, calls[..k], false);
      ConsumeTracks(l, After(l, calls[..k], true), After(l, calls[..k], false), calls[k]);
    }
  }

  lemma {:induction false} SameTotal(l: Limits, calls: seq<Call>, key: string, i: nat, j: nat)
    requires i <= j <= |calls| && SameAnswers(l, calls)
    ensures Total(l, calls, key, i, j, true) == Total(l, calls, key, i, j, false)
    decreases j
  {
    if i < j {
      SameTotal(l, calls, key, i, j - 1);
    }
  }

  // --------------------------------------------------------- when it does not fill

  /** A pause long enough to be forgotten and too short to refill. */
  function Pause(l: Limits): (d: real)
    requires l.Sane() && !l.FillsWhileIdle()
    ensures d > l.idleTtl && Gain(l.refill, d) < l.capacity
  {
    if l.refill == 0.0 then l.idleTtl + 1.0
    else
      var full := l.capacity / l.refill;
      assert Gain(l.refill, full) == l.capacity;
      FullIsLater(l, full);
      var d := (l.idleTtl + full) / 2.0;
      GainGrows(l.refill, d, full);
      d
  }

  lemma FullIsLater(l: Limits, full: real)
    requires l.refill > 0.0 && Gain(l.refill, full) == l.capacity && Gain(l.refill, l.idleTtl) < l.capacity
    ensures l.idleTtl < full
  {
    if l.idleTtl >= full {
      GainGrows(l.refill, full, l.idleTtl);
    }
  }

  /** Two full buckets within one pause, timed so that a sweep falls on the second. */
  function Cheat(l: Limits): seq<Call>
    requires l.Sane() && !l.FillsWhileIdle()
  {
    var d := Pause(l);
    var t := if l.sweepEvery <= d then 0.0 else l.sweepEvery - d;
    [Call("k", l.capacity, t), Call("k", l.capacity, t + d)]
  }

  lemma CheatWorks(l: Limits)
    requires l.Sane() && !l.FillsWhileIdle()
    ensures var calls := Cheat(l);
            && Monotone(calls)
            && Granted(l, calls, 0, true) && Granted(l, calls, 1, true) && !Granted(l, calls, 1, false)
            && Total(l, calls, "k", 0, 2, true) > l.capacity + Gain(l.refill, calls[1].now - calls[0].now)
  {
    hide Gain;
    var calls, d := Cheat(l), Pause(l);
    assert calls[..0] == [] && calls[..1][..0] == [] && calls[..1] == [calls[0]];
    var c0, c1 := calls[0], calls[1];
    assert After(l, calls[..0], true) == FRESH == After(l, calls[..0], false);
    var e0 := Consume(l, FRESH, c0).0;
    assert e0.levels == map["k" := Level(0.0, c0.now)];
    assert c1.now - e0.lastSweep >= l.sweepEvery;
    assert Evict(l, e0, c1.now).levels == map[];
    assert After(l, calls[..1], true) == e0;
    assert After(l, calls[..1], false) == Take(l, FRESH, c0).0;
    assert Total(l, calls, "k", 0, 1, true) == Total(l, calls, "k", 0, 0, true) + l.capacity;
    assert Total(l, calls, "k", 0, 2, true) == l.capacity + l.capacity;
    assert calls[1].now - calls[0].now == d;
  }

  // -------------------------------------------------------------------- the laws

  /** Forgetting idle clients is unobservable exactly when they would be full. */
  lemma EvictionUnobservableIff(l: Limits)
    requires l.Sane()
    ensures (forall calls: seq<Call> :: Monotone(calls) ==> SameAnswers(l, calls)) <==> l.FillsWhileIdle()
  {
    hide Gain;
    if l.FillsWhileIdle() {
      forall calls: seq<Call> | Monotone(calls) ensures SameAnswers(l, calls) {
        FillingHides(l, calls);
      }
    } else {
      CheatWorks(l);
      assert !SameAnswers(l, Cheat(l));
    }
  }

  /** The rate bound of the evicting limiter holds exactly under the same condition. */
  lemma BoundedIff(l: Limits)
    requires l.Sane()
    ensures (forall calls: seq<Call> :: Monotone(calls) ==> Bounded(l, calls, true)) <==> l.FillsWhileIdle()
  {
    hide Gain;
    if l.FillsWhileIdle() {
      forall calls: seq<Call> | Monotone(calls) ensures Bounded(l, calls, true) {
        FillingHides(l, calls);
        PlainIsBounded(l, calls);
        forall key, i, j | 0 <= i < j <= |calls|
          ensures Total(l, calls, key, i, j, true) <= l.capacity + Gain(l.refill, calls[j - 1].now - calls[i].now)
        {
          SameTotal(l, calls, key, i, j);
        }
      }
    } else {
      CheatWorks(l);
      assert !Bounded(l, Cheat(l), true);
    }
  }

  /** And so is what it grants and refuses, call by call. */
  lemma ExactIff(l: Limits)
    requires l.Sane()
    ensures (forall calls: seq<Call> :: Monotone(calls) ==> RefusesExactly(l, calls, true)) <==> l.FillsWhileIdle()
  {
    hide Gain;
    if l.FillsWhileIdle() {
      forall calls: seq<Call> | Monotone(calls) ensures RefusesExactly(l, calls, true) {
        FillingHides(l, calls);
        PlainIsExact(l, calls);
        forall k | 0 <= k < |calls| ensures !Granted(l, calls, k, true) <==> Exceeds(l, calls, k, true) {
          hide Granted, Total;
          SameExcess(l, calls, k);
        }
      }
    } else {
      CheatWorks(l);
      var calls := Cheat(l);
      CheatExceeds(l);
      assert Monotone(calls) && !RefusesExactly(l, calls, true);
    }
  }

  lemma SameExcess(l: Limits, calls: seq<Call>, k: nat)
    requires k < |calls| && SameAnswers(l, calls)
    ensures Exceeds(l, calls, k, true) <==> Exceeds(l, calls, k, false)
  {
    hide Gain, Total;
    forall i | 0 <= i <= k ensures Total(l, calls, calls[k].key, i, k, true) == Total(l, calls, calls[k].key, i, k, false) {
      SameTotal(l, calls, calls[k].key, i, k);
    }
  }

  lemma CheatExceeds(l: Limits)
    requires l.Sane() && !l.FillsWhileIdle()
    ensures |Cheat(l)| == 2 && Granted(l, Cheat(l), 1, true) && Exceeds(l, Cheat(l), 1, true)
  {
    CheatWorks(l);
    var calls := Cheat(l);
    assert Total(l, calls, "k", 0, 2, true) == Total(l, calls, "k", 0, 1, true) + l.capacity;
    hide Total, Gain, Granted;
    assert Total(l, calls, calls[1].key, 0, 1, true) + calls[1].amount > l.capacity + Gain(l.refill, calls[1].now - calls[0].now);
  }
}
