/**
 The in-process event bus: one bounded queue per subscriber. A subscriber whose
 queue is full loses its backlog and the new event, and finds a resync marker in
 their place.
 */
module EventBus {
  import opened Values
  import opened Lists
  import opened SessionModel
  import opened Presence

  datatype Event =
    | StateOp(client: string, applied: Applied)
    | ClaimOp(client: string, claimed: bool, ids: seq<string>)
    | LeaseOp(client: string, acquired: bool, ids: seq<string>)
    | AllReleased(client: string, leases: bool, freed: set<string>)
    | PresenceJoined(member: Member)
    | PresenceLeft(client: string)
    | SessionDeleted
    | Resync

  /** `put_nowait` with the overflow rule; a bound of zero or less means unbounded. */
  function Push<E>(queue: seq<E>, e: E, resync: E, max: int): seq<E> {
    if max <= 0 || |queue| < max then queue + [e] else [resync]
  }

  function PublishTo(queues: map<nat, seq<Event>>, e: Event, max: int): map<nat, seq<Event>> {
    map s | s in queues :: Push(queues[s], e, Resync, max)
  }

  class InProcessEventBus {
    const queueMax: int
    var queues: map<nat, seq<Event>>
    var nextId: nat

    constructor (queueMax: int)
      ensures this.queueMax == queueMax && queues == map[] && nextId == 0
    {
      this.queueMax := queueMax;
      queues, nextId := map[], 0;
    }

    method Subscribe() returns (id: nat)
      modifies this
      ensures id == old(nextId) && nextId == id + 1
      ensures queues == old(queues)[id := []]
    {
      id := nextId;
      nextId := nextId + 1;
      queues := queues[id := []];
    }

    method Unsubscribe(id: nat)
      modifies this`queues
      ensures queues == old(queues) - {id}
    {
      queues := queues - {id};
    }

    method PublishToSubscriber(id: nat, e: Event)
      requires id in queues
      modifies this`queues
      ensures queues == old(queues)[id := Push(old(queues)[id], e, Resync, queueMax)]
    {
      if queueMax <= 0 || |queues[id]| < queueMax {
        queues := queues[id := queues[id] + [e]];
      } else {
        Drain(id);
        queues := queues[id := queues[id] + [Resync]];
        assert queues[id] == [Resync];
      }
    }

    method Drain(id: nat)
      requires id in queues
      modifies this`queues
      ensures queues == old(queues)[id := []]
    {
      while queues[id] != []
        invariant id in queues && queues == old(queues)[id := queues[id]]
        decreases |queues[id]|
      {
        queues := queues[id := queues[id][1..]];
      }
    }

    method Publish(e: Event)
      modifies this`queues
      ensures queues == PublishTo(old(queues), e, queueMax)
    {
      var pending := queues.Keys;
      while pending != {}
        invariant pending <= queues.Keys == old(queues).Keys
        invariant forall s :: s in pending ==> queues[s] == old(queues)[s]
        invariant forall s :: s in queues && s !in pending ==> queues[s] == Push(old(queues)[s], e, Resync, queueMax)
      {
        var s :| s in pending;
        PublishToSubscriber(s, e);
        pending := pending - {s};
      }
    }

    /** `queue.get()` on a queue that has something. */
    method Deliver(id: nat) returns (e: Event)
      requires id in queues && queues[id] != []
      modifies this`queues
      ensures e == old(queues)[id][0] && queues == old(queues)[id := old(queues)[id][1..]]
    {
      e := queues[id][0];
      queues := queues[id := queues[id][1..]];
    }
  }

  // ------------------------------------------------------- marked losses only

  /** One subscriber's life: the bus publishes its next event, or the stream takes one. */
  datatype Turn = Put | Take

  /** Events are numbered in publishing order; `None` is the resync marker. */
  datatype Stream = Stream(published: nat, queue: seq<Option<nat>>, seen: seq<Option<nat>>)

  function Turned(max: int, l: Stream, turn: Turn): Stream {
    match turn
    case Put => Stream(l.published + 1, Push(l.queue, Some(l.published), None, max), l.seen)
    case Take => if l.queue == [] then l else Stream(l.published, l.queue[1..], l.seen + [l.queue[0]])
  }

  function Play(max: int, turns: seq<Turn>): Stream {
    if turns == [] then Stream(0, [], [])
    else Turned(max, Play(max, turns[..|turns| - 1]), turns[|turns| - 1])
  }

  /** In this stream an event follows its own predecessor, or a marker. */
  ghost predicate GapsMarked(stream: seq<Option<nat>>, published: nat) {
    && (stream != [] && stream[0].Some? ==> stream[0].value == 0)
    && (forall i :: 0 < i < |stream| && stream[i].Some? && stream[i - 1].Some? ==>
          stream[i].value == stream[i - 1].value + 1)
    && (stream == [] ==> published == 0)
    && (stream != [] && stream[|stream| - 1].Some? ==> stream[|stream| - 1].value + 1 == published)
  }

  /** Whatever a subscriber has seen and has still queued contains no silent gap:
      two neighbouring events were published one after the other, and if the last
      one is not a marker nothing published since is missing. */
  lemma {:induction false} LossesAreMarked(max: int, turns: seq<Turn>)
    ensures var l := Play(max, turns); GapsMarked(l.seen + l.queue, l.published)
  {
    hide GapsMarked, Turned;
    if turns == [] {
      NothingMarked();
    } else {
      LossesAreMarked(max, turns[..|turns| - 1]);
      TurnKeepsMarks(max, Play(max, turns[..|turns| - 1]), turns[|turns| - 1]);
    }
  }

  /** Some event found the line full. */
  ghost predicate Overflowed(max: int, turns: seq<Turn>) {
    exists k :: 0 <= k < |turns| && FullAt(max, turns, k)
  }

  ghost predicate FullAt(max: int, turns: seq<Turn>, k: nat)
    requires k < |turns|
  {
    max > 0 && turns[k].Put? && |Play(max, turns[..k]).queue| >= max
  }

  /** The line keeps to its bound; and as long as nothing is marked as lost, everything
      published is there, once and in order. */
  ghost predicate Complete(max: int, l: Stream) {
    && (max > 0 ==> |l.queue| <= max)
    && (None !in l.seen + l.queue ==> l.seen + l.queue == seq(l.published, i requires 0 <= i < l.published => Some(i)))
  }

  /** No line grows beyond its bound; and an event is lost only when one finds it full. */
  lemma {:induction false} LostOnlyWhenFull(max: int, turns: seq<Turn>)
    ensures Complete(max, Play(max, turns))
    ensures None in Play(max, turns).seen + Play(max, turns).queue ==> Overflowed(max, turns)
  {
    if turns != [] {
      var n := |turns| - 1;
      LostOnlyWhenFull(max, turns[..n]);
      hide Complete, Overflowed;
      TurnLoses(max, Play(max, turns[..n]), turns[n]);
      MoreTurns(max, turns);
    }
  }

  lemma MoreTurns(max: int, turns: seq<Turn>)
    requires turns != []
    ensures var n := |turns| - 1;
            Overflowed(max, turns[..n]) || (max > 0 && turns[n].Put? && |Play(max, turns[..n]).queue| >= max) ==> Overflowed(max, turns)
  {
    hide Play;
    var n := |turns| - 1;
    if Overflowed(max, turns[..n]) {
      var k :| 0 <= k < n && FullAt(max, turns[..n], k);
      assert turns[..n][..k] == turns[..k];
      assert FullAt(max, turns, k);
    } else if max > 0 && turns[n].Put? && |Play(max, turns[..n]).queue| >= max {
      assert FullAt(max, turns, n);
    }
  }

  lemma TurnLoses(max: int, l: Stream, turn: Turn)
    requires Complete(max, l)
    ensures Complete(max, Turned(max, l, turn))
    ensures var l' := Turned(max, l, turn);
            None in l'.seen + l'.queue ==> None in l.seen + l.queue || (max > 0 && turn.Put? && |l.queue| >= max)
  {
    var l' := Turned(max, l, turn);
    if turn.Take? {
      assert l'.seen + l'.queue == l.seen + l.queue;
    } else if max <= 0 || |l.queue| < max {
      assert l'.seen + l'.queue == (l.seen + l.queue) + [Some(l.published)];
    } else {
      assert (l'.seen + l'.queue)[|l'.seen|] == None;
    }
  }

  lemma TurnKeepsMarks(max: int, l: Stream, turn: Turn)
    requires GapsMarked(l.seen + l.queue, l.published)
    ensures var l' := Turned(max, l, turn); GapsMarked(l'.seen + l'.queue, l'.published)
  {
    hide GapsMarked;
    var l' := Turned(max, l, turn);
    if turn.Take? {
      assert l'.seen + l'.queue == l.seen + l.queue;
    } else if max <= 0 || |l.queue| < max {
      assert l'.seen + l'.queue == (l.seen + l.queue) + [Some(l.published)];
      OneMoreMarked(l.seen + l.queue, l.published);
    } else {
      LostMarked(l.seen, l.queue, l.published);
    }
  }

  lemma NothingMarked()
    ensures GapsMarked([] + [], 0)
  {
  }

  lemma OneMoreMarked(stream: seq<Option<nat>>, published: nat)
    requires GapsMarked(stream, published)
    ensures GapsMarked(stream + [Some(published)], published + 1)
  {
  }

  lemma LostMarked(seen: seq<Option<nat>>, queue: seq<Option<nat>>, published: nat)
    requires GapsMarked(seen + queue, published)
    ensures GapsMarked(seen + [None], published + 1)
  {
    var before, now := seen + queue, seen + [None];
    forall i | 0 < i < |now| && now[i].Some? && now[i - 1].Some? ensures now[i].value == now[i - 1].value + 1 {
      assert before[i] == now[i] && before[i - 1] == now[i - 1];
    }
    if seen != [] {
      assert before[0] == now[0];
    }
  }
}
