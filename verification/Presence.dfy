/**
 The roster of connected clients: reference-counted connections and round-robin
 marker colours.
 */
module Presence {
  import opened Values

  const COLORS: nat := 10

  datatype Member = Member(client: string, name: string, color: nat)

  /** One session's roster, its connection counts, and the colour cursor once set. */
  datatype Room = Room(roster: map<string, Member>, counts: map<string, nat>, cursor: Option<nat>)

  const EMPTY_ROOM := Room(map[], map[], None)

  function Used(roster: map<string, Member>): set<nat> {
    set c | c in roster :: roster[c].color
  }

  /** The next colour not in use, scanning `tries` slots round-robin from the
      cursor, or the slot after those; and the cursor it leaves. */
  function NextColor(cursor: nat, used: set<nat>, tries: nat): (nat, nat)
    decreases tries
  {
    var idx := cursor % COLORS;
    if tries == 0 || idx !in used then (idx, idx + 1) else NextColor(idx + 1, used, tries - 1)
  }

  function GuestName(name: Option<string>, guest: string): string {
    if name.Some? && name.value != "" then name.value else guest
  }

  /** `guest` is the fallback name, `Guest-<n>` with n the roster size plus one. */
  function Join(r: Room, client: string, name: Option<string>, guest: string): Room {
    var (color, cursor) :=
      if client in r.roster then (r.roster[client].color, r.cursor)
      else var (c, next) := NextColor(r.cursor.GetOr(0), Used(r.roster), COLORS); (c, Some(next));
    Room(r.roster[client := Member(client, GuestName(name, guest), color)],
         r.counts[client := Lookup(r.counts, client).GetOr(0) + 1], cursor)
  }

  function Leave(r: Room, client: string): (Room, Option<Member>) {
    var count := Lookup(r.counts, client).GetOr(0);
    if count > 1 then (r.(counts := r.counts[client := count - 1]), None)
    else
      var roster := r.roster - {client};
      (Room(roster, r.counts - {client}, if roster == map[] && r.roster != map[] then None else r.cursor),
       Lookup(r.roster, client))
  }

  class PresenceRegistry {
    var roster: map<string, Member>
    var counts: map<string, nat>
    var cursor: Option<nat>

    function View(): Room
      reads this
    {
      Room(roster, counts, cursor)
    }

    constructor ()
      ensures View() == EMPTY_ROOM
    {
      roster, counts, cursor := map[], map[], None;
    }

    method AssignColor() returns (color: nat)
      modifies this`cursor
      ensures var (c, next) := NextColor(old(cursor).GetOr(0), Used(roster), COLORS);
              color == c && cursor == Some(next)
    {
      var used := set c | c in roster :: roster[c].color;
      for i := 0 to COLORS
        invariant NextColor(cursor.GetOr(0), used, COLORS - i) == NextColor(old(cursor).GetOr(0), used, COLORS)
      {
        var idx := cursor.GetOr(0) % COLORS;
        cursor := Some(idx + 1);
        if idx !in used {
          return idx;
        }
      }
      color := cursor.GetOr(0) % COLORS;
      cursor := Some(color + 1);
    }

    method JoinRoom(client: string, name: Option<string>, guest: string) returns (member: Member)
      modifies this
      ensures View() == Join(old(View()), client, name, guest)
      ensures client in roster && member == roster[client]
    {
      var color: nat;
      if client in roster {
        color := roster[client].color;
      } else {
        color := AssignColor();
      }
      member := Member(client, GuestName(name, guest), color);
      roster := roster[client := member];
      counts := counts[client := (if client in counts then counts[client] else 0) + 1];
    }

    method LeaveRoom(client: string) returns (left: Option<Member>)
      modifies this
      ensures (View(), left) == Leave(old(View()), client)
    {
      var count := if client in counts then counts[client] else 0;
      if count > 1 {
        counts := counts[client := count - 1];
        return None;
      }
      counts := counts - {client};
      if roster == map[] {
        return None;
      }
      left := if client in roster then Some(roster[client]) else None;
      roster := roster - {client};
      if roster == map[] {
        cursor := None;
      }
    }
  }

  // ------------------------------------------------- joins, leaves and colours

  datatype Visit = Joined(client: string, name: Option<string>, guest: string) | Closed(client: string)

  function After(r: Room, v: Visit): Room {
    match v
    case Joined(client, name, guest) => Join(r, client, name, guest)
    case Closed(client) => Leave(r, client).0
  }

  function AfterAll(r: Room, visits: seq<Visit>): Room {
    if visits == [] then r else After(AfterAll(r, visits[..|visits| - 1]), visits[|visits| - 1])
  }

  /** How many of the client's connections are open after these visits. */
  function OpenConnections(visits: seq<Visit>, client: string): nat {
    if visits == [] then 0
    else
      var before, v := OpenConnections(visits[..|visits| - 1], client), visits[|visits| - 1];
      if v.client != client then before
      else if v.Joined? then before + 1
      else if before > 0 then before - 1 else 0
  }

  /** The registry counts exactly the open connections, and the roster lists exactly
      the clients that have one. */
  lemma {:induction false} RosterIsWhoIsConnected(visits: seq<Visit>, client: string)
    ensures var r := AfterAll(EMPTY_ROOM, visits);
            && Lookup(r.counts, client).GetOr(0) == OpenConnections(visits, client)
            && (client in r.counts <==> OpenConnections(visits, client) > 0)
            && (client in r.roster <==> OpenConnections(visits, client) > 0)
  {
    if visits != [] {
      RosterIsWhoIsConnected(visits[..|visits| - 1], client);
    }
  }

  /** A close reports a departure exactly when it closes the last connection. */
  lemma DepartsWithLastConnection(visits: seq<Visit>, client: string)
    ensures Leave(AfterAll(EMPTY_ROOM, visits), client).1.Some? <==> OpenConnections(visits, client) == 1
  {
    RosterIsWhoIsConnected(visits, client);
  }

  /** A join puts the client on the roster under its own name, or the guest name when it
      gives none; it keeps the colour it has; and it touches nobody else. */
  lemma JoinIs(r: Room, client: string, name: Option<string>, guest: string)
    ensures var r' := Join(r, client, name, guest);
            && r'.roster.Keys == r.roster.Keys + {client}
            && r'.roster[client].client == client
            && r'.roster[client].name == (if name.Some? && name.value != "" then name.value else guest)
            && (client in r.roster ==> r'.roster[client].color == r.roster[client].color && r'.cursor == r.cursor)
            && forall c :: c != client ==>
                 Lookup(r'.roster, c) == Lookup(r.roster, c) && Lookup(r'.counts, c) == Lookup(r.counts, c)
  {
  }

  /** A close touches nobody else; the last one reports the member as the roster had it, and
      the colours start over when the room is empty. */
  lemma LeaveIs(r: Room, client: string)
    ensures var (r', left) := Leave(r, client);
            && (left.Some? ==> client in r.roster && left.value == r.roster[client] && client !in r'.roster)
            && (forall c :: c != client ==>
                  Lookup(r'.roster, c) == Lookup(r.roster, c) && Lookup(r'.counts, c) == Lookup(r.counts, c))
            && (client in r'.roster ==> r'.roster[client] == r.roster[client])
            && (r.roster != map[] && r'.roster == map[] ==> r'.cursor.None?)
            && (r'.roster != map[] ==> r'.cursor == r.cursor)
  {
  }

  /** The name a client goes by: the one of its latest join. */
  function NameOf(visits: seq<Visit>, client: string): string {
    if visits == [] then ""
    else
      var v := visits[|visits| - 1];
      if v.client == client && v.Joined? then
        if v.name.Some? && v.name.value != "" then v.name.value else v.guest
      else NameOf(visits[..|visits| - 1], client)
  }

  /** Whoever is on the roster is there under the name of the latest join. */
  lemma {:induction false} RosterNames(visits: seq<Visit>, client: string)
    requires client in AfterAll(EMPTY_ROOM, visits).roster
    ensures var m := AfterAll(EMPTY_ROOM, visits).roster[client]; m.client == client && m.name == NameOf(visits, client)
  {
    if visits != [] {
      var before, v := visits[..|visits| - 1], visits[|visits| - 1];
      var r := AfterAll(EMPTY_ROOM, before);
      hide Join, Leave;
      if v.Joined? {
        JoinIs(r, v.client, v.name, v.guest);
      } else {
        LeaveIs(r, v.client);
      }
      if !(v.Joined? && v.client == client) {
        assert Lookup(After(r, v).roster, client).Some?;
        if v.client != client {
          assert Lookup(After(r, v).roster, client) == Lookup(r.roster, client);
        }
        StillThere(r, v, client);
        RosterNames(before, client);
      }
    }
  }

  lemma StillThere(r: Room, v: Visit, client: string)
    requires client in After(r, v).roster && !(v.Joined? && v.client == client)
    ensures client in r.roster && r.roster[client] == After(r, v).roster[client]
  {
  }

  lemma {:induction false} ScanFinds(cursor: nat, used: set<nat>, tries: nat, j: nat)
    requires j < tries && (cursor + j) % COLORS !in used
    ensures NextColor(cursor, used, tries).0 !in used
    ensures NextColor(cursor, used, tries).0 < COLORS
    decreases tries
  {
    var idx := cursor % COLORS;
    if idx in used {
      assert j > 0;
      assert (idx + 1 + (j - 1)) % COLORS == (cursor + j) % COLORS;
      ScanFinds(idx + 1, used, tries - 1, j - 1);
    }
  }

  /** The colour `i` places on, going round. */
  function Slot(cursor: nat, i: nat): nat {
    (cursor + i) % COLORS
  }

  /** The colour is the first free one, going round from the cursor; with none free it is the
      one at the cursor; and the cursor moves just past it. */
  lemma {:induction false} NextColorIs(cursor: nat, used: set<nat>, tries: nat) returns (j: nat)
    ensures j <= tries && (forall i :: 0 <= i < j ==> Slot(cursor, i) in used)
    ensures var (color, next) := NextColor(cursor, used, tries);
            && color == Slot(cursor, j) && next == color + 1 && (j < tries ==> color !in used)
    decreases tries
  {
    j := 0;
    if tries > 0 && cursor % COLORS in used {
      var before := NextColorIs(cursor % COLORS + 1, used, tries - 1);
      j := before + 1;
      RoundTheColours(cursor, before);
      forall i | 0 <= i < j ensures Slot(cursor, i) in used {
        if i > 0 {
          RoundTheColours(cursor, i - 1);
        }
      }
    }
  }

  lemma RoundTheColours(cursor: nat, i: nat)
    ensures Slot(cursor % COLORS + 1, i) == Slot(cursor, i + 1)
  {
  }

  /** A new joiner gets an unused colour whenever one of the ten is free. */
  lemma NewJoinerColorUnused(r: Room, client: string, name: Option<string>, guest: string, free: nat)
    requires client !in r.roster && free < COLORS && free !in Used(r.roster)
    ensures Join(r, client, name, guest).roster[client].color !in Used(r.roster)
  {
    var cursor := r.cursor.GetOr(0);
    var j := (free + COLORS - cursor % COLORS) % COLORS;
    assert (cursor + j) % COLORS == free;
    ScanFinds(cursor, Used(r.roster), COLORS, j);
  }

  ghost predicate ColorsDistinct(roster: map<string, Member>) {
    && (forall c :: c in roster ==> roster[c].color < COLORS)
    && forall c, d :: c in roster && d in roster && c != d ==> roster[c].color != roster[d].color
  }

  lemma {:induction false} BelowHasGap(n: nat, used: set<nat>) returns (free: nat)
    requires |used| < n
    ensures free < n && free !in used
  {
    if n - 1 !in used {
      free := n - 1;
    } else {
      free := BelowHasGap(n - 1, used - {n - 1});
    }
  }

  lemma {:induction false} UsedSize(roster: map<string, Member>)
    ensures |Used(roster)| <= |roster|
    decreases |roster|
  {
    if roster != map[] {
      var c :| c in roster;
      UsedSize(roster - {c});
      var rest := roster - {c};
      forall x | x in Used(roster) ensures x in Used(rest) + {roster[c].color} {
        var d :| d in roster && roster[d].color == x;
        assert d == c || (d in rest && rest[d] == roster[d]);
      }
      SizeOfSubset(Used(roster), Used(roster - {c}) + {roster[c].color});
    }
  }

  lemma {:induction false} SizeOfSubset(a: set<nat>, b: set<nat>)
    requires a <= b
    ensures |a| <= |b|
    decreases b
  {
    if x :| x in a {
      SizeOfSubset(a - {x}, b - {x});
    }
  }

  /** The roster never holds more than ten clients along the way. */
  ghost predicate NeverCrowded(visits: seq<Visit>) {
    forall k :: 0 <= k <= |visits| ==> |AfterAll(EMPTY_ROOM, visits[..k]).roster| <= COLORS
  }

  /** As long as at most ten clients are connected at a time, no two share a colour. */
  lemma {:induction false} ColorsStayDistinct(visits: seq<Visit>)
    requires NeverCrowded(visits)
    ensures ColorsDistinct(AfterAll(EMPTY_ROOM, visits).roster)
  {
    if visits != [] {
      var before, v := visits[..|visits| - 1], visits[|visits| - 1];
      assert forall k :: 0 <= k <= |before| ==> before[..k] == visits[..k];
      ColorsStayDistinct(before);
      var r := AfterAll(EMPTY_ROOM, before);
      if v.Joined? && v.client !in r.roster {
        assert visits[..|visits|] == visits;
        assert |After(r, v).roster| <= COLORS;
        assert After(r, v).roster.Keys == r.roster.Keys + {v.client};
        UsedSize(r.roster);
        var free := BelowHasGap(COLORS, Used(r.roster));
        NewJoinerColorUnused(r, v.client, v.name, v.guest, free);
        ColorInRange(r.cursor.GetOr(0), Used(r.roster), COLORS);
        assert forall c :: c in r.roster ==> r.roster[c].color in Used(r.roster);
      }
    }
  }

  lemma {:induction false} ColorInRange(cursor: nat, used: set<nat>, tries: nat)
    ensures NextColor(cursor, used, tries).0 < COLORS
    decreases tries
  {
    if tries > 0 {
      ColorInRange(cursor % COLORS + 1, used, tries - 1);
    }
  }
}
