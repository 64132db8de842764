/** What the handlers leave in the tables and in the sockets, written out member by member. */
module Outcomes {
  import opened Rooms
  import opened Relay

  // ---------------------------------------------------------------- one client lost

  /** The room cannot go on without this member. */
  predicate EndsRoom(s: Core, ci: int)
    requires 0 <= ci < MAX_CLIENTS && 0 <= s.clients[ci].room < MAX_ROOMS
  {
    var room := s.rooms[s.clients[ci].room];
    room.started || |room.members| == 2 || (room.members != [] && room.members[0] == ci)
  }

  /** A member's seat, and the members without it. */
  lemma SeatAndRest(s: Core, ci: int, seats: int) returns (i: int)
    requires Good(s, seats) && 0 <= ci < MAX_CLIENTS && s.clients[ci].room != -1
    ensures
      var r := s.clients[ci].room;
      && 0 <= r < MAX_ROOMS && s.rooms[r].used && Attached(s, r) && Distinct(s.rooms[r].members)
      && var mm := s.rooms[r].members;
         && 2 <= |mm| && 0 <= i < |mm| && mm[i] == ci && Keep(mm, {ci}) == mm[..i] + mm[i + 1..]
         && SeatIn(mm, ci) == i && (mm[0] == ci <==> i == 0)
  {
    hide Good, Keep, SeatIn;
    RoomHeld(s, ci, seats);
    var r := s.clients[ci].room;
    RoomParts(s, r, seats);
    var mm := s.rooms[r].members;
    i :| 0 <= i < |mm| && mm[i] == ci;
    RemoveIsKeep(mm, i);
    SeatIs(mm, ci, i);
  }

  /** THEOREM.  A lost client leaves its room.  If the match had started, if it was the host or if it
      was one of two, the room is free again and nobody is in it; otherwise the others stay, the
      seats behind it closing up.  No other room and nobody outside it is touched. */
  lemma AfterLoss(s: Core, ci: int, seats: int)
    requires Good(s, seats) && 0 <= ci < MAX_CLIENTS && s.clients[ci].live
    ensures
      var t, r := Settle(s, {ci}), s.clients[ci].room;
      && t.clients[ci] == Client(false, s.clients[ci].name, -1)
      && (forall q :: 0 <= q < MAX_ROOMS && q != r ==> t.rooms[q] == s.rooms[q])
      && (forall c :: 0 <= c < MAX_CLIENTS && c != ci && (r == -1 || s.clients[c].room != r) ==>
            t.clients[c] == s.clients[c])
      && (r != -1 ==> 0 <= r < MAX_ROOMS && if EndsRoom(s, ci) then Over(s, t, r, ci) else ClosedUp(s, t, r, ci))
  {
    hide Settle, Keep, Good;
    SettleParts(s, {ci});
    OnlyOwnRoomHit(s, ci);
    var r := s.clients[ci].room;
    GoodParts(s, seats);
    if r != -1 {
      var i := SeatAndRest(s, ci, seats);
      assert Dissolves(s, r, {ci}) <==> EndsRoom(s, ci);
    }
  }

  predicate Over(s: Core, t: Core, r: int, ci: int)
    requires 0 <= r < MAX_ROOMS
  {
    && !t.rooms[r].used && t.rooms[r].members == []
    && forall c :: 0 <= c < MAX_CLIENTS && c != ci && s.clients[c].room == r ==>
         t.clients[c] == Client(s.clients[c].live, s.clients[c].name, -1)
  }

  ghost predicate ClosedUp(s: Core, t: Core, r: int, ci: int)
    requires 0 <= r < MAX_ROOMS
  {
    var mm := s.rooms[r].members;
    && (exists i :: 0 < i < |mm| && mm[i] == ci && t.rooms[r] == Room(true, mm[..i] + mm[i + 1..], false))
    && forall c :: 0 <= c < MAX_CLIENTS && c != ci && s.clients[c].room == r ==> t.clients[c] == s.clients[c]
  }

  /** Every one of these has exactly one more note, this one, and nobody else has any. */
  predicate ToldEach(a: Outs, b: Outs, targets: seq<int>, note: Note) {
    && (forall m <- targets :: 0 <= m < MAX_CLIENTS && b[m] == a[m] + [note])
    && (forall c :: 0 <= c < MAX_CLIENTS && c !in targets ==> b[c] == a[c])
  }

  lemma ToldIsEach(outs: Outs, targets: seq<int>, note: Note)
    requires Distinct(targets) && forall t <- targets :: 0 <= t < MAX_CLIENTS
    ensures ToldEach(outs, Told(outs, targets, note), targets, note)
  {
    hide Told, Distinct;
    forall c | 0 <= c < MAX_CLIENTS
      ensures Told(outs, targets, note)[c] == outs[c] + if c in targets then [note] else []
    {
      ToldAt(outs, targets, note, c);
    }
  }

  /** THEOREM.  Who is told of a lost client, and what.  In a match each of the others gets PEER_LEFT
      with its seat and name; in a forming room that ends, an empty ROOM; in one that goes on, the
      names of those who stay, in their order. */
  lemma DropTells(s: Core, outs: Outs, ci: int, seats: int) returns (i: int, names: seq<Name>)
    requires Good(s, seats) && 0 <= ci < MAX_CLIENTS && s.clients[ci].live && s.clients[ci].room != -1
    ensures 0 <= s.clients[ci].room < MAX_ROOMS
    ensures
      var mm := s.rooms[s.clients[ci].room].members;
      && 0 <= i < |mm| && mm[i] == ci && |names| == |mm| - 1
      && (forall j :: 0 <= j < i ==> 0 <= mm[j] < MAX_CLIENTS && names[j] == s.clients[mm[j]].name)
      && (forall j :: i < j < |mm| ==> 0 <= mm[j] < MAX_CLIENTS && names[j - 1] == s.clients[mm[j]].name)
      && ToldEach(outs, DropNotes(s, outs, ci), mm[..i] + mm[i + 1..],
           if s.rooms[s.clients[ci].room].started then PeerLeft(i, s.clients[ci].name)
           else if i == 0 || |mm| == 2 then RoomNote(0, [])
           else RoomNote(|mm| - 1, names))
  {
    hide Good, Keep, Told, ToldEach, Attached, Distinct, Roster, Unlinked, DropNotes, SeatIn;
    i := SeatAndRest(s, ci, seats);
    var mm := s.rooms[s.clients[ci].room].members;
    var left := mm[..i] + mm[i + 1..];
    names := Roster(Unlinked(s, ci), left);
    RestNames(s, ci, i);
    ToldIsEach(outs, left, RestNote(s, ci, i));
    DropNotesAre(s, outs, ci, i);
  }

  /** What the others are told when the member of seat i is lost. */
  function RestNote(s: Core, ci: int, i: int): Note
    requires 0 <= ci < MAX_CLIENTS && 0 <= s.clients[ci].room < MAX_ROOMS
    requires 0 <= i < |s.rooms[s.clients[ci].room].members|
  {
    var room := s.rooms[s.clients[ci].room];
    if room.started then PeerLeft(i, s.clients[ci].name)
    else if i == 0 || |room.members| == 2 then RoomNote(0, [])
    else RoomNote(|room.members| - 1, Roster(Unlinked(s, ci), room.members[..i] + room.members[i + 1..]))
  }

  lemma DropNotesAre(s: Core, outs: Outs, ci: int, i: int)
    requires 0 <= ci < MAX_CLIENTS && 0 <= s.clients[ci].room < MAX_ROOMS
    requires
      var mm := s.rooms[s.clients[ci].room].members;
      && 2 <= |mm| && 0 <= i < |mm| && SeatIn(mm, ci) == i && Keep(mm, {ci}) == mm[..i] + mm[i + 1..]
    ensures
      var mm := s.rooms[s.clients[ci].room].members;
      DropNotes(s, outs, ci) == Told(outs, mm[..i] + mm[i + 1..], RestNote(s, ci, i))
  {
    hide Told, Roster, Unlinked, SeatIn, Keep;
    UnlinkedMembers(s, ci);
    UnlinkedStarted(s, ci);
  }

  lemma UnlinkedStarted(s: Core, ci: int)
    requires 0 <= ci < MAX_CLIENTS && 0 <= s.clients[ci].room < MAX_ROOMS
    ensures Unlinked(s, ci).rooms[s.clients[ci].room].started == s.rooms[s.clients[ci].room].started
  {
  }

  /** The names of those who stay. */
  lemma RestNames(s: Core, ci: int, i: int)
    requires 0 <= ci < MAX_CLIENTS && 0 <= s.clients[ci].room < MAX_ROOMS && Attached(s, s.clients[ci].room)
    requires
      var mm := s.rooms[s.clients[ci].room].members;
      0 <= i < |mm| && mm[i] == ci && Distinct(mm)
    ensures
      var mm := s.rooms[s.clients[ci].room].members;
      var left, names := mm[..i] + mm[i + 1..], Roster(Unlinked(s, ci), mm[..i] + mm[i + 1..]);
      && |names| == |mm| - 1 && Distinct(left) && (forall t <- left :: 0 <= t < MAX_CLIENTS)
      && (forall j :: 0 <= j < i ==> 0 <= mm[j] < MAX_CLIENTS && names[j] == s.clients[mm[j]].name)
      && (forall j :: i < j < |mm| ==> 0 <= mm[j] < MAX_CLIENTS && names[j - 1] == s.clients[mm[j]].name)
  {
    hide Unlinked, Roster, Distinct;
    var mm := s.rooms[s.clients[ci].room].members;
    var left := mm[..i] + mm[i + 1..];
    WithoutSeat(mm, i);
    RosterIs(Unlinked(s, ci), left);
    UnlinkedParts(s, ci);
    assert forall j :: 0 <= j < |mm| ==> mm[j] in mm;
  }

  /** A sequence without its element i. */
  lemma WithoutSeat(mm: seq<int>, i: int)
    requires 0 <= i < |mm| && Distinct(mm)
    ensures
      var left := mm[..i] + mm[i + 1..];
      && |left| == |mm| - 1 && Distinct(left) && (forall t <- left :: t in mm && t != mm[i])
      && (forall j :: 0 <= j < i ==> left[j] == mm[j] != mm[i])
      && (forall j :: i < j < |mm| ==> left[j - 1] == mm[j] != mm[i])
  {
    var left := mm[..i] + mm[i + 1..];
    assert forall k :: 0 <= k < |left| ==> left[k] == mm[if k < i then k else k + 1];
  }

  lemma RosterIs(s: Core, members: seq<int>)
    ensures |Roster(s, members)| == |members|
    ensures forall i :: 0 <= i < |members| && 0 <= members[i] < MAX_CLIENTS ==>
      Roster(s, members)[i] == s.clients[members[i]].name
  {
  }

  /** Outside any room nobody is told. */
  lemma SoloDropTells(s: Core, outs: Outs, ci: int)
    requires 0 <= ci < MAX_CLIENTS && s.clients[ci].room == -1
    ensures DropNotes(s, outs, ci) == outs
  {
  }

  // ---------------------------------------------------------------- a JOIN

  /** THEOREM.  Who is in the room after a JOIN: everyone who was there and then the newcomer, or the
      client named, as host, and the newcomer. */
  lemma AfterJoin(s: Core, ci: int, name: Name, seats: int, r: int)
    requires Good(s, seats) && 2 <= seats && 0 <= ci < MAX_CLIENTS && s.clients[ci].live && s.clients[ci].room == -1
    requires JoinTarget(s, ci, name, seats) != -1
    requires
      var host := JoinTarget(s, ci, name, seats);
      0 <= host < MAX_CLIENTS && if s.clients[host].room == -1 then FirstFree(s, r) else r == s.clients[host].room
    ensures
      var host := JoinTarget(s, ci, name, seats);
      var t := JoinEffect(s, ci, host, r);
      && s.clients[host].live && s.clients[host].name == name && host != ci && 0 <= r < MAX_ROOMS
      && t.rooms[r].used && !t.rooms[r].started && |t.rooms[r].members| <= seats
      && t.rooms[r].members == (if s.clients[host].room == -1 then [host] else s.rooms[r].members) + [ci]
      && t.clients[ci] == Client(true, s.clients[ci].name, r) && t.clients[host] == Client(true, name, r)
      && (forall q :: 0 <= q < MAX_ROOMS && q != r ==> t.rooms[q] == s.rooms[q])
      && (forall c :: 0 <= c < MAX_CLIENTS && c != ci && c != host ==> t.clients[c] == s.clients[c])
  {
    GoodParts(s, seats);
    var host := JoinTarget(s, ci, name, seats);
    var i := FindName(s.names, name);
    assert s.names[i] in s.names && s.names[i].name == name;
    if s.clients[host].room != -1 {
      RoomHeld(s, host, seats);
      RoomParts(s, s.clients[host].room, seats);
    }
  }

  /** THEOREM.  Exactly who can be joined by a name: another client of that name, out of any room or in
      one that is still forming and has a seat left. */
  lemma JoinableExactly(s: Core, ci: int, name: Name, seats: int, host: int)
    requires Good(s, seats) && 0 <= ci < MAX_CLIENTS && name != []
    ensures JoinTarget(s, ci, name, seats) == host != -1 <==>
      && 0 <= host < MAX_CLIENTS && host != ci && s.clients[host].live && s.clients[host].name == name
      && (s.clients[host].room == -1 ||
           (0 <= s.clients[host].room < MAX_ROOMS && !s.rooms[s.clients[host].room].started &&
             |s.rooms[s.clients[host].room].members| < seats))
  {
    GoodParts(s, seats);
    var i := FindName(s.names, name);
    if i >= 0 { assert s.names[i] in s.names; }
    if 0 <= host < MAX_CLIENTS && s.clients[host].live && s.clients[host].name == name {
      assert Entry(name, host) in s.names;
      var j :| 0 <= j < |s.names| && s.names[j] == Entry(name, host);
    }
  }

  // ---------------------------------------------------------------- the order of names

  /** THEOREM.  A client that takes a free name is listed last, unless it had that name already, which
      keeps its place; its old name goes and the others keep their order. */
  lemma NameOrder(s: Core, ci: int, name: Name, seats: int)
    requires Good(s, seats) && 0 <= ci < MAX_CLIENTS && s.clients[ci].live && name != [] && FreeName(s, ci, name)
    ensures
      var mine, names := s.clients[ci].name, Registered(s, ci, name).names;
      if mine == name then names == s.names
      else if mine == [] then names == s.names + [Entry(name, ci)]
      else exists i :: 0 <= i < |s.names| && s.names[i] == Entry(mine, ci)
                       && names == s.names[..i] + s.names[i + 1..] + [Entry(name, ci)]
  {
    hide Linked, RoomRight, SetName, FindName, DelName;
    var mine, names := s.clients[ci].name, s.names;
    assert forall j :: 0 <= j < |names| ==> names[j] in names;
    RegisteredParts(s, ci, name);
    if mine == [] {
      NewLast(names, name, ci);
    } else {
      assert Entry(mine, ci) in names;
      var i := FindName(names, mine);
      if mine == name {
        SamePlace(names, i, name, ci);
      } else {
        DelNameIn(names, i);
        DelNameIs(names, i);
        var rest := DelName(names, i);
        assert forall j :: 0 <= j < |rest| ==> rest[j] in rest;
        NewLast(rest, name, ci);
      }
    }
  }

  lemma DelNameIs(names: seq<Entry>, i: int)
    requires 0 <= i < |names|
    ensures DelName(names, i) == names[..i] + names[i + 1..]
  {
  }

  lemma NewLast(names: seq<Entry>, name: Name, ci: int)
    requires forall j :: 0 <= j < |names| ==> names[j].name != name
    ensures SetName(names, name, ci) == names + [Entry(name, ci)]
  {
  }

  lemma SamePlace(names: seq<Entry>, i: int, name: Name, ci: int)
    requires i == FindName(names, name) && 0 <= i && names[i] == Entry(name, ci)
    ensures SetName(names, name, ci) == names
  {
  }

  /** THEOREM.  With a lost client goes its name and nothing else; the others keep their order. */
  lemma NamesAfterLoss(s: Core, ci: int, seats: int)
    requires Good(s, seats) && 0 <= ci < MAX_CLIENTS && s.clients[ci].live
    ensures
      var names := Settle(s, {ci}).names;
      if s.clients[ci].name == [] then names == s.names
      else exists i :: 0 <= i < |s.names| && s.names[i] == Entry(s.clients[ci].name, ci)
                       && names == s.names[..i] + s.names[i + 1..]
  {
    hide Linked, RoomRight, KeepNames, FilterOthers;
    SettleParts(s, {ci});
    KeepIsFilter(s.names, ci);
    assert forall j :: 0 <= j < |s.names| ==> s.names[j] in s.names;
    WithoutOne(s.names, ci);
    if s.clients[ci].name != [] { assert Entry(s.clients[ci].name, ci) in s.names; }
  }

  lemma {:induction false} KeepIsFilter(names: seq<Entry>, ci: int)
    ensures KeepNames(names, {ci}) == FilterOthers(names, ci)
  {
    if names != [] { KeepIsFilter(names[1..], ci); }
  }

  /** The lobby list: at most eight others, all of them if there are no more, in table order. */
  lemma FirstEight(names: seq<Entry>, ci: int)
    requires forall i, j :: 0 <= i < j < |names| && names[i].ci == ci ==> names[j].ci != ci
    ensures
      var shown := FirstOthers(names, ci);
      exists rest: seq<Entry> ::
        && AllBut(names, rest, ci) && (forall e <- rest :: e.ci != ci)
        && shown == if |rest| <= 8 then rest else rest[..8]
  {
    hide FilterOthers;
    var rest := FilterOthers(names, ci);
    WithoutOne(names, ci);
  }

  /** All of them, or all but the one entry of this client. */
  predicate AllBut(names: seq<Entry>, rest: seq<Entry>, ci: int) {
    rest == names || exists i :: 0 <= i < |names| && names[i].ci == ci && rest == names[..i] + names[i + 1..]
  }

  lemma {:induction false} WithoutOne(names: seq<Entry>, ci: int)
    requires forall i, j :: 0 <= i < j < |names| && names[i].ci == ci ==> names[j].ci != ci
    ensures AllBut(names, FilterOthers(names, ci), ci) && forall e <- FilterOthers(names, ci) :: e.ci != ci
  {
    hide AllBut;
    if names == [] {
      Unchanged(names, ci);
    } else if names[0].ci == ci {
      NobodyElse(names[1..], ci);
      FirstOut(names, ci);
    } else {
      WithoutOne(names[1..], ci);
      OneMore(names[0], names[1..], FilterOthers(names[1..], ci), ci);
      assert names == [names[0]] + names[1..];
    }
  }

  lemma {:induction false} NobodyElse(names: seq<Entry>, ci: int)
    requires forall i :: 0 <= i < |names| ==> names[i].ci != ci
    ensures FilterOthers(names, ci) == names && forall e <- names :: e.ci != ci
  {
    if names != [] { NobodyElse(names[1..], ci); }
  }

  lemma Unchanged(names: seq<Entry>, ci: int)
    ensures AllBut(names, names, ci)
  {
  }

  lemma FirstOut(names: seq<Entry>, ci: int)
    requires names != [] && names[0].ci == ci
    ensures AllBut(names, names[1..], ci)
  {
    assert names[..0] + names[1..] == names[1..];
  }

  lemma OneMore(e: Entry, names: seq<Entry>, rest: seq<Entry>, ci: int)
    requires AllBut(names, rest, ci)
    ensures AllBut([e] + names, [e] + rest, ci)
  {
    if rest != names {
      var i :| 0 <= i < |names| && names[i].ci == ci && rest == names[..i] + names[i + 1..];
      Prepended(e, names, i);
      assert ([e] + names)[i + 1].ci == ci;
    }
  }

  lemma Prepended(e: Entry, names: seq<Entry>, i: int)
    requires 0 <= i < |names|
    ensures ([e] + names)[i + 1] == names[i]
    ensures ([e] + names)[..i + 1] + ([e] + names)[i + 2..] == [e] + (names[..i] + names[i + 1..])
  {
    assert ([e] + names)[..i + 1] == [e] + names[..i];
    assert ([e] + names)[i + 2..] == names[i + 1..];
  }
}
