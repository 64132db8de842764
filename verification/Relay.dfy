/** The relay's handlers on its tables.  A send may find the backlog full or the socket
    broken and then drops its own target on the spot, so any handler can lose any number of
    clients at any send.  Every contract names the set that was lost and says the tables are
    what the handler intended, settled for that set. */
module Relay {
  import opened Counting
  import opened Rooms
  import opened NameTable

  const SHOWN := 8 // LOBBY_ENTRIES

  datatype Row = Row(name: Name, status: int)

  /** Frames the relay writes to a client. */
  datatype Note =
    | RoomNote(count: int, roster: seq<Name>)
    | PeerLeft(seat: int, name: Name)
    | Lobby(rows: seq<Row>)
    | StartNote(seat: int, count: int, seed: int, roster: seq<Name>)
    | Relayed(from: int, data: seq<int>)
    | Pong

  type Outs = s: seq<seq<Note>> | |s| == MAX_CLIENTS witness seq(MAX_CLIENTS, _ => [])

  function Roster(s: Core, members: seq<int>): seq<Name> {
    seq(|members|, i requires 0 <= i < |members| =>
      if 0 <= members[i] < MAX_CLIENTS then s.clients[members[i]].name else [])
  }

  /** status_byte: member count, and bit 7 for a room that cannot be joined. */
  function Status(s: Core, c: int, seats: int): int
    requires 0 <= c < MAX_CLIENTS
  {
    var r := s.clients[c].room;
    if !(0 <= r < MAX_ROOMS) then 1
    else |s.rooms[r].members| + if s.rooms[r].started || |s.rooms[r].members| >= seats then 0x80 else 0
  }

  /** The first eight other named clients in name-table order. */
  function Others(names: seq<Entry>, ci: int, room: nat): seq<Entry>
  {
    if names == [] || room == 0 then []
    else if names[0].ci == ci then Others(names[1..], ci, room)
    else [names[0]] + Others(names[1..], ci, room - 1)
  }

  function LobbyRows(s: Core, others: seq<Entry>, seats: int): seq<Row> {
    seq(|others|, i requires 0 <= i < |others| =>
      Row(others[i].name, if 0 <= others[i].ci < MAX_CLIENTS then Status(s, others[i].ci, seats) else 1))
  }

  /** How many more notes each client's connection will take before a send to it fails. */
  type Spares = s: seq<nat> | |s| == MAX_CLIENTS witness seq(MAX_CLIENTS, _ => 0)
  datatype Ends = Ends(outs: Outs, spare: Spares)

  /** Notes are only ever appended, each at the cost of one that the connection would take. */
  predicate Grown(a: Ends, b: Ends) {
    forall c :: 0 <= c < MAX_CLIENTS ==>
      a.outs[c] <= b.outs[c] && |b.outs[c]| + b.spare[c] == |a.outs[c]| + a.spare[c]
  }

  /** Clients are lost only to a send their connection would not take. */
  ghost predicate Spent(gone: set<int>, e: Ends) {
    forall c <- gone :: 0 <= c < MAX_CLIENTS && e.spare[c] == 0
  }

  datatype Sent = Sent(from: int, data: seq<int>)

  /** The relayed frames among a client's notes, in order. */
  function Heard(notes: seq<Note>): seq<Sent> {
    if notes == [] then []
    else
      var n := |notes| - 1;
      Heard(notes[..n]) + if notes[n].Relayed? then [Sent(notes[n].from, notes[n].data)] else []
  }

  /** Whatever was sent, nothing of it was a relayed frame. */
  ghost predicate Quiet(a: Outs, b: Outs) {
    forall c :: 0 <= c < MAX_CLIENTS ==> Heard(b[c]) == Heard(a[c])
  }

  /** Only clients of the ring were lost or sent anything. */
  ghost predicate Within(a: Ends, b: Ends, gone: set<int>, ring: set<int>) {
    gone <= ring && forall c :: 0 <= c < MAX_CLIENTS && c !in ring ==>
      b.outs[c] == a.outs[c] && b.spare[c] == a.spare[c]
  }

  function SetOf(members: seq<int>): set<int> { set m | m in members }

  /** A client and its room-mates. */
  function Circle(s: Core, ci: int): set<int>
    requires 0 <= ci < MAX_CLIENTS
  {
    var r := s.clients[ci].room;
    {ci} + if 0 <= r < MAX_ROOMS then SetOf(s.rooms[r].members) else {}
  }

  /** Those of the targets whose connection takes nothing more. */
  function Broke(targets: seq<int>, e: Ends): set<int> {
    set t | t in targets && 0 <= t < MAX_CLIENTS && e.spare[t] == 0
  }

  /** Room-mates left behind. */
  function Left(s: Core, ci: int): seq<int>
    requires 0 <= ci < MAX_CLIENTS
  {
    var r := s.clients[ci].room;
    if 0 <= r < MAX_ROOMS then Keep(s.rooms[r].members, {ci}) else []
  }

  /** The room goes on without the client: forming, its host stays, and two are left. */
  predicate Reseats(s: Core, ci: int)
    requires 0 <= ci < MAX_CLIENTS
  {
    var r := s.clients[ci].room;
    0 <= r < MAX_ROOMS && !s.rooms[r].started && s.rooms[r].members != [] && s.rooms[r].members[0] != ci &&
      |Left(s, ci)| >= 2
  }

  /** Notes appended for some clients, and nothing else. */
  function Told(outs: Outs, targets: seq<int>, note: Note): Outs
  {
    if targets == [] || !(0 <= targets[|targets| - 1] < MAX_CLIENTS) then outs
    else
      var before := Told(outs, targets[..|targets| - 1], note);
      var t := targets[|targets| - 1];
      before[t := before[t] + [note]]
  }

  class Server {
    const seats: int // g_max_seats
    var clients: Clients
    var rooms: RoomTable
    const table: ByName
    var outs: Outs // what each client's socket has been given
    var spare: Spares // decided outside: a full backlog or a broken socket is a spare of 0

    function Now(): Core
      requires table.Valid()
      reads this, table, table.slots
    {
      Core(clients, rooms, table.Contents())
    }

    function Sockets(): Ends
      reads this
    {
      Ends(outs, spare)
    }

    /** An empty server. */
    constructor (maxSeats: int)
      ensures seats == maxSeats && table.Valid() && fresh(table) && fresh(table.slots)
      ensures Good(Now(), maxSeats) && Now() == Empty()
      ensures forall c :: 0 <= c < MAX_CLIENTS ==> outs[c] == [] && spare[c] == 0
    {
      seats := maxSeats;
      clients, rooms := Empty().clients, Empty().rooms;
      table := new ByName();
      outs := seq(MAX_CLIENTS, _ => []);
      spare := seq(MAX_CLIENTS, _ => 0);
      new;
      hide Good;
      EmptyGood(maxSeats);
    }

    /** client_alloc: the first free slot becomes a nameless client outside any room. */
    method Accept(takes: nat) returns (ci: int)
      requires table.Valid()
      requires Good(Now(), seats)
      modifies this, table, table.slots
      ensures table.Valid()
      ensures Good(Now(), seats)
      ensures if |LiveSet(old(Now()))| == 64
              then ci == -1 && Now() == old(Now()) && Sockets() == old(Sockets())
              else 0 <= ci < MAX_CLIENTS && !old(clients[ci].live) && Now() == Accepted(old(Now()), ci)
                   && (forall c :: 0 <= c < ci ==> old(clients[c].live))
                   && outs == old(outs)[ci := []] && spare == old(spare)[ci := takes]
    {
      hide Good, LiveSet;
      ci := 0;
      while ci < MAX_CLIENTS && clients[ci].live
        invariant 0 <= ci <= MAX_CLIENTS && forall c :: 0 <= c < ci ==> clients[c].live
      {
        ci := ci + 1;
      }
      SlotsLeft(Now(), ci);
      if ci == MAX_CLIENTS {
        return -1;
      }
      AcceptedGood(Now(), ci, seats);
      clients := clients[ci := Client(true, [], -1)];
      outs, spare := outs[ci := []], spare[ci := takes];
    }

    /** send_frame: nothing for a dead client; a full backlog or a broken socket drops it. */
    method Send(ci: int, note: Note) returns (ghost gone: set<int>)
      requires table.Valid()
      requires 0 <= ci < MAX_CLIENTS && Linked(Now())
      modifies this, table, table.slots
      ensures table.Valid()
      ensures Now() == Settle(old(Now()), gone) && Linked(Now()) && gone <= LiveSet(old(Now()))
      ensures Grown(old(Sockets()), Sockets()) && Spent(gone, Sockets())
      ensures Within(old(Sockets()), Sockets(), gone, Circle(old(Now()), ci))
      ensures gone == {} <==> !old(clients[ci].live) || old(spare[ci]) > 0
      ensures gone != {} ==> ci in gone
      ensures gone != {} && !Reseats(old(Now()), ci) ==> gone == {ci} + Broke(Left(old(Now()), ci), old(Sockets()))
      ensures !note.Relayed? || gone != {} ==> Quiet(old(outs), outs)
      ensures gone == {} ==> outs == if clients[ci].live then old(outs)[ci := old(outs)[ci] + [note]] else old(outs)
      decreases |LiveSet(Now())|, 1
    {
      hide Linked, Settle, LiveSet, Grown, Spent, Quiet, Within, Broke, Left, Reseats, Circle;
      SettleNone(Now());
      gone := {};
      GrownSame(Sockets());
      Untouched(Sockets(), Circle(Now(), ci));
      if !clients[ci].live {
        return;
      }
      if spare[ci] == 0 {
        ghost var e0 := Sockets();
        gone := Drop(ci);
        SpentToo(e0, Sockets(), gone, ci);
      } else {
        OneNote(Sockets(), ci, note);
        OneNoteWithin(Sockets(), Now(), ci, note);
        outs, spare := outs[ci := outs[ci] + [note]], spare[ci := spare[ci] - 1];
      }
    }

    /** The same note to a list of clients taken beforehand. */
    method SendAll(targets: seq<int>, note: Note, ghost ring: set<int>) returns (ghost gone: set<int>)
      requires table.Valid()
      requires Linked(Now()) && !note.Relayed?
      requires forall t <- targets :: 0 <= t < MAX_CLIENTS && Circle(Now(), t) <= ring
      modifies this, table, table.slots
      ensures table.Valid()
      ensures Now() == Settle(old(Now()), gone) && Linked(Now()) && gone <= LiveSet(old(Now()))
      ensures Grown(old(Sockets()), Sockets()) && Spent(gone, Sockets())
      ensures Within(old(Sockets()), Sockets(), gone, ring) && Quiet(old(outs), outs)
      ensures forall t <- targets :: old(clients[t].live) && old(spare[t]) == 0 ==> t in gone
      ensures Alone(old(Now()), targets) ==> gone == Broke(targets, old(Sockets()))
      ensures Listening(old(Now()), targets) && Broke(targets, old(Sockets())) == {} ==> gone == {}
      ensures gone == {} && (forall t <- targets :: old(clients[t].live)) ==> outs == Told(old(outs), targets, note)
      decreases |LiveSet(Now())|, 2
    {
      hide Linked, Settle, LiveSet, Told, Grown, Spent, Quiet, Within, Broke, Left, Reseats, Circle, Alone, Listening,
        Telling;
      gone := {};
      SettleNone(Now());
      ghost var s0, outs0, e0 := Now(), outs, Sockets();
      TellingNone(s0, e0, ring, targets, note);
      var i := 0;
      while i < |targets|
        invariant 0 <= i <= |targets| && table.Valid() && Linked(Now())
        invariant Now() == Settle(s0, gone) && gone <= LiveSet(s0)
        invariant Telling(s0, e0, Sockets(), ring, targets, i, note, gone)
      {
        SettleLive(s0, gone);
        SmallerSet(LiveSet(Now()), LiveSet(s0));
        assert targets[i] in targets;
        ghost var e1 := Sockets();
        ghost var more := Send(targets[i], note);
        SettleTwice(s0, gone, more);
        TellingSend(s0, e0, e1, Sockets(), ring, targets, i, note, gone, more);
        gone := Both(gone, more);
        i := i + 1;
      }
      TellingAll(s0, e0, Sockets(), ring, targets, note, gone);
    }

    /** room_seat. */
    method SeatOf(members: seq<int>, ci: int) returns (seat: int)
      ensures if ci in members then 0 <= seat < |members| && members[seat] == ci else seat == -1
    {
      seat := 0;
      while seat < |members|
        invariant 0 <= seat <= |members| && ci !in members[..seat]
      {
        if members[seat] == ci {
          return;
        }
        seat := seat + 1;
      }
      assert members[..seat] == members;
      seat := -1;
    }

    /** Return every member to solo. */
    method Release(members: seq<int>)
      requires forall m <- members :: 0 <= m < MAX_CLIENTS
      modifies `clients
      ensures clients == Solo(old(clients), members)
    {
      var i := 0;
      SoloNone(clients);
      while i < |members|
        invariant 0 <= i <= |members| && clients == Solo(old(clients), members[..i])
      {
        assert members[i] in members;
        SoloStep(old(clients), members, i);
        clients := clients[members[i] := clients[members[i]].(room := -1)];
        i := i + 1;
      }
      assert members[..i] == members;
    }

    /** dissolve with its members told: they are already solo, the room still in use, while
        the sends run. */
    method DissolveTelling(ri: int) returns (ghost gone: set<int>)
      requires table.Valid()
      requires 0 <= ri < MAX_ROOMS && Linked(Now()) && Attached(Now(), ri)
      modifies this, table, table.slots
      ensures table.Valid()
      ensures Now() == Settle(Cleared(Freed(old(Now()), ri), ri), gone) && Linked(Now())
      ensures gone <= LiveSet(old(Now())) && Grown(old(Sockets()), Sockets()) && Spent(gone, Sockets())
      ensures Within(old(Sockets()), Sockets(), gone, SetOf(old(rooms[ri].members))) && Quiet(old(outs), outs)
      ensures gone == Broke(old(rooms[ri].members), old(Sockets()))
      ensures gone == {} ==> outs == Told(old(outs), old(rooms[ri].members), RoomNote(0, []))
      decreases |LiveSet(Now())|, 3
    {
      hide Settle, LiveSet, Grown, Spent, Linked, Attached, Told, Quiet, Within, Broke, Circle, Alone, SetOf;
      ghost var s0 := Now();
      FreedAlone(s0, ri);
      var notify := rooms[ri].members;
      MembersBelow(s0, ri);
      AttachedLive(s0, ri);
      Release(notify);
      ghost var s1 := Now();
      FreedLinked(s0, ri);
      assert s1 == Freed(s0, ri);
      LiveSame(s0, s1);
      gone := SendAll(notify, RoomNote(0, []), SetOf(notify));
      StaleRoom(s1, ri, gone);
      ClearedLinked(s1, ri);
      SettleLinked(Cleared(s1, ri), gone);
      rooms := rooms[ri := rooms[ri].(used := false, members := [])];
    }

    /** dissolve without telling anyone: the end of a match. */
    method DissolveQuietly(ri: int)
      requires table.Valid()
      requires 0 <= ri < MAX_ROOMS && Linked(Now()) && Attached(Now(), ri)
      modifies `clients, `rooms
      ensures Now() == Cleared(Freed(old(Now()), ri), ri) && Linked(Now()) && LiveSet(Now()) == LiveSet(old(Now()))
    {
      hide Linked, Attached, LiveSet;
      ghost var s0 := Now();
      MembersBelow(s0, ri);
      Release(rooms[ri].members);
      rooms := rooms[ri := rooms[ri].(used := false, members := [])];
      FreedLinked(s0, ri);
      ClearedLinked(Freed(s0, ri), ri);
      LiveSame(s0, Now());
    }

    /** room_broadcast: the member list to a snapshot of it. */
    method Broadcast(ri: int) returns (ghost gone: set<int>)
      requires table.Valid()
      requires 0 <= ri < MAX_ROOMS && Linked(Now()) && Attached(Now(), ri)
      modifies this, table, table.slots
      ensures table.Valid()
      ensures Now() == Settle(old(Now()), gone) && Linked(Now()) && gone <= LiveSet(old(Now()))
      ensures Grown(old(Sockets()), Sockets()) && Spent(gone, Sockets())
      ensures Within(old(Sockets()), Sockets(), gone, SetOf(old(rooms[ri].members))) && Quiet(old(outs), outs)
      ensures Broke(old(rooms[ri].members), old(Sockets())) <= gone
      ensures Broke(old(rooms[ri].members), old(Sockets())) == {} ==> gone == {}
      ensures gone == {} ==>
        outs == Told(old(outs), old(rooms[ri].members),
                     RoomNote(|old(rooms[ri].members)|, Roster(old(Now()), old(rooms[ri].members))))
      decreases |LiveSet(Now())|, 3
    {
      hide Settle, LiveSet, Grown, Spent, Told, Quiet, Within, Circle, Alone, SetOf;
      AttachedLive(Now(), ri);
      RoomCircles(Now(), ri);
      var mm := rooms[ri].members;
      gone := SendAll(mm, RoomNote(|mm|, Roster(Now(), mm)), SetOf(mm));
    }

    /** What drop does to the room the client was in: end the match, dissolve, or reseat. */
    method Aftermath(ri: int, seat: int, name: Name) returns (ghost gone: set<int>)
      requires table.Valid()
      requires 0 <= ri < MAX_ROOMS && Linked(Now()) && Attached(Now(), ri)
      modifies this, table, table.slots
      ensures table.Valid()
      ensures
        var over := old(rooms[ri].started) || seat == 0 || |old(rooms[ri].members)| < 2;
        Now() == Settle(if over then Cleared(Freed(old(Now()), ri), ri) else old(Now()), gone)
      ensures Linked(Now()) && gone <= LiveSet(old(Now()))
      ensures Grown(old(Sockets()), Sockets()) && Spent(gone, Sockets())
      ensures Within(old(Sockets()), Sockets(), gone, SetOf(old(rooms[ri].members))) && Quiet(old(outs), outs)
      ensures Broke(old(rooms[ri].members), old(Sockets())) <= gone
      ensures old(rooms[ri].started) || seat == 0 || |old(rooms[ri].members)| < 2 ==>
        gone == Broke(old(rooms[ri].members), old(Sockets()))
      ensures gone == {} ==>
        outs == LeftNotes(old(Now()), old(outs), ri, seat, name)
      decreases |LiveSet(Now())|, 4
    {
      hide Settle, LiveSet, Grown, Spent, Linked, Attached, Told, Quiet, Within, Circle, Alone, SetOf;
      if rooms[ri].started {
        var survivors := rooms[ri].members;
        MembersBelow(Now(), ri);
        AttachedLive(Now(), ri);
        FreedAlone(Now(), ri);
        DissolveQuietly(ri);
        gone := SendAll(survivors, PeerLeft(seat, name), SetOf(survivors));
      } else if seat == 0 {
        gone := DissolveTelling(ri);
      } else if |rooms[ri].members| < 2 {
        gone := DissolveTelling(ri);
      } else {
        gone := Broadcast(ri);
      }
    }

    /** drop: mark the client dead, take it out of the names and of its room, and end, reseat
        or dissolve the room, telling whoever is left. */
    method Drop(ci: int) returns (ghost gone: set<int>)
      requires table.Valid()
      requires 0 <= ci < MAX_CLIENTS && Linked(Now())
      modifies this, table, table.slots
      ensures table.Valid()
      ensures Now() == Settle(old(Now()), gone) && Linked(Now()) && gone <= LiveSet(old(Now()))
      ensures old(clients[ci].live) ==> ci in gone
      ensures Grown(old(Sockets()), Sockets()) && Spent(gone - {ci}, Sockets())
      ensures Within(old(Sockets()), Sockets(), gone, Circle(old(Now()), ci)) && Quiet(old(outs), outs)
      ensures old(clients[ci].live) ==> Broke(Left(old(Now()), ci), old(Sockets())) <= gone
      ensures old(clients[ci].live) && !Reseats(old(Now()), ci) ==>
        gone == {ci} + Broke(Left(old(Now()), ci), old(Sockets()))
      ensures gone == {ci} ==> outs == DropNotes(old(Now()), old(outs), ci)
      decreases |LiveSet(Now())|, 0
    {
      hide Settle, LiveSet, Grown, Linked, Dissolves, Attached, Told, LeftNotes, Quiet, Within, Circle, Broke;
      gone := {};
      SettleNone(Now());
      GrownSame(Sockets());
      Untouched(Sockets(), Circle(Now(), ci));
      if !clients[ci].live {
        return;
      }
      ghost var s0 := Now();
      var ri := clients[ci].room;
      UnlinkedFacts(s0, ci);
      clients := clients[ci := clients[ci].(live := false, room := -1)];
      table.DelClient(ci);
      DropCircle(s0, ci, Sockets());
      if ri < 0 {
        gone := {ci};
        return;
      }
      var seat := SeatOf(rooms[ri].members, ci);
      RemoveIsKeep(rooms[ri].members, seat);
      SeatIs(rooms[ri].members, ci, seat);
      rooms := rooms[ri := rooms[ri].(members := rooms[ri].members[..seat] + rooms[ri].members[seat + 1..])];
      ghost var s1 := Now();
      assert s1 == Unlinked(s0, ci);
      ghost var e1 := Sockets();
      ghost var more := Aftermath(ri, seat, clients[ci].name);
      SettleTwice(s0, {ci}, more);
      WithinTrans(e1, e1, Sockets(), {ci}, more, Circle(s0, ci), SetOf(Left(s0, ci)));
      gone := {ci} + more;
      if gone == {ci} { OnlyOne(ci, more, LiveSet(s1)); }
    }

    /** on_list: the loop over the name table, at most eight rows. */
    method OnList(ci: int) returns (ghost gone: set<int>)
      requires table.Valid()
      requires 0 <= ci < MAX_CLIENTS && Good(Now(), seats)
      modifies this, table, table.slots
      ensures table.Valid()
      ensures Now() == Settle(old(Now()), gone) && Good(Now(), seats) && gone <= LiveSet(old(Now()))
      ensures Grown(old(Sockets()), Sockets()) && Spent(gone, Sockets())
      ensures Within(old(Sockets()), Sockets(), gone, Circle(old(Now()), ci)) && Quiet(old(outs), outs)
      ensures gone == {} <==> !old(clients[ci].live) || old(spare[ci]) > 0
      ensures gone == {} && old(clients[ci].live) ==>
        outs == old(outs)[
          ci := old(outs)[ci] + [Lobby(LobbyRows(old(Now()), FirstOthers(old(table.Contents()), ci), seats))]]
    {
      hide Good, Settle, LiveSet, Linked, LobbyRows, Grown, Spent, Quiet, Within, Circle;
      var others := ListOthers(ci);
      GoodParts(Now(), seats);
      gone := Send(ci, Lobby(LobbyRows(Now(), others, seats)));
      SettleGood(old(Now()), gone, seats);
      if gone == {} { SettleNone(old(Now())); }
    }

    /** on_list's loop. */
    method ListOthers(ci: int) returns (others: seq<Entry>)
      requires table.Valid()
      requires 0 <= ci < MAX_CLIENTS && Good(Now(), seats)
      ensures others == FirstOthers(table.Contents(), ci)
    {
      hide Good, Others;
      GoodParts(Now(), seats);
      others := [];
      var i := 0;
      ghost var names := table.Contents();
      while i < table.n && |others| < SHOWN
        invariant 0 <= i <= table.n && |others| <= SHOWN
        invariant others + Others(names[i..], ci, SHOWN - |others|) == Others(names, ci, SHOWN)
      {
        OthersStep(names, i, ci, others);
        var oc := table.slots[i].ci;
        if oc != ci && clients[oc].name != [] {
          others := others + [table.slots[i]];
        }
        i := i + 1;
      }
      OthersDone(names[i..], ci, SHOWN - |others|);
      assert others + [] == others;
      OthersIsFilter(names, ci, SHOWN);
    }

    /** start_room: START to a snapshot of the members, each with its own seat. */
    method StartRoom(ri: int, seed: int) returns (ghost gone: set<int>)
      requires table.Valid()
      requires 0 <= ri < MAX_ROOMS && Good(Now(), seats) && rooms[ri].used
      modifies this, table, table.slots
      ensures table.Valid()
      ensures Now() == Settle(Started(old(Now()), ri), gone) && Good(Now(), seats)
      ensures Grown(old(Sockets()), Sockets()) && Spent(gone, Sockets())
      ensures Within(old(Sockets()), Sockets(), gone, SetOf(old(rooms[ri].members))) && Quiet(old(outs), outs)
      ensures Broke(old(rooms[ri].members), old(Sockets())) == {} ==> gone == {}
      ensures gone == {} ==>
        outs == Seated(old(outs), old(rooms[ri].members), Roster(old(Now()), old(rooms[ri].members)), seed)
      ensures gone == {} ==> EachItsSeat(old(Now()), old(outs), outs, old(rooms[ri].members), seed)
    {
      hide Good, Settle, LiveSet, Linked, Seated, Grown, Spent, Started, Quiet, Within, Circle, SetOf;
      GoodParts(Now(), seats);
      RoomParts(Now(), ri, seats);
      StartedGood(Now(), ri, seats);
      var mm := rooms[ri].members;
      var roster := Roster(Now(), mm);
      ghost var s1, outs0, e0 := Started(Now(), ri), outs, Sockets();
      GrownSame(e0);
      StartedParts(Now(), ri);
      rooms := rooms[ri := rooms[ri].(started := true)];
      GoodParts(s1, seats);
      gone := {};
      SettleNone(s1);
      SeatedNone(outs, mm, roster, seed);
      RoomCircles(s1, ri);
      Untouched(e0, SetOf(mm));
      var seat := 0;
      while seat < |mm|
        invariant 0 <= seat <= |mm| && table.Valid() && Linked(Now()) && Now() == Settle(s1, gone)
        invariant Grown(e0, Sockets()) && Spent(gone, Sockets())
        invariant Within(e0, Sockets(), gone, SetOf(mm)) && Quiet(outs0, outs)
        invariant gone == {} ==> outs == SeatedTo(outs0, mm, roster, seed, seat)
        invariant Broke(mm, e0) == {} ==> gone == {}
      {
        assert mm[seat] in mm;
        if Broke(mm, e0) == {} { NotYetSeated(e0, Sockets(), mm, roster, seed, seat); }
        ghost var e1, near := Sockets(), Circle(Now(), mm[seat]);
        CircleShrinks(s1, gone, mm[seat]);
        ghost var more := Send(mm[seat], StartNote(seat, |mm|, seed, roster));
        SettleTwice(s1, gone, more);
        GrownTrans(e0, e1, Sockets(), gone, more);
        WithinTrans(e0, e1, Sockets(), gone, more, SetOf(mm), near);
        QuietTrans(outs0, e1.outs, outs);
        gone := Both(gone, more);
        seat := seat + 1;
      }
      SettleGood(s1, gone, seats);
      SeatedAll(outs0, mm, roster, seed);
      EachSeated(old(Now()), outs0, mm, seed);
    }

    /** on_go: only the host of a forming room of the right size. */
    method OnGo(ci: int, seed: int) returns (went: bool, ghost gone: set<int>)
      requires table.Valid()
      requires 0 <= ci < MAX_CLIENTS && Good(Now(), seats)
      modifies this, table, table.slots
      ensures table.Valid()
      ensures
        var r := old(clients[ci].room);
        && (went <==> 0 <= r < MAX_ROOMS && !old(rooms[r].started) && old(rooms[r].members)[0] == ci)
        && Now() == (if went then Settle(Started(old(Now()), r), gone) else old(Now()))
        && (went && gone == {} ==>
             outs == Seated(old(outs), old(rooms[r].members), Roster(old(Now()), old(rooms[r].members)), seed))
        && (went && gone == {} ==> EachItsSeat(old(Now()), old(outs), outs, old(rooms[r].members), seed))
        && (went && Broke(old(rooms[r].members), old(Sockets())) == {} ==> gone == {})
        && (!went ==> outs == old(outs))
      ensures Good(Now(), seats) && Grown(old(Sockets()), Sockets()) && Spent(gone, Sockets())
      ensures Within(old(Sockets()), Sockets(), gone, Circle(old(Now()), ci)) && Quiet(old(outs), outs)
    {
      hide Good, Settle, LiveSet, Started, Seated, Grown, Spent, Quiet, Within;
      GoodParts(Now(), seats);
      GrownSame(Sockets());
      ghost var ring := Circle(Now(), ci);
      Untouched(Sockets(), ring);
      went, gone := false, {};
      var ri := clients[ci].room;
      if ri < 0 || rooms[ri].started {
        return;
      }
      RoomParts(Now(), ri, seats);
      var seat := SeatOf(rooms[ri].members, ci);
      if seat != 0 {
        SeatUnique(rooms[ri].members, seat);
        return;
      }
      if |rooms[ri].members| < 2 || |rooms[ri].members| > seats {
        return;
      }
      went := true;
      ghost var e0, inner := Sockets(), SetOf(rooms[ri].members);
      gone := StartRoom(ri, seed);
      WithinTrans(e0, e0, Sockets(), {}, gone, ring, inner);
      assert {} + gone == gone;
    }

    /** room_alloc's search; it never fails while two clients are solo. */
    method AllocRoom(ghost solo: int) returns (r: int)
      requires table.Valid()
      requires Good(Now(), seats) && 0 <= solo < MAX_CLIENTS && clients[solo].room == -1
      ensures 0 <= r < MAX_ROOMS && !rooms[r].used && forall q :: 0 <= q < r ==> rooms[q].used
    {
      hide Good;
      RoomFree(Now(), seats, solo);
      ghost var free :| 0 <= free < MAX_ROOMS && !Now().rooms[free].used;
      r := 0;
      while rooms[r].used
        invariant 0 <= r <= free && forall q :: 0 <= q < r ==> rooms[q].used
        decreases MAX_ROOMS - r
      {
        r := r + 1;
      }
    }

    /** The client a JOIN names, if it can be joined, else -1. */
    method Target(ci: int, name: Name) returns (target: int)
      requires table.Valid()
      requires 0 <= ci < MAX_CLIENTS && Good(Now(), seats)
      ensures target == JoinTarget(Now(), ci, name, seats)
      ensures target != -1 ==> 0 <= target < MAX_CLIENTS && target != ci && clients[target].live
    {
      hide Good;
      GoodParts(Now(), seats);
      var ti := table.Find(name);
      target := if ti >= 0 then table.slots[ti].ci else -1;
      if ti >= 0 { assert table.slots[ti] == table.Contents()[ti] && table.Contents()[ti] in table.Contents(); }
      if target < 0 || target == ci || clients[target].name == [] ||
         (clients[target].room >= 0 &&
           (rooms[clients[target].room].started || |rooms[clients[target].room].members| >= seats)) {
        target := -1;
      }
    }

    /** The tables' half of on_join: into the target's room, opened for it if need be. */
    method Enter(ci: int, target: int) returns (ri: int)
      requires table.Valid()
      requires 0 <= ci < MAX_CLIENTS && 0 <= target < MAX_CLIENTS && ci != target && 2 <= seats
      requires Good(Now(), seats) && clients[ci].live && clients[target].live && clients[ci].room == -1
      requires clients[target].room >= 0 ==>
        clients[target].room < MAX_ROOMS && |rooms[clients[target].room].members| < seats
      modifies `clients, `rooms
      ensures 0 <= ri < MAX_ROOMS && Good(Now(), seats)
      ensures if old(clients[target].room) >= 0
              then ri == old(clients[target].room) && Now() == Joined(old(Now()), ri, ci)
              else FirstFree(old(Now()), ri) && Now() == Opened(old(Now()), ri, target, ci)
    {
      hide Good;
      ghost var s0 := Now();
      GoodParts(s0, seats);
      ri := clients[target].room;
      if ri < 0 {
        ri := AllocRoom(target);
        OpenedGood(s0, ri, target, ci, seats);
        rooms := rooms[ri := Room(true, [target], false)];
        clients := clients[target := clients[target].(room := ri)];
      } else {
        RoomParts(s0, ri, seats);
        JoinedGood(s0, ri, ci, seats);
      }
      rooms := rooms[ri := rooms[ri].(members := rooms[ri].members + [ci])];
      clients := clients[ci := clients[ci].(room := ri)];
      if s0.clients[target].room < 0 {
        assert [target] + [ci] == [target, ci];
        assert rooms == Opened(s0, ri, target, ci).rooms;
      }
    }

    /** on_join. */
    method OnJoin(ci: int, name: Name, autoGo: nat, seed: int)
      returns (joined: bool, ri: int, ghost told: set<int>, ghost mid: Core, ghost lost: set<int>)
      requires table.Valid()
      requires 0 <= ci < MAX_CLIENTS && 2 <= seats && Good(Now(), seats) && clients[ci].live
      modifies this, table, table.slots
      ensures table.Valid()
      ensures Good(Now(), seats)
      ensures joined <==>
        old(clients[ci].name) != [] && old(clients[ci].room) == -1 && JoinTarget(old(Now()), ci, name, seats) != -1
      ensures !joined ==> Now() == Settle(old(Now()), told) && (old(clients[ci].name) == [] ==> ci in told)
      ensures joined ==>
        && 0 <= ri < MAX_ROOMS &&
             mid == Settle(JoinEffect(old(Now()), ci, JoinTarget(old(Now()), ci, name, seats), ri), told)
        && Now() == if 0 < autoGo <= |mid.rooms[ri].members| then Settle(Started(mid, ri), lost) else mid
      ensures Grown(old(Sockets()), Sockets())
      ensures Spent(if old(clients[ci].name) == [] then told - {ci} else told, Sockets()) && Spent(lost, Sockets())
      ensures Within(old(Sockets()), Sockets(), told + lost, JoinRing(old(Now()), ci, name, seats)) &&
        Quiet(old(outs), outs)
      ensures joined && old(clients[JoinTarget(Now(), ci, name, seats)].room) == -1 ==> FirstFree(old(Now()), ri)
      ensures joined ==>
        var mm := JoinEffect(old(Now()), ci, JoinTarget(old(Now()), ci, name, seats), ri).rooms[ri].members;
        Broke(mm, old(Sockets())) == {} ==> told == {}
      ensures joined && told == {} && !(0 < autoGo <= |mid.rooms[ri].members|) ==>
        outs == Told(old(outs), mid.rooms[ri].members,
          RoomNote(|mid.rooms[ri].members|, Roster(mid, mid.rooms[ri].members)))
      ensures joined && told == {} && lost == {} && 0 < autoGo <= |mid.rooms[ri].members| ==>
        var mm := mid.rooms[ri].members;
        EachItsSeat(mid, Told(old(outs), mm, RoomNote(|mm|, Roster(mid, mm))), outs, mm, seed)
      ensures !joined && told == {} && old(clients[ci].name) != [] ==>
        outs == if old(clients[ci].room) >= 0 then old(outs)
                else old(outs)[
                  ci := old(outs)[ci] + [Lobby(LobbyRows(old(Now()), FirstOthers(old(table.Contents()), ci), seats))]]
    {
      hide Good, Settle, LiveSet, Linked, JoinTarget, Started, Joined, Opened, Told, LobbyRows, FirstOthers, Grown,
        Spent, Quiet, Within, Circle, JoinRing, SetOf;
      GoodParts(Now(), seats);
      ghost var e0, ring := Sockets(), JoinRing(Now(), ci, name, seats);
      GrownSame(e0);
      Untouched(e0, ring);
      JoinRingParts(Now(), ci, name, seats);
      joined, ri, told, mid, lost := false, -1, {}, Now(), {};
      if clients[ci].name == [] {
        ghost var inner := Circle(Now(), ci);
        told := Drop(ci);
        SpentNothing(Sockets());
        SettleGood(old(Now()), told, seats);
        Wider(e0, Sockets(), told, inner, ring);
        return;
      }
      if clients[ci].room >= 0 {
        SettleNone(Now());
        Wider(e0, e0, {}, ring, ring);
        return;
      }
      var target := Target(ci, name);
      if target < 0 {
        ghost var inner := Circle(Now(), ci);
        told := OnList(ci);
        SpentNothing(Sockets());
        Wider(e0, Sockets(), told, inner, ring);
        return;
      }
      joined := true;
      JoinTargetParts(Now(), ci, name, seats);
      ri := Enter(ci, target);
      ghost var s1 := Now();
      GoodParts(s1, seats);
      RoomJoined(old(Now()), ci, target, ri, seats);
      RoomParts(s1, ri, seats);
      JoinedMembers(old(Now()), ci, target, ri, seats);
      ghost var inner := SetOf(rooms[ri].members);
      told := Broadcast(ri);
      ghost var e1 := Sockets();
      SpentNothing(e1);
      Wider(e0, e1, told, inner, ring);
      SettleGood(s1, told, seats);
      SettleNone(s1);
      mid := Now();
      if autoGo > 0 && |rooms[ri].members| >= autoGo {
        RoomUsed(Now(), ri, seats);
        FewerMembers(s1, told, ri);
        ghost var fewer := SetOf(rooms[ri].members);
        lost := StartRoom(ri, seed);
        WithinTrans(e0, e1, Sockets(), told, lost, ring, fewer);
        QuietTrans(e0.outs, e1.outs, outs);
        GrownTrans(e0, e1, Sockets(), told, lost);
        SpentPart(told, lost, Sockets());
      }
    }

    /** The tables' half of on_hello: the old alias goes, the name is this client's. */
    method TakeName(ci: int, name: Name)
      requires table.Valid()
      requires 0 <= ci < MAX_CLIENTS && NamesRight(Now())
      modifies `clients, table, table.slots
      ensures table.Valid() && Now() == Registered(old(Now()), ci, name)
    {
      hide NamesRight, FindName, DelName, SetName;
      ghost var s := Now();
      RegisteredParts(s, ci, name);
      if clients[ci].name != [] && clients[ci].name != name {
        var i := table.Find(clients[ci].name);
        if i >= 0 && table.slots[i].ci == ci {
          table.DelAt(i);
        }
      }
      assert table.Contents() == Unaliased(s, ci, name);
      if FindName(table.Contents(), name) < 0 { RoomForName(s, ci, name); }
      clients := clients[ci := clients[ci].(name := name)];
      table.Set(name, ci);
    }

    /** on_hello's eviction: the name's other holder is dropped. */
    method Evict(ci: int, name: Name) returns (ghost evicted: set<int>)
      requires table.Valid()
      requires 0 <= ci < MAX_CLIENTS && Good(Now(), seats)
      modifies this, table, table.slots
      ensures table.Valid()
      ensures Now() == Settle(old(Now()), evicted) && Good(Now(), seats) && FreeName(Now(), ci, name)
      ensures FreeName(old(Now()), ci, name) ==> evicted == {}
      ensures evicted == {} ==> Now() == old(Now()) && outs == old(outs) && spare == old(spare)
      ensures seats == 2 || !GoesOn(old(Now()), ci, name) ==> evicted == EvictedBy(old(Now()), old(Sockets()), ci, name)
      ensures ci in evicted ==> Rivals(old(Now()), ci, name)
      ensures TakenDown(old(Now()), old(Sockets()), ci, name) ==> ci in evicted
      ensures Grown(old(Sockets()), Sockets()) && Spent(evicted - Holders(old(table.Contents()), name), Sockets())
      ensures Within(old(Sockets()), Sockets(), evicted, HelloRing(old(Now()), ci, name)) && Quiet(old(outs), outs)
    {
      hide Grown, Spent, Holders, Quiet, Within, Circle, HelloRing, Good, NamesRight, Settle, LiveSet, Linked,
        EvictedBy, Broke, Left, Reseats, DropNotes, FreeName, GoesOn, Rivals, TakenDown;
      ghost var s0, e0, ring := Now(), Sockets(), HelloRing(Now(), ci, name);
      GoodParts(s0, seats);
      evicted := {};
      SettleNone(s0);
      GrownSame(e0);
      Untouched(e0, ring);
      HelloRingParts(s0, ci, name);
      SpentPart({}, Holders(s0.names, name), e0);
      EvictedParts(s0, e0, ci, name, seats);
      var holder := table.Find(name);
      if holder >= 0 && table.slots[holder].ci != ci {
        assert table.slots[holder] == s0.names[holder] && s0.names[holder] in s0.names;
        HolderIn(s0.names, name);
        ghost var inner := Circle(Now(), table.slots[holder].ci);
        evicted := Drop(table.slots[holder].ci);
        Wider(e0, Sockets(), evicted, inner, ring);
        EvictedReach(s0, e0, Sockets(), ci, name, seats, evicted);
        SpentLess(evicted, s0.names[holder].ci, Holders(s0.names, name), Sockets());
        SettleGood(s0, evicted, seats);
      }
      GoodNames(s0, seats);
      NowFree(s0, evicted, ci, name);
    }

    /** on_hello after its payload has given a good name: evict the name's other holder, and
        if that did not take this client down too, take the name. */
    method OnHello(ci: int, name: Name) returns (ghost evicted: set<int>, ghost lost: set<int>)
      requires table.Valid()
      requires 0 <= ci < MAX_CLIENTS && Good(Now(), seats) && clients[ci].live && name != []
      modifies this, table, table.slots
      ensures table.Valid()
      ensures Good(Now(), seats)
      ensures FreeName(old(Now()), ci, name) ==> evicted == {}
      ensures seats == 2 || !GoesOn(old(Now()), ci, name) ==> evicted == EvictedBy(old(Now()), old(Sockets()), ci, name)
      ensures ci in evicted ==> Rivals(old(Now()), ci, name)
      ensures TakenDown(old(Now()), old(Sockets()), ci, name) ==> ci in evicted
      ensures ci in evicted ==> Now() == Settle(old(Now()), evicted)
      ensures ci !in evicted ==> Now() == Settle(Registered(Settle(old(Now()), evicted), ci, name), lost)
      ensures Grown(old(Sockets()), Sockets()) && Spent(lost, Sockets())
      ensures Spent(evicted - Holders(old(table.Contents()), name), Sockets())
      ensures Within(old(Sockets()), Sockets(), evicted + lost, HelloRing(old(Now()), ci, name)) &&
        Quiet(old(outs), outs)
      ensures evicted == {} && old(spare[ci]) > 0 ==> lost == {}
      ensures evicted == {} && lost == {} ==>
        outs == old(outs)[ci := old(outs)[ci] + [Lobby(LobbyRows(Now(), FirstOthers(table.Contents(), ci), seats))]]
    {
      hide LobbyRows, FirstOthers, Grown, Spent, Holders, Quiet, Within, Circle, HelloRing, Good, NamesRight, Settle,
        LiveSet, Linked, Registered, EvictedBy, FreeName, GoesOn, Rivals, TakenDown;
      ghost var s0, e0, ring := Now(), Sockets(), HelloRing(Now(), ci, name);
      lost := {};
      evicted := Evict(ci, name);
      ghost var e1, s1 := Sockets(), Now();
      SpentNothing(e1);
      DeadOnlyIfGone(s0, evicted, ci);
      Wider(e0, e1, evicted, ring, ring);
      if !clients[ci].live {
        return;
      }
      RegisteredGood(s1, ci, name, seats);
      GoodNames(s1, seats);
      TakeName(ci, name);
      GoodParts(s0, seats);
      CircleShrinks(s0, evicted, ci);
      RegisteredParts(s1, ci, name);
      SameCircle(s1, Now(), ci);
      HelloRingParts(s0, ci, name);
      ghost var near := Circle(Now(), ci);
      lost := OnList(ci);
      WithinTrans(e0, e1, Sockets(), evicted, lost, ring, near);
      QuietTrans(e0.outs, e1.outs, outs);
      SettleNone(Registered(s1, ci, name));
      GrownTrans(e0, e1, Sockets(), evicted - Holders(s0.names, name), lost);
      SpentPart(evicted - Holders(s0.names, name), lost, Sockets());
    }

    /** The Python on_hello: it takes the name without looking whether the eviction took this
        client down as well. */
    method OnHelloUnchecked(ci: int, name: Name) returns (ghost evicted: set<int>)
      requires table.Valid()
      requires 0 <= ci < MAX_CLIENTS && Good(Now(), seats) && clients[ci].live && name != []
      modifies this, table, table.slots
      ensures table.Valid()
      ensures seats == 2 || !GoesOn(old(Now()), ci, name) ==> evicted == EvictedBy(old(Now()), old(Sockets()), ci, name)
      ensures ci in evicted ==> Rivals(old(Now()), ci, name)
      ensures TakenDown(old(Now()), old(Sockets()), ci, name) ==> ci in evicted
      ensures NamesRight(Now()) <==> ci !in evicted
      ensures seats == 2 || !GoesOn(old(Now()), ci, name) ==>
        (NamesRight(Now()) <==> !TakenDown(old(Now()), old(Sockets()), ci, name))
    {
      hide Grown, Spent, Holders, Quiet, Within, HelloRing, Good, NamesRight, Settle, LiveSet, Linked, Registered,
        EvictedBy, FreeName, GoesOn, Rivals, TakenDown;
      ghost var s0, e0 := Now(), Sockets();
      evicted := Evict(ci, name);
      ghost var s1 := Now();
      GoodNames(s1, seats);
      TakeName(ci, name);
      UncheckedHello(s0, e0, ci, name, seats);
      DeadTakesName(s0, evicted, ci, name, seats);
      DeadOnlyIfGone(s0, evicted, ci);
      RegisteredParts(s1, ci, name);
      if clients[ci].live { // a dead client is sent no list
        RegisteredGood(s1, ci, name, seats);
        ghost var lost := OnList(ci);
        GoodNames(Now(), seats);
        GoodNames(Registered(s1, ci, name), seats);
      }
    }

    /** The relayed types: verbatim to every other member of a started room.  `got` is who was
        given the frame: every room-mate that is not lost, and nobody outside the room. */
    method OnRelay(ci: int, data: seq<int>) returns (ghost gone: set<int>, ghost got: set<int>)
      requires table.Valid()
      requires 0 <= ci < MAX_CLIENTS && Good(Now(), seats)
      modifies this, table, table.slots
      ensures table.Valid()
      ensures Now() == Settle(old(Now()), gone) && Good(Now(), seats)
      ensures Grown(old(Sockets()), Sockets()) && Spent(gone, Sockets())
      ensures Within(old(Sockets()), Sockets(), gone, Circle(old(Now()), ci))
      ensures (forall c <- Circle(old(Now()), ci) :: 0 <= c < MAX_CLIENTS ==> old(spare[c]) > 0) ==> gone == {}
      ensures got <= Mates(old(Now()), ci) && Mates(old(Now()), ci) - gone <= got
      ensures HeardBy(old(outs), outs, Sent(ci, data), got)
      ensures gone == {} ==> outs == Told(old(outs), Hearers(old(Now()), ci), Relayed(ci, data))
    {
      hide Good, Settle, LiveSet, Linked, Told, Grown, Spent, Keep, Quiet, Within, Circle, HeardBy, Left, Reseats,
        Broke, Relaying;
      ghost var s0, e0, ring, frame := Now(), Sockets(), Circle(Now(), ci), Sent(ci, data);
      GoodParts(s0, seats);
      gone, got := {}, {};
      SettleNone(s0);
      GrownSame(e0);
      Untouched(e0, ring);
      HeardNothing(outs, frame);
      ToldNone(outs, Relayed(ci, data));
      HearersParts(s0, ci, seats);
      var ri := clients[ci].room;
      if ri < 0 || !rooms[ri].started {
        return;
      }
      var mm := rooms[ri].members;
      RoomParts(s0, ri, seats);
      MembersLive(s0, ri, seats);
      RelayingNone(e0, ring, mm, frame);
      var i := 0;
      while i < |mm|
        invariant 0 <= i <= |mm| && table.Valid() && Linked(Now()) && Now() == Settle(s0, gone)
        invariant Relaying(e0, Sockets(), ring, mm, i, frame, gone, got)
      {
        OneLater(mm, i);
        ghost var e1, s1, more := Sockets(), Now(), {};
        if mm[i] != ci {
          CircleShrinks(s0, gone, mm[i]);
          more := Send(mm[i], Relayed(ci, data));
          SettleTwice(s0, gone, more);
          RelayingSend(s0, e0, e1, Sockets(), ring, mm, i, frame, gone, got, more);
          got := if more == {} && s1.clients[mm[i]].live then got + {mm[i]} else got;
          gone := Both(gone, more);
        } else {
          RelayingSkip(e0, Sockets(), ring, mm, i, frame, gone, got);
        }
        i := i + 1;
      }
      RelayingAll(e0, Sockets(), ring, mm, frame, gone, got);
      SettleGood(s0, gone, seats);
    }
  }

  // ---------------------------------------------------------------- a drop, step by step

  function SeatIn(members: seq<int>, ci: int): int {
    if members == [] || members[0] == ci then 0 else 1 + SeatIn(members[1..], ci)
  }

  /** Who is told what about a seat that was left: survivors of a match that ended, members of
      a forming room that loses its host or is too small, or the reseated rest. */
  function LeftNotes(s: Core, outs: Outs, r: int, seat: int, name: Name): Outs
    requires 0 <= r < MAX_ROOMS
  {
    var left := s.rooms[r].members;
    if s.rooms[r].started then Told(outs, left, PeerLeft(seat, name))
    else if seat == 0 || |left| < 2 then Told(outs, left, RoomNote(0, []))
    else Told(outs, left, RoomNote(|left|, Roster(s, left)))
  }

  /** A drop that takes nobody else along. */
  function DropNotes(s: Core, outs: Outs, ci: int): Outs
    requires 0 <= ci < MAX_CLIENTS
  {
    var r := s.clients[ci].room;
    if !(0 <= r < MAX_ROOMS) then outs
    else LeftNotes(Unlinked(s, ci), outs, r, SeatIn(s.rooms[r].members, ci), s.clients[ci].name)
  }

  lemma {:induction false} SeatIs(members: seq<int>, ci: int, seat: int)
    requires 0 <= seat < |members| && members[seat] == ci && Distinct(members)
    ensures SeatIn(members, ci) == seat
    decreases |members|
  {
    if seat > 0 { SeatIs(members[1..], ci, seat - 1); }
  }

  lemma AttachedLive(s: Core, r: int)
    requires Linked(s) && 0 <= r < MAX_ROOMS && Attached(s, r)
    ensures forall m <- s.rooms[r].members :: 0 <= m < MAX_CLIENTS && s.clients[m].live
  {
  }

  lemma OnlyOne(ci: int, more: set<int>, live: set<int>)
    requires {ci} + more == {ci} && more <= live && ci !in live
    ensures more == {}
  {
    assert more <= {ci} + more;
    assert ci !in more;
  }

  function Solo(clients: Clients, members: seq<int>): Clients {
    seq(MAX_CLIENTS, c requires 0 <= c < MAX_CLIENTS => if c in members then clients[c].(room := -1) else clients[c])
  }

  lemma SoloNone(clients: Clients)
    ensures Solo(clients, []) == clients
  {
  }

  lemma SoloStep(clients: Clients, members: seq<int>, i: nat)
    requires i < |members| && 0 <= members[i] < MAX_CLIENTS
    ensures
      var before := Solo(clients, members[..i]);
      Solo(clients, members[..i + 1]) == before[members[i] := before[members[i]].(room := -1)]
  {
    assert members[..i + 1] == members[..i] + [members[i]];
  }

  /** The client out of everything, its room's fate not decided yet. */
  function Unlinked(s: Core, ci: int): Core
    requires 0 <= ci < MAX_CLIENTS
  {
    var r := s.clients[ci].room;
    Core(s.clients[ci := s.clients[ci].(live := false, room := -1)],
         if 0 <= r < MAX_ROOMS then s.rooms[r := s.rooms[r].(members := Keep(s.rooms[r].members, {ci}))] else s.rooms,
         KeepNames(s.names, {ci}))
  }

  function Freed(s: Core, r: int): Core
    requires 0 <= r < MAX_ROOMS
  {
    s.(clients := Solo(s.clients, s.rooms[r].members))
  }

  function Cleared(s: Core, r: int): Core
    requires 0 <= r < MAX_ROOMS
  {
    s.(rooms := s.rooms[r := s.rooms[r].(used := false, members := [])])
  }

  lemma {:induction false} RemoveIsKeep(members: seq<int>, i: int)
    requires 0 <= i < |members| && Distinct(members)
    ensures members[..i] + members[i + 1..] == Keep(members, {members[i]})
    decreases |members|
  {
    var rest := members[1..];
    if i == 0 {
      KeepAbsent(rest, members[0]);
      assert members[..0] + rest == rest;
    } else {
      RemoveIsKeep(rest, i - 1);
      assert members[0] != members[i];
      assert members[..i] + members[i + 1..] == [members[0]] + (rest[..i - 1] + rest[i..]);
    }
  }

  lemma {:induction false} KeepAbsent(members: seq<int>, x: int)
    requires x !in members
    ensures Keep(members, {x}) == members
    decreases |members|
  {
    if members != [] {
      KeepAbsent(members[1..], x);
      assert members == [members[0]] + members[1..];
    }
  }

  lemma {:induction false} KeepAppend(a: seq<int>, b: seq<int>, gone: set<int>)
    ensures Keep(a + b, gone) == Keep(a, gone) + Keep(b, gone)
  {
    if a == [] {
      assert a + b == b;
    } else {
      assert (a + b)[1..] == a[1..] + b;
      KeepAppend(a[1..], b, gone);
    }
  }

  lemma MembersBelow(s: Core, r: int)
    requires 0 <= r < MAX_ROOMS && Attached(s, r)
    ensures forall m <- s.rooms[r].members :: 0 <= m < MAX_CLIENTS && s.clients[m].room == r
  {
  }

  lemma LiveSame(s: Core, t: Core)
    requires forall c :: 0 <= c < MAX_CLIENTS ==> s.clients[c].live == t.clients[c].live
    ensures LiveSet(s) == LiveSet(t)
  {
  }

  lemma FreedLinked(s: Core, r: int)
    requires Linked(s) && 0 <= r < MAX_ROOMS && Attached(s, r)
    ensures Linked(Freed(s, r)) && Detached(Freed(s, r), r)
  {
    var t := Freed(s, r);
    forall q | 0 <= q < MAX_ROOMS ensures Attached(t, q) || Detached(t, q) {
      if q != r && Attached(s, q) { assert Attached(t, q); }
      if q != r && Detached(s, q) { assert Detached(t, q); }
    }
  }

  lemma ClearedLinked(s: Core, r: int)
    requires Linked(s) && 0 <= r < MAX_ROOMS && Detached(s, r)
    ensures Linked(Cleared(s, r))
  {
    var t := Cleared(s, r);
    forall q | 0 <= q < MAX_ROOMS ensures Attached(t, q) || Detached(t, q) {
      if Attached(s, q) { assert Attached(t, q); }
      if Detached(s, q) { assert Detached(t, q); }
    }
  }

  /** A room nobody points at can be cleared before or after other drops. */
  lemma StaleRoom(s: Core, r: int, gone: set<int>)
    requires Linked(s) && 0 <= r < MAX_ROOMS && Detached(s, r)
    ensures Cleared(Settle(s, gone), r) == Settle(Cleared(s, r), gone)
  {
    hide Settle, Keep;
    var t := Cleared(s, r);
    SettleParts(s, gone);
    SettleParts(t, gone);
    assert forall q :: Hit(s, q, gone) == Hit(t, q, gone);
    assert !Hit(s, r, gone);
    assert Settle(t, gone).clients == Settle(s, gone).clients;
    assert Settle(t, gone).rooms == Cleared(Settle(s, gone), r).rooms;
  }

  /** A client taken out leaves its room reseated, or to be dissolved; either way the room's
      fate completes the settling. */
  lemma UnlinkedFacts(s: Core, ci: int)
    requires Linked(s) && 0 <= ci < MAX_CLIENTS && s.clients[ci].live
    ensures
      var u, r := Unlinked(s, ci), s.clients[ci].room;
      && Linked(u) && LiveSet(u) == LiveSet(s) - {ci} && ci in LiveSet(s) && Linked(Settle(s, {ci}))
      && (r == -1 ==> u == Settle(s, {ci}))
      && (r != -1 ==>
            && 0 <= r < MAX_ROOMS && ci in s.rooms[r].members && Distinct(s.rooms[r].members) && Attached(u, r)
            && (if s.rooms[r].started || s.rooms[r].members[0] == ci || |u.rooms[r].members| < 2
                then Cleared(Freed(u, r), r) == Settle(s, {ci})
                else u == Settle(s, {ci})))
  {
    hide Settle, LiveSet, Unlinked, Freed, Cleared;
    UnlinkedLinked(s, ci);
    SettleLinked(s, {ci});
    var r := s.clients[ci].room;
    if r == -1 {
      UnlinkedSolo(s, ci);
    } else if Dissolves(s, r, {ci}) {
      UnlinkedDissolves(s, ci);
    } else {
      UnlinkedReseats(s, ci);
    }
    assert r != -1 ==> Hit(s, r, {ci});
    UnlinkedMembers(s, ci);
  }

  lemma UnlinkedMembers(s: Core, ci: int)
    requires 0 <= ci < MAX_CLIENTS
    ensures
      var r := s.clients[ci].room;
      0 <= r < MAX_ROOMS ==> Unlinked(s, ci).rooms[r].members == Keep(s.rooms[r].members, {ci})
  {
  }

  lemma UnlinkedParts(s: Core, ci: int)
    requires 0 <= ci < MAX_CLIENTS
    ensures
      var u := Unlinked(s, ci);
      && (forall c :: 0 <= c < MAX_CLIENTS && c != ci ==> u.clients[c] == s.clients[c])
      && u.clients[ci] == s.clients[ci].(live := false, room := -1)
      && (forall q :: 0 <= q < MAX_ROOMS ==>
            u.rooms[q].members ==
              if q == s.clients[ci].room then Keep(s.rooms[q].members, {ci}) else s.rooms[q].members)
  {
  }

  lemma UnlinkedLinked(s: Core, ci: int)
    requires Linked(s) && 0 <= ci < MAX_CLIENTS && s.clients[ci].live
    ensures
      var u, r := Unlinked(s, ci), s.clients[ci].room;
      && Linked(u) && LiveSet(u) == LiveSet(s) - {ci} && ci in LiveSet(s)
      && (r != -1 ==> 0 <= r < MAX_ROOMS && Attached(u, r))
  {
    hide Keep, Unlinked, LiveSet, Attached, Detached, Distinct;
    var u := Unlinked(s, ci);
    UnlinkedLive(s, ci);
    forall q | 0 <= q < MAX_ROOMS
      ensures (Attached(u, q) || Detached(u, q)) && Distinct(u.rooms[q].members) &&
        (q == s.clients[ci].room ==> Attached(u, q))
    {
      UnlinkedRoom(s, ci, q);
    }
    forall c | 0 <= c < MAX_CLIENTS && u.clients[c].room != -1
      ensures u.clients[c].live && 0 <= u.clients[c].room < MAX_ROOMS && c in u.rooms[u.clients[c].room].members
    {
      UnlinkedClient(s, ci, c);
    }
  }

  lemma UnlinkedLive(s: Core, ci: int)
    requires 0 <= ci < MAX_CLIENTS && s.clients[ci].live
    ensures LiveSet(Unlinked(s, ci)) == LiveSet(s) - {ci} && ci in LiveSet(s)
  {
    hide Unlinked;
    UnlinkedParts(s, ci);
  }

  lemma UnlinkedRoom(s: Core, ci: int, q: int)
    requires Linked(s) && 0 <= ci < MAX_CLIENTS && 0 <= q < MAX_ROOMS
    ensures
      var u := Unlinked(s, ci);
      (Attached(u, q) || Detached(u, q)) && Distinct(u.rooms[q].members) && (q == s.clients[ci].room ==> Attached(u, q))
  {
    hide Keep, Unlinked;
    UnlinkedParts(s, ci);
    KeepIn(s.rooms[q].members, {ci});
    if Attached(s, q) { UnlinkedAttached(s, ci, q); } else { assert Detached(Unlinked(s, ci), q); }
  }

  lemma UnlinkedClient(s: Core, ci: int, c: int)
    requires Linked(s) && 0 <= ci < MAX_CLIENTS && 0 <= c < MAX_CLIENTS && Unlinked(s, ci).clients[c].room != -1
    ensures
      var u := Unlinked(s, ci);
      u.clients[c].live && 0 <= u.clients[c].room < MAX_ROOMS && c in u.rooms[u.clients[c].room].members
  {
    hide Keep, Unlinked;
    UnlinkedParts(s, ci);
    KeepIn(s.rooms[s.clients[c].room].members, {ci});
  }

  lemma UnlinkedAttached(s: Core, ci: int, q: int)
    requires Linked(s) && 0 <= ci < MAX_CLIENTS && 0 <= q < MAX_ROOMS && Attached(s, q)
    ensures Attached(Unlinked(s, ci), q)
  {
    hide Keep, Unlinked;
    UnlinkedParts(s, ci);
    KeepIn(s.rooms[q].members, {ci});
    var u := Unlinked(s, ci);
    forall m <- u.rooms[q].members ensures 0 <= m < MAX_CLIENTS && u.clients[m].room == q {
      assert m in s.rooms[q].members;
    }
  }

  lemma UnlinkedSolo(s: Core, ci: int)
    requires Linked(s) && 0 <= ci < MAX_CLIENTS && s.clients[ci].live && s.clients[ci].room == -1
    ensures Unlinked(s, ci) == Settle(s, {ci})
  {
    hide Settle, Keep;
    SettleParts(s, {ci});
    assert forall r :: 0 <= r < MAX_ROOMS ==> !Hit(s, r, {ci});
    assert Settle(s, {ci}).clients == Unlinked(s, ci).clients;
    assert Settle(s, {ci}).rooms == Unlinked(s, ci).rooms;
  }

  lemma OnlyOwnRoomHit(s: Core, ci: int)
    requires 0 <= ci < MAX_CLIENTS
    ensures forall q :: Hit(s, q, {ci}) <==> q == s.clients[ci].room
  {
    assert ci in {ci};
  }

  lemma UnlinkedReseats(s: Core, ci: int)
    requires Linked(s) && 0 <= ci < MAX_CLIENTS && s.clients[ci].live && s.clients[ci].room != -1
    requires !Dissolves(s, s.clients[ci].room, {ci})
    ensures Unlinked(s, ci) == Settle(s, {ci})
  {
    hide Settle, Keep, Hit;
    SettleParts(s, {ci});
    OnlyOwnRoomHit(s, ci);
    assert Settle(s, {ci}).clients == Unlinked(s, ci).clients;
    assert Settle(s, {ci}).rooms == Unlinked(s, ci).rooms;
  }

  lemma UnlinkedDissolves(s: Core, ci: int)
    requires Linked(s) && 0 <= ci < MAX_CLIENTS && s.clients[ci].live && s.clients[ci].room != -1
    requires Dissolves(s, s.clients[ci].room, {ci})
    ensures Cleared(Freed(Unlinked(s, ci), s.clients[ci].room), s.clients[ci].room) == Settle(s, {ci})
  {
    hide Settle, Keep, Hit;
    SettleParts(s, {ci});
    OnlyOwnRoomHit(s, ci);
    var r := s.clients[ci].room;
    KeepIn(s.rooms[r].members, {ci});
    assert Attached(s, r);
    var t := Cleared(Freed(Unlinked(s, ci), r), r);
    forall c | 0 <= c < MAX_CLIENTS ensures t.clients[c] == SettledClient(s, {ci}, c) {
      assert s.clients[c].room == r ==> c in s.rooms[r].members;
    }
    assert Settle(s, {ci}).clients == t.clients;
    assert Settle(s, {ci}).rooms == t.rooms;
  }

  lemma HeardSnoc(notes: seq<Note>, note: Note)
    ensures Heard(notes + [note]) == Heard(notes) + if note.Relayed? then [Sent(note.from, note.data)] else []
  {
    assert (notes + [note])[..|notes|] == notes;
  }

  lemma Untouched(e: Ends, ring: set<int>)
    ensures Within(e, e, {}, ring) && Quiet(e.outs, e.outs)
  {
  }

  lemma WithinTrans(a: Ends, b: Ends, c: Ends, gone: set<int>, more: set<int>, ring: set<int>, inner: set<int>)
    requires Within(a, b, gone, ring) && Within(b, c, more, inner) && inner <= ring
    ensures Within(a, c, gone + more, ring)
  {
  }

  lemma QuietTrans(a: Outs, b: Outs, c: Outs)
    requires Quiet(a, b) && Quiet(b, c)
    ensures Quiet(a, c)
  {
    forall k | 0 <= k < MAX_CLIENTS ensures Heard(c[k]) == Heard(a[k]) {
      assert Heard(b[k]) == Heard(a[k]);
    }
  }

  lemma OneNoteWithin(e: Ends, s: Core, ci: int, note: Note)
    requires 0 <= ci < MAX_CLIENTS && e.spare[ci] > 0
    ensures
      var e' := Ends(e.outs[ci := e.outs[ci] + [note]], e.spare[ci := e.spare[ci] - 1]);
      Within(e, e', {}, Circle(s, ci)) && (!note.Relayed? ==> Quiet(e.outs, e'.outs))
  {
    hide Heard, Circle;
    assert ci in Circle(s, ci) by { InOwnCircle(s, ci); }
    HeardSnoc(e.outs[ci], note);
    assert Heard(e.outs[ci]) + [] == Heard(e.outs[ci]);
  }

  lemma InOwnCircle(s: Core, ci: int)
    requires 0 <= ci < MAX_CLIENTS
    ensures ci in Circle(s, ci)
  {
  }

  lemma BrokeNone(e: Ends)
    ensures Broke([], e) == {}
  {
  }

  /** Distinct live clients outside any room. */
  predicate Alone(s: Core, targets: seq<int>) {
    Distinct(targets) && forall t <- targets :: 0 <= t < MAX_CLIENTS && s.clients[t].live && s.clients[t].room == -1
  }

  /** Distinct live clients. */
  predicate Listening(s: Core, targets: seq<int>) {
    Distinct(targets) && forall t <- targets :: 0 <= t < MAX_CLIENTS && s.clients[t].live
  }

  /** The next one in line has been sent nothing of this yet. */
  lemma NotYetTold(s: Core, a: Ends, b: Ends, targets: seq<int>, i: nat, note: Note)
    requires i < |targets| && Listening(s, targets) && Broke(targets, a) == {} && Grown(a, b)
    requires (forall t <- targets :: 0 <= t < MAX_CLIENTS && s.clients[t].live) ==>
      b.outs == Told(a.outs, targets[..i], note)
    ensures 0 <= targets[i] < MAX_CLIENTS && b.spare[targets[i]] > 0
  {
    hide Told;
    var t := targets[i];
    assert t in targets && t !in targets[..i] && Distinct(targets[..i]);
    assert forall u <- targets[..i] :: u in targets;
    ToldAt(a.outs, targets[..i], note, t);
    assert t !in Broke(targets, a);
  }

  /** The loop over a snapshot after its first i targets. */
  ghost predicate Telling(s: Core, a: Ends, e: Ends, ring: set<int>, targets: seq<int>, i: nat, note: Note,
                          gone: set<int>)
    requires i <= |targets|
  {
    && Grown(a, e) && Spent(gone, e) && Within(a, e, gone, ring) && Quiet(a.outs, e.outs)
    && (forall j :: 0 <= j < i && 0 <= targets[j] < MAX_CLIENTS ==>
          s.clients[targets[j]].live && a.spare[targets[j]] == 0 ==> targets[j] in gone)
    && (Alone(s, targets) ==> gone == Broke(targets[..i], a) && Within(a, e, gone, SetOf(targets[..i])))
    && (gone == {} && (forall t <- targets :: 0 <= t < MAX_CLIENTS && s.clients[t].live) ==>
          e.outs == Told(a.outs, targets[..i], note))
    && (Listening(s, targets) && Broke(targets, a) == {} ==> gone == {})
  }

  lemma TellingNone(s: Core, a: Ends, ring: set<int>, targets: seq<int>, note: Note)
    ensures Telling(s, a, a, ring, targets, 0, note, {})
  {
    hide Told, Grown, Spent, Quiet, Within, Broke, Alone, Listening;
    GrownSame(a);
    Untouched(a, ring);
    Untouched(a, SetOf(targets[..0]));
    ToldNone(a.outs, note);
    BrokeNone(a);
    assert targets[..0] == [];
  }

  /** One more send, with what Send promises. */
  lemma TellingSend(s: Core, a: Ends, b: Ends, e: Ends, ring: set<int>, targets: seq<int>, i: nat, note: Note,
                    gone: set<int>, more: set<int>)
    requires i < |targets| && Telling(s, a, b, ring, targets, i, note, gone) && Linked(s)
    requires forall t <- targets :: 0 <= t < MAX_CLIENTS && Circle(s, t) <= ring
    requires 0 <= targets[i] < MAX_CLIENTS
    requires Grown(b, e) && Spent(more, e) && Within(b, e, more, Circle(Settle(s, gone), targets[i]))
    requires Quiet(b.outs, e.outs)
    requires more == {} <==> !Settle(s, gone).clients[targets[i]].live || b.spare[targets[i]] > 0
    requires more != {} ==> targets[i] in more
    requires more == {} ==>
      e.outs == if Settle(Settle(s, gone), more).clients[targets[i]].live
                then b.outs[targets[i] := b.outs[targets[i]] + [note]] else b.outs
    ensures Telling(s, a, e, ring, targets, i + 1, note, gone + more)
  {
    hide Told, Grown, Spent, Quiet, Within, Broke, Alone, Listening, Settle, Circle, Linked, SetOf;
    var t, s1 := targets[i], Settle(s, gone);
    assert t in targets;
    CircleShrinks(s, gone, t);
    NextSpent(s, a, b, gone, t);
    if Listening(s, targets) && Broke(targets, a) == {} { NotYetTold(s, a, b, targets, i, note); }
    GrownTrans(a, b, e, gone, more);
    WithinTrans(a, b, e, gone, more, ring, Circle(s1, t));
    QuietTrans(a.outs, b.outs, e.outs);
    if Alone(s, targets) { AloneStep(s, targets, i, a, b, e, gone, more); }
    ToldStep(a.outs, targets, i, note);
    SettleNone(s);
    SettleNone(s1);
    var both := Both(gone, more);
  }

  lemma TellingAll(s: Core, a: Ends, e: Ends, ring: set<int>, targets: seq<int>, note: Note, gone: set<int>)
    requires Telling(s, a, e, ring, targets, |targets|, note, gone)
    ensures Grown(a, e) && Spent(gone, e) && Within(a, e, gone, ring) && Quiet(a.outs, e.outs)
    ensures forall t <- targets :: 0 <= t < MAX_CLIENTS && s.clients[t].live && a.spare[t] == 0 ==> t in gone
    ensures Alone(s, targets) ==> gone == Broke(targets, a)
    ensures Listening(s, targets) && Broke(targets, a) == {} ==> gone == {}
    ensures gone == {} && (forall t <- targets :: 0 <= t < MAX_CLIENTS && s.clients[t].live) ==>
      e.outs == Told(a.outs, targets, note)
  {
    hide Told, Grown, Spent, Quiet, Within, Broke, Alone, Listening, SetOf;
    assert targets[..|targets|] == targets;
  }

  lemma CircleShrinks(s: Core, gone: set<int>, t: int)
    requires Linked(s) && 0 <= t < MAX_CLIENTS
    ensures Circle(Settle(s, gone), t) <= Circle(s, t)
  {
    hide Settle, Keep;
    SettleParts(s, gone);
    var r := s.clients[t].room;
    if 0 <= r < MAX_ROOMS { KeepIn(s.rooms[r].members, gone); }
  }

  /** A target that started without a spare has none at its turn, and is live unless lost. */
  lemma NextSpent(s: Core, a: Ends, b: Ends, gone: set<int>, t: int)
    requires Grown(a, b) && 0 <= t < MAX_CLIENTS
    ensures a.spare[t] == 0 ==> b.spare[t] == 0
    ensures Settle(s, gone).clients[t].live <==> s.clients[t].live && t !in gone
  {
    hide Settle;
    SettleParts(s, gone);
    assert a.outs[t] <= b.outs[t];
  }

  /** One more client outside any room: lost exactly if it has no spare. */
  lemma AloneStep(s: Core, targets: seq<int>, i: nat, a: Ends, b: Ends, e: Ends, gone: set<int>, more: set<int>)
    requires i < |targets| && Alone(s, targets)
    requires gone == Broke(targets[..i], a) && Within(a, b, gone, SetOf(targets[..i]))
    requires 0 <= targets[i] < MAX_CLIENTS && Within(b, e, more, Circle(Settle(s, gone), targets[i]))
    requires more == {} <==> !Settle(s, gone).clients[targets[i]].live || b.spare[targets[i]] > 0
    ensures gone + more == Broke(targets[..i + 1], a) && Within(a, e, gone + more, SetOf(targets[..i + 1]))
  {
    hide Settle;
    SettleParts(s, gone);
    var t := targets[i];
    assert t in targets && t !in targets[..i];
    assert targets[..i + 1] == targets[..i] + [t];
    assert Circle(Settle(s, gone), t) == {t};
    assert b.spare[t] == a.spare[t];
    assert more == if a.spare[t] == 0 then {t} else {};
    assert SetOf(targets[..i + 1]) == SetOf(targets[..i]) + {t};
  }

  /** Members set free are alone. */
  lemma FreedAlone(s: Core, r: int)
    requires Linked(s) && 0 <= r < MAX_ROOMS && Attached(s, r)
    ensures
      var mm := s.rooms[r].members;
      && Alone(Freed(s, r), mm) && Alone(Cleared(Freed(s, r), r), mm)
      && (forall t <- mm :: 0 <= t < MAX_CLIENTS && Circle(Freed(s, r), t) <= SetOf(mm))
      && (forall t <- mm :: 0 <= t < MAX_CLIENTS && Circle(Cleared(Freed(s, r), r), t) <= SetOf(mm))
  {
  }

  lemma RoomCircles(s: Core, r: int)
    requires Linked(s) && 0 <= r < MAX_ROOMS && Attached(s, r)
    ensures forall t <- s.rooms[r].members :: 0 <= t < MAX_CLIENTS && Circle(s, t) <= SetOf(s.rooms[r].members)
  {
  }

  /** Who can be reached by a drop. */
  lemma DropCircle(s: Core, ci: int, e: Ends)
    requires Linked(s) && 0 <= ci < MAX_CLIENTS && s.clients[ci].live
    ensures
      var u, r := Unlinked(s, ci), s.clients[ci].room;
      && Within(e, e, {ci}, Circle(s, ci)) && SetOf(Left(s, ci)) <= Circle(s, ci)
      && (r == -1 ==> Broke(Left(s, ci), e) == {} && {ci} + Broke(Left(s, ci), e) == {ci})
      && (r != -1 ==> 0 <= r < MAX_ROOMS && s.rooms[r].members != [] && u.rooms[r].members == Left(s, ci))
  {
    hide Keep;
    InOwnCircle(s, ci);
    var r := s.clients[ci].room;
    if r != -1 {
      KeepIn(s.rooms[r].members, {ci});
      assert forall m <- Left(s, ci) :: m in s.rooms[r].members;
    } else {
      assert Left(s, ci) == [] && Broke([], e) == {};
    }
  }

  lemma GrownSame(a: Ends)
    ensures Grown(a, a) && Spent({}, a)
  {
  }

  lemma OneNote(e: Ends, ci: int, note: Note)
    requires 0 <= ci < MAX_CLIENTS && e.spare[ci] > 0
    ensures
      var e' := Ends(e.outs[ci := e.outs[ci] + [note]], e.spare[ci := e.spare[ci] - 1]);
      Grown(e, e') && Spent({}, e')
  {
  }

  /** The client whose send failed was spent before it was dropped. */
  lemma SpentToo(a: Ends, b: Ends, gone: set<int>, ci: int)
    requires 0 <= ci < MAX_CLIENTS && a.spare[ci] == 0 && Grown(a, b) && Spent(gone - {ci}, b)
    ensures Spent(gone, b)
  {
    assert a.outs[ci] <= b.outs[ci];
    forall c | c in gone ensures 0 <= c < MAX_CLIENTS && b.spare[c] == 0 {
      if c != ci { assert c in gone - {ci}; }
    }
  }

  lemma GrownTrans(a: Ends, b: Ends, c: Ends, gone: set<int>, more: set<int>)
    requires Grown(a, b) && Grown(b, c) && Spent(gone, b) && Spent(more, c)
    ensures Grown(a, c) && Spent(gone + more, c)
  {
    forall k | k in gone ensures c.spare[k] == 0 {
      assert b.outs[k] <= c.outs[k];
    }
  }

  lemma ToldNone(outs: Outs, note: Note)
    ensures Told(outs, [], note) == outs
  {
  }

  lemma ToldStep(outs: Outs, targets: seq<int>, i: nat, note: Note)
    requires i < |targets| && 0 <= targets[i] < MAX_CLIENTS
    ensures Told(outs, targets[..i + 1], note) ==
      var before := Told(outs, targets[..i], note);
      before[targets[i] := before[targets[i]] + [note]]
  {
    assert targets[..i + 1][..i] == targets[..i];
  }

  /** Both sets; empty only if both are. */
  ghost function Both(a: set<int>, b: set<int>): (r: set<int>)
    ensures r == a + b && (r == {} <==> a == {} && b == {})
  {
    assert a <= a + b && b <= a + b;
    a + b
  }

  lemma SmallerSet(a: set<int>, b: set<int>)
    requires a <= b
    ensures |a| <= |b|
  {
    if a != b { assert b == a + (b - a); }
  }

  // ---------------------------------------------------------------- handlers, on values

  function Accepted(s: Core, ci: int): Core
    requires 0 <= ci < MAX_CLIENTS
  {
    s.(clients := s.clients[ci := Client(true, [], -1)])
  }

  function Empty(): Core {
    Core(seq(MAX_CLIENTS, _ => Client(false, [], -1)), seq(MAX_ROOMS, _ => Room(false, [], false)), [])
  }

  lemma EmptyGood(seats: int)
    ensures Good(Empty(), seats)
  {
    var s := Empty();
    assert Linked(s) by {
      assert forall c :: 0 <= c < MAX_CLIENTS ==> s.clients[c].room == -1;
      assert forall r :: 0 <= r < MAX_ROOMS ==> Attached(s, r);
    }
    assert NamesRight(s) by {
      assert forall c :: 0 <= c < MAX_CLIENTS ==> !s.clients[c].live;
    }
  }

  lemma AcceptedGood(s: Core, ci: int, seats: int)
    requires Good(s, seats) && 0 <= ci < MAX_CLIENTS && !s.clients[ci].live
    ensures Good(Accepted(s, ci), seats)
  {
    var t := Accepted(s, ci);
    forall r | 0 <= r < MAX_ROOMS ensures (Attached(t, r) || Detached(t, r)) && RoomRight(t, r, seats) {
      assert RoomRight(s, r, seats);
      assert Attached(t, r);
    }
  }

  /** The first slot that is not live, if the live clients do not fill the table. */
  lemma SlotsLeft(s: Core, ci: int)
    requires 0 <= ci <= MAX_CLIENTS && (forall c :: 0 <= c < ci ==> s.clients[c].live)
    requires ci < MAX_CLIENTS ==> !s.clients[ci].live
    ensures |LiveSet(s)| == MAX_CLIENTS <==> ci == MAX_CLIENTS
  {
    hide Below;
    if ci == MAX_CLIENTS {
      assert LiveSet(s) == Below(MAX_CLIENTS);
    } else {
      assert LiveSet(s) <= Below(MAX_CLIENTS) - {ci};
      SmallerSet(LiveSet(s), Below(MAX_CLIENTS) - {ci});
    }
  }

  function FilterOthers(names: seq<Entry>, ci: int): seq<Entry> {
    if names == [] then []
    else if names[0].ci == ci then FilterOthers(names[1..], ci)
    else [names[0]] + FilterOthers(names[1..], ci)
  }

  /** Python: every other client in dictionary order, then the first eight of them. */
  function FirstOthers(names: seq<Entry>, ci: int): seq<Entry> {
    var others := FilterOthers(names, ci);
    if |others| <= SHOWN then others else others[..SHOWN]
  }

  /** Stopping at eight shows the same rows as taking eight of them all. */
  lemma {:induction false} OthersIsFilter(names: seq<Entry>, ci: int, room: nat)
    ensures
      var others := FilterOthers(names, ci);
      Others(names, ci, room) == if |others| <= room then others else others[..room]
    decreases |names|
  {
    if names != [] && room > 0 {
      OthersIsFilter(names[1..], ci, if names[0].ci == ci then room else room - 1);
    }
  }

  lemma OthersStep(names: seq<Entry>, i: nat, ci: int, others: seq<Entry>)
    requires i < |names| && |others| < SHOWN
    ensures others + Others(names[i..], ci, SHOWN - |others|)
         == if names[i].ci == ci then others + Others(names[i + 1..], ci, SHOWN - |others|)
            else (others + [names[i]]) + Others(names[i + 1..], ci, SHOWN - |others| - 1)
  {
    assert names[i..][1..] == names[i + 1..];
  }

  lemma OthersDone(names: seq<Entry>, ci: int, room: nat)
    requires names == [] || room == 0
    ensures Others(names, ci, room) == []
  {
  }

  lemma GoodNames(s: Core, seats: int)
    requires Good(s, seats)
    ensures NamesRight(s)
  {
  }

  lemma GoodParts(s: Core, seats: int)
    requires Good(s, seats)
    ensures Linked(s)
    ensures forall e <- s.names ::
      0 <= e.ci < MAX_CLIENTS && s.clients[e.ci].live && s.clients[e.ci].name == e.name != []
    ensures forall i :: 0 <= i < |s.names| ==> 0 <= s.names[i].ci < MAX_CLIENTS && s.clients[s.names[i].ci].name != []
    ensures forall c :: 0 <= c < MAX_CLIENTS ==> -1 <= s.clients[c].room < MAX_ROOMS
    ensures forall c :: 0 <= c < MAX_CLIENTS && s.clients[c].room >= 0 ==> s.rooms[s.clients[c].room].used
  {
    assert forall i :: 0 <= i < |s.names| ==> s.names[i] in s.names;
    forall c | 0 <= c < MAX_CLIENTS && s.clients[c].room >= 0 ensures s.rooms[s.clients[c].room].used {
      assert RoomRight(s, s.clients[c].room, seats);
    }
  }

  lemma RoomParts(s: Core, r: int, seats: int)
    requires Good(s, seats) && 0 <= r < MAX_ROOMS && s.rooms[r].used
    ensures Attached(s, r) && 2 <= |s.rooms[r].members| <= seats && Distinct(s.rooms[r].members)
    ensures forall c :: 0 <= c < MAX_CLIENTS && s.clients[c].room == r ==> c in s.rooms[r].members
    ensures forall m <- s.rooms[r].members :: 0 <= m < MAX_CLIENTS
  {
    assert RoomRight(s, r, seats);
  }

  lemma MembersLive(s: Core, r: int, seats: int)
    requires Good(s, seats) && 0 <= r < MAX_ROOMS && s.rooms[r].used
    ensures forall m <- s.rooms[r].members :: 0 <= m < MAX_CLIENTS && s.clients[m].live
  {
    assert RoomRight(s, r, seats);
  }

  lemma RoomUsed(s: Core, r: int, seats: int)
    requires Good(s, seats) && 0 <= r < MAX_ROOMS && s.rooms[r].members != []
    ensures s.rooms[r].used
  {
    assert RoomRight(s, r, seats);
  }

  lemma SeatUnique(members: seq<int>, seat: int)
    requires Distinct(members) && 0 < seat < |members|
    ensures members[0] != members[seat]
  {
  }

  lemma StartedParts(s: Core, r: int)
    requires 0 <= r < MAX_ROOMS
    ensures Started(s, r) == Core(s.clients, s.rooms[r := s.rooms[r].(started := true)], s.names)
  {
  }

  /** START notes for the first n seats. */
  function SeatedTo(outs: Outs, mm: seq<int>, roster: seq<Name>, seed: int, n: nat): Outs
    requires n <= |mm|
  {
    if n == 0 then outs
    else
      var before := SeatedTo(outs, mm, roster, seed, n - 1);
      var m := mm[n - 1];
      if 0 <= m < MAX_CLIENTS then before[m := before[m] + [StartNote(n - 1, |mm|, seed, roster)]] else before
  }

  function Seated(outs: Outs, mm: seq<int>, roster: seq<Name>, seed: int): Outs {
    SeatedTo(outs, mm, roster, seed, |mm|)
  }

  lemma {:induction false} SeatedElse(outs: Outs, mm: seq<int>, roster: seq<Name>, seed: int, n: nat, c: int)
    requires n <= |mm| && 0 <= c < MAX_CLIENTS && c !in mm[..n]
    ensures SeatedTo(outs, mm, roster, seed, n)[c] == outs[c]
  {
    if n > 0 {
      assert mm[n - 1] in mm[..n] && mm[..n - 1] <= mm[..n];
      SeatedElse(outs, mm, roster, seed, n - 1, c);
    }
  }

  lemma NotYetSeated(a: Ends, b: Ends, mm: seq<int>, roster: seq<Name>, seed: int, i: nat)
    requires i < |mm| && Distinct(mm) && 0 <= mm[i] < MAX_CLIENTS && Broke(mm, a) == {} && Grown(a, b)
    requires b.outs == SeatedTo(a.outs, mm, roster, seed, i)
    ensures b.spare[mm[i]] > 0
  {
    SeatedElse(a.outs, mm, roster, seed, i, mm[i]);
    assert mm[i] !in Broke(mm, a);
  }

  /** Every member has exactly one more note, the START of its own seat with everybody's names in
      seat order, and nobody else has any. */
  ghost predicate EachItsSeat(s: Core, a: Outs, b: Outs, mm: seq<int>, seed: int) {
    exists names: seq<Name> ::
      && |names| == |mm|
      && (forall j :: 0 <= j < |mm| ==> 0 <= mm[j] < MAX_CLIENTS && names[j] == s.clients[mm[j]].name)
      && (forall i :: 0 <= i < |mm| ==> b[mm[i]] == a[mm[i]] + [StartNote(i, |mm|, seed, names)])
      && (forall c :: 0 <= c < MAX_CLIENTS && c !in mm ==> b[c] == a[c])
  }

  lemma EachSeated(s: Core, outs: Outs, mm: seq<int>, seed: int)
    requires Distinct(mm) && forall m <- mm :: 0 <= m < MAX_CLIENTS
    ensures EachItsSeat(s, outs, Seated(outs, mm, Roster(s, mm), seed), mm, seed)
  {
    var roster, b := Roster(s, mm), Seated(outs, mm, Roster(s, mm), seed);
    SeatedUpTo(outs, mm, roster, seed, |mm|);
    assert forall j :: 0 <= j < |mm| ==> mm[j] in mm;
    forall c | 0 <= c < MAX_CLIENTS && c !in mm ensures b[c] == outs[c] {
      assert mm[..|mm|] == mm;
      SeatedElse(outs, mm, roster, seed, |mm|, c);
    }
    assert |roster| == |mm|;
  }

  lemma {:induction false} SeatedUpTo(outs: Outs, mm: seq<int>, roster: seq<Name>, seed: int, n: nat)
    requires n <= |mm| && Distinct(mm) && forall m <- mm :: 0 <= m < MAX_CLIENTS
    ensures forall i :: 0 <= i < n ==>
      && 0 <= mm[i] < MAX_CLIENTS
      && SeatedTo(outs, mm, roster, seed, n)[mm[i]] == outs[mm[i]] + [StartNote(i, |mm|, seed, roster)]
  {
    if n > 0 {
      SeatedUpTo(outs, mm, roster, seed, n - 1);
      var m := mm[n - 1];
      assert m in mm && m !in mm[..n - 1];
      SeatedElse(outs, mm, roster, seed, n - 1, m);
      assert forall i :: 0 <= i < n - 1 ==> mm[i] in mm && mm[i] != m;
    }
  }

  lemma SeatedNone(outs: Outs, mm: seq<int>, roster: seq<Name>, seed: int)
    ensures SeatedTo(outs, mm, roster, seed, 0) == outs
  {
  }

  lemma SeatedAll(outs: Outs, mm: seq<int>, roster: seq<Name>, seed: int)
    ensures Seated(outs, mm, roster, seed) == SeatedTo(outs, mm, roster, seed, |mm|)
  {
  }

  /** Who a JOIN of this name joins: anyone named, not itself, solo or in a forming room with
      a seat left. */
  function JoinTarget(s: Core, ci: int, name: Name, seats: int): int {
    var ti := FindName(s.names, name);
    if ti < 0 then -1
    else
      var t := s.names[ti].ci;
      if !(0 <= t < MAX_CLIENTS) || t == ci || s.clients[t].name == [] then -1
      else
        var r := s.clients[t].room;
        if 0 <= r < MAX_ROOMS && (s.rooms[r].started || |s.rooms[r].members| >= seats) then -1 else t
  }

  lemma JoinTargetParts(s: Core, ci: int, name: Name, seats: int)
    ensures
      var t := JoinTarget(s, ci, name, seats);
      t != -1 ==>
        0 <= t < MAX_CLIENTS && (0 <= s.clients[t].room < MAX_ROOMS ==> |s.rooms[s.clients[t].room].members| < seats)
  {
  }

  /** The room a room_alloc takes. */
  predicate FirstFree(s: Core, r: int) {
    0 <= r < MAX_ROOMS && !s.rooms[r].used && forall q :: 0 <= q < r ==> s.rooms[q].used
  }

  /** THEOREM.  The lobby byte tells the truth: its top bit is clear exactly for those whom a JOIN of
      their name would join, and the rest is how many are in that room. */
  lemma StatusTellsJoin(s: Core, ci: int, e: Entry, seats: int)
    requires Good(s, seats) && 2 <= seats < 128 && e in s.names && e.ci != ci
    ensures
      var b := Status(s, e.ci, seats);
      && 0 <= e.ci < MAX_CLIENTS && 0 < b < 256
      && (b < 128 <==> JoinTarget(s, ci, e.name, seats) == e.ci)
      && b % 128 == (if s.clients[e.ci].room == -1 then 1 else |s.rooms[s.clients[e.ci].room].members|)
  {
    GoodParts(s, seats);
    var i := FindName(s.names, e.name);
    var j :| 0 <= j < |s.names| && s.names[j] == e;
    assert s.names[i] == e;
    if s.clients[e.ci].room != -1 {
      RoomHeld(s, e.ci, seats);
      RoomParts(s, s.clients[e.ci].room, seats);
    }
  }

  function JoinEffect(s: Core, ci: int, target: int, r: int): Core
    requires 0 <= ci < MAX_CLIENTS && 0 <= r < MAX_ROOMS
  {
    if !(0 <= target < MAX_CLIENTS) then s
    else if s.clients[target].room >= 0 then Joined(s, r, ci) else Opened(s, r, target, ci)
  }

  /** Everyone a JOIN can reach. */
  function JoinRing(s: Core, ci: int, name: Name, seats: int): set<int>
    requires 0 <= ci < MAX_CLIENTS
  {
    var t := JoinTarget(s, ci, name, seats);
    Circle(s, ci) + if 0 <= t < MAX_CLIENTS then Circle(s, t) else {}
  }

  lemma JoinRingParts(s: Core, ci: int, name: Name, seats: int)
    requires 0 <= ci < MAX_CLIENTS
    ensures Circle(s, ci) <= JoinRing(s, ci, name, seats)
    ensures
      var t := JoinTarget(s, ci, name, seats);
      0 <= t < MAX_CLIENTS ==> Circle(s, ci) + Circle(s, t) == JoinRing(s, ci, name, seats)
  {
  }

  lemma JoinedMembers(s: Core, ci: int, t: int, r: int, seats: int)
    requires 0 <= ci < MAX_CLIENTS && 0 <= t < MAX_CLIENTS && 0 <= r < MAX_ROOMS && Good(s, seats)
    requires s.clients[t].room >= 0 ==> r == s.clients[t].room
    ensures SetOf(JoinEffect(s, ci, t, r).rooms[r].members) <= Circle(s, ci) + Circle(s, t)
  {
  }

  lemma FewerMembers(s: Core, gone: set<int>, r: int)
    requires 0 <= r < MAX_ROOMS
    ensures SetOf(Settle(s, gone).rooms[r].members) <= SetOf(s.rooms[r].members)
  {
    hide Settle, Keep, Dissolves, Hit;
    SettleParts(s, gone);
    KeepIn(s.rooms[r].members, gone);
    var t := Settle(s, gone);
    assert t.rooms[r] == SettledRoom(s, gone, r);
    forall m | m in SetOf(t.rooms[r].members) ensures m in SetOf(s.rooms[r].members) {
      assert m in t.rooms[r].members;
    }
  }

  lemma Wider(a: Ends, b: Ends, gone: set<int>, inner: set<int>, ring: set<int>)
    requires Within(a, b, gone, inner) && inner <= ring
    ensures Within(a, b, gone, ring) && Within(a, b, gone + {}, ring)
  {
    assert gone + {} == gone;
  }

  lemma RoomJoined(s: Core, ci: int, target: int, r: int, seats: int)
    requires 0 <= ci < MAX_CLIENTS && 0 <= target < MAX_CLIENTS && 0 <= r < MAX_ROOMS && Good(s, seats)
    requires s.clients[target].room >= 0 ==> r == s.clients[target].room
    ensures JoinEffect(s, ci, target, r).rooms[r].used
  {
    GoodParts(s, seats);
  }

  /** Who holds a name. */
  function Holders(names: seq<Entry>, name: Name): set<int> {
    var i := FindName(names, name);
    if i < 0 then {} else {names[i].ci}
  }

  /** Everyone a HELLO can reach. */
  function HelloRing(s: Core, ci: int, name: Name): set<int>
    requires 0 <= ci < MAX_CLIENTS
  {
    var i := FindName(s.names, name);
    Circle(s, ci) + if i >= 0 && 0 <= s.names[i].ci < MAX_CLIENTS then Circle(s, s.names[i].ci) else {}
  }

  lemma HelloRingParts(s: Core, ci: int, name: Name)
    requires 0 <= ci < MAX_CLIENTS
    ensures Circle(s, ci) <= HelloRing(s, ci, name)
    ensures
      var i := FindName(s.names, name);
      i >= 0 && 0 <= s.names[i].ci < MAX_CLIENTS ==> Circle(s, s.names[i].ci) <= HelloRing(s, ci, name)
  {
  }

  lemma SameCircle(s: Core, t: Core, ci: int)
    requires 0 <= ci < MAX_CLIENTS && t.clients[ci].room == s.clients[ci].room && t.rooms == s.rooms
    ensures Circle(t, ci) == Circle(s, ci)
  {
  }

  lemma HolderIn(names: seq<Entry>, name: Name)
    ensures var i := FindName(names, name); i >= 0 ==> names[i].ci in Holders(names, name)
  {
  }

  lemma SpentNothing(e: Ends)
    ensures Spent({}, e)
  {
  }

  lemma SpentPart(a: set<int>, b: set<int>, e: Ends)
    requires Spent(a + b, e) || a == {}
    ensures Spent(a, e) && Spent(a - b, e)
    ensures Spent(a + b, e) ==> Spent(b, e)
  {
    assert forall c <- a :: c in a + b;
    assert forall c <- b :: c in a + b;
    assert forall c <- a - b :: c in a;
  }

  lemma SpentLess(a: set<int>, x: int, b: set<int>, e: Ends)
    requires Spent(a - {x}, e) && x in b
    ensures Spent(a - b, e)
  {
    forall c | c in a - b ensures 0 <= c < MAX_CLIENTS && e.spare[c] == 0 {
      assert c in a - {x};
    }
  }

  lemma DeadOnlyIfGone(s: Core, gone: set<int>, ci: int)
    requires 0 <= ci < MAX_CLIENTS && s.clients[ci].live
    ensures Settle(s, gone).clients[ci].live <==> ci !in gone
  {
    hide Settle;
    SettleParts(s, gone);
  }

  /** Once its other holder is gone the name is free. */
  lemma NowFree(s: Core, gone: set<int>, ci: int, name: Name)
    requires NamesRight(s)
    requires var i := FindName(s.names, name); i >= 0 && s.names[i].ci != ci ==> s.names[i].ci in gone
    ensures FreeName(Settle(s, gone), ci, name)
  {
    hide Settle;
    SettleParts(s, gone);
    KeepNamesIn(s.names, gone);
    forall e | e in s.names && e.name == name ensures e == s.names[FindName(s.names, name)] {
      var j :| 0 <= j < |s.names| && s.names[j] == e;
    }
  }

  lemma RegisteredParts(s: Core, ci: int, name: Name)
    requires 0 <= ci < MAX_CLIENTS
    ensures
      Registered(s, ci, name) ==
        Core(s.clients[ci := s.clients[ci].(name := name)], s.rooms, SetName(Unaliased(s, ci, name), name, ci))
  {
  }

  // ---------------------------------------------------------------- verbatim, in order

  lemma KeepNothing(gone: set<int>)
    ensures Keep([], gone) == []
  {
  }

  lemma KeepNext(mm: seq<int>, i: nat, ci: int)
    requires i < |mm|
    ensures Keep(mm[..i + 1], {ci}) == Keep(mm[..i], {ci}) + if mm[i] == ci then [] else [mm[i]]
  {
    assert mm[..i + 1] == mm[..i] + [mm[i]];
    KeepAppend(mm[..i], [mm[i]], {ci});
    assert [mm[i]][1..] == [];
  }

  /** The next member in line has had nothing of this round. */
  lemma UntoldYet(a: Ends, b: Ends, mm: seq<int>, i: nat, ci: int, note: Note)
    requires Distinct(mm) && (forall t <- mm :: 0 <= t < MAX_CLIENTS) && i < |mm|
    requires Grown(a, b) && b.outs == Told(a.outs, Keep(mm[..i], {ci}), note)
    ensures 0 <= mm[i] < MAX_CLIENTS && b.spare[mm[i]] == a.spare[mm[i]]
  {
    assert mm[i] in mm && Distinct(mm[..i]) && forall t <- mm[..i] :: t in mm;
    KeepIn(mm[..i], {ci});
    ToldAt(a.outs, Keep(mm[..i], {ci}), note, mm[i]);
  }

  lemma ToldSnoc(outs: Outs, targets: seq<int>, t: int, note: Note)
    requires 0 <= t < MAX_CLIENTS
    ensures Told(outs, targets + [t], note) == var before := Told(outs, targets, note); before[t := before[t] + [note]]
  {
    assert (targets + [t])[..|targets|] == targets;
  }

  /** Who a relayed frame of this client is for: the other members of its started room. */
  function Hearers(s: Core, ci: int): seq<int>
    requires 0 <= ci < MAX_CLIENTS
  {
    var r := s.clients[ci].room;
    if 0 <= r < MAX_ROOMS && s.rooms[r].started then Keep(s.rooms[r].members, {ci}) else []
  }

  function Mates(s: Core, ci: int): set<int>
    requires 0 <= ci < MAX_CLIENTS
  {
    SetOf(Hearers(s, ci))
  }

  lemma HearersParts(s: Core, ci: int, seats: int)
    requires 0 <= ci < MAX_CLIENTS && Good(s, seats)
    ensures
      var r := s.clients[ci].room;
      if 0 <= r < MAX_ROOMS && s.rooms[r].started then
        && Hearers(s, ci) == Keep(s.rooms[r].members, {ci}) && Mates(s, ci) == SetOf(s.rooms[r].members) - {ci}
        && (forall m <- s.rooms[r].members :: 0 <= m < MAX_CLIENTS && Circle(s, m) <= Circle(s, ci))
        && SetOf(s.rooms[r].members) <= Circle(s, ci)
      else Hearers(s, ci) == [] && Mates(s, ci) == {}
  {
    var r := s.clients[ci].room;
    if 0 <= r < MAX_ROOMS {
      KeepIn(s.rooms[r].members, {ci});
      assert Attached(s, r);
    }
  }

  /** The given clients heard one more frame, and nobody heard anything else. */
  ghost predicate HeardBy(a: Outs, b: Outs, frame: Sent, got: set<int>) {
    forall c :: 0 <= c < MAX_CLIENTS ==> Heard(b[c]) == Heard(a[c]) + if c in got then [frame] else []
  }

  lemma HeardNothing(a: Outs, frame: Sent)
    ensures HeardBy(a, a, frame, {})
  {
    forall c | 0 <= c < MAX_CLIENTS ensures Heard(a[c]) == Heard(a[c]) + [] {
    }
  }

  lemma HeardNoMore(a: Outs, b: Outs, c: Outs, frame: Sent, got: set<int>)
    requires HeardBy(a, b, frame, got) && Quiet(b, c)
    ensures HeardBy(a, c, frame, got)
  {
    hide Heard;
    forall k | 0 <= k < MAX_CLIENTS ensures Heard(c[k]) == Heard(a[k]) + if k in got then [frame] else [] {
      assert Heard(c[k]) == Heard(b[k]);
    }
  }

  lemma HeardOne(a: Outs, b: Outs, c: Outs, frame: Sent, got: set<int>, m: int)
    requires HeardBy(a, b, frame, got) && 0 <= m < MAX_CLIENTS && m !in got
    requires c == b[m := b[m] + [Relayed(frame.from, frame.data)]]
    ensures HeardBy(a, c, frame, got + {m})
  {
    hide Heard;
    HeardSnoc(b[m], Relayed(frame.from, frame.data));
    forall k | 0 <= k < MAX_CLIENTS ensures Heard(c[k]) == Heard(a[k]) + if k in got + {m} then [frame] else [] {
      assert Heard(b[k]) == Heard(a[k]) + if k in got then [frame] else [];
      assert Heard(a[k]) + [] == Heard(a[k]);
    }
  }

  /** One more member was sent the frame: it heard it unless it was dead or was lost to it. */
  lemma HeardNext(s: Core, a: Outs, b: Outs, c: Outs, frame: Sent, got: set<int>, m: int, more: set<int>)
    requires HeardBy(a, b, frame, got) && 0 <= m < MAX_CLIENTS && m !in got
    requires more != {} ==> Quiet(b, c)
    requires more == {} ==>
      c == if Settle(s, more).clients[m].live then b[m := b[m] + [Relayed(frame.from, frame.data)]] else b
    ensures HeardBy(a, c, frame, if more == {} && s.clients[m].live then got + {m} else got)
  {
    hide HeardBy, Quiet, Settle;
    SettleNone(s);
    if more != {} {
      HeardNoMore(a, b, c, frame, got);
    } else if s.clients[m].live {
      HeardOne(a, b, c, frame, got, m);
    }
  }

  /** The relay loop after its first i members. */
  ghost predicate Relaying(a: Ends, e: Ends, ring: set<int>, mm: seq<int>, i: nat, frame: Sent,
                           gone: set<int>, got: set<int>)
    requires i <= |mm|
  {
    && Grown(a, e) && Spent(gone, e) && Within(a, e, gone, ring)
    && (gone == {} ==> e.outs == Told(a.outs, Keep(mm[..i], {frame.from}), Relayed(frame.from, frame.data)))
    && ((forall c <- ring :: 0 <= c < MAX_CLIENTS ==> a.spare[c] > 0) ==> gone == {})
    && HeardBy(a.outs, e.outs, frame, got) && got <= SetOf(mm[..i]) - {frame.from}
    && forall j :: 0 <= j < i && mm[j] != frame.from && mm[j] !in gone ==> mm[j] in got
  }

  lemma RelayingNone(a: Ends, ring: set<int>, mm: seq<int>, frame: Sent)
    ensures Relaying(a, a, ring, mm, 0, frame, {}, {})
  {
    hide Told, Grown, Spent, Within, HeardBy;
    GrownSame(a);
    Untouched(a, ring);
    HeardNothing(a.outs, frame);
    ToldNone(a.outs, Relayed(frame.from, frame.data));
    assert mm[..0] == [];
    KeepNothing({frame.from});
  }

  lemma RelayingSkip(a: Ends, e: Ends, ring: set<int>, mm: seq<int>, i: nat, frame: Sent,
                     gone: set<int>, got: set<int>)
    requires i < |mm| && Relaying(a, e, ring, mm, i, frame, gone, got) && mm[i] == frame.from && Distinct(mm)
    ensures Relaying(a, e, ring, mm, i + 1, frame, gone, got)
  {
    hide Told, Grown, Spent, Within, HeardBy, Keep;
    KeepNext(mm, i, frame.from);
    OneLater(mm, i);
    assert Keep(mm[..i], {frame.from}) + [] == Keep(mm[..i], {frame.from});
  }

  /** One more send, with what Send promises. */
  lemma RelayingSend(s: Core, a: Ends, b: Ends, e: Ends, ring: set<int>, mm: seq<int>, i: nat, frame: Sent,
                     gone: set<int>, got: set<int>, more: set<int>)
    requires i < |mm| && Relaying(a, b, ring, mm, i, frame, gone, got) && mm[i] != frame.from && Distinct(mm)
    requires 0 <= mm[i] < MAX_CLIENTS
    requires (forall m <- mm :: 0 <= m < MAX_CLIENTS && Circle(s, m) <= ring && s.clients[m].live) && Linked(s)
    requires Grown(b, e) && Spent(more, e) && Within(b, e, more, Circle(Settle(s, gone), mm[i]))
    requires more == {} <==> !Settle(s, gone).clients[mm[i]].live || b.spare[mm[i]] > 0
    requires more != {} ==> mm[i] in more && Quiet(b.outs, e.outs)
    requires more == {} ==>
      e.outs == if Settle(Settle(s, gone), more).clients[mm[i]].live
                then b.outs[mm[i] := b.outs[mm[i]] + [Relayed(frame.from, frame.data)]] else b.outs
    ensures Relaying(a, e, ring, mm, i + 1, frame, gone + more,
                     if more == {} && Settle(s, gone).clients[mm[i]].live then got + {mm[i]} else got)
  {
    hide Told, Grown, Spent, Within, HeardBy, Keep, Settle, Circle, Linked, Quiet;
    var m, note, s1 := mm[i], Relayed(frame.from, frame.data), Settle(s, gone);
    assert m in mm;
    KeepNext(mm, i, frame.from);
    OneLater(mm, i);
    if gone == {} { UntoldYet(a, b, mm, i, frame.from, note); }
    CircleShrinks(s, gone, m);
    InOwnCircle(s, m);
    NextSpent(s, a, b, gone, m);
    GrownTrans(a, b, e, gone, more);
    WithinTrans(a, b, e, gone, more, ring, Circle(s1, m));
    ToldSnoc(a.outs, Keep(mm[..i], {frame.from}), m, note);
    HeardNext(s1, a.outs, b.outs, e.outs, frame, got, m, more);
    SettleNone(s1);
    SettleNone(s);
    assert gone + {} == gone && gone <= gone + more && more <= gone + more;
  }

  lemma RelayingAll(a: Ends, e: Ends, ring: set<int>, mm: seq<int>, frame: Sent, gone: set<int>, got: set<int>)
    requires Relaying(a, e, ring, mm, |mm|, frame, gone, got)
    ensures Grown(a, e) && Spent(gone, e) && Within(a, e, gone, ring) && HeardBy(a.outs, e.outs, frame, got)
    ensures gone == {} ==> e.outs == Told(a.outs, Keep(mm, {frame.from}), Relayed(frame.from, frame.data))
    ensures (forall c <- ring :: 0 <= c < MAX_CLIENTS ==> a.spare[c] > 0) ==> gone == {}
    ensures got <= SetOf(mm) - {frame.from} && SetOf(mm) - {frame.from} - gone <= got
  {
    hide Told, Grown, Spent, Within, HeardBy, Keep;
    assert mm[..|mm|] == mm;
  }

  lemma OneLater(mm: seq<int>, i: nat)
    requires i < |mm| && Distinct(mm)
    ensures SetOf(mm[..i + 1]) == SetOf(mm[..i]) + {mm[i]} && mm[i] !in SetOf(mm[..i]) && mm[i] in mm
  {
    assert mm[..i + 1] == mm[..i] + [mm[i]];
  }

  /** What a started room's members have been given after these frames. */
  function Fanned(outs: Outs, members: seq<int>, frames: seq<Sent>): Outs {
    if frames == [] then outs
    else
      var n := |frames| - 1;
      Told(Fanned(outs, members, frames[..n]), Keep(members, {frames[n].from}), Relayed(frames[n].from, frames[n].data))
  }

  /** The frames that are not the member's own. */
  function Said(frames: seq<Sent>, m: int): seq<Sent> {
    if frames == [] then []
    else
      var n := |frames| - 1;
      Said(frames[..n], m) + if frames[n].from == m then [] else [frames[n]]
  }

  lemma {:induction false} ToldAt(outs: Outs, targets: seq<int>, note: Note, c: int)
    requires 0 <= c < MAX_CLIENTS && Distinct(targets) && forall t <- targets :: 0 <= t < MAX_CLIENTS
    ensures Told(outs, targets, note)[c] == outs[c] + if c in targets then [note] else []
    decreases |targets|
  {
    if targets != [] {
      var n := |targets| - 1;
      var t := targets[n];
      assert t in targets && targets == targets[..n] + [t];
      assert forall u <- targets[..n] :: u in targets;
      ToldAt(outs, targets[..n], note, c);
    }
  }

  /** What a run of frames gives a member is exactly the frames of its room-mates in order, and
      nothing of its own. */
  lemma {:induction false} FanoutInOrder(outs: Outs, members: seq<int>, frames: seq<Sent>, m: int)
    requires Distinct(members) && (forall t <- members :: 0 <= t < MAX_CLIENTS) && m in members
    ensures Heard(Fanned(outs, members, frames)[m]) == Heard(outs[m]) + Said(frames, m)
    decreases |frames|
  {
    hide Keep, Told;
    if frames != [] {
      var n := |frames| - 1;
      var f := frames[n];
      var before := Fanned(outs, members, frames[..n]);
      FanoutInOrder(outs, members, frames[..n], m);
      KeepIn(members, {f.from});
      var targets := Keep(members, {f.from});
      ToldAt(before, targets, Relayed(f.from, f.data), m);
      HeardSnoc(before[m], Relayed(f.from, f.data));
      assert before[m] + [] == before[m];
    } else {
      assert Heard(outs[m]) + [] == Heard(outs[m]);
    }
  }

  /** After n frames no connection has been asked to take more than n. */
  predicate SpareLeft(a: Ends, b: Ends, n: nat) {
    forall c :: 0 <= c < MAX_CLIENTS ==> b.spare[c] + n >= a.spare[c]
  }

  lemma OneEach(a: Ends, b: Ends, e: Ends, n: nat, targets: seq<int>, note: Note, members: seq<int>, from: int)
    requires SpareLeft(a, b, n) && Grown(b, e) && targets == Keep(members, {from}) &&
      e.outs == Told(b.outs, targets, note)
    requires Distinct(members) && forall m <- members :: 0 <= m < MAX_CLIENTS
    ensures SpareLeft(a, e, n + 1)
  {
    hide Told, Keep;
    KeepIn(members, {from});
    forall c | 0 <= c < MAX_CLIENTS ensures e.spare[c] + n + 1 >= a.spare[c] {
      ToldAt(b.outs, targets, note, c);
    }
  }

  /** While every connection takes more notes than there are frames of a match, none of them
      costs a member, and the notes are exactly their fold. */
  method RelayAll(server: Server, ri: int, frames: seq<Sent>) returns (ghost gone: set<int>)
    requires server.table.Valid()
    requires 0 <= ri < MAX_ROOMS && Good(server.Now(), server.seats) && server.rooms[ri].used &&
      server.rooms[ri].started
    requires forall f <- frames :: f.from in server.rooms[ri].members
    modifies server, server.table, server.table.slots
    ensures server.table.Valid()
    ensures (forall c :: 0 <= c < MAX_CLIENTS ==> old(server.spare[c]) > |frames|) ==> gone == {}
    ensures gone == {} ==>
      && server.Now() == old(server.Now())
      && server.outs == Fanned(old(server.outs), old(server.rooms[ri].members), frames)
    ensures Good(server.Now(), server.seats)
  {
    hide Good, Settle, Told, Grown, Spent, Keep;
    gone := {};
    var i := 0;
    assert frames[..0] == [];
    ghost var s0, outs0, e0 := server.Now(), server.outs, server.Sockets();
    RoomParts(s0, ri, server.seats);
    while i < |frames|
      invariant 0 <= i <= |frames| && server.table.Valid() && Good(server.Now(), server.seats)
      invariant gone == {} ==> SpareLeft(e0, server.Sockets(), i)
      invariant (forall c :: 0 <= c < MAX_CLIENTS ==> e0.spare[c] > |frames|) ==> gone == {}
      invariant gone == {} ==> server.Now() == s0 && server.outs == Fanned(outs0, s0.rooms[ri].members, frames[..i])
    {
      var f := frames[i];
      assert f in frames && 0 <= f.from < MAX_CLIENTS;
      ghost var e1 := server.Sockets();
      ghost var more, got := server.OnRelay(f.from, f.data);
      if gone == {} && more == {} {
        OneEach(e0, e1, server.Sockets(), i, Keep(s0.rooms[ri].members, {f.from}), Relayed(f.from, f.data),
          s0.rooms[ri].members, f.from);
        SettleNone(s0);
        MembersBelow(s0, ri);
        assert frames[..i + 1][..i] == frames[..i];
      }
      gone := Both(gone, more);
      i := i + 1;
    }
    assert frames[..i] == frames;
  }

  // ---------------------------------------------------------------- the missing dead-check

  /** Whom a HELLO of this name takes down, unless the holder's room goes on without it. */
  function EvictedBy(s: Core, e: Ends, ci: int, name: Name): set<int> {
    var i := FindName(s.names, name);
    if i < 0 || s.names[i].ci == ci || !(0 <= s.names[i].ci < MAX_CLIENTS) then {}
    else {s.names[i].ci} + Broke(Left(s, s.names[i].ci), e)
  }

  /** The name is another client's, and that client is this one's room-mate. */
  predicate Rivals(s: Core, ci: int, name: Name)
    requires 0 <= ci < MAX_CLIENTS
  {
    var i := FindName(s.names, name);
    && i >= 0 && 0 <= s.names[i].ci < MAX_CLIENTS && s.names[i].ci != ci
    && s.clients[s.names[i].ci].room == s.clients[ci].room != -1
  }

  /** And this one's connection takes nothing more. */
  predicate TakenDown(s: Core, e: Ends, ci: int, name: Name)
    requires 0 <= ci < MAX_CLIENTS
  {
    Rivals(s, ci, name) && e.spare[ci] == 0
  }

  /** The name is another client's, whose room is reseated when it is dropped. */
  predicate GoesOn(s: Core, ci: int, name: Name) {
    var i := FindName(s.names, name);
    i >= 0 && s.names[i].ci != ci && 0 <= s.names[i].ci < MAX_CLIENTS && Reseats(s, s.names[i].ci)
  }

  /** A room of two never goes on without one of them. */
  lemma EvictedParts(s: Core, e: Ends, ci: int, name: Name, seats: int)
    requires Good(s, seats) && 0 <= ci < MAX_CLIENTS
    ensures seats == 2 ==> !GoesOn(s, ci, name)
    ensures
      var i := FindName(s.names, name);
      if i < 0 || s.names[i].ci == ci then EvictedBy(s, e, ci, name) == {} && !TakenDown(s, e, ci, name)
      else
        var h := s.names[i].ci;
        && 0 <= h < MAX_CLIENTS && s.clients[h].live && !FreeName(s, ci, name)
        && EvictedBy(s, e, ci, name) == {h} + Broke(Left(s, h), e)
        && (GoesOn(s, ci, name) <==> Reseats(s, h))
  {
    hide Broke, Linked, Keep;
    GoodParts(s, seats);
    var i := FindName(s.names, name);
    if i >= 0 && s.names[i].ci != ci {
      assert s.names[i] in s.names;
      LeftFew(s, s.names[i].ci, seats);
    }
  }

  /** An eviction takes along only room-mates, and those that take nothing more. */
  lemma EvictedReach(s: Core, e: Ends, e': Ends, ci: int, name: Name, seats: int, gone: set<int>)
    requires Good(s, seats) && 0 <= ci < MAX_CLIENTS
    requires
      var i := FindName(s.names, name);
      && i >= 0 && s.names[i].ci != ci && 0 <= s.names[i].ci < MAX_CLIENTS && s.clients[s.names[i].ci].live
      && Within(e, e', gone, Circle(s, s.names[i].ci)) && Broke(Left(s, s.names[i].ci), e) <= gone
    ensures (ci in gone ==> Rivals(s, ci, name)) && (TakenDown(s, e, ci, name) ==> ci in gone)
  {
    hide Good, FindName, Left, Linked;
    var h := s.names[FindName(s.names, name)].ci;
    LeftFew(s, h, seats);
    if ci in gone { CircleMates(s, h, ci, seats); }
  }

  lemma CircleMates(s: Core, h: int, ci: int, seats: int)
    requires Good(s, seats) && 0 <= h < MAX_CLIENTS && ci in Circle(s, h) && ci != h
    ensures 0 <= ci < MAX_CLIENTS && s.clients[ci].room == s.clients[h].room != -1
  {
    RoomHeld(s, h, seats);
    RoomParts(s, s.clients[h].room, seats);
    MembersBelow(s, s.clients[h].room);
  }

  lemma LeftFew(s: Core, h: int, seats: int)
    requires Good(s, seats) && 0 <= h < MAX_CLIENTS && s.clients[h].live
    ensures seats == 2 ==> |Left(s, h)| < 2
    ensures forall m :: m in Left(s, h) <==>
      m != h && 0 <= m < MAX_CLIENTS && s.clients[m].room == s.clients[h].room != -1
  {
    var r := s.clients[h].room;
    if r != -1 {
      RoomHeld(s, h, seats);
      RoomParts(s, r, seats);
      KeepIn(s.rooms[r].members, {h});
      KeepFewer(s.rooms[r].members, h);
      MembersBelow(s, r);
    }
  }

  lemma RoomHeld(s: Core, h: int, seats: int)
    requires Good(s, seats) && 0 <= h < MAX_CLIENTS && s.clients[h].room != -1
    ensures 0 <= s.clients[h].room < MAX_ROOMS && s.rooms[s.clients[h].room].used &&
      h in s.rooms[s.clients[h].room].members
  {
    GoodParts(s, seats);
  }

  lemma {:induction false} KeepFewer(members: seq<int>, h: int)
    requires h in members
    ensures |Keep(members, {h})| < |members|
  {
    if members[0] != h { KeepFewer(members[1..], h); }
  }

  /** THEOREM.  What the missing look costs: unless the holder's room goes on without it, which a
      room of two never does, the name table is wrong afterwards exactly when the name was the
      client's own room-mate's and the client's connection takes nothing more. */
  lemma UncheckedHello(s: Core, e: Ends, ci: int, name: Name, seats: int)
    requires Good(s, seats) && 0 <= ci < MAX_CLIENTS && s.clients[ci].live && name != []
    ensures NamesRight(Registered(Settle(s, EvictedBy(s, e, ci, name)), ci, name)) <==> !TakenDown(s, e, ci, name)
    ensures ci in EvictedBy(s, e, ci, name) <==> TakenDown(s, e, ci, name)
    ensures seats == 2 ==> !GoesOn(s, ci, name)
  {
    hide Good, NamesRight, Settle, Registered, FreeName, Left, GoesOn;
    var gone := EvictedBy(s, e, ci, name);
    GoodParts(s, seats);
    EvictedParts(s, e, ci, name, seats);
    var i := FindName(s.names, name);
    if i >= 0 { LeftFew(s, s.names[i].ci, seats); }
    GoodNames(s, seats);
    NowFree(s, gone, ci, name);
    DeadTakesName(s, gone, ci, name, seats);
  }

  /** Taking a free name keeps the table right exactly if the client has not been lost. */
  lemma DeadTakesName(s: Core, gone: set<int>, ci: int, name: Name, seats: int)
    requires Good(s, seats) && 0 <= ci < MAX_CLIENTS && s.clients[ci].live && name != []
    requires FreeName(Settle(s, gone), ci, name)
    ensures NamesRight(Registered(Settle(s, gone), ci, name)) <==> ci !in gone
  {
    hide Good, NamesRight, Settle, Registered, FreeName;
    DeadOnlyIfGone(s, gone, ci);
    if ci in gone {
      DeadEntry(Settle(s, gone), ci, name);
    } else {
      SettleGood(s, gone, seats);
      RegisteredGood(Settle(s, gone), ci, name, seats);
      GoodNames(Registered(Settle(s, gone), ci, name), seats);
    }
  }

  /** A dead client with an entry. */
  lemma DeadEntry(s: Core, ci: int, name: Name)
    requires 0 <= ci < MAX_CLIENTS && !s.clients[ci].live
    ensures !NamesRight(Registered(s, ci, name))
  {
    hide FindName, DelName, SetName;
    RegisteredParts(s, ci, name);
    SetNameHas(Unaliased(s, ci, name), name, ci);
  }

  lemma SetNameHas(names: seq<Entry>, name: Name, ci: int)
    ensures Entry(name, ci) in SetName(names, name, ci)
  {
    var k, i := SetName(names, name, ci), FindName(names, name);
    assert k[if i >= 0 then i else |names|] == Entry(name, ci);
  }

  const ANNA: Name := [65, 78]
  const BERT: Name := [66, 69]

  /** Two named clients in one started room. */
  function Couple(): Core {
    var idle := Client(false, [], -1);
    Core(seq(MAX_CLIENTS, c =>
           if c == 0 then Client(true, ANNA, 0) else if c == 1 then Client(true, BERT, 0) else idle),
         seq(MAX_ROOMS, r => if r == 0 then Room(true, [0, 1], true) else Room(false, [], false)),
         [Entry(ANNA, 0), Entry(BERT, 1)])
  }

  /** The case exists: BERT, whose connection takes nothing more, says HELLO as ANNA; ANNA's
      drop ends their match and takes BERT along, and ANNA's name is then a dead client's. */
  method UncheckedHelloBreaks(server: Server) returns (ghost evicted: set<int>)
    requires server.table.Valid() && server.seats == 2 && server.Now() == Couple() && server.spare[1] == 0
    modifies server, server.table, server.table.slots
    ensures server.table.Valid() && evicted == {0, 1} && !NamesRight(server.Now())
  {
    hide Good, NamesRight, Couple;
    CoupleGood();
    CoupleFacts(server.Sockets());
    evicted := server.OnHelloUnchecked(1, ANNA);
  }

  lemma CoupleFacts(e: Ends)
    requires e.spare[1] == 0
    ensures Couple().clients[1].live && TakenDown(Couple(), e, 1, ANNA) && EvictedBy(Couple(), e, 1, ANNA) == {0, 1}
  {
    hide Good;
    var s := Couple();
    CoupleGood();
    assert FindName(s.names, ANNA) == 0;
    LeftFew(s, 0, 2);
    hide Left;
    assert Left(s, 0) == [1] by { assert |Left(s, 0)| < 2 && 1 in Left(s, 0); }
  }

  lemma CoupleGood()
    ensures Good(Couple(), 2)
  {
    var s := Couple();
    forall r | 0 <= r < MAX_ROOMS
      ensures (Attached(s, r) || Detached(s, r)) && RoomRight(s, r, 2) && Distinct(s.rooms[r].members)
    {
      if r == 0 { assert Attached(s, r); } else { assert Detached(s, r); }
    }
    assert s.names[0] in s.names && s.names[1] in s.names;
  }
}
