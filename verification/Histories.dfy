/** Whole histories of the relay: any connections, drops, stalls and frames in any order. */
module Histories {
  import opened Rooms
  import opened NameTable
  import opened Relay

  /** What can happen next.  Frames come from the client slot `ci`; a slot that is not live
      says nothing.  `Takes` is the peer reading its socket, or ceasing to. */
  datatype Event =
    | Connect(takes: nat)
    | Takes(ci: int, takes: nat)
    | Hello(ci: int, payload: seq<int>)
    | List(ci: int)
    | Join(ci: int, name: Name, autoGo: nat, seed: int)
    | Go(ci: int, seed: int)
    | Says(ci: int, data: seq<int>) // INPUT, CRC, STATE, RESYNC
    | Ping(ci: int)
    | Leave(ci: int) // BYE, an unknown type, a framing error, a closed socket

  /** Room r is in a match with these members. */
  ghost predicate Playing(s: Core, r: int, members: seq<int>) {
    0 <= r < MAX_ROOMS && s.rooms[r].used && s.rooms[r].started && s.rooms[r].members == members
  }

  /** What an event means to one member of a match: a room-mate's frame, or nothing. */
  function Spoke(e: Event, members: seq<int>, m: int): seq<Sent> {
    if e.Says? && e.ci in members && e.ci != m then [Sent(e.ci, e.data)] else []
  }

  /** The room-mates' frames in the order they came in. */
  function Spoken(events: seq<Event>, members: seq<int>, m: int): seq<Sent> {
    if events == [] then []
    else
      var n := |events| - 1;
      Spoken(events[..n], members, m) + Spoke(events[n], members, m)
  }

  /** Every member was given exactly that. */
  ghost predicate Fed(a: Outs, b: Outs, events: seq<Event>, members: seq<int>) {
    forall m <- members :: 0 <= m < MAX_CLIENTS && Heard(b[m]) == Heard(a[m]) + Spoken(events, members, m)
  }

  lemma PlayersLive(s: Core, r: int, members: seq<int>, seats: int)
    requires Good(s, seats) && Playing(s, r, members)
    ensures forall m <- members :: 0 <= m < MAX_CLIENTS && s.clients[m].live && s.clients[m].room == r
  {
    MembersLive(s, r, seats);
    RoomParts(s, r, seats);
  }

  /** A match that goes on has lost nobody. */
  lemma NobodyLeft(s: Core, gone: set<int>, r: int, members: seq<int>, seats: int)
    requires Good(s, seats) && Playing(s, r, members) && Playing(Settle(s, gone), r, members)
    ensures forall m <- members :: m !in gone
  {
    hide Settle, Keep;
    SettleParts(s, gone);
    PlayersLive(s, r, members, seats);
    RoomParts(s, r, seats);
    assert forall m <- members :: m in gone ==> Hit(s, r, gone);
  }

  lemma SpokenOne(e: Event, members: seq<int>, m: int)
    ensures Spoken([e], members, m) == Spoke(e, members, m)
  {
    assert [e][..0] == [];
  }

  /** A frame relayed within a match that goes on reaches all of its room-mates and nobody in
      another match. */
  lemma SaysFeeds(s: Core, gone: set<int>, got: set<int>, a: Outs, b: Outs, e: Event, r: int, members: seq<int>,
                  seats: int)
    requires Good(s, seats) && Playing(s, r, members) && Playing(Settle(s, gone), r, members)
    requires e.Says? && 0 <= e.ci < MAX_CLIENTS && HeardBy(a, b, Sent(e.ci, e.data), got)
    requires got <= Mates(s, e.ci) && Mates(s, e.ci) - gone <= got
    ensures Fed(a, b, [e], members)
  {
    hide Heard, Good, Settle, Mates;
    PlayersLive(s, r, members, seats);
    NobodyLeft(s, gone, r, members, seats);
    MatesAre(s, e.ci, r, members, seats);
    forall m | m in members ensures 0 <= m < MAX_CLIENTS && Heard(b[m]) == Heard(a[m]) + Spoken([e], members, m) {
      SpokenOne(e, members, m);
      assert m in got <==> e.ci in members && e.ci != m;
    }
  }

  lemma MatesAre(s: Core, ci: int, r: int, members: seq<int>, seats: int)
    requires Good(s, seats) && Playing(s, r, members) && 0 <= ci < MAX_CLIENTS
    ensures forall m <- members :: m in Mates(s, ci) <==> ci in members && ci != m
  {
    hide Keep;
    PlayersLive(s, r, members, seats);
    HearersParts(s, ci, seats);
    GoodParts(s, seats);
    var q := s.clients[ci].room;
    if q >= 0 {
      RoomParts(s, q, seats);
      MembersBelow(s, q);
    }
  }

  lemma FedMore(a: Outs, b: Outs, c: Outs, events: seq<Event>, e: Event, members: seq<int>)
    requires Fed(a, b, events, members) && Fed(b, c, [e], members)
    ensures Fed(a, c, events + [e], members)
  {
    hide Heard, Spoken;
    forall m | m in members
      ensures 0 <= m < MAX_CLIENTS && Heard(c[m]) == Heard(a[m]) + Spoken(events + [e], members, m)
    {
      SpokenSnoc(events, e, members, m);
      var was, more := Spoken(events, members, m), Spoken([e], members, m);
      assert Heard(b[m]) == Heard(a[m]) + was;
      assert (Heard(a[m]) + was) + more == Heard(a[m]) + (was + more);
    }
  }

  lemma SpokenSnoc(events: seq<Event>, e: Event, members: seq<int>, m: int)
    ensures Spoken(events + [e], members, m) == Spoken(events, members, m) + Spoken([e], members, m)
  {
    SpokenOne(e, members, m);
    assert (events + [e])[..|events|] == events;
  }

  predicate Acts(s: Core, ci: int) { 0 <= ci < MAX_CLIENTS && s.clients[ci].live }

  /** Connected clients have heard nothing more. */
  ghost predicate Unheard(s: Core, a: Outs, b: Outs) {
    forall c :: 0 <= c < MAX_CLIENTS && s.clients[c].live ==> Heard(b[c]) == Heard(a[c])
  }

  /** What a connected client was sent stays sent. */
  ghost predicate Longer(s: Core, a: Outs, b: Outs) {
    forall c :: 0 <= c < MAX_CLIENTS && s.clients[c].live ==> a[c] <= b[c]
  }

  lemma GrownLonger(s: Core, a: Ends, b: Ends)
    requires Grown(a, b)
    ensures Longer(s, a.outs, b.outs)
  {
  }

  lemma QuietUnheard(s: Core, a: Outs, b: Outs)
    requires Quiet(a, b)
    ensures Unheard(s, a, b)
  {
  }

  lemma NewUnheard(s: Core, a: Outs, ci: int)
    requires 0 <= ci < MAX_CLIENTS && !s.clients[ci].live
    ensures Unheard(s, a, a[ci := []]) && Longer(s, a, a[ci := []])
  {
    hide Heard;
  }

  lemma SameUnheard(s: Core, a: Outs)
    ensures Unheard(s, a, a) && Longer(s, a, a)
  {
  }

  // ---------------------------------------------------------------- what each event does

  ghost predicate AcceptDone(s: Core, a: Ends, t: Core, b: Ends, takes: nat, slot: int) {
    if slot == -1 then |LiveSet(s)| == MAX_CLIENTS && t == s && b == a
    else
      && 0 <= slot < MAX_CLIENTS && !s.clients[slot].live && (forall c :: 0 <= c < slot ==> s.clients[c].live)
      && t == Accepted(s, slot) && b == Ends(a.outs[slot := []], a.spare[slot := takes])
  }

  /** Dropped, and if nobody else is lost exactly the rest of its room is told. */
  ghost predicate DropDone(s: Core, a: Ends, t: Core, b: Ends, ci: int, gone: set<int>)
    requires 0 <= ci < MAX_CLIENTS
  {
    t == Settle(s, gone) && ci in gone && (gone == {ci} ==> b.outs == DropNotes(s, a.outs, ci))
  }

  /** The name's other holder evicted, the name taken, the lobby list sent. */
  ghost predicate HelloDone(s: Core, a: Ends, t: Core, b: Ends, ci: int, name: Name, seats: int,
                            evicted: set<int>, lost: set<int>)
    requires 0 <= ci < MAX_CLIENTS
  {
    && (FreeName(s, ci, name) ==> evicted == {}) && (ci in evicted ==> t == Settle(s, evicted))
    && (ci !in evicted ==> t == Settle(Registered(Settle(s, evicted), ci, name), lost))
    && (evicted == {} && a.spare[ci] > 0 ==> lost == {})
    && (evicted == {} && lost == {} ==> Listed(a, t, b, ci, seats))
  }

  /** One more note: the lobby list of these tables. */
  ghost predicate Listed(a: Ends, t: Core, b: Ends, ci: int, seats: int)
    requires 0 <= ci < MAX_CLIENTS
  {
    b.outs == a.outs[ci := a.outs[ci] + [Lobby(LobbyRows(t, FirstOthers(t.names, ci), seats))]]
  }

  ghost predicate ListDone(s: Core, a: Ends, t: Core, b: Ends, ci: int, seats: int, gone: set<int>)
    requires 0 <= ci < MAX_CLIENTS
  {
    t == Settle(s, gone) && (gone == {} <==> a.spare[ci] > 0) && (gone == {} ==> Listed(a, s, b, ci, seats))
  }

  /** Into the target's room and the roster to all of it, and the START if auto-go is reached;
      otherwise the lobby list, or nothing from within a room, or the drop of a nameless client. */
  ghost predicate JoinDone(s: Core, a: Ends, t: Core, b: Ends, ci: int, name: Name, autoGo: nat, seed: int, seats: int,
                           ri: int, told: set<int>, lost: set<int>)
    requires 0 <= ci < MAX_CLIENTS
  {
    var target := JoinTarget(s, ci, name, seats);
    if s.clients[ci].name == [] then t == Settle(s, told) && ci in told
    else if s.clients[ci].room != -1 then t == Settle(s, told) && (told == {} ==> b.outs == a.outs)
    else if target == -1 then t == Settle(s, told) && (told == {} ==> Listed(a, s, b, ci, seats))
    else
      && 0 <= ri < MAX_ROOMS && 0 <= target < MAX_CLIENTS && (s.clients[target].room == -1 ==> FirstFree(s, ri))
      && var mid := Settle(JoinEffect(s, ci, target, ri), told);
         var mm := mid.rooms[ri].members;
         var note := RoomNote(|mm|, Roster(mid, mm));
         && (Broke(JoinEffect(s, ci, target, ri).rooms[ri].members, a) == {} ==> told == {})
         && (if 0 < autoGo <= |mm| then
               t == Settle(Started(mid, ri), lost) &&
               (told == {} && lost == {} ==> EachItsSeat(mid, Told(a.outs, mm, note), b.outs, mm, seed))
             else t == mid && (told == {} ==> b.outs == Told(a.outs, mm, note)))
  }

  /** START to every seat, if this is the host of a forming room; otherwise nothing. */
  ghost predicate GoDone(s: Core, a: Ends, t: Core, b: Ends, ci: int, seed: int, gone: set<int>)
    requires 0 <= ci < MAX_CLIENTS
  {
    var r := s.clients[ci].room;
    if 0 <= r < MAX_ROOMS && !s.rooms[r].started && s.rooms[r].members != [] && s.rooms[r].members[0] == ci then
      && t == Settle(Started(s, r), gone) && (Broke(s.rooms[r].members, a) == {} ==> gone == {})
      && (gone == {} ==> EachItsSeat(s, a.outs, b.outs, s.rooms[r].members, seed))
    else t == s && b.outs == a.outs
  }

  ghost predicate PingDone(s: Core, a: Ends, t: Core, b: Ends, ci: int, gone: set<int>)
    requires 0 <= ci < MAX_CLIENTS
  {
    t == Settle(s, gone) && (gone == {} <==> a.spare[ci] > 0) &&
      (gone == {} ==> b.outs == a.outs[ci := a.outs[ci] + [Pong]])
  }

  ghost predicate SaysDone(s: Core, a: Ends, t: Core, b: Ends, ci: int, data: seq<int>, gone: set<int>, got: set<int>)
    requires 0 <= ci < MAX_CLIENTS
  {
    && t == Settle(s, gone) && got <= Mates(s, ci) && Mates(s, ci) - gone <= got
    && HeardBy(a.outs, b.outs, Sent(ci, data), got)
  }

  /** What an event does to the tables and to what was sent. */
  ghost predicate Does(e: Event, s: Core, a: Ends, t: Core, b: Ends, seats: int) {
    if e.Connect? then exists slot :: AcceptDone(s, a, t, b, e.takes, slot)
    else if !Acts(s, e.ci) then t == s && b == a
    else
      match e
      case Takes(ci, takes) => t == s && b == a.(spare := a.spare[ci := takes])
      case Hello(ci, payload) =>
        Grown(a, b) &&
        if HelloName(payload) == [] then exists gone :: DropDone(s, a, t, b, ci, gone)
        else exists evicted, lost :: HelloDone(s, a, t, b, ci, HelloName(payload), seats, evicted, lost)
      case List(ci) => Grown(a, b) && exists gone :: ListDone(s, a, t, b, ci, seats, gone)
      case Join(ci, name, autoGo, seed) =>
        Grown(a, b) && exists ri, told, lost :: JoinDone(s, a, t, b, ci, name, autoGo, seed, seats, ri, told, lost)
      case Go(ci, seed) => Grown(a, b) && exists gone :: GoDone(s, a, t, b, ci, seed, gone)
      case Says(ci, data) => Grown(a, b) && exists gone, got :: SaysDone(s, a, t, b, ci, data, gone, got)
      case Ping(ci) => Grown(a, b) && exists gone :: PingDone(s, a, t, b, ci, gone)
      case Leave(ci) => Grown(a, b) && exists gone :: DropDone(s, a, t, b, ci, gone)
  }

  /** A frame that is not relayed. */
  method Answer(server: Server, e: Event)
    requires server.table.Valid() && 2 <= server.seats && Good(server.Now(), server.seats)
    requires !e.Connect? && !e.Says? && Acts(server.Now(), e.ci)
    modifies server, server.table, server.table.slots
    ensures server.table.Valid() && Good(server.Now(), server.seats)
    ensures Unheard(old(server.Now()), old(server.outs), server.outs)
    ensures Longer(old(server.Now()), old(server.outs), server.outs)
    ensures e.Leave? ==> !server.clients[e.ci].live
    ensures Does(e, old(server.Now()), old(server.Sockets()), server.Now(), server.Sockets(), server.seats)
  {
    hide Good, Settle, Linked, Quiet, Grown, Spent, Within, Unheard, Longer, JoinTarget, JoinEffect, Started,
      Registered, FreeName, LobbyRows, FirstOthers, Told, EachItsSeat, DropNotes, FirstFree, Broke, Roster, Stripped;
    ghost var s0, outs0, e0 := server.Now(), server.outs, server.Sockets();
    GoodParts(s0, server.seats);
    SameUnheard(s0, outs0);
    ghost var gone: set<int> := {};
    match e {
      case Takes(ci, takes) =>
        server.spare := server.spare[ci := takes];
        return;
      case Hello(ci, payload) =>
        var name := ReadHello(payload);
        if name == [] {
          gone := server.Drop(ci);
          SettleGood(s0, gone, server.seats);
          assert DropDone(s0, e0, server.Now(), server.Sockets(), ci, gone);
        } else {
          ghost var evicted, lost := server.OnHello(ci, name);
          assert HelloDone(s0, e0, server.Now(), server.Sockets(), ci, name, server.seats, evicted, lost);
        }
      case List(ci) =>
        gone := server.OnList(ci);
        assert ListDone(s0, e0, server.Now(), server.Sockets(), ci, server.seats, gone);
      case Join(ci, name, autoGo, seed) =>
        var joined, ri;
        ghost var told, mid, lost;
        joined, ri, told, mid, lost := server.OnJoin(ci, name, autoGo, seed);
        JoinTargetParts(s0, ci, name, server.seats);
        assert JoinDone(s0, e0, server.Now(), server.Sockets(), ci, name, autoGo, seed, server.seats, ri, told, lost);
      case Go(ci, seed) =>
        var went;
        went, gone := server.OnGo(ci, seed);
        RoomFull(s0, ci, server.seats);
        assert GoDone(s0, e0, server.Now(), server.Sockets(), ci, seed, gone);
      case Ping(ci) =>
        gone := server.Send(ci, Pong);
        SettleGood(s0, gone, server.seats);
        SettleNone(s0);
        assert PingDone(s0, e0, server.Now(), server.Sockets(), ci, gone);
      case Leave(ci) =>
        gone := server.Drop(ci);
        DeadOnlyIfGone(s0, gone, ci);
        SettleGood(s0, gone, server.seats);
        assert DropDone(s0, e0, server.Now(), server.Sockets(), ci, gone);
    }
    QuietUnheard(s0, outs0, server.outs);
    GrownLonger(s0, e0, server.Sockets());
  }

  lemma RoomFull(s: Core, ci: int, seats: int)
    requires Good(s, seats) && 0 <= ci < MAX_CLIENTS
    ensures 0 <= s.clients[ci].room < MAX_ROOMS ==> s.rooms[s.clients[ci].room].members != []
  {
    if s.clients[ci].room != -1 { RoomHeld(s, ci, seats); }
  }

  /** One event, handled; `slot` is where a new connection went, if it did. */
  method Handle(server: Server, e: Event, ghost r: int, ghost members: seq<int>) returns (slot: int)
    requires server.table.Valid() && 2 <= server.seats && Good(server.Now(), server.seats)
    modifies server, server.table, server.table.slots
    ensures server.table.Valid() && Good(server.Now(), server.seats)
    ensures Playing(old(server.Now()), r, members) && Playing(server.Now(), r, members) ==>
      Fed(old(server.outs), server.outs, [e], members)
    ensures Longer(old(server.Now()), old(server.outs), server.outs)
    ensures e.Leave? && 0 <= e.ci < MAX_CLIENTS ==> !server.clients[e.ci].live
    ensures slot != -1 ==> 0 <= slot < MAX_CLIENTS && !old(server.clients[slot].live) && server.clients[slot].live
    ensures Does(e, old(server.Now()), old(server.Sockets()), server.Now(), server.Sockets(), server.seats)
    ensures e.Connect? ==>
      AcceptDone(old(server.Now()), old(server.Sockets()), server.Now(), server.Sockets(), e.takes, slot)
  {
    hide Good, Playing, Fed, Settle, Heard, Grown, Spent, Within, HeardBy, Mates, Unheard, Told, Longer;
    ghost var s0, outs0, e0 := server.Now(), server.outs, server.Sockets();
    SameUnheard(s0, outs0);
    slot := -1;
    if e.Connect? {
      slot := server.Accept(e.takes);
      assert AcceptDone(s0, e0, server.Now(), server.Sockets(), e.takes, slot);
      if slot >= 0 { NewUnheard(s0, outs0, slot); }
    } else if !(0 <= e.ci < MAX_CLIENTS && server.clients[e.ci].live) {
    } else if e.Says? {
      ghost var gone, got := server.OnRelay(e.ci, e.data);
      assert SaysDone(s0, e0, server.Now(), server.Sockets(), e.ci, e.data, gone, got);
      GrownLonger(s0, e0, server.Sockets());
      if Playing(s0, r, members) && Playing(server.Now(), r, members) {
        SaysFeeds(s0, gone, got, outs0, server.outs, e, r, members, server.seats);
      }
      return;
    } else {
      Answer(server, e);
    }
    if Playing(s0, r, members) {
      UnheardFeeds(s0, outs0, server.outs, e, r, members, server.seats);
    }
  }

  lemma UnheardFeeds(s: Core, a: Outs, b: Outs, e: Event, r: int, members: seq<int>, seats: int)
    requires Good(s, seats) && Playing(s, r, members) && Unheard(s, a, b) && (e.Says? ==> !Acts(s, e.ci))
    ensures Fed(a, b, [e], members)
  {
    hide Heard, Good;
    PlayersLive(s, r, members, seats);
    forall m | m in members ensures 0 <= m < MAX_CLIENTS && Heard(b[m]) == Heard(a[m]) + Spoken([e], members, m) {
      assert Heard(a[m]) + [] == Heard(a[m]);
      SpokenOne(e, members, m);
    }
  }

  /** Every state of a history, the first one included. */
  ghost predicate AllGood(trace: seq<Core>, seats: int) {
    forall k :: 0 <= k < |trace| ==> Good(trace[k], seats)
  }

  ghost predicate PlayingThrough(trace: seq<Core>, r: int, members: seq<int>) {
    forall k :: 0 <= k < |trace| ==> Playing(trace[k], r, members)
  }

  /** THEOREM.  Over any events in any order the relay's tables stay right, and as long as a
      match goes on with the same members each of them has been given, verbatim and in the
      order they came in, exactly the frames of the other members: nothing of its own, nothing
      from another room, nothing missing. */
  method Serve(server: Server, events: seq<Event>, ghost r: int, ghost members: seq<int>)
    returns (ghost trace: seq<Core>)
    requires server.table.Valid() && 2 <= server.seats && Good(server.Now(), server.seats)
    modifies server, server.table, server.table.slots
    ensures server.table.Valid() && AllGood(trace, server.seats)
    ensures |trace| == |events| + 1 && trace[0] == old(server.Now()) && trace[|events|] == server.Now()
    ensures PlayingThrough(trace, r, members) ==> Fed(old(server.outs), server.outs, events, members)
  {
    hide Good, Playing, Fed;
    ghost var outs0 := server.outs;
    trace := [server.Now()];
    var i := 0;
    assert events[..0] == [];
    FedNone(server.Now(), outs0, r, members, server.seats);
    while i < |events|
      invariant 0 <= i <= |events| && server.table.Valid() && AllGood(trace, server.seats)
      invariant |trace| == i + 1 && trace[0] == old(server.Now()) && trace[i] == server.Now()
      invariant PlayingThrough(trace, r, members) ==> Fed(outs0, server.outs, events[..i], members)
    {
      ghost var outs1, before := server.outs, trace;
      var slot := Handle(server, events[i], r, members);
      trace := trace + [server.Now()];
      if PlayingThrough(trace, r, members) {
        assert PlayingThrough(before, r, members) by {
          forall k | 0 <= k < |before| ensures Playing(before[k], r, members) {
            assert before[k] == trace[k];
          }
        }
        assert Playing(trace[i], r, members) && Playing(trace[i + 1], r, members);
        FedMore(outs0, outs1, server.outs, events[..i], events[i], members);
      }
      assert events[..i + 1] == events[..i] + [events[i]];
      i := i + 1;
    }
    assert events[..i] == events;
  }

  lemma FedNone(s: Core, a: Outs, r: int, members: seq<int>, seats: int)
    requires Good(s, seats)
    ensures Playing(s, r, members) ==> Fed(a, a, [], members)
  {
    hide Good, Heard;
    if Playing(s, r, members) {
      PlayersLive(s, r, members, seats);
      assert forall m <- members :: Heard(a[m]) + [] == Heard(a[m]);
    }
  }

  /** From the empty server: every state of every history is right. */
  method WholeHistory(seats: int, events: seq<Event>) returns (server: Server, ghost trace: seq<Core>)
    requires 2 <= seats
    ensures server.table.Valid() && server.seats == seats && AllGood(trace, seats)
    ensures |trace| == |events| + 1 && trace[0] == Empty() && trace[|events|] == server.Now()
  {
    server := new Server(seats);
    trace := Serve(server, events, 0, []);
  }

  // ---------------------------------------------------------------- one sender at a time

  function Only(frames: seq<Sent>, from: int): seq<seq<int>> {
    if frames == [] then []
    else
      var n := |frames| - 1;
      Only(frames[..n], from) + if frames[n].from == from then [frames[n].data] else []
  }

  /** Everything one client said. */
  function SaidBy(events: seq<Event>, from: int): seq<seq<int>> {
    if events == [] then []
    else
      var n := |events| - 1;
      SaidBy(events[..n], from) + if events[n].Says? && events[n].ci == from then [events[n].data] else []
  }

  lemma {:induction false} OnlyBoth(a: seq<Sent>, b: seq<Sent>, from: int)
    ensures Only(a + b, from) == Only(a, from) + Only(b, from)
    decreases |b|
  {
    if b == [] {
      assert a + b == a;
    } else {
      assert (a + b)[..|a + b| - 1] == a + b[..|b| - 1];
      OnlyBoth(a, b[..|b| - 1], from);
    }
  }

  /** THEOREM.  Restricted to one sender: a room-mate's frames are all of its frames, in order;
      of anyone else and of itself a member is given none. */
  lemma {:induction false} OneSender(events: seq<Event>, members: seq<int>, m: int, from: int)
    ensures Only(Spoken(events, members, m), from) == if from in members && from != m then SaidBy(events, from) else []
    decreases |events|
  {
    if events != [] {
      var n := |events| - 1;
      OneSender(events[..n], members, m, from);
      OnlyBoth(Spoken(events[..n], members, m), Spoke(events[n], members, m), from);
      OnlySpoke(events[n], members, m, from);
    }
  }

  lemma OnlySpoke(e: Event, members: seq<int>, m: int, from: int)
    ensures Only(Spoke(e, members, m), from) ==
      if e.Says? && e.ci in members && e.ci != m && e.ci == from then [e.data] else []
  {
    var f := Spoke(e, members, m);
    if f != [] { assert f[..0] == []; }
  }

  // ---------------------------------------------------------------- how two players meet

  /** Two connections, then their names. */
  function Strangers(): Core { Accepted(Accepted(Empty(), 0), 1) }
  function Lonely(): Core { Registered(Registered(Strangers(), 0, ANNA), 1, BERT) }

  lemma StrangersAre()
    ensures LiveSet(Empty()) == {} && LiveSet(Accepted(Empty(), 0)) == {0} && |{0}| == 1
    ensures !Empty().clients[0].live && Accepted(Empty(), 0).clients[0].live && !Accepted(Empty(), 0).clients[1].live
    ensures Strangers().names == [] && Strangers().rooms == Empty().rooms
    ensures Strangers().clients == Empty().clients[0 := Client(true, [], -1)][1 := Client(true, [], -1)]
  {
  }

  lemma AnnaIs()
    ensures
      var t := Registered(Strangers(), 0, ANNA);
      FreeName(Strangers(), 0, ANNA) && t.names == [Entry(ANNA, 0)] && FreeName(t, 1, BERT)
      && t.clients == Strangers().clients[0 := Client(true, ANNA, -1)] && t.rooms == Strangers().rooms
  {
    assert FindName([], ANNA) == -1;
  }

  lemma LonelyIs()
    ensures Lonely().names == [Entry(ANNA, 0), Entry(BERT, 1)] && Lonely().rooms == Empty().rooms
    ensures Lonely().clients == Empty().clients[0 := Client(true, ANNA, -1)][1 := Client(true, BERT, -1)]
    ensures JoinTarget(Lonely(), 1, ANNA, 2) == 0
  {
    AnnaIs();
    var t := Registered(Strangers(), 0, ANNA);
    assert FindName(t.names, BERT) == -1;
    AnnaFound(Lonely());
  }

  lemma AnnaFound(s: Core)
    requires s.names == [Entry(ANNA, 0), Entry(BERT, 1)] && s.clients[0] == Client(true, ANNA, -1)
    ensures JoinTarget(s, 1, ANNA, 2) == 0
  {
    assert FindName(s.names, ANNA) == 0;
  }

  lemma CoupleIs()
    ensures
      var t := JoinEffect(Lonely(), 1, 0, 0);
      t.rooms[0] == Room(true, [0, 1], false) && t.clients[0].room == 0 && Started(t, 0) == Couple()
    ensures forall r :: FirstFree(Lonely(), r) ==> r == 0
  {
    LonelyIs();
    assert !Lonely().rooms[0].used;
    var t := Started(JoinEffect(Lonely(), 1, 0, 0), 0);
    hide Lonely;
    assert t.clients == Couple().clients && t.rooms == Couple().rooms;
  }

  lemma NoneBroke(mm: seq<int>, e: Ends)
    requires forall m <- mm :: 0 <= m < MAX_CLIENTS && e.spare[m] > 0
    ensures Broke(mm, e) == {}
  {
  }

  method TwoConnect() returns (server: Server)
    ensures fresh(server) && fresh(server.table) && fresh(server.table.slots) && server.table.Valid()
    ensures server.seats == 2 && Good(server.Now(), 2) && server.Now() == Strangers()
  {
    hide Good, LiveSet, Empty, Accepted;
    StrangersAre();
    server := new Server(2);
    var anna := server.Accept(9);
    assert anna == 0 && server.Now() == Accepted(Empty(), 0);
    var bert := server.Accept(9);
    assert bert == 1;
  }

  /** A HELLO of a free name from a connection that takes another note. */
  method Introduce(server: Server, ci: int, name: Name)
    requires server.table.Valid() && Good(server.Now(), server.seats) && Acts(server.Now(), ci)
    requires 2 <= |name| <= 8 && (forall b <- name :: NameByte(b)) && FreeName(server.Now(), ci, name)
    modifies server, server.table, server.table.slots
    ensures server.table.Valid() && Good(server.Now(), server.seats)
    ensures server.Now() == Registered(old(server.Now()), ci, name)
  {
    hide Good, Settle, LiveSet, Grown, Spent, Within, Quiet, Registered, FreeName, Stripped;
    ghost var s := server.Now();
    server.spare := server.spare[ci := 9];
    HelloRoundTrip(name, []);
    var said := ReadHello([2] + name + []);
    ghost var evicted, lost := server.OnHello(ci, said);
    SettleNone(s);
    SettleNone(Registered(s, ci, name));
  }

  /** Two players connect, say who they are, join and start; then one stops reading. */
  method Meet() returns (server: Server)
    ensures fresh(server) && fresh(server.table) && fresh(server.table.slots)
    ensures server.table.Valid() && server.seats == 2 && server.Now() == Couple() && server.spare[1] == 0
  {
    hide Good, Registered, Couple, Accepted, Empty, FreeName, JoinEffect, Started, JoinTarget;
    StrangersAre();
    AnnaIs();
    LonelyIs();
    CoupleIs();
    server := TwoConnect();
    Introduce(server, 0, ANNA);
    Introduce(server, 1, BERT);
    JoinAndGo(server);
    server.spare := server.spare[1 := 0];
  }

  /** BERT joins ANNA, and ANNA starts. */
  method JoinAndGo(server: Server)
    requires server.table.Valid() && server.seats == 2 && Good(server.Now(), 2) && server.Now() == Lonely()
    modifies server, server.table, server.table.slots
    ensures server.table.Valid() && server.Now() == Couple()
  {
    hide Good, Settle, LiveSet, Grown, Spent, Within, Quiet, Couple, Lonely, FirstFree, JoinEffect, Started, Told,
      Seated, Broke, JoinTarget;
    LonelyIs();
    CoupleIs();
    server.spare := server.spare[0 := 9][1 := 9];
    NoneBroke([0, 1], server.Sockets());
    var joined, ri;
    ghost var told, mid, lost;
    joined, ri, told, mid, lost := server.OnJoin(1, ANNA, 0, 1);
    ghost var t := JoinEffect(Lonely(), 1, 0, 0);
    SettleNone(t);
    assert server.Now() == t;
    server.spare := server.spare[0 := 9][1 := 9];
    NoneBroke([0, 1], server.Sockets());
    var went;
    ghost var gone;
    went, gone := server.OnGo(0, 1);
    SettleNone(Started(t, 0));
  }

  /** THEOREM.  From the empty server, by connections, HELLOs, a JOIN, a GO and a stalled reader:
      an unchecked HELLO that leaves a dead client's name in the table. */
  method UncheckedRun() returns (server: Server)
    ensures server.table.Valid() && !NamesRight(server.Now())
  {
    hide NamesRight, Couple;
    server := Meet();
    ghost var evicted := UncheckedHelloBreaks(server);
  }
}
