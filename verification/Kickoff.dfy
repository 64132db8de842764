/** What requests mean, on bytes: from an empty relay and the literal bytes of two HELLOs, a JOIN
    and a GO to a match in which each has its own START. */
module Kickoff {
  import opened Rooms
  import opened NameTable
  import opened Relay
  import opened Histories
  import opened Traffic

  // ---------------------------------------------------------------- what a body asks for

  /** A HELLO with a padded name asks for that name. */
  lemma HelloBody(ci: int, name: Name, pad: seq<int>, body: Bytes, autoGo: nat, seed: int)
    requires 2 <= |name| <= 8 && (forall b <- name :: NameByte(b)) && (forall b <- pad :: Padding(b))
    requires body == [0x01, 2] + name + pad
    ensures Decode(ci, body, autoGo, seed) == Hello(ci, [2] + name + pad) && HelloName([2] + name + pad) == name
  {
    HelloRoundTrip(name, pad);
    assert body[1..] == [2] + name + pad;
  }

  /** A JOIN with a padded name names whom to join. */
  lemma JoinBody(ci: int, name: Name, pad: seq<int>, body: Bytes, autoGo: nat, seed: int)
    requires 1 <= |name| <= 8 && (forall b <- name :: NameByte(b)) && (forall b <- pad :: Padding(b))
    requires body == [0x04] + name + pad
    ensures Decode(ci, body, autoGo, seed) == Join(ci, name, autoGo, seed)
  {
    assert name[|name| - 1] in name;
    StripPad(name, pad);
    assert body[1..] == name + pad;
  }

  /** A JOIN of a longer name joins nobody. */
  lemma LongJoin(ci: int, name: Bytes, pad: seq<int>, body: Bytes, autoGo: nat, seed: int, s: Core, seats: int)
    requires |name| > 8 && !Padding(name[|name| - 1]) && (forall b <- pad :: Padding(b)) && body == [0x04] + name + pad
    requires Good(s, seats)
    ensures Decode(ci, body, autoGo, seed) == Join(ci, [], autoGo, seed) && JoinTarget(s, ci, [], seats) == -1
  {
    StripPad(name, pad);
    assert body[1..] == name + pad;
    GoodParts(s, seats);
    assert forall i :: 0 <= i < |s.names| ==> s.names[i] in s.names;
  }

  /** The requests without a payload, the relayed types, and everything else, which drops. */
  lemma OtherBodies(ci: int, body: Bytes, autoGo: nat, seed: int)
    requires body != []
    ensures body[0] == 0x02 ==> Decode(ci, body, autoGo, seed) == List(ci)
    ensures body[0] == 0x0F ==> Decode(ci, body, autoGo, seed) == Go(ci, seed)
    ensures body[0] == 0x0C ==> Decode(ci, body, autoGo, seed) == Ping(ci)
    ensures body[0] in {0x06, 0x07, 0x08, 0x09} <==> Decode(ci, body, autoGo, seed) == Says(ci, body)
    ensures body[0] !in {0x01, 0x02, 0x04, 0x06, 0x07, 0x08, 0x09, 0x0C, 0x0F} <==>
      Decode(ci, body, autoGo, seed) == Leave(ci)
  {
  }

  // ---------------------------------------------------------------- what it does, with room

  lemma PingGives(s: Core, a: Ends, t: Core, b: Ends, ci: int, seats: int)
    requires Does(Ping(ci), s, a, t, b, seats) && Acts(s, ci) && a.spare[ci] > 0
    ensures t == s && b.outs == a.outs[ci := a.outs[ci] + [Pong]]
  {
    hide Settle;
    SettleNone(s);
  }

  lemma ListGives(s: Core, a: Ends, t: Core, b: Ends, ci: int, seats: int)
    requires Does(List(ci), s, a, t, b, seats) && Acts(s, ci) && a.spare[ci] > 0
    ensures t == s && Listed(a, s, b, ci, seats)
  {
    hide Settle;
    SettleNone(s);
  }

  lemma LeaveGives(s: Core, a: Ends, t: Core, b: Ends, ci: int, seats: int)
    requires Does(Leave(ci), s, a, t, b, seats) && Acts(s, ci)
    ensures !t.clients[ci].live && t.clients[ci].room == -1 && forall e <- t.names :: e.ci != ci
  {
    hide Settle, DropNotes;
    var gone :| DropDone(s, a, t, b, ci, gone);
    SettleParts(s, gone);
    KeepNamesIn(s.names, gone);
  }

  lemma HelloGives(s: Core, a: Ends, t: Core, b: Ends, ci: int, payload: seq<int>, seats: int)
    requires Does(Hello(ci, payload), s, a, t, b, seats) && Acts(s, ci) && a.spare[ci] > 0
    requires HelloName(payload) != [] && FreeName(s, ci, HelloName(payload))
    ensures t == Registered(s, ci, HelloName(payload)) && Listed(a, t, b, ci, seats) && Grown(a, b)
  {
    hide Settle, Registered, Listed, FreeName, HelloName, Grown;
    SettleNone(s);
    SettleNone(Registered(s, ci, HelloName(payload)));
  }

  lemma JoinGives(s: Core, a: Ends, t: Core, b: Ends, ci: int, name: Name, seed: int, seats: int) returns (ri: int)
    requires Does(Join(ci, name, 0, seed), s, a, t, b, seats) && Acts(s, ci)
    requires s.clients[ci].name != [] && s.clients[ci].room == -1 && JoinTarget(s, ci, name, seats) != -1
    requires forall c :: 0 <= c < MAX_CLIENTS && s.clients[c].live ==> a.spare[c] > 0
    requires forall r :: 0 <= r < MAX_ROOMS ==>
      forall m <- JoinEffect(s, ci, JoinTarget(s, ci, name, seats), r).rooms[r].members :: Acts(s, m)
    ensures
      var target := JoinTarget(s, ci, name, seats);
      && 0 <= ri < MAX_ROOMS && 0 <= target < MAX_CLIENTS && (s.clients[target].room == -1 ==> FirstFree(s, ri))
      && t == JoinEffect(s, ci, target, ri) && Grown(a, b)
      && b.outs == Told(a.outs, t.rooms[ri].members, RoomNote(|t.rooms[ri].members|, Roster(t, t.rooms[ri].members)))
  {
    hide Settle, Grown, Told, Roster, FirstFree, JoinEffect, JoinTarget, Started, EachItsSeat;
    var r, told, lost :| JoinDone(s, a, t, b, ci, name, 0, seed, seats, r, told, lost);
    ri := r;
    var u := JoinEffect(s, ci, JoinTarget(s, ci, name, seats), ri);
    NoneBroke(u.rooms[ri].members, a);
    SettleNone(u);
  }

  lemma GoGives(s: Core, a: Ends, t: Core, b: Ends, ci: int, seed: int, seats: int)
    requires Does(Go(ci, seed), s, a, t, b, seats) && Acts(s, ci)
    requires
      var r := s.clients[ci].room;
      0 <= r < MAX_ROOMS && !s.rooms[r].started && s.rooms[r].members != [] && s.rooms[r].members[0] == ci
      && forall m <- s.rooms[r].members :: 0 <= m < MAX_CLIENTS && a.spare[m] > 0
    ensures var r := s.clients[ci].room; t == Started(s, r) && EachItsSeat(s, a.outs, b.outs, s.rooms[r].members, seed)
  {
    hide Settle, Grown, Started, EachItsSeat;
    var r := s.clients[ci].room;
    NoneBroke(s.rooms[r].members, a);
    SettleNone(Started(s, r));
  }

  // ---------------------------------------------------------------- one frame in pieces

  function Concat(pieces: seq<Bytes>): Bytes { if pieces == [] then [] else pieces[0] + Concat(pieces[1..]) }

  /** However a frame is cut, and whatever incomplete frame follows: one event. */
  method Deliver(front: Front, ci: int, pieces: seq<Bytes>, ghost body: Bytes, ghost extra: Bytes, ghost h: Story)
    returns (ghost h': Story)
    requires front.Valid() && front.Drained() && front.Knows(h, 0, []) && Acts(front.server.Now(), ci)
    requires front.rx[ci] + Concat(pieces) == Framed(body) + extra && Whole(body) && Unfinished(extra)
    modifies front, front.server, front.server.table, front.server.table.slots
    ensures front.Valid() && front.Drained() && front.Knows(h', 0, [])
    ensures Does(Decode(ci, body, front.autoGo, front.seed(old(front.handled))), old(front.server.Now()),
                 old(front.server.Sockets()), front.server.Now(), front.server.Sockets(), front.server.seats)
    ensures front.handled == old(front.handled) + 1
    ensures Acts(front.server.Now(), ci) ==> front.rx[ci] == extra
    ensures forall c :: 0 <= c < MAX_CLIENTS && c != ci ==> front.rx[c] == old(front.rx[c])
  {
    hide Good, Tells, Accounted, Does, Decode, Handles, Framed;
    h' := h;
    ghost var s0, e0, k0 := front.server.Now(), front.server.Sockets(), front.handled;
    ghost var done := false;
    var i := 0;
    assert pieces[0..] == pieces;
    FramedLong(body);
    SoFar(front.rx[ci], Concat(pieces), body, extra);
    while i < |pieces|
      invariant 0 <= i <= |pieces| && front.Valid() && front.Drained() && front.Knows(h', 0, [])
      invariant forall c :: 0 <= c < MAX_CLIENTS && c != ci ==> front.rx[c] == old(front.rx[c])
      invariant !done ==>
        && front.server.Now() == s0 && front.server.Sockets() == e0 && front.handled == k0
        && front.rx[ci] + Concat(pieces[i..]) == Framed(body) + extra && |front.rx[ci]| <= |body|
      invariant done ==>
        && Does(Decode(ci, body, front.autoGo, front.seed(k0)), s0, e0, front.server.Now(), front.server.Sockets(),
             front.server.seats)
        && front.handled == k0 + 1 && (Acts(front.server.Now(), ci) ==> front.rx[ci] + Concat(pieces[i..]) == extra)
    {
      assert pieces[i..][1..] == pieces[i + 1..];
      ghost var buf, rest, s1, e1, k1 :=
        front.rx[ci] + pieces[i], Concat(pieces[i + 1..]), front.server.Now(), front.server.Sockets(), front.handled;
      assert front.rx[ci] + Concat(pieces[i..]) == buf + rest;
      h' := front.Receive(ci, pieces[i], h', 0, []);
      if !done {
        SplitFrame(buf, rest, body, extra);
        if |buf| <= |body| {
          HandlesIdle(ci, buf, front.autoGo, front.seed, k1, front.server.seats, s1, e1,
                      front.server.Now(), front.server.Sockets(), front.rx[ci], front.handled);
        } else {
          HandlesOne(ci, body, buf[|body| + 1..], front.autoGo, front.seed, k1, front.server.seats, s1, e1,
                     front.server.Now(), front.server.Sockets(), front.rx[ci], front.handled);
          done := true;
        }
      } else if Acts(s1, ci) {
        assert buf <= buf + rest;
        PrefixUnfinished(buf, extra);
        HandlesIdle(ci, buf, front.autoGo, front.seed, k1, front.server.seats, s1, e1,
                    front.server.Now(), front.server.Sockets(), front.rx[ci], front.handled);
      }
      i := i + 1;
    }
    assert Concat(pieces[i..]) == [];
  }

  lemma FramedLong(body: Bytes)
    ensures |Framed(body)| == |body| + 1
  {
  }

  /** Where a cut falls in a frame and what follows it. */
  lemma SplitFrame(buf: Bytes, rest: Bytes, body: Bytes, extra: Bytes)
    requires buf + rest == Framed(body) + extra && Whole(body) && Unfinished(extra)
    ensures
      if |buf| <= |body| then Unfinished(buf)
      else
        var more := buf[|body| + 1..];
        buf == Framed(body) + more && more + rest == extra && Unfinished(more)
  {
    var all := Framed(body) + extra;
    assert all[0] == |body| && |Framed(body)| == |body| + 1 && buf == (buf + rest)[..|buf|];
    if |buf| > |body| {
      var more := buf[|body| + 1..];
      assert all[..|body| + 1] == Framed(body) && all[|body| + 1..] == extra;
      assert (buf + rest)[|body| + 1..] == more + rest && buf == buf[..|body| + 1] + more;
      assert (buf + rest)[..|body| + 1] == buf[..|body| + 1];
      assert more <= more + rest;
      PrefixUnfinished(more, extra);
    }
  }

  /** An incomplete buffer in front of a frame is a part of it. */
  lemma SoFar(buf: Bytes, rest: Bytes, body: Bytes, extra: Bytes)
    requires buf + rest == Framed(body) + extra && Whole(body) && Unfinished(buf)
    ensures |buf| <= |body|
  {
    if buf != [] { assert (buf + rest)[0] == buf[0] && (Framed(body) + extra)[0] == |body|; }
  }

  // ---------------------------------------------------------------- from nothing to a match

  const HELLO_ANNA: Bytes := [4, 0x01, 2, 65, 78]
  const HELLO_BERT: Bytes := [4, 0x01, 2, 66, 69]
  const JOIN_ANNA: Bytes := [9, 0x04, 65, 78, 0, 0, 0, 0, 0, 0]
  const GO: Bytes := [1, 0x0F]

  /** Two connections with room for nine notes each. */
  method TwoDial(seed: nat -> int) returns (front: Front, ghost h: Story)
    ensures fresh(front) && fresh(front.server) && fresh(front.server.table) && fresh(front.server.table.slots)
    ensures front.Valid() && front.Drained() && front.Knows(h, 0, [])
    ensures front.server.seats == 2 && front.autoGo == 0 && front.seed == seed && front.handled == 0
    ensures front.server.Now() == Strangers() && front.rx[0] == front.rx[1] == []
    ensures forall c :: 0 <= c < 2 ==> front.server.outs[c] == [] && front.server.spare[c] == 9
  {
    hide Good, LiveSet, Empty, Accepted, Tells, Accounted;
    StrangersAre();
    front := new Front(2, 0, seed);
    h := Story(front.server.outs, front.said, front.arrived, [], [front.server.Now()]);
    TellsNothing(front.server.Now(), front.server.outs, front.said, front.arrived, 2, 0, []);
    var anna, bert;
    anna, h := front.Dialled(9, h, 0, []);
    assert anna == 0;
    bert, h := front.Dialled(9, h, 0, []);
    assert bert == 1;
  }

  /** HELLO, cut anywhere, of a free name. */
  method SayHello(front: Front, ci: int, name: Bytes, pieces: seq<Bytes>, ghost extra: Bytes, ghost h: Story)
    returns (ghost h': Story)
    requires front.Valid() && front.Drained() && front.Knows(h, 0, []) && Acts(front.server.Now(), ci)
    requires |name| == 2 && (forall b <- name :: NameByte(b)) && FreeName(front.server.Now(), ci, name)
    requires front.rx[ci] + Concat(pieces) == [4, 0x01, 2] + name + extra && Unfinished(extra) &&
      front.server.spare[ci] > 0
    modifies front, front.server, front.server.table, front.server.table.slots
    ensures front.Valid() && front.Drained() && front.Knows(h', 0, []) && front.handled == old(front.handled) + 1
    ensures front.server.Now() == Registered(old(front.server.Now()), ci, name)
    ensures Listed(old(front.server.Sockets()), front.server.Now(), front.server.Sockets(), ci, front.server.seats)
    ensures forall c :: 0 <= c < MAX_CLIENTS ==>
      front.server.spare[c] == old(front.server.spare[c]) - (if c == ci then 1 else 0)
    ensures front.rx == old(front.rx)[ci := extra]
  {
    hide Good, Tells, Accounted, Does, Decode, Registered, Listed, FreeName, Grown, HelloName, Framed;
    var body: Bytes := [0x01, 2] + name;
    HelloFrame(name, body, extra);
    HelloBody(ci, name, [], body, front.autoGo, front.seed(front.handled));
    assert [2] + name + [] == [2] + name && [0x01, 2] + name + [] == body;
    ghost var s, a := front.server.Now(), front.server.Sockets();
    h' := Deliver(front, ci, pieces, body, extra, h);
    HelloGives(s, a, front.server.Now(), front.server.Sockets(), ci, [2] + name, front.server.seats);
    ListedCosts(a, front.server.Now(), front.server.Sockets(), ci, front.server.seats);
    assert Acts(front.server.Now(), ci) by { RegisteredParts(s, ci, name); }
  }

  lemma ListedCosts(a: Ends, t: Core, b: Ends, ci: int, seats: int)
    requires 0 <= ci < MAX_CLIENTS && Listed(a, t, b, ci, seats) && Grown(a, b)
    ensures forall c :: 0 <= c < MAX_CLIENTS ==> b.spare[c] == a.spare[c] - (if c == ci then 1 else 0)
  {
    hide LobbyRows, FirstOthers;
  }

  lemma HelloFrame(name: Bytes, body: Bytes, extra: Bytes)
    requires |name| == 2 && (forall b <- name :: NameByte(b)) && body == [0x01, 2] + name
    ensures Framed(body) + extra == [4, 0x01, 2] + name + extra && Whole(body)
  {
  }

  /** What each was sent at the end. */
  ghost predicate Underway(outs: Outs, seed: int) {
    && outs[0] == [Lobby([]), RoomNote(2, [ANNA, BERT]), StartNote(0, 2, seed, [ANNA, BERT])]
    && outs[1] == [Lobby([Row(ANNA, 1)]), RoomNote(2, [ANNA, BERT]), StartNote(1, 2, seed, [ANNA, BERT])]
  }

  lemma FirstLists(a: Ends, b: Ends, c: Ends)
    requires a.outs[0] == a.outs[1] == []
    requires Listed(a, Registered(Strangers(), 0, ANNA), b, 0, 2) && Listed(b, Lonely(), c, 1, 2)
    ensures c.outs[0] == [Lobby([])] && c.outs[1] == [Lobby([Row(ANNA, 1)])]
  {
    AnnaIs();
    LonelyIs();
    var t := Registered(Strangers(), 0, ANNA);
    hide Registered, Lonely, Strangers;
    assert FilterOthers(t.names, 0) == [] by { assert t.names[1..] == []; }
    var l := Lonely();
    assert FilterOthers(l.names, 1) == [Entry(ANNA, 0)] by {
      assert l.names[1..] == [Entry(BERT, 1)] && l.names[1..][1..] == [];
    }
    assert LobbyRows(l, [Entry(ANNA, 0)], 2) == [Row(ANNA, 1)];
    assert LobbyRows(t, [], 2) == [];
  }

  lemma LonelyJoin(r: int)
    requires 0 <= r < MAX_ROOMS
    ensures JoinEffect(Lonely(), 1, 0, r).rooms[r].members == [0, 1]
    ensures Acts(Lonely(), 0) && Acts(Lonely(), 1) && Lonely().clients[1].name != [] && Lonely().clients[1].room == -1
    ensures Lonely().clients[0].room == -1 && forall c :: 2 <= c < MAX_CLIENTS ==> !Lonely().clients[c].live
  {
    LonelyIs();
  }

  lemma PairNames(s: Core)
    requires s.clients[0].name == ANNA && s.clients[1].name == BERT
    ensures Roster(s, [0, 1]) == [ANNA, BERT]
  {
  }

  /** The JOIN, cut anywhere. */
  method SayJoin(front: Front, pieces: seq<Bytes>, ghost h: Story) returns (ghost h': Story)
    requires front.Valid() && front.Drained() && front.Knows(h, 0, []) && front.autoGo == 0 && front.server.seats == 2
    requires front.server.Now() == Lonely() && front.rx[1] + Concat(pieces) == JOIN_ANNA
    requires front.server.spare[0] > 0 && front.server.spare[1] > 0
    modifies front, front.server, front.server.table, front.server.table.slots
    ensures front.Valid() && front.Drained() && front.Knows(h', 0, []) && front.handled == old(front.handled) + 1
    ensures front.server.Now() == JoinEffect(Lonely(), 1, 0, 0)
    ensures forall c :: 0 <= c < 2 ==> front.server.spare[c] == old(front.server.spare[c]) - 1
    ensures front.server.outs[0] == old(front.server.outs[0]) + [RoomNote(2, [ANNA, BERT])]
    ensures front.server.outs[1] == old(front.server.outs[1]) + [RoomNote(2, [ANNA, BERT])]
    ensures front.rx == old(front.rx)[1 := []]
  {
    hide Good, Tells, Accounted, Does, Decode, Grown, Framed, Lonely, JoinEffect, JoinTarget, Told, Roster, Stripped,
      FirstFree;
    var body: Bytes := JOIN_ANNA[1..];
    JoinFrame(body);
    JoinBody(1, ANNA, [0, 0, 0, 0, 0, 0], body, 0, front.seed(front.handled));
    forall r | 0 <= r < MAX_ROOMS ensures JoinEffect(Lonely(), 1, 0, r).rooms[r].members == [0, 1] { LonelyJoin(r); }
    LonelyJoin(0);
    LonelyIs();
    ghost var s, a := front.server.Now(), front.server.Sockets();
    h' := Deliver(front, 1, pieces, body, [], h);
    ghost var t, b := front.server.Now(), front.server.Sockets();
    ghost var ri := JoinGives(s, a, t, b, 1, ANNA, front.seed(old(front.handled)), 2);
    CoupleIs();
    JoinedNames();
    PairNames(t);
    ToldAt(a.outs, [0, 1], RoomNote(2, [ANNA, BERT]), 0);
    ToldAt(a.outs, [0, 1], RoomNote(2, [ANNA, BERT]), 1);
    OneCosts(a, b, 0);
    OneCosts(a, b, 1);
  }

  lemma OneCosts(a: Ends, b: Ends, c: int)
    requires 0 <= c < MAX_CLIENTS && Grown(a, b) && |b.outs[c]| == |a.outs[c]| + 1
    ensures b.spare[c] == a.spare[c] - 1
  {
  }

  lemma JoinedNames()
    ensures
      var t := JoinEffect(Lonely(), 1, 0, 0);
      t.clients[0] == Client(true, ANNA, 0) && t.clients[1] == Client(true, BERT, 0)
  {
    LonelyIs();
    hide Lonely;
  }

  lemma JoinFrame(body: Bytes)
    requires body == JOIN_ANNA[1..]
    ensures Framed(body) + [] == JOIN_ANNA && Whole(body) && Unfinished([])
    ensures body == [0x04] + ANNA + [0, 0, 0, 0, 0, 0] && (forall b <- ANNA :: NameByte(b))
    ensures forall b <- [0, 0, 0, 0, 0, 0] :: Padding(b)
  {
  }

  /** The GO, cut anywhere. */
  method SayGo(front: Front, pieces: seq<Bytes>, ghost h: Story) returns (ghost h': Story)
    requires front.Valid() && front.Drained() && front.Knows(h, 0, [])
    requires front.server.Now() == JoinEffect(Lonely(), 1, 0, 0) && front.rx[0] + Concat(pieces) == GO
    requires front.server.spare[0] > 0 && front.server.spare[1] > 0
    modifies front, front.server, front.server.table, front.server.table.slots
    ensures front.Valid() && front.Drained() && front.Knows(h', 0, [])
    ensures front.server.Now() == Couple()
    ensures forall i :: 0 <= i < 2 ==>
      front.server.outs[i] ==
        old(front.server.outs[i]) + [StartNote(i, 2, front.seed(old(front.handled)), [ANNA, BERT])]
  {
    hide Good, Tells, Accounted, Does, Decode, Framed, Lonely, JoinEffect, Started, Couple;
    GoFrame();
    OtherBodies(0, [0x0F], front.autoGo, front.seed(front.handled));
    CoupleIs();
    JoinedNames();
    ghost var s, a := front.server.Now(), front.server.Sockets();
    h' := Deliver(front, 0, pieces, [0x0F], [], h);
    GoGives(s, a, front.server.Now(), front.server.Sockets(), 0, front.seed(old(front.handled)), front.server.seats);
    BothStart(s, a.outs, front.server.outs, front.seed(old(front.handled)));
  }

  lemma GoFrame()
    ensures var body: Bytes := [0x0F]; Framed(body) + [] == GO && Whole(body) && Unfinished([])
  {
  }

  lemma BothStart(s: Core, a: Outs, b: Outs, seed: int)
    requires s.clients[0].name == ANNA && s.clients[1].name == BERT && EachItsSeat(s, a, b, [0, 1], seed)
    ensures forall i :: 0 <= i < 2 ==> b[i] == a[i] + [StartNote(i, 2, seed, [ANNA, BERT])]
  {
    var mm := [0, 1];
    var names: seq<Name> :|
      && |names| == |mm|
      && (forall j :: 0 <= j < |mm| ==> 0 <= mm[j] < MAX_CLIENTS && names[j] == s.clients[mm[j]].name)
      && (forall i :: 0 <= i < |mm| ==> b[mm[i]] == a[mm[i]] + [StartNote(i, |mm|, seed, names)])
      && (forall c :: 0 <= c < MAX_CLIENTS && c !in mm ==> b[c] == a[c]);
    assert mm[0] == 0 && mm[1] == 1 && names == [ANNA, BERT];
  }

  /** THEOREM.  From an empty relay: two connections whose bytes, cut in any way, are HELLO and GO
      of one and HELLO and JOIN of the other, end in a match of the two.  Each was sent the lobby
      as it stood, the roster, and the START of its own seat. */
  method BytesToMatch(seed: nat -> int, a1: seq<Bytes>, a2: seq<Bytes>, b1: seq<Bytes>, b2: seq<Bytes>,
                      ghost xa: Bytes, ghost xb: Bytes)
    returns (front: Front)
    requires Concat(a1) == HELLO_ANNA + xa && xa + Concat(a2) == GO && Unfinished(xa)
    requires Concat(b1) == HELLO_BERT + xb && xb + Concat(b2) == JOIN_ANNA && Unfinished(xb)
    ensures front.Valid() && front.server.Now() == Couple() && Underway(front.server.outs, seed(3))
  {
    hide Good, Tells, Accounted, Registered, Strangers, Couple, FreeName, Listed, JoinEffect, Concat;
    ghost var h;
    front, h := TwoDial(seed);
    AnnaIs();
    StrangersAre();
    ghost var e0 := front.server.Sockets();
    assert HELLO_ANNA + xa == [4, 0x01, 2] + ANNA + xa && HELLO_BERT + xb == [4, 0x01, 2] + BERT + xb;
    assert [] + Concat(a1) == Concat(a1) && [] + Concat(b1) == Concat(b1);
    h := SayHello(front, 0, ANNA, a1, xa, h);
    ghost var e1 := front.server.Sockets();
    h := SayHello(front, 1, BERT, b1, xb, h);
    FirstLists(e0, e1, front.server.Sockets());
    h := SayJoin(front, b2, h);
    h := SayGo(front, a2, h);
  }
}
