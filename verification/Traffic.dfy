/** The relay on bytes: what sockets deliver, in whatever pieces, is reassembled per connection,
    decoded, handled, and written out again as frames. */
module Traffic {
  import Protocol
  import Wire
  import Reassembly
  import Framing
  import Outbox
  import opened Rooms
  import opened NameTable
  import opened Relay
  import opened Histories

  type Bytes = seq<Protocol.Byte>
  type Buffers = s: seq<Bytes> | |s| == MAX_CLIENTS witness seq(MAX_CLIENTS, _ => [])
  type Bodies = s: seq<seq<Bytes>> | |s| == MAX_CLIENTS witness seq(MAX_CLIENTS, _ => [])

  const T_HELLO := 0x01
  const T_LIST := 0x02
  const T_LOBBY := 0x03
  const T_JOIN := 0x04
  const T_START := 0x05
  const T_PEER_LEFT := 0x0B
  const T_PING := 0x0C
  const T_PONG := 0x0D
  const T_ROOM := 0x0E
  const T_GO := 0x0F

  predicate IsRelayed(body: Bytes) {
    body != [] &&
      (body[0] == Wire.FT_INPUT || body[0] == Wire.FT_CRC || body[0] == Wire.FT_STATE || body[0] == Wire.FT_RESYNC)
  }

  /** A name longer than any stored one matches none, like the empty one. */
  function JoinName(payload: Bytes): Name {
    var name := Stripped(payload);
    if |name| > 8 then [] else name
  }

  /** handle's switch. */
  function Decode(ci: int, body: Bytes, autoGo: nat, seed: int): Event
    requires body != []
  {
    if IsRelayed(body) then Says(ci, body)
    else if body[0] == T_HELLO then Hello(ci, body[1..])
    else if body[0] == T_LIST then List(ci)
    else if body[0] == T_JOIN then Join(ci, JoinName(body[1..]), autoGo, seed)
    else if body[0] == T_GO then Go(ci, seed)
    else if body[0] == T_PING then Ping(ci)
    else Leave(ci)
  }

  // ---------------------------------------------------------------- streams of frames

  predicate Whole(body: Bytes) { 1 <= |body| <= Reassembly.MAX_BODY }

  function Framed(body: Bytes): Bytes { [|body| % 256] + body }

  function Flat(bodies: seq<Bytes>): Bytes {
    if bodies == [] then [] else Framed(bodies[0]) + Flat(bodies[1..])
  }

  lemma {:induction false} FlatBoth(a: seq<Bytes>, b: seq<Bytes>)
    ensures Flat(a + b) == Flat(a) + Flat(b)
  {
    if a == [] {
      assert a + b == b;
    } else {
      assert (a + b)[1..] == a[1..] + b;
      FlatBoth(a[1..], b);
    }
  }

  /** Nobody is dropped by a frame: the stream alone. */
  const NEVER: Reassembly.Handler := (out: seq<seq<Protocol.Byte>>) => false

  function Parse(stream: Bytes): Reassembly.Reader {
    Reassembly.Drain(NEVER, Reassembly.Reader(stream, [], Reassembly.Alive))
  }

  predicate Unfinished(rest: Bytes) { Reassembly.Settled(Reassembly.Reader(rest, [], Reassembly.Alive)) }

  /** Frames read back, with an incomplete one behind them. */
  lemma FlatParses(bodies: seq<Bytes>, rest: Bytes)
    requires (forall b <- bodies :: Whole(b)) && Unfinished(rest)
    ensures Parse(Flat(bodies) + rest) == Reassembly.Reader(rest, bodies, Reassembly.Alive)
  {
    DrainFlat([], bodies, rest);
    assert [] + bodies == bodies;
  }

  lemma {:induction false} DrainFlat(out: seq<Bytes>, bodies: seq<Bytes>, rest: Bytes)
    requires (forall b <- bodies :: Whole(b)) && Unfinished(rest)
    ensures Reassembly.Drain(NEVER, Reassembly.Reader(Flat(bodies) + rest, out, Reassembly.Alive))
      == Reassembly.Reader(rest, out + bodies, Reassembly.Alive)
    decreases |bodies|
  {
    hide Reassembly.Drain;
    if bodies == [] {
      assert [] + rest == rest && out + bodies == out;
      Reassembly.SettledStays(NEVER, Reassembly.Reader(rest, out, Reassembly.Alive));
    } else {
      assert bodies[0] in bodies;
      DrainOne(out, bodies[0], Flat(bodies[1..]) + rest);
      assert Flat(bodies) + rest == Framed(bodies[0]) + (Flat(bodies[1..]) + rest);
      DrainFlat(out + [bodies[0]], bodies[1..], rest);
      assert out + [bodies[0]] + bodies[1..] == out + bodies;
    }
  }

  lemma DrainOne(out: seq<Bytes>, b: Bytes, more: Bytes)
    requires Whole(b)
    ensures Reassembly.Drain(NEVER, Reassembly.Reader(Framed(b) + more, out, Reassembly.Alive))
      == Reassembly.Drain(NEVER, Reassembly.Reader(more, out + [b], Reassembly.Alive))
  {
    var stream, n := Framed(b) + more, |b| + 1;
    assert stream[0] == |b| && stream[1..n] == b && stream[n..] == more;
  }

  /** The frames that are relayed. */
  function Relays(bodies: seq<Bytes>): seq<Bytes> {
    if bodies == [] then []
    else
      var n := |bodies| - 1;
      Relays(bodies[..n]) + if IsRelayed(bodies[n]) then [bodies[n]] else []
  }

  lemma RelaysSnoc(bodies: seq<Bytes>, body: Bytes)
    ensures Relays(bodies + [body]) == Relays(bodies) + if IsRelayed(body) then [body] else []
  {
    assert (bodies + [body])[..|bodies|] == bodies;
  }

  // ---------------------------------------------------------------- what happened so far

  /** Where a run started, and what has been handled since. */
  datatype Story = Story(outs: Outs, said: Bodies, arrived: Buffers, events: seq<Event>, trace: seq<Core>)

  /** The frames each member of a match has said since, and the bytes that brought them. */
  ghost predicate Heeded(h: Story, said: Bodies, arrived: Buffers, members: seq<int>) {
    forall c <- members :: 0 <= c < MAX_CLIENTS &&
      h.said[c] <= said[c] && h.arrived[c] <= arrived[c] && Relays(said[c][|h.said[c]|..]) == SaidBy(h.events, c)
  }

  ghost predicate Kept(a: Outs, b: Outs, members: seq<int>) {
    forall c <- members :: 0 <= c < MAX_CLIENTS && a[c] <= b[c]
  }

  /** Only whole frames are relayed. */
  ghost predicate WholeFrames(events: seq<Event>) {
    forall e <- events :: e.Says? ==> IsBody(e.data)
  }

  ghost predicate IsBody(data: seq<int>) {
    1 <= |data| <= Reassembly.MAX_BODY && (forall x <- data :: 0 <= x < 256) &&
      Wire.FT_INPUT <= data[0] <= Wire.FT_RESYNC
  }

  ghost predicate Tells(h: Story, s: Core, outs: Outs, said: Bodies, arrived: Buffers, seats: int, r: int,
                        members: seq<int>) {
    && |h.trace| == |h.events| + 1 && h.trace[|h.events|] == s && AllGood(h.trace, seats) && WholeFrames(h.events)
    && (PlayingThrough(h.trace, r, members) ==>
          Fed(h.outs, outs, h.events, members) && Heeded(h, said, arrived, members) && Kept(h.outs, outs, members))
  }

  lemma SaidBySnoc(events: seq<Event>, e: Event, from: int)
    ensures SaidBy(events + [e], from) == SaidBy(events, from) + if e.Says? && e.ci == from then [e.data] else []
  {
    assert (events + [e])[..|events|] == events;
  }

  /** What one event adds: a body handled, if it came from one. */
  ghost predicate Adds(said: Bodies, said': Bodies, e: Event, ci: int, body: Bytes) {
    && (if 0 <= ci < MAX_CLIENTS && body != [] then said' == said[ci := said[ci] + [body]] else said' == said)
    && (e.Says? ==> 0 <= ci < MAX_CLIENTS && Whole(body) && e == Says(ci, body) && IsRelayed(body))
    && (body != [] && IsRelayed(body) ==> e.Says?)
  }

  lemma HeedsOne(h: Story, said: Bodies, said': Bodies, arrived: Buffers, e: Event, ci: int, body: Bytes,
                 members: seq<int>)
    requires Heeded(h, said, arrived, members) && Adds(said, said', e, ci, body)
    ensures Heeded(h.(events := h.events + [e]), said', arrived, members)
  {
    hide Relays, SaidBy;
    forall c | c in members
      ensures 0 <= c < MAX_CLIENTS && h.said[c] <= said'[c]
           && Relays(said'[c][|h.said[c]|..]) == SaidBy(h.events + [e], c)
    {
      var n := |h.said[c]|;
      SaidBySnoc(h.events, e, c);
      RelaysSnoc(said[c][n..], body);
      if c == ci && body != [] {
        assert said'[c][n..] == said[c][n..] + [body];
      }
    }
  }

  function After(h: Story, e: Event, s: Core): Story { h.(events := h.events + [e], trace := h.trace + [s]) }

  lemma TellsMore(h: Story, s: Core, outs: Outs, said: Bodies, arrived: Buffers, s': Core, outs': Outs, said': Bodies,
                  e: Event, ci: int, body: Bytes, seats: int, r: int, members: seq<int>)
    requires Tells(h, s, outs, said, arrived, seats, r, members) && Good(s, seats) && Good(s', seats)
    requires Playing(s, r, members) && Playing(s', r, members) ==> Fed(outs, outs', [e], members)
    requires Longer(s, outs, outs') && Adds(said, said', e, ci, body)
    ensures Tells(After(h, e, s'), s', outs', said', arrived, seats, r, members)
  {
    hide Good, Playing, Fed, Heeded, Kept, Longer, Adds;
    var h' := After(h, e, s');
    assert AllGood(h'.trace, seats);
    assert WholeFrames(h'.events) by { WholeMore(h.events, e, said, said', ci, body); }
    if PlayingThrough(h'.trace, r, members) {
      assert PlayingThrough(h.trace, r, members) by {
        forall k | 0 <= k < |h.trace| ensures Playing(h.trace[k], r, members) {
          assert h.trace[k] == h'.trace[k];
        }
      }
      assert Playing(h'.trace[|h.events|], r, members) && Playing(h'.trace[|h.events| + 1], r, members);
      FedMore(h.outs, outs, outs', h.events, e, members);
      HeedsOne(h, said, said', arrived, e, ci, body, members);
      HeededSame(h.(events := h'.events), h', said', arrived, members);
      PlayersLive(s, r, members, seats);
      KeptMore(s, h.outs, outs, outs', members);
    }
  }

  lemma WholeMore(events: seq<Event>, e: Event, said: Bodies, said': Bodies, ci: int, body: Bytes)
    requires WholeFrames(events) && Adds(said, said', e, ci, body)
    ensures WholeFrames(events + [e])
  {
    forall x | x in events + [e] && x.Says? ensures IsBody(x.data) {
      if x !in events { assert x == e; }
    }
  }

  lemma HeededSame(h: Story, h': Story, said: Bodies, arrived: Buffers, members: seq<int>)
    requires Heeded(h, said, arrived, members) && h'.said == h.said && h'.arrived == h.arrived && h'.events == h.events
    ensures Heeded(h', said, arrived, members)
  {
  }

  lemma KeptMore(s: Core, a: Outs, b: Outs, c: Outs, members: seq<int>)
    requires Kept(a, b, members) && Longer(s, b, c) && forall m <- members :: 0 <= m < MAX_CLIENTS && s.clients[m].live
    ensures Kept(a, c, members)
  {
  }

  /** Bytes that have come in, or a slot that was dead at some moment. */
  lemma TellsBuffers(h: Story, s: Core, outs: Outs, said: Bodies, arrived: Buffers, said': Bodies, arrived': Buffers,
                     c: int, k: nat, seats: int, r: int, members: seq<int>)
    requires Tells(h, s, outs, said, arrived, seats, r, members) && 0 <= c < MAX_CLIENTS && k < |h.trace|
    requires forall i :: 0 <= i < MAX_CLIENTS && i != c ==> said'[i] == said[i] && arrived'[i] == arrived[i]
    requires (said'[c] == said[c] && arrived[c] <= arrived'[c]) || !h.trace[k].clients[c].live
    ensures Tells(h, s, outs, said', arrived', seats, r, members)
  {
    hide Good, Playing, Fed, Kept, WholeFrames;
    if PlayingThrough(h.trace, r, members) {
      assert Playing(h.trace[k], r, members) && Good(h.trace[k], seats);
      PlayersLive(h.trace[k], r, members, seats);
    }
  }

  class Front {
    const server: Server
    const autoGo: nat
    const seed: nat -> int // the random numbers, by how many frames have been handled
    var handled: nat
    var rx: Buffers        // per connection, what is buffered
    ghost var said: Bodies     // history: frames handled
    ghost var arrived: Buffers // and bytes received

    ghost predicate Valid()
      reads this, server, server.table, server.table.slots
    {
      && server.table.Valid() && 2 <= server.seats && Good(server.Now(), server.seats)
      && forall c :: 0 <= c < MAX_CLIENTS ==> Accounted(arrived[c], said[c], rx[c])
    }

    /** Nothing whole is waiting. */
    ghost predicate Drained()
      reads this
    {
      forall c :: 0 <= c < MAX_CLIENTS ==> Unfinished(rx[c])
    }

    /** The story so far, told about room r and these members. */
    ghost predicate Knows(h: Story, r: int, members: seq<int>)
      requires server.table.Valid()
      reads this, server, server.table, server.table.slots
    {
      Tells(h, server.Now(), server.outs, said, arrived, server.seats, r, members)
    }

    /** An empty relay. */
    constructor (seats: int, autoGo: nat, seed: nat -> int)
      requires 2 <= seats
      ensures Valid() && Drained() && server.seats == seats && server.Now() == Empty()
      ensures this.autoGo == autoGo && this.seed == seed && handled == 0
      ensures forall c :: 0 <= c < MAX_CLIENTS ==> rx[c] == [] && server.outs[c] == [] && server.spare[c] == 0
      ensures fresh(server) && fresh(server.table) && fresh(server.table.slots)
    {
      var s := new Server(seats);
      this.server, this.autoGo, this.seed := s, autoGo, seed;
      handled, rx := 0, seq(MAX_CLIENTS, _ => []);
      said, arrived := seq(MAX_CLIENTS, _ => []), seq(MAX_CLIENTS, _ => []);
    }

    /** handle, for the first whole frame of a buffer. */
    method TakeFrame(ci: int, ghost h: Story, ghost r: int, ghost members: seq<int>) returns (ghost h': Story)
      requires Valid() && Knows(h, r, members) && 0 <= ci < MAX_CLIENTS
      requires rx[ci] != [] && 1 <= rx[ci][0] <= Reassembly.MAX_BODY && |rx[ci]| > rx[ci][0] as int
      modifies this, server, server.table, server.table.slots
      ensures Valid() && Knows(h', r, members) && Begins(h, h')
      ensures rx[ci] == old(rx[ci])[old(rx[ci])[0] as int + 1..] && handled == old(handled) + 1
      ensures Does(Decode(ci, old(rx[ci])[1..old(rx[ci])[0] as int + 1], autoGo, seed(old(handled))),
                   old(server.Now()), old(server.Sockets()), server.Now(), server.Sockets(), server.seats)
      ensures forall c :: 0 <= c < MAX_CLIENTS && c != ci ==> rx[c] == old(rx[c])
      ensures |rx[ci]| < |old(rx[ci])|
    {
      hide Good, Tells, Adds, Accounted, Playing, Fed, Longer, Framed, Does, Decode;
      var n := rx[ci][0] as int + 1;
      var body := rx[ci][1..n];
      ghost var s0, outs0, said0 := server.Now(), server.outs, said;
      assert rx[ci] == Framed(body) + rx[ci][n..] && Accounted(arrived[ci], said[ci] + [body], rx[ci][n..]) by {
        OneTaken(arrived[ci], said[ci], rx[ci]);
      }
      rx := rx[ci := rx[ci][n..]];
      said := said[ci := said[ci] + [body]];
      var e := Decode(ci, body, autoGo, seed(handled));
      DecodeAdds(said0, said, ci, body, e, autoGo, seed(handled));
      handled := handled + 1;
      var slot := Handle(server, e, r, members);
      TellsMore(h, s0, outs0, said0, arrived, server.Now(), server.outs, said, e, ci, body, server.seats, r, members);
      h' := After(h, e, server.Now());
    }

    /** An event that no frame brought. */
    method Outside(e: Event, ghost h: Story, ghost r: int, ghost members: seq<int>)
      returns (slot: int, ghost h': Story)
      requires Valid() && Knows(h, r, members) && !e.Says?
      modifies server, server.table, server.table.slots
      ensures Valid() && Knows(h', r, members) && Begins(h, h')
      ensures slot != -1 ==> 0 <= slot < MAX_CLIENTS && Dead(h', slot)
      ensures slot >= -1
      ensures e.Leave? && 0 <= e.ci < MAX_CLIENTS ==> !server.clients[e.ci].live
      ensures Does(e, old(server.Now()), old(server.Sockets()), server.Now(), server.Sockets(), server.seats)
      ensures e.Connect? ==>
        AcceptDone(old(server.Now()), old(server.Sockets()), server.Now(), server.Sockets(), e.takes, slot)
    {
      hide Good, Tells, Adds, Accounted, Playing, Fed, Longer, Does, AcceptDone;
      ghost var s0, outs0 := server.Now(), server.outs;
      slot := Handle(server, e, r, members);
      assert Adds(said, said, e, -1, []) by { NothingAdded(said, e); }
      TellsMore(h, s0, outs0, said, arrived, server.Now(), server.outs, said, e, -1, [], server.seats, r, members);
      h' := After(h, e, server.Now());
      if slot != -1 { WasDead(h, h', s0, outs0, said, arrived, server.seats, r, members, slot); }
    }

    /** feed, or service: append, hand on what is whole, stop at a bad length or at the client's
        own end. */
    method Receive(ci: int, chunk: Bytes, ghost h: Story, ghost r: int, ghost members: seq<int>)
      returns (ghost h': Story)
      requires Valid() && Drained() && Knows(h, r, members)
      modifies this, server, server.table, server.table.slots
      ensures Valid() && Drained() && Knows(h', r, members) && Begins(h, h')
      ensures forall c :: 0 <= c < MAX_CLIENTS && c != ci ==> rx[c] == old(rx[c])
      ensures
        if !Acts(old(server.Now()), ci) then
          server.Now() == old(server.Now()) && server.Sockets() == old(server.Sockets()) && rx == old(rx) &&
          handled == old(handled)
        else
          Handles(ci, old(rx[ci]) + chunk, autoGo, seed, old(handled), server.seats,
                old(server.Now()), old(server.Sockets()), server.Now(), server.Sockets(), rx[ci], handled)
    {
      hide Good, Tells, Accounted, Does, Decode, Handles;
      h' := h;
      if !(0 <= ci < MAX_CLIENTS && server.clients[ci].live) {
        return;
      }
      ghost var arrived0 := arrived;
      MoreArrived(arrived[ci], said[ci], rx[ci], chunk);
      rx := rx[ci := rx[ci] + chunk];
      arrived := arrived[ci := arrived[ci] + chunk];
      NowLast(h, server.Now(), server.outs, said, arrived0, server.seats, r, members);
      TellsBuffers(h, server.Now(), server.outs, said, arrived0, said, arrived, ci, 0, server.seats, r, members);
      ghost var s0, e0, k0, buf := server.Now(), server.Sockets(), handled, rx[ci];
      while rx[ci] != []
        invariant Valid() && Knows(h', r, members) && Begins(h, h')
        invariant forall c :: 0 <= c < MAX_CLIENTS && c != ci ==> Unfinished(rx[c]) && rx[c] == old(rx[c])
        invariant forall t, e, rest, j ::
          Handles(ci, rx[ci], autoGo, seed, handled, server.seats, server.Now(), server.Sockets(), t, e, rest, j) ==>
          Handles(ci, buf, autoGo, seed, k0, server.seats, s0, e0, t, e, rest, j)
        decreases |rx[ci]|
      {
        ghost var s1, e1, k1, was := server.Now(), server.Sockets(), handled, rx[ci];
        var lenb := rx[ci][0];
        if lenb == 0 || lenb > Reassembly.MAX_BODY {
          var slot;
          slot, h' := Outside(Leave(ci), h', r, members);
          HandlesBad(ci, was, autoGo, seed, k1, server.seats, s1, e1, server.Now(), server.Sockets());
          Discard(ci, h', r, members);
          return;
        }
        if |rx[ci]| < lenb + 1 {
          HandlesNothing(ci, was, autoGo, seed, k1, server.seats, s1, e1);
          return;
        }
        h' := TakeFrame(ci, h', r, members);
        HandlesFirst(ci, was, autoGo, seed, k1, server.seats, s1, e1, server.Now(), server.Sockets());
        if !server.clients[ci].live {
          Discard(ci, h', r, members);
          return;
        }
      }
      HandlesNothing(ci, rx[ci], autoGo, seed, handled, server.seats, server.Now(), server.Sockets());
    }

    /** A new connection starts with an empty buffer. */
    method Dialled(takes: nat, ghost h: Story, ghost r: int, ghost members: seq<int>)
      returns (slot: int, ghost h': Story)
      requires Valid() && Drained() && Knows(h, r, members)
      modifies this, server, server.table, server.table.slots
      ensures Valid() && Drained() && Knows(h', r, members) && Begins(h, h')
      ensures AcceptDone(old(server.Now()), old(server.Sockets()), server.Now(), server.Sockets(), takes, slot)
      ensures handled == old(handled) && rx == if slot < 0 then old(rx) else old(rx)[slot := []]
    {
      hide Good, Tells, Accounted, Playing, Does, AcceptDone;
      slot, h' := Outside(Connect(takes), h, r, members);
      if slot < 0 {
        return;
      }
      ghost var k: nat :| k < |h'.trace| && !h'.trace[k].clients[slot].live;
      ghost var said0, arrived0 := said, arrived;
      StartsEmpty();
      rx, said, arrived := rx[slot := []], said[slot := []], arrived[slot := []];
      TellsBuffers(h', server.Now(), server.outs, said0, arrived0, said, arrived, slot, k, server.seats, r, members);
    }

    /** Everything the sockets do, in any order. */
    method Serve(arrivals: seq<Arrival>, ghost r: int, ghost members: seq<int>) returns (ghost h: Story)
      requires Valid() && Drained()
      modifies this, server, server.table, server.table.slots
      ensures Valid() && Drained() && Knows(h, r, members)
      ensures h.outs == old(server.outs) && h.said == old(said) && h.arrived == old(arrived)
    {
      hide Good, Tells, Accounted;
      h := Story(server.outs, said, arrived, [], [server.Now()]);
      TellsNothing(server.Now(), server.outs, said, arrived, server.seats, r, members);
      var i := 0;
      while i < |arrivals|
        invariant 0 <= i <= |arrivals| && Valid() && Drained() && Knows(h, r, members)
        invariant h.outs == old(server.outs) && h.said == old(said) && h.arrived == old(arrived)
      {
        match arrivals[i] {
          case Dial(takes) =>
            var slot;
            slot, h := Dialled(takes, h, r, members);
          case Data(ci, chunk) => h := Receive(ci, chunk, h, r, members);
          case Stall(ci, takes) =>
            var slot;
            slot, h := Outside(Takes(ci, takes), h, r, members);
          case HangUp(ci) =>
            var slot;
            slot, h := Outside(Leave(ci), h, r, members);
        }
        i := i + 1;
      }
    }

    /** What a dropped client still buffers is discarded. */
    method Discard(ci: int, ghost h: Story, ghost r: int, ghost members: seq<int>)
      requires Valid() && Knows(h, r, members) && 0 <= ci < MAX_CLIENTS && !server.clients[ci].live
      modifies `rx, `arrived
      ensures Valid() && Knows(h, r, members) && rx == old(rx)[ci := []]
    {
      hide Good, Tells, Accounted;
      ghost var arrived0 := arrived;
      rx := rx[ci := []];
      arrived := arrived[ci := Flat(said[ci])];
      assert Accounted(arrived[ci], said[ci], rx[ci]) by { NothingLeft(arrived0[ci], said[ci], old(rx)[ci]); }
      NowLast(h, server.Now(), server.outs, said, arrived0, server.seats, r, members);
      TellsBuffers(h, server.Now(), server.outs, said, arrived0, said, arrived, ci, |h.events|, server.seats, r,
        members);
    }
  }

  /** What a socket can do: connect, deliver some bytes, read on or stop reading, close. */
  datatype Arrival = Dial(takes: nat) | Data(ci: int, chunk: Bytes) | Stall(ci: int, takes: nat) | HangUp(ci: int)

  lemma StartsEmpty()
    ensures Accounted([], [], [])
  {
  }

  lemma TellsNothing(s: Core, outs: Outs, said: Bodies, arrived: Buffers, seats: int, r: int, members: seq<int>)
    requires Good(s, seats)
    ensures Tells(Story(outs, said, arrived, [], [s]), s, outs, said, arrived, seats, r, members)
  {
    hide Good, Playing, Fed;
    if Playing(s, r, members) {
      FedNone(s, outs, r, members, seats);
      PlayersLive(s, r, members, seats);
    }
    if PlayingThrough([s], r, members) {
      assert Playing([s][0], r, members);
    }
  }

  /** The slot was not in use at some moment. */
  ghost predicate Dead(h: Story, c: int)
    requires 0 <= c < MAX_CLIENTS
  {
    exists k: nat :: k < |h.trace| && !h.trace[k].clients[c].live
  }

  lemma NowLast(h: Story, s: Core, outs: Outs, said: Bodies, arrived: Buffers, seats: int, r: int, members: seq<int>)
    requires Tells(h, s, outs, said, arrived, seats, r, members)
    ensures |h.trace| == |h.events| + 1 && h.trace[|h.events|] == s
  {
  }

  lemma WasDead(h: Story, h': Story, s: Core, outs: Outs, said: Bodies, arrived: Buffers, seats: int, r: int,
                members: seq<int>, c: int)
    requires Tells(h, s, outs, said, arrived, seats, r, members) && 0 <= c < MAX_CLIENTS && !s.clients[c].live
    requires |h'.trace| > |h.trace| && h'.trace[..|h.trace|] == h.trace
    ensures Dead(h', c)
  {
    assert h'.trace[|h.events|] == h'.trace[..|h.trace|][|h.events|];
  }

  lemma MoreArrived(arrived: Bytes, said: seq<Bytes>, rx: Bytes, chunk: Bytes)
    requires Accounted(arrived, said, rx)
    ensures Accounted(arrived + chunk, said, rx + chunk)
  {
    hide Flat;
    assert Flat(said) + rx + chunk == Flat(said) + (rx + chunk);
  }

  lemma NothingLeft(arrived: Bytes, said: seq<Bytes>, rx: Bytes)
    requires Accounted(arrived, said, rx)
    ensures Accounted(Flat(said), said, [])
  {
    assert Flat(said) + [] == Flat(said);
  }

  /** What a connection's buffer makes happen: its whole frames are decoded and done one by one,
      until a bad length drops the client, or it is gone, or what is left is incomplete. */
  ghost predicate Handles(ci: int, buf: Bytes, autoGo: nat, seed: nat -> int, k: nat, seats: int,
                          s: Core, a: Ends, t: Core, b: Ends, rest: Bytes, j: nat)
    decreases |buf|
  {
    if Unfinished(buf) then t == s && b == a && rest == buf && j == k
    else if buf[0] == 0 || buf[0] > Reassembly.MAX_BODY then Does(Leave(ci), s, a, t, b, seats) && rest == [] && j == k
    else
      var n := buf[0] as int + 1;
      exists m, e ::
        && Does(Decode(ci, buf[1..n], autoGo, seed(k)), s, a, m, e, seats)
        && if Acts(m, ci) then Handles(ci, buf[n..], autoGo, seed, k + 1, seats, m, e, t, b, rest, j)
           else t == m && b == e && rest == [] && j == k + 1
  }

  lemma HandlesNothing(ci: int, buf: Bytes, autoGo: nat, seed: nat -> int, k: nat, seats: int, s: Core, a: Ends)
    requires Unfinished(buf)
    ensures Handles(ci, buf, autoGo, seed, k, seats, s, a, s, a, buf, k)
  {
  }

  lemma HandlesBad(ci: int, buf: Bytes, autoGo: nat, seed: nat -> int, k: nat, seats: int,
                   s: Core, a: Ends, t: Core, b: Ends)
    requires buf != [] && (buf[0] == 0 || buf[0] > Reassembly.MAX_BODY) && Does(Leave(ci), s, a, t, b, seats)
    ensures Handles(ci, buf, autoGo, seed, k, seats, s, a, t, b, [], k)
  {
    hide Does;
  }

  lemma HandlesFirst(ci: int, buf: Bytes, autoGo: nat, seed: nat -> int, k: nat, seats: int,
                     s: Core, a: Ends, m: Core, e: Ends)
    requires buf != [] && 1 <= buf[0] <= Reassembly.MAX_BODY && |buf| > buf[0] as int
    requires Does(Decode(ci, buf[1..buf[0] as int + 1], autoGo, seed(k)), s, a, m, e, seats)
    ensures
      var n := buf[0] as int + 1;
      if Acts(m, ci) then
        forall t, b, rest, j :: Handles(ci, buf[n..], autoGo, seed, k + 1, seats, m, e, t, b, rest, j) ==>
          Handles(ci, buf, autoGo, seed, k, seats, s, a, t, b, rest, j)
      else Handles(ci, buf, autoGo, seed, k, seats, s, a, m, e, [], k + 1)
  {
    hide Does, Decode;
  }

  /** One whole frame and an incomplete one: one event. */
  lemma HandlesOne(ci: int, body: Bytes, more: Bytes, autoGo: nat, seed: nat -> int, k: nat, seats: int,
                   s: Core, a: Ends, t: Core, b: Ends, rest: Bytes, j: nat)
    requires Whole(body) && Unfinished(more) &&
      Handles(ci, Framed(body) + more, autoGo, seed, k, seats, s, a, t, b, rest, j)
    ensures Does(Decode(ci, body, autoGo, seed(k)), s, a, t, b, seats) && j == k + 1 && (Acts(t, ci) ==> rest == more)
  {
    hide Does, Decode;
    var buf, n := Framed(body) + more, |body| + 1;
    assert buf[0] == |body| && buf[1..n] == body && buf[n..] == more;
  }

  lemma HandlesIdle(ci: int, buf: Bytes, autoGo: nat, seed: nat -> int, k: nat, seats: int,
                    s: Core, a: Ends, t: Core, b: Ends, rest: Bytes, j: nat)
    requires Unfinished(buf) && Handles(ci, buf, autoGo, seed, k, seats, s, a, t, b, rest, j)
    ensures t == s && b == a && rest == buf && j == k
  {
  }

  lemma PrefixUnfinished(a: Bytes, b: Bytes)
    requires a <= b && Unfinished(b)
    ensures Unfinished(a)
  {
  }

  lemma NothingAdded(said: Bodies, e: Event)
    requires !e.Says?
    ensures Adds(said, said, e, -1, [])
  {
  }

  /** One story is the beginning of the other. */
  predicate Begins(h: Story, h': Story) { h'.outs == h.outs && h'.said == h.said && h'.arrived == h.arrived }

  /** Every byte received is in a frame that was handled or in the buffer. */
  ghost predicate Accounted(arrived: Bytes, said: seq<Bytes>, rx: Bytes) {
    arrived == Flat(said) + rx && forall b <- said :: Whole(b)
  }

  lemma OneTaken(arrived: Bytes, said: seq<Bytes>, rx: Bytes)
    requires Accounted(arrived, said, rx) && rx != [] && 1 <= rx[0] <= Reassembly.MAX_BODY && |rx| > rx[0] as int
    ensures
      var n := rx[0] as int + 1;
      rx == Framed(rx[1..n]) + rx[n..] && Whole(rx[1..n]) && Accounted(arrived, said + [rx[1..n]], rx[n..])
  {
    var n := rx[0] as int + 1;
    FramedHead(rx);
    FlatSnoc(said, rx[1..n]);
    hide Flat, Framed;
    assert Flat(said) + rx == Flat(said) + Framed(rx[1..n]) + rx[n..];
  }

  lemma FramedHead(rx: Bytes)
    requires rx != [] && 1 <= rx[0] <= Reassembly.MAX_BODY && |rx| > rx[0] as int
    ensures var n := rx[0] as int + 1; rx == Framed(rx[1..n]) + rx[n..] && Whole(rx[1..n])
  {
  }

  lemma FlatSnoc(bodies: seq<Bytes>, b: Bytes)
    ensures Flat(bodies + [b]) == Flat(bodies) + Framed(b)
  {
    FlatBoth(bodies, [b]);
    assert Flat([b]) == Framed(b) + Flat([b][1..]);
  }

  lemma DecodeAdds(said: Bodies, said': Bodies, ci: int, body: Bytes, e: Event, autoGo: nat, seed: int)
    requires 0 <= ci < MAX_CLIENTS && Whole(body) && e == Decode(ci, body, autoGo, seed)
    requires said' == said[ci := said[ci] + [body]]
    ensures Adds(said, said', e, ci, body)
  {
  }

  // ---------------------------------------------------------------- what is written

  function Octet(x: int): Protocol.Byte { x % 256 }

  /** pad_name: eight bytes. */
  function Padded(name: Name): (r: Bytes)
    ensures |r| == 8
  {
    seq(8, i requires 0 <= i < 8 => if i < |name| then Octet(name[i]) else 0)
  }

  /** room_roster: always four slots wide. */
  function Slots(roster: seq<Name>): (r: Bytes)
    ensures |r| == 32
  {
    seq(32, i requires 0 <= i < 32 => if i / 8 < |roster| then Padded(roster[i / 8])[i % 8] else 0)
  }

  function RowBytes(rows: seq<Row>): (r: Bytes)
    ensures |r| == 9 * |rows|
  {
    if rows == [] then []
      else RowBytes(rows[..|rows| - 1]) + Padded(rows[|rows| - 1].name) + [Octet(rows[|rows| - 1].status)]
  }

  /** The frame of a note, its type first. */
  function BodyOf(note: Note, delay: int): Bytes {
    match note
    case RoomNote(count, roster) => [T_ROOM, Octet(count)] + Slots(roster)
    case PeerLeft(seat, name) => [T_PEER_LEFT, Octet(seat)] + Padded(name)
    case Lobby(rows) =>
      var shown := if |rows| <= SHOWN then rows else rows[..SHOWN];
      [T_LOBBY, |shown|] + RowBytes(shown)
    case StartNote(seat, count, seed, roster) =>
      [T_START, Octet(seat), Octet(count), Octet(seed), Octet(seed / 256), Octet(delay)] + Slots(roster)
    case Relayed(_, data) => seq(|data|, i requires 0 <= i < |data| => Octet(data[i]))
    case Pong => [T_PONG]
  }

  function Written(notes: seq<Note>, delay: int): seq<Bytes> {
    if notes == [] then [] else Written(notes[..|notes| - 1], delay) + [BodyOf(notes[|notes| - 1], delay)]
  }

  function Datas(frames: seq<Sent>): seq<seq<int>> {
    if frames == [] then [] else Datas(frames[..|frames| - 1]) + [frames[|frames| - 1].data]
  }

  lemma BodyWhole(note: Note, delay: int)
    requires note.Relayed? ==> IsBody(note.data)
    ensures Whole(BodyOf(note, delay)) && (IsRelayed(BodyOf(note, delay)) <==> note.Relayed?)
    ensures note.Relayed? ==> BodyOf(note, delay) == note.data
  {
    if note.Relayed? {
      assert forall i :: 0 <= i < |note.data| ==> note.data[i] in note.data;
    }
  }

  ghost predicate WholeNotes(notes: seq<Note>) { forall f <- Heard(notes) :: IsBody(f.data) }

  /** THEOREM.  The relayed frames among the frames written are the relayed frames heard, and all
      of them are whole. */
  lemma {:induction false} WrittenRelays(notes: seq<Note>, delay: int)
    requires WholeNotes(notes)
    ensures (forall b <- Written(notes, delay) :: Whole(b)) && Relays(Written(notes, delay)) == Datas(Heard(notes))
    decreases |notes|
  {
    hide IsBody, BodyOf, Whole, IsRelayed;
    if notes != [] {
      var n := |notes| - 1;
      var before, note := notes[..n], notes[n];
      assert notes == before + [note];
      HeardSnoc(before, note);
      assert forall f <- Heard(before) :: f in Heard(notes);
      WrittenRelays(before, delay);
      if note.Relayed? {
        assert Sent(note.from, note.data) in Heard(notes);
        DatasSnoc(Heard(before), Sent(note.from, note.data));
      } else {
        assert Heard(before) + [] == Heard(before);
      }
      BodyWhole(note, delay);
      RelaysSnoc(Written(before, delay), BodyOf(note, delay));
      assert Relays(Written(before, delay)) + [] == Relays(Written(before, delay));
    }
  }

  lemma DatasSnoc(frames: seq<Sent>, f: Sent)
    ensures Datas(frames + [f]) == Datas(frames) + [f.data]
  {
    assert (frames + [f])[..|frames|] == frames;
  }

  // ---------------------------------------------------------------- end to end

  lemma {:induction false} HeardBoth(a: seq<Note>, b: seq<Note>)
    ensures Heard(a + b) == Heard(a) + Heard(b)
    decreases |b|
  {
    if b == [] {
      assert a + b == a && Heard(a) + [] == Heard(a);
    } else {
      var n := |b| - 1;
      assert a + b == (a + b[..n]) + [b[n]] && b == b[..n] + [b[n]];
      HeardSnoc(a + b[..n], b[n]);
      HeardSnoc(b[..n], b[n]);
      HeardBoth(a, b[..n]);
    }
  }

  /** What a member was sent since the story began. */
  function News(h: Story, outs: Outs, m: int): seq<Note>
    requires 0 <= m < MAX_CLIENTS
  {
    if h.outs[m] <= outs[m] then outs[m][|h.outs[m]|..] else []
  }

  lemma NewsHeard(h: Story, outs: Outs, members: seq<int>, m: int)
    requires Fed(h.outs, outs, h.events, members) && Kept(h.outs, outs, members) && m in members
    ensures 0 <= m < MAX_CLIENTS && Heard(News(h, outs, m)) == Spoken(h.events, members, m)
  {
    hide Heard, Spoken;
    HeardBoth(h.outs[m], News(h, outs, m));
    assert outs[m] == h.outs[m] + News(h, outs, m);
    var was := Heard(h.outs[m]);
    assert was + Heard(News(h, outs, m)) == was + Spoken(h.events, members, m);
    assert (was + Heard(News(h, outs, m)))[|was|..] == Heard(News(h, outs, m));
    assert (was + Spoken(h.events, members, m))[|was|..] == Spoken(h.events, members, m);
  }

  lemma {:induction false} SpokenWhole(events: seq<Event>, members: seq<int>, m: int)
    requires WholeFrames(events)
    ensures forall f <- Spoken(events, members, m) :: IsBody(f.data) && f.from in members && f.from != m
    decreases |events|
  {
    hide IsBody;
    if events != [] {
      var n := |events| - 1;
      assert forall e <- events[..n] :: e in events;
      SpokenWhole(events[..n], members, m);
      assert events[n] in events;
    }
  }

  /** THEOREM.  End to end.  While a match lasts, the relayed frames written to a member are, one
      sender at a time, exactly the relayed frames of that room-mate's own byte stream, in order,
      however its bytes were cut and whatever else the relay was doing. */
  lemma EndToEnd(h: Story, s: Core, outs: Outs, said: Bodies, arrived: Buffers, seats: int, r: int, members: seq<int>,
                 m: int, from: int, delay: int)
    requires Tells(h, s, outs, said, arrived, seats, r, members) && PlayingThrough(h.trace, r, members)
    requires m in members && from in members && from != m
    ensures 0 <= m < MAX_CLIENTS && 0 <= from < MAX_CLIENTS && h.said[from] <= said[from]
    ensures
      var frames := Heard(News(h, outs, m));
      && Relays(Written(News(h, outs, m), delay)) == Datas(frames)
      && (forall b <- Written(News(h, outs, m), delay) :: Whole(b))
      && (forall f <- frames :: f.from in members && f.from != m)
      && Only(frames, from) == Relays(said[from][|h.said[from]|..])
  {
    hide Heard, Written, Relays, Spoken, Only, Playing, Good, IsBody;
    NewsHeard(h, outs, members, m);
    OneSender(h.events, members, m, from);
    SpokenWhole(h.events, members, m);
    WrittenRelays(News(h, outs, m), delay);
  }

  /** What is handled of a stream is what the stream says. */
  lemma SaidIsParsed(arrived: Bytes, said: seq<Bytes>, rx: Bytes)
    requires Accounted(arrived, said, rx) && Unfinished(rx)
    ensures Parse(arrived) == Reassembly.Reader(rx, said, Reassembly.Alive)
  {
    hide Flat;
    FlatParses(said, rx);
  }

  lemma {:induction false} AllRelayed(bodies: seq<Bytes>)
    requires forall b <- bodies :: IsRelayed(b)
    ensures Relays(bodies) == bodies
    decreases |bodies|
  {
    hide IsRelayed;
    if bodies != [] {
      var n := |bodies| - 1;
      var before, last := bodies[..n], bodies[n];
      assert bodies == before + [last] && last in bodies;
      assert forall b <- before :: b in bodies;
      AllRelayed(before);
      RelaysSnoc(before, last);
    }
  }

  lemma {:induction false} OneVoice(frames: seq<Sent>, from: int)
    requires forall f <- frames :: f.from == from
    ensures Datas(frames) == Only(frames, from)
    decreases |frames|
  {
    if frames != [] {
      var n := |frames| - 1;
      assert frames[n] in frames && forall f <- frames[..n] :: f in frames;
      OneVoice(frames[..n], from);
    }
  }

  lemma {:induction false} WrittenRelayed(notes: seq<Note>, delay: int)
    requires WholeNotes(notes) && forall n <- notes :: n.Relayed?
    ensures forall b <- Written(notes, delay) :: IsRelayed(b)
    decreases |notes|
  {
    hide IsBody, BodyOf;
    if notes != [] {
      var n := |notes| - 1;
      assert notes[n] in notes && notes == notes[..n] + [notes[n]] && forall x <- notes[..n] :: x in notes;
      HeardSnoc(notes[..n], notes[n]);
      assert Sent(notes[n].from, notes[n].data) in Heard(notes);
      assert forall f <- Heard(notes[..n]) :: f in Heard(notes);
      WrittenRelayed(notes[..n], delay);
      BodyWhole(notes[n], delay);
    }
  }

  /** THEOREM.  In a match of two that say nothing but frames for each other, the relay is a byte
      pipe: what it has written to one, followed by what it still buffers of the other, is what
      it buffered at the start followed by every byte the other has sent since. */
  lemma BytePipe(h: Story, s: Core, outs: Outs, said: Bodies, arrived: Buffers, rx0: Bytes, rx: Bytes, seats: int,
                 r: int, members: seq<int>, m: int, from: int, delay: int)
    requires Tells(h, s, outs, said, arrived, seats, r, members) && PlayingThrough(h.trace, r, members)
    requires m in members && from in members && from != m && forall c <- members :: c == m || c == from
    requires 0 <= m < MAX_CLIENTS && 0 <= from < MAX_CLIENTS
    requires Accounted(h.arrived[from], h.said[from], rx0) && Accounted(arrived[from], said[from], rx)
    requires forall n <- News(h, outs, m) :: n.Relayed?
    requires h.said[from] <= said[from] ==> forall b <- said[from][|h.said[from]|..] :: IsRelayed(b)
    ensures h.arrived[from] <= arrived[from]
    ensures Flat(Written(News(h, outs, m), delay)) + rx == rx0 + arrived[from][|h.arrived[from]|..]
  {
    hide Heard, Written, Relays, Only, Playing, Good, IsBody, Flat, Datas, Fed, IsRelayed;
    EndToEnd(h, s, outs, said, arrived, seats, r, members, m, from, delay);
    var news, latest := News(h, outs, m), said[from][|h.said[from]|..];
    TellsParts(h, s, outs, said, arrived, seats, r, members);
    WholeNews(h, outs, members, m);
    WrittenRelayed(news, delay);
    AllRelayed(Written(news, delay));
    AllRelayed(latest);
    OneVoice(Heard(news), from);
    assert Written(news, delay) == latest;
    Piped(h.arrived[from], h.said[from], rx0, arrived[from], said[from], rx);
  }

  lemma TellsParts(h: Story, s: Core, outs: Outs, said: Bodies, arrived: Buffers, seats: int, r: int, members: seq<int>)
    requires Tells(h, s, outs, said, arrived, seats, r, members) && PlayingThrough(h.trace, r, members)
    ensures Fed(h.outs, outs, h.events, members) && Kept(h.outs, outs, members) && WholeFrames(h.events)
    ensures Heeded(h, said, arrived, members)
  {
  }

  lemma WholeNews(h: Story, outs: Outs, members: seq<int>, m: int)
    requires Fed(h.outs, outs, h.events, members) && Kept(h.outs, outs, members) && m in members &&
      WholeFrames(h.events)
    ensures 0 <= m < MAX_CLIENTS && WholeNotes(News(h, outs, m))
  {
    hide Heard, Spoken, IsBody;
    NewsHeard(h, outs, members, m);
    SpokenWhole(h.events, members, m);
  }

  /** Old bytes and new ones, accounted twice. */
  lemma Piped(arrived0: Bytes, said0: seq<Bytes>, rx0: Bytes, arrived: Bytes, said: seq<Bytes>, rx: Bytes)
    requires Accounted(arrived0, said0, rx0) && Accounted(arrived, said, rx) && said0 <= said && arrived0 <= arrived
    ensures Flat(said[|said0|..]) + rx == rx0 + arrived[|arrived0|..]
  {
    var latest, more := said[|said0|..], arrived[|arrived0|..];
    FlatBoth(said0, latest);
    hide Flat;
    assert said == said0 + latest && arrived == arrived0 + more;
    var old0 := Flat(said0);
    assert old0 + (rx0 + more) == arrived && old0 + (Flat(latest) + rx) == arrived;
    assert (old0 + (rx0 + more))[|old0|..] == rx0 + more && (old0 + (Flat(latest) + rx))[|old0|..] == Flat(latest) + rx;
  }

  // ---------------------------------------------------------------- out of the socket

  lemma {:induction false} TotalFlat(bodies: seq<Bytes>, offers: seq<Outbox.Offer>)
    requires |offers| == |bodies| && forall i :: 0 <= i < |bodies| ==> offers[i].data == Framed(bodies[i])
    ensures Outbox.Total(offers) == Flat(bodies)
    decreases |bodies|
  {
    hide Framed;
    if bodies != [] {
      var n := |bodies| - 1;
      TotalFlat(bodies[..n], offers[..n]);
      FlatSnoc(bodies[..n], bodies[n]);
      assert bodies == bodies[..n] + [bodies[n]];
    }
  }

  /** THEOREM.  The same through a member's socket: under any partial writes, as long as it lives,
      what it has taken since and what is queued for it are those frames' bytes, and they read
      back as those frames. */
  method Through(front: Front, arrivals: seq<Arrival>, box: Outbox.Client, replies: nat -> seq<Outbox.Reply>, m: int,
                 delay: int, ghost r: int, ghost members: seq<int>)
    returns (ghost h: Story, ghost written: seq<Bytes>)
    requires front.Valid() && front.Drained() && box.Valid() && !box.dead && 0 <= m < MAX_CLIENTS
    modifies front, front.server, front.server.table, front.server.table.slots, box
    ensures front.Valid() && front.Drained() && box.Valid() && front.Knows(h, r, members)
    ensures h.outs == old(front.server.outs) && h.said == old(front.said) && h.arrived == old(front.arrived)
    ensures written == Written(News(h, front.server.outs, m), delay)
    ensures !box.dead ==> box.sent + box.tx == old(box.accepted) + Flat(written) && |box.tx| <= Outbox.MAX_TX_BACKLOG
    ensures PlayingThrough(h.trace, r, members) && m in members ==>
      && Parse(Flat(written)) == Reassembly.Reader([], written, Reassembly.Alive)
      && Relays(written) == Datas(Heard(News(h, front.server.outs, m)))
      && forall from <- members :: from != m ==>
           Only(Heard(News(h, front.server.outs, m)), from) == SaidSince(h, front.said, from)
  {
    hide Good, Tells, Accounted, Written, Framed, Flat, Parse, Outbox.Total;
    var before := front.server.outs[m];
    h := front.Serve(arrivals, r, members);
    var after := front.server.outs[m];
    var news := if before <= after then after[|before|..] else [];
    var bodies := Written(news, delay);
    written := bodies;
    var offers := seq(|bodies|, i requires 0 <= i < |bodies| => Outbox.Offer(Framed(bodies[i]), replies(i)));
    TotalFlat(bodies, offers);
    Outbox.SendMany(box, offers);
    if PlayingThrough(h.trace, r, members) && m in members {
      ReadsBack(h, front.server.Now(), front.server.outs, front.said, front.arrived, front.server.seats, r, members,
        m, delay);
      forall from | from in members && from != m
        ensures Only(Heard(News(h, front.server.outs, m)), from) == SaidSince(h, front.said, from)
      {
        EndToEnd(h, front.server.Now(), front.server.outs, front.said, front.arrived, front.server.seats, r, members,
          m, from, delay);
      }
    }
  }

  /** The relayed frames of a connection since the story began. */
  function SaidSince(h: Story, said: Bodies, from: int): seq<seq<int>> {
    if 0 <= from < MAX_CLIENTS && h.said[from] <= said[from] then Relays(said[from][|h.said[from]|..]) else []
  }

  lemma ReadsBack(h: Story, s: Core, outs: Outs, said: Bodies, arrived: Buffers, seats: int, r: int, members: seq<int>,
                  m: int, delay: int)
    requires Tells(h, s, outs, said, arrived, seats, r, members) && PlayingThrough(h.trace, r, members) && m in members
    ensures 0 <= m < MAX_CLIENTS
    ensures
      var written := Written(News(h, outs, m), delay);
      && Parse(Flat(written)) == Reassembly.Reader([], written, Reassembly.Alive)
      && Relays(written) == Datas(Heard(News(h, outs, m)))
  {
    hide Written, Flat, Whole;
    TellsParts(h, s, outs, said, arrived, seats, r, members);
    WholeNews(h, outs, members, m);
    var written := Written(News(h, outs, m), delay);
    WrittenRelays(News(h, outs, m), delay);
    FlatParses(written, []);
    assert Flat(written) + [] == Flat(written);
  }

  // ---------------------------------------------------------------- what a payload says

  /** A name that is empty or as HELLO admits it. */
  predicate Plain(name: Name) { |name| <= 8 && forall b <- name :: NameByte(b) }

  lemma PaddedSays(name: Name)
    requires Plain(name)
    ensures Stripped(Padded(name)) == name
  {
    var pad := Padded(name)[|name|..];
    assert forall i :: 0 <= i < |name| ==> name[i] in name;
    assert Padded(name) == name + pad;
    if name == [] { StripZeros(pad); } else { StripPad(name, pad); }
  }

  lemma {:induction false} StripZeros(pad: seq<int>)
    requires forall b <- pad :: Padding(b)
    ensures Stripped(pad) == []
    decreases |pad|
  {
    if pad != [] {
      assert pad[|pad| - 1] in pad && forall b <- pad[..|pad| - 1] :: b in pad;
      StripZeros(pad[..|pad| - 1]);
    }
  }

  /** Seat j's slot of a roster is its name, padded; a slot beyond the room is empty. */
  lemma SlotsSay(roster: seq<Name>, j: nat)
    requires j < 4 && forall n <- roster :: Plain(n)
    ensures Stripped(Slots(roster)[8 * j..8 * j + 8]) == if j < |roster| then roster[j] else []
  {
    var slot := Slots(roster)[8 * j..8 * j + 8];
    if j < |roster| {
      assert roster[j] in roster;
      forall i | 0 <= i < 8 ensures slot[i] == Padded(roster[j])[i] {
        assert (8 * j + i) / 8 == j && (8 * j + i) % 8 == i;
      }
      assert slot == Padded(roster[j]);
      PaddedSays(roster[j]);
    } else {
      forall i | 0 <= i < 8 ensures slot[i] == 0 {
        assert (8 * j + i) / 8 == j;
      }
      StripZeros(slot);
    }
  }

  /** THEOREM.  What a START says, byte by byte: its type, the seat, the number of players, the seed
      low byte first, the delay, and every player's name in the slot of its seat. */
  lemma StartSays(seat: int, count: int, seed: int, roster: seq<Name>, delay: int)
    requires 0 <= seat < 256 && 0 <= count < 256 && 0 <= seed < 65536 && 0 <= delay < 256 &&
      forall n <- roster :: Plain(n)
    ensures
      var b := BodyOf(StartNote(seat, count, seed, roster), delay);
      && |b| == 38 && b[0] == 0x05 && b[1] == seat && b[2] == count
      && b[3] as int + 256 * b[4] as int == seed && b[5] == delay
      && forall j :: 0 <= j < 4 ==> Stripped(b[6 + 8 * j..14 + 8 * j]) == if j < |roster| then roster[j] else []
  {
    var b := BodyOf(StartNote(seat, count, seed, roster), delay);
    forall j | 0 <= j < 4 ensures Stripped(b[6 + 8 * j..14 + 8 * j]) == if j < |roster| then roster[j] else [] {
      assert b[6 + 8 * j..14 + 8 * j] == Slots(roster)[8 * j..8 * j + 8];
      SlotsSay(roster, j);
    }
  }

  /** ROOM: the number of members, and their names in seat order. */
  lemma RoomSays(count: int, roster: seq<Name>, delay: int)
    requires 0 <= count < 256 && forall n <- roster :: Plain(n)
    ensures
      var b := BodyOf(RoomNote(count, roster), delay);
      && |b| == 34 && b[0] == 0x0E && b[1] == count
      && forall j :: 0 <= j < 4 ==> Stripped(b[2 + 8 * j..10 + 8 * j]) == if j < |roster| then roster[j] else []
  {
    var b := BodyOf(RoomNote(count, roster), delay);
    forall j | 0 <= j < 4 ensures Stripped(b[2 + 8 * j..10 + 8 * j]) == if j < |roster| then roster[j] else [] {
      assert b[2 + 8 * j..10 + 8 * j] == Slots(roster)[8 * j..8 * j + 8];
      SlotsSay(roster, j);
    }
  }

  /** PEER_LEFT: the seat that was left, and whose it was. */
  lemma PeerLeftSays(seat: int, name: Name, delay: int)
    requires 0 <= seat < 256 && Plain(name)
    ensures
      var b := BodyOf(PeerLeft(seat, name), delay);
      |b| == 10 && b[0] == 0x0B && b[1] == seat && Stripped(b[2..]) == name
  {
    assert BodyOf(PeerLeft(seat, name), delay)[2..] == Padded(name);
    PaddedSays(name);
  }

  lemma {:induction false} RowSays(rows: seq<Row>, i: nat)
    requires i < |rows|
    ensures RowBytes(rows)[9 * i..9 * i + 8] == Padded(rows[i].name) &&
      RowBytes(rows)[9 * i + 8] == Octet(rows[i].status)
    decreases |rows|
  {
    var n := |rows| - 1;
    var before := RowBytes(rows[..n]);
    if i < n {
      RowSays(rows[..n], i);
      assert RowBytes(rows)[..9 * n] == before;
      assert RowBytes(rows)[9 * i..9 * i + 8] == before[9 * i..9 * i + 8];
    }
  }

  /** LOBBY: how many, and for each its name and its status. */
  lemma LobbySays(rows: seq<Row>, delay: int)
    requires |rows| <= 8 && forall w <- rows :: Plain(w.name) && 0 <= w.status < 256
    ensures
      var b := BodyOf(Lobby(rows), delay);
      && |b| == 2 + 9 * |rows| && b[0] == 0x03 && b[1] == |rows|
      && forall i :: 0 <= i < |rows| ==>
           Stripped(b[2 + 9 * i..10 + 9 * i]) == rows[i].name && b[10 + 9 * i] == rows[i].status
  {
    var b := BodyOf(Lobby(rows), delay);
    assert b == [T_LOBBY, |rows|] + RowBytes(rows);
    forall i | 0 <= i < |rows|
      ensures Stripped(b[2 + 9 * i..10 + 9 * i]) == rows[i].name && b[10 + 9 * i] == rows[i].status
    {
      assert rows[i] in rows;
      LobbyRowSays(rows, b, i);
    }
  }

  lemma LobbyRowSays(rows: seq<Row>, b: Bytes, i: nat)
    requires i < |rows| <= 8 && Plain(rows[i].name) && 0 <= rows[i].status < 256
    requires b == [T_LOBBY, |rows|] + RowBytes(rows)
    ensures 10 + 9 * i < |b| && Stripped(b[2 + 9 * i..10 + 9 * i]) == rows[i].name && b[10 + 9 * i] == rows[i].status
  {
    LobbyRowAt(rows, b, i);
    hide RowBytes, Padded, Plain;
    PaddedSays(rows[i].name);
  }

  lemma LobbyRowAt(rows: seq<Row>, b: Bytes, i: nat)
    requires i < |rows| <= 8 && b == [T_LOBBY, |rows|] + RowBytes(rows)
    ensures 10 + 9 * i < |b| && b[2 + 9 * i..10 + 9 * i] == Padded(rows[i].name) &&
      b[10 + 9 * i] == Octet(rows[i].status)
  {
    RowSays(rows, i);
    hide RowBytes, Padded, Octet;
    Behind(b, T_LOBBY, |rows|, RowBytes(rows), 9 * i, 9 * i + 8);
  }

  lemma Behind(b: Bytes, x: Protocol.Byte, y: Protocol.Byte, r: Bytes, p: nat, q: nat)
    requires b == [x, y] + r && p <= q < |r|
    ensures b[p + 2..q + 2] == r[p..q] && b[q + 2] == r[q]
  {
  }

  lemma PongSays(delay: int)
    ensures BodyOf(Pong, delay) == [0x0D]
  {
  }

  // ---------------------------------------------------------------- into the console

  /** Frame bodies that come towards a console: a note of the relay's own, or a peer's frame. */
  ghost predicate Emitted(b: Bytes) {
    || (exists note: Note, delay: int :: !note.Relayed? && b == BodyOf(note, delay))
    || (exists f: Protocol.Frame, from: Protocol.Byte :: from < 4 && Wire.Sendable(f) && b == Wire.Bytes(from, f)[1..])
  }

  lemma NoteFits(note: Note, delay: int)
    requires !note.Relayed?
    ensures
      var b := BodyOf(note, delay);
      Whole(b) && b[0] < 0x10 && Framing.Fits(|b|, b[0]) && Framing.LegalFrame(Framed(b))
  {
  }

  /** THEOREM.  The bounds table passes everything that can come in. */
  lemma EmittedFits(b: Bytes)
    requires Emitted(b)
    ensures b != [] && |b| <= 99 && Framing.Fits(|b|, b[0])
  {
    if note: Note, delay: int :| !note.Relayed? && b == BodyOf(note, delay) {
      NoteFits(note, delay);
    } else {
      var f: Protocol.Frame, from: Protocol.Byte :| from < 4 && Wire.Sendable(f) && b == Wire.Bytes(from, f)[1..];
      Framing.BytesLegal(from, f);
    }
  }

  /** THEOREM.  And it is as tight as it can be: for every type it lets in, a frame of its least
      and one of its greatest length can come. */
  lemma BoundsAreTight(t: Protocol.Byte) returns (lo: Bytes, hi: Bytes)
    requires Framing.MaxLen(t) != 0
    ensures Emitted(lo) && Emitted(hi) && lo != [] && hi != [] && lo[0] == hi[0] == t
    ensures |lo| == Framing.MinLen(t) && |hi| == Framing.MaxLen(t)
  {
    TableIs(t);
    hide Framing.MinLen, Framing.MaxLen, Emitted;
    if t == 0x03 {
      lo := NoteBody(Lobby([]), 2);
      hi := NoteBody(Lobby(seq(8, _ => Row([], 1))), 74);
    } else if t == 0x08 {
      lo := PeerBody(Protocol.End, 3);
      hi := PeerBody(Protocol.Chunk(0, seq(96, _ => 0)), 99);
    } else {
      lo := OneLength(t);
      hi := lo;
    }
  }

  /** The types of one length only. */
  lemma OneLength(t: Protocol.Byte) returns (b: Bytes)
    requires t in {0x05, 0x06, 0x07, 0x09, 0x0B, 0x0D, 0x0E}
    ensures Emitted(b) && b != [] && b[0] == t && |b| == Framing.MinLen(t)
  {
    TableIs(t);
    hide Framing.MinLen, Framing.MaxLen, Emitted;
    match t
    case 0x05 => b := NoteBody(StartNote(0, 2, 1, []), 38);
    case 0x06 => b := PeerBody(Protocol.Input(0, Protocol.IDLE), 6);
    case 0x07 => b := PeerBody(Protocol.Crc(0, 0), 6);
    case 0x09 => b := PeerBody(Protocol.Resync(0), 3);
    case 0x0B => b := NoteBody(PeerLeft(0, []), 10);
    case 0x0D => b := NoteBody(Pong, 1);
    case _ => b := NoteBody(RoomNote(0, []), 34);
  }

  lemma TableIs(t: Protocol.Byte)
    ensures Framing.MinLen(t) == match t
      case 0x03 => 2 case 0x05 => 38 case 0x06 => 6 case 0x07 => 6 case 0x08 => 3 case 0x09 => 3
      case 0x0B => 10 case 0x0D => 1 case 0x0E => 34 case _ => 0
    ensures Framing.MaxLen(t) == match t
      case 0x03 => 74 case 0x05 => 38 case 0x06 => 6 case 0x07 => 6 case 0x08 => 99 case 0x09 => 3
      case 0x0B => 10 case 0x0D => 1 case 0x0E => 34 case _ => 0
  {
  }

  lemma NoteBody(note: Note, n: nat) returns (b: Bytes)
    requires !note.Relayed? && |BodyOf(note, 0)| == n
    ensures Emitted(b) && b == BodyOf(note, 0)
  {
    b := BodyOf(note, 0);
  }

  lemma PeerBody(f: Protocol.Frame, n: nat) returns (b: Bytes)
    requires Wire.Sendable(f) && |Wire.Bytes(0, f)| == n + 1
    ensures Emitted(b) && b == Wire.Bytes(0, f)[1..]
  {
    b := Wire.Bytes(0, f)[1..];
  }

  function FramesOf(bodies: seq<Bytes>): seq<Bytes> {
    if bodies == [] then [] else [Framed(bodies[0])] + FramesOf(bodies[1..])
  }

  lemma {:induction false} FramesJoin(bodies: seq<Bytes>)
    ensures Framing.Join(FramesOf(bodies)) == Flat(bodies)
  {
    hide Framed;
    if bodies != [] {
      FramesJoin(bodies[1..]);
      assert FramesOf(bodies)[1..] == FramesOf(bodies[1..]);
    }
  }

  predicate LegalBody(b: Bytes) { Whole(b) && Framing.Fits(|b|, b[0]) }

  lemma {:induction false} FramesLegal(bodies: seq<Bytes>)
    requires forall b <- bodies :: LegalBody(b)
    ensures forall f <- FramesOf(bodies) :: Framing.LegalFrame(f)
  {
    hide Framing.Fits;
    if bodies != [] {
      assert bodies[0] in bodies;
      FramesLegal(bodies[1..]);
    }
  }

  /** A frame relayed from a sender that keeps to the bounds. */
  predicate LegalData(data: seq<int>) {
    1 <= |data| <= 99 && (forall x <- data :: 0 <= x < 256) && 6 <= data[0] <= 9 && Framing.Fits(|data|, data[0])
  }

  lemma {:induction false} WrittenLegal(notes: seq<Note>, delay: int)
    requires forall n <- notes :: n.Relayed? ==> LegalData(n.data)
    ensures forall b <- Written(notes, delay) :: LegalBody(b)
    decreases |notes|
  {
    hide LegalData, LegalBody;
    if notes != [] {
      var n := |notes| - 1;
      assert notes[n] in notes && forall x <- notes[..n] :: x in notes;
      WrittenLegal(notes[..n], delay);
      BodyLegal(notes[n], delay);
    }
  }

  lemma BodyLegal(note: Note, delay: int)
    requires note.Relayed? ==> LegalData(note.data)
    ensures LegalBody(BodyOf(note, delay))
  {
    hide Framing.Fits;
    if note.Relayed? { BodyWhole(note, delay); } else { NoteFits(note, delay); }
  }

  /** THEOREM.  What the relay writes, cut into reads in any way, is taken by a console's receiver
      as exactly the frames written, and no byte is slipped over. */
  lemma ConsoleTakesAll(notes: seq<Note>, delay: int, parts: seq<Bytes>)
    requires forall n <- notes :: n.Relayed? ==> LegalData(n.data)
    requires Framing.Join(parts) == Flat(Written(notes, delay))
    ensures Framing.Feed([], parts) == Framing.Parsed(FramesOf(Written(notes, delay)), 0, [])
  {
    hide Written, LegalData, LegalBody, Framing.LegalFrame, Framing.Feed, Framing.Join, FramesOf;
    var bodies := Written(notes, delay);
    WrittenLegal(notes, delay);
    FramesLegal(bodies);
    FramesJoin(bodies);
    Framing.LegalStreamsArrive(FramesOf(bodies), parts);
  }

  /** THEOREM.  Cart to cart.  In a match of two that say nothing but frames for each other, if one
      cart's bytes are the beginning of the stream of some frames, the other's receiver takes from
      what the relay has written the first of those frames, whole and unslipped. */
  lemma CartToCart(h: Story, s: Core, outs: Outs, said: Bodies, arrived: Buffers, rx: Bytes, seats: int, r: int,
                   members: seq<int>, m: int, from: int, delay: int, seat: Protocol.Byte, ms: seq<Protocol.Msg>)
    returns (k: nat)
    requires Tells(h, s, outs, said, arrived, seats, r, members) && PlayingThrough(h.trace, r, members)
    requires m in members && from in members && from != m && forall c <- members :: c == m || c == from
    requires 0 <= m < MAX_CLIENTS && 0 <= from < MAX_CLIENTS
    requires Accounted(h.arrived[from], h.said[from], []) && Accounted(arrived[from], said[from], rx)
    requires forall n <- News(h, outs, m) :: n.Relayed?
    requires h.said[from] <= said[from] ==> forall b <- said[from][|h.said[from]|..] :: IsRelayed(b)
    requires seat < 4 && forall x <- ms :: Wire.Sendable(x.frame)
    requires h.arrived[from] <= arrived[from] ==> arrived[from][|h.arrived[from]|..] <= Wire.Stream(seat, ms)
    ensures k <= |ms|
    ensures Framing.Parse(Flat(Written(News(h, outs, m), delay))).frames == Framing.Framed(seat, ms[..k])
    ensures Framing.Parse(Flat(Written(News(h, outs, m), delay))).slips == 0
  {
    hide Tells, Accounted, Written, Flat, Framing.Parse, Framing.Framed, Wire.Stream, PlayingThrough, IsRelayed;
    BytePipe(h, s, outs, said, arrived, [], rx, seats, r, members, m, from, delay);
    var out := Flat(Written(News(h, outs, m), delay));
    assert [] + arrived[from][|h.arrived[from]|..] == arrived[from][|h.arrived[from]|..];
    assert out <= out + rx;
    k := Framing.PrefixParses(seat, ms, out);
  }
}
