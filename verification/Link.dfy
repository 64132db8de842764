/** Two carts joined by two byte streams, driven by any schedule: what their programs do to
    cells and bytes is a run of the protocol, so whatever holds of every run holds of them. */
module Link {
  import opened Protocol
  import opened Invariant
  import opened Agreement
  import opened Images
  import opened Repair
  import opened Safety
  import opened FaultFree
  import opened Progress
  import opened Cells
  import opened Wire
  import opened Framing
  import opened PumpRam
  import opened ConsoleRam
  import opened Refinement

  /** What the outside can make a cart do next.  A turn that its program cannot take where it
      stands does nothing; n is how many bytes the socket gives at most. */
  datatype Turn =
    | Poll(n: nat)                 // a pump on the matched screen or inside a hold
    | Enter(n: nat)                // the pump that opens a pass
    | Press(cell: Cell)            // the capture
    | Gate(quiet: bool, n: nat)    // the gate: the tick, or another pump
    | Upset(image: Image)          // a fault in the state
    | Hang                         // the console is gone

  /** What the game supplies. */
  datatype Game = Game(step: (Image, Pads) -> Image, sum: Image -> int, clamp: Image -> Image)

  function ConfigOf(d: int, game: Game): Config { Config(d, game.step, game.sum, game.clamp) }

  /** Bytes one read takes: no more than asked, waiting or allowed, and no fewer. */
  function Least(n: nat, avail: nat): (m: nat)
    ensures m <= n && m <= avail && m <= 64 && (m == n || m == avail || m == 64)
  {
    if n <= avail && n <= READ_MAX then n else if avail <= READ_MAX then avail else READ_MAX
  }

  lemma {:induction false} PumpStays(cfg: Config, st: Sys, s: Seat, k: nat)
    ensures
      var st' := Pump(cfg, st, s, k);
      && Me(st', Peer(s)) == Me(st, Peer(s))
      && Me(st', s).pc == Me(st, s).pc && Me(st', s).dropped == Me(st, s).dropped
    decreases k
  {
    hide OnFrame;
    if k != 0 && Inbox(st, s) != [] {
      FrameCloser(cfg, 0, s, Me(st, s), Inbox(st, s)[0].frame);
      PumpStays(cfg, Deliver(cfg, st, s), s, k - 1);
    }
  }

  /** Nothing a console meets outside a hold moves its clock within one pump. */
  lemma PumpHere(cfg: Config, st: Sys, s: Seat, k: nat)
    requires Legal(cfg) && Reachable(cfg, st) && CanPump(st, s, k) && !Me(st, s).hold
    ensures Me(Pump(cfg, st, s, k), s).tick == Me(st, s).tick && Epoch(Me(Pump(cfg, st, s, k), s)) == Epoch(Me(st, s))
  {
    hide Reachable, Core, Logs, Sims, Sums, Cover, Pump;
    ReachableInv(cfg, st);
    if s.Host? { PumpHostStays(cfg, st, k); } else { PumpAtomic(cfg, st, k); }
  }

  /** With the wire empty and no frame whole, nothing is in flight. */
  lemma NothingHeld(held: seq<Byte>, st: Sys, s: Seat)
    requires Carries(held, [], st, s) && AllSendable(Inbox(st, s))
    ensures Inbox(st, s) == []
  {
    hide Parse, Stream;
    var from, ms := SeatNo(Peer(s)), Inbox(st, s);
    FramedJoins(from, ms);
    ParseLegal(Framed(from, ms), []);
    assert held + [] == held && Join(Framed(from, ms)) + [] == held;
    assert Parse([]) == Parsed([], 0, []) by { ParseStuck([]); }
    assert Framed(from, ms) + [] == Framed(from, ms);
  }

  lemma InboxAfter(cfg: Config, st: Sys, s: Seat, k: nat)
    requires CanPump(st, s, k) && AllSendable(Inbox(st, s))
    ensures k <= |Inbox(st, s)| && Inbox(Pump(cfg, st, s, k), s) == Inbox(st, s)[k..]
    ensures AllSendable(Inbox(Pump(cfg, st, s, k), s))
  {
    PumpInbox(cfg, st, s, k);
  }

  class Cart {
    const con: Console
    const rx: Receiver
    var inbox: seq<Byte> // on the wire, not yet read
    var at: Pc           // where the program stands
    var matched: bool    // still on the matched screen
    var up: bool

    function Cells(): set<object> {
      {this, con, con.wm, con.ring, con.kp, con.ownCrc, rx, rx.rxacc, rx.frmbuf}
    }

    /** The cart is console s of the protocol, and the bytes towards it are its inbox. */
    ghost predicate Is(cfg: Config, st: Sys, s: Seat)
      reads Cells()
    {
      && {rx, rx.rxacc, rx.frmbuf} !! {con, con.wm, con.ring, con.kp, con.ownCrc}
      && con.Shows(cfg, s, Me(st, s)) && rx.Valid() && Carries(rx.Contents(), inbox, st, s)
      && at == Me(st, s).pc && (up <==> !Me(st, s).dropped)
      && (matched ==> at.Entry? && !Me(st, s).hold && Me(st, s).tick == 0 && Epoch(Me(st, s)) == 0)
    }

    /** A cart that has handled START. */
    constructor (me: Byte, d: Byte, image: Image, ghost cfg: Config, ghost s: Seat, ghost start: Image,
                 ghost other: Image)
      requires me == SeatNo(s) && d == cfg.d && image == if s.Host? then start else other
      ensures Is(cfg, Init(cfg, start, other), s) && fresh(Cells())
    {
      hide Console.Shows, Carries;
      var c, r := Boot(me, d, image, cfg, s, start, other);
      con, rx := c, r;
      inbox, at, matched, up := [], Entry, true, true;
    }

    /** A read of at most n bytes and all it completes. */
    method Read(n: nat, game: Game, ghost cfg: Config, ghost st: Sys, ghost s: Seat, ghost kind: Action)
      returns (tx: seq<Byte>, ghost k: nat, ghost sent: seq<Msg>)
      requires Legal(cfg) && SumFits(cfg) && Reachable(cfg, st) && cfg == ConfigOf(cfg.d, game)
      requires Is(cfg, st, s) && Pumping(cfg, st, s, kind)
      modifies `inbox, con, con.wm, con.ring, con.kp, con.ownCrc, rx, rx.rxacc, rx.frmbuf
      ensures CanPump(st, s, k) && Enabled(cfg, st, kind.(frames := k))
      ensures con.Shows(cfg, s, Me(Pump(cfg, st, s, k), s)) && rx.Valid() &&
        Carries(rx.Contents(), inbox, Pump(cfg, st, s, k), s)
      ensures Inbox(Pump(cfg, st, s, k), Peer(s)) == Inbox(st, Peer(s)) + sent && tx == Stream(SeatNo(s), sent)
      ensures inbox == old(inbox)[Least(n, |old(inbox)|)..]
      ensures |old(inbox)| <= n && |old(inbox)| <= 64 ==> k == |Inbox(st, s)|
    {
      hide Reachable, Console.Shows, Carries, Pumping, Pump, Stream, Enabled, CanPump, Parse;
      var m := Least(n, |inbox|);
      tx, k, sent := PumpOnce(rx, con, inbox, m, game.clamp, cfg, st, s, kind);
      inbox := inbox[m..];
      if inbox == [] {
        ReachableSends(cfg, st);
        InboxAfter(cfg, st, s, k);
        NothingHeld(rx.Contents(), Pump(cfg, st, s, k), s);
      }
    }

    /** The pumps outside a pass. */
    method PollTurn(n: nat, game: Game, ghost cfg: Config, ghost st: Sys, ghost s: Seat)
      returns (tx: seq<Byte>, ghost a: Action, ghost sent: seq<Msg>)
      requires Legal(cfg) && SumFits(cfg) && Reachable(cfg, st) && cfg == ConfigOf(cfg.d, game)
      requires Is(cfg, st, s) && up && at.Entry? && (con.hold || matched)
      modifies Cells()
      ensures a.Wait? && Moves(cfg, st, s, a, sent) && tx == Stream(SeatNo(s), sent) && Is(cfg, Apply(cfg, st, a), s)
      ensures inbox == old(inbox)[Least(n, |old(inbox)|)..]
      ensures |old(inbox)| <= n && |old(inbox)| <= 64 ==> a.frames == |Inbox(st, s)|
    {
      hide Reachable, Console.Shows, Carries, Pump, Stream, CanPump;
      con.ClockShown(cfg, s, Me(st, s));
      NoFrames(st, s);
      ghost var k, c := 0, Me(st, s);
      tx, k, sent := Read(n, game, cfg, st, s, Wait(s, 0));
      a := Wait(s, k);
      PumpStays(cfg, st, s, k);
      con.ClockShown(cfg, s, Me(Pump(cfg, st, s, k), s));
      if !c.hold { PumpHere(cfg, st, s, k); }
      matched := matched && !con.hold;
    }

    /** The pump that opens a pass. */
    method EnterTurn(n: nat, game: Game, ghost cfg: Config, ghost st: Sys, ghost s: Seat)
      returns (tx: seq<Byte>, ghost a: Action, ghost sent: seq<Msg>)
      requires Legal(cfg) && SumFits(cfg) && Reachable(cfg, st) && cfg == ConfigOf(cfg.d, game)
      requires Is(cfg, st, s) && up && at.Entry? && !con.hold
      modifies Cells()
      ensures a.PassStart? && Moves(cfg, st, s, a, sent) && tx == Stream(SeatNo(s), sent) &&
        Is(cfg, Apply(cfg, st, a), s)
      ensures inbox == old(inbox)[Least(n, |old(inbox)|)..]
      ensures |old(inbox)| <= n && |old(inbox)| <= 64 ==> a.frames == |Inbox(st, s)|
    {
      hide Reachable, Console.Shows, Carries, Pump, Stream, CanPump;
      con.ClockShown(cfg, s, Me(st, s));
      NoFrames(st, s);
      ghost var k;
      tx, k, sent := Read(n, game, cfg, st, s, PassStart(s, 0));
      a := PassStart(s, k);
      PumpStays(cfg, st, s, k);
      ghost var mid := Pump(cfg, st, s, k);
      ReadyShows(con, cfg, s, Me(mid, s));
      CarriesToo(rx.Contents(), inbox, mid, Apply(cfg, st, a), s);
      assert Inbox(mid, Peer(s)) + [] == Inbox(mid, Peer(s));
      at, matched := Ready, false;
    }

    /** The capture. */
    method PressTurn(cell: Cell, ghost cfg: Config, ghost st: Sys, ghost s: Seat)
      returns (tx: seq<Byte>, ghost a: Action, ghost sent: seq<Msg>)
      requires Legal(cfg) && Reachable(cfg, st) && Is(cfg, st, s) && up && at.Ready?
      modifies Cells()
      ensures a == Capture(s, cell) && inbox == old(inbox)
      ensures Moves(cfg, st, s, a, sent) && tx == Stream(SeatNo(s), sent) && Is(cfg, Apply(cfg, st, a), s)
    {
      hide Reachable, Console.Shows, Carries, Bytes, Stream;
      a := Capture(s, cell);
      ghost var m := Msg(Epoch(Me(st, s)), Input(Me(st, s).tick + cfg.d, cell));
      sent := [m];
      tx := CaptureAndSend(con, cell, cfg, st, s);
      StreamOne(SeatNo(s), m);
      CarriesToo(rx.Contents(), inbox, st, Apply(cfg, st, a), s);
      at := Protocol.Gate;
    }

    /** The gate: through it, or one more pump. */
    method GateTurn(quiet: bool, n: nat, game: Game, ghost cfg: Config, ghost st: Sys, ghost s: Seat)
      returns (tx: seq<Byte>, ghost a: Action, ghost sent: seq<Msg>)
      requires Legal(cfg) && SumFits(cfg) && Reachable(cfg, st) && cfg == ConfigOf(cfg.d, game)
      requires Is(cfg, st, s) && up && at.Gate?
      modifies Cells()
      ensures Moves(cfg, st, s, a, sent) && tx == Stream(SeatNo(s), sent) && Is(cfg, Apply(cfg, st, a), s)
      ensures if Me(st, s).wm >= Me(st, s).tick then a == Tick(s, quiet) && inbox == old(inbox)
              else a.Stall? && inbox == old(inbox)[Least(n, |old(inbox)|)..]
      ensures a.Stall? && |old(inbox)| <= n && |old(inbox)| <= 64 ==> a.frames == |Inbox(st, s)|
    {
      hide Reachable, Console.Shows, Carries, Pump, Stream, CanPump, RunPass;
      NoFrames(st, s);
      var ran;
      ran, tx := GateAndTick(con, quiet, game.step, game.sum, game.clamp, cfg, st, s);
      if ran {
        a := Tick(s, quiet);
        sent := RunPass(cfg, s, Me(st, s), quiet).1;
        PassEnds(cfg, s, Me(st, s), quiet);
        CarriesToo(rx.Contents(), inbox, st, Apply(cfg, st, a), s);
        at := Entry;
      } else {
        ghost var k;
        tx, k, sent := Read(n, game, cfg, st, s, Stall(s, 0));
        a := Stall(s, k);
        PumpStays(cfg, st, s, k);
      }
    }

    /** A fault, or the end. */
    method UpsetTurn(image: Image, ghost cfg: Config, ghost st: Sys, ghost s: Seat) returns (ghost a: Action)
      requires Is(cfg, st, s) && up
      modifies con
      ensures a == Fault(s, image) && Moves(cfg, st, s, a, []) && Is(cfg, Apply(cfg, st, a), s)
    {
      hide Carries, Pump, RunPass, CanPump, SlotsShow, Console.ShowsRing;
      a := Fault(s, image);
      CarriesToo(rx.Contents(), inbox, st, Apply(cfg, st, a), s);
      assert Inbox(st, Peer(s)) + [] == Inbox(st, Peer(s));
      con.sim := image;
    }

    method HangTurn(ghost cfg: Config, ghost st: Sys, ghost s: Seat) returns (ghost a: Action)
      requires Is(cfg, st, s) && up
      modifies `up
      ensures a == Drop(s) && Moves(cfg, st, s, a, []) && Is(cfg, Apply(cfg, st, a), s)
    {
      hide Carries, Pump, RunPass, CanPump, SlotsShow, Console.ShowsRing;
      a := Drop(s);
      CarriesToo(rx.Contents(), inbox, st, Apply(cfg, st, a), s);
      assert Inbox(st, Peer(s)) + [] == Inbox(st, Peer(s));
      up := false;
    }

    /** The program's turn.  It does nothing exactly if the cart is gone or its program does not
        stand there; otherwise it does what the turn says, and at the gate it is the watermark
        that decides between the tick and another pump. */
    method Act(turn: Turn, game: Game, ghost cfg: Config, ghost st: Sys, ghost s: Seat)
      returns (tx: seq<Byte>, ghost acts: seq<Action>, ghost sent: seq<Msg>)
      requires Legal(cfg) && SumFits(cfg) && Reachable(cfg, st) && cfg == ConfigOf(cfg.d, game) && Is(cfg, st, s)
      modifies Cells()
      ensures |acts| <= 1 && tx == Stream(SeatNo(s), sent) && (!turn.Upset? ==> forall a <- acts :: !a.Fault?)
      ensures if acts == [] then sent == [] && Is(cfg, st, s)
              else Moves(cfg, st, s, acts[0], sent) && Is(cfg, Apply(cfg, st, acts[0]), s)
      ensures acts != [] <==> old(up) && match turn
        case Poll(_) => old(at).Entry? && (old(con.hold) || old(matched))
        case Enter(_) => old(at).Entry? && !old(con.hold)
        case Press(_) => old(at).Ready?
        case Gate(_, _) => old(at).Gate?
        case Upset(_) => true
        case Hang => true
      ensures acts != [] ==> AsTold(st, s, turn, acts[0], |old(inbox)|)
      ensures inbox == old(inbox)[if acts != [] && Pumps(acts[0]) then Least(Asked(turn), |old(inbox)|) else 0..]
    {
      hide Reachable, Console.Shows, Carries, Stream, Moves, Apply;
      tx, acts, sent := [], [], [];
      StreamNone(SeatNo(s));
      con.ClockShown(cfg, s, Me(st, s));
      if !up {
        return;
      }
      ghost var a;
      match turn {
        case Poll(n) =>
          if !(at.Entry? && (con.hold || matched)) {
            return;
          }
          tx, a, sent := PollTurn(n, game, cfg, st, s);
        case Enter(n) =>
          if !(at.Entry? && !con.hold) {
            return;
          }
          tx, a, sent := EnterTurn(n, game, cfg, st, s);
        case Press(cell) =>
          if !at.Ready? {
            return;
          }
          tx, a, sent := PressTurn(cell, cfg, st, s);
        case Gate(quiet, n) =>
          if !at.Gate? {
            return;
          }
          tx, a, sent := GateTurn(quiet, n, game, cfg, st, s);
        case Upset(image) =>
          a := UpsetTurn(image, cfg, st, s);
        case Hang =>
          a := HangTurn(cfg, st, s);
      }
      acts := [a];
    }
  }

  /** The step a turn stands for; a pump that finds all bytes waiting within its read handles all
      frames in flight. */
  ghost predicate AsTold(st: Sys, s: Seat, turn: Turn, a: Action, waiting: nat) {
    && (Pumps(a) && waiting <= Asked(turn) && waiting <= 64 ==> a.frames == |Inbox(st, s)|)
    && match turn
       case Poll(_) => a.Wait?
       case Enter(_) => a.PassStart?
       case Press(cell) => a == Capture(s, cell)
       case Gate(quiet, _) => if Me(st, s).wm >= Me(st, s).tick then a == Tick(s, quiet) else a.Stall?
       case Upset(image) => a == Fault(s, image)
       case Hang => a == Drop(s)
  }

  lemma AsToldFewer(st: Sys, s: Seat, turn: Turn, a: Action, waiting: nat, more: nat)
    requires AsTold(st, s, turn, a, waiting) && waiting <= more
    ensures AsTold(st, s, turn, a, more)
  {
  }

  predicate Pumps(a: Action) { a.Wait? || a.PassStart? || a.Stall? }

  function Asked(turn: Turn): nat {
    match turn
    case Poll(n) => n
    case Enter(n) => n
    case Gate(_, n) => n
    case _ => 0
  }

  lemma CarriesToo(held: seq<Byte>, wire: seq<Byte>, st: Sys, st': Sys, s: Seat)
    requires Carries(held, wire, st, s) && Inbox(st', s) == Inbox(st, s)
    ensures Carries(held, wire, st', s)
  {
  }

  /** Opening a pass changes no cell. */
  lemma ReadyShows(con: Console, cfg: Config, s: Seat, c: Con)
    requires con.Shows(cfg, s, c) && c.pc.Entry?
    ensures con.Shows(cfg, s, c.(pc := Ready))
  {
    hide Console.ShowsRing, SlotsShow;
  }

  lemma PassEnds(cfg: Config, s: Seat, c: Con, quiet: bool)
    ensures RunPass(cfg, s, c, quiet).0.pc.Entry? && RunPass(cfg, s, c, quiet).0.dropped == c.dropped
  {
    hide SimAfter, BookAfter, Record, PushMsgs;
  }

  lemma NoFrames(st: Sys, s: Seat)
    ensures CanPump(st, s, 0)
  {
    assert Inbox(st, s)[..0] == [];
  }

  /** An enabled action of s with these frames sent. */
  ghost predicate Moves(cfg: Config, st: Sys, s: Seat, a: Action, sent: seq<Msg>) {
    && a.seat == s && Enabled(cfg, st, a)
    && var st' := Apply(cfg, st, a);
       Me(st', Peer(s)) == Me(st, Peer(s)) && Inbox(st', Peer(s)) == Inbox(st, Peer(s)) + sent
  }

  // ---------------------------------------------------------------- both

  datatype Cue = Cue(who: Seat, turn: Turn)

  /** The two carts are the two consoles of one reachable protocol state. */
  ghost predicate Linked(host: Cart, guest: Cart, cfg: Config, st: Sys)
    reads host.Cells(), guest.Cells()
  {
    host.Cells() !! guest.Cells() && host.Is(cfg, st, Host) && guest.Is(cfg, st, Guest) && Reachable(cfg, st)
  }

  lemma WireGrows(held: seq<Byte>, wire: seq<Byte>, st: Sys, st': Sys, s: Seat, sent: seq<Msg>)
    requires Carries(held, wire, st, s) && Inbox(st', s) == Inbox(st, s) + sent
    ensures Carries(held, wire + Stream(SeatNo(Peer(s)), sent), st', s)
  {
    hide Stream, Parse;
    StreamAppend(SeatNo(Peer(s)), Inbox(st, s), sent);
    assert held + (wire + Stream(SeatNo(Peer(s)), sent)) == (held + wire) + Stream(SeatNo(Peer(s)), sent);
  }

  /** One cart's program takes its turn; the bytes it writes go to the other. */
  method TakeTurn(me: Cart, other: Cart, turn: Turn, game: Game, ghost cfg: Config, ghost st: Sys, ghost s: Seat)
    returns (ghost acts: seq<Action>, ghost st': Sys)
    requires Legal(cfg) && SumFits(cfg) && Reachable(cfg, st) && cfg == ConfigOf(cfg.d, game)
    requires me.Cells() !! other.Cells() && me.Is(cfg, st, s) && other.Is(cfg, st, Peer(s))
    modifies me.Cells(), other`inbox
    ensures me.Is(cfg, st', s) && other.Is(cfg, st', Peer(s)) && Reachable(cfg, st')
    ensures Did(cfg, st, acts, st') && (!turn.Upset? ==> forall a <- acts :: !a.Fault?)
    ensures Told(cfg, st, Cue(s, turn), acts, st')
  {
    hide Reachable, Console.Shows, Carries, Stream, Enabled, Apply, AsTold, TotalSize, Told;
    WireSize(cfg, me.rx.Contents(), me.inbox, st, s);
    ghost var waiting := |me.inbox|;
    me.con.ClockShown(cfg, s, Me(st, s));
    var tx;
    ghost var sent;
    tx, acts, sent := me.Act(turn, game, cfg, st, s);
    st' := if acts == [] then st else Apply(cfg, st, acts[0]);
    if acts != [] { AsToldFewer(st, s, turn, acts[0], waiting, TotalSize(Inbox(st, s))); }
    assert Told(cfg, st, Cue(s, turn), acts, st') by { IsTold(cfg, st, s, turn, acts, st'); }
    assert Inbox(st', Peer(s)) == Inbox(st, Peer(s)) + sent;
    WireGrows(other.rx.Contents(), other.inbox, st, st', Peer(s), sent);
    other.inbox := other.inbox + tx;
    if acts != [] { ReachableStep(cfg, st, acts[0]); }
  }

  lemma WireSize(cfg: Config, held: seq<Byte>, wire: seq<Byte>, st: Sys, s: Seat)
    requires SumFits(cfg) && Reachable(cfg, st) && Carries(held, wire, st, s)
    ensures |wire| <= TotalSize(Inbox(st, s))
  {
    hide Reachable, Stream, Parse;
    ReachableSends(cfg, st);
    StreamSize(SeatNo(Peer(s)), Inbox(st, s));
  }

  /** What a cue does to the protocol state: nothing only if its console is gone or its program
      stands elsewhere. */
  ghost predicate Told(cfg: Config, st: Sys, cue: Cue, acts: seq<Action>, st': Sys) {
    var c := Me(st, cue.who);
    && Did(cfg, st, acts, st')
    && (acts != [] ==> acts[0].seat == cue.who && AsTold(st, cue.who, cue.turn, acts[0], TotalSize(Inbox(st, cue.who))))
    && (!c.dropped ==>
          match cue.turn
          case Poll(_) => c.pc.Entry? && c.hold ==> acts != []
          case Enter(_) => acts != [] <==> c.pc.Entry? && !c.hold
          case Press(_) => acts != [] <==> c.pc.Ready?
          case Gate(_, _) => acts != [] <==> c.pc.Gate?
          case _ => acts != [])
  }

  lemma IsTold(cfg: Config, st: Sys, s: Seat, turn: Turn, acts: seq<Action>, st': Sys)
    requires Did(cfg, st, acts, st') &&
      (acts != [] ==> acts[0].seat == s && AsTold(st, s, turn, acts[0], TotalSize(Inbox(st, s))))
    requires
      var c := Me(st, s);
      !c.dropped ==>
        match turn
        case Poll(_) => c.pc.Entry? && c.hold ==> acts != []
        case Enter(_) => acts != [] <==> c.pc.Entry? && !c.hold
        case Press(_) => acts != [] <==> c.pc.Ready?
        case Gate(_, _) => acts != [] <==> c.pc.Gate?
        case _ => acts != []
    ensures Told(cfg, st, Cue(s, turn), acts, st')
  {
  }

  /** A schedule followed cue by cue. */
  ghost predicate Followed(cfg: Config, cues: seq<Cue>, steps: seq<seq<Action>>, trace: seq<Sys>) {
    && |steps| == |cues| && |trace| == |cues| + 1
    && forall i :: 0 <= i < |cues| ==> Told(cfg, trace[i], cues[i], steps[i], trace[i + 1])
  }

  /** At most one protocol step. */
  ghost predicate Did(cfg: Config, st: Sys, acts: seq<Action>, st': Sys) {
    (acts == [] && st' == st) || (|acts| == 1 && Enabled(cfg, st, acts[0]) && st' == Apply(cfg, st, acts[0]))
  }

  lemma RunsDid(cfg: Config, st0: Sys, acts: seq<Action>, st: Sys, more: seq<Action>, st': Sys)
    requires Runs(cfg, st0, acts, st) && Did(cfg, st, more, st')
    ensures Runs(cfg, st0, acts + more, st')
  {
    hide Runs, Enabled, Apply;
    if more == [] {
      assert acts + more == acts;
    } else {
      assert more == [more[0]];
      RunsSnoc(cfg, st0, acts, st, more[0]);
    }
  }

  /** THEOREM.  Whatever the schedule, the sizes of the reads, the presses, the faults and the
      hang-ups: after it the cells and bytes of both carts are those of a state that a run of
      the protocol leads to, with no fault in it if there was none. */
  method Play(host: Cart, guest: Cart, cues: seq<Cue>, game: Game, ghost cfg: Config, ghost st: Sys)
    returns (ghost acts: seq<Action>, ghost end: Sys, ghost steps: seq<seq<Action>>, ghost trace: seq<Sys>)
    requires Legal(cfg) && SumFits(cfg) && cfg == ConfigOf(cfg.d, game) && Linked(host, guest, cfg, st)
    modifies host.Cells(), guest.Cells()
    ensures Linked(host, guest, cfg, end) && Runs(cfg, st, acts, end)
    ensures (forall c <- cues :: !c.turn.Upset?) ==> forall a <- acts :: !a.Fault?
    ensures Followed(cfg, cues, steps, trace) && trace[0] == st && trace[|cues|] == end
  {
    hide Reachable, Runs, Did, Cart.Is, Told;
    acts, end, steps, trace := [], st, [], [st];
    assert Runs(cfg, st, [], st) by { RunsNone(cfg, st); }
    var i := 0;
    while i < |cues|
      invariant 0 <= i <= |cues|
      invariant Linked(host, guest, cfg, end) && Runs(cfg, st, acts, end)
      invariant (forall c <- cues :: !c.turn.Upset?) ==> forall a <- acts :: !a.Fault?
      invariant Followed(cfg, cues[..i], steps, trace) && trace[0] == st && trace[i] == end
    {
      ghost var more, st';
      var cue := cues[i];
      assert cue in cues;
      if cue.who.Host? {
        more, st' := TakeTurn(host, guest, cue.turn, game, cfg, end, Host);
      } else {
        more, st' := TakeTurn(guest, host, cue.turn, game, cfg, end, Guest);
      }
      RunsDid(cfg, st, acts, end, more, st');
      FollowedMore(cfg, cues, i, steps, trace, more, st');
      acts, end, steps, trace := acts + more, st', steps + [more], trace + [st'];
      i := i + 1;
    }
    assert cues[..i] == cues;
  }

  lemma FollowedMore(cfg: Config, cues: seq<Cue>, i: nat, steps: seq<seq<Action>>, trace: seq<Sys>, more: seq<Action>,
                     st': Sys)
    requires i < |cues| && Followed(cfg, cues[..i], steps, trace) && Told(cfg, trace[i], cues[i], more, st')
    ensures Followed(cfg, cues[..i + 1], steps + [more], trace + [st'])
  {
    hide Told;
    forall j | 0 <= j < i + 1
      ensures Told(cfg, (trace + [st'])[j], cues[..i + 1][j], (steps + [more])[j], (trace + [st'])[j + 1])
    {
      if j < i { assert Told(cfg, trace[j], cues[..i][j], steps[j], trace[j + 1]); }
    }
  }

  lemma RunsNone(cfg: Config, st: Sys)
    ensures Runs(cfg, st, [], st)
  {
  }

  /** THEOREM.  Two carts started from one state, any schedule without faults: no push is ever
      wanted or under way, and whenever the two 16-bit clocks read the same, the two state
      images are the same byte for byte. */
  method Match(d: Byte, image: Image, cues: seq<Cue>, game: Game) returns (host: Cart, guest: Cart)
    requires 1 <= d < LEAD && SumFits(ConfigOf(d, game)) && forall c <- cues :: !c.turn.Upset?
    ensures !host.con.pend && !guest.con.pend && !host.con.hold && !guest.con.hold
    ensures host.con.Tick16() == guest.con.Tick16() ==> host.con.sim == guest.con.sim
  {
    hide Reachable, Runs, Carries, Console.Shows, Init, Word;
    ghost var cfg := ConfigOf(d, game);
    ghost var st := Init(cfg, image, image);
    host := new Cart(0, d, image, cfg, Host, image, image);
    guest := new Cart(1, d, image, cfg, Guest, image, image);
    assert Reachable(cfg, st) by { ReachableInit(cfg, image, image); }
    ghost var acts, end, steps, trace := Play(host, guest, cues, game, cfg, st);
    NoFaultNoResync(cfg, image, acts, end);
    NoHold(cfg, image, acts, end);
    SkewBound(cfg, end);
    host.con.ClockShown(cfg, Host, end.host);
    guest.con.ClockShown(cfg, Guest, end.guest);
    if host.con.Tick16() == guest.con.Tick16() { SameWord(end.host.tick, end.guest.tick); }
  }

  lemma ReachableInit(cfg: Config, start: Image, other: Image)
    ensures Reachable(cfg, Init(cfg, start, other))
  {
    RunsNone(cfg, Init(cfg, start, other));
    hide Runs;
    var st := Init(cfg, start, other);
    assert Runs(cfg, Init(cfg, start, other), [], st);
  }

  lemma NoHold(cfg: Config, start: Image, acts: seq<Action>, st: Sys)
    requires Legal(cfg) && Runs(cfg, Init(cfg, start, start), acts, st) && forall a <- acts :: !a.Fault?
    ensures !st.host.hold && !st.guest.hold && |st.host.eras| == |st.guest.eras|
  {
    hide Core, Sums, Cover, Runs, Inv;
    InitInv(cfg, start, start);
    RunsCalm(cfg, Init(cfg, start, start), acts, st);
  }
}
