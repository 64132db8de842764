/** From cells and bytes to the protocol: each thing a console's program does between two
    points of its pass is the protocol step it stands for, in every reachable state.  A pump
    is included from its socket read to its last handled frame. */
module Refinement {
  import opened Protocol
  import opened Invariant
  import opened Safety
  import opened Windows
  import opened Cells
  import opened Wire
  import opened Framing
  import opened PumpRam
  import opened ConsoleRam

  /** The checksum is a 16-bit word. */
  ghost predicate SumFits(cfg: Config) { forall img: Image :: 0 <= cfg.sum(img) < WORD }

  ghost predicate AllSendable(ms: seq<Msg>) { forall m <- ms :: Sendable(m.frame) }

  /** The bytes held and on the wire are the frames in flight. */
  ghost predicate Carries(held: seq<Byte>, wire: seq<Byte>, st: Sys, s: Seat) {
    held + wire == Stream(SeatNo(Peer(s)), Inbox(st, s)) && Parse(held) == Parsed([], 0, held)
  }

  /** THEOREM.  A console that has handled START, with an empty accumulator and an idle socket,
      is the protocol's console at the beginning. */
  method Boot(me: Byte, d: Byte, image: Image, ghost cfg: Config, ghost s: Seat, ghost start: Image, ghost other: Image)
    returns (con: Console, r: Receiver)
    requires me == SeatNo(s) && d == cfg.d && image == if s.Host? then start else other
    ensures fresh(con) && fresh(r) && r.Valid() && fresh({con.wm, con.ring, con.kp, con.ownCrc}) &&
      fresh({r.rxacc, r.frmbuf})
    ensures {r, r.rxacc, r.frmbuf} !! {con, con.wm, con.ring, con.kp, con.ownCrc}
    ensures con.Shows(cfg, s, Me(Init(cfg, start, other), s)) && Carries(r.Contents(), [], Init(cfg, start, other), s)
  {
    con := new Console(image);
    con.Start(me, 2, d, cfg, s, start);
    r := new Receiver();
  }

  // ---------------------------------------------------------------- what is on the wire

  lemma {:induction false} ChunksSendable(epoch: nat, img: Image, pos: nat)
    requires pos <= IMAGE
    ensures AllSendable(Chunks(epoch, img, pos))
    decreases IMAGE - pos
  {
    if pos < IMAGE {
      var n := if IMAGE - pos < CHUNK then IMAGE - pos else CHUNK;
      ChunksSendable(epoch, img, pos + n);
    }
  }

  lemma RunPassSends(cfg: Config, s: Seat, c: Con, quiet: bool)
    requires SumFits(cfg)
    ensures AllSendable(RunPass(cfg, s, c, quiet).1)
  {
    hide BookAfter, Record, Rebase, Chunks, SimAfter;
    var (c1, out1) := RunTick(cfg, s, c);
    ChunksSendable(Epoch(c1), c1.sim, 0);
  }

  lemma FrameSends(cfg: Config, s: Seat, c: Con, f: Frame)
    ensures AllSendable(OnFrame(cfg, s, c, f).1)
  {
    hide Splice, Rebase;
  }

  lemma {:induction false} PumpSends(cfg: Config, st: Sys, s: Seat, k: nat)
    requires AllSendable(st.toHost) && AllSendable(st.toGuest)
    ensures AllSendable(Pump(cfg, st, s, k).toHost) && AllSendable(Pump(cfg, st, s, k).toGuest)
    decreases k
  {
    hide OnFrame;
    if k != 0 && Inbox(st, s) != [] {
      FrameSends(cfg, s, Me(st, s), Inbox(st, s)[0].frame);
      PumpSends(cfg, Deliver(cfg, st, s), s, k - 1);
    }
  }

  lemma ApplySends(cfg: Config, st: Sys, a: Action)
    requires SumFits(cfg) && Enabled(cfg, st, a) && AllSendable(st.toHost) && AllSendable(st.toGuest)
    ensures AllSendable(Apply(cfg, st, a).toHost) && AllSendable(Apply(cfg, st, a).toGuest)
  {
    hide Pump, RunPass, CanPump;
    if a.Wait? || a.PassStart? || a.Stall? {
      PumpSends(cfg, st, a.seat, a.frames);
    } else if a.Tick? {
      RunPassSends(cfg, a.seat, Me(st, a.seat), a.quiet);
    }
  }

  lemma {:induction false} RunsSends(cfg: Config, st: Sys, acts: seq<Action>, end: Sys)
    requires SumFits(cfg) && Runs(cfg, st, acts, end) && AllSendable(st.toHost) && AllSendable(st.toGuest)
    ensures AllSendable(end.toHost) && AllSendable(end.toGuest)
    decreases |acts|
  {
    hide Apply, Enabled;
    if acts != [] {
      ApplySends(cfg, st, acts[0]);
      RunsSends(cfg, Apply(cfg, st, acts[0]), acts[1..], end);
    }
  }

  lemma ReachableSends(cfg: Config, st: Sys)
    requires SumFits(cfg) && Reachable(cfg, st)
    ensures AllSendable(st.toHost) && AllSendable(st.toGuest)
  {
    hide Runs;
    var start: Image, guestSim: Image, acts: seq<Action> :| Runs(cfg, Init(cfg, start, guestSim), acts, st);
    RunsSends(cfg, Init(cfg, start, guestSim), acts, st);
  }

  // ---------------------------------------------------------------- pumps of reachable states

  lemma {:induction false} PumpSnoc(cfg: Config, st: Sys, s: Seat, k: nat)
    requires k < |Inbox(st, s)|
    ensures
      var mid := Pump(cfg, st, s, k);
      && Inbox(mid, s) == Inbox(st, s)[k..] && Inbox(mid, s) != []
      && Pump(cfg, st, s, k + 1) == Deliver(cfg, mid, s)
    decreases k
  {
    hide OnFrame;
    if k > 0 {
      var st1 := Deliver(cfg, st, s);
      assert Inbox(st1, s) == Inbox(st, s)[1..];
      PumpSnoc(cfg, st1, s, k - 1);
      assert Inbox(st, s)[1..][k - 1..] == Inbox(st, s)[k..];
    }
  }

  /** The three places a console pumps, as the action with no frames yet. */
  predicate Pumping(cfg: Config, st: Sys, s: Seat, kind: Action) {
    (kind.Wait? || kind.PassStart? || kind.Stall?) && kind.seat == s && kind.frames == 0 && Enabled(cfg, st, kind)
  }

  /** A pump's beginnings are pumps too. */
  lemma ReadablePrefix(ms: seq<Msg>, i: nat, k: nat)
    requires i <= k <= |ms| && Readable(ms[..k])
    ensures Readable(ms[..i])
  {
    if i > 0 {
      assert ms[..k][1..] == ms[..i][1..] + ms[i..k];
      TotalAppend(ms[..i][1..], ms[i..k]);
    }
  }

  /** Inside a pump the console still meets only frames its bytes can judge. */
  lemma MidPump(cfg: Config, st: Sys, s: Seat, kind: Action, i: nat, k: nat)
    requires Legal(cfg) && Reachable(cfg, st) && Pumping(cfg, st, s, kind) && CanPump(st, s, k) && i < k
    ensures
      var mid := Pump(cfg, st, s, i);
      && Close(cfg.d, Me(mid, s)) && Inbox(mid, s) != [] && NearFrame(cfg.d, Me(mid, s), Inbox(mid, s)[0].frame)
  {
    hide Reachable, Close, NearFrame, Pump;
    ReadablePrefix(Inbox(st, s), i, k);
    var a := kind.(frames := i);
    assert CanPump(st, s, i);
    ReachableStep(cfg, st, a);
    AlwaysInRange(cfg, Apply(cfg, st, a), s);
    PumpSnoc(cfg, st, s, i);
    var mid := Pump(cfg, st, s, i);
    if kind.PassStart? {
      assert Me(Apply(cfg, st, a), s) == Me(mid, s).(pc := Ready) && Inbox(Apply(cfg, st, a), s) == Inbox(mid, s);
      PcDoesNotMatter(cfg.d, Me(mid, s), Ready, Inbox(mid, s)[0].frame);
    }
  }

  lemma PcDoesNotMatter(d: int, c: Con, pc: Pc, f: Frame)
    ensures Close(d, c.(pc := pc)) <==> Close(d, c)
    ensures NearFrame(d, c.(pc := pc), f) <==> NearFrame(d, c, f)
  {
  }

  // ---------------------------------------------------------------- a pump

  lemma {:induction false} FramedAt(from: Byte, ms: seq<Msg>, i: nat)
    requires AllSendable(ms) && i < |ms|
    ensures |Framed(from, ms)| == |ms| && Framed(from, ms)[i] == Bytes(from, ms[i].frame)
  {
    FramedLength(from, ms);
    if i > 0 { FramedAt(from, ms[1..], i - 1); }
  }

  lemma {:induction false} FramedLength(from: Byte, ms: seq<Msg>)
    requires AllSendable(ms)
    ensures |Framed(from, ms)| == |ms|
  {
    if ms != [] { FramedLength(from, ms[1..]); }
  }

  lemma {:induction false} StreamSize(from: Byte, ms: seq<Msg>)
    requires from < 4 && AllSendable(ms)
    ensures |Stream(from, ms)| == TotalSize(ms)
  {
    if ms != [] {
      assert ms[0] in ms;
      BytesLegal(from, ms[0].frame);
      StreamSize(from, ms[1..]);
    }
  }

  /** How a read falls on the frames in flight. */
  lemma ReadFalls(from: Byte, ms: seq<Msg>, held: seq<Byte>, read: seq<Byte>, rest: seq<Byte>) returns (k: nat)
    requires from < 4 && AllSendable(ms) && held + read + rest == Stream(from, ms) && |read| <= READ_MAX
    requires Parse(held) == Parsed([], 0, held)
    ensures k <= |ms| && Readable(ms[..k])
    ensures Parse(held + read).frames == Framed(from, ms[..k]) && Parse(held + read).slips == 0
    ensures Parse(held + read).rest + rest == Stream(from, ms[k..])
  {
    hide Parse, Framed, Stream, Readable;
    assert held <= Stream(from, ms) && held + read <= Stream(from, ms);
    var j, k1 := PumpsAreReadable(from, ms, held, read);
    k := PrefixParses(from, ms, held + read);
    FramedLength(from, ms[..j]);
    FramedLength(from, ms[..k]);
    FramedLength(from, ms[..k1]);
    assert j == 0 && k == k1;
    assert ms[0..k] == ms[..k];
    StreamAppend(from, ms[..k], ms[k..]);
    assert ms == ms[..k] + ms[k..];
    StreamSize(from, ms[..k]);
    var n := TotalSize(ms[..k]);
    assert Stream(from, ms)[n..] == Stream(from, ms[k..]);
    assert (held + read + rest)[n..] == (held + read)[n..] + rest;
  }

  /** One extracted frame, handled. */
  method HandleFrame(con: Console, b: seq<Byte>, clamp: Image -> Image, ghost cfg: Config, ghost mid: Sys,
                     ghost s: Seat)
    returns (tx: seq<Byte>, ghost sent: seq<Msg>)
    requires con.Shows(cfg, s, Me(mid, s)) && clamp == cfg.clamp && Inbox(mid, s) != [] &&
      Sendable(Inbox(mid, s)[0].frame)
    requires Close(cfg.d, Me(mid, s)) && NearFrame(cfg.d, Me(mid, s), Inbox(mid, s)[0].frame)
    requires b == Bytes(SeatNo(Peer(s)), Inbox(mid, s)[0].frame)
    modifies con, con.wm, con.ring, con.kp, con.ownCrc
    ensures con.Shows(cfg, s, Me(Deliver(cfg, mid, s), s))
    ensures tx == Stream(SeatNo(s), sent) && Inbox(Deliver(cfg, mid, s), Peer(s)) == Inbox(mid, Peer(s)) + sent
  {
    ghost var c, f := Me(mid, s), Inbox(mid, s)[0].frame;
    con.ClockShown(cfg, s, c);
    ReadBytes(SeatNo(Peer(s)), con.seat, con.count, f);
    sent := OnFrame(cfg, s, c, f).1;
    hide Read, Bytes, OnFrame, NearFrame, Close;
    tx := con.Dispatch(b, clamp(con.sim), cfg, s, c, Some(f));
  }

  /** THEOREM.  SES_PUMP, from the read of n bytes to the last frame handled, is one pump of
      the protocol with a batch it allows. */
  method PumpOnce(r: Receiver, con: Console, wire: seq<Byte>, n: nat, clamp: Image -> Image,
                  ghost cfg: Config, ghost st: Sys, ghost s: Seat, ghost kind: Action)
    returns (tx: seq<Byte>, ghost k: nat, ghost sent: seq<Msg>)
    requires Legal(cfg) && SumFits(cfg) && Reachable(cfg, st) && Pumping(cfg, st, s, kind) && clamp == cfg.clamp
    requires con.Shows(cfg, s, Me(st, s)) && r.Valid() && n <= |wire| && n <= READ_MAX
    requires Carries(r.Contents(), wire, st, s)
    requires {r, r.rxacc, r.frmbuf} !! {con, con.wm, con.ring, con.kp, con.ownCrc}
    modifies r, r.rxacc, r.frmbuf, con, con.wm, con.ring, con.kp, con.ownCrc
    ensures CanPump(st, s, k) && Enabled(cfg, st, kind.(frames := k))
    ensures con.Shows(cfg, s, Me(Pump(cfg, st, s, k), s))
    ensures r.Valid() && Carries(r.Contents(), wire[n..], Pump(cfg, st, s, k), s)
    ensures r.slips == old(r.slips)
    ensures Inbox(Pump(cfg, st, s, k), Peer(s)) == Inbox(st, Peer(s)) + sent && tx == Stream(SeatNo(s), sent)
  {
    hide Reachable, Parse, Framed, Stream, Close, NearFrame, Enabled, CanPump, OnFrame, Pumping, Readable;
    ghost var from, ms := SeatNo(Peer(s)), Inbox(st, s);
    var read := wire[..n];
    assert r.Contents() + read + wire[n..] == r.Contents() + wire by { assert wire == read + wire[n..]; }
    ReachableSends(cfg, st);
    k := ReadFalls(from, ms, r.Contents(), read, wire[n..]);
    AllowedPump(cfg, st, s, kind, k);
    ghost var all := r.Contents() + read;
    ParseRests(r.Contents());
    ParseRests(all);
    var frames := r.Pump(read);
    label handling:
    tx, sent := HandleAll(con, frames, clamp, cfg, st, s, kind, k);
    assert unchanged@handling(r, r.rxacc);
    PumpInbox(cfg, st, s, k);
  }

  /** The frames of one pump, handled in order. */
  method HandleAll(con: Console, frames: seq<seq<Byte>>, clamp: Image -> Image,
                   ghost cfg: Config, ghost st: Sys, ghost s: Seat, ghost kind: Action, ghost k: nat)
    returns (tx: seq<Byte>, ghost sent: seq<Msg>)
    requires Legal(cfg) && Reachable(cfg, st) && Pumping(cfg, st, s, kind) && CanPump(st, s, k) && clamp == cfg.clamp
    requires con.Shows(cfg, s, Me(st, s)) && AllSendable(Inbox(st, s))
    requires frames == Framed(SeatNo(Peer(s)), Inbox(st, s)[..k])
    modifies con, con.wm, con.ring, con.kp, con.ownCrc
    ensures con.Shows(cfg, s, Me(Pump(cfg, st, s, k), s))
    ensures Inbox(Pump(cfg, st, s, k), Peer(s)) == Inbox(st, Peer(s)) + sent && tx == Stream(SeatNo(s), sent)
  {
    hide Reachable, Framed, Stream, Close, NearFrame, Pumping, Readable, Deliver, Pump, Bytes, Console.Shows;
    ghost var from, ms := SeatNo(Peer(s)), Inbox(st, s);
    FramedLength(from, ms[..k]);
    tx, sent := [], [];
    StreamNone(SeatNo(s));
    PumpNone(cfg, st, s);
    var i := 0;
    while i < |frames|
      invariant 0 <= i <= |frames| == k
      invariant con.Shows(cfg, s, Me(Pump(cfg, st, s, i), s))
      invariant Inbox(Pump(cfg, st, s, i), Peer(s)) == Inbox(st, Peer(s)) + sent && tx == Stream(SeatNo(s), sent)
    {
      MidPump(cfg, st, s, kind, i, k);
      PumpSnoc(cfg, st, s, i);
      FramedAt(from, ms[..k], i);
      ghost var mid := Pump(cfg, st, s, i);
      assert Inbox(mid, s)[0] == ms[i] && ms[i] in ms;
      var out;
      ghost var more;
      out, more := HandleFrame(con, frames[i], clamp, cfg, mid, s);
      StreamAppend(SeatNo(s), sent, more);
      tx, sent := tx + out, sent + more;
      i := i + 1;
    }
  }

  lemma AllowedPump(cfg: Config, st: Sys, s: Seat, kind: Action, k: nat)
    requires Pumping(cfg, st, s, kind) && k <= |Inbox(st, s)| && Readable(Inbox(st, s)[..k])
    ensures CanPump(st, s, k) && Enabled(cfg, st, kind.(frames := k))
  {
  }

  lemma StreamNone(from: Byte)
    ensures Stream(from, []) == []
  {
  }

  lemma PumpNone(cfg: Config, st: Sys, s: Seat)
    ensures Pump(cfg, st, s, 0) == st && Inbox(st, Peer(s)) + [] == Inbox(st, Peer(s))
  {
  }

  lemma PumpInbox(cfg: Config, st: Sys, s: Seat, k: nat)
    requires k <= |Inbox(st, s)|
    ensures Inbox(Pump(cfg, st, s, k), s) == Inbox(st, s)[k..]
  {
    hide OnFrame;
    if k > 0 {
      PumpSnoc(cfg, st, s, k - 1);
      assert Inbox(st, s)[k - 1..][1..] == Inbox(st, s)[k..];
    }
  }

  // ---------------------------------------------------------------- the rest of a pass

  /** THEOREM.  After its capture, a console waits exactly while the protocol's gate is shut,
      and a pass through the open gate is the protocol's tick: the same pads, the same new
      state, the same frames, the same decision to push. */
  method GateAndTick(con: Console, quiet: bool, step: (Image, Pads) -> Image, sum: Image -> int, clamp: Image -> Image,
                     ghost cfg: Config, ghost st: Sys, ghost s: Seat)
    returns (ran: bool, tx: seq<Byte>)
    requires Legal(cfg) && SumFits(cfg) && Reachable(cfg, st) && step == cfg.step && sum == cfg.sum &&
      clamp == cfg.clamp
    requires con.Shows(cfg, s, Me(st, s)) && Me(st, s).pc.Gate? && !Me(st, s).dropped
    modifies con, con.wm, con.ring, con.kp, con.ownCrc
    ensures ran <==> Enabled(cfg, st, Tick(s, quiet))
    ensures con.Shows(cfg, s, if ran then Me(Apply(cfg, st, Tick(s, quiet)), s) else Me(st, s))
    ensures tx == if ran then Stream(SeatNo(s), RunPass(cfg, s, Me(st, s), quiet).1) else []
  {
    hide Reachable, Close, NearFrame, Stream, RunTick, Pending, TickPads;
    ghost var c := Me(st, s);
    AlwaysInRange(cfg, st, s);
    var slack;
    ran, slack := con.GateOpen();
    con.GateRight(cfg, s, c);
    tx := [];
    if !ran {
      return;
    }
    var p := con.TickCells(cfg, s, c);
    con.ClockShown(cfg, s, c);
    var after := step(con.sim, p);
    var x := sum(after);
    SumBytes(x, Lo(x), Hi(x));
    var crc := con.FinishTick(after, Lo(x), Hi(x), cfg, s, c);
    ghost var c1 := RunTick(cfg, s, c).0;
    con.ClockShown(cfg, s, c1);
    TickKeepsPend(cfg, s, c);
    var push := con.LookAtPending(quiet, clamp(con.sim), cfg, s, c1);
    StreamAppend(SeatNo(s), RunTick(cfg, s, c).1, Pending(cfg, s, c1, quiet).1);
    tx := crc + push;
  }

  /** THEOREM.  The capture between the pump and the gate is the protocol's: the ring entry and
      the frame for tick T+d. */
  method CaptureAndSend(con: Console, cell: Cell, ghost cfg: Config, ghost st: Sys, ghost s: Seat)
    returns (tx: seq<Byte>)
    requires Legal(cfg) && Reachable(cfg, st) && con.Shows(cfg, s, Me(st, s)) && Enabled(cfg, st, Capture(s, cell))
    modifies con.ring, con.kp
    ensures con.Shows(cfg, s, Me(Apply(cfg, st, Capture(s, cell)), s))
    ensures Inbox(Apply(cfg, st, Capture(s, cell)), Peer(s)) ==
      Inbox(st, Peer(s)) + [Msg(Epoch(Me(st, s)), Input(Me(st, s).tick + cfg.d, cell))]
    ensures tx == Bytes(SeatNo(s), Input(Me(st, s).tick + cfg.d, cell))
  {
    hide Reachable, Close;
    AlwaysInRange(cfg, st, s);
    tx := con.Capture(cell.decoded, cell.keypad, cfg, s, Me(st, s));
  }

  lemma TickKeepsPend(cfg: Config, s: Seat, c: Con)
    ensures RunTick(cfg, s, c).0.pend == c.pend && RunTick(cfg, s, c).0.waited == c.waited
  {
  }
}
