/** No deadlock: as long as neither side is dropped, some console can move, and every
    target tick is reached. */
module Progress {
  import opened Protocol
  import opened Channels
  import opened Invariant
  import opened Agreement
  import opened Safety

  /** Captures leave no hole, except possibly the first tick after a rebase inside the gate. */
  ghost predicate Filled(cfg: Config, c: Con) {
    NoHole(Era0(c).sent, Era0(c).base + cfg.d, Next(cfg, c))
  }

  ghost predicate NoHole(sent: map<int, Cell>, lo: int, hi: int) {
    forall k :: lo < k < hi ==> k in sent
  }

  /** In the epochs the host has left, it captured every tick up to its last. */
  ghost predicate PastFilled(d: int, eras: seq<Era>) {
    forall e :: 0 <= e < |eras| - 1 ==> NoHole(eras[e].sent, eras[e].base + d, eras[e + 1].base - LEAD + d)
  }

  ghost predicate Live(cfg: Config, st: Sys) {
    Filled(cfg, st.host) && Filled(cfg, st.guest) && PastFilled(cfg.d, st.host.eras)
  }

  lemma OnFrameFilled(cfg: Config, s: Seat, c: Con, f: Frame)
    requires Filled(cfg, c)
    ensures Filled(cfg, OnFrame(cfg, s, c, f).0)
    ensures !c.hold ==> OnFrame(cfg, s, c, f).0.eras == c.eras
  {
    hide Splice;
  }

  lemma {:induction false} PumpLive(cfg: Config, st: Sys, s: Seat, k: nat)
    requires Legal(cfg) && Core(cfg, st) && Live(cfg, st)
    ensures Live(cfg, Pump(cfg, st, s, k))
    decreases k
  {
    hide Core, OnFrame, Filled, PastFilled;
    if k != 0 && Inbox(st, s) != [] {
      HostNeverHolds(cfg, st);
      OnFrameFilled(cfg, s, Me(st, s), Inbox(st, s)[0].frame);
      if s.Host? { DeliverHostCore(cfg, st); } else { DeliverGuestCore(cfg, st); }
      PumpLive(cfg, Deliver(cfg, st, s), s, k - 1);
    }
  }

  lemma RunPassFilled(cfg: Config, s: Seat, c: Con, quiet: bool)
    requires Filled(cfg, c) && c.pc.Gate?
    ensures Filled(cfg, RunPass(cfg, s, c, quiet).0)
  {
    hide BookAfter, SimAfter, Record, PushMsgs;
  }

  lemma RunPassPast(cfg: Config, c: Con, quiet: bool)
    requires Filled(cfg, c) && c.pc.Gate? && PastFilled(cfg.d, c.eras)
    ensures PastFilled(cfg.d, RunPass(cfg, Host, c, quiet).0.eras)
  {
    hide BookAfter, SimAfter, Record, PushMsgs, NoHole;
  }

  lemma CapturePast(d: int, eras: Eras, era: Era)
    requires PastFilled(d, eras) && era.base == eras[|eras| - 1].base
    ensures PastFilled(d, eras[|eras| - 1 := era])
  {
  }

  lemma ApplyLive(cfg: Config, st: Sys, a: Action)
    requires Legal(cfg) && Core(cfg, st) && Live(cfg, st) && Enabled(cfg, st, a)
    ensures Live(cfg, Apply(cfg, st, a))
  {
    hide Core, Pump, RunPass, CanPump, PastFilled;
    if a.Wait? || a.PassStart? || a.Stall? {
      PumpLive(cfg, st, a.seat, a.frames);
      PumpPc(cfg, st, a.seat, a.frames);
    } else if a.Tick? {
      RunPassFilled(cfg, a.seat, Me(st, a.seat), a.quiet);
      if a.seat.Host? { RunPassPast(cfg, st.host, a.quiet); }
    } else if a.Capture? {
      CapturePast(cfg.d, st.host.eras, Era0(Apply(cfg, st, a).host));
    }
  }

  lemma {:induction false} RunsLive(cfg: Config, st: Sys, acts: seq<Action>, end: Sys)
    requires Legal(cfg) && Core(cfg, st) && Live(cfg, st) && Runs(cfg, st, acts, end)
    ensures Live(cfg, end)
    decreases |acts|
  {
    hide Core, Live, Apply, Enabled;
    if acts != [] {
      ApplyLive(cfg, st, acts[0]);
      ApplyCore(cfg, st, acts[0]);
      RunsLive(cfg, Apply(cfg, st, acts[0]), acts[1..], end);
    }
  }

  lemma ReachableLive(cfg: Config, st: Sys)
    requires Legal(cfg) && Reachable(cfg, st)
    ensures Core(cfg, st) && Logs(cfg, st) && Live(cfg, st)
  {
    hide Runs, Core, Logs, Agreement.LogTrue;
    ReachableInv(cfg, st);
    var start: Image, guestSim: Image, acts: seq<Action> :| Runs(cfg, Init(cfg, start, guestSim), acts, st);
    InitCore(cfg, start, guestSim);
    RunsLive(cfg, Init(cfg, start, guestSim), acts, st);
  }

  // ---------------------------------------------------------------- who can move

  /** The console with the smaller tick; on a tie, one that is not waiting at its gate. */
  function Laggard(st: Sys): Seat {
    if st.guest.tick < st.host.tick || (st.guest.tick == st.host.tick && !st.guest.pc.Gate?) then Guest else Host
  }

  predicate Stuck(c: Con) { (c.pc.Entry? && c.hold) || (c.pc.Gate? && c.wm < c.tick) }

  /** With everything in flight delivered, the slower console's gate is open and it is in
      no hold. */
  lemma LaggardFree(cfg: Config, st: Sys)
    requires Legal(cfg) && Core(cfg, st) && Live(cfg, st)
    requires Inbox(st, Laggard(st)) == []
    ensures !Stuck(Me(st, Laggard(st)))
  {
    var s := Laggard(st);
    var c, p := Me(st, s), Me(st, Peer(s));
    Watermarks(cfg, st);
    if Next(cfg, p) - 1 > Era0(p).base + cfg.d {
      assert Next(cfg, p) - 1 in Era0(p).sent;
    }
  }

  /** What the laggard does next. */
  function Move(st: Sys, s: Seat): Action {
    var c := Me(st, s);
    match c.pc
    case Entry => if c.hold then Wait(s, 1) else PassStart(s, 0)
    case Ready => Capture(s, IDLE)
    case Gate => if c.wm < c.tick then Stall(s, 1) else Tick(s, false)
  }

  function Left(target: int, c: Con): nat { if c.tick < target then target - c.tick else 0 }
  function Phase(c: Con): nat { match c.pc case Entry => 2 case Ready => 1 case Gate => 0 }

  predicate Undropped(st: Sys) { !st.host.dropped && !st.guest.dropped }

  function TicksLeft(target: int, st: Sys): nat { Left(target, st.host) + Left(target, st.guest) }
  function Phases(st: Sys): nat { Phase(st.host) + Phase(st.guest) }
  function InFlight(st: Sys): nat { |st.toHost| + 2 * |st.toGuest| }

  /** Lexicographic progress. */
  predicate Closer(target: int, st': Sys, st: Sys) {
    || TicksLeft(target, st') < TicksLeft(target, st)
    || (TicksLeft(target, st') == TicksLeft(target, st) && Phases(st') < Phases(st))
    || (TicksLeft(target, st') == TicksLeft(target, st) && Phases(st') == Phases(st) && InFlight(st') < InFlight(st))
  }

  /** Delivering one frame to either console. */
  lemma DeliverCloser(cfg: Config, target: int, st: Sys, s: Seat)
    requires Legal(cfg) && Core(cfg, st) && Inbox(st, s) != [] && Me(st, s).tick < target
    ensures Closer(target, Deliver(cfg, st, s), st)
    ensures Undropped(st) ==> Undropped(Deliver(cfg, st, s))
  {
    hide ToGuest, ToHost, Pace, Splice;
    if s.Guest? {
      Watermarks(cfg, st);
      GuestStep(cfg.d, st.host.eras, Next(cfg, st.host), RxOf(st.guest), st.toGuest);
      assert st.toGuest[0].frame.End? ==> st.guest.tick < st.guest.resume;
    } else {
      HostStep(cfg.d, st.guest.eras, Next(cfg, st.guest), Era0(st.host).base, RxOf(st.host), st.toHost);
    }
    hide Core;
    FrameCloser(cfg, target, s, Me(st, s), Inbox(st, s)[0].frame);
  }

  /** What a frame can do to a console's clock, and to what is in flight. */
  lemma FrameCloser(cfg: Config, target: int, s: Seat, c: Con, f: Frame)
    ensures
      var (c', out) := OnFrame(cfg, s, c, f);
      && c'.pc == c.pc && c'.dropped == c.dropped && |out| <= (if s.Guest? then 1 else 0)
      && c'.tick == (if f.End? && c.hold then c.resume else c.tick)
  {
    hide Splice;
  }

  lemma TickCloser(cfg: Config, target: int, st: Sys, s: Seat)
    requires Enabled(cfg, st, Tick(s, false)) && Me(st, s).tick < target && Undropped(st)
    ensures
      var st' := Apply(cfg, st, Tick(s, false));
      TicksLeft(target, st') < TicksLeft(target, st) && Undropped(st')
  {
    hide BookAfter, SimAfter, Record, PushMsgs, Pump, CanPump;
  }

  /** The laggard has a move, and it brings both consoles closer to any tick the slower has
      not reached. */
  lemma LaggardMoves(cfg: Config, target: int, st: Sys)
    requires Legal(cfg) && Core(cfg, st) && Live(cfg, st) && Undropped(st)
    requires st.host.tick < target || st.guest.tick < target
    ensures
      var a := Move(st, Laggard(st));
      Enabled(cfg, st, a) && Undropped(Apply(cfg, st, a)) && Closer(target, Apply(cfg, st, a), st)
  {
    hide ToGuest, ToHost, Pace, Core, Live, RunPass, Deliver;
    var s := Laggard(st);
    var c := Me(st, s);
    if Stuck(c) {
      if Inbox(st, s) == [] { LaggardFree(cfg, st); }
      assert Readable(Inbox(st, s)[..1]);
      DeliverCloser(cfg, target, st, s);
      assert Pump(cfg, st, s, 1) == Deliver(cfg, st, s);
    } else if c.pc.Gate? {
      TickCloser(cfg, target, st, s);
    } else if c.pc.Entry? {
      assert Inbox(st, s)[..0] == [];
      assert Pump(cfg, st, s, 0) == st;
    }
  }

  /** A finite run without faults or drops to any tick. */
  lemma {:induction false} RunOn(cfg: Config, target: int, st: Sys) returns (acts: seq<Action>, end: Sys)
    requires Legal(cfg) && Core(cfg, st) && Live(cfg, st) && Undropped(st)
    ensures Runs(cfg, st, acts, end) && end.host.tick >= target && end.guest.tick >= target
    ensures forall a <- acts :: !a.Fault? && !a.Drop?
    decreases TicksLeft(target, st), Phases(st), InFlight(st)
  {
    hide Core, Live, Apply, Enabled, Undropped;
    if st.host.tick >= target && st.guest.tick >= target {
      return [], st;
    }
    var a := Move(st, Laggard(st));
    LaggardMoves(cfg, target, st);
    ApplyCore(cfg, st, a);
    ApplyLive(cfg, st, a);
    var rest;
    rest, end := RunOn(cfg, target, Apply(cfg, st, a));
    acts := [a] + rest;
    assert acts[1..] == rest;
  }

  // ---------------------------------------------------------------- theorems

  /** THEOREM.  In every reachable state, with everything in flight to it delivered, the slower
      console is neither held nor stalled, also right after a rebase that left a gap. */
  lemma SlowerPasses(cfg: Config, st: Sys)
    requires Legal(cfg) && Reachable(cfg, st) && Inbox(st, Laggard(st)) == []
    ensures !Stuck(Me(st, Laggard(st)))
  {
    hide Core, Live, Reachable;
    ReachableLive(cfg, st);
    LaggardFree(cfg, st);
  }

  /** THEOREM.  No deadlock: in every reachable undropped state the slower console has a move
      that lowers a lexicographic measure of both consoles' distance to any target tick. */
  lemma NoDeadlock(cfg: Config, target: int, st: Sys)
    requires Legal(cfg) && Reachable(cfg, st) && Undropped(st)
    requires st.host.tick < target || st.guest.tick < target
    ensures
      var a := Move(st, Laggard(st));
      Enabled(cfg, st, a) && Undropped(Apply(cfg, st, a)) && Closer(target, Apply(cfg, st, a), st)
  {
    hide Core, Live, Reachable;
    ReachableLive(cfg, st);
    LaggardMoves(cfg, target, st);
  }

  /** THEOREM.  From every reachable undropped state every target tick is reached by both. */
  lemma EveryTickReached(cfg: Config, target: int, st: Sys)
    requires Legal(cfg) && Reachable(cfg, st) && Undropped(st)
    ensures exists acts: seq<Action>, end: Sys ::
      && Runs(cfg, st, acts, end) && end.host.tick >= target && end.guest.tick >= target
      && forall a <- acts :: !a.Fault? && !a.Drop?
  {
    hide Core, Live, Reachable, Runs;
    ReachableLive(cfg, st);
    var acts, end := RunOn(cfg, target, st);
  }
}
