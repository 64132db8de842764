/** The inductive core: clocks, watermarks, rings and channels of a reachable state.
    The input delay must satisfy 1 <= d <= 15; see Delay for what happens outside. */
module Invariant {
  import opened Protocol
  import opened Channels

  predicate Legal(cfg: Config) { 1 <= cfg.d < LEAD }

  ghost predicate Local(cfg: Config, c: Con) {
    var era := Era0(c);
    && |c.books| == |c.eras|
    && era.base <= c.tick <= c.wm + 1
    && era.base + cfg.d - 1 <= c.wm
    && (forall k <- era.sent :: era.base + cfg.d <= k < Next(cfg, c))
    && (forall k <- c.remote :: era.base + cfg.d <= k <= c.wm)
  }

  /** Epochs the guest has not entered yet were short, and started near its clock. */
  ghost predicate Pace(d: int, eras: seq<Era>, g: nat, next: int) {
    var h := |eras| - 1;
    && (g < h ==> eras[g + 1].base <= next + LEAD)
    && (forall e :: g < e < h ==> eras[e + 1].base <= eras[e].base + LEAD + d)
    && (forall e :: g < e <= h ==> eras[h].base - eras[e].base <= DRIFT * (h - e))
  }

  ghost predicate Core(cfg: Config, st: Sys) {
    && Local(cfg, st.host) && Local(cfg, st.guest)
    && |st.guest.eras| <= |st.host.eras|
    && (forall e :: 0 <= e < |st.guest.eras| ==> st.guest.eras[e].base == st.host.eras[e].base)
    && (forall e :: 0 <= e < |st.host.eras| ==> st.host.eras[e].base <= Era0(st.host).base)
    && (st.guest.hold ==>
          |st.guest.eras| < |st.host.eras| && st.guest.resume == st.host.eras[|st.guest.eras|].base)
    && Pace(cfg.d, st.host.eras, |st.guest.eras| - 1, Next(cfg, st.guest))
    && ToGuest(cfg.d, st.host.eras, Next(cfg, st.host), RxOf(st.guest), st.toGuest)
    && ToHost(cfg.d, st.guest.eras, Next(cfg, st.guest), Era0(st.host).base, RxOf(st.host), st.toHost)
    && (forall m <- st.toHost :: m.frame.Input? ==> m.frame.tick < Next(cfg, st.guest))
    && (forall m <- st.toHost :: m.frame.Crc? ==> m.frame.tick < st.guest.tick)
  }

  lemma InitCore(cfg: Config, start: Image, guestSim: Image)
    requires Legal(cfg)
    ensures Core(cfg, Init(cfg, start, guestSim))
  {
  }

  /** How far a watermark can be ahead of its sender. */
  lemma Watermarks(cfg: Config, st: Sys)
    requires Core(cfg, st)
    ensures |st.guest.eras| == |st.host.eras| ==>
      st.guest.wm < Next(cfg, st.host) && st.host.wm < Next(cfg, st.guest)
    ensures |st.guest.eras| < |st.host.eras| ==>
      && st.guest.wm < st.host.eras[|st.guest.eras|].base - LEAD + cfg.d
      && st.host.wm == Era0(st.host).base + cfg.d - 1
  {
    GuestRing(cfg.d, st.host.eras, Next(cfg, st.host), RxOf(st.guest), st.toGuest);
    HostRing(cfg.d, st.guest.eras, Next(cfg, st.guest), Era0(st.host).base, RxOf(st.host), st.toHost);
  }

  lemma PaceLater(d: int, eras: seq<Era>, g: nat, next: int, next': int)
    requires Pace(d, eras, g, next) && next <= next'
    ensures Pace(d, eras, g, next')
  {
  }

  /** Pace is about bases only. */
  lemma PaceSame(d: int, eras: seq<Era>, eras': seq<Era>, g: nat, next: int)
    requires Pace(d, eras, g, next) && |eras'| == |eras| && g < |eras|
    requires forall e :: 0 <= e < |eras| ==> eras'[e].base == eras[e].base
    ensures Pace(d, eras', g, next)
  {
  }

  /** The guest enters the next epoch. */
  lemma PaceEnter(d: int, eras: seq<Era>, g: nat, next: int, next': int)
    requires Pace(d, eras, g, next) && g < |eras| - 1 && next' >= eras[g + 1].base + d
    ensures Pace(d, eras, g + 1, next')
  {
  }

  /** The host opens an epoch LEAD ticks after its clock. */
  lemma PacePush(d: int, eras: seq<Era>, g: nat, next: int, era: Era)
    requires Pace(d, eras, g, next) && g <= |eras| - 1 && 0 <= d < LEAD
    requires if g == |eras| - 1 then era.base <= next + LEAD else era.base <= eras[|eras| - 1].base + d + LEAD
    ensures Pace(d, eras + [era], g, next)
  {
  }

  /** The host's watermark is never far beyond what the guest captures next. */
  lemma NearEnough(d: int, eras: seq<Era>, g: nat, next: int)
    requires Pace(d, eras, g, next) && g < |eras| - 1 && 0 <= d < LEAD
    ensures eras[|eras| - 1].base + d <= next + DRIFT * (|eras| - 1 - g)
  {
    assert g < g + 1 <= |eras| - 1;
  }

  lemma HostNeverHolds(cfg: Config, st: Sys)
    requires Core(cfg, st)
    ensures !st.host.hold
  {
    hide ToGuest, Pace;
  }

  // ---------------------------------------------------------------- delivery

  /** What a rebase leaves, field by field. */
  lemma RebaseFields(cfg: Config, c: Con)
    ensures
      var r := Rebase(cfg, c);
      && r.tick == c.resume && r.wm == c.resume + cfg.d - 1 && r.remote == map[] && !r.hold && r.pc == c.pc
      && r.eras == c.eras + [Era(c.resume, c.sim, map[])] && |r.books| == |c.books| + 1
      && Epoch(r) == Epoch(c) + 1 && Era0(r) == Era(c.resume, c.sim, map[]) && r.applied == 0
      && (|c.books| == |c.eras| && cfg.d >= 1 ==> Local(cfg, r))
      && RxOf(r) == Rx(Epoch(c) + 1, -1, c.resume + cfg.d - 1, map[])
      && Next(cfg, r) == c.resume + cfg.d + (if c.pc.Gate? then 1 else 0)
  {
  }

  lemma DeliverEndCore(cfg: Config, st: Sys)
    requires Legal(cfg) && Core(cfg, st) && st.toGuest != [] && st.toGuest[0].frame.End?
    ensures Core(cfg, Deliver(cfg, st, Guest))
  {
    hide ToGuest, ToHost, Pace, Splice, Rebase;
    var g, h := st.guest, st.host;
    var g' := Deliver(cfg, st, Guest).guest;
    RebaseFields(cfg, g);
    Watermarks(cfg, st);
    GuestStep(cfg.d, h.eras, Next(cfg, h), RxOf(g), st.toGuest);
    assert st.toHost + [] == st.toHost;
    PaceEnter(cfg.d, h.eras, |g.eras| - 1, Next(cfg, g), Next(cfg, g'));
    GuestRebased(cfg.d, g.eras, Next(cfg, g), Era(g.resume, g.sim, map[]), Next(cfg, g'), Era0(h).base, RxOf(h),
      st.toHost);
  }

  lemma DeliverGuestCore(cfg: Config, st: Sys)
    requires Legal(cfg) && Core(cfg, st) && st.toGuest != []
    ensures Core(cfg, Deliver(cfg, st, Guest))
  {
    hide ToGuest, ToHost, Pace, Splice, Rebase, ChunkLen;
    var g, h := st.guest, st.host;
    var f := st.toGuest[0].frame;
    if f.End? {
      DeliverEndCore(cfg, st);
      return;
    }
    GuestStep(cfg.d, h.eras, Next(cfg, h), RxOf(g), st.toGuest);
    var (g', out) := OnFrame(cfg, Guest, g, f);
    if out != [] {
      HostGetsNote(cfg.d, g.eras, Next(cfg, g), Era0(h).base, RxOf(h), st.toHost, out[0]);
    } else {
      assert st.toHost + out == st.toHost;
    }
  }

  lemma DeliverHostCore(cfg: Config, st: Sys)
    requires Legal(cfg) && Core(cfg, st) && st.toHost != []
    ensures Core(cfg, Deliver(cfg, st, Host))
  {
    hide ToGuest, ToHost, Pace;
    assert st.toGuest + [] == st.toGuest;
    HostStep(cfg.d, st.guest.eras, Next(cfg, st.guest), Era0(st.host).base, RxOf(st.host), st.toHost);
  }

  lemma {:induction false} PumpCore(cfg: Config, st: Sys, s: Seat, k: nat)
    requires Legal(cfg) && Core(cfg, st)
    ensures Core(cfg, Pump(cfg, st, s, k))
    decreases k
  {
    hide ToGuest, ToHost, Pace, OnFrame;
    if k != 0 && Inbox(st, s) != [] {
      if s.Host? { DeliverHostCore(cfg, st); } else { DeliverGuestCore(cfg, st); }
      PumpCore(cfg, Deliver(cfg, st, s), s, k - 1);
    }
  }

  lemma SetPcCore(cfg: Config, st: Sys, s: Seat)
    requires Core(cfg, st) && Me(st, s).pc.Entry?
    ensures Core(cfg, SetPc(st, s, Ready))
  {
    hide ToGuest, ToHost, Pace;
    assert Inbox(st, Peer(s)) + [] == Inbox(st, Peer(s));
  }

  // ---------------------------------------------------------------- capture

  lemma HostCaptureCore(cfg: Config, st: Sys, cell: Cell)
    requires Legal(cfg) && Core(cfg, st) && Enabled(cfg, st, Capture(Host, cell))
    ensures Core(cfg, Apply(cfg, st, Capture(Host, cell)))
  {
    hide ToGuest, ToHost, Pace;
    var h' := Apply(cfg, st, Capture(Host, cell)).host;
    PaceSame(cfg.d, st.host.eras, h'.eras, |st.guest.eras| - 1, Next(cfg, st.guest));
    GuestGetsInput(cfg.d, st.host.eras, Next(cfg, st.host), cell, RxOf(st.guest), st.toGuest);
  }

  /** What the guest sends next is behind a host that has moved on, but not by much. */
  lemma GuestSends(cfg: Config, st: Sys)
    requires Legal(cfg) && Core(cfg, st) && |st.guest.eras| < |st.host.eras|
    ensures
      var b := Era0(st.host).base;
      && st.guest.tick + cfg.d < b + cfg.d
      && b + cfg.d <= Next(cfg, st.guest) + DRIFT * (|st.host.eras| - |st.guest.eras|)
  {
    hide ToGuest, ToHost, Pace;
    Watermarks(cfg, st);
    NearEnough(cfg.d, st.host.eras, |st.guest.eras| - 1, Next(cfg, st.guest));
  }

  lemma CaptureLocal(cfg: Config, c: Con, cell: Cell)
    requires Local(cfg, c) && c.pc.Ready? && cfg.d >= 0
    ensures
      var t := c.tick + cfg.d;
      var c' := c.(pc := Gate, eras := c.eras[|c.eras| - 1 := Era0(c).(sent := Era0(c).sent[t := cell])]);
      && Local(cfg, c') && Next(cfg, c') == Next(cfg, c) + 1 && Next(cfg, c) == t && RxOf(c') == RxOf(c)
      && (forall e :: 0 <= e < |c.eras| ==> c'.eras[e].base == c.eras[e].base)
  {
  }

  lemma GuestCaptureCore(cfg: Config, st: Sys, cell: Cell)
    requires Legal(cfg) && Core(cfg, st) && Enabled(cfg, st, Capture(Guest, cell))
    ensures Core(cfg, Apply(cfg, st, Capture(Guest, cell)))
  {
    hide ToGuest, ToHost, Pace, Pump, RunPass, Local;
    var g := st.guest;
    CaptureLocal(cfg, g, cell);
    if |g.eras| < |st.host.eras| { GuestSends(cfg, st); }
    PaceLater(cfg.d, st.host.eras, |g.eras| - 1, Next(cfg, g), Next(cfg, g) + 1);
    HostGetsInput(cfg.d, g.eras, Next(cfg, g), cell, Era0(st.host).base, RxOf(st.host), st.toHost);
  }

  // ---------------------------------------------------------------- running a tick

  /** A host pass is its tick, then its look at a wanted push. */
  function AfterTick(cfg: Config, st: Sys, s: Seat): Sys {
    var (c, out) := RunTick(cfg, s, Me(st, s));
    Put(st, s, c, Inbox(st, s), out)
  }

  function AfterPending(cfg: Config, st: Sys, s: Seat, quiet: bool): Sys {
    var (c, out) := Pending(cfg, s, Me(st, s), quiet);
    Put(st, s, c, Inbox(st, s), out)
  }

  lemma GuestTickCore(cfg: Config, st: Sys)
    requires Legal(cfg) && Core(cfg, st) && st.guest.pc.Gate? && st.guest.wm >= st.guest.tick
    ensures Core(cfg, AfterTick(cfg, st, Guest))
  {
    hide ToGuest, ToHost, Pace, BookAfter, SimAfter, Record;
    var g := st.guest;
    if |g.eras| < |st.host.eras| { GuestSends(cfg, st); }
    var (g', out) := RunTick(cfg, Guest, g);
    if out == [] {
      assert st.toHost + out == st.toHost;
    } else {
      HostGetsNote(cfg.d, g.eras, Next(cfg, g), Era0(st.host).base, RxOf(st.host), st.toHost, out[0]);
    }
  }

  /** The host's tick itself, before the pass looks at a wanted push. */
  lemma HostTickCore(cfg: Config, st: Sys)
    requires Legal(cfg) && Core(cfg, st) && st.host.pc.Gate? && st.host.wm >= st.host.tick
    ensures Core(cfg, AfterTick(cfg, st, Host))
  {
    hide ToGuest, ToHost, Pace;
    var h := st.host;
    var (h', out) := RunTick(cfg, Host, h);
    if out == [] {
      assert st.toGuest + out == st.toGuest;
    } else {
      GuestGetsCrc(cfg.d, h.eras, Next(cfg, h), out[0].frame.tick, out[0].frame.sum, RxOf(st.guest), st.toGuest);
    }
  }

  /** A push, taken between passes. */
  lemma PushCore(cfg: Config, st: Sys)
    requires Legal(cfg) && Core(cfg, st) && st.host.pc.Entry?
    ensures
      var (c, out) := Push(cfg, st.host);
      Core(cfg, Put(st, Host, c, st.toHost, out))
  {
    hide ToGuest, ToHost, Pace, PushMsgs, Rebase;
    var h, g := st.host, st.guest;
    Watermarks(cfg, st);
    var r := h.tick + LEAD;
    RebaseFields(cfg, h.(hold := true, resume := r, records := map[], tainted := false));
    GuestGetsPush(cfg.d, h.eras, Next(cfg, h), r, h.sim, RxOf(g), st.toGuest);
    assert g.tick <= h.tick + cfg.d;
    PacePush(cfg.d, h.eras, |g.eras| - 1, Next(cfg, g), Era(r, h.sim, map[]));
    HostRebased(cfg.d, g.eras, Next(cfg, g), Era0(h).base, h.wm, RxOf(h), r, st.toHost);
  }

  lemma PendingCore(cfg: Config, st: Sys, quiet: bool)
    requires Legal(cfg) && Core(cfg, st) && st.host.pc.Entry?
    ensures Core(cfg, AfterPending(cfg, st, Host, quiet))
  {
    hide ToGuest, ToHost, Pace, Push;
    assert st.toGuest + [] == st.toGuest;
    var w := Put(st, Host, st.host.(waited := st.host.waited + 1), st.toHost, []);
    assert Core(cfg, w);
    PushCore(cfg, w);
  }

  lemma TickSplits(cfg: Config, st: Sys, s: Seat, quiet: bool)
    requires Enabled(cfg, st, Tick(s, quiet))
    ensures Apply(cfg, st, Tick(s, quiet)) == AfterPending(cfg, AfterTick(cfg, st, s), s, quiet)
  {
    var (c1, out1) := RunTick(cfg, s, Me(st, s));
    var (c2, out2) := Pending(cfg, s, c1, quiet);
    assert Inbox(st, Peer(s)) + (out1 + out2) == Inbox(st, Peer(s)) + out1 + out2;
  }

  lemma TickCore(cfg: Config, st: Sys, s: Seat, quiet: bool)
    requires Legal(cfg) && Core(cfg, st) && Enabled(cfg, st, Tick(s, quiet))
    ensures Core(cfg, Apply(cfg, st, Tick(s, quiet)))
  {
    hide ToGuest, ToHost, Pace;
    TickSplits(cfg, st, s, quiet);
    if s.Guest? {
      GuestTickCore(cfg, st);
      GuestPendingIdle(cfg, AfterTick(cfg, st, Guest), quiet);
    } else {
      HostTickCore(cfg, st);
      PendingCore(cfg, AfterTick(cfg, st, Host), quiet);
    }
  }

  lemma GuestPendingIdle(cfg: Config, st: Sys, quiet: bool)
    ensures AfterPending(cfg, st, Guest, quiet) == st
  {
    assert st.toHost + [] == st.toHost;
  }

  lemma PassStartCore(cfg: Config, st: Sys, s: Seat, k: nat)
    requires Legal(cfg) && Core(cfg, st) && Enabled(cfg, st, PassStart(s, k))
    ensures Core(cfg, Apply(cfg, st, PassStart(s, k)))
  {
    hide ToGuest, ToHost, Pace;
    PumpCore(cfg, st, s, k);
    PumpPc(cfg, st, s, k);
    SetPcCore(cfg, Pump(cfg, st, s, k), s);
  }

  lemma OutsideCore(cfg: Config, st: Sys, a: Action)
    requires Core(cfg, st) && Enabled(cfg, st, a) && (a.Fault? || a.Drop?)
    ensures Core(cfg, Apply(cfg, st, a))
  {
    hide ToGuest, ToHost, Pace;
    assert Inbox(st, Peer(a.seat)) + [] == Inbox(st, Peer(a.seat));
  }

  lemma ApplyCore(cfg: Config, st: Sys, a: Action)
    requires Legal(cfg) && Core(cfg, st) && Enabled(cfg, st, a)
    ensures Core(cfg, Apply(cfg, st, a))
  {
    hide Core, Pump, RunPass, CanPump;
    match a
    case Wait(s, k) => PumpCore(cfg, st, s, k);
    case PassStart(s, k) => PassStartCore(cfg, st, s, k);
    case Capture(s, cell) => if s.Host? { HostCaptureCore(cfg, st, cell); } else { GuestCaptureCore(cfg, st, cell); }
    case Stall(s, k) => PumpCore(cfg, st, s, k);
    case Tick(s, quiet) => TickCore(cfg, st, s, quiet);
    case Fault(_, _) => OutsideCore(cfg, st, a);
    case Drop(_) => OutsideCore(cfg, st, a);
  }

  lemma DeliverPc(cfg: Config, st: Sys, s: Seat)
    requires Inbox(st, s) != []
    ensures Deliver(cfg, st, s).host.pc == st.host.pc && Deliver(cfg, st, s).guest.pc == st.guest.pc
  {
    hide OnFrame;
    OnFramePc(cfg, s, Me(st, s), Inbox(st, s)[0].frame);
  }

  lemma OnFramePc(cfg: Config, s: Seat, c: Con, f: Frame)
    ensures OnFrame(cfg, s, c, f).0.pc == c.pc
  {
    hide Splice;
  }

  /** A pump moves neither program counter. */
  lemma {:induction false} PumpPc(cfg: Config, st: Sys, s: Seat, k: nat)
    ensures Pump(cfg, st, s, k).host.pc == st.host.pc
    ensures Pump(cfg, st, s, k).guest.pc == st.guest.pc
    decreases k
  {
    hide OnFrame, Put;
    if k != 0 && Inbox(st, s) != [] {
      DeliverPc(cfg, st, s);
      PumpPc(cfg, Deliver(cfg, st, s), s, k - 1);
    }
  }
}
