/** Lockstep agreement: within an epoch, what one console executed is a prefix of what
    the other did, tick by tick and cell by cell. */
module Agreement {
  import opened Protocol
  import opened Channels
  import opened Invariant

  function Sent(c: Con, e: nat): map<int, Cell> { if e < |c.eras| then c.eras[e].sent else map[] }

  /** The pads of tick t of epoch e according to what the two consoles captured. */
  function Truth(st: Sys, e: nat, t: int): Pads {
    Pads(Lookup(Sent(st.host, e), t), Lookup(Sent(st.host, e), t - 1),
         Lookup(Sent(st.guest, e), t), Lookup(Sent(st.guest, e), t - 1))
  }

  ghost predicate LogTrue(st: Sys, c: Con) {
    && |c.books| == |c.eras|
    && |Book0(c).log| == c.tick - Era0(c).base
    && forall e, i :: 0 <= e < |c.books| && 0 <= i < |c.books[e].log| ==>
         c.books[e].log[i] == Exec(c.eras[e].base + i, Truth(st, e, c.eras[e].base + i))
  }

  /** How far the host may have run in the epochs the guest is in or has yet to enter. */
  ghost predicate HostAhead(cfg: Config, st: Sys) {
    var g := |st.guest.eras| - 1;
    && |st.guest.eras| <= |st.host.eras| == |st.host.books|
    && st.host.eras[g].base + |st.host.books[g].log| <= Next(cfg, st.guest)
    && forall e :: g < e < |st.host.books| ==> |st.host.books[e].log| <= cfg.d
  }

  ghost predicate Logs(cfg: Config, st: Sys) {
    LogTrue(st, st.host) && LogTrue(st, st.guest) && HostAhead(cfg, st)
  }

  lemma InitLogs(cfg: Config, start: Image, guestSim: Image)
    requires Legal(cfg)
    ensures Logs(cfg, Init(cfg, start, guestSim))
  {
  }

  /** Nothing the logs depend on has changed. */
  lemma SameLogs(cfg: Config, st: Sys, st': Sys)
    requires Logs(cfg, st)
    requires st'.host.eras == st.host.eras && st'.guest.eras == st.guest.eras
    requires st'.host.books == st.host.books && st'.guest.books == st.guest.books
    requires st'.host.tick == st.host.tick && st'.guest.tick == st.guest.tick
    requires Next(cfg, st'.guest) >= Next(cfg, st.guest)
    ensures Logs(cfg, st')
  {
  }

  /** A console opens a new era. */
  lemma NewEra(cfg: Config, st: Sys, st': Sys, s: Seat, era: Era)
    requires Logs(cfg, st) && Core(cfg, st) && era.sent == map[]
    requires Me(st', s).eras == Me(st, s).eras + [era] && Me(st', s).books == Me(st, s).books + [Book([], map[])]
    requires Me(st', s).tick == era.base
    requires Me(st', Peer(s)) == Me(st, Peer(s))
    requires s.Guest? ==> |st'.guest.eras| <= |st.host.eras| && era.base == st.host.eras[|st.guest.eras|].base
    requires Next(cfg, st'.guest) >= Next(cfg, st.guest) && cfg.d >= 0
    ensures Logs(cfg, st')
  {
    hide ToGuest, ToHost, Pace;
    assert forall e: nat, t :: Truth(st', e, t) == Truth(st, e, t) by {
      assert forall e: nat :: Sent(Me(st', s), e) == Sent(Me(st, s), e);
    }
  }

  lemma DeliverLogs(cfg: Config, st: Sys, s: Seat)
    requires Legal(cfg) && Core(cfg, st) && Logs(cfg, st) && Inbox(st, s) != []
    ensures Logs(cfg, Deliver(cfg, st, s))
  {
    hide ToGuest, ToHost, Pace, LogTrue, HostAhead;
    var st' := Deliver(cfg, st, s);
    var f := Inbox(st, s)[0].frame;
    if s.Host? {
      HostStep(cfg.d, st.guest.eras, Next(cfg, st.guest), Era0(st.host).base, RxOf(st.host), st.toHost);
      SameLogs(cfg, st, st');
    } else {
      GuestStep(cfg.d, st.host.eras, Next(cfg, st.host), RxOf(st.guest), st.toGuest);
      if f.End? {
        Watermarks(cfg, st);
        NewEra(cfg, st, st', Guest, Era(st.guest.resume, st.guest.sim, map[]));
      } else {
        SameLogs(cfg, st, st');
      }
    }
  }

  lemma {:induction false} PumpLogs(cfg: Config, st: Sys, s: Seat, k: nat)
    requires Legal(cfg) && Core(cfg, st) && Logs(cfg, st)
    ensures Core(cfg, Pump(cfg, st, s, k)) && Logs(cfg, Pump(cfg, st, s, k))
    decreases k
  {
    hide ToGuest, ToHost, Pace, LogTrue, HostAhead, OnFrame, Put;
    if k != 0 && Inbox(st, s) != [] {
      if s.Host? { DeliverHostCore(cfg, st); } else { DeliverGuestCore(cfg, st); }
      DeliverLogs(cfg, st, s);
      PumpLogs(cfg, Deliver(cfg, st, s), s, k - 1);
    }
  }

  /** A capture is for a tick nobody has executed yet. */
  lemma CaptureLogs(cfg: Config, st: Sys, s: Seat, cell: Cell)
    requires Legal(cfg) && Core(cfg, st) && Logs(cfg, st) && Enabled(cfg, st, Capture(s, cell))
    ensures Logs(cfg, Apply(cfg, st, Capture(s, cell)))
  {
    hide Core, LogTrue, HostAhead, Enabled, Apply, Truth;
    CaptureEffect(cfg, st, s, cell);
    ExecutedEarlier(cfg, st, s, Host);
    ExecutedEarlier(cfg, st, s, Guest);
    var st' := Apply(cfg, st, Capture(s, cell));
    forall e: nat, t | e == Epoch(Me(st, s)) ==> t < Next(cfg, Me(st, s)) ensures Truth(st', e, t) == Truth(st, e, t) {
      CaptureTruth(cfg, st, s, cell, e, t);
    }
    CaptureKeeps(cfg, st, st', s, Host);
    CaptureKeeps(cfg, st, st', s, Guest);
    assert HostAhead(cfg, st') by { CaptureAhead(cfg, st, st'); }
  }

  /** Same logs, same clocks, same bases. */
  ghost predicate SameButSent(c: Con, c': Con) {
    && c'.books == c.books && c'.tick == c.tick && |c'.eras| == |c.eras|
    && forall e :: 0 <= e < |c.eras| ==> c'.eras[e].base == c.eras[e].base
  }

  lemma CaptureEffect(cfg: Config, st: Sys, s: Seat, cell: Cell)
    requires Enabled(cfg, st, Capture(s, cell))
    ensures
      var st' := Apply(cfg, st, Capture(s, cell));
      && SameButSent(st.host, st'.host) && SameButSent(st.guest, st'.guest)
      && Next(cfg, st'.guest) >= Next(cfg, st.guest)
  {
    hide Pump, RunPass;
  }

  /** Whatever console p has executed in the epoch of s lies before the next capture of s. */
  ghost predicate Earlier(cfg: Config, p: Con, c: Con) {
    |c.eras| <= |p.books| == |p.eras| ==> p.eras[Epoch(c)].base + |p.books[Epoch(c)].log| <= Next(cfg, c)
  }

  lemma ExecutedEarlier(cfg: Config, st: Sys, s: Seat, p: Seat)
    requires Legal(cfg) && Core(cfg, st) && Logs(cfg, st)
    ensures Earlier(cfg, Me(st, p), Me(st, s))
  {
    hide ToGuest, ToHost, Pace, Truth;
    Watermarks(cfg, st);
  }

  lemma CaptureKeeps(cfg: Config, st: Sys, st': Sys, s: Seat, p: Seat)
    requires LogTrue(st, Me(st, p)) && SameButSent(Me(st, p), Me(st', p)) && Earlier(cfg, Me(st, p), Me(st, s))
    requires forall e: nat, t :: (e == Epoch(Me(st, s)) ==> t < Next(cfg, Me(st, s))) ==>
      Truth(st', e, t) == Truth(st, e, t)
    ensures LogTrue(st', Me(st', p))
  {
    hide Truth;
    var c, c' := Me(st, p), Me(st', p);
    forall e, i | 0 <= e < |c'.books| && 0 <= i < |c'.books[e].log|
      ensures c'.books[e].log[i] == Exec(c'.eras[e].base + i, Truth(st', e, c'.eras[e].base + i))
    {
      assert c.eras[e].base == c'.eras[e].base;
      assert Truth(st', e, c.eras[e].base + i) == Truth(st, e, c.eras[e].base + i);
    }
  }

  lemma CaptureAhead(cfg: Config, st: Sys, st': Sys)
    requires HostAhead(cfg, st) && SameButSent(st.host, st'.host) && SameButSent(st.guest, st'.guest)
    requires Next(cfg, st'.guest) >= Next(cfg, st.guest)
    ensures HostAhead(cfg, st')
  {
  }

  lemma CaptureTruth(cfg: Config, st: Sys, s: Seat, cell: Cell, e: nat, t: int)
    requires Enabled(cfg, st, Capture(s, cell))
    requires e == Epoch(Me(st, s)) ==> t < Next(cfg, Me(st, s))
    ensures Truth(Apply(cfg, st, Capture(s, cell)), e, t) == Truth(st, e, t)
  {
    hide Pump, RunPass;
  }

  /** The gate is sound: when it opens, both rings hold what was captured for this tick. */
  lemma GateReadsTruth(cfg: Config, st: Sys, s: Seat)
    requires Core(cfg, st) && Me(st, s).wm >= Me(st, s).tick
    ensures
      var c := Me(st, s);
      PadsOf(s, Era0(c).sent, c.remote, c.tick) == Truth(st, Epoch(c), c.tick)
  {
    hide ToGuest, ToHost, Pace;
    if s.Guest? {
      GuestRing(cfg.d, st.host.eras, Next(cfg, st.host), RxOf(st.guest), st.toGuest);
    } else {
      HostRing(cfg.d, st.guest.eras, Next(cfg, st.guest), Era0(st.host).base, RxOf(st.host), st.toHost);
    }
  }

  /** What a tick does to the console, its checksum aside. */
  lemma TickEffect(cfg: Config, s: Seat, c: Con)
    ensures
      var c' := RunTick(cfg, s, c).0;
      && c'.eras == c.eras && c'.tick == c.tick + 1 && c'.wm == c.wm && c'.pc.Entry?
      && |c'.books| == |c.books|
      && Book0(c').log == Book0(c).log + [Exec(c.tick, PadsOf(s, Era0(c).sent, c.remote, c.tick))]
      && forall e :: 0 <= e < |c.books| - 1 ==> c'.books[e] == c.books[e]
  {
    hide PadsOf, Record;
  }

  lemma AppendExec(st: Sys, c: Con, st': Sys, c': Con)
    requires LogTrue(st, c) && c'.eras == c.eras && c'.tick == c.tick + 1
    requires st'.host.eras == st.host.eras && st'.guest.eras == st.guest.eras
    requires |c'.books| == |c.books| && forall e :: 0 <= e < |c.books| - 1 ==> c'.books[e] == c.books[e]
    requires Book0(c').log == Book0(c).log + [Exec(c.tick, Truth(st, Epoch(c), c.tick))]
    ensures LogTrue(st', c')
  {
    assert forall e: nat, t :: Truth(st', e, t) == Truth(st, e, t);
  }

  lemma TickLogs(cfg: Config, st: Sys, s: Seat)
    requires Legal(cfg) && Core(cfg, st) && Logs(cfg, st)
    requires Me(st, s).pc.Gate? && Me(st, s).wm >= Me(st, s).tick
    ensures Logs(cfg, AfterTick(cfg, st, s))
  {
    hide ToGuest, ToHost, Pace, PadsOf, LogTrue, RunTick;
    var st' := AfterTick(cfg, st, s);
    TickEffect(cfg, s, Me(st, s));
    GateReadsTruth(cfg, st, s);
    AppendExec(st, Me(st, s), st', Me(st', s));
    SameLogTrue(st, Me(st, Peer(s)), st');
    Watermarks(cfg, st);
    assert HostAhead(cfg, st') by { TickHostAhead(cfg, st, s); }
  }

  lemma SameLogTrue(st: Sys, c: Con, st': Sys)
    requires LogTrue(st, c) && st'.host.eras == st.host.eras && st'.guest.eras == st.guest.eras
    ensures LogTrue(st', c)
  {
    assert forall e: nat, t :: Truth(st', e, t) == Truth(st, e, t);
  }

  lemma TickHostAhead(cfg: Config, st: Sys, s: Seat)
    requires Legal(cfg) && Core(cfg, st) && Logs(cfg, st)
    requires Me(st, s).pc.Gate? && Me(st, s).wm >= Me(st, s).tick
    ensures HostAhead(cfg, AfterTick(cfg, st, s))
  {
    hide ToGuest, ToHost, Pace, PadsOf, RunTick, Truth;
    TickEffect(cfg, s, Me(st, s));
    Watermarks(cfg, st);
  }

  lemma PendingLogs(cfg: Config, st: Sys, s: Seat, quiet: bool)
    requires Legal(cfg) && Core(cfg, st) && Logs(cfg, st)
    ensures Logs(cfg, AfterPending(cfg, st, s, quiet))
  {
    hide ToGuest, ToHost, Pace, LogTrue, HostAhead, PushMsgs;
    var st' := AfterPending(cfg, st, s, quiet);
    if |st'.host.eras| == |st.host.eras| {
      SameLogs(cfg, st, st');
    } else {
      NewEra(cfg, st, st', Host, Era(st.host.tick + LEAD, st.host.sim, map[]));
    }
  }

  lemma ApplyLogs(cfg: Config, st: Sys, a: Action)
    requires Legal(cfg) && Core(cfg, st) && Logs(cfg, st) && Enabled(cfg, st, a)
    ensures Logs(cfg, Apply(cfg, st, a))
  {
    hide ToGuest, ToHost, Pace, LogTrue, HostAhead, RunPass, Pump;
    var st' := Apply(cfg, st, a);
    match a
    case Wait(s, k) => PumpLogs(cfg, st, s, k);
    case PassStart(s, k) =>
      PumpLogs(cfg, st, s, k);
      PumpPc(cfg, st, s, k);
      SameLogs(cfg, Pump(cfg, st, s, k), st');
    case Capture(s, cell) => CaptureLogs(cfg, st, s, cell);
    case Stall(s, k) => PumpLogs(cfg, st, s, k);
    case Tick(s, quiet) => TickPassLogs(cfg, st, s, quiet);
    case Fault(_, _) => SameLogs(cfg, st, st');
    case Drop(_) => SameLogs(cfg, st, st');
  }

  lemma TickPassLogs(cfg: Config, st: Sys, s: Seat, quiet: bool)
    requires Legal(cfg) && Core(cfg, st) && Logs(cfg, st) && Enabled(cfg, st, Tick(s, quiet))
    ensures Logs(cfg, Apply(cfg, st, Tick(s, quiet)))
  {
    hide ToGuest, ToHost, Pace, LogTrue, HostAhead, RunTick, Pending;
    TickSplits(cfg, st, s, quiet);
    TickLogs(cfg, st, s);
    if s.Host? { HostTickCore(cfg, st); } else { GuestTickCore(cfg, st); }
    PendingLogs(cfg, AfterTick(cfg, st, s), s, quiet);
  }
}
