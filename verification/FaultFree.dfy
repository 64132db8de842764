/** Without faults the resync machinery never fires: the two sims stay equal, so no
    checksum comparison fails and the first epoch lasts for ever. */
module FaultFree {
  import opened Protocol
  import opened Invariant
  import opened Agreement
  import opened Images
  import opened Repair
  import opened Safety

  /** Every checksum reported is that of the replayed log. */
  ghost predicate SumsTrue(cfg: Config, c: Con) {
    forall t <- Book0(c).sums ::
      && 0 <= t < |Book0(c).log|
      && Book0(c).sums[t] == cfg.sum(Replay(cfg, Era0(c).raw, Book0(c).log[..t + 1]))
  }

  predicate Peaceful(c: Con) { |c.eras| == 1 && Era0(c).base == 0 && !c.pend && !c.hold && !c.tainted }

  ghost predicate Calm(cfg: Config, st: Sys) {
    && Peaceful(st.host) && Peaceful(st.guest)
    && st.host.eras[0].raw == st.guest.eras[0].raw
    && SumsTrue(cfg, st.host) && SumsTrue(cfg, st.guest)
    && (forall m <- st.toHost :: m.frame.Input? || m.frame.Crc?)
    && (forall m <- st.toGuest :: m.frame.Input? || m.frame.Crc?)
  }

  /** Equal logs so far, equal checksums: the comparison succeeds. */
  lemma Agree(cfg: Config, st: Sys, t: int)
    requires Calm(cfg, st) && Logs(cfg, st)
    requires t in Book0(st.host).sums && t in Book0(st.guest).sums
    ensures Book0(st.host).sums[t] == Book0(st.guest).sums[t]
  {
    hide Replay, Truth;
    assert Book0(st.host).log[..t + 1] == Book0(st.guest).log[..t + 1];
  }

  lemma DeliverCalm(cfg: Config, st: Sys, s: Seat)
    requires Calm(cfg, st) && Logs(cfg, st) && Sums(st) && Inbox(st, s) != []
    ensures Calm(cfg, Deliver(cfg, st, s))
  {
    hide Replay, Logs;
    var m := Inbox(st, s)[0];
    assert m in Inbox(st, s);
    assert Inbox(st, Peer(s)) + [] == Inbox(st, Peer(s));
    if m.frame.Crc? && m.frame.tick in Me(st, s).records {
      Agree(cfg, st, m.frame.tick);
    }
  }

  lemma {:induction false} PumpCalm(cfg: Config, st: Sys, s: Seat, k: nat)
    requires Legal(cfg) && Core(cfg, st) && Logs(cfg, st) && Sums(st) && Cover(cfg, st) && Calm(cfg, st)
    ensures Calm(cfg, Pump(cfg, st, s, k))
    decreases k
  {
    hide Core, Logs, Sums, Cover, Calm, OnFrame, Put;
    if k != 0 && Inbox(st, s) != [] {
      DeliverCalm(cfg, st, s);
      if s.Host? { DeliverHostCore(cfg, st); } else { DeliverGuestCore(cfg, st); }
      DeliverLogs(cfg, st, s);
      DeliverSums(cfg, st, s);
      if s.Host? { DeliverHostCover(cfg, st); } else { DeliverGuestCover(cfg, st); }
      PumpCalm(cfg, Deliver(cfg, st, s), s, k - 1);
    }
  }

  lemma TickCalm(cfg: Config, st: Sys, s: Seat, quiet: bool)
    requires Calm(cfg, st) && Sims(cfg, st) && Logs(cfg, st) && Enabled(cfg, st, Tick(s, quiet))
    ensures Calm(cfg, Apply(cfg, st, Tick(s, quiet)))
  {
    hide RunTick, Pending, Truth, Pump, Replay, CanPump;
    var c := Me(st, s);
    var (c1, out) := RunTick(cfg, s, c);
    TickShape(cfg, s, c);
    TickSim(cfg, s, c);
    TickEffect(cfg, s, c);
    PendingCounts(cfg, s, c1, quiet);
    PendingPeace(cfg, s, c1, quiet);
    assert out + [] == out;
    assert SumsTrue(cfg, c1) by { TickSumsTrue(cfg, s, c); }
    assert forall m <- out :: m.frame.Crc?;
  }

  lemma PendingPeace(cfg: Config, s: Seat, c: Con, quiet: bool)
    requires !c.pend
    ensures Pending(cfg, s, c, quiet) == (c, [])
  {
  }

  lemma TickSumsTrue(cfg: Config, s: Seat, c: Con)
    requires SumsTrue(cfg, c) && c.sim == Replay(cfg, Era0(c).raw, Book0(c).log)
    requires |Book0(c).log| == c.tick
    ensures SumsTrue(cfg, RunTick(cfg, s, c).0)
  {
    hide RunTick, Replay;
    var c' := RunTick(cfg, s, c).0;
    TickShape(cfg, s, c);
    TickSim(cfg, s, c);
    TickEffect(cfg, s, c);
    assert Book0(c').log[..c.tick + 1] == Book0(c').log;
    forall t <- Book0(c).sums ensures Book0(c').log[..t + 1] == Book0(c).log[..t + 1] {
    }
  }

  lemma SumsTrueKept(cfg: Config, c: Con, c': Con)
    requires SumsTrue(cfg, c) && c'.books == c.books && Era0(c').raw == Era0(c).raw
    ensures SumsTrue(cfg, c')
  {
    forall t <- Book0(c').sums ensures
      && 0 <= t < |Book0(c').log|
      && Book0(c').sums[t] == cfg.sum(Replay(cfg, Era0(c').raw, Book0(c').log[..t + 1]))
    {
      assert t in Book0(c).sums;
    }
  }

  /** Steps that change neither books nor channels. */
  lemma StillCalm(cfg: Config, st: Sys, st': Sys, s: Seat)
    requires Calm(cfg, st) && st' == Put(st, s, Me(st', s), Inbox(st, s), [])
    requires
      var c, c' := Me(st, s), Me(st', s);
      && c'.books == c.books && c'.pend == c.pend && c'.hold == c.hold && c'.tainted == c.tainted
      && |c'.eras| == |c.eras| && Era0(c').base == Era0(c).base && Era0(c').raw == Era0(c).raw
    ensures Calm(cfg, st')
  {
    assert Inbox(st, Peer(s)) + [] == Inbox(st, Peer(s));
    SumsTrueKept(cfg, Me(st, s), Me(st', s));
  }

  lemma ApplyCalm(cfg: Config, st: Sys, a: Action)
    requires Legal(cfg) && Inv(cfg, st) && Calm(cfg, st) && Enabled(cfg, st, a) && !a.Fault?
    ensures Calm(cfg, Apply(cfg, st, a))
  {
    hide Core, Sims, Sums, Cover, Logs, Pump, RunPass, Replay, CanPump;
    if a.Wait? || a.PassStart? || a.Stall? {
      PumpCalm(cfg, st, a.seat, a.frames);
      var mid := Pump(cfg, st, a.seat, a.frames);
      StillCalm(cfg, mid, SetPc(mid, a.seat, Ready), a.seat);
    } else if a.Tick? {
      TickCalm(cfg, st, a.seat, a.quiet);
    } else if a.Capture? {
      CaptureCalm(cfg, st, a.seat, a.cell);
    } else {
      StillCalm(cfg, st, Apply(cfg, st, a), a.seat);
    }
  }

  lemma CaptureCalm(cfg: Config, st: Sys, s: Seat, cell: Cell)
    requires Calm(cfg, st) && Enabled(cfg, st, Capture(s, cell))
    ensures Calm(cfg, Apply(cfg, st, Capture(s, cell)))
  {
    hide Pump, RunPass;
    var st' := Apply(cfg, st, Capture(s, cell));
    SumsTrueKept(cfg, Me(st, s), Me(st', s));
  }

  lemma {:induction false} RunsCalm(cfg: Config, st: Sys, acts: seq<Action>, end: Sys)
    requires Legal(cfg) && Inv(cfg, st) && Calm(cfg, st) && Runs(cfg, st, acts, end)
    requires forall a <- acts :: !a.Fault?
    ensures Calm(cfg, end) && Inv(cfg, end)
    decreases |acts|
  {
    hide Inv, Calm, Apply, Enabled;
    if acts != [] {
      assert acts[0] in acts;
      ApplyInv(cfg, st, acts[0]);
      ApplyCalm(cfg, st, acts[0]);
      RunsCalm(cfg, Apply(cfg, st, acts[0]), acts[1..], end);
    }
  }

  /** THEOREM.  Two consoles that start from one image and suffer no fault never want a
      resync, never leave epoch 0, and are equal whenever their ticks are. */
  lemma NoFaultNoResync(cfg: Config, start: Image, acts: seq<Action>, st: Sys)
    requires Legal(cfg) && Runs(cfg, Init(cfg, start, start), acts, st)
    requires forall a <- acts :: !a.Fault?
    ensures !st.host.pend && !st.guest.pend && Epoch(st.host) == Epoch(st.guest) == 0
    ensures st.host.tick == st.guest.tick ==> st.host.sim == st.guest.sim
  {
    hide Core, Sums, Cover, Runs, Replay, Truth;
    InitInv(cfg, start, start);
    RunsCalm(cfg, Init(cfg, start, start), acts, st);
    if st.host.tick == st.guest.tick {
      assert Book0(st.host).log == Book0(st.guest).log;
    }
  }
}
