/** What holds in every reachable state of the lockstep, for 1 <= d <= 15. */
module Safety {
  import opened Protocol
  import opened Channels
  import opened Invariant
  import opened Agreement
  import opened Images
  import opened Repair

  ghost predicate Inv(cfg: Config, st: Sys) {
    Core(cfg, st) && Logs(cfg, st) && Atomic(st.guest) && Sims(cfg, st) && Sums(st) && Cover(cfg, st)
  }

  lemma InitInv(cfg: Config, start: Image, guestSim: Image)
    requires Legal(cfg)
    ensures Inv(cfg, Init(cfg, start, guestSim))
  {
    InitCore(cfg, start, guestSim);
    InitLogs(cfg, start, guestSim);
  }

  lemma TickRepair(cfg: Config, st: Sys, s: Seat, quiet: bool)
    requires Legal(cfg) && Inv(cfg, st) && Enabled(cfg, st, Tick(s, quiet))
    ensures Sums(Apply(cfg, st, Tick(s, quiet))) && Cover(cfg, Apply(cfg, st, Tick(s, quiet)))
  {
    hide ToGuest, ToHost, Pace, Sums, Cover, RunTick, Pending, Logs, Sims;
    TickCover(cfg, st, s, quiet);
    TickSplits(cfg, st, s, quiet);
    TickKeepsSums(cfg, st, s);
    if s.Host? { HostTickCore(cfg, st); } else { GuestTickCore(cfg, st); }
    HostNeverHolds(cfg, AfterTick(cfg, st, s));
    Repair.PendingSums(cfg, AfterTick(cfg, st, s), s, quiet);
  }

  lemma ApplyRepair(cfg: Config, st: Sys, a: Action)
    requires Legal(cfg) && Inv(cfg, st) && Enabled(cfg, st, a)
    ensures Sums(Apply(cfg, st, a)) && Cover(cfg, Apply(cfg, st, a))
  {
    hide Core, Sums, Cover, Logs, Sims, Pump, RunPass, CanPump;
    match a
    case Wait(s, k) => PumpRepair(cfg, st, s, k);
    case PassStart(s, k) =>
      PumpRepair(cfg, st, s, k);
      OutsideRepair(cfg, Pump(cfg, st, s, k), Apply(cfg, st, a), s);
    case Capture(s, cell) => CaptureRepair(cfg, st, s, cell);
    case Stall(s, k) => PumpRepair(cfg, st, s, k);
    case Tick(s, quiet) => TickRepair(cfg, st, s, quiet);
    case Fault(s, _) => OutsideRepair(cfg, st, Apply(cfg, st, a), s);
    case Drop(s) => OutsideRepair(cfg, st, Apply(cfg, st, a), s);
  }

  /** Steps that touch neither ticks, watermarks, books nor channels. */
  lemma OutsideRepair(cfg: Config, st: Sys, st': Sys, s: Seat)
    requires Sums(st) && Cover(cfg, st)
    requires st' == Put(st, s, Me(st', s), Inbox(st, s), [])
    requires
      var c, c' := Me(st, s), Me(st', s);
      c' == c.(pc := c'.pc, sim := c'.sim, tainted := c'.tainted, dropped := c'.dropped)
    ensures Sums(st') && Cover(cfg, st')
  {
    SendCover(cfg, st, st', s, []);
    hide Cover;
    assert Inbox(st, Peer(s)) + [] == Inbox(st, Peer(s));
  }

  lemma ApplyInv(cfg: Config, st: Sys, a: Action)
    requires Legal(cfg) && Inv(cfg, st) && Enabled(cfg, st, a)
    ensures Inv(cfg, Apply(cfg, st, a))
  {
    hide Core, Sums, Cover, Logs, Sims, Enabled, Apply, Atomic;
    ApplyCore(cfg, st, a);
    ApplyLogs(cfg, st, a);
    ApplyAtomic(cfg, st, a);
    ApplySims(cfg, st, a);
    ApplyRepair(cfg, st, a);
  }

  lemma {:induction false} RunsInv(cfg: Config, st: Sys, acts: seq<Action>, end: Sys)
    requires Legal(cfg) && Inv(cfg, st) && Runs(cfg, st, acts, end)
    ensures Inv(cfg, end)
    decreases |acts|
  {
    hide Inv, Apply, Enabled;
    if acts != [] {
      ApplyInv(cfg, st, acts[0]);
      RunsInv(cfg, Apply(cfg, st, acts[0]), acts[1..], end);
    }
  }

  lemma ReachableInv(cfg: Config, st: Sys)
    requires Legal(cfg) && Reachable(cfg, st)
    ensures Inv(cfg, st)
  {
    hide Inv, Runs, Init;
    var start: Image, guestSim: Image, acts: seq<Action> :| Runs(cfg, Init(cfg, start, guestSim), acts, st);
    InitInv(cfg, start, guestSim);
    RunsInv(cfg, Init(cfg, start, guestSim), acts, st);
  }

  // ---------------------------------------------------------------- reachable steps

  lemma {:induction false} RunsSnoc(cfg: Config, st: Sys, acts: seq<Action>, end: Sys, a: Action)
    requires Runs(cfg, st, acts, end) && Enabled(cfg, end, a)
    ensures Runs(cfg, st, acts + [a], Apply(cfg, end, a))
    decreases |acts|
  {
    hide Apply, Enabled;
    if acts == [] {
      assert [] + [a] == [a] && [a][1..] == [];
    } else {
      assert (acts + [a])[1..] == acts[1..] + [a];
      RunsSnoc(cfg, Apply(cfg, st, acts[0]), acts[1..], end, a);
    }
  }

  lemma ReachableStep(cfg: Config, st: Sys, a: Action)
    requires Reachable(cfg, st) && Enabled(cfg, st, a)
    ensures Reachable(cfg, Apply(cfg, st, a))
  {
    hide Runs, Enabled, Apply, Init;
    var start: Image, guestSim: Image, acts: seq<Action> :| Runs(cfg, Init(cfg, start, guestSim), acts, st);
    RunsSnoc(cfg, Init(cfg, start, guestSim), acts, st, a);
  }

  // ---------------------------------------------------------------- theorems

  /** THEOREM.  In every epoch both consoles have entered, their executed ticks and
      every cell those ticks read agree as far as both have got. */
  lemma LockstepAgreement(cfg: Config, st: Sys, e: nat, i: nat)
    requires Legal(cfg) && Reachable(cfg, st)
    requires e < |st.host.books| && e < |st.guest.books|
    requires i < |st.host.books[e].log| && i < |st.guest.books[e].log|
    ensures st.host.books[e].log[i] == st.guest.books[e].log[i]
    ensures e < |st.host.eras| && st.host.books[e].log[i].tick == st.host.eras[e].base + i
  {
    hide ToGuest, ToHost, Pace, Sims, Sums, Cover;
    ReachableInv(cfg, st);
  }

  /** THEOREM.  Consoles in the same epoch at the same tick have the same state, unless a
      fault has hit one of them since the epoch's common start. */
  lemma SameState(cfg: Config, st: Sys)
    requires Legal(cfg) && Reachable(cfg, st)
    requires |st.host.eras| == |st.guest.eras| && st.host.tick == st.guest.tick
    requires !st.host.tainted && !st.guest.tainted
    ensures st.host.sim == st.guest.sim
  {
    hide ToGuest, ToHost, Pace, Sums, Cover, Replay;
    ReachableInv(cfg, st);
    assert Book0(st.host).log == Book0(st.guest).log;
  }

  /** THEOREM.  Skew: in one epoch the tick counters are never more than d+1 apart, and
      the newest remote input stored is at most 2d+1 ticks ahead of the reader. */
  lemma SkewBound(cfg: Config, st: Sys)
    requires Legal(cfg) && Reachable(cfg, st)
    requires |st.host.eras| == |st.guest.eras|
    ensures -(cfg.d + 1) <= st.host.tick - st.guest.tick <= cfg.d + 1
    ensures st.host.wm <= st.host.tick + 2 * cfg.d + 1
    ensures st.guest.wm <= st.guest.tick + 2 * cfg.d + 1
  {
    hide ToGuest, ToHost, Pace, Sims, Sums, Cover, Logs;
    ReachableInv(cfg, st);
    Watermarks(cfg, st);
  }

  /** THEOREM.  Epoch separation, and its one exception: of what the guest sent in an epoch the
      host has left, only a request changes the host, and only if no push is wanted yet. */
  lemma EpochSeparation(cfg: Config, st: Sys)
    requires Legal(cfg) && Reachable(cfg, st)
    requires st.toHost != [] && st.toHost[0].epoch < Epoch(st.host)
    ensures Deliver(cfg, st, Host).host ==
      if st.toHost[0].frame.Resync? && !st.host.pend then st.host.(pend := true, waited := 0) else st.host
    ensures Deliver(cfg, st, Host).host != st.host <==> st.toHost[0].frame.Resync? && !st.host.pend
  {
    hide ToGuest, ToHost, Pace, Sims, Cover, Logs;
    ReachableInv(cfg, st);
    HostStep(cfg.d, st.guest.eras, Next(cfg, st.guest), Era0(st.host).base, RxOf(st.host), st.toHost);
  }

  /** THEOREM.  No game tick runs between the first image byte applied and the rebase. */
  lemma ResyncIsAtomic(cfg: Config, st: Sys, quiet: bool)
    requires Legal(cfg) && Reachable(cfg, st) && Enabled(cfg, st, Tick(Guest, quiet))
    ensures !Torn(st.guest)
  {
    hide Core, Sims, Sums, Cover, Logs, Reachable;
    ReachableInv(cfg, st);
  }

  /** THEOREM.  Bounded repair: once both consoles have reported different checksums for
      tick t, the host leaves the epoch by the end of its pass for tick t+2d+61. */
  lemma BoundedRepair(cfg: Config, st: Sys, t: int)
    requires Legal(cfg) && Reachable(cfg, st)
    requires |st.host.eras| == |st.guest.eras| && Differ(st.host, st.guest, t)
    ensures st.host.tick <= t + 2 * cfg.d + 61
  {
    hide ToGuest, ToHost, Pace, Sims, Logs;
    ReachableInv(cfg, st);
    Watermarks(cfg, st);
    assert Covered(cfg.d, st.host, st.guest, st.toHost, st.toGuest, t);
  }

  // ---------------------------------------------------------------- nothing missed

  /** Every checkpoint a console ran in its epoch has a reported checksum. */
  ghost predicate Reports(c: Con) {
    forall x <- Book0(c).log :: x.tick % CHECKPOINT == 0 ==> x.tick in Book0(c).sums
  }

  lemma {:induction false} PumpReports(cfg: Config, st: Sys, s: Seat, k: nat)
    requires Reports(st.host) && Reports(st.guest)
    ensures Reports(Pump(cfg, st, s, k).host) && Reports(Pump(cfg, st, s, k).guest)
    decreases k
  {
    if k != 0 && Inbox(st, s) != [] {
      FrameReports(cfg, s, Me(st, s), Inbox(st, s)[0].frame);
      hide OnFrame, Reports;
      PumpReports(cfg, Deliver(cfg, st, s), s, k - 1);
    }
  }

  lemma FrameReports(cfg: Config, s: Seat, c: Con, f: Frame)
    requires Reports(c)
    ensures Reports(OnFrame(cfg, s, c, f).0)
  {
    hide Splice;
  }

  lemma TickReports(cfg: Config, s: Seat, c: Con)
    requires Reports(c)
    ensures Reports(RunTick(cfg, s, c).0)
  {
    hide SimAfter, TickPads, Record;
  }

  lemma PassReports(cfg: Config, s: Seat, c: Con, quiet: bool)
    requires Reports(c)
    ensures Reports(RunPass(cfg, s, c, quiet).0)
  {
    TickReports(cfg, s, c);
    hide RunTick, PushMsgs;
  }

  lemma {:induction false} RunsReports(cfg: Config, st: Sys, acts: seq<Action>, end: Sys)
    requires Runs(cfg, st, acts, end) && Reports(st.host) && Reports(st.guest)
    ensures Reports(end.host) && Reports(end.guest)
    decreases |acts|
  {
    if acts != [] {
      hide Apply, Enabled, Reports;
      StepReports(cfg, st, acts[0]);
      RunsReports(cfg, Apply(cfg, st, acts[0]), acts[1..], end);
    }
  }

  lemma StepReports(cfg: Config, st: Sys, a: Action)
    requires Enabled(cfg, st, a) && Reports(st.host) && Reports(st.guest)
    ensures Reports(Apply(cfg, st, a).host) && Reports(Apply(cfg, st, a).guest)
  {
    hide Pump, RunPass, CanPump;
    if a.Wait? || a.PassStart? || a.Stall? {
      PumpReports(cfg, st, a.seat, a.frames);
    } else if a.Tick? {
      PassReports(cfg, a.seat, Me(st, a.seat), a.quiet);
    }
  }

  /** THEOREM.  Checkpoint coverage: once both consoles have handled the checksums of a
      checkpoint they both ran in their common epoch, and no push is wanted, those checksums
      were equal, whatever else is in flight. */
  lemma NothingMissed(cfg: Config, st: Sys, t: int)
    requires Legal(cfg) && Reachable(cfg, st)
    requires |st.host.eras| == |st.guest.eras| && !st.host.pend && (forall m <- st.toHost :: !m.frame.Resync?)
    requires t % CHECKPOINT == 0 && Ran(st.host, t) && Ran(st.guest, t)
    requires forall m <- st.toHost :: !Meets(m.frame, TheCrc(t))
    requires forall m <- st.toGuest :: !Meets(m.frame, TheCrc(t))
    ensures t in Book0(st.host).sums && t in Book0(st.guest).sums
    ensures Book0(st.host).sums[t] == Book0(st.guest).sums[t]
  {
    ReachableCovered(cfg, st, t);
    var start: Image, guestSim: Image, acts: seq<Action> :| Runs(cfg, Init(cfg, start, guestSim), acts, st);
    RunsReports(cfg, Init(cfg, start, guestSim), acts, st);
    hide Runs, Reachable, Covered, Meets;
    NotCovered(cfg.d, st, t);
  }

  /** With nothing of it in flight a difference is not on its way to a push. */
  lemma NotCovered(d: int, st: Sys, t: int)
    requires !st.host.pend && (forall m <- st.toHost :: !m.frame.Resync? && !Meets(m.frame, TheCrc(t)))
    requires forall m <- st.toGuest :: !Meets(m.frame, TheCrc(t))
    ensures !Covered(d, st.host, st.guest, st.toHost, st.toGuest, t)
  {
    if Before(st.toHost, t + 2 * d + 1, AnyResync) { BeforeHas(st.toHost, t + 2 * d + 1, AnyResync); }
    if Before(st.toHost, t + d, TheCrc(t)) { BeforeHas(st.toHost, t + d, TheCrc(t)); }
    if Before(st.toGuest, t + d, TheCrc(t)) { BeforeHas(st.toGuest, t + d, TheCrc(t)); }
  }

  lemma {:induction false} BeforeHas(ch: seq<Msg>, bound: int, w: Want)
    requires Before(ch, bound, w)
    ensures exists m :: m in ch && Meets(m.frame, w)
    decreases |ch|
  {
    if Meets(ch[0].frame, w) {
      assert ch[0] in ch;
    } else {
      BeforeHas(ch[1..], bound, w);
      var m :| m in ch[1..] && Meets(m.frame, w);
      assert m in ch;
    }
  }

  ghost predicate Ran(c: Con, t: int) { exists x :: x in Book0(c).log && x.tick == t }

  lemma ReachableCovered(cfg: Config, st: Sys, t: int)
    requires Legal(cfg) && Reachable(cfg, st)
    ensures |st.host.eras| == |st.guest.eras| && Differ(st.host, st.guest, t) ==>
      Covered(cfg.d, st.host, st.guest, st.toHost, st.toGuest, t)
  {
    hide ToGuest, ToHost, Pace, Sims, Logs, Core;
    ReachableInv(cfg, st);
  }
}
