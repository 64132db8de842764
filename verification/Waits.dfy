/** How long a wanted push waits: at once in a quiet pass, otherwise for the sixtieth. */
module Waits {
  import opened Protocol
  import opened Channels
  import opened Invariant
  import opened Safety

  predicate IsHostPass(a: Action) { a.Tick? && a.seat.Host? }

  /** Host passes ended in a run. */
  function HostPasses(acts: seq<Action>): nat {
    if acts == [] then 0 else (if IsHostPass(acts[0]) then 1 else 0) + HostPasses(acts[1..])
  }

  predicate NoBegin(ms: seq<Msg>) { forall m <- ms :: !m.frame.Begin? }

  /** What the end of a host pass does with a wish. */
  lemma PassWaits(cfg: Config, h: Con, quiet: bool)
    requires !h.hold
    ensures
      var (h', out) := RunPass(cfg, Host, h, quiet);
      if h.pend && (quiet || h.waited >= 59) then
        |h'.eras| == |h.eras| + 1 && !h'.pend && exists m :: m in out && m.frame.Begin?
      else
        && |h'.eras| == |h.eras| && h'.pend == h.pend && NoBegin(out)
        && (h.pend ==> h'.waited == h.waited + 1)
  {
    hide BookAfter, SimAfter, Record, Chunks;
    var (h1, out1) := RunTick(cfg, Host, h);
    if h.pend && (quiet || h.waited >= 59) {
      var m := Msg(Epoch(h1), Begin(h1.tick + LEAD));
      assert RunPass(cfg, Host, h, quiet).1[|out1|] == m;
    }
  }

  /** Any other step keeps the host's wish and its count. */
  lemma OtherWaits(cfg: Config, st: Sys, a: Action)
    requires Legal(cfg) && Core(cfg, st) && Enabled(cfg, st, a) && !IsHostPass(a)
    ensures
      var st' := Apply(cfg, st, a);
      && Epoch(st'.host) == Epoch(st.host) && (st.host.pend ==> st'.host.pend && st'.host.waited == st.host.waited)
      && (!st.host.pend && st'.host.pend ==> st'.host.waited == 0)
      && forall m <- st'.toGuest :: m.frame.Begin? ==> m in st.toGuest
  {
    hide Core, RunPass, Pump, CanPump;
    if a.Wait? || a.PassStart? || a.Stall? {
      PumpWaits(cfg, st, a.seat, a.frames);
    }
  }

  lemma {:induction false} PumpWaits(cfg: Config, st: Sys, s: Seat, k: nat)
    requires Legal(cfg) && Core(cfg, st)
    ensures
      var st' := Pump(cfg, st, s, k);
      && Epoch(st'.host) == Epoch(st.host) && (st.host.pend ==> st'.host.pend && st'.host.waited == st.host.waited)
      && (!st.host.pend && st'.host.pend ==> st'.host.waited == 0)
      && forall m <- st'.toGuest :: m.frame.Begin? ==> m in st.toGuest
    decreases k
  {
    hide Core, OnFrame, Put;
    if k != 0 && Inbox(st, s) != [] {
      FrameWaits(cfg, st, s);
      if s.Host? { DeliverHostCore(cfg, st); } else { DeliverGuestCore(cfg, st); }
      PumpWaits(cfg, Deliver(cfg, st, s), s, k - 1);
    }
  }

  lemma FrameWaits(cfg: Config, st: Sys, s: Seat)
    requires Core(cfg, st) && Inbox(st, s) != []
    ensures
      var st' := Deliver(cfg, st, s);
      && Epoch(st'.host) == Epoch(st.host) && (st.host.pend ==> st'.host.pend && st'.host.waited == st.host.waited)
      && (!st.host.pend && st'.host.pend ==> st'.host.waited == 0)
      && forall m <- st'.toGuest :: m.frame.Begin? ==> m in st.toGuest
  {
    hide ToGuest, ToHost, Pace;
    if s.Host? {
      HostStep(cfg.d, st.guest.eras, Next(cfg, st.guest), Era0(st.host).base, RxOf(st.host), st.toHost);
    } else {
      hide OnFrame;
      assert forall m <- st.toGuest[1..] :: m in st.toGuest;
    }
  }

  /** THEOREM.  An unquiet host waits: through fewer than sixty of its passes since the wish, none
      of them quiet, it stays in its epoch and sends no BEGIN. */
  lemma {:induction false} StillWaiting(cfg: Config, st: Sys, acts: seq<Action>, end: Sys)
    requires Legal(cfg) && Reachable(cfg, st) && Runs(cfg, st, acts, end) && st.host.pend
    requires (forall a <- acts :: IsHostPass(a) ==> !a.quiet) && st.host.waited + HostPasses(acts) <= 59
    ensures Epoch(end.host) == Epoch(st.host) && end.host.pend && end.host.waited == st.host.waited + HostPasses(acts)
    ensures forall m <- end.toGuest :: m.frame.Begin? ==> m in st.toGuest
    decreases |acts|
  {
    hide Reachable, Apply, Enabled;
    if acts != [] {
      assert acts[0] in acts && forall a <- acts[1..] :: a in acts;
      ReachableStep(cfg, st, acts[0]);
      OneWaits(cfg, st, acts[0]);
      StillWaiting(cfg, Apply(cfg, st, acts[0]), acts[1..], end);
    }
  }

  lemma OneWaits(cfg: Config, st: Sys, a: Action)
    requires Legal(cfg) && Reachable(cfg, st) && Enabled(cfg, st, a) && st.host.pend
    requires IsHostPass(a) ==> !a.quiet && st.host.waited <= 58
    ensures
      var st' := Apply(cfg, st, a);
      && Epoch(st'.host) == Epoch(st.host) && st'.host.pend
      && st'.host.waited == st.host.waited + (if IsHostPass(a) then 1 else 0)
      && forall m <- st'.toGuest :: m.frame.Begin? ==> m in st.toGuest
  {
    hide Reachable, Inv;
    InvParts(cfg, st);
    if IsHostPass(a) {
      hide RunPass, Pump, CanPump;
      PassWaits(cfg, st.host, a.quiet);
    } else {
      hide Apply, Enabled;
      OtherWaits(cfg, st, a);
    }
  }

  lemma InvParts(cfg: Config, st: Sys)
    requires Legal(cfg) && Reachable(cfg, st)
    ensures Core(cfg, st) && !st.host.hold
  {
    hide Reachable, Core;
    ReachableInv(cfg, st);
    HostNeverHolds(cfg, st);
  }

  /** THEOREM.  The sixtieth pass since the wish pushes, quiet or not. */
  lemma SixtiethPushes(cfg: Config, st: Sys, acts: seq<Action>, end: Sys, quiet: bool)
    requires Legal(cfg) && Reachable(cfg, st) && Runs(cfg, st, acts, end) && st.host.pend && st.host.waited == 0
    requires (forall a <- acts :: IsHostPass(a) ==> !a.quiet) && HostPasses(acts) == 59
    requires Enabled(cfg, end, Tick(Host, quiet))
    ensures Epoch(Apply(cfg, end, Tick(Host, quiet)).host) == Epoch(end.host) + 1 == Epoch(st.host) + 1
  {
    hide Reachable, Runs, Pump, CanPump, RunPass;
    StillWaiting(cfg, st, acts, end);
    RunsReach(cfg, st, acts, end);
    InvParts(cfg, end);
    PassWaits(cfg, end.host, quiet);
  }

  lemma {:induction false} RunsReach(cfg: Config, st: Sys, acts: seq<Action>, end: Sys)
    requires Reachable(cfg, st) && Runs(cfg, st, acts, end)
    ensures Reachable(cfg, end)
    decreases |acts|
  {
    hide Reachable, Apply, Enabled;
    if acts != [] {
      ReachableStep(cfg, st, acts[0]);
      RunsReach(cfg, Apply(cfg, st, acts[0]), acts[1..], end);
    }
  }

  /** THEOREM.  A quiet pass pushes at once, and only if a push is wanted. */
  lemma QuietPushes(cfg: Config, st: Sys)
    requires Legal(cfg) && Reachable(cfg, st) && Enabled(cfg, st, Tick(Host, true))
    ensures
      var st' := Apply(cfg, st, Tick(Host, true));
      if st.host.pend then Epoch(st'.host) == Epoch(st.host) + 1 && exists m :: m in st'.toGuest && m.frame.Begin?
      else Epoch(st'.host) == Epoch(st.host)
  {
    hide Reachable, Pump, CanPump, RunPass;
    InvParts(cfg, st);
    PassWaits(cfg, st.host, true);
    if st.host.pend {
      var m :| m in RunPass(cfg, Host, st.host, true).1 && m.frame.Begin?;
      assert m in Apply(cfg, st, Tick(Host, true)).toGuest;
    }
  }

  // ---------------------------------------------------------------- since the wish

  /** Host passes ended since the push that is wanted became wanted. */
  ghost function Since(cfg: Config, st: Sys, acts: seq<Action>, n: nat): nat
    decreases |acts|
  {
    if acts == [] || !Enabled(cfg, st, acts[0]) then n
    else
      var st' := Apply(cfg, st, acts[0]);
      var more := if IsHostPass(acts[0]) then 1 else 0;
      Since(cfg, st', acts[1..], if st.host.pend && st'.host.pend then n + more else 0)
  }

  lemma {:induction false} WaitedIsSince(cfg: Config, st: Sys, acts: seq<Action>, end: Sys, n: nat)
    requires Legal(cfg) && Reachable(cfg, st) && Runs(cfg, st, acts, end) && (st.host.pend ==> st.host.waited == n)
    ensures end.host.pend ==> end.host.waited == Since(cfg, st, acts, n)
    decreases |acts|
  {
    hide Reachable, Apply, Enabled;
    if acts != [] {
      ReachableStep(cfg, st, acts[0]);
      StepCounts(cfg, st, acts[0]);
      var st' := Apply(cfg, st, acts[0]);
      WaitedIsSince(cfg, st', acts[1..], end,
                    if st.host.pend && st'.host.pend then n + (if IsHostPass(acts[0]) then 1 else 0) else 0);
    }
  }

  lemma StepCounts(cfg: Config, st: Sys, a: Action)
    requires Legal(cfg) && Reachable(cfg, st) && Enabled(cfg, st, a)
    ensures
      var h, h' := st.host, Apply(cfg, st, a).host;
      && (h.pend && h'.pend ==> h'.waited == h.waited + (if IsHostPass(a) then 1 else 0))
      && (!h.pend && h'.pend ==> h'.waited == 0)
  {
    hide Reachable;
    InvParts(cfg, st);
    if IsHostPass(a) {
      hide RunPass, Pump, CanPump;
      PassWaits(cfg, st.host, a.quiet);
    } else {
      hide Apply, Enabled;
      OtherWaits(cfg, st, a);
    }
  }

  /** THEOREM.  In every run a pass that is not quiet ends in a push exactly if a push is wanted and
      this is at least the sixtieth host pass since it became wanted. */
  lemma UnquietPushes(cfg: Config, start: Image, guestSim: Image, acts: seq<Action>, st: Sys)
    requires Legal(cfg) && Runs(cfg, Init(cfg, start, guestSim), acts, st) && Enabled(cfg, st, Tick(Host, false))
    ensures
      Epoch(Apply(cfg, st, Tick(Host, false)).host) == Epoch(st.host) + 1
      <==> st.host.pend && Since(cfg, Init(cfg, start, guestSim), acts, 0) + 1 >= 60
    ensures
      Epoch(Apply(cfg, st, Tick(Host, false)).host) == Epoch(st.host)
      <==> !(st.host.pend && Since(cfg, Init(cfg, start, guestSim), acts, 0) + 1 >= 60)
  {
    hide Runs, Reachable, Pump, CanPump, RunPass, Since;
    var s0 := Init(cfg, start, guestSim);
    assert Reachable(cfg, s0) by { StartReachable(cfg, start, guestSim); }
    WaitedIsSince(cfg, s0, acts, st, 0);
    RunsReach(cfg, s0, acts, st);
    InvParts(cfg, st);
    PassWaits(cfg, st.host, false);
  }

  lemma StartReachable(cfg: Config, start: Image, guestSim: Image)
    ensures Reachable(cfg, Init(cfg, start, guestSim))
  {
    var s0 := Init(cfg, start, guestSim);
    assert Runs(cfg, Init(cfg, start, guestSim), [], s0);
  }
}
