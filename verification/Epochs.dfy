/** A stale request can make the host push twice, but the host is never more than two
    epochs ahead of the guest: each push is paid for by one request or one checksum. */
module Epochs {
  import opened Protocol
  import opened Channels
  import opened Invariant
  import opened Agreement
  import opened Images
  import opened Repair
  import opened Safety

  function One(b: bool): nat { if b then 1 else 0 }

  function Requests(ch: seq<Msg>, e: nat): nat {
    if ch == [] then 0 else One(ch[0].frame.Resync? && ch[0].epoch == e) + Requests(ch[1..], e)
  }

  /** `level` is the epoch the host would reach by pushing once for every request read so
      far.  Epochs in the channel never decrease and the level stays close to them. */
  ghost predicate Paid(ch: seq<Msg>, lo: nat, eg: nat, asked: bool, level: int)
    decreases |ch|
  {
    if ch == [] then lo <= eg && level <= eg + 1 + One(asked)
    else
      && lo <= ch[0].epoch <= eg && level <= ch[0].epoch + 2
      && Paid(ch[1..], ch[0].epoch, eg, asked, level + One(ch[0].frame.Resync?))
  }

  function Level(h: Con): int { Epoch(h) + One(h.pend) }

  ghost predicate Budget(st: Sys) {
    && Paid(st.toHost, 0, Epoch(st.guest), st.guest.pend, Level(st.host))
    && Requests(st.toHost, Epoch(st.guest)) <= One(st.guest.pend)
  }

  // ------------------------------------------------ the recursion's laws

  lemma {:induction false} PaidWeaker(ch: seq<Msg>, lo: nat, lo': nat, eg: nat, asked: bool, level: int, level': int)
    requires Paid(ch, lo, eg, asked, level) && lo' <= lo && level' <= level
    ensures Paid(ch, lo', eg, asked, level')
    decreases |ch|
  {
    if ch != [] {
      var r := One(ch[0].frame.Resync?);
      PaidWeaker(ch[1..], ch[0].epoch, ch[0].epoch, eg, asked, level + r, level' + r);
    }
  }

  /** The guest sends one more frame, a request only if it has none outstanding. */
  lemma {:induction false} PaidSend(ch: seq<Msg>, lo: nat, eg: nat, asked: bool, level: int, m: Msg)
    requires Paid(ch, lo, eg, asked, level) && m.epoch == eg && (m.frame.Resync? ==> !asked)
    ensures Paid(ch + [m], lo, eg, asked || m.frame.Resync?, level)
    decreases |ch|
  {
    if ch == [] {
      assert ch + [m] == [m] && [m][1..] == [];
    } else {
      assert (ch + [m])[0] == ch[0] && (ch + [m])[1..] == ch[1..] + [m];
      PaidSend(ch[1..], ch[0].epoch, eg, asked, level + One(ch[0].frame.Resync?), m);
    }
  }

  lemma {:induction false} PaidEnter(ch: seq<Msg>, lo: nat, eg: nat, asked: bool, level: int)
    requires Paid(ch, lo, eg, asked, level)
    ensures Paid(ch, lo, eg + 1, false, level) && Requests(ch, eg + 1) == 0
    decreases |ch|
  {
    if ch != [] { PaidEnter(ch[1..], ch[0].epoch, eg, asked, level + One(ch[0].frame.Resync?)); }
  }

  lemma {:induction false} RequestsSend(ch: seq<Msg>, m: Msg, e: nat)
    ensures Requests(ch + [m], e) == Requests(ch, e) + One(m.frame.Resync? && m.epoch == e)
    decreases |ch|
  {
    if ch == [] {
      assert ch + [m] == [m] && [m][1..] == [];
    } else {
      assert (ch + [m])[0] == ch[0] && (ch + [m])[1..] == ch[1..] + [m];
      RequestsSend(ch[1..], m, e);
    }
  }

  /** When everything in flight is of the guest's epoch, its own requests are the cost. */
  lemma {:induction false} PaidCurrent(ch: seq<Msg>, eg: nat, asked: bool, level: int, any: int)
    requires Paid(ch, eg, eg, asked, any) && level + Requests(ch, eg) <= eg + 1 + One(asked)
    ensures Paid(ch, eg, eg, asked, level)
    decreases |ch|
  {
    if ch != [] {
      var r := One(ch[0].frame.Resync?);
      PaidCurrent(ch[1..], eg, asked, level + r, any + r);
    }
  }

  lemma {:induction false} PaidAll(ch: seq<Msg>, lo: nat, eg: nat, asked: bool, level: int)
    requires Paid(ch, lo, eg, asked, level)
    ensures level <= eg + 2 && forall m <- ch :: m.epoch <= eg && level <= m.epoch + 2
    decreases |ch|
  {
    if ch != [] { PaidAll(ch[1..], ch[0].epoch, eg, asked, level + One(ch[0].frame.Resync?)); }
  }

  // ------------------------------------------------ every step stays in budget

  /** Only a checksum of the host's own epoch can alarm it. */
  lemma HostAlarmIsCurrent(cfg: Config, st: Sys)
    requires Core(cfg, st) && Sums(st) && st.toHost != []
    requires st.toHost[0].frame.Crc? && !st.host.pend && Deliver(cfg, st, Host).host.pend
    ensures st.toHost[0].epoch == Epoch(st.host) == Epoch(st.guest)
  {
    hide ToGuest, ToHost, Pace;
    HostStep(cfg.d, st.guest.eras, Next(cfg, st.guest), Era0(st.host).base, RxOf(st.host), st.toHost);
  }

  /** What a frame can do to the host's wish to push. */
  lemma HostWants(cfg: Config, h: Con, f: Frame)
    requires !h.hold && (f.Input? || f.Crc? || f.Resync?)
    ensures
      var (h', out) := OnFrame(cfg, Host, h, f);
      && out == [] && h'.eras == h.eras && (h.pend ==> h'.pend) && (h'.pend && !h.pend ==> !f.Input?)
  {
  }

  lemma PaidHead(ch: seq<Msg>, lo: nat, eg: nat, asked: bool, level: int)
    requires ch != [] && Paid(ch, lo, eg, asked, level)
    ensures lo <= ch[0].epoch <= eg && level <= ch[0].epoch + 2
    ensures Paid(ch[1..], ch[0].epoch, eg, asked, level + One(ch[0].frame.Resync?))
  {
  }

  lemma RequestsHead(ch: seq<Msg>, e: nat)
    requires ch != []
    ensures Requests(ch, e) == One(ch[0].frame.Resync? && ch[0].epoch == e) + Requests(ch[1..], e)
  {
  }

  lemma DeliverHostBudget(cfg: Config, st: Sys)
    requires Core(cfg, st) && Sums(st) && Budget(st) && st.toHost != []
    ensures Budget(Deliver(cfg, st, Host))
  {
    hide Core, Sums, OnFrame, Paid, Requests;
    var h, g := st.host, st.guest;
    var m := st.toHost[0];
    var h' := Deliver(cfg, st, Host).host;
    var eg := Epoch(g);
    HostGetsNoState(cfg, st);
    HostWants(cfg, h, m.frame);
    PaidHead(st.toHost, 0, eg, g.pend, Level(h));
    RequestsHead(st.toHost, eg);
    if m.frame.Crc? && !h.pend && h'.pend {
      HostAlarmIsCurrent(cfg, st);
      PaidCurrent(st.toHost[1..], eg, g.pend, eg + 1, eg);
      PaidWeaker(st.toHost[1..], eg, 0, eg, g.pend, eg + 1, eg + 1);
    } else {
      PaidWeaker(st.toHost[1..], m.epoch, 0, eg, g.pend, Level(h) + One(m.frame.Resync?), Level(h'));
    }
  }

  lemma HostGetsNoState(cfg: Config, st: Sys)
    requires Core(cfg, st) && st.toHost != []
    ensures var f := st.toHost[0].frame; f.Input? || f.Crc? || f.Resync?
    ensures !st.host.hold
  {
    hide ToGuest, ToHost, Pace;
    HostStep(cfg.d, st.guest.eras, Next(cfg, st.guest), Era0(st.host).base, RxOf(st.host), st.toHost);
  }

  lemma DeliverGuestBudget(cfg: Config, st: Sys)
    requires Core(cfg, st) && Budget(st) && st.toGuest != []
    ensures Budget(Deliver(cfg, st, Guest))
  {
    hide ToGuest, ToHost, Pace, Splice, Paid;
    var h, g := st.host, st.guest;
    var f := st.toGuest[0].frame;
    GuestStep(cfg.d, h.eras, Next(cfg, h), RxOf(g), st.toGuest);
    hide Core;
    var (g', out) := OnFrame(cfg, Guest, g, f);
    if out != [] {
      PaidSend(st.toHost, 0, Epoch(g), g.pend, Level(h), out[0]);
      RequestsSend(st.toHost, out[0], Epoch(g));
    } else {
      assert st.toHost + out == st.toHost;
      if f.End? { PaidEnter(st.toHost, 0, Epoch(g), g.pend, Level(h)); }
    }
  }

  /** Sends that are not requests. */
  lemma SendBudget(cfg: Config, st: Sys, st': Sys, s: Seat, out: seq<Msg>)
    requires Budget(st) && st' == Put(st, s, Me(st', s), Inbox(st, s), out)
    requires s.Host? ==> Level(st'.host) == Level(st.host)
    requires s.Guest? ==>
      && st'.guest.pend == st.guest.pend && Epoch(st'.guest) == Epoch(st.guest)
      && (out == [] || (|out| == 1 && out[0].epoch == Epoch(st.guest) && !out[0].frame.Resync?))
    ensures Budget(st')
  {
    hide Paid;
    if s.Guest? {
      if out == [] {
        assert st.toHost + out == st.toHost;
      } else {
        PaidSend(st.toHost, 0, Epoch(st.guest), st.guest.pend, Level(st.host), out[0]);
        RequestsSend(st.toHost, out[0], Epoch(st.guest));
        assert out == [out[0]];
      }
    }
  }

  lemma {:induction false} PumpBudget(cfg: Config, st: Sys, s: Seat, k: nat)
    requires Legal(cfg) && Core(cfg, st) && Sums(st) && Budget(st)
    ensures Budget(Pump(cfg, st, s, k))
    decreases k
  {
    hide Core, Sums, Budget, OnFrame, Put;
    if k != 0 && Inbox(st, s) != [] {
      DeliverSums(cfg, st, s);
      if s.Host? {
        DeliverHostCore(cfg, st);
        DeliverHostBudget(cfg, st);
      } else {
        DeliverGuestCore(cfg, st);
        DeliverGuestBudget(cfg, st);
      }
      PumpBudget(cfg, Deliver(cfg, st, s), s, k - 1);
    }
  }

  lemma TickBudget(cfg: Config, st: Sys, s: Seat, quiet: bool)
    requires Core(cfg, st) && Budget(st) && Enabled(cfg, st, Tick(s, quiet))
    ensures Budget(Apply(cfg, st, Tick(s, quiet)))
  {
    hide Core, Budget, RunTick, Pending, Pump, CanPump;
    TickShape(cfg, s, Me(st, s));
    var mid := AfterTick(cfg, st, s);
    SendBudget(cfg, st, mid, s, RunTick(cfg, s, Me(st, s)).1);
    TickSplits(cfg, st, s, quiet);
    var (c, out) := Pending(cfg, s, Me(mid, s), quiet);
    PendingLevel(cfg, s, Me(mid, s), quiet);
    SendBudget(cfg, mid, AfterPending(cfg, mid, s, quiet), s, out);
  }

  lemma PendingLevel(cfg: Config, s: Seat, c: Con, quiet: bool)
    ensures
      var (c', out) := Pending(cfg, s, c, quiet);
      Level(c') == Level(c) && (s.Guest? ==> c' == c && out == [])
  {
    hide PushMsgs;
  }

  lemma ApplyBudget(cfg: Config, st: Sys, a: Action)
    requires Legal(cfg) && Inv(cfg, st) && Budget(st) && Enabled(cfg, st, a)
    ensures Budget(Apply(cfg, st, a))
  {
    hide Core, Logs, Sims, Sums, Cover, Budget, RunPass, Pump, CanPump;
    match a
    case Wait(s, k) => PumpBudget(cfg, st, s, k);
    case PassStart(s, k) =>
      PumpBudget(cfg, st, s, k);
      SendBudget(cfg, Pump(cfg, st, s, k), Apply(cfg, st, a), s, []);
    case Capture(s, cell) =>
      SendBudget(cfg, st, Apply(cfg, st, a), s, [Msg(Epoch(Me(st, s)), Input(Me(st, s).tick + cfg.d, cell))]);
    case Stall(s, k) => PumpBudget(cfg, st, s, k);
    case Tick(s, quiet) => TickBudget(cfg, st, s, quiet);
    case Fault(s, _) => SendBudget(cfg, st, Apply(cfg, st, a), s, []);
    case Drop(s) => SendBudget(cfg, st, Apply(cfg, st, a), s, []);
  }

  lemma {:induction false} RunsBudget(cfg: Config, st: Sys, acts: seq<Action>, end: Sys)
    requires Legal(cfg) && Inv(cfg, st) && Budget(st) && Runs(cfg, st, acts, end)
    ensures Budget(end)
    decreases |acts|
  {
    hide Inv, Budget, Apply, Enabled;
    if acts != [] {
      ApplyInv(cfg, st, acts[0]);
      ApplyBudget(cfg, st, acts[0]);
      RunsBudget(cfg, Apply(cfg, st, acts[0]), acts[1..], end);
    }
  }

  lemma ReachableBudget(cfg: Config, st: Sys)
    requires Legal(cfg) && Reachable(cfg, st)
    ensures Inv(cfg, st) && Budget(st)
  {
    hide Inv, Runs;
    var start: Image, guestSim: Image, acts: seq<Action> :| Runs(cfg, Init(cfg, start, guestSim), acts, st);
    InitInv(cfg, start, guestSim);
    RunsInv(cfg, Init(cfg, start, guestSim), acts, st);
    RunsBudget(cfg, Init(cfg, start, guestSim), acts, st);
  }

  /** THEOREM.  The host is at most two epochs ahead of the guest, and of anything the
      guest has in flight. */
  lemma AtMostTwoAhead(cfg: Config, st: Sys)
    requires Legal(cfg) && Reachable(cfg, st)
    ensures Epoch(st.guest) <= Epoch(st.host) <= Epoch(st.guest) + 2
    ensures forall m <- st.toHost :: Epoch(st.host) <= m.epoch + 2
  {
    hide ToGuest, ToHost, Pace, Logs, Sims, Sums, Cover;
    ReachableBudget(cfg, st);
    PaidAll(st.toHost, 0, Epoch(st.guest), st.guest.pend, Level(st.host));
  }
}
