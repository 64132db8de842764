/** The distances that make bytes enough: in every reachable state the clocks, watermarks
    and frames a console compares are so close that 256-slot rings and 16-bit signed
    differences decide exactly as unbounded ticks do. */
module Windows {
  import opened Protocol
  import opened Channels
  import opened Invariant
  import opened Agreement
  import opened Images
  import opened Repair
  import opened Safety
  import opened Progress
  import opened Epochs

  /** The furthest tick the remote ring has to be right about. */
  function Known(d: int, c: Con): int {
    if c.wm < Era0(c).base + d then Era0(c).base + d else c.wm
  }

  predicate Close(d: int, c: Con) {
    && 1 <= d < LEAD
    && -1 <= c.wm - c.tick <= 2 * d + 1
    && Era0(c).base <= c.tick && Era0(c).base + d - 1 <= c.wm
    && (forall t <- c.records :: c.tick - 320 < t < c.tick && t % CHECKPOINT == 0)
    && (forall k <- Era0(c).sent :: k <= c.tick + d)
  }

  /** A frame about to be handled: an input is next in line or a little stale, and a
      checksum is about a tick near the console's own. */
  predicate NearFrame(d: int, c: Con, f: Frame) {
    match f
    case Input(t, _) => c.wm - 2 * DRIFT <= t <= Known(d, c) + 1 && t <= c.tick + 2 * d + 2
    case Crc(t, _) => c.tick - 128 <= t <= c.tick + 128 && t % CHECKPOINT == 0
    case _ => true
  }

  lemma {:induction false} KnownAgree(d: int, eras: seq<Era>, next: int, rx: Rx, ch: seq<Msg>)
    requires ToGuest(d, eras, next, rx, ch) && forall k <- rx.got :: k <= rx.wm
    ensures forall k :: k <= rx.wm ==> (k in rx.got <==> k in eras[rx.epoch].sent)
    decreases |ch|
  {
    if rx.pos == -1 && ch != [] {
      KnownAgree(d, eras, next, AfterToGuest(d, eras, rx, ch[0].frame), ch[1..]);
    }
  }

  lemma {:induction false} KnownAgreeHost(d: int, eras: seq<Era>, next: int, base: int, rx: Rx, ch: seq<Msg>)
    requires ToHost(d, eras, next, base, rx, ch) && rx.epoch < |eras| && forall k <- rx.got :: k <= rx.wm
    ensures forall k :: k <= rx.wm ==> (k in rx.got <==> k in eras[rx.epoch].sent)
    decreases |ch|
  {
    if ch != [] {
      KnownAgreeHost(d, eras, next, base, AfterToHost(rx, ch[0]), ch[1..]);
    }
  }

  /** The next input skips at most the tick a rebase inside the gate left out. */
  lemma NextInLineGuest(cfg: Config, st: Sys)
    requires Legal(cfg) && Core(cfg, st) && Live(cfg, st)
    requires st.toGuest != [] && st.toGuest[0].frame.Input?
    ensures
      var t := st.toGuest[0].frame.tick;
      st.guest.wm < t <= Known(cfg.d, st.guest) + 1
  {
    hide ToGuest, ToHost, Pace;
    var h, g := st.host, st.guest;
    var e := |g.eras| - 1;
    var rx, f := RxOf(g), st.toGuest[0].frame;
    GuestStep(cfg.d, h.eras, Next(cfg, h), rx, st.toGuest);
    KnownAgree(cfg.d, h.eras, Next(cfg, h), AfterToGuest(cfg.d, h.eras, rx, f), st.toGuest[1..]);
    GuestRing(cfg.d, h.eras, Next(cfg, h), AfterToGuest(cfg.d, h.eras, rx, f), st.toGuest[1..]);
    var top := if e == |h.eras| - 1 then Next(cfg, h) else h.eras[e + 1].base - LEAD + cfg.d;
    assert Known(cfg.d, g) + 1 < top ==> Known(cfg.d, g) + 1 in h.eras[e].sent;
  }

  lemma NextInLineHost(cfg: Config, st: Sys)
    requires Legal(cfg) && Core(cfg, st) && Live(cfg, st)
    requires st.toHost != [] && st.toHost[0].frame.Input? && st.toHost[0].epoch == Epoch(st.host)
    ensures
      var t := st.toHost[0].frame.tick;
      st.host.wm < t <= Known(cfg.d, st.host) + 1
  {
    hide ToGuest, ToHost, Pace;
    var h, g := st.host, st.guest;
    var rx, f := RxOf(h), st.toHost[0].frame;
    HostStep(cfg.d, g.eras, Next(cfg, g), Era0(h).base, rx, st.toHost);
    KnownAgreeHost(cfg.d, g.eras, Next(cfg, g), Era0(h).base, AfterToHost(rx, st.toHost[0]), st.toHost[1..]);
    assert st.toHost[0] in st.toHost;
    assert Known(cfg.d, h) + 1 < Next(cfg, g) ==> Known(cfg.d, h) + 1 in Era0(g).sent;
  }

  lemma AlwaysClose(cfg: Config, st: Sys, s: Seat)
    requires Legal(cfg) && Inv(cfg, st)
    ensures Close(cfg.d, Me(st, s))
  {
    hide ToGuest, ToHost, Logs, Sims, Cover;
    Watermarks(cfg, st);
    if |st.guest.eras| < |st.host.eras| {
      assert st.host.eras[|st.guest.eras|].base <= Next(cfg, st.guest) + LEAD;
    }
    assert Kept(Me(st, s));
  }

  lemma HostFrameNear(cfg: Config, st: Sys)
    requires Legal(cfg) && Inv(cfg, st) && Live(cfg, st) && Budget(st) && st.toHost != []
    ensures NearFrame(cfg.d, st.host, st.toHost[0].frame)
  {
    hide ToGuest, ToHost, Pace, Logs, Sims, Cover, Live;
    var h, g := st.host, st.guest;
    var m := st.toHost[0];
    HostStep(cfg.d, g.eras, Next(cfg, g), Era0(h).base, RxOf(h), st.toHost);
    AlwaysClose(cfg, st, Host);
    assert m in st.toHost;
    if m.epoch != Epoch(h) {
      PaidAll(st.toHost, 0, Epoch(g), g.pend, Level(h));
      hide Close;
      StaleNear(cfg.d, h, m);
    } else {
      if m.frame.Input? { NextInLineHost(cfg, st); }
      AlwaysClose(cfg, st, Guest);
      Watermarks(cfg, st);
      hide Core;
      CurrentNear(cfg.d, h, g, m.frame);
    }
  }

  /** A frame of the host's epoch is close to a guest that is close to the host. */
  lemma CurrentNear(d: int, h: Con, g: Con, f: Frame)
    requires Close(d, h) && Close(d, g) && Era0(h).base == Era0(g).base
    requires h.tick <= h.wm + 1 && g.tick <= g.wm + 1 && h.wm < g.tick + d + 1 && g.wm < h.tick + d + 1
    requires f.Input? ==> h.wm < f.tick <= Known(d, h) + 1 && f.tick <= g.tick + d
    requires f.Crc? ==> h.wm <= f.tick + d && f.tick < g.tick && f.tick % CHECKPOINT == 0
    requires !f.Begin? && !f.Chunk? && !f.End?
    ensures NearFrame(d, h, f)
  {
  }

  /** A frame of an epoch the host has left, at most two epochs back. */
  lemma StaleNear(d: int, h: Con, m: Msg)
    requires Close(d, h) && m.epoch < Epoch(h) <= m.epoch + 2
    requires m.frame.Input? ==> Stale(d, Era0(h).base, RxOf(h), m.epoch, m.frame.tick)
    requires m.frame.Crc? ==>
      Stale(d, Era0(h).base, RxOf(h), m.epoch, m.frame.tick + d) && m.frame.tick % CHECKPOINT == 0
    requires !m.frame.Begin? && !m.frame.Chunk? && !m.frame.End?
    ensures NearFrame(d, h, m.frame)
  {
  }

  lemma GuestFrameNear(cfg: Config, st: Sys)
    requires Legal(cfg) && Inv(cfg, st) && Live(cfg, st) && Budget(st) && st.toGuest != []
    ensures NearFrame(cfg.d, st.guest, st.toGuest[0].frame)
  {
    hide ToGuest, ToHost, Sims, Cover, Live;
    var h, g := st.host, st.guest;
    var m := st.toGuest[0];
    var rx := RxOf(g);
    GuestStep(cfg.d, h.eras, Next(cfg, h), rx, st.toGuest);
    AlwaysClose(cfg, st, Guest);
    Watermarks(cfg, st);
    assert m in st.toGuest;
    if m.frame.Input? {
      NextInLineGuest(cfg, st);
      GuestRing(cfg.d, h.eras, Next(cfg, h), AfterToGuest(cfg.d, h.eras, rx, m.frame), st.toGuest[1..]);
    } else if m.frame.Crc? {
      assert SumsWithin(h.books[m.epoch], h.eras[m.epoch].base);
    }
  }

  lemma NeverWaitsLong(cfg: Config, st: Sys)
    requires Inv(cfg, st)
    ensures st.host.pend ==> st.host.waited < PATIENCE
  {
    hide ToGuest, ToHost, Pace, Logs, Sims, Cover, Core;
  }

  /** THEOREM.  Every comparison a reachable console is about to make is within range. */
  lemma AlwaysInRange(cfg: Config, st: Sys, s: Seat)
    requires Legal(cfg) && Reachable(cfg, st)
    ensures Close(cfg.d, Me(st, s))
    ensures Inbox(st, s) != [] ==> NearFrame(cfg.d, Me(st, s), Inbox(st, s)[0].frame)
    ensures s.Host? && st.host.pend ==> st.host.waited < PATIENCE
  {
    hide Inv, Live, Budget;
    ReachableBudget(cfg, st);
    NeverWaitsLong(cfg, st);
    ReachableLive(cfg, st);
    AlwaysClose(cfg, st, s);
    if Inbox(st, s) != [] {
      if s.Host? { HostFrameNear(cfg, st); } else { GuestFrameNear(cfg, st); }
    }
  }
}
