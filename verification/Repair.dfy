/** Desync detection: a checksum comparison never raises a false alarm, and a real
    difference makes the host push within a bounded number of ticks. */
module Repair {
  import opened Protocol
  import opened Channels
  import opened Invariant

  // ------------------------------------------------ what the checksums in flight mean

  /** Own records are the checksums of this epoch's recent checkpoints. */
  ghost predicate Kept(c: Con) {
    var sums := Book0(c).sums;
    && |c.books| == |c.eras|
    && |Book0(c).log| == c.tick - Era0(c).base
    && (forall e :: 0 <= e < |c.books| ==> SumsWithin(c.books[e], c.eras[e].base))
    && (forall t <- c.records :: t in sums && c.records[t] == sums[t])
    && (forall t <- c.records :: t + 256 > LastCheckpoint(c))
    && (forall t <- sums :: Era0(c).base <= t < c.tick)
    && (!c.hold ==> forall t <- sums :: c.tick - 256 <= t ==> t in c.records)
  }

  /** The latest checkpoint at or before the tick this console ran last. */
  function LastCheckpoint(c: Con): int { (c.tick - 1) / CHECKPOINT * CHECKPOINT }

  ghost predicate SumsWithin(b: Book, base: int) {
    forall t <- b.sums :: t < base + |b.log| && t % CHECKPOINT == 0
  }

  ghost predicate Reported(c: Con, ch: seq<Msg>) {
    forall m <- ch :: m.frame.Crc? ==>
      m.epoch < |c.books| && m.frame.tick in c.books[m.epoch].sums && m.frame.sum == c.books[m.epoch].sums[m.frame.tick]
  }

  ghost predicate Sums(st: Sys) {
    && Kept(st.host) && Kept(st.guest)
    && Reported(st.host, st.toGuest) && Reported(st.guest, st.toHost)
    && (st.host.pend ==> st.host.waited < PATIENCE)
  }

  // ------------------------------------------------ chains of custody for a difference

  datatype Want = AnyResync | TheCrc(tick: int)

  predicate Meets(f: Frame, w: Want) {
    match w
    case AnyResync => f.Resync?
    case TheCrc(t) => f.Crc? && f.tick == t
  }

  /** The wanted frame is in the channel, and no input beyond `bound` comes before it. */
  ghost predicate Before(ch: seq<Msg>, bound: int, w: Want)
    decreases |ch|
  {
    ch != [] &&
    (Meets(ch[0].frame, w) || ((ch[0].frame.Input? ==> ch[0].frame.tick <= bound) && Before(ch[1..], bound, w)))
  }

  /** A difference at checkpoint t is on its way to a push. */
  ghost predicate Covered(d: int, h: Con, g: Con, toHost: seq<Msg>, toGuest: seq<Msg>, t: int) {
    || (h.pend && h.tick <= t + 2 * d + 2 + h.waited)
    || (h.wm <= t + 2 * d + 1 && Before(toHost, t + 2 * d + 1, AnyResync))
    || (h.wm <= t + d && Before(toHost, t + d, TheCrc(t)))
    || (g.wm <= t + d && Before(toGuest, t + d, TheCrc(t)))
  }

  predicate Differ(h: Con, g: Con, t: int) {
    t in Book0(h).sums && t in Book0(g).sums && Book0(h).sums[t] != Book0(g).sums[t]
  }

  ghost predicate HasResync(ch: seq<Msg>) { exists m <- ch :: m.frame.Resync? }

  ghost predicate Cover(cfg: Config, st: Sys) {
    var h, g := st.host, st.guest;
    |h.eras| == |g.eras| ==>
      && (g.pend ==> h.pend || HasResync(st.toHost))
      && forall t :: Differ(h, g, t) ==> Covered(cfg.d, h, g, st.toHost, st.toGuest, t)
  }

  lemma {:induction false} BeforeAppend(ch: seq<Msg>, more: seq<Msg>, bound: int, w: Want)
    requires Before(ch, bound, w)
    ensures Before(ch + more, bound, w)
    decreases |ch|
  {
    assert (ch + more)[0] == ch[0] && (ch + more)[1..] == ch[1..] + more;
    if !Meets(ch[0].frame, w) { BeforeAppend(ch[1..], more, bound, w); }
  }

  lemma {:induction false} BeforeFound(ch: seq<Msg>, bound: int, w: Want, m: Msg)
    requires m in ch && Meets(m.frame, w)
    requires forall x <- ch :: x.frame.Input? ==> x.frame.tick <= bound
    ensures Before(ch, bound, w)
    decreases |ch|
  {
    if ch[0] != m { BeforeFound(ch[1..], bound, w, m); }
  }

  /** Inputs in flight to a guest of the host's epoch are captures the host has made. */
  lemma {:induction false} GuestInputsBelow(d: int, eras: seq<Era>, next: int, rx: Rx, ch: seq<Msg>)
    requires ToGuest(d, eras, next, rx, ch) && rx.epoch == |eras| - 1
    ensures forall m <- ch :: m.frame.Input? ==> m.frame.tick < next
    ensures rx.wm < next
    decreases |ch|
  {
    if ch != [] {
      GuestInputsBelow(d, eras, next, AfterToGuest(d, eras, rx, ch[0].frame), ch[1..]);
      assert forall m <- ch :: m == ch[0] || m in ch[1..];
    }
  }

  // ------------------------------------------------ delivery

  lemma OnFrameKept(cfg: Config, s: Seat, c: Con, f: Frame)
    requires Kept(c)
    ensures
      var (c', out) := OnFrame(cfg, s, c, f);
      && Kept(c') && |c.books| <= |c'.books| && c'.books[..|c.books|] == c.books
      && (out == [] || (|out| == 1 && out[0].frame.Resync?))
  {
    hide Splice;
  }

  lemma DeliverSums(cfg: Config, st: Sys, s: Seat)
    requires Sums(st) && Inbox(st, s) != []
    ensures Sums(Deliver(cfg, st, s))
  {
    hide OnFrame, Kept;
    var c := Me(st, s);
    var (c', out) := OnFrame(cfg, s, c, Inbox(st, s)[0].frame);
    OnFrameKept(cfg, s, c, Inbox(st, s)[0].frame);
    assert forall e :: 0 <= e < |c.books| ==> c'.books[e] == c'.books[..|c.books|][e];
    assert Reported(c', Inbox(st, Peer(s)) + out);
    assert s.Host? && c'.pend ==> c'.waited < PATIENCE by { OnFramePend(cfg, s, c, Inbox(st, s)[0].frame); }
  }

  lemma OnFramePend(cfg: Config, s: Seat, c: Con, f: Frame)
    ensures
      var c' := OnFrame(cfg, s, c, f).0;
      c'.pend ==> (c.pend && c'.waited == c.waited) || c'.waited == 0
  {
  }

  /** The host's checksum of a differing tick reaches the guest: a request is, or goes,
      on its way to the host. */
  lemma GuestAlarm(cfg: Config, st: Sys, t: int)
    requires Legal(cfg) && Core(cfg, st) && Sums(st) && Cover(cfg, st) && st.toGuest != []
    requires |st.host.eras| == |st.guest.eras| && Differ(st.host, st.guest, t)
    requires st.guest.wm <= t + cfg.d && Meets(st.toGuest[0].frame, TheCrc(t)) && !st.host.pend
    ensures
      && st.host.wm <= t + 2 * cfg.d + 1
      && Before(Deliver(cfg, st, Guest).toHost, t + 2 * cfg.d + 1, AnyResync)
  {
    hide ToGuest, ToHost, Pace, Before, Covered, Splice, Rebase;
    var h, g := st.host, st.guest;
    GuestStep(cfg.d, h.eras, Next(cfg, h), RxOf(g), st.toGuest);
    Watermarks(cfg, st);
    var out := OnFrame(cfg, Guest, g, st.toGuest[0].frame).1;
    assert Next(cfg, g) <= t + 2 * cfg.d + 2;
    assert st.toGuest[0] in st.toGuest;
    var m := if g.pend then (var m :| m in st.toHost && m.frame.Resync?; m) else out[0];
    BeforeFound(st.toHost + out, t + 2 * cfg.d + 1, AnyResync, m);
  }

  /** Delivering to the guest keeps a difference on its way to a push. */
  lemma GuestCovered(cfg: Config, st: Sys, t: int)
    requires Legal(cfg) && Core(cfg, st) && Sums(st) && Cover(cfg, st) && st.toGuest != []
    requires |st.host.eras| == |st.guest.eras| && Differ(st.host, st.guest, t)
    ensures
      var st' := Deliver(cfg, st, Guest);
      Covered(cfg.d, st'.host, st'.guest, st'.toHost, st'.toGuest, t)
  {
    hide ToGuest, ToHost, Pace, Splice, Rebase;
    var h, g := st.host, st.guest;
    var f := st.toGuest[0].frame;
    var st' := Deliver(cfg, st, Guest);
    var out := OnFrame(cfg, Guest, g, f).1;
    assert st'.toHost == st.toHost + out;
    GuestStep(cfg.d, h.eras, Next(cfg, h), RxOf(g), st.toGuest);
    SendCovered(cfg.d, h, g, st.toHost, st.toGuest, Guest, out, t);
    Watermarks(cfg, st);
    assert h.pend ==> h.tick <= h.wm + 1 <= Next(cfg, g) <= g.wm + cfg.d + 2;
    if g.wm <= t + cfg.d && Meets(f, TheCrc(t)) && !h.pend {
      GuestAlarm(cfg, st, t);
    }
  }

  lemma DeliverGuestCover(cfg: Config, st: Sys)
    requires Legal(cfg) && Core(cfg, st) && Sums(st) && Cover(cfg, st) && st.toGuest != []
    ensures Cover(cfg, Deliver(cfg, st, Guest))
  {
    hide ToGuest, ToHost, Pace, Covered;
    var h, g := st.host, st.guest;
    var st' := Deliver(cfg, st, Guest);
    var f := st.toGuest[0].frame;
    GuestStep(cfg.d, h.eras, Next(cfg, h), RxOf(g), st.toGuest);
    if |h.eras| == |g.eras| {
      assert !f.End? && !f.Begin?;
      forall t | Differ(st'.host, st'.guest, t)
        ensures Covered(cfg.d, st'.host, st'.guest, st'.toHost, st'.toGuest, t)
      {
        assert Differ(h, g, t);
        GuestCovered(cfg, st, t);
      }
      var out := OnFrame(cfg, Guest, g, f).1;
      assert forall m <- st.toHost :: m in st.toHost + out;
      assert out != [] ==> out[0] in st.toHost + out && out[0].frame.Resync?;
    }
  }

  /** So does delivering to the host. */
  lemma HostCovered(cfg: Config, st: Sys, t: int)
    requires Legal(cfg) && Core(cfg, st) && Sums(st) && Cover(cfg, st) && st.toHost != []
    requires |st.host.eras| == |st.guest.eras| && Differ(st.host, st.guest, t)
    ensures
      var st' := Deliver(cfg, st, Host);
      Covered(cfg.d, st'.host, st'.guest, st'.toHost, st'.toGuest, t)
  {
    hide ToGuest, ToHost, Pace, Core, Sums, Cover, OnFrame;
    HostDelivery(cfg, st, t);
    var (h', out) := OnFrame(cfg, Host, st.host, st.toHost[0].frame);
    var st' := Deliver(cfg, st, Host);
    assert st' == Sys(h', st.guest, st.toHost[1..], st.toGuest) by { assert st.toGuest + [] == st.toGuest; }
  }

  lemma HostDelivery(cfg: Config, st: Sys, t: int)
    requires Legal(cfg) && Core(cfg, st) && Sums(st) && Cover(cfg, st) && st.toHost != []
    requires |st.host.eras| == |st.guest.eras| && Differ(st.host, st.guest, t)
    ensures
      var h, f := st.host, st.toHost[0].frame;
      var (h', out) := OnFrame(cfg, Host, h, f);
      && Covered(cfg.d, h, st.guest, st.toHost, st.toGuest, t) && out == [] && h'.tick == h.tick
      && (h.pend ==> h'.pend && h'.waited == h.waited)
      && h.tick <= h.wm + 1 <= st.guest.wm + cfg.d + 2 && (!h.pend && h'.pend ==> h'.waited == 0)
      && (Meets(f, AnyResync) || (Meets(f, TheCrc(t)) && h.wm <= t + cfg.d) ==> h'.pend)
      && (h.pend || h'.pend || h'.wm == if f.Input? && f.tick > h.wm then f.tick else h.wm)
  {
    hide ToGuest, ToHost, Pace, Splice, Rebase, Covered;
    var h, g := st.host, st.guest;
    HostStep(cfg.d, g.eras, Next(cfg, g), Era0(h).base, RxOf(h), st.toHost);
    Watermarks(cfg, st);
    assert h.tick <= h.wm + 1 <= Next(cfg, g) <= g.wm + cfg.d + 2;
    assert st.toHost[0] in st.toHost;
    assert t in h.records || h.tick > t + 256;
  }

  lemma DeliverHostCover(cfg: Config, st: Sys)
    requires Legal(cfg) && Core(cfg, st) && Sums(st) && Cover(cfg, st) && st.toHost != []
    ensures Cover(cfg, Deliver(cfg, st, Host))
  {
    hide ToGuest, ToHost, Pace, Covered;
    var h, g := st.host, st.guest;
    var st' := Deliver(cfg, st, Host);
    HostStep(cfg.d, g.eras, Next(cfg, g), Era0(h).base, RxOf(h), st.toHost);
    if |h.eras| == |g.eras| {
      forall t | Differ(st'.host, st'.guest, t)
        ensures Covered(cfg.d, st'.host, st'.guest, st'.toHost, st'.toGuest, t)
      {
        assert Differ(h, g, t);
        HostCovered(cfg, st, t);
      }
    }
  }

  lemma {:induction false} PumpRepair(cfg: Config, st: Sys, s: Seat, k: nat)
    requires Legal(cfg) && Core(cfg, st) && Sums(st) && Cover(cfg, st)
    ensures Sums(Pump(cfg, st, s, k)) && Cover(cfg, Pump(cfg, st, s, k))
    decreases k
  {
    hide Core, Sums, Cover, OnFrame, Put;
    if k != 0 && Inbox(st, s) != [] {
      if s.Host? {
        DeliverHostCore(cfg, st);
        DeliverSums(cfg, st, s);
        DeliverHostCover(cfg, st);
      } else {
        DeliverGuestCore(cfg, st);
        DeliverSums(cfg, st, s);
        DeliverGuestCover(cfg, st);
      }
      PumpRepair(cfg, Deliver(cfg, st, s), s, k - 1);
    }
  }

  // ------------------------------------------------ sending

  /** Sending an input, or nothing, leaves every custody chain in place. */
  lemma SendCover(cfg: Config, st: Sys, st': Sys, s: Seat, out: seq<Msg>)
    requires Cover(cfg, st)
    requires st' == Put(st, s, Me(st', s), Inbox(st, s), out)
    requires
      var c, c' := Me(st, s), Me(st', s);
      && |c'.eras| == |c.eras| && c'.books == c.books && c'.pend == c.pend && c'.wm == c.wm
      && c'.tick == c.tick && c'.waited == c.waited
    ensures Cover(cfg, st')
  {
    if |st.host.eras| == |st.guest.eras| {
      forall t | Differ(st'.host, st'.guest, t)
        ensures Covered(cfg.d, st'.host, st'.guest, st'.toHost, st'.toGuest, t)
      {
        assert Differ(st.host, st.guest, t);
        SendCovered(cfg.d, st.host, st.guest, st.toHost, st.toGuest, s, out, t);
      }
      assert forall m <- st.toHost :: m in st'.toHost;
    }
  }

  lemma SendCovered(d: int, h: Con, g: Con, toHost: seq<Msg>, toGuest: seq<Msg>, s: Seat, out: seq<Msg>, t: int)
    requires Covered(d, h, g, toHost, toGuest, t)
    ensures s.Host? ==> Covered(d, h, g, toHost, toGuest + out, t)
    ensures s.Guest? ==> Covered(d, h, g, toHost + out, toGuest, t)
  {
    if Before(toHost, t + 2 * d + 1, AnyResync) { BeforeAppend(toHost, out, t + 2 * d + 1, AnyResync); }
    if Before(toHost, t + d, TheCrc(t)) { BeforeAppend(toHost, out, t + d, TheCrc(t)); }
    if Before(toGuest, t + d, TheCrc(t)) { BeforeAppend(toGuest, out, t + d, TheCrc(t)); }
  }

  lemma CaptureRepair(cfg: Config, st: Sys, s: Seat, cell: Cell)
    requires Sums(st) && Cover(cfg, st) && Enabled(cfg, st, Capture(s, cell))
    ensures
      var st' := Apply(cfg, st, Capture(s, cell));
      Sums(st') && Cover(cfg, st')
  {
    hide Cover;
    var st' := Apply(cfg, st, Capture(s, cell));
    SendCover(cfg, st, st', s, [Msg(Epoch(Me(st, s)), Input(Me(st, s).tick + cfg.d, cell))]);
  }

  // ------------------------------------------------ running a tick

  /** What a tick does to the checksums. */
  lemma TickShape(cfg: Config, s: Seat, c: Con)
    ensures
      var (c', out) := RunTick(cfg, s, c);
      var x := cfg.sum(c'.sim);
      && |c'.books| == |c.books| && c'.eras == c.eras && c'.tick == c.tick + 1 && c'.wm == c.wm
      && c'.pend == c.pend && c'.waited == c.waited && c'.hold == c.hold
      && (forall e :: 0 <= e < |c.books| - 1 ==> c'.books[e] == c.books[e])
      && (if AtCheckpoint(c) then
            && out == [Msg(Epoch(c), Crc(c.tick, x))]
            && Book0(c').sums == Book0(c).sums[c.tick := x] && c'.records == Record(c.records, c.tick, x)
          else
            out == [] && Book0(c').sums == Book0(c).sums && c'.records == c.records)
  {
    hide PadsOf, Record;
  }

  lemma TickSums(cfg: Config, s: Seat, c: Con)
    requires Kept(c) && Era0(c).base <= c.tick
    ensures Kept(RunTick(cfg, s, c).0)
  {
    hide RunTick;
    TickShape(cfg, s, c);
    TickLogs(cfg, s, c);
  }

  lemma TickLogs(cfg: Config, s: Seat, c: Con)
    ensures |Book0(RunTick(cfg, s, c).0).log| == |Book0(c).log| + 1
  {
    hide TickPads, SimAfter, Record;
  }

  lemma TickKeepsSums(cfg: Config, st: Sys, s: Seat)
    requires Sums(st) && Era0(Me(st, s)).base <= Me(st, s).tick
    ensures Sums(AfterTick(cfg, st, s))
  {
    hide RunTick, Kept;
    var c := Me(st, s);
    var (c', out) := RunTick(cfg, s, c);
    TickShape(cfg, s, c);
    TickSums(cfg, s, c);
    KeptPast(c);
    assert Reported(c', Inbox(st, Peer(s)));
    assert Reported(c', out);
    assert Inbox(AfterTick(cfg, st, s), Peer(s)) == Inbox(st, Peer(s)) + out;
    assert Inbox(AfterTick(cfg, st, s), s) == Inbox(st, s);
  }

  lemma KeptPast(c: Con)
    requires Kept(c)
    ensures c.tick !in Book0(c).sums && |c.books| == |c.eras|
  {
  }

  /** Without a push, a look at a wanted push only counts. */
  lemma PendingCounts(cfg: Config, s: Seat, c: Con, quiet: bool)
    ensures
      var (c', out) := Pending(cfg, s, c, quiet);
      if |c'.eras| == |c.eras| then
        && out == [] && c' == c.(waited := c'.waited)
        && c'.waited == (if s.Host? && c.pend && !c.hold then c.waited + 1 else c.waited)
        && (s.Host? && c.pend && !c.hold ==> c'.waited < PATIENCE)
      else s.Host? && |c'.eras| == |c.eras| + 1
  {
    hide PushMsgs;
  }

  lemma PendingKept(cfg: Config, s: Seat, c: Con, quiet: bool)
    requires Kept(c)
    ensures
      var (c', out) := Pending(cfg, s, c, quiet);
      Kept(c') && |c.books| <= |c'.books| && c'.books[..|c.books|] == c.books
      && (s.Host? && c'.pend && !c.hold ==> c.pend && c'.waited < PATIENCE)
  {
    hide PushMsgs;
  }

  lemma PendingSums(cfg: Config, st: Sys, s: Seat, quiet: bool)
    requires Sums(st) && !st.host.hold
    ensures Sums(AfterPending(cfg, st, s, quiet))
  {
    hide Kept, Pending;
    var c := Me(st, s);
    var (c', out) := Pending(cfg, s, c, quiet);
    PendingKept(cfg, s, c, quiet);
    PendingSends(cfg, s, c, quiet);
    assert forall e :: 0 <= e < |c.books| ==> c'.books[e] == c'.books[..|c.books|][e];
    assert Inbox(AfterPending(cfg, st, s, quiet), Peer(s)) == Inbox(st, Peer(s)) + out;
    assert Reported(c', Inbox(st, Peer(s)));
    assert Reported(c', out);
  }

  lemma PendingSends(cfg: Config, s: Seat, c: Con, quiet: bool)
    ensures forall m <- Pending(cfg, s, c, quiet).1 :: !m.frame.Crc?
  {
    hide PushMsgs, Rebase;
    NoCrcInPush(Epoch(c), c.tick + LEAD, c.sim);
  }

  lemma {:induction false} NoCrcInChunks(epoch: nat, img: Image, pos: nat)
    requires pos <= IMAGE
    ensures forall m <- Chunks(epoch, img, pos) :: m.frame.Chunk?
    decreases IMAGE - pos
  {
    if pos < IMAGE {
      NoCrcInChunks(epoch, img, pos + if IMAGE - pos < CHUNK then IMAGE - pos else CHUNK);
    }
  }

  lemma NoCrcInPush(epoch: nat, resume: int, img: Image)
    ensures forall m <- PushMsgs(epoch, resume, img) :: !m.frame.Crc?
  {
    NoCrcInChunks(epoch, img, 0);
  }

  /** The second console to reach a checkpoint starts the chain of custody. */
  lemma TickCover(cfg: Config, st: Sys, s: Seat, quiet: bool)
    requires Legal(cfg) && Core(cfg, st) && Sums(st) && Cover(cfg, st) && Enabled(cfg, st, Tick(s, quiet))
    ensures Cover(cfg, Apply(cfg, st, Tick(s, quiet)))
  {
    hide ToGuest, ToHost, Pace, RunTick, Pending, Kept, Covered;
    var h, g := st.host, st.guest;
    var c := Me(st, s);
    var st' := Apply(cfg, st, Tick(s, quiet));
    var (c1, out) := RunTick(cfg, s, c);
    TickShape(cfg, s, c);
    PendingCounts(cfg, s, c1, quiet);
    HostNeverHolds(cfg, st);
    if |st'.host.eras| == |st'.guest.eras| {
      assert |h.eras| == |g.eras|;
      assert out + [] == out;
      forall t | Differ(st'.host, st'.guest, t)
        ensures Covered(cfg.d, st'.host, st'.guest, st'.toHost, st'.toGuest, t)
      {
        if out != [] && t == c.tick {
          NewDifference(cfg, st, s, out[0], st'.host, st'.guest);
        } else {
          assert Differ(h, g, t);
          SendCovered(cfg.d, h, g, st.toHost, st.toGuest, s, out, t);
          SameCovered(cfg.d, h, g, st'.toHost, st'.toGuest, st'.host, st'.guest, t);
        }
      }
      assert forall m <- st.toHost :: m in st'.toHost;
    }
  }

  lemma SameCovered(d: int, h: Con, g: Con, toHost: seq<Msg>, toGuest: seq<Msg>, h': Con, g': Con, t: int)
    requires Covered(d, h, g, toHost, toGuest, t)
    requires h'.pend == h.pend && h'.wm == h.wm && g'.wm == g.wm
    requires h.pend ==> h'.tick - h'.waited <= h.tick - h.waited
    ensures Covered(d, h', g', toHost, toGuest, t)
  {
  }

  lemma NewDifference(cfg: Config, st: Sys, s: Seat, m: Msg, h': Con, g': Con)
    requires Legal(cfg) && Core(cfg, st) && |st.host.eras| == |st.guest.eras|
    requires Me(st, s).pc.Gate? && m.frame.Crc? && m.frame.tick == Me(st, s).tick
    requires h'.wm == st.host.wm && g'.wm == st.guest.wm
    ensures
      var toHost := if s.Host? then st.toHost else st.toHost + [m];
      var toGuest := if s.Host? then st.toGuest + [m] else st.toGuest;
      Covered(cfg.d, h', g', toHost, toGuest, Me(st, s).tick)
  {
    hide ToGuest, ToHost, Pace;
    var t := Me(st, s).tick;
    Watermarks(cfg, st);
    if s.Host? {
      GuestInputsBelow(cfg.d, st.host.eras, Next(cfg, st.host), RxOf(st.guest), st.toGuest);
      BeforeFound(st.toGuest + [m], t + cfg.d, TheCrc(t), m);
    } else {
      BeforeFound(st.toHost + [m], t + cfg.d, TheCrc(t), m);
    }
  }
}
