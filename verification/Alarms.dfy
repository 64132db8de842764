/** What makes the host want a push.  A checksum can only be about its own epoch; a request may
    be about an epoch it has left, and then it makes the host push a second time. */
module Alarms {
  import opened Protocol
  import opened Channels
  import opened Invariant
  import opened Agreement
  import opened Images
  import opened Repair
  import opened Safety
  import opened Delay

  /** Both consoles have reported tick t of epoch e, differently. */
  predicate Wrong(h: Con, g: Con, e: nat, t: int) {
    && e < |h.books| && e < |g.books|
    && t in h.books[e].sums && t in g.books[e].sums && h.books[e].sums[t] != g.books[e].sums[t]
  }

  ghost predicate SomeWrong(h: Con, g: Con) { exists e: nat, t :: Wrong(h, g, e, t) }

  /** A request in flight is about a difference of the epoch it was sent in. */
  ghost predicate Grounded(h: Con, g: Con, toHost: seq<Msg>) {
    forall m <- toHost :: m.frame.Resync? ==> Wrong(h, g, m.epoch, m.frame.tick)
  }

  /** The checkpoints of the epochs a console has left lie before the one it is in. */
  ghost predicate PastBelow(c: Con) {
    forall e :: 0 <= e < |c.books| - 1 ==> forall t <- c.books[e].sums :: t < Era0(c).base
  }

  /** Nobody wants a push, and none has been made, without a difference. */
  ghost predicate Caused(h: Con, g: Con) {
    h.pend || g.pend || Epoch(h) > 0 ==> SomeWrong(h, g)
  }

  ghost predicate Honest(st: Sys) {
    Grounded(st.host, st.guest, st.toHost) && PastBelow(st.host) && Caused(st.host, st.guest)
  }

  // ------------------------------------------------ every step keeps it

  /** What was reported stays reported. */
  ghost predicate Grows(c: Con, c': Con) {
    && |c.books| <= |c'.books|
    && forall e :: 0 <= e < |c.books| ==> SumsGrow(c.books[e].sums, c'.books[e].sums)
  }

  predicate SumsGrow(a: map<int, int>, b: map<int, int>) { forall t <- a :: t in b && b[t] == a[t] }

  lemma WrongStays(h: Con, g: Con, h': Con, g': Con)
    requires Grows(h, h') && Grows(g, g')
    ensures forall e: nat, t :: Wrong(h, g, e, t) ==> Wrong(h', g', e, t)
    ensures SomeWrong(h, g) ==> SomeWrong(h', g')
  {
    forall e: nat, t | Wrong(h, g, e, t) ensures Wrong(h', g', e, t) {
      assert SumsGrow(h.books[e].sums, h'.books[e].sums) && SumsGrow(g.books[e].sums, g'.books[e].sums);
    }
    if SomeWrong(h, g) {
      var e: nat, t :| Wrong(h, g, e, t);
      assert Wrong(h', g', e, t);
    }
  }

  lemma GroundedStays(h: Con, g: Con, h': Con, g': Con, ch: seq<Msg>)
    requires Grounded(h, g, ch) && Grows(h, h') && Grows(g, g')
    ensures Grounded(h', g', ch)
  {
    hide Wrong;
    WrongStays(h, g, h', g');
  }

  lemma PrefixGrows(c: Con, c': Con)
    requires |c.books| <= |c'.books| && c'.books[..|c.books|] == c.books
    ensures Grows(c, c')
  {
    assert forall e :: 0 <= e < |c.books| ==> c'.books[e] == c'.books[..|c.books|][e];
  }

  /** A checksum that contradicts a console's record: both have reported that tick of its epoch. */
  lemma AlarmIsReal(cfg: Config, st: Sys, s: Seat)
    requires Core(cfg, st) && Sums(st) && Inbox(st, s) != [] && Inbox(st, s)[0].frame.Crc?
    requires !Me(st, s).pend && Me(Deliver(cfg, st, s), s).pend
    ensures Inbox(st, s)[0].epoch == Epoch(Me(st, s))
    ensures Wrong(st.host, st.guest, Epoch(Me(st, s)), Inbox(st, s)[0].frame.tick)
  {
    hide ToGuest, ToHost, Pace;
    assert Inbox(st, s)[0] in Inbox(st, s);
    if s.Host? {
      HostStep(cfg.d, st.guest.eras, Next(cfg, st.guest), Era0(st.host).base, RxOf(st.host), st.toHost);
    } else {
      GuestStep(cfg.d, st.host.eras, Next(cfg, st.host), RxOf(st.guest), st.toGuest);
    }
  }

  /** What a frame does to a console's wish, and what it answers. */
  lemma FrameWish(cfg: Config, s: Seat, c: Con, f: Frame)
    ensures
      var (c', out) := OnFrame(cfg, s, c, f);
      && (c'.pend && !c.pend ==> f.Crc? || (f.Resync? && s.Host?))
      && (out == [] || (f.Crc? && !c.pend && c'.pend && s.Guest? && out == [Msg(Epoch(c), Resync(f.tick))]))
  {
    hide Splice, Rebase;
    RebaseFields(cfg, c);
    PendFalse(cfg, c);
  }

  lemma PendFalse(cfg: Config, c: Con)
    ensures !Rebase(cfg, c).pend
  {
  }

  lemma DeliverHonest(cfg: Config, st: Sys, s: Seat)
    requires Legal(cfg) && Core(cfg, st) && Sums(st) && Honest(st) && Inbox(st, s) != []
    ensures Honest(Deliver(cfg, st, s))
  {
    hide ToGuest, ToHost, Pace, Sums, OnFrame, Wrong, Grows, PastBelow, SomeWrong;
    var c, m, st' := Me(st, s), Inbox(st, s)[0], Deliver(cfg, st, s);
    var (c', out) := OnFrame(cfg, s, c, m.frame);
    assert m in Inbox(st, s);
    FrameWish(cfg, s, c, m.frame);
    DeliverGrows(cfg, st, s);
    GroundedStays(st.host, st.guest, st'.host, st'.guest, st.toHost);
    WrongStays(st.host, st.guest, st'.host, st'.guest);
    if m.frame.Crc? && !c.pend && c'.pend {
      AlarmIsReal(cfg, st, s);
      IsWrong(st.host, st.guest, Epoch(c), m.frame.tick);
    }
    if s.Host? {
      HostFrameKeeps(cfg, st);
      if m.frame.Resync? { IsWrong(st.host, st.guest, m.epoch, m.frame.tick); }
    }
  }

  lemma IsWrong(h: Con, g: Con, e: nat, t: int)
    requires Wrong(h, g, e, t)
    ensures SomeWrong(h, g)
  {
  }

  lemma DeliverGrows(cfg: Config, st: Sys, s: Seat)
    requires Sums(st) && Inbox(st, s) != []
    ensures Grows(st.host, Deliver(cfg, st, s).host) && Grows(st.guest, Deliver(cfg, st, s).guest)
  {
    hide OnFrame;
    OnFrameKept(cfg, s, Me(st, s), Inbox(st, s)[0].frame);
    PrefixGrows(Me(st, s), Me(Deliver(cfg, st, s), s));
  }

  lemma HostFrameKeeps(cfg: Config, st: Sys)
    requires Core(cfg, st) && st.toHost != []
    ensures
      var h' := Deliver(cfg, st, Host).host;
      Epoch(h') == Epoch(st.host) && (PastBelow(st.host) ==> PastBelow(h'))
  {
    hide ToGuest, ToHost, Pace;
    HostStep(cfg.d, st.guest.eras, Next(cfg, st.guest), Era0(st.host).base, RxOf(st.host), st.toHost);
  }

  lemma {:induction false} PumpHonest(cfg: Config, st: Sys, s: Seat, k: nat)
    requires Legal(cfg) && Core(cfg, st) && Sums(st) && Honest(st)
    ensures Honest(Pump(cfg, st, s, k))
    decreases k
  {
    hide Core, Sums, Honest, OnFrame, Put;
    if k != 0 && Inbox(st, s) != [] {
      DeliverHonest(cfg, st, s);
      DeliverSums(cfg, st, s);
      if s.Host? { DeliverHostCore(cfg, st); } else { DeliverGuestCore(cfg, st); }
      PumpHonest(cfg, Deliver(cfg, st, s), s, k - 1);
    }
  }

  /** Steps that touch neither books nor wishes and send no request. */
  lemma SendHonest(st: Sys, st': Sys, s: Seat, out: seq<Msg>)
    requires Honest(st) && st' == Put(st, s, Me(st', s), Inbox(st, s), out)
    requires s.Guest? ==> forall m <- out :: !m.frame.Resync?
    requires
      var c, c' := Me(st, s), Me(st', s);
      && Grows(c, c') && c'.pend == c.pend && Epoch(c') == Epoch(c) && (s.Host? ==> PastBelow(c'))
    ensures Honest(st')
  {
    hide Wrong, SomeWrong, PastBelow, Grows;
    SelfGrows(Me(st, Peer(s)));
    GroundedStays(st.host, st.guest, st'.host, st'.guest, st.toHost);
    WrongStays(st.host, st.guest, st'.host, st'.guest);
  }

  lemma SelfGrows(c: Con)
    ensures Grows(c, c)
  {
  }

  lemma SameBooks(c: Con, c': Con)
    requires c'.books == c.books && Era0(c').base == Era0(c).base
    ensures Grows(c, c') && (PastBelow(c) ==> PastBelow(c'))
  {
  }

  lemma TickGrows(cfg: Config, s: Seat, c: Con)
    requires Kept(c)
    ensures
      var (c', out) := RunTick(cfg, s, c);
      Grows(c, c') && c'.pend == c.pend && Epoch(c') == Epoch(c) && (PastBelow(c) ==> PastBelow(c'))
      && forall m <- out :: !m.frame.Resync?
  {
    hide RunTick;
    TickShape(cfg, s, c);
    KeptPast(c);
  }

  /** A push opens an epoch beyond every checkpoint so far. */
  lemma PendingHonest(cfg: Config, st: Sys, quiet: bool)
    requires Kept(st.host) && Honest(st) && Local(cfg, st.host)
    ensures Honest(AfterPending(cfg, st, Host, quiet))
  {
    hide Wrong, SomeWrong, Grows, PushMsgs;
    var h := st.host;
    var (h', out) := Pending(cfg, Host, h, quiet);
    PendingKept(cfg, Host, h, quiet);
    PrefixGrows(h, h');
    SelfGrows(st.guest);
    GroundedStays(h, st.guest, h', st.guest, st.toHost);
    WrongStays(h, st.guest, h', st.guest);
    hide Kept, Pending;
    assert PastBelow(h') by { PendingPast(cfg, h, quiet); }
    PendingCause(cfg, h, quiet);
  }

  lemma PendingCause(cfg: Config, h: Con, quiet: bool)
    ensures var h' := Pending(cfg, Host, h, quiet).0; h'.pend || Epoch(h') > 0 ==> h.pend || Epoch(h) > 0
  {
    hide PushMsgs;
  }

  lemma PendingPast(cfg: Config, h: Con, quiet: bool)
    requires Kept(h) && PastBelow(h) && Local(cfg, h)
    ensures PastBelow(Pending(cfg, Host, h, quiet).0)
  {
    hide PushMsgs;
  }

  lemma TickHonest(cfg: Config, st: Sys, s: Seat, quiet: bool)
    requires Legal(cfg) && Core(cfg, st) && Sums(st) && Honest(st) && Enabled(cfg, st, Tick(s, quiet))
    ensures Honest(Apply(cfg, st, Tick(s, quiet)))
  {
    hide ToGuest, ToHost, Pace, RunTick, Honest, Kept, Pending, Reported, Local, Grows, PastBelow;
    TickSplits(cfg, st, s, quiet);
    TickGrows(cfg, s, Me(st, s));
    var mid := AfterTick(cfg, st, s);
    assert Honest(mid) by { TickSendHonest(cfg, st, s); }
    if s.Guest? {
      GuestPendingIdle(cfg, mid, quiet);
    } else {
      HostTickCore(cfg, st);
      TickSums(cfg, s, st.host) by { BaseBelow(cfg, st.host); }
      PendingHonest(cfg, mid, quiet);
    }
  }

  lemma BaseBelow(cfg: Config, c: Con)
    requires Local(cfg, c)
    ensures Era0(c).base <= c.tick
  {
  }

  lemma TickSendHonest(cfg: Config, st: Sys, s: Seat)
    requires Honest(st) && Kept(Me(st, s))
    ensures Honest(AfterTick(cfg, st, s))
  {
    hide RunTick, Kept, Grounded, Caused, PastBelow, Grows;
    TickGrows(cfg, s, Me(st, s));
    SendHonest(st, AfterTick(cfg, st, s), s, RunTick(cfg, s, Me(st, s)).1);
  }

  lemma ApplyHonest(cfg: Config, st: Sys, a: Action)
    requires Legal(cfg) && Inv(cfg, st) && Honest(st) && Enabled(cfg, st, a)
    ensures Honest(Apply(cfg, st, a))
  {
    hide Core, Logs, Sims, Sums, Cover, Honest, RunPass, Pump, CanPump, Grows;
    match a
    case Wait(s, k) => PumpHonest(cfg, st, s, k);
    case PassStart(s, k) =>
      PumpHonest(cfg, st, s, k);
      QuietHonest(Pump(cfg, st, s, k), Apply(cfg, st, a), s, []);
    case Capture(s, cell) =>
      QuietHonest(st, Apply(cfg, st, a), s, [Msg(Epoch(Me(st, s)), Input(Me(st, s).tick + cfg.d, cell))]);
    case Stall(s, k) => PumpHonest(cfg, st, s, k);
    case Tick(s, quiet) => TickHonest(cfg, st, s, quiet);
    case Fault(s, _) => QuietHonest(st, Apply(cfg, st, a), s, []);
    case Drop(s) => QuietHonest(st, Apply(cfg, st, a), s, []);
  }

  lemma QuietHonest(st: Sys, st': Sys, s: Seat, out: seq<Msg>)
    requires Honest(st) && st' == Put(st, s, Me(st', s), Inbox(st, s), out) && forall m <- out :: !m.frame.Resync?
    requires
      var c, c' := Me(st, s), Me(st', s);
      c'.books == c.books && Era0(c').base == Era0(c).base && c'.pend == c.pend && Epoch(c') == Epoch(c)
    ensures Honest(st')
  {
    hide PastBelow, Grows, Grounded, Caused;
    SameBooks(Me(st, s), Me(st', s));
    SendHonest(st, st', s, out);
  }

  lemma {:induction false} RunsHonest(cfg: Config, st: Sys, acts: seq<Action>, end: Sys)
    requires Legal(cfg) && Inv(cfg, st) && Honest(st) && Runs(cfg, st, acts, end)
    ensures Honest(end)
    decreases |acts|
  {
    hide Inv, Honest, Apply, Enabled;
    if acts != [] {
      ApplyInv(cfg, st, acts[0]);
      ApplyHonest(cfg, st, acts[0]);
      RunsHonest(cfg, Apply(cfg, st, acts[0]), acts[1..], end);
    }
  }

  lemma ReachableHonest(cfg: Config, st: Sys)
    requires Legal(cfg) && Reachable(cfg, st)
    ensures Inv(cfg, st) && Honest(st)
  {
    hide Inv, Runs;
    var start: Image, guestSim: Image, acts: seq<Action> :| Runs(cfg, Init(cfg, start, guestSim), acts, st);
    InitInv(cfg, start, guestSim);
    RunsInv(cfg, Init(cfg, start, guestSim), acts, st);
    RunsHonest(cfg, Init(cfg, start, guestSim), acts, st);
  }

  // ---------------------------------------------------------------- theorems

  /** The tick a checksum or a request is about. */
  function About(f: Frame): int { if f.Crc? || f.Resync? then f.tick else 0 }

  /** THEOREM.  No false alarm: a frame that makes a console want a push is a checksum or, at the
      host, a request; and both consoles have reported its tick in the epoch it was sent in,
      differently.  A checksum is of the console's own epoch; a request is exactly if its tick
      is not before that epoch. */
  lemma NoFalseAlarm(cfg: Config, st: Sys, s: Seat)
    requires Legal(cfg) && Reachable(cfg, st) && Inbox(st, s) != []
    requires !Me(st, s).pend && Me(Deliver(cfg, st, s), s).pend
    ensures
      var m := Inbox(st, s)[0];
      && (m.frame.Crc? || (m.frame.Resync? && s.Host?)) && Wrong(st.host, st.guest, m.epoch, About(m.frame))
      && (m.epoch == Epoch(Me(st, s)) <==> m.frame.Crc? || Era0(st.host).base <= m.frame.tick)
  {
    hide Core, Logs, Sims, Sums, Cover, Reachable, Wrong, Grounded, PastBelow, Caused, OnFrame;
    ReachableHonest(cfg, st);
    var m := Inbox(st, s)[0];
    FrameWish(cfg, s, Me(st, s), m.frame);
    if m.frame.Crc? {
      AlarmIsReal(cfg, st, s);
    } else {
      RequestIsOf(cfg, st);
    }
  }

  /** THEOREM.  Which requests are stale.  The one next in line at the host is of the host's epoch
      exactly if its tick is not before the epoch's first, and exactly then both consoles have
      reported that tick differently in it. */
  lemma RequestIsOf(cfg: Config, st: Sys)
    requires Legal(cfg) && Reachable(cfg, st) && st.toHost != [] && st.toHost[0].frame.Resync?
    ensures
      var m, t, now := st.toHost[0], st.toHost[0].frame.tick, Era0(st.host).base <= st.toHost[0].frame.tick;
      && Wrong(st.host, st.guest, m.epoch, t) && m.epoch <= Epoch(st.host)
      && (m.epoch == Epoch(st.host) <==> now) && (Wrong(st.host, st.guest, Epoch(st.host), t) <==> now)
  {
    hide Core, Logs, Sims, Cover, Reachable, Caused;
    ReachableHonest(cfg, st);
    assert st.toHost[0] in st.toHost;
  }

  /** THEOREM.  Nobody ever wants a push, and none is ever made, before both consoles have
      reported some tick of one epoch differently. */
  lemma NoPushWithoutDifference(cfg: Config, st: Sys)
    requires Legal(cfg) && Reachable(cfg, st) && (st.host.pend || st.guest.pend || Epoch(st.host) > 0)
    ensures SomeWrong(st.host, st.guest)
  {
    hide Inv, Reachable, SomeWrong, Grounded, PastBelow;
    ReachableHonest(cfg, st);
  }

  // ---------------------------------------------------------------- the second push

  /** A host pass that ends in a push. */
  ghost predicate Pushed(cfg: Config, a: Sys, b: Sys) {
    var h, h' := a.host, b.host;
    && b.guest == a.guest && b.toHost == a.toHost && |h'.books| == |h.books| + 1 && |h'.eras| == |h.eras| + 1
    && h'.tick == h.tick + 1 + LEAD && h'.wm == h'.tick + cfg.d - 1 && h'.pc.Entry?
    && !h'.hold && !h'.pend && !h'.dropped && Book0(h').sums == map[]
    && (forall e :: 0 <= e < |h.books| - 1 ==> h'.books[e] == h.books[e])
    && (!AtCheckpoint(h) ==> h'.books[|h.books| - 1].sums == Book0(h).sums)
  }

  lemma PushPass(cfg: Config, st: Sys, k: nat) returns (end: Sys)
    requires Enabled(cfg, st, PassStart(Host, k))
    requires var h := Pump(cfg, st, Host, k).host; !h.dropped && h.wm >= h.tick && h.pend && !h.hold
    ensures Leads(cfg, st, end) && Pushed(cfg, Pump(cfg, st, Host, k), end)
  {
    hide Runs, Leads, Pump, CanPump, Pushed, Apply, Enabled;
    var mid := StartAndCapture(cfg, st, Host, k, IDLE);
    PushTick(cfg, Pump(cfg, st, Host, k), mid);
    end := Apply(cfg, mid, Tick(Host, true));
    LeadsBy(cfg, mid, Tick(Host, true));
    LeadsOn(cfg, st, mid, end);
  }

  lemma PushTick(cfg: Config, a: Sys, mid: Sys)
    requires var h := a.host; !h.dropped && h.wm >= h.tick && h.pend && !h.hold
    requires
      var h := a.host;
      mid == Put(a, Host, Captured(cfg, h, IDLE), a.toHost, [Msg(Epoch(h), Input(h.tick + cfg.d, IDLE))])
    ensures Enabled(cfg, mid, Tick(Host, true)) && Pushed(cfg, a, Apply(cfg, mid, Tick(Host, true)))
  {
    hide Pump, CanPump, PushMsgs, RunTick;
    TickShape(cfg, Host, mid.host);
    TickUp(cfg, Host, mid.host);
  }

  lemma TickUp(cfg: Config, s: Seat, c: Con)
    ensures RunTick(cfg, s, c).0.dropped == c.dropped && RunTick(cfg, s, c).0.pc.Entry?
  {
    hide BookAfter, SimAfter, Record;
  }

  /** Both run tick 0, the guest before it reads anything. */
  lemma BothFirst(d: int) returns (b: Sys)
    requires 1 <= d < LEAD
    ensures Leads(Frozen(d), Init(Frozen(d), BLANK, SPOILT), b)
    ensures FirstTickDone(b.host, d - 1, 0) && FirstTickDone(b.guest, d - 1, 1)
    ensures Book0(b.host).sums == map[0 := 0] && Book0(b.guest).sums == map[0 := 1]
    ensures b.toGuest == [Msg(0, Input(d, IDLE)), Msg(0, Crc(0, 0))]
    ensures b.toHost == [Msg(0, Input(d, IDLE)), Msg(0, Crc(0, 1))]
  {
    hide Runs, Leads, PadsOf, Pump;
    var cfg := Frozen(d);
    var s0 := Init(cfg, BLANK, SPOILT);
    CanStart(cfg, s0, Host);
    PumpNone(cfg, s0, Host);
    var a := Pass(cfg, s0, Host, 0, IDLE);
    CanStart(cfg, a, Guest);
    PumpNone(cfg, a, Guest);
    b := Pass(cfg, a, Guest, 0, IDLE);
    LeadsOn(cfg, s0, a, b);
  }

  /** The guest's next pass opens with the host's checksum, and it asks. */
  lemma GuestAsks(d: int, a: Sys) returns (b: Sys)
    requires 1 <= d < LEAD && FirstTickDone(a.guest, d - 1, 1)
    requires a.toGuest == [Msg(0, Input(d, IDLE)), Msg(0, Crc(0, 0))]
    requires a.toHost == [Msg(0, Input(d, IDLE)), Msg(0, Crc(0, 1))]
    ensures Leads(Frozen(d), a, b) && b.host == a.host && Epoch(b.guest) == 0
    ensures b.toHost == [Msg(0, Input(d, IDLE)), Msg(0, Crc(0, 1)), Msg(0, Resync(0))]
  {
    hide Runs, Leads, Pump;
    var cfg := Frozen(d);
    PumpTwo(cfg, a, Guest);
    b := Apply(cfg, a, PassStart(Guest, 2));
    LeadsBy(cfg, a, PassStart(Guest, 2));
  }

  /** Its own alarm makes the host push. */
  lemma FirstPush(d: int, b: Sys) returns (c: Sys)
    requires 1 <= d < LEAD && FirstTickDone(b.host, d - 1, 0) && Book0(b.host).sums == map[0 := 0]
    requires b.toHost == [Msg(0, Input(d, IDLE)), Msg(0, Crc(0, 1)), Msg(0, Resync(0))]
    ensures Leads(Frozen(d), b, c) && c.guest == b.guest && c.toHost == [Msg(0, Resync(0))]
    ensures
      var h := c.host;
      && h.tick == 18 && h.wm == d + 17 && h.pc.Entry? && !h.pend && !h.hold && !h.dropped
      && |h.eras| == |h.books| == 2 && h.books[0].sums == map[0 := 0] && h.books[1].sums == map[]
  {
    hide Runs, Leads, Pump;
    var cfg := Frozen(d);
    PumpTwo(cfg, b, Host);
    c := PushPass(cfg, b, 2);
  }

  /** The request, overtaken by that push, makes it push again. */
  lemma PushAgain(d: int, c: Sys) returns (st: Sys)
    requires 1 <= d < LEAD && c.toHost == [Msg(0, Resync(0))]
    requires
      var h := c.host;
      && h.tick == 18 && h.wm == d + 17 && h.pc.Entry? && !h.pend && !h.hold && !h.dropped
      && |h.eras| == |h.books| == 2 && h.books[0].sums == map[0 := 0] && h.books[1].sums == map[]
    ensures Leads(Frozen(d), c, st) && st.guest == c.guest && |st.host.eras| == |st.host.books| == 3
    ensures st.host.books[0].sums == map[0 := 0] && st.host.books[1].sums == map[]
  {
    hide Runs, Leads, Pump;
    var cfg := Frozen(d);
    PumpOne(cfg, c, Host);
    st := PushPass(cfg, c, 1);
  }

  /** THEOREM.  "Once" does not hold: for every legal delay there is a run in which one
      difference, at tick 0, makes the host push twice before the guest has seen either push.
      The second push repairs nothing: the host reported no checksum in the epoch it leaves. */
  lemma SecondPush(d: int) returns (st: Sys)
    requires 1 <= d < LEAD
    ensures Reachable(Frozen(d), st) && Epoch(st.host) == 2 && Epoch(st.guest) == 0
    ensures |st.host.books| == 3 && st.host.books[0].sums == map[0 := 0] && st.host.books[1].sums == map[]
  {
    hide Runs, Leads, Reachable;
    var cfg, s0 := Frozen(d), Init(Frozen(d), BLANK, SPOILT);
    var a := BothFirst(d);
    var b := GuestAsks(d, a);
    var c := FirstPush(d, b);
    st := PushAgain(d, c);
    LeadsOn(cfg, s0, a, b);
    LeadsOn(cfg, s0, b, c);
    LeadsOn(cfg, s0, c, st);
    LeadsReachable(cfg, s0, st);
  }
}
