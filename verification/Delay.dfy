/** The input delay arrives in START and is never checked.  Lockstep agreement holds for
    every run exactly when it is between 1 and 15. */
module Delay {
  import opened Protocol
  import opened Channels
  import opened Safety

  ghost predicate Agrees(st: Sys) {
    forall e, i ::
      0 <= e < |st.host.books| && e < |st.guest.books| && 0 <= i < |st.host.books[e].log| &&
        i < |st.guest.books[e].log| ==>
        st.host.books[e].log[i] == st.guest.books[e].log[i]
  }

  ghost predicate AlwaysAgree(d: int) {
    forall cfg: Config, st: Sys :: cfg.d == d && Reachable(cfg, st) ==> Agrees(st)
  }

  // ---------------------------------------------------------------- building runs

  ghost predicate Leads(cfg: Config, a: Sys, b: Sys) { exists acts :: Runs(cfg, a, acts, b) }

  lemma LeadsSelf(cfg: Config, a: Sys)
    ensures Leads(cfg, a, a)
  {
    assert Runs(cfg, a, [], a);
  }

  lemma LeadsBy(cfg: Config, a: Sys, act: Action)
    requires Enabled(cfg, a, act)
    ensures Leads(cfg, a, Apply(cfg, a, act))
  {
    hide Apply, Enabled;
    var b := Apply(cfg, a, act);
    assert Runs(cfg, b, [], b);
    assert [act][1..] == [];
    assert Runs(cfg, a, [act], b);
  }

  lemma {:induction false} RunsJoin(cfg: Config, a: Sys, xs: seq<Action>, b: Sys, ys: seq<Action>, c: Sys)
    requires Runs(cfg, a, xs, b) && Runs(cfg, b, ys, c)
    ensures Runs(cfg, a, xs + ys, c)
    decreases |xs|
  {
    hide Apply, Enabled;
    if xs == [] {
      assert xs + ys == ys;
    } else {
      assert (xs + ys)[0] == xs[0] && (xs + ys)[1..] == xs[1..] + ys;
      RunsJoin(cfg, Apply(cfg, a, xs[0]), xs[1..], b, ys, c);
    }
  }

  lemma LeadsOn(cfg: Config, a: Sys, b: Sys, c: Sys)
    requires Leads(cfg, a, b) && Leads(cfg, b, c)
    ensures Leads(cfg, a, c)
  {
    hide Runs;
    var xs :| Runs(cfg, a, xs, b);
    var ys :| Runs(cfg, b, ys, c);
    RunsJoin(cfg, a, xs, b, ys, c);
  }

  /** What one whole pass of seat s does after its opening pump has led to `a`. */
  ghost predicate Passed(cfg: Config, s: Seat, a: Sys, b: Sys, cell: Cell) {
    var c, c' := Me(a, s), Me(b, s);
    && Me(b, Peer(s)) == Me(a, Peer(s)) && Inbox(b, s) == Inbox(a, s)
    && c'.tick == c.tick + 1 && c'.wm == c.wm && c'.remote == c.remote &&
         c'.sim == cfg.step(c.sim, TickPads(s, Captured(cfg, c, cell)))
    && c'.hold == c.hold && c'.pend == c.pend && c'.dropped == c.dropped && c'.pc.Entry?
    && |c'.eras| == |c.eras| && Era0(c').base == Era0(c).base
    && Era0(c').sent == Era0(c).sent[c.tick + cfg.d := cell]
    && |c'.books| == |c.books|
    && Book0(c').log == Book0(c).log + [Exec(c.tick, PadsOf(s, Era0(c').sent, c.remote, c.tick))]
    && Book0(c').sums == (if AtCheckpoint(c) then Book0(c).sums[c.tick := cfg.sum(c'.sim)] else Book0(c).sums)
    && c'.records == (if AtCheckpoint(c) then Record(c.records, c.tick, cfg.sum(c'.sim)) else c.records)
    && Inbox(b, Peer(s)) == Inbox(a, Peer(s)) + [Msg(Epoch(c), Input(c.tick + cfg.d, cell))]
                            + if AtCheckpoint(c) then [Msg(Epoch(c), Crc(c.tick, cfg.sum(c'.sim)))] else []
  }

  function Captured(cfg: Config, c: Con, cell: Cell): Con {
    c.(pc := Gate, eras := c.eras[|c.eras| - 1 := Era0(c).(sent := Era0(c).sent[c.tick + cfg.d := cell])])
  }

  /** Enter a pass: pump k frames, then capture. */
  lemma StartAndCapture(cfg: Config, st: Sys, s: Seat, k: nat, cell: Cell) returns (mid: Sys)
    requires Enabled(cfg, st, PassStart(s, k)) && !Me(Pump(cfg, st, s, k), s).dropped
    ensures Leads(cfg, st, mid)
    ensures
      var a := Pump(cfg, st, s, k);
      var c := Me(a, s);
      mid == Put(a, s, Captured(cfg, c, cell), Inbox(a, s), [Msg(Epoch(c), Input(c.tick + cfg.d, cell))])
  {
    hide Runs, Pump, RunPass, CanPump;
    var a := Pump(cfg, st, s, k);
    var ready := Apply(cfg, st, PassStart(s, k));
    assert Inbox(a, Peer(s)) + [] == Inbox(a, Peer(s));
    mid := Apply(cfg, ready, Capture(s, cell));
    LeadsBy(cfg, st, PassStart(s, k));
    LeadsBy(cfg, ready, Capture(s, cell));
    LeadsOn(cfg, st, ready, mid);
  }

  lemma Pass(cfg: Config, st: Sys, s: Seat, k: nat, cell: Cell) returns (end: Sys)
    requires Enabled(cfg, st, PassStart(s, k))
    requires
      var c := Me(Pump(cfg, st, s, k), s);
      !c.dropped && c.wm >= c.tick && !(s.Host? && c.pend)
    ensures Leads(cfg, st, end) && Passed(cfg, s, Pump(cfg, st, s, k), end, cell)
  {
    hide Runs, Leads, Pump, CanPump, PadsOf, Record, Passed, Apply, Enabled, RunPass, Captured;
    var mid := StartAndCapture(cfg, st, s, k, cell);
    GateTick(cfg, Pump(cfg, st, s, k), mid, s, cell);
    end := Apply(cfg, mid, Tick(s, false));
    LeadsBy(cfg, mid, Tick(s, false));
    LeadsOn(cfg, st, mid, end);
  }

  /** The tick behind an open gate completes the pass. */
  lemma GateTick(cfg: Config, a: Sys, mid: Sys, s: Seat, cell: Cell)
    requires
      var c := Me(a, s);
      && !c.dropped && c.wm >= c.tick && !(s.Host? && c.pend)
      && mid == Put(a, s, Captured(cfg, c, cell), Inbox(a, s), [Msg(Epoch(c), Input(c.tick + cfg.d, cell))])
    ensures Enabled(cfg, mid, Tick(s, false)) && Passed(cfg, s, a, Apply(cfg, mid, Tick(s, false)), cell)
  {
    hide Runs, Pump, CanPump, PadsOf, Record, SimAfter, RunTick;
    CapturedTick(cfg, s, Me(a, s), cell);
    assert [] + Inbox(a, s) == Inbox(a, s);
  }

  lemma CapturedTick(cfg: Config, s: Seat, c: Con, cell: Cell)
    ensures
      var (c', out) := RunTick(cfg, s, Captured(cfg, c, cell));
      && c'.tick == c.tick + 1 && c'.wm == c.wm && c'.remote == c.remote &&
           c'.sim == cfg.step(c.sim, TickPads(s, Captured(cfg, c, cell)))
      && c'.hold == c.hold && c'.pend == c.pend && c'.dropped == c.dropped && c'.pc.Entry?
      && |c'.eras| == |c.eras| && Era0(c').base == Era0(c).base
      && Era0(c').sent == Era0(c).sent[c.tick + cfg.d := cell]
      && |c'.books| == |c.books|
      && Book0(c').log == Book0(c).log + [Exec(c.tick, PadsOf(s, Era0(c').sent, c.remote, c.tick))]
      && Book0(c').sums == (if AtCheckpoint(c) then Book0(c).sums[c.tick := cfg.sum(c'.sim)] else Book0(c).sums)
      && c'.records == (if AtCheckpoint(c) then Record(c.records, c.tick, cfg.sum(c'.sim)) else c.records)
      && out == if AtCheckpoint(c) then [Msg(Epoch(c), Crc(c.tick, cfg.sum(c'.sim)))] else []
  {
    hide PadsOf, Record;
  }

  /** n passes in a row, with nothing delivered and idle captures after the first. */
  ghost predicate Passes(cfg: Config, s: Seat, a: Sys, b: Sys, n: nat, cell: Cell) {
    var c, c' := Me(a, s), Me(b, s);
    && Me(b, Peer(s)) == Me(a, Peer(s)) && Inbox(b, s) == Inbox(a, s)
    && c'.tick == c.tick + n && c'.wm == c.wm && c'.remote == c.remote
    && c'.hold == c.hold && c'.pend == c.pend && c'.dropped == c.dropped && c'.pc.Entry?
    && |c'.eras| == |c.eras| && |c'.books| == |c.books|
    && (forall k <- Era0(c').sent :: (k in Era0(c).sent && Era0(c').sent[k] == Era0(c).sent[k]) ||
         Era0(c').sent[k] == cell)
    && |Book0(c').log| == |Book0(c).log| + n && Book0(c').log[..|Book0(c).log|] == Book0(c).log
    && Inbox(a, Peer(s)) <= Inbox(b, Peer(s)) && |Inbox(b, Peer(s))| >= |Inbox(a, Peer(s))| + n
    && (1 <= c.tick && c.tick + n <= CHECKPOINT ==> |Inbox(b, Peer(s))| == |Inbox(a, Peer(s))| + n)
    && (1 <= c.tick ==> PlainInputs(Inbox(b, Peer(s)), |Inbox(a, Peer(s))|, n, Epoch(c), c.tick, cfg.d, cell))
  }

  /** Before the first checkpoint, consecutive passes send inputs and nothing else. */
  ghost predicate PlainInputs(ch: seq<Msg>, from: int, n: int, e: nat, tick: int, d: int, cell: Cell) {
    forall p :: 0 <= from <= p < from + n && p < |ch| && tick + p - from < CHECKPOINT ==>
      ch[p] == Msg(e, Input(tick + p - from + d, cell))
  }

  ghost predicate SawIdle(c: Con, from: int) {
    forall i :: from <= i < |Book0(c).log| && 0 <= i ==> Book0(c).log[i].pads.guest == IDLE
  }

  ghost predicate SawRemote(c: Con, from: int) {
    forall i :: from <= i < |Book0(c).log| && 0 <= i ==>
      Book0(c).log[i].pads.guest == Lookup(c.remote, c.tick - |Book0(c).log| + i)
  }

  predicate AllIdle(ring: map<int, Cell>) { forall k <- ring :: ring[k] == IDLE }

  lemma {:induction false} ManyPasses(cfg: Config, st: Sys, s: Seat, n: nat, cell: Cell) returns (end: Sys)
    requires
      var c := Me(st, s);
      c.pc.Entry? && !c.hold && !c.dropped && !(s.Host? && c.pend) && c.wm >= c.tick + n - 1
    ensures Leads(cfg, st, end) && Passes(cfg, s, st, end, n, cell)
    ensures s.Guest? && cell == IDLE && AllIdle(Era0(Me(st, s)).sent) ==>
      AllIdle(Era0(Me(end, s)).sent) && SawIdle(Me(end, s), |Book0(Me(st, s)).log|)
    ensures s.Host? ==> SawRemote(Me(end, s), |Book0(Me(st, s)).log|)
    decreases n
  {
    hide Runs, Leads, Enabled, Passed;
    if n == 0 {
      LeadsSelf(cfg, st);
      return st;
    }
    var mid := ManyPasses(cfg, st, s, n - 1, cell);
    CanStart(cfg, mid, s);
    end := Pass(cfg, mid, s, 0, cell);
    LeadsOn(cfg, st, mid, end);
    OneMore(cfg, s, st, mid, end, n - 1, cell);
    if s.Host? {
      OneMoreRemote(cfg, mid, end, |Book0(st.host).log|, cell);
    } else if cell == IDLE && AllIdle(Era0(Me(st, s)).sent) {
      OneMoreIdle(cfg, mid, end, |Book0(st.guest).log|);
    }
  }

  lemma OneMore(cfg: Config, s: Seat, a: Sys, mid: Sys, b: Sys, n: nat, cell: Cell)
    requires Passes(cfg, s, a, mid, n, cell) && Passed(cfg, s, mid, b, cell)
    ensures Passes(cfg, s, a, b, n + 1, cell)
  {
    hide PadsOf, TickPads, Captured, Record;
    assert Book0(Me(b, s)).log[..|Book0(Me(a, s)).log|] == Book0(Me(mid, s)).log[..|Book0(Me(a, s)).log|];
  }

  lemma OneMoreRemote(cfg: Config, mid: Sys, b: Sys, from: int, cell: Cell)
    requires SawRemote(mid.host, from) && Passed(cfg, Host, mid, b, cell)
    ensures SawRemote(b.host, from)
  {
    hide Lookup, TickPads, Captured, Record;
  }

  lemma OneMoreIdle(cfg: Config, mid: Sys, b: Sys, from: int)
    requires SawIdle(mid.guest, from) && AllIdle(Era0(mid.guest).sent) && Passed(cfg, Guest, mid, b, IDLE)
    ensures SawIdle(b.guest, from) && AllIdle(Era0(b.guest).sent)
  {
    hide TickPads, Captured, Record;
  }

  lemma CanStart(cfg: Config, st: Sys, s: Seat)
    requires Me(st, s).pc.Entry? && !Me(st, s).hold && !Me(st, s).dropped
    ensures Enabled(cfg, st, PassStart(s, 0))
  {
  }

  // ---------------------------------------------------------------- d >= 16

  /** A sim that never changes, checksummed by its first byte. */
  function Frozen(d: int): Config {
    Config(d, (img: Image, p: Pads) => img, (img: Image) => img[0], (img: Image) => img)
  }
  const BLANK: Image := seq(IMAGE, _ => 0)
  const SPOILT: Image := seq(IMAGE, i => if i == 0 then 1 else 0)
  const PRESSED := Cell(1, 0)

  lemma PumpOne(cfg: Config, st: Sys, s: Seat)
    requires Inbox(st, s) != []
    ensures Pump(cfg, st, s, 1) == Deliver(cfg, st, s)
    ensures CanPump(st, s, 1)
  {
    hide Deliver;
    assert Pump(cfg, Deliver(cfg, st, s), s, 0) == Deliver(cfg, st, s);
    assert Inbox(st, s)[..1][1..] == [];
  }

  lemma PumpTwo(cfg: Config, st: Sys, s: Seat)
    requires |Inbox(st, s)| >= 2 && Size(Inbox(st, s)[1].frame) < READ_MAX
    requires Inbox(Deliver(cfg, st, s), s) != []
    ensures Pump(cfg, st, s, 2) == Deliver(cfg, Deliver(cfg, st, s), s)
    ensures CanPump(st, s, 2)
  {
    hide Deliver;
    PumpOne(cfg, Deliver(cfg, st, s), s);
    var batch := Inbox(st, s)[..2][1..];
    assert batch == [Inbox(st, s)[1]] && batch[1..] == [];
  }

  lemma {:induction false} PumpStale(cfg: Config, st: Sys, k: nat)
    requires k <= |st.toHost|
    requires forall p :: 0 <= p < k ==> st.toHost[p].frame.Input? && st.toHost[p].frame.tick <= st.host.wm
    ensures Pump(cfg, st, Host, k) == Sys(st.host, st.guest, st.toHost[k..], st.toGuest)
    decreases k
  {
    if k > 0 {
      assert st.toHost[0].frame.Input?;
      var mid := Deliver(cfg, st, Host);
      assert mid == Sys(st.host, st.guest, st.toHost[1..], st.toGuest);
      PumpStale(cfg, mid, k - 1);
      assert st.toHost[1..][k - 1..] == st.toHost[k..];
    }
  }

  lemma {:induction false} InputsFit(ms: seq<Msg>)
    requires forall m <- ms :: m.frame.Input?
    ensures TotalSize(ms) == 7 * |ms|
  {
    if ms != [] { InputsFit(ms[1..]); }
  }

  /** A console that has just run its first tick on a frozen sim. */
  predicate FirstTickDone(c: Con, wm: int, sum: int) {
    && c.tick == 1 && c.wm == wm && c.pc.Entry? && !c.hold && !c.dropped && !c.pend
    && |c.eras| == 1 && |c.books| == 1 && c.records == map[0 := sum]
  }

  lemma HostFirst(d: int) returns (a: Sys)
    requires d >= LEAD
    ensures var s0 := Init(Frozen(d), BLANK, SPOILT);
      Leads(Frozen(d), s0, a) && a.guest == s0.guest && a.toHost == []
    ensures a.toGuest == [Msg(0, Input(d, IDLE)), Msg(0, Crc(0, 0))]
    ensures FirstTickDone(a.host, d - 1, 0) && a.host.sim == BLANK
  {
    hide Runs, Leads, PadsOf, Pump;
    var cfg := Frozen(d);
    var s0 := Init(cfg, BLANK, SPOILT);
    CanStart(cfg, s0, Host);
    PumpNone(cfg, s0, Host);
    a := Pass(cfg, s0, Host, 0, IDLE);
  }

  lemma GuestFirst(d: int, a: Sys) returns (b: Sys)
    requires d >= LEAD && a.guest == Init(Frozen(d), BLANK, SPOILT).guest && a.toHost == []
    requires a.toGuest == [Msg(0, Input(d, IDLE)), Msg(0, Crc(0, 0))]
    ensures Leads(Frozen(d), a, b) && b.host == a.host && b.toGuest == []
    ensures b.toHost == [Msg(0, Input(d, PRESSED)), Msg(0, Crc(0, 1))]
    ensures FirstTickDone(b.guest, d, 1)
  {
    hide Runs, Leads, PadsOf, Pump;
    var cfg := Frozen(d);
    PumpTwo(cfg, a, Guest);
    b := Pass(cfg, a, Guest, 2, PRESSED);
  }

  lemma HostHears(d: int, b: Sys)
    requires d >= LEAD && b.toGuest == [] && FirstTickDone(b.host, d - 1, 0)
    requires b.toHost == [Msg(0, Input(d, PRESSED)), Msg(0, Crc(0, 1))]
    ensures CanPump(b, Host, 2)
    ensures
      var c := Pump(Frozen(d), b, Host, 2);
      && c.toHost == [] && c.toGuest == [] && c.guest == b.guest
      && c.host == b.host.(wm := d, remote := b.host.remote[d := PRESSED], pend := true, waited := 0)
  {
    hide Pump;
    PumpTwo(Frozen(d), b, Host);
  }

  /** The host, its peer and its channel right after the push. */
  predicate JustPushed(d: int, h: Con) {
    && h.tick == 18 && h.wm == d + 17 && h.remote == map[] && h.pc.Entry? && !h.pend && !h.hold && !h.dropped
    && |h.eras| == 2 && |h.books| == 2 && Book0(h).log == [] && Era0(h).sent == map[]
  }

  lemma HostSecond(d: int, b: Sys) returns (st: Sys)
    requires d >= LEAD && b.toGuest == [] && FirstTickDone(b.host, d - 1, 0) && b.host.sim == BLANK
    requires b.toHost == [Msg(0, Input(d, PRESSED)), Msg(0, Crc(0, 1))]
    ensures Leads(Frozen(d), b, st) && st.guest == b.guest && st.toHost == []
    ensures JustPushed(d, st.host)
    ensures st.toGuest == [Msg(0, Input(d + 1, IDLE))] + PushMsgs(0, 18, BLANK)
  {
    hide Runs, Leads, PadsOf, Pump, Chunks;
    var cfg := Frozen(d);
    HostHears(d, b);
    var c := StartAndCapture(cfg, b, Host, 2, IDLE);
    assert c.toGuest == [Msg(0, Input(d + 1, IDLE))];
    assert [] + PushMsgs(0, 18, BLANK) == PushMsgs(0, 18, BLANK);
    st := Apply(cfg, c, Tick(Host, true));
    LeadsBy(cfg, c, Tick(Host, true));
    LeadsOn(cfg, b, c, st);
  }

  /** Tick 0 is checksummed differently; the host hears of it first and pushes at tick 2. */
  lemma HostPushes(d: int) returns (st: Sys)
    requires d >= LEAD
    ensures Leads(Frozen(d), Init(Frozen(d), BLANK, SPOILT), st)
    ensures JustPushed(d, st.host) && FirstTickDone(st.guest, d, 1) && st.toHost == []
    ensures st.toGuest == [Msg(0, Input(d + 1, IDLE))] + PushMsgs(0, 18, BLANK)
  {
    hide Runs, Leads;
    var cfg := Frozen(d);
    var a := HostFirst(d);
    var b := GuestFirst(d, a);
    LeadsOn(cfg, Init(cfg, BLANK, SPOILT), a, b);
    st := HostSecond(d, b);
    LeadsOn(cfg, Init(cfg, BLANK, SPOILT), b, st);
  }

  lemma PumpNone(cfg: Config, st: Sys, s: Seat)
    ensures Pump(cfg, st, s, 0) == st && CanPump(st, s, 0)
  {
  }

  /** The guest, still in the old epoch, plays on for as long as the gate lets it. */
  lemma GuestPlaysOn(d: int, c: Sys) returns (f: Sys)
    requires d >= LEAD && FirstTickDone(c.guest, d, 1) && c.toHost == []
    requires c.toGuest == [Msg(0, Input(d + 1, IDLE))] + PushMsgs(0, 18, BLANK)
    ensures Leads(Frozen(d), c, f) && f.host == c.host && f.toGuest == PushMsgs(0, 18, BLANK)
    ensures f.guest.pc.Gate? && f.guest.wm < f.guest.tick && !f.guest.dropped && !f.guest.hold
    ensures |f.guest.eras| == 1 && |f.guest.books| == 1
    ensures |f.toHost| >= 18 && PlainInputs(f.toHost, 0, 18, 0, 1, d, PRESSED)
  {
    hide Runs, Leads, PadsOf, Pump, PushMsgs;
    var cfg := Frozen(d);
    PumpOne(cfg, c, Guest);
    assert c.toGuest[1..] == PushMsgs(0, 18, BLANK);
    var d1 := Pass(cfg, c, Guest, 1, PRESSED);
    assert d1.toHost == [Msg(0, Input(1 + d, PRESSED))];
    var e := ManyPasses(cfg, d1, Guest, d, PRESSED);
    LeadsOn(cfg, c, d1, e);
    CanStart(cfg, e, Guest);
    PumpNone(cfg, e, Guest);
    f := StartAndCapture(cfg, e, Guest, 0, PRESSED);
    LeadsOn(cfg, c, e, f);
    assert e.toHost[0] == d1.toHost[0];
    assert f.toHost == e.toHost + [Msg(0, Input(2 * d + 2, PRESSED))];
  }

  /** The host, already in the new epoch, swallows the first input beyond its watermark. */
  lemma HostAccepts(d: int, f: Sys) returns (g: Sys)
    requires d >= LEAD && JustPushed(d, f.host)
    requires |f.toHost| >= 18 && PlainInputs(f.toHost, 0, 18, 0, 1, d, PRESSED)
    ensures Leads(Frozen(d), f, g) && g.guest == f.guest
    ensures
      var h := g.host;
      && h.tick == 21 && h.wm == d + 18 && h.remote == map[d + 18 := PRESSED] && h.pc.Entry?
      && !h.pend && !h.hold && !h.dropped && |h.eras| == 2 && |h.books| == 2 && |Book0(h).log| == 3
    ensures f.toGuest + [Msg(1, Input(18 + d, IDLE))] <= g.toGuest
  {
    hide Runs, Leads, PadsOf, Pump, TickPads, Record, Captured;
    var cfg := Frozen(d);
    var g1 := StalePass(cfg, f, 9);
    assert g1.toHost == f.toHost[9..];
    var g2 := StalePass(cfg, g1, 8);
    LeadsOn(cfg, f, g1, g2);
    assert g2.toHost == f.toHost[17..];
    assert g2.toHost[0] == Msg(0, Input(d + 18, PRESSED));
    PumpOne(cfg, g2, Host);
    g := Pass(cfg, g2, Host, 1, IDLE);
    LeadsOn(cfg, f, g2, g);
  }

  lemma StalePass(cfg: Config, f: Sys, k: nat) returns (g: Sys)
    requires f.host.pc.Entry? && !f.host.hold && !f.host.dropped && !f.host.pend && f.host.wm >= f.host.tick
    requires 1 <= k <= 9 && k <= |f.toHost|
    requires forall p :: 0 <= p < k ==> f.toHost[p].frame.Input? && f.toHost[p].frame.tick <= f.host.wm
    ensures Leads(cfg, f, g)
    ensures Passed(cfg, Host, Sys(f.host, f.guest, f.toHost[k..], f.toGuest), g, IDLE)
  {
    hide Runs, Leads, PadsOf, Pump, Passed;
    PumpStale(cfg, f, k);
    assert forall m <- f.toHost[..k][1..] :: m.frame.Input?;
    InputsFit(f.toHost[..k][1..]);
    g := Pass(cfg, f, Host, k, IDLE);
  }

  /** Stalled at its gate, the guest takes a whole push, one frame a pump. */
  lemma {:induction false} TakeChunks(cfg: Config, st: Sys, img: Image, pos: nat, rest: seq<Msg>) returns (end: Sys)
    requires pos <= IMAGE && st.toGuest == Chunks(0, img, pos) + [Msg(0, End)] + rest
    requires st.guest.pc.Gate? && st.guest.wm < st.guest.tick && !st.guest.dropped && st.guest.hold
    ensures Leads(cfg, st, end) && end.host == st.host && end.toHost == st.toHost && end.toGuest == rest
    ensures
      var g, r := end.guest, st.guest.resume;
      && g.tick == r && g.wm == r + cfg.d - 1 && g.remote == map[] && g.pc.Gate? && !g.hold && !g.dropped
      && |g.eras| == |st.guest.eras| + 1 && Era0(g).sent == map[] && |g.books| == |st.guest.books| + 1 &&
           Book0(g) == Book([], map[])
    decreases IMAGE - pos
  {
    hide Runs, Leads, Pump;
    PumpOne(cfg, st, Guest);
    var mid := Apply(cfg, st, Stall(Guest, 1));
    LeadsBy(cfg, st, Stall(Guest, 1));
    if pos == IMAGE {
      end := mid;
    } else {
      var n := ChunkLen(pos);
      assert st.toGuest == [Msg(0, Chunk(pos, img[pos..pos + n]))] + (Chunks(0, img, pos + n) + [Msg(0, End)] + rest);
      end := TakeChunks(cfg, mid, img, pos + n, rest);
      LeadsOn(cfg, st, mid, end);
    }
  }

  lemma TakePush(cfg: Config, st: Sys, r: int, img: Image, rest: seq<Msg>) returns (end: Sys)
    requires st.toGuest == PushMsgs(0, r, img) + rest
    requires st.guest.pc.Gate? && st.guest.wm < st.guest.tick && !st.guest.dropped
    ensures Leads(cfg, st, end) && end.host == st.host && end.toHost == st.toHost && end.toGuest == rest
    ensures
      var g := end.guest;
      && g.tick == r && g.wm == r + cfg.d - 1 && g.remote == map[] && g.pc.Gate? && !g.hold && !g.dropped
      && |g.eras| == |st.guest.eras| + 1 && Era0(g).sent == map[] && |g.books| == |st.guest.books| + 1 &&
           Book0(g) == Book([], map[])
  {
    hide Runs, Leads, Pump, Chunks;
    PumpOne(cfg, st, Guest);
    var mid := Apply(cfg, st, Stall(Guest, 1));
    LeadsBy(cfg, st, Stall(Guest, 1));
    assert st.toGuest == [Msg(0, Begin(r))] + (Chunks(0, img, 0) + [Msg(0, End)] + rest);
    end := TakeChunks(cfg, mid, img, 0, rest);
    LeadsOn(cfg, st, mid, end);
  }

  /** Rebased inside its gate, the guest never captures tick R+d, and reads it as idle. */
  lemma GuestReadsIdle(d: int, st: Sys, more: seq<Msg>) returns (end: Sys)
    requires d >= LEAD && st.toGuest == [Msg(1, Input(18 + d, IDLE))] + more
    requires
      var g := st.guest;
      && g.tick == 18 && g.wm == d + 17 && g.pc.Gate? && !g.hold && !g.dropped
      && |g.eras| == 2 && Era0(g).sent == map[] && |g.books| == 2 && Book0(g) == Book([], map[]) && g.remote == map[]
    ensures Leads(Frozen(d), st, end) && end.host == st.host
    ensures |end.guest.books| == 2 && |end.guest.books[1].log| == d + 1
    ensures end.guest.books[1].log[d].pads.guest == IDLE
  {
    hide Runs, Leads;
    var b := GuestRunsDry(d, st);
    end := GuestReadsOn(d, b, more);
    LeadsOn(Frozen(d), st, b, end);
  }

  /** The gated tick and the d-1 passes the new watermark allows. */
  lemma GuestRunsDry(d: int, st: Sys) returns (b: Sys)
    requires d >= LEAD
    requires
      var g := st.guest;
      && g.tick == 18 && g.wm == d + 17 && g.pc.Gate? && !g.hold && !g.dropped
      && |g.eras| == 2 && Era0(g).sent == map[] && |g.books| == 2 && Book0(g) == Book([], map[]) && g.remote == map[]
    ensures Leads(Frozen(d), st, b) && b.host == st.host && b.toGuest == st.toGuest
    ensures
      var g := b.guest;
      && g.tick == 18 + d && g.wm == d + 17 && g.pc.Entry? && !g.hold && !g.dropped
      && |g.eras| == 2 && AllIdle(Era0(g).sent) && |g.books| == 2 && |Book0(g).log| == d
  {
    hide Runs, Leads, Pump, CanPump, PlainInputs;
    var cfg := Frozen(d);
    var a := Apply(cfg, st, Tick(Guest, false));
    LeadsBy(cfg, st, Tick(Guest, false));
    hide Apply, Enabled, RunPass;
    b := ManyPasses(cfg, a, Guest, d - 1, IDLE);
    LeadsOn(cfg, st, a, b);
  }

  /** The pass for tick R+d, after the host's input for it has come in. */
  lemma GuestReadsOn(d: int, b: Sys, more: seq<Msg>) returns (end: Sys)
    requires d >= LEAD && b.toGuest == [Msg(1, Input(18 + d, IDLE))] + more
    requires
      var g := b.guest;
      && g.tick == 18 + d && g.wm == d + 17 && g.pc.Entry? && !g.hold && !g.dropped
      && |g.eras| == 2 && AllIdle(Era0(g).sent) && |g.books| == 2 && |Book0(g).log| == d
    ensures Leads(Frozen(d), b, end) && end.host == b.host
    ensures |end.guest.books| == 2 && |end.guest.books[1].log| == d + 1
    ensures end.guest.books[1].log[d].pads.guest == IDLE
  {
    hide Runs, Leads, Pump;
    var cfg := Frozen(d);
    PumpOne(cfg, b, Guest);
    end := Pass(cfg, b, Guest, 1, IDLE);
  }

  lemma TooLong(d: int) returns (cfg: Config, st: Sys)
    requires d >= LEAD
    ensures cfg.d == d && Reachable(cfg, st) && !Agrees(st)
  {
    hide Runs, Leads, PushMsgs;
    cfg := Frozen(d);
    var s0 := Init(cfg, BLANK, SPOILT);
    var c := HostPushes(d);
    var f := GuestPlaysOn(d, c);
    LeadsOn(cfg, s0, c, f);
    var g := HostAccepts(d, f);
    LeadsOn(cfg, s0, f, g);
    var h := ManyPasses(cfg, g, Host, d - 2, IDLE);
    LeadsOn(cfg, s0, g, h);
    var push := PushMsgs(0, 18, BLANK);
    var more := h.toGuest[|push| + 1..];
    assert h.toGuest == push + ([Msg(1, Input(18 + d, IDLE))] + more);
    var k := TakePush(cfg, h, 18, BLANK, [Msg(1, Input(18 + d, IDLE))] + more);
    LeadsOn(cfg, s0, h, k);
    st := GuestReadsIdle(d, k, more);
    LeadsOn(cfg, s0, k, st);
    assert st.host.books[1].log[d].pads.guest == PRESSED;
    LeadsReachable(cfg, s0, st);
  }

  lemma LeadsReachable(cfg: Config, s0: Sys, st: Sys)
    requires s0 == Init(cfg, BLANK, SPOILT) && Leads(cfg, s0, st)
    ensures Reachable(cfg, st)
  {
    hide Runs;
    var acts :| Runs(cfg, s0, acts, st);
    assert Runs(cfg, Init(cfg, BLANK, SPOILT), acts, st);
  }

  // ---------------------------------------------------------------- d == 0

  /** START leaves the watermark at 255, so nobody waits for anybody. */
  lemma TooShort() returns (cfg: Config, st: Sys)
    ensures cfg.d == 0 && Reachable(cfg, st) && !Agrees(st)
  {
    hide Runs, Leads, Pump;
    cfg := Frozen(0);
    var s0 := Init(cfg, BLANK, SPOILT);
    CanStart(cfg, s0, Host);
    PumpNone(cfg, s0, Host);
    var a := Pass(cfg, s0, Host, 0, PRESSED);
    CanStart(cfg, a, Guest);
    PumpNone(cfg, a, Guest);
    st := Pass(cfg, a, Guest, 0, IDLE);
    LeadsOn(cfg, s0, a, st);
    assert st.host.books[0].log[0].pads.host == PRESSED;
    assert st.guest.books[0].log[0].pads.host == IDLE;
    LeadsReachable(cfg, s0, st);
  }

  /** THEOREM.  Over all byte-sized delays, lockstep agreement is exactly 1 <= d <= 15. */
  lemma AgreementIffLegalDelay(d: int)
    requires 0 <= d < 256
    ensures AlwaysAgree(d) <==> 1 <= d <= 15
  {
    hide Reachable;
    if 1 <= d <= 15 {
      forall cfg: Config, st: Sys | cfg.d == d && Reachable(cfg, st) ensures Agrees(st) {
        forall e, i | 0 <= e < |st.host.books| && e < |st.guest.books| && 0 <= i < |st.host.books[e].log| &&
          i < |st.guest.books[e].log|
          ensures st.host.books[e].log[i] == st.guest.books[e].log[i]
        {
          LockstepAgreement(cfg, st, e, i);
        }
      }
    } else if d == 0 {
      var cfg, st := TooShort();
    } else {
      var cfg, st := TooLong(d);
    }
  }
}
