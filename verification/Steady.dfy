/** Two carts that take their turns evenly: every round of six turns is one tick of both clocks. */
module Steady {
  import opened Protocol
  import opened Invariant
  import opened Agreement
  import opened Repair
  import opened Safety
  import opened FaultFree
  import opened Progress
  import opened Cells
  import opened ConsoleRam
  import opened Refinement
  import opened Link
  import Fairness

  /** Each opens a pass and captures, then each goes through its gate. */
  function Round(cell: Cell): seq<Cue> {
    [Cue(Host, Enter(64)), Cue(Host, Press(cell)), Cue(Guest, Enter(64)), Cue(Guest, Press(cell)),
     Cue(Host, Turn.Gate(true, 0)), Cue(Guest, Turn.Gate(true, 0))]
  }

  function Rounds(n: nat, cell: Cell): seq<Cue> { if n == 0 then [] else Rounds(n - 1, cell) + Round(cell) }

  ghost predicate Sound(cfg: Config, st: Sys) {
    Inv(cfg, st) && Live(cfg, st) && Calm(cfg, st) && Undropped(st)
  }

  /** Between two rounds, and how much can be in flight. */
  predicate Between(st: Sys, t: int) {
    && st.host.tick == st.guest.tick == t && st.host.pc.Entry? && st.guest.pc.Entry?
    && |st.toHost| <= 2 && |st.toGuest| <= 1
  }

  /** A step without a fault keeps everything but the turn's own effect. */
  lemma ToldSound(cfg: Config, st: Sys, cue: Cue, acts: seq<Action>, st': Sys)
    requires Legal(cfg) && Sound(cfg, st) && Told(cfg, st, cue, acts, st') && !cue.turn.Upset? && !cue.turn.Hang?
    ensures Sound(cfg, st')
  {
    hide Inv, Live, Calm, Apply, Enabled, Core;
    if acts != [] {
      var a := acts[0];
      assert !a.Fault? && !a.Drop?;
      ApplyInv(cfg, st, a);
      ApplyCalm(cfg, st, a);
      InvCore(cfg, st);
      ApplyLive(cfg, st, a);
      Fairness.StaysUp(cfg, st, a);
    }
  }

  lemma InvCore(cfg: Config, st: Sys)
    requires Inv(cfg, st)
    ensures Core(cfg, st) && Logs(cfg, st)
  {
  }

  lemma {:induction false} InputsAndSums(ms: seq<Msg>)
    requires forall m <- ms :: m.frame.Input? || m.frame.Crc?
    ensures TotalSize(ms) == 7 * |ms|
  {
    if ms != [] { InputsAndSums(ms[1..]); }
  }

  // ---------------------------------------------------------------- one turn

  /** A ring that has been sent everything reaches the last capture. */
  lemma DrainedSees(cfg: Config, st: Sys, s: Seat, k: int)
    requires Core(cfg, st) && |st.host.eras| == |st.guest.eras| && Inbox(st, s) == []
    requires k in Era0(Me(st, Peer(s))).sent
    ensures Me(st, s).wm >= k
  {
  }

  /** What changes between two states of a round for the console that moves, and what does not. */
  predicate Moved(st: Sys, st': Sys, s: Seat, pc: Pc, ticks: int) {
    && Me(st', Peer(s)) == Me(st, Peer(s)) && Me(st', s).pc == pc && Me(st', s).tick == Me(st, s).tick + ticks
  }

  lemma SoundParts(cfg: Config, st: Sys)
    requires Sound(cfg, st)
    ensures |st.host.eras| == |st.guest.eras| == 1 && !st.host.hold && !st.guest.hold && !st.host.pend && !st.guest.pend
    ensures Era0(st.host).base == 0 && Era0(st.guest).base == 0
    ensures !st.host.dropped && !st.guest.dropped && Core(cfg, st) && Sums(st)
    ensures forall m <- st.toHost :: m.frame.Input? || m.frame.Crc?
    ensures forall m <- st.toGuest :: m.frame.Input? || m.frame.Crc?
  {
  }

  /** A pump only ever answers with requests. */
  lemma {:induction false} PumpAnswers(cfg: Config, st: Sys, s: Seat, k: nat) returns (sent: seq<Msg>)
    requires k <= |Inbox(st, s)|
    ensures Inbox(Pump(cfg, st, s, k), Peer(s)) == Inbox(st, Peer(s)) + sent && forall m <- sent :: m.frame.Resync?
    decreases k
  {
    hide OnFrame;
    if k == 0 {
      sent := [];
      assert Inbox(st, Peer(s)) + [] == Inbox(st, Peer(s));
    } else {
      var f := Inbox(st, s)[0].frame;
      OneAnswer(cfg, s, Me(st, s), f);
      var out := OnFrame(cfg, s, Me(st, s), f).1;
      Fairness.InboxLess(cfg, st, s);
      var more := PumpAnswers(cfg, Deliver(cfg, st, s), s, k - 1);
      sent := out + more;
      assert Inbox(st, Peer(s)) + out + more == Inbox(st, Peer(s)) + sent;
    }
  }

  lemma OneAnswer(cfg: Config, s: Seat, c: Con, f: Frame)
    ensures forall m <- OnFrame(cfg, s, c, f).1 :: m.frame.Resync?
  {
    hide Splice, Rebase;
  }

  lemma {:induction false} PumpEras(cfg: Config, st: Sys, s: Seat, k: nat)
    ensures
      var c, c' := Me(st, s), Me(Pump(cfg, st, s, k), s);
      |c.eras| <= |c'.eras| && (|c'.eras| == |c.eras| ==> c'.tick == c.tick && Era0(c').sent == Era0(c).sent)
    decreases k
  {
    hide OnFrame;
    if k != 0 && Inbox(st, s) != [] {
      FrameEras(cfg, s, Me(st, s), Inbox(st, s)[0].frame);
      PumpEras(cfg, Deliver(cfg, st, s), s, k - 1);
    }
  }

  lemma FrameEras(cfg: Config, s: Seat, c: Con, f: Frame)
    ensures
      var c' := OnFrame(cfg, s, c, f).0;
      |c.eras| <= |c'.eras| && (|c'.eras| == |c.eras| ==> c'.tick == c.tick && Era0(c').sent == Era0(c).sent)
  {
    hide Splice;
  }

  lemma OnlyRequests(a: seq<Msg>, sent: seq<Msg>)
    requires forall m <- sent :: m.frame.Resync?
    requires forall m <- a + sent :: m.frame.Input? || m.frame.Crc?
    ensures sent == []
  {
    assert forall m <- sent :: m in a + sent;
    assert forall m :: m !in sent;
    EmptyIfNone(sent);
  }

  lemma EmptyIfNone(ms: seq<Msg>)
    ensures (forall m :: m !in ms) ==> ms == []
  {
    if ms != [] { assert ms[0] in ms; }
  }

  /** An open door and few frames: all of them are handled. */
  lemma EnterIs(cfg: Config, st: Sys, s: Seat, acts: seq<Action>, st': Sys)
    requires Sound(cfg, st) && Told(cfg, st, Cue(s, Enter(64)), acts, st')
    requires Me(st, s).pc.Entry? && |Inbox(st, s)| <= 2
    ensures st' == SetPc(Pump(cfg, st, s, |Inbox(st, s)|), s, Ready)
  {
    hide Pump, CanPump, TotalSize, RunPass;
    SoundParts(cfg, st);
    hide Sound;
    InputsAndSums(Inbox(st, s));
  }

  /** The pass opens and everything in flight is handled. */
  lemma EnterAll(cfg: Config, st: Sys, s: Seat, acts: seq<Action>, st': Sys)
    requires Legal(cfg) && Sound(cfg, st) && Told(cfg, st, Cue(s, Enter(64)), acts, st')
    requires Me(st, s).pc.Entry? && |Inbox(st, s)| <= 2
    ensures Sound(cfg, st') && Moved(st, st', s, Ready, 0) && Inbox(st', s) == [] &&
      Inbox(st', Peer(s)) == Inbox(st, Peer(s))
    ensures Era0(Me(st', s)).sent == Era0(Me(st, s)).sent
  {
    hide Sound, Told, Pump, Core;
    ToldSound(cfg, st, Cue(s, Enter(64)), acts, st');
    SoundParts(cfg, st);
    SoundParts(cfg, st');
    EnterIs(cfg, st, s, acts, st');
    var k := |Inbox(st, s)|;
    PumpStays(cfg, st, s, k);
    PumpInbox(cfg, st, s, k);
    PumpEras(cfg, st, s, k);
    var sent := PumpAnswers(cfg, st, s, k);
    var all := Inbox(st, Peer(s)) + sent;
    assert all + [] == all;
    OnlyRequests(Inbox(st, Peer(s)), sent);
    assert Inbox(st, Peer(s)) + [] == Inbox(st, Peer(s));
  }

  /** The capture. */
  lemma PressOne(cfg: Config, st: Sys, s: Seat, cell: Cell, acts: seq<Action>, st': Sys)
    requires Legal(cfg) && Sound(cfg, st) && Told(cfg, st, Cue(s, Press(cell)), acts, st') && Me(st, s).pc.Ready?
    ensures Sound(cfg, st') && Moved(st, st', s, Protocol.Gate, 0) && Inbox(st', s) == Inbox(st, s)
    ensures |Inbox(st', Peer(s))| == |Inbox(st, Peer(s))| + 1
    ensures Me(st', s).wm == Me(st, s).wm
    ensures Era0(Me(st', s)).sent == Era0(Me(st, s)).sent[Me(st, s).tick + cfg.d := cell]
  {
    hide Inv, Live, Calm, Pump, CanPump, RunPass, Core;
    ToldSound(cfg, st, Cue(s, Press(cell)), acts, st');
    SoundParts(cfg, st);
  }

  /** Through the gate. */
  lemma GateOne(cfg: Config, st: Sys, s: Seat, acts: seq<Action>, st': Sys)
    requires Legal(cfg) && Sound(cfg, st) && Told(cfg, st, Cue(s, Turn.Gate(true, 0)), acts, st')
    requires Me(st, s).pc.Gate? && Me(st, s).wm >= Me(st, s).tick
    ensures Sound(cfg, st') && Moved(st, st', s, Entry, 1) && Inbox(st', s) == Inbox(st, s)
    ensures |Inbox(st', Peer(s))| <= |Inbox(st, Peer(s))| + 1
    ensures Era0(Me(st', s)).sent == Era0(Me(st, s)).sent
  {
    hide Inv, Live, Calm, Pump, CanPump, Core;
    ToldSound(cfg, st, Cue(s, Turn.Gate(true, 0)), acts, st');
    SoundParts(cfg, st);
    hide Sound;
    CalmPass(cfg, s, Me(st, s));
  }

  lemma CalmPass(cfg: Config, s: Seat, c: Con)
    requires !c.pend
    ensures
      var (c', out) := RunPass(cfg, s, c, true);
      c'.tick == c.tick + 1 && c'.pc.Entry? && |out| <= 1 && Era0(c').sent == Era0(c).sent
  {
    hide SimAfter, BookAfter, Record, PushMsgs;
  }

  // ---------------------------------------------------------------- one round, and many

  /** The capture for the tick before has been made. */
  predicate HasCaptured(cfg: Config, c: Con, t: int) { t >= 1 ==> t - 1 + cfg.d in Era0(c).sent }

  ghost predicate AtTick(cfg: Config, st: Sys, t: int) {
    Sound(cfg, st) && Between(st, t) && HasCaptured(cfg, st.host, t) && HasCaptured(cfg, st.guest, t)
  }

  lemma GateIsOpen(cfg: Config, st: Sys, s: Seat, t: int)
    requires Legal(cfg) && Sound(cfg, st) && Inbox(st, s) == [] && Me(st, s).tick == t >= 0 &&
      HasCaptured(cfg, Me(st, Peer(s)), t)
    ensures Me(st, s).wm >= t
  {
    hide Sound;
    SoundParts(cfg, st);
    if t >= 1 {
      DrainedSees(cfg, st, s, t - 1 + cfg.d);
    } else {
      Bases(cfg, st);
    }
  }

  lemma Bases(cfg: Config, st: Sys)
    requires Core(cfg, st) && |st.host.eras| == |st.guest.eras|
    ensures st.host.wm >= Era0(st.host).base + cfg.d - 1 && st.guest.wm >= Era0(st.guest).base + cfg.d - 1
  {
  }

  /** THEOREM.  One round is one tick of both clocks. */
  lemma RoundTicks(cfg: Config, cell: Cell, steps: seq<seq<Action>>, trace: seq<Sys>, t: int)
    requires Legal(cfg) && Followed(cfg, Round(cell), steps, trace) && AtTick(cfg, trace[0], t) && t >= 0
    ensures AtTick(cfg, trace[6], t + 1)
  {
    hide Sound, Told;
    var cues := Round(cell);
    assert forall i :: 0 <= i < 6 ==> Told(cfg, trace[i], cues[i], steps[i], trace[i + 1]);
    EnterAll(cfg, trace[0], Host, steps[0], trace[1]);
    GateIsOpen(cfg, trace[1], Host, t);
    PressOne(cfg, trace[1], Host, cell, steps[1], trace[2]);
    EnterAll(cfg, trace[2], Guest, steps[2], trace[3]);
    GateIsOpen(cfg, trace[3], Guest, t);
    PressOne(cfg, trace[3], Guest, cell, steps[3], trace[4]);
    GateOne(cfg, trace[4], Host, steps[4], trace[5]);
    GateOne(cfg, trace[5], Guest, steps[5], trace[6]);
  }

  lemma {:induction false} RoundsTick(cfg: Config, cell: Cell, n: nat, steps: seq<seq<Action>>, trace: seq<Sys>)
    requires Legal(cfg) && Followed(cfg, Rounds(n, cell), steps, trace) && AtTick(cfg, trace[0], 0)
    ensures |Rounds(n, cell)| == 6 * n && AtTick(cfg, trace[6 * n], n)
  {
    hide AtTick, Told, Round;
    RoundsLong(n, cell);
    if n > 0 {
      RoundsLong(n - 1, cell);
      var k := 6 * (n - 1);
      forall i | 0 <= i < k
        ensures Told(cfg, trace[..k + 1][i], Rounds(n - 1, cell)[i], steps[..k][i], trace[..k + 1][i + 1])
      {
        assert Rounds(n, cell)[i] == Rounds(n - 1, cell)[i] &&
          Told(cfg, trace[i], Rounds(n, cell)[i], steps[i], trace[i + 1]);
      }
      RoundsTick(cfg, cell, n - 1, steps[..k], trace[..k + 1]);
      forall i | 0 <= i < 6
        ensures Told(cfg, trace[k..][i], Round(cell)[i], steps[k..][i], trace[k..][i + 1])
      {
        assert Rounds(n, cell)[k + i] == Round(cell)[i] &&
          Told(cfg, trace[k + i], Rounds(n, cell)[k + i], steps[k + i], trace[k + i + 1]);
      }
      RoundTicks(cfg, cell, steps[k..], trace[k..], n - 1);
    }
  }

  lemma {:induction false} RoundsLong(n: nat, cell: Cell)
    ensures |Round(cell)| == 6 && |Rounds(n, cell)| == 6 * n
  {
    if n > 0 { RoundsLong(n - 1, cell); }
  }

  lemma StartsSound(cfg: Config, image: Image)
    requires Legal(cfg)
    ensures AtTick(cfg, Init(cfg, image, image), 0)
  {
    InitInv(cfg, image, image);
  }

  /** THEOREM.  The carts move: for every n below 65536, n rounds of turns bring both 16-bit
      clocks to n, with equal images. */
  method Reach(d: Byte, image: Image, n: nat, cell: Cell, game: Game) returns (host: Cart, guest: Cart)
    requires 1 <= d <= 15 && SumFits(ConfigOf(d, game)) && n < 65536
    ensures host.con.Tick16() == guest.con.Tick16() == n && host.con.sim == guest.con.sim
    ensures host.up && guest.up && host.at.Entry? && guest.at.Entry?
  {
    hide Reachable, Runs, Init, AtTick, Followed, Rounds, Cart.Is;
    ghost var cfg := ConfigOf(d, game);
    ghost var st := Init(cfg, image, image);
    host := new Cart(0, d, image, cfg, Host, image, image);
    guest := new Cart(1, d, image, cfg, Guest, image, image);
    assert Reachable(cfg, st) by { ReachableInit(cfg, image, image); }
    StartsSound(cfg, image);
    RoundsLong(n, cell);
    ghost var acts, end, steps, trace := Play(host, guest, Rounds(n, cell), game, cfg, st);
    RoundsTick(cfg, cell, n, steps, trace);
    AtTickParts(cfg, end, n);
    ReachableSame(cfg, end);
    CartShown(host, cfg, end, Host);
    CartShown(guest, cfg, end, Guest);
  }

  lemma CartShown(cart: Cart, cfg: Config, st: Sys, s: Seat)
    requires cart.Is(cfg, st, s)
    ensures cart.con.Tick16() == Me(st, s).tick % WORD && cart.con.sim == Me(st, s).sim
    ensures cart.at == Me(st, s).pc && (cart.up <==> !Me(st, s).dropped)
  {
    hide Console.Shows, Carries, Word;
    cart.con.ClockShown(cfg, s, Me(st, s));
  }

  lemma AtTickParts(cfg: Config, st: Sys, t: int)
    requires AtTick(cfg, st, t)
    ensures st.host.tick == st.guest.tick == t && st.host.pc.Entry? && st.guest.pc.Entry? && Undropped(st)
    ensures |st.host.eras| == |st.guest.eras| && !st.host.tainted && !st.guest.tainted
  {
  }

  lemma ReachableSame(cfg: Config, st: Sys)
    requires Legal(cfg) && Reachable(cfg, st) && st.host.tick == st.guest.tick && |st.host.eras| == |st.guest.eras|
    requires !st.host.tainted && !st.guest.tainted
    ensures st.host.sim == st.guest.sim
  {
    hide Reachable;
    SameState(cfg, st);
  }
}
