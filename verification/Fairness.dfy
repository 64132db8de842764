/** Every fair schedule makes progress: whichever console moves, a step that does anything
    brings both closer to any tick that one of them has not reached. */
module Fairness {
  import opened Protocol
  import opened Channels
  import opened Invariant
  import opened Agreement
  import opened Images
  import opened Repair
  import opened Safety
  import opened Progress
  import opened Epochs

  const APART := 100 // more ticks than the consoles can be apart, over all epochs

  /** A step that changes no clock and consumes nothing: a read that completes no frame, or a
      fault in the state. */
  predicate Idle(a: Action) { a.Fault? || ((a.Wait? || a.Stall?) && a.frames == 0) }

  predicate Below(target: int, st: Sys) { st.host.tick < target || st.guest.tick < target }

  /** THEOREM.  The clocks are never far apart, also across epochs. */
  lemma ClocksNear(cfg: Config, st: Sys)
    requires Legal(cfg) && Reachable(cfg, st)
    ensures -APART < st.host.tick - st.guest.tick < APART
  {
    hide ToGuest, ToHost, Logs, Sims, Sums, Cover, Reachable;
    ReachableBudget(cfg, st);
    AtMostTwoAhead(cfg, st);
    Watermarks(cfg, st);
  }

  lemma FrameLess(cfg: Config, target: int, st: Sys, s: Seat)
    requires Legal(cfg) && Core(cfg, st) && Inbox(st, s) != []
    ensures
      var st' := Deliver(cfg, st, s);
      && TicksLeft(target, st') <= TicksLeft(target, st) && Phases(st') == Phases(st) && InFlight(st') < InFlight(st)
  {
    hide ToGuest, ToHost, Pace, Splice;
    if s.Guest? {
      Watermarks(cfg, st);
      GuestStep(cfg.d, st.host.eras, Next(cfg, st.host), RxOf(st.guest), st.toGuest);
      assert st.toGuest[0].frame.End? ==> st.guest.tick < st.guest.resume;
    } else {
      HostStep(cfg.d, st.guest.eras, Next(cfg, st.guest), Era0(st.host).base, RxOf(st.host), st.toHost);
    }
    hide Core;
    FrameCloser(cfg, target, s, Me(st, s), Inbox(st, s)[0].frame);
  }

  lemma {:induction false} PumpLess(cfg: Config, target: int, st: Sys, s: Seat, k: nat)
    requires Legal(cfg) && Core(cfg, st) && k <= |Inbox(st, s)|
    ensures
      var st' := Pump(cfg, st, s, k);
      && TicksLeft(target, st') <= TicksLeft(target, st) && Phases(st') == Phases(st)
      && (if k == 0 then st' == st else InFlight(st') < InFlight(st))
    decreases k
  {
    hide Core, OnFrame, TicksLeft, Phases, InFlight;
    if k != 0 {
      FrameLess(cfg, target, st, s);
      if s.Host? { DeliverHostCore(cfg, st); } else { DeliverGuestCore(cfg, st); }
      InboxLess(cfg, st, s);
      PumpLess(cfg, target, Deliver(cfg, st, s), s, k - 1);
    }
  }

  lemma InboxLess(cfg: Config, st: Sys, s: Seat)
    requires Inbox(st, s) != []
    ensures Inbox(Deliver(cfg, st, s), s) == Inbox(st, s)[1..]
  {
    hide OnFrame;
  }

  lemma RunPassClock(cfg: Config, s: Seat, c: Con, quiet: bool)
    ensures RunPass(cfg, s, c, quiet).0.tick > c.tick
  {
    hide BookAfter, SimAfter, Record, PushMsgs;
  }

  /** Any step but an idle one lowers the measure, as long as its console is below the target. */
  lemma StepCloser(cfg: Config, target: int, st: Sys, a: Action)
    requires Legal(cfg) && Core(cfg, st) && Enabled(cfg, st, a) && !Idle(a) && !a.Drop?
    requires st.host.tick < target && st.guest.tick < target
    ensures Closer(target, Apply(cfg, st, a), st)
  {
    hide Core, Pump, RunPass;
    match a
    case Wait(s, k) => PumpLess(cfg, target, st, s, k);
    case Stall(s, k) => PumpLess(cfg, target, st, s, k);
    case PassStart(s, k) =>
      PumpLess(cfg, target, st, s, k);
      PumpPc(cfg, st, s, k);
    case Tick(s, quiet) => RunPassClock(cfg, s, Me(st, s), quiet);
    case Capture(_, _) =>
  }

  /** What an idle step leaves as it was. */
  ghost predicate Same(st: Sys, st': Sys) {
    && st'.toHost == st.toHost && st'.toGuest == st.toGuest
    && st'.host == st.host.(sim := st'.host.sim, tainted := st'.host.tainted)
    && st'.guest == st.guest.(sim := st'.guest.sim, tainted := st'.guest.tainted)
  }

  lemma IdleKeeps(cfg: Config, st: Sys, a: Action)
    requires Enabled(cfg, st, a) && Idle(a)
    ensures Same(st, Apply(cfg, st, a))
  {
    hide RunPass, CanPump;
  }

  lemma SameMeasure(target: int, st: Sys, st': Sys)
    requires Same(st, st')
    ensures TicksLeft(target, st') == TicksLeft(target, st) && Phases(st') == Phases(st) &&
      InFlight(st') == InFlight(st)
    ensures Laggard(st') == Laggard(st) && (Below(target, st') <==> Below(target, st))
  {
  }

  // ---------------------------------------------------------------- infinite schedules

  /** An endless run in which nobody hangs up; faults may strike at any time. */
  ghost predicate Endless(cfg: Config, run: nat -> Sys, act: nat -> Action) {
    && Reachable(cfg, run(0)) && Undropped(run(0))
    && forall n: nat :: Enabled(cfg, run(n), act(n)) && !act(n).Drop? && run(n + 1) == Apply(cfg, run(n), act(n))
  }

  /** Console s has something to do. */
  ghost predicate CanAct(cfg: Config, st: Sys, s: Seat) {
    exists a: Action :: a.seat == s && !Idle(a) && !a.Drop? && Enabled(cfg, st, a)
  }

  /** Console s does something, or has nothing to do. */
  ghost predicate Served(cfg: Config, st: Sys, a: Action, s: Seat) {
    (a.seat == s && !Idle(a)) || !CanAct(cfg, st, s)
  }

  ghost predicate ServedLater(cfg: Config, run: nat -> Sys, act: nat -> Action, s: Seat, n: nat) {
    exists m: nat :: n <= m && Served(cfg, run(m), act(m), s)
  }

  /** That happens to each console again and again. */
  ghost predicate Fair(cfg: Config, run: nat -> Sys, act: nat -> Action) {
    forall s: Seat, n: nat :: ServedLater(cfg, run, act, s, n)
  }

  lemma {:induction false} EndlessReachable(cfg: Config, run: nat -> Sys, act: nat -> Action, n: nat)
    requires Endless(cfg, run, act)
    ensures Reachable(cfg, run(n)) && Undropped(run(n))
  {
    hide Reachable, Apply, Enabled;
    if n > 0 {
      EndlessReachable(cfg, run, act, n - 1);
      assert Enabled(cfg, run(n - 1), act(n - 1)) && run(n - 1 + 1) == Apply(cfg, run(n - 1), act(n - 1));
      ReachableStep(cfg, run(n - 1), act(n - 1));
      StaysUp(cfg, run(n - 1), act(n - 1));
    }
  }

  lemma StaysUp(cfg: Config, st: Sys, a: Action)
    requires Enabled(cfg, st, a) && !a.Drop? && Undropped(st)
    ensures Undropped(Apply(cfg, st, a))
  {
    hide Pump, RunPass, CanPump;
    if a.Wait? || a.PassStart? || a.Stall? {
      PumpUp(cfg, st, a.seat, a.frames);
    } else if a.Tick? {
      RunPassUp(cfg, a.seat, Me(st, a.seat), a.quiet);
    }
  }

  lemma {:induction false} PumpUp(cfg: Config, st: Sys, s: Seat, k: nat)
    ensures Undropped(st) ==> Undropped(Pump(cfg, st, s, k))
    decreases k
  {
    hide OnFrame;
    if k != 0 && Inbox(st, s) != [] {
      FrameCloser(cfg, 0, s, Me(st, s), Inbox(st, s)[0].frame);
      PumpUp(cfg, Deliver(cfg, st, s), s, k - 1);
    }
  }

  lemma RunPassUp(cfg: Config, s: Seat, c: Con, quiet: bool)
    ensures RunPass(cfg, s, c, quiet).0.dropped == c.dropped
  {
    hide BookAfter, SimAfter, Record, PushMsgs;
  }

  lemma {:induction false} StillSame(cfg: Config, run: nat -> Sys, act: nat -> Action, n: nat, m: nat)
    requires Endless(cfg, run, act) && n <= m && forall i :: n <= i < m ==> Idle(act(i))
    ensures Same(run(n), run(m))
    decreases m
  {
    hide Reachable, Apply, Enabled, Idle;
    if n < m {
      StillSame(cfg, run, act, n, m - 1);
      assert Enabled(cfg, run(m - 1), act(m - 1)) && run(m - 1 + 1) == Apply(cfg, run(m - 1), act(m - 1));
      IdleKeeps(cfg, run(m - 1), act(m - 1));
    }
  }

  /** The first step from n on that is not idle, or m. */
  lemma {:induction false} FirstWork(act: nat -> Action, n: nat, m: nat) returns (j: nat)
    requires n <= m
    ensures n <= j <= m && (forall i :: n <= i < j ==> Idle(act(i))) && (j == m || !Idle(act(j)))
    decreases m - n
  {
    j := n;
    if n < m && Idle(act(n)) { j := FirstWork(act, n + 1, m); }
  }

  /** While a target is not reached the slower console can act, so somebody does. */
  lemma NextWork(cfg: Config, target: int, run: nat -> Sys, act: nat -> Action, n: nat) returns (j: nat)
    requires Legal(cfg) && Endless(cfg, run, act) && Fair(cfg, run, act) && Below(target, run(n))
    ensures n <= j && !Idle(act(j)) && Same(run(n), run(j))
  {
    hide Reachable, Apply, Enabled, Closer, Idle, Same, Below;
    var s := Laggard(run(n));
    assert ServedLater(cfg, run, act, s, n);
    var m: nat :| n <= m && Served(cfg, run(m), act(m), s);
    j := FirstWork(act, n, m);
    StillSame(cfg, run, act, n, j);
    if Idle(act(j)) {
      EndlessReachable(cfg, run, act, m);
      SameMeasure(target, run(n), run(m));
      SlowerCanAct(cfg, target, run(m));
    }
  }

  lemma SlowerCanAct(cfg: Config, target: int, st: Sys)
    requires Legal(cfg) && Reachable(cfg, st) && Undropped(st) && Below(target, st)
    ensures CanAct(cfg, st, Laggard(st))
  {
    hide Reachable, Apply, Enabled, Closer;
    NoDeadlock(cfg, target, st);
    var a := Move(st, Laggard(st));
    assert a.seat == Laggard(st) && !Idle(a) && !a.Drop?;
  }

  /** THEOREM.  Every endless fair schedule brings both consoles to every tick, whatever faults
      strike on the way: only finitely many steps are not idle before that. */
  lemma {:induction false} FairReaches(cfg: Config, target: int, run: nat -> Sys, act: nat -> Action, n: nat)
    returns (end: nat)
    requires Legal(cfg) && Endless(cfg, run, act) && Fair(cfg, run, act)
    ensures n <= end && run(end).host.tick >= target && run(end).guest.tick >= target
    decreases TicksLeft(target + APART, run(n)), Phases(run(n)), InFlight(run(n))
  {
    hide Reachable, Apply, Enabled, Idle, Same, Fair, TicksLeft, Phases, InFlight;
    if !Below(target, run(n)) {
      return n;
    }
    var j := NextWork(cfg, target, run, act, n);
    SameMeasure(target, run(n), run(j));
    SameMeasure(target + APART, run(n), run(j));
    EndlessReachable(cfg, run, act, j);
    assert Enabled(cfg, run(j), act(j)) && run(j + 1) == Apply(cfg, run(j), act(j));
    WorkCloser(cfg, target, run(j), act(j));
    end := FairReaches(cfg, target, run, act, j + 1);
  }

  /** THEOREM.  While one console has not reached a tick, whatever either does that is not idle
      lowers one measure. */
  lemma WorkCloser(cfg: Config, target: int, st: Sys, a: Action)
    requires Legal(cfg) && Reachable(cfg, st) && Below(target, st) && Enabled(cfg, st, a) && !Idle(a) && !a.Drop?
    ensures Closer(target + APART, Apply(cfg, st, a), st)
  {
    hide Reachable, Apply, Enabled, Idle, Closer, Inv;
    ClocksNear(cfg, st);
    ReachableCore(cfg, st);
    StepCloser(cfg, target + APART, st, a);
  }

  lemma ReachableCore(cfg: Config, st: Sys)
    requires Legal(cfg) && Reachable(cfg, st)
    ensures Core(cfg, st)
  {
    hide Reachable, Core;
    ReachableInv(cfg, st);
  }
}
