/** The resync image: it is applied atomically with respect to the game, and afterwards
    both consoles compute the same state. */
module Images {
  import opened Protocol
  import opened Channels
  import opened Invariant

  /** Some, but not all, of a pushed image has been written over the sim. */
  predicate Torn(c: Con) { c.hold && c.applied > 0 }

  predicate Atomic(g: Con) {
    && (g.pc.Ready? ==> !Torn(g))
    && (g.pc.Gate? && Torn(g) ==> g.wm < g.tick)
  }

  // ------------------------------------------------ one pump cannot tear a running tick

  predicate Small(ch: seq<Msg>, k: nat) {
    k <= |ch| && forall i :: 0 <= i < k ==> Size(ch[i].frame) < READ_MAX
  }

  lemma {:induction false} SmallBatch(ms: seq<Msg>)
    requires TotalSize(ms) < READ_MAX
    ensures Small(ms, |ms|)
  {
    if ms != [] { SmallBatch(ms[1..]); }
  }

  /** A frame shorter than one read is not the first chunk of an image. */
  lemma DeliverSmall(cfg: Config, st: Sys)
    requires Core(cfg, st) && st.toGuest != [] && Size(st.toGuest[0].frame) < READ_MAX
    ensures
      var g, g' := st.guest, Deliver(cfg, st, Guest).guest;
      && (!Torn(g) ==> !Torn(g') && |g'.eras| == |g.eras| && g'.tick == g.tick)
      && (Torn(g) && g.wm < g.tick && Torn(g') ==> g'.wm < g'.tick)
  {
    hide ToGuest, ToHost, Pace;
    GuestStep(cfg.d, st.host.eras, Next(cfg, st.host), RxOf(st.guest), st.toGuest);
  }

  lemma {:induction false} PumpSmall(cfg: Config, st: Sys, k: nat)
    requires Legal(cfg) && Core(cfg, st) && Small(st.toGuest, k)
    ensures
      var g, g' := st.guest, Pump(cfg, st, Guest, k).guest;
      && (!Torn(g) ==> !Torn(g') && |g'.eras| == |g.eras| && g'.tick == g.tick)
      && (Torn(g) && g.wm < g.tick && Torn(g') ==> g'.wm < g'.tick)
    decreases k
  {
    hide Core, OnFrame;
    if k != 0 {
      DeliverSmall(cfg, st);
      DeliverGuestCore(cfg, st);
      PumpSmall(cfg, Deliver(cfg, st, Guest), k - 1);
    }
  }

  /** Only the first frame of a batch can be large, and it found the gate shut or no
      hold open. */
  lemma PumpAtomic(cfg: Config, st: Sys, k: nat)
    requires Legal(cfg) && Core(cfg, st) && CanPump(st, Guest, k)
    ensures
      var g, g' := st.guest, Pump(cfg, st, Guest, k).guest;
      && (!g.hold ==> !Torn(g') && |g'.eras| == |g.eras| && g'.tick == g.tick)
      && (g.wm < g.tick && Torn(g') ==> g'.wm < g'.tick)
  {
    hide ToGuest, ToHost, Pace;
    if k != 0 {
      GuestStep(cfg.d, st.host.eras, Next(cfg, st.host), RxOf(st.guest), st.toGuest);
      DeliverGuestCore(cfg, st);
      var rest := st.toGuest[1..];
      assert st.toGuest[..k][1..] == rest[..k - 1];
      SmallBatch(rest[..k - 1]);
      assert Small(rest, k - 1) by {
        assert forall i :: 0 <= i < k - 1 ==> rest[i] == rest[..k - 1][i];
      }
      PumpSmall(cfg, Deliver(cfg, st, Guest), k - 1);
    }
  }

  /** A pump never moves the host's clock: only a guest is pushed to. */
  lemma {:induction false} PumpHostStays(cfg: Config, st: Sys, k: nat)
    requires Legal(cfg) && Core(cfg, st) && k <= |st.toHost|
    ensures
      var h, h' := st.host, Pump(cfg, st, Host, k).host;
      |h'.eras| == |h.eras| && h'.tick == h.tick && h'.hold == h.hold
    decreases k
  {
    hide ToGuest, ToHost, Pace;
    if k != 0 {
      HostStep(cfg.d, st.guest.eras, Next(cfg, st.guest), Era0(st.host).base, RxOf(st.host), st.toHost);
      DeliverHostCore(cfg, st);
      PumpHostStays(cfg, Deliver(cfg, st, Host), k - 1);
    }
  }

  lemma {:induction false} PumpHostKeepsGuest(cfg: Config, st: Sys, k: nat)
    ensures Pump(cfg, st, Host, k).guest == st.guest
    decreases k
  {
    hide OnFrame;
    if k != 0 && st.toHost != [] { PumpHostKeepsGuest(cfg, Deliver(cfg, st, Host), k - 1); }
  }

  lemma ApplyAtomic(cfg: Config, st: Sys, a: Action)
    requires Legal(cfg) && Core(cfg, st) && Atomic(st.guest) && Enabled(cfg, st, a)
    ensures Atomic(Apply(cfg, st, a).guest)
  {
    hide Core, Pump, Pending, CanPump, PadsOf, Record;
    if (a.Wait? || a.PassStart? || a.Stall?) {
      PumpPc(cfg, st, a.seat, a.frames);
      if a.seat.Host? {
        PumpHostKeepsGuest(cfg, st, a.frames);
      } else {
        PumpAtomic(cfg, st, a.frames);
      }
    } else if a.Tick? && a.seat.Guest? {
      TickSplits(cfg, st, Guest, a.quiet);
      GuestPendingIdle(cfg, AfterTick(cfg, st, Guest), a.quiet);
    }
  }

  // ------------------------------------------------ what the image is worth

  /** The sim after these ticks. */
  function Replay(cfg: Config, img: Image, log: seq<Exec>): Image {
    if log == [] then img
    else cfg.step(Replay(cfg, img, log[..|log| - 1]), log[|log| - 1].pads)
  }

  /** Where epoch e starts from, on both consoles. */
  function StartOf(cfg: Config, eras: seq<Era>, e: nat): Image
    requires e < |eras|
  {
    if e == 0 then eras[e].raw else cfg.clamp(eras[e].raw)
  }

  ghost predicate Sims(cfg: Config, st: Sys) {
    var h, g := st.host, st.guest;
    && |g.eras| <= |h.eras|
    && (!h.tainted ==> h.sim == Replay(cfg, StartOf(cfg, h.eras, Epoch(h)), Book0(h).log))
    && (!g.tainted && !g.hold ==> g.sim == Replay(cfg, StartOf(cfg, h.eras, Epoch(g)), Book0(g).log))
    && (!g.tainted && g.hold ==>
          |g.eras| < |h.eras| && forall i :: 0 <= i < g.applied && i < IMAGE ==> g.sim[i] == h.eras[|g.eras|].raw[i])
  }

  lemma SpliceAt(img: Image, raw: Image, pos: nat, data: seq<Byte>)
    requires pos + |data| <= IMAGE && data == raw[pos..pos + |data|]
    requires forall i :: 0 <= i < pos ==> img[i] == raw[i]
    ensures forall i :: 0 <= i < pos + |data| ==> Splice(img, pos, data)[i] == raw[i]
  {
    forall i | pos <= i < pos + |data| ensures Splice(img, pos, data)[i] == raw[i] {
      assert data[i - pos] == raw[i];
    }
  }

  lemma DeliverGuestSims(cfg: Config, st: Sys)
    requires Core(cfg, st) && Sims(cfg, st) && st.toGuest != []
    ensures Sims(cfg, Deliver(cfg, st, Guest))
  {
    hide ToGuest, ToHost, Pace, Splice;
    var g, h := st.guest, st.host;
    GuestStep(cfg.d, h.eras, Next(cfg, h), RxOf(g), st.toGuest);
    hide Core;
    var f := st.toGuest[0].frame;
    if f.End? {
      assert !g.tainted ==> g.sim == h.eras[|g.eras|].raw;
    } else if f.Chunk? && !g.tainted {
      SpliceAt(g.sim, h.eras[|g.eras|].raw, f.pos, f.data);
    }
  }

  lemma DeliverSims(cfg: Config, st: Sys, s: Seat)
    requires Core(cfg, st) && Sims(cfg, st) && Inbox(st, s) != []
    ensures Sims(cfg, Deliver(cfg, st, s))
  {
    hide ToGuest, ToHost, Pace, Splice, Replay;
    if s.Guest? {
      DeliverGuestSims(cfg, st);
    } else {
      HostStep(cfg.d, st.guest.eras, Next(cfg, st.guest), Era0(st.host).base, RxOf(st.host), st.toHost);
    }
  }

  lemma {:induction false} PumpSims(cfg: Config, st: Sys, s: Seat, k: nat)
    requires Legal(cfg) && Core(cfg, st) && Sims(cfg, st)
    ensures Sims(cfg, Pump(cfg, st, s, k))
    decreases k
  {
    hide Core, Sims, OnFrame, Put;
    if k != 0 && Inbox(st, s) != [] {
      if s.Host? { DeliverHostCore(cfg, st); } else { DeliverGuestCore(cfg, st); }
      DeliverSims(cfg, st, s);
      PumpSims(cfg, Deliver(cfg, st, s), s, k - 1);
    }
  }

  lemma TickSim(cfg: Config, s: Seat, c: Con)
    ensures
      var c' := RunTick(cfg, s, c).0;
      && c'.eras == c.eras && c'.hold == c.hold && c'.applied == c.applied && c'.tainted == c.tainted
      && (forall img: Image :: c.sim == Replay(cfg, img, Book0(c).log) ==> c'.sim == Replay(cfg, img, Book0(c').log))
  {
    hide PadsOf, Record;
    var c' := RunTick(cfg, s, c).0;
    var x := Exec(c.tick, PadsOf(s, Era0(c).sent, c.remote, c.tick));
    assert Book0(c').log == Book0(c).log + [x];
    assert (Book0(c).log + [x])[..|Book0(c).log|] == Book0(c).log;
  }

  lemma TickSims(cfg: Config, st: Sys, s: Seat)
    requires Core(cfg, st) && Sims(cfg, st) && Atomic(st.guest)
    requires Me(st, s).pc.Gate? && Me(st, s).wm >= Me(st, s).tick
    ensures Sims(cfg, AfterTick(cfg, st, s))
  {
    hide ToGuest, ToHost, Pace, RunTick, Replay, Core;
    TickSim(cfg, s, Me(st, s));
    assert |Me(AfterTick(cfg, st, s), s).eras| == |Me(st, s).eras|;
  }

  lemma PendingSims(cfg: Config, st: Sys, s: Seat, quiet: bool)
    requires Core(cfg, st) && Sims(cfg, st)
    ensures Sims(cfg, AfterPending(cfg, st, s, quiet))
  {
    hide ToGuest, ToHost, Pace, PushMsgs;
  }

  lemma ApplySims(cfg: Config, st: Sys, a: Action)
    requires Legal(cfg) && Core(cfg, st) && Sims(cfg, st) && Atomic(st.guest) && Enabled(cfg, st, a)
    ensures Sims(cfg, Apply(cfg, st, a))
  {
    hide ToGuest, ToHost, Pace, Core, Pump, RunTick, Pending, CanPump, Replay, StartOf;
    if (a.Wait? || a.PassStart? || a.Stall?) {
      PumpSims(cfg, st, a.seat, a.frames);
    } else if a.Tick? {
      TickSplits(cfg, st, a.seat, a.quiet);
      TickSims(cfg, st, a.seat);
      if a.seat.Host? { HostTickCore(cfg, st); } else { GuestTickCore(cfg, st); }
      PendingSims(cfg, AfterTick(cfg, st, a.seat), a.seat, a.quiet);
    } else if a.Capture? {
      CaptureSims(cfg, st, a.seat, a.cell);
    }
  }

  lemma CaptureSims(cfg: Config, st: Sys, s: Seat, cell: Cell)
    requires Sims(cfg, st) && Enabled(cfg, st, Capture(s, cell))
    ensures Sims(cfg, Apply(cfg, st, Capture(s, cell)))
  {
    hide Replay, Pump, RunPass;
    var st' := Apply(cfg, st, Capture(s, cell));
    assert forall e: nat :: e < |st.host.eras| ==> StartOf(cfg, st'.host.eras, e) == StartOf(cfg, st.host.eras, e);
  }
}
