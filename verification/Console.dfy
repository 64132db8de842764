/** A console's netcode RAM as the cart keeps it: 8-bit cells, 256-slot ring pages and
    16-bit clocks split over two cells.  Each method is one routine of the engine, and its
    contract says that cells standing for a protocol state before it stand for the state
    the protocol's own function gives after it. */
module ConsoleRam {
  import opened Protocol
  import opened Windows
  import opened Cells
  import opened Wire

  function SeatNo(s: Seat): Byte { if s.Host? then 0 else 1 }

  /** How far ahead the own-seat pages are right. */
  function Captured(cfg: Config, c: Con): int {
    if Next(cfg, c) - 1 < Era0(c).base + cfg.d then Era0(c).base + cfg.d else Next(cfg, c) - 1
  }

  function Low(f: Option<Frame>): Option<Frame> { if f.Some? then Some(Low16(f.value)) else None }

  function Acted(cfg: Config, s: Seat, c: Con, f: Option<Frame>): (Con, seq<Msg>) {
    if f.Some? then OnFrame(cfg, s, c, f.value) else (c, [])
  }

  lemma AnswersCrcOnly(cfg: Config, s: Seat, c: Con, f: Frame)
    requires !f.Crc?
    ensures OnFrame(cfg, s, c, f).1 == []
  {
  }

  /** The arm a whole frame goes to, and what is answered there. */
  lemma ArmOf(b: seq<Byte>, me: Byte, count: Byte, cfg: Config, s: Seat, c: Con, f: Option<Frame>)
    requires Whole(b) && Read(me, count, b) == Low(f)
    ensures
      if b[1] == FT_INPUT && b[0] >= 6 then
        && Low(f) == (if b[2] != me && b[2] < count then Some(Input(Word(b[3], b[4]), Cell(b[5], b[6]))) else None)
        && (f.Some? ==> f.value.Input?)
      else if b[1] == FT_CRC && b[0] >= 6 then
        f.Some? && f.value == Crc(f.value.tick, Word(b[5], b[6])) && f.value.tick % WORD == Word(b[3], b[4])
      else if b[1] == FT_STATE && b[0] >= 3 then
        Low(f) == ReadState(b) && (f.Some? ==> f.value.Begin? || f.value.Chunk? || f.value.End?)
      else if b[1] == FT_RESYNC && b[0] >= 3 then f.Some? && f.value == Resync(f.value.tick)
      else f.None?
    ensures f.None? || !f.value.Crc? ==> Acted(cfg, s, c, f).1 == [] && Stream(SeatNo(s), []) == []
  {
    hide OnFrame;
    if f.Some? && !f.value.Crc? { AnswersCrcOnly(cfg, s, c, f.value); }
  }

  lemma SpliceNone(img: Image, pos: nat, data: seq<Byte>)
    requires pos <= IMAGE
    ensures Splice(img, pos, data[..0]) == img
  {
  }

  lemma SpliceOne(img: Image, pos: nat, data: seq<Byte>, i: nat)
    requires i < |data| && pos + |data| <= IMAGE
    ensures Splice(img, pos, data[..i])[pos + i := data[i]] == Splice(img, pos, data[..i + 1])
  {
  }

  lemma ZeroWord()
    ensures Word(0, 0) == 0
  {
  }

  /** What START leaves, field by field. */
  lemma Started(cfg: Config, sim: Image, start: Image)
    requires 0 <= cfg.d < 256
    ensures
      var f := Fresh(cfg, sim, start);
      && f.tick == 0 && f.wm == (cfg.d - 1) % 256 && f.remote == map[] && f.records == map[]
      && !f.hold && !f.pend && f.waited == 0 && f.sim == sim && Era0(f).sent == map[]
  {
  }

  /** What a rebase leaves, field by field. */
  lemma Rebased(cfg: Config, c: Con)
    ensures
      var r := Rebase(cfg, c);
      && r.tick == c.resume && r.wm == c.resume + cfg.d - 1 && r.remote == map[] && r.records == map[]
      && !r.hold && !r.pend && r.waited == 0 && r.sim == cfg.clamp(c.sim) && Era0(r).sent == map[]
  {
  }

  class Console {
    var seat: Byte       // NET_SEAT
    var count: Byte      // NET_COUNT
    var delay: Byte      // NET_DELAY
    var tickLo: Byte
    var tickHi: Byte
    const wm: array<Byte>     // SEAT_WM: lo, hi for each of four seats
    const ring: array<Byte>   // SEAT_RING: four pages of decoded cells
    const kp: array<Byte>     // SEAT_KP: four pages of keypad cells
    const ownCrc: array<Byte> // OWN_CRC: eight slots of tick lo, hi, sum lo, hi
    var hold: bool       // RESYNC_HOLD
    var rLo: Byte        // RS_R
    var rHi: Byte
    var pend: bool       // RS_PEND
    var ptmo: Byte       // RS_PTMO
    var sim: Image

    /** NET_START: everything zeroed, a two-seat room. */
    constructor (image: Image)
      ensures Valid() && !hold && !pend && ptmo == 0 && sim == image
      ensures fresh(wm) && fresh(ring) && fresh(kp) && fresh(ownCrc)
    {
      seat, count, delay, tickLo, tickHi, rLo, rHi, ptmo := 0, 2, 0, 0, 0, 0, 0, 0;
      wm, ring, kp, ownCrc :=
        new Byte[8](_ => 0), new Byte[4 * PAGE](_ => 0), new Byte[4 * PAGE](_ => 0), new Byte[32](_ => 0);
      hold, pend, sim := false, false, image;
    }

    predicate Valid()
      reads this
    {
      && wm.Length == 8 && ring.Length == kp.Length == 4 * PAGE && ownCrc.Length == 32
      && ring != kp && wm != ring && wm != kp && ownCrc != ring && ownCrc != kp && ownCrc != wm
      && seat < 2 && count == 2
    }

    function Tick16(): int
      reads this
    {
      Word(tickLo, tickHi)
    }

    function Wm16(q: int): int
      requires 0 <= q < 4 && wm.Length == 8
      reads wm
    {
      Word(wm[2 * q], wm[2 * q + 1])
    }

    /** The clocks and flags stand for c's. */
    ghost predicate ShowsClock(cfg: Config, s: Seat, c: Con)
      requires Valid()
      reads this, wm
    {
      && seat == SeatNo(s) && delay == cfg.d
      && Tick16() == c.tick % WORD && Wm16(1 - seat) == c.wm % WORD
      && hold == c.hold && pend == c.pend && ptmo == c.waited
      && (hold ==> Word(rLo, rHi) == c.resume % WORD)
      && sim == c.sim
    }

    /** A seat's pages are right about a ring from the previous tick on. */
    ghost predicate ShowsRing(q: int, m: map<int, Cell>, lo: int, hi: int)
      requires 0 <= q < 4 && ring.Length == kp.Length == 4 * PAGE
      reads ring, kp
    {
      PageShows(Page(ring[..], q), Page(kp[..], q), m, lo, hi)
    }

    ghost predicate Shows(cfg: Config, s: Seat, c: Con)
      reads this, wm, ring, kp, ownCrc
    {
      && Valid() && ShowsClock(cfg, s, c)
      && ShowsRing(1 - seat as int, c.remote, c.tick - 1, Known(cfg.d, c))
      && ShowsRing(seat, Era0(c).sent, c.tick - 1, Captured(cfg, c))
      && SlotsShow(ownCrc[..], c.records)
    }

    // ---------------------------------------------------------------- lockstep

    /** Store a cell pair in a seat's pages. */
    method StoreCell(q: Byte, slot: Byte, decoded: Byte, keypad: Byte)
      requires q < 4 && ring.Length == kp.Length == 4 * PAGE && ring != kp
      modifies ring, kp
      ensures Page(ring[..], q) == old(Page(ring[..], q))[slot := decoded]
      ensures Page(kp[..], q) == old(Page(kp[..], q))[slot := keypad]
      ensures forall p :: 0 <= p < 4 && p != q ==> Page(ring[..], p) == old(Page(ring[..], p))
      ensures forall p :: 0 <= p < 4 && p != q ==> Page(kp[..], p) == old(Page(kp[..], p))
    {
      hide Page;
      PageOfStore(ring[..], q, slot, decoded);
      PageOfStore(kp[..], q, slot, keypad);
      ghost var cells, keys := ring[..], kp[..];
      ring[q * PAGE + slot] := decoded;
      kp[q * PAGE + slot] := keypad;
      assert ring[..] == cells[q * PAGE + slot := decoded] && kp[..] == keys[q * PAGE + slot := keypad];
    }

    /** The gate: every remote seat's watermark has reached the tick; also the least slack. */
    method GateOpen() returns (open: bool, slack: int)
      requires wm.Length == 8 && count <= 4
      ensures open <==> forall q :: 0 <= q < count && q != seat ==> !Minus(Sub16(Wm16(q), Tick16()))
      ensures open ==> 0 <= slack <= 15
      ensures open ==> forall q :: 0 <= q < count && q != seat ==> slack <= Sub16(Wm16(q), Tick16())
      ensures open ==> slack == 15 || exists q :: 0 <= q < count && q != seat && slack == Sub16(Wm16(q), Tick16())
    {
      slack := 15;
      var q := 0;
      while q < count
        invariant 0 <= q <= count && 0 <= slack <= 15
        invariant forall p :: 0 <= p < q && p != seat ==>
          !Minus(Sub16(Wm16(p), Tick16())) && slack <= Sub16(Wm16(p), Tick16())
        invariant slack == 15 || exists p :: 0 <= p < q && p != seat && slack == Sub16(Wm16(p), Tick16())
      {
        if q != seat {
          var delta := Sub16(Wm16(q), Tick16());
          if Minus(delta) {
            return false, slack;
          }
          if delta < slack {
            slack := delta;
          }
        }
        q := q + 1;
      }
      open := true;
    }

    /** With the cells standing for a protocol state the gate is the protocol's gate. */
    lemma GateRight(cfg: Config, s: Seat, c: Con)
      requires Shows(cfg, s, c) && Close(cfg.d, c)
      ensures (forall q :: 0 <= q < count && q != seat ==> !Minus(Sub16(Wm16(q), Tick16()))) <==> c.wm >= c.tick
      ensures c.wm >= c.tick ==> Sub16(Wm16(1 - seat), Tick16()) == c.wm - c.tick
    {
      hide PageShows, SlotsShow, ShowsRing, Page, Word, Known, Captured, Minus, Sub16;
      SignIsRight(c.wm, c.tick);
      var other := 1 - seat;
      assert 0 <= other < count && other != seat;
    }

    /** An input of another seat of the room, ahead of that seat's watermark as the CPU sees it. */
    predicate Newer(from: Byte, lo: Byte, hi: Byte)
      requires Valid()
      reads this, wm
    {
      from < count && from != seat && !Minus(Sub16(Word(lo, hi), Wm16(from))) && Sub16(Word(lo, hi), Wm16(from)) != 0
    }

    /** What the windows promise about an input that is taken. */
    predicate Fits(d: int, c: Con, t: int) {
      && c.tick <= t + 1 && c.wm < t <= Known(d, c) + 1 && t < c.tick - 1 + PAGE && Known(d, c) < c.tick - 1 + PAGE
    }

    /** The accepting half of the INPUT arm: store the cells, advance the watermark. */
    method AcceptInput(from: Byte, lo: Byte, hi: Byte, decoded: Byte, keypad: Byte, ghost cfg: Config, ghost s: Seat,
                       ghost c: Con, ghost t: int)
      requires Valid() && from == 1 - seat
      modifies wm, ring, kp
      ensures forall q :: 0 <= q < 4 ==> Wm16(q) == if q == from then Word(lo, hi) else old(Wm16(q))
      ensures forall q :: 0 <= q < 4 ==>
        Page(ring[..], q) == if q == from then old(Page(ring[..], q))[lo := decoded] else old(Page(ring[..], q))
      ensures forall q :: 0 <= q < 4 ==>
        Page(kp[..], q) == if q == from then old(Page(kp[..], q))[lo := keypad] else old(Page(kp[..], q))
      ensures old(Shows(cfg, s, c)) && Fits(cfg.d, c, t) && Word(lo, hi) == t % WORD ==>
        Shows(cfg, s, c.(wm := t, remote := c.remote[t := Cell(decoded, keypad)]))
    {
      hide PageShows, SlotsShow, Page, Word, Lookup;
      if Shows(cfg, s, c) && Fits(cfg.d, c, t) && Word(lo, hi) == t % WORD {
        SlotOfTick(lo, hi, t);
        PageStore(Page(ring[..], from), Page(kp[..], from), c.remote,
                  c.tick - 1, Known(cfg.d, c), t, Cell(decoded, keypad));
      }
      StoreCell(from, lo, decoded, keypad);
      wm[2 * from], wm[2 * from + 1] := lo, hi;
    }

    /** SES_ONFRAME, INPUT arm, for any bytes at all: frames of our own or of an unknown seat,
        or at or behind the watermark, are dropped; any other is stored at its slot and
        becomes the watermark.  For the inputs a peer sends that is the protocol's step. */
    method OnInput(from: Byte, lo: Byte, hi: Byte, decoded: Byte, keypad: Byte, ghost cfg: Config, ghost s: Seat,
                   ghost c: Con, ghost f: Option<Frame>)
      requires Valid()
      modifies wm, ring, kp
      ensures forall q :: 0 <= q < 4 ==>
        Wm16(q) == if old(Newer(from, lo, hi)) && q == from then Word(lo, hi) else old(Wm16(q))
      ensures forall q :: 0 <= q < 4 ==>
        && Page(ring[..], q) ==
             (if old(Newer(from, lo, hi)) && q == from then old(Page(ring[..], q))[lo := decoded]
               else old(Page(ring[..], q)))
        && Page(kp[..], q) ==
             (if old(Newer(from, lo, hi)) && q == from then old(Page(kp[..], q))[lo := keypad]
               else old(Page(kp[..], q)))
      ensures
        old(Shows(cfg, s, c)) && (f.Some? ==> Close(cfg.d, c) && NearFrame(cfg.d, c, f.value)) &&
        Low(f) == (if from != seat && from < count then Some(Input(Word(lo, hi), Cell(decoded, keypad))) else None) ==>
          Shows(cfg, s, Acted(cfg, s, c, f).0)
    {
      hide PageShows, SlotsShow, Page, Word;
      if from == seat || from >= count {
        return;
      }
      var delta := Sub16(Word(lo, hi), Wm16(from));
      ghost var t := if f.Some? && f.value.Input? then f.value.tick else 0;
      if Shows(cfg, s, c) && Close(cfg.d, c) && f.Some? && NearFrame(cfg.d, c, f.value) && f.value.Input? &&
        Word(lo, hi) == t % WORD {
        SignIsRight(t, c.wm);
      }
      if Minus(delta) || delta == 0 {
        return;
      }
      AcceptInput(from, lo, hi, decoded, keypad, cfg, s, c, t);
    }

    /** Store a captured cell pair in the own seat's pages. */
    method StoreOwn(slot: Byte, decoded: Byte, keypad: Byte, ghost cfg: Config, ghost s: Seat, ghost c: Con)
      requires Shows(cfg, s, c) && Close(cfg.d, c) && c.pc.Ready? && slot == (c.tick + cfg.d) % PAGE
      modifies ring, kp
      ensures
        var era := Era0(c).(sent := Era0(c).sent[c.tick + cfg.d := Cell(decoded, keypad)]);
        Shows(cfg, s, c.(pc := Gate, eras := c.eras[|c.eras| - 1 := era]))
    {
      hide PageShows, SlotsShow, Page, Word;
      PageStore(Page(ring[..], seat), Page(kp[..], seat), Era0(c).sent,
                c.tick - 1, Captured(cfg, c), c.tick + cfg.d, Cell(decoded, keypad));
      StoreCell(seat, slot, decoded, keypad);
    }

    /** LS_PASS: capture the local pad for tick T+d, store it and frame it. */
    method Capture(decoded: Byte, keypad: Byte, ghost cfg: Config, ghost s: Seat, ghost c: Con) returns (tx: seq<Byte>)
      requires Shows(cfg, s, c) && Close(cfg.d, c) && c.pc.Ready?
      modifies ring, kp
      ensures tx == Bytes(SeatNo(s), Input(c.tick + cfg.d, Cell(decoded, keypad)))
      ensures
        var era := Era0(c).(sent := Era0(c).sent[c.tick + cfg.d := Cell(decoded, keypad)]);
        Shows(cfg, s, c.(pc := Gate, eras := c.eras[|c.eras| - 1 := era]))
    {
      hide SlotsShow, ShowsRing, Close, Captured, Known;
      var t := (Tick16() + delay) % WORD;
      WordAdd(c.tick, cfg.d);
      TickBytes(c.tick + cfg.d);
      LowByte(c.tick + cfg.d);
      tx := [6, FT_INPUT, seat, Lo(t), Hi(t), decoded, keypad];
      StoreOwn(Lo(t), decoded, keypad, cfg, s, c);
    }

    /** LS_VDISPATCH: the cells of slots T and T-1 of one seat. */
    method ReadPads(q: Byte) returns (cur: Byte, prev: Byte, key: Byte, keyPrev: Byte)
      requires q < 4 && ring.Length == kp.Length == 4 * PAGE
      ensures cur == ring[q * PAGE + Tick16() % PAGE] && prev == ring[q * PAGE + (Tick16() - 1) % PAGE]
      ensures key == kp[q * PAGE + Tick16() % PAGE] && keyPrev == kp[q * PAGE + (Tick16() - 1) % PAGE]
    {
      var at := q * PAGE + tickLo;
      cur, key := ring[at], kp[at];
      at := at - 1;
      if tickLo == 0 {
        at := at + 256; // the previous slot wraps inside the page
      }
      prev, keyPrev := ring[at], kp[at];
    }

    /** The virtual dispatch of both seats reads exactly the protocol's pads. */
    method TickCells(ghost cfg: Config, ghost s: Seat, ghost c: Con) returns (p: Pads)
      requires Shows(cfg, s, c) && Close(cfg.d, c) && c.pc.Gate? && c.wm >= c.tick
      ensures p == TickPads(s, c)
    {
      hide PageShows, SlotsShow, Page, ShowsRing, Lookup, Close, Minus;
      SlotShown(seat, Era0(c).sent, c.tick - 1, Captured(cfg, c), c.tick);
      SlotShown(1 - seat, c.remote, c.tick - 1, Known(cfg.d, c), c.tick);
      var c0, p0, k0, q0 := ReadPads(0);
      var c1, p1, k1, q1 := ReadPads(1);
      p := Pads(Cell(c0, k0), Cell(p0, q0), Cell(c1, k1), Cell(p1, q1));
    }

    /** Slots T and T-1 of a page are the ring's entries. */
    lemma SlotShown(q: int, m: map<int, Cell>, lo: int, hi: int, t: int)
      requires 0 <= q < 4 && ring.Length == kp.Length == 4 * PAGE && ShowsRing(q, m, lo, hi)
      requires lo < t <= hi && Tick16() == t % WORD
      ensures Cell(ring[q * PAGE + Tick16() % PAGE], kp[q * PAGE + Tick16() % PAGE]) == Lookup(m, t)
      ensures
        var k := (Tick16() - 1) % PAGE;
        Cell(ring[q * PAGE + k], kp[q * PAGE + k]) == Lookup(m, t - 1)
    {
      hide Lookup, Word;
      SlotsOfClock(Tick16(), t);
      PageAt(ring[..], q, t % PAGE);
      PageAt(ring[..], q, (t - 1) % PAGE);
      PageAt(kp[..], q, t % PAGE);
      PageAt(kp[..], q, (t - 1) % PAGE);
      assert lo <= t - 1 <= hi && lo <= t <= hi;
      hide Page;
    }

    /** The checkpoint at the end of a tick: record the sum and frame it. */
    method Checkpoint(cLo: Byte, cHi: Byte, ghost cfg: Config, ghost s: Seat, ghost c: Con) returns (tx: seq<Byte>)
      requires Shows(cfg, s, c) && Close(cfg.d, c)
      modifies ownCrc
      ensures Shows(cfg, s, if AtCheckpoint(c) then c.(records := Record(c.records, c.tick, Word(cLo, cHi))) else c)
      ensures tx == if AtCheckpoint(c) then Bytes(SeatNo(s), Crc(c.tick, Word(cLo, cHi))) else []
    {
      hide PageShows, SlotsShow, Page, ShowsRing, Record, Close, Shows;
      tx := [];
      CheckpointTest(cfg, s, c);
      if tickLo % 64 == 0 {
        RecordCrc(cLo, cHi, cfg, s, c);
        SumBytes(Word(cLo, cHi), cLo, cHi);
        tx := [6, FT_CRC, seat, tickLo, tickHi, cLo, cHi];
      }
    }

    lemma CheckpointTest(cfg: Config, s: Seat, c: Con)
      requires Shows(cfg, s, c)
      ensures tickLo % 64 == 0 <==> AtCheckpoint(c)
      ensures tickLo == Lo(c.tick) && tickHi == Hi(c.tick) && seat == SeatNo(s)
    {
      hide PageShows, SlotsShow, Page, ShowsRing, Lo, Hi;
      CheckpointByte(c.tick);
      WordBytes(tickLo, tickHi, c.tick);
    }

    /** The end of a tick: the new state, the checkpoint, the clock. */
    method FinishTick(after: Image, cLo: Byte, cHi: Byte, ghost cfg: Config, ghost s: Seat, ghost c: Con)
      returns (tx: seq<Byte>)
      requires Shows(cfg, s, c) && Close(cfg.d, c) && c.pc.Gate?
      requires after == SimAfter(cfg, s, c) && Word(cLo, cHi) == cfg.sum(after)
      modifies this, ownCrc
      ensures Shows(cfg, s, RunTick(cfg, s, c).0)
      ensures tx == Stream(SeatNo(s), RunTick(cfg, s, c).1)
    {
      hide Shows, Record, BookAfter, SimAfter, Close;
      tx := Checkpoint(cLo, cHi, cfg, s, c);
      StreamOne(SeatNo(s), Msg(Epoch(c), Crc(c.tick, Word(cLo, cHi))));
      ghost var kept := if AtCheckpoint(c) then c.(records := Record(c.records, c.tick, Word(cLo, cHi))) else c;
      Advance(after, cfg, s, kept, RunTick(cfg, s, c).0);
    }

    /** The new state and the next tick. */
    method Advance(after: Image, ghost cfg: Config, ghost s: Seat, ghost c: Con, ghost c': Con)
      requires Shows(cfg, s, c) && c.pc.Gate?
      requires c' == c.(sim := after, tick := c.tick + 1, pc := Entry, books := c'.books)
      modifies `sim, `tickLo, `tickHi
      ensures Shows(cfg, s, c')
    {
      hide SlotsShow, PageShows, Page;
      sim := after;
      WordAdd(c.tick, 1);
      IncTick();
      PageNarrow(Page(ring[..], seat), Page(kp[..], seat), Era0(c).sent, c.tick - 1, Captured(cfg, c), c.tick,
        Captured(cfg, c));
      PageNarrow(Page(ring[..], 1 - seat), Page(kp[..], 1 - seat), c.remote, c.tick - 1, Known(cfg.d, c), c.tick,
        Known(cfg.d, c));
    }

    /** Add one to the clock, carrying by hand. */
    method IncTick()
      modifies `tickLo, `tickHi
      ensures Tick16() == (old(Tick16()) + 1) % WORD
    {
      if tickLo < 0xFF {
        tickLo := tickLo + 1;
      } else {
        tickLo := 0;
        tickHi := (tickHi + 1) % 256;
      }
    }

    // ---------------------------------------------------------------- resync

    /** RS_CLR_CRC: no record can match a cleared slot. */
    method ClearRecords()
      requires ownCrc.Length == 32
      modifies ownCrc
      ensures SlotsShow(ownCrc[..], map[])
    {
      var i := 0;
      while i < 32
        invariant 0 <= i <= 32 && forall j :: 0 <= j < i ==> ownCrc[j] == NO_RECORD
      {
        ownCrc[i] := NO_RECORD;
        i := i + 1;
      }
      SlotsEmpty(ownCrc[..]);
    }

    /** LS_RING_INIT: every page of every seat to idle. */
    method ClearRings()
      requires ring.Length == kp.Length == 4 * PAGE && ring != kp
      modifies ring, kp
      ensures AllIdle() && forall j :: 0 <= j < 1024 ==> ring[j] == 0x40 && kp[j] == 0
    {
      var i := 0;
      while i < 4 * PAGE
        invariant 0 <= i <= 4 * PAGE && forall j :: 0 <= j < i ==> ring[j] == IDLE.decoded
      {
        ring[i] := IDLE.decoded;
        i := i + 1;
      }
      i := 0;
      while i < 4 * PAGE
        invariant 0 <= i <= 4 * PAGE && forall j :: 0 <= j < i ==> kp[j] == IDLE.keypad
        invariant forall j :: 0 <= j < 4 * PAGE ==> ring[j] == IDLE.decoded
      {
        kp[i] := IDLE.keypad;
        i := i + 1;
      }
    }

    predicate AllIdle()
      reads ring, kp
    {
      && ring.Length == kp.Length == 4 * PAGE
      && forall j :: 0 <= j < 4 * PAGE ==> ring[j] == IDLE.decoded && kp[j] == IDLE.keypad
    }

    /** Idle cells show an empty ring over any window. */
    lemma IdleShows(q: int, lo: int, hi: int)
      requires 0 <= q < 4 && AllIdle()
      ensures ShowsRing(q, map[], lo, hi)
    {
      PageIdle(Page(ring[..], q), Page(kp[..], q), lo, hi);
    }

    /** Every seat's watermark cell pair to one 16-bit value. */
    method SetWatermarks(w: int)
      requires wm.Length == 8 && 0 <= w < WORD
      modifies wm
      ensures forall q :: 0 <= q < 4 ==> Wm16(q) == w
    {
      BytesOf(w);
      var lo, hi, q := Lo(w), Hi(w), 0;
      hide Lo, Hi, Word;
      while q < 4
        invariant 0 <= q <= 4 && forall p :: 0 <= p < q ==> wm[2 * p] == lo && wm[2 * p + 1] == hi
      {
        wm[2 * q] := lo;
        wm[2 * q + 1] := hi;
        q := q + 1;
      }
    }

    /** RS_ENTER_HOLD with the resume tick: BEGIN's arm on the guest, a push on the host. */
    method EnterHold(lo: Byte, hi: Byte, ghost cfg: Config, ghost s: Seat, ghost c: Con, ghost c': Con)
      requires Shows(cfg, s, c) && Word(lo, hi) == c'.resume % WORD
      requires c' ==
        c.(hold := true, resume := c'.resume, records := map[], applied := c'.applied, tainted := c'.tainted)
      modifies `hold, `rLo, `rHi, ownCrc
      ensures Shows(cfg, s, c')
    {
      hide PageShows, SlotsShow, Page;
      hold := true;
      ClearRecords();
      rLo, rHi := lo, hi;
    }

    /** All inputs and records forgotten, every seat's watermark at one value. */
    method Forget(w: int)
      requires Valid() && 0 <= w < WORD
      modifies wm, ring, kp, ownCrc
      ensures AllIdle() && Wm16(1 - seat) == w && SlotsShow(ownCrc[..], map[])
    {
      hide SlotsShow;
      ClearRings();
      SetWatermarks(w);
      ClearRecords();
    }

    /** RS_REBASE: jump to the resume tick with idle rings. */
    method DoRebase(clamped: Image, ghost cfg: Config, ghost s: Seat, ghost c: Con)
      requires Shows(cfg, s, c) && hold && clamped == cfg.clamp(c.sim) && 1 <= cfg.d < LEAD
      modifies this, wm, ring, kp, ownCrc
      ensures Shows(cfg, s, Rebase(cfg, c))
    {
      hide PageShows, SlotsShow, Page, Known, Captured, ShowsRing, AllIdle, Lo, Hi, Rebase, Era0;
      Rebased(cfg, c);
      var w := (Word(rLo, rHi) + delay - 1) % WORD;
      WordAdd(c.resume, cfg.d - 1);
      pend, ptmo := false, 0;
      sim := clamped;
      tickLo, tickHi := rLo, rHi;
      Forget(w);
      hold := false;
      ghost var r := Rebase(cfg, c);
      IdleShows(1 - seat, r.tick - 1, Known(cfg.d, r));
      IdleShows(seat, r.tick - 1, Captured(cfg, r));
    }

    /** RS_PUSH: hold, BEGIN, the image in chunks of at most 96 bytes, END, rebase. */
    method PushImage(clamped: Image, ghost cfg: Config, ghost s: Seat, ghost c: Con) returns (tx: seq<Byte>)
      requires Shows(cfg, s, c) && s.Host? && clamped == cfg.clamp(c.sim) && 1 <= cfg.d < LEAD
      modifies this, wm, ring, kp, ownCrc
      ensures Shows(cfg, s, Push(cfg, c).0) && tx == Stream(SeatNo(s), Push(cfg, c).1) && tx != []
    {
      hide Shows, Rebase, PushMsgs, Lo, Hi, Word;
      ClockShown(cfg, s, c);
      var r := (Tick16() + LEAD) % WORD;
      LaterBytes(Tick16(), c.tick, LEAD);
      ghost var held := c.(hold := true, resume := c.tick + LEAD, records := map[], tainted := false);
      EnterHold(Lo(r), Hi(r), cfg, s, c, held);
      ClockShown(cfg, s, held);
      tx := ImageStream(Lo(r), Hi(r), Epoch(c), c.tick + LEAD);
      DoRebase(clamped, cfg, s, held);
    }

    lemma ClockShown(cfg: Config, s: Seat, c: Con)
      requires Shows(cfg, s, c)
      ensures Valid() && ShowsClock(cfg, s, c)
    {
    }

    /** The push on the wire. */
    method ImageStream(rLow: Byte, rHigh: Byte, ghost epoch: nat, ghost r: int) returns (tx: seq<Byte>)
      requires rLow == Lo(r) && rHigh == Hi(r)
      ensures tx == Stream(seat, PushMsgs(epoch, r, sim)) && tx != []
    {
      hide Chunks, Stream, PushMsgs;
      PushStream(seat, epoch, r, sim);
      tx := [5, FT_STATE, 0, CONTROL, rLow, rHigh];
      var pos := 0;
      while pos != IMAGE
        invariant 0 <= pos <= IMAGE && tx != []
        invariant tx + Stream(seat, Chunks(epoch, sim, pos)) ==
          Bytes(seat, Begin(r)) + Stream(seat, Chunks(epoch, sim, 0))
        decreases IMAGE - pos
      {
        var n := if IMAGE - pos < CHUNK then IMAGE - pos else CHUNK;
        ChunksStep(seat, epoch, sim, pos, n);
        tx := tx + ([n + 3, FT_STATE, Lo(pos), Hi(pos)] + sim[pos..pos + n]);
        pos := pos + n;
      }
      NoChunks(seat, epoch, sim);
      tx := tx + [3, FT_STATE, 1, CONTROL];
    }

    /** RS_PENDING: the host's look at a wanted push, after its tick. */
    method LookAtPending(quiet: bool, clamped: Image, ghost cfg: Config, ghost s: Seat, ghost c: Con)
      returns (tx: seq<Byte>)
      requires Shows(cfg, s, c) && clamped == cfg.clamp(c.sim) && 1 <= cfg.d < LEAD
      requires s.Host? && c.pend ==> c.waited < PATIENCE
      modifies this, wm, ring, kp, ownCrc
      ensures Shows(cfg, s, Pending(cfg, s, c, quiet).0) && tx == Stream(SeatNo(s), Pending(cfg, s, c, quiet).1)
      ensures tx != [] <==> old(pend) && seat == 0 && !old(hold) && (quiet || old(ptmo) >= 59)
      ensures tx == [] ==> Tick16() == old(Tick16()) && pend == old(pend)
    {
      hide PageShows, Page, SlotsShow, Push;
      tx := [];
      if !pend || seat != 0 || hold {
        return;
      }
      ptmo := ptmo + 1;
      if quiet || ptmo >= PATIENCE {
        tx := PushImage(clamped, cfg, s, c.(waited := c.waited + 1));
      }
    }

    /** START: seat, room size and delay from the frame; empty rings; the watermark's low
        byte is d-1 and its high byte 0. */
    method Start(me: Byte, seats: Byte, d: Byte, ghost cfg: Config, ghost s: Seat, ghost start: Image)
      requires Valid() && !hold && !pend && ptmo == 0
      requires me == SeatNo(s) && seats == 2 && d == cfg.d
      modifies this, wm, ring, kp, ownCrc
      ensures Shows(cfg, s, Fresh(cfg, old(sim), start))
    {
      hide SlotsShow, ShowsRing, AllIdle, Known, Captured, Lo, Hi, Fresh, Era0, Wm16, Word;
      ghost var c := Fresh(cfg, sim, start);
      Started(cfg, sim, start);
      ZeroWord();
      seat, count, delay := me, seats, d;
      Forget((d - 1) % 256);
      tickLo, tickHi := 0, 0;
      IdleShows(1 - seat, c.tick - 1, Known(cfg.d, c));
      IdleShows(seat, c.tick - 1, Captured(cfg, c));
    }

    /** RS_RECORD_CRC at a checkpoint. */
    method RecordCrc(cLo: Byte, cHi: Byte, ghost cfg: Config, ghost s: Seat, ghost c: Con)
      requires Shows(cfg, s, c) && Close(cfg.d, c) && AtCheckpoint(c)
      modifies ownCrc
      ensures Shows(cfg, s, c.(records := Record(c.records, c.tick, Word(cLo, cHi))))
    {
      hide PageShows, SlotsShow, Page;
      RecordStore(ownCrc[..], c.records, c.tick, tickLo, tickHi, cLo, cHi);
      StoreRecord(tickLo / 64, tickLo, tickHi, cLo, cHi);
    }

    /** Four cells through an auto-incremented pointer. */
    method StoreRecord(i: Byte, lo: Byte, hi: Byte, cLo: Byte, cHi: Byte)
      requires ownCrc.Length == 32 && i < 8
      modifies ownCrc
      ensures ownCrc[..] == old(ownCrc[..])[4 * i := lo][4 * i + 1 := hi][4 * i + 2 := cLo][4 * i + 3 := cHi]
    {
      ownCrc[4 * i] := lo;
      ownCrc[4 * i + 1] := hi;
      ownCrc[4 * i + 2] := cLo;
      ownCrc[4 * i + 3] := cHi;
    }

    /** Our own record of a tick with these low bytes says another sum. */
    predicate Contradicts(lo: Byte, hi: Byte, cLo: Byte, cHi: Byte)
      requires ownCrc.Length == 32
      reads ownCrc
    {
      var i := 4 * (lo / 64);
      ownCrc[i] == lo && ownCrc[i + 1] == hi && !(ownCrc[i + 2] == cLo && ownCrc[i + 3] == cHi)
    }

    /** RS_ON_CRC, for any bytes: a push is wanted if none is and the sum contradicts our own
        record.  For the checksums a peer sends that is the protocol's comparison. */
    method OnCrc(lo: Byte, hi: Byte, cLo: Byte, cHi: Byte, ghost cfg: Config, ghost s: Seat, ghost c: Con,
                 ghost t: int) returns (tx: seq<Byte>)
      requires Valid()
      modifies `pend, `ptmo
      ensures pend <==> old(pend) || (!hold && Contradicts(lo, hi, cLo, cHi))
      ensures ptmo == if pend && !old(pend) then 0 else old(ptmo)
      ensures tx == if pend && !old(pend) && seat != 0 then [3, FT_RESYNC, lo, hi] else []
      ensures
        old(Shows(cfg, s, c)) && Close(cfg.d, c) && NearFrame(cfg.d, c, Crc(t, Word(cLo, cHi))) &&
          Word(lo, hi) == t % WORD ==>
          var (c', out) := OnFrame(cfg, s, c, Crc(t, Word(cLo, cHi)));
          Shows(cfg, s, c') && tx == Stream(SeatNo(s), out)
    {
      hide Shows, Contradicts, Close, NearFrame, Word, OnFrame;
      tx := [];
      if Shows(cfg, s, c) && Close(cfg.d, c) && NearFrame(cfg.d, c, Crc(t, Word(cLo, cHi))) &&
        Word(lo, hi) == t % WORD {
        CrcJudged(lo, hi, cLo, cHi, cfg, s, c, t);
      }
      if hold || pend {
        return;
      }
      var differs := Differs(lo, hi, cLo, cHi);
      if !differs {
        return;
      }
      Wish(cfg, s, c);
      if seat != 0 {
        tx := [3, FT_RESYNC, lo, hi];
      }
    }

    /** The comparison of the four cells. */
    method Differs(lo: Byte, hi: Byte, cLo: Byte, cHi: Byte) returns (differs: bool)
      requires ownCrc.Length == 32
      ensures differs <==> Contradicts(lo, hi, cLo, cHi)
    {
      var i := 4 * (lo / 64);
      if ownCrc[i] != lo || ownCrc[i + 1] != hi {
        return false;
      }
      differs := ownCrc[i + 2] != cLo || ownCrc[i + 3] != cHi;
    }

    /** A push is wanted from now on. */
    method Wish(ghost cfg: Config, ghost s: Seat, ghost c: Con)
      modifies `pend, `ptmo
      ensures pend && ptmo == 0
      ensures old(Shows(cfg, s, c)) ==> Shows(cfg, s, c.(pend := true, waited := 0))
    {
      hide PageShows, SlotsShow, Page;
      pend, ptmo := true, 0;
    }

    /** What the protocol does with a checksum, from the cells. */
    lemma CrcJudged(lo: Byte, hi: Byte, cLo: Byte, cHi: Byte, cfg: Config, s: Seat, c: Con, t: int)
      requires Shows(cfg, s, c) && Close(cfg.d, c) && NearFrame(cfg.d, c, Crc(t, Word(cLo, cHi))) &&
        Word(lo, hi) == t % WORD
      ensures
        var wish := !hold && !pend && Contradicts(lo, hi, cLo, cHi);
        var out := if wish && seat != 0 then [Msg(Epoch(c), Resync(t))] else [];
        && OnFrame(cfg, s, c, Crc(t, Word(cLo, cHi))) == (if wish then c.(pend := true, waited := 0) else c, out)
        && Stream(SeatNo(s), out) == if wish && seat != 0 then [3, FT_RESYNC, lo, hi] else []
    {
      hide PageShows, SlotsShow, Page, ShowsRing;
      WordBytes(lo, hi, t);
      SlotSays(ownCrc[..], c.records, t, cLo, cHi);
      StreamOne(seat, Msg(Epoch(c), Resync(t)));
    }

    /** RS_ON_REQ: only the host listens, and only once. */
    method OnRequest(ghost cfg: Config, ghost s: Seat, ghost c: Con, ghost t: int)
      requires Shows(cfg, s, c)
      modifies `pend, `ptmo
      ensures Shows(cfg, s, OnFrame(cfg, s, c, Resync(t)).0)
    {
      hide PageShows, SlotsShow, Page;
      if seat != 0 || hold || pend {
        return;
      }
      Wish(cfg, s, c);
    }

    /** RS_ON_STATE's data arm: put the chunk's bytes one by one, the position carried by hand. */
    method PutChunk(posLo: Byte, posHi: Byte, data: seq<Byte>, ghost cfg: Config, ghost s: Seat, ghost c: Con)
      requires Shows(cfg, s, c) && hold && Word(posLo, posHi) + |data| <= IMAGE
      modifies `sim
      ensures Shows(cfg, s, OnFrame(cfg, s, c, Chunk(Word(posLo, posHi), data)).0)
    {
      hide PageShows, SlotsShow, Page, ShowsRing, Splice, Word;
      var lo, hi, i := posLo, posHi, 0;
      ghost var before := sim;
      SpliceNone(before, Word(posLo, posHi), data);
      while i < |data|
        invariant 0 <= i <= |data| && Word(lo, hi) == Word(posLo, posHi) + i
        invariant sim == Splice(before, Word(posLo, posHi), data[..i])
      {
        sim := sim[Word(lo, hi) := data[i]];
        SpliceOne(before, Word(posLo, posHi), data, i);
        lo, hi := NextPosition(lo, hi);
        i := i + 1;
      }
      assert data[..i] == data;
    }

    /** RS_POS plus one, the carry by hand. */
    static method NextPosition(lo: Byte, hi: Byte) returns (lo': Byte, hi': Byte)
      requires Word(lo, hi) < IMAGE
      ensures Word(lo', hi') == Word(lo, hi) + 1
    {
      if lo < 0xFF {
        lo', hi' := lo + 1, hi;
      } else {
        lo', hi' := 0, hi + 1;
      }
    }

    /** RS_ON_STATE: control frames, and data only inside a hold and inside the image. */
    method OnState(b: seq<Byte>, clamped: Image, ghost cfg: Config, ghost s: Seat, ghost c: Con, ghost f: Option<Frame>)
      requires Shows(cfg, s, c) && 1 <= cfg.d < LEAD && clamped == cfg.clamp(c.sim)
      requires Whole(b) && |b| >= 4 && ReadState(b) == Low(f)
      modifies this, wm, ring, kp, ownCrc
      ensures Shows(cfg, s, Acted(cfg, s, c, f).0)
    {
      if b[3] == CONTROL {
        if b[2] == 0 {
          if b[0] >= 5 {
            EnterHold(b[4], b[5], cfg, s, c, Acted(cfg, s, c, f).0);
          }
        } else if b[2] == 1 && hold {
          DoRebase(clamped, cfg, s, c);
        }
      } else if hold && b[0] > 3 && b[3] < 4 && Word(b[2], b[3]) + b[0] - 3 <= IMAGE {
        PutChunk(b[2], b[3], b[4..], cfg, s, c);
      }
    }

    /** SES_ONFRAME for the four match frames.  Any whole frame of any other content or type
        leaves the console as it was, and none but an INPUT or CRC can be out of the windows
        in which the cells decide as the protocol does. */
    method Dispatch(b: seq<Byte>, clamped: Image, ghost cfg: Config, ghost s: Seat, ghost c: Con,
                    ghost f: Option<Frame>) returns (tx: seq<Byte>)
      requires Shows(cfg, s, c) && 1 <= cfg.d < LEAD && clamped == cfg.clamp(c.sim)
      requires Whole(b) && Read(seat, count, b) == Low(f)
      modifies this, wm, ring, kp, ownCrc
      ensures Valid() && seat == old(seat) && delay == old(delay)
      ensures b[1] != FT_STATE ==> Tick16() == old(Tick16()) && hold == old(hold) && sim == old(sim)
      ensures b[1] != FT_STATE && b[1] != FT_INPUT ==>
        wm[..] == old(wm[..]) && ring[..] == old(ring[..]) && kp[..] == old(kp[..])
      ensures b[1] != FT_STATE && b[1] != FT_CRC && b[1] != FT_RESYNC ==> pend == old(pend) && ptmo == old(ptmo)
      ensures f.None? || !(f.value.Input? || f.value.Crc?) || (Close(cfg.d, c) && NearFrame(cfg.d, c, f.value)) ==>
        Shows(cfg, s, Acted(cfg, s, c, f).0) && tx == Stream(SeatNo(s), Acted(cfg, s, c, f).1)
    {
      hide Shows, NearFrame, Word, OnFrame, Close, Newer, Contradicts, Page, Read, ReadState, Low, Stream;
      ClockShown(cfg, s, c);
      ArmOf(b, seat, count, cfg, s, c, f);
      tx := [];
      if b[1] == FT_INPUT {
        if b[0] >= 6 {
          OnInput(b[2], b[3], b[4], b[5], b[6], cfg, s, c, f);
        }
      } else if b[1] == FT_CRC {
        if b[0] >= 6 {
          tx := OnCrc(b[3], b[4], b[5], b[6], cfg, s, c, f.value.tick);
        }
      } else if b[1] == FT_STATE {
        if b[0] >= 3 {
          OnState(b, clamped, cfg, s, c, f);
          ClockShown(cfg, s, Acted(cfg, s, c, f).0);
        }
      } else if b[1] == FT_RESYNC {
        if b[0] >= 3 {
          OnRequest(cfg, s, c, f.value.tick);
        }
      }
    }
  }
}
