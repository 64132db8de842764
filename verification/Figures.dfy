/** The figures and formats of the source, written out: what each constant and each layout comes
    to where somebody else relies on it. */
module Figures {
  import opened Protocol
  import opened Cells
  import opened Wire
  import opened ImageRam
  import opened ConsoleRam
  import Checksum
  import Timers
  import PumpRam

  // ---------------------------------------------------------------- the match frames

  /** Every match frame, byte by byte: words low byte first. */
  lemma FrameLayout(from: Byte, t: int, cell: Cell, x: int, pos: nat, data: seq<Byte>)
    requires 0 <= x < 65536 && 0 < |data| <= 96 && pos + |data| <= 770
    ensures Bytes(from, Input(t, cell)) == [6, 0x06, from, t % 256, t / 256 % 256, cell.decoded, cell.keypad]
    ensures Bytes(from, Crc(t, x)) == [6, 0x07, from, t % 256, t / 256 % 256, x % 256, x / 256]
    ensures Bytes(from, Begin(t)) == [5, 0x08, 0, 0xFF, t % 256, t / 256 % 256]
    ensures Bytes(from, Chunk(pos, data)) == [|data| + 3, 0x08, pos % 256, pos / 256] + data
    ensures Bytes(from, End) == [3, 0x08, 1, 0xFF]
    ensures Bytes(from, Resync(t)) == [3, 0x09, t % 256, t / 256 % 256]
  {
  }

  /** The host is seat 0 and the guest seat 1; an empty ring entry is the released disc. */
  lemma SeatsAndIdle()
    ensures SeatNo(Host) == 0 && SeatNo(Guest) == 1 && IDLE == Cell(0x40, 0)
  {
  }

  /** A 16-bit difference is negative exactly if its top bit is set. */
  lemma TopBit(w: int)
    requires 0 <= w < 65536
    ensures Minus(w) <==> w / 32768 == 1
  {
  }

  // ---------------------------------------------------------------- a push

  /** THEOREM.  A push resumes sixteen ticks on; its frames are BEGIN with that tick, nine chunks that
      lay out the image in order, eight of them of 96 bytes, and END. */
  lemma PushIs(cfg: Config, c: Con)
    ensures
      var (h, out) := Push(cfg, c);
      && h.tick == c.tick + 16 && h.wm == c.tick + 16 + cfg.d - 1 && |out| == 11
      && out[0].frame == Begin(c.tick + 16) && out[10].frame == End
      && (forall i :: 0 <= i < 8 ==> out[1 + i].frame == Chunk(96 * i, c.sim[96 * i..96 * i + 96]))
      && out[9].frame == Chunk(768, c.sim[768..770])
  {
    hide Rebase;
    Rebased(cfg, c.(hold := true, resume := c.tick + LEAD, records := map[], tainted := false));
    ChunksAre(Epoch(c), c.sim, 0);
  }

  lemma {:induction false} ChunksAre(epoch: nat, img: Image, k: nat)
    requires k <= 8
    ensures
      var ms := Chunks(epoch, img, 96 * k);
      && |ms| == 9 - k && ms[8 - k].frame == Chunk(768, img[768..770])
      && forall i :: k <= i < 8 ==> ms[i - k].frame == Chunk(96 * i, img[96 * i..96 * i + 96])
    decreases 8 - k
  {
    hide Chunks;
    ChunksStep(epoch, img, 96 * k);
    if k < 8 {
      ChunksAre(epoch, img, k + 1);
      var ms, rest := Chunks(epoch, img, 96 * k), Chunks(epoch, img, 96 * (k + 1));
      assert ms == [ms[0]] + rest;
    } else {
      ChunksStep(epoch, img, 770);
    }
  }

  lemma ChunksStep(epoch: nat, img: Image, pos: nat)
    requires pos <= 770
    ensures Chunks(epoch, img, pos) ==
      if pos == 770 then []
      else
        var n := if 770 - pos < 96 then 770 - pos else 96;
        [Msg(epoch, Chunk(pos, img[pos..pos + n]))] + Chunks(epoch, img, pos + n)
  {
  }

  // ---------------------------------------------------------------- a tick

  /** What a tick reads, writes and sends: slots T and T-1 of both rings, the host's first; the
      step of the game on them; a record and a frame on every sixty-fourth tick. */
  lemma TickIs(cfg: Config, s: Seat, c: Con)
    ensures
      var (c', out) := RunTick(cfg, s, c);
      var hostRing, guestRing := if s.Host? then Era0(c).sent else c.remote, if s.Host? then c.remote else Era0(c).sent;
      var pads := Pads(Lookup(hostRing, c.tick), Lookup(hostRing, c.tick - 1),
                       Lookup(guestRing, c.tick), Lookup(guestRing, c.tick - 1));
      && c'.tick == c.tick + 1 && c'.sim == cfg.step(c.sim, pads)
      && (if c.tick % 64 == 0 then out == [Msg(Epoch(c), Crc(c.tick, cfg.sum(c'.sim)))] && c.tick in c'.records
          else out == [] && c'.records == c.records)
  {
  }

  // ---------------------------------------------------------------- the state image

  /** The sixteen-bit halves and scattered cells of the image, in its order. */
  lemma ImageLayout(p: int)
    requires 0 <= p < 770
    ensures
      if p < 147 then PlaceOf(p) == Place(0x15D + p, All)
      else if p < 627 then PlaceOf(p) == Place(0x200 + (p - 147) / 2, if p % 2 == 1 then Low else High)
      else if p < 755 then PlaceOf(p) == Place(0x31D + (p - 627) / 2, if p % 2 == 1 then Low else High)
      else PlaceOf(p) == Place([0x8106, 0x8107, 0x8102, 0x8103, 0x8104, 0x810F, 0x8196, 0x8197, 0x8198, 0x8199,
                                0x819A, 0x819B, 0x819F, 0x80C0, 0x80C1][p - 755], All)
  {
  }

  /** The cells a checksum sums, in order. */
  lemma SummedIs(m: Memory, k: int)
    requires 0 <= k < 160
    ensures |Checksum.Summed(m)| == 160
    ensures Checksum.Summed(m)[k] == if k < 147 then m[0x15D + k] else
      m[[0x8106, 0x8107, 0x8102, 0x8103, 0x8104, 0x810F,
         0x8196, 0x8197, 0x8198, 0x8199, 0x819A, 0x819B, 0x819F][k - 147]]
  {
    var a, b, c, d := m[0x15D..0x1F0], m[0x8106..0x8108], m[0x8102..0x8105], m[0x810F..0x8110];
    var e, f := m[0x8196..0x819C], m[0x819F..0x81A0];
    var tail := b + c + d + e + f;
    assert Checksum.Summed(m) == a + tail && |a| == 147 && |tail| == 13;
    if k >= 147 { TailIs(m, k - 147); }
  }

  lemma TailIs(m: Memory, j: int)
    requires 0 <= j < 13
    ensures (m[0x8106..0x8108] + m[0x8102..0x8105] + m[0x810F..0x8110] + m[0x8196..0x819C] + m[0x819F..0x81A0])[j] ==
      m[[0x8106, 0x8107, 0x8102, 0x8103, 0x8104, 0x810F,
         0x8196, 0x8197, 0x8198, 0x8199, 0x819A, 0x819B, 0x819F][j]]
  {
  }

  /** The clamps, cell by cell. */
  lemma ClampIs(m: Memory, a: int)
    requires 0 <= a < 65536
    ensures Checksum.Clamped(m)[a] ==
      if a == 0x15F || a == 0x100 then 0x26
      else if a == 0x160 || a == 0x101 then 0x11
      else if a == 0x172 then if m[a] == 0 then 1 else if m[a] <= 2 then m[a] else 2
      else m[a]
  {
  }

  // ---------------------------------------------------------------- timers, the receiver

  /** Undisturbed and armed, the five entries fire every 16, 45, 10, 2 and 80 ticks. */
  lemma Periods(i: int, t: Timers.Timers, es: seq<Timers.Event>, k: nat)
    requires 0 <= i < 5 && t.arm[i] && t.cnt[i] == [16, 45, 10, 2, 80][i]
    requires (forall e <- es :: Timers.Undisturbed(e, i)) && Timers.TickCount(es) == k * [16, 45, 10, 2, 80][i]
    ensures Timers.FireCount(t, es, i) == k
  {
    var n := [16, 45, 10, 2, 80][i];
    assert Timers.Interval(i) == n;
    Timers.FiringLaw(t, es, i);
    MultipleFirings(n, k);
  }

  lemma MultipleFirings(n: nat, k: nat)
    requires n > 0
    ensures Timers.Firings(n, n, k * n) == k
  {
    if k == 0 {
      assert k * n == 0;
    } else {
      assert k * n == n + (k - 1) * n && k * n >= n;
      Multiple(k - 1, n);
    }
  }

  lemma Multiple(k: nat, n: nat)
    requires n > 0
    ensures k * n / n == k
  {
    if k > 0 {
      Multiple(k - 1, n);
      assert k * n == (k - 1) * n + n;
      assert ((k - 1) * n + n) / n == (k - 1) * n / n + 1;
    }
  }

  /** The header table's slots, four bytes apart. */
  lemma SlotsOf(i: int)
    requires 0 <= i < 5
    ensures Timers.EntryOf(0x5020 + 4 * i) == i
  {
  }

  /** The slip count stops at 255. */
  lemma SlipsSaturate(count: Byte, n: nat)
    ensures PumpRam.Bumped(count, n) == if count + n >= 255 then 255 else count + n
  {
  }
}
