/** How a console's 8-bit cells stand for the unbounded state of the protocol. */
module Cells {
  import opened Protocol

  const WORD := 0x1_0000
  const PAGE := 256
  const NO_RECORD := 0xFF

  function Word(lo: Byte, hi: Byte): (w: int)
    ensures 0 <= w < WORD
  {
    lo + 256 * hi
  }

  function Lo(w: int): Byte { w % 256 }
  function Hi(w: int): Byte { w / 256 % 256 }

  /** The sign the CPU sees after a 16-bit subtraction. */
  predicate Minus(w: int) { w >= 0x8000 }
  function Sub16(a: int, b: int): int { (a - b) % WORD }

  lemma BytesOf(w: int)
    ensures Word(Lo(w), Hi(w)) == w % WORD
  {
  }

  lemma TickBytes(w: int)
    ensures Lo(w) == w % WORD % 256 && Hi(w) == w % WORD / 256
  {
  }

  /** A word's bytes are the only bytes that make it. */
  lemma WordBytes(lo: Byte, hi: Byte, w: int)
    requires Word(lo, hi) == w % WORD
    ensures lo == Lo(w) && hi == Hi(w)
  {
  }

  /** Within half the range a 16-bit difference has the right sign, and is zero only for equals. */
  lemma SignIsRight(x: int, y: int)
    requires -0x8000 < x - y < 0x8000
    ensures
      var w := Sub16(x % WORD, y % WORD);
      && (Minus(w) <==> x < y) && (w == 0 <==> x == y)
      && (x >= y ==> w == x - y)
  {
  }

  /** The bytes of a 16-bit clock some ticks on. */
  lemma LaterBytes(w: int, t: int, n: int)
    requires w == t % WORD
    ensures
      var r := (w + n) % WORD;
      && r == (t + n) % WORD && Lo(r) == Lo(t + n) && Hi(r) == Hi(t + n) && Word(Lo(r), Hi(r)) == r
  {
    WordAdd(t, n);
    LowByte(t + n);
    BytesOf((t + n) % WORD);
  }

  lemma SlotOfTick(lo: Byte, hi: Byte, t: int)
    requires Word(lo, hi) == t % WORD
    ensures lo == t % PAGE
  {
    WordBytes(lo, hi, t);
  }

  lemma WordAdd(x: int, n: int)
    ensures (x % WORD + n) % WORD == (x + n) % WORD
  {
  }

  lemma LowByte(x: int)
    ensures x % WORD % 256 == x % 256 && Hi(x % WORD) == Hi(x)
  {
  }

  /** Adjacent ring slots of a 16-bit clock. */
  lemma SlotsOfClock(w: int, t: int)
    requires w == t % WORD
    ensures w % PAGE == t % PAGE && (w - 1) % PAGE == (t - 1) % PAGE
  {
    SlotsLater(w, t / WORD);
    SlotsLater(w - 1, t / WORD);
  }

  lemma SlotsLater(x: int, k: int)
    ensures (x + WORD * k) % PAGE == x % PAGE
  {
  }

  lemma CheckpointByte(t: int)
    ensures Lo(t) % 64 == t % CHECKPOINT
  {
  }

  /** Close numbers with equal 16-bit images are equal. */
  lemma SameWord(x: int, y: int)
    requires -WORD < x - y < WORD && x % WORD == y % WORD
    ensures x == y
  {
  }

  // ---------------------------------------------------------------- ring pages

  /** A seat's two 256-cell pages are right about ticks lo..hi. */
  ghost predicate PageShows(dec: seq<Byte>, kp: seq<Byte>, ring: map<int, Cell>, lo: int, hi: int)
    requires |dec| == |kp| == PAGE
  {
    forall k :: lo <= k <= hi ==> Cell(dec[k % PAGE], kp[k % PAGE]) == Lookup(ring, k)
  }

  /** Storing the next tick evicts only ticks that have left the window. */
  lemma PageStore(dec: seq<Byte>, kp: seq<Byte>, ring: map<int, Cell>, lo: int, hi: int, t: int, cell: Cell)
    requires |dec| == |kp| == PAGE && PageShows(dec, kp, ring, lo, hi)
    requires lo <= t <= hi + 1 && t < lo + PAGE && hi < lo + PAGE
    ensures
      var hi' := if t > hi then t else hi;
      PageShows(dec[t % PAGE := cell.decoded], kp[t % PAGE := cell.keypad], ring[t := cell], lo, hi')
  {
    forall k | lo <= k <= (if t > hi then t else hi) && k != t ensures k % PAGE != t % PAGE {
      Apart(k, t);
    }
  }

  lemma Apart(k: int, t: int)
    requires k != t && -PAGE < k - t < PAGE
    ensures k % PAGE != t % PAGE
  {
  }

  lemma PageNarrow(dec: seq<Byte>, kp: seq<Byte>, ring: map<int, Cell>, lo: int, hi: int, lo': int, hi': int)
    requires |dec| == |kp| == PAGE && PageShows(dec, kp, ring, lo, hi) && lo <= lo' && hi' <= hi
    ensures PageShows(dec, kp, ring, lo', hi')
  {
  }

  lemma PageIdle(dec: seq<Byte>, kp: seq<Byte>, lo: int, hi: int)
    requires |dec| == |kp| == PAGE
    requires forall i :: 0 <= i < PAGE ==> dec[i] == IDLE.decoded && kp[i] == IDLE.keypad
    ensures PageShows(dec, kp, map[], lo, hi)
  {
  }

  /** One seat's page of four. */
  function Page(cells: seq<Byte>, q: int): (r: seq<Byte>)
    requires |cells| == 4 * PAGE && 0 <= q < 4
    ensures |r| == PAGE
  {
    cells[q * PAGE..(q + 1) * PAGE]
  }

  lemma PageAt(cells: seq<Byte>, q: int, i: int)
    requires |cells| == 4 * PAGE && 0 <= q < 4 && 0 <= i < PAGE
    ensures Page(cells, q)[i] == cells[q * PAGE + i]
  {
  }

  /** One cell of one page: no other page changes. */
  lemma PageOfStore(cells: seq<Byte>, q: int, slot: Byte, v: Byte)
    requires |cells| == 4 * PAGE && 0 <= q < 4
    ensures Page(cells[q * PAGE + slot := v], q) == Page(cells, q)[slot := v]
    ensures forall p :: 0 <= p < 4 && p != q ==> Page(cells[q * PAGE + slot := v], p) == Page(cells, p)
  {
  }

  // ---------------------------------------------------------------- own checksum records

  /** The record slot of a checkpoint: bits 6 and 7 of its tick. */
  function Slot(t: int): (i: int)
    ensures 0 <= i < 4
  {
    t % 256 / 64
  }

  predicate Holds(cells: seq<Byte>, i: int, t: int, x: int)
    requires |cells| == 32 && 0 <= i < 8
  {
    && cells[4 * i] == Lo(t) && cells[4 * i + 1] == Hi(t)
    && cells[4 * i + 2] == Lo(x) && cells[4 * i + 3] == Hi(x) && 0 <= x < WORD
  }

  ghost predicate SlotsShow(cells: seq<Byte>, records: map<int, int>) {
    && |cells| == 32
    && (forall t <- records :: t % CHECKPOINT == 0 && Holds(cells, Slot(t), t, records[t]))
    && (forall i :: 0 <= i < 8 ==> cells[4 * i] == NO_RECORD || exists t :: t in records && Slot(t) == i)
  }

  /** Four consecutive cells of slot i replaced. */
  function Stored(cells: seq<Byte>, i: int, t: int, x: int): (r: seq<Byte>)
    requires |cells| == 32 && 0 <= i < 8
    ensures |r| == 32
  {
    cells[4 * i := Lo(t)][4 * i + 1 := Hi(t)][4 * i + 2 := Lo(x)][4 * i + 3 := Hi(x)]
  }

  lemma StoredHolds(cells: seq<Byte>, i: int, t: int, x: int)
    requires |cells| == 32 && 0 <= i < 8 && 0 <= x < WORD
    ensures Holds(Stored(cells, i, t, x), i, t, x)
    ensures forall j, k, y :: 0 <= j < 8 && j != i && Holds(cells, j, k, y) ==> Holds(Stored(cells, i, t, x), j, k, y)
    ensures forall j :: 0 <= j < 8 && j != i ==> Stored(cells, i, t, x)[4 * j] == cells[4 * j]
  {
    hide Lo, Hi;
  }

  /** A new checkpoint takes the slot of the one 256 ticks older, and no other. */
  lemma SlotStore(cells: seq<Byte>, records: map<int, int>, t: int, x: int)
    requires SlotsShow(cells, records) && t % CHECKPOINT == 0 && 0 <= x < WORD
    requires forall k <- records :: t - 320 < k < t
    ensures SlotsShow(Stored(cells, Slot(t), t, x), Record(records, t, x))
  {
    hide Stored, Holds, Lo, Hi, Slot;
    var records' := Record(records, t, x);
    var cells' := Stored(cells, Slot(t), t, x);
    StoredHolds(cells, Slot(t), t, x);
    forall k <- records' ensures k % CHECKPOINT == 0 && Holds(cells', Slot(k), k, records'[k]) {
      if k != t { SlotsApart(k, t); }
    }
    forall i | 0 <= i < 8 && cells'[4 * i] != NO_RECORD ensures exists k :: k in records' && Slot(k) == i {
      if i == Slot(t) {
        assert t in records' && Slot(t) == i;
      } else {
        var k :| k in records && Slot(k) == i;
        SlotsApart(k, t);
        assert k in records';
      }
    }
  }

  /** The same, from the bytes of the tick and the sum. */
  lemma RecordStore(cells: seq<Byte>, records: map<int, int>, t: int, lo: Byte, hi: Byte, cLo: Byte, cHi: Byte)
    requires SlotsShow(cells, records) && t % CHECKPOINT == 0 && Word(lo, hi) == t % WORD
    requires forall k <- records :: t - 320 < k < t
    ensures
      var i := lo / 64;
      i < 4 && SlotsShow(cells[4 * i := lo][4 * i + 1 := hi][4 * i + 2 := cLo][4 * i + 3 := cHi],
                         Record(records, t, Word(cLo, cHi)))
  {
    hide SlotsShow, Record;
    WordBytes(lo, hi, t);
    SumBytes(Word(cLo, cHi), cLo, cHi);
    assert lo / 64 == Slot(t);
    hide Word, Lo, Hi, Slot;
    SlotStore(cells, records, t, Word(cLo, cHi));
  }

  /** Among checkpoints less than 320 ticks apart only the 256th older shares a slot. */
  lemma SlotsApart(k: int, t: int)
    requires k % CHECKPOINT == 0 && t % CHECKPOINT == 0 && t - 320 < k < t
    ensures Slot(k) == Slot(t) <==> k == t - 256
  {
    SlotOf(k);
    SlotOf(t);
    hide Slot;
  }

  lemma SlotOf(t: int)
    requires t % CHECKPOINT == 0
    ensures Slot(t) == t / CHECKPOINT % 4
  {
  }

  /** A frame's tick selects a slot, and the slot's bytes say whether its record is there. */
  lemma SlotFind(cells: seq<Byte>, records: map<int, int>, t: int)
    requires SlotsShow(cells, records) && t % CHECKPOINT == 0
    requires forall k <- records :: -WORD < k - t < WORD
    ensures
      var i := Slot(t);
      (cells[4 * i] == Lo(t) && cells[4 * i + 1] == Hi(t)) <==> t in records
  {
    var i := Slot(t);
    if cells[4 * i] == Lo(t) && cells[4 * i + 1] == Hi(t) {
      var k :| k in records && Slot(k) == i;
      assert Holds(cells, i, k, records[k]);
      BytesOf(k);
      BytesOf(t);
      SameWord(k, t);
    }
  }

  /** A record that is there has the given sum just when its last two bytes say so. */
  lemma SlotSays(cells: seq<Byte>, records: map<int, int>, t: int, lo: Byte, hi: Byte)
    requires SlotsShow(cells, records) && t % CHECKPOINT == 0
    requires forall k <- records :: -WORD < k - t < WORD
    ensures
      var i := Slot(t);
      && ((cells[4 * i] == Lo(t) && cells[4 * i + 1] == Hi(t)) <==> t in records)
      && (t in records ==> ((cells[4 * i + 2] == lo && cells[4 * i + 3] == hi) <==> records[t] == Word(lo, hi)))
  {
    SlotFind(cells, records, t);
    hide Slot, Lo, Hi, Word;
    if t in records {
      SumBytes(records[t], lo, hi);
      assert Holds(cells, Slot(t), t, records[t]);
    }
  }

  lemma SumBytes(x: int, lo: Byte, hi: Byte)
    requires 0 <= x < WORD
    ensures (Lo(x) == lo && Hi(x) == hi) <==> x == Word(lo, hi)
  {
  }

  lemma SlotsEmpty(cells: seq<Byte>)
    requires |cells| == 32 && forall i :: 0 <= i < 32 ==> cells[i] == NO_RECORD
    ensures SlotsShow(cells, map[])
  {
  }
}
