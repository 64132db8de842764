/** The rotate-add checksum: what it sees, what it cannot miss, and why it agrees on both
    consoles after a resync. */
module Checksum {
  import opened Protocol
  import opened Cells
  import opened ImageRam

  const VECTOR := 0x1126        // EXEC_ISR_DEF
  const SAVED_VECTOR := 0x15F   // SC_ISR_SAVE
  const LIVE_VECTOR := 0x100
  const PLAYERS := 0x172        // SS_PCOUNT

  function Rotl(r: Word16): (s: Word16)
  {
    r * 2 % WORD + r / 0x8000
  }

  function Step(r: Word16, cell: Word16): Word16 { (Rotl(r) + cell) % WORD }

  /** One step on 16 bits: shift left, the bit that falls out comes in below, add the cell. */
  lemma StepIs(r: Word16, cell: Word16)
    ensures Step(r, cell) == (2 * r + (if r >= 32768 then 1 else 0) + cell) % 65536
  {
  }

  function Fold(r: Word16, cells: seq<Word16>): Word16
    decreases |cells|
  {
    if cells == [] then r else Fold(Step(r, cells[0]), cells[1..])
  }

  lemma {:induction false} FoldAppend(r: Word16, a: seq<Word16>, b: seq<Word16>)
    ensures Fold(r, a + b) == Fold(Fold(r, a), b)
    decreases |a|
  {
    if a == [] {
      assert a + b == b;
    } else {
      assert (a + b)[1..] == a[1..] + b;
      FoldAppend(Step(r, a[0]), a[1..], b);
    }
  }

  lemma FoldSnoc(r: Word16, a: seq<Word16>, cell: Word16)
    ensures Fold(r, a + [cell]) == Step(Fold(r, a), cell)
  {
    FoldAppend(r, a, [cell]);
    assert [cell][1..] == [];
  }

  // ---------------------------------------------------------------- what it cannot miss

  lemma AddInjective(x: Word16, y: Word16, c: Word16)
    requires (x + c) % WORD == (y + c) % WORD
    ensures x == y
  {
  }

  lemma RotlInjective(r: Word16, s: Word16)
    requires Rotl(r) == Rotl(s)
    ensures r == s
  {
    RotlParts(r);
    RotlParts(s);
  }

  /** The bit that went round is the low bit, the others moved up. */
  lemma RotlParts(r: Word16)
    ensures Rotl(r) % 2 == r / 0x8000 && Rotl(r) / 2 == r % 0x8000
    ensures r == r / 0x8000 * 0x8000 + r % 0x8000
  {
  }

  lemma StepInjective(r: Word16, s: Word16, cell: Word16)
    requires Step(r, cell) == Step(s, cell)
    ensures r == s
  {
    hide Rotl;
    AddInjective(Rotl(r), Rotl(s), cell);
    RotlInjective(r, s);
  }

  lemma FoldCons(r: Word16, cell: Word16, rest: seq<Word16>)
    ensures Fold(r, [cell] + rest) == Fold(Step(r, cell), rest)
  {
    assert ([cell] + rest)[1..] == rest;
  }

  lemma {:induction false} FoldInjective(r: Word16, s: Word16, cells: seq<Word16>)
    requires r != s
    ensures Fold(r, cells) != Fold(s, cells)
    decreases |cells|
  {
    if cells != [] {
      if Step(r, cells[0]) == Step(s, cells[0]) { StepInjective(r, s, cells[0]); }
      FoldInjective(Step(r, cells[0]), Step(s, cells[0]), cells[1..]);
    }
  }

  /** THEOREM.  Two lists of cells, of any length, that differ in exactly one cell have
      different checksums. */
  lemma OneCellIsSeen(r: Word16, cells: seq<Word16>, i: nat, v: Word16)
    requires i < |cells| && cells[i] != v
    ensures Fold(r, cells) != Fold(r, cells[i := v])
  {
    var a, b := cells[..i], cells[i + 1..];
    assert cells == a + ([cells[i]] + b) && cells[i := v] == a + ([v] + b);
    hide Fold, Rotl;
    FoldAppend(r, a, [cells[i]] + b);
    FoldAppend(r, a, [v] + b);
    var s := Fold(r, a);
    FoldCons(s, cells[i], b);
    FoldCons(s, v, b);
    if Step(s, cells[i]) == Step(s, v) { AddInjective(cells[i], v, Rotl(s)); }
    FoldInjective(Step(s, cells[i]), Step(s, v), b);
  }

  // ---------------------------------------------------------------- which cells it sees

  function SumOf(m: Memory): Word16 { Fold(0, Summed(m)) }

  /** Game scratch, the canonical RNG, arm flags 1-3, 4, 5 with the countdowns, the prompt
      counter. */
  function Summed(m: Memory): seq<Word16> {
    m[0x15D..0x1F0] + m[0x8106..0x8108] + m[0x8102..0x8105] + m[0x810F..0x8110] + m[0x8196..0x819C] + m[0x819F..0x81A0]
  }

  lemma FoldGroups(m: Memory)
    ensures SumOf(m) ==
      Fold(Fold(Fold(Fold(Fold(Fold(0, m[0x15D..0x1F0]), m[0x8106..0x8108]), m[0x8102..0x8105]), m[0x810F..0x8110]),
           m[0x8196..0x819C]), m[0x819F..0x81A0])
  {
    hide Fold;
    var a, b, c, d, e, f :=
      m[0x15D..0x1F0], m[0x8106..0x8108], m[0x8102..0x8105], m[0x810F..0x8110], m[0x8196..0x819C], m[0x819F..0x81A0];
    FoldAppend(0, a + b + c + d + e, f);
    FoldAppend(0, a + b + c + d, e);
    FoldAppend(0, a + b + c, d);
    FoldAppend(0, a + b, c);
    FoldAppend(0, a, b);
  }

  const TRACE_RANGES: seq<int> :=
    [0x15D, 0x1F0, 0x8106, 0x8108, 0x8102, 0x8105, 0x810F, 0x8110, 0x8196, 0x819C, 0x819F, 0x81A0, 0, 0]

  /** From index i on: pairs of start and end, closed by a zero start. */
  predicate Table(t: seq<int>, i: nat)
    decreases |t| - i
  {
    i + 1 < |t| && (t[i] == 0 || (0 < t[i] < t[i + 1] <= WORD && Table(t, i + 2)))
  }

  function Selected(m: Memory, t: seq<int>, i: nat): seq<Word16>
    requires Table(t, i)
    decreases |t| - i
  {
    if t[i] == 0 then [] else m[t[i]..t[i + 1]] + Selected(m, t, i + 2)
  }

  lemma TraceSelects(m: Memory)
    ensures Table(TRACE_RANGES, 0) && Selected(m, TRACE_RANGES, 0) == Summed(m)
  {
    var t := TRACE_RANGES;
    assert Table(t, 12) && Table(t, 8) && Table(t, 4);
    assert Selected(m, t, 10) == m[t[10]..t[11]];
    assert Selected(m, t, 6) == m[t[6]..t[7]] + m[t[8]..t[9]] + m[t[10]..t[11]];
    assert Selected(m, t, 2) == m[t[2]..t[3]] + m[t[4]..t[5]] + m[t[6]..t[7]] + m[t[8]..t[9]] + m[t[10]..t[11]];
  }

  /** The checksum is a function of the state image: its scratch positions, then all of the
      tail but the handler table. */
  function ImageSum(img: Image): Word16 { Fold(0, img[..S1] + img[S3..S3 + 13]) }

  lemma SumIsOfImage(m: Memory)
    requires Typed(m)
    ensures SumOf(m) == ImageSum(ImageOf(m))
  {
    var img := ImageOf(m);
    forall p | 0 <= p < S1 || S3 <= p < S3 + 13 ensures img[p] == m[PlaceOf(p).addr] {
      PlacesDistinct(p);
    }
    assert m[0x15D..0x1F0] == img[..S1];
    assert m[0x8106..0x8108] == img[S3..S3 + 2];
    assert m[0x8102..0x8105] == img[S3 + 2..S3 + 5];
    assert m[0x810F..0x8110] == img[S3 + 5..S3 + 6];
    assert m[0x8196..0x819C] == img[S3 + 6..S3 + 12];
    assert m[0x819F..0x81A0] == img[S3 + 12..S3 + 13];
    assert Summed(m) == img[..S1] + img[S3..S3 + 13];
  }

  // ---------------------------------------------------------------- after a resync

  function Players(n: Word16): Word16 { if n > 2 then 2 else if n <= 0 then 1 else n }

  /** RS_CLAMP_ISR and SS_REBASE_HOOK on memory. */
  function Clamped(m: Memory): Memory {
    m[SAVED_VECTOR := VECTOR % 256][LIVE_VECTOR := VECTOR % 256]
     [SAVED_VECTOR + 1 := VECTOR / 256][LIVE_VECTOR + 1 := VECTOR / 256]
     [PLAYERS := Players(m[PLAYERS])]
  }

  /** The same on the image: positions 2, 3 and 21. */
  function ClampedImage(img: Image): Image {
    img[2 := VECTOR % 256][3 := VECTOR / 256][21 := if img[21] > 2 then 2 else if img[21] <= 0 then 1 else img[21]]
  }

  lemma ClampIsOfImage(m: Memory)
    requires Typed(m)
    ensures ImageOf(Clamped(m)) == ClampedImage(ImageOf(m)) && Typed(Clamped(m))
  {
    hide PositionAt;
    forall p | 0 <= p < IMAGE ensures GetByte(Clamped(m), p) == ClampedImage(ImageOf(m))[p] {
      PlacesDistinct(p);
      PlacesDistinct(2);
      PlacesDistinct(3);
      PlacesDistinct(21);
    }
  }

  /** THEOREM.  After a push and both rebases the two consoles' checksums are equal, and the
      saved vector is the EXEC's own whatever bytes came over the wire. */
  lemma RebasesAgree(host: Memory, guest: Memory, epoch: nat)
    requires Typed(host) && Typed(guest)
    ensures
      var h, g := Clamped(host), Clamped(Load(guest, Chunks(epoch, ImageOf(host), 0)));
      && SumOf(h) == SumOf(g) && ImageOf(h) == ImageOf(g)
      && Word(ImageOf(g)[2], ImageOf(g)[3]) == VECTOR
  {
    hide Typed, ImageOf, Load, Clamped;
    var guest' := Load(guest, Chunks(epoch, ImageOf(host), 0));
    PushRoundTrip(host, guest, epoch);
    ClampIsOfImage(host);
    ClampIsOfImage(guest');
    SumIsOfImage(Clamped(host));
    SumIsOfImage(Clamped(guest'));
  }
}
