/** The console's memory as the resync and checksum routines work on it. */
module Machine {
  import opened Protocol
  import opened Cells
  import opened Wire
  import opened ImageRam
  import opened Checksum

  class Ram {
    const cells: array<Word16>

    predicate Valid() { cells.Length == WORD }

    constructor (m: Memory)
      ensures Valid() && Now() == m && fresh(cells)
    {
      cells := new Word16[WORD](i requires 0 <= i < WORD => m[i]);
    }

    function Now(): Memory
      requires Valid()
      reads cells
    {
      cells[..]
    }

    /** IMG_GET. */
    method ImgGet(p: int) returns (b: Byte)
      requires Valid() && Typed(Now()) && 0 <= p < IMAGE
      ensures b == GetByte(Now(), p)
    {
      PlacesDistinct(p);
      if p < S1 {
        b := cells[p + 0x15D];
      } else if p < S3 {
        var at := if p < S2 then (p - S1) / 2 + 0x200 else (p - S2) / 2 + 0x31D;
        var odd := if p < S2 then (p - S1) % 2 == 1 else (p - S2) % 2 == 1;
        b := if odd then cells[at] / 256 else cells[at] % 256;
      } else {
        b := cells[TailAddr(p - S3)];
      }
    }

    /** IMG_PUT: a byte cell is overwritten, a word's other half is kept. */
    method ImgPut(p: int, b: Byte)
      requires Valid() && 0 <= p < IMAGE
      modifies cells
      ensures Now() == PutByte(old(Now()), p, b)
    {
      PlacesDistinct(p);
      if p < S1 {
        cells[p + 0x15D] := b;
      } else if p < S3 {
        var at := if p < S2 then (p - S1) / 2 + 0x200 else (p - S2) / 2 + 0x31D;
        var odd := if p < S2 then (p - S1) % 2 == 1 else (p - S2) % 2 == 1;
        if odd {
          cells[at] := cells[at] % 256 + b * 256;
        } else {
          cells[at] := cells[at] / 256 * 256 + b;
        }
      } else {
        cells[TailAddr(p - S3)] := b;
      }
    }

    /** RS_ON_STATE's data arm, for any STATE frame the framing check can let through: the
        bytes are put inside the image, or the frame is refused and nothing changes. */
    method OnState(b: seq<Byte>, hold: bool) returns (refused: bool)
      requires Valid() && Whole(b) && b[0] >= 3 && b[3] != CONTROL
      modifies cells
      ensures refused <==> !hold || ReadState(b).None?
      ensures Now() ==
        if refused then old(Now()) else Write(old(Now()), ReadState(b).value.pos, ReadState(b).value.data)
      ensures forall a :: 0 <= a < WORD && !InImage(a) ==> Now()[a] == old(Now())[a]
    {
      hide PutByte, InImage;
      refused := true;
      if !hold {
        return;
      }
      var n := b[0] - 3;
      if n <= 0 || b[3] >= 4 {
        return;
      }
      if Word(b[2], b[3]) + n >= IMAGE + 1 {
        return;
      }
      refused := false;
      ghost var m, pos, data := Now(), Word(b[2], b[3]), b[4..];
      var lo, hi, i := b[2], b[3], 0;
      while i < n
        invariant 0 <= i <= n && Word(lo, hi) == pos + i
        invariant Now() == Write(m, pos, data[..i])
      {
        ImgPut(Word(lo, hi), b[4 + i]);
        assert data[..i + 1][..i] == data[..i];
        if lo < 0xFF { lo := lo + 1; } else { lo, hi := 0, hi + 1; }
        i := i + 1;
      }
      assert data[..i] == data;
      WriteSplices(m, pos, data);
    }

    /** RS_CLAMP_ISR and SS_REBASE_HOOK: the saved and live interrupt vectors and the
        player count back to values the cart can survive. */
    method Clamp()
      requires Valid()
      modifies cells
      ensures Now() == Clamped(old(Now()))
    {
      cells[SAVED_VECTOR], cells[LIVE_VECTOR] := VECTOR % 256, VECTOR % 256;
      cells[SAVED_VECTOR + 1], cells[LIVE_VECTOR + 1] := VECTOR / 256, VECTOR / 256;
      var n := cells[PLAYERS];
      if n > 2 {
        n := 2;
      }
      if n <= 0 {
        n := 1;
      }
      cells[PLAYERS] := n;
    }

    /** Rotate and add a run of cells. */
    method AddRun(start: Word16, lo: int, hi: int) returns (sum: Word16)
      requires Valid() && 0 <= lo < hi <= WORD
      ensures sum == Fold(start, Now()[lo..hi])
    {
      sum := start;
      var at := lo;
      while at < hi
        invariant lo <= at <= hi && sum == Fold(start, Now()[lo..at])
      {
        var carry := sum / 0x8000;
        sum := sum * 2 % WORD;
        sum := sum + carry;
        sum := (sum + cells[at]) % WORD;
        FoldSnoc(start, Now()[lo..at], cells[at]);
        assert Now()[lo..at] + [cells[at]] == Now()[lo..at + 1];
        at := at + 1;
      }
    }

    /** LS_CKSUM, unrolled over the six groups of cells. */
    method LsCksum() returns (sum: Word16)
      requires Valid()
      ensures sum == SumOf(Now())
    {
      hide Fold;
      ghost var m := Now();
      FoldGroups(m);
      sum := AddRun(0, 0x15D, 0x1F0);
      sum := AddRun(sum, 0x8106, 0x8108);
      sum := AddRun(sum, 0x8102, 0x8105);
      sum := AddRun(sum, 0x810F, 0x8110);
      sum := AddRun(sum, 0x8196, 0x819C);
      sum := AddRun(sum, 0x819F, 0x81A0);
    }

    /** TRACE_TICK's loop over a zero-terminated table of ranges. */
    method TraceSum(table: seq<int>) returns (sum: Word16)
      requires Valid() && Table(table, 0)
      ensures sum == Fold(0, Selected(Now(), table, 0))
    {
      hide Fold;
      sum := 0;
      var i := 0;
      while table[i] != 0
        invariant 0 <= i < |table| && Table(table, i)
        invariant Fold(0, Selected(Now(), table, 0)) == Fold(sum, Selected(Now(), table, i))
        decreases |table| - i
      {
        FoldAppend(sum, Now()[table[i]..table[i + 1]], Selected(Now(), table, i + 2));
        sum := AddRun(sum, table[i], table[i + 1]);
        i := i + 2;
      }
      FoldNone(sum);
    }
  }

  lemma FoldNone(r: Word16)
    ensures Fold(r, []) == r
  {
  }

  /** THEOREM.  The engine's checksum is the trace's checksum, on every memory. */
  method SameChecksum(ram: Ram) returns (engine: Word16, trace: Word16)
    requires ram.Valid()
    ensures engine == trace
  {
    engine := ram.LsCksum();
    TraceSelects(ram.Now());
    trace := ram.TraceSum(TRACE_RANGES);
  }
}
