/** SES_PUMP on its own cells: a 256-cell circular accumulator with 8-bit read and write
    indices, a frame buffer, and a saturating count of slipped bytes. */
module PumpRam {
  import opened Protocol
  import opened Framing

  const CELLS := 256

  /** The n cells from index rd on, wrapping. */
  function Window(cells: seq<Byte>, rd: int, n: nat): (r: seq<Byte>)
    requires |cells| == CELLS
    ensures |r| == n
  {
    seq(n, i => At(cells, rd, i))
  }

  function At(cells: seq<Byte>, rd: int, i: int): Byte
    requires |cells| == CELLS
  {
    cells[(rd + i) % CELLS]
  }

  lemma WindowGrows(cells: seq<Byte>, rd: int, n: nat, v: Byte)
    requires |cells| == CELLS && n < CELLS
    ensures Window(cells[(rd + n) % CELLS := v], rd, n + 1) == Window(cells, rd, n) + [v]
  {
    var cells' := cells[(rd + n) % CELLS := v];
    forall i | 0 <= i < n ensures At(cells', rd, i) == At(cells, rd, i) {
      Distinct(rd, i, n);
    }
  }

  lemma Distinct(rd: int, i: int, n: int)
    requires 0 <= i < n < CELLS
    ensures (rd + i) % CELLS != (rd + n) % CELLS
  {
  }

  lemma WindowDrops(cells: seq<Byte>, rd: int, n: nat)
    requires |cells| == CELLS && n > 0
    ensures Window(cells, (rd + 1) % CELLS, n - 1) == Window(cells, rd, n)[1..]
    ensures Window(cells, rd, n)[0] == cells[rd % CELLS]
  {
  }

  function Bumped(count: Byte, n: nat): Byte { if count as int + n < 0xFF then count as int + n else 0xFF }

  lemma IndexOf(wr: Byte, rd: Byte)
    ensures (rd + (wr - rd) % CELLS) % CELLS == wr
  {
  }

  lemma OneMore(wr: Byte, rd: Byte)
    requires (wr - rd) % CELLS < CELLS - 1
    ensures ((wr + 1) % CELLS - rd) % CELLS == (wr - rd) % CELLS + 1
  {
  }

  lemma OneFewer(wr: Byte, rd: Byte)
    requires (wr - rd) % CELLS > 0
    ensures (wr - (rd + 1) % CELLS) % CELLS == (wr - rd) % CELLS - 1
  {
  }

  class Receiver {
    const rxacc: array<Byte>
    const frmbuf: array<Byte>
    var wr: Byte
    var rd: Byte
    var slips: Byte // DIAG_SLIP

    predicate Valid()
      reads this
    {
      rxacc.Length == CELLS && frmbuf.Length == 128 && rxacc != frmbuf
    }

    function Buffered(): nat
      reads this
    {
      (wr - rd) % CELLS
    }

    /** The bytes received and not yet taken. */
    function Contents(): (r: seq<Byte>)
      requires Valid()
      reads this, rxacc
      ensures |r| == Buffered()
    {
      Window(rxacc[..], rd, Buffered())
    }

    constructor ()
      ensures Valid() && Contents() == [] && slips == 0 && fresh(rxacc) && fresh(frmbuf)
    {
      rxacc, frmbuf := new Byte[CELLS](_ => 0), new Byte[128](_ => 0);
      wr, rd, slips := 0, 0, 0;
    }

    /** One byte at the write index. */
    method AcceptOne(b: Byte)
      requires Valid() && Buffered() + 1 < CELLS
      modifies `wr, rxacc
      ensures Valid() && Contents() == old(Contents()) + [b]
    {
      hide Window;
      ghost var cells, n := rxacc[..], Buffered();
      WindowGrows(cells, rd, n, b);
      IndexOf(wr, rd);
      rxacc[wr] := b;
      wr := (wr + 1) % CELLS;
      assert rxacc[..] == cells[(rd + n) % CELLS := b];
      OneMore(old(wr), rd);
    }

    /** Copy what a read returned into the accumulator. */
    method Accept(read: seq<Byte>)
      requires Valid() && |Contents()| + |read| < CELLS
      modifies `wr, rxacc
      ensures Valid() && Contents() == old(Contents()) + read
    {
      hide Window;
      var i := 0;
      ghost var before := Contents();
      while i < |read|
        invariant 0 <= i <= |read|
        invariant Contents() == before + read[..i]
      {
        AcceptOne(read[i]);
        assert read[..i + 1] == read[..i] + [read[i]];
        i := i + 1;
      }
      assert read[..i] == read;
    }

    /** Drop the oldest byte. */
    method Advance()
      requires Valid() && Contents() != []
      modifies `rd
      ensures Contents() == old(Contents())[1..]
    {
      hide Window;
      WindowDrops(rxacc[..], rd, Buffered());
      OneFewer(wr, rd);
      rd := (rd + 1) % CELLS;
    }

    /** Move a frame's bytes to the frame buffer. */
    method Take(n: nat)
      requires Valid() && n <= |Contents()| && n <= MAX_LEN + 1
      modifies `rd, frmbuf
      ensures frmbuf[..n] == old(Contents())[..n] && Contents() == old(Contents())[n..]
    {
      hide Window;
      ghost var before := Contents();
      var i := 0;
      while i < n
        invariant 0 <= i <= n && Valid()
        invariant frmbuf[..i] == before[..i] && Contents() == before[i..]
      {
        FirstByte();
        assert before[i..][1..] == before[i + 1..] && before[i] == before[i..][0];
        frmbuf[i] := rxacc[rd];
        Advance();
        i := i + 1;
      }
    }

    /** SES_PUMP after its read: accumulate, then extract every complete frame, dropping a
        byte wherever no frame can begin.  The buffer never laps. */
    method Pump(read: seq<Byte>) returns (frames: seq<seq<Byte>>)
      requires Valid() && |read| <= READ_MAX && |Contents()| <= MAX_LEN
      modifies this, rxacc, frmbuf
      ensures Valid()
      ensures
        var p := Parse(old(Contents()) + read);
        && frames == p.frames && Contents() == p.rest && slips == Bumped(old(slips), p.slips)
      ensures |Contents()| <= MAX_LEN
    {
      hide Parse, Window, Fits;
      Accept(read);
      ghost var all := Contents();
      ghost var slipped := 0;
      frames := [];
      while true
        invariant Valid() && slips == Bumped(old(slips), slipped)
        invariant
          var p := Parse(Contents());
          Parse(all) == Parsed(frames + p.frames, slipped + p.slips, p.rest)
        decreases |Contents()|
      {
        if Buffered() < 2 {
          break;
        }
        FirstTwo();
        var len, t := rxacc[rd], rxacc[(rd + 1) % CELLS];
        if !Fits(len, t) {
          ParseSlip(Contents());
          Advance();
          slips := if slips == 0xFF then 0xFF else slips + 1;
          slipped := slipped + 1;
        } else {
          if Buffered() < len as int + 1 {
            break;
          }
          FitsSize(len, t);
          ghost var c, n := Contents(), len as int + 1;
          ParseFrame(c[..n], c[n..]);
          assert c == c[..n] + c[n..];
          Take(len as int + 1);
          assert frames + ([c[..n]] + Parse(c[n..]).frames) == frames + [c[..n]] + Parse(c[n..]).frames;
          frames := frames + [frmbuf[..len as int + 1]];
        }
      }
      ParseStuck(Contents());
      assert frames + [] == frames;
      ParseRests(all);
    }

    lemma FirstByte()
      requires Valid() && Buffered() >= 1
      ensures Contents()[0] == rxacc[rd]
    {
    }

    lemma FirstTwo()
      requires Valid() && Buffered() >= 2
      ensures Contents()[0] == rxacc[rd] && Contents()[1] == rxacc[(rd + 1) % CELLS]
    {
    }
  }

  lemma FitsSize(len: Byte, t: Byte)
    requires Fits(len, t)
    ensures 1 <= len <= MAX_LEN
  {
  }
}
