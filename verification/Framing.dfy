/** The console's byte-stream framing: what a stream of bytes means, frame by frame, and
    why the answer does not depend on how the stream is cut into reads. */
module Framing {
  import opened Protocol
  import opened Wire

  const MAX_LEN := 99 // the longest body the bounds table lets through

  /** SES_FLEN: body-length bounds by frame type, the maximum in the high byte; zero for a type
      that never comes in. */
  const FLEN: seq<int> :=
    [0x0000, 0x0000, 0x0000, 0x4A02, 0x0000, 0x2626, 0x0606, 0x0606,
     0x6303, 0x0303, 0x0000, 0x0A0A, 0x0000, 0x0101, 0x2222, 0x0000]

  function MinLen(t: Byte): (n: Byte)
    ensures n <= MAX_LEN
  {
    if t < 0x10 then FLEN[t] % 256 else 0
  }

  function MaxLen(t: Byte): (n: Byte)
    ensures n <= MAX_LEN
  {
    if t < 0x10 then FLEN[t] / 256 else 0
  }

  /** A length and a type that can begin a frame. */
  predicate Fits(len: Byte, t: Byte) {
    t < 0x10 && MaxLen(t) != 0 && MinLen(t) <= len <= MaxLen(t)
  }

  predicate LegalFrame(f: seq<Byte>) { Whole(f) && Fits(f[0], f[1]) }

  datatype Parsed = Parsed(frames: seq<seq<Byte>>, slips: nat, rest: seq<Byte>)

  /** Everything that can be taken out of a buffer: whole frames, and a byte at a time
      where no frame can begin. */
  function Parse(buf: seq<Byte>): Parsed
    decreases |buf|
  {
    if |buf| < 2 then Parsed([], 0, buf)
    else if !Fits(buf[0], buf[1]) then
      var p := Parse(buf[1..]);
      p.(slips := p.slips + 1)
    else if |buf| < buf[0] as int + 1 then Parsed([], 0, buf)
    else
      var n := buf[0] as int + 1;
      var p := Parse(buf[n..]);
      p.(frames := [buf[..n]] + p.frames)
  }

  function Join(frames: seq<seq<Byte>>): seq<Byte> {
    if frames == [] then [] else frames[0] + Join(frames[1..])
  }

  /** A stream read in pieces, each parsed as far as it goes. */
  function Feed(rest: seq<Byte>, parts: seq<seq<Byte>>): Parsed
    decreases |parts|
  {
    if parts == [] then Parsed([], 0, rest)
    else
      var p := Parse(rest + parts[0]);
      var q := Feed(p.rest, parts[1..]);
      Parsed(p.frames + q.frames, p.slips + q.slips, q.rest)
  }

  // ---------------------------------------------------------------- one buffer

  /** Nothing can be taken out of the buffer until more bytes arrive. */
  predicate Stuck(buf: seq<Byte>) {
    |buf| < 2 || (Fits(buf[0], buf[1]) && |buf| < buf[0] as int + 1)
  }

  lemma ParseStuck(buf: seq<Byte>)
    requires Stuck(buf)
    ensures Parse(buf) == Parsed([], 0, buf)
  {
    hide Fits;
  }

  lemma ParseSlip(buf: seq<Byte>)
    requires |buf| >= 2 && !Fits(buf[0], buf[1])
    ensures Parse(buf) == Parse(buf[1..]).(slips := Parse(buf[1..]).slips + 1)
  {
    hide Fits;
  }

  lemma FitsOneAtLeast(len: Byte, t: Byte)
    requires Fits(len, t)
    ensures len >= 1
  {
  }

  /** A legal frame at the front is taken off whole. */
  lemma ParseFrame(f: seq<Byte>, tail: seq<Byte>)
    requires LegalFrame(f)
    ensures Parse(f + tail) == Parse(tail).(frames := [f] + Parse(tail).frames)
  {
    hide Fits;
    assert (f + tail)[|f|..] == tail && (f + tail)[..|f|] == f;
  }

  /** Parsing what was left over with more bytes behind it continues where parsing stopped. */
  lemma {:induction false} ParseMore(a: seq<Byte>, b: seq<Byte>)
    ensures
      var p := Parse(a);
      var q := Parse(p.rest + b);
      Parse(a + b) == Parsed(p.frames + q.frames, p.slips + q.slips, q.rest)
    decreases |a|
  {
    hide Fits, Parse;
    var p := Parse(a);
    var q := Parse(p.rest + b);
    if Stuck(a) {
      ParseStuck(a);
      assert p.frames + q.frames == q.frames;
    } else if !Fits(a[0], a[1]) {
      ParseSlip(a);
      ParseSlip(a + b);
      assert (a + b)[1..] == a[1..] + b;
      ParseMore(a[1..], b);
    } else {
      var n := a[0] as int + 1;
      var f, t := a[..n], a[n..];
      FitsOneAtLeast(a[0], a[1]);
      assert a == f + t && a + b == f + (t + b);
      ParseFrame(f, t);
      ParseFrame(f, t + b);
      ParseMore(t, b);
      assert [f] + (Parse(t).frames + q.frames) == p.frames + q.frames;
    }
  }

  /** What is left cannot be taken further. */
  lemma {:induction false} ParseRests(a: seq<Byte>)
    ensures Parse(Parse(a).rest) == Parsed([], 0, Parse(a).rest)
    ensures |Parse(a).rest| <= 99
    decreases |a|
  {
    if |a| < 2 {
    } else if !Fits(a[0], a[1]) {
      ParseRests(a[1..]);
    } else if |a| >= a[0] as int + 1 {
      ParseRests(a[a[0] as int + 1..]);
    }
  }

  /** THEOREM.  Arbitrary bytes: every frame handed on is legal, and every byte is in a
      frame, slipped over, or still in the buffer. */
  lemma {:induction false} OnlyLegalFrames(a: seq<Byte>)
    ensures forall f <- Parse(a).frames :: LegalFrame(f)
    ensures |a| == |Join(Parse(a).frames)| + Parse(a).slips + |Parse(a).rest|
    decreases |a|
  {
    hide Fits, Parse, Join;
    if Stuck(a) {
      ParseStuck(a);
      JoinNone();
    } else if !Fits(a[0], a[1]) {
      ParseSlip(a);
      OnlyLegalFrames(a[1..]);
    } else {
      FitsOneAtLeast(a[0], a[1]);
      var n := a[0] as int + 1;
      var f, t := a[..n], a[n..];
      assert a == f + t;
      ParseFrame(f, t);
      OnlyLegalFrames(t);
      JoinFirst(f, Parse(t).frames);
    }
  }

  lemma JoinNone()
    ensures Join([]) == []
  {
  }

  lemma JoinFirst(f: seq<Byte>, rest: seq<seq<Byte>>)
    ensures Join([f] + rest) == f + Join(rest)
  {
    assert ([f] + rest)[1..] == rest;
  }

  // ---------------------------------------------------------------- whole streams

  /** THEOREM.  Cutting a stream into reads, in any way, changes nothing. */
  lemma {:induction false} ReadsDoNotMatter(rest: seq<Byte>, parts: seq<seq<Byte>>)
    requires Parse(rest) == Parsed([], 0, rest)
    ensures Feed(rest, parts) == Parse(rest + Join(parts))
    decreases |parts|
  {
    hide Fits, Parse;
    if parts == [] {
      assert rest + Join(parts) == rest;
    } else {
      var p := Parse(rest + parts[0]);
      ParseRests(rest + parts[0]);
      ReadsDoNotMatter(p.rest, parts[1..]);
      ParseMore(rest + parts[0], Join(parts[1..]));
      assert rest + Join(parts) == rest + parts[0] + Join(parts[1..]);
    }
  }

  lemma {:induction false} ParseLegal(frames: seq<seq<Byte>>, tail: seq<Byte>)
    requires forall f <- frames :: LegalFrame(f)
    ensures Parse(Join(frames) + tail) == Parse(tail).(frames := frames + Parse(tail).frames)
    decreases |frames|
  {
    hide Parse, Fits, LegalFrame, Join;
    if frames == [] {
      JoinNone();
      assert [] + tail == tail && frames + Parse(tail).frames == Parse(tail).frames;
    } else {
      var f, rest := frames[0], frames[1..];
      assert f in frames && frames == [f] + rest && forall g <- rest :: g in frames;
      JoinFirst(f, rest);
      assert Join(frames) + tail == f + (Join(rest) + tail);
      ParseFrame(f, Join(rest) + tail);
      ParseLegal(rest, tail);
      assert [f] + (rest + Parse(tail).frames) == frames + Parse(tail).frames;
    }
  }

  /** THEOREM.  A stream of legal frames, cut into reads in any way, yields exactly those
      frames in order, and no byte is slipped. */
  lemma LegalStreamsArrive(frames: seq<seq<Byte>>, parts: seq<seq<Byte>>)
    requires forall f <- frames :: LegalFrame(f)
    requires Join(parts) == Join(frames)
    ensures Feed([], parts) == Parsed(frames, 0, [])
  {
    assert Parse([]) == Parsed([], 0, []);
    hide Parse, Fits, Join;
    ReadsDoNotMatter([], parts);
    assert [] + Join(parts) == Join(frames) + [];
    ParseLegal(frames, []);
    assert frames + [] == frames;
  }

  // ---------------------------------------------------------------- what one pump completes

  /** The frames a sender put on the wire. */
  function Framed(from: Byte, ms: seq<Msg>): seq<seq<Byte>>
    requires forall m <- ms :: Sendable(m.frame)
  {
    if ms == [] then [] else [Bytes(from, ms[0].frame)] + Framed(from, ms[1..])
  }

  lemma {:induction false} FramedJoins(from: Byte, ms: seq<Msg>)
    requires from < 4 && forall m <- ms :: Sendable(m.frame)
    ensures Join(Framed(from, ms)) == Stream(from, ms)
    ensures |Framed(from, ms)| == |ms|
    ensures forall f <- Framed(from, ms) :: LegalFrame(f)
    ensures |Stream(from, ms)| == TotalSize(ms)
  {
    if ms != [] {
      FramedJoins(from, ms[1..]);
      assert Framed(from, ms)[1..] == Framed(from, ms[1..]);
      assert ms[0] in ms;
      BytesLegal(from, ms[0].frame);
    }
  }

  /** A stream's prefix holds a prefix of its messages and the beginning of the next. */
  lemma {:induction false} PrefixParses(from: Byte, ms: seq<Msg>, p: seq<Byte>) returns (k: nat)
    requires from < 4 && (forall m <- ms :: Sendable(m.frame)) && p <= Stream(from, ms)
    ensures k <= |ms| && TotalSize(ms[..k]) <= |p|
    ensures Parse(p) == Parsed(Framed(from, ms[..k]), 0, p[TotalSize(ms[..k])..])
    ensures k < |ms| ==> |p| < TotalSize(ms[..k + 1])
    decreases |ms|
  {
    hide Parse, LegalFrame, Bytes, Sendable;
    if ms == [] {
      k := 0;
      NothingParses(p);
    } else {
      var f := Bytes(from, ms[0].frame);
      assert ms[0] in ms && ms[..1] == [ms[0]] && ms[..0] == [];
      BytesLegal(from, ms[0].frame);
      assert TotalSize([ms[0]]) == Size(ms[0].frame) by { assert [ms[0]][1..] == []; }
      if |p| < |f| {
        k := 0;
        assert p == f[..|p|];
        PartialStuck(f, p);
        ParseStuck(p);
      } else {
        var t := p[|f|..];
        assert p == f + t && t <= Stream(from, ms[1..]);
        ParseFrame(f, t);
        var j := PrefixParses(from, ms[1..], t);
        k := j + 1;
        assert ms[..k][1..] == ms[1..][..j];
        if k < |ms| { assert ms[..k + 1][1..] == ms[1..][..j + 1]; }
      }
    }
  }

  /** The beginning of a legal frame stays in the buffer. */
  lemma PartialStuck(f: seq<Byte>, p: seq<Byte>)
    requires LegalFrame(f) && p <= f && |p| < |f|
    ensures Stuck(p)
  {
    hide Fits;
  }

  lemma NothingParses(p: seq<Byte>)
    requires p <= []
    ensures Parse(p) == Parsed([], 0, p)
  {
  }

  lemma BytesLegal(from: Byte, f: Frame)
    requires from < 4 && Sendable(f)
    ensures LegalFrame(Bytes(from, f)) && |Bytes(from, f)| == Size(f)
  {
    ReadBytes(from, if from == 0 then 1 else 0, 255, f);
  }

  lemma {:induction false} TotalAppend(a: seq<Msg>, b: seq<Msg>)
    ensures TotalSize(a + b) == TotalSize(a) + TotalSize(b)
  {
    if a == [] {
      assert a + b == b;
    } else {
      assert (a + b)[1..] == a[1..] + b;
      TotalAppend(a[1..], b);
    }
  }

  /** THEOREM.  The messages one read of at most 64 bytes completes are a batch the
      protocol allows a pump: all but the first lie wholly inside the read. */
  lemma PumpsAreReadable(from: Byte, ms: seq<Msg>, p: seq<Byte>, read: seq<Byte>) returns (j: nat, k: nat)
    requires from < 4 && (forall m <- ms :: Sendable(m.frame)) && p + read <= Stream(from, ms) && |read| <= READ_MAX
    ensures j <= k <= |ms|
    ensures Parse(p).frames == Framed(from, ms[..j]) && Parse(p + read).frames == Framed(from, ms[..k])
    ensures Readable(ms[j..k])
  {
    hide Parse, Stream, Framed, Bytes;
    j := PrefixParses(from, ms, p);
    k := PrefixParses(from, ms, p + read);
    if k < j {
      TotalPrefix(ms, k + 1, j);
    } else if j < k {
      assert ms[..k] == ms[..j + 1] + ms[j..k][1..];
      TotalAppend(ms[..j + 1], ms[j..k][1..]);
    }
  }

  lemma TotalPrefix(ms: seq<Msg>, i: nat, j: nat)
    requires i <= j <= |ms|
    ensures TotalSize(ms[..i]) <= TotalSize(ms[..j])
  {
    assert ms[..j] == ms[..i] + ms[i..j];
    TotalAppend(ms[..i], ms[i..j]);
  }
}
