/** The state image: 770 positions laid over byte cells, the two halves of 16-bit words,
    and a table of scattered cells. */
module ImageRam {
  import opened Protocol
  import opened Cells
  import opened Wire

  const S1 := 147 // first position of the screen's words
  const S2 := 627 // first position of the object table's words
  const S3 := 755 // first position of the tail table

  type Word16 = w: int | 0 <= w < WORD
  type Memory = m: seq<Word16> | |m| == WORD witness seq(WORD, _ => 0)

  datatype Part = All | Low | High
  datatype Place = Place(addr: int, part: Part)

  /** RS_TAILTBL: the canonical RNG, the five arm flags and countdowns, the prompt
      counter and the live handler table. */
  function TailAddr(i: int): (a: int)
    requires 0 <= i < 15
    ensures 0 <= a < WORD
  {
    if i < 2 then 0x8106 + i
    else if i < 5 then 0x8102 + (i - 2)
    else if i == 5 then 0x810F
    else if i < 12 then 0x8196 + (i - 6)
    else if i == 12 then 0x819F
    else 0x80C0 + (i - 13)
  }

  /** Where an image position lives. */
  function PlaceOf(p: int): Place
    requires 0 <= p < IMAGE
  {
    if p < S1 then Place(0x15D + p, All)
    else if p < S2 then Place(0x200 + (p - S1) / 2, if (p - S1) % 2 == 0 then Low else High)
    else if p < S3 then Place(0x31D + (p - S2) / 2, if (p - S2) % 2 == 0 then Low else High)
    else Place(TailAddr(p - S3), All)
  }

  /** The position at an image address: of its low half, for a word. */
  function PositionAt(a: int): int {
    if 0x15D <= a < 0x1F0 then a - 0x15D
    else if 0x200 <= a < 0x2F0 then S1 + 2 * (a - 0x200)
    else if 0x31D <= a < 0x35D then S2 + 2 * (a - 0x31D)
    else if 0x8106 <= a < 0x8108 then S3 + (a - 0x8106)
    else if 0x8102 <= a < 0x8105 then S3 + 2 + (a - 0x8102)
    else if a == 0x810F then S3 + 5
    else if 0x8196 <= a < 0x819C then S3 + 6 + (a - 0x8196)
    else if a == 0x819F then S3 + 12
    else if 0x80C0 <= a < 0x80C2 then S3 + 13 + (a - 0x80C0)
    else -1
  }

  predicate InImage(a: int) { PositionAt(a) != -1 }

  predicate IsWord(a: int) { 0x200 <= a < 0x2F0 || 0x31D <= a < 0x35D }

  /** Every position has its own place, and the image addresses are exactly the places. */
  lemma PlacesDistinct(p: int)
    requires 0 <= p < IMAGE
    ensures
      var w := PlaceOf(p);
      && 0 <= w.addr < WORD && InImage(w.addr)
      && p == PositionAt(w.addr) + (if w.part.High? then 1 else 0)
      && (w.part.All? <==> !IsWord(w.addr))
  {
  }

  lemma PlacesCover(a: int)
    requires InImage(a)
    ensures
      var p := PositionAt(a);
      && 0 <= p < IMAGE && PlaceOf(p) == Place(a, if IsWord(a) then Low else All)
      && (IsWord(a) ==> p + 1 < IMAGE && PlaceOf(p + 1) == Place(a, High))
  {
  }

  /** Byte cells of the image hold bytes. */
  ghost predicate Typed(m: Memory) {
    forall a :: 0 <= a < WORD && InImage(a) && !IsWord(a) ==> m[a] < 256
  }

  function GetByte(m: Memory, p: int): Byte
    requires 0 <= p < IMAGE
  {
    var w := PlaceOf(p);
    if w.part.High? then m[w.addr] / 256 else m[w.addr] % 256
  }

  function Merge(w: Word16, part: Part, b: Byte): Word16 {
    match part
    case All => b
    case Low => w / 256 * 256 + b
    case High => w % 256 + 256 * b
  }

  function PutByte(m: Memory, p: int, b: Byte): Memory
    requires 0 <= p < IMAGE
  {
    var w := PlaceOf(p);
    PlacesDistinct(p);
    m[w.addr := Merge(m[w.addr], w.part, b)]
  }

  /** What a put changes, position by position and cell by cell. */
  lemma PutGet(m: Memory, p: int, b: Byte, q: int)
    requires 0 <= p < IMAGE && 0 <= q < IMAGE
    ensures GetByte(PutByte(m, p, b), q) == if q == p then b else GetByte(m, q)
  {
    hide PlaceOf, PositionAt;
    PlacesDistinct(p);
    PlacesDistinct(q);
  }

  lemma PutFrame(m: Memory, p: int, b: Byte)
    requires 0 <= p < IMAGE
    ensures forall a :: 0 <= a < WORD && !InImage(a) ==> PutByte(m, p, b)[a] == m[a]
    ensures Typed(m) ==> Typed(PutByte(m, p, b))
  {
    hide PlaceOf, PositionAt;
    PlacesDistinct(p);
  }

  /** Puts at distinct positions commute, the two halves of one word included. */
  lemma PutsCommute(m: Memory, p: int, b: Byte, q: int, c: Byte)
    requires 0 <= p < IMAGE && 0 <= q < IMAGE && p != q
    ensures PutByte(PutByte(m, p, b), q, c) == PutByte(PutByte(m, q, c), p, b)
  {
    hide PlaceOf, PositionAt, PutByte, Merge, IsWord, InImage;
    PlacesApart(p, q);
    MergesCommute(m[PlaceOf(p).addr], PlaceOf(p).part, b, PlaceOf(q).part, c);
    var x, y := PutByte(PutByte(m, p, b), q, c), PutByte(PutByte(m, q, c), p, b);
    PutAt(m, p, b);
    PutAt(m, q, c);
    PutAt(PutByte(m, p, b), q, c);
    PutAt(PutByte(m, q, c), p, b);
    assert forall a :: 0 <= a < WORD ==> x[a] == y[a];
  }

  /** Distinct positions at one address are the two halves of a word. */
  lemma PlacesApart(p: int, q: int)
    requires 0 <= p < IMAGE && 0 <= q < IMAGE && p != q
    ensures
      var v, w := PlaceOf(p), PlaceOf(q);
      && 0 <= v.addr < WORD && 0 <= w.addr < WORD
      && (v.addr == w.addr ==> v.part != w.part && !v.part.All? && !w.part.All?)
  {
    hide PlaceOf, PositionAt;
    PlacesDistinct(p);
    PlacesDistinct(q);
  }

  lemma MergesCommute(w: Word16, x: Part, b: Byte, y: Part, c: Byte)
    ensures x != y && !x.All? && !y.All? ==> Merge(Merge(w, x, b), y, c) == Merge(Merge(w, y, c), x, b)
  {
    if x.Low? && y.High? { HalvesCommute(w, b, c); }
    if x.High? && y.Low? { HalvesCommute(w, c, b); }
  }

  /** Either half first, both end up in place. */
  lemma HalvesCommute(w: Word16, low: Byte, high: Byte)
    ensures Merge(Merge(w, Low, low), High, high) == low + 256 * high
    ensures Merge(Merge(w, High, high), Low, low) == low + 256 * high
  {
    Halves(w / 256, low);
    Halves(high, w % 256);
  }

  lemma Halves(high: Byte, low: Byte)
    ensures (256 * high + low) / 256 == high && (256 * high + low) % 256 == low
  {
  }

  lemma PutAt(m: Memory, p: int, b: Byte)
    requires 0 <= p < IMAGE
    ensures
      var w := PlaceOf(p);
      && 0 <= w.addr < WORD && PutByte(m, p, b)[w.addr] == Merge(m[w.addr], w.part, b)
      && forall a :: 0 <= a < WORD && a != w.addr ==> PutByte(m, p, b)[a] == m[a]
  {
    PlacesDistinct(p);
  }

  function ImageOf(m: Memory): Image {
    seq(IMAGE, p requires 0 <= p < IMAGE => GetByte(m, p))
  }

  /** A chunk's bytes put one after the other. */
  function Write(m: Memory, pos: nat, data: seq<Byte>): Memory
    requires pos + |data| <= IMAGE
  {
    if data == [] then m
    else PutByte(Write(m, pos, data[..|data| - 1]), pos + |data| - 1, data[|data| - 1])
  }

  /** On the image a chunk is a splice; outside it nothing changes. */
  lemma {:induction false} WriteSplices(m: Memory, pos: nat, data: seq<Byte>)
    requires pos + |data| <= IMAGE
    ensures ImageOf(Write(m, pos, data)) == Splice(ImageOf(m), pos, data)
    ensures forall a :: 0 <= a < WORD && !InImage(a) ==> Write(m, pos, data)[a] == m[a]
    ensures Typed(m) ==> Typed(Write(m, pos, data))
    decreases |data|
  {
    hide PutByte, GetByte, Typed, InImage;
    if data == [] {
      assert Splice(ImageOf(m), pos, []) == ImageOf(m);
    } else {
      var n := |data| - 1;
      var before := Write(m, pos, data[..n]);
      WriteSplices(m, pos, data[..n]);
      PutFrame(before, pos + n, data[n]);
      PutSplices(before, pos + n, data[n]);
      assert Splice(ImageOf(m), pos, data[..n])[pos + n := data[n]] == Splice(ImageOf(m), pos, data);
    }
  }

  lemma PutSplices(m: Memory, p: int, b: Byte)
    requires 0 <= p < IMAGE
    ensures ImageOf(PutByte(m, p, b)) == ImageOf(m)[p := b]
  {
    hide PutByte, GetByte;
    forall q | 0 <= q < IMAGE ensures GetByte(PutByte(m, p, b), q) == if q == p then b else GetByte(m, q) {
      PutGet(m, p, b, q);
    }
  }

  /** Equal images mean equal cells. */
  lemma ImageFixesCells(m: Memory, n: Memory, a: int)
    requires Typed(m) && Typed(n) && ImageOf(m) == ImageOf(n) && 0 <= a < WORD && InImage(a)
    ensures m[a] == n[a]
  {
    hide PlaceOf, PositionAt;
    PlacesCover(a);
    var p := PositionAt(a);
    assert GetByte(m, p) == ImageOf(m)[p] && GetByte(n, p) == ImageOf(n)[p];
    if IsWord(a) {
      assert GetByte(m, p + 1) == ImageOf(m)[p + 1] && GetByte(n, p + 1) == ImageOf(n)[p + 1];
    }
  }

  // ---------------------------------------------------------------- a whole push

  /** The chunk frames of a push, applied in order. */
  function Load(m: Memory, ms: seq<Msg>): Memory
    decreases |ms|
  {
    if ms == [] then m
    else
      var f := ms[0].frame;
      Load(if f.Chunk? && Sendable(f) then Write(m, f.pos, f.data) else m, ms[1..])
  }

  lemma {:induction false} LoadChunks(m: Memory, epoch: nat, img: Image, pos: nat)
    requires pos <= IMAGE && ImageOf(m)[..pos] == img[..pos]
    ensures
      var m' := Load(m, Chunks(epoch, img, pos));
      && ImageOf(m') == img
      && (forall a :: 0 <= a < WORD && !InImage(a) ==> m'[a] == m[a])
      && (Typed(m) ==> Typed(m'))
    decreases IMAGE - pos
  {
    hide ImageOf, Write, Typed, InImage;
    if pos < IMAGE {
      var n := if IMAGE - pos < CHUNK then IMAGE - pos else CHUNK;
      var m1 := Write(m, pos, img[pos..pos + n]);
      WriteSplices(m, pos, img[pos..pos + n]);
      assert ImageOf(m1)[..pos + n] == img[..pos + n];
      assert Chunks(epoch, img, pos)[1..] == Chunks(epoch, img, pos + n);
      LoadChunks(m1, epoch, img, pos + n);
    } else {
      assert ImageOf(m)[..pos] == ImageOf(m) && img[..pos] == img;
    }
  }

  /** THEOREM.  Resync round trip: any host memory pushed onto any guest memory makes every
      image cell equal and leaves every other cell alone. */
  lemma PushRoundTrip(host: Memory, guest: Memory, epoch: nat)
    requires Typed(host) && Typed(guest)
    ensures
      var guest' := Load(guest, Chunks(epoch, ImageOf(host), 0));
      && ImageOf(guest') == ImageOf(host) && Typed(guest')
      && forall a :: 0 <= a < WORD ==> guest'[a] == if InImage(a) then host[a] else guest[a]
  {
    hide Typed, ImageOf, InImage, Load;
    LoadChunks(guest, epoch, ImageOf(host), 0);
    var guest' := Load(guest, Chunks(epoch, ImageOf(host), 0));
    forall a | 0 <= a < WORD && InImage(a) ensures guest'[a] == host[a] {
      ImageFixesCells(guest', host, a);
    }
  }

  /** The netcode's own cells are not part of what a push replaces: clocks, hold and
      serializer cells, watermarks, stream buffers, input rings and checksum records. */
  lemma NetcodeCellsAreSafe(a: int)
    requires
      || 0x8090 <= a <= 0x8098 || 0x8108 <= a <= 0x8109 || 0x8134 <= a <= 0x8135 || 0x8160 <= a <= 0x816D
      || 0x8180 <= a <= 0x818A || 0x81A0 <= a <= 0x81A7 || a == 0x819D || 0x8200 <= a < 0x8C20
    ensures !InImage(a)
  {
  }
}
