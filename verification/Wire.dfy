/** The bytes of the four match frames, and what the console's arms read out of any
    frame of those types that its framing check lets through. */
module Wire {
  import opened Protocol
  import opened Cells

  const FT_INPUT: Byte := 6
  const FT_CRC: Byte := 7
  const FT_STATE: Byte := 8
  const FT_RESYNC: Byte := 9
  const CONTROL: Byte := 0xFF // a STATE position's high byte that marks BEGIN and END

  datatype Option<T> = None | Some(value: T)

  /** What the senders of this protocol put in a frame. */
  predicate Sendable(f: Frame) {
    match f
    case Chunk(pos, data) => 0 <= pos && 0 < |data| <= CHUNK && pos + |data| <= IMAGE
    case Crc(_, x) => 0 <= x < WORD
    case _ => true
  }

  /** Length byte, type, payload. */
  function Bytes(from: Byte, f: Frame): seq<Byte>
    requires Sendable(f)
  {
    match f
    case Input(t, cell) => [6, FT_INPUT, from, Lo(t), Hi(t), cell.decoded, cell.keypad]
    case Crc(t, x) => [6, FT_CRC, from, Lo(t), Hi(t), Lo(x), Hi(x)]
    case Begin(r) => [5, FT_STATE, 0, CONTROL, Lo(r), Hi(r)]
    case Chunk(pos, data) => [|data| + 3, FT_STATE, Lo(pos), Hi(pos)] + data
    case End => [3, FT_STATE, 1, CONTROL]
    case Resync(t) => [3, FT_RESYNC, Lo(t), Hi(t)]
  }

  /** What a console writes to its socket for the frames it sends. */
  function Stream(from: Byte, out: seq<Msg>): seq<Byte> {
    if out == [] then []
    else (if Sendable(out[0].frame) then Bytes(from, out[0].frame) else []) + Stream(from, out[1..])
  }

  lemma StreamOne(from: Byte, m: Msg)
    requires Sendable(m.frame)
    ensures Stream(from, [m]) == Bytes(from, m.frame)
  {
    assert [m][1..] == [];
  }

  lemma {:induction false} StreamAppend(from: Byte, a: seq<Msg>, b: seq<Msg>)
    ensures Stream(from, a + b) == Stream(from, a) + Stream(from, b)
  {
    if a == [] {
      assert a + b == b;
    } else {
      assert (a + b)[1..] == a[1..] + b;
      StreamAppend(from, a[1..], b);
    }
  }

  lemma ChunksStep(from: Byte, epoch: nat, img: Image, pos: nat, n: nat)
    requires pos < IMAGE && n == if IMAGE - pos < CHUNK then IMAGE - pos else CHUNK
    ensures Stream(from, Chunks(epoch, img, pos))
         == Bytes(from, Chunk(pos, img[pos..pos + n])) + Stream(from, Chunks(epoch, img, pos + n))
  {
    var m := Msg(epoch, Chunk(pos, img[pos..pos + n]));
    StreamOne(from, m);
    StreamAppend(from, [m], Chunks(epoch, img, pos + n));
  }

  lemma NoChunks(from: Byte, epoch: nat, img: Image)
    ensures Stream(from, Chunks(epoch, img, IMAGE)) == []
  {
  }

  lemma PushStream(from: Byte, epoch: nat, r: int, img: Image)
    ensures Stream(from, PushMsgs(epoch, r, img))
         == Bytes(from, Begin(r)) + Stream(from, Chunks(epoch, img, 0)) + Bytes(from, End)
  {
    var head, end := [Msg(epoch, Begin(r))], [Msg(epoch, End)];
    StreamOne(from, head[0]);
    StreamOne(from, end[0]);
    StreamAppend(from, head + Chunks(epoch, img, 0), end);
    StreamAppend(from, head, Chunks(epoch, img, 0));
  }

  /** What 16 bits keep of a frame. */
  function Low16(f: Frame): Frame {
    match f
    case Input(t, cell) => Input(t % WORD, cell)
    case Crc(t, x) => Crc(t % WORD, x)
    case Begin(r) => Begin(r % WORD)
    case Chunk(_, _) => f
    case End => End
    case Resync(t) => Resync(t % WORD)
  }

  /** A whole frame: its length byte counts the bytes after it. */
  predicate Whole(b: seq<Byte>) { |b| >= 2 && |b| == b[0] as int + 1 }

  function ReadState(b: seq<Byte>): Option<Frame>
    requires Whole(b) && |b| >= 4
  {
    if b[3] == CONTROL then
      if b[2] == 0 && b[0] >= 5 then Some(Begin(Word(b[4], b[5])))
      else if b[2] == 1 then Some(End)
      else None
    else if b[0] > 3 && b[3] < 4 && Word(b[2], b[3]) + b[0] - 3 <= IMAGE then Some(Chunk(Word(b[2], b[3]), b[4..]))
    else None
  }

  /** The frame seat `me` of a room of `count` acts on, if any. */
  function Read(me: Byte, count: Byte, b: seq<Byte>): Option<Frame>
    requires Whole(b)
  {
    if b[1] == FT_INPUT && b[0] >= 6 && b[2] != me && b[2] < count then Some(Input(Word(b[3], b[4]), Cell(b[5], b[6])))
    else if b[1] == FT_CRC && b[0] >= 6 then Some(Crc(Word(b[3], b[4]), Word(b[5], b[6])))
    else if b[1] == FT_STATE && b[0] >= 3 then ReadState(b)
    else if b[1] == FT_RESYNC && b[0] >= 3 then Some(Resync(Word(b[2], b[3])))
    else None
  }

  /** Round trip: the peer reads back what was sent, ticks modulo 2^16. */
  lemma ReadBytes(from: Byte, me: Byte, count: Byte, f: Frame)
    requires Sendable(f) && from != me && from < count
    ensures Whole(Bytes(from, f)) && |Bytes(from, f)| == Size(f)
    ensures Read(me, count, Bytes(from, f)) == Some(Low16(f))
  {
    match f
    case Input(t, _) => BytesOf(t);
    case Crc(t, x) => BytesOf(t); BytesOf(x);
    case Begin(r) => BytesOf(r);
    case Chunk(pos, data) => assert Bytes(from, f)[4..] == data;
    case End =>
    case Resync(t) => BytesOf(t);
  }

  /** Whatever the bytes, what is read is in bounds: a STATE frame's data lie inside the image. */
  lemma ReadInBounds(me: Byte, count: Byte, b: seq<Byte>)
    requires Whole(b) && b[0] <= 99 && Read(me, count, b).Some?
    ensures Sendable(Read(me, count, b).value)
  {
  }
}
