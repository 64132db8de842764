/** The two-console lockstep and resync protocol, on unbounded ticks.

    Two consoles, a host (seat 0) and a guest (seat 1), are joined by one FIFO in
    each direction.  A console repeats a *pass*: pump the transport, capture the
    local pad for tick T+d and send it, wait at the gate until the remote watermark
    reaches T, run tick T.  Every 64 ticks it exchanges a checksum; a disagreement
    makes the host push its whole state image, after which both sides jump to a
    common tick R with empty input rings.

    Fields below the "history" line of `Con` are never read by a transition: they
    record what happened, so that properties of whole runs can be stated. */
module Protocol {
  const IMAGE := 770      // bytes of the state image
  const CHUNK := 96       // image bytes per STATE frame
  const LEAD := 16        // resume tick = host tick + LEAD
  const PATIENCE := 60    // game ticks a wanted push may wait for a quiet moment
  const CHECKPOINT := 64  // ticks between checksum exchanges
  const READ_MAX := 64    // bytes one pump may take from the socket

  type Byte = b: int | 0 <= b < 256
  type Image = s: seq<Byte> | |s| == IMAGE witness seq(IMAGE, _ => 0)

  /** One ring entry: the decoded controller cell and the keypad cell. */
  datatype Cell = Cell(decoded: Byte, keypad: Byte)
  const IDLE := Cell(0x40, 0)

  /** Everything the virtual dispatch of one tick reads from the rings. */
  datatype Pads = Pads(host: Cell, hostBefore: Cell, guest: Cell, guestBefore: Cell)
  datatype Exec = Exec(tick: int, pads: Pads)

  /** What the protocol does not interpret: one game tick over the image, the
      checksum, and the clamping both consoles apply after a resync. */
  datatype Config = Config(d: int, step: (Image, Pads) -> Image, sum: Image -> int, clamp: Image -> Image)

  datatype Frame =
    | Input(tick: int, cell: Cell)
    | Crc(tick: int, sum: int)
    | Begin(resume: int)
    | Chunk(pos: int, data: seq<Byte>)
    | End
    | Resync(tick: int)

  /** A frame in flight.  The epoch is history: the sender's epoch when it sent. */
  datatype Msg = Msg(epoch: nat, frame: Frame)

  /** Bytes of a frame on the wire, its length byte included. */
  function Size(f: Frame): nat {
    match f
    case Input(_, _) => 7
    case Crc(_, _) => 7
    case Begin(_) => 6
    case Chunk(_, data) => |data| + 4
    case End => 4
    case Resync(_) => 4
  }

  function TotalSize(ms: seq<Msg>): nat {
    if ms == [] then 0 else Size(ms[0].frame) + TotalSize(ms[1..])
  }

  datatype Seat = Host | Guest
  datatype Pc = Entry | Ready | Gate

  /** One epoch of a console: the tick it started at, the image it started from
      (before clamping) and the inputs this console has captured in it. */
  datatype Era = Era(base: int, raw: Image, sent: map<int, Cell>)
  /** What the console executed in an epoch, and the checksums it reported. */
  datatype Book = Book(log: seq<Exec>, sums: map<int, int>)

  type Eras = s: seq<Era> | |s| > 0 witness [Era(0, seq(IMAGE, _ => 0), map[])]
  type Books = s: seq<Book> | |s| > 0 witness [Book([], map[])]

  datatype Con = Con(
    tick: int,
    wm: int,                // remote watermark
    remote: map<int, Cell>, // remote seat's ring; absent means idle
    hold: bool,
    resume: int,
    pend: bool,
    waited: nat,
    records: map<int, int>, // own checksums kept for comparison
    sim: Image,
    pc: Pc,
    dropped: bool,
    // ---- history
    eras: Eras,             // the last one's `sent` is also the own-seat ring
    books: Books,
    applied: nat,           // image bytes applied in the open hold
    tainted: bool)          // a fault hit the sim since its last common start

  datatype Sys = Sys(host: Con, guest: Con, toHost: seq<Msg>, toGuest: seq<Msg>)

  datatype Action =
    | Wait(seat: Seat, frames: nat)       // matched screen, or a pass inside a hold
    | PassStart(seat: Seat, frames: nat)
    | Capture(seat: Seat, cell: Cell)
    | Stall(seat: Seat, frames: nat)
    | Tick(seat: Seat, quiet: bool)
    | Fault(seat: Seat, image: Image)     // anything that makes the sims disagree
    | Drop(seat: Seat)

  // ---------------------------------------------------------------- one console

  function Epoch(c: Con): nat { |c.eras| - 1 }
  function Era0(c: Con): Era { c.eras[|c.eras| - 1] }
  function Book0(c: Con): Book { c.books[|c.books| - 1] }
  function Lookup(ring: map<int, Cell>, t: int): Cell { if t in ring then ring[t] else IDLE }

  /** The tick this console captures next. */
  function Next(cfg: Config, c: Con): int { c.tick + cfg.d + if c.pc.Gate? then 1 else 0 }

  /** State handed over by START: an 8-bit cell holds d-1, the high byte is 0. */
  function Fresh(cfg: Config, sim: Image, start: Image): Con {
    Con(0, if cfg.d == 0 then 255 else cfg.d - 1, map[], false, 0, false, 0, map[], sim, Entry, false,
        [Era(0, start, map[])], [Book([], map[])], 0, sim != start)
  }

  function Rebase(cfg: Config, c: Con): Con {
    c.(tick := c.resume, wm := c.resume + cfg.d - 1, remote := map[], hold := false, pend := false,
       waited := 0, records := map[], sim := cfg.clamp(c.sim), applied := 0,
       eras := c.eras + [Era(c.resume, c.sim, map[])], books := c.books + [Book([], map[])])
  }

  function Splice(img: Image, pos: int, data: seq<Byte>): Image {
    if 0 <= pos && pos + |data| <= IMAGE then img[..pos] + data + img[pos + |data|..] else img
  }

  function OnFrame(cfg: Config, s: Seat, c: Con, f: Frame): (Con, seq<Msg>) {
    match f
    case Input(t, cell) =>
      if t > c.wm then (c.(wm := t, remote := c.remote[t := cell]), []) else (c, [])
    case Crc(t, x) =>
      if c.hold || c.pend || t !in c.records || c.records[t] == x then (c, [])
      else (c.(pend := true, waited := 0), if s.Host? then [] else [Msg(Epoch(c), Resync(t))])
    case Resync(_) =>
      if s.Guest? || c.hold || c.pend then (c, []) else (c.(pend := true, waited := 0), [])
    case Begin(r) =>
      (c.(hold := true, resume := r, records := map[], applied := 0, tainted := false), [])
    case Chunk(pos, data) =>
      if c.hold then (c.(sim := Splice(c.sim, pos, data), applied := c.applied + |data|), []) else (c, [])
    case End =>
      if c.hold then (Rebase(cfg, c), []) else (c, [])
  }

  /** The pad cells tick T dispatches: slots T and T-1 of both seats' rings. */
  function PadsOf(s: Seat, own: map<int, Cell>, remote: map<int, Cell>, t: int): Pads {
    if s.Host? then Pads(Lookup(own, t), Lookup(own, t - 1), Lookup(remote, t), Lookup(remote, t - 1))
    else Pads(Lookup(remote, t), Lookup(remote, t - 1), Lookup(own, t), Lookup(own, t - 1))
  }

  /** Keep a checksum; its slot is shared with the record 256 ticks older. */
  function Record(records: map<int, int>, t: int, x: int): map<int, int> {
    (map k | k in records && k > t - 256 :: records[k])[t := x]
  }

  function TickPads(s: Seat, c: Con): Pads { PadsOf(s, Era0(c).sent, c.remote, c.tick) }

  function SimAfter(cfg: Config, s: Seat, c: Con): Image { cfg.step(c.sim, TickPads(s, c)) }

  function AtCheckpoint(c: Con): bool { c.tick % CHECKPOINT == 0 }

  function BookAfter(cfg: Config, s: Seat, c: Con): Book {
    Book(Book0(c).log + [Exec(c.tick, TickPads(s, c))],
         if AtCheckpoint(c) then Book0(c).sums[c.tick := cfg.sum(SimAfter(cfg, s, c))] else Book0(c).sums)
  }

  function RunTick(cfg: Config, s: Seat, c: Con): (Con, seq<Msg>) {
    var sim := SimAfter(cfg, s, c);
    (c.(sim := sim, tick := c.tick + 1, pc := Entry,
        records := if AtCheckpoint(c) then Record(c.records, c.tick, cfg.sum(sim)) else c.records,
        books := c.books[|c.books| - 1 := BookAfter(cfg, s, c)]),
     if AtCheckpoint(c) then [Msg(Epoch(c), Crc(c.tick, cfg.sum(sim)))] else [])
  }

  function Chunks(epoch: nat, img: Image, pos: nat): seq<Msg>
    requires pos <= IMAGE
    decreases IMAGE - pos
  {
    if pos == IMAGE then []
    else
      var n := if IMAGE - pos < CHUNK then IMAGE - pos else CHUNK;
      [Msg(epoch, Chunk(pos, img[pos..pos + n]))] + Chunks(epoch, img, pos + n)
  }

  function PushMsgs(epoch: nat, resume: int, img: Image): seq<Msg> {
    [Msg(epoch, Begin(resume))] + Chunks(epoch, img, 0) + [Msg(epoch, End)]
  }

  function Push(cfg: Config, c: Con): (Con, seq<Msg>) {
    var r := c.tick + LEAD;
    (Rebase(cfg, c.(hold := true, resume := r, records := map[], tainted := false)),
     PushMsgs(Epoch(c), r, c.sim))
  }

  /** The end of a host pass: a wanted push waits for a quiet moment, but not for long. */
  function Pending(cfg: Config, s: Seat, c: Con, quiet: bool): (Con, seq<Msg>) {
    if s.Guest? || !c.pend || c.hold then (c, [])
    else
      var w := c.(waited := c.waited + 1);
      if quiet || w.waited >= PATIENCE then Push(cfg, w) else (w, [])
  }

  function RunPass(cfg: Config, s: Seat, c: Con, quiet: bool): (Con, seq<Msg>) {
    var (c1, out1) := RunTick(cfg, s, c);
    var (c2, out2) := Pending(cfg, s, c1, quiet);
    (c2, out1 + out2)
  }

  // ---------------------------------------------------------------- the system

  function Me(st: Sys, s: Seat): Con { if s.Host? then st.host else st.guest }
  function Peer(s: Seat): Seat { if s.Host? then Guest else Host }
  function Inbox(st: Sys, s: Seat): seq<Msg> { if s.Host? then st.toHost else st.toGuest }

  function Put(st: Sys, s: Seat, c: Con, inbox: seq<Msg>, out: seq<Msg>): Sys {
    if s.Host? then Sys(c, st.guest, inbox, st.toGuest + out) else Sys(st.host, c, st.toHost + out, inbox)
  }

  function SetPc(st: Sys, s: Seat, pc: Pc): Sys { Put(st, s, Me(st, s).(pc := pc), Inbox(st, s), []) }

  function Deliver(cfg: Config, st: Sys, s: Seat): Sys
    requires Inbox(st, s) != []
  {
    var (c, out) := OnFrame(cfg, s, Me(st, s), Inbox(st, s)[0].frame);
    Put(st, s, c, Inbox(st, s)[1..], out)
  }

  function Pump(cfg: Config, st: Sys, s: Seat, k: nat): Sys
    decreases k
  {
    if k == 0 || Inbox(st, s) == [] then st else Pump(cfg, Deliver(cfg, st, s), s, k - 1)
  }

  /** A pump that completes these frames read at most READ_MAX bytes: only the first
      frame can have begun before the read. */
  predicate Readable(batch: seq<Msg>) {
    batch == [] || TotalSize(batch[1..]) < READ_MAX
  }

  predicate CanPump(st: Sys, s: Seat, k: nat) {
    k <= |Inbox(st, s)| && Readable(Inbox(st, s)[..k])
  }

  predicate Enabled(cfg: Config, st: Sys, a: Action) {
    var c := Me(st, a.seat);
    !c.dropped &&
    match a
    case Wait(s, k) => c.pc.Entry? && (c.hold || (c.tick == 0 && Epoch(c) == 0)) && CanPump(st, s, k)
    case PassStart(s, k) => c.pc.Entry? && !c.hold && CanPump(st, s, k)
    case Capture(_, _) => c.pc.Ready?
    case Stall(s, k) => c.pc.Gate? && c.wm < c.tick && CanPump(st, s, k)
    case Tick(_, _) => c.pc.Gate? && c.wm >= c.tick
    case Fault(_, _) => true
    case Drop(_) => true
  }

  function Apply(cfg: Config, st: Sys, a: Action): Sys
    requires Enabled(cfg, st, a)
  {
    var c := Me(st, a.seat);
    match a
    case Wait(s, k) => Pump(cfg, st, s, k)
    case PassStart(s, k) => SetPc(Pump(cfg, st, s, k), s, Ready)
    case Capture(s, cell) =>
      var t := c.tick + cfg.d;
      var era := Era0(c).(sent := Era0(c).sent[t := cell]);
      Put(st, s, c.(pc := Gate, eras := c.eras[|c.eras| - 1 := era]), Inbox(st, s), [Msg(Epoch(c), Input(t, cell))])
    case Stall(s, k) => Pump(cfg, st, s, k)
    case Tick(s, quiet) =>
      var (c1, out) := RunPass(cfg, s, c, quiet);
      Put(st, s, c1, Inbox(st, s), out)
    case Fault(s, image) => Put(st, s, c.(sim := image, tainted := true), Inbox(st, s), [])
    case Drop(s) => Put(st, s, c.(dropped := true), Inbox(st, s), [])
  }

  function Init(cfg: Config, start: Image, guestSim: Image): Sys {
    Sys(Fresh(cfg, start, start), Fresh(cfg, guestSim, start), [], [])
  }

  ghost predicate Runs(cfg: Config, st: Sys, acts: seq<Action>, end: Sys)
    decreases |acts|
  {
    if acts == [] then st == end
    else Enabled(cfg, st, acts[0]) && Runs(cfg, Apply(cfg, st, acts[0]), acts[1..], end)
  }

  ghost predicate Reachable(cfg: Config, st: Sys) {
    exists start: Image, guestSim: Image, acts: seq<Action> :: Runs(cfg, Init(cfg, start, guestSim), acts, st)
  }
}
