# Shark! Shark! netplay: a verified model

Two Intellivision consoles play one cart over a TCP relay.  Each console simulates the whole
game and only inputs travel.  This project models the console's netcode (CP-1610 assembly in
`src/`) and the relay (`server/intv_relay_server.py` and its C port
`server/c/src/intv-relay.c`), and proves what they promise.

`dafny verify dfyconfig.toml` checks everything.

## How the pieces fit

**The protocol** (`Protocol`) is a step system on unbounded ticks: a host and a guest, one FIFO
in each direction, and a pass cut where the code cuts it: pump, capture and send for tick T+d,
gate with a pump in every round, tick, checksum every 64 ticks, a look at a wanted push.  The
game tick, the checksum and the clamps after a resync are parameters (`Config`).  A `Fault`
step may replace a console's state at any time; it stands for whatever makes two simulations
disagree.  Fields under "history" in `Con` are written and never read by a step.

Proof layers over it: `Channels` plays a FIFO forward against the receiver and asks that the
drained receiver hold exactly what the sender captured; `Invariant`, `Agreement`, `Images`,
`Repair` are the inductive parts; `Safety`, `FaultFree`, `Progress`, `Epochs`, `Windows`,
`Fairness`, `Alarms`, `Waits`, `Delay` are the theorems.  All of them hold for an input delay 1 <= d <= 15.  The code does not
check d; `Delay` proves that this range is exact: for every other value of the delay byte there
is a run in which the consoles execute different inputs in the same epoch.

**The console's cells** (`Cells`, `Console`) are 8-bit cells: two-cell clocks, 256-slot ring
pages, a table of own checksums.  Every routine's contract says that cells standing for a
protocol state before it stand for the protocol function's state after it.  `Wire` and `Framing`
give the bytes of the frames and the meaning of a byte stream; `Receiver` is the circular
accumulator.  `Refinement` closes the gap: in every reachable state a whole `SES_PUMP`, from its
socket read to its last handled frame, is one pump of the protocol with a batch of frames the
protocol allows; the capture and the gated tick likewise.  `Link` joins two such carts by two
byte streams and composes the steps over any schedule, so what holds of every run of the protocol
holds of the cells; `Steady` gives a schedule under which both carts move on for ever.  `Figures`
writes out what the constants and layouts come to.

**The state image** (`ImageRam`, `Checksum`, `Machine`) is on memory cells: byte cells, halves
of 16-bit words and a table of scattered cells.  It shows that the checksum and the clamps are
functions of the image, which is what `Config` assumes of them.

**Timers** (`Timers`) are the five virtualized entries.

**The relay.**  `Reassembly` relates the two servers' stream buffers, `CrcTable` the two checksum
comparators, `NameTable` the C array to an insertion-ordered map, `Outbox` is the transmit queue.
`Rooms` and `Relay` treat rooms.  A send can drop its own target on the spot, from inside any
handler, and that drop sends again.  `Settle(s, gone)` is the state with a set of clients gone;
every handler's contract returns the set it lost and says that the tables are its intended effect
settled for that set, however the drops nested, that a client is only ever lost to a send its own
connection would not take, and that nobody outside the rooms concerned is lost or sent anything.
The names live in the C array.  `Histories` runs arbitrary sequences of events.  `Traffic` puts
bytes on both ends: reads of any size are reassembled, decoded and handled, notes are framed and
leave through the transmit queue; a console's receiver takes exactly what was written.  `Outcomes`
says member by member what handlers leave and who is told, and `Kickoff` what each request on the
wire does, from the first byte to a match.  In a match of two the relay is then a byte pipe, which is what
`Link` takes the two wires to be.

## Where the code and its words disagree

- `server/c/README.md:125` says the Python server lacks the partial-frame guard.  It has one
  (`server/intv_relay_server.py:344`); the model follows the code, and the two servers then agree
  on every stream (`Reassembly.SameFrames`).
- `server/c/src/intv-relay.c:852` calls its dead-check after an eviction one that "cannot happen".
  It can: the evicted name's holder and the newcomer may share a room.  The Python has no such
  check.  With its two seats its name table goes wrong exactly when the name is a room-mate's and
  the newcomer's own connection takes nothing more (`Relay.UncheckedHello`,
  `Relay.Server.OnHelloUnchecked`); `Relay.UncheckedHelloBreaks` runs a case,
  and `Histories.UncheckedRun` reaches it from the empty server.
- The own-checksum table has eight slots; an 8-bit tick shifted right by six uses four of them
  (`src/netcode/resync.asm:65`).
- `src/netcode/resync.asm:154` says the host pushes "once" for a request.  A request overtaken by
  the host's own push makes it push a second time (`Alarms.SecondPush` is such a run, for every
  legal delay).  These are exactly the requests whose tick lies before the host's epoch
  (`Alarms.RequestIsOf`); they are all that an old epoch can still change at the host
  (`Safety.EpochSeparation`), and it never gets more than two epochs ahead
  (`Epochs.AtMostTwoAhead`).
- `server/c/src/intv-relay.c:1170` drops a ninth seat's report for one tick.  With at most eight
  members that cannot arise: an entry is judged as soon as it has as many seats as the room, and
  it is removed when it is judged (`CrcTable.PendingStays`).
- `start_room` in C sends START to a snapshot even when an earlier send has dissolved the room;
  `Relay.Server.StartRoom` says what the tables are in that case too.

## Model

| member | source | states |
|---|---|---|
| Safety.LockstepAgreement | src/netcode/lockstep.asm:62-372 | In every reachable state, any number of resyncs included, the i-th tick both consoles executed in an epoch is the same tick with the same current and previous cells of both seats. |
| Safety.SameState | src/netcode/resync.asm:391-439 | Consoles in the same epoch at the same tick have equal image-covered state unless a fault hit one since the epoch's common start; so they agree right after both rebases. |
| Safety.SkewBound | src/netcode/lockstep.asm:136-208 | Within an epoch the tick counters differ by at most d+1 and no watermark is more than 2d+1 ahead of its reader. |
| Safety.EpochSeparation | src/netcode/session.asm:601-634 | Of what the guest sent in an epoch the host has left, an input or checksum changes nothing at the host; a request does exactly if no push is wanted, and then only makes one wanted. |
| Safety.ResyncIsAtomic | src/netcode/resync.asm:281-376 | No game tick of the guest runs between the first image byte applied and its rebase. |
| Alarms.NoFalseAlarm | src/netcode/resync.asm:89-172 | A frame that makes a console want a push is a checksum or, at the host, a request, and both consoles reported its tick in its epoch with different sums. A checksum is of the console's own epoch; a request is exactly if its tick is not before that epoch's first. |
| Alarms.RequestIsOf | src/netcode/resync.asm:153-172 | The request next in line is of the host's epoch if and only if its tick is at or after the epoch's first, and if and only if both reported that tick differently in it; otherwise it is about a difference of an epoch the host has already left. |
| Alarms.SecondPush | src/netcode/resync.asm:153-172 | "Once" fails: for every legal delay a run in which one difference, at tick 0, makes the host push twice, two epochs ahead of the guest, the second time with no checksum reported in the epoch it leaves. |
| Alarms.NoPushWithoutDifference | src/netcode/resync.asm:473-505 | Nobody wants a push, and none has been made, before both consoles reported some tick of one epoch with different sums. |
| Safety.BoundedRepair | src/netcode/resync.asm:473-505 | Once both have reported different sums for tick t the host leaves the epoch by the end of its pass for tick t+2d+61. |
| Safety.NothingMissed | src/netcode/lockstep.asm:314-348 | Once both checksum frames of a checkpoint both ran in the common epoch are handled, no push is wanted and no request is in flight, both reported it and the sums were equal, whatever inputs or later checksums are still on the wire. |
| Safety.ApplyInv | src/netcode/lockstep.asm:8-372 | Every step of either console keeps the whole invariant. |
| Agreement.GateReadsTruth | src/vdispatch.asm:326-358 | Through an open gate a console's slots T and T-1 hold what both seats captured, or idle where a rebase left a gap. |
| Images.PumpAtomic | src/netcode/session.asm:458-473 | A pump of at most 64 bytes that consumes BEGIN cannot finish a full first chunk: from outside a hold it leaves no image byte applied and moves neither clock nor epoch, and a torn console at its gate stays stalled. |
| Channels.GuestRing | src/netcode/session.asm:601-634 | The guest's ring agrees with the host's captures up to the watermark, whatever is still in flight. |
| Channels.HostRing | src/netcode/session.asm:601-634 | The same for the host, across epochs the guest has not entered. |
| Repair.GuestCovered | src/netcode/resync.asm:89-151 | Delivering a frame to the guest keeps every reported difference on its way to a push. |
| Repair.HostCovered | src/netcode/resync.asm:89-172 | Delivering a frame to the host keeps every reported difference on its way to a push. |
| FaultFree.NoFaultNoResync | src/netcode/resync.asm:577-585 | A run without faults never wants a resync and stays in the first epoch. |
| Progress.SlowerPasses | src/netcode/lockstep.asm:168-208 | With everything in flight to it handled the slower console is neither held nor stalled, also after a rebase that left the gap at R+d. |
| Progress.NoDeadlock | src/netcode/lockstep.asm:168-250 | In every reachable undropped state the slower console has a move that lowers a lexicographic measure to any target tick. |
| Progress.EveryTickReached | src/netcode/lockstep.asm:62-372 | From every reachable undropped state both consoles can reach every target tick without faults or drops. |
| Fairness.FairReaches | src/netcode/lockstep.asm:62-250 | Every endless schedule in which each console again and again does something or has nothing to do brings both past every tick, whatever faults strike on the way; nobody hangs up. |
| Fairness.WorkCloser | src/netcode/lockstep.asm:62-372 | While one console is below a tick, any step of either that is not a frameless read or a fault lowers one lexicographic measure. |
| Fairness.ClocksNear | src/netcode/resync.asm:391-439 | Across all epochs the two clocks are always less than 100 ticks apart. |
| Delay.AgreementIffLegalDelay | src/netcode/session.asm:681-713 | For every delay byte d the agreement holds in all runs if and only if 1 <= d <= 15. |
| Delay.TooLong | src/netcode/resync.asm:413-431 | For each d >= 16 a concrete run, ending with one console reading a stale press where the other reads idle. |
| Delay.TooShort | src/netcode/session.asm:702-711 | For d = 0 a concrete run that disagrees, because START writes watermark 255. |
| Epochs.AtMostTwoAhead | src/netcode/resync.asm:156-172 | However many requests are in flight, the host is at most two epochs ahead of the guest and of every frame in flight from it; `Alarms.SecondPush` reaches the bound. |
| Waits.UnquietPushes | src/netcode/resync.asm:471-505 | In every run a host pass that is not quiet ends in a push exactly if a push is wanted and at least 59 host passes have gone by since it became wanted. |
| Waits.StillWaiting | src/netcode/resync.asm:471-505 | Through any steps with fewer than 60 host passes since the wish, none of them quiet, the host's epoch stays and no BEGIN is sent. |
| Waits.SixtiethPushes | src/netcode/resync.asm:493-505 | The sixtieth pass since the wish pushes, quiet or not. |
| Waits.QuietPushes | src/netcode/resync.asm:484-505 | A quiet pass pushes at once if a push is wanted, and not otherwise. |
| Windows.AlwaysInRange | src/netcode/lockstep.asm:171-208 | Every tick a reachable console is about to compare is so close that 256 slots and a signed 16-bit difference decide as unbounded ticks do; a wanted push has waited less than 60 ticks. |
| Refinement.PumpOnce | src/netcode/session.asm:452-553 | A whole pump on cells and bytes is one protocol pump with an allowed batch: new console state, bytes left over, replies written, no slip. |
| Refinement.ReadFalls | src/netcode/session.asm:458-473 | A read of at most 64 bytes completes a batch of frames all but the first of which lie inside it. |
| Refinement.Boot | src/netcode/session.asm:681-724 | A console that has handled START, with an empty accumulator, is the protocol's console at the beginning. |
| Refinement.CaptureAndSend | src/netcode/lockstep.asm:75-170 | The capture on cells is the protocol's capture, its frame the protocol's frame. |
| Refinement.GateAndTick | src/netcode/lockstep.asm:171-372 | The gate on cells opens exactly when the protocol's does, and the pass behind it is the protocol's tick with the same pads, state, frames and push decision. |
| Link.Play | src/netcode/lockstep.asm:8-372 | Two carts on two byte streams under any schedule of turns, read sizes, presses, faults and hang-ups: every turn is what `Cart.Act` says of it, and afterwards cells, accumulators and unread bytes are those of a state that a run of the protocol leads to, fault-free if the schedule was. |
| Link.Match | src/netcode/lockstep.asm:8-372 | From one start image, any schedule without faults: no push is wanted and no hold open, and whenever the two 16-bit clock cells read the same the 770-byte images are equal. |
| Link.Cart.Act | src/netcode/lockstep.asm:8-250 | A turn does nothing exactly if the cart is down or its program does not stand where the turn begins: at the entry, held or before the match, to poll; at the entry and not held to enter a pass; ready to press; at the gate for the gate. Otherwise it is exactly one enabled protocol step, of the kind the turn and the gate's cells say, it takes the bytes it read from its inbox and writes exactly that step's frames. |
| Steady.RoundTicks | src/netcode/lockstep.asm:62-372 | From any state both carts reach at the top of their passes with nothing held, one round of six turns (enter, press and gate of each) is one tick of both clocks. |
| Steady.Reach | src/netcode/lockstep.asm:171-372 | The carts move: for every legal delay and every n below 65536, n rounds of turns take two started carts to 16-bit clocks that both read n, with equal images, both up. |
| Link.PumpHere | src/netcode/session.asm:449-553 | One pump that finds a console outside a hold leaves its clock and epoch alone, so the matched screen is left only by a hold or a pass. |
| ConsoleRam.Console.GateOpen | src/netcode/lockstep.asm:171-198 | Open exactly when no remote watermark is behind the tick in signed 16-bit terms; then the slack is the least remote lead, or 15 if that is less. |
| ConsoleRam.Console.GateRight | src/netcode/lockstep.asm:171-208 | In range, that test is the protocol's wm >= T. |
| ConsoleRam.Console.OnInput | src/netcode/session.asm:587-636 | For any bytes: stored at the slot of the tick's low byte, and the watermark moved, exactly if the seat is another seat of the room and the signed 16-bit difference to its watermark is positive; nothing else changes. In the windows every reachable state keeps, that is the protocol's step. |
| ConsoleRam.Console.StoreOwn | src/netcode/lockstep.asm:129-143 | Storing the capture at slot (T+d) mod 256 evicts nothing the tick will read. |
| ConsoleRam.Console.Capture | src/netcode/lockstep.asm:75-166 | The frame carries T+d and the stored cells. |
| ConsoleRam.Console.ReadPads | src/vdispatch.asm:326-358 | The cells of slots T and T-1 modulo 256, with the hand-made wrap. |
| ConsoleRam.Console.TickCells | src/vdispatch.asm:326-358 | Both seats' four cells are the protocol's pads for the tick. |
| ConsoleRam.Console.Checkpoint | src/netcode/lockstep.asm:314-348 | A record and a CRC frame exactly on multiples of 64. |
| ConsoleRam.Console.RecordCrc | src/netcode/resync.asm:63-81 | The new record replaces the one 256 ticks older and no other. |
| ConsoleRam.Console.IncTick | src/netcode/lockstep.asm:349-358 | The hand-carried increment adds one modulo 2^16. |
| ConsoleRam.Console.FinishTick | src/netcode/lockstep.asm:311-358 | State, record, frame and clock after a tick are the protocol's. |
| ConsoleRam.Console.ClearRecords | src/netcode/resync.asm:577-585 | A cleared table holds a record for no tick, tick 0 included. |
| ConsoleRam.Console.ClearRings | src/vdispatch.asm:475-488 | Every page of every seat is idle. |
| ConsoleRam.Console.SetWatermarks | src/netcode/resync.asm:413-431 | Every seat's watermark pair is the given word. |
| ConsoleRam.Console.EnterHold | src/netcode/resync.asm:349-389 | Holding with a resume tick and no records, as in the protocol. |
| ConsoleRam.Console.DoRebase | src/netcode/resync.asm:391-439 | The jump to tick R with idle rings, watermark R+d-1 and no hold is the protocol's rebase. |
| ConsoleRam.Console.ImageStream | src/netcode/resync.asm:196-266 | The push loop writes exactly BEGIN, the image in chunks of at most 96 bytes in order, END. |
| ConsoleRam.Console.PushImage | src/netcode/resync.asm:177-270 | Hold, push and the host's own rebase are the protocol's push. |
| Figures.PushIs | src/netcode/resync.asm:177-270 | A push resumes 16 ticks on; its frames are BEGIN of that tick, the image in order as eight chunks of 96 bytes and one of 2, and END. |
| ConsoleRam.Console.LookAtPending | src/netcode/resync.asm:473-505 | The host pushes on a quiet moment or when 59 looks have come before this one, and otherwise writes nothing; the guest never pushes. |
| ConsoleRam.Console.constructor | src/hook.asm:87-104 | Zeroed cells, a two-seat room. |
| ConsoleRam.Console.Start | src/netcode/session.asm:681-724 | START leaves the protocol's fresh state, watermark low byte d-1 and high byte 0, for every d; the simulation is untouched. |
| ConsoleRam.Console.OnCrc | src/netcode/resync.asm:89-151 | For any bytes: a push is wanted from now on exactly if none was, no hold is open and the slot of that tick holds this tick with another sum; a guest then answers one RESYNC of that tick. In the windows, that is the protocol's comparison. |
| ConsoleRam.Console.OnRequest | src/netcode/resync.asm:156-172 | Only the host, outside a hold, with none wanted. |
| ConsoleRam.Console.PutChunk | src/netcode/resync.asm:323-348 | Byte-by-byte application with a hand-carried position is a splice of the image. |
| ConsoleRam.Console.OnState | src/netcode/resync.asm:281-376 | Any STATE frame acts as what it reads as: BEGIN, in-bounds data inside a hold, END inside a hold, or nothing. |
| ConsoleRam.Console.Dispatch | src/netcode/session.asm:558-636 | Any whole frame touches only its own arm's cells; STATE, RESYNC, unknown and malformed frames always, and INPUT and CRC frames inside the windows of every reachable state, have the protocol's effect of the frame they read as, or none, and draw its reply. |
| Cells.SignIsRight | src/netcode/lockstep.asm:183-192 | Within half the range the signed 16-bit difference has the right sign, and is zero only for equals. |
| Cells.PageStore | src/netcode/session.asm:616-626 | A store in a 256-slot page keeps a window of fewer than 257 ticks right. |
| Cells.SlotStore | src/netcode/resync.asm:63-81 | The record table keeps standing for the records through a new checkpoint. |
| Cells.SlotSays | src/netcode/resync.asm:99-119 | The four compared cells say exactly whether there is a record of that tick and whether its sum is the given one. |
| Wire.ReadBytes | src/netcode/lockstep.asm:144-166 | What one console frames the other reads back, ticks modulo 2^16, at the length the table fixes. |
| Wire.ReadInBounds | src/netcode/resync.asm:281-322 | Whatever the bytes of a table-legal frame, what is read from it is in bounds: data lie inside the image. |
| Framing.ParseMore | src/netcode/session.asm:488-553 | Parsing the leftover with more bytes behind it continues where parsing stopped. |
| Framing.ParseRests | src/netcode/session.asm:488-553 | What is left over is at most 99 bytes and yields nothing by itself. |
| Framing.OnlyLegalFrames | src/netcode/session.asm:488-553 | For arbitrary bytes only frames legal under the bounds table come out, and every byte is in a frame, slipped or left. |
| Framing.ReadsDoNotMatter | src/netcode/session.asm:452-553 | Frames, slips and leftover do not depend on how the stream is cut into reads. |
| Framing.LegalStreamsArrive | src/netcode/session.asm:1064-1088 | A stream of legal frames, cut in any way, yields exactly those frames in order with no slip; which frames are legal is tied to what can come in by `Traffic.EmittedFits` and `Traffic.BoundsAreTight`. |
| Traffic.EmittedFits | src/netcode/session.asm:1061-1086 | The bounds table passes every note of the relay, whatever its names and counts, and every frame of the other console. |
| Traffic.BoundsAreTight | src/netcode/session.asm:1061-1086 | For every type the table lets in, a frame of its least and one of its greatest length can come. |
| Traffic.ConsoleTakesAll | src/netcode/session.asm:488-553 | What the relay writes to a console, its own notes and legal relayed frames in any order, cut into reads in any way, is taken as exactly the frames written, with no slip. |
| Traffic.CartToCart | server/c/src/intv-relay.c:1249-1273 | In a match of two, if one cart's bytes are the beginning of the stream of some frames, the other's receiver takes from what the relay has written the first of those frames, whole and unslipped. |
| Framing.PumpsAreReadable | src/netcode/session.asm:458-473 | The frames one read of at most 64 bytes completes are a batch the protocol allows. |
| PumpRam.Receiver.constructor | src/netcode/session.asm:452-487 | An empty accumulator. |
| PumpRam.Receiver.Accept | src/netcode/session.asm:473-487 | The copied bytes follow what was buffered, without lapping. |
| PumpRam.Receiver.Take | src/netcode/session.asm:530-543 | The frame buffer gets the oldest bytes in order and the accumulator keeps the rest. |
| PumpRam.Receiver.Pump | src/netcode/session.asm:452-553 | On the 256-cell ring: exactly the parse of leftover plus read, a saturating slip count, termination, at most 99 bytes left. |
| ImageRam.PlacesDistinct | src/netcode/resync.asm:597-694 | Every position has its own place, and it is an image address. |
| ImageRam.PlacesCover | src/netcode/resync.asm:597-694 | Every image address is covered, words by both halves. |
| ImageRam.PutGet | src/netcode/resync.asm:605-694 | A put is read back at its position and nowhere else. |
| ImageRam.PutFrame | src/netcode/resync.asm:644-694 | A put changes no cell outside the image. |
| ImageRam.PutsCommute | src/netcode/resync.asm:670-686 | Puts at distinct positions commute, halves of one word included. |
| ImageRam.WriteSplices | src/netcode/resync.asm:323-348 | A chunk put byte by byte is a splice of the image and touches nothing else. |
| ImageRam.ImageFixesCells | src/netcode/resync.asm:605-642 | Equal images mean equal image cells. |
| ImageRam.PushRoundTrip | src/netcode/resync.asm:207-348 | Any host memory pushed onto any guest memory makes all image cells equal and leaves every other cell alone. |
| ImageRam.NetcodeCellsAreSafe | src/ram.asm:60-215 | No clock, hold, serializer, watermark, buffer, ring or record cell is in the image. |
| Machine.Ram.ImgGet | src/netcode/resync.asm:605-642 | The branches read the image byte of the position. |
| Machine.Ram.ImgPut | src/netcode/resync.asm:644-694 | The branches and the read-modify-write store the image byte of the position. |
| Machine.Ram.OnState | src/netcode/resync.asm:281-348 | A data frame of any position and length is applied inside the image or refused with memory unchanged; refused exactly outside a hold, without data, or out of bounds. |
| Machine.Ram.Clamp | src/netcode/resync.asm:556-566 | Saved and live vectors are the EXEC's and the player count is 1 or 2; nothing else changes. |
| Machine.Ram.LsCksum | src/netcode/lockstep.asm:491-532 | The unrolled groups fold the summed cells in order. |
| Machine.Ram.TraceSum | src/debug.asm:17-36 | The nested loop folds the cells its table selects, for any table. |
| Machine.SameChecksum | src/debug.asm:112-123 | The engine's checksum equals the trace's on every memory. |
| Checksum.FoldInjective | src/netcode/lockstep.asm:495-532 | Different running sums stay different over any cells. |
| Checksum.OneCellIsSeen | src/netcode/lockstep.asm:495-532 | Two cell lists of any length differing in exactly one cell have different sums. |
| Checksum.SumIsOfImage | src/netcode/lockstep.asm:480-532 | The checksum is a function of the state image. |
| Checksum.ClampIsOfImage | src/hook.asm:489-500 | The clamps act on the image at positions 2, 3 and 21 only. |
| Checksum.RebasesAgree | src/netcode/resync.asm:391-439 | After a push and both clamps images and checksums are equal and the saved vector is the EXEC's, whatever was on the wire. |
| Checksum.TraceSelects | src/debug.asm:112-123 | The trace's table selects the cells the engine sums, in its order. |
| Timers.CountdownsInRange | src/hook.asm:239-301 | Between events every countdown is in 1..interval, whatever handlers arm or stop. |
| Timers.TableOrder | src/hook.asm:239-301 | A tick fires entries in table order, each at most once. |
| Timers.FiringLaw | src/hook.asm:239-301 | An armed entry left alone for n ticks fires 0 times if n < c, else 1 + (n - c) / interval. |
| Figures.Periods | src/exec_equ.asm:122-132 | Armed and left alone the five entries fire once every 16, 45, 10, 2 and 80 ticks. |
| Timers.StoppedLaw | src/hook.asm:423-442 | A stopped entry never fires and keeps its countdown. |
| Timers.TimerRam.constructor | src/hook.asm:87-104 | Nothing armed, every countdown at its full interval. |
| Timers.TimerRam.ArmShim | src/hook.asm:444-473 | The slot's entry is armed with its full interval, no other entry changes. |
| Timers.TimerRam.StopShim | src/hook.asm:423-442 | The slot's entry is stopped, no other entry changes. |
| Timers.TimerRam.EntryTurn | src/hook.asm:242-251 | Decrement, fire at zero, reload after the handler. |
| Timers.TimerRam.GameTick | src/hook.asm:239-301 | The five turns in order, handlers' own shim calls included. |
| Reassembly.FeedIsService | server/c/src/intv-relay.c:717-759 | One read: the 256-byte buffer hands on the same bodies and drops for the same reason as the growing one; "rx overflow" is unreachable. |
| Reassembly.SameFrames | server/intv_relay_server.py:336-354 | Whole streams, cut differently for the two servers: same bodies in order, same bad-length drop. |
| Reassembly.StreamMeans | server/c/src/intv-relay.c:732-757 | Bodies of 1 to 200 bytes at the front of a stream are handed on in order however it is cut; then a length of zero or beyond 200 drops the client, or an incomplete frame waits. |
| Reassembly.DrainMore | server/intv_relay_server.py:337-354 | Draining early makes no difference. |
| Reassembly.Client.Append | server/c/src/intv-relay.c:726-730 | The bytes follow what was buffered. |
| Reassembly.Client.Shift | server/c/src/intv-relay.c:749-750 | The move leaves the bytes behind the frame in order. |
| Reassembly.Client.DrainBuffer | server/c/src/intv-relay.c:732-757 | The inner loop on the array is the shared drain, and ends. |
| Reassembly.Client.Feed | server/c/src/intv-relay.c:717-759 | The outer loop on the array is the bounded reassembly, and ends. |
| Reassembly.PyClient.Service | server/intv_relay_server.py:325-354 | The loop on the growing buffer is the unbounded reassembly. |
| CrcTable.PendingStays | server/intv_relay_server.py:474-495 | Between reports at most 64 ticks are kept, each still missing a seat, and no entry outgrows the room. |
| CrcTable.VerdictIs | server/intv_relay_server.py:474-495 | Nothing until as many seats as the room has have reported the tick; then agreement exactly if all said the same, counted once, and else everything they said; the tick is forgotten. |
| CrcTable.KeepsSixtyFour | server/intv_relay_server.py:474-495 | Every other tick keeps its reports, except that the smallest of more than 64 goes; the reported tick has this report, and stays until it is judged or is that smallest one. |
| CrcTable.FreeRow | server/c/src/intv-relay.c:1151-1162 | A free row always exists on entry. |
| CrcTable.CRoom.FindRow | server/c/src/intv-relay.c:1146-1162 | The tick's row, or a free one. |
| CrcTable.CRoom.Insert | server/c/src/intv-relay.c:1146-1194 | The report is inserted or replaced as in the dictionary. |
| CrcTable.CRoom.Evict | server/c/src/intv-relay.c:1196-1209 | Beyond 64 rows the smallest tick goes; the touched row stays readable even if it was that one. |
| CrcTable.CRoom.Judge | server/c/src/intv-relay.c:1214-1222 | Agreement exactly when all used slots hold one sum. |
| CrcTable.CRoom.LogCrc | server/c/src/intv-relay.c:1136-1247 | The fixed table gives the dictionary's verdict and state. |
| CrcTable.PyRoom.LogCrc | server/intv_relay_server.py:474-495 | The dictionary's own steps. |
| CrcTable.WholeMatch | server/c/src/intv-relay.c:1136-1247 | For every sequence of reports in a room of up to eight: the dictionary's verdicts and agreement count, at most 64 rows between reports. |
| Rooms.SettleTwice | server/c/src/intv-relay.c:603-698 | Losing some clients and then others is losing them all at once. |
| Rooms.SettleGood | server/c/src/intv-relay.c:603-698 | However drops nest: clients and rooms agree, rooms are disjoint with 2 to max-seats distinct live members in join order, names are a bijection with named live clients. |
| Rooms.RoomFree | server/c/src/intv-relay.c:363-375 | With a client outside any room some room slot is free. |
| Rooms.NamesFit | server/c/src/intv-relay.c:340-352 | Names never outnumber client slots. |
| Rooms.RegisteredGood | server/c/src/intv-relay.c:854-866 | Taking a free name keeps the invariant, the old alias gone. |
| Rooms.OpenedGood | server/c/src/intv-relay.c:958-970 | Opening a room for a solo target keeps the invariant. |
| Rooms.JoinedGood | server/c/src/intv-relay.c:968-970 | Joining a forming room with a seat left keeps the invariant. |
| Rooms.StartedGood | server/c/src/intv-relay.c:989-999 | Starting a room keeps the invariant. |
| Relay.Server.Send | server/c/src/intv-relay.c:439-462 | A live target whose connection takes it has exactly one more note. One whose connection does not is dropped; then only it and its room-mates can be lost or told anything, and unless its room is reseated exactly those room-mates are lost whose connections take nothing more. |
| Relay.Server.SendAll | server/c/src/intv-relay.c:578-589 | The same note to a snapshot: a live target without room for it is lost, only clients of the targets' rooms are lost or told anything; if the targets are distinct, live and all have room nobody is lost, and then each has exactly one more note. |
| Relay.Server.DissolveTelling | server/c/src/intv-relay.c:591-601 | Members are solo before the first send, so drops in between cannot touch the dying room; lost are exactly the members whose connections take nothing more. |
| Relay.Server.DissolveQuietly | server/c/src/intv-relay.c:591-601 | Members solo, room free. |
| Relay.Server.Broadcast | server/c/src/intv-relay.c:578-589 | The roster to every member of a snapshot; nobody is lost exactly if all members have room for it, the members without are among the lost, and nobody outside the room is lost or told anything. |
| Relay.Server.Drop | server/c/src/intv-relay.c:603-698 | The client and everyone lost on the way are gone from clients, names and rooms. Nobody outside its room is lost or told anything; room-mates whose connections take nothing more are lost, and unless the room is reseated only they. If it alone is lost, exactly the rest of its room is told, of the leaver, of the dissolution or of the new seats. No relayed frame is written. |
| Outcomes.AfterLoss | server/c/src/intv-relay.c:603-698 | If the match had started, or the lost client was the host or one of two, the room is free and the others are out of any room; otherwise they stay and the seats behind it close up. No other room and nobody else is touched. |
| Outcomes.DropTells | server/c/src/intv-relay.c:668-696 | Each of the others gets exactly one note: PEER_LEFT with the seat and name of the one lost, an empty ROOM, or the names of those who stay in their order; nobody else gets any. |
| Outcomes.NamesAfterLoss | server/c/src/intv-relay.c:628-636 | The lost client's name goes and the others keep their order. |
| Relay.Server.Aftermath | server/c/src/intv-relay.c:668-696 | The room a client has left is ended, dissolved or reseated, and who is told what. |
| Relay.Server.constructor | server/intv_relay_server.py:139-152 | An empty server satisfies the invariant. |
| Relay.Server.Accept | server/c/src/intv-relay.c:464-487 | The first free slot becomes a nameless client outside any room with nothing sent; none is free exactly when 64 are live. |
| Relay.Server.OnList | server/c/src/intv-relay.c:885-904 | The first eight other clients in table order with their status bytes. |
| Outcomes.FirstEight | server/c/src/intv-relay.c:885-904 | The rows are all the others in table order, or the first eight of them. |
| Relay.OthersIsFilter | server/intv_relay_server.py:415-422 | Stopping at eight shows what taking eight of all shows. |
| Relay.StatusTellsJoin | server/c/src/intv-relay.c:870-883 | The lobby byte of a client has its top bit clear exactly if a JOIN of its name would join it; the rest is how many are in its room, 1 outside any. |
| Relay.Server.Target | server/c/src/intv-relay.c:923-955 | Whom a JOIN of a name joins, if anyone. |
| Relay.Server.AllocRoom | server/c/src/intv-relay.c:363-375 | A free room, always. |
| Relay.Server.OnJoin | server/c/src/intv-relay.c:909-976 | Joins exactly when named, solo and the target is joinable; the tables are the join, settled, and then the start if auto-go is reached; every member is told the new roster, and after an auto-start each has the START of its own seat too; a refused JOIN is answered with the lobby list; unnamed clients are dropped. Only the two rooms are touched and nothing relayed is written. |
| Relay.Server.Enter | server/c/src/intv-relay.c:958-970 | The joiner is the last member of the target's room, which is the first free one, opened with the target as host, if it had none; the invariant holds. |
| Outcomes.AfterJoin | server/c/src/intv-relay.c:958-970 | Everyone who was in the target's room and then the newcomer, or the target as host and the newcomer; nobody and nothing else changes. |
| Outcomes.JoinableExactly | server/c/src/intv-relay.c:923-955 | Joined is exactly another client of that name that is in no room or in one still forming with a seat left. |
| Relay.Server.OnGo | server/c/src/intv-relay.c:978-987 | Starts exactly for the host of a forming room; then, unless someone is lost, each member has the START of its own seat and nobody else is told anything. |
| Relay.Server.StartRoom | server/c/src/intv-relay.c:989-1016 | The room started, settled for whoever was lost; nobody is while all members have room for the note, and then every member has exactly one more note, the START of its own seat with all names in seat order, and nobody else has any. |
| Relay.Server.OnHello | server/c/src/intv-relay.c:845-868 | The name's other holder is evicted; unless that took this client down it holds the name and is sent the lobby list; a free name evicts nobody; the invariant holds in every case. For any number of seats the eviction takes this client down only if it shares the holder's room, and does if moreover its connection takes nothing more. |
| Relay.Server.Evict | server/c/src/intv-relay.c:850-853 | Afterwards the name is free for this client. For any number of seats: this client is lost only if it shares a room with the holder, and is if moreover its connection takes nothing more; unless the room goes on without the holder, exactly the holder and its room-mates without room for a note are lost. |
| Relay.Server.TakeName | server/c/src/intv-relay.c:854-866 | On the array: the old alias is deleted, the name overwritten in place or appended, and there is always room; the array then reads as the ordered map does. |
| Outcomes.NameOrder | server/c/src/intv-relay.c:854-866 | A new name is listed last and the old one goes; a client's own name keeps its place; the others keep their order. |
| Relay.Server.OnRelay | server/c/src/intv-relay.c:1249-1273 | Verbatim to the other members of a started room, to nobody otherwise: whoever is lost on the way, every room-mate that is not lost has exactly one more relayed frame and nobody outside the room has any; nobody is lost while the room's connections take another note. |
| Relay.FanoutInOrder | server/intv_relay_server.py:357-368 | The fold of a match's frames over its members' notes gives each member its room-mates' frames in order and none of its own. |
| Relay.RelayAll | server/c/src/intv-relay.c:1249-1273 | No frame of a match costs a member as long as connections take more notes than there are frames; then the notes are exactly that fold. |
| Relay.UncheckedHello | server/intv_relay_server.py:384-404 | Unless the holder's room goes on without it, which with two seats it never does, the table is wrong after an unchecked HELLO exactly when the name is another client's, that client is its room-mate, and its own connection takes nothing more; these are also exactly the HELLOs whose eviction takes their sender down. |
| Relay.Server.OnHelloUnchecked | server/intv_relay_server.py:384-404 | The Python handler itself, run on the tables, for any number of seats: the table is right afterwards exactly if the eviction did not take the sender down, and, unless the holder's room goes on, exactly if that condition on the state before the call does not hold. |
| Relay.UncheckedHelloBreaks | server/intv_relay_server.py:384-404 | Two players in a match, one of them with a full connection says HELLO under the other's name: both are lost, through the drop's own sends, and the table ends up with a dead client's name. |
| Histories.Serve | server/c/src/intv-relay.c:1249-1287 | Over any events in any order (connections, drops, stalls, every frame type, frames in other rooms, clients lost anywhere): the invariant holds in every state, and as long as a match goes on with the same members each has been given exactly the other members' frames, verbatim, in the order they came in. |
| Histories.OneSender | server/intv_relay_server.py:357-368 | Restricted to one sender those are all of a room-mate's frames in order, and none of the member's own or of anyone else. |
| Histories.WholeHistory | server/intv_relay_server.py:139-152 | From the empty server every state of every history satisfies the invariant. |
| Histories.Answer | server/c/src/intv-relay.c:1274-1287 | Each frame type has its own effect: HELLO evicts, names and lists or drops; LIST lists; JOIN and GO do what their handlers say; PING adds one PONG; BYE and everything unknown drops the sender. None of them makes any connected client hear a relayed frame, and the invariant is kept. |
| Kickoff.HelloBody | server/c/src/intv-relay.c:1274-1276 | A type byte 1 is a HELLO; a legal name with any padding is the name it says. |
| Kickoff.JoinBody | server/c/src/intv-relay.c:918-925 | A type byte 4 is a JOIN of the name in it, whatever the padding. |
| Kickoff.LongJoin | server/c/src/intv-relay.c:919-923 | A JOIN of more than eight characters joins nobody. |
| Kickoff.OtherBodies | server/c/src/intv-relay.c:1274-1290 | Type 2 is LIST, 15 GO, 12 PING, 6 to 9 are relayed; every other type drops its sender. |
| Kickoff.Deliver | server/c/src/intv-relay.c:717-759 | One frame, cut into reads anywhere, is handled exactly once, as the request its bytes spell; what follows it stays buffered. |
| Kickoff.BytesToMatch | server/intv_relay_server.py:384-472 | From an empty relay the bytes of two HELLOs, a JOIN and a GO, cut anywhere, end in a match of the two; each was sent the lobby as it stood, the roster of both and the START of its own seat. |
| Histories.Meet | server/intv_relay_server.py:384-472 | From the empty server two connections, two HELLOs, a JOIN and a GO lead to a match of two, one of which then stops reading. |
| Histories.UncheckedRun | server/intv_relay_server.py:384-404 | Continued with the unchecked HELLO, that run ends with a dead client's name in the table. |
| Traffic.Front.Serve | server/c/src/intv-relay.c:717-798 | Over any sequence of connections, reads of any size, stalls and closed sockets: every byte received is in a frame handled or still buffered, no whole frame waits, and as long as a match lasts its members were given exactly the frames the others' bytes spell. |
| Traffic.Front.Receive | server/c/src/intv-relay.c:717-759 | One read: appended, whole frames decoded and handled in order, each with the effect of the request its type byte names, dropped at a bad length, the rest discarded when the client goes. |
| Traffic.EndToEnd | server/c/src/intv-relay.c:1249-1273 | While a match lasts, the relayed frames written to a member are, one sender at a time, exactly the relayed frames of that room-mate's byte stream in order, and none come from elsewhere. |
| Traffic.BytePipe | server/c/src/intv-relay.c:1249-1273 | Between two that only say frames for each other the relay is a byte pipe: what it wrote to one, then what it still buffers of the other, is what it buffered at first, then every byte the other sent since. |
| Traffic.Through | server/c/src/intv-relay.c:415-462 | The same through a socket under any partial writes: bytes taken plus bytes queued are those frames, at most 64 KiB queued, and they read back as exactly those frames. |
| Traffic.WrittenRelays | server/c/src/intv-relay.c:457-462 | Every note is a whole frame of its own type, and the relayed types among the frames written are exactly the frames relayed. |
| Traffic.StartSays | server/c/src/intv-relay.c:999-1012 | START byte by byte: type, seat, count, seed low byte first, delay, every name in the slot of its seat and the other slots empty. |
| Traffic.RoomSays | server/c/src/intv-relay.c:578-589 | ROOM byte by byte: the count and the names in seat order. |
| Traffic.PeerLeftSays | server/c/src/intv-relay.c:668-687 | PEER_LEFT: the seat that was left and its player's name. |
| Traffic.LobbySays | server/c/src/intv-relay.c:885-904 | LOBBY: how many rows, and for each the name and the status byte. |
| Traffic.SaidIsParsed | server/intv_relay_server.py:336-354 | The frames handled and the bytes left are what the connection's whole byte stream parses to. |
| NameTable.ByName.Find | server/c/src/intv-relay.c:332-338 | The first entry of the name, or none. |
| NameTable.ByName.Set | server/c/src/intv-relay.c:340-352 | Overwritten in place or appended, as an insertion-ordered map does. |
| NameTable.ByName.DelAt | server/c/src/intv-relay.c:354-359 | The entry gone, the rest in order. |
| NameTable.ByName.DelClient | server/c/src/intv-relay.c:628-636 | Every alias of a client gone, the rest in order. |
| NameTable.RoomForName | server/c/src/intv-relay.c:345-348 | The array is never full when a client takes a name: once its old alias is gone every entry is another client's. |
| NameTable.ReadHello | server/c/src/intv-relay.c:799-843 | Exactly the payloads of version 2 with 2 to 8 characters A-Z0-9 before padding give a name. |
| NameTable.HelloRoundTrip | server/intv_relay_server.py:384-393 | A legal name with any NUL or space padding is read back. |
| NameTable.HelloSays | server/c/src/intv-relay.c:799-843 | Nothing else says a name: a payload that does is version 2, a name of 2 to 8 capital letters and digits, and NULs and spaces. |
| Outbox.OffersConserve | server/c/src/intv-relay.c:415-437 | Under any partial sends nothing is lost, reordered or duplicated. |
| Outbox.WillingSocketDrains | server/c/src/intv-relay.c:415-437 | A socket that always takes something empties the queue. |
| Outbox.StopsAt | server/c/src/intv-relay.c:415-437 | A flush ends at the first reply that takes nothing, unless the queue was empty by then: the rest stays queued, and the client is lost unless the socket only blocked. |
| Outbox.Client.Flush | server/c/src/intv-relay.c:415-437 | The loop offers the queue until it is empty, the socket blocks or it fails. |
| Outbox.Client.SendRaw | server/c/src/intv-relay.c:439-455 | Queued whole, or refused with a drop exactly when 64 KiB would be exceeded. |
| Outbox.SendMany | server/intv_relay_server.py:211-234 | Over any sends, bytes taken plus bytes queued are the bytes sent, and at most 64 KiB are queued. |

## Left out

- Gate, hold and mailbox timeouts: a console may drop at any point and then takes no step; that it plays on against idle input for the tick it is gated on, and its terminal screen, are not modelled.
- The game itself and the EXEC: a tick is an unknown function of the image and both seats' cells. The handler calls LS_VDISPATCH derives from those cells, LS_TBL_ADOPT and SS_INJECT are inside that function; that the cart's state outside the image does not feed back into it is assumed.
- Scripted and pseudo-random input of rig builds, the HUD, menus, rosters and the lobby screens: user interface and rig code. LOBBY, ROOM, PEER_LEFT and PONG are framed but not acted on.
- More than two consoles: the seat loops run over four seats, the protocol has two, which is the cart's limit.
- Wire and sockets: TCP is a FIFO of bytes; a read returns some prefix of what is waiting. A read that the peripheral completes after a timeout, which is what slips are for, appears only as arbitrary bytes in `Framing`.
- ConsoleRam.Console.Dispatch: its state image is the 770-byte view; the memory behind it is in `Machine`, tied by `WriteSplices`, `SumIsOfImage` and `ClampIsOfImage`. An INPUT or CRC frame whose tick is outside the windows, which no peer in a reachable state sends, is described on the cells only (`OnInput`, `OnCrc`).
- Link.Play: where a cart's program stands between two pumps is a variable of the cart; on the console it is the program counter.
- Fairness.FairReaches: nobody hangs up, and a console whose bytes have arrived reads them sooner or later.
- Delay.TooLong: its run is on unbounded ticks and rings; for a large d the 256 slots would wrap as well.
- Relay.Server.Send: how many more notes a connection takes is a number fixed outside the code; how a full backlog or a failing socket comes about is in `Outbox`, and `Traffic.Through` speaks of a socket that is still alive.
- Relay.Server.Evict: when a forming room of three or more goes on without the holder, who else is lost depends on the order of nested sends; both directions are bounded, not exact, there.
- Traffic.Front.Receive: buffers are sequences; the 256-byte array and its equivalence are in `Reassembly`.
- Relay.Server.Broadcast: like StartRoom and OnRelay it walks the C's snapshot of the members; the Python walks the live list, which a drop inside the loop shortens under it.
- Relay.Server.OnHelloUnchecked: it runs on the client slots of the C; the Python's dropped clients are objects that are never used again.
- Histories.Serve: the HELLO timeout sweep, a framing error and a closed socket are all the event `Leave`.
- Relay.Server.OnRelay: the checksum comparison a CRC frame triggers before it is relayed is in `CrcTable`.
- Reassembly.SameFrames: what handling a frame does to its own client is an unknown function of the bodies handled so far.
- CrcTable.CRoom.LogCrc: rows are values stored in an array; the order of the mismatch line's text is not modelled, its content is.
- Timers: a handler is the list of shim calls it makes. SS_QUIESCENT is the protocol's free `quiet` flag.
- Accept limits, per-IP caps, the HELLO timeout sweep, statistics, signals, arguments, log text: input and output, easy members.
- Protocol version 1 in the C relay: its reference is not part of this model.
- `lobby.c` and LobbyPublisher: HTTP and threads around one small string.
- The START seed and the random generator: a parameter.
- FujiNet mailbox transactions, echo and latency probes, sound, `$0102` freezing and the live vector's timing: hardware.
