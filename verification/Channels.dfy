/** What is in flight.  Each predicate plays a channel forward against the receiver's
    watermark and ring, and asks that the drained receiver holds exactly what the
    sender has captured: a conservation law, stated without counting frames. */
module Channels {
  import opened Protocol

  /** A receiver's view: `pos` is -1 outside a hold, else the image bytes applied. */
  datatype Rx = Rx(epoch: nat, pos: int, wm: int, got: map<int, Cell>)

  function RxOf(c: Con): Rx {
    Rx(Epoch(c), if c.hold then c.applied else -1, c.wm, c.remote)
  }

  function ChunkLen(pos: int): int { if IMAGE - pos < CHUNK then IMAGE - pos else CHUNK }

  /** Inside a push the receiver holds all inputs of the epoch that is ending. */
  ghost predicate InPush(d: int, eras: seq<Era>, rx: Rx) {
    && 0 <= rx.pos <= IMAGE && rx.epoch + 1 < |eras|
    && rx.got == eras[rx.epoch].sent && rx.wm < eras[rx.epoch + 1].base - LEAD + d
  }

  /** Host to guest: inputs in order within an epoch, then one whole push, then the
      next epoch.  `eras` and `next` are the host's. */
  ghost predicate ToGuest(d: int, eras: seq<Era>, next: int, rx: Rx, ch: seq<Msg>)
    decreases |ch|
  {
    && rx.epoch < |eras|
    && (rx.pos != -1 ==> InPush(d, eras, rx)) &&
    if ch == [] then
      rx.epoch == |eras| - 1 && rx.pos == -1 && rx.got == eras[rx.epoch].sent && rx.wm < next
    else
      ch[0].epoch == rx.epoch &&
      match ch[0].frame
      case Input(t, v) => rx.pos == -1 && t > rx.wm &&
        ToGuest(d, eras, next, rx.(wm := t, got := rx.got[t := v]), ch[1..])
      case Crc(t, _) => rx.pos == -1 && rx.wm <= t + d && ToGuest(d, eras, next, rx, ch[1..])
      case Begin(r) =>
        && rx.pos == -1 && rx.epoch + 1 < |eras| && r == eras[rx.epoch + 1].base
        && ToGuest(d, eras, next, rx.(pos := 0), ch[1..])
      case Chunk(pos, data) =>
        && rx.pos == pos && 0 <= pos < IMAGE && |data| == ChunkLen(pos)
        && data == eras[rx.epoch + 1].raw[pos..pos + |data|]
        && ToGuest(d, eras, next, rx.(pos := pos + |data|), ch[1..])
      case End =>
        && rx.pos == IMAGE
        && ToGuest(d, eras, next, Rx(rx.epoch + 1, -1, eras[rx.epoch + 1].base + d - 1, map[]), ch[1..])
      case Resync(_) => false
  }

  /** Ticks a host's watermark can gain on a frame for every epoch it moves ahead of it. */
  const DRIFT := 2 * LEAD - 1

  /** A frame about tick t of an epoch the host has left: at or behind the watermark,
      which no frame of the new epoch has moved yet, but not far behind. */
  predicate Stale(d: int, base: int, rx: Rx, epoch: nat, t: int) {
    epoch < rx.epoch && rx.wm == base + d - 1 && t <= rx.wm && rx.wm - t <= DRIFT * (rx.epoch - epoch)
  }

  /** Guest to host: frames of the host's own epoch in order; frames of an epoch the
      host has left are all at or behind its watermark.  `eras`, `next` are the guest's,
      `base` is where the host's epoch started. */
  ghost predicate ToHost(d: int, eras: seq<Era>, next: int, base: int, rx: Rx, ch: seq<Msg>)
    decreases |ch|
  {
    rx.pos == -1 && |eras| <= rx.epoch + 1 &&
    if ch == [] then
      if |eras| == rx.epoch + 1 then rx.got == eras[rx.epoch].sent && rx.wm < next
      else rx.got == map[] && rx.wm == base + d - 1
    else
      ch[0].epoch < |eras| &&
      match ch[0].frame
      case Input(t, v) =>
        if ch[0].epoch == rx.epoch
          then t > rx.wm && ToHost(d, eras, next, base, rx.(wm := t, got := rx.got[t := v]), ch[1..])
        else Stale(d, base, rx, ch[0].epoch, t) && ToHost(d, eras, next, base, rx, ch[1..])
      case Crc(t, _) =>
        && (if ch[0].epoch == rx.epoch then rx.wm <= t + d else t < base && Stale(d, base, rx, ch[0].epoch, t + d))
        && ToHost(d, eras, next, base, rx, ch[1..])
      case Resync(_) => ToHost(d, eras, next, base, rx, ch[1..])
      case _ => false
  }

  // ------------------------------------------------- what a sender may append

  lemma {:induction false} GuestCapNext(d: int, eras: seq<Era>, next: int, next': int, rx: Rx, ch: seq<Msg>)
    requires ToGuest(d, eras, next, rx, ch) && next <= next'
    ensures ToGuest(d, eras, next', rx, ch)
    decreases |ch|
  {
    if ch != [] {
      GuestCapNext(d, eras, next, next', AfterToGuest(d, eras, rx, ch[0].frame), ch[1..]);
    }
  }

  /** The receiver's view after one frame, on the frames ToGuest admits. */
  function AfterToGuest(d: int, eras: seq<Era>, rx: Rx, f: Frame): Rx
    requires f.End? ==> rx.epoch + 1 < |eras|
  {
    match f
    case Input(t, v) => rx.(wm := t, got := rx.got[t := v])
    case Begin(_) => rx.(pos := 0)
    case Chunk(pos, data) => rx.(pos := pos + |data|)
    case End => Rx(rx.epoch + 1, -1, eras[rx.epoch + 1].base + d - 1, map[])
    case _ => rx
  }

  lemma {:induction false} GuestGetsInput(d: int, eras: seq<Era>, t: int, v: Cell, rx: Rx, ch: seq<Msg>)
    requires |eras| > 0 && ToGuest(d, eras, t, rx, ch)
    ensures
      var e := |eras| - 1;
      ToGuest(d, eras[e := eras[e].(sent := eras[e].sent[t := v])], t + 1, rx, ch + [Msg(e, Input(t, v))])
    decreases |ch|
  {
    var e := |eras| - 1;
    var eras' := eras[e := eras[e].(sent := eras[e].sent[t := v])];
    var m := Msg(e, Input(t, v));
    if ch == [] {
      assert ch + [m] == [m] && [m][1..] == [];
    } else {
      assert (ch + [m])[0] == ch[0] && (ch + [m])[1..] == ch[1..] + [m];
      GuestGetsInput(d, eras, t, v, AfterToGuest(d, eras, rx, ch[0].frame), ch[1..]);
    }
  }

  lemma {:induction false} GuestGetsCrc(d: int, eras: seq<Era>, next: int, t: int, x: int, rx: Rx, ch: seq<Msg>)
    requires |eras| > 0 && ToGuest(d, eras, next, rx, ch) && next <= t + d + 1
    ensures ToGuest(d, eras, next, rx, ch + [Msg(|eras| - 1, Crc(t, x))])
    decreases |ch|
  {
    var m := Msg(|eras| - 1, Crc(t, x));
    if ch == [] {
      assert ch + [m] == [m] && [m][1..] == [];
    } else {
      assert (ch + [m])[0] == ch[0] && (ch + [m])[1..] == ch[1..] + [m];
      GuestGetsCrc(d, eras, next, t, x, AfterToGuest(d, eras, rx, ch[0].frame), ch[1..]);
    }
  }

  lemma {:induction false} GuestGetsPush(d: int, eras: seq<Era>, next: int, r: int, img: Image, rx: Rx, ch: seq<Msg>)
    requires |eras| > 0 && ToGuest(d, eras, next, rx, ch) && next == r - LEAD + d
    ensures ToGuest(d, eras + [Era(r, img, map[])], r + d, rx, ch + PushMsgs(|eras| - 1, r, img))
    decreases |ch|
  {
    hide PushMsgs;
    var push := PushMsgs(|eras| - 1, r, img);
    if ch == [] {
      assert ch + push == push;
      PushAlone(d, eras, next, r, img, rx);
    } else {
      assert (ch + push)[0] == ch[0] && (ch + push)[1..] == ch[1..] + push;
      GuestGetsPush(d, eras, next, r, img, AfterToGuest(d, eras, rx, ch[0].frame), ch[1..]);
    }
  }

  /** A push to a receiver that has everything before it. */
  lemma PushAlone(d: int, eras: seq<Era>, next: int, r: int, img: Image, rx: Rx)
    requires |eras| > 0 && ToGuest(d, eras, next, rx, []) && next == r - LEAD + d
    ensures ToGuest(d, eras + [Era(r, img, map[])], r + d, rx, PushMsgs(|eras| - 1, r, img))
  {
    hide Chunks;
    var e := |eras| - 1;
    var push := PushMsgs(e, r, img);
    assert push[1..] == Chunks(e, img, 0) + [Msg(e, End)];
    PushGood(d, eras + [Era(r, img, map[])], e, rx.(pos := 0), 0);
  }

  lemma {:induction false} PushGood(d: int, eras: seq<Era>, e: nat, rx: Rx, pos: nat)
    requires |eras| == e + 2 && rx.epoch == e && rx.pos == pos <= IMAGE && eras[e + 1].sent == map[]
    requires InPush(d, eras, rx)
    ensures ToGuest(d, eras, eras[e + 1].base + d, rx, Chunks(e, eras[e + 1].raw, pos) + [Msg(e, End)])
    decreases IMAGE - pos
  {
    var img := eras[e + 1].raw;
    if pos == IMAGE {
      assert Chunks(e, img, pos) + [Msg(e, End)] == [Msg(e, End)];
    } else {
      var n := ChunkLen(pos);
      var m := Msg(e, Chunk(pos, img[pos..pos + n]));
      var rest := Chunks(e, img, pos + n) + [Msg(e, End)];
      assert Chunks(e, img, pos) + [Msg(e, End)] == [m] + rest;
      assert ([m] + rest)[1..] == rest;
      PushGood(d, eras, e, rx.(pos := pos + n), pos + n);
    }
  }

  function AfterToHost(rx: Rx, m: Msg): Rx {
    match m.frame
    case Input(t, v) => if m.epoch == rx.epoch then rx.(wm := t, got := rx.got[t := v]) else rx
    case _ => rx
  }

  lemma {:induction false} HostCapNext(d: int, eras: seq<Era>, next: int, next': int, base: int, rx: Rx, ch: seq<Msg>)
    requires ToHost(d, eras, next, base, rx, ch) && next <= next'
    ensures ToHost(d, eras, next', base, rx, ch)
    decreases |ch|
  {
    if ch != [] {
      HostCapNext(d, eras, next, next', base, AfterToHost(rx, ch[0]), ch[1..]);
    }
  }

  lemma {:induction false} HostGetsInput(d: int, eras: seq<Era>, t: int, v: Cell, base: int, rx: Rx, ch: seq<Msg>)
    requires |eras| > 0 && ToHost(d, eras, t, base, rx, ch)
    requires |eras| <= rx.epoch ==> t < base + d <= t + 1 + DRIFT * (rx.epoch + 1 - |eras|)
    ensures
      var e := |eras| - 1;
      ToHost(d, eras[e := eras[e].(sent := eras[e].sent[t := v])], t + 1, base, rx, ch + [Msg(e, Input(t, v))])
    decreases |ch|
  {
    var m := Msg(|eras| - 1, Input(t, v));
    if ch == [] {
      assert ch + [m] == [m] && [m][1..] == [];
    } else {
      assert (ch + [m])[0] == ch[0] && (ch + [m])[1..] == ch[1..] + [m];
      HostGetsInput(d, eras, t, v, base, AfterToHost(rx, ch[0]), ch[1..]);
    }
  }

  lemma {:induction false} HostGetsNote(d: int, eras: seq<Era>, next: int, base: int, rx: Rx, ch: seq<Msg>, m: Msg)
    requires |eras| > 0 && ToHost(d, eras, next, base, rx, ch) && m.epoch == |eras| - 1
    requires m.frame.Resync? || m.frame.Crc?
    requires m.frame.Crc? ==>
      var t := m.frame.tick;
      if m.epoch == rx.epoch then next <= t + d + 1 else t < base <= t + 1 + DRIFT * (rx.epoch - m.epoch)
    ensures ToHost(d, eras, next, base, rx, ch + [m])
    decreases |ch|
  {
    if ch == [] {
      assert ch + [m] == [m] && [m][1..] == [];
    } else {
      assert (ch + [m])[0] == ch[0] && (ch + [m])[1..] == ch[1..] + [m];
      HostGetsNote(d, eras, next, base, AfterToHost(rx, ch[0]), ch[1..], m);
    }
  }

  /** The guest rebases: it opens an era the host has already opened. */
  lemma {:induction false} GuestRebased(d: int, eras: seq<Era>, next: int, era: Era, next': int, base: int, rx: Rx,
                                        ch: seq<Msg>)
    requires |eras| > 0 && ToHost(d, eras, next, base, rx, ch) && |eras| <= rx.epoch && era.sent == map[]
    requires |eras| == rx.epoch ==> next' >= base + d
    ensures ToHost(d, eras + [era], next', base, rx, ch)
    decreases |ch|
  {
    if ch != [] {
      GuestRebased(d, eras, next, era, next', base, AfterToHost(rx, ch[0]), ch[1..]);
    }
  }

  /** The host rebases at tick base' - LEAD: everything in flight to it becomes stale. */
  lemma {:induction false} HostRebased(d: int, eras: seq<Era>, next: int, base: int, wm: int, rx: Rx, base': int,
                                       ch: seq<Msg>)
    requires |eras| > 0 && ToHost(d, eras, next, base, rx, ch) && 0 <= d < LEAD
    requires wm <= rx.wm && base' <= wm + 1 + LEAD
    requires forall m <- ch :: m.frame.Input? ==> m.frame.tick < base' + d
    requires forall m <- ch :: m.frame.Crc? ==> m.frame.tick < base'
    ensures ToHost(d, eras, next, base', Rx(rx.epoch + 1, -1, base' + d - 1, map[]), ch)
    decreases |ch|
  {
    if ch != [] {
      assert ch[0] in ch;
      HostRebased(d, eras, next, base, wm, AfterToHost(rx, ch[0]), base', ch[1..]);
    }
  }

  // ------------------------------------------------- what a receiver can rely on

  /** The guest's ring agrees with what the host captured, up to the watermark. */
  lemma {:induction false} GuestRing(d: int, eras: seq<Era>, next: int, rx: Rx, ch: seq<Msg>)
    requires ToGuest(d, eras, next, rx, ch)
    requires forall k <- rx.got :: k <= rx.wm
    ensures forall k :: k <= rx.wm ==> Lookup(rx.got, k) == Lookup(eras[rx.epoch].sent, k)
    ensures rx.epoch == |eras| - 1 ==> rx.wm < next
    ensures rx.epoch < |eras| - 1 ==> rx.wm < eras[rx.epoch + 1].base - LEAD + d
    decreases |ch|
  {
    if rx.pos == -1 && ch != [] {
      GuestRing(d, eras, next, AfterToGuest(d, eras, rx, ch[0].frame), ch[1..]);
    }
  }

  /** The host's ring likewise; an input it has not accepted is one not captured yet. */
  lemma {:induction false} HostRing(d: int, eras: seq<Era>, next: int, base: int, rx: Rx, ch: seq<Msg>)
    requires ToHost(d, eras, next, base, rx, ch)
    requires forall k <- rx.got :: k <= rx.wm
    ensures
      var sent := if rx.epoch < |eras| then eras[rx.epoch].sent else map[];
      forall k :: k <= rx.wm ==> Lookup(rx.got, k) == Lookup(sent, k)
    ensures if rx.epoch < |eras| then rx.wm < next else rx.wm == base + d - 1
    decreases |ch|
  {
    if ch != [] {
      var rx' := AfterToHost(rx, ch[0]);
      HostRing(d, eras, next, base, rx', ch[1..]);
      assert forall k :: k <= rx.wm ==> Lookup(rx.got, k) == Lookup(rx'.got, k);
    }
  }

  /** What delivering one frame needs to know about it, and leaves behind. */
  lemma GuestStep(d: int, eras: seq<Era>, next: int, rx: Rx, ch: seq<Msg>)
    requires ToGuest(d, eras, next, rx, ch) && ch != []
    ensures
      var f := ch[0].frame;
      && !f.Resync? && rx.epoch < |eras| && ch[0].epoch == rx.epoch
      && (f.Input? ==> rx.pos == -1 && f.tick > rx.wm)
      && (f.Crc? ==> rx.pos == -1 && rx.wm <= f.tick + d)
      && (f.Begin? ==> rx.pos == -1)
      && (f.Begin? ==> rx.epoch + 1 < |eras| && f.resume == eras[rx.epoch + 1].base)
      && (f.Chunk? ==> 0 <= rx.pos == f.pos && |f.data| == ChunkLen(f.pos) && InPush(d, eras, rx)
                       && f.pos + |f.data| <= IMAGE && f.data == eras[rx.epoch + 1].raw[f.pos..f.pos + |f.data|])
      && (f.End? ==> rx.pos == IMAGE && InPush(d, eras, rx))
      && ToGuest(d, eras, next, AfterToGuest(d, eras, rx, f), ch[1..])
  {
  }

  lemma HostStep(d: int, eras: seq<Era>, next: int, base: int, rx: Rx, ch: seq<Msg>)
    requires ToHost(d, eras, next, base, rx, ch) && ch != []
    ensures
      var f := ch[0].frame;
      && rx.pos == -1 && ch[0].epoch < |eras| <= rx.epoch + 1
      && (f.Input? || f.Crc? || f.Resync?)
      && (f.Input? ==> if ch[0].epoch == rx.epoch then f.tick > rx.wm else Stale(d, base, rx, ch[0].epoch, f.tick))
      && (f.Crc? ==>
            if ch[0].epoch == rx.epoch then rx.wm <= f.tick + d
            else f.tick < base && Stale(d, base, rx, ch[0].epoch, f.tick + d))
      && ToHost(d, eras, next, base, AfterToHost(rx, ch[0]), ch[1..])
  {
  }
}
