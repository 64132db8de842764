/** The relay's reassembly of a client's byte stream: the C relay's 256-byte buffer against
    the Python server's growing one. */
module Reassembly {
  import opened Protocol
  import opened Framing

  const RX_CAP := 256
  const MAX_BODY := 200

  datatype Fate = Alive | BadLength(len: Byte) | Killed | Overflow

  /** One client: bytes not yet taken, frame bodies handled so far, and what became of it. */
  datatype Reader = Reader(rx: seq<Byte>, out: seq<seq<Byte>>, fate: Fate)

  /** What handling a body may do to the client itself: drop it, or not, depending on
      everything handled so far.  The rest of the server is behind this function. */
  type Handler = seq<seq<Byte>> -> bool

  /** The loop both servers share: the length is judged before completeness. */
  function Drain(fatal: Handler, r: Reader): Reader
    decreases |r.rx|
  {
    if !r.fate.Alive? || r.rx == [] then r
    else if r.rx[0] == 0 || r.rx[0] > MAX_BODY then r.(fate := BadLength(r.rx[0]))
    else if |r.rx| < r.rx[0] as int + 1 then r
    else
      var n := r.rx[0] as int + 1;
      var out := r.out + [r.rx[1..n]];
      Drain(fatal, Reader(r.rx[n..], out, if fatal(out) then Killed else Alive))
  }

  /** Python: the whole read is appended first. */
  function Served(fatal: Handler, r: Reader, data: seq<Byte>): Reader {
    Drain(fatal, r.(rx := r.rx + data))
  }

  /** C: as much as fits, then drain, then the rest. */
  function Fed(fatal: Handler, r: Reader, data: seq<Byte>): Reader
    decreases |data|
  {
    if data == [] || !r.fate.Alive? then r
    else if |r.rx| >= RX_CAP then r.(fate := Overflow)
    else
      var take := if |data| < RX_CAP - |r.rx| then |data| else RX_CAP - |r.rx|;
      Fed(fatal, Drain(fatal, r.(rx := r.rx + data[..take])), data[take..])
  }

  /** A stream of reads, by either server. */
  function ServedAll(fatal: Handler, r: Reader, parts: seq<seq<Byte>>): Reader
    decreases |parts|
  {
    if parts == [] || !r.fate.Alive? then r else ServedAll(fatal, Served(fatal, r, parts[0]), parts[1..])
  }

  function FedAll(fatal: Handler, r: Reader, parts: seq<seq<Byte>>): Reader
    decreases |parts|
  {
    if parts == [] || !r.fate.Alive? then r else FedAll(fatal, Fed(fatal, r, parts[0]), parts[1..])
  }

  /** The same to the rest of the server: what a dropped client still buffers is discarded. */
  predicate Same(a: Reader, b: Reader) {
    a.out == b.out && a.fate == b.fate && (a.fate.Alive? ==> a.rx == b.rx)
  }

  /** What a live client has left is an incomplete frame. */
  predicate Settled(r: Reader) {
    r.rx == [] || (1 <= r.rx[0] <= MAX_BODY && |r.rx| <= r.rx[0])
  }

  lemma {:induction false} DrainSettles(fatal: Handler, r: Reader)
    ensures var d := Drain(fatal, r); d.fate.Alive? ==> Settled(d)
    ensures Drain(fatal, r).fate.Overflow? ==> r.fate.Overflow?
    decreases |r.rx|
  {
    if r.fate.Alive? && r.rx != [] && 1 <= r.rx[0] <= MAX_BODY && |r.rx| > r.rx[0] as int {
      var n := r.rx[0] as int + 1;
      var out := r.out + [r.rx[1..n]];
      DrainSettles(fatal, Reader(r.rx[n..], out, if fatal(out) then Killed else Alive));
    }
  }

  /** Draining early makes no difference. */
  lemma {:induction false} DrainMore(fatal: Handler, r: Reader, b: seq<Byte>)
    requires r.fate.Alive?
    ensures
      var d := Drain(fatal, r);
      Same(Drain(fatal, r.(rx := r.rx + b)), if d.fate.Alive? then Drain(fatal, d.(rx := d.rx + b)) else d)
    decreases |r.rx|
  {
    if r.rx != [] && 1 <= r.rx[0] <= MAX_BODY && |r.rx| > r.rx[0] as int {
      var n := r.rx[0] as int + 1;
      var out := r.out + [r.rx[1..n]];
      var next := Reader(r.rx[n..], out, if fatal(out) then Killed else Alive);
      assert (r.rx + b)[1..n] == r.rx[1..n] && (r.rx + b)[n..] == r.rx[n..] + b;
      if next.fate.Alive? { DrainMore(fatal, next, b); }
    }
  }

  /** THEOREM.  One read: the 256-byte buffer hands on the same bodies and drops for the same
      reason as the growing one, and it never overflows. */
  lemma {:induction false} FeedIsService(fatal: Handler, r: Reader, data: seq<Byte>)
    requires r.fate.Alive? && Settled(r)
    ensures Same(Fed(fatal, r, data), Served(fatal, r, data))
    ensures !Fed(fatal, r, data).fate.Overflow?
    ensures Fed(fatal, r, data).fate.Alive? ==> Settled(Fed(fatal, r, data))
    decreases |data|
  {
    hide Drain;
    if data == [] {
      assert r.rx + data == r.rx;
      SettledStays(fatal, r);
    } else {
      var take := if |data| < RX_CAP - |r.rx| then |data| else RX_CAP - |r.rx|;
      var mid := r.(rx := r.rx + data[..take]);
      assert r.rx + data == mid.rx + data[take..];
      DrainMore(fatal, mid, data[take..]);
      DrainSettles(fatal, mid);
      if Drain(fatal, mid).fate.Alive? {
        FeedIsService(fatal, Drain(fatal, mid), data[take..]);
      }
    }
  }

  lemma SettledStays(fatal: Handler, r: Reader)
    requires Settled(r)
    ensures Drain(fatal, r) == r
  {
  }

  lemma {:induction false} ServedStream(fatal: Handler, r: Reader, parts: seq<seq<Byte>>)
    requires r.fate.Alive? && Settled(r)
    ensures Same(ServedAll(fatal, r, parts), Served(fatal, r, Join(parts)))
    decreases |parts|
  {
    hide Drain;
    if parts == [] {
      assert r.rx + Join(parts) == r.rx;
      SettledStays(fatal, r);
    } else {
      var mid := r.(rx := r.rx + parts[0]);
      assert r.rx + Join(parts) == mid.rx + Join(parts[1..]);
      DrainMore(fatal, mid, Join(parts[1..]));
      DrainSettles(fatal, mid);
      if Drain(fatal, mid).fate.Alive? { ServedStream(fatal, Drain(fatal, mid), parts[1..]); }
    }
  }

  lemma {:induction false} FedStream(fatal: Handler, r: Reader, parts: seq<seq<Byte>>)
    requires r.fate.Alive? && Settled(r)
    ensures Same(FedAll(fatal, r, parts), ServedAll(fatal, r, parts))
    ensures !FedAll(fatal, r, parts).fate.Overflow?
    decreases |parts|
  {
    hide Drain, Fed;
    if parts != [] {
      FeedIsService(fatal, r, parts[0]);
      if Fed(fatal, r, parts[0]).fate.Alive? {
        FedStream(fatal, Fed(fatal, r, parts[0]), parts[1..]);
      }
    }
  }

  /** THEOREM.  For every byte stream, however each server's reads happen to cut it, the C
      relay and the Python server hand on the same frame bodies in the same order and drop the
      client for the same bad length or not at all; "rx overflow" never happens. */
  lemma SameFrames(fatal: Handler, cParts: seq<seq<Byte>>, pyParts: seq<seq<Byte>>)
    requires Join(cParts) == Join(pyParts)
    ensures
      var start := Reader([], [], Alive);
      && Same(FedAll(fatal, start, cParts), ServedAll(fatal, start, pyParts))
      && !FedAll(fatal, start, cParts).fate.Overflow?
  {
    hide Drain, Fed, ServedAll, FedAll, Join;
    var start := Reader([], [], Alive);
    FedStream(fatal, start, cParts);
    ServedStream(fatal, start, cParts);
    ServedStream(fatal, start, pyParts);
  }

  /** Bodies, each with its length in front. */
  function Stream(bodies: seq<seq<Byte>>): seq<Byte> {
    if bodies == [] then [] else [|bodies[0]| % 256] + bodies[0] + Stream(bodies[1..])
  }

  /** Nothing handled drops the client. */
  function Mild(handled: seq<seq<Byte>>): bool { false }

  /** A length that drops the sender. */
  predicate Bad(tail: seq<Byte>) { tail != [] && (tail[0] == 0 || tail[0] > 200) }

  /** THEOREM.  What a stream says to a client that nothing else drops: the bodies of 1 to 200 bytes
      at its front, in order and however it is cut into reads, and then a length of zero or beyond
      200 drops it, or an incomplete frame waits. */
  lemma StreamMeans(bodies: seq<seq<Byte>>, tail: seq<Byte>, parts: seq<seq<Byte>>)
    requires (forall b <- bodies :: 1 <= |b| <= 200) && (Bad(tail) || tail == [] || |tail| <= tail[0] as int)
    requires Join(parts) == Stream(bodies) + tail
    ensures
      var end := FedAll(Mild, Reader([], [], Alive), parts);
      && end.out == bodies && end.fate == (if Bad(tail) then BadLength(tail[0]) else Alive)
      && (!Bad(tail) ==> end.rx == tail)
  {
    hide Drain, Fed, ServedAll, FedAll, Join, Stream;
    var start := Reader([], [], Alive);
    assert start.rx + Join(parts) == Stream(bodies) + tail;
    FedStream(Mild, start, parts);
    ServedStream(Mild, start, parts);
    assert Served(Mild, start, Join(parts)) == Drain(Mild, start.(rx := Stream(bodies) + tail));
    DrainStream(bodies, tail, []);
  }

  lemma {:induction false} DrainStream(bodies: seq<seq<Byte>>, tail: seq<Byte>, before: seq<seq<Byte>>)
    requires (forall b <- bodies :: 1 <= |b| <= 200) && (Bad(tail) || tail == [] || |tail| <= tail[0] as int)
    ensures Drain(Mild, Reader(Stream(bodies) + tail, before, Alive)) ==
      Reader(tail, before + bodies, if Bad(tail) then BadLength(tail[0]) else Alive)
    decreases |bodies|
  {
    hide Drain, Bad;
    if bodies == [] {
      assert Stream(bodies) + tail == tail && before + bodies == before;
      DrainEnd(tail, before);
    } else {
      var b, rest := bodies[0], bodies[1..];
      assert b in bodies && forall c <- rest :: c in bodies;
      StreamFirst(bodies, tail);
      DrainOne(b, Stream(rest) + tail, before);
      DrainStream(rest, tail, before + [b]);
      assert before + [b] + rest == before + bodies;
    }
  }

  lemma StreamFirst(bodies: seq<seq<Byte>>, tail: seq<Byte>)
    requires bodies != []
    ensures Stream(bodies) + tail == [|bodies[0]| % 256] + bodies[0] + (Stream(bodies[1..]) + tail)
  {
  }

  lemma DrainOne(b: seq<Byte>, rest: seq<Byte>, before: seq<seq<Byte>>)
    requires 1 <= |b| <= 200
    ensures Drain(Mild, Reader([|b| % 256] + b + rest, before, Alive)) ==
      Drain(Mild, Reader(rest, before + [b], Alive))
  {
    var rx, n := [|b| % 256] + b + rest, |b| + 1;
    assert rx[0] == |b| && rx[1..n] == b && rx[n..] == rest;
  }

  lemma DrainEnd(tail: seq<Byte>, before: seq<seq<Byte>>)
    requires Bad(tail) || tail == [] || |tail| <= tail[0] as int
    ensures Drain(Mild, Reader(tail, before, Alive)) ==
      Reader(tail, before, if Bad(tail) then BadLength(tail[0]) else Alive)
  {
  }

  // ---------------------------------------------------------------- the C relay's buffer

  lemma SameSlice(a: array<Byte>, k: nat, n: nat)
    requires 1 <= k <= n <= a.Length
    ensures a[1..k] == a[..n][1..k]
  {
    assert forall i :: 0 <= i < k - 1 ==> a[1..k][i] == a[1 + i];
    assert forall i :: 0 <= i < k - 1 ==> a[..n][1..k][i] == a[1 + i];
  }

  class Client {
    const rx: array<Byte>
    var rxLen: nat
    var out: seq<seq<Byte>> // bodies handed to the protocol
    var fate: Fate

    predicate Valid()
      reads this
    {
      rx.Length == RX_CAP && rxLen <= RX_CAP
    }

    function Now(): Reader
      requires Valid()
      reads this, rx
    {
      Reader(rx[..rxLen], out, fate)
    }

    constructor ()
      ensures Valid() && Now() == Reader([], [], Alive) && fresh(rx)
    {
      rx := new Byte[RX_CAP](_ => 0);
      rxLen, out, fate := 0, [], Alive;
    }

    /** memcpy to the end of the buffer. */
    method Append(data: seq<Byte>)
      requires Valid() && rxLen + |data| <= RX_CAP
      modifies `rxLen, rx
      ensures Valid() && rx[..rxLen] == old(rx[..rxLen]) + data
    {
      var i := 0;
      ghost var before := rx[..rxLen];
      while i < |data|
        invariant 0 <= i <= |data| && rxLen == old(rxLen)
        invariant rx[..rxLen + i] == before + data[..i]
      {
        rx[rxLen + i] := data[i];
        i := i + 1;
      }
      assert data[..i] == data;
      rxLen := rxLen + |data|;
    }

    /** memmove the rest over the first n bytes. */
    method Shift(n: nat)
      requires Valid() && n <= rxLen
      modifies `rxLen, rx
      ensures Valid() && rx[..rxLen] == old(rx[..rxLen])[n..]
    {
      ghost var before := rx[..rxLen];
      var i := 0;
      while i < rxLen - n
        invariant 0 <= i <= rxLen - n && rxLen == old(rxLen)
        invariant rx[..i] == before[n..n + i] && rx[i..rxLen] == before[i..]
      {
        assert rx[n + i] == rx[i..rxLen][n];
        rx[i] := rx[n + i];
        i := i + 1;
      }
      rxLen := rxLen - n;
    }

    /** The inner loop of feed. */
    method DrainBuffer(fatal: Handler)
      requires Valid() && fate.Alive?
      modifies this, rx
      ensures Valid() && Now() == Drain(fatal, old(Now()))
    {
      ghost var start := Now();
      while true
        invariant Valid() && fate.Alive? && Drain(fatal, start) == Drain(fatal, Now())
        decreases rxLen
      {
        if rxLen == 0 {
          break;
        }
        var lenb := rx[0];
        var need := lenb as int + 1;
        if need < 2 || lenb > MAX_BODY {
          fate := BadLength(lenb);
          return;
        }
        if rxLen < need {
          break;
        }
        ghost var r := Now();
        var body := rx[1..need];
        assert body == r.rx[1..need] by { SameSlice(rx, need, rxLen); }
        Shift(need);
        out := out + [body];
        if fatal(out) {
          fate := Killed;
          return;
        }
      }
    }

    /** feed. */
    method Feed(fatal: Handler, data: seq<Byte>)
      requires Valid() && fate.Alive?
      modifies this, rx
      ensures Valid() && Now() == Fed(fatal, old(Now()), data)
    {
      hide Drain;
      var p := data;
      ghost var start := Now();
      while p != []
        invariant Valid() && fate.Alive? && Fed(fatal, start, data) == Fed(fatal, Now(), p)
        decreases |p|
      {
        var space := RX_CAP - rxLen;
        if space == 0 {
          fate := Overflow;
          return;
        }
        var take := if |p| < space then |p| else space;
        Append(p[..take]);
        p := p[take..];
        DrainBuffer(fatal);
        if !fate.Alive? {
          return;
        }
      }
    }
  }

  // ---------------------------------------------------------------- the Python server's buffer

  class PyClient {
    var rx: seq<Byte>
    var out: seq<seq<Byte>>
    var fate: Fate

    function Now(): Reader
      reads this
    {
      Reader(rx, out, fate)
    }

    /** service, after its recv. */
    method Service(fatal: Handler, data: seq<Byte>)
      requires fate.Alive?
      modifies this
      ensures Now() == Served(fatal, old(Now()), data)
    {
      rx := rx + data;
      ghost var start := Now();
      while true
        invariant fate.Alive? && Drain(fatal, start) == Drain(fatal, Now())
        decreases |rx|
      {
        if rx == [] {
          return;
        }
        var need := rx[0] as int + 1;
        if need < 2 || rx[0] > MAX_BODY {
          fate := BadLength(rx[0]);
          return;
        }
        if |rx| < need {
          return;
        }
        var body := rx[1..need];
        rx := rx[need..];
        out := out + [body];
        if fatal(out) {
          fate := Killed;
          return;
        }
      }
    }
  }
}
