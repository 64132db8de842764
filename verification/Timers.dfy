/** The five virtualized timer entries: an arm flag and a countdown each, decremented once
    a game tick, and the shims that arm and stop them. */
module Timers {
  const ENTRIES := 5

  /** SS_INT1-5. */
  function Interval(i: int): (n: int)
    requires 0 <= i < ENTRIES
    ensures 1 < n < 256
  {
    if i == 0 then 0x10 else if i == 1 then 0x2D else if i == 2 then 0x0A else if i == 3 then 0x02 else 0x50
  }

  type Count = c: int | 0 <= c < 256
  type Arms = a: seq<bool> | |a| == ENTRIES witness seq(ENTRIES, _ => false)
  type Counts = c: seq<Count> | |c| == ENTRIES witness seq(ENTRIES, _ => 0)
  datatype Timers = Timers(arm: Arms, cnt: Counts)

  datatype Call = Arm(i: int) | Stop(i: int)
  type Shim = c: Call | 0 <= c.i < ENTRIES witness Stop(0)

  /** One call of a shim; arming seeds the full interval. */
  function Called(t: Timers, c: Shim): Timers {
    match c
    case Arm(i) => Timers(t.arm[i := true], t.cnt[i := Interval(i)])
    case Stop(i) => t.(arm := t.arm[i := false])
  }

  function CalledAll(t: Timers, cs: seq<Shim>): Timers
    decreases |cs|
  {
    if cs == [] then t else CalledAll(Called(t, cs[0]), cs[1..])
  }

  /** A tick's handlers, by entry: the shim calls each makes if it runs. */
  type Handlers = h: seq<seq<Shim>> | |h| == ENTRIES witness seq(ENTRIES, _ => [])

  /** An 8-bit cell decremented. */
  function Less(c: Count): Count { if c == 0 then 0xFF else c - 1 }

  /** One entry's turn: its handler runs when the countdown reaches 0, and only then is the
      countdown reloaded. */
  function Turn(t: Timers, i: int, cs: seq<Shim>): (Timers, bool)
    requires 0 <= i < ENTRIES
  {
    if !t.arm[i] then (t, false)
    else if t.cnt[i] == 1 then
      var r := CalledAll(t, cs);
      (r.(cnt := r.cnt[i := Interval(i)]), true)
    else (t.(cnt := t.cnt[i := Less(t.cnt[i])]), false)
  }

  /** Entries i and on; the result lists the entries that fire, in table order. */
  function TickFrom(t: Timers, i: nat, h: Handlers): (Timers, seq<int>)
    requires i <= ENTRIES
    decreases ENTRIES - i
  {
    if i == ENTRIES then (t, [])
    else
      var (u, fired) := Turn(t, i, h[i]);
      var (r, rest) := TickFrom(u, i + 1, h);
      (r, (if fired then [i] else []) + rest)
  }

  datatype Event = Tick(h: Handlers) | Shim(call: Shim)

  function After(t: Timers, e: Event): Timers {
    match e
    case Tick(h) => TickFrom(t, 0, h).0
    case Shim(c) => Called(t, c)
  }

  predicate Fires(t: Timers, e: Event, i: int) { e.Tick? && i in TickFrom(t, 0, e.h).1 }

  function End(t: Timers, es: seq<Event>): Timers
    decreases |es|
  {
    if es == [] then t else End(After(t, es[0]), es[1..])
  }

  function FireCount(t: Timers, es: seq<Event>, i: int): nat
    decreases |es|
  {
    if es == [] then 0 else (if Fires(t, es[0], i) then 1 else 0) + FireCount(After(t, es[0]), es[1..], i)
  }

  function TickCount(es: seq<Event>): nat {
    if es == [] then 0 else (if es[0].Tick? then 1 else 0) + TickCount(es[1..])
  }

  /** Every countdown is in 1..interval. */
  ghost predicate InRange(t: Timers) {
    forall i :: 0 <= i < ENTRIES ==> 1 <= t.cnt[i] <= Interval(i)
  }

  /** No shim call in the event names entry i. */
  ghost predicate Spares(cs: seq<Shim>, i: int) { forall c <- cs :: c.i != i }
  ghost predicate Undisturbed(e: Event, i: int) {
    match e
    case Tick(h) => forall j :: 0 <= j < ENTRIES ==> Spares(h[j], i)
    case Shim(c) => c.i != i
  }

  // ---------------------------------------------------------------- the cells

  const SLOT1 := 0x5020 // the original header table's slot addresses, four apart

  function EntryOf(slot: int): (i: int)
    ensures 0 <= i < ENTRIES
  {
    if slot == SLOT1 then 0 else if slot == SLOT1 + 4 then 1 else if slot == SLOT1 + 8 then 2
    else if slot == SLOT1 + 12 then 3 else 4 // the only remaining case
  }

  class TimerRam {
    const arm: array<bool>
    const cnt: array<Count>

    predicate Valid() { arm.Length == cnt.Length == ENTRIES }

    function Now(): Timers
      requires Valid()
      reads arm, cnt
    {
      Timers(arm[..], cnt[..])
    }

    /** NET_START: nothing armed, every countdown full. */
    constructor ()
      ensures Valid() && InRange(Now()) && Now().arm == seq(ENTRIES, _ => false)
      ensures forall i :: 0 <= i < ENTRIES ==> Now().cnt[i] == Interval(i)
    {
      arm := new bool[ENTRIES](_ => false);
      cnt := new Count[ENTRIES](i requires 0 <= i < ENTRIES => Interval(i));
    }

    /** SS_ARM_SHIM. */
    method ArmShim(slot: int)
      requires Valid()
      modifies arm, cnt
      ensures Now() == Called(old(Now()), Arm(EntryOf(slot)))
    {
      var i := EntryOf(slot);
      arm[i] := true;
      cnt[i] := Interval(i);
    }

    /** SS_STOP_SHIM. */
    method StopShim(slot: int)
      requires Valid()
      modifies arm
      ensures Now() == Called(old(Now()), Stop(EntryOf(slot)))
    {
      arm[EntryOf(slot)] := false;
    }

    /** A handler's own calls of the shims. */
    method Handler(cs: seq<Shim>)
      requires Valid()
      modifies arm, cnt
      ensures Now() == CalledAll(old(Now()), cs)
    {
      var k := 0;
      ghost var t := Now();
      while k < |cs|
        invariant 0 <= k <= |cs|
        invariant CalledAll(t, cs) == CalledAll(Now(), cs[k..])
      {
        if cs[k].Arm? { ArmShim(SLOT1 + 4 * cs[k].i); } else { StopShim(SLOT1 + 4 * cs[k].i); }
        k := k + 1;
      }
    }

    /** One entry of SS_GAME_TICK. */
    method EntryTurn(i: int, cs: seq<Shim>) returns (fired: bool)
      requires Valid() && 0 <= i < ENTRIES
      modifies arm, cnt
      ensures (Now(), fired) == Turn(old(Now()), i, cs)
    {
      fired := false;
      if arm[i] {
        var c := Less(cnt[i]);
        if c == 0 {
          Handler(cs);
          fired, c := true, Interval(i);
        }
        cnt[i] := c;
      }
    }

    /** SS_GAME_TICK: the five entries in table order. */
    method GameTick(h: Handlers) returns (fired: seq<int>)
      requires Valid()
      modifies arm, cnt
      ensures (Now(), fired) == TickFrom(old(Now()), 0, h)
    {
      hide Turn;
      var f0 := EntryTurn(0, h[0]);
      ghost var t1 := Now();
      var f1 := EntryTurn(1, h[1]);
      ghost var t2 := Now();
      var f2 := EntryTurn(2, h[2]);
      ghost var t3 := Now();
      var f3 := EntryTurn(3, h[3]);
      ghost var t4 := Now();
      var f4 := EntryTurn(4, h[4]);
      fired := (if f0 then [0] else []) + ((if f1 then [1] else []) + ((if f2 then [2] else [])
               + ((if f3 then [3] else []) + ((if f4 then [4] else []) + []))));
      assert TickFrom(Now(), 5, h) == (Now(), []);
      assert TickFrom(t4, 4, h) == (Now(), (if f4 then [4] else []) + []);
      assert TickFrom(t3, 3, h).0 == Now();
      assert TickFrom(t2, 2, h).0 == Now();
      assert TickFrom(t1, 1, h).0 == Now();
    }
  }

  // ---------------------------------------------------------------- invariants

  lemma {:induction false} CalledAllRange(t: Timers, cs: seq<Shim>)
    requires InRange(t)
    ensures InRange(CalledAll(t, cs))
    decreases |cs|
  {
    if cs != [] { CalledAllRange(Called(t, cs[0]), cs[1..]); }
  }

  lemma TurnRange(t: Timers, i: int, cs: seq<Shim>)
    requires InRange(t) && 0 <= i < ENTRIES
    ensures InRange(Turn(t, i, cs).0)
  {
    CalledAllRange(t, cs);
  }

  lemma {:induction false} TickRange(t: Timers, i: nat, h: Handlers)
    requires InRange(t) && i <= ENTRIES
    ensures InRange(TickFrom(t, i, h).0)
    decreases ENTRIES - i
  {
    hide Turn, InRange;
    if i < ENTRIES {
      TurnRange(t, i, h[i]);
      TickRange(Turn(t, i, h[i]).0, i + 1, h);
    }
  }

  /** THEOREM.  Between events every countdown is in 1..interval, whatever the handlers do. */
  lemma {:induction false} CountdownsInRange(t: Timers, es: seq<Event>)
    requires InRange(t)
    ensures InRange(End(t, es))
    decreases |es|
  {
    hide TickFrom;
    if es != [] {
      if es[0].Tick? { TickRange(t, 0, es[0].h); }
      CountdownsInRange(After(t, es[0]), es[1..]);
    }
  }

  /** Entry numbers from `lo` on, strictly ascending. */
  predicate Ascending(s: seq<int>, lo: int)
    decreases |s|
  {
    s == [] || (lo <= s[0] < ENTRIES && Ascending(s[1..], s[0] + 1))
  }

  lemma AscendingMore(s: seq<int>, i: int)
    requires Ascending(s, i + 1) && i < ENTRIES
    ensures Ascending([] + s, i) && Ascending([i] + s, i)
  {
    assert [] + s == s && ([i] + s)[1..] == s;
  }

  /** THEOREM.  A tick fires entries in table order, each at most once. */
  lemma {:induction false} TableOrder(t: Timers, i: nat, h: Handlers)
    requires i <= ENTRIES
    ensures Ascending(TickFrom(t, i, h).1, i)
    decreases ENTRIES - i
  {
    hide Turn;
    if i < ENTRIES {
      var u := Turn(t, i, h[i]).0;
      TableOrder(u, i + 1, h);
      AscendingMore(TickFrom(u, i + 1, h).1, i);
    }
  }

  // ---------------------------------------------------------------- one entry, left alone

  lemma {:induction false} CallsSpare(t: Timers, cs: seq<Shim>, i: int)
    requires 0 <= i < ENTRIES && Spares(cs, i)
    ensures CalledAll(t, cs).arm[i] == t.arm[i] && CalledAll(t, cs).cnt[i] == t.cnt[i]
    decreases |cs|
  {
    if cs != [] {
      assert cs[0] in cs;
      CallsSpare(Called(t, cs[0]), cs[1..], i);
    }
  }

  lemma TurnSpares(t: Timers, j: int, cs: seq<Shim>, i: int)
    requires 0 <= i < ENTRIES && 0 <= j < ENTRIES && Spares(cs, i)
    ensures
      var (u, fired) := Turn(t, j, cs);
      && u.arm[i] == t.arm[i]
      && (i != j ==> u.cnt[i] == t.cnt[i])
      && (i == j ==> fired == (t.arm[i] && t.cnt[i] == 1))
      && (i == j && t.arm[i] ==> u.cnt[i] == if t.cnt[i] == 1 then Interval(i) else Less(t.cnt[i]))
      && (i == j && !t.arm[i] ==> u.cnt[i] == t.cnt[i])
  {
    CallsSpare(t, cs, i);
  }

  /** What a tick does to an entry no handler touches. */
  lemma {:induction false} TickSpares(t: Timers, k: nat, h: Handlers, i: int)
    requires 0 <= i < ENTRIES && k <= ENTRIES && forall j :: 0 <= j < ENTRIES ==> Spares(h[j], i)
    ensures
      var (u, fired) := TickFrom(t, k, h);
      && u.arm[i] == t.arm[i]
      && (i < k || !t.arm[i] ==> u.cnt[i] == t.cnt[i] && i !in fired)
      && (k <= i && t.arm[i] ==>
            && u.cnt[i] == (if t.cnt[i] == 1 then Interval(i) else Less(t.cnt[i]))
            && (i in fired <==> t.cnt[i] == 1))
    decreases ENTRIES - k
  {
    hide Turn, Spares;
    if k < ENTRIES {
      TurnSpares(t, k, h[k], i);
      TickSpares(Turn(t, k, h[k]).0, k + 1, h, i);
    }
  }

  /** How often an entry fires in n armed ticks. */
  function Firings(c: int, interval: int, n: nat): int
    requires interval > 0
  {
    if n < c then 0 else 1 + (n - c) / interval
  }

  lemma FiringStep(c: int, i: int, n: nat)
    requires 0 <= i < ENTRIES && 1 <= c <= Interval(i)
    ensures Firings(c, Interval(i), n + 1)
         == if c == 1 then 1 + Firings(Interval(i), Interval(i), n) else Firings(c - 1, Interval(i), n)
  {
    if i == 0 {
      assert Interval(i) == 0x10;
    } else if i == 1 {
      assert Interval(i) == 0x2D;
    } else if i == 2 {
      assert Interval(i) == 0x0A;
    } else if i == 3 {
      assert Interval(i) == 0x02;
    } else {
      assert Interval(i) == 0x50;
    }
  }

  /** THEOREM.  Over any events that leave an armed entry alone, with any other arming and
      stopping in between and inside handlers, it fires exactly this often. */
  lemma {:induction false} FiringLaw(t: Timers, es: seq<Event>, i: int)
    requires 0 <= i < ENTRIES && t.arm[i] && 1 <= t.cnt[i] <= Interval(i)
    requires forall e <- es :: Undisturbed(e, i)
    ensures FireCount(t, es, i) == Firings(t.cnt[i], Interval(i), TickCount(es))
    decreases |es|
  {
    hide TickFrom;
    if es != [] {
      var e := es[0];
      assert e in es;
      if e.Tick? {
        TickSpares(t, 0, e.h, i);
        FiringStep(t.cnt[i], i, TickCount(es[1..]));
      }
      hide Firings;
      FiringLaw(After(t, e), es[1..], i);
    }
  }

  /** THEOREM.  A stopped entry left alone never fires and keeps its countdown. */
  lemma {:induction false} StoppedLaw(t: Timers, es: seq<Event>, i: int)
    requires 0 <= i < ENTRIES && !t.arm[i]
    requires forall e <- es :: Undisturbed(e, i)
    ensures FireCount(t, es, i) == 0 && End(t, es).cnt[i] == t.cnt[i] && !End(t, es).arm[i]
    decreases |es|
  {
    hide TickFrom;
    if es != [] {
      var e := es[0];
      assert e in es;
      if e.Tick? { TickSpares(t, 0, e.h, i); }
      StoppedLaw(After(t, e), es[1..], i);
    }
  }
}
