/** The relay's checksum comparator: Python's dictionary of dictionaries, and the C relay's
    fixed table of 65 rows of 8 slots that has to give the same verdicts. */
module CrcTable {
  import opened Counting

  const ROWS := 65       // CRC_TICKS + 1: a row is inserted before one is evicted
  const KEPT := 64       // CRC_TICKS
  const SLOTS := 8       // CRC_SEATS

  type Entry = map<int, int> // seat to checksum
  datatype Room = Room(table: map<int, Entry>, ok: nat)
  datatype Verdict = Waiting | Agreed(tick: int) | Mismatch(tick: int, sums: Entry)

  predicate AllSame(e: Entry) { forall a, b :: a in e && b in e ==> e[a] == e[b] }

  // ---------------------------------------------------------------- the dictionary

  lemma {:induction false} LowerBound(s: set<int>) returns (lo: int)
    ensures forall j :: j in s ==> lo <= j
    decreases s
  {
    if x :| x in s {
      var rest := LowerBound(s - {x});
      lo := if rest <= x then rest else x;
      assert forall j :: j in s ==> j == x || j in s - {x};
    } else {
      lo := 0;
    }
  }

  lemma {:induction false} MinBelow(s: set<int>, lo: int, x: int)
    requires x in s && lo <= x && forall j :: j in s ==> lo <= j
    ensures exists k :: k in s && forall j :: j in s ==> k <= j
    decreases x - lo
  {
    if y :| y in s && y < x {
      MinBelow(s, lo, y);
    } else {
      assert forall j :: j in s ==> x <= j;
    }
  }

  ghost predicate Inhabited(s: set<int>) { exists x :: x in s }

  lemma MinExists(s: set<int>)
    requires Inhabited(s)
    ensures exists k :: k in s && forall j :: j in s ==> k <= j
  {
    var x :| x in s;
    var lo := LowerBound(s);
    MinBelow(s, lo, x);
  }

  ghost function Min(s: set<int>): (k: int)
    requires Inhabited(s)
    ensures k in s && forall j :: j in s ==> k <= j
  {
    MinExists(s);
    var k :| k in s && forall j :: j in s ==> k <= j;
    k
  }

  lemma MinIs(s: set<int>, k: int)
    requires k in s && forall j :: j in s ==> k <= j
    ensures Inhabited(s) && k == Min(s)
  {
  }

  function Inserted(table: map<int, Entry>, seat: int, tick: int, crc: int): (t1: map<int, Entry>)
    ensures tick in t1 && Inhabited(t1.Keys)
  {
    assert tick in table.Keys + {tick};
    table[tick := (if tick in table then table[tick] else map[])[seat := crc]]
  }

  ghost function Evicted(table: map<int, Entry>): map<int, Entry>
    requires Inhabited(table.Keys)
  {
    if |table| > KEPT then table - {Min(table.Keys)} else table
  }

  /** log_crc: insert, evict the oldest tick beyond 64, and judge a tick every seat has
      reported. */
  ghost function Logged(r: Room, members: nat, seat: int, tick: int, crc: int): (Room, Verdict) {
    var t1 := Inserted(r.table, seat, tick, crc);
    var entry := t1[tick];
    assert tick in t1.Keys;
    var t2 := Evicted(t1);
    if |entry| < members then (r.(table := t2), Waiting)
    else if AllSame(entry) then (Room(t2 - {tick}, r.ok + 1), Agreed(tick))
    else (r.(table := t2 - {tick}), Mismatch(tick, entry))
  }

  /** The verdict of one report, outright: nothing until as many seats have reported the tick as
      the room has; then agreement exactly if all of them said the same, and else everything
      they said. */
  lemma VerdictIs(r: Room, members: nat, seat: int, tick: int, crc: int)
    ensures
      var (r', v) := Logged(r, members, seat, tick, crc);
      var said := (if tick in r.table then r.table[tick] else map[])[seat := crc];
      && (v.Waiting? <==> |said| < members)
      && (v == Agreed(tick) <==> |said| >= members && forall a, b :: a in said && b in said ==> said[a] == said[b])
      && (v.Mismatch? ==> v == Mismatch(tick, said)) && (v.Agreed? ==> v == Agreed(tick))
      && r'.ok == r.ok + (if v.Agreed? then 1 else 0) && (!v.Waiting? ==> tick !in r'.table)
  {
    hide Evicted;
  }

  /** What the table keeps, outright: every other tick stays as it was, except that the smallest of
      more than 64 goes; the reported tick stays with its reports until it is judged or evicted. */
  lemma KeepsSixtyFour(r: Room, members: nat, seat: int, tick: int, crc: int, t: int)
    ensures
      var (r', v) := Logged(r, members, seat, tick, crc);
      var t1 := Inserted(r.table, seat, tick, crc);
      var oldest := |t1| > 64 && forall j :: j in t1 ==> t <= j;
      && (t in r'.table <==> t in t1 && !oldest && (t == tick ==> v.Waiting?))
      && (t in r'.table && t != tick ==> t in r.table && r'.table[t] == r.table[t])
      && (t in r'.table && t == tick ==> r'.table[t] == (if t in r.table then r.table[t] else map[])[seat := crc])
  {
    hide AllSame;
    var t1 := Inserted(r.table, seat, tick, crc);
    if t in t1 && forall j :: j in t1 ==> t <= j { MinIs(t1.Keys, t); }
    assert Min(t1.Keys) in t1.Keys;
  }

  /** A room between reports: at most 64 ticks, each still waiting for a seat. */
  predicate Pending(table: map<int, Entry>, members: nat) {
    |table| <= KEPT && forall t :: t in table ==> |table[t]| < members
  }

  lemma InsertedSize(table: map<int, Entry>, seat: int, tick: int, crc: int)
    ensures
      var t1 := Inserted(table, seat, tick, crc);
      |t1| == |table| + if tick in table then 0 else 1
  {
    var t1 := Inserted(table, seat, tick, crc);
    assert t1.Keys == table.Keys + {tick};
  }

  lemma EntrySize(e: Entry, seat: int, crc: int)
    ensures |e[seat := crc]| == |e| + if seat in e then 0 else 1
  {
    assert e[seat := crc].Keys == e.Keys + {seat};
  }

  lemma RemovedSize(table: map<int, Entry>, tick: int)
    ensures |table - {tick}| == |table| - if tick in table then 1 else 0
  {
    assert (table - {tick}).Keys == table.Keys - {tick};
  }

  lemma RemoveAbsent(table: map<int, Entry>, tick: int)
    requires tick !in table
    ensures table - {tick} == table
  {
  }

  lemma InsertedEntries(table: map<int, Entry>, members: nat, seat: int, tick: int, crc: int)
    requires members > 0 && Pending(table, members)
    ensures
      var t1 := Inserted(table, seat, tick, crc);
      && |t1| <= ROWS && tick in t1 && |t1[tick]| <= members && forall t :: t in t1 && t != tick ==> |t1[t]| < members
  {
    InsertedSize(table, seat, tick, crc);
    EntrySize(if tick in table then table[tick] else map[], seat, crc);
  }

  lemma EvictedEntries(t1: map<int, Entry>)
    requires |t1| <= ROWS && Inhabited(t1.Keys)
    ensures |Evicted(t1)| <= KEPT && forall t :: t in Evicted(t1) ==> t in t1 && Evicted(t1)[t] == t1[t]
  {
    if |t1| > KEPT { RemovedSize(t1, Min(t1.Keys)); }
  }

  /** THEOREM.  Whatever is reported, a tick is judged as soon as its entry has one report
      from as many seats as the room has, so no entry ever outgrows the room. */
  lemma PendingStays(r: Room, members: nat, seat: int, tick: int, crc: int)
    requires members > 0 && Pending(r.table, members)
    ensures Pending(Logged(r, members, seat, tick, crc).0.table, members)
    ensures |Inserted(r.table, seat, tick, crc)[tick]| <= members
    ensures |Inserted(r.table, seat, tick, crc)| <= ROWS
  {
    hide Inserted, Evicted, AllSame;
    InsertedEntries(r.table, members, seat, tick, crc);
    assert tick in Inserted(r.table, seat, tick, crc).Keys;
    EvictedEntries(Inserted(r.table, seat, tick, crc));
    RemovedSize(Evicted(Inserted(r.table, seat, tick, crc)), tick);
  }

  // ---------------------------------------------------------------- the fixed table

  datatype Slot = Slot(inUse: bool, seat: int, crc: int)
  datatype Row = Row(inUse: bool, tick: int, nseats: int, slots: seq<Slot>)
  const NO_SLOT := Slot(false, 0, 0)
  const NO_ROW := Row(false, 0, 0, seq(SLOTS, _ => NO_SLOT))

  /** Eight slots stand for an entry. */
  ghost predicate SlotsShow(slots: seq<Slot>, e: Entry) {
    && |slots| == SLOTS
    && (forall i :: 0 <= i < SLOTS && slots[i].inUse ==> slots[i].seat in e && e[slots[i].seat] == slots[i].crc)
    && (forall i, j :: 0 <= i < j < SLOTS && slots[i].inUse && slots[j].inUse ==> slots[i].seat != slots[j].seat)
    && (forall k :: k in e ==> exists i :: 0 <= i < SLOTS && slots[i].inUse && slots[i].seat == k)
  }

  ghost predicate RowShows(r: Row, e: Entry) { SlotsShow(r.slots, e) && r.nseats == |e| }

  ghost predicate RowsShow(rows: seq<Row>, table: map<int, Entry>) {
    && |rows| == ROWS
    && (forall i :: 0 <= i < ROWS && rows[i].inUse ==> rows[i].tick in table && RowShows(rows[i], table[rows[i].tick]))
    && (forall i, j :: 0 <= i < j < ROWS && rows[i].inUse && rows[j].inUse ==> rows[i].tick != rows[j].tick)
    && (forall t :: t in table ==> exists i :: 0 <= i < ROWS && rows[i].inUse && rows[i].tick == t)
  }

  /** A full table would hold more ticks than the room can have. */
  lemma FreeRow(rows: seq<Row>, table: map<int, Entry>)
    requires RowsShow(rows, table) && |table| < ROWS
    ensures exists i :: 0 <= i < ROWS && !rows[i].inUse
  {
    if forall i :: 0 <= i < ROWS ==> rows[i].inUse {
      var ticks := seq(ROWS, i requires 0 <= i < ROWS => rows[i].tick);
      DistinctFit(ticks, table.Keys);
    }
  }

  lemma FreeSlot(slots: seq<Slot>, e: Entry)
    requires SlotsShow(slots, e) && |e| < SLOTS
    ensures exists i :: 0 <= i < SLOTS && !slots[i].inUse
  {
    if forall i :: 0 <= i < SLOTS ==> slots[i].inUse {
      var seats := seq(SLOTS, i requires 0 <= i < SLOTS => slots[i].seat);
      DistinctFit(seats, e.Keys);
    }
  }

  lemma SlotWrite(slots: seq<Slot>, e: Entry, i: int, seat: int, crc: int)
    requires SlotsShow(slots, e) && 0 <= i < SLOTS
    requires if seat in e then slots[i].inUse && slots[i].seat == seat else !slots[i].inUse
    ensures SlotsShow(slots[i := Slot(true, seat, crc)], e[seat := crc])
  {
    var slots', e' := slots[i := Slot(true, seat, crc)], e[seat := crc];
    forall k | k in e' ensures exists j :: 0 <= j < SLOTS && slots'[j].inUse && slots'[j].seat == k {
      if k == seat {
        assert slots'[i].inUse && slots'[i].seat == k;
      } else {
        var j :| 0 <= j < SLOTS && slots[j].inUse && slots[j].seat == k;
        assert slots'[j] == slots[j];
      }
    }
  }

  lemma RowWrite(rows: seq<Row>, table: map<int, Entry>, i: int, row: Row, e: Entry)
    requires RowsShow(rows, table) && 0 <= i < ROWS && row.inUse && RowShows(row, e)
    requires if row.tick in table then rows[i].inUse && rows[i].tick == row.tick else !rows[i].inUse
    ensures RowsShow(rows[i := row], table[row.tick := e])
  {
    hide RowShows;
    var rows', table' := rows[i := row], table[row.tick := e];
    forall k | k in table' ensures exists j :: 0 <= j < ROWS && rows'[j].inUse && rows'[j].tick == k {
      if k == row.tick {
        assert rows'[i].inUse && rows'[i].tick == k;
      } else {
        var j :| 0 <= j < ROWS && rows[j].inUse && rows[j].tick == k;
        assert rows'[j] == rows[j];
      }
    }
  }

  lemma RowFree(rows: seq<Row>, table: map<int, Entry>, i: int)
    requires RowsShow(rows, table) && 0 <= i < ROWS && rows[i].inUse
    ensures RowsShow(rows[i := rows[i].(inUse := false)], table - {rows[i].tick})
  {
    hide RowShows;
    var rows', table' := rows[i := rows[i].(inUse := false)], table - {rows[i].tick};
    forall k | k in table' ensures exists j :: 0 <= j < ROWS && rows'[j].inUse && rows'[j].tick == k {
      var j :| 0 <= j < ROWS && rows[j].inUse && rows[j].tick == k;
      assert rows'[j] == rows[j];
    }
  }

  /** room_t's checksum part. */
  class CRoom {
    const rows: array<Row>
    var ncrc: int
    var ok: nat

    ghost predicate Shows(r: Room)
      reads this, rows
    {
      rows.Length == ROWS && RowsShow(rows[..], r.table) && ncrc == |r.table| && ok == r.ok
    }

    /** start_room: the table cleared. */
    constructor ()
      ensures Shows(Room(map[], 0)) && fresh(rows)
      ensures rows.Length == 65 && forall i :: 0 <= i < 65 ==> !rows[i].inUse && |rows[i].slots| == 8
    {
      rows := new Row[ROWS](_ => NO_ROW);
      ncrc, ok := 0, 0;
    }

    /** The row of this tick, or else a free one. */
    method FindRow(tick: int, ghost r: Room) returns (i: int)
      requires Shows(r) && |r.table| <= KEPT
      ensures 0 <= i < ROWS
      ensures if tick in r.table then rows[i].inUse && rows[i].tick == tick else !rows[i].inUse
    {
      hide RowShows;
      FreeRow(rows[..], r.table);
      i := 0;
      while i < ROWS && !(rows[i].inUse && rows[i].tick == tick)
        invariant 0 <= i <= ROWS
        invariant forall j :: 0 <= j < i ==> !(rows[j].inUse && rows[j].tick == tick)
      {
        i := i + 1;
      }
      if i == ROWS {
        i := 0;
        while rows[i].inUse
          invariant 0 <= i < ROWS && forall j :: 0 <= j < i ==> rows[j].inUse
          decreases ROWS - i
        {
          assert exists k :: i < k < ROWS && !rows[k].inUse by {
            var k :| 0 <= k < ROWS && !rows[..][k].inUse;
            assert i < k;
          }
          i := i + 1;
        }
      }
    }

    /** The slot of this seat, or else a free one. */
    static method FindSlot(slots: seq<Slot>, seat: int, ghost e: Entry) returns (i: int)
      requires SlotsShow(slots, e) && (seat in e || |e| < SLOTS)
      ensures 0 <= i < SLOTS
      ensures if seat in e then slots[i].inUse && slots[i].seat == seat else !slots[i].inUse
    {
      i := 0;
      while i < SLOTS && !(slots[i].inUse && slots[i].seat == seat)
        invariant 0 <= i <= SLOTS
        invariant forall j :: 0 <= j < i ==> !(slots[j].inUse && slots[j].seat == seat)
      {
        i := i + 1;
      }
      if i == SLOTS {
        FreeSlot(slots, e);
        ghost var free :| 0 <= free < SLOTS && !slots[free].inUse;
        i := 0;
        while slots[i].inUse
          invariant 0 <= i <= free
          decreases SLOTS - i
        {
          i := i + 1;
        }
      }
    }

    /** The in-use row of the smallest tick. */
    method Lowest(ghost r: Room) returns (low: int)
      requires Shows(r) && Inhabited(r.table.Keys)
      ensures 0 <= low < ROWS && rows[low].inUse && rows[low].tick == Min(r.table.Keys)
    {
      hide RowShows;
      low := -1;
      var i := 0;
      while i < ROWS
        invariant 0 <= i <= ROWS && -1 <= low < i
        invariant low == -1 ==> forall j :: 0 <= j < i ==> !rows[j].inUse
        invariant low != -1 ==> rows[low].inUse && forall j :: 0 <= j < i && rows[j].inUse ==>
          rows[low].tick <= rows[j].tick
      {
        if rows[i].inUse && (low == -1 || rows[i].tick < rows[low].tick) {
          low := i;
        }
        i := i + 1;
      }
      ghost var k := Min(r.table.Keys);
      assert k in r.table;
    }

    /** len(set(entry.values())) == 1, by comparing every slot with the first. */
    static method Judge(slots: seq<Slot>, ghost e: Entry) returns (agree: bool)
      requires SlotsShow(slots, e)
      ensures (agree <==> AllSame(e)) && (agree <==> forall a, b :: a in e && b in e ==> e[a] == e[b])
    {
      agree := true;
      var nvals, first, i := 0, 0, 0;
      ghost var at := 0;
      while i < SLOTS
        invariant 0 <= i <= SLOTS && 0 <= nvals
        invariant nvals == 0 ==> agree && forall j :: 0 <= j < i ==> !slots[j].inUse
        invariant nvals > 0 ==> 0 <= at < i && slots[at].inUse && slots[at].crc == first
        invariant agree && nvals > 0 ==> forall j :: 0 <= j < i && slots[j].inUse ==> slots[j].crc == first
        invariant !agree ==> exists j :: 0 <= j < i && slots[j].inUse && slots[j].crc != first
        invariant !agree ==> nvals > 0
      {
        if slots[i].inUse {
          if nvals == 0 {
            first, at := slots[i].crc, i;
          } else if slots[i].crc != first {
            agree := false;
          }
          nvals := nvals + 1;
        }
        i := i + 1;
      }
      if !agree {
        ghost var j :| 0 <= j < SLOTS && slots[j].inUse && slots[j].crc != first;
        assert e[slots[j].seat] != e[slots[at].seat];
      }
    }

    /** Insert or replace a report; the row keeps its place. */
    method Insert(seat: int, tick: int, crc: int, ghost r: Room, ghost members: nat) returns (i: int)
      requires Shows(r) && 0 < members <= SLOTS && Pending(r.table, members)
      modifies this, rows
      ensures Shows(r.(table := Inserted(r.table, seat, tick, crc)))
      ensures 0 <= i < ROWS && rows[i].inUse && rows[i].tick == tick
    {
      hide RowsShow;
      i := FindRow(tick, r);
      var row := rows[i];
      ghost var e := if tick in r.table then r.table[tick] else map[];
      InsertedSize(r.table, seat, tick, crc);
      RowOf(rows[..], r.table, i, tick);
      if !row.inUse {
        row := NO_ROW.(inUse := true, tick := tick);
        ncrc := ncrc + 1;
      }
      assert RowShows(row, e);
      var k := FindSlot(row.slots, seat, e);
      EntrySize(e, seat, crc);
      SlotWrite(row.slots, e, k, seat, crc);
      if !row.slots[k].inUse {
        row := row.(nseats := row.nseats + 1);
      }
      row := row.(slots := row.slots[k := Slot(true, seat, crc)]);
      RowWrite(rows[..], r.table, i, row, e[seat := crc]);
      ghost var before := rows[..];
      rows[i] := row;
      assert rows[..] == before[i := row];
    }

    lemma RowOf(rows: seq<Row>, table: map<int, Entry>, i: int, tick: int)
      requires RowsShow(rows, table) && 0 <= i < ROWS
      ensures rows[i].inUse && rows[i].tick == tick ==> tick in table && RowShows(rows[i], table[tick])
    {
    }

    /** Clear a row's in-use mark. */
    method Free(i: int, ghost r: Room)
      requires Shows(r) && 0 <= i < ROWS && rows[i].inUse
      modifies this, rows
      ensures Shows(r.(table := r.table - {old(rows[i].tick)})) && ok == old(ok)
      ensures rows[i] == old(rows[i]).(inUse := false)
      ensures forall j :: 0 <= j < ROWS && j != i ==> rows[j] == old(rows[j])
    {
      ghost var before := rows[..];
      RowFree(before, r.table, i);
      RemovedSize(r.table, rows[i].tick);
      assert rows[i].tick in r.table;
      hide RowsShow;
      rows[i] := rows[i].(inUse := false);
      ncrc := ncrc - 1;
      assert rows[..] == before[i := before[i].(inUse := false)];
    }

    /** The used slots as a map, for the mismatch report. */
    static method Sums(slots: seq<Slot>, ghost e: Entry) returns (m: Entry)
      requires SlotsShow(slots, e)
      ensures m == e
    {
      m := map[];
      var i := 0;
      while i < SLOTS
        invariant 0 <= i <= SLOTS
        invariant forall k :: k in m ==> k in e && m[k] == e[k]
        invariant forall j :: 0 <= j < i && slots[j].inUse ==> slots[j].seat in m
      {
        if slots[i].inUse {
          m := m[slots[i].seat := slots[i].crc];
        }
        i := i + 1;
      }
      forall k | k in e ensures k in m {
        var j :| 0 <= j < SLOTS && slots[j].inUse && slots[j].seat == k;
      }
      assert forall k <- m.Keys :: k in e.Keys;
      assert forall k <- e.Keys :: k in m.Keys;
      assert m.Keys == e.Keys;
      assert forall k <- m :: m[k] == e[k];
    }

    /** Evict the oldest row once there are more than 64; it can be row i, whose other
        fields stay readable. */
    method Evict(i: int, ghost r: Room)
      requires Shows(r) && 0 <= i < ROWS && rows[i].inUse && |r.table| <= ROWS && Inhabited(r.table.Keys)
      modifies this, rows
      ensures Shows(r.(table := Evicted(r.table)))
      ensures rows[i] == old(rows[i]).(inUse := old(rows[i].tick) in Evicted(r.table))
    {
      assert rows[..][i].tick in r.table;
      if ncrc > KEPT {
        var low := Lowest(r);
        if low != i { assert rows[..][low].tick != rows[..][i].tick; }
        hide RowsShow;
        Free(low, r);
      }
    }

    /** The first half of log_crc: the report is in, the oldest row may be out. */
    method Enter(members: nat, seat: int, tick: int, crc: int, ghost r: Room) returns (i: int)
      requires Shows(r) && 0 < members <= SLOTS && Pending(r.table, members)
      modifies this, rows
      ensures
        var t1 := Inserted(r.table, seat, tick, crc);
        && Shows(r.(table := Evicted(t1)))
        && 0 <= i < ROWS && rows[i].tick == tick && tick in t1 && RowShows(rows[i], t1[tick])
        && rows[i].inUse == (tick in Evicted(t1))
    {
      hide RowsShow, Inserted, Evicted, SlotsShow;
      InsertedEntries(r.table, members, seat, tick, crc);
      i := Insert(seat, tick, crc, r, members);
      ghost var r1 := r.(table := Inserted(r.table, seat, tick, crc));
      RowOf(rows[..], r1.table, i, tick);
      Evict(i, r1);
    }

    /** The second half of log_crc, for a complete row: take it out and judge it. */
    method Close(i: int, tick: int, ghost e: Entry, ghost r: Room) returns (v: Verdict)
      requires Shows(r) && 0 <= i < ROWS && rows[i].tick == tick && RowShows(rows[i], e) &&
        rows[i].inUse == (tick in r.table)
      modifies this, rows
      ensures Shows(Room(r.table - {tick}, if AllSame(e) then r.ok + 1 else r.ok))
      ensures v == if AllSame(e) then Agreed(tick) else Mismatch(tick, e)
    {
      hide RowsShow, AllSame, SlotsShow;
      var agree := Judge(rows[i].slots, e);
      var sums := Sums(rows[i].slots, e);
      if rows[i].inUse {
        Free(i, r);
      } else {
        RemoveAbsent(r.table, tick);
      }
      if !agree {
        v := Mismatch(tick, sums);
      } else {
        ok := ok + 1;
        v := Agreed(tick);
      }
    }

    /** log_crc. */
    method LogCrc(members: nat, seat: int, tick: int, crc: int, ghost r: Room) returns (v: Verdict)
      requires Shows(r) && 0 < members <= SLOTS && Pending(r.table, members)
      modifies this, rows
      ensures Shows(Logged(r, members, seat, tick, crc).0) && v == Logged(r, members, seat, tick, crc).1
    {
      hide RowsShow, AllSame, Inserted, Evicted, SlotsShow;
      var i := Enter(members, seat, tick, crc, r);
      ghost var t1 := Inserted(r.table, seat, tick, crc);
      if rows[i].nseats < members {
        return Waiting;
      }
      v := Close(i, tick, t1[tick], r.(table := Evicted(t1)));
    }
  }

  /** Python's log_crc on its dictionary. */
  class PyRoom {
    var crc: map<int, Entry>
    var ok: nat

    method LogCrc(members: nat, seat: int, tick: int, sum: int) returns (v: Verdict)
      modifies this
      ensures (Room(crc, ok), v) == Logged(Room(old(crc), old(ok)), members, seat, tick, sum)
    {
      hide AllSame;
      var entry := (if tick in crc then crc[tick] else map[])[seat := sum];
      crc := crc[tick := entry];
      if |crc| > KEPT {
        assert tick in crc.Keys;
        MinExists(crc.Keys);
        var low :| low in crc && forall j :: j in crc ==> low <= j;
        MinIs(crc.Keys, low);
        crc := crc - {low};
      }
      if |entry| < members {
        return Waiting;
      }
      crc := crc - {tick};
      if AllSame(entry) {
        ok := ok + 1;
        v := Agreed(tick);
      } else {
        v := Mismatch(tick, entry);
      }
    }
  }

  // ---------------------------------------------------------------- whole matches

  datatype Report = Report(seat: int, tick: int, crc: int)

  ghost function Verdicts(r: Room, members: nat, reports: seq<Report>): (Room, seq<Verdict>)
    decreases |reports|
  {
    if reports == [] then (r, [])
    else
      var q := reports[0];
      var (r1, v) := Logged(r, members, q.seat, q.tick, q.crc);
      var (end, vs) := Verdicts(r1, members, reports[1..]);
      (end, [v] + vs)
  }

  /** THEOREM.  A match's whole sequence of reports, from any seats for any ticks, gets the
      dictionary's verdicts and agreement count from the fixed table; between reports at most
      64 rows are in use. */
  method WholeMatch(members: nat, reports: seq<Report>) returns (vs: seq<Verdict>, ok: nat, rows: int)
    requires 0 < members <= 8
    ensures
      var (end, verdicts) := Verdicts(Room(map[], 0), members, reports);
      vs == verdicts && ok == end.ok && rows == |end.table| <= 64
  {
    hide Logged;
    var c := new CRoom();
    ghost var r := Room(map[], 0);
    vs := [];
    var i := 0;
    assert reports[0..] == reports;
    assert forall rest: seq<Verdict> :: vs + rest == rest;
    while i < |reports|
      invariant 0 <= i <= |reports| && c.Shows(r) && Pending(r.table, members) && fresh(c) && fresh(c.rows)
      invariant
        var (end, rest) := Verdicts(r, members, reports[i..]);
        Verdicts(Room(map[], 0), members, reports) == (end, vs + rest)
    {
      var q := reports[i];
      PendingStays(r, members, q.seat, q.tick, q.crc);
      var v := c.LogCrc(members, q.seat, q.tick, q.crc, r);
      r := Logged(r, members, q.seat, q.tick, q.crc).0;
      assert reports[i..][0] == q && reports[i..][1..] == reports[i + 1..];
      assert vs + ([v] + Verdicts(r, members, reports[i + 1..]).1) ==
        vs + [v] + Verdicts(r, members, reports[i + 1..]).1;
      vs := vs + [v];
      i := i + 1;
    }
    assert vs + [] == vs;
    ok, rows := c.ok, c.ncrc;
  }
}
