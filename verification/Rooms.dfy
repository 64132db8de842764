/** The relay's clients, rooms and names as values, and what a set of dropped clients leaves
    behind.  The code drops clients one inside another, from any send; `Settle` says that
    only the set matters. */
module Rooms {
  import opened Counting

  const MAX_CLIENTS := 64
  const MAX_ROOMS := 32

  type Name = seq<int> // bytes

  /** `live`: in use and not dropped.  A name is empty until HELLO; room -1 is none. */
  datatype Client = Client(live: bool, name: Name, room: int)
  datatype Room = Room(used: bool, members: seq<int>, started: bool)
  datatype Entry = Entry(name: Name, ci: int)

  type Clients = s: seq<Client> | |s| == MAX_CLIENTS witness seq(MAX_CLIENTS, _ => Client(false, [], -1))
  type RoomTable = s: seq<Room> | |s| == MAX_ROOMS witness seq(MAX_ROOMS, _ => Room(false, [], false))
  datatype Core = Core(clients: Clients, rooms: RoomTable, names: seq<Entry>)

  function Keep(members: seq<int>, gone: set<int>): (r: seq<int>)
    ensures |r| <= |members|
  {
    if members == [] then []
    else if members[0] in gone then Keep(members[1..], gone)
    else [members[0]] + Keep(members[1..], gone)
  }

  function KeepNames(names: seq<Entry>, gone: set<int>): seq<Entry> {
    if names == [] then []
    else if names[0].ci in gone then KeepNames(names[1..], gone)
    else [names[0]] + KeepNames(names[1..], gone)
  }

  /** Some member that still points at room r is gone. */
  predicate Hit(s: Core, r: int, gone: set<int>) {
    exists c :: c in gone && 0 <= c < MAX_CLIENTS && s.clients[c].room == r
  }

  /** A started match ends, a room loses its host, or too few are left. */
  predicate Dissolves(s: Core, r: int, gone: set<int>)
    requires 0 <= r < MAX_ROOMS
  {
    Hit(s, r, gone) &&
    (s.rooms[r].started || s.rooms[r].members == [] || s.rooms[r].members[0] in gone ||
      |Keep(s.rooms[r].members, gone)| < 2)
  }

  function SettledClient(s: Core, gone: set<int>, c: int): Client
    requires 0 <= c < MAX_CLIENTS
  {
    var k := s.clients[c];
    if c in gone then k.(live := false, room := -1)
    else if 0 <= k.room < MAX_ROOMS && Dissolves(s, k.room, gone) then k.(room := -1)
    else k
  }

  function SettledRoom(s: Core, gone: set<int>, r: int): Room
    requires 0 <= r < MAX_ROOMS
  {
    var m := s.rooms[r];
    if Dissolves(s, r, gone) then m.(used := false, members := [])
    else if Hit(s, r, gone) then m.(members := Keep(m.members, gone))
    else m
  }

  /** What is left when these clients are gone. */
  function Settle(s: Core, gone: set<int>): Core {
    Core(seq(MAX_CLIENTS, c requires 0 <= c < MAX_CLIENTS => SettledClient(s, gone, c)),
         seq(MAX_ROOMS, r requires 0 <= r < MAX_ROOMS => SettledRoom(s, gone, r)),
         KeepNames(s.names, gone))
  }

  predicate Distinct(members: seq<int>) {
    forall i, j :: 0 <= i < j < |members| ==> members[i] != members[j]
  }

  /** A client's room has it as a member, and a room's members point back, all or (while the
      room is being taken down) none. */
  ghost predicate Linked(s: Core) {
    && (forall c :: 0 <= c < MAX_CLIENTS && s.clients[c].room != -1 ==>
          && s.clients[c].live && 0 <= s.clients[c].room < MAX_ROOMS
          && c in s.rooms[s.clients[c].room].members)
    && (forall r :: 0 <= r < MAX_ROOMS ==> Attached(s, r) || Detached(s, r))
    && (forall r :: 0 <= r < MAX_ROOMS ==> Distinct(s.rooms[r].members))
  }

  predicate Attached(s: Core, r: int)
    requires 0 <= r < MAX_ROOMS
  {
    forall m <- s.rooms[r].members :: 0 <= m < MAX_CLIENTS && s.clients[m].room == r
  }

  predicate Detached(s: Core, r: int) {
    forall c :: 0 <= c < MAX_CLIENTS ==> s.clients[c].room != r
  }

  // ---------------------------------------------------------------- keeping

  lemma {:induction false} KeepIn(members: seq<int>, gone: set<int>)
    ensures forall m :: m in Keep(members, gone) <==> m in members && m !in gone
    ensures Distinct(members) ==> Distinct(Keep(members, gone))
    ensures members != [] && members[0] !in gone ==> Keep(members, gone) != [] && Keep(members, gone)[0] == members[0]
  {
    if members != [] {
      KeepIn(members[1..], gone);
      assert members == [members[0]] + members[1..];
      if Distinct(members) && members[0] !in gone {
        assert members[0] !in members[1..];
        assert forall m <- Keep(members[1..], gone) :: m in members[1..];
      }
    }
  }

  lemma {:induction false} KeepTwice(members: seq<int>, a: set<int>, b: set<int>)
    ensures Keep(Keep(members, a), b) == Keep(members, a + b)
  {
    if members != [] {
      KeepTwice(members[1..], a, b);
      if members[0] !in a { assert Keep(members, a)[1..] == Keep(members[1..], a); }
    }
  }

  lemma {:induction false} KeepNamesTwice(names: seq<Entry>, a: set<int>, b: set<int>)
    ensures KeepNames(KeepNames(names, a), b) == KeepNames(names, a + b)
  {
    if names != [] {
      KeepNamesTwice(names[1..], a, b);
      if names[0].ci !in a { assert KeepNames(names, a)[1..] == KeepNames(names[1..], a); }
    }
  }

  lemma {:induction false} KeepAll(members: seq<int>, gone: set<int>)
    requires forall m <- members :: m !in gone
    ensures Keep(members, gone) == members
  {
    if members != [] {
      var rest := members[1..];
      KeepAll(rest, gone);
      var first := members[0];
      assert first in members && first !in gone;
      assert members == [members[0]] + members[1..];
    }
  }

  lemma {:induction false} KeepSmaller(members: seq<int>, a: set<int>, b: set<int>)
    requires a <= b
    ensures |Keep(members, b)| <= |Keep(members, a)|
  {
    if members != [] { KeepSmaller(members[1..], a, b); }
  }

  // ---------------------------------------------------------------- settling

  lemma SettleParts(s: Core, gone: set<int>)
    ensures forall c :: 0 <= c < MAX_CLIENTS ==> Settle(s, gone).clients[c] == SettledClient(s, gone, c)
    ensures forall r :: 0 <= r < MAX_ROOMS ==> Settle(s, gone).rooms[r] == SettledRoom(s, gone, r)
    ensures Settle(s, gone).names == KeepNames(s.names, gone)
  {
  }

  lemma SettleLinked(s: Core, gone: set<int>)
    requires Linked(s)
    ensures Linked(Settle(s, gone))
  {
    hide Settle, Keep;
    SettleParts(s, gone);
    var t := Settle(s, gone);
    forall r | 0 <= r < MAX_ROOMS ensures (Attached(t, r) || Detached(t, r)) && Distinct(t.rooms[r].members) {
      KeepIn(s.rooms[r].members, gone);
      if Attached(s, r) {
        forall m <- t.rooms[r].members ensures 0 <= m < MAX_CLIENTS && t.clients[m].room == r {
          assert m in s.rooms[r].members && s.clients[m].room == r;
          assert m !in gone;
        }
        assert Attached(t, r);
      } else {
        assert Detached(t, r);
      }
    }
    forall c | 0 <= c < MAX_CLIENTS && t.clients[c].room != -1
      ensures t.clients[c].live && 0 <= t.clients[c].room < MAX_ROOMS && c in t.rooms[t.clients[c].room].members
    {
      KeepIn(s.rooms[s.clients[c].room].members, gone);
    }
  }

  /** When a settled room settles again. */
  lemma DissolvesTwice(s: Core, a: set<int>, b: set<int>, r: int)
    requires Linked(s) && 0 <= r < MAX_ROOMS
    ensures Dissolves(s, r, a + b) <==> Dissolves(s, r, a) || Dissolves(Settle(s, a), r, b)
    ensures !Dissolves(s, r, a) ==> (Hit(s, r, a + b) <==> Hit(s, r, a) || Hit(Settle(s, a), r, b))
  {
    hide Settle, Keep;
    if Dissolves(s, r, a) {
      assert Hit(s, r, a + b);
      KeepSmaller(s.rooms[r].members, a, a + b);
    } else {
      HitTwice(s, a, b, r);
      if Hit(s, r, a) { ShrunkTwice(s, a, b, r); } else { UnhitTwice(s, a, b, r); }
    }
    SettleParts(s, a);
    KeepIn(s.rooms[r].members, a);
  }

  lemma HitTwice(s: Core, a: set<int>, b: set<int>, r: int)
    requires Linked(s) && 0 <= r < MAX_ROOMS && !Dissolves(s, r, a)
    ensures Hit(s, r, a + b) <==> Hit(s, r, a) || Hit(Settle(s, a), r, b)
  {
    hide Settle, Keep, Dissolves;
    SettleParts(s, a);
    var t := Settle(s, a);
    if Hit(s, r, a + b) && !Hit(s, r, a) {
      var c :| c in a + b && 0 <= c < MAX_CLIENTS && s.clients[c].room == r;
      assert c in b && c !in a && t.clients[c].room == r;
    }
    if Hit(t, r, b) {
      var c :| c in b && 0 <= c < MAX_CLIENTS && t.clients[c].room == r;
      assert c in a + b && s.clients[c].room == r;
    }
  }

  lemma UnhitTwice(s: Core, a: set<int>, b: set<int>, r: int)
    requires Linked(s) && 0 <= r < MAX_ROOMS && !Hit(s, r, a)
    ensures Dissolves(s, r, a + b) <==> Dissolves(Settle(s, a), r, b)
  {
    hide Settle, Keep;
    SettleParts(s, a);
    HitTwice(s, a, b, r);
    var members := s.rooms[r].members;
    if Hit(s, r, a + b) {
      assert Attached(s, r);
      KeepUnhit(s, a, r);
      KeepTwice(members, a, b);
    }
  }

  lemma ShrunkTwice(s: Core, a: set<int>, b: set<int>, r: int)
    requires Linked(s) && 0 <= r < MAX_ROOMS && Hit(s, r, a) && !Dissolves(s, r, a)
    ensures Dissolves(s, r, a + b) <==> Dissolves(Settle(s, a), r, b)
    ensures !Hit(Settle(s, a), r, b) ==> Keep(s.rooms[r].members, a + b) == Keep(s.rooms[r].members, a)
  {
    hide Settle, Keep;
    SettleParts(s, a);
    var t, members := Settle(s, a), s.rooms[r].members;
    KeepIn(members, a);
    KeepTwice(members, a, b);
    assert Hit(s, r, a + b) && Attached(s, r);
    assert members[0] in members && t.clients[members[0]].room == r;
    if !Hit(t, r, b) {
      forall m <- t.rooms[r].members ensures m !in b {
        assert s.clients[m].room == r && t.clients[m].room == r;
      }
      KeepAll(t.rooms[r].members, b);
    }
  }

  /** Nobody gone pointed at the room, so none of its members is gone. */
  lemma KeepUnhit(s: Core, a: set<int>, r: int)
    requires 0 <= r < MAX_ROOMS && Attached(s, r) && !Hit(s, r, a)
    ensures Keep(s.rooms[r].members, a) == s.rooms[r].members
    ensures forall m <- s.rooms[r].members :: m !in a
  {
    KeepAll(s.rooms[r].members, a);
  }

  /** LAW.  Dropping some clients and then others is dropping them all. */
  lemma SettleTwice(s: Core, a: set<int>, b: set<int>)
    requires Linked(s)
    ensures Settle(Settle(s, a), b) == Settle(s, a + b)
  {
    hide Settle, Keep, KeepNames, Dissolves, Hit;
    var t := Settle(s, a);
    SettleParts(s, a);
    SettleParts(s, a + b);
    SettleParts(t, b);
    KeepNamesTwice(s.names, a, b);
    forall r | 0 <= r < MAX_ROOMS ensures SettledRoom(t, b, r) == SettledRoom(s, a + b, r) {
      RoomTwice(s, a, b, r);
    }
    forall c | 0 <= c < MAX_CLIENTS ensures SettledClient(t, b, c) == SettledClient(s, a + b, c) {
      if 0 <= s.clients[c].room < MAX_ROOMS { DissolvesTwice(s, a, b, s.clients[c].room); }
    }
    assert Settle(t, b).clients == Settle(s, a + b).clients;
    assert Settle(t, b).rooms == Settle(s, a + b).rooms;
  }

  lemma RoomTwice(s: Core, a: set<int>, b: set<int>, r: int)
    requires Linked(s) && 0 <= r < MAX_ROOMS
    ensures SettledRoom(Settle(s, a), b, r) == SettledRoom(s, a + b, r)
  {
    hide Settle, Keep;
    SettleParts(s, a);
    DissolvesTwice(s, a, b, r);
    KeepTwice(s.rooms[r].members, a, b);
    if Hit(s, r, a) && !Dissolves(s, r, a) { ShrunkTwice(s, a, b, r); }
    if Attached(s, r) && !Hit(s, r, a) { KeepUnhit(s, a, r); }
  }

  lemma SettleNone(s: Core)
    ensures Settle(s, {}) == s
  {
    hide Keep;
    SettleParts(s, {});
    KeepNamesAll(s.names, {});
    assert Settle(s, {}).clients == s.clients;
    assert Settle(s, {}).rooms == s.rooms;
  }

  lemma {:induction false} KeepNamesAll(names: seq<Entry>, gone: set<int>)
    requires forall e <- names :: e.ci !in gone
    ensures KeepNames(names, gone) == names
  {
    if names != [] {
      KeepNamesAll(names[1..], gone);
      assert names[0] in names && names == [names[0]] + names[1..];
    }
  }

  function LiveSet(s: Core): set<int> {
    set c: int | 0 <= c < MAX_CLIENTS && s.clients[c].live
  }

  lemma SettleLive(s: Core, gone: set<int>)
    ensures LiveSet(Settle(s, gone)) == LiveSet(s) - gone
  {
    hide Settle;
    SettleParts(s, gone);
  }

  // ---------------------------------------------------------------- the invariant

  predicate DistinctNames(names: seq<Entry>) {
    forall i, j :: 0 <= i < j < |names| ==> names[i].name != names[j].name
  }

  ghost predicate NamesRight(s: Core) {
    && DistinctNames(s.names)
    && (forall e <- s.names :: 0 <= e.ci < MAX_CLIENTS && s.clients[e.ci].live && s.clients[e.ci].name == e.name != [])
    && (forall c :: 0 <= c < MAX_CLIENTS && s.clients[c].live && s.clients[c].name != [] ==>
         Entry(s.clients[c].name, c) in s.names)
  }

  /** A used room has 2 to `seats` members, all pointing back; an unused one has none. */
  predicate RoomRight(s: Core, r: int, seats: int)
    requires 0 <= r < MAX_ROOMS
  {
    if s.rooms[r].used then 2 <= |s.rooms[r].members| <= seats && Attached(s, r) else s.rooms[r].members == []
  }

  /** What holds between any two handlers. */
  ghost predicate Good(s: Core, seats: int) {
    && Linked(s) && NamesRight(s)
    && forall r :: 0 <= r < MAX_ROOMS ==> RoomRight(s, r, seats)
  }

  lemma SettleRooms(s: Core, gone: set<int>, seats: int)
    requires Linked(s) && forall r :: 0 <= r < MAX_ROOMS ==> RoomRight(s, r, seats)
    ensures forall r :: 0 <= r < MAX_ROOMS ==> RoomRight(Settle(s, gone), r, seats)
  {
    hide Settle, Keep;
    SettleParts(s, gone);
    var t := Settle(s, gone);
    forall r | 0 <= r < MAX_ROOMS ensures RoomRight(t, r, seats) {
      assert RoomRight(s, r, seats);
      KeepIn(s.rooms[r].members, gone);
      if s.rooms[r].used && !Hit(s, r, gone) { KeepUnhit(s, gone, r); }
      if s.rooms[r].used && !Dissolves(s, r, gone) {
        assert forall m <- t.rooms[r].members :: m in s.rooms[r].members && m !in gone;
      }
    }
  }

  lemma {:induction false} KeepNamesIn(names: seq<Entry>, gone: set<int>)
    ensures forall e :: e in KeepNames(names, gone) <==> e in names && e.ci !in gone
    ensures DistinctNames(names) ==> DistinctNames(KeepNames(names, gone))
  {
    if names != [] {
      KeepNamesIn(names[1..], gone);
      assert names == [names[0]] + names[1..];
      var k := KeepNames(names[1..], gone);
      if DistinctNames(names) && names[0].ci !in gone {
        forall j | 0 <= j < |k| ensures k[j].name != names[0].name {
          assert k[j] in names[1..];
        }
        assert KeepNames(names, gone) == [names[0]] + k;
      }
    }
  }

  lemma SettleNames(s: Core, gone: set<int>)
    requires NamesRight(s)
    ensures NamesRight(Settle(s, gone))
  {
    hide Settle, KeepNames, Dissolves;
    SettleParts(s, gone);
    KeepNamesIn(s.names, gone);
  }

  /** THEOREM.  However the drops nest, what they leave behind is right. */
  lemma SettleGood(s: Core, gone: set<int>, seats: int)
    requires Good(s, seats)
    ensures Good(Settle(s, gone), seats)
  {
    hide Settle, Linked, NamesRight, RoomRight;
    SettleLinked(s, gone);
    SettleRooms(s, gone, seats);
    SettleNames(s, gone);
  }

  // ---------------------------------------------------------------- there is always a room

  /** THEOREM.  With two clients outside any room, some room slot is free: 32 used rooms
      would already hold all 64 clients. */
  lemma RoomFree(s: Core, seats: int, c: int)
    requires Good(s, seats) && 0 <= c < MAX_CLIENTS && s.clients[c].room == -1
    ensures exists r :: 0 <= r < 32 && !s.rooms[r].used
  {
    hide NamesRight;
    if forall r :: 0 <= r < MAX_ROOMS ==> s.rooms[r].used {
      forall r | 0 <= r < MAX_ROOMS
        ensures |s.rooms[r].members| >= 2 && Attached(s, r) && Distinct(s.rooms[r].members)
      {
        assert RoomRight(s, r, seats);
      }
      hide Attached, Good;
      var pairs := seq(2 * MAX_ROOMS, i requires 0 <= i < 2 * MAX_ROOMS => s.rooms[i / 2].members[i % 2]);
      var all := pairs + [c];
      forall i | 0 <= i < |pairs| ensures 0 <= pairs[i] < MAX_CLIENTS && s.clients[pairs[i]].room == i / 2 {
        PairOf(s, i / 2, i % 2);
      }
      forall i, j | 0 <= i < j < |all| ensures all[i] != all[j] {
        if j < |pairs| && i / 2 == j / 2 { assert Distinct(s.rooms[i / 2].members) && i % 2 == 0 && j % 2 == 1; }
      }
      DistinctBelow(all, MAX_CLIENTS);
    }
  }

  lemma PairOf(s: Core, r: int, i: int)
    requires 0 <= r < MAX_ROOMS && Attached(s, r) && 0 <= i < |s.rooms[r].members|
    ensures 0 <= s.rooms[r].members[i] < MAX_CLIENTS && s.clients[s.rooms[r].members[i]].room == r
  {
    assert s.rooms[r].members[i] in s.rooms[r].members;
  }

  /** Names never outnumber clients. */
  lemma NamesFit(s: Core)
    requires NamesRight(s)
    ensures |s.names| <= 64
  {
    var cis := seq(|s.names|, i requires 0 <= i < |s.names| => s.names[i].ci);
    assert forall i :: 0 <= i < |cis| ==> s.names[i] in s.names;
    DistinctBelow(cis, MAX_CLIENTS);
  }

  // ---------------------------------------------------------------- what the handlers do

  function FindName(names: seq<Entry>, name: Name): (i: int)
    ensures -1 <= i < |names|
    ensures i >= 0 ==> names[i].name == name && forall j :: 0 <= j < i ==> names[j].name != name
    ensures i < 0 ==> forall j :: 0 <= j < |names| ==> names[j].name != name
  {
    if names == [] then -1
    else if names[0].name == name then 0
    else var i := FindName(names[1..], name); if i < 0 then -1 else i + 1
  }

  /** by_name[name] = ci: an existing name keeps its place. */
  function SetName(names: seq<Entry>, name: Name, ci: int): seq<Entry> {
    var i := FindName(names, name);
    if i >= 0 then names[i := Entry(name, ci)] else names + [Entry(name, ci)]
  }

  function DelName(names: seq<Entry>, i: int): seq<Entry>
    requires 0 <= i < |names|
  {
    names[..i] + names[i + 1..]
  }

  /** The names once a client's old alias is gone. */
  function Unaliased(s: Core, ci: int, name: Name): seq<Entry>
    requires 0 <= ci < MAX_CLIENTS
  {
    var mine := s.clients[ci].name;
    var i := FindName(s.names, mine);
    if mine != [] && mine != name && i >= 0 && s.names[i].ci == ci then DelName(s.names, i) else s.names
  }

  /** A client takes a name. */
  function Registered(s: Core, ci: int, name: Name): Core
    requires 0 <= ci < MAX_CLIENTS
  {
    s.(clients := s.clients[ci := s.clients[ci].(name := name)], names := SetName(Unaliased(s, ci, name), name, ci))
  }

  predicate FreeName(s: Core, ci: int, name: Name) {
    forall e <- s.names :: e.name == name ==> e.ci == ci
  }

  lemma DelNameIn(names: seq<Entry>, i: int)
    requires 0 <= i < |names|
    requires DistinctNames(names)
    ensures forall e :: e in DelName(names, i) <==> e in names && e.name != names[i].name
    ensures DistinctNames(DelName(names, i))
  {
    var k := DelName(names, i);
    forall e | e in names && e.name != names[i].name ensures e in k {
      var j :| 0 <= j < |names| && names[j] == e;
      assert k[if j < i then j else j - 1] == e;
    }
  }

  lemma SetNameIn(names: seq<Entry>, name: Name, ci: int)
    requires DistinctNames(names)
    ensures forall e :: e in SetName(names, name, ci) <==> (e in names && e.name != name) || e == Entry(name, ci)
    ensures DistinctNames(SetName(names, name, ci))
  {
    var k, i := SetName(names, name, ci), FindName(names, name);
    forall e | e in names && e.name != name ensures e in k {
      var j :| 0 <= j < |names| && names[j] == e;
      assert k[j] == e;
    }
    assert k[if i >= 0 then i else |names|] == Entry(name, ci);
  }

  /** Taking a name no other client holds keeps the table a bijection. */
  lemma RegisteredNames(s: Core, ci: int, name: Name)
    requires NamesRight(s) && 0 <= ci < MAX_CLIENTS && s.clients[ci].live && name != [] && FreeName(s, ci, name)
    ensures NamesRight(Registered(s, ci, name))
  {
    hide SetName, DelName, FindName;
    var mine := s.clients[ci].name;
    var i := FindName(s.names, mine);
    var names := s.names;
    if mine != [] && mine != name {
      assert Entry(mine, ci) in s.names;
      DelNameIn(s.names, i);
      names := DelName(s.names, i);
    }
    SetNameIn(names, name, ci);
    assert Registered(s, ci, name).names == SetName(names, name, ci);
  }

  lemma RegisteredGood(s: Core, ci: int, name: Name, seats: int)
    requires Good(s, seats) && 0 <= ci < MAX_CLIENTS && s.clients[ci].live && name != [] && FreeName(s, ci, name)
    ensures Good(Registered(s, ci, name), seats)
  {
    hide NamesRight, SetName, DelName, FindName;
    RegisteredNames(s, ci, name);
    var t := Registered(s, ci, name);
    assert t.rooms == s.rooms && forall c :: 0 <= c < MAX_CLIENTS ==>
      t.clients[c].room == s.clients[c].room && t.clients[c].live == s.clients[c].live;
    forall r | 0 <= r < MAX_ROOMS ensures (Attached(t, r) || Detached(t, r)) && RoomRight(t, r, seats) {
      assert Attached(s, r) ==> Attached(t, r);
      assert RoomRight(s, r, seats);
    }
  }

  /** A solo client becomes the host of a new room and is joined at once. */
  function Opened(s: Core, r: int, host: int, guest: int): Core
    requires 0 <= r < MAX_ROOMS && 0 <= host < MAX_CLIENTS && 0 <= guest < MAX_CLIENTS
  {
    s.(rooms := s.rooms[r := Room(true, [host, guest], false)],
       clients := s.clients[host := s.clients[host].(room := r)][guest := s.clients[guest].(room := r)])
  }

  function Joined(s: Core, r: int, ci: int): Core
    requires 0 <= r < MAX_ROOMS && 0 <= ci < MAX_CLIENTS
  {
    s.(rooms := s.rooms[r := s.rooms[r].(members := s.rooms[r].members + [ci])],
       clients := s.clients[ci := s.clients[ci].(room := r)])
  }

  lemma OpenedGood(s: Core, r: int, host: int, guest: int, seats: int)
    requires Good(s, seats) && seats >= 2 && 0 <= r < MAX_ROOMS && !s.rooms[r].used
    requires 0 <= host < MAX_CLIENTS && 0 <= guest < MAX_CLIENTS && host != guest
    requires s.clients[host].live && s.clients[host].room == -1 && s.clients[guest].live && s.clients[guest].room == -1
    ensures Good(Opened(s, r, host, guest), seats)
  {
    hide NamesRight;
    var t := Opened(s, r, host, guest);
    OpenedNames(s, r, host, guest);
    assert RoomRight(s, r, seats) && Detached(s, r);
    forall q | 0 <= q < MAX_ROOMS
      ensures (Attached(t, q) || Detached(t, q)) && RoomRight(t, q, seats) && Distinct(t.rooms[q].members)
    {
      assert RoomRight(s, q, seats);
      if q != r && Attached(s, q) { assert Attached(t, q); }
    }
  }

  lemma OpenedNames(s: Core, r: int, host: int, guest: int)
    requires NamesRight(s) && 0 <= r < MAX_ROOMS && 0 <= host < MAX_CLIENTS && 0 <= guest < MAX_CLIENTS
    ensures NamesRight(Opened(s, r, host, guest))
  {
  }

  lemma JoinedGood(s: Core, r: int, ci: int, seats: int)
    requires Good(s, seats) && 0 <= r < MAX_ROOMS && s.rooms[r].used && |s.rooms[r].members| < seats
    requires 0 <= ci < MAX_CLIENTS && s.clients[ci].live && s.clients[ci].room == -1
    ensures Good(Joined(s, r, ci), seats)
  {
    hide NamesRight;
    var t := Joined(s, r, ci);
    JoinedNames(s, r, ci);
    assert RoomRight(s, r, seats) && ci !in s.rooms[r].members;
    forall q | 0 <= q < MAX_ROOMS
      ensures (Attached(t, q) || Detached(t, q)) && RoomRight(t, q, seats) && Distinct(t.rooms[q].members)
    {
      assert RoomRight(s, q, seats);
      if Attached(s, q) { assert Attached(t, q); }
    }
  }

  lemma JoinedNames(s: Core, r: int, ci: int)
    requires NamesRight(s) && 0 <= r < MAX_ROOMS && 0 <= ci < MAX_CLIENTS
    ensures NamesRight(Joined(s, r, ci))
  {
  }

  function Started(s: Core, r: int): Core
    requires 0 <= r < MAX_ROOMS
  {
    s.(rooms := s.rooms[r := s.rooms[r].(started := true)])
  }

  lemma StartedGood(s: Core, r: int, seats: int)
    requires Good(s, seats) && 0 <= r < MAX_ROOMS
    ensures Good(Started(s, r), seats)
  {
    hide NamesRight;
    var t := Started(s, r);
    assert NamesRight(t) by { assert t.clients == s.clients && t.names == s.names; NamesSame(s, t); }
    forall q | 0 <= q < MAX_ROOMS
      ensures (Attached(t, q) || Detached(t, q)) && RoomRight(t, q, seats) && Distinct(t.rooms[q].members)
    {
      assert RoomRight(s, q, seats);
      if Attached(s, q) { assert Attached(t, q); }
    }
  }

  lemma NamesSame(s: Core, t: Core)
    requires NamesRight(s) && t.clients == s.clients && t.names == s.names
    ensures NamesRight(t)
  {
  }
}
