/** The C relay's by_name: a fixed array with a count, kept in insertion order by moving
    entries down, against the ordered map it has to agree with. */
module NameTable {
  import opened Counting
  import opened Rooms

  class ByName {
    const slots: array<Entry>
    var n: nat

    predicate Valid()
      reads this
    {
      slots.Length == MAX_CLIENTS && n <= MAX_CLIENTS
    }

    /** The map, in iteration order. */
    function Contents(): seq<Entry>
      requires Valid()
      reads this, slots
    {
      slots[..n]
    }

    constructor ()
      ensures Valid() && Contents() == [] && fresh(slots)
    {
      slots := new Entry[MAX_CLIENTS](_ => Entry([], -1));
      n := 0;
    }

    /** name_find. */
    method Find(name: Name) returns (i: int)
      requires Valid()
      ensures i == FindName(Contents(), name)
    {
      i := 0;
      while i < n
        invariant 0 <= i <= n && forall j :: 0 <= j < i ==> slots[j].name != name
      {
        if slots[i].name == name {
          FindIs(Contents(), name, i);
          return;
        }
        i := i + 1;
      }
      i := -1;
      FindNone(Contents(), name);
    }

    /** name_set: overwrite in place, or append while there is room. */
    method Set(name: Name, ci: int)
      requires Valid()
      modifies this, slots
      ensures Valid()
      ensures Contents() ==
        if FindName(old(Contents()), name) < 0 && old(n) == MAX_CLIENTS then old(Contents())
        else SetName(old(Contents()), name, ci)
    {
      var i := Find(name);
      if i >= 0 {
        slots[i] := slots[i].(ci := ci);
        return;
      }
      if n >= MAX_CLIENTS {
        return;
      }
      slots[n] := Entry(name, ci);
      n := n + 1;
    }

    /** name_del_at: memmove over the deleted entry. */
    method DelAt(i: int)
      requires Valid() && 0 <= i < n
      modifies this, slots
      ensures Valid() && Contents() == DelName(old(Contents()), i)
    {
      ghost var before := Contents();
      var j := i;
      while j < n - 1
        invariant i <= j <= n - 1 && n == old(n)
        invariant slots[..i] == before[..i] && slots[i..j] == before[i + 1..j + 1] && slots[j + 1..n] == before[j + 1..]
      {
        assert slots[j + 1] == slots[j + 1..n][0];
        slots[j] := slots[j + 1];
        j := j + 1;
      }
      n := n - 1;
      assert slots[..n] == slots[..i] + slots[i..n];
    }

    /** drop's loop: every alias of a client, from the last entry down. */
    method DelClient(ci: int)
      requires Valid()
      modifies this, slots
      ensures Valid() && Contents() == KeepNames(old(Contents()), {ci})
    {
      hide KeepNames, DelName;
      ghost var before := Contents();
      var i := n;
      KeepTail(before, n, ci);
      while i > 0
        invariant 0 <= i <= n <= MAX_CLIENTS && Valid() && i <= |before|
        invariant Contents()[..i] == before[..i] && Contents()[i..] == KeepNames(before[i..], {ci})
      {
        i := i - 1;
        KeepTail(before, i, ci);
        DelStep(Contents(), before, i);
        if slots[i].ci == ci {
          DelAt(i);
        }
      }
      assert before[0..] == before && Contents()[0..] == Contents();
    }
  }

  lemma {:induction false} FindIs(names: seq<Entry>, name: Name, i: nat)
    requires i < |names| && names[i].name == name && forall j :: 0 <= j < i ==> names[j].name != name
    ensures FindName(names, name) == i
  {
    if i > 0 { FindIs(names[1..], name, i - 1); }
  }

  lemma {:induction false} FindNone(names: seq<Entry>, name: Name)
    requires forall j :: 0 <= j < |names| ==> names[j].name != name
    ensures FindName(names, name) == -1
  {
    if names != [] { FindNone(names[1..], name); }
  }

  /** One more entry from the top: kept in place, or deleted with the rest moved down. */
  lemma DelStep(now: seq<Entry>, before: seq<Entry>, i: nat)
    requires i < |now| && i < |before| && now[..i + 1] == before[..i + 1]
    ensures now[i] == before[i] && now[..i] == before[..i] && now[i..] == [now[i]] + now[i + 1..]
    ensures DelName(now, i)[..i] == before[..i] && DelName(now, i)[i..] == now[i + 1..] && |DelName(now, i)| >= i
  {
    assert now[i] == now[..i + 1][i] && before[i] == before[..i + 1][i];
    assert now[..i] == now[..i + 1][..i] && before[..i] == before[..i + 1][..i];
  }

  lemma KeepTail(names: seq<Entry>, i: nat, ci: int)
    requires i <= |names|
    ensures KeepNames(names[i..], {ci}) ==
      if i == |names| then [] else (if names[i].ci == ci then [] else [names[i]]) + KeepNames(names[i + 1..], {ci})
  {
    if i < |names| {
      assert names[i..][1..] == names[i + 1..];
      assert [] + KeepNames(names[i + 1..], {ci}) == KeepNames(names[i + 1..], {ci});
    }
  }

  /** THEOREM.  The array is never full when a client takes a name: once its old alias is
      gone, every entry is another client's. */
  lemma RoomForName(s: Core, ci: int, name: Name)
    requires NamesRight(s) && 0 <= ci < MAX_CLIENTS && FindName(Unaliased(s, ci, name), name) < 0
    ensures |Unaliased(s, ci, name)| < MAX_CLIENTS
  {
    hide DelName, FindName, Unaliased;
    var names := Unaliased(s, ci, name);
    OthersNames(s, ci, name);
    var cis := seq(|names|, i requires 0 <= i < |names| => names[i].ci) + [ci];
    forall i | 0 <= i < |names| ensures 0 <= cis[i] < MAX_CLIENTS && cis[i] != ci {
      assert names[i] in names;
    }
    forall i, j | 0 <= i < j < |names| ensures cis[i] != cis[j] {
      assert names[i] in names && names[j] in names;
    }
    DistinctBelow(cis, MAX_CLIENTS);
  }

  lemma OthersNames(s: Core, ci: int, name: Name)
    requires NamesRight(s) && 0 <= ci < MAX_CLIENTS && FindName(Unaliased(s, ci, name), name) < 0
    ensures
      var names := Unaliased(s, ci, name);
      DistinctNames(names) && forall e <- names :: e in s.names && e.ci != ci
  {
    hide DelName, FindName;
    var mine := s.clients[ci].name;
    if mine != [] && s.clients[ci].live {
      assert Entry(mine, ci) in s.names;
      var i := FindName(s.names, mine);
      DelNameIn(s.names, i);
    }
  }

  // ---------------------------------------------------------------- what a HELLO may say

  predicate NameByte(b: int) { 0x41 <= b <= 0x5A || 0x30 <= b <= 0x39 }

  predicate Padding(b: int) { b == 0 || b == 0x20 }

  function Stripped(s: seq<int>): (r: seq<int>)
    ensures r <= s && (r == [] || !Padding(r[|r| - 1])) && forall i :: |r| <= i < |s| ==> Padding(s[i])
    decreases |s|
  {
    if s != [] && Padding(s[|s| - 1]) then Stripped(s[..|s| - 1]) else s
  }

  /** The name in a HELLO payload, or nothing if the client is to be dropped for it. */
  function HelloName(payload: seq<int>): (name: Name)
    ensures name == [] || (2 <= |name| <= 8 && forall b <- name :: NameByte(b))
  {
    if |payload| < 3 || payload[0] != 2 then []
    else
      var name := Stripped(payload[1..]);
      if 2 <= |name| <= 8 && forall b <- name :: NameByte(b) then name else []
  }

  /** on_hello's checks, with its loops. */
  method ReadHello(payload: seq<int>) returns (name: Name)
    ensures name == HelloName(payload)
  {
    name := [];
    if |payload| < 3 {
      return;
    }
    if payload[0] != 2 {
      return;
    }
    var raw := payload[1..];
    var n := |raw|;
    assert raw[..n] == raw;
    while n > 0 && Padding(raw[n - 1])
      invariant 0 <= n <= |raw| && Stripped(raw) == Stripped(raw[..n])
    {
      assert raw[..n][..n - 1] == raw[..n - 1];
      n := n - 1;
    }
    assert Stripped(raw) == raw[..n];
    if n < 2 || n > 8 {
      return;
    }
    var i := 0;
    while i < n
      invariant 0 <= i <= n && forall j :: 0 <= j < i ==> NameByte(raw[j])
    {
      if !NameByte(raw[i]) {
        assert raw[i] == raw[..n][i] && raw[i] in raw[..n];
        return;
      }
      i := i + 1;
    }
    name := raw[..n];
  }

  /** Two ways to pad a name say the same name: round trip of the wire form.  A name is capital
      letters and digits. */
  lemma HelloRoundTrip(name: Name, pad: seq<int>)
    requires 2 <= |name| <= 8 && (forall b <- name :: 65 <= b <= 90 || 48 <= b <= 57)
    requires forall b <- pad :: b == 0 || b == 32
    ensures HelloName([2] + name + pad) == name
  {
    var payload := [2] + name + pad;
    assert payload[1..] == name + pad && name[|name| - 1] in name;
    StripPad(name, pad);
  }

  /** Nothing else says a name: the payload is version 2, the name and its padding. */
  lemma HelloSays(payload: seq<int>)
    requires HelloName(payload) != []
    ensures
      var name := HelloName(payload);
      && 2 <= |name| <= 8 && (forall b <- name :: 65 <= b <= 90 || 48 <= b <= 57)
      && exists pad: seq<int> :: payload == [2] + name + pad && forall b <- pad :: b == 0 || b == 32
  {
    hide Stripped;
    var name := HelloName(payload);
    var pad := payload[1 + |name|..];
    assert payload == [2] + name + pad;
    assert forall i :: 0 <= i < |pad| ==> pad[i] == payload[1..][|name| + i];
  }

  lemma {:induction false} StripPad(name: Name, pad: seq<int>)
    requires name != [] && !Padding(name[|name| - 1]) && forall b <- pad :: Padding(b)
    ensures Stripped(name + pad) == name
    decreases |pad|
  {
    if pad == [] {
      assert name + pad == name;
    } else {
      var n := |pad| - 1;
      assert pad[n] in pad && (name + pad)[..|name| + n] == name + pad[..n];
      StripPad(name, pad[..n]);
    }
  }
}
