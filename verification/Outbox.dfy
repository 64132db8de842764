/** A client's outgoing bytes: queued whole or not at all, handed to the socket in whatever
    pieces it takes. */
module Outbox {
  const MAX_TX_BACKLOG := 64 * 1024

  /** What the socket does with one offer of n bytes. */
  datatype Reply = Took(n: nat) | Blocks | Fails

  /** A queue after some offers: what the socket has, what is still queued, whether the client
      is lost, and how many replies it took. */
  datatype Flow = Flow(sent: seq<int>, tx: seq<int>, dead: bool, used: nat)

  /** Offer the queue until it is empty, the socket blocks or it fails; a list of replies that
      runs out reads as blocking. */
  function Offered(sent: seq<int>, tx: seq<int>, replies: seq<Reply>): Flow
    decreases |replies|
  {
    if tx == [] || replies == [] then Flow(sent, tx, false, 0)
    else
      match replies[0]
      case Blocks => Flow(sent, tx, false, 1)
      case Fails => Flow(sent, tx, true, 1)
      case Took(n) =>
        if n == 0 then Flow(sent, tx, true, 1)
        else
          var taken := if n <= |tx| then n else |tx|;
          var rest := Offered(sent + tx[..taken], tx[taken..], replies[1..]);
          rest.(used := rest.used + 1)
  }

  /** THEOREM.  Whatever the socket takes, nothing is lost, reordered or duplicated, and the
      queue only shrinks. */
  lemma {:induction false} OffersConserve(sent: seq<int>, tx: seq<int>, replies: seq<Reply>)
    ensures var f := Offered(sent, tx, replies); f.sent + f.tx == sent + tx && |f.tx| <= |tx| && sent <= f.sent
    decreases |replies|
  {
    if tx != [] && replies != [] && replies[0].Took? && replies[0].n != 0 {
      var taken := if replies[0].n <= |tx| then replies[0].n else |tx|;
      OffersConserve(sent + tx[..taken], tx[taken..], replies[1..]);
      assert sent + tx == sent + tx[..taken] + tx[taken..];
    }
  }

  /** A socket that takes something every time empties the queue. */
  lemma {:induction false} WillingSocketDrains(sent: seq<int>, tx: seq<int>, replies: seq<Reply>)
    requires |replies| >= |tx| && forall r <- replies :: r.Took? && r.n > 0
    ensures Offered(sent, tx, replies).tx == [] && !Offered(sent, tx, replies).dead
    decreases |replies|
  {
    if tx != [] {
      assert replies[0] in replies;
      var taken := if replies[0].n <= |tx| then replies[0].n else |tx|;
      WillingSocketDrains(sent + tx[..taken], tx[taken..], replies[1..]);
    }
  }

  function Takes(replies: seq<Reply>): nat {
    if replies == [] then 0 else (if replies[0].Took? then replies[0].n else 0) + Takes(replies[1..])
  }

  /** THEOREM.  How a flush ends, by the first reply that takes nothing: with an empty queue if what was
      taken before is enough, and otherwise there, with the rest queued, and the client lost unless
      the socket only blocked. */
  lemma {:induction false} StopsAt(sent: seq<int>, tx: seq<int>, replies: seq<Reply>, i: nat)
    requires i < |replies| && (forall j :: 0 <= j < i ==> replies[j].Took? && replies[j].n > 0)
    requires replies[i].Took? ==> replies[i].n == 0
    ensures
      var f, n := Offered(sent, tx, replies), Takes(replies[..i]);
      if n >= |tx| then f.tx == [] && !f.dead
      else f.tx == tx[n..] && f.used == i + 1 && (f.dead <==> !replies[i].Blocks?)
    decreases i
  {
    if i > 0 {
      assert replies[..i][1..] == replies[1..][..i - 1];
      if tx != [] {
        var n := replies[0].n;
        var taken := if n <= |tx| then n else |tx|;
        StopsAt(sent + tx[..taken], tx[taken..], replies[1..], i - 1);
      }
    }
  }

  class Client {
    var tx: seq<int>
    var sent: seq<int>     // bytes the socket has taken
    var accepted: seq<int> // bytes send was called with and queued
    var dead: bool
    var drops: nat         // stats.tx_backlog_drops

    /** Nothing is lost, reordered or duplicated, and the queue is bounded. */
    predicate Valid()
      reads this
    {
      sent + tx == accepted && |tx| <= MAX_TX_BACKLOG
    }

    constructor ()
      ensures Valid() && accepted == [] && !dead && drops == 0
    {
      tx, sent, accepted, dead, drops := [], [], [], false, 0;
    }

    /** flush; `replies` is what the socket will answer. */
    method Flush(replies: seq<Reply>) returns (used: nat)
      requires Valid() && !dead
      modifies this
      ensures Flow(sent, tx, dead, used) == Offered(old(sent), old(tx), replies)
      ensures Valid() && accepted == old(accepted) && drops == old(drops)
    {
      used := 0;
      OffersConserve(sent, tx, replies);
      while tx != [] && used < |replies|
        invariant !dead && accepted == old(accepted) && drops == old(drops) && 0 <= used <= |replies|
        invariant
          var rest := Offered(sent, tx, replies[used..]);
          Offered(old(sent), old(tx), replies) == rest.(used := used + rest.used)
        decreases |replies| - used
      {
        var k := replies[used];
        assert replies[used..][0] == k && replies[used..][1..] == replies[used + 1..];
        used := used + 1;
        match k {
          case Blocks => return;
          case Fails =>
            dead := true;
            return;
          case Took(n) =>
            if n == 0 {
              dead := true;
              return;
            }
            var taken := if n <= |tx| then n else |tx|;
            sent := sent + tx[..taken];
            tx := tx[taken..];
        }
      }
    }

    /** send_raw: refuse what would overflow the backlog, and drop the client for it; otherwise
        queue it whole and flush. */
    method SendRaw(data: seq<int>, replies: seq<Reply>) returns (used: nat)
      requires Valid()
      modifies this
      ensures Valid()
      ensures
        if old(dead) || |old(tx)| + |data| > 65536 then
          accepted == old(accepted) && sent == old(sent) && tx == old(tx) && dead
          && drops == old(drops) + if old(dead) then 0 else 1
        else
          accepted == old(accepted) + data && drops == old(drops)
          && Flow(sent, tx, dead, used) == Offered(old(sent), old(tx) + data, replies)
    {
      used := 0;
      if dead {
        return;
      }
      if |tx| + |data| > MAX_TX_BACKLOG {
        drops := drops + 1;
        dead := true;
        return;
      }
      assert sent + (tx + data) == accepted + data;
      tx := tx + data;
      accepted := accepted + data;
      used := Flush(replies);
    }
  }

  datatype Offer = Offer(data: seq<int>, replies: seq<Reply>)

  function Total(offers: seq<Offer>): seq<int> {
    if offers == [] then [] else Total(offers[..|offers| - 1]) + offers[|offers| - 1].data
  }

  /** THEOREM.  Over any sends and any partial writes, while the client lives the bytes handed
      to its socket are a prefix of the bytes sent to it, the rest is queued, and the queue
      never exceeds 64 KiB. */
  method SendMany(c: Client, offers: seq<Offer>)
    requires c.Valid() && !c.dead
    modifies c
    ensures c.Valid()
    ensures !c.dead ==> c.sent + c.tx == old(c.accepted) + Total(offers) && |c.tx| <= 65536
  {
    var i := 0;
    while i < |offers|
      invariant 0 <= i <= |offers| && c.Valid()
      invariant !c.dead ==> c.accepted == old(c.accepted) + Total(offers[..i])
    {
      assert offers[..i + 1][..i] == offers[..i];
      var used := c.SendRaw(offers[i].data, offers[i].replies);
      i := i + 1;
    }
    assert offers[..i] == offers;
  }
}
