/** The circular list of nameservers of evdns.c and the count of those believed to be up. */
module Nameservers {
  import opened Basics
  import opened Queues

  /** `struct nameserver` */
  datatype Server = Server(up: bool, timedout: nat, choked: bool, failedTimes: nat)

  /** `ring` lists the servers from server_head on; `good` is global_good_nameservers. */
  datatype Pool = Pool(servers: seq<Server>, ring: seq<nat>, good: int)

  predicate Known(ring: seq<nat>, n: nat) {
    forall i :: 0 <= i < |ring| ==> ring[i] < n
  }

  predicate UpAt(servers: seq<Server>, n: nat) {
    n < |servers| && servers[n].up
  }

  /** The servers of the ring that are up, in ring order. */
  function UpList(servers: seq<Server>, ring: seq<nat>): seq<nat> {
    if ring == [] then []
    else if UpAt(servers, ring[0]) then [ring[0]] + UpList(servers, ring[1..])
    else UpList(servers, ring[1..])
  }

  ghost predicate PoolOk(p: Pool) {
    Known(p.ring, |p.servers|) && NoDup(p.ring) && p.good == |UpList(p.servers, p.ring)|
  }

  // ----- facts about UpList -----

  lemma {:induction false} UpListConcat(servers: seq<Server>, q: seq<nat>, r: seq<nat>)
    ensures UpList(servers, q + r) == UpList(servers, q) + UpList(servers, r)
  {
    if q == [] {
      assert q + r == r;
    } else {
      assert (q + r)[1..] == q[1..] + r;
      UpListConcat(servers, q[1..], r);
    }
  }

  lemma {:induction false} UpListIn(servers: seq<Server>, ring: seq<nat>)
    ensures forall n :: n in UpList(servers, ring) <==> n in ring && UpAt(servers, n)
    ensures NoDup(ring) ==> NoDup(UpList(servers, ring))
  {
    if ring != [] {
      assert ring == [ring[0]] + ring[1..];
      UpListIn(servers, ring[1..]);
      assert NoDup(ring) ==> NoDup(ring[1..]) && ring[0] !in ring[1..];
    }
  }

  lemma {:induction false} UpListOther(servers: seq<Server>, ring: seq<nat>, n: nat, s: Server)
    requires n < |servers|
    ensures n !in ring || s.up == servers[n].up ==> UpList(servers[n := s], ring) == UpList(servers, ring)
  {
    if ring != [] {
      assert ring == [ring[0]] + ring[1..];
      UpListOther(servers, ring[1..], n, s);
    }
  }

  lemma {:induction false} UpListFlip(servers: seq<Server>, ring: seq<nat>, n: nat, s: Server)
    requires NoDup(ring) && n in ring && n < |servers| && s.up != servers[n].up
    ensures |UpList(servers[n := s], ring)| == |UpList(servers, ring)| + if s.up then 1 else -1
  {
    assert ring == [ring[0]] + ring[1..];
    if ring[0] == n {
      assert n !in ring[1..];
      UpListOther(servers, ring[1..], n, s);
    } else {
      UpListFlip(servers, ring[1..], n, s);
    }
  }

  lemma {:induction false} UpListGrow(servers: seq<Server>, ring: seq<nat>, s: Server)
    requires Known(ring, |servers|)
    ensures Known(ring, |servers + [s]|) && UpList(servers + [s], ring) == UpList(servers, ring)
  {
    if ring != [] {
      UpListGrow(servers, ring[1..], s);
    }
  }

  // ----- changes of state -----

  function ServerAt(p: Pool, n: nat): Server {
    if n < |p.servers| then p.servers[n] else Server(false, 0, false, 0)
  }

  function SetServer(p: Pool, n: nat, s: Server): Pool {
    if n < |p.servers| then p.(servers := p.servers[n := s]) else p
  }

  /** nameserver_up */
  function Raise(p: Pool, n: nat): Pool {
    if ServerAt(p, n).up then p
    else SetServer(p, n, ServerAt(p, n).(up := true, failedTimes := 0, timedout := 0)).(good := p.good + 1)
  }

  /** The first half of nameserver_failed. */
  function Lower(p: Pool, n: nat): Pool {
    if !ServerAt(p, n).up then p
    else SetServer(p, n, ServerAt(p, n).(up := false, failedTimes := 1)).(good := p.good - 1)
  }

  /** _evdns_nameserver_add_impl for a new address. */
  function Add(p: Pool): Pool {
    var n := |p.servers|;
    Pool(p.servers + [Server(true, 0, false, 0)],
         if p.ring == [] then [n] else [p.ring[0], n] + p.ring[1..], p.good + 1)
  }

  /** The servers' part of evdns_clear_nameservers_and_suspend. */
  function Clear(p: Pool): Pool {
    p.(ring := [], good := 0)
  }

  lemma {:induction false} SetServerOk(p: Pool, n: nat, s: Server)
    requires PoolOk(p) && s.up == ServerAt(p, n).up
    ensures PoolOk(SetServer(p, n, s))
  {
    if n < |p.servers| { UpListOther(p.servers, p.ring, n, s); }
  }

  lemma {:induction false} RaiseOk(p: Pool, n: nat)
    requires PoolOk(p) && n in p.ring
    ensures PoolOk(Raise(p, n)) && UpAt(Raise(p, n).servers, n)
  {
    if !p.servers[n].up {
      UpListFlip(p.servers, p.ring, n, p.servers[n].(up := true, failedTimes := 0, timedout := 0));
    }
  }

  /**
    Recovery clears the failures and the timeouts of the server and touches nothing else; a server that is up stays
    as is.
   */
  lemma {:induction false} RaiseIs(p: Pool, n: nat)
    requires n < |p.servers|
    ensures var r, v := Raise(p, n), p.servers[n];
      && r.ring == p.ring && |r.servers| == |p.servers| && r.good == p.good + (if v.up then 0 else 1)
      && (forall m :: 0 <= m < |p.servers| && m != n ==> r.servers[m] == p.servers[m])
      && r.servers[n].up && r.servers[n].choked == v.choked
      && (if v.up then r == p else r.servers[n].failedTimes == r.servers[n].timedout == 0)
  {
  }

  /** Failure counts the first of them and touches nothing else; a server that is down stays as it is. */
  lemma {:induction false} LowerIs(p: Pool, n: nat)
    requires n < |p.servers|
    ensures var r, v := Lower(p, n), p.servers[n];
      && r.ring == p.ring && |r.servers| == |p.servers| && r.good == p.good - (if v.up then 1 else 0)
      && (forall m :: 0 <= m < |p.servers| && m != n ==> r.servers[m] == p.servers[m])
      && !r.servers[n].up && r.servers[n].choked == v.choked && r.servers[n].timedout == v.timedout
      && (if v.up then r.servers[n].failedTimes == 1 else r == p)
  {
  }

  /** The assertion of nameserver_failed holds: the count stays non-negative. */
  lemma {:induction false} LowerOk(p: Pool, n: nat)
    requires PoolOk(p) && n in p.ring
    ensures PoolOk(Lower(p, n)) && !UpAt(Lower(p, n).servers, n) && Lower(p, n).good >= 0
  {
    if p.servers[n].up { UpListFlip(p.servers, p.ring, n, p.servers[n].(up := false, failedTimes := 1)); }
  }

  lemma {:induction false} AddOk(p: Pool)
    requires PoolOk(p)
    ensures PoolOk(Add(p)) && |p.servers| in Add(p).ring
    ensures forall n :: n in p.ring ==> n in Add(p).ring
  {
    var n, s := |p.servers|, Server(true, 0, false, 0);
    var servers := p.servers + [s];
    UpListGrow(p.servers, p.ring, s);
    if p.ring != [] {
      var h, rest := [p.ring[0]], p.ring[1..];
      assert p.ring == h + rest;
      UpListConcat(servers, h, rest);
      UpListConcat(servers, h, [n]);
      UpListConcat(servers, h + [n], rest);
      assert h + [n] == [p.ring[0], n];
    }
  }

  /** A new server is up, unharmed, and the second of the ring; the others keep their order. */
  lemma {:induction false} AddIs(p: Pool)
    ensures var r, n := Add(p), |p.servers|;
      && |r.servers| == n + 1 && r.servers[..n] == p.servers && r.servers[n].up && !r.servers[n].choked
      && r.servers[n].timedout == r.servers[n].failedTimes == 0 && r.good == p.good + 1
      && |r.ring| == |p.ring| + 1 && r.ring[if p.ring == [] then 0 else 1] == n
      && (p.ring != [] ==> r.ring[0] == p.ring[0] && r.ring[2..] == p.ring[1..])
  {
  }

  // ----- choosing a server -----

  function Rotated(ring: seq<nat>, k: nat): (r: seq<nat>)
    requires k <= |ring|
    ensures |r| == |ring|
  {
    ring[k..] + ring[..k]
  }

  /** How far the next up server is from the head. */
  function FirstUp(servers: seq<Server>, ring: seq<nat>): (k: nat)
    ensures k <= |ring| && (k < |ring| ==> UpAt(servers, ring[k]))
    ensures forall i :: 0 <= i < k ==> !UpAt(servers, ring[i])
  {
    if ring == [] || UpAt(servers, ring[0]) then 0 else 1 + FirstUp(servers, ring[1..])
  }

  /** nameserver_pick; the last case is the one its assertion rules out. */
  function Pick(p: Pool): (r: (Pool, Option<nat>))
    ensures r.1.None? <==> p.ring == []
  {
    if p.ring == [] then (p, None)
    else if p.good == 0 then (p.(ring := Rotated(p.ring, 1)), Some(Rotated(p.ring, 1)[0]))
    else
      var k := FirstUp(p.servers, p.ring);
      if k < |p.ring| then (p.(ring := Rotated(p.ring, k + 1)), Some(p.ring[k]))
      else (p.(ring := Rotated(p.ring, 1)), Some(p.ring[0]))
  }

  lemma {:induction false} RotatedOk(p: Pool, k: nat)
    requires PoolOk(p) && k <= |p.ring|
    ensures PoolOk(p.(ring := Rotated(p.ring, k)))
    ensures forall n :: n in Rotated(p.ring, k) <==> n in p.ring
    ensures UpList(p.servers, Rotated(p.ring, k)) == UpList(p.servers, p.ring[k..]) + UpList(p.servers, p.ring[..k])
  {
    var q, r := p.ring[..k], p.ring[k..];
    assert p.ring == q + r;
    UpListConcat(p.servers, q, r);
    UpListConcat(p.servers, r, q);
  }

  lemma {:induction false} NoneBefore(servers: seq<Server>, ring: seq<nat>)
    requires forall i :: 0 <= i < |ring| ==> !UpAt(servers, ring[i])
    ensures UpList(servers, ring) == []
  {
    if ring != [] { NoneBefore(servers, ring[1..]); }
  }

  lemma {:induction false} Single(servers: seq<Server>, n: nat)
    requires n < |servers| && servers[n].up
    ensures UpList(servers, [n]) == [n]
  {
  }

  /**
    A pick keeps the pool, returns a member of the ring, and an up one whenever there is one: the next in ring
    order.
   */
  lemma {:induction false} PickOk(p: Pool)
    requires PoolOk(p)
    ensures PoolOk(Pick(p).0) && Pick(p).0.servers == p.servers && Pick(p).0.good == p.good
    ensures forall n :: n in Pick(p).0.ring <==> n in p.ring
    ensures Pick(p).1.Some? ==> Pick(p).1.value in p.ring && Pick(p).1.value < |p.servers|
    ensures p.good != 0 ==> Pick(p).1 == Some(UpList(p.servers, p.ring)[0])
    ensures p.good != 0 ==>
      UpList(p.servers, Pick(p).0.ring) == UpList(p.servers, p.ring)[1..] + UpList(p.servers, p.ring)[..1]
  {
    hide UpList;
    if p.ring == [] {
      NoneBefore(p.servers, p.ring);
    } else if p.good == 0 {
      RotatedOk(p, 1);
    } else {
      var k := FirstUp(p.servers, p.ring);
      if k == |p.ring| { NoneBefore(p.servers, p.ring); }
      RotatedOk(p, k + 1);
      var q, x, r := p.ring[..k], [p.ring[k]], p.ring[k + 1..];
      NoneBefore(p.servers, q);
      UpListConcat(p.servers, q, x);
      assert p.ring[..k + 1] == q + x;
      assert p.ring == (q + x) + r;
      UpListConcat(p.servers, q + x, r);
      Single(p.servers, p.ring[k]);
    }
  }

  /**
    What a pick does to the ring: it turns to behind the server picked; the servers it passes over are down. With none
    up the ring turns by one, and its new head is picked.
   */
  lemma {:induction false} PickTurns(p: Pool) returns (k: nat)
    requires PoolOk(p) && p.ring != []
    ensures 0 < k <= |p.ring| && Pick(p).0 == p.(ring := p.ring[k..] + p.ring[..k]) && Pick(p).1.Some?
    ensures p.good == 0 ==> k == 1 && Pick(p).1.value == Pick(p).0.ring[0]
    ensures p.good != 0 ==> Pick(p).1.value == p.ring[k - 1] && UpAt(p.servers, p.ring[k - 1])
    ensures p.good != 0 ==> forall i :: 0 <= i < k - 1 ==> !UpAt(p.servers, p.ring[i])
  {
    hide UpList;
    k := 1;
    if p.good != 0 {
      k := FirstUp(p.servers, p.ring) + 1;
      if k - 1 == |p.ring| { NoneBefore(p.servers, p.ring); }
    }
  }

  /** The servers of `n` picks in a row. */
  function Picks(p: Pool, n: nat): (r: seq<nat>)
    requires PoolOk(p) && (n > 0 ==> p.ring != [])
    ensures |r| == n
    decreases n
  {
    if n == 0 then []
    else
      PickOk(p);
      assert Pick(p).1.value in Pick(p).0.ring;
      [Pick(p).1.value] + Picks(Pick(p).0, n - 1)
  }

  lemma {:induction false} FirstOnes(u: seq<nat>, n: nat)
    requires 0 < n <= |u|
    ensures [u[0]] + (u[1..] + u[..1])[..n - 1] == u[..n]
  {
  }

  lemma {:induction false} PicksAre(p: Pool, n: nat)
    requires PoolOk(p) && n <= p.good && (n > 0 ==> p.ring != [])
    ensures Picks(p, n) == UpList(p.servers, p.ring)[..n]
    decreases n
  {
    if n > 0 {
      hide UpList, Pick;
      var u := UpList(p.servers, p.ring);
      PickOk(p);
      assert Pick(p).1.value in Pick(p).0.ring;
      PicksAre(Pick(p).0, n - 1);
      FirstOnes(u, n);
    }
  }

  /** With k servers up, k picks in a row return k different servers, all up. */
  lemma {:induction false} PicksSpread(p: Pool)
    requires PoolOk(p) && p.ring != []
    ensures p.good >= 0 && NoDup(Picks(p, p.good))
    ensures forall n :: n in Picks(p, p.good) <==> n in p.ring && UpAt(p.servers, n)
  {
    PicksAre(p, p.good);
    UpListIn(p.servers, p.ring);
  }
}
