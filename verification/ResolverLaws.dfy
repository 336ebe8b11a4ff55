/**
  What each step of the request protocol does, case by case, in terms of the state before and after it: which server
  and which request change, what the user is told, and what is sent.
 */
module ResolverLaws {
  import opened Basics
  import opened Queues
  import opened Nameservers
  import opened Resolver
  import opened ResolverRequests
  import opened ResolverLookups
  import opened ResolverRuns
  import opened ResolverSafety

  // ----- a server fails -----

  /** The positions from `i` on of requests that still wait to be sent to server `n`. */
  function Movable(q: seq<Request>, n: nat, i: nat): seq<nat>
    decreases |q| - i
  {
    if i >= |q| then []
    else if q[i].tx == 0 && q[i].ns == n then [i] + Movable(q, n, i + 1)
    else Movable(q, n, i + 1)
  }

  lemma {:induction false} MovableAre(q: seq<Request>, n: nat, i: nat)
    ensures forall k :: k in Movable(q, n, i) <==> i <= k < |q| && q[k].tx == 0 && q[k].ns == n
    decreases |q| - i
  {
    if i < |q| { MovableAre(q, n, i + 1); }
  }

  lemma {:induction false} MovableSame(q: seq<Request>, q': seq<Request>, n: nat, i: nat)
    requires |q'| == |q| && forall k :: i <= k < |q| ==> q'[k] == q[k]
    ensures Movable(q', n, i) == Movable(q, n, i)
    decreases |q| - i
  {
    if i < |q| { MovableSame(q, q', n, i + 1); }
  }

  /** The requests at `moved` have the servers `picks`, one by one; nothing else changed. */
  ghost predicate MovedTo(q: seq<Request>, moved: seq<nat>, picks: seq<nat>, q': seq<Request>) {
    && |q'| == |q| && |picks| == |moved| && (forall j :: 0 <= j < |moved| ==> moved[j] < |q|)
    && (forall k :: 0 <= k < |q| && k !in moved ==> q'[k] == q[k])
    && forall j :: 0 <= j < |moved| ==> q'[moved[j]] == q[moved[j]].(ns := picks[j])
  }

  lemma {:induction false} MovedMore(q: seq<Request>, i: nat, p: nat, moved: seq<nat>, picks: seq<nat>,
                                     q': seq<Request>)
    requires i < |q| && i !in moved && MovedTo(q[i := q[i].(ns := p)], moved, picks, q')
    ensures MovedTo(q, [i] + moved, [p] + picks, q')
  {
    var m, ps := [i] + moved, [p] + picks;
    forall k | 0 <= k < |q| && k !in m ensures q'[k] == q[k] { assert m[0] == i && k !in moved; }
    forall j | 0 <= j < |m| ensures m[j] < |q| && q'[m[j]] == q[m[j]].(ns := ps[j]) {
      if j > 0 { assert m[j] == moved[j - 1] && ps[j] == picks[j - 1] && moved[j - 1] in moved; }
    }
  }

  lemma {:induction false} MovedNone(q: seq<Request>)
    ensures MovedTo(q, [], [], q)
  {
  }

  /** The requests not sent yet get the servers of as many picks, in ring order; nothing else changes. */
  lemma {:induction false} ReassignIs(s: State, n: nat, i: nat)
    requires PoolOk(s.pool) && s.pool.ring != []
    ensures var r, moved := Reassign(s, n, i), Movable(s.inflight, n, i);
      && MovedTo(s.inflight, moved, Picks(s.pool, |moved|), r.inflight)
      && r.pool.servers == s.pool.servers && r.pool.good == s.pool.good && r.sends == s.sends
      && (forall m :: m in r.pool.ring <==> m in s.pool.ring)
    decreases |s.inflight| - i
  {
    hide Pick, PoolOk, MovedTo;
    if i >= |s.inflight| {
      MovedNone(s.inflight);
    } else if s.inflight[i].tx == 0 && s.inflight[i].ns == n {
      PickOk(s.pool);
      assert s.pool.ring[0] in s.pool.ring;
      var m := SetRequest(s, i, s.inflight[i].(ns := Chosen(Pick(s.pool).1))).(pool := Pick(s.pool).0);
      ReassignIs(m, n, i + 1);
      MovableSame(s.inflight, m.inflight, n, i + 1);
      var rest := Movable(s.inflight, n, i + 1);
      MovableAre(s.inflight, n, i + 1);
      MovedMore(s.inflight, i, Pick(s.pool).1.value, rest, Picks(m.pool, |rest|), Reassign(m, n, i + 1).inflight);
    } else {
      ReassignIs(s, n, i + 1);
    }
  }

  /**
    Server `n` has failed: if it was up, it is down with one failure. If another one is up, every request that waited
    to be sent to it has one that is up; other requests and other servers are as before.
   */
  ghost predicate FailedAt(s: State, n: nat, t: State)
    requires n < |s.pool.servers|
  {
    && SameBooks(s, t) && t.sends == s.sends && |t.pool.servers| == |s.pool.servers|
    && (forall m :: m in t.pool.ring <==> m in s.pool.ring)
    && if !s.pool.servers[n].up then t == s
       else
         && t.pool.servers == s.pool.servers[n := s.pool.servers[n].(up := false, failedTimes := 1)]
         && t.pool.good == s.pool.good - 1
         && forall k :: 0 <= k < |s.inflight| ==>
              var r, r' := s.inflight[k], t.inflight[k];
              if r.tx == 0 && r.ns == n && t.pool.good != 0 then r' == r.(ns := r'.ns) && UpAt(t.pool.servers, r'.ns)
              else r' == r
  }

  lemma {:induction false} PicksUp(p: Pool, n: nat)
    requires PoolOk(p) && p.ring != [] && p.good != 0
    ensures forall j :: 0 <= j < n ==> UpAt(p.servers, Picks(p, n)[j])
    decreases n
  {
    hide PoolOk, UpList;
    if n > 0 {
      PickOk(p);
      assert p.ring[0] in p.ring;
      var k := PickTurns(p);
      hide Pick;
      PicksUp(Pick(p).0, n - 1);
    }
  }

  lemma {:induction false} FailedIs(s: State, n: nat)
    requires PoolOk(s.pool) && n in s.pool.ring
    ensures n < |s.pool.servers| && FailedAt(s, n, ServerFailed(s, n))
  {
    hide Reassign, Picks, UpList, NoDup;
    LowerOk(s.pool, n);
    LowerIs(s.pool, n);
    if s.pool.servers[n].up {
      var m := s.(pool := Lower(s.pool, n));
      ReassignIs(m, n, 0);
      var moved := Movable(m.inflight, n, 0);
      MovableAre(m.inflight, n, 0);
      if m.pool.good != 0 {
        PicksUp(m.pool, |moved|);
        forall k | 0 <= k < |s.inflight| && s.inflight[k].tx == 0 && s.inflight[k].ns == n
          ensures var r' := Reassign(m, n, 0).inflight[k];
            r' == s.inflight[k].(ns := r'.ns) && UpAt(m.pool.servers, r'.ns)
        {
          assert k in moved;
          var j :| 0 <= j < |moved| && moved[j] == k;
        }
      }
    }
  }

  // ----- a transmission -----

  /** What sending request `i` leaves, for each result of the socket. */
  ghost predicate Sending(s: State, i: nat, t: State)
    requires i < |s.inflight| && s.inflight[i].ns < |s.pool.servers|
  {
    var r, n := s.inflight[i], s.inflight[i].ns;
    var marked, sent := r.(transmitMe := true), r.(armed := true, tx := r.tx + 1, transmitMe := false);
    if s.pool.servers[n].choked then t == s.(inflight := s.inflight[i := marked])
    else if s.sends == [] || s.sends[0] == Sent then
      t == s.(inflight := s.inflight[i := sent], sends := if s.sends == [] then [] else s.sends[1..])
    else if s.sends[0] == Again then
      t == s.(inflight := s.inflight[i := marked], sends := s.sends[1..],
              pool := s.pool.(servers := s.pool.servers[n := s.pool.servers[n].(choked := true)]))
    else
      exists m: State :: FailedAt(s.(inflight := s.inflight[i := marked], sends := s.sends[1..]), n, m)
        && t == m.(inflight := m.inflight[i := sent.(ns := m.inflight[i].ns)])
  }

  lemma {:induction false} TransmitIs(s: State, i: nat)
    requires PoolOk(s.pool) && i < |s.inflight| && s.inflight[i].ns in s.pool.ring
    ensures s.inflight[i].ns < |s.pool.servers| && Sending(s, i, TransmitOne(s, i))
  {
    hide ServerFailed, UpList, NoDup, FailedAt;
    var n := s.inflight[i].ns;
    if !s.pool.servers[n].choked && s.sends != [] && s.sends[0] == Failed {
      var s2 := s.(inflight := s.inflight[i := s.inflight[i].(transmitMe := true)], sends := s.sends[1..]);
      FailedIs(s2, n);
      FailedKeeps(s2, n, i);
    }
  }

  /** No send fails for good. */
  predicate NoFailures(sends: seq<Send>) {
    forall k :: 0 <= k < |sends| ==> sends[k] != Failed
  }

  /** Each request was not to be sent and is as before, or was sent, or its server is choked. */
  ghost predicate TriedAt(s: State, k: nat, t: State)
    requires k < |s.inflight| == |t.inflight|
  {
    var r, r' := s.inflight[k], t.inflight[k];
    if !r.transmitMe then r' == r
    else r' == r.(armed := true, tx := r.tx + 1, transmitMe := false) || (r' == r && ServerAt(t.pool, r.ns).choked)
  }

  /** Servers only get choked. */
  ghost predicate OnlyChokes(s: State, t: State) {
    && NoFailures(t.sends) && t.pool == s.pool.(servers := t.pool.servers) && |t.pool.servers| == |s.pool.servers|
    && forall n :: 0 <= n < |s.pool.servers| ==>
        t.pool.servers[n] == s.pool.servers[n].(choked := t.pool.servers[n].choked)
        && (s.pool.servers[n].choked ==> t.pool.servers[n].choked)
  }

  lemma {:induction false} TransmitTries(s: State, i: nat)
    requires Fine(s) && i < |s.inflight| && s.inflight[i].transmitMe && NoFailures(s.sends)
    ensures var t := TransmitOne(s, i);
      && OnlyChokes(s, t) && |t.inflight| == |s.inflight| && TriedAt(s, i, t)
      && forall k :: 0 <= k < |s.inflight| && k != i ==> t.inflight[k] == s.inflight[k]
  {
    hide Fine, PoolOk, TransmitOne, FailedAt;
    FineAt(s, i);
    FinePool(s);
    TransmitIs(s, i);
  }

  /** A walk over the ring that meets no hard failure tries every request that is to be sent. */
  lemma {:induction false} TransmitAllTries(s: State, i: nat)
    requires Fine(s) && i <= |s.inflight| && NoFailures(s.sends)
    ensures var t := TransmitAll(s, i);
      && OnlyChokes(s, t) && |t.inflight| == |s.inflight|
      && forall k :: 0 <= k < |s.inflight| ==> if k < i then t.inflight[k] == s.inflight[k] else TriedAt(s, k, t)
    decreases |s.inflight| - i
  {
    hide Fine, TransmitOne, NoFailures;
    if i < |s.inflight| {
      var m := s;
      if s.inflight[i].transmitMe {
        m := TransmitOne(s, i);
        TransmitTries(s, i);
        TransmitProgress(s, i);
        ProgressFine(s, m);
      }
      TransmitAllTries(m, i + 1);
    }
  }

  // ----- requests come and go -----

  /** A new last request of the inflight ring: sent, or marked because its server is choked. */
  ghost predicate Entered(r: Request, ns: nat, t: State)
    requires t.inflight != []
  {
    var r' := t.inflight[|t.inflight| - 1];
    || r' == r.(ns := ns, armed := true, tx := r.tx + 1, transmitMe := false)
    || (r' == r.(ns := ns, transmitMe := true) && ServerAt(t.pool, ns).choked)
  }

  /**
    A new request goes to the next server that is up and is sent if there is room in flight; otherwise it waits, last
    of all.
   */
  lemma {:induction false} SubmitIs(s: State, r: Request)
    requires Fine(s) && NewRequest(s.cfg, r) && NoFailures(s.sends)
    ensures var t := Submit(s, r);
      if s.nInflight < s.cfg.maxInflight && s.pool.ring != [] then
        && |t.inflight| == |s.inflight| + 1 && t.inflight[..|s.inflight|] == s.inflight && t.waiting == s.waiting
        && Entered(r, Chosen(Pick(s.pool).1), t) && t.nInflight == s.nInflight + 1
      else t.inflight == s.inflight && t.waiting == s.waiting + [r] && t.nWaiting == s.nWaiting + 1
  {
    hide Fine, PoolOk, Pick, TransmitOne, NoFailures;
    ResolverRuns.SubmitIs(s, r);
    PlacedGrows(s, r);
    FinePool(s);
    PickOk(s.pool);
    var m := Placed(s, r);
    if |m.inflight| > |s.inflight| {
      TransmitTries(m, |s.inflight|);
      var t := TransmitOne(m, |s.inflight|);
      assert t.inflight[..|s.inflight|] == m.inflight[..|s.inflight|] == s.inflight;
    }
  }

  /** With no hard failure no server goes down or comes up. */
  ghost predicate Harmless(s: State, t: State) {
    NoFailures(s.sends) ==>
      && NoFailures(t.sends) && |t.pool.servers| == |s.pool.servers|
      && forall n :: UpAt(t.pool.servers, n) <==> UpAt(s.pool.servers, n)
  }

  lemma {:induction false} TransmitHarmless(s: State, i: nat)
    requires Fine(s) && i < |s.inflight| && s.inflight[i].transmitMe
    ensures Harmless(s, TransmitOne(s, i))
  {
    hide Fine, TransmitOne, TriedAt;
    if NoFailures(s.sends) { TransmitTries(s, i); }
  }

  lemma {:induction false} PlacedHarmless(s: State, r: Request)
    requires PoolOk(s.pool)
    ensures Harmless(s, Placed(s, r))
  {
    hide PoolOk, Pick;
    PickOk(s.pool);
  }

  lemma {:induction false} HarmlessTrans(s: State, m: State, t: State)
    requires Harmless(s, m) && Harmless(m, t)
    ensures Harmless(s, t)
  {
  }

  lemma {:induction false} SubmitHarmless(s: State, r: Request)
    requires Fine(s) && NewRequest(s.cfg, r)
    ensures Harmless(s, Submit(s, r))
  {
    hide Fine, PoolOk, Pick, TransmitOne, NoFailures, Harmless, NewRequest;
    ResolverRuns.SubmitIs(s, r);
    PlacedGrows(s, r);
    FinePool(s);
    PickOk(s.pool);
    var m := Placed(s, r);
    assert Harmless(s, m) by { PlacedHarmless(s, r); }
    if |m.inflight| > |s.inflight| {
      TransmitHarmless(m, |s.inflight|);
      HarmlessTrans(s, m, TransmitOne(m, |s.inflight|));
    }
  }

  function Built(asks: seq<Ask>): nat {
    if asks == [] then 0 else (if asks[0].built then 1 else 0) + Built(asks[1..])
  }

  /** A lookup is accepted under the next number and starts with the first of its candidates. */
  lemma {:induction false} ResolveIs(s: State, a: Ask) returns (r: Request)
    requires Fine(s)
    ensures !a.built ==> Resolve(s, a) == s
    ensures a.built ==>
      && NewRequest(s.cfg, r) && r.owner == Lookup(s.accepted) && Fine(s.(accepted := s.accepted + 1))
      && [r.name] + Remaining(s.cfg, r.search) == Candidates(s.cfg, a.name, a.noSearch)
      && Resolve(s, a) == Submit(s.(accepted := s.accepted + 1), r)
    ensures Resolve(s, a).completed == s.completed && Harmless(s, Resolve(s, a))
    ensures Resolve(s, a).accepted == s.accepted + if a.built then 1 else 0
  {
    hide Fine, Submit, FirstName, Remaining, Candidates, NoFailures;
    var (name, search) := FirstName(s.cfg, a.name, a.noSearch);
    FirstNameIs(s.cfg, a.name, a.noSearch);
    r := Fresh(Lookup(s.accepted), name, search);
    if a.built {
      var m := s.(accepted := s.accepted + 1);
      AcceptFine(s);
      SubmitCarried(m, r, 0);
      SubmitHarmless(m, r);
    }
  }

  lemma {:induction false} HarmlessSame(s: State)
    ensures Harmless(s, s)
  {
  }

  lemma {:induction false} ResolveAllKeeps(s: State, asks: seq<Ask>)
    requires Fine(s)
    ensures var t := ResolveAll(s, asks);
      t.completed == s.completed && t.accepted == s.accepted + Built(asks) && Harmless(s, t)
    decreases |asks|
  {
    hide Fine, Resolve, Harmless;
    if asks == [] {
      assert Harmless(s, s) by { HarmlessSame(s); }
    } else {
      var _ := ResolveIs(s, asks[0]);
      ResolveEvolves(s, asks[0], 0);
      ResolveAllKeeps(Resolve(s, asks[0]), asks[1..]);
      HarmlessTrans(s, Resolve(s, asks[0]), ResolveAll(s, asks));
    }
  }

  /** Server `n` counts one failure more if it is down, and is as before if it is up. */
  ghost predicate FailedAgain(p: Pool, n: nat, q: Pool)
    requires n < |p.servers|
  {
    var v := p.servers[n];
    q == if v.up then p else p.(servers := p.servers[n := v.(failedTimes := v.failedTimes + 1)])
  }

  /** Server `n` is up again: without failures and timeouts if it was down, and otherwise as it was. */
  ghost predicate RaisedAt(p: Pool, n: nat, q: Pool)
    requires n < |p.servers|
  {
    if p.servers[n].up then q == p
    else q == p.(servers := p.servers[n := Server(true, 0, p.servers[n].choked, 0)], good := p.good + 1)
  }

  /** A user's callback is told the error once and starts its further lookups; a probe's answer judges its server. */
  ghost predicate AnsweredAs(s: State, i: nat, err: Err, asks: seq<Ask>, t: State)
    requires i < |s.inflight|
  {
    var r := s.inflight[i];
    match r.owner
    case Lookup(id) =>
      && t.completed == s.completed + [Result(id, err)] && t.accepted == s.accepted + Built(asks) && Harmless(s, t)
    case Probe(n) =>
      && n < |s.pool.servers| && t == s.(inflight := s.inflight[i := r.(answered := true)], pool := t.pool)
      && if err == NoError || err == NotExist then RaisedAt(s.pool, n, t.pool) else FailedAgain(s.pool, n, t.pool)
  }

  lemma {:induction false} MarkHarmless(s: State, m: State)
    requires m.sends == s.sends && m.pool == s.pool
    ensures Harmless(s, m)
  {
  }

  lemma {:induction false} RingServer(p: Pool, n: nat)
    requires PoolOk(p) && n in p.ring
    ensures n < |p.servers|
  {
    hide UpList;
  }

  /** The callback of a lookup, once its request is marked as answered. */
  lemma {:induction false} ToldIs(s: State, i: nat, id: nat, err: Err, asks: seq<Ask>)
    requires Fine(s) && i < |s.inflight| && !s.inflight[i].answered
    ensures var m := Marked(s, i, s.inflight[i].armed).(completed := s.completed + [Result(id, err)]);
      var t := ResolveAll(m, asks);
      && t.completed == m.completed && t.accepted == s.accepted + Built(asks) && Harmless(s, t)
      && |s.inflight| <= |t.inflight| && t.inflight[i].answered
  {
    hide Fine, ResolveAll, Harmless, Stale, Evolves, AllAged;
    MarkedFine(s, i, s.inflight[i].armed);
    var m := Marked(s, i, s.inflight[i].armed);
    FineCompleted(m, s.completed + [Result(id, err)]);
    var m' := m.(completed := s.completed + [Result(id, err)]);
    ResolveAllKeeps(m', asks);
    MarkHarmless(s, m');
    HarmlessTrans(s, m', ResolveAll(m', asks));
    ResolveAllEvolves(m', asks, 0);
    AnsweredStays(m', ResolveAll(m', asks), i);
  }

  lemma {:induction false} ProbeJudges(p: Pool, n: nat)
    requires n < |p.servers|
    ensures RaisedAt(p, n, Raise(p, n)) && FailedAgain(p, n, ProbeFailed(p, n))
  {
    RaiseIs(p, n);
  }

  lemma {:induction false} AnswerIs(s: State, i: nat, err: Err, asks: seq<Ask>)
    requires Fine(s) && i < |s.inflight| && !s.inflight[i].answered
    ensures Fine(Answer(s, i, err, asks)) && AnsweredAs(s, i, err, asks, Answer(s, i, err, asks))
    ensures i < |Answer(s, i, err, asks).inflight| && Answer(s, i, err, asks).inflight[i].answered
  {
    hide Fine, ResolveAll, PoolOk, Harmless, Stale, Raise, ProbeFailed, RaisedAt, FailedAgain;
    var r := s.inflight[i];
    assert SetRequest(s, i, r.(armed := r.armed)) == s;
    AnswerGrows(s, i, r.armed, err, asks);
    match r.owner
    case Lookup(id) =>
      ToldIs(s, i, id, err, asks);
    case Probe(n) =>
      FineAt(s, i);
      FinePool(s);
      RingServer(s.pool, n);
      ProbeJudges(s.pool, n);
  }

  // ----- requests leave -----

  lemma {:induction false} PumpShrinks(s: State)
    ensures |Pump(s).waiting| <= |s.waiting| && (|Pump(s).waiting| == |s.waiting| ==> Pump(s) == s)
    decreases |s.waiting|
  {
    hide Promote;
    if s.nInflight < s.cfg.maxInflight && s.nWaiting != 0 && s.waiting != [] { PumpShrinks(Promote(s)); }
  }

  lemma {:induction false} SendsKept(s: State, u: State)
    requires Harmless(s, u) && NoFailures(s.sends)
    ensures NoFailures(u.sends)
  {
  }

  lemma {:induction false} ShiftHarmless(s: State)
    requires PoolOk(s.pool) && s.waiting != []
    ensures Harmless(s, Shifted(s))
  {
    hide PoolOk, Pick;
    PickOk(s.pool);
  }

  lemma {:induction false} TransmitAllHarmless(s: State, i: nat)
    requires Fine(s) && i <= |s.inflight|
    ensures Harmless(s, TransmitAll(s, i))
  {
    hide Fine, TransmitAll, TriedAt;
    if NoFailures(s.sends) { TransmitAllTries(s, i); }
  }

  /** The head of the waiting ring goes in flight with a server; then all that is to be sent is tried. */
  lemma {:induction false} PromoteTries(s: State)
    requires Fine(s) && s.waiting != [] && s.pool.ring != [] && s.nInflight < s.cfg.maxInflight
    ensures Harmless(s, Promote(s))
    ensures NoFailures(s.sends) ==> forall k :: 0 <= k < |Promote(s).inflight| && Promote(s).inflight[k].transmitMe ==>
      ServerAt(Promote(s).pool, Promote(s).inflight[k].ns).choked
  {
    hide Fine, Pick, AllAged, TransmitOne, TransmitAll, Moves, PoolOk, Harmless, NoFailures;
    var m, k := Shifted(s), |s.inflight|;
    ShiftedMoves(s);
    MovesFine(s, m);
    FinePool(s);
    PickOk(s.pool);
    assert Harmless(s, m) by { ShiftHarmless(s); }
    TransmitProgress(m, k);
    TransmitHarmless(m, k);
    var u := TransmitOne(m, k);
    ProgressFine(m, u);
    TransmitAllHarmless(u, 0);
    HarmlessTrans(s, m, u);
    HarmlessTrans(s, u, Promote(s));
    if NoFailures(s.sends) {
      assert NoFailures(u.sends) by { SendsKept(s, u); }
      TransmitAllTries(u, 0);
    }
  }

  lemma {:induction false} PumpHarmless(s: State)
    requires Fine(s) && (s.pool.ring != [] || s.waiting == [])
    ensures Harmless(s, Pump(s))
    ensures NoFailures(s.sends) && |Pump(s).waiting| < |s.waiting| ==>
      forall k :: 0 <= k < |Pump(s).inflight| && Pump(s).inflight[k].transmitMe ==>
        ServerAt(Pump(s).pool, Pump(s).inflight[k].ns).choked
    decreases |s.waiting|
  {
    hide Fine, Promote, Moves, Harmless, NoFailures;
    FineCounts(s);
    if s.nInflight < s.cfg.maxInflight && s.nWaiting != 0 && s.waiting != [] {
      PromoteMoves(s);
      MovesFine(s, Promote(s));
      PromoteTries(s);
      PumpHarmless(Promote(s));
      PumpShrinks(Promote(s));
      HarmlessTrans(s, Promote(s), Pump(s));
      if NoFailures(s.sends) { SendsKept(s, Promote(s)); }
    } else {
      HarmlessSame(s);
    }
  }

  /** A request leaves the inflight ring; the others keep their order, and waiting ones may move up. */
  lemma {:induction false} FinishIs(s: State, i: nat)
    requires Fine(s) && i < |s.inflight|
    ensures var t := Finish(s, i);
      && Fine(t) && t.cfg == s.cfg && t.completed == s.completed && t.accepted == s.accepted
      && AllAged(s.cfg, Remove(s.inflight, i) + s.waiting, All(t)) && Harmless(s, t)
      && (t.waiting == [] || t.nInflight >= s.cfg.maxInflight)
  {
    hide Fine, Pump, AllAged, Harmless;
    FineAt(s, i);
    RemoveFine(s, i);
    var m := s.(inflight := Remove(s.inflight, i), nInflight := s.nInflight - 1);
    PumpMoves(m);
    MarkHarmless(s, m);
    PumpHarmless(m);
    HarmlessTrans(s, m, Pump(m));
  }

  // ----- replies -----

  /** The truncation bit and the four bits of the error code are clear; section 4.1.1 of RFC 1035. */
  predicate Clean(flags: nat) {
    Bit(flags, 9) == Bit(flags, 3) == Bit(flags, 2) == Bit(flags, 1) == Bit(flags, 0) == 0
  }

  predicate AnswersWell(flags: nat, hasAnswer: bool) {
    Clean(flags) && hasAnswer
  }

  /** What any other reply is taken for. */
  predicate Means(flags: nat, err: Err) {
    var code := 8 * Bit(flags, 3) + 4 * Bit(flags, 2) + 2 * Bit(flags, 1) + Bit(flags, 0);
    && err != NoError && err != TimedOut
    && (err == Truncated <==> Bit(flags, 9) == 1)
    && (err == Format <==> Bit(flags, 9) == 0 && code == 1)
    && (err == ServerBroken <==> Bit(flags, 9) == 0 && code == 2)
    && (err == NotExist <==> Bit(flags, 9) == 0 && code == 3)
    && (err == NotImplemented <==> Bit(flags, 9) == 0 && code == 4)
    && (err == Refused <==> Bit(flags, 9) == 0 && code == 5)
  }

  lemma {:induction false} FlagsMean(flags: nat, hasAnswer: bool)
    ensures BadReply(flags, hasAnswer) <==> !AnswersWell(flags, hasAnswer)
    ensures Means(flags, ErrorOf(flags))
  {
    Powers();
    FourBits(flags);
    hide Pow2;
    assert Bit(flags, 9) == flags / 0x200 % 2;
    hide Bit;
  }

  /** A request moved on: another server, not sent yet, one reissue more. */
  ghost predicate ReissuedAt(s: State, i: nat, t: State, moved: bool)
    requires i < |s.inflight|
  {
    && SameBooks(s, t) && t.sends == s.sends && t.pool.servers == s.pool.servers && t.pool.good == s.pool.good
    && (forall n :: n in t.pool.ring <==> n in s.pool.ring)
    && (var r := s.inflight[i];
        if moved then
          exists ns :: ns != r.ns && ns in s.pool.ring && (s.pool.good != 0 ==> UpAt(s.pool.servers, ns))
            && t.inflight == s.inflight[i := r.(ns := ns, reissues := r.reissues + 1, tx := 0, transmitMe := true)]
        else t.inflight == s.inflight && (s.pool.good != 0 ==> UpAt(s.pool.servers, r.ns)))
  }

  lemma {:induction false} ReissueIs(s: State, i: nat)
    requires Fine(s) && i < |s.inflight|
    ensures ReissuedAt(s, i, Reissue(s, i).0, Reissue(s, i).1)
  {
    hide Fine, Pick, PoolOk, UpList;
    FineAt(s, i);
    FinePool(s);
    PickOk(s.pool);
    var k := PickTurns(s.pool);
    assert s.pool.ring[0] in s.pool.ring;
  }

  /**
    What an error says: not implemented and refused bring the server down and move the request on, as long as it may
    be reissued; a broken server is left alone, as these two are without reissues left; any other error shows that the
    server is up.
   */
  ghost predicate JudgedAs(s: State, i: nat, err: Err, t: State, moved: bool)
    requires i < |s.inflight|
  {
    var r, n := s.inflight[i], s.inflight[i].ns;
    n < |s.pool.servers| &&
    if (err == NotImplemented || err == Refused) && r.reissues < s.cfg.maxReissues then
      exists m: State :: FailedAt(s, n, m) && ReissuedAt(m, i, t, moved)
    else
      && !moved && t == s.(pool := t.pool)
      && if err in {ServerBroken, NotImplemented, Refused} then t.pool == s.pool else RaisedAt(s.pool, n, t.pool)
  }

  lemma {:induction false} JudgeIs(s: State, i: nat, err: Err)
    requires Fine(s) && i < |s.inflight|
    ensures JudgedAs(s, i, err, Judge(s, i, err).0, Judge(s, i, err).1)
  {
    hide Fine, Reissue, ServerFailed, PoolOk, FailedAt, ReissuedAt;
    FineAt(s, i);
    FinePool(s);
    var n := s.inflight[i].ns;
    RingServer(s.pool, n);
    RaiseIs(s.pool, n);
    FailedIs(s, n);
    FailedProgress(s, n);
    ProgressFine(s, ServerFailed(s, n));
    ReissueIs(ServerFailed(s, n), i);
  }

  /** Some request carries the lookup, asks for `name`, and has the candidates `rest` left. */
  ghost predicate Asks(s: State, id: nat, name: string, rest: seq<string>) {
    exists k :: 0 <= k < |All(s)| && Carries(All(s)[k], id) && All(s)[k].name == name
                && SearchOk(s.cfg, All(s)[k].search) && Remaining(s.cfg, All(s)[k].search) == rest
  }

  lemma {:induction false} AsksAged(s: State, t: State, q: seq<Request>, k: nat, id: nat)
    requires k < |q| && AllAged(s.cfg, q, All(t)) && t.cfg == s.cfg && Carries(q[k], id) && SearchOk(s.cfg, q[k].search)
    ensures Asks(t, id, q[k].name, Remaining(s.cfg, q[k].search))
  {
    hide RankOf, Remaining;
    assert Aged(s.cfg, q[k], All(t)[k]);
  }

  lemma {:induction false} SubmittedAt(s: State, r: Request)
    requires Fine(s) && NewRequest(s.cfg, r)
    ensures var u := Submit(s, r);
      && (|u.inflight| == |s.inflight| + 1 || (|u.inflight| == |s.inflight| && u.waiting != []))
      && var r' := if |u.inflight| > |s.inflight| then u.inflight[|s.inflight|] else u.waiting[|u.waiting| - 1];
        r'.owner == r.owner && r'.answered == r.answered && r'.name == r.name && r'.search == r.search
  {
    hide Fine, Pick, TransmitOne, RankOf;
    ResolverRuns.SubmitIs(s, r);
    PlacedGrows(s, r);
    var m := Placed(s, r);
    if |m.inflight| > |s.inflight| {
      TransmitProgress(m, |s.inflight|);
      assert Aged(m.cfg, m.inflight[|s.inflight|], TransmitOne(m, |s.inflight|).inflight[|s.inflight|]);
    }
  }

  /** Where a submitted request stands, once another one has left the ring. */
  lemma {:induction false} SubmittedAsks(s: State, i: nat, r: Request, id: nat)
    requires Fine(s) && NewRequest(s.cfg, r) && i < |s.inflight| && s.inflight[i].answered && Carries(r, id)
    ensures i < |Submit(s, r).inflight|
    ensures Asks(Finish(Submit(s, r), i), id, r.name, Remaining(s.cfg, r.search))
  {
    hide Fine, Submit, Finish, Remaining, RankOf, Asks, Stale;
    var p, u := Placed(s, r), Submit(s, r);
    SubmitGrows(s, r);
    SubmittedAt(s, r);
    FinishIs(u, i);
    var q := Remove(u.inflight, i) + u.waiting;
    var k := if |u.inflight| > |s.inflight| then |s.inflight| - 1 else |q| - 1;
    SubmitCarried(s, r, id);
    AsksAged(u, Finish(u, i), q, k, id);
  }

  lemma {:induction false} RaiseKeepsRing(p: Pool, n: nat)
    ensures Raise(p, n).ring == p.ring
  {
  }

  /**
    A reply that answers well: the user is told so once, the server is up when the request leaves, and stays up unless
    a send to it fails.
   */
  lemma {:induction false} GoodReplyIs(s: State, i: nat, flags: nat, hasAnswer: bool, built: bool, asks: seq<Ask>)
    returns (a: State)
    requires Settled(s) && i < |s.inflight| && AnswersWell(flags, hasAnswer)
    ensures var t, r := HandleReply(s, i, flags, hasAnswer, built, asks), s.inflight[i];
      && (r.owner.Lookup? ==> t.completed == s.completed + [Result(r.owner.id, NoError)])
      && (r.owner.Probe? ==> t.completed == s.completed)
      && i < |a.inflight| && a.inflight[i].answered && UpAt(a.pool.servers, a.inflight[i].ns) && t == Finish(a, i)
      && Harmless(a, t)
  {
    hide Fine, Answer, Finish, Stale, Harmless, PoolOk, UpList;
    FlagsMean(flags, hasAnswer);
    StaleAt(s, i);
    AnswerIs(s, i, NoError, asks);
    var m := Answer(s, i, NoError, asks);
    FineAt(m, i);
    FinePool(m);
    RaiseOk(m.pool, m.inflight[i].ns);
    a := m.(pool := Raise(m.pool, m.inflight[i].ns));
    RaiseKeepsRing(m.pool, m.inflight[i].ns);
    ProgressPool(m, a.pool);
    ProgressFine(m, a);
    FinishIs(a, i);
  }

  /** An error that does not move the request leaves it as it was, up to its place and its server's state. */
  lemma {:induction false} JudgedSame(s: State, i: nat, err: Err, m: State)
    requires Fine(s) && i < |s.inflight| && Progress(s, m)
    ensures m.completed == s.completed && m.cfg == s.cfg && |m.inflight| == |s.inflight| && Fine(m)
    ensures m.inflight[i].owner == s.inflight[i].owner && m.inflight[i].search == s.inflight[i].search
    ensures m.inflight[i].answered == s.inflight[i].answered
  {
    hide Fine, RankOf;
    assert Aged(s.cfg, s.inflight[i], m.inflight[i]);
  }

  lemma {:induction false} GaveUp(s: State, m: State, i: nat, err: Err, built: bool, asks: seq<Ask>)
    requires Settled(s) && i < |s.inflight| && Progress(s, m) && !s.inflight[i].answered
    requires SearchOk(s.cfg, s.inflight[i].search)
    ensures i < |m.inflight|
    ensures var t, r := GiveUp(m, i, err, built, asks), s.inflight[i];
      && (r.owner.Lookup? ==>
          var left := Remaining(s.cfg, r.search);
          if left != [] && built then t.completed == s.completed && Asks(t, r.owner.id, left[0], left[1..])
          else t.completed == s.completed + [Result(r.owner.id, err)])
      && (r.owner.Probe? ==> t.completed == s.completed)
  {
    hide Fine, Finish, Stale, Answer, Submit, Remaining, NextName, Asks, Progress;
    JudgedSame(s, i, err, m);
    var r := m.inflight[i];
    FineAt(m, i);
    NextNameIs(m.cfg, r.search);
    var next := Following(m.cfg, r);
    if next.Some? && built {
      assert r.owner.Lookup? by { if r.search.None? { NoNext(m.cfg, r); } }
      MarkedFine(m, i, r.armed);
      var u, heir := Marked(m, i, r.armed), Fresh(r.owner, next.value.0, next.value.1);
      assert SetRequest(m, i, r.(answered := true)) == u;
      SubmittedAsks(u, i, heir, r.owner.id);
      SubmitCarried(u, heir, 0);
      SubmitGrows(u, heir);
      FinishIs(Submit(u, heir), i);
    } else {
      AnswerIs(m, i, err, asks);
      FinishIs(Answer(m, i, err, asks), i);
    }
  }

  /**
    Any other reply: `m` is the state after the error has been judged. A request that moved on is not answered; else
    the next candidate of its search takes the lookup over, if there is one and its packet can be built; else the user
    is told the error, which is never the one for success.
   */
  lemma {:induction false} BadReplyIs(s: State, i: nat, flags: nat, hasAnswer: bool, built: bool, asks: seq<Ask>)
    returns (err: Err, m: State, moved: bool)
    requires Settled(s) && i < |s.inflight| && !AnswersWell(flags, hasAnswer)
    ensures Means(flags, err) && JudgedAs(s, i, err, m, moved)
    ensures var t, r := HandleReply(s, i, flags, hasAnswer, built, asks), s.inflight[i];
      && SearchOk(s.cfg, r.search)
      && (moved ==> t == m)
      && (!moved && r.owner.Lookup? ==>
          var left := Remaining(s.cfg, r.search);
          if left != [] && built then t.completed == s.completed && Asks(t, r.owner.id, left[0], left[1..])
          else t.completed == s.completed + [Result(r.owner.id, err)])
      && (!moved && r.owner.Probe? ==> t.completed == s.completed)
  {
    hide Fine, Judge, Finish, Stale, Answer, Submit, Remaining, NextName, JudgedAs, Means, AnswersWell, Asks, ErrorOf;
    FlagsMean(flags, hasAnswer);
    StaleAt(s, i);
    FineAt(s, i);
    err := ErrorOf(flags);
    m, moved := Judge(s, i, err).0, Judge(s, i, err).1;
    JudgeIs(s, i, err);
    JudgeHandled(s, i, err);
    if !moved {
      JudgedSame(s, i, err, m);
      GaveUp(s, m, i, err, built, asks);
    }
  }

  // ----- timeouts, probes, suspension -----

  /** One timeout more; the server fails, and starts counting anew, when they are more than allowed in a row. */
  ghost predicate TimedOutAt(s: State, n: nat, t: State)
    requires n < |s.pool.servers|
  {
    var v := s.pool.servers[n];
    if v.timedout < s.cfg.maxTimeouts then
      t == s.(pool := s.pool.(servers := s.pool.servers[n := v.(timedout := v.timedout + 1)]))
    else FailedAt(s.(pool := s.pool.(servers := s.pool.servers[n := v.(timedout := 0)])), n, t)
  }

  lemma {:induction false} SentCompleted(u: State, i: nat)
    requires i < |u.inflight|
    ensures TransmitOne(u, i).completed == u.completed
  {
  }

  lemma {:induction false} BlamedIs(s: State, n: nat)
    requires PoolOk(s.pool) && n in s.pool.ring && n < |s.pool.servers|
    ensures TimedOutAt(s, n, Blamed(s, n))
  {
    hide PoolOk, ServerFailed, FailedAt;
    var v := s.pool.servers[n];
    SetServerOk(s.pool, n, v.(timedout := 0));
    FailedIs(s.(pool := SetServer(s.pool, n, v.(timedout := 0))), n);
  }

  lemma {:induction false} DisarmedAnswer(m: State, i: nat, asks: seq<Ask>)
    requires Fine(m) && i < |m.inflight| && !m.inflight[i].answered
    ensures var u := SetRequest(m, i, m.inflight[i].(armed := false));
      Finish(Answer(u, i, TimedOut, asks), i).completed
        == m.completed + if m.inflight[i].owner.Lookup? then [Result(m.inflight[i].owner.id, TimedOut)] else []
  {
    hide Fine, Finish, ResolveAll, Stale;
    MarkedFine(m, i, false);
    TwiceSet(m, i, false);
    AnswerGrows(m, i, false, TimedOut, asks);
    var u, w := SetRequest(m, i, m.inflight[i].(armed := false)), Marked(m, i, false);
    FinishIs(Answer(u, i, TimedOut, asks), i);
    assert SetRequest(u, i, u.inflight[i].(answered := true)) == w;
    match m.inflight[i].owner
    case Lookup(id) =>
      FineCompleted(w, m.completed + [Result(id, TimedOut)]);
      ResolveAllKeeps(w.(completed := m.completed + [Result(id, TimedOut)]), asks);
    case Probe(n) =>
  }

  /**
    A timeout: `m` is the state once it has been counted. A request that was sent often enough ends, and its user is
    told that it timed out; another one is sent again.
   */
  lemma {:induction false} TimeoutIs(s: State, i: nat, asks: seq<Ask>) returns (m: State)
    requires Settled(s) && i < |s.inflight|
    ensures s.inflight[i].ns < |s.pool.servers| && TimedOutAt(s, s.inflight[i].ns, m)
    ensures i < |m.inflight| && m.inflight[i].ns < |m.pool.servers| && m.inflight[i].tx == s.inflight[i].tx
    ensures var t, r := HandleTimeout(s, i, asks), s.inflight[i];
      if r.tx >= s.cfg.maxRetransmits then
        t.completed == s.completed + if r.owner.Lookup? then [Result(r.owner.id, TimedOut)] else []
      else t.completed == s.completed && Sending(m.(inflight := m.inflight[i := m.inflight[i].(armed := false)]), i, t)
  {
    hide Fine, Stale, Answer, Finish, TransmitOne, Sending, FailedAt, ServerFailed, PoolOk, Progress;
    StaleAt(s, i);
    FineAt(s, i);
    FinePool(s);
    var n := s.inflight[i].ns;
    RingServer(s.pool, n);
    ResolverSafety.TimeoutIs(s, i, asks);
    BlamedProgress(s, i);
    m := Blamed(s, n);
    BlamedIs(s, n);
    JudgedSame(s, i, TimedOut, m);
    FineAt(m, i);
    FinePool(m);
    RingServer(m.pool, m.inflight[i].ns);
    var r := m.inflight[i].(armed := false);
    if s.inflight[i].tx >= s.cfg.maxRetransmits {
      DisarmedAnswer(m, i, asks);
    } else {
      var u := SetRequest(m, i, r);
      TransmitIs(u, i);
      SentCompleted(u, i);
    }
  }

  /** A probe for server `n` is sent to that server, however many requests are in flight. */
  lemma {:induction false} ProbeIs(s: State, n: nat)
    requires Settled(s) && n in s.pool.ring && NoFailures(s.sends)
    ensures SendProbe(s, n, false) == s
    ensures var t, r := SendProbe(s, n, true), Request(Probe(n), false, "www.google.com", None, n, 0, 0, false, false);
      && |t.inflight| == |s.inflight| + 1 && t.inflight[..|s.inflight|] == s.inflight && t.waiting == s.waiting
      && t.nInflight == s.nInflight + 1 && t.completed == s.completed && Entered(r, n, t)
  {
    hide Fine, Stale, PoolOk, Pick, TransmitOne, NoFailures;
    FinePool(s);
    PickOk(s.pool);
    PickProgress(s);
    var m := s.(pool := if s.nInflight < s.cfg.maxInflight then Pick(s.pool).0 else s.pool);
    ProgressNone(s);
    ProgressFine(s, m);
    var r := Fresh(Probe(n), "www.google.com", None).(ns := n, transmitMe := true);
    AppendFine(m, r);
    var a := m.(inflight := m.inflight + [r], nInflight := m.nInflight + 1);
    TransmitTries(a, |m.inflight|);
    assert TransmitOne(a, |m.inflight|).inflight[..|m.inflight|] == m.inflight;
  }

  /** Any packet of a server ends its row of timeouts, and nothing else. */
  lemma {:induction false} HeardIs(s: State, n: nat)
    requires n < |s.pool.servers|
    ensures Heard(s, n) ==
      s.(pool := s.pool.(servers := s.pool.servers[n := s.pool.servers[n].(timedout := 0)]))
  {
  }

  /** Suspension takes all servers away; every request waits as it did when it was new, with its name and its search. */
  lemma {:induction false} SuspendIs(s: State, k: nat)
    requires Settled(s) && NoProbe(s.inflight) && s.pool.ring != [] && k < |s.inflight|
    ensures var t, r := Suspend(s), s.inflight[|s.inflight| - 1 - k];
      && t.pool.ring == [] && t.pool.good == 0 && t.inflight == [] && t.nInflight == 0 && k < |t.waiting|
      && t.waiting[k] == Request(r.owner, r.answered, r.name, r.search, 0, 0, 0, false, false)
      && t.completed == s.completed && t.accepted == s.accepted
  {
    hide Fine, Stale, Occ, ParkAll;
    SuspendKeeps(s, 0);
    ParkAllAt(s.inflight, s.waiting);
  }
}
