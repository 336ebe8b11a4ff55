/**
  Runs of the resolver: every event keeps the books, and every reply or timeout brings its lookup closer to its
  end.
 */
module ResolverRuns {
  import opened Basics
  import opened Queues
  import opened Nameservers
  import opened Resolver
  import opened ResolverRequests
  import opened ResolverLookups

  // ----- answered requests that have not left the ring yet -----

  function Stale(q: seq<Request>): nat {
    if q == [] then 0 else (if q[0].answered then 1 else 0) + Stale(q[1..])
  }

  lemma {:induction false} StaleConcat(q: seq<Request>, w: seq<Request>)
    ensures Stale(q + w) == Stale(q) + Stale(w)
  {
    if q == [] {
      assert q + w == w;
    } else {
      assert (q + w)[1..] == q[1..] + w;
      StaleConcat(q[1..], w);
    }
  }

  lemma {:induction false} AgedStale(cfg: Config, q: seq<Request>, q': seq<Request>)
    requires AllAged(cfg, q, q')
    ensures Stale(q') == Stale(q)
  {
    hide RankOf;
    if q != [] {
      assert Aged(cfg, q[0], q'[0]);
      AgedStale(cfg, q[1..], q'[1..]);
    }
  }

  lemma {:induction false} StaleMiddle(q: seq<Request>, r: Request, w: seq<Request>)
    ensures Stale(q + [r] + w) == Stale(q + w) + if r.answered then 1 else 0
  {
    StaleConcat(q + [r], w);
    StaleConcat(q, [r]);
    StaleConcat(q, w);
    assert [r][1..] == [];
  }

  lemma {:induction false} StaleNone(q: seq<Request>, k: nat)
    requires Stale(q) == 0 && k < |q|
    ensures !q[k].answered
  {
    if k > 0 { StaleNone(q[1..], k - 1); }
  }

  // ----- steps that may add requests -----

  /** Old requests stay where they are and age; no request was answered. */
  ghost predicate Grows(s: State, r: State) {
    && Fine(r) && r.cfg == s.cfg && |r.inflight| >= |s.inflight|
    && AllAged(s.cfg, s.inflight, r.inflight[..|s.inflight|]) && Stale(All(r)) == Stale(All(s))
    && forall n :: n in r.pool.ring <==> n in s.pool.ring
  }

  lemma {:induction false} GrowsTrans(s: State, m: State, r: State)
    requires Grows(s, m) && Grows(m, r)
    ensures Grows(s, r)
  {
    hide Fine, Stale, RankOf, Aged;
    var n := |s.inflight|;
    forall i | 0 <= i < n ensures Aged(s.cfg, m.inflight[..n][i], r.inflight[..n][i]) {
      assert Aged(m.cfg, m.inflight[i], r.inflight[..|m.inflight|][i]);
    }
    AgedTrans(s.cfg, s.inflight, m.inflight[..n], r.inflight[..n]);
  }

  lemma {:induction false} ProgressGrows(s: State, r: State)
    requires Progress(s, r)
    ensures Grows(s, r)
  {
    hide Fine;
    assert r.inflight[..|s.inflight|] == r.inflight;
    AgedConcat(s.cfg, s.inflight, r.inflight, s.waiting);
    AgedStale(s.cfg, All(s), All(r));
  }

  lemma {:induction false} ProgressEvolves(s: State, r: State, id: nat)
    requires Progress(s, r)
    ensures Evolves(s, r, id)
  {
    hide Progress, Moves, Evolves;
    ProgressMoves(s, r);
    MovesEvolves(s, r, id);
  }

  // ----- submitting a request -----

  predicate NewRequest(cfg: Config, r: Request) {
    r == Fresh(r.owner, r.name, r.search) && r.owner.Lookup? && SearchOk(cfg, r.search)
  }

  /** request_submit before the first transmission. */
  function Placed(s: State, r: Request): State {
    var (pool, picked) := if s.nInflight < s.cfg.maxInflight then Pick(s.pool) else (s.pool, None);
    if picked.Some? then
      s.(pool := pool, inflight := s.inflight + [r.(ns := picked.value, transmitMe := true)],
        nInflight := s.nInflight + 1)
    else s.(pool := pool, waiting := s.waiting + [r], nWaiting := s.nWaiting + 1)
  }

  lemma {:induction false} SubmitIs(s: State, r: Request)
    ensures Submit(s, r) ==
      if |Placed(s, r).inflight| > |s.inflight| then TransmitOne(Placed(s, r), |s.inflight|) else Placed(s, r)
    ensures |Placed(s, r).inflight| > |s.inflight| ==> Placed(s, r).inflight[|s.inflight|].transmitMe
  {
    hide Pick, TransmitOne;
  }

  lemma {:induction false} WaitFine(s: State, r: Request)
    requires Fine(s) && NewRequest(s.cfg, r)
    ensures Fine(s.(waiting := s.waiting + [r], nWaiting := s.nWaiting + 1))
  {
    hide PoolOk, InflightOk, Lookups;
  }

  lemma {:induction false} PlacedGrows(s: State, r: Request)
    requires Fine(s) && NewRequest(s.cfg, r)
    ensures Grows(s, Placed(s, r))
  {
    hide Fine, Pick, PoolOk, RankOf, Stale;
    FinePool(s);
    FineCounts(s);
    PickOk(s.pool);
    PickProgress(s);
    AgedSame(s.cfg, s.inflight);
    var (pool, picked) := if s.nInflight < s.cfg.maxInflight then Pick(s.pool) else (s.pool, None);
    var m := s.(pool := pool);
    ProgressNone(s);
    FineCounts(m);
    if picked.Some? {
      var r' := r.(ns := picked.value, transmitMe := true);
      assert InflightOk(s.cfg, pool.ring, r');
      AppendFine(m, r');
      StaleMiddle(s.inflight, r', s.waiting);
      assert Placed(s, r).inflight[..|s.inflight|] == s.inflight;
    } else {
      WaitFine(m, r);
      assert All(Placed(s, r)) == All(s) + [r] + [] && All(s) + [] == All(s);
      StaleMiddle(All(s), r, []);
    }
  }

  /** The submitted request carries its lookup; others are not affected. */
  lemma {:induction false} PlacedCarried(s: State, r: Request, id: nat)
    requires Fine(s) && NewRequest(s.cfg, r)
    ensures Placed(s, r).cfg == s.cfg && Placed(s, r).accepted == s.accepted && Placed(s, r).completed == s.completed
    ensures Occ(All(Placed(s, r)), id) == Occ(All(s), id) + if Carries(r, id) then 1 else 0
    ensures !Carries(r, id) ==> RankIn(s.cfg, All(Placed(s, r)), id) == RankIn(s.cfg, All(s), id)
    ensures Carries(r, id) && Occ(All(s), id) == 0 ==>
      NotAbove(RankIn(s.cfg, All(Placed(s, r)), id), Some(RankOf(s.cfg, r)))
  {
    hide Fine, Pick, Occ, RankIn;
    var (pool, picked) := if s.nInflight < s.cfg.maxInflight then Pick(s.pool) else (s.pool, None);
    if picked.Some? {
      Middle(s.cfg, s.inflight, r.(ns := picked.value, transmitMe := true), s.waiting, id);
    } else {
      assert All(Placed(s, r)) == All(s) + [r] + [] && All(s) + [] == All(s);
      Middle(s.cfg, All(s), r, [], id);
    }
  }

  lemma {:induction false} SubmitGrows(s: State, r: Request)
    requires Fine(s) && NewRequest(s.cfg, r)
    ensures Grows(s, Submit(s, r))
  {
    hide Fine, Submit, Placed, TransmitOne, Progress, AllAged, Stale, NewRequest;
    var m := Placed(s, r);
    PlacedGrows(s, r);
    SubmitIs(s, r);
    if |m.inflight| > |s.inflight| {
      TransmitProgress(m, |s.inflight|);
      ProgressGrows(m, TransmitOne(m, |s.inflight|));
      GrowsTrans(s, m, TransmitOne(m, |s.inflight|));
    }
  }

  lemma {:induction false} SubmitCarried(s: State, r: Request, id: nat)
    requires Fine(s) && NewRequest(s.cfg, r)
    ensures Submit(s, r).cfg == s.cfg && Submit(s, r).accepted == s.accepted && Submit(s, r).completed == s.completed
    ensures Occ(All(Submit(s, r)), id) == Occ(All(s), id) + if Carries(r, id) then 1 else 0
    ensures !Carries(r, id) ==> NotAbove(RankIn(s.cfg, All(Submit(s, r)), id), RankIn(s.cfg, All(s), id))
    ensures Carries(r, id) && Occ(All(s), id) == 0 ==>
      NotAbove(RankIn(s.cfg, All(Submit(s, r)), id), Some(RankOf(s.cfg, r)))
  {
    hide Fine, Submit, Placed, TransmitOne, AllAged, NewRequest, RankOf, RankIn, Occ;
    var m := Placed(s, r);
    PlacedGrows(s, r);
    PlacedCarried(s, r, id);
    SubmitIs(s, r);
    if |m.inflight| > |s.inflight| {
      TransmitProgress(m, |s.inflight|);
      var t := TransmitOne(m, |s.inflight|);
      AgedConcat(m.cfg, m.inflight, t.inflight, m.waiting);
      AgedCarried(m.cfg, All(m), All(t), id);
    }
  }

  lemma {:induction false} AcceptFine(s: State)
    requires Fine(s)
    ensures Fine(s.(accepted := s.accepted + 1))
  {
    hide PoolOk, AllInflight, AllWaiting, Lookups;
  }

  lemma {:induction false} ResolveEvolves(s: State, a: Ask, id: nat)
    requires Fine(s)
    ensures Grows(s, Resolve(s, a)) && Evolves(s, Resolve(s, a), id)
  {
    hide Fine, Submit, RankIn, Occ, Times, FirstName, Stale;
    if !a.built {
      ProgressNone(s);
      ProgressGrows(s, s);
      ProgressEvolves(s, s, id);
    } else {
      var (name, search) := FirstName(s.cfg, a.name, a.noSearch);
      FirstNameIs(s.cfg, a.name, a.noSearch);
      var m, r := s.(accepted := s.accepted + 1), Fresh(Lookup(s.accepted), name, search);
      assert Fine(m) by { AcceptFine(s); }
      SubmitGrows(m, r);
      SubmitCarried(m, r, id);
      assert Carries(r, id) <==> id == s.accepted;
    }
  }

  lemma {:induction false} ResolveAllEvolves(s: State, asks: seq<Ask>, id: nat)
    requires Fine(s)
    ensures Grows(s, ResolveAll(s, asks)) && Evolves(s, ResolveAll(s, asks), id)
    decreases |asks|
  {
    hide Fine, Resolve, Evolves, AllAged, Stale;
    if asks == [] {
      ProgressNone(s);
      ProgressGrows(s, s);
      ProgressEvolves(s, s, id);
    } else {
      var m := Resolve(s, asks[0]);
      ResolveEvolves(s, asks[0], id);
      ResolveAllEvolves(m, asks[1..], id);
      GrowsTrans(s, m, ResolveAll(s, asks));
      EvolvesTrans(s, m, ResolveAll(s, asks), id);
    }
  }

  // ----- answering a request -----

  /** Request `i` answered; its timer may have been removed before. */
  function Marked(s: State, i: nat, armed: bool): State
    requires i < |s.inflight|
  {
    SetRequest(s, i, s.inflight[i].(answered := true, armed := armed))
  }

  lemma {:induction false} Around(s: State, i: nat, r: Request)
    requires i < |s.inflight|
    ensures All(SetRequest(s, i, r)) == s.inflight[..i] + [r] + (s.inflight[i + 1..] + s.waiting)
    ensures All(s) == s.inflight[..i] + [s.inflight[i]] + (s.inflight[i + 1..] + s.waiting)
  {
  }

  lemma {:induction false} MarkedFine(s: State, i: nat, armed: bool)
    requires Fine(s) && i < |s.inflight| && !s.inflight[i].answered
    ensures Fine(Marked(s, i, armed)) && Stale(All(Marked(s, i, armed))) == Stale(All(s)) + 1
  {
    hide PoolOk, WaitingOk, Stale;
    var r := s.inflight[i].(answered := true, armed := armed);
    Around(s, i, r);
    var q, w := s.inflight[..i], s.inflight[i + 1..] + s.waiting;
    StaleMiddle(q, r, w);
    StaleMiddle(q, s.inflight[i], w);
    assert s.inflight == q + ([s.inflight[i]] + s.inflight[i + 1..]);
    assert s.inflight[i := r] == q + ([r] + s.inflight[i + 1..]);
    LookupsConcat(q, [s.inflight[i]] + s.inflight[i + 1..]);
    LookupsConcat(q, [r] + s.inflight[i + 1..]);
  }

  lemma {:induction false} MarkedCarried(s: State, i: nat, armed: bool, id: nat)
    requires i < |s.inflight| && !s.inflight[i].answered
    ensures Occ(All(Marked(s, i, armed)), id) == Occ(All(s), id) - if Carries(s.inflight[i], id) then 1 else 0
    ensures !Carries(s.inflight[i], id) ==> RankIn(s.cfg, All(Marked(s, i, armed)), id) == RankIn(s.cfg, All(s), id)
    ensures Carries(s.inflight[i], id) && Occ(All(s), id) <= 1 ==>
      RankIn(s.cfg, All(Marked(s, i, armed)), id) == None
        && RankIn(s.cfg, All(s), id) == Some(RankOf(s.cfg, s.inflight[i]))
  {
    hide Occ, RankIn, RankOf;
    var r := s.inflight[i].(answered := true, armed := armed);
    Around(s, i, r);
    var q, w := s.inflight[..i], s.inflight[i + 1..] + s.waiting;
    Middle(s.cfg, q, r, w, id);
    Middle(s.cfg, q, s.inflight[i], w, id);
    OccRank(s.cfg, q + w, id);
  }

  lemma {:induction false} FineCompleted(s: State, completed: seq<Result>)
    requires Fine(s)
    ensures Fine(s.(completed := completed))
  {
    hide PoolOk, AllInflight, AllWaiting, Lookups;
  }

  /** What a handler knows after the callback of request `i`. */
  ghost predicate Answered(s: State, i: nat, t: State, id: nat)
    requires i < |s.inflight|
  {
    && Fine(t) && Evolves(s, t, id) && Stale(All(t)) == Stale(All(s)) + 1
    && i < |t.inflight| && t.inflight[i].answered
    && (Carries(s.inflight[i], id) ==> Times(t.completed, id) > 0)
    && (forall n :: n in t.pool.ring <==> n in s.pool.ring)
  }

  lemma {:induction false} TwiceSet(s: State, i: nat, armed: bool)
    requires i < |s.inflight|
    ensures Marked(SetRequest(s, i, s.inflight[i].(armed := armed)), i, armed) == Marked(s, i, armed)
  {
    assert s.inflight[i := s.inflight[i].(armed := armed)][i := s.inflight[i].(answered := true, armed := armed)]
        == s.inflight[i := s.inflight[i].(answered := true, armed := armed)];
  }

  lemma {:induction false} MarkedEvolves(s: State, i: nat, armed: bool, err: Err, id: nat)
    requires Fine(s) && i < |s.inflight| && !s.inflight[i].answered && Occ(All(s), id) <= 1
    ensures var k := s.inflight[i].owner;
      Evolves(s, Marked(s, i, armed).(completed := s.completed + if k.Lookup? then [Result(k.id, err)] else []), id)
  {
    hide Fine, Occ, RankIn, RankOf, Times;
    MarkedCarried(s, i, armed, id);
    NotAboveSame(RankIn(s.cfg, All(s), id));
    var k := s.inflight[i].owner;
    if k.Lookup? {
      TimesPut(s.completed, Result(k.id, err), id);
    } else {
      assert s.completed + [] == s.completed;
    }
  }

  lemma {:induction false} CompletedStays(s: State, r: State, id: nat)
    requires Evolves(s, r, id)
    ensures Times(s.completed, id) <= Times(r.completed, id)
  {
    hide Occ, Times, RankIn;
    TimesGrow(s.completed, r.completed, id);
  }

  lemma {:induction false} AnsweredStays(s: State, r: State, i: nat)
    requires Grows(s, r) && i < |s.inflight| && s.inflight[i].answered
    ensures r.inflight[i].answered
  {
    hide Fine, RankOf, Stale;
    assert Aged(s.cfg, s.inflight[i], r.inflight[..|s.inflight|][i]);
  }

  lemma {:induction false} ProbePool(s: State, n: nat, err: Err)
    requires Fine(s) && n in s.pool.ring
    ensures PoolOk(if err == NoError || err == NotExist then Raise(s.pool, n) else ProbeFailed(s.pool, n))
    ensures (if err == NoError || err == NotExist then Raise(s.pool, n) else ProbeFailed(s.pool, n)).ring == s.pool.ring
  {
    hide Fine, PoolOk;
    FinePool(s);
    RaiseOk(s.pool, n);
    SetServerOk(s.pool, n, ServerAt(s.pool, n).(failedTimes := ServerAt(s.pool, n).failedTimes + 1));
  }

  lemma {:induction false} AnswerEvolves(s: State, i: nat, armed: bool, err: Err, asks: seq<Ask>, id: nat)
    requires Fine(s) && i < |s.inflight| && !s.inflight[i].answered && Occ(All(s), id) <= 1
    ensures Answered(s, i, Answer(SetRequest(s, i, s.inflight[i].(armed := armed)), i, err, asks), id)
  {
    hide Fine, Occ, Stale, ResolveAll, Evolves;
    MarkedFine(s, i, armed);
    MarkedEvolves(s, i, armed, err, id);
    TwiceSet(s, i, armed);
    var m := Marked(s, i, armed);
    match s.inflight[i].owner
    case Lookup(k) =>
      var m' := m.(completed := s.completed + [Result(k, err)]);
      FineCompleted(m, s.completed + [Result(k, err)]);
      ResolveAllEvolves(m', asks, id);
      EvolvesTrans(s, m', ResolveAll(m', asks), id);
      AnsweredStays(m', ResolveAll(m', asks), i);
      TimesPut(s.completed, Result(k, err), id);
      CompletedStays(m', ResolveAll(m', asks), id);
    case Probe(n) =>
      FineAt(s, i);
      var pool := if err == NoError || err == NotExist then Raise(s.pool, n) else ProbeFailed(s.pool, n);
      assert m.(completed := s.completed + []) == m;
      ProbePool(m, n, err);
      ProgressPool(m, pool);
      ProgressGrows(m, m.(pool := pool));
      ProgressEvolves(m, m.(pool := pool), id);
      EvolvesTrans(s, m, m.(pool := pool), id);
  }

  lemma {:induction false} AnswerGrows(s: State, i: nat, armed: bool, err: Err, asks: seq<Ask>)
    requires Fine(s) && i < |s.inflight| && !s.inflight[i].answered
    ensures Fine(Answer(SetRequest(s, i, s.inflight[i].(armed := armed)), i, err, asks))
  {
    hide Fine, ResolveAll, Stale;
    MarkedFine(s, i, armed);
    assert s.inflight[i := s.inflight[i].(armed := armed)][i := s.inflight[i].(answered := true, armed := armed)]
        == s.inflight[i := s.inflight[i].(answered := true, armed := armed)];
    var m := Marked(s, i, armed);
    match s.inflight[i].owner
    case Lookup(k) =>
      FineCompleted(m, s.completed + [Result(k, err)]);
      ResolveAllEvolves(m.(completed := s.completed + [Result(k, err)]), asks, 0);
    case Probe(n) =>
      FineAt(s, i);
      ProbePool(m, n, err);
      ProgressPool(m, if err == NoError || err == NotExist then Raise(s.pool, n) else ProbeFailed(s.pool, n));
  }

  // ----- between events -----

  /** Well-formed, and no answered request is left in a ring. */
  ghost predicate Settled(s: State) {
    Fine(s) && Stale(All(s)) == 0
  }

  lemma {:induction false} FinishSettles(s: State, i: nat)
    requires Fine(s) && i < |s.inflight| && s.inflight[i].answered && Stale(All(s)) == 1
    ensures Settled(Finish(s, i))
  {
    hide Fine, Pump, Stale, RankOf;
    FinishEvolves(s, i, 0);
    var m := s.(inflight := Remove(s.inflight, i), nInflight := s.nInflight - 1);
    var q, w := s.inflight[..i], s.inflight[i + 1..] + s.waiting;
    Around(s, i, s.inflight[i]);
    assert All(m) == q + w;
    StaleMiddle(q, s.inflight[i], w);
    RemoveFine(s, i);
    FineAt(s, i);
    PumpMoves(m);
    AgedStale(m.cfg, All(m), All(Pump(m)));
  }

  /** The handler kept the books, and the lookup of request `i` got strictly closer to its end. */
  ghost predicate Handled(s: State, i: nat, t: State, id: nat)
    requires i < |s.inflight|
  {
    && Settled(t) && Evolves(s, t, id)
    && (Carries(s.inflight[i], id) ==> Below(RankIn(t.cfg, All(t), id), RankIn(s.cfg, All(s), id)))
  }

  /** A callback ran, and the request leaves the ring. */
  lemma {:induction false} EndHandled(s: State, i: nat, t: State, id: nat)
    requires Settled(s) && i < |s.inflight| && Balanced(s, id) && Answered(s, i, t, id)
    ensures Handled(s, i, Finish(t, i), id)
  {
    hide Fine, Pump, Stale, RankOf, Finish, Occ, RankIn, Times;
    FinishSettles(t, i);
    FinishEvolves(t, i, id);
    EvolvesTrans(s, t, Finish(t, i), id);
    if Carries(s.inflight[i], id) {
      CompletedStays(t, Finish(t, i), id);
      OccRank(s.cfg, All(Finish(t, i)), id);
      StaleNone(All(s), i);
      MarkedCarried(s, i, true, id);
    }
  }

  // ----- errors -----

  lemma {:induction false} AgedHandled(s: State, i: nat, t: State, id: nat)
    requires Settled(s) && i < |s.inflight| && Balanced(s, id) && Progress(s, t)
    requires Closer(RankOf(s.cfg, t.inflight[i]), RankOf(s.cfg, s.inflight[i]))
    ensures Handled(s, i, t, id)
  {
    hide Fine, Stale, RankOf, Occ, RankIn, Times;
    ProgressGrows(s, t);
    ProgressEvolves(s, t, id);
    if Carries(s.inflight[i], id) {
      assert Aged(s.cfg, s.inflight[i], t.inflight[i]);
      MarkedCarried(s, i, true, id);
      MarkedCarried(t, i, true, id);
    }
  }

  /** The server and the counters of request `i` after a reissue. */
  lemma {:induction false} ReissueHandled(s: State, i: nat)
    requires Fine(s) && i < |s.inflight| && s.inflight[i].reissues < s.cfg.maxReissues && !s.inflight[i].answered
    ensures Progress(s, Reissue(s, i).0)
    ensures Reissue(s, i).1 ==> Closer(RankOf(s.cfg, Reissue(s, i).0.inflight[i]), RankOf(s.cfg, s.inflight[i]))
    ensures !Reissue(s, i).1 ==> Reissue(s, i).0.inflight == s.inflight
  {
    hide Fine, Pick, PoolOk, AllAged;
    FinePool(s);
    PickOk(s.pool);
    FineAt(s, i);
    PickProgress(s);
    if Reissue(s, i).1 {
      var m := s.(pool := Pick(s.pool).0);
      var r := s.inflight[i];
      var r' := r.(ns := Chosen(Pick(s.pool).1), reissues := r.reissues + 1, tx := 0, transmitMe := true);
      FineAt(m, i);
      ProgressRequest(m, i, r');
      ProgressTrans(s, m, SetRequest(m, i, r'));
    }
  }

  lemma {:induction false} JudgeHandled(s: State, i: nat, err: Err)
    requires Fine(s) && i < |s.inflight| && !s.inflight[i].answered
    ensures Progress(s, Judge(s, i, err).0)
    ensures Judge(s, i, err).1 ==> Closer(RankOf(s.cfg, Judge(s, i, err).0.inflight[i]), RankOf(s.cfg, s.inflight[i]))
  {
    hide Fine, PoolOk, AllAged, Reissue, ServerFailed;
    var r := s.inflight[i];
    FineAt(s, i);
    FinePool(s);
    ProgressNone(s);
    if err.NotImplemented? || err.Refused? {
      if r.reissues < s.cfg.maxReissues {
        var m := ServerFailed(s, r.ns);
        FailedProgress(s, r.ns);
        FailedKeeps(s, r.ns, i);
        ReissueHandled(m, i);
        ProgressTrans(s, m, Reissue(m, i).0);
        assert RankOf(s.cfg, m.inflight[i]) == RankOf(s.cfg, r);
      }
    } else if !err.ServerBroken? {
      RaiseOk(s.pool, r.ns);
      ProgressPool(s, Raise(s.pool, r.ns));
    }
  }
}
