/** Where each lookup is: which request carries it, and how far that request is from its end. */
module ResolverLookups {
  import opened Basics
  import opened Queues
  import opened Nameservers
  import opened Resolver
  import opened ResolverRequests

  function All(s: State): seq<Request> {
    s.inflight + s.waiting
  }

  predicate Carries(r: Request, id: nat) {
    r.owner == Lookup(id) && !r.answered
  }

  /** How many requests carry the lookup. */
  function Occ(q: seq<Request>, id: nat): nat {
    if q == [] then 0 else (if Carries(q[0], id) then 1 else 0) + Occ(q[1..], id)
  }

  /** How often its callback ran. */
  function Times(completed: seq<Result>, id: nat): nat {
    if completed == [] then 0
    else Times(completed[..|completed| - 1], id) + if completed[|completed| - 1].id == id then 1 else 0
  }

  lemma {:induction false} TimesPut(completed: seq<Result>, r: Result, id: nat)
    ensures Times(completed + [r], id) == Times(completed, id) + if r.id == id then 1 else 0
  {
    assert (completed + [r])[..|completed|] == completed;
  }

  lemma {:induction false} TimesGrow(completed: seq<Result>, more: seq<Result>, id: nat)
    requires completed <= more
    ensures Times(completed, id) <= Times(more, id)
    decreases |more|
  {
    if |completed| < |more| {
      TimesGrow(completed, more[..|more| - 1], id);
    } else {
      assert completed == more;
    }
  }

  /** The rank of the request that carries it. */
  function RankIn(cfg: Config, q: seq<Request>, id: nat): Option<Rank> {
    if q == [] then None
    else if Carries(q[0], id) then Some(RankOf(cfg, q[0]))
    else RankIn(cfg, q[1..], id)
  }

  predicate NotAbove(a: Option<Rank>, b: Option<Rank>) {
    a.None? || (b.Some? && NotHigher(a.value, b.value))
  }

  predicate Below(a: Option<Rank>, b: Option<Rank>) {
    b.Some? && (a.None? || Closer(a.value, b.value))
  }

  /** Each accepted lookup is carried by one request, or its callback ran once. */
  ghost predicate Balanced(s: State, id: nat) {
    Occ(All(s), id) + Times(s.completed, id) == if id < s.accepted then 1 else 0
  }

  /** From `s` to `r` no lookup is lost or doubled, and none moves away from its end. */
  ghost predicate Evolves(s: State, r: State, id: nat) {
    && r.cfg == s.cfg && r.accepted >= s.accepted && s.completed <= r.completed
    && Occ(All(r), id) + Times(r.completed, id)
      == Occ(All(s), id) + Times(s.completed, id) + (if s.accepted <= id < r.accepted then 1 else 0)
    && (id < s.accepted ==> NotAbove(RankIn(r.cfg, All(r), id), RankIn(s.cfg, All(s), id)))
  }

  lemma {:induction false} EvolvesTrans(s: State, m: State, r: State, id: nat)
    requires Evolves(s, m, id) && Evolves(m, r, id)
    ensures Evolves(s, r, id)
  {
    hide Occ, RankIn, Times;
    assert s.completed <= r.completed by {
      assert s.completed == m.completed[..|s.completed|] == r.completed[..|s.completed|];
    }
  }

  lemma {:induction false} EvolvesBalanced(s: State, r: State, id: nat)
    requires Evolves(s, r, id) && Balanced(s, id)
    ensures Balanced(r, id)
  {
  }

  // ----- sequences of requests -----

  lemma {:induction false} OccConcat(q: seq<Request>, w: seq<Request>, id: nat)
    ensures Occ(q + w, id) == Occ(q, id) + Occ(w, id)
  {
    if q == [] {
      assert q + w == w;
    } else {
      assert (q + w)[1..] == q[1..] + w;
      OccConcat(q[1..], w, id);
    }
  }

  lemma {:induction false} RankConcat(cfg: Config, q: seq<Request>, w: seq<Request>, id: nat)
    ensures RankIn(cfg, q + w, id) == if RankIn(cfg, q, id).Some? then RankIn(cfg, q, id) else RankIn(cfg, w, id)
  {
    if q == [] {
      assert q + w == w;
    } else {
      assert (q + w)[1..] == q[1..] + w;
      RankConcat(cfg, q[1..], w, id);
    }
  }

  lemma {:induction false} OccRank(cfg: Config, q: seq<Request>, id: nat)
    ensures Occ(q, id) == 0 <==> RankIn(cfg, q, id).None?
  {
    if q != [] { OccRank(cfg, q[1..], id); }
  }

  lemma {:induction false} AgedCarried(cfg: Config, q: seq<Request>, q': seq<Request>, id: nat)
    requires AllAged(cfg, q, q')
    ensures Occ(q', id) == Occ(q, id) && NotAbove(RankIn(cfg, q', id), RankIn(cfg, q, id))
  {
    hide RankOf;
    if q != [] {
      assert Aged(cfg, q[0], q'[0]);
      AgedCarried(cfg, q[1..], q'[1..], id);
    }
  }

  /** A request in the middle. */
  lemma {:induction false} Middle(cfg: Config, q: seq<Request>, r: Request, w: seq<Request>, id: nat)
    ensures Occ(q + [r] + w, id) == Occ(q + w, id) + if Carries(r, id) then 1 else 0
    ensures !Carries(r, id) ==> RankIn(cfg, q + [r] + w, id) == RankIn(cfg, q + w, id)
    ensures Carries(r, id) && Occ(q + w, id) == 0 ==> RankIn(cfg, q + [r] + w, id) == Some(RankOf(cfg, r))
  {
    hide RankOf;
    OccConcat(q + [r], w, id);
    OccConcat(q, [r], id);
    OccConcat(q, w, id);
    RankConcat(cfg, q + [r], w, id);
    RankConcat(cfg, q, [r], id);
    RankConcat(cfg, q, w, id);
    OccRank(cfg, q, id);
    assert [r][1..] == [];
  }

  // ----- the waiting ring moves up -----

  /** Requests moved between the rings or were sent, and nothing else happened. */
  ghost predicate Moves(s: State, r: State) {
    && Fine(r) && r.cfg == s.cfg && r.accepted == s.accepted && r.completed == s.completed
    && AllAged(s.cfg, All(s), All(r)) && |r.inflight| >= |s.inflight|
    && forall n :: n in r.pool.ring <==> n in s.pool.ring
  }

  lemma {:induction false} ProgressMoves(s: State, r: State)
    requires Progress(s, r)
    ensures Moves(s, r)
  {
    hide Fine;
    AgedConcat(s.cfg, s.inflight, r.inflight, s.waiting);
  }

  lemma {:induction false} MovesTrans(s: State, m: State, r: State)
    requires Moves(s, m) && Moves(m, r)
    ensures Moves(s, r)
  {
    hide Fine, AllAged;
    AgedTrans(s.cfg, All(s), All(m), All(r));
  }

  lemma {:induction false} MovesEvolves(s: State, r: State, id: nat)
    requires Moves(s, r)
    ensures Evolves(s, r, id)
  {
    hide Fine;
    AgedCarried(s.cfg, All(s), All(r), id);
  }

  /** The head of the waiting ring, with a server, at the end of the inflight ring. */
  function Shifted(s: State): State
    requires s.waiting != []
  {
    var (pool, picked) := Pick(s.pool);
    s.(pool := pool, waiting := s.waiting[1..],
      inflight := s.inflight + [s.waiting[0].(ns := Chosen(picked), transmitMe := true)],
       nWaiting := s.nWaiting - 1, nInflight := s.nInflight + 1)
  }

  lemma {:induction false} LookupsConcat(q: seq<Request>, w: seq<Request>)
    ensures Lookups(q + w) == Lookups(q) + Lookups(w) && Lookups(w) <= |w|
  {
    if q == [] {
      assert q + w == w;
      if w != [] { LookupsConcat([], w[1..]); assert [] + w[1..] == w[1..]; }
    } else {
      assert (q + w)[1..] == q[1..] + w;
      LookupsConcat(q[1..], w);
    }
  }

  /** Appending a request to the inflight ring. */
  lemma {:induction false} AppendFine(s: State, r: Request)
    requires Fine(s) && InflightOk(s.cfg, s.pool.ring, r) && (r.owner.Lookup? ==> s.nInflight < s.cfg.maxInflight)
    ensures Fine(s.(inflight := s.inflight + [r], nInflight := s.nInflight + 1))
  {
    hide PoolOk, InflightOk, WaitingOk;
    LookupsConcat(s.inflight, [r]);
    LookupsConcat([], s.inflight);
    assert [] + s.inflight == s.inflight;
    assert [r][1..] == [];
  }

  lemma {:induction false} TailFine(s: State)
    requires Fine(s) && s.waiting != []
    ensures Fine(s.(waiting := s.waiting[1..], nWaiting := s.nWaiting - 1)) && WaitingOk(s.cfg, s.waiting[0])
  {
    hide PoolOk, InflightOk, Lookups;
  }

  lemma {:induction false} ShiftAges(cfg: Config, r: Request, ns: nat)
    requires WaitingOk(cfg, r)
    ensures Aged(cfg, r, r.(ns := ns, transmitMe := true))
  {
  }

  lemma {:induction false} FineCounts(s: State)
    requires Fine(s)
    ensures s.nInflight == |s.inflight| && s.nWaiting == |s.waiting| && Lookups(s.inflight) <= s.cfg.maxInflight
  {
  }

  lemma {:induction false} ShiftedMoves(s: State)
    requires Fine(s) && s.waiting != [] && s.pool.ring != [] && s.nInflight < s.cfg.maxInflight
    ensures Moves(s, Shifted(s)) && Shifted(s).inflight[|s.inflight|].transmitMe
  {
    hide Fine, Pick, PoolOk, RankOf;
    var m := s.(pool := Pick(s.pool).0);
    PickProgress(s);
    FinePool(s);
    PickOk(s.pool);
    var r := s.waiting[0].(ns := Chosen(Pick(s.pool).1), transmitMe := true);
    TailFine(m);
    var t := m.(waiting := s.waiting[1..], nWaiting := s.nWaiting - 1);
    assert InflightOk(s.cfg, t.pool.ring, r);
    FineCounts(s);
    FineCounts(m);
    AppendFine(t, r);
    assert All(Shifted(s)) == All(s)[|s.inflight| := r];
    assert Aged(s.cfg, s.waiting[0], r) by { ShiftAges(s.cfg, s.waiting[0], Chosen(Pick(s.pool).1)); }
    AgedOne(s.cfg, All(s), |s.inflight|, r);
  }

  lemma {:induction false} MovesFine(s: State, r: State)
    requires Moves(s, r)
    ensures Fine(r) && (s.pool.ring != [] ==> r.pool.ring != [])
  {
    hide Fine, AllAged;
    if s.pool.ring != [] { assert s.pool.ring[0] in s.pool.ring; }
  }

  lemma {:induction false} ProgressFine(s: State, r: State)
    requires Progress(s, r)
    ensures Fine(r) && (s.pool.ring != [] ==> r.pool.ring != [])
  {
    hide Fine, AllAged;
    if s.pool.ring != [] { assert s.pool.ring[0] in s.pool.ring; }
  }

  lemma {:induction false} PromoteMoves(s: State)
    requires Fine(s) && s.waiting != [] && s.pool.ring != [] && s.nInflight < s.cfg.maxInflight
    ensures Moves(s, Promote(s))
  {
    hide Fine, Pick, Progress, AllAged, TransmitOne, TransmitAll, Moves;
    var m, k := Shifted(s), |s.inflight|;
    ShiftedMoves(s);
    MovesFine(s, m);
    TransmitProgress(m, k);
    ProgressFine(m, TransmitOne(m, k));
    TransmitAllProgress(TransmitOne(m, k), 0);
    ProgressTrans(m, TransmitOne(m, k), Promote(s));
    ProgressMoves(m, Promote(s));
    MovesTrans(s, m, Promote(s));
  }

  lemma {:induction false} MovesNone(s: State)
    requires Fine(s)
    ensures Moves(s, s)
  {
    hide Fine;
    AgedSame(s.cfg, All(s));
  }

  lemma {:induction false} MovesCfg(s: State, r: State)
    requires Moves(s, r)
    ensures r.cfg == s.cfg && r.accepted == s.accepted && r.completed == s.completed
  {
    hide Fine, AllAged;
  }

  /** Pumping fills the inflight ring as far as it goes, and its assertion holds. */
  lemma {:induction false} PumpMoves(s: State)
    requires Fine(s) && (s.pool.ring != [] || s.waiting == [])
    ensures Moves(s, Pump(s))
    ensures Pump(s).waiting == [] || Pump(s).nInflight >= s.cfg.maxInflight
    decreases |s.waiting|
  {
    hide Fine, Promote, Moves;
    FineCounts(s);
    if s.nInflight < s.cfg.maxInflight && s.nWaiting != 0 && s.waiting != [] {
      PromoteMoves(s);
      MovesFine(s, Promote(s));
      PumpMoves(Promote(s));
      MovesTrans(s, Promote(s), Pump(s));
      assert Promote(s).cfg == s.cfg by { MovesCfg(s, Promote(s)); }
    } else {
      MovesNone(s);
    }
  }

  // ----- a request ends -----

  lemma {:induction false} RemoveFine(s: State, i: nat)
    requires Fine(s) && i < |s.inflight|
    ensures Fine(s.(inflight := Remove(s.inflight, i), nInflight := s.nInflight - 1))
  {
    hide PoolOk, InflightOk, WaitingOk;
    var q, r, w := s.inflight[..i], s.inflight[i], s.inflight[i + 1..];
    assert s.inflight == q + ([r] + w);
    LookupsConcat(q, [r] + w);
    LookupsConcat([r], w);
    LookupsConcat(q, w);
  }

  lemma {:induction false} NotAboveSame(a: Option<Rank>)
    ensures NotAbove(a, a)
  {
  }

  lemma {:induction false} RemoveCarried(s: State, i: nat, id: nat)
    requires i < |s.inflight| && s.inflight[i].answered
    ensures Evolves(s, s.(inflight := Remove(s.inflight, i), nInflight := s.nInflight - 1), id)
  {
    hide Occ, RankIn, Times, RankOf;
    var q, r, w := s.inflight[..i], s.inflight[i], s.inflight[i + 1..] + s.waiting;
    assert All(s) == q + [r] + w;
    assert Remove(s.inflight, i) + s.waiting == q + w;
    Middle(s.cfg, q, r, w, id);
    NotAboveSame(RankIn(s.cfg, q + w, id));
  }

  /** Removing an answered request and pumping. */
  lemma {:induction false} FinishEvolves(s: State, i: nat, id: nat)
    requires Fine(s) && i < |s.inflight| && s.inflight[i].answered
    ensures Fine(Finish(s, i)) && Evolves(s, Finish(s, i), id)
    ensures forall n :: n in Finish(s, i).pool.ring <==> n in s.pool.ring
  {
    hide Fine, Pump, AllAged, Occ, RankIn, Times;
    FineAt(s, i);
    var m := s.(inflight := Remove(s.inflight, i), nInflight := s.nInflight - 1);
    assert Fine(m) by { RemoveFine(s, i); }
    assert Evolves(s, m, id) by { RemoveCarried(s, i, id); }
    PumpMoves(m);
    MovesEvolves(m, Pump(m), id);
    EvolvesTrans(s, m, Pump(m), id);
  }
}
