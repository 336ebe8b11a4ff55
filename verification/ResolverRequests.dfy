/** What the steps of the request protocol keep: well-formed requests, right counters, and no lookup lost or doubled. */
module ResolverRequests {
  import opened Basics
  import opened Queues
  import opened Nameservers
  import opened Resolver

  // ----- well-formed states -----

  function TxLimit(cfg: Config): nat {
    if cfg.maxRetransmits == 0 then 1 else cfg.maxRetransmits
  }

  /** An inflight request has a server, and a timer or a pending transmission will get back to it. */
  ghost predicate InflightOk(cfg: Config, ring: seq<nat>, r: Request) {
    && r.ns in ring && SearchOk(cfg, r.search) && r.tx <= TxLimit(cfg) && r.reissues <= cfg.maxReissues
    && (r.transmitMe ==> r.tx == 0 || r.tx < cfg.maxRetransmits)
    && (r.armed || r.transmitMe || r.answered)
    && (r.owner.Probe? ==> r.owner.server in ring && r.search.None?)
  }

  ghost predicate WaitingOk(cfg: Config, r: Request) {
    && r.owner.Lookup? && SearchOk(cfg, r.search) && r.tx == 0 && r.reissues == 0
    && !r.armed && !r.transmitMe && !r.answered
  }

  ghost predicate AllInflight(cfg: Config, ring: seq<nat>, q: seq<Request>) {
    forall i :: 0 <= i < |q| ==> InflightOk(cfg, ring, q[i])
  }

  ghost predicate AllWaiting(cfg: Config, q: seq<Request>) {
    forall i :: 0 <= i < |q| ==> WaitingOk(cfg, q[i])
  }

  function Lookups(q: seq<Request>): nat {
    if q == [] then 0 else (if q[0].owner.Lookup? then 1 else 0) + Lookups(q[1..])
  }

  ghost predicate Fine(s: State) {
    && PoolOk(s.pool) && s.nInflight == |s.inflight| && s.nWaiting == |s.waiting|
    && AllInflight(s.cfg, s.pool.ring, s.inflight) && AllWaiting(s.cfg, s.waiting)
    && Lookups(s.inflight) <= s.cfg.maxInflight
  }

  // ----- how far a request is from its end -----

  /** Candidates left, reissues left, transmissions left, and where it stands between two of them. */
  datatype Rank = Rank(candidates: nat, reissues: int, sends: int, phase: nat)

  function RankOf(cfg: Config, r: Request): Rank {
    Rank(if SearchOk(cfg, r.search) then |Remaining(cfg, r.search)| else 0,
         cfg.maxReissues - r.reissues, TxLimit(cfg) - r.tx,
         if r.armed then 1 else if r.transmitMe then 0 else 2)
  }

  predicate Closer(a: Rank, b: Rank) {
    a.candidates < b.candidates || (a.candidates == b.candidates && (
    a.reissues < b.reissues || (a.reissues == b.reissues && (
    a.sends < b.sends || (a.sends == b.sends &&
    a.phase < b.phase)))))
  }

  predicate NotHigher(a: Rank, b: Rank) {
    a == b || Closer(a, b)
  }

  // ----- requests that only got closer to their end -----

  ghost predicate Aged(cfg: Config, r: Request, r': Request) {
    && r'.owner == r.owner && r'.answered == r.answered && r'.name == r.name && r'.search == r.search
    && NotHigher(RankOf(cfg, r'), RankOf(cfg, r))
  }

  ghost predicate AllAged(cfg: Config, q: seq<Request>, q': seq<Request>) {
    |q'| == |q| && forall i :: 0 <= i < |q| ==> Aged(cfg, q[i], q'[i])
  }

  lemma {:induction false} AgedTrans(cfg: Config, q: seq<Request>, m: seq<Request>, r: seq<Request>)
    requires AllAged(cfg, q, m) && AllAged(cfg, m, r)
    ensures AllAged(cfg, q, r)
  {
    hide RankOf;
    forall i | 0 <= i < |q| ensures Aged(cfg, q[i], r[i]) {
      assert Aged(cfg, q[i], m[i]) && Aged(cfg, m[i], r[i]);
    }
  }

  lemma {:induction false} AgedOne(cfg: Config, q: seq<Request>, i: nat, r: Request)
    requires i < |q| && Aged(cfg, q[i], r)
    ensures AllAged(cfg, q, q[i := r])
  {
    hide RankOf;
  }

  lemma {:induction false} AgedSame(cfg: Config, q: seq<Request>)
    ensures AllAged(cfg, q, q)
  {
    hide RankOf;
  }

  lemma {:induction false} AgedConcat(cfg: Config, q: seq<Request>, q': seq<Request>, w: seq<Request>)
    requires AllAged(cfg, q, q')
    ensures AllAged(cfg, q + w, q' + w)
  {
    hide RankOf;
  }

  lemma {:induction false} AgedLookups(cfg: Config, q: seq<Request>, q': seq<Request>)
    requires AllAged(cfg, q, q')
    ensures Lookups(q') == Lookups(q)
  {
    if q != [] {
      assert Aged(cfg, q[0], q'[0]);
      AgedLookups(cfg, q[1..], q'[1..]);
    }
  }

  // ----- each sending step -----

  /** The step keeps the state well-formed and only brings requests closer to their end. */
  ghost predicate Progress(s: State, r: State) {
    Fine(r) && SameBooks(s, r) && AllAged(s.cfg, s.inflight, r.inflight)
      && forall n :: n in r.pool.ring <==> n in s.pool.ring
  }

  lemma {:induction false} ProgressTrans(s: State, m: State, r: State)
    requires Progress(s, m) && Progress(m, r)
    ensures Progress(s, r)
  {
    hide Fine, AllAged;
    AgedTrans(s.cfg, s.inflight, m.inflight, r.inflight);
  }

  lemma {:induction false} ProgressNone(s: State)
    requires Fine(s)
    ensures Progress(s, s)
  {
    hide Fine;
    AgedSame(s.cfg, s.inflight);
  }

  /** Changing the servers only. */
  lemma {:induction false} ProgressPool(s: State, pool: Pool)
    requires Fine(s) && PoolOk(pool) && forall n :: n in pool.ring <==> n in s.pool.ring
    ensures Progress(s, s.(pool := pool))
  {
    hide PoolOk;
    AgedSame(s.cfg, s.inflight);
    hide AllAged;
    hide AllWaiting;
    hide Lookups;
    forall i | 0 <= i < |s.inflight| ensures InflightOk(s.cfg, pool.ring, s.inflight[i]) {
      assert InflightOk(s.cfg, s.pool.ring, s.inflight[i]);
    }
  }

  /** Changing one request only. */
  lemma {:induction false} ProgressRequest(s: State, i: nat, r: Request)
    requires Fine(s) && i < |s.inflight| && InflightOk(s.cfg, s.pool.ring, r) && Aged(s.cfg, s.inflight[i], r)
    ensures Progress(s, SetRequest(s, i, r))
  {
    hide PoolOk, RankOf;
    AgedOne(s.cfg, s.inflight, i, r);
    AgedLookups(s.cfg, s.inflight, s.inflight[i := r]);
    hide AllAged;
    hide AllWaiting;
    hide Lookups;
  }

  lemma {:induction false} FineAt(s: State, i: nat)
    requires Fine(s) && i < |s.inflight|
    ensures InflightOk(s.cfg, s.pool.ring, s.inflight[i]) && s.pool.ring != []
  {
  }

  lemma {:induction false} FinePool(s: State)
    requires Fine(s)
    ensures PoolOk(s.pool)
  {
  }

  lemma {:induction false} PickProgress(s: State)
    requires Fine(s)
    ensures Progress(s, s.(pool := Pick(s.pool).0))
  {
    hide Fine, Pick, PoolOk;
    FinePool(s);
    PickOk(s.pool);
    ProgressPool(s, Pick(s.pool).0);
  }

  lemma {:induction false} ReassignOne(s: State, i: nat)
    requires Fine(s) && i < |s.inflight|
    ensures Progress(s, SetRequest(s, i, s.inflight[i].(ns := Chosen(Pick(s.pool).1))).(pool := Pick(s.pool).0))
  {
    hide Fine, Pick, PoolOk, AllAged;
    FinePool(s);
    PickOk(s.pool);
    FineAt(s, i);
    PickProgress(s);
    var m := s.(pool := Pick(s.pool).0);
    var r := s.inflight[i].(ns := Chosen(Pick(s.pool).1));
    FineAt(m, i);
    ProgressRequest(m, i, r);
    ProgressTrans(s, m, SetRequest(m, i, r));
  }

  lemma {:induction false} ReassignProgress(s: State, n: nat, i: nat)
    requires Fine(s)
    ensures Progress(s, Reassign(s, n, i))
    decreases |s.inflight| - i
  {
    hide Fine, Pick, PoolOk, AllAged;
    if i >= |s.inflight| {
      ProgressNone(s);
    } else if s.inflight[i].tx == 0 && s.inflight[i].ns == n {
      var m := SetRequest(s, i, s.inflight[i].(ns := Chosen(Pick(s.pool).1))).(pool := Pick(s.pool).0);
      ReassignOne(s, i);
      ReassignProgress(m, n, i + 1);
      ProgressTrans(s, m, Reassign(s, n, i));
    } else {
      ReassignProgress(s, n, i + 1);
    }
  }

  lemma {:induction false} FailedProgress(s: State, n: nat)
    requires Fine(s) && n in s.pool.ring
    ensures Progress(s, ServerFailed(s, n))
  {
    hide Fine, PoolOk, AllAged, Reassign;
    FinePool(s);
    LowerOk(s.pool, n);
    ProgressNone(s);
    if ServerAt(s.pool, n).up {
      var m := s.(pool := Lower(s.pool, n));
      ProgressPool(s, m.pool);
      ReassignProgress(m, n, 0);
      ProgressTrans(s, m, Reassign(m, n, 0));
    }
  }

  lemma {:induction false} SetServerRing(p: Pool, n: nat, v: Server)
    ensures SetServer(p, n, v).ring == p.ring
  {
  }

  lemma {:induction false} UsedFine(s: State)
    requires Fine(s)
    ensures Progress(s, Used(s))
  {
    hide PoolOk, AllWaiting, AllInflight, Lookups;
    AgedSame(s.cfg, s.inflight);
  }

  lemma {:induction false} ArmProgress(s: State, i: nat)
    requires Fine(s) && i < |s.inflight| && s.inflight[i].transmitMe
    ensures Progress(s, SetRequest(s, i, Arm(s.inflight[i])))
  {
    hide Fine, AllAged;
    FineAt(s, i);
    ProgressRequest(s, i, Arm(s.inflight[i]));
  }

  /** Reassignment changes servers of requests and nothing else. */
  lemma {:induction false} ReassignKeeps(s: State, n: nat, i: nat, k: nat)
    requires k < |s.inflight|
    ensures Reassign(s, n, i).inflight[k] == s.inflight[k].(ns := Reassign(s, n, i).inflight[k].ns)
    decreases |s.inflight| - i
  {
    hide Pick;
    if i < |s.inflight| {
      if s.inflight[i].tx == 0 && s.inflight[i].ns == n {
        ReassignKeeps(SetRequest(s, i, s.inflight[i].(ns := Chosen(Pick(s.pool).1))).(pool := Pick(s.pool).0), n, i + 1,
          k);
      } else {
        ReassignKeeps(s, n, i + 1, k);
      }
    }
  }

  lemma {:induction false} FailedKeeps(s: State, n: nat, k: nat)
    requires k < |s.inflight|
    ensures ServerFailed(s, n).inflight[k] == s.inflight[k].(ns := ServerFailed(s, n).inflight[k].ns)
  {
    hide Reassign;
    if ServerAt(s.pool, n).up { ReassignKeeps(s.(pool := Lower(s.pool, n)), n, 0, k); }
  }

  /** A request that is marked for transmission. */
  lemma {:induction false} TransmitProgress(s: State, i: nat)
    requires Fine(s) && i < |s.inflight| && s.inflight[i].transmitMe
    ensures Progress(s, TransmitOne(s, i))
  {
    hide Fine, PoolOk, AllAged, ServerFailed, SetServer, RankOf;
    FineAt(s, i);
    FinePool(s);
    var n := s.inflight[i].ns;
    assert SetRequest(s, i, s.inflight[i].(transmitMe := true)) == s;
    ProgressNone(s);
    if !ServerAt(s.pool, n).choked {
      var s2 := Used(s);
      assert Progress(s, s2) by { UsedFine(s); }
      match Outcome(s)
      case Again =>
        SetServerOk(s.pool, n, ServerAt(s.pool, n).(choked := true));
        SetServerRing(s.pool, n, ServerAt(s.pool, n).(choked := true));
        ProgressPool(s2, SetServer(s2.pool, n, ServerAt(s2.pool, n).(choked := true)));
        ProgressTrans(s, s2, TransmitOne(s, i));
      case Failed =>
        FailedProgress(s2, n);
        FailedKeeps(s2, n, i);
        ArmProgress(ServerFailed(s2, n), i);
        ProgressTrans(s, s2, ServerFailed(s2, n));
        ProgressTrans(s, ServerFailed(s2, n), TransmitOne(s, i));
      case Sent =>
        ArmProgress(s2, i);
        ProgressTrans(s, s2, TransmitOne(s, i));
    }
  }

  lemma {:induction false} TransmitAllProgress(s: State, i: nat)
    requires Fine(s)
    ensures Progress(s, TransmitAll(s, i))
    decreases |s.inflight| - i
  {
    hide Fine, AllAged, TransmitOne;
    if i >= |s.inflight| {
      ProgressNone(s);
    } else if s.inflight[i].transmitMe {
      TransmitProgress(s, i);
      TransmitAllProgress(TransmitOne(s, i), i + 1);
      ProgressTrans(s, TransmitOne(s, i), TransmitAll(s, i));
    } else {
      TransmitAllProgress(s, i + 1);
    }
  }
}
