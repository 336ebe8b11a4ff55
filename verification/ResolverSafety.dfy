/** The guarantees of the resolver over every run. */
module ResolverSafety {
  import opened Basics
  import opened Queues
  import opened Nameservers
  import opened Resolver
  import opened ResolverRequests
  import opened ResolverLookups
  import opened ResolverRuns

  // ----- replies -----

  lemma {:induction false} BelowTrans(a: Option<Rank>, b: Option<Rank>, c: Option<Rank>)
    requires NotAbove(c, b) && Below(b, a)
    ensures Below(c, a)
  {
  }

  lemma {:induction false} NoNext(cfg: Config, r: Request)
    requires r.search.None?
    ensures Following(cfg, r).None?
  {
  }

  lemma {:induction false} StaleAt(s: State, i: nat)
    requires Settled(s) && i < |s.inflight|
    ensures !s.inflight[i].answered
  {
    hide Fine;
    StaleNone(All(s), i);
  }

  /** The next candidate of the search takes the lookup over. */
  lemma {:induction false} HandOver(s: State, i: nat, id: nat)
    requires Settled(s) && i < |s.inflight| && Balanced(s, id) && Following(s.cfg, s.inflight[i]).Some?
    ensures var r, next := s.inflight[i], Following(s.cfg, s.inflight[i]).value;
      Handled(s, i, Finish(Submit(Marked(s, i, s.inflight[i].armed), Fresh(r.owner, next.0, next.1)), i), id)
  {
    hide Fine, Stale, Occ, RankIn, Times, Submit, Finish, Remaining, NextName;
    var r, next := s.inflight[i], Following(s.cfg, s.inflight[i]).value;
    FineAt(s, i);
    StaleAt(s, i);
    NextNameIs(s.cfg, r.search);
    var m, heir := Marked(s, i, s.inflight[i].armed), Fresh(r.owner, next.0, next.1);
    assert r.owner.Lookup? by { if r.search.None? { NoNext(s.cfg, r); } }
    MarkedFine(s, i, r.armed);
    MarkedCarried(s, i, r.armed, id);
    SubmitGrows(m, heir);
    SubmitCarried(m, heir, id);
    var t := Submit(m, heir);
    AnsweredStays(m, t, i);
    assert Carries(heir, id) <==> Carries(r, id);
    assert Closer(RankOf(s.cfg, heir), RankOf(s.cfg, r));
    hide RankOf;
    FinishSettles(t, i);
    FinishEvolves(t, i, id);
    assert Evolves(s, t, id);
    EvolvesTrans(s, t, Finish(t, i), id);
    if Carries(r, id) {
      BelowTrans(RankIn(s.cfg, All(s), id), RankIn(s.cfg, All(t), id), RankIn(s.cfg, All(Finish(t, i)), id));
    }
  }

  lemma {:induction false} GiveUpHandled(s: State, i: nat, err: Err, built: bool, asks: seq<Ask>, id: nat)
    requires Settled(s) && i < |s.inflight| && Balanced(s, id)
    ensures Handled(s, i, GiveUp(s, i, err, built, asks), id)
  {
    hide Fine, Stale, Occ, RankIn, Times, Submit, Finish, Answer, Following, Handled, Answered;
    StaleAt(s, i);
    if Following(s.cfg, s.inflight[i]).Some? && built {
      HandOver(s, i, id);
    } else {
      AnswerEvolves(s, i, s.inflight[i].armed, err, asks, id);
      assert SetRequest(s, i, s.inflight[i].(armed := s.inflight[i].armed)) == s;
      EndHandled(s, i, Answer(s, i, err, asks), id);
    }
  }

  lemma {:induction false} BelowNotAbove(a: Option<Rank>, b: Option<Rank>, c: Option<Rank>)
    requires NotAbove(b, a) && Below(c, b)
    ensures Below(c, a)
  {
  }

  lemma {:induction false} CarriedAccepted(s: State, i: nat, id: nat)
    requires Balanced(s, id) && i < |s.inflight| && Carries(s.inflight[i], id)
    ensures id < s.accepted
  {
    hide Occ, Times;
    MarkedCarried(s, i, true, id);
  }

  lemma {:induction false} HandledAfter(s: State, m: State, i: nat, t: State, id: nat)
    requires Settled(s) && Balanced(s, id) && i < |s.inflight| && Progress(s, m) && Handled(m, i, t, id)
    ensures Handled(s, i, t, id)
  {
    hide Fine, Stale, Occ, RankIn, Times, RankOf;
    ProgressEvolves(s, m, id);
    EvolvesTrans(s, m, t, id);
    if Carries(s.inflight[i], id) {
      assert Aged(s.cfg, s.inflight[i], m.inflight[i]);
      CarriedAccepted(s, i, id);
      var a, b, c := RankIn(s.cfg, All(s), id), RankIn(s.cfg, All(m), id), RankIn(s.cfg, All(t), id);
      assert NotAbove(b, a) && Below(c, b);
      BelowNotAbove(a, b, c);
    }
  }

  lemma {:induction false} ProgressSettled(s: State, m: State, id: nat)
    requires Settled(s) && Balanced(s, id) && Progress(s, m)
    ensures Settled(m) && Balanced(m, id) && |m.inflight| == |s.inflight|
  {
    hide Fine, Stale, Occ, RankIn, Times, RankOf;
    ProgressGrows(s, m);
    ProgressEvolves(s, m, id);
  }

  lemma {:induction false} AnsweredAfter(s: State, i: nat, t: State, u: State, id: nat)
    requires i < |s.inflight| && Answered(s, i, t, id) && Progress(t, u)
    ensures Answered(s, i, u, id)
  {
    hide Fine, Stale, Occ, RankIn, Times, RankOf;
    ProgressGrows(t, u);
    ProgressEvolves(t, u, id);
    EvolvesTrans(s, t, u, id);
    AnsweredStays(t, u, i);
    CompletedStays(t, u, id);
  }

  /** Every reply brings its lookup closer to its end or ends it. */
  lemma {:induction false} ReplyHandled(s: State, i: nat, flags: nat, hasAnswer: bool, built: bool, asks: seq<Ask>,
                                        id: nat)
    requires Settled(s) && i < |s.inflight| && Balanced(s, id)
    ensures Handled(s, i, HandleReply(s, i, flags, hasAnswer, built, asks), id)
  {
    hide Fine, Stale, Occ, RankIn, Times, Finish, Answer, Judge, GiveUp, Handled, Progress, RankOf, BadReply, ErrorOf,
      PoolOk, Evolves;
    StaleAt(s, i);
    if BadReply(flags, hasAnswer) {
      var err := ErrorOf(flags);
      var m := Judge(s, i, err).0;
      JudgeHandled(s, i, err);
      if Judge(s, i, err).1 {
        AgedHandled(s, i, m, id);
      } else {
        ProgressSettled(s, m, id);
        GiveUpHandled(m, i, err, built, asks, id);
        HandledAfter(s, m, i, GiveUp(m, i, err, built, asks), id);
      }
    } else {
      AnswerEvolves(s, i, s.inflight[i].armed, NoError, asks, id);
      assert SetRequest(s, i, s.inflight[i].(armed := s.inflight[i].armed)) == s;
      var t := Answer(s, i, NoError, asks);
      FineAt(t, i);
      FinePool(t);
      RaiseOk(t.pool, t.inflight[i].ns);
      var u := t.(pool := Raise(t.pool, t.inflight[i].ns));
      ProgressPool(t, u.pool);
      AnsweredAfter(s, i, t, u, id);
      EndHandled(s, i, u, id);
    }
  }

  lemma {:induction false} HeardProgress(s: State, n: nat)
    requires Fine(s) && n in s.pool.ring
    ensures Progress(s, Heard(s, n))
  {
    hide Fine, PoolOk;
    FinePool(s);
    var v := ServerAt(s.pool, n).(timedout := 0);
    SetServerOk(s.pool, n, v);
    ProgressPool(s, SetServer(s.pool, n, v));
  }

  lemma {:induction false} SettledFine(s: State)
    requires Settled(s)
    ensures Fine(s)
  {
    hide Fine;
  }

  lemma {:induction false} ReplyStep(s: State, from: nat, i: nat, flags: nat, hasAnswer: bool, built: bool,
                                     asks: seq<Ask>, id: nat)
    requires Settled(s) && from in s.pool.ring && i < |s.inflight| && Balanced(s, id)
    ensures Handled(s, i, HandleReply(Heard(s, from), i, flags, hasAnswer, built, asks), id)
  {
    hide Settled, Balanced, Handled, HandleReply, Progress;
    SettledFine(s);
    HeardProgress(s, from);
    var m := Heard(s, from);
    ProgressSettled(s, m, id);
    ReplyHandled(m, i, flags, hasAnswer, built, asks, id);
    HandledAfter(s, m, i, HandleReply(m, i, flags, hasAnswer, built, asks), id);
  }

  // ----- timeouts -----

  /** The server part of the timeout handler. */
  function Blamed(s: State, n: nat): State {
    var v := ServerAt(s.pool, n);
    if v.timedout + 1 > s.cfg.maxTimeouts then ServerFailed(s.(pool := SetServer(s.pool, n, v.(timedout := 0))), n)
    else s.(pool := SetServer(s.pool, n, v.(timedout := v.timedout + 1)))
  }

  lemma {:induction false} BlamedProgress(s: State, i: nat)
    requires Fine(s) && i < |s.inflight|
    ensures Progress(s, Blamed(s, s.inflight[i].ns))
    ensures Blamed(s, s.inflight[i].ns).inflight[i] == s.inflight[i].(ns := Blamed(s, s.inflight[i].ns).inflight[i].ns)
  {
    hide Fine, PoolOk, ServerFailed, AllAged;
    FineAt(s, i);
    FinePool(s);
    var n := s.inflight[i].ns;
    var v := ServerAt(s.pool, n);
    SetServerOk(s.pool, n, v.(timedout := 0));
    SetServerOk(s.pool, n, v.(timedout := v.timedout + 1));
    if v.timedout + 1 > s.cfg.maxTimeouts {
      var m := s.(pool := SetServer(s.pool, n, v.(timedout := 0)));
      ProgressPool(s, m.pool);
      FailedProgress(m, n);
      FailedKeeps(m, n, i);
      ProgressTrans(s, m, ServerFailed(m, n));
    } else {
      ProgressPool(s, SetServer(s.pool, n, v.(timedout := v.timedout + 1)));
    }
  }

  lemma {:induction false} AgedAt(s: State, t: State, i: nat)
    requires Progress(s, t) && i < |s.inflight|
    ensures Aged(s.cfg, s.inflight[i], t.inflight[i])
  {
    hide Fine, RankOf;
  }

  /** Transmission sets the mark before anything else. */
  lemma {:induction false} MarkFirst(s: State, m: State, i: nat)
    requires i < |s.inflight| && m == SetRequest(s, i, s.inflight[i].(transmitMe := true))
    ensures TransmitOne(s, i) == TransmitOne(m, i)
  {
    hide ServerFailed;
    assert SetRequest(m, i, m.inflight[i].(transmitMe := true)) == m;
  }

  /** A fired timer of a request that may be sent again. */
  lemma {:induction false} RetryProgress(s: State, i: nat)
    requires Fine(s) && i < |s.inflight| && s.inflight[i].armed && s.inflight[i].tx < s.cfg.maxRetransmits
    ensures var r := s.inflight[i].(armed := false);
      && Progress(s, TransmitOne(SetRequest(s, i, r), i))
      && Closer(RankOf(s.cfg, TransmitOne(SetRequest(s, i, r), i).inflight[i]), RankOf(s.cfg, s.inflight[i]))
  {
    hide Fine, AllAged, TransmitOne;
    FineAt(s, i);
    var r, r' := s.inflight[i].(armed := false), s.inflight[i].(armed := false, transmitMe := true);
    assert Closer(RankOf(s.cfg, r'), RankOf(s.cfg, s.inflight[i]));
    ProgressRequest(s, i, r');
    var m := SetRequest(s, i, r');
    assert TransmitOne(SetRequest(s, i, r), i) == TransmitOne(m, i) by { MarkFirst(SetRequest(s, i, r), m, i); }
    TransmitProgress(m, i);
    var t := TransmitOne(m, i);
    ProgressTrans(s, m, t);
    AgedAt(m, t, i);
  }

  lemma {:induction false} TimeoutIs(s: State, i: nat, asks: seq<Ask>)
    requires Fine(s) && i < |s.inflight|
    ensures Blamed(s, s.inflight[i].ns).cfg == s.cfg && i < |Blamed(s, s.inflight[i].ns).inflight|
    ensures var m := Blamed(s, s.inflight[i].ns);
      var r := m.inflight[i].(armed := false);
      HandleTimeout(s, i, asks) ==
        if r.tx >= s.cfg.maxRetransmits then Finish(Answer(SetRequest(m, i, r), i, TimedOut, asks), i)
          else TransmitOne(SetRequest(m, i, r), i)
  {
    hide Fine, Finish, Answer, TransmitOne, ServerFailed;
  }

  lemma {:induction false} TimeoutHandled(s: State, i: nat, asks: seq<Ask>, id: nat)
    requires Settled(s) && i < |s.inflight| && s.inflight[i].armed && Balanced(s, id)
    ensures Handled(s, i, HandleTimeout(s, i, asks), id)
  {
    hide Fine, Stale, Occ, RankIn, Times, Finish, Answer, Handled, Progress, RankOf, Blamed, Evolves, TransmitOne,
      Answered;
    StaleAt(s, i);
    var m := Blamed(s, s.inflight[i].ns);
    BlamedProgress(s, i);
    ProgressSettled(s, m, id);
    TimeoutIs(s, i, asks);
    if s.inflight[i].tx >= s.cfg.maxRetransmits {
      AnswerEvolves(m, i, false, TimedOut, asks, id);
      EndHandled(m, i, Answer(SetRequest(m, i, m.inflight[i].(armed := false)), i, TimedOut, asks), id);
    } else {
      RetryProgress(m, i);
      AgedHandled(m, i, TransmitOne(SetRequest(m, i, m.inflight[i].(armed := false)), i), id);
    }
    HandledAfter(s, m, i, HandleTimeout(s, i, asks), id);
  }

  // ----- suspension -----

  lemma {:induction false} ParkAllAt(q: seq<Request>, w: seq<Request>)
    ensures |ParkAll(q, w)| == |q| + |w|
    ensures forall k :: 0 <= k < |q| ==> ParkAll(q, w)[k] == Parked(q[|q| - 1 - k])
    ensures ParkAll(q, w)[|q|..] == w
    decreases |q|
  {
    if q != [] { ParkAllAt(q[1..], [Parked(q[0])] + w); }
  }

  lemma {:induction false} ParkAllOcc(q: seq<Request>, w: seq<Request>, id: nat)
    ensures Occ(ParkAll(q, w), id) == Occ(q, id) + Occ(w, id) && Stale(ParkAll(q, w)) == Stale(q) + Stale(w)
    decreases |q|
  {
    if q != [] {
      ParkAllOcc(q[1..], [Parked(q[0])] + w, id);
      assert ([Parked(q[0])] + w)[1..] == w;
    }
  }

  lemma {:induction false} ParkedWaiting(s: State)
    requires Settled(s) && NoProbe(s.inflight)
    ensures AllWaiting(s.cfg, ParkAll(s.inflight, s.waiting))
  {
    hide Stale, ParkAll, Lookups, PoolOk;
    var w := ParkAll(s.inflight, s.waiting);
    ParkAllAt(s.inflight, s.waiting);
    forall k | 0 <= k < |w| ensures WaitingOk(s.cfg, w[k]) {
      if k < |s.inflight| {
        StaleAt(s, |s.inflight| - 1 - k);
        assert InflightOk(s.cfg, s.pool.ring, s.inflight[|s.inflight| - 1 - k]);
      } else {
        assert w[k] == w[|s.inflight|..][k - |s.inflight|];
      }
    }
  }

  lemma {:induction false} ClearOk(p: Pool)
    ensures PoolOk(Clear(p))
  {
  }

  /** Suspension puts every inflight lookup back, newest first, in front of the waiting ones; none is lost. */
  lemma {:induction false} SuspendKeeps(s: State, id: nat)
    requires Settled(s) && NoProbe(s.inflight)
    ensures Settled(Suspend(s)) && Occ(All(Suspend(s)), id) == Occ(All(s), id)
    ensures Suspend(s).inflight == [] || s.pool.ring == []
    ensures forall k :: 0 <= k < |s.inflight| && s.pool.ring != [] ==>
      Suspend(s).waiting[k] == Parked(s.inflight[|s.inflight| - 1 - k])
    ensures s.pool.ring != [] ==> Suspend(s).waiting[|s.inflight|..] == s.waiting
  {
    hide Stale, Occ, ParkAll, AllWaiting, Clear, PoolOk, NoProbe, Parked;
    if s.pool.ring != [] {
      var t := Suspend(s);
      ParkAllAt(s.inflight, s.waiting);
      ParkAllOcc(s.inflight, s.waiting, id);
      OccConcat(s.inflight, s.waiting, id);
      StaleConcat(s.inflight, s.waiting);
      assert All(t) == t.waiting;
      ClearOk(s.pool);
      ParkedWaiting(s);
      FineCounts(s);
    }
  }

  // ----- the other events -----

  /** The books after an event: settled, and every lookup still accounted for. */
  ghost predicate Kept(s: State, t: State, id: nat) {
    Settled(t) && Evolves(s, t, id)
  }

  lemma {:induction false} ProgressKept(s: State, t: State, id: nat)
    requires Settled(s) && Progress(s, t)
    ensures Kept(s, t, id)
  {
    hide Fine, Stale, Occ, RankIn, Times, RankOf, Evolves;
    ProgressGrows(s, t);
    ProgressEvolves(s, t, id);
  }

  lemma {:induction false} GrowsKept(s: State, t: State, id: nat)
    requires Settled(s) && Grows(s, t) && Evolves(s, t, id)
    ensures Kept(s, t, id)
  {
    hide Fine, Stale, Evolves;
  }

  lemma {:induction false} ReadyKept(s: State, n: nat, id: nat)
    requires Settled(s) && n in s.pool.ring
    ensures Kept(s, Step(s, WriteReady(n)), id)
  {
    hide Fine, Stale, Kept, TransmitAll, Progress, PoolOk;
    FinePool(s);
    var v := ServerAt(s.pool, n).(choked := false);
    SetServerOk(s.pool, n, v);
    var m := s.(pool := SetServer(s.pool, n, v));
    ProgressPool(s, m.pool);
    ProgressFine(s, m);
    TransmitAllProgress(m, 0);
    ProgressTrans(s, m, TransmitAll(m, 0));
    ProgressKept(s, TransmitAll(m, 0), id);
  }

  lemma {:induction false} KeptSettled(s: State, t: State, id: nat)
    requires Kept(s, t, id)
    ensures Settled(t)
  {
    hide Settled;
  }

  lemma {:induction false} KeptTrans(s: State, m: State, t: State, id: nat)
    requires Kept(s, m, id) && Kept(m, t, id)
    ensures Kept(s, t, id)
  {
    hide Settled, Evolves;
    EvolvesTrans(s, m, t, id);
  }

  lemma {:induction false} ProbeAppended(s: State, r: Request, id: nat)
    requires Fine(s) && Stale(All(s)) == 0 && InflightOk(s.cfg, s.pool.ring, r) && r.owner.Probe? && !r.answered
    ensures Kept(s, s.(inflight := s.inflight + [r], nInflight := s.nInflight + 1), id)
  {
    hide Fine, Stale, Occ, RankIn, Times, RankOf;
    AppendFine(s, r);
    StaleMiddle(s.inflight, r, s.waiting);
    Middle(s.cfg, s.inflight, r, s.waiting, id);
    NotAboveSame(RankIn(s.cfg, All(s), id));
  }

  lemma {:induction false} ProbeKept(s: State, n: nat, built: bool, id: nat)
    requires Settled(s) && n in s.pool.ring
    ensures Kept(s, SendProbe(s, n, built), id)
  {
    hide Fine, Stale, Kept, Progress, PoolOk, Pick, TransmitOne, Evolves, Occ, RankIn, Times;
    ProgressNone(s);
    if !built {
      ProgressKept(s, s, id);
    } else {
      FinePool(s);
      PickOk(s.pool);
      PickProgress(s);
      var m := s.(pool := if s.nInflight < s.cfg.maxInflight then Pick(s.pool).0 else s.pool);
      ProgressKept(s, m, id);
      var r := Fresh(Probe(n), "www.google.com", None).(ns := n, transmitMe := true);
      var a := m.(inflight := m.inflight + [r], nInflight := m.nInflight + 1);
      assert Kept(m, a, id) by {
        ProgressFine(s, m);
        ProbeAppended(m, r, id);
      }
      assert Settled(a) && Settled(m) by { KeptSettled(m, a, id); KeptSettled(s, m, id); }
      var t := TransmitOne(a, |m.inflight|);
      TransmitProgress(a, |m.inflight|);
      ProgressKept(a, t, id);
      KeptTrans(s, m, a, id);
      KeptTrans(s, a, t, id);
    }
  }

  lemma {:induction false} AddKept(s: State, id: nat)
    requires Settled(s)
    ensures Kept(s, s.(pool := Add(s.pool)), id)
  {
    hide PoolOk, Add, Stale, Occ, RankIn, Times, RankOf, AllWaiting, Lookups;
    AddOk(s.pool);
    NotAboveSame(RankIn(s.cfg, All(s), id));
    var ring := Add(s.pool).ring;
    forall i | 0 <= i < |s.inflight| ensures InflightOk(s.cfg, ring, s.inflight[i]) {
      assert InflightOk(s.cfg, s.pool.ring, s.inflight[i]);
    }
  }

  lemma {:induction false} ResumeKept(s: State, id: nat)
    requires Settled(s) && s.pool.ring != []
    ensures Kept(s, Pump(s), id)
  {
    hide Fine, Pump, Stale, Evolves;
    PumpMoves(s);
    MovesEvolves(s, Pump(s), id);
    AgedStale(s.cfg, All(s), All(Pump(s)));
  }

  // ----- whole runs -----

  /** Every event but a suspension brings no lookup away from its end. */
  lemma {:induction false} StepKept(s: State, e: Event, id: nat)
    requires Settled(s) && Balanced(s, id) && Enabled(s, e) && !e.ClearAndSuspend?
    ensures Kept(s, Step(s, e), id)
  {
    hide Settled, Evolves, Balanced, HandleReply, HandleTimeout, SendProbe, Resolve, Pump, Add, ServerFailed,
      TransmitAll;
    match e
    case Reply(from, i, flags, hasAnswer, built, asks) => ReplyStep(s, from, i, flags, hasAnswer, built, asks, id);
    case Stray(from) =>
      SettledFine(s);
      HeardProgress(s, from);
      ProgressKept(s, Heard(s, from), id);
    case Timeout(i, asks) => TimeoutHandled(s, i, asks, id);
    case WriteReady(n) => ReadyKept(s, n, id);
    case ReadError(n) =>
      SettledFine(s);
      FailedProgress(s, n);
      ProgressKept(s, ServerFailed(s, n), id);
    case ProbeTimer(n, built) => ProbeKept(s, n, built, id);
    case Call(a) =>
      SettledFine(s);
      ResolveEvolves(s, a, id);
      GrowsKept(s, Resolve(s, a), id);
    case AddServer => AddKept(s, id);
    case ClearAndSuspend => assert false;
    case Resume => ResumeKept(s, id);
  }

  lemma {:induction false} StepSafe(s: State, e: Event, id: nat)
    requires Settled(s) && Balanced(s, id) && Enabled(s, e)
    ensures Settled(Step(s, e)) && Balanced(Step(s, e), id)
  {
    hide Settled, Evolves, Occ, Times, HandleReply, HandleTimeout, SendProbe, Resolve, Pump, Add, ServerFailed,
      TransmitAll;
    if e.ClearAndSuspend? {
      SuspendKeeps(s, id);
    } else {
      StepKept(s, e, id);
      EvolvesBalanced(s, Step(s, e), id);
    }
  }

  /** The invariant of the resolver between events: settled, and every lookup accounted for. */
  ghost predicate Sound(s: State) {
    Settled(s) && forall id :: Balanced(s, id)
  }

  lemma {:induction false} StepSound(s: State, e: Event)
    requires Sound(s) && Enabled(s, e)
    ensures Sound(Step(s, e))
  {
    hide Settled, Balanced, Step, Enabled;
    StepSafe(s, e, 0);
    forall id ensures Balanced(Step(s, e), id) { StepSafe(s, e, id); }
  }

  lemma {:induction false} ReplySound(s: State, i: nat, flags: nat, hasAnswer: bool, built: bool, asks: seq<Ask>)
    requires Sound(s) && i < |s.inflight|
    ensures Sound(HandleReply(s, i, flags, hasAnswer, built, asks))
  {
    hide Settled, Balanced, HandleReply, Evolves;
    var t := HandleReply(s, i, flags, hasAnswer, built, asks);
    ReplyHandled(s, i, flags, hasAnswer, built, asks, 0);
    forall id ensures Balanced(t, id) {
      ReplyHandled(s, i, flags, hasAnswer, built, asks, id);
      EvolvesBalanced(s, t, id);
    }
  }

  lemma {:induction false} InitialSafe(cfg: Config, sends: seq<Send>, id: nat)
    ensures Settled(Initial(cfg, sends)) && Balanced(Initial(cfg, sends), id)
  {
  }

  /**
    At every moment of every run the counters are the lengths of the rings, no more lookups are in flight
    than allowed, each of them has a server and a timer or a pending transmission, the count of good servers
    is right, and every accepted lookup is either carried by exactly one request or its callback ran exactly once.
   */
  lemma {:induction false} RunSafe(trace: seq<State>, events: seq<Event>, k: nat, id: nat)
    requires IsRun(trace, events) && k < |trace|
    ensures Settled(trace[k]) && Balanced(trace[k], id)
  {
    hide Settled, Balanced, Step, Enabled, Initial;
    if k == 0 {
      InitialSafe(trace[0].cfg, trace[0].sends, id);
    } else {
      RunSafe(trace, events, k - 1, id);
      StepSafe(trace[k - 1], events[k - 1], id);
    }
  }

  // ----- every lookup ends -----

  /** A number with one more digit. */
  function Push(x: int, d: int, b: int): int {
    x * b + d
  }

  /** The rank as one number. */
  function Weight(cfg: Config, r: Rank): int {
    Push(Push(Push(r.candidates, r.reissues, cfg.maxReissues + 1), r.sends, TxLimit(cfg) + 1), r.phase, 3)
  }

  predicate RankOk(cfg: Config, r: Rank) {
    0 <= r.reissues <= cfg.maxReissues && 0 <= r.sends <= TxLimit(cfg) && r.phase <= 2
  }

  lemma {:induction false} Digits(x: int, y: int, d: int, e: int, b: int)
    requires x < y && 0 <= d < b && 0 <= e < b
    ensures x * b + d < y * b + e
  {
    assert (x + 1) * b <= y * b;
  }

  lemma {:induction false} PushOrder(x: int, d: int, y: int, e: int, b: int)
    requires 0 <= d < b && 0 <= e < b && x >= 0
    ensures x < y || (x == y && d < e) ==> Push(x, d, b) < Push(y, e, b)
    ensures Push(x, d, b) >= 0
  {
    if x < y { Digits(x, y, d, e, b); }
  }

  lemma {:induction false} CloserIsLighter(cfg: Config, a: Rank, b: Rank)
    requires RankOk(cfg, a) && RankOk(cfg, b)
    ensures Closer(a, b) ==> Weight(cfg, a) < Weight(cfg, b)
    ensures Weight(cfg, a) >= 0
  {
    hide Push;
    var R, T := cfg.maxReissues + 1, TxLimit(cfg) + 1;
    var a1, b1 := Push(a.candidates, a.reissues, R), Push(b.candidates, b.reissues, R);
    PushOrder(a.candidates, a.reissues, b.candidates, b.reissues, R);
    var a2, b2 := Push(a1, a.sends, T), Push(b1, b.sends, T);
    PushOrder(a1, a.sends, b1, b.sends, T);
    PushOrder(a2, a.phase, b2, b.phase, 3);
  }

  /** How many more replies and timeouts a lookup can see: zero once its callback ran. */
  function Left(s: State, id: nat): int {
    var r := RankIn(s.cfg, All(s), id);
    if r.None? then 0 else 1 + Weight(s.cfg, r.value)
  }

  lemma {:induction false} RankInOk(cfg: Config, q: seq<Request>, id: nat)
    requires forall i :: 0 <= i < |q| ==> RankOk(cfg, RankOf(cfg, q[i]))
    ensures RankIn(cfg, q, id).Some? ==> RankOk(cfg, RankIn(cfg, q, id).value)
  {
    hide RankOf, RankOk;
    if q != [] { RankInOk(cfg, q[1..], id); }
  }

  lemma {:induction false} FineRanks(s: State, id: nat)
    requires Fine(s)
    ensures RankIn(s.cfg, All(s), id).Some? ==> RankOk(s.cfg, RankIn(s.cfg, All(s), id).value)
  {
    var q := All(s);
    forall i | 0 <= i < |q| ensures RankOk(s.cfg, RankOf(s.cfg, q[i])) {
      if i < |s.inflight| {
        assert InflightOk(s.cfg, s.pool.ring, q[i]);
      } else {
        assert WaitingOk(s.cfg, s.waiting[i - |s.inflight|]);
      }
    }
    hide RankOf, RankOk, Fine;
    RankInOk(s.cfg, q, id);
  }

  /** Whether the event is a reply or a timeout of the request that carries the lookup. */
  predicate Concerns(s: State, e: Event, id: nat) {
    && (e.Reply? || e.Timeout?) && e.i < |s.inflight| && Carries(s.inflight[e.i], id)
  }

  lemma {:induction false} StrictStep(s: State, e: Event, id: nat)
    requires Settled(s) && Balanced(s, id) && Enabled(s, e) && Concerns(s, e, id)
    ensures Below(RankIn(Step(s, e).cfg, All(Step(s, e)), id), RankIn(s.cfg, All(s), id))
  {
    hide Settled, Evolves, Balanced, HandleReply, HandleTimeout, RankIn;
    match e
    case Reply(from, i, flags, hasAnswer, built, asks) => ReplyStep(s, from, i, flags, hasAnswer, built, asks, id);
    case Timeout(i, asks) => TimeoutHandled(s, i, asks, id);
    case _ =>
  }

  lemma {:induction false} LeftFalls(s: State, e: Event, id: nat)
    requires Settled(s) && Balanced(s, id) && Enabled(s, e) && !e.ClearAndSuspend? && id < s.accepted
    ensures Left(Step(s, e), id) + (if Concerns(s, e, id) then 1 else 0) <= Left(s, id)
    ensures Left(Step(s, e), id) >= 0 && id < Step(s, e).accepted
  {
    hide Fine, Stale, Occ, RankIn, Times, RankOf, Weight, HandleReply, HandleTimeout, Balanced;
    var t := Step(s, e);
    StepKept(s, e, id);
    hide Step;
    FineRanks(s, id);
    FineRanks(t, id);
    var a, b := RankIn(t.cfg, All(t), id), RankIn(s.cfg, All(s), id);
    if a.Some? { CloserIsLighter(s.cfg, a.value, b.value); }
    if b.Some? { CloserIsLighter(s.cfg, b.value, b.value); }
    if Concerns(s, e, id) {
      StrictStep(s, e, id);
    }
  }

  /** How many events from `j` up to `k` concern the lookup. */
  function Touched(trace: seq<State>, events: seq<Event>, j: nat, k: nat, id: nat): nat
    requires j <= k <= |events| < |trace|
    decreases k
  {
    if j == k then 0
    else Touched(trace, events, j, k - 1, id) + if Concerns(trace[k - 1], events[k - 1], id) then 1 else 0
  }

  lemma {:induction false} LeftZero(s: State, id: nat)
    requires Settled(s) && Balanced(s, id) && id < s.accepted
    ensures Left(s, id) == 0 ==> Times(s.completed, id) == 1
  {
    hide Fine, Stale, Occ, RankIn, Times, RankOf, Weight;
    FineRanks(s, id);
    OccRank(s.cfg, All(s), id);
    var r := RankIn(s.cfg, All(s), id);
    if r.Some? { CloserIsLighter(s.cfg, r.value, r.value); }
  }

  /** Without a suspension, an accepted lookup sees at most `Left` replies and timeouts before its callback has run. */
  lemma {:induction false} LookupEnds(trace: seq<State>, events: seq<Event>, j: nat, k: nat, id: nat)
    requires IsRun(trace, events) && j <= k <= |events| && id < trace[j].accepted
    requires forall m :: j <= m < k ==> !events[m].ClearAndSuspend?
    ensures Touched(trace, events, j, k, id) + Left(trace[k], id) <= Left(trace[j], id)
    ensures Left(trace[k], id) == 0 ==> Times(trace[k].completed, id) == 1
    ensures id < trace[k].accepted
    decreases k
  {
    hide Settled, Step, Enabled, Initial, Concerns, Occ, Times, RankIn, Weight;
    RunSafe(trace, events, k, id);
    if j < k {
      LookupEnds(trace, events, j, k - 1, id);
      RunSafe(trace, events, k - 1, id);
      LeftFalls(trace[k - 1], events[k - 1], id);
    }
    LeftZero(trace[k], id);
  }
}
