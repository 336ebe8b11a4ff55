/** The resolver as evdns.c runs it: global rings and counters updated in place. */
module EvDns {
  import opened Basics
  import opened Queues
  import opened Nameservers
  import opened Resolver
  import opened ResolverRequests
  import opened ResolverLookups
  import opened ResolverRuns
  import opened ResolverSafety

  lemma {:induction false} RotateOne(ring: seq<nat>, i: nat)
    requires i < |ring|
    ensures Rotated(ring, i)[0] == ring[i]
    ensures Rotated(ring, i)[1..] + [Rotated(ring, i)[0]] == Rotated(ring, i + 1)
  {
  }

  lemma {:induction false} RotatedNone(ring: seq<nat>)
    requires ring != []
    ensures Rotated(ring, 0) == ring
  {
  }

  lemma {:induction false} RotatedHead(ring: seq<nat>, i: nat)
    requires 0 < i <= |ring|
    ensures Rotated(ring, i)[0] == if i < |ring| then ring[i] else ring[0]
  {
  }

  lemma {:induction false} FirstUpIs(servers: seq<Server>, ring: seq<nat>, k: nat)
    requires k < |ring| && UpAt(servers, ring[k]) && forall j :: 0 <= j < k ==> !UpAt(servers, ring[j])
    ensures FirstUp(servers, ring) == k
  {
    if k > 0 { FirstUpIs(servers, ring[1..], k - 1); }
  }

  lemma {:induction false} InitialSound(cfg: Config, sends: seq<Send>)
    ensures Sound(Initial(cfg, sends))
  {
    hide Settled, Balanced, Initial;
    InitialSafe(cfg, sends, 0);
    forall id ensures Balanced(Initial(cfg, sends), id) { InitialSafe(cfg, sends, id); }
  }

  lemma {:induction false} RunMore(trace: seq<State>, events: seq<Event>, e: Event, t: State)
    requires IsRun(trace, events) && Enabled(trace[|trace| - 1], e) && t == Step(trace[|trace| - 1], e)
    ensures IsRun(trace + [t], events + [e])
  {
    hide Step, Enabled, Initial;
  }

  /** Judging an error leaves the rings settled. */
  lemma {:induction false} SettledKept(s: State, m: State)
    requires Settled(s) && Progress(s, m)
    ensures Settled(m)
  {
    hide Fine, Stale;
    ProgressGrows(s, m);
  }

  /** Where a handler stands when it calls back and when it removes the request. */
  lemma {:induction false} GiveUpFine(s: State, i: nat, err: Err, asks: seq<Ask>)
    requires Settled(s) && i < |s.inflight|
    ensures Fine(Marked(s, i, s.inflight[i].armed)) && Fine(Answer(s, i, err, asks))
    ensures var r, next := s.inflight[i], Following(s.cfg, s.inflight[i]);
      next.Some? ==> Fine(Submit(Marked(s, i, r.armed), Fresh(r.owner, next.value.0, next.value.1)))
  {
    hide Fine, Stale, Submit, Answer, NextName, Occ;
    StaleAt(s, i);
    FineAt(s, i);
    MarkedFine(s, i, s.inflight[i].armed);
    var r, next := s.inflight[i], Following(s.cfg, s.inflight[i]);
    assert SetRequest(s, i, r.(armed := r.armed)) == s;
    AnswerGrows(s, i, r.armed, err, asks);
    if next.Some? {
      NextNameIs(s.cfg, r.search);
      assert r.owner.Lookup? by { if r.search.None? { NoNext(s.cfg, r); } }
      SubmitGrows(Marked(s, i, r.armed), Fresh(r.owner, next.value.0, next.value.1));
    }
  }

  lemma {:induction false} DisarmedFine(s: State, i: nat, asks: seq<Ask>)
    requires Fine(s) && i < |s.inflight| && !s.inflight[i].answered
    ensures var m := SetRequest(s, i, s.inflight[i].(armed := false));
      Fine(Marked(m, i, false)) && Fine(Answer(m, i, TimedOut, asks))
  {
    hide Fine, Answer;
    MarkedFine(s, i, false);
    var m := SetRequest(s, i, s.inflight[i].(armed := false));
    assert Marked(m, i, false) == Marked(s, i, false);
    AnswerGrows(s, i, false, TimedOut, asks);
  }

  lemma {:induction false} RingKnown(p: Pool, n: nat)
    requires PoolOk(p) && n in p.ring
    ensures n < |p.servers|
  {
    hide UpList;
  }

  class Globals {
    const cfg: Config
    var servers: seq<Server>
    var ring: seq<nat>
    var good: int
    var inflight: seq<Request>
    var waiting: seq<Request>
    var nInflight: int
    var nWaiting: int
    var accepted: nat
    var completed: seq<Result>
    var sends: seq<Send>

    ghost function Servers(): Pool
      reads this
    {
      Pool(servers, ring, good)
    }

    ghost function Value(): State
      reads this
    {
      State(cfg, Servers(), inflight, waiting, nInflight, nWaiting, accepted, completed, sends)
    }

    /** Between events: rings and counters are well-formed, and every lookup is accounted for. */
    ghost predicate Valid()
      reads this
    {
      Sound(Value())
    }

    /** nameserver_pick: its assertion cannot fail. */
    method NameserverPick() returns (picked: Option<nat>)
      requires PoolOk(Servers())
      modifies this`ring
      ensures (Servers(), picked) == Pick(old(Servers()))
    {
      hide UpList;
      if ring == [] {
        return None;
      }
      if good == 0 {
        assert ring[1..] + [ring[0]] == Rotated(ring, 1);
        ring := ring[1..] + [ring[0]];
        return Some(ring[0]);
      }
      var startedAt := ring[0];
      ghost var ring0, i := ring, 0;
      RotatedNone(ring0);
      while !servers[ring[0]].up
        invariant 0 <= i < |ring0| && ring == Rotated(ring0, i) && ring[0] == ring0[i]
        invariant forall j :: 0 <= j < i ==> !UpAt(servers, ring0[j])
        invariant Known(ring0, |servers|) && NoDup(ring0) && startedAt == ring0[0] && ring0 == old(ring)
        decreases |ring0| - i
      {
        hide Rotated;
        RotateOne(ring0, i);
        ring := ring[1..] + [ring[0]];
        i := i + 1;
        RotatedHead(ring0, i);
        if ring[0] == startedAt {
          NoneBefore(servers, ring0);
          assert false;
        }
      }
      picked := Some(ring[0]);
      RotateOne(ring0, i);
      FirstUpIs(servers, ring0, i);
      ring := ring[1..] + [ring[0]];
    }

    /**
      nameserver_up: afterwards the server is up, the others are as before, and the count is again the number of
      servers up.
     */
    method NameserverUp(n: nat)
      requires PoolOk(Servers()) && n in ring
      modifies this
      ensures Value() == old(Value()).(pool := Raise(old(Servers()), n))
      ensures PoolOk(Servers()) && UpAt(servers, n) && good == |UpList(servers, ring)|
      ensures |servers| == |old(servers)| && forall m :: 0 <= m < |servers| && m != n ==> servers[m] == old(servers)[m]
    {
      hide UpList, NoDup;
      RaiseOk(Servers(), n);
      if servers[n].up {
        return;
      }
      servers := servers[n := servers[n].(up := true, failedTimes := 0, timedout := 0)];
      good := good + 1;
    }

    /** nameserver_failed */
    method NameserverFailed(n: nat)
      requires PoolOk(Servers()) && n in ring
      modifies this
      ensures Value() == ServerFailed(old(Value()), n) && PoolOk(Servers())
    {
      hide UpList, Pick, NoDup;
      if !servers[n].up {
        return;
      }
      LowerOk(Servers(), n);
      good := good - 1;
      servers := servers[n := servers[n].(up := false, failedTimes := 1)];
      if good == 0 {
        return;
      }
      ghost var s1 := Value();
      var i := 0;
      while i < |inflight|
        invariant 0 <= i <= |inflight| && PoolOk(Servers())
        invariant Reassign(s1, n, 0) == Reassign(Value(), n, i)
      {
        if inflight[i].tx == 0 && inflight[i].ns == n {
          PickOk(Servers());
          var picked := NameserverPick();
          inflight := inflight[i := inflight[i].(ns := Chosen(picked))];
        }
        i := i + 1;
      }
    }

    /** evdns_request_transmit */
    method RequestTransmit(i: nat)
      requires PoolOk(Servers()) && i < |inflight| && inflight[i].ns in ring
      modifies this
      ensures Value() == TransmitOne(old(Value()), i)
    {
      hide UpList, ServerFailed, NoDup;
      var n := inflight[i].ns;
      inflight := inflight[i := inflight[i].(transmitMe := true)];
      if servers[n].choked {
        return;
      }
      var outcome := Sent;
      if sends != [] {
        outcome, sends := sends[0], sends[1..];
      }
      match outcome
      case Again =>
        servers := servers[n := servers[n].(choked := true)];
      case Failed =>
        NameserverFailed(n);
        inflight := inflight[i := Arm(inflight[i])];
      case Sent =>
        inflight := inflight[i := Arm(inflight[i])];
    }

    /** evdns_transmit */
    method Transmit()
      requires Fine(Value())
      modifies this
      ensures Value() == TransmitAll(old(Value()), 0)
    {
      hide Fine, PoolOk, TransmitOne;
      var i := 0;
      while i < |inflight|
        invariant 0 <= i <= |inflight| && Fine(Value())
        invariant TransmitAll(old(Value()), 0) == TransmitAll(Value(), i)
      {
        if inflight[i].transmitMe {
          FinePool(Value());
          FineAt(Value(), i);
          TransmitProgress(Value(), i);
          RequestTransmit(i);
        }
        i := i + 1;
      }
    }

    /** evdns_requests_pump_waiting_queue: its assertion holds. */
    method PumpWaitingQueue()
      requires Fine(Value()) && (ring != [] || waiting == [])
      modifies this
      ensures Value() == Pump(old(Value())) && Fine(Value())
    {
      hide Fine, Promote, Moves;
      while nInflight < cfg.maxInflight && nWaiting != 0
        invariant Fine(Value()) && (ring != [] || waiting == [])
        invariant Pump(old(Value())) == Pump(Value())
        decreases |waiting|
      {
        FineCounts(Value());
        assert waiting != [];
        PromoteMoves(Value());
        MovesFine(Value(), Promote(Value()));
        PromoteHead();
      }
      FineCounts(Value());
    }

    /** The body of its loop: the head of the waiting ring goes inflight. */
    method PromoteHead()
      requires Fine(Value()) && waiting != [] && ring != [] && nInflight < cfg.maxInflight
      modifies this
      ensures Value() == Promote(old(Value()))
    {
      hide Fine, PoolOk, TransmitOne, TransmitAll, Moves, Pick;
      ghost var s := Value();
      FinePool(s);
      ShiftedMoves(s);
      MovesFine(s, Shifted(s));
      var req := waiting[0];
      waiting := waiting[1..];
      nWaiting := nWaiting - 1;
      nInflight := nInflight + 1;
      var picked := NameserverPick();
      inflight := inflight + [req.(ns := Chosen(picked), transmitMe := true)];
      assert Value() == Shifted(s);
      FineAt(Value(), |inflight| - 1);
      FinePool(Value());
      TransmitProgress(Value(), |inflight| - 1);
      RequestTransmit(|inflight| - 1);
      Transmit();
    }

    /** request_finished */
    method RequestFinished(i: nat)
      requires Fine(Value()) && i < |inflight|
      modifies this
      ensures Value() == Finish(old(Value()), i) && Fine(Value())
    {
      hide Fine, Pump;
      FineAt(Value(), i);
      RemoveFine(Value(), i);
      inflight := inflight[..i] + inflight[i + 1..];
      nInflight := nInflight - 1;
      PumpWaitingQueue();
    }

    /** request_submit of a request that got server `ns`. */
    method RequestEnter(r: Request, ns: nat)
      requires PoolOk(Servers()) && ns in ring
      modifies this
      ensures Value() == Enter(old(Value()), r, ns)
    {
      hide UpList, NoDup, TransmitOne;
      inflight := inflight + [r.(ns := ns, transmitMe := true)];
      nInflight := nInflight + 1;
      RequestTransmit(|inflight| - 1);
    }

    /** request_new and request_submit */
    method RequestSubmit(r: Request)
      requires PoolOk(Servers())
      modifies this
      ensures Value() == Submit(old(Value()), r)
    {
      hide PoolOk, Pick, Enter;
      var picked := None;
      if nInflight < cfg.maxInflight {
        PickOk(Servers());
        picked := NameserverPick();
      }
      if picked.Some? {
        RequestEnter(r, picked.value);
      } else {
        waiting := waiting + [r];
        nWaiting := nWaiting + 1;
      }
    }

    /** evdns_resolve_ipv4 and its siblings; zero if the lookup was accepted. */
    method ResolveName(a: Ask) returns (res: int)
      requires Fine(Value())
      modifies this
      ensures Value() == Resolve(old(Value()), a) && Fine(Value())
      ensures res == if a.built then 0 else 1
    {
      hide Fine, PoolOk, Submit, FirstName;
      ResolveEvolves(Value(), a, 0);
      if !a.built {
        return 1;
      }
      var (name, search) := FirstName(cfg, a.name, a.noSearch);
      var r := Fresh(Lookup(accepted), name, search);
      FinePool(Value());
      accepted := accepted + 1;
      RequestSubmit(r);
      return 0;
    }

    /** reply_callback; the user's callback makes the calls `asks`. */
    method ReplyCallback(i: nat, err: Err, asks: seq<Ask>)
      requires i < |inflight| && Fine(Marked(Value(), i, inflight[i].armed))
      modifies this
      ensures Value() == Answer(old(Value()), i, err, asks)
    {
      hide Fine, PoolOk, Resolve, ServerFailed;
      ghost var s := Value();
      FineAt(Marked(s, i, inflight[i].armed), i);
      FinePool(Marked(s, i, inflight[i].armed));
      var owner := inflight[i].owner;
      inflight := inflight[i := inflight[i].(answered := true)];
      assert Value() == Marked(s, i, s.inflight[i].armed);
      match owner
      case Lookup(id) =>
        FineCompleted(Value(), completed + [Result(id, err)]);
        completed := completed + [Result(id, err)];
        ghost var s1 := Value();
        var j := 0;
        while j < |asks|
          invariant 0 <= j <= |asks| && Fine(Value())
          invariant ResolveAll(s1, asks) == ResolveAll(Value(), asks[j..])
        {
          assert asks[j..][1..] == asks[j + 1..];
          var _ := ResolveName(asks[j]);
          j := j + 1;
        }
      case Probe(n) =>
        assert n < |servers| by { RingKnown(Servers(), n); }
        if err == NoError || err == NotExist {
          NameserverUp(n);
        } else if !servers[n].up {
          servers := servers[n := servers[n].(failedTimes := servers[n].failedTimes + 1)];
        }
    }

    /** request_reissue; zero if another server took the request. */
    method RequestReissue(i: nat) returns (res: int)
      requires PoolOk(Servers()) && i < |inflight|
      modifies this
      ensures (Value(), res == 0) == Reissue(old(Value()), i)
    {
      hide Pick, UpList;
      var r := inflight[i];
      var picked := NameserverPick();
      if Chosen(picked) == r.ns {
        return 1;
      }
      inflight := inflight[i := r.(ns := Chosen(picked), reissues := r.reissues + 1, tx := 0, transmitMe := true)];
      return 0;
    }

    /** The switch of reply_handle over the error; true if the request was reissued. */
    method JudgeError(i: nat, err: Err) returns (reissued: bool)
      requires Settled(Value()) && i < |inflight|
      modifies this
      ensures (Value(), reissued) == Judge(old(Value()), i, err)
    {
      hide Fine, PoolOk, ServerFailed, Reissue, Stale;
      FineAt(Value(), i);
      FinePool(Value());
      var r := inflight[i];
      assert r.ns < |servers| by { RingKnown(Servers(), r.ns); }
      if err == NotImplemented || err == Refused {
        if r.reissues < cfg.maxReissues {
          NameserverFailed(r.ns);
          var res := RequestReissue(i);
          return res == 0;
        }
      } else if err != ServerBroken {
        NameserverUp(r.ns);
      }
      return false;
    }

    /** search_try_next of request `i`; true if another request took the lookup over. */
    method SearchTryNext(i: nat, built: bool) returns (taken: bool)
      requires Settled(Value()) && i < |inflight|
      modifies this
      ensures var r, next := old(inflight)[i], Following(cfg, old(inflight)[i]);
        && taken == (next.Some? && built)
        && Value() ==
          if taken then Submit(Marked(old(Value()), i, r.armed), Fresh(r.owner, next.value.0, next.value.1))
          else old(Value())
    {
      hide Fine, PoolOk, Submit, Stale, NextName;
      var r := inflight[i];
      StaleAt(Value(), i);
      FineAt(Value(), i);
      var next := NextName(cfg, r.search);
      if next.None? || !built {
        return false;
      }
      MarkedFine(Value(), i, r.armed);
      FinePool(Marked(Value(), i, r.armed));
      inflight := inflight[i := r.(answered := true)];
      RequestSubmit(Fresh(r.owner, next.value.0, next.value.1));
      return true;
    }

    /** reply_handle */
    method ReplyHandle(i: nat, flags: nat, hasAnswer: bool, built: bool, asks: seq<Ask>)
      requires Valid() && i < |inflight|
      modifies this
      ensures Valid() && Value() == HandleReply(old(Value()), i, flags, hasAnswer, built, asks)
    {
      hide Balanced;
      hide Fine, PoolOk, Stale, Judge, Answer, Submit, Finish, Settled, BadReply, Following;
      ghost var s := Value();
      ReplySound(s, i, flags, hasAnswer, built, asks);
      StaleAt(s, i);
      SettledFine(s);
      if BadReply(flags, hasAnswer) {
        JudgeHandled(s, i, ErrorOf(flags));
        var reissued := JudgeError(i, ErrorOf(flags));
        if reissued {
          return;
        }
        ghost var m := Value();
        SettledKept(s, m);
        GiveUpFine(m, i, ErrorOf(flags), asks);
        var taken := SearchTryNext(i, built);
        if !taken {
          ReplyCallback(i, ErrorOf(flags), asks);
        }
        RequestFinished(i);
      } else {
        GiveUpFine(s, i, NoError, asks);
        ReplyCallback(i, NoError, asks);
        ghost var t := Value();
        FineAt(t, i);
        FinePool(t);
        assert inflight[i].ns < |servers| by { RingKnown(Servers(), inflight[i].ns); }
        RaiseOk(t.pool, inflight[i].ns);
        ProgressPool(t, Raise(t.pool, inflight[i].ns));
        NameserverUp(inflight[i].ns);
        RequestFinished(i);
      }
    }

    /** The start of the timeout handler: too many timeouts in a row bring a server down. */
    method Blame(n: nat)
      requires PoolOk(Servers()) && n in ring
      modifies this
      ensures Value() == Blamed(old(Value()), n)
    {
      hide ServerFailed, PoolOk;
      ghost var s := Value();
      assert n < |servers| by { RingKnown(Servers(), n); }
      servers := servers[n := servers[n].(timedout := servers[n].timedout + 1)];
      if servers[n].timedout > cfg.maxTimeouts {
        servers := servers[n := servers[n].(timedout := 0)];
        assert servers == s.pool.servers[n := s.pool.servers[n].(timedout := 0)];
        SetServerOk(s.pool, n, ServerAt(s.pool, n).(timedout := 0));
        NameserverFailed(n);
      }
    }

    /** evdns_request_timeout_callback */
    method TimeoutCallback(i: nat, asks: seq<Ask>)
      requires Valid() && i < |inflight| && inflight[i].armed
      modifies this
      ensures Valid() && Value() == HandleTimeout(old(Value()), i, asks)
    {
      hide Fine, PoolOk, Balanced, Answer, Finish, Settled, Blamed, TransmitOne;
      ghost var s := Value();
      StepSound(s, Timeout(i, asks));
      StaleAt(s, i);
      SettledFine(s);
      TimeoutIs(s, i, asks);
      BlamedProgress(s, i);
      FineAt(s, i);
      FinePool(s);
      Blame(inflight[i].ns);
      ghost var m := Value();
      FineAt(m, i);
      FinePool(m);
      inflight := inflight[i := inflight[i].(armed := false)];
      if inflight[i].tx >= cfg.maxRetransmits {
        DisarmedFine(m, i, asks);
        ReplyCallback(i, TimedOut, asks);
        RequestFinished(i);
      } else {
        RequestTransmit(i);
      }
    }

    /** nameserver_send_probe */
    method SendProbeTo(n: nat, built: bool)
      requires Valid() && n in ring
      modifies this
      ensures Valid() && Value() == SendProbe(old(Value()), n, built)
    {
      hide Balanced, Settled;
      StepSound(Value(), ProbeTimer(n, built));
      SettledFine(Value());
      hide Fine, PoolOk, Enter, Pick;
      if !built {
        return;
      }
      FinePool(Value());
      PickOk(Servers());
      if nInflight < cfg.maxInflight {
        var _ := NameserverPick();
      }
      RequestEnter(Fresh(Probe(n), "www.google.com", None), n);
    }

    /** nameserver_ready_callback for writing */
    method WriteCallback(n: nat)
      requires Valid() && n in ring
      modifies this
      ensures Valid() && Value() == Step(old(Value()), WriteReady(n))
    {
      hide Balanced, Settled;
      StepSound(Value(), WriteReady(n));
      SettledFine(Value());
      hide Fine, PoolOk, TransmitAll;
      ghost var s := Value();
      FinePool(s);
      assert n < |servers| by { RingKnown(Servers(), n); }
      SetServerOk(s.pool, n, ServerAt(s.pool, n).(choked := false));
      ProgressPool(s, SetServer(s.pool, n, ServerAt(s.pool, n).(choked := false)));
      servers := servers[n := servers[n].(choked := false)];
      Transmit();
    }

    /** The loop of evdns_clear_nameservers_and_suspend. */
    method ParkInflight()
      modifies this
      ensures Value() == old(Value()).(inflight := [], waiting := ParkAll(old(inflight), old(waiting)),
        nWaiting := old(nWaiting) + |old(inflight)|)
    {
      ghost var q0, w0 := inflight, waiting;
      while inflight != []
        invariant ParkAll(inflight, waiting) == ParkAll(q0, w0) && nWaiting + |inflight| == old(nWaiting) + |q0|
        invariant Value() == old(Value()).(inflight := inflight, waiting := waiting, nWaiting := nWaiting)
        decreases |inflight|
      {
        waiting := [Parked(inflight[0])] + waiting;
        nWaiting := nWaiting + 1;
        inflight := inflight[1..];
      }
    }

    /** evdns_clear_nameservers_and_suspend */
    method ClearNameserversAndSuspend()
      requires Valid()
      modifies this
      ensures Value() == Suspend(old(Value())) && (NoProbe(old(inflight)) ==> Valid())
    {
      hide Settled, Balanced, NoProbe, Sound;
      if NoProbe(inflight) { StepSound(Value(), ClearAndSuspend); }
      if ring == [] {
        return;
      }
      hide ParkAll;
      ring, good := [], 0;
      ParkInflight();
      nInflight := 0;
    }

    /** _evdns_nameserver_add_impl for a new address: one more server is up, and the old ones stay in the ring. */
    method NameserverAdd()
      requires Valid()
      modifies this
      ensures Valid() && Value() == old(Value()).(pool := Add(old(Servers())))
      ensures PoolOk(Servers()) && good == old(good) + 1 == |UpList(servers, ring)|
      ensures |old(servers)| in ring && forall n :: n in old(ring) ==> n in ring
    {
      hide Settled, Balanced, UpList, NoDup;
      StepSound(Value(), AddServer);
      SettledFine(Value());
      FinePool(Value());
      AddOk(Servers());
      var n := |servers|;
      servers := servers + [Server(true, 0, false, 0)];
      ring := if ring == [] then [n] else [ring[0], n] + ring[1..];
      good := good + 1;
    }

    /** nameserver_read for one packet; without a request it matches, `reply` is None. */
    method PacketFrom(from: nat, reply: Option<nat>, flags: nat, hasAnswer: bool, built: bool, asks: seq<Ask>)
      requires Valid() && from in ring && (reply.Some? ==> reply.value < |inflight|)
      modifies this
      ensures Valid()
      ensures Value() ==
        Step(old(Value()), if reply.Some? then Reply(from, reply.value, flags, hasAnswer, built, asks) else Stray(from))
    {
      hide Settled, Balanced, HandleReply, PoolOk;
      ghost var s := Value();
      SettledFine(s);
      FinePool(s);
      assert from < |servers| by { RingKnown(Servers(), from); }
      StepSound(s, Stray(from));
      servers := servers[from := servers[from].(timedout := 0)];
      if reply.Some? {
        ReplyHandle(reply.value, flags, hasAnswer, built, asks);
      }
    }

    // ----- runs of the object -----

    /** Lets one event happen, if it can. */
    method Handle(e: Event) returns (handled: bool)
      requires Valid()
      modifies this
      ensures Valid() && handled == Enabled(old(Value()), e)
      ensures Value() == if handled then Step(old(Value()), e) else old(Value())
    {
      hide Settled, Balanced, HandleReply, HandleTimeout, SendProbe, Resolve, Pump, ServerFailed, TransmitAll, Suspend,
        Add;
      ghost var s := Value();
      SettledFine(s);
      if Enabled(s, e) { StepSound(s, e); }
      FinePool(s);
      match e
      case Reply(from, i, flags, hasAnswer, built, asks) =>
        handled := from in ring && i < |inflight|;
        if handled { PacketFrom(from, Some(i), flags, hasAnswer, built, asks); }
      case Stray(from) =>
        handled := from in ring;
        if handled { PacketFrom(from, None, 0, false, false, []); }
      case Timeout(i, asks) =>
        handled := i < |inflight| && inflight[i].armed;
        if handled { TimeoutCallback(i, asks); }
      case WriteReady(n) =>
        handled := n in ring;
        if handled { WriteCallback(n); }
      case ReadError(n) =>
        handled := n in ring;
        if handled { NameserverFailed(n); }
      case ProbeTimer(n, built) =>
        handled := n in ring;
        if handled { SendProbeTo(n, built); }
      case Call(a) =>
        handled := true;
        var _ := ResolveName(a);
      case AddServer =>
        handled := true;
        NameserverAdd();
      case ClearAndSuspend =>
        handled := NoProbe(inflight);
        if handled { ClearNameserversAndSuspend(); }
      case Resume =>
        handled := ring != [];
        if handled { PumpWaitingQueue(); }
    }

    /**
      Lets the events happen one after the other; the states passed through are a run, so RunSafe and LookupEnds
      apply.
     */
    method Drive(events: seq<Event>) returns (done: seq<Event>, ghost trace: seq<State>)
      requires Valid() && Value() == Initial(cfg, sends)
      modifies this
      ensures Valid() && IsRun(trace, done) && trace[|trace| - 1] == Value() && |done| <= |events|
    {
      hide Settled, Balanced, Step, Enabled, Initial;
      done, trace := [], [Value()];
      for i := 0 to |events|
        invariant Valid() && IsRun(trace, done) && trace[|trace| - 1] == Value() && |done| <= i
      {
        var handled := Handle(events[i]);
        if handled {
          RunMore(trace, done, events[i], Value());
          done, trace := done + [events[i]], trace + [Value()];
        }
      }
    }

    constructor (cfg: Config, sends: seq<Send>)
      ensures Value() == Initial(cfg, sends) && Valid()
    {
      this.cfg := cfg;
      servers, ring, good := [], [], 0;
      inflight, waiting, nInflight, nWaiting := [], [], 0, 0;
      accepted, completed := 0, [];
      this.sends := sends;
      InitialSound(cfg, sends);
    }
  }
}
