/**
  The request protocol of evdns.c: an inflight ring and a waiting ring of requests, retransmission,
  reissue to another server, search domains, probes, suspension. The results of sends come from an
  arbitrary list in the state; replies, timeouts and the calls made by user callbacks are events.
 */
module Resolver {
  import opened Basics
  import opened Queues
  import opened Nameservers

  /** The options and the search domains. */
  datatype Config = Config(
    maxInflight: nat, maxReissues: nat, maxRetransmits: nat, maxTimeouts: nat, domains: seq<string>, ndots: int)

  /** Whose callback a request runs. */
  datatype Owner = Lookup(id: nat) | Probe(server: nat)

  datatype Search = Search(origname: string, index: int)

  /** `struct request`; `answered` says that its callback ran or that another request took the lookup over. */
  datatype Request = Request(
    owner: Owner, answered: bool, name: string, search: Option<Search>,
    ns: nat, tx: nat, reissues: nat, armed: bool, transmitMe: bool)

  datatype Send = Sent | Again | Failed

  datatype Err = NoError | Format | ServerBroken | NotExist | NotImplemented | Refused | Truncated | Unknown | TimedOut

  /** A call of a user's callback: the lookup, and the error it was told. */
  datatype Result = Result(id: nat, err: Err)

  /** `accepted` lookups are numbered from zero; `completed` lists the calls of their callbacks. */
  datatype State = State(
    cfg: Config, pool: Pool, inflight: seq<Request>, waiting: seq<Request>, nInflight: int, nWaiting: int,
    accepted: nat, completed: seq<Result>, sends: seq<Send>)

  // ----- search domains -----

  /** string_num_dots */
  function Dots(name: string): nat {
    if name == "" then 0 else (if name[0] == '.' then 1 else 0) + Dots(name[1..])
  }

  /** search_make_new */
  function Joined(name: string, domain: string): string {
    if name != "" && name[|name| - 1] == '.' then name + domain else name + "." + domain
  }

  lemma {:induction false} DotsIs(name: string)
    ensures Dots(name) == multiset(name)['.']
  {
    if name != "" {
      DotsIs(name[1..]);
      assert name == [name[0]] + name[1..];
    }
  }

  predicate EndsInDot(name: string) {
    name != "" && name[|name| - 1] == '.'
  }

  /** `asked` is the name, followed by the domain, with one dot between them unless the name ends in one. */
  predicate Joins(name: string, domain: string, asked: string) {
    var gap := if EndsInDot(name) then 0 else 1;
    && |asked| == |name| + gap + |domain| && name <= asked && asked[|name| + gap..] == domain
    && (gap == 1 ==> asked[|name|] == '.')
  }

  lemma {:induction false} JoinedIs(name: string, domain: string)
    ensures Joins(name, domain, Joined(name, domain))
  {
  }

  /** The first name search_request_new asks for. */
  function FirstName(cfg: Config, name: string, noSearch: bool): (string, Option<Search>) {
    if noSearch || cfg.domains == [] then (name, None)
    else if Dots(name) >= cfg.ndots then (name, Some(Search(name, -1)))
    else (Joined(name, cfg.domains[0]), Some(Search(name, 0)))
  }

  predicate SearchOk(cfg: Config, search: Option<Search>) {
    search.Some? ==> -1 <= search.value.index < |cfg.domains|
  }

  /** The next name search_try_next asks for. */
  function NextName(cfg: Config, search: Option<Search>): Option<(string, Option<Search>)>
    requires SearchOk(cfg, search)
  {
    if search.None? then None
    else
      var Search(name, index) := search.value;
      if index + 1 >= |cfg.domains| then
        if Dots(name) < cfg.ndots then Some((name, None)) else None
      else Some((Joined(name, cfg.domains[index + 1]), Some(Search(name, index + 1))))
  }

  function JoinAll(name: string, domains: seq<string>): (r: seq<string>)
    ensures |r| == |domains|
    ensures forall i :: 0 <= i < |r| ==> r[i] == Joined(name, domains[i])
  {
    if domains == [] then [] else [Joined(name, domains[0])] + JoinAll(name, domains[1..])
  }

  /** All names a lookup may ask for, in the order resolv.conf prescribes. */
  function Candidates(cfg: Config, name: string, noSearch: bool): seq<string> {
    if noSearch || cfg.domains == [] then [name]
    else if Dots(name) >= cfg.ndots then [name] + JoinAll(name, cfg.domains)
    else JoinAll(name, cfg.domains) + [name]
  }

  /**
    The candidates: the name alone without domains, or if no search is wanted; otherwise the name with each domain, in
    order, and the name itself before them if it has at least ndots dots, and after them if it has fewer.
   */
  lemma {:induction false} CandidatesAre(cfg: Config, name: string, noSearch: bool)
    ensures var c, n, dotted := Candidates(cfg, name, noSearch), |cfg.domains|, multiset(name)['.'] >= cfg.ndots;
      if noSearch || n == 0 then c == [name]
      else
        && |c| == n + 1 && c[if dotted then 0 else n] == name
        && forall i :: 0 <= i < n ==> Joins(name, cfg.domains[i], c[if dotted then i + 1 else i])
  {
    hide Joins, Joined, Dots;
    DotsIs(name);
    forall i | 0 <= i < |cfg.domains| ensures Joins(name, cfg.domains[i], Joined(name, cfg.domains[i])) {
      JoinedIs(name, cfg.domains[i]);
    }
  }

  /** The names still to be asked for. */
  function Remaining(cfg: Config, search: Option<Search>): seq<string>
    requires SearchOk(cfg, search)
  {
    if search.None? then []
    else
      var Search(name, index) := search.value;
      JoinAll(name, cfg.domains)[index + 1..] + if Dots(name) < cfg.ndots then [name] else []
  }

  lemma {:induction false} FirstNameIs(cfg: Config, name: string, noSearch: bool)
    ensures SearchOk(cfg, FirstName(cfg, name, noSearch).1)
    ensures Candidates(cfg, name, noSearch)
      == [FirstName(cfg, name, noSearch).0] + Remaining(cfg, FirstName(cfg, name, noSearch).1)
  {
    hide Joined, Dots;
  }

  /** A search asks for the candidates one after the other, and for nothing else. */
  lemma {:induction false} NextNameIs(cfg: Config, search: Option<Search>)
    requires SearchOk(cfg, search)
    ensures NextName(cfg, search).None? <==> Remaining(cfg, search) == []
    ensures NextName(cfg, search).Some? ==> SearchOk(cfg, NextName(cfg, search).value.1)
    ensures NextName(cfg, search).Some? ==>
      Remaining(cfg, search) == [NextName(cfg, search).value.0] + Remaining(cfg, NextName(cfg, search).value.1)
  {
    hide Joined, Dots;
  }

  lemma {:induction false} RemainingFalls(cfg: Config, search: Option<Search>)
    requires SearchOk(cfg, search) && NextName(cfg, search).Some?
    ensures SearchOk(cfg, NextName(cfg, search).value.1)
    ensures |Remaining(cfg, NextName(cfg, search).value.1)| < |Remaining(cfg, search)|
  {
    hide Remaining, NextName;
    NextNameIs(cfg, search);
  }

  /** All names asked for from here on, if no request brings an answer. */
  function AskedFrom(cfg: Config, search: Option<Search>): seq<string>
    requires SearchOk(cfg, search)
    decreases |Remaining(cfg, search)|
  {
    var next := NextName(cfg, search);
    if next.None? then []
    else
      RemainingFalls(cfg, search);
      [next.value.0] + AskedFrom(cfg, next.value.1)
  }

  lemma {:induction false} AskedIs(cfg: Config, search: Option<Search>)
    requires SearchOk(cfg, search)
    ensures AskedFrom(cfg, search) == Remaining(cfg, search)
    decreases |Remaining(cfg, search)|
  {
    hide Remaining, NextName;
    NextNameIs(cfg, search);
    if NextName(cfg, search).Some? {
      RemainingFalls(cfg, search);
      AskedIs(cfg, NextName(cfg, search).value.1);
    }
  }

  /** A search that is never answered asks for all candidates, each once and in order, and for nothing else. */
  lemma {:induction false} SearchAsksAll(cfg: Config, name: string, noSearch: bool)
    ensures var (first, search) := FirstName(cfg, name, noSearch);
      SearchOk(cfg, search) && [first] + AskedFrom(cfg, search) == Candidates(cfg, name, noSearch)
  {
    hide Remaining, Candidates, FirstName;
    FirstNameIs(cfg, name, noSearch);
    AskedIs(cfg, FirstName(cfg, name, noSearch).1);
  }

  // ----- sending -----

  /** What a step that only sends, picks servers or renames them leaves alone. */
  ghost predicate SameBooks(s: State, r: State) {
    && r.cfg == s.cfg && r.waiting == s.waiting && r.nInflight == s.nInflight && r.nWaiting == s.nWaiting
    && r.accepted == s.accepted && r.completed == s.completed && |r.inflight| == |s.inflight|
  }

  function SetRequest(s: State, i: nat, r: Request): State
    requires i < |s.inflight|
  {
    s.(inflight := s.inflight[i := r])
  }

  function Chosen(picked: Option<nat>): nat {
    if picked.Some? then picked.value else 0
  }

  /** The walk of nameserver_failed over the inflight ring. */
  function Reassign(s: State, n: nat, i: nat): (r: State)
    ensures SameBooks(s, r)
    decreases |s.inflight| - i
  {
    if i >= |s.inflight| then s
    else if s.inflight[i].tx == 0 && s.inflight[i].ns == n then
      var (pool, picked) := Pick(s.pool);
      Reassign(SetRequest(s, i, s.inflight[i].(ns := Chosen(picked))).(pool := pool), n, i + 1)
    else Reassign(s, n, i + 1)
  }

  /** nameserver_failed */
  function ServerFailed(s: State, n: nat): (r: State)
    ensures SameBooks(s, r)
  {
    if !ServerAt(s.pool, n).up then s
    else
      var s1 := s.(pool := Lower(s.pool, n));
      if s1.pool.good == 0 then s1 else Reassign(s1, n, 0)
  }

  function Outcome(s: State): Send {
    if s.sends == [] then Sent else s.sends[0]
  }

  function Used(s: State): State {
    if s.sends == [] then s else s.(sends := s.sends[1..])
  }

  function Arm(r: Request): Request {
    r.(armed := true, tx := r.tx + 1, transmitMe := false)
  }

  /** evdns_request_transmit */
  function TransmitOne(s: State, i: nat): (r: State)
    requires i < |s.inflight|
    ensures SameBooks(s, r)
  {
    var s1 := SetRequest(s, i, s.inflight[i].(transmitMe := true));
    var n := s.inflight[i].ns;
    if ServerAt(s1.pool, n).choked then s1
    else
      var s2 := Used(s1);
      match Outcome(s1)
      case Again => s2.(pool := SetServer(s2.pool, n, ServerAt(s2.pool, n).(choked := true)))
      case Failed => var s3 := ServerFailed(s2, n); SetRequest(s3, i, Arm(s3.inflight[i]))
      case Sent => SetRequest(s2, i, Arm(s2.inflight[i]))
  }

  /** evdns_transmit, from position `i` on. */
  function TransmitAll(s: State, i: nat): (r: State)
    ensures SameBooks(s, r)
    decreases |s.inflight| - i
  {
    if i >= |s.inflight| then s
    else if s.inflight[i].transmitMe then TransmitAll(TransmitOne(s, i), i + 1)
    else TransmitAll(s, i + 1)
  }

  /** evdns_requests_pump_waiting_queue */
  function Promote(s: State): (r: State)
    requires s.waiting != []
    ensures r.waiting == s.waiting[1..]
  {
    var (pool, picked) := Pick(s.pool);
    var req := s.waiting[0].(ns := Chosen(picked), transmitMe := true);
    var s1 := s.(pool := pool, waiting := s.waiting[1..], inflight := s.inflight + [req],
                 nWaiting := s.nWaiting - 1, nInflight := s.nInflight + 1);
    TransmitAll(TransmitOne(s1, |s.inflight|), 0)
  }

  function Pump(s: State): (r: State)
    decreases |s.waiting|
  {
    if s.nInflight < s.cfg.maxInflight && s.nWaiting != 0 && s.waiting != [] then Pump(Promote(s)) else s
  }

  function Remove<T>(q: seq<T>, i: nat): seq<T>
    requires i < |q|
  {
    q[..i] + q[i + 1..]
  }

  /** request_finished */
  function Finish(s: State, i: nat): State
    requires i < |s.inflight|
  {
    Pump(s.(inflight := Remove(s.inflight, i), nInflight := s.nInflight - 1))
  }

  // ----- new requests -----

  function Fresh(owner: Owner, name: string, search: Option<Search>): Request {
    Request(owner, false, name, search, 0, 0, 0, false, false)
  }

  function Enter(s: State, r: Request, ns: nat): State {
    TransmitOne(s.(inflight := s.inflight + [r.(ns := ns, transmitMe := true)], nInflight := s.nInflight + 1),
      |s.inflight|)
  }

  /** request_new and request_submit */
  function Submit(s: State, r: Request): (t: State)
    ensures |t.inflight| >= |s.inflight|
  {
    var (pool, picked) := if s.nInflight < s.cfg.maxInflight then Pick(s.pool) else (s.pool, None);
    if picked.Some? then Enter(s.(pool := pool), r, picked.value)
    else s.(pool := pool, waiting := s.waiting + [r], nWaiting := s.nWaiting + 1)
  }

  /** A call of evdns_resolve_*; `built` says whether the packet could be built. */
  datatype Ask = Ask(name: string, noSearch: bool, built: bool)

  function Resolve(s: State, a: Ask): (t: State)
    ensures |t.inflight| >= |s.inflight|
  {
    if !a.built then s
    else
      var (name, search) := FirstName(s.cfg, a.name, a.noSearch);
      Submit(s.(accepted := s.accepted + 1), Fresh(Lookup(s.accepted), name, search))
  }

  function ResolveAll(s: State, asks: seq<Ask>): (t: State)
    ensures |t.inflight| >= |s.inflight|
    decreases |asks|
  {
    if asks == [] then s else ResolveAll(Resolve(s, asks[0]), asks[1..])
  }

  // ----- replies and timeouts -----

  /** The flags of a reply that is not an answer. */
  predicate BadReply(flags: nat, hasAnswer: bool) {
    flags / 0x200 % 2 == 1 || flags % 16 != 0 || !hasAnswer
  }

  /** Its error; a reply without error code and without answer is unknown, since zero minus one is no valid index. */
  function ErrorOf(flags: nat): Err {
    if flags / 0x200 % 2 == 1 then Truncated
    else
      match flags % 16
      case 1 => Format
      case 2 => ServerBroken
      case 3 => NotExist
      case 4 => NotImplemented
      case 5 => Refused
      case _ => Unknown
  }

  /** nameserver_probe_failed */
  function ProbeFailed(p: Pool, n: nat): Pool {
    if ServerAt(p, n).up then p else SetServer(p, n, ServerAt(p, n).(failedTimes := ServerAt(p, n).failedTimes + 1))
  }

  /** reply_callback: the user's callback, which may ask for more names, or the probe's. */
  function Answer(s: State, i: nat, err: Err, asks: seq<Ask>): (t: State)
    requires i < |s.inflight|
    ensures |t.inflight| >= |s.inflight|
  {
    var s1 := SetRequest(s, i, s.inflight[i].(answered := true));
    match s.inflight[i].owner
    case Lookup(id) => ResolveAll(s1.(completed := s.completed + [Result(id, err)]), asks)
    case Probe(n) => s1.(pool := if err == NoError || err == NotExist then Raise(s.pool, n) else ProbeFailed(s.pool, n))
  }

  /** request_reissue, and whether another server was found. */
  function Reissue(s: State, i: nat): (t: (State, bool))
    requires i < |s.inflight|
    ensures |t.0.inflight| == |s.inflight|
  {
    var (pool, picked) := Pick(s.pool);
    var r := s.inflight[i];
    if Chosen(picked) == r.ns then (s.(pool := pool), false)
    else (SetRequest(s, i, r.(ns := Chosen(picked), reissues := r.reissues + 1, tx := 0, transmitMe := true))
      .(pool := pool), true)
  }

  /** What an error says about the server, and whether the request was reissued. */
  function Judge(s: State, i: nat, err: Err): (t: (State, bool))
    requires i < |s.inflight|
    ensures |t.0.inflight| == |s.inflight|
  {
    var r := s.inflight[i];
    match err
    case NotImplemented => if r.reissues < s.cfg.maxReissues then Reissue(ServerFailed(s, r.ns), i) else (s, false)
    case Refused => if r.reissues < s.cfg.maxReissues then Reissue(ServerFailed(s, r.ns), i) else (s, false)
    case ServerBroken => (s, false)
    case _ => (s.(pool := Raise(s.pool, r.ns)), false)
  }

  function Following(cfg: Config, r: Request): Option<(string, Option<Search>)> {
    if SearchOk(cfg, r.search) then NextName(cfg, r.search) else None
  }

  /** The next candidate takes the lookup over, or the failure is passed up. */
  function GiveUp(s: State, i: nat, err: Err, built: bool, asks: seq<Ask>): State
    requires i < |s.inflight|
  {
    var r := s.inflight[i];
    var next := Following(s.cfg, r);
    if next.Some? && built then
      Finish(Submit(SetRequest(s, i, r.(answered := true)), Fresh(r.owner, next.value.0, next.value.1)), i)
    else Finish(Answer(s, i, err, asks), i)
  }

  /** reply_handle */
  function HandleReply(s: State, i: nat, flags: nat, hasAnswer: bool, built: bool, asks: seq<Ask>): State
    requires i < |s.inflight|
  {
    if BadReply(flags, hasAnswer) then
      var (s1, reissued) := Judge(s, i, ErrorOf(flags));
      if reissued then s1 else GiveUp(s1, i, ErrorOf(flags), built, asks)
    else
      var s1 := Answer(s, i, NoError, asks);
      Finish(s1.(pool := Raise(s1.pool, s1.inflight[i].ns)), i)
  }

  /** What nameserver_read does for any packet of a server before it looks at it. */
  function Heard(s: State, n: nat): State {
    s.(pool := SetServer(s.pool, n, ServerAt(s.pool, n).(timedout := 0)))
  }

  /** evdns_request_timeout_callback */
  function HandleTimeout(s: State, i: nat, asks: seq<Ask>): State
    requires i < |s.inflight|
  {
    var n := s.inflight[i].ns;
    var v := ServerAt(s.pool, n);
    var s1 :=
      if v.timedout + 1 > s.cfg.maxTimeouts then ServerFailed(s.(pool := SetServer(s.pool, n, v.(timedout := 0))), n)
      else s.(pool := SetServer(s.pool, n, v.(timedout := v.timedout + 1)));
    var r := s1.inflight[i].(armed := false);
    if r.tx >= s.cfg.maxRetransmits then Finish(Answer(SetRequest(s1, i, r), i, TimedOut, asks), i)
    else TransmitOne(SetRequest(s1, i, r), i)
  }

  /** nameserver_send_probe */
  function SendProbe(s: State, n: nat, built: bool): State {
    if !built then s
    else
      var pool := if s.nInflight < s.cfg.maxInflight then Pick(s.pool).0 else s.pool;
      Enter(s.(pool := pool), Fresh(Probe(n), "www.google.com", None), n)
  }

  // ----- suspension -----

  /** A request as evdns_clear_nameservers_and_suspend leaves it. */
  function Parked(r: Request): Request {
    r.(tx := 0, reissues := 0, ns := 0, armed := false, transmitMe := false)
  }

  function ParkAll(q: seq<Request>, w: seq<Request>): seq<Request>
    decreases |q|
  {
    if q == [] then w else ParkAll(q[1..], [Parked(q[0])] + w)
  }

  /** evdns_clear_nameservers_and_suspend */
  function Suspend(s: State): State {
    if s.pool.ring == [] then s
    else s.(pool := Clear(s.pool), waiting := ParkAll(s.inflight, s.waiting), nWaiting := s.nWaiting + |s.inflight|,
            inflight := [], nInflight := 0)
  }

  // ----- runs -----

  /** What the environment does next. */
  datatype Event =
    | Reply(from: nat, i: nat, flags: nat, hasAnswer: bool, built: bool, asks: seq<Ask>)
    | Timeout(i: nat, asks: seq<Ask>)
    | Stray(from: nat)
    | WriteReady(n: nat)
    | ReadError(n: nat)
    | ProbeTimer(n: nat, built: bool)
    | Call(ask: Ask)
    | AddServer
    | ClearAndSuspend
    | Resume

  predicate NoProbe(q: seq<Request>) {
    forall i :: 0 <= i < |q| ==> q[i].owner.Lookup?
  }

  /**
    Packets come from a server of the ring: replies match a request in flight, stray packets do not. Timers fire when
    armed; suspension and resumption happen as documented.
   */
  predicate Enabled(s: State, e: Event) {
    match e
    case Reply(from, i, _, _, _, _) => from in s.pool.ring && i < |s.inflight|
    case Stray(from) => from in s.pool.ring
    case Timeout(i, _) => i < |s.inflight| && s.inflight[i].armed
    case WriteReady(n) => n in s.pool.ring
    case ReadError(n) => n in s.pool.ring
    case ProbeTimer(n, _) => n in s.pool.ring
    case Call(_) => true
    case AddServer => true
    case ClearAndSuspend => NoProbe(s.inflight)
    case Resume => s.pool.ring != []
  }

  function Step(s: State, e: Event): State
    requires Enabled(s, e)
  {
    match e
    case Reply(from, i, flags, hasAnswer, built, asks) => HandleReply(Heard(s, from), i, flags, hasAnswer, built, asks)
    case Stray(from) => Heard(s, from)
    case Timeout(i, asks) => HandleTimeout(s, i, asks)
    case WriteReady(n) => TransmitAll(s.(pool := SetServer(s.pool, n, ServerAt(s.pool, n).(choked := false))), 0)
    case ReadError(n) => ServerFailed(s, n)
    case ProbeTimer(n, built) => SendProbe(s, n, built)
    case Call(a) => Resolve(s, a)
    case AddServer => s.(pool := Add(s.pool))
    case ClearAndSuspend => Suspend(s)
    case Resume => Pump(s)
  }

  function Initial(cfg: Config, sends: seq<Send>): State {
    State(cfg, Pool([], [], 0), [], [], 0, 0, 0, [], sends)
  }

  /** `trace` lists the states of a run, one more than its events. */
  predicate IsRun(trace: seq<State>, events: seq<Event>) {
    && |trace| == |events| + 1 && trace[0] == Initial(trace[0].cfg, trace[0].sends)
    && forall k :: 0 <= k < |events| ==> Enabled(trace[k], events[k]) && trace[k + 1] == Step(trace[k], events[k])
  }
}
