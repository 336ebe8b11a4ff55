/**
  The reactor core (event.c) on values: events sit in up to four kinds of queues at once,
  tracked by flag bits and two counters.
 */
module Reactor {
  import opened Basics
  import opened TimeVal
  import opened Queues

  type Id = nat

  /** EVLIST_TIMEOUT, EVLIST_INSERTED, EVLIST_SIGNAL and EVLIST_ACTIVE */
  datatype Queue = OnTimeout | OnInserted | OnSignal | OnActive

  /** The bits of ev_flags. */
  datatype Flags = Flags(timeout: bool, inserted: bool, signal: bool, active: bool)

  const NONE := Flags(false, false, false, false)

  predicate Has(f: Flags, k: Queue) {
    match k
    case OnTimeout => f.timeout
    case OnInserted => f.inserted
    case OnSignal => f.signal
    case OnActive => f.active
  }

  function Mark(f: Flags, k: Queue, bit: bool): Flags {
    match k
    case OnTimeout => f.(timeout := bit)
    case OnInserted => f.(inserted := bit)
    case OnSignal => f.(signal := bit)
    case OnActive => f.(active := bit)
  }

  /** EV_TIMEOUT, EV_READ, EV_WRITE and EV_SIGNAL as results */
  datatype Kind = Timeout | Read | Write | Signal

  /** `struct event`; `looping` says that ev_pncalls is set. */
  datatype Event = Event(
    io: bool, signal: bool, persist: bool, pri: nat, timeout: Time,
    flags: Flags, res: set<Kind>, ncalls: nat, looping: bool)

  type Events = seq<Event>

  /**
    `struct event_base` with its events. `external` are the events without EVLIST_INTERNAL;
    `abort` says that the running event's call counter was reset through ev_pncalls.
   */
  datatype Base = Base(
    external: set<Id>, ev: Events, inserted: seq<Id>, signals: seq<Id>, heap: seq<Id>, active: seq<seq<Id>>,
    count: int, activeCount: int, abort: bool)

  // ----- what the flags and counters mean -----

  /** Queue `q` holds exactly the events that carry flag `k`, each once. */
  ghost predicate Listed(ev: Events, q: seq<Id>, k: Queue) {
    NoDup(q) && forall id: Id :: id in q <==> id < |ev| && Has(ev[id].flags, k)
  }

  ghost predicate ActiveAt(ev: Events, q: seq<Id>, pri: nat) {
    NoDup(q) && forall id: Id :: id in q <==> id < |ev| && ev[id].flags.active && ev[id].pri == pri
  }

  ghost predicate ActiveListed(ev: Events, qs: seq<seq<Id>>) {
    forall i :: 0 <= i < |qs| ==> ActiveAt(ev, qs[i], i)
  }

  ghost predicate SaneEvent(e: Event, n: nat) {
    && e.pri < n && Normal(e.timeout) && !(e.io && e.signal)
    && (e.flags.inserted ==> e.io) && (e.flags.signal ==> e.signal)
  }

  ghost predicate Sane(ev: Events, n: nat) {
    forall id :: 0 <= id < |ev| ==> SaneEvent(ev[id], n)
  }

  function Members(b: Base): int {
    Count(b.external, b.inserted) + Count(b.external, b.signals) + Count(b.external, b.heap)
      + CountAll(b.external, b.active)
  }

  /** Flags hold exactly for the queues an event is on, and the counters count. */
  ghost predicate Good(b: Base) {
    && Listed(b.ev, b.inserted, OnInserted) && Listed(b.ev, b.signals, OnSignal) && Listed(b.ev, b.heap, OnTimeout)
    && ActiveListed(b.ev, b.active) && Sane(b.ev, |b.active|)
    && b.count == Members(b) && b.activeCount == Total(b.active)
  }

  // ----- the queue operations -----

  function PutAt(qs: seq<seq<Id>>, i: nat, id: Id): (r: seq<seq<Id>>)
    ensures |r| == |qs|
  {
    if i < |qs| then qs[i := qs[i] + [id]] else qs
  }

  function CutAt(qs: seq<seq<Id>>, i: nat, id: Id): (r: seq<seq<Id>>)
    ensures |r| == |qs|
  {
    if i < |qs| then qs[i := Without(qs[i], id)] else qs
  }

  function Weight(b: Base, id: Id): int {
    if id in b.external then 1 else 0
  }

  /** event_queue_insert */
  function PutOn(b: Base, id: Id, k: Queue): (r: Base)
    requires id < |b.ev|
    ensures |r.ev| == |b.ev| && |r.active| == |b.active|
  {
    var b1 := b.(ev := b.ev[id := b.ev[id].(flags := Mark(b.ev[id].flags, k, true))], count := b.count + Weight(b, id));
    match k
    case OnActive => b1.(activeCount := b.activeCount + 1, active := PutAt(b.active, b.ev[id].pri, id))
    case OnSignal => b1.(signals := b.signals + [id])
    case OnTimeout => b1.(heap := b.heap + [id])
    case OnInserted => b1.(inserted := b.inserted + [id])
  }

  /** event_queue_remove */
  function TakeOff(b: Base, id: Id, k: Queue): (r: Base)
    requires id < |b.ev|
    ensures |r.ev| == |b.ev| && |r.active| == |b.active|
  {
    var b1 := b.(ev := b.ev[id := b.ev[id].(flags := Mark(b.ev[id].flags, k, false))],
      count := b.count - Weight(b, id));
    match k
    case OnActive => b1.(activeCount := b.activeCount - 1, active := CutAt(b.active, b.ev[id].pri, id))
    case OnSignal => b1.(signals := Without(b.signals, id))
    case OnTimeout => b1.(heap := Without(b.heap, id))
    case OnInserted => b1.(inserted := Without(b.inserted, id))
  }

  function Leave(b: Base, id: Id, k: Queue): (r: Base)
    requires id < |b.ev|
    ensures |r.ev| == |b.ev| && |r.active| == |b.active|
  {
    if Has(b.ev[id].flags, k) then TakeOff(b, id, k) else b
  }

  function SetEvent(b: Base, id: Id, e: Event): Base
    requires id < |b.ev|
  {
    b.(ev := b.ev[id := e])
  }

  // ----- they keep the meaning of flags and counters -----

  lemma {:induction false} ListedSame(ev: Events, q: seq<Id>, k: Queue, id: Id, e: Event)
    requires Listed(ev, q, k) && id < |ev| && (Has(e.flags, k) <==> Has(ev[id].flags, k))
    ensures Listed(ev[id := e], q, k)
  {
  }

  lemma {:induction false} ListedInsert(ev: Events, q: seq<Id>, k: Queue, id: Id, e: Event)
    requires Listed(ev, q, k) && id < |ev| && !Has(ev[id].flags, k) && Has(e.flags, k)
    ensures Listed(ev[id := e], q + [id], k)
  {
  }

  lemma {:induction false} ListedRemove(ev: Events, q: seq<Id>, k: Queue, id: Id, e: Event)
    requires Listed(ev, q, k) && id < |ev| && Has(ev[id].flags, k) && !Has(e.flags, k)
    ensures id in q && Listed(ev[id := e], Without(q, id), k)
  {
    WithoutIs(q, id);
  }

  lemma {:induction false} ActiveSame(ev: Events, qs: seq<seq<Id>>, id: Id, e: Event)
    requires ActiveListed(ev, qs) && id < |ev| && (e.flags.active <==> ev[id].flags.active)
    requires e.flags.active ==> e.pri == ev[id].pri
    ensures ActiveListed(ev[id := e], qs)
  {
    forall i | 0 <= i < |qs| ensures ActiveAt(ev[id := e], qs[i], i) { assert ActiveAt(ev, qs[i], i); }
  }

  lemma {:induction false} ActiveInsert(ev: Events, qs: seq<seq<Id>>, id: Id, e: Event)
    requires ActiveListed(ev, qs) && id < |ev| && !ev[id].flags.active && e.flags.active
    requires e.pri == ev[id].pri < |qs|
    ensures ActiveListed(ev[id := e], PutAt(qs, e.pri, id))
  {
    var qs' := PutAt(qs, e.pri, id);
    forall i | 0 <= i < |qs'| ensures ActiveAt(ev[id := e], qs'[i], i) {
      assert ActiveAt(ev, qs[i], i);
    }
  }

  lemma {:induction false} ActiveRemove(ev: Events, qs: seq<seq<Id>>, id: Id, e: Event)
    requires ActiveListed(ev, qs) && id < |ev| && ev[id].flags.active && !e.flags.active
    requires e.pri == ev[id].pri < |qs|
    ensures id in qs[e.pri]
    ensures ActiveListed(ev[id := e], CutAt(qs, e.pri, id))
  {
    assert ActiveAt(ev, qs[e.pri], e.pri);
    WithoutIs(qs[e.pri], id);
    var qs' := CutAt(qs, e.pri, id);
    forall i | 0 <= i < |qs'| ensures ActiveAt(ev[id := e], qs'[i], i) {
      assert ActiveAt(ev, qs[i], i);
    }
  }

  lemma {:induction false} SaneKept(ev: Events, n: nat, id: Id, e: Event)
    requires id < |ev| && Sane(ev, n) && SaneEvent(e, n)
    ensures Sane(ev[id := e], n)
  {
  }

  lemma {:induction false} GoodSane(b: Base, id: Id)
    requires Good(b) && id < |b.ev|
    ensures SaneEvent(b.ev[id], |b.active|)
  {
    hide Listed, ActiveListed, Members;
  }

  /** Rewriting fields of an event other than its flags; the priority only while it is not active. */
  lemma {:induction false} GoodSet(b: Base, id: Id, e: Event)
    requires Good(b) && id < |b.ev| && e.flags == b.ev[id].flags && SaneEvent(e, |b.active|)
    requires e.flags.active ==> e.pri == b.ev[id].pri
    ensures Good(SetEvent(b, id, e))
  {
    hide Listed, ActiveListed, Sane, Count, CountAll, Total;
    ListedSame(b.ev, b.inserted, OnInserted, id, e);
    ListedSame(b.ev, b.signals, OnSignal, id, e);
    ListedSame(b.ev, b.heap, OnTimeout, id, e);
    ActiveSame(b.ev, b.active, id, e);
    SaneKept(b.ev, |b.active|, id, e);
  }

  lemma {:induction false} GoodPutOn(b: Base, id: Id, k: Queue)
    requires Good(b) && id < |b.ev| && !Has(b.ev[id].flags, k)
    requires (k == OnInserted ==> b.ev[id].io) && (k == OnSignal ==> b.ev[id].signal)
    ensures Good(PutOn(b, id, k))
  {
    hide Listed, ActiveListed, Sane, Count, CountAll, Total;
    GoodSane(b, id);
    var e := b.ev[id].(flags := Mark(b.ev[id].flags, k, true));
    SaneKept(b.ev, |b.active|, id, e);
    if k != OnInserted { ListedSame(b.ev, b.inserted, OnInserted, id, e); }
    if k != OnSignal { ListedSame(b.ev, b.signals, OnSignal, id, e); }
    if k != OnTimeout { ListedSame(b.ev, b.heap, OnTimeout, id, e); }
    if k != OnActive { ActiveSame(b.ev, b.active, id, e); }
    match k
    case OnActive =>
      ActiveInsert(b.ev, b.active, id, e);
      CountPut(b.external, b.active[e.pri], id);
      CountAllUpdate(b.external, b.active, e.pri, b.active[e.pri] + [id]);
      TotalUpdate(b.active, e.pri, b.active[e.pri] + [id]);
    case OnSignal =>
      ListedInsert(b.ev, b.signals, k, id, e);
      CountPut(b.external, b.signals, id);
    case OnTimeout =>
      ListedInsert(b.ev, b.heap, k, id, e);
      CountPut(b.external, b.heap, id);
    case OnInserted =>
      ListedInsert(b.ev, b.inserted, k, id, e);
      CountPut(b.external, b.inserted, id);
  }

  lemma {:induction false} GoodTakeOff(b: Base, id: Id, k: Queue)
    requires Good(b) && id < |b.ev| && Has(b.ev[id].flags, k)
    ensures Good(TakeOff(b, id, k))
  {
    hide Listed, ActiveListed, Sane, Count, CountAll, Total, Without;
    GoodSane(b, id);
    var e := b.ev[id].(flags := Mark(b.ev[id].flags, k, false));
    SaneKept(b.ev, |b.active|, id, e);
    if k != OnInserted { ListedSame(b.ev, b.inserted, OnInserted, id, e); }
    if k != OnSignal { ListedSame(b.ev, b.signals, OnSignal, id, e); }
    if k != OnTimeout { ListedSame(b.ev, b.heap, OnTimeout, id, e); }
    if k != OnActive { ActiveSame(b.ev, b.active, id, e); }
    match k
    case OnActive =>
      ActiveRemove(b.ev, b.active, id, e);
      CountWithout(b.external, b.active[e.pri], id);
      CountAllUpdate(b.external, b.active, e.pri, Without(b.active[e.pri], id));
      WithoutIs(b.active[e.pri], id);
      TotalUpdate(b.active, e.pri, Without(b.active[e.pri], id));
    case OnSignal =>
      ListedRemove(b.ev, b.signals, k, id, e);
      CountWithout(b.external, b.signals, id);
    case OnTimeout =>
      ListedRemove(b.ev, b.heap, k, id, e);
      CountWithout(b.external, b.heap, id);
    case OnInserted =>
      ListedRemove(b.ev, b.inserted, k, id, e);
      CountWithout(b.external, b.inserted, id);
  }

  /** Leaving a queue the event may or may not be on. */
  lemma {:induction false} GoodLeave(b: Base, id: Id, k: Queue)
    requires Good(b) && id < |b.ev|
    ensures Good(Leave(b, id, k))
    ensures Leave(b, id, k).ev == b.ev[id := b.ev[id].(flags := Mark(b.ev[id].flags, k, false))]
    ensures Leave(b, id, k).heap == if k == OnTimeout then Without(b.heap, id) else b.heap
    ensures Leave(b, id, k).inserted == if k == OnInserted then Without(b.inserted, id) else b.inserted
    ensures Leave(b, id, k).signals == if k == OnSignal then Without(b.signals, id) else b.signals
    ensures Leave(b, id, k).active == if k == OnActive then CutAt(b.active, b.ev[id].pri, id) else b.active
    ensures Leave(b, id, k).abort == b.abort && Leave(b, id, k).external == b.external
  {
    if Has(b.ev[id].flags, k) {
      hide Good, Without;
      GoodTakeOff(b, id, k);
    } else {
      hide Without, Members;
      assert Mark(b.ev[id].flags, k, false) == b.ev[id].flags;
      GoodSane(b, id);
      var q := b.active[b.ev[id].pri];
      assert ActiveAt(b.ev, q, b.ev[id].pri);
      WithoutIs(q, id);
      WithoutIs(b.heap, id);
      WithoutIs(b.inserted, id);
      WithoutIs(b.signals, id);
    }
  }

  // ----- the interface -----

  /** event_del */
  function Deleted(b: Base, id: Id): (r: Base)
    requires id < |b.ev|
    ensures |r.ev| == |b.ev| && |r.active| == |b.active|
  {
    var b0 := b.(abort := b.abort || (b.ev[id].ncalls != 0 && b.ev[id].looping));
    var b2 := Leave(Leave(b0, id, OnTimeout), id, OnActive);
    Leave(b2, id, if b2.ev[id].flags.inserted then OnInserted else OnSignal)
  }

  lemma {:induction false} LeaveBoth(b: Base, id: Id)
    requires Good(b) && id < |b.ev|
    ensures var r := Leave(Leave(b, id, OnTimeout), id, OnActive);
      && Good(r) && r.ev == b.ev[id := b.ev[id].(flags := b.ev[id].flags.(timeout := false, active := false))]
      && r.inserted == b.inserted && r.signals == b.signals && r.heap == Without(b.heap, id)
      && r.active == CutAt(b.active, b.ev[id].pri, id) && r.external == b.external && r.abort == b.abort
  {
    hide Without, Good, CutAt, Leave;
    GoodLeave(b, id, OnTimeout);
    GoodLeave(Leave(b, id, OnTimeout), id, OnActive);
  }

  lemma {:induction false} NotThere(b: Base, id: Id)
    requires Good(b) && id < |b.ev|
    ensures !b.ev[id].flags.inserted ==> Without(b.inserted, id) == b.inserted
    ensures !b.ev[id].flags.signal ==> Without(b.signals, id) == b.signals
  {
    hide Without, ActiveListed, Sane, Members;
    WithoutIs(b.inserted, id);
    WithoutIs(b.signals, id);
  }

  lemma {:induction false} GoodAbort(b: Base, abort: bool)
    requires Good(b)
    ensures Good(b.(abort := abort))
  {
    hide Listed, ActiveListed, Sane, Count, CountAll, Total;
  }

  /** A deleted event is on no queue, and nothing else changed. */
  lemma {:induction false} DeletedGood(b: Base, id: Id)
    requires Good(b) && id < |b.ev|
    ensures Good(Deleted(b, id))
    ensures Deleted(b, id).ev == b.ev[id := b.ev[id].(flags := NONE)]
    ensures Deleted(b, id).heap == Without(b.heap, id)
    ensures Deleted(b, id).inserted == Without(b.inserted, id)
    ensures Deleted(b, id).signals == Without(b.signals, id)
    ensures Deleted(b, id).active == CutAt(b.active, b.ev[id].pri, id)
    ensures Deleted(b, id).external == b.external
    ensures Deleted(b, id).abort == (b.abort || (b.ev[id].ncalls != 0 && b.ev[id].looping))
  {
    hide Without, Good, CutAt, Leave;
    var b0 := b.(abort := b.abort || (b.ev[id].ncalls != 0 && b.ev[id].looping));
    GoodAbort(b, b0.abort);
    GoodSane(b0, id);
    var b2 := Leave(Leave(b0, id, OnTimeout), id, OnActive);
    LeaveBoth(b0, id);
    var k := if b2.ev[id].flags.inserted then OnInserted else OnSignal;
    GoodLeave(b2, id, k);
    NotThere(b, id);
  }

  /** event_active */
  function Activated(b: Base, id: Id, res: set<Kind>, ncalls: nat): (r: Base)
    requires id < |b.ev|
    ensures |r.ev| == |b.ev| && |r.active| == |b.active|
  {
    if b.ev[id].flags.active then SetEvent(b, id, b.ev[id].(res := b.ev[id].res + res))
    else PutOn(SetEvent(b, id, b.ev[id].(res := res, ncalls := ncalls, looping := false)), id, OnActive)
  }

  lemma {:induction false} ActivatedGood(b: Base, id: Id, res: set<Kind>, ncalls: nat)
    requires Good(b) && id < |b.ev|
    ensures Good(Activated(b, id, res, ncalls))
  {
    hide Good;
    GoodSane(b, id);
    if b.ev[id].flags.active {
      GoodSet(b, id, b.ev[id].(res := b.ev[id].res + res));
    } else {
      var e := b.ev[id].(res := res, ncalls := ncalls, looping := false);
      GoodSet(b, id, e);
      GoodPutOn(SetEvent(b, id, e), id, OnActive);
    }
  }

  /**
    What event_active promises: an active event only gathers results; another one goes to the end of its priority
    queue, with these results only, to be called that often.
   */
  ghost predicate ActivePromise(b: Base, id: Id, res: set<Kind>, ncalls: nat, r: Base)
    requires id < |b.ev|
  {
    var e := b.ev[id];
    && r == b.(ev := r.ev, active := r.active, activeCount := r.activeCount, count := r.count)
    && |r.ev| == |b.ev| && |r.active| == |b.active| && (forall j :: 0 <= j < |b.ev| && j != id ==> r.ev[j] == b.ev[j])
    && if e.flags.active then r.active == b.active && r.ev[id] == e.(res := e.res + res)
       else
         && r.ev[id] == e.(flags := e.flags.(active := true), res := res, ncalls := ncalls, looping := false)
         && forall p :: 0 <= p < |b.active| ==> r.active[p] == if p == e.pri then b.active[p] + [id] else b.active[p]
  }

  lemma {:induction false} ActivatedIs(b: Base, id: Id, res: set<Kind>, ncalls: nat)
    requires Good(b) && id < |b.ev|
    ensures Good(Activated(b, id, res, ncalls)) && ActivePromise(b, id, res, ncalls, Activated(b, id, res, ncalls))
  {
    hide Good;
    GoodSane(b, id);
    ActivatedGood(b, id, res, ncalls);
  }

  /** The event no longer waits for an earlier deadline, nor for the callback of one. */
  function Unscheduled(b: Base, id: Id): (r: Base)
    requires id < |b.ev|
    ensures |r.ev| == |b.ev| && |r.active| == |b.active|
  {
    var b1 := Leave(b, id, OnTimeout);
    var e := b1.ev[id];
    if e.flags.active && Timeout in e.res then
      TakeOff(b1.(abort := b1.abort || (e.ncalls != 0 && e.looping)), id, OnActive)
    else b1
  }

  /** The deadline part of event_add. */
  function Scheduled(b: Base, id: Id, deadline: Time): (r: Base)
    requires id < |b.ev|
    ensures |r.ev| == |b.ev| && |r.active| == |b.active|
  {
    var b2 := Unscheduled(b, id);
    PutOn(SetEvent(b2, id, b2.ev[id].(timeout := deadline)), id, OnTimeout)
  }

  /** The backend part of event_add, and its result. */
  function Registered(b: Base, id: Id, backendOk: bool): (r: (Base, int))
    requires id < |b.ev|
    ensures |r.0.ev| == |b.ev| && |r.0.active| == |b.active|
  {
    var e := b.ev[id];
    if e.io && !e.flags.inserted && !e.flags.active then
      if backendOk then (PutOn(b, id, OnInserted), 0) else (b, -1)
    else if e.signal && !e.flags.signal then
      if backendOk then (PutOn(b, id, OnSignal), 0) else (b, -1)
    else (b, 0)
  }

  /** event_add at time `now`; `heapOk` and `backendOk` are the results of the heap and of the backend. */
  function Added(b: Base, id: Id, tv: Option<Time>, now: Time, heapOk: bool, backendOk: bool): (r: (Base, int))
    requires id < |b.ev|
    ensures |r.0.ev| == |b.ev| && |r.0.active| == |b.active|
  {
    if tv.Some? && !b.ev[id].flags.timeout && !heapOk then (b, -1)
    else
      var b1 := if tv.Some? then Scheduled(b, id, TimeVal.Add(now, tv.value)) else b;
      Registered(b1, id, backendOk)
  }

  lemma {:induction false} TakeOffEvents(b: Base, id: Id, k: Queue)
    requires id < |b.ev|
    ensures TakeOff(b, id, k).ev == b.ev[id := b.ev[id].(flags := Mark(b.ev[id].flags, k, false))]
    ensures |TakeOff(b, id, k).active| == |b.active| && TakeOff(b, id, k).external == b.external
    ensures TakeOff(b, id, k).active == if k == OnActive then CutAt(b.active, b.ev[id].pri, id) else b.active
  {
    hide Without;
  }

  lemma {:induction false} GoodStop(b: Base, id: Id, abort: bool)
    requires Good(b) && id < |b.ev| && b.ev[id].flags.active
    ensures Good(TakeOff(b.(abort := abort), id, OnActive))
    ensures TakeOff(b.(abort := abort), id, OnActive).ev
      == b.ev[id := b.ev[id].(flags := Mark(b.ev[id].flags, OnActive, false))]
    ensures TakeOff(b.(abort := abort), id, OnActive).active == CutAt(b.active, b.ev[id].pri, id)
    ensures TakeOff(b.(abort := abort), id, OnActive).external == b.external
  {
    hide Good, TakeOff, CutAt;
    GoodAbort(b, abort);
    GoodTakeOff(b.(abort := abort), id, OnActive);
    TakeOffEvents(b.(abort := abort), id, OnActive);
  }

  /** Whether event_add with a timeout takes the event off its active queue. */
  predicate Stopped(e: Event) {
    e.flags.active && Timeout in e.res
  }

  lemma {:induction false} UnscheduledGood(b: Base, id: Id)
    requires Good(b) && id < |b.ev|
    ensures Good(Unscheduled(b, id)) && Unscheduled(b, id).external == b.external
    ensures Unscheduled(b, id).active == if Stopped(b.ev[id]) then CutAt(b.active, b.ev[id].pri, id) else b.active
    ensures Unscheduled(b, id).ev == b.ev[id := b.ev[id].(flags :=
      b.ev[id].flags.(timeout := false, active := b.ev[id].flags.active && Timeout !in b.ev[id].res))]
  {
    hide Good, Leave, Without, TakeOff, CutAt;
    var b1 := Leave(b, id, OnTimeout);
    GoodLeave(b, id, OnTimeout);
    var e := b1.ev[id];
    if e.flags.active && Timeout in e.res { GoodStop(b1, id, b1.abort || (e.ncalls != 0 && e.looping)); }
  }

  lemma {:induction false} PutOnEvents(b: Base, id: Id, k: Queue)
    requires id < |b.ev|
    ensures PutOn(b, id, k).ev == b.ev[id := b.ev[id].(flags := Mark(b.ev[id].flags, k, true))]
    ensures |PutOn(b, id, k).active| == |b.active| && PutOn(b, id, k).external == b.external
    ensures k != OnActive ==> PutOn(b, id, k).active == b.active
  {
  }

  lemma {:induction false} PutBack(b: Base, id: Id, deadline: Time)
    requires Good(b) && id < |b.ev| && Normal(deadline) && !b.ev[id].flags.timeout
    ensures Good(PutOn(SetEvent(b, id, b.ev[id].(timeout := deadline)), id, OnTimeout))
    ensures PutOn(SetEvent(b, id, b.ev[id].(timeout := deadline)), id, OnTimeout).ev
         == b.ev[id := b.ev[id].(timeout := deadline, flags := Mark(b.ev[id].flags, OnTimeout, true))]
    ensures PutOn(SetEvent(b, id, b.ev[id].(timeout := deadline)), id, OnTimeout).active == b.active
    ensures PutOn(SetEvent(b, id, b.ev[id].(timeout := deadline)), id, OnTimeout).external == b.external
  {
    hide Good, PutOn;
    GoodSane(b, id);
    var e := b.ev[id].(timeout := deadline);
    GoodSet(b, id, e);
    GoodPutOn(SetEvent(b, id, e), id, OnTimeout);
    PutOnEvents(SetEvent(b, id, e), id, OnTimeout);
  }

  /** A scheduled event waits for its new deadline and no longer for the callback of an earlier one. */
  lemma {:induction false} ScheduledGood(b: Base, id: Id, deadline: Time)
    requires Good(b) && id < |b.ev| && Normal(deadline)
    ensures Good(Scheduled(b, id, deadline)) && Scheduled(b, id, deadline).external == b.external
    ensures Scheduled(b, id, deadline).active ==
      if Stopped(b.ev[id]) then CutAt(b.active, b.ev[id].pri, id) else b.active
    ensures Scheduled(b, id, deadline).ev == b.ev[id := b.ev[id].(timeout := deadline, flags :=
      b.ev[id].flags.(timeout := true, active := b.ev[id].flags.active && Timeout !in b.ev[id].res))]
  {
    hide Good, Unscheduled, PutOn, CutAt;
    UnscheduledGood(b, id);
    PutBack(Unscheduled(b, id), id, deadline);
  }

  lemma {:induction false} AddedGood(b: Base, id: Id, tv: Option<Time>, now: Time, heapOk: bool, backendOk: bool)
    requires Good(b) && id < |b.ev| && Normal(now) && (tv.Some? ==> Normal(tv.value))
    ensures Good(Added(b, id, tv, now, heapOk, backendOk).0)
  {
    hide Good, Scheduled, PutOn;
    var b1 := b;
    if tv.Some? {
      b1 := Scheduled(b, id, TimeVal.Add(now, tv.value));
      ScheduledGood(b, id, TimeVal.Add(now, tv.value));
    }
    var e := b1.ev[id];
    if e.io && !e.flags.inserted { GoodPutOn(b1, id, OnInserted); }
    if e.signal && !e.flags.signal { GoodPutOn(b1, id, OnSignal); }
  }

  lemma {:induction false} FlagIsPlace(b: Base, id: Id)
    requires Good(b) && id < |b.ev|
    ensures b.ev[id].flags.timeout <==> id in b.heap
    ensures b.ev[id].flags.inserted <==> id in b.inserted
    ensures b.ev[id].flags.signal <==> id in b.signals
  {
    hide ActiveListed, Sane, Members;
  }

  /** The queues after event `id` left the one it stood on, or all of them as before. */
  ghost predicate LeftActive(b: Base, id: Id, left: bool, r: Base)
    requires id < |b.ev|
  {
    && |r.active| == |b.active|
    && forall p :: 0 <= p < |b.active| ==>
        r.active[p] == if left && p == b.ev[id].pri then Without(b.active[p], id) else b.active[p]
  }

  /** What event_add promises for every outcome of heap and backend, from the event as it was to the event as it is. */
  ghost predicate AddPromise(b: Base, id: Id, tv: Option<Time>, now: Time, heapOk: bool, backendOk: bool, r: Base,
                             res: int)
    requires id < |b.ev|
  {
    var e := b.ev[id];
    if tv.Some? && !e.flags.timeout && !heapOk then r == b && res == -1
    else
      && |r.ev| == |b.ev| && (forall j :: 0 <= j < |b.ev| && j != id ==> r.ev[j] == b.ev[j]) && r.external == b.external
      && (var e', left := r.ev[id], tv.Some? && e.flags.active && Timeout in e.res;
          var wants := (e.io && !e.flags.inserted && !(e.flags.active && !left)) || (e.signal && !e.flags.signal);
          && res == (if wants && !backendOk then -1 else 0)
          && (tv.Some? ==> id in r.heap && Micros(e'.timeout) == Micros(now) + Micros(tv.value))
          && (tv.None? ==> e'.timeout == e.timeout && (id in r.heap <==> id in b.heap))
          && (id in r.inserted <==> id in b.inserted || (e.io && wants && backendOk))
          && (id in r.signals <==> id in b.signals || (e.signal && wants && backendOk))
          && e'.flags.active == (e.flags.active && !left) && LeftActive(b, id, left, r)
          && e' == e.(timeout := e'.timeout, flags := e'.flags))
  }

  lemma {:induction false} RegisteredIs(b: Base, id: Id, backendOk: bool)
    requires Good(b) && id < |b.ev|
    ensures var (r, res), e := Registered(b, id, backendOk), b.ev[id];
      var io, signal := e.io && !e.flags.inserted && !e.flags.active, e.signal && !e.flags.signal;
      && Good(r) && r.external == b.external && r.active == b.active
      && res == (if (io || signal) && !backendOk then -1 else 0)
      && r.ev == b.ev[id := e.(flags := e.flags.(inserted := e.flags.inserted || (io && backendOk),
                                                 signal := e.flags.signal || (signal && backendOk)))]
  {
    hide Good, PutOn;
    GoodSane(b, id);
    var e := b.ev[id];
    if e.io && !e.flags.inserted {
      GoodPutOn(b, id, OnInserted);
      PutOnEvents(b, id, OnInserted);
    }
    if e.signal && !e.flags.signal {
      GoodPutOn(b, id, OnSignal);
      PutOnEvents(b, id, OnSignal);
    }
  }

  lemma {:induction false} AddedIs(b: Base, id: Id, tv: Option<Time>, now: Time, heapOk: bool, backendOk: bool)
    requires Good(b) && id < |b.ev| && Normal(now) && (tv.Some? ==> Normal(tv.value))
    ensures var (r, res) := Added(b, id, tv, now, heapOk, backendOk);
      Good(r) && AddPromise(b, id, tv, now, heapOk, backendOk, r, res)
  {
    hide Good, Scheduled, Registered, Without;
    GoodSane(b, id);
    FlagIsPlace(b, id);
    if !(tv.Some? && !b.ev[id].flags.timeout && !heapOk) {
      var b1 := b;
      if tv.Some? {
        b1 := Scheduled(b, id, TimeVal.Add(now, tv.value));
        ScheduledGood(b, id, TimeVal.Add(now, tv.value));
      }
      RegisteredIs(b1, id, backendOk);
      FlagIsPlace(Registered(b1, id, backendOk).0, id);
    }
  }

  /** event_priority_set */
  function Prioritized(b: Base, id: Id, pri: int): (r: (Base, int))
    requires id < |b.ev|
    ensures |r.0.ev| == |b.ev| && |r.0.active| == |b.active|
  {
    if b.ev[id].flags.active || pri < 0 || pri >= |b.active| then (b, -1)
    else (SetEvent(b, id, b.ev[id].(pri := pri)), 0)
  }
}
