/**
  The event loop (event.c): the base as an object whose fields every call updates, timers, the
  draining of the active queues with callbacks that call back into the base, and the loop itself.
 */
module EventLoop {
  import opened Basics
  import opened TimeVal
  import opened Queues
  import opened Reactor

  // ----- timers on values -----

  predicate Expired(e: Event, now: Time) {
    !Less(now, e.timeout)
  }

  function Fired(e: Event): Event {
    e.(flags := NONE.(active := true), res := {Timeout}, ncalls := 1, looping := false)
  }

  /** What timeout_process does with an expired event. */
  function Fire(b: Base, id: Id): (r: Base)
    requires id < |b.ev|
    ensures |r.ev| == |b.ev|
  {
    Activated(Deleted(b, id), id, {Timeout}, 1)
  }

  lemma {:induction false} FireIs(b: Base, id: Id)
    requires Good(b) && id < |b.ev|
    ensures Good(Fire(b, id)) && Fire(b, id).ev == b.ev[id := Fired(b.ev[id])]
    ensures Fire(b, id).heap == Without(b.heap, id)
    ensures Fire(b, id).inserted == Without(b.inserted, id)
    ensures Fire(b, id).signals == Without(b.signals, id)
    ensures Fire(b, id).active == PutAt(CutAt(b.active, b.ev[id].pri, id), b.ev[id].pri, id)
  {
    hide Good, Without, Deleted, CutAt, PutAt;
    DeletedGood(b, id);
    ActivatedGood(Deleted(b, id), id, {Timeout}, 1);
  }

  predicate Known(q: seq<Id>, n: nat) {
    forall i :: 0 <= i < |q| ==> q[i] < n
  }

  function FireAll(b: Base, fired: seq<Id>): (r: Base)
    requires Known(fired, |b.ev|)
    ensures |r.ev| == |b.ev|
  {
    if fired == [] then b
    else Fire(FireAll(b, fired[..|fired| - 1]), fired[|fired| - 1])
  }

  function OfPriority(ev: Events, q: seq<Id>, pri: nat): seq<Id>
    requires Known(q, |ev|)
  {
    if q == [] then []
    else
      var rest := OfPriority(ev, q[..|q| - 1], pri);
      if ev[q[|q| - 1]].pri == pri then rest + [q[|q| - 1]] else rest
  }

  lemma {:induction false} OfPriorityIn(ev: Events, q: seq<Id>, pri: nat)
    requires Known(q, |ev|)
    ensures forall id :: id in OfPriority(ev, q, pri) ==> id in q
  {
    if q != [] { OfPriorityIn(ev, q[..|q| - 1], pri); }
  }

  /** The events of `b` after `fired` have fired. */
  ghost predicate EventsFired(b: Base, fired: seq<Id>, r: Base) {
    && |r.ev| == |b.ev| && |r.active| == |b.active|
    && (forall id :: 0 <= id < |b.ev| ==> r.ev[id] == if id in fired then Fired(b.ev[id]) else b.ev[id])
  }

  /** The queues of `b` after `fired` have fired: they left every queue and stand, in order, at the end of their own. */
  ghost predicate QueuesFired(b: Base, fired: seq<Id>, r: Base)
    requires Known(fired, |b.ev|)
  {
    && r.heap == Minus(b.heap, fired) && r.inserted == Minus(b.inserted, fired) && r.signals == Minus(b.signals, fired)
    && |r.active| == |b.active|
    && forall i :: 0 <= i < |b.active| ==> r.active[i] == Minus(b.active[i], fired) + OfPriority(b.ev, fired, i)
  }

  lemma {:induction false} OfPriorityMore(ev: Events, f: seq<Id>, id: Id, pri: nat)
    requires Known(f, |ev|) && id < |ev|
    ensures Known(f + [id], |ev|)
    ensures OfPriority(ev, f + [id], pri) == OfPriority(ev, f, pri) + if ev[id].pri == pri then [id] else []
  {
    assert (f + [id])[..|f|] == f;
  }

  lemma {:induction false} ActiveOf(b: Base, i: nat)
    requires Good(b) && i < |b.active|
    ensures ActiveAt(b.ev, b.active[i], i)
  {
    hide Listed, Sane, Members, ActiveAt;
  }

  lemma {:induction false} QueuesNoDup(b: Base)
    requires Good(b)
    ensures NoDup(b.heap) && NoDup(b.inserted) && NoDup(b.signals)
  {
    hide NoDup, Sane, ActiveListed, Members;
  }

  lemma {:induction false} FireQueue(b: Base, f: seq<Id>, id: Id, m: seq<Id>, r: seq<Id>, i: nat)
    requires Known(f, |b.ev|) && id !in f && id < |b.ev| && i < |b.active|
    requires ActiveAt(b.ev, b.active[i], i) && m == Minus(b.active[i], f) + OfPriority(b.ev, f, i)
    requires r == if b.ev[id].pri == i then Without(m, id) + [id] else m
    ensures Known(f + [id], |b.ev|) && r == Minus(b.active[i], f + [id]) + OfPriority(b.ev, f + [id], i)
  {
    hide Minus, Without, OfPriority;
    MinusMore(b.active[i], f, id);
    OfPriorityIn(b.ev, f, i);
    OfPriorityMore(b.ev, f, id, i);
    if i == b.ev[id].pri {
      WithoutConcat(Minus(b.active[i], f), OfPriority(b.ev, f, i), id);
    } else {
      WithoutIs(b.active[i], id);
      WithoutIs(Minus(b.active[i], f), id);
      MinusIn(b.active[i], f);
    }
  }

  lemma {:induction false} FireQueues(b: Base, f: seq<Id>, id: Id, m: Base, r: Base)
    requires Good(b) && NoDup(f) && id !in f && Known(f, |b.ev|) && id < |b.ev|
    requires EventsFired(b, f, m) && QueuesFired(b, f, m)
    requires r.heap == Without(m.heap, id) && r.inserted == Without(m.inserted, id)
    requires r.signals == Without(m.signals, id)
    requires r.active == PutAt(CutAt(m.active, b.ev[id].pri, id), b.ev[id].pri, id)
    ensures QueuesFired(b, f + [id], r)
  {
    hide Minus, Without, Good, ActiveAt, OfPriority, NoDup;
    GoodSane(b, id);
    QueuesNoDup(b);
    MinusMore(b.heap, f, id);
    MinusMore(b.inserted, f, id);
    MinusMore(b.signals, f, id);
    forall i | 0 <= i < |b.active|
      ensures r.active[i] == Minus(b.active[i], f + [id]) + OfPriority(b.ev, f + [id], i)
    {
      ActiveOf(b, i);
      FireQueue(b, f, id, m.active[i], r.active[i], i);
    }
  }

  lemma {:induction false} NoneFired(b: Base)
    ensures EventsFired(b, [], b) && QueuesFired(b, [], b)
  {
    hide Minus;
    MinusNone(b.heap);
    MinusNone(b.inserted);
    MinusNone(b.signals);
    forall i | 0 <= i < |b.active| ensures b.active[i] == Minus(b.active[i], []) + OfPriority(b.ev, [], i) {
      MinusNone(b.active[i]);
    }
  }

  lemma {:induction false} FiredApart(b: Base, f: seq<Id>, m: Base, id: Id)
    requires EventsFired(b, f, m) && id !in f && id < |b.ev|
    ensures |m.ev| == |b.ev| && m.ev[id] == b.ev[id]
  {
  }

  lemma {:induction false} FireEvents(b: Base, f: seq<Id>, id: Id, m: Base, r: Base)
    requires EventsFired(b, f, m) && id < |b.ev| && r.ev == m.ev[id := Fired(b.ev[id])] && |r.active| == |m.active|
    ensures EventsFired(b, f + [id], r)
  {
    hide Fired;
  }

  lemma {:induction false} FireAllIs(b: Base, fired: seq<Id>)
    requires Good(b) && NoDup(fired)
    requires Known(fired, |b.ev|)
    ensures Good(FireAll(b, fired))
    ensures EventsFired(b, fired, FireAll(b, fired)) && QueuesFired(b, fired, FireAll(b, fired))
  {
    hide Good, Fire, EventsFired, QueuesFired;
    if fired == [] {
      NoneFired(b);
    } else {
      var f, id := fired[..|fired| - 1], fired[|fired| - 1];
      assert fired == f + [id];
      assert id !in f;
      FireAllIs(b, f);
      var m := FireAll(b, f);
      FiredApart(b, f, m, id);
      FireIs(m, id);
      FireQueues(b, f, id, m, Fire(m, id));
      FireEvents(b, f, id, m, Fire(m, id));
    }
  }

  // ----- the environment -----

  /** One call that a callback makes. */
  datatype Action =
    | DoAdd(id: Id, tv: Option<Time>, now: Time, heapOk: bool, backendOk: bool)
    | DoDel(id: Id)
    | DoActive(id: Id, res: set<Kind>, ncalls: nat)
    | DoPriority(id: Id, pri: int)
    | DoSet(id: Id, io: bool, signal: bool, persist: bool)
    | DoBreak

  predicate Allowed(a: Action, n: nat) {
    match a
    case DoAdd(id, tv, now, _, _) => id < n && Normal(now) && (tv.Some? ==> Normal(tv.value))
    case DoSet(id, io, signal, _) => id < n && !(io && signal)
    case DoBreak => true
    case _ => a.id < n
  }

  predicate AllAllowed(s: seq<Action>, n: nat) {
    forall i :: 0 <= i < |s| ==> Allowed(s[i], n)
  }

  predicate ScriptAllowed(script: seq<seq<Action>>, n: nat) {
    forall i :: 0 <= i < |script| ==> AllAllowed(script[i], n)
  }

  /** event_set and event_base_set of an event that is on no queue. */
  function Reset(e: Event, n: nat, io: bool, signal: bool, persist: bool): Event {
    Event(io, signal, persist, n / 2, e.timeout, NONE, {}, 0, false)
  }

  function Performed(b: Base, a: Action): (r: Base)
    requires Allowed(a, |b.ev|)
    ensures |r.ev| == |b.ev| && |r.active| == |b.active|
  {
    match a
    case DoAdd(id, tv, now, heapOk, backendOk) => Added(b, id, tv, now, heapOk, backendOk).0
    case DoDel(id) => Deleted(b, id)
    case DoActive(id, res, ncalls) => Activated(b, id, res, ncalls)
    case DoPriority(id, pri) => Prioritized(b, id, pri).0
    case DoSet(id, io, signal, persist) =>
      if b.ev[id].flags == NONE then SetEvent(b, id, Reset(b.ev[id], |b.active|, io, signal, persist)) else b
    case DoBreak => b
  }

  /** An event that is set anew is on no queue, has nothing to report, and is of middle priority; a queued one stays. */
  lemma {:induction false} SetIs(b: Base, id: Id, io: bool, signal: bool, persist: bool)
    requires Allowed(DoSet(id, io, signal, persist), |b.ev|) && id < |b.ev|
    ensures var r, e := Performed(b, DoSet(id, io, signal, persist)), b.ev[id];
      if e.flags != NONE then r == b
      else
        && r == b.(ev := b.ev[id := r.ev[id]]) && r.ev[id].flags == NONE && r.ev[id].res == {} && r.ev[id].ncalls == 0
        && !r.ev[id].looping && 2 * r.ev[id].pri <= |b.active| <= 2 * r.ev[id].pri + 1 && r.ev[id].timeout == e.timeout
        && (r.ev[id].io <==> io) && (r.ev[id].signal <==> signal) && (r.ev[id].persist <==> persist)
  {
  }

  /** All calls of a callback, in order. */
  function PerformedAll(b: Base, actions: seq<Action>): (r: Base)
    requires AllAllowed(actions, |b.ev|)
    ensures |r.ev| == |b.ev| && |r.active| == |b.active|
  {
    if actions == [] then b
    else Performed(PerformedAll(b, actions[..|actions| - 1]), actions[|actions| - 1])
  }

  predicate Breaks(actions: seq<Action>) {
    exists i :: 0 <= i < |actions| && actions[i].DoBreak?
  }

  lemma {:induction false} BreaksNext(actions: seq<Action>, i: nat)
    requires i < |actions|
    ensures Breaks(actions[..i + 1]) <==> Breaks(actions[..i]) || actions[i].DoBreak?
  {
    assert actions[..i + 1] == actions[..i] + [actions[i]];
    assert (actions[..i] + [actions[i]])[i] == actions[i];
    if k :| 0 <= k < i && actions[..i][k].DoBreak? { assert actions[..i + 1][k].DoBreak?; }
  }

  /** Every call of the interface keeps flags, queues and counters in step. */
  lemma {:induction false} PerformedGood(b: Base, a: Action)
    requires Good(b) && Allowed(a, |b.ev|)
    ensures Good(Performed(b, a))
  {
    hide Good, Added, Deleted, Activated;
    match a
    case DoAdd(id, tv, now, heapOk, backendOk) => AddedGood(b, id, tv, now, heapOk, backendOk);
    case DoDel(id) => DeletedGood(b, id);
    case DoActive(id, res, ncalls) => ActivatedGood(b, id, res, ncalls);
    case DoPriority(id, pri) =>
      GoodSane(b, id);
      if 0 <= pri < |b.active| && !b.ev[id].flags.active { GoodSet(b, id, b.ev[id].(pri := pri)); }
    case DoSet(id, io, signal, persist) =>
      GoodSane(b, id);
      if b.ev[id].flags == NONE { GoodSet(b, id, Reset(b.ev[id], |b.active|, io, signal, persist)); }
    case DoBreak =>
  }

  /** A better-priority queue is empty, and queue `p` is not. */
  ghost predicate FirstBusy(qs: seq<seq<Id>>, p: nat) {
    p < |qs| && qs[p] != [] && forall i :: 0 <= i < p ==> qs[i] == []
  }

  lemma {:induction false} SomeBusy(qs: seq<seq<Id>>)
    requires Total(qs) > 0
    ensures exists p: nat :: FirstBusy(qs, p)
  {
    if qs[0] != [] {
      assert FirstBusy(qs, 0);
    } else {
      SomeBusy(qs[1..]);
      var p: nat :| FirstBusy(qs[1..], p);
      assert forall i :: 0 < i < p + 1 ==> qs[i] == qs[1..][i - 1];
      assert FirstBusy(qs, p + 1);
    }
  }

  predicate Earliest(ev: Events, q: seq<Id>, id: Id)
    requires Known(q, |ev|) && id < |ev|
  {
    id in q && forall i :: 0 <= i < |q| ==> !Less(ev[q[i]].timeout, ev[id].timeout)
  }

  /** Zero if the deadline has passed, and otherwise exactly what is left. */
  predicate WaitFor(deadline: Time, now: Time, wait: Time) {
    Micros(wait) == if Micros(deadline) <= Micros(now) then 0 else Micros(deadline) - Micros(now)
  }

  ghost predicate TimesNormal(ev: Events, q: seq<Id>)
    requires Known(q, |ev|)
  {
    forall i :: 0 <= i < |q| ==> Normal(ev[q[i]].timeout)
  }

  lemma {:induction false} SomeEarliest(ev: Events, q: seq<Id>)
    requires q != [] && Known(q, |ev|) && TimesNormal(ev, q)
    ensures exists id :: 0 <= id < |ev| && Earliest(ev, q, id)
  {
    var f, x := q[..|q| - 1], q[|q| - 1];
    if f == [] {
      assert Earliest(ev, q, x);
    } else {
      SomeEarliest(ev, f);
      var id :| 0 <= id < |ev| && Earliest(ev, f, id);
      var best := if Less(ev[x].timeout, ev[id].timeout) then x else id;
      forall i | 0 <= i < |q| ensures !Less(ev[q[i]].timeout, ev[best].timeout) {
        if i < |f| { assert f[i] == q[i]; }
      }
      assert Earliest(ev, q, best);
    }
  }

  lemma {:induction false} HeapKnown(b: Base)
    requires Good(b)
    ensures Known(b.heap, |b.ev|) && TimesNormal(b.ev, b.heap)
    ensures NoDup(b.heap) && forall id: Id :: id in b.heap <==> id < |b.ev| && b.ev[id].flags.timeout
  {
    hide Members, ActiveListed;
    forall i | 0 <= i < |b.heap| ensures b.heap[i] < |b.ev| { assert b.heap[i] in b.heap; }
  }

  ghost predicate SameOrder(ev: Events, ev': Events, q: seq<Id>)
    requires |ev| == |ev'| && Known(q, |ev|)
  {
    forall i, j :: 0 <= i < |q| && 0 <= j < |q| ==>
      (Less(ev'[q[i]].timeout, ev'[q[j]].timeout) <==> Less(ev[q[i]].timeout, ev[q[j]].timeout))
  }

  ghost predicate Shifted(ev: Events, ev': Events, q: seq<Id>, off: Time)
    requires |ev| == |ev'| && Known(q, |ev|)
  {
    forall i :: 0 <= i < |q| ==> ev'[q[i]].timeout == Sub(ev[q[i]].timeout, off)
  }

  lemma {:induction false} ShiftedSameOrder(ev: Events, ev': Events, q: seq<Id>, off: Time)
    requires |ev| == |ev'| && Known(q, |ev|) && Normal(off) && TimesNormal(ev, q) && Shifted(ev, ev', q, off)
    ensures SameOrder(ev, ev', q)
  {
    forall i, j | 0 <= i < |q| && 0 <= j < |q|
      ensures Less(ev'[q[i]].timeout, ev'[q[j]].timeout) <==> Less(ev[q[i]].timeout, ev[q[j]].timeout)
    {
      ShiftKeepsOrder(ev[q[i]].timeout, ev[q[j]].timeout, off);
    }
  }

  /** `fired` are expired events of `b`, in deadline order; `heap` are the others, none of them earlier. */
  ghost predicate FiredFirst(b: Base, fired: seq<Id>, heap: seq<Id>, now: Time) {
    && NoDup(fired) && Known(fired, |b.ev|) && Known(heap, |b.ev|) && NoDup(heap)
    && (forall x :: x in b.heap <==> x in fired || x in heap)
    && (forall x :: x in heap ==> x !in fired)
    && (forall i :: 0 <= i < |fired| ==> Expired(b.ev[fired[i]], now))
    && (forall i, j :: 0 <= i < j < |fired| ==> !Less(b.ev[fired[j]].timeout, b.ev[fired[i]].timeout))
    && (forall i, k :: 0 <= i < |fired| && 0 <= k < |heap| ==> !Less(b.ev[heap[k]].timeout, b.ev[fired[i]].timeout))
  }

  lemma {:induction false} FiredNext(b: Base, fired: seq<Id>, heap: seq<Id>, now: Time, id: Id)
    requires FiredFirst(b, fired, heap, now) && id < |b.ev| && Earliest(b.ev, heap, id) && Expired(b.ev[id], now)
    ensures FiredFirst(b, fired + [id], Without(heap, id), now)
    ensures |Without(heap, id)| < |heap|
  {
    hide Without;
    var f, h := fired + [id], Without(heap, id);
    WithoutIs(heap, id);
    forall k | 0 <= k < |h| ensures h[k] < |b.ev| && h[k] in heap { assert h[k] in h; }
    forall i, k | 0 <= i < |f| && 0 <= k < |h| ensures !Less(b.ev[h[k]].timeout, b.ev[f[i]].timeout) {
      var j :| 0 <= j < |heap| && heap[j] == h[k];
    }
  }

  lemma {:induction false} FiredNone(b: Base, now: Time)
    requires Good(b)
    ensures FiredFirst(b, [], b.heap, now) && FireAll(b, []) == b
  {
    hide Good;
    HeapKnown(b);
  }

  /** What the loop of timeout_process sees at the top of the heap. */
  lemma {:induction false} FiredTop(b: Base, fired: seq<Id>, heap: seq<Id>, now: Time, id: Id)
    requires Good(b) && FiredFirst(b, fired, heap, now) && Known(fired, |b.ev|) && heap == FireAll(b, fired).heap
    requires id < |b.ev|
    requires Known(heap, |b.ev|) && Earliest(FireAll(b, fired).ev, heap, id)
    ensures Earliest(b.ev, heap, id) && FireAll(b, fired).ev[id] == b.ev[id]
  {
    hide Good, QueuesFired, FireAll;
    FireAllIs(b, fired);
    var ev := FireAll(b, fired).ev;
    forall k | 0 <= k < |heap| ensures ev[heap[k]] == b.ev[heap[k]] { assert heap[k] in heap; }
  }

  lemma {:induction false} FireStep(b: Base, fired: seq<Id>, heap: seq<Id>, now: Time, id: Id)
    requires Good(b) && FiredFirst(b, fired, heap, now) && Known(fired, |b.ev|) && heap == FireAll(b, fired).heap
    requires id < |b.ev|
    requires Earliest(b.ev, heap, id) && Expired(b.ev[id], now)
    ensures Known(fired + [id], |b.ev|) && FireAll(b, fired + [id]) == Fire(FireAll(b, fired), id)
    ensures FiredFirst(b, fired + [id], FireAll(b, fired + [id]).heap, now)
    ensures |FireAll(b, fired + [id]).heap| < |heap|
  {
    hide Good, QueuesFired, Fire, Earliest, EventsFired;
    assert (fired + [id])[..|fired|] == fired;
    hide FireAll;
    FireAllIs(b, fired);
    FireIs(FireAll(b, fired), id);
    FiredNext(b, fired, heap, now, id);
  }

  lemma {:induction false} FiredAll(b: Base, fired: seq<Id>, heap: seq<Id>, now: Time)
    requires Good(b) && FiredFirst(b, fired, heap, now) && Known(fired, |b.ev|) && heap == FireAll(b, fired).heap
    requires heap == [] || exists id :: 0 <= id < |b.ev| && Earliest(b.ev, heap, id) && Less(now, b.ev[id].timeout)
    requires Normal(now)
    ensures forall id :: id in fired <==> id in b.heap && 0 <= id < |b.ev| && Expired(b.ev[id], now)
    ensures NoDup(fired)
    ensures forall i, j :: 0 <= i < j < |fired| ==> !Less(b.ev[fired[j]].timeout, b.ev[fired[i]].timeout)
    ensures forall id :: id in heap ==> id < |b.ev| && Less(now, FireAll(b, fired).ev[id].timeout)
    ensures EventsFired(b, fired, FireAll(b, fired)) && QueuesFired(b, fired, FireAll(b, fired))
  {
    hide Good, QueuesFired, FireAll;
    FireAllIs(b, fired);
    HeapKnown(b);
    var ev := FireAll(b, fired).ev;
    forall id | id in heap ensures id < |b.ev| && Less(now, b.ev[id].timeout) && ev[id] == b.ev[id] {
      var top :| 0 <= top < |b.ev| && Earliest(b.ev, heap, top) && Less(now, b.ev[top].timeout);
      assert id in b.heap && top in b.heap;
      LessIsLess(now, b.ev[top].timeout);
      LessIsLess(now, b.ev[id].timeout);
      LessIsLess(b.ev[id].timeout, b.ev[top].timeout);
    }
  }

  lemma {:induction false} SomeActive(b: Base)
    requires Good(b) && b.activeCount != 0
    ensures exists p: nat :: FirstBusy(b.active, p)
  {
    hide Listed, ActiveListed, Sane, Members;
    SomeBusy(b.active);
  }

  /** The head of queue `p` is an active event of priority `p`. */
  lemma {:induction false} HeadOf(b: Base, p: nat)
    requires Good(b) && p < |b.active| && b.active[p] != []
    ensures b.active[p][0] < |b.ev| && b.ev[b.active[p][0]].pri == p && b.ev[b.active[p][0]].flags.active
  {
    hide Listed, Sane, Members;
    assert ActiveAt(b.ev, b.active[p], p);
    assert b.active[p][0] in b.active[p];
  }

  function Taken(b: Base, id: Id): Base
    requires id < |b.ev|
  {
    if b.ev[id].persist then TakeOff(b, id, OnActive) else Deleted(b, id)
  }

  /** The flags of an event that was taken off: a persistent event stays registered, another one is deleted. */
  function AfterTaking(e: Event): Flags {
    if e.persist then e.flags.(active := false) else NONE
  }

  lemma {:induction false} TakenOff(b: Base, p: nat)
    requires Good(b) && p < |b.active| && b.active[p] != []
    ensures b.active[p][0] < |b.ev|
    ensures var id, r := b.active[p][0], Taken(b, b.active[p][0]);
      && Good(r) && |r.ev| == |b.ev| && r.active == b.active[p := b.active[p][1..]]
      && r.ev == b.ev[id := b.ev[id].(flags := AfterTaking(b.ev[id]))]
  {
    hide Good;
    HeadOf(b, p);
    var id := b.active[p][0];
    if b.ev[id].persist {
      GoodTakeOff(b, id, OnActive);
    } else {
      DeletedGood(b, id);
      hide Deleted;
    }
  }

  // ----- what a pass did -----

  /**
    The trace of a base. Before its callbacks run, an event is taken off the queue it heads: `before` is the event and
    `queue` is that queue, as they were right before. A callback that runs is recorded with the event's results and
    flags, and with what it left behind: event_break set, or the counter of the loop that calls it reset.
   */
  datatype Entry =
    | Took(id: Id, before: Event, queue: seq<Id>)
    | Ran(id: Id, res: set<Kind>, flags: Flags, broke: bool, reset: bool)

  /** The event whose turn it is. */
  function LastTook(t: seq<Entry>): Option<Entry> {
    if t == [] then None
    else if t[|t| - 1].Took? then Some(t[|t| - 1])
    else LastTook(t[..|t| - 1])
  }

  /** How often it was called so far. */
  function RanSince(t: seq<Entry>): nat {
    if t == [] || t[|t| - 1].Took? then 0 else 1 + RanSince(t[..|t| - 1])
  }

  /** The last callback broke the loop over the events. */
  predicate Broke(t: seq<Entry>) {
    t != [] && t[|t| - 1].Ran? && t[|t| - 1].broke
  }

  /** The last callback ended the calls of its event. */
  predicate Ended(t: seq<Entry>) {
    t != [] && t[|t| - 1].Ran? && (t[|t| - 1].broke || t[|t| - 1].reset)
  }

  /** The event taken off last was called as often as it asked for, or until a callback ended its calls. */
  predicate Finished(t: seq<Entry>) {
    match LastTook(t)
    case Some(Took(_, before, _)) => RanSince(t) == before.ncalls || Ended(t)
    case _ => t == []
  }

  /**
    What may follow `t` in a pass over queue `p`: an active event of that priority, which heads the queue, is taken off
    when the calls of the event before it are finished and none broke the loop; or the event taken off last is called,
    as long as it asked for more and no callback ended its calls, and the first time just as it was left.
   */
  ghost predicate Follows(t: seq<Entry>, e: Entry, p: nat) {
    match e
    case Took(id, before, queue) =>
      && before.flags.active && before.pri == p && queue != [] && queue[0] == id
      && Finished(t) && !Broke(t)
    case Ran(id, res, flags, _, _) =>
      match LastTook(t)
      case Some(Took(taken, before, _)) =>
        && id == taken && RanSince(t) < before.ncalls && !Ended(t)
        && (RanSince(t) == 0 ==> res == before.res && flags == AfterTaking(before))
      case _ => false
  }

  ghost predicate Pass(t: seq<Entry>, p: nat) {
    t == [] || (Pass(t[..|t| - 1], p) && Follows(t[..|t| - 1], t[|t| - 1], p))
  }

  lemma {:induction false} PassMore(t: seq<Entry>, e: Entry, p: nat)
    requires Pass(t, p) && Follows(t, e, p)
    ensures Pass(t + [e], p)
  {
    assert (t + [e])[..|t|] == t;
  }

  lemma {:induction false} AfterTook(t: seq<Entry>, e: Entry)
    ensures e.Took? ==> LastTook(t + [e]) == Some(e) && RanSince(t + [e]) == 0
    ensures e.Ran? ==> LastTook(t + [e]) == LastTook(t) && RanSince(t + [e]) == RanSince(t) + 1
  {
    assert (t + [e])[..|t|] == t;
  }

  lemma {:induction false} WhereTook(t: seq<Entry>) returns (j: nat)
    requires LastTook(t).Some?
    ensures j < |t| && t[j].Took? && LastTook(t) == Some(t[j])
  {
    j := |t| - 1;
    if t[j].Ran? { j := WhereTook(t[..|t| - 1]); }
  }

  lemma {:induction false} TookOk(t: seq<Entry>, p: nat, j: nat)
    requires Pass(t, p) && j < |t| && t[j].Took?
    ensures Follows(t[..j], t[j], p)
    decreases |t|
  {
    if j < |t| - 1 {
      TookOk(t[..|t| - 1], p, j);
      assert t[..|t| - 1][..j] == t[..j];
    }
  }

  /**
    Every callback of the pass belongs to an event that was an active member, and the head, of queue `p` when it
    was taken off.
   */
  lemma {:induction false} CalledFromQueue(t: seq<Entry>, p: nat, i: nat) returns (j: nat)
    requires Pass(t, p) && i < |t| && t[i].Ran?
    ensures j < i && t[j].Took? && t[j].id == t[i].id
    ensures t[j].before.flags.active && t[j].before.pri == p && t[j].queue != [] && t[j].queue[0] == t[i].id
    decreases |t|
  {
    if i < |t| - 1 {
      j := CalledFromQueue(t[..|t| - 1], p, i);
    } else {
      j := WhereTook(t[..i]);
      TookOk(t, p, j);
    }
  }

  lemma {:induction false} FinishedLater(t: seq<Entry>, p: nat, k: nat)
    requires Pass(t, p) && k < |t| && t[k].Took?
    ensures Finished(t[..k]) && !Broke(t[..k])
  {
    TookOk(t, p, k);
  }

  /** Where the calls of event `t[j]` end: up to `k` there are only its calls. */
  function CallsEnd(t: seq<Entry>, j: nat): (k: nat)
    requires j < |t|
    ensures j < k <= |t| && (k < |t| ==> t[k].Took?) && forall i :: j < i < k ==> t[i].Ran?
    decreases |t| - j
  {
    if j + 1 == |t| || t[j + 1].Took? then j + 1 else CallsEnd(t, j + 1)
  }

  lemma {:induction false} CallsOf(t: seq<Entry>, j: nat)
    requires j < |t| && t[j].Took? && forall i :: j < i < |t| ==> t[i].Ran?
    ensures LastTook(t) == Some(t[j]) && RanSince(t) == |t| - 1 - j
    decreases |t|
  {
    if j < |t| - 1 { CallsOf(t[..|t| - 1], j); }
  }

  lemma {:induction false} PassPrefix(t: seq<Entry>, p: nat, k: nat)
    requires Pass(t, p) && k <= |t|
    ensures Pass(t[..k], p) && (k < |t| ==> Follows(t[..k], t[k], p))
    decreases |t|
  {
    if k == |t| {
      assert t[..k] == t;
    } else if k < |t| - 1 {
      PassPrefix(t[..|t| - 1], p, k);
      assert t[..|t| - 1][..k] == t[..k];
    }
  }

  lemma {:induction false} CallFollows(t: seq<Entry>, p: nat, j: nat, i: nat)
    requires Pass(t, p) && j < i < |t| && t[j].Took? && forall m :: j < m <= i ==> t[m].Ran?
    ensures t[i].id == t[j].id && RanSince(t[..i]) == i - 1 - j < t[j].before.ncalls && !Ended(t[..i])
  {
    hide Pass;
    PassPrefix(t, p, i);
    CallsOf(t[..i], j);
  }

  lemma {:induction false} NotEnded(t: seq<Entry>, i: nat)
    requires i < |t| && t[i].Ran? && !Ended(t[..i + 1])
    ensures !t[i].broke && !t[i].reset
  {
    assert t[..i + 1][i] == t[i];
  }

  lemma {:induction false} FinishedIs(t: seq<Entry>, j: nat)
    requires j < |t| && t[j].Took? && Finished(t) && forall i :: j < i < |t| ==> t[i].Ran?
    ensures |t| - 1 - j == t[j].before.ncalls || (j < |t| - 1 && (t[|t| - 1].broke || t[|t| - 1].reset))
  {
    CallsOf(t, j);
    hide LastTook, RanSince;
  }

  /**
    In a finished pass the callbacks between two takings, or after the last one, are those of the event taken: exactly
    as many as it asked for, unless the last of them broke the loop or reset the counter; then at least one and no
    more than it asked for. No earlier one did so.
   */
  lemma {:induction false} CalledAsAsked(t: seq<Entry>, p: nat, j: nat)
    requires Pass(t, p) && Finished(t) && j < |t| && t[j].Took?
    ensures var k := CallsEnd(t, j); var n := k - 1 - j;
      && n <= t[j].before.ncalls && (n < t[j].before.ncalls ==> n > 0 && (t[k - 1].broke || t[k - 1].reset))
      && (forall i :: j < i < k ==> t[i].id == t[j].id)
      && forall i :: j < i < k - 1 ==> !t[i].broke && !t[i].reset
  {
    hide Pass, Follows, Finished, Ended, RanSince;
    var k := CallsEnd(t, j);
    var u := t[..k];
    if k < |t| { FinishedLater(t, p, k); } else { assert u == t; }
    FinishedIs(u, j);
    forall i | j < i < k ensures t[i].id == t[j].id && i - 1 - j < t[j].before.ncalls && !Ended(t[..i]) {
      CallFollows(t, p, j, i);
    }
    forall i | j < i < k - 1 ensures !t[i].broke && !t[i].reset { NotEnded(t, i); }
  }

  // ----- what resets a counter -----

  /**
    A call resets the counter of a running event by deleting it, or by replacing its timeout while it is active
    again.
   */
  predicate Resets(b: Base, a: Action)
    requires Allowed(a, |b.ev|)
  {
    match a
    case DoDel(id) => b.ev[id].ncalls != 0 && b.ev[id].looping
    case DoAdd(id, tv, _, heapOk, _) =>
      && tv.Some? && (b.ev[id].flags.timeout || heapOk) && b.ev[id].flags.active && Timeout in b.ev[id].res
      && b.ev[id].ncalls != 0 && b.ev[id].looping
    case _ => false
  }

  lemma {:induction false} QueuesKeepAbort(b: Base, id: Id, k: Queue)
    requires id < |b.ev|
    ensures PutOn(b, id, k).abort == TakeOff(b, id, k).abort == Leave(b, id, k).abort == b.abort
    ensures Leave(b, id, k).ev[id] == b.ev[id].(flags := Mark(b.ev[id].flags, k, false))
  {
    hide PutAt, CutAt, Weight, Without;
  }

  lemma {:induction false} RegisteredKeeps(b: Base, id: Id, backendOk: bool)
    requires id < |b.ev|
    ensures Registered(b, id, backendOk).0.abort == b.abort
  {
    hide PutOn, TakeOff, Leave;
    QueuesKeepAbort(b, id, OnInserted);
    QueuesKeepAbort(b, id, OnSignal);
  }

  lemma {:induction false} ScheduledResets(b: Base, id: Id, deadline: Time)
    requires id < |b.ev|
    ensures var e := b.ev[id];
      Scheduled(b, id, deadline).abort <==>
        b.abort || (e.flags.active && Timeout in e.res && e.ncalls != 0 && e.looping)
  {
    hide PutOn, TakeOff, Leave;
    var b1, e := Leave(b, id, OnTimeout), b.ev[id];
    QueuesKeepAbort(b, id, OnTimeout);
    QueuesKeepAbort(b1.(abort := b1.abort || (e.ncalls != 0 && e.looping)), id, OnActive);
    var b2 := Unscheduled(b, id);
    QueuesKeepAbort(SetEvent(b2, id, b2.ev[id].(timeout := deadline)), id, OnTimeout);
  }

  /** Only such calls do. */
  lemma {:induction false} ResetsIs(b: Base, a: Action)
    requires Good(b) && Allowed(a, |b.ev|)
    ensures Performed(b, a).abort <==> b.abort || Resets(b, a)
  {
    hide Good, Deleted, Scheduled, Registered;
    match a
    case DoDel(id) => DeletedGood(b, id);
    case DoAdd(id, tv, now, heapOk, backendOk) =>
      if tv.Some? {
        ScheduledResets(b, id, TimeVal.Add(now, tv.value));
        RegisteredKeeps(Scheduled(b, id, TimeVal.Add(now, tv.value)), id, backendOk);
      } else {
        RegisteredKeeps(b, id, backendOk);
      }
    case _ =>
  }

  // ----- callbacks that leave the base alone -----

  /** Who was called, and with which results. */
  function Calls(t: seq<Entry>): seq<(Id, set<Kind>)> {
    if t == [] then []
    else Calls(t[..|t| - 1]) + if t[|t| - 1].Ran? then [(t[|t| - 1].id, t[|t| - 1].res)] else []
  }

  lemma {:induction false} CallsMore(t: seq<Entry>, e: Entry)
    ensures Calls(t + [e]) == Calls(t) + if e.Ran? then [(e.id, e.res)] else []
  {
    assert (t + [e])[..|t|] == t;
  }

  function Burst(id: Id, res: set<Kind>, n: nat): seq<(Id, set<Kind>)> {
    if n == 0 then [] else [(id, res)] + Burst(id, res, n - 1)
  }

  /** Every event of the queue in order, each as often as it asked for. */
  function Plan(ev: Events, q: seq<Id>): seq<(Id, set<Kind>)>
    requires Known(q, |ev|)
  {
    if q == [] then [] else Burst(q[0], ev[q[0]].res, ev[q[0]].ncalls) + Plan(ev, q[1..])
  }

  /**
    Event `id` of `ev0` has been called for all but `ncalls` of the calls it asked for, and only its own fields
    changed.
   */
  ghost predicate QuietRun(ev0: Events, id: Id, ev: Events, t0: seq<Entry>, t: seq<Entry>, ncalls: nat) {
    && id < |ev| == |ev0| && ev[id].res == ev0[id].res && (forall j :: 0 <= j < |ev| && j != id ==> ev[j] == ev0[j])
    && Calls(t) + Burst(id, ev0[id].res, ncalls) == Calls(t0) + Burst(id, ev0[id].res, ev0[id].ncalls)
  }

  lemma {:induction false} QuietCall(ev0: Events, id: Id, ev: Events, t0: seq<Entry>, t: seq<Entry>, n: nat,
                                     ev': Events, e: Entry)
    requires QuietRun(ev0, id, ev, t0, t, n + 1) && ev' == ev[id := ev[id].(ncalls := n)]
    requires e.Ran? && e.id == id && e.res == ev[id].res
    ensures QuietRun(ev0, id, ev', t0, t + [e], n)
  {
    hide Calls;
    CallsMore(t, e);
    var b := Burst(id, ev0[id].res, n);
    assert Calls(t) + ([(id, ev0[id].res)] + b) == (Calls(t) + [(id, ev0[id].res)]) + b;
  }

  lemma {:induction false} QuietStart(ev0: Events, id: Id, ev: Events, t: seq<Entry>)
    requires id < |ev0| && ev == ev0[id := ev0[id].(looping := true)]
    ensures QuietRun(ev0, id, ev, t, t, ev0[id].ncalls)
  {
  }

  lemma {:induction false} QuietEnd(ev0: Events, id: Id, ev: Events, t0: seq<Entry>, t: seq<Entry>)
    requires QuietRun(ev0, id, ev, t0, t, 0)
    ensures Calls(t) == Calls(t0) + Burst(id, ev0[id].res, ev0[id].ncalls)
    ensures forall j :: 0 <= j < |ev| && j != id ==> ev[j] == ev0[j]
  {
    hide Calls;
    assert Calls(t) + Burst(id, ev0[id].res, 0) == Calls(t);
  }

  lemma {:induction false} PassNone(p: nat)
    ensures Pass([], p) && Calls([]) == []
  {
  }

  /** A pass in which it is the turn of event `id`, which was called `n` times. */
  ghost predicate InTurn(t: seq<Entry>, p: nat, id: Id, n: nat) {
    Pass(t, p) && LastTook(t).Some? && LastTook(t).value.Took? && LastTook(t).value.id == id && RanSince(t) == n
  }

  lemma {:induction false} InTurnPass(t: seq<Entry>, p: nat, id: Id, n: nat)
    requires InTurn(t, p, id, n)
    ensures Pass(t, p) && t != []
  {
  }

  lemma {:induction false} CallRecorded(t: seq<Entry>, e: Entry, p: nat, id: Id, n: nat)
    requires InTurn(t, p, id, n) && e.Ran? && e.id == id
    requires var before := LastTook(t).value.before;
      n < before.ncalls && !Ended(t) && (n == 0 ==> e.res == before.res && e.flags == AfterTaking(before))
    ensures InTurn(t + [e], p, id, n + 1) && LastTook(t + [e]) == LastTook(t) && |Calls(t + [e])| == |Calls(t)| + 1
  {
    hide Pass, Calls, LastTook, RanSince, Finished;
    PassMore(t, e, p);
    CallsMore(t, e);
    AfterTook(t, e);
  }

  /**
    The calls of an event in progress: `n` were made since `t0`, and `left` are to come unless a callback ended
    them.
   */
  ghost predicate Calling(ev0: Events, id: Id, t0: seq<Entry>, p: nat, ev: Events, t: seq<Entry>, n: nat, left: nat,
                          quiet: bool) {
    && id < |ev0| == |ev| && InTurn(t, p, id, n) && InTurn(t0, p, id, 0) && LastTook(t) == LastTook(t0)
    && n + left <= LastTook(t0).value.before.ncalls && |Calls(t)| == |Calls(t0)| + n
    && (if Ended(t) then n > 0 && (left == 0 || Broke(t)) else n + left == LastTook(t0).value.before.ncalls)
    && (n == 0 ==> ev[id].res == LastTook(t0).value.before.res)
    && (n == 0 ==> ev[id].flags == AfterTaking(LastTook(t0).value.before))
    && (quiet ==> QuietRun(ev0, id, ev, t0, t, left))
  }

  lemma {:induction false} CallingStart(ev0: Events, id: Id, t0: seq<Entry>, p: nat)
    requires id < |ev0| && InTurn(t0, p, id, 0)
    requires var before := LastTook(t0).value.before; ev0[id] == before.(flags := AfterTaking(before))
    ensures Calling(ev0, id, t0, p, ev0[id := ev0[id].(looping := true)], t0, 0, ev0[id].ncalls, true)
  {
    hide Pass, Calls, QuietRun;
    QuietStart(ev0, id, ev0[id := ev0[id].(looping := true)], t0);
  }

  lemma {:induction false} CallingAny(ev0: Events, id: Id, t0: seq<Entry>, p: nat, ev: Events, t: seq<Entry>, n: nat,
                                      left: nat, quiet: bool)
    requires Calling(ev0, id, t0, p, ev, t, n, left, true)
    ensures Calling(ev0, id, t0, p, ev, t, n, left, quiet)
  {
  }

  lemma {:induction false} CallingNext(ev0: Events, id: Id, t0: seq<Entry>, p: nat, ev: Events, t: seq<Entry>, n: nat,
                                       left: nat, quiet: bool, ev': Events, left': nat, broke: bool, reset: bool)
    requires Calling(ev0, id, t0, p, ev, t, n, left + 1, quiet) && |ev'| == |ev| && !Broke(t)
    requires left' == if reset && !broke then 0 else left
    requires quiet ==> left' == left && ev' == ev[id := ev[id].(ncalls := left)]
    ensures Calling(ev0, id, t0, p, ev', t + [Ran(id, ev[id].res, ev[id].flags, broke, reset)], n + 1, left', quiet)
  {
    hide InTurn, Calls, QuietRun;
    var e := Ran(id, ev[id].res, ev[id].flags, broke, reset);
    assert InTurn(t, p, id, n);
    CallRecorded(t, e, p, id, n);
    if quiet { QuietCall(ev0, id, ev, t0, t, left, ev', e); }
  }

  lemma {:induction false} CallingEnd(ev0: Events, id: Id, t0: seq<Entry>, p: nat, ev: Events, t: seq<Entry>, n: nat,
                                      left: nat, quiet: bool)
    requires Calling(ev0, id, t0, p, ev, t, n, left, quiet) && (left == 0 || Broke(t))
    ensures InTurn(t, p, id, n) && |Calls(t)| == |Calls(t0)| + n && Finished(t)
    ensures n <= LastTook(t0).value.before.ncalls && (n < LastTook(t0).value.before.ncalls ==> n > 0 && Ended(t))
    ensures quiet && left == 0 ==>
      && Calls(t) == Calls(t0) + Burst(id, ev0[id].res, ev0[id].ncalls)
      && forall j :: 0 <= j < |ev| && j != id ==> ev[j] == ev0[j]
  {
    hide Pass, Calls, QuietRun, Burst;
    if quiet && left == 0 { QuietEnd(ev0, id, ev, t0, t); }
  }

  lemma {:induction false} TakeRecorded(t: seq<Entry>, e: Entry, p: nat)
    requires Pass(t, p) && Follows(t, e, p) && e.Took?
    ensures InTurn(t + [e], p, e.id, 0) && LastTook(t + [e]) == Some(e) && Calls(t + [e]) == Calls(t)
  {
    hide Pass, Calls, LastTook, RanSince, Finished;
    PassMore(t, e, p);
    CallsMore(t, e);
    AfterTook(t, e);
    assert Calls(t) + [] == Calls(t);
  }

  lemma {:induction false} BrokeLater(t: seq<Entry>, start: nat)
    requires start <= |t|
    ensures Broke(t[start..]) ==> Broke(t)
  {
  }

  lemma {:induction false} NothingCalled()
    ensures Finished([])
  {
  }

  lemma {:induction false} NotBroke(t: seq<Entry>, p: nat, id: Id)
    requires InTurn(t, p, id, 0)
    ensures !Broke(t)
  {
    hide Pass;
  }

  lemma {:induction false} TailMore(t: seq<Entry>, start: nat, e: Entry)
    requires start <= |t|
    ensures (t + [e])[start..] == t[start..] + [e]
  {
  }

  /** What the environment still has to say after `n` callbacks. */
  function After(script: seq<seq<Action>>, n: nat): seq<seq<Action>> {
    if n <= |script| then script[n..] else []
  }

  lemma {:induction false} AfterAfter(script: seq<seq<Action>>, m: nat, n: nat)
    ensures After(After(script, m), n) == After(script, m + n)
    ensures After(script, 0) == script && (script == [] ==> After(script, m + n) == [])
  {
  }

  lemma {:induction false} ScriptNext(script: seq<seq<Action>>, n: nat)
    requires ScriptAllowed(script, n) && script != []
    ensures AllAllowed(script[0], n) && ScriptAllowed(script[1..], n)
  {
  }

  ghost predicate QuietSoFar(ev0: Events, q0: seq<Id>, t: seq<Entry>, ev: Events, q: seq<Id>) {
    && Known(q0, |ev0|) && |ev| == |ev0| && Known(q, |ev|) && NoDup(q)
    && (forall i :: 0 <= i < |q| ==> ev[q[i]] == ev0[q[i]])
    && Calls(t) + Plan(ev0, q) == Plan(ev0, q0)
  }

  lemma {:induction false} QuietNext(ev0: Events, q0: seq<Id>, t: seq<Entry>, ev: Events, q: seq<Id>, t': seq<Entry>,
                                     ev': Events)
    requires q != [] && QuietSoFar(ev0, q0, t, ev, q)
    requires Calls(t') == Calls(t) + Burst(q[0], ev[q[0]].res, ev[q[0]].ncalls)
    requires |ev'| == |ev| && forall j :: 0 <= j < |ev| && j != q[0] ==> ev'[j] == ev[j]
    ensures QuietSoFar(ev0, q0, t', ev', q[1..])
  {
    hide Burst, Calls;
    assert ev[q[0]] == ev0[q[0]];
    assert Plan(ev0, q) == Burst(q[0], ev[q[0]].res, ev[q[0]].ncalls) + Plan(ev0, q[1..]);
  }

  lemma {:induction false} QuietDone(ev0: Events, q0: seq<Id>, t: seq<Entry>, ev: Events)
    requires QuietSoFar(ev0, q0, t, ev, [])
    ensures Known(q0, |ev0|) && Calls(t) == Plan(ev0, q0)
  {
  }

  lemma {:induction false} QueueKnown(b: Base, p: nat)
    requires Good(b) && p < |b.active|
    ensures Known(b.active[p], |b.ev|) && NoDup(b.active[p])
    ensures QuietSoFar(b.ev, b.active[p], [], b.ev, b.active[p])
  {
    hide Listed, Sane, Members;
    var q := b.active[p];
    assert ActiveAt(b.ev, q, p);
    forall i | 0 <= i < |q| ensures q[i] < |b.ev| { assert q[i] in q; }
  }

  /**
    A pass over the queues `qs` takes events off the first non-empty queue only and runs their callbacks; if these
    leave the base alone, it runs exactly that queue.
   */
  ghost predicate PassOf(ev: Events, qs: seq<seq<Id>>, p: nat, t: seq<Entry>, quiet: bool) {
    && FirstBusy(qs, p) && Pass(t, p) && Finished(t)
    && (quiet ==> Known(qs[p], |ev|) && Calls(t) == Plan(ev, qs[p]))
  }

  lemma {:induction false} GoodEmpty(external: set<Id>, events: Events, qs: seq<seq<Id>>)
    requires forall i :: 0 <= i < |events| ==> SaneEvent(events[i], |qs|) && events[i].flags == NONE
    requires forall i :: 0 <= i < |qs| ==> qs[i] == []
    ensures Good(Base(external, events, [], [], [], qs, 0, 0, false))
  {
    AllEmpty(external, qs);
  }

  // ----- nothing left to do -----

  /** With a count of zero, no event of the application is on any queue. */
  lemma {:induction false} NothingLeft(b: Base, id: Id)
    requires Good(b) && b.count <= 0 && id in b.external && id < |b.ev|
    ensures b.ev[id].flags == NONE
  {
    hide Sane;
    CountZero(b.external, b.inserted, id);
    CountZero(b.external, b.signals, id);
    CountZero(b.external, b.heap, id);
    GoodSane(b, id);
    var p := b.ev[id].pri;
    assert ActiveAt(b.ev, b.active[p], p);
    CountAllZero(b.external, b.active, p);
    CountZero(b.external, b.active[p], id);
  }

  // ----- what the backend reports -----

  /** Reports of the backend: the event, its results, and how often it is to be called. */
  type Ready = seq<(Id, set<Kind>, nat)>

  /** All results reported for the event. */
  function Reports(ready: Ready, id: Id): set<Kind> {
    if ready == [] then {}
    else Reports(ready[..|ready| - 1], id) + if ready[|ready| - 1].0 == id then ready[|ready| - 1].1 else {}
  }

  /** How often the first report wants it called. */
  function Wanted(ready: Ready, id: Id): Option<nat> {
    if ready == [] then None
    else
      var first := Wanted(ready[..|ready| - 1], id);
      if first.Some? || ready[|ready| - 1].0 != id then first else Some(ready[|ready| - 1].2)
  }

  /** The events that become active, in the order of their first reports. */
  function NewlyActive(ev: Events, ready: Ready): (q: seq<Id>)
    ensures Known(q, |ev|)
  {
    if ready == [] then []
    else
      var q, id := NewlyActive(ev, ready[..|ready| - 1]), ready[|ready| - 1].0;
      if id < |ev| && !ev[id].flags.active && id !in q then q + [id] else q
  }

  /** An event after all reports: an active one gathers results, another one becomes active. */
  function Reported(e: Event, ready: Ready, id: Id): Event {
    if Wanted(ready, id).None? then e
    else if e.flags.active then e.(res := e.res + Reports(ready, id))
    else e.(flags := e.flags.(active := true), res := Reports(ready, id), ncalls := Wanted(ready, id).value, looping :=
      false)
  }

  /** Every reported event is active with its results, behind those that were active before; nothing else changed. */
  ghost predicate ReadyActive(b: Base, ready: Ready, r: Base) {
    && |r.ev| == |b.ev| && |r.active| == |b.active|
    && r.heap == b.heap && r.inserted == b.inserted && r.signals == b.signals && r.external == b.external
    && (forall id :: 0 <= id < |b.ev| ==> r.ev[id] == Reported(b.ev[id], ready, id))
    && forall p :: 0 <= p < |b.active| ==> r.active[p] == b.active[p] + OfPriority(b.ev, NewlyActive(b.ev, ready), p)
  }

  lemma {:induction false} NothingReady(b: Base)
    ensures ReadyActive(b, [], b)
  {
  }

  lemma {:induction false} WantedIs(ev: Events, ready: Ready, id: Id)
    requires id < |ev| && !ev[id].flags.active
    ensures Wanted(ready, id).Some? <==> id in NewlyActive(ev, ready)
  {
    if ready != [] { WantedIs(ev, ready[..|ready| - 1], id); }
  }

  lemma {:induction false} NoReports(ready: Ready, id: Id)
    requires Wanted(ready, id).None?
    ensures Reports(ready, id) == {}
  {
    if ready != [] { NoReports(ready[..|ready| - 1], id); }
  }

  lemma {:induction false} ReportedNext(e: Event, ready: Ready, r: (Id, set<Kind>, nat), id: Id)
    ensures Reported(e, ready + [r], id) ==
      if r.0 != id then Reported(e, ready, id)
      else if Reported(e, ready, id).flags.active && (e.flags.active || Wanted(ready, id).Some?) then
        Reported(e, ready, id).(res := Reported(e, ready, id).res + r.1)
      else e.(flags := e.flags.(active := true), res := r.1, ncalls := r.2, looping := false)
  {
    assert (ready + [r])[..|ready|] == ready;
    if Wanted(ready, id).None? { NoReports(ready, id); }
    assert e.res + (Reports(ready, id) + r.1) == (e.res + Reports(ready, id)) + r.1;
    assert {} + r.1 == r.1;
  }

  lemma {:induction false} NewlyNext(ev: Events, ready: Ready, r: (Id, set<Kind>, nat))
    requires r.0 < |ev|
    ensures var q := NewlyActive(ev, ready);
      NewlyActive(ev, ready + [r]) == if !ev[r.0].flags.active && r.0 !in q then q + [r.0] else q
  {
    assert (ready + [r])[..|ready|] == ready;
  }

  lemma {:induction false} ReadyEvents(b: Base, ready: Ready, m: Base, r: (Id, set<Kind>, nat))
    requires Good(m) && ReadyActive(b, ready, m) && r.0 < |m.ev|
    ensures var t := Activated(m, r.0, r.1, r.2);
      && |t.ev| == |b.ev| && forall id :: 0 <= id < |b.ev| ==> t.ev[id] == Reported(b.ev[id], ready + [r], id)
  {
    hide Good, OfPriority, NewlyActive, Reports, Wanted;
    ActivatedIs(m, r.0, r.1, r.2);
    forall id | 0 <= id < |b.ev|
      ensures Activated(m, r.0, r.1, r.2).ev[id] == Reported(b.ev[id], ready + [r], id)
    {
      ReportedNext(b.ev[id], ready, r, id);
    }
  }

  /** One more report. */
  lemma {:induction false} ReadyMore(b: Base, ready: Ready, m: Base, r: (Id, set<Kind>, nat))
    requires Good(m) && ReadyActive(b, ready, m) && r.0 < |m.ev|
    ensures ReadyActive(b, ready + [r], Activated(m, r.0, r.1, r.2))
  {
    hide Good, OfPriority, NewlyActive, Reports, Wanted;
    ReadyEvents(b, ready, m, r);
    ActivatedIs(m, r.0, r.1, r.2);
    NewlyNext(b.ev, ready, r);
    if !b.ev[r.0].flags.active { WantedIs(b.ev, ready, r.0); }
    var t, q := Activated(m, r.0, r.1, r.2), NewlyActive(b.ev, ready);
    forall p | 0 <= p < |b.active|
      ensures t.active[p] == b.active[p] + OfPriority(b.ev, NewlyActive(b.ev, ready + [r]), p)
    {
      OfPriorityMore(b.ev, q, r.0, p);
    }
  }

  // ----- rounds of the loop -----

  /** The expired timers fired by deadline: each left its queues and stands at the end of its priority queue. */
  ghost predicate FiredIn(b: Base, now: Time, fired: seq<Id>, r: Base) {
    && Known(fired, |b.ev|) && NoDup(fired)
    && (forall id :: id in fired <==> id in b.heap && id < |b.ev| && Micros(b.ev[id].timeout) <= Micros(now))
    && (forall i, j :: 0 <= i < j < |fired| ==> Micros(b.ev[fired[i]].timeout) <= Micros(b.ev[fired[j]].timeout))
    && EventsFired(b, fired, r) && QueuesFired(b, fired, r)
  }

  ghost predicate TimersFired(b: Base, now: Time, r: Base) {
    exists fired :: FiredIn(b, now, fired, r)
  }

  lemma {:induction false} FiredByMicros(b: Base, now: Time, fired: seq<Id>, r: Base)
    requires Good(b) && Normal(now) && Known(fired, |b.ev|) && NoDup(fired)
    requires forall id :: id in fired <==> id in b.heap && id < |b.ev| && Expired(b.ev[id], now)
    requires forall i, j :: 0 <= i < j < |fired| ==> !Less(b.ev[fired[j]].timeout, b.ev[fired[i]].timeout)
    requires EventsFired(b, fired, r) && QueuesFired(b, fired, r)
    ensures FiredIn(b, now, fired, r)
  {
    hide Good, EventsFired, QueuesFired, NoDup;
    forall id: Id | id < |b.ev| ensures Expired(b.ev[id], now) <==> Micros(b.ev[id].timeout) <= Micros(now) {
      GoodSane(b, id);
      LessIsLess(now, b.ev[id].timeout);
    }
    forall i, j | 0 <= i < j < |fired| ensures Micros(b.ev[fired[i]].timeout) <= Micros(b.ev[fired[j]].timeout) {
      GoodSane(b, fired[i]);
      GoodSane(b, fired[j]);
      LessIsLess(b.ev[fired[j]].timeout, b.ev[fired[i]].timeout);
    }
  }

  /** If the clock went back behind `last`, every timer moved back as far. */
  ghost predicate ClockCorrected(b: Base, last: Time, now: Time, r: Base) {
    && r == b.(ev := r.ev) && |r.ev| == |b.ev|
    && forall id :: 0 <= id < |b.ev| ==>
        r.ev[id] == if id in b.heap && Less(now, last)
                    then b.ev[id].(timeout := Sub(b.ev[id].timeout, Sub(last, now))) else b.ev[id]
  }

  /** No limit without timers; otherwise up to the earliest deadline. */
  ghost predicate UntilNext(b: Base, now: Time, wait: Option<Time>) {
    && Known(b.heap, |b.ev|) && (wait.None? <==> b.heap == [])
    && (wait.Some? ==> Normal(wait.value))
    && (wait.Some? ==>
        exists id :: 0 <= id < |b.ev| && Earliest(b.ev, b.heap, id) && WaitFor(b.ev[id].timeout, now, wait.value))
  }

  /** The backend only polls if an event is active already or the caller does not want to wait. */
  ghost predicate WaitRight(b: Base, wait: Option<Time>, nonblock: bool, now: Time) {
    if b.activeCount != 0 || nonblock then wait == Some(Time(0, 0)) else UntilNext(b, now, wait)
  }

  /**
    Waiting as long as allowed does not miss a deadline that is still to come, and does not wait at all for one
    that is not.
   */
  lemma {:induction false} WaitInTime(b: Base, wait: Option<Time>, nonblock: bool, now: Time, id: Id)
    requires Good(b) && WaitRight(b, wait, nonblock, now) && Normal(now) && id in b.heap
    ensures id < |b.ev| && wait.Some?
    ensures var deadline := b.ev[id].timeout;
      if Less(now, deadline) then !Less(deadline, TimeVal.Add(now, wait.value)) else wait == Some(Time(0, 0))
  {
    hide Good;
    HeapKnown(b);
    var i :| 0 <= i < |b.heap| && b.heap[i] == id;
    LessIsLess(now, b.ev[id].timeout);
    LessIsLess(b.ev[id].timeout, TimeVal.Add(now, wait.value));
    if b.activeCount == 0 && !nonblock {
      var e :| 0 <= e < |b.ev| && Earliest(b.ev, b.heap, e) && WaitFor(b.ev[e].timeout, now, wait.value);
      LessIsLess(b.ev[id].timeout, b.ev[e].timeout);
      LessIsLess(wait.value, Time(0, 0));
    }
  }

  /** The pass of a round: over the first busy queue, if an event is active, and none otherwise. */
  ghost predicate PassDone(due: Base, quiet: bool, ran: seq<Entry>, after: Base) {
    if due.activeCount == 0 then ran == [] && after == due
    else
      && ran != []
      && exists p: nat :: p < |after.active| && PassOf(due.ev, due.active, p, ran, quiet)
                          && (Broke(ran) || after.active[p] == [])
  }

  /** What the environment does in one round of the loop. */
  datatype Round = Round(before: Time, now: Time, dispatchOk: bool, ready: Ready, after: Time, script: seq<seq<Action>>)

  predicate RoundAllowed(r: Round, n: nat) {
    && Normal(r.before) && Normal(r.now) && Normal(r.after) && ScriptAllowed(r.script, n)
    && forall i :: 0 <= i < |r.ready| ==> r.ready[i].0 < n
  }

  /**
    A round: the base when it begins and the time of the round before; the base that the backend is given, and the
    limit; the base after the backend's reports and after the timers; what ran; and the base at the end.
   */
  datatype Turn = Turn(begun: Base, last: Time, base: Base, wait: Option<Time>, polled: Base, due: Base,
    ran: seq<Entry>,
    after: Base)

  ghost predicate TurnRight(t: Turn, r: Round, nonblock: bool) {
    && ClockCorrected(t.begun, t.last, r.before, t.base) && WaitRight(t.base, t.wait, nonblock, r.now)
    && if !r.dispatchOk then t.polled == t.due == t.after == t.base && t.ran == []
       else
         && ReadyActive(t.base, r.ready, t.polled) && TimersFired(t.polled, r.after, t.due)
         && PassDone(t.due, r.script == [], t.ran, t.after)
  }

  /** The loop ends after a round that ran events, if only one is wanted, or after an idle one without waiting. */
  predicate RoundEnds(t: Turn, once: bool, nonblock: bool) {
    t.after.activeCount == 0 && if t.ran != [] then once else nonblock
  }

  /** Where a loop stands after its rounds. */
  function EndOf(start: Base, turns: seq<Turn>): Base {
    if turns == [] then start else turns[|turns| - 1].after
  }

  /** event_tv after its rounds: it never goes back. */
  function LastOf(last: Time, turns: seq<Turn>, rounds: seq<Round>): Time
    requires |turns| <= |rounds|
  {
    if turns == [] then last
    else
      var t, before := turns[|turns| - 1], rounds[|turns| - 1].before;
      if Less(before, t.last) then t.last else before
  }

  function RanIn(turns: seq<Turn>): seq<Entry> {
    if turns == [] then [] else RanIn(turns[..|turns| - 1]) + turns[|turns| - 1].ran
  }

  /** The loop may go on after these rounds. */
  predicate GoesOn(turns: seq<Turn>, rounds: seq<Round>, once: bool, nonblock: bool)
    requires |turns| <= |rounds|
  {
    turns != [] ==>
      var t := turns[|turns| - 1];
      rounds[|turns| - 1].dispatchOk && !Broke(t.ran) && !RoundEnds(t, once, nonblock)
  }

  ghost predicate RoundRight(start: Base, last: Time, turns: seq<Turn>, rounds: seq<Round>, once: bool, nonblock: bool,
                             k: nat)
    requires k < |turns| <= |rounds|
  {
    && TurnRight(turns[k], rounds[k], nonblock) && GoesOn(turns[..k], rounds, once, nonblock)
    && turns[k].begun == EndOf(start, turns[..k]) && turns[k].last == LastOf(last, turns[..k], rounds)
  }

  /** Each round is right and begins where the one before ended; none follows a round that ends the loop. */
  ghost predicate RoundsRight(start: Base, last: Time, turns: seq<Turn>, rounds: seq<Round>, once: bool,
                              nonblock: bool) {
    |turns| <= |rounds| && forall k :: 0 <= k < |turns| ==> RoundRight(start, last, turns, rounds, once, nonblock, k)
  }

  lemma {:induction false} RoundStays(start: Base, last: Time, turns: seq<Turn>, rounds: seq<Round>, once: bool,
                                      nonblock: bool, t: Turn, k: nat)
    requires |turns| < |rounds| && k <= |turns|
    requires k < |turns| ==> RoundRight(start, last, turns, rounds, once, nonblock, k)
    requires GoesOn(turns, rounds, once, nonblock) && TurnRight(t, rounds[|turns|], nonblock)
    requires t.begun == EndOf(start, turns) && t.last == LastOf(last, turns, rounds)
    ensures RoundRight(start, last, turns + [t], rounds, once, nonblock, k)
  {
    hide TurnRight, GoesOn, EndOf, LastOf;
    assert (turns + [t])[..k] == turns[..k] && turns[..|turns|] == turns;
  }

  lemma {:induction false} RoundsMore(start: Base, last: Time, turns: seq<Turn>, rounds: seq<Round>, once: bool,
                                      nonblock: bool, t: Turn)
    requires RoundsRight(start, last, turns, rounds, once, nonblock) && |turns| < |rounds|
    requires GoesOn(turns, rounds, once, nonblock) && TurnRight(t, rounds[|turns|], nonblock)
    requires t.begun == EndOf(start, turns) && t.last == LastOf(last, turns, rounds)
    ensures RoundsRight(start, last, turns + [t], rounds, once, nonblock)
    ensures EndOf(start, turns + [t]) == t.after && RanIn(turns + [t]) == RanIn(turns) + t.ran
    ensures LastOf(last, turns + [t], rounds) ==
      if Less(rounds[|turns|].before, t.last) then t.last else rounds[|turns|].before
    ensures GoesOn(turns + [t], rounds, once, nonblock) <==>
      rounds[|turns|].dispatchOk && !Broke(t.ran) && !RoundEnds(t, once, nonblock)
  {
    hide TurnRight, RoundEnds, Broke, Less, RoundRight;
    var ts := turns + [t];
    assert ts[..|turns|] == turns;
    forall k | 0 <= k < |ts| ensures RoundRight(start, last, ts, rounds, once, nonblock, k) {
      RoundStays(start, last, turns, rounds, once, nonblock, t, k);
    }
  }

  lemma {:induction false} LoopStarts(start: Base, last: Time, rounds: seq<Round>, once: bool, nonblock: bool)
    ensures RoundsRight(start, last, [], rounds, once, nonblock) && EndOf(start, []) == start && RanIn([]) == []
    ensures LastOf(last, [], rounds) == last && GoesOn([], rounds, once, nonblock)
  {
  }

  lemma {:induction false} RoundTimes(r: Round, n: nat)
    requires RoundAllowed(r, n)
    ensures Normal(r.before) && Normal(r.now) && Normal(r.after) && ScriptAllowed(r.script, n)
    ensures forall i :: 0 <= i < |r.ready| ==> r.ready[i].0 < n
  {
    hide ScriptAllowed;
  }

  lemma {:induction false} CorrectedIs(b: Base, last: Time, now: Time, r: Base)
    requires r == b.(ev := r.ev) && |r.ev| == |b.ev|
    requires forall id :: 0 <= id < |b.ev| && (id !in b.heap || !Less(now, last)) ==> r.ev[id] == b.ev[id]
    requires forall id :: 0 <= id < |b.ev| && id in b.heap && Less(now, last) ==>
      r.ev[id] == b.ev[id].(timeout := Sub(b.ev[id].timeout, Sub(last, now)))
    ensures ClockCorrected(b, last, now, r)
  {
  }

  lemma {:induction false} NothingBroke()
    ensures !Broke([])
  {
  }

  lemma {:induction false} Ending(t: Turn, once: bool, nonblock: bool)
    ensures RoundEnds(t, once, nonblock) <==>
      if t.ran != [] then t.after.activeCount == 0 && once else t.after.activeCount == 0 && nonblock
  {
  }

  /** `struct event_base` */
  class EventBase {
    const external: set<Id>
    var ev: Events
    var inserted: seq<Id>
    var signals: seq<Id>
    var heap: seq<Id>
    var active: seq<seq<Id>>
    var count: int
    var activeCount: int
    var abort: bool
    /** event_break, or a signal that arrived */
    var broken: bool
    /** event_tv */
    var lastTime: Time
    /** Every event that was taken off an active queue, and every callback that ran. */
    var trace: seq<Entry>

    function Value(): Base
      reads this
    {
      Base(external, ev, inserted, signals, heap, active, count, activeCount, abort)
    }

    ghost function Rest(): (bool, Time, seq<Entry>)
      reads this
    {
      (broken, lastTime, trace)
    }

    ghost predicate Valid()
      reads this
    {
      Good(Value())
    }

    /** event_base_new and event_base_priority_init, for events set up by event_set. */
    constructor (external: set<Id>, events: Events, priorities: nat)
      requires forall i :: 0 <= i < |events| ==> SaneEvent(events[i], priorities) && events[i].flags == NONE
      ensures Valid() && this.external == external && ev == events && |active| == priorities && count == 0
      ensures !broken && Normal(lastTime) && trace == []
    {
      this.external := external;
      ev, inserted, signals, heap := events, [], [], [];
      active := seq(priorities, _ => []);
      count, activeCount, abort, broken, lastTime, trace := 0, 0, false, false, Time(0, 0), [];
      GoodEmpty(external, events, seq(priorities, _ => []));
    }

    /** The rest of event_queue_insert: the count, the flag and the queue. */
    method Enqueue(id: Id, k: Queue)
      requires id < |ev| && ev[id].pri < |active|
      modifies this
      ensures Value() == PutOn(old(Value()), id, k) && Rest() == old(Rest())
    {
      if id in external {
        count := count + 1;
      }
      ev := ev[id := ev[id].(flags := Mark(ev[id].flags, k, true))];
      match k
      case OnActive =>
        activeCount := activeCount + 1;
        active := active[ev[id].pri := active[ev[id].pri] + [id]];
      case OnSignal => signals := signals + [id];
      case OnTimeout => heap := heap + [id];
      case OnInserted => inserted := inserted + [id];
    }

    /** event_queue_insert; only an active event may be on the queue already, and then nothing happens. */
    method QueueInsert(id: Id, k: Queue)
      requires Valid() && id < |ev| && (Has(ev[id].flags, k) ==> k == OnActive)
      requires (k == OnInserted ==> ev[id].io) && (k == OnSignal ==> ev[id].signal)
      modifies this
      ensures Valid() && Rest() == old(Rest())
      ensures Value() == if Has(old(ev)[id].flags, k) then old(Value()) else PutOn(old(Value()), id, k)
    {
      hide Good;
      if Has(ev[id].flags, k) {
        return;
      }
      GoodSane(Value(), id);
      GoodPutOn(Value(), id, k);
      Enqueue(id, k);
    }

    /** event_queue_remove of an event that is on the queue, as the source demands. */
    method QueueRemove(id: Id, k: Queue)
      requires Valid() && id < |ev| && Has(ev[id].flags, k)
      modifies this
      ensures Valid() && Value() == TakeOff(old(Value()), id, k) && Rest() == old(Rest())
    {
      hide Good;
      GoodSane(Value(), id);
      GoodTakeOff(Value(), id, k);
      if id in external {
        count := count - 1;
      }
      ev := ev[id := ev[id].(flags := Mark(ev[id].flags, k, false))];
      match k
      case OnActive =>
        activeCount := activeCount - 1;
        active := active[ev[id].pri := Without(active[ev[id].pri], id)];
      case OnSignal => signals := Without(signals, id);
      case OnTimeout => heap := Without(heap, id);
      case OnInserted => inserted := Without(inserted, id);
    }

    method LeaveQueue(id: Id, k: Queue)
      requires Valid() && id < |ev|
      modifies this
      ensures Valid() && Value() == Leave(old(Value()), id, k) && Rest() == old(Rest())
      ensures |ev| == |old(ev)| && ev[id] == old(ev)[id].(flags := Mark(old(ev)[id].flags, k, false))
    {
      hide TakeOff, Good;
      if Has(ev[id].flags, k) {
        TakeOffEvents(Value(), id, k);
        QueueRemove(id, k);
      }
    }

    /** event_del; `backendOk` is the result of the backend, which is asked only for a registered event. */
    method Del(id: Id, backendOk: bool) returns (res: int)
      requires Valid() && id < |ev|
      modifies this
      ensures Valid() && Value() == Deleted(old(Value()), id) && Rest() == old(Rest())
      ensures res == if (old(ev)[id].flags.inserted || old(ev)[id].flags.signal) && !backendOk then -1 else 0
    {
      hide Good, Leave;
      res := if (ev[id].flags.inserted || ev[id].flags.signal) && !backendOk then -1 else 0;
      DeletedGood(Value(), id);
      if ev[id].ncalls != 0 && ev[id].looping {
        GoodAbort(Value(), true);
        abort := true;
      }
      LeaveQueue(id, OnTimeout);
      LeaveQueue(id, OnActive);
      if ev[id].flags.inserted {
        LeaveQueue(id, OnInserted);
      } else {
        LeaveQueue(id, OnSignal);
      }
    }

    /** event_active */
    method Activate(id: Id, res: set<Kind>, ncalls: nat)
      requires Valid() && id < |ev|
      modifies this
      ensures Valid() && Value() == Activated(old(Value()), id, res, ncalls) && Rest() == old(Rest())
      ensures ActivePromise(old(Value()), id, res, ncalls, Value())
    {
      hide Good, PutOn, ActivePromise;
      ActivatedIs(Value(), id, res, ncalls);
      ActivatedGood(Value(), id, res, ncalls);
      GoodSane(Value(), id);
      if ev[id].flags.active {
        ev := ev[id := ev[id].(res := ev[id].res + res)];
        return;
      }
      GoodSet(Value(), id, ev[id].(res := res, ncalls := ncalls, looping := false));
      ev := ev[id := ev[id].(res := res, ncalls := ncalls, looping := false)];
      QueueInsert(id, OnActive);
    }

    method Unschedule(id: Id)
      requires Valid() && id < |ev|
      modifies this
      ensures Valid() && Value() == Unscheduled(old(Value()), id) && Rest() == old(Rest())
    {
      hide Good, TakeOff, Leave;
      LeaveQueue(id, OnTimeout);
      if ev[id].flags.active && Timeout in ev[id].res {
        if ev[id].ncalls != 0 && ev[id].looping {
          GoodAbort(Value(), true);
          abort := true;
        }
        QueueRemove(id, OnActive);
      }
    }

    method Schedule(id: Id, deadline: Time)
      requires Valid() && id < |ev| && Normal(deadline)
      modifies this
      ensures Valid() && Value() == Scheduled(old(Value()), id, deadline) && Rest() == old(Rest())
    {
      hide Good, Unscheduled, PutOn;
      UnscheduledGood(Value(), id);
      Unschedule(id);
      GoodSane(Value(), id);
      GoodSet(Value(), id, ev[id].(timeout := deadline));
      ev := ev[id := ev[id].(timeout := deadline)];
      QueueInsert(id, OnTimeout);
    }

    /** event_add */
    method Add(id: Id, tv: Option<Time>, now: Time, heapOk: bool, backendOk: bool) returns (res: int)
      requires Valid() && id < |ev| && Normal(now) && (tv.Some? ==> Normal(tv.value))
      modifies this
      ensures Valid() && (Value(), res) == Added(old(Value()), id, tv, now, heapOk, backendOk)
      ensures Rest() == old(Rest()) && AddPromise(old(Value()), id, tv, now, heapOk, backendOk, Value(), res)
    {
      hide Good, Scheduled, PutOn, AddPromise;
      AddedIs(Value(), id, tv, now, heapOk, backendOk);
      AddedGood(Value(), id, tv, now, heapOk, backendOk);
      if tv.Some? {
        if !ev[id].flags.timeout && !heapOk {
          return -1;
        }
        Schedule(id, TimeVal.Add(now, tv.value));
      }
      GoodSane(Value(), id);
      if ev[id].io && !ev[id].flags.inserted && !ev[id].flags.active {
        if !backendOk {
          return -1;
        }
        QueueInsert(id, OnInserted);
      } else if ev[id].signal && !ev[id].flags.signal {
        if !backendOk {
          return -1;
        }
        QueueInsert(id, OnSignal);
      }
      return 0;
    }

    /** event_priority_set */
    method PrioritySet(id: Id, pri: int) returns (res: int)
      requires Valid() && id < |ev|
      modifies this
      ensures Valid() && (Value(), res) == Prioritized(old(Value()), id, pri) && Rest() == old(Rest())
      ensures res == if !old(ev)[id].flags.active && 0 <= pri < |active| then 0 else -1
      ensures Value() == old(Value()).(ev := ev)
      ensures ev == if res == 0 then old(ev)[id := old(ev)[id].(pri := ev[id].pri)] else old(ev)
      ensures res == 0 ==> ev[id].pri == pri
    {
      hide Good;
      PerformedGood(Value(), DoPriority(id, pri));
      if ev[id].flags.active || pri < 0 || pri >= |active| {
        return -1;
      }
      ev := ev[id := ev[id].(pri := pri)];
      return 0;
    }

    /** A call made by a callback. */
    method Perform(a: Action)
      requires Valid() && Allowed(a, |ev|)
      modifies this
      ensures Valid() && Value() == Performed(old(Value()), a) && lastTime == old(lastTime) && trace == old(trace)
      ensures broken == (old(broken) || a.DoBreak?)
    {
      hide Good, Added, Deleted, Activated, Prioritized;
      PerformedGood(Value(), a);
      match a
      case DoAdd(id, tv, now, heapOk, backendOk) => var _ := Add(id, tv, now, heapOk, backendOk);
      case DoDel(id) => var _ := Del(id, true);
      case DoActive(id, res, ncalls) => Activate(id, res, ncalls);
      case DoPriority(id, pri) => var _ := PrioritySet(id, pri);
      case DoSet(id, io, signal, persist) =>
        if ev[id].flags == NONE {
          ev := ev[id := Reset(ev[id], |active|, io, signal, persist)];
        }
      case DoBreak => broken := true;
    }

    // ----- timers -----

    /** min_heap_top: some event with the earliest deadline. */
    method HeapTop() returns (top: Option<Id>)
      requires Valid()
      ensures Known(heap, |ev|)
      ensures top.None? <==> heap == []
      ensures top.Some? ==> top.value < |ev| && Earliest(ev, heap, top.value)
    {
      hide Good;
      HeapKnown(Value());
      if heap == [] {
        return None;
      }
      SomeEarliest(ev, heap);
      var id :| 0 <= id < |ev| && Earliest(ev, heap, id);
      return Some(id);
    }

    /** timeout_next */
    method TimeoutNext(now: Time) returns (wait: Option<Time>)
      requires Valid() && Normal(now)
      ensures wait.None? <==> heap == []
      ensures UntilNext(Value(), now, wait) && (wait.Some? ==> wait.value.sec >= 0)
    {
      hide Good;
      HeapKnown(Value());
      var top := HeapTop();
      if top.None? {
        return None;
      }
      var id := top.value;
      LessIsLess(now, ev[id].timeout);
      if !Less(now, ev[id].timeout) {
        return Some(Time(0, 0));
      }
      return Some(Sub(ev[id].timeout, now));
    }

    /** timeout_correct when the clock is not monotonic. */
    method TimeoutCorrect(now: Time)
      requires Valid() && Normal(now) && Normal(lastTime)
      modifies this
      ensures Valid() && |ev| == |old(ev)| && Normal(lastTime)
      ensures Value() == old(Value()).(ev := ev) && broken == old(broken) && trace == old(trace)
      ensures lastTime == if Less(now, old(lastTime)) then old(lastTime) else now
      ensures forall id :: 0 <= id < |ev| && (id !in heap || !Less(now, old(lastTime))) ==> ev[id] == old(ev)[id]
      ensures forall id :: 0 <= id < |ev| && id in heap && Less(now, old(lastTime)) ==>
        ev[id] == old(ev)[id].(timeout := Sub(old(ev)[id].timeout, Sub(lastTime, now)))
      ensures Known(heap, |ev|) && SameOrder(old(ev), ev, heap)
    {
      hide Good;
      HeapKnown(Value());
      if !Less(now, lastTime) {
        lastTime := now;
        return;
      }
      var off := Sub(lastTime, now);
      var i := 0;
      while i < |heap|
        invariant 0 <= i <= |heap| && |ev| == |old(ev)| && Known(heap, |ev|) && NoDup(heap)
        invariant Valid() && Value() == old(Value()).(ev := ev) && Rest() == old(Rest())
        invariant forall id :: 0 <= id < |ev| && id !in heap[..i] ==> ev[id] == old(ev)[id]
        invariant forall id :: 0 <= id < |ev| && id in heap[..i] ==>
          ev[id] == old(ev)[id].(timeout := Sub(old(ev)[id].timeout, off))
      {
        var id := heap[i];
        var e := ev[id].(timeout := Sub(ev[id].timeout, off));
        GoodSane(Value(), id);
        GoodSet(Value(), id, e);
        assert heap[..i + 1] == heap[..i] + [id];
        ev := ev[id := e];
        i := i + 1;
      }
      assert heap[..i] == heap;
      assert Shifted(old(ev), ev, heap, off);
      ShiftedSameOrder(old(ev), ev, heap, off);
    }

    /** timeout_process: `fired` lists the expired events by deadline. */
    method TimeoutProcess(now: Time) returns (ghost fired: seq<Id>)
      requires Valid() && Normal(now)
      modifies this
      ensures Valid() && NoDup(fired) && Known(fired, |old(ev)|) && |ev| == |old(ev)|
      ensures forall id :: id in fired <==> id in old(heap) && id < |old(ev)| && Expired(old(ev)[id], now)
      ensures forall i, j :: 0 <= i < j < |fired| ==> !Less(old(ev)[fired[j]].timeout, old(ev)[fired[i]].timeout)
      ensures EventsFired(old(Value()), fired, Value()) && QueuesFired(old(Value()), fired, Value())
      ensures forall id :: id in heap ==> id < |ev| && Less(now, ev[id].timeout)
      ensures Rest() == old(Rest()) && FiredIn(old(Value()), now, fired, Value())
    {
      hide Good, QueuesFired, EventsFired, Deleted, Activated, FiredFirst, Earliest, FireAll, FiredIn;
      ghost var b0 := Value();
      fired := [];
      FiredNone(b0, now);
      while true
        invariant Valid() && FiredFirst(b0, fired, heap, now) && Known(fired, |b0.ev|) && Value() == FireAll(b0, fired)
        invariant Rest() == old(Rest())
        decreases |heap|
      {
        var top := HeapTop();
        if top.None? {
          break;
        }
        FiredTop(b0, fired, heap, now, top.value);
        if Less(now, ev[top.value].timeout) {
          break;
        }
        FireStep(b0, fired, heap, now, top.value);
        var _ := Del(top.value, true);
        Activate(top.value, {Timeout}, 1);
        fired := fired + [top.value];
      }
      FiredAll(b0, fired, heap, now);
      FiredByMicros(b0, now, fired, Value());
    }

    // ----- callbacks -----

    /** A callback: the calls it makes, in order. */
    method Callback(actions: seq<Action>)
      requires Valid() && AllAllowed(actions, |ev|)
      modifies this
      ensures Valid() && |ev| == |old(ev)| && |active| == |old(active)|
      ensures lastTime == old(lastTime) && trace == old(trace)
      ensures Value() == PerformedAll(old(Value()), actions) && (broken <==> old(broken) || Breaks(actions))
    {
      hide Good, Performed;
      assert actions[..0] == [];
      for i := 0 to |actions|
        invariant Valid() && |ev| == |old(ev)| && |active| == |old(active)|
        invariant lastTime == old(lastTime) && trace == old(trace)
        invariant Value() == PerformedAll(old(Value()), actions[..i])
        invariant broken <==> old(broken) || Breaks(actions[..i])
      {
        assert actions[..i + 1][..i] == actions[..i] && actions[..i + 1][i] == actions[i];
        BreaksNext(actions, i);
        Perform(actions[i]);
      }
      assert actions[..|actions|] == actions;
    }

    /** The event at the head of queue `p` is taken off; the trace says what it was and where it stood. */
    method Take(p: nat) returns (id: Id)
      requires Valid() && p < |active| && active[p] != []
      modifies this
      ensures Valid() && id == old(active)[p][0] < |old(ev)|
      ensures trace == old(trace) + [Took(id, old(ev)[id], old(active)[old(ev)[id].pri])]
      ensures ev == old(ev)[id := old(ev)[id].(flags := AfterTaking(old(ev)[id]))]
      ensures active == old(active)[p := old(active)[p][1..]] && old(ev)[id].pri == p && old(ev)[id].flags.active
      ensures broken == old(broken) && lastTime == old(lastTime)
    {
      hide Good, Deleted, TakeOff;
      TakenOff(Value(), p);
      HeadOf(Value(), p);
      id := active[p][0];
      trace := trace + [Took(id, ev[id], active[ev[id].pri])];
      if ev[id].persist {
        QueueRemove(id, OnActive);
      } else {
        var _ := Del(id, true);
      }
    }

    /** One call of an event, recorded with the event's results and flags, and with what the callback left behind. */
    method Invoke(id: Id, script: seq<seq<Action>>) returns (rest: seq<seq<Action>>)
      requires Valid() && id < |ev| && ScriptAllowed(script, |ev|)
      modifies this
      ensures Valid() && |ev| == |old(ev)| && |active| == |old(active)| && ScriptAllowed(rest, |ev|)
      ensures rest == After(script, 1) && lastTime == old(lastTime)
      ensures trace == old(trace) + [Ran(id, old(ev)[id].res, old(ev)[id].flags, broken, abort)]
      ensures Value() == PerformedAll(old(Value()), if script == [] then [] else script[0])
      ensures broken <==> old(broken) || (script != [] && Breaks(script[0]))
    {
      hide Good, ScriptAllowed, Breaks;
      var res, flags := ev[id].res, ev[id].flags;
      rest := script;
      if script != [] {
        ScriptNext(script, |ev|);
        rest := script[1..];
        Callback(script[0]);
      }
      trace := trace + [Ran(id, res, flags, broken, abort)];
    }

    /** From now on the event can reset the counter of the loop that calls it. */
    method BeginCalls(id: Id) returns (ncalls: nat)
      requires Valid() && id < |ev|
      modifies this
      ensures Valid() && Rest() == old(Rest()) && active == old(active) && !abort
      ensures ncalls == old(ev)[id].ncalls && ev == old(ev)[id := old(ev)[id].(looping := true)]
    {
      hide Good;
      ncalls := ev[id].ncalls;
      GoodSane(Value(), id);
      GoodSet(Value(), id, ev[id].(looping := true));
      ev := ev[id := ev[id].(looping := true)];
      GoodAbort(Value(), false);
      abort := false;
    }

    /** One round of the loop over the calls of an event; a callback may end the loop by resetting the counter. */
    method CallOnce(id: Id, left: nat, script: seq<seq<Action>>)
      returns (rest: seq<seq<Action>>, left': nat, ghost reset: bool)
      requires Valid() && id < |ev| && ScriptAllowed(script, |ev|) && !broken && !abort
      modifies this
      ensures Valid() && |ev| == |old(ev)| && |active| == |old(active)| && ScriptAllowed(rest, |ev|)
      ensures rest == After(script, 1) && lastTime == old(lastTime) && (broken || !abort)
      ensures left' == if reset && !broken then 0 else left
      ensures trace == old(trace) + [Ran(id, old(ev)[id].res, old(ev)[id].flags, broken, reset)]
      ensures var e := SetEvent(old(Value()), id, old(ev)[id].(ncalls := left));
        var done := PerformedAll(e, if script == [] then [] else script[0]);
        Value() == (if broken then done else done.(abort := false)) && reset == done.abort
      ensures script == [] ==> !broken && left' == left && active == old(active)
      ensures script == [] ==> ev == old(ev)[id := old(ev)[id].(ncalls := left)]
    {
      hide Good, ScriptAllowed;
      GoodSane(Value(), id);
      GoodSet(Value(), id, ev[id].(ncalls := left));
      ev := ev[id := ev[id].(ncalls := left)];
      left' := left;
      rest := Invoke(id, script);
      reset := abort;
      if !broken && abort {
        left' := 0;
        GoodAbort(Value(), false);
        abort := false;
      }
    }

    /** The calls of the event that was taken off last; the environment's script says what each callback does. */
    method RunEvent(id: Id, p: nat, script: seq<seq<Action>>, ghost start: nat)
      returns (rest: seq<seq<Action>>, ghost n: nat)
      requires Valid() && id < |ev| && ScriptAllowed(script, |ev|) && !broken
      requires start <= |trace| && InTurn(trace[start..], p, id, 0)
      requires var before := LastTook(trace[start..]).value.before; ev[id] == before.(flags := AfterTaking(before))
      modifies this
      ensures Valid() && |ev| == |old(ev)| && |active| == |old(active)| && ScriptAllowed(rest, |ev|)
      ensures lastTime == old(lastTime) && old(trace) <= trace
      ensures InTurn(trace[start..], p, id, n)
      ensures n <= old(ev)[id].ncalls && (n < old(ev)[id].ncalls ==> n > 0 && Ended(trace[start..]))
      ensures Finished(trace[start..]) && (Broke(trace[start..]) <==> broken)
      ensures |Calls(trace[start..])| == |Calls(old(trace)[start..])| + n && rest == After(script, n)
      ensures n == 0 ==> active == old(active)
      ensures script == [] ==> !broken && active == old(active)
      ensures script == [] ==>
        Calls(trace[start..]) == Calls(old(trace)[start..]) + Burst(id, old(ev)[id].res, old(ev)[id].ncalls)
      ensures script == [] ==> forall j :: 0 <= j < |ev| && j != id ==> ev[j] == old(ev)[j]
    {
      hide Good, Calls, InTurn, ScriptAllowed, Calling, Burst, LastTook, After, Finished, Ended;
      ghost var t0, t, quiet := trace[start..], trace[start..], script == [];
      CallingStart(ev, id, t0, p);
      NotBroke(t0, p, id);
      var ncalls := BeginCalls(id);
      rest, n := script, 0;
      AfterAfter(script, 0, 0);
      assert Calling(old(ev), id, t0, p, ev, t, n, ncalls, quiet) by {
        CallingAny(old(ev), id, t0, p, ev, t, n, ncalls, quiet);
      }
      while ncalls != 0
        invariant Valid() && |ev| == |old(ev)| && |active| == |old(active)| && ScriptAllowed(rest, |ev|)
        invariant lastTime == old(lastTime) && old(trace) <= trace && t == trace[start..]
        invariant !Broke(t)
        invariant Calling(old(ev), id, t0, p, ev, t, n, ncalls, quiet) && rest == After(script, n)
        invariant !broken && !abort && (n == 0 || quiet ==> active == old(active)) && (quiet ==> rest == [])
      {
        ghost var ev1, n1, tr := ev, ncalls - 1, trace;
        AfterAfter(script, n, 1);
        ghost var reset;
        rest, ncalls, reset := CallOnce(id, ncalls - 1, rest);
        TailMore(tr, start, Ran(id, ev1[id].res, ev1[id].flags, broken, reset));
        CallingNext(old(ev), id, t0, p, ev1, t, n, n1, quiet, ev, ncalls, broken, reset);
        t, n := trace[start..], n + 1;
        if broken {
          CallingEnd(old(ev), id, t0, p, ev, t, n, ncalls, quiet);
          return;
        }
      }
      CallingEnd(old(ev), id, t0, p, ev, t, n, ncalls, quiet);
    }

    /** event_process_active: only events of the first non-empty queue are taken off and called. */
    method ProcessActive(script: seq<seq<Action>>) returns (rest: seq<seq<Action>>, p: nat)
      requires Valid() && activeCount != 0 && ScriptAllowed(script, |ev|) && !broken
      modifies this
      ensures Valid() && |ev| == |old(ev)| && |active| == |old(active)| && ScriptAllowed(rest, |ev|)
      ensures lastTime == old(lastTime) && old(trace) <= trace
      ensures |old(trace)| < |trace| && (Broke(trace[|old(trace)|..]) <==> broken)
      ensures PassOf(old(ev), old(active), p, trace[|old(trace)|..], script == [])
      ensures rest == After(script, |Calls(trace[|old(trace)|..])|)
      ensures p < |active| && (broken || active[p] == []) && (broken ==> script != [])
    {
      hide Good, Pass, ScriptAllowed, QuietSoFar, Calls, Plan, Burst, Finished, Ended, InTurn, LastTook;
      SomeActive(Value());
      p := 0;
      while active[p] == []
        invariant 0 <= p < |active| && forall i :: 0 <= i < p ==> active[i] == []
        invariant exists q: nat :: q >= p && FirstBusy(active, q)
        modifies {}
        decreases |active| - p
      {
        p := p + 1;
      }
      rest := script;
      ghost var ev0, q0, start, t: seq<Entry> := ev, active[p], |trace|, [];
      PassNone(p);
      assert Finished(t) by { NothingCalled(); }
      QueueKnown(Value(), p);
      AfterAfter(script, 0, 0);
      while active[p] != []
        invariant Valid() && |ev| == |old(ev)| && |active| == |old(active)| && ScriptAllowed(rest, |ev|)
        invariant lastTime == old(lastTime) && !broken && old(trace) <= trace
        invariant t == trace[start..] && Finished(t) && !Broke(t) && (t == [] ==> active[p] != [])
        invariant Pass(t, p) && rest == After(script, |Calls(t)|)
        invariant script == [] ==> QuietSoFar(ev0, q0, t, ev, active[p])
        decreases |rest|, |active[p]|
      {
        ghost var ev1, q1, t1 := ev, active[p], t;
        HeadOf(Value(), p);
        ghost var e := Took(q1[0], ev[q1[0]], q1);
        TailMore(trace, start, e);
        var id := Take(p);
        TakeRecorded(t, e, p);
        ghost var n;
        rest, n := RunEvent(id, p, rest, start);
        t := trace[start..];
        InTurnPass(t, p, id, n);
        AfterAfter(script, |Calls(t1)|, n);
        if script == [] { QuietNext(ev0, q0, t1, ev1, q1, t, ev); }
        if broken {
          return;
        }
      }
      if script == [] { QuietDone(ev0, q0, t, ev); }
    }

    // ----- the loop -----

    /** The backend waits, at most as long as `wait` says, and reports what is ready; -1 if it fails. */
    method Dispatch(wait: Option<Time>, ok: bool, ready: Ready) returns (res: int)
      requires Valid() && forall i :: 0 <= i < |ready| ==> ready[i].0 < |ev|
      modifies this
      ensures Valid() && |ev| == |old(ev)| && Rest() == old(Rest())
      ensures res == (if ok then 0 else -1) && (!ok ==> Value() == old(Value()))
      ensures ok ==> ReadyActive(old(Value()), ready, Value())
    {
      hide Good, Activated, ReadyActive;
      if !ok {
        return -1;
      }
      ghost var b := Value();
      NothingReady(b);
      assert ready[..0] == [];
      for i := 0 to |ready|
        invariant Valid() && |ev| == |old(ev)| && Rest() == old(Rest()) && ReadyActive(b, ready[..i], Value())
      {
        ReadyMore(b, ready[..i], Value(), ready[i]);
        assert ready[..i + 1] == ready[..i] + [ready[i]];
        Activate(ready[i].0, ready[i].1, ready[i].2);
      }
      assert ready[..|ready|] == ready;
      return 0;
    }

    /** How long the backend may wait in this round. */
    method Limit(nonblock: bool, now: Time) returns (wait: Option<Time>)
      requires Valid() && Normal(now)
      ensures WaitRight(Value(), wait, nonblock, now)
    {
      hide Good, UntilNext;
      wait := Some(Time(0, 0));
      if activeCount == 0 && !nonblock {
        wait := TimeoutNext(now);
      }
    }

    /** The pass of a round, if an event is active. */
    method Drain(script: seq<seq<Action>>) returns (ran: bool, ghost entries: seq<Entry>)
      requires Valid() && ScriptAllowed(script, |ev|) && !broken
      modifies this
      ensures Valid() && |ev| == |old(ev)| && lastTime == old(lastTime) && trace == old(trace) + entries
      ensures PassDone(old(Value()), script == [], entries, Value()) && (broken <==> Broke(entries))
      ensures (ran <==> entries != []) && (!ran ==> activeCount == 0)
    {
      hide Good, PassOf, ScriptAllowed, Finished;
      ran, entries := activeCount != 0, [];
      if ran {
        ghost var start := |trace|;
        var _, p := ProcessActive(script);
        entries := trace[start..];
        assert PassOf(old(ev), old(active), p, entries, script == []);
      }
    }

    /** A round of the loop after its beginning: the backend, the timers, and a pass. */
    method PerformRound(r: Round, wait: Option<Time>, nonblock: bool, ghost begun: Base, ghost last: Time)
      returns (ok: bool, ran: bool, ghost t: Turn)
      requires Valid() && RoundAllowed(r, |ev|) && !broken
      requires ClockCorrected(begun, last, r.before, Value()) && WaitRight(Value(), wait, nonblock, r.now)
      modifies this
      ensures Valid() && |ev| == |old(ev)| && lastTime == old(lastTime)
      ensures TurnRight(t, r, nonblock) && t.begun == begun && t.last == last && t.after == Value()
      ensures ok == r.dispatchOk && trace == old(trace) + t.ran && (broken <==> Broke(t.ran))
      ensures (ran <==> t.ran != []) && (ok && !ran ==> activeCount == 0)
    {
      hide Good, ClockCorrected, WaitRight, ReadyActive, FiredIn, PassDone, RoundAllowed, Broke, ScriptAllowed;
      RoundTimes(r, |ev|);
      ghost var base := Value();
      var res := Dispatch(wait, r.dispatchOk, r.ready);
      ghost var polled := Value();
      if res == -1 {
        t := Turn(begun, last, base, wait, base, base, [], base);
        assert !Broke([]) by { NothingBroke(); }
        return false, false, t;
      }
      ghost var fired := TimeoutProcess(r.after);
      ghost var due := Value();
      ghost var entries;
      ran, entries := Drain(r.script);
      ok, t := true, Turn(begun, last, base, wait, polled, due, entries, Value());
    }

    /**
      event_base_loop; the environment asks it to end after the last round. It ends earlier with 1 when no event of
      the application is left, with -1 when the backend fails, and with 0 when event_break is set, or after a round
      that ends it.
     */
    method Loop(once: bool, nonblock: bool, rounds: seq<Round>) returns (res: int, ghost turns: seq<Turn>)
      requires Valid() && Normal(lastTime) && forall i :: 0 <= i < |rounds| ==> RoundAllowed(rounds[i], |ev|)
      modifies this
      ensures Valid() && |ev| == |old(ev)| && res in {-1, 0, 1}
      ensures RoundsRight(old(Value()), old(lastTime), turns, rounds, once, nonblock)
      ensures trace == old(trace) + RanIn(turns)
      ensures res == 1 ==> |turns| < |rounds| && GoesOn(turns, rounds, once, nonblock)
      ensures res == 1 ==> forall id :: id in external && 0 <= id < |ev| ==> ev[id].flags == NONE
      ensures res == 1 ==>
        ClockCorrected(EndOf(old(Value()), turns), LastOf(old(lastTime), turns, rounds), rounds[|turns|].before,
          Value())
      ensures res != 1 ==> Value() == EndOf(old(Value()), turns)
      ensures res == -1 <==> turns != [] && !rounds[|turns| - 1].dispatchOk
      ensures res == 0 && |turns| < |rounds| ==>
        if turns == [] then old(broken)
        else Broke(turns[|turns| - 1].ran) || RoundEnds(turns[|turns| - 1], once, nonblock)
    {
      hide Good, RoundAllowed, WaitRight, Broke, RoundEnds, RoundsRight, TurnRight, ClockCorrected, Less;
      hide EndOf, LastOf, RanIn, GoesOn;
      ghost var start, last := Value(), lastTime;
      turns := [];
      LoopStarts(start, last, rounds, once, nonblock);
      for i := 0 to |rounds|
        invariant Valid() && |ev| == |old(ev)| && Normal(lastTime) && |turns| == i
        invariant RoundsRight(start, last, turns, rounds, once, nonblock)
        invariant Value() == EndOf(start, turns) && lastTime == LastOf(last, turns, rounds)
        invariant trace == old(trace) + RanIn(turns) && (i > 0 ==> rounds[i - 1].dispatchOk)
        invariant if i == 0 then broken == old(broken) else broken <==> Broke(turns[i - 1].ran)
        invariant !broken ==> GoesOn(turns, rounds, once, nonblock)
      {
        var r := rounds[i];
        if broken {
          broken := false;
          return 0, turns;
        }
        RoundTimes(r, |ev|);
        ghost var begun, before := Value(), lastTime;
        TimeoutCorrect(r.before);
        CorrectedIs(begun, before, r.before, Value());
        var wait := Limit(nonblock, r.now);
        if count <= 0 {
          forall id | id in external && 0 <= id < |ev| ensures ev[id].flags == NONE { NothingLeft(Value(), id); }
          return 1, turns;
        }
        ghost var t;
        var ok, ran;
        ok, ran, t := PerformRound(r, wait, nonblock, begun, before);
        RoundsMore(start, last, turns, rounds, once, nonblock, t);
        turns := turns + [t];
        if !ok {
          return -1, turns;
        }
        Ending(t, once, nonblock);
        if ran {
          if activeCount == 0 && once {
            return 0, turns;
          }
        } else if nonblock {
          return 0, turns;
        }
      }
      return 0, turns;
    }
  }
}
