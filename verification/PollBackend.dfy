/** poll.c: dense arrays of pollfds, and an index into them by descriptor. */
module PollBackend {
  import opened Basics
  import opened Interest

  datatype PollFd = PollFd(fd: nat, pollin: bool, pollout: bool)

  /** `struct pollop`: the first `nfds` places of event_set, event_r_back and event_w_back, and idxplus1_by_fd. */
  datatype Poll = Poll(set_: seq<PollFd>, r: seq<Option<Ev>>, w: seq<Option<Ev>>, index: seq<nat>)

  // ----- poll_check_ok -----

  predicate EntryOk(p: Poll, i: nat)
    requires i < |p.set_| == |p.r| == |p.w|
  {
    var e := p.set_[i];
    && e.fd < |p.index| && p.index[e.fd] == i + 1
    && (e.pollin <==> p.r[i].Some?) && (e.pollout <==> p.w[i].Some?) && (e.pollin || e.pollout)
    && (p.r[i].Some? ==> p.r[i].value.read && p.r[i].value.fd == e.fd)
    && (p.w[i].Some? ==> p.w[i].value.write && p.w[i].value.fd == e.fd)
  }

  predicate IndexOk(p: Poll, fd: nat)
    requires fd < |p.index|
  {
    p.index[fd] <= |p.set_| && (p.index[fd] > 0 ==> p.set_[p.index[fd] - 1].fd == fd)
  }

  /** The index and the dense arrays are inverse to each other. */
  ghost predicate PollOk(p: Poll) {
    && |p.set_| == |p.r| == |p.w|
    && (forall i :: 0 <= i < |p.set_| ==> EntryOk(p, i))
    && (forall fd :: 0 <= fd < |p.index| ==> IndexOk(p, fd))
  }

  function Slot(p: Poll, fd: nat): nat {
    if fd < |p.index| then p.index[fd] else 0
  }

  function ReaderOf(p: Poll, fd: nat): Option<Ev> {
    if 0 < Slot(p, fd) <= |p.r| then p.r[Slot(p, fd) - 1] else None
  }

  function WriterOf(p: Poll, fd: nat): Option<Ev> {
    if 0 < Slot(p, fd) <= |p.w| then p.w[Slot(p, fd) - 1] else None
  }

  /** The arrays hold exactly the interest `it`. */
  ghost predicate Holds(p: Poll, it: Interest) {
    forall fd :: ReaderOf(p, fd) == Reader(it, fd) && WriterOf(p, fd) == Writer(it, fd)
  }

  // ----- poll_add -----

  function Doubled(n: nat, fd: nat): (m: nat)
    requires n > 0
    ensures m > fd && m >= n
    decreases fd + 1 - n
  {
    if n <= fd then Doubled(n * 2, fd) else n
  }

  /** idxplus1_by_fd grown by doubling until it covers `fd`. */
  function NewCount(count: nat, fd: nat): (n: nat)
    ensures n > fd && n >= count
  {
    if fd < count then count else Doubled(if count < 32 then 32 else count * 2, fd)
  }

  function Padded(index: seq<nat>, n: nat): (r: seq<nat>)
    requires n >= |index|
    ensures |r| == n && forall i :: 0 <= i < n ==> r[i] == if i < |index| then index[i] else 0
  {
    index + seq(n - |index|, _ => 0)
  }

  /** The entry of a descriptor, made if there is none. */
  function WithEntry(p: Poll, fd: nat): (q: Poll)
    ensures fd < |q.index|
  {
    var index := Padded(p.index, NewCount(|p.index|, fd));
    if index[fd] > 0 then p.(index := index)
    else Poll(p.set_ + [PollFd(fd, false, false)], p.r + [None], p.w + [None], index[fd := |p.set_| + 1])
  }

  function Enlist(p: Poll, i: nat, ev: Ev): Poll
    requires i < |p.set_| == |p.r| == |p.w|
  {
    var e := p.set_[i];
    p.(set_ := p.set_[i := e.(pollin := e.pollin || ev.read, pollout := e.pollout || ev.write)],
       r := if ev.read then p.r[i := Some(ev)] else p.r,
       w := if ev.write then p.w[i := Some(ev)] else p.w)
  }

  /** The arrays after WithEntry: the invariant, but for the entry that nobody uses yet. */
  ghost predicate OpenAt(p: Poll, i: nat) {
    && i < |p.set_| == |p.r| == |p.w|
    && (forall k :: 0 <= k < |p.set_| && k != i ==> EntryOk(p, k))
    && (forall fd :: 0 <= fd < |p.index| ==> IndexOk(p, fd))
    && (var e := p.set_[i];
        && e.fd < |p.index| && p.index[e.fd] == i + 1
        && (e.pollin <==> p.r[i].Some?) && (e.pollout <==> p.w[i].Some?)
        && (p.r[i].Some? ==> p.r[i].value.read && p.r[i].value.fd == e.fd)
        && (p.w[i].Some? ==> p.w[i].value.write && p.w[i].value.fd == e.fd))
  }

  lemma {:induction false} WithEntryOk(p: Poll, fd: nat)
    requires PollOk(p)
    ensures var q := WithEntry(p, fd);
      && q.index[fd] > 0 && OpenAt(q, q.index[fd] - 1) && q.set_[q.index[fd] - 1].fd == fd
      && forall k :: ReaderOf(q, k) == ReaderOf(p, k) && WriterOf(q, k) == WriterOf(p, k)
  {
    var q := WithEntry(p, fd);
    if fd < |p.index| { assert IndexOk(p, fd); }
    if Slot(p, fd) > 0 { assert EntryOk(p, Slot(p, fd) - 1); }
    forall i | 0 <= i < |p.set_| ensures EntryOk(q, i) {
      assert EntryOk(p, i);
    }
    forall k | 0 <= k < |q.index| ensures IndexOk(q, k) {
      if k < |p.index| { assert IndexOk(p, k); }
    }
    forall k: nat ensures ReaderOf(q, k) == ReaderOf(p, k) && WriterOf(q, k) == WriterOf(p, k) {
      if k < |p.index| { assert IndexOk(p, k); }
    }
  }

  lemma {:induction false} EnlistOk(p: Poll, i: nat, ev: Ev)
    requires OpenAt(p, i) && p.set_[i].fd == ev.fd && (ev.read || ev.write)
    ensures PollOk(Enlist(p, i, ev))
    ensures forall k :: ReaderOf(Enlist(p, i, ev), k) == if ev.read && k == ev.fd then Some(ev) else ReaderOf(p, k)
    ensures forall k :: WriterOf(Enlist(p, i, ev), k) == if ev.write && k == ev.fd then Some(ev) else WriterOf(p, k)
  {
    var q := Enlist(p, i, ev);
    forall k | 0 <= k < |q.set_| ensures EntryOk(q, k) {
      if k != i { assert EntryOk(p, k); }
    }
    forall k | 0 <= k < |q.index| ensures IndexOk(q, k) { assert IndexOk(p, k); }
    forall k: nat ensures ReaderOf(q, k) == (if ev.read && k == ev.fd then Some(ev) else ReaderOf(p, k))
      && WriterOf(q, k) == (if ev.write && k == ev.fd then Some(ev) else WriterOf(p, k))
    {
      if k < |p.index| { assert IndexOk(p, k); }
    }
  }

  /** poll_add of an event that is not a signal. */
  function PollAdd(p: Poll, ev: Ev): Poll {
    if !ev.read && !ev.write then p
    else
      var q := WithEntry(p, ev.fd);
      if 0 < q.index[ev.fd] <= |q.set_| == |q.r| == |q.w| then Enlist(q, q.index[ev.fd] - 1, ev) else q
  }

  lemma {:induction false} OpenLengths(p: Poll, i: nat)
    requires OpenAt(p, i)
    ensures i < |p.set_| == |p.r| == |p.w|
  {
  }

  lemma {:induction false} PollAddOk(p: Poll, ev: Ev, it: Interest)
    requires PollOk(p) && Holds(p, it)
    ensures PollOk(PollAdd(p, ev)) && Holds(PollAdd(p, ev), Added(it, ev))
  {
    hide PollOk, OpenAt, WithEntry, Enlist, ReaderOf, WriterOf;
    if ev.read || ev.write {
      var q := WithEntry(p, ev.fd);
      WithEntryOk(p, ev.fd);
      OpenLengths(q, q.index[ev.fd] - 1);
      EnlistOk(q, q.index[ev.fd] - 1, ev);
    }
  }

  // ----- poll_del -----

  function Delist(p: Poll, i: nat, ev: Ev): Poll
    requires i < |p.set_| == |p.r| == |p.w|
  {
    var e := p.set_[i];
    p.(set_ := p.set_[i := e.(pollin := e.pollin && !ev.read, pollout := e.pollout && !ev.write)],
       r := if ev.read then p.r[i := None] else p.r,
       w := if ev.write then p.w[i := None] else p.w)
  }

  /** The last entry moves to place `i`. */
  function SwapLast(p: Poll, i: nat): Poll
    requires i < |p.set_| == |p.r| == |p.w|
  {
    var n := |p.set_| - 1;
    var index := if p.set_[i].fd < |p.index| then p.index[p.set_[i].fd := 0] else p.index;
    if i == n then Poll(p.set_[..n], p.r[..n], p.w[..n], index)
    else Poll(p.set_[..n][i := p.set_[n]], p.r[..n][i := p.r[n]], p.w[..n][i := p.w[n]],
              if p.set_[n].fd < |index| then index[p.set_[n].fd := i + 1] else index)
  }

  lemma {:induction false} DelistOk(p: Poll, i: nat, ev: Ev)
    requires PollOk(p) && i < |p.set_| && p.set_[i].fd == ev.fd
    ensures OpenAt(Delist(p, i, ev), i)
    ensures forall k :: ReaderOf(Delist(p, i, ev), k) == if ev.read && k == ev.fd then None else ReaderOf(p, k)
    ensures forall k :: WriterOf(Delist(p, i, ev), k) == if ev.write && k == ev.fd then None else WriterOf(p, k)
  {
    var q := Delist(p, i, ev);
    assert EntryOk(p, i);
    forall k | 0 <= k < |q.set_| && k != i ensures EntryOk(q, k) { assert EntryOk(p, k); }
    forall k | 0 <= k < |q.index| ensures IndexOk(q, k) { assert IndexOk(p, k); }
    forall k: nat ensures ReaderOf(q, k) == (if ev.read && k == ev.fd then None else ReaderOf(p, k))
      && WriterOf(q, k) == (if ev.write && k == ev.fd then None else WriterOf(p, k))
    {
      if k < |p.index| { assert IndexOk(p, k); }
    }
  }

  lemma {:induction false} OpenUsed(p: Poll, i: nat)
    requires OpenAt(p, i) && (p.set_[i].pollin || p.set_[i].pollout)
    ensures PollOk(p)
  {
  }

  lemma {:induction false} SwapLastOk(p: Poll, i: nat)
    requires OpenAt(p, i) && !p.set_[i].pollin && !p.set_[i].pollout
    ensures PollOk(SwapLast(p, i))
    ensures forall k :: ReaderOf(SwapLast(p, i), k) == ReaderOf(p, k) && WriterOf(SwapLast(p, i), k) == WriterOf(p, k)
  {
    var q, n := SwapLast(p, i), |p.set_| - 1;
    if i != n { assert EntryOk(p, n); }
    forall k | 0 <= k < |q.set_| ensures EntryOk(q, k) {
      if k != i { assert EntryOk(p, k); }
    }
    forall k | 0 <= k < |q.index| ensures IndexOk(q, k) { assert IndexOk(p, k); }
    forall k: nat ensures ReaderOf(q, k) == ReaderOf(p, k) && WriterOf(q, k) == WriterOf(p, k) {
      if k < |p.index| { assert IndexOk(p, k); }
    }
  }

  /** poll_del of an event that is not a signal. */
  function PollDel(p: Poll, ev: Ev): (Poll, int) {
    if !ev.read && !ev.write then (p, 0)
    else
      var s := Slot(p, ev.fd);
      if !(0 < s <= |p.set_| == |p.r| == |p.w|) then (p, -1)
      else
        var q := Delist(p, s - 1, ev);
        if q.set_[s - 1].pollin || q.set_[s - 1].pollout then (q, 0) else (SwapLast(q, s - 1), 0)
  }

  lemma {:induction false} SlotOk(p: Poll, fd: nat)
    requires PollOk(p)
    ensures |p.set_| == |p.r| == |p.w| && Slot(p, fd) <= |p.set_|
    ensures Slot(p, fd) > 0 ==> p.set_[Slot(p, fd) - 1].fd == fd
    ensures Slot(p, fd) == 0 <==> ReaderOf(p, fd).None? && WriterOf(p, fd).None?
  {
    if fd < |p.index| { assert IndexOk(p, fd); }
    if 0 < Slot(p, fd) { assert EntryOk(p, Slot(p, fd) - 1); }
  }

  lemma {:induction false} PollDelTable(p: Poll, ev: Ev)
    requires PollOk(p) && (ev.read || ev.write) && Slot(p, ev.fd) > 0
    ensures PollOk(PollDel(p, ev).0) && PollDel(p, ev).1 == 0
    ensures forall k :: ReaderOf(PollDel(p, ev).0, k) == if ev.read && k == ev.fd then None else ReaderOf(p, k)
    ensures forall k :: WriterOf(PollDel(p, ev).0, k) == if ev.write && k == ev.fd then None else WriterOf(p, k)
  {
    hide OpenAt, Delist, SwapLast, ReaderOf, WriterOf, PollOk;
    SlotOk(p, ev.fd);
    var i := Slot(p, ev.fd) - 1;
    var q := Delist(p, i, ev);
    DelistOk(p, i, ev);
    OpenLengths(q, i);
    if q.set_[i].pollin || q.set_[i].pollout { OpenUsed(q, i); } else { SwapLastOk(q, i); }
  }

  /** Deleting frees the places the event asks for, and fails only for a descriptor nobody waits for. */
  lemma {:induction false} PollDelOk(p: Poll, ev: Ev, it: Interest)
    requires PollOk(p) && Holds(p, it)
    ensures PollOk(PollDel(p, ev).0) && Holds(PollDel(p, ev).0, Deleted(it, ev))
    ensures (ev.read || ev.write) ==> (PollDel(p, ev).1 == -1 <==> Reader(it, ev.fd).None? && Writer(it, ev.fd).None?)
  {
    hide ReaderOf, WriterOf, PollOk;
    SlotOk(p, ev.fd);
    if (ev.read || ev.write) && Slot(p, ev.fd) > 0 {
      PollDelTable(p, ev);
      hide PollDel;
    }
  }

  // ----- poll_dispatch -----

  /** The pass over entry `i`; a broken descriptor counts as readable and writable. */
  function Wake(p: Poll, kernel: Kernel, i: nat): seq<Activation>
    requires i < |p.set_| == |p.r| == |p.w|
  {
    var e, k := p.set_[i], kernel(p.set_[i].fd);
    var read, write := (e.pollin && k.readable) || k.broken, (e.pollout && k.writable) || k.broken;
    Woken(if read then p.r[i] else None, if write then p.w[i] else None, read, write)
  }

  function WakeFrom(p: Poll, kernel: Kernel, i: nat): seq<Activation>
    requires i <= |p.set_| == |p.r| == |p.w|
    decreases |p.set_| - i
  {
    if i == |p.set_| then [] else Wake(p, kernel, i) + WakeFrom(p, kernel, i + 1)
  }

  lemma {:induction false} WakeFromIn(p: Poll, kernel: Kernel, i: nat, a: Activation)
    requires i <= |p.set_| == |p.r| == |p.w|
    ensures a in WakeFrom(p, kernel, i) <==> exists k :: i <= k < |p.set_| && a in Wake(p, kernel, k)
    decreases |p.set_| - i
  {
    hide Wake;
    if i < |p.set_| { WakeFromIn(p, kernel, i + 1, a); }
  }

  lemma {:induction false} WakeTells(p: Poll, it: Interest, kernel: Kernel, i: nat, a: Activation)
    requires PollOk(p) && Holds(p, it) && Paired(it) && i < |p.set_|
    ensures a in Wake(p, kernel, i) <==> a.ev.fd == p.set_[i].fd && Tells(it, kernel, a)
  {
    var fd := p.set_[i].fd;
    assert EntryOk(p, i);
    assert p.r[i] == ReaderOf(p, fd) == Reader(it, fd) && p.w[i] == WriterOf(p, fd) == Writer(it, fd);
    assert PairedAt(Reader(it, fd), Writer(it, fd), fd);
  }

  /** The dispatch of poll activates exactly the events it owes, with exactly the results it owes. */
  lemma {:induction false} PollTells(p: Poll, it: Interest, kernel: Kernel, a: Activation)
    requires PollOk(p) && Holds(p, it) && Paired(it)
    ensures a in WakeFrom(p, kernel, 0) <==> Tells(it, kernel, a)
  {
    hide Wake, WakeFrom, Paired;
    WakeFromIn(p, kernel, 0, a);
    forall i | 0 <= i < |p.set_| ensures a in Wake(p, kernel, i) <==> a.ev.fd == p.set_[i].fd && Tells(it, kernel, a) {
      WakeTells(p, it, kernel, i, a);
    }
    if Tells(it, kernel, a) {
      var i := Slot(p, a.ev.fd) - 1;
      SlotOk(p, a.ev.fd);
      assert ReaderOf(p, a.ev.fd) == Reader(it, a.ev.fd) && WriterOf(p, a.ev.fd) == Writer(it, a.ev.fd);
      assert a in Wake(p, kernel, i);
    }
  }

  /** The body of the dispatch loop. */
  function WakeEntry(e: PollFd, r: Option<Ev>, w: Option<Ev>, kernel: Kernel): seq<Activation> {
    var what := kernel(e.fd);
    var read, write := (e.pollin && what.readable) || what.broken, (e.pollout && what.writable) || what.broken;
    Woken(if read then r else None, if write then w else None, read, write)
  }

  lemma {:induction false} WakeIs(p: Poll, kernel: Kernel, i: nat)
    requires i < |p.set_| == |p.r| == |p.w|
    ensures WakeEntry(p.set_[i], p.r[i], p.w[i], kernel) == Wake(p, kernel, i)
  {
  }

  lemma {:induction false} AddKeeps(p: Poll, ev: Ev)
    requires PollOk(p)
    ensures PollOk(PollAdd(p, ev)) && |PollAdd(p, ev).set_| <= |p.set_| + 1
    ensures (ev.read || ev.write) ==> var q := WithEntry(p, ev.fd);
      0 < q.index[ev.fd] <= |q.set_| == |q.r| == |q.w|
  {
    hide PollOk, OpenAt, ReaderOf, WriterOf;
    if ev.read || ev.write {
      var q := WithEntry(p, ev.fd);
      WithEntryOk(p, ev.fd);
      OpenLengths(q, q.index[ev.fd] - 1);
      EnlistOk(q, q.index[ev.fd] - 1, ev);
    }
  }

  lemma {:induction false} DelKeeps(p: Poll, ev: Ev)
    requires PollOk(p) && ev.fd < |p.index|
    ensures PollOk(PollDel(p, ev).0) && |PollDel(p, ev).0.set_| <= |p.set_|
    ensures p.index[ev.fd] <= |p.set_| && (p.index[ev.fd] > 0 ==> p.set_[p.index[ev.fd] - 1].fd == ev.fd)
    ensures p.set_ != [] ==> p.set_[|p.set_| - 1].fd < |p.index|
  {
    hide OpenAt, ReaderOf, WriterOf;
    assert IndexOk(p, ev.fd);
    if p.set_ != [] { assert EntryOk(p, |p.set_| - 1); }
    if (ev.read || ev.write) && p.index[ev.fd] > 0 {
      var i := p.index[ev.fd] - 1;
      hide PollOk;
      var q := Delist(p, i, ev);
      DelistOk(p, i, ev);
      OpenLengths(q, i);
      if q.set_[i].pollin || q.set_[i].pollout {
        OpenUsed(q, i);
      } else {
        SwapLastOk(q, i);
      }
    }
  }

  /** `struct pollop` */
  class PollOp {
    /** How many places the dense arrays have. */
    var eventCount: nat
    var eventSet: seq<PollFd>
    var rBack: seq<Option<Ev>>
    var wBack: seq<Option<Ev>>
    var idxPlus1ByFd: seq<nat>

    ghost function Value(): Poll
      reads this
    {
      Poll(eventSet, rBack, wBack, idxPlus1ByFd)
    }

    /** The entries fit the places. */
    ghost predicate Valid()
      reads this
    {
      PollOk(Value()) && |eventSet| <= eventCount
    }

    constructor ()
      ensures Valid() && Value() == Poll([], [], [], [])
    {
      eventCount, eventSet, rBack, wBack, idxPlus1ByFd := 0, [], [], [], [];
    }

    /** poll_add; `memory` says whether the reallocations succeed. */
    method Add(ev: Ev, memory: bool) returns (res: int)
      requires Valid()
      modifies this
      ensures Valid() && (res == 0 || (res == -1 && !memory))
      ensures Value() == if res == 0 then PollAdd(old(Value()), ev) else old(Value())
    {
      hide EntryOk, IndexOk, WithEntry, Enlist;
      AddKeeps(Value(), ev);
      if !ev.read && !ev.write {
        return 0;
      }
      if |eventSet| + 1 >= eventCount {
        if !memory {
          return -1;
        }
        eventCount := if eventCount < 32 then 32 else eventCount * 2;
      }
      var newCount := |idxPlus1ByFd|;
      if ev.fd >= newCount {
        if !memory {
          return -1;
        }
        newCount := Grow(ev.fd);
      }
      var i := Place(ev.fd, newCount);
      Use(i, ev);
      return 0;
    }

    /** The doubling of the index. */
    method Grow(fd: nat) returns (newCount: nat)
      requires fd >= |idxPlus1ByFd|
      ensures newCount == NewCount(|idxPlus1ByFd|, fd)
    {
      newCount := if |idxPlus1ByFd| < 32 then 32 else |idxPlus1ByFd| * 2;
      while newCount <= fd
        invariant newCount > 0 && Doubled(newCount, fd) == NewCount(|idxPlus1ByFd|, fd)
        decreases fd + 1 - newCount
      {
        newCount := newCount * 2;
      }
    }

    /** The entry of `fd`, at the end of the dense arrays if there was none. */
    method Place(fd: nat, newCount: nat) returns (i: nat)
      requires newCount == NewCount(|idxPlus1ByFd|, fd)
      modifies this
      ensures Value() == WithEntry(old(Value()), fd) && eventCount == old(eventCount) && i + 1 == idxPlus1ByFd[fd]
    {
      idxPlus1ByFd := Padded(idxPlus1ByFd, newCount);
      if idxPlus1ByFd[fd] > 0 {
        return idxPlus1ByFd[fd] - 1;
      }
      i := |eventSet|;
      eventSet := eventSet + [PollFd(fd, false, false)];
      rBack := rBack + [None];
      wBack := wBack + [None];
      idxPlus1ByFd := idxPlus1ByFd[fd := i + 1];
    }

    /** Entry `i` serves the event, too. */
    method Use(i: nat, ev: Ev)
      requires i < |eventSet| == |rBack| == |wBack|
      modifies this
      ensures Value() == Enlist(old(Value()), i, ev) && eventCount == old(eventCount)
    {
      if ev.write {
        eventSet := eventSet[i := eventSet[i].(pollout := true)];
        wBack := wBack[i := Some(ev)];
      }
      if ev.read {
        eventSet := eventSet[i := eventSet[i].(pollin := true)];
        rBack := rBack[i := Some(ev)];
      }
      assert eventSet == Enlist(old(Value()), i, ev).set_;
    }

    /** poll_del of a descriptor the index covers. */
    method Del(ev: Ev) returns (res: int)
      requires Valid() && ev.fd < |idxPlus1ByFd|
      modifies this
      ensures Valid() && (Value(), res) == PollDel(old(Value()), ev)
    {
      hide EntryOk, IndexOk, SwapLast;
      ghost var p := Value();
      DelKeeps(p, ev);
      if !ev.read && !ev.write {
        return 0;
      }
      var i := (idxPlus1ByFd[ev.fd] as int) - 1;
      if i < 0 {
        return -1;
      }
      if ev.read {
        eventSet := eventSet[i := eventSet[i].(pollin := false)];
        rBack := rBack[i := None];
      }
      if ev.write {
        eventSet := eventSet[i := eventSet[i].(pollout := false)];
        wBack := wBack[i := None];
      }
      assert eventSet == Delist(p, i, ev).set_;
      if eventSet[i].pollin || eventSet[i].pollout {
        return 0;
      }
      Remove(i);
      return 0;
    }

    /** The end of poll_del: the last entry moves into the place that became free. */
    method Remove(i: nat)
      requires i < |eventSet| == |rBack| == |wBack| && eventSet[i].fd < |idxPlus1ByFd|
      requires eventSet[|eventSet| - 1].fd < |idxPlus1ByFd|
      modifies this
      ensures Value() == SwapLast(old(Value()), i) && eventCount == old(eventCount)
    {
      idxPlus1ByFd := idxPlus1ByFd[eventSet[i].fd := 0];
      var n := |eventSet| - 1;
      var last, lastR, lastW := eventSet[n], rBack[n], wBack[n];
      eventSet, rBack, wBack := eventSet[..n], rBack[..n], wBack[..n];
      if i != n {
        eventSet, rBack, wBack := eventSet[i := last], rBack[i := lastR], wBack[i := lastW];
        idxPlus1ByFd := idxPlus1ByFd[eventSet[i].fd := i + 1];
      }
    }

    /** poll_dispatch after a successful poll. */
    method Dispatch(kernel: Kernel) returns (woken: seq<Activation>)
      requires Valid()
      ensures woken == WakeFrom(Value(), kernel, 0)
      ensures forall it :: Holds(Value(), it) && Paired(it) ==> forall a :: a in woken <==> Tells(it, kernel, a)
    {
      hide EntryOk, IndexOk, Wake, Holds, Paired, Tells;
      woken := [];
      for i := 0 to |eventSet|
        invariant WakeFrom(Value(), kernel, 0) == woken + WakeFrom(Value(), kernel, i)
      {
        woken := woken + WakeEntry(eventSet[i], rBack[i], wBack[i], kernel);
        assert WakeEntry(eventSet[i], rBack[i], wBack[i], kernel) == Wake(Value(), kernel, i) by {
          WakeIs(Value(), kernel, i);
        }
      }
      forall it, a | Holds(Value(), it) && Paired(it) ensures a in woken <==> Tells(it, kernel, a) {
        PollTells(Value(), it, kernel, a);
      }
    }
  }
}
