/** devpoll.c: a table by descriptor and a write-behind log of changes to the kernel's set. */
module DevPollBackend {
  import opened Basics
  import opened Interest

  datatype Mask = Mask(pollin: bool, pollout: bool)

  /** `struct evdevpoll` */
  datatype Slot = Slot(evread: Option<Ev>, evwrite: Option<Ev>)

  /** A pollfd in the log: POLLREMOVE, or bits to add. */
  datatype Change = Remove(fd: nat) | Join(fd: nat, mask: Mask)

  /** `struct devpollop` and what the kernel has been told; `nevents` is the size of the change buffer. */
  datatype Dev = Dev(fds: seq<Slot>, changes: seq<Change>, nevents: nat, kernel: seq<Mask>)

  // ----- the kernel -----

  /** The driver ORs new bits to those it has; POLLREMOVE clears them all. */
  function Told(kernel: seq<Mask>, c: Change): (r: seq<Mask>)
    ensures |r| == |kernel|
  {
    if c.fd >= |kernel| then kernel
    else
      match c
      case Remove(fd) => kernel[fd := Mask(false, false)]
      case Join(fd, mask) => kernel[fd := Mask(kernel[fd].pollin || mask.pollin, kernel[fd].pollout || mask.pollout)]
  }

  function ToldAll(kernel: seq<Mask>, log: seq<Change>): (r: seq<Mask>)
    ensures |r| == |kernel|
  {
    if log == [] then kernel else Told(ToldAll(kernel, log[..|log| - 1]), log[|log| - 1])
  }

  function Bits(s: Slot): Mask {
    Mask(s.evread.Some?, s.evwrite.Some?)
  }

  predicate Shape(d: Dev) {
    |d.kernel| == |d.fds| && 1 <= d.nevents && |d.changes| <= d.nevents
  }

  /** Once the log is written, the kernel watches exactly what the table asks for. */
  ghost predicate InSync(d: Dev) {
    && Shape(d)
    && forall fd :: 0 <= fd < |d.fds| ==> ToldAll(d.kernel, d.changes)[fd] == Bits(d.fds[fd])
  }

  ghost predicate Holds(d: Dev, it: Interest) {
    forall fd :: 0 <= fd < |d.fds| ==> d.fds[fd] == Slot(Reader(it, fd), Writer(it, fd))
  }

  // ----- devpoll_commit and devpoll_queue -----

  function Commit(d: Dev): Dev {
    d.(kernel := ToldAll(d.kernel, d.changes), changes := [])
  }

  /** `ok` says whether a commit would succeed. */
  function Queue(d: Dev, c: Change, ok: bool): (Dev, bool) {
    if |d.changes| >= d.nevents then
      if ok then (Commit(d).(changes := [c]), true) else (d, false)
    else (d.(changes := d.changes + [c]), true)
  }

  /** Wherever the commits fall, the kernel is told the same changes in the same order. */
  lemma {:induction false} QueueTells(d: Dev, c: Change, ok: bool)
    requires 1 <= d.nevents && |d.changes| <= d.nevents
    ensures var (e, done) := Queue(d, c, ok);
      && |e.changes| <= d.nevents && e.fds == d.fds && e.nevents == d.nevents && |e.kernel| == |d.kernel|
      && ToldAll(e.kernel, e.changes)
        == (if done then Told(ToldAll(d.kernel, d.changes), c) else ToldAll(d.kernel, d.changes))
      && (!done ==> e == d)
  {
    var (e, done) := Queue(d, c, ok);
    if |d.changes| >= d.nevents {
      assert [c][..0] == [];
      assert ToldAll(e.kernel, []) == e.kernel;
    } else {
      assert (d.changes + [c])[..|d.changes|] == d.changes;
    }
  }

  lemma {:induction false} CommitTells(d: Dev)
    requires InSync(d)
    ensures InSync(Commit(d)) && forall fd :: 0 <= fd < |d.fds| ==> Commit(d).kernel[fd] == Bits(d.fds[fd])
  {
  }

  // ----- devpoll_add and devpoll_del -----

  predicate Taken(slot: Option<Ev>, ev: Ev) {
    slot.Some? && slot.value != ev
  }

  /** devpoll_add of a descriptor the table covers. */
  function DevAdd(d: Dev, ev: Ev, ok: bool): (Dev, int)
    requires ev.fd < |d.fds|
  {
    var s := d.fds[ev.fd];
    if (ev.read && Taken(s.evread, ev)) || (ev.write && Taken(s.evwrite, ev)) then (d, -1)
    else
      var (e, done) := Queue(d, Join(ev.fd, Mask(ev.read, ev.write)), ok);
      if !done then (e, -1)
      else (e.(fds := d.fds[ev.fd :=
        Slot(if ev.read then Some(ev) else s.evread, if ev.write then Some(ev) else s.evwrite)]), 0)
  }

  lemma {:induction false} DevAddOk(d: Dev, ev: Ev, ok: bool)
    requires InSync(d) && ev.fd < |d.fds|
    ensures InSync(DevAdd(d, ev, ok).0)
    ensures DevAdd(d, ev, ok).1 == -1 ==> DevAdd(d, ev, ok).0 == d
  {
    hide ToldAll, Queue;
    QueueTells(d, Join(ev.fd, Mask(ev.read, ev.write)), ok);
  }

  /** An add is refused exactly if another event holds a place it wants, or the full log cannot be written. */
  lemma {:induction false} DevAddRefuses(d: Dev, ev: Ev, ok: bool)
    requires ev.fd < |d.fds|
    ensures var s := d.fds[ev.fd];
      DevAdd(d, ev, ok).1 != 0 <==>
        || (ev.read && s.evread.Some? && s.evread.value != ev) || (ev.write && s.evwrite.Some? && s.evwrite.value != ev)
        || (!ok && |d.changes| >= d.nevents)
  {
  }

  /** A legal add is refused only if a commit fails. */
  lemma {:induction false} DevAddHolds(d: Dev, ev: Ev, ok: bool, it: Interest)
    requires Shape(d) && Holds(d, it) && ev.fd < |d.fds| && Legal(it, Add(ev))
    ensures DevAdd(d, ev, ok).1 == 0 ==> Holds(DevAdd(d, ev, ok).0, Added(it, ev))
    ensures DevAdd(d, ev, ok).1 == -1 ==> !ok && |d.changes| == d.nevents
  {
    QueueTells(d, Join(ev.fd, Mask(ev.read, ev.write)), ok);
  }

  /** The bits of the other direction that must be told again after POLLREMOVE. */
  function Again(s: Slot, ev: Ev): Option<Mask> {
    if ev.read && ev.write then None
    else if ev.read && s.evwrite.Some? then Some(Mask(false, true))
    else if ev.write && s.evread.Some? then Some(Mask(true, false))
    else None
  }

  /** devpoll_del; the result of the second queueing is not looked at. */
  function DevDel(d: Dev, ev: Ev, ok1: bool, ok2: bool): (Dev, int) {
    if ev.fd >= |d.fds| then (d, 0)
    else
      var s := d.fds[ev.fd];
      var (e, done) := Queue(d, Remove(ev.fd), ok1);
      if !done then (e, -1)
      else
        var again := Again(s, ev);
        var f := if again.Some? then Queue(e, Join(ev.fd, again.value), ok2).0 else e;
        (f.(fds := d.fds[ev.fd := Slot(if again == Some(Mask(true, false)) then s.evread else None,
                                        if again == Some(Mask(false, true)) then s.evwrite else None)]), 0)
  }

  /**
    The log is full again right after POLLREMOVE went into it, the other direction must be told again, and that
    commit fails.
   */
  predicate Loses(d: Dev, ev: Ev, ok1: bool, ok2: bool) {
    && ev.fd < |d.fds| && Again(d.fds[ev.fd], ev).Some? && !ok2
    && (if |d.changes| >= d.nevents then ok1 && d.nevents == 1 else |d.changes| + 1 == d.nevents)
  }

  /** Deletion keeps table and kernel in step, except where the unchecked second queueing fails. */
  lemma {:induction false} DevDelOk(d: Dev, ev: Ev, ok1: bool, ok2: bool)
    requires InSync(d)
    ensures InSync(DevDel(d, ev, ok1, ok2).0) <==> !Loses(d, ev, ok1, ok2)
  {
    hide ToldAll;
    if ev.fd < |d.fds| {
      var (e, done) := Queue(d, Remove(ev.fd), ok1);
      QueueTells(d, Remove(ev.fd), ok1);
      var again := Again(d.fds[ev.fd], ev);
      var t := DevDel(d, ev, ok1, ok2).0;
      if done && again.Some? {
        QueueTells(e, Join(ev.fd, again.value), ok2);
        assert ToldAll(t.kernel, t.changes)[ev.fd] ==
          if Loses(d, ev, ok1, ok2) then Mask(false, false) else again.value;
      }
    }
  }

  lemma {:induction false} DevDelHolds(d: Dev, ev: Ev, ok1: bool, ok2: bool, it: Interest)
    requires Shape(d) && Holds(d, it) && ev.fd < |d.fds| && Legal(it, Del(ev)) && Paired(it)
    ensures DevDel(d, ev, ok1, ok2).1 == 0 ==> Holds(DevDel(d, ev, ok1, ok2).0, Deleted(it, ev))
  {
    hide ToldAll;
    QueueTells(d, Remove(ev.fd), ok1);
    QueueTells(Queue(d, Remove(ev.fd), ok1).0, Join(ev.fd, Mask(true, false)), ok2);
    QueueTells(Queue(d, Remove(ev.fd), ok1).0, Join(ev.fd, Mask(false, true)), ok2);
    assert PairedAt(Reader(it, ev.fd), Writer(it, ev.fd), ev.fd);
  }

  /** An input for the exception: a one-place buffer, reader and writer on one descriptor, the second commit fails. */
  lemma {:induction false} LostWriter()
    ensures var r, w := Ev(1, 0, true, false), Ev(2, 0, false, true);
      var d := Dev([Slot(Some(r), Some(w))], [], 1, [Mask(true, true)]);
      InSync(d) && DevDel(d, r, true, false).1 == 0 && !InSync(DevDel(d, r, true, false).0)
  {
    var r, w := Ev(1, 0, true, false), Ev(2, 0, false, true);
    var d := Dev([Slot(Some(r), Some(w))], [], 1, [Mask(true, true)]);
    assert ToldAll(d.kernel, d.changes) == d.kernel;
    assert InSync(d);
    assert Loses(d, r, true, false);
    DevDelOk(d, r, true, false);
  }

  // ----- whole histories -----

  /**
    An operation, the results its commits would have, and whether a dispatch commits the log afterwards, with the
    result of that.
   */
  datatype Attempt = Attempt(op: Op, ok1: bool, ok2: bool, flush: bool, flushOk: bool)

  predicate Covered(hs: seq<Attempt>, nfds: nat) {
    forall i :: 0 <= i < |hs| ==> hs[i].op.ev.fd < nfds && (hs[i].op.ev.read || hs[i].op.ev.write)
  }

  function Tried(d: Dev, h: Attempt): (r: (Dev, int))
    requires h.op.ev.fd < |d.fds| == |d.kernel|
    ensures |r.0.fds| == |r.0.kernel| == |d.fds|
  {
    match h.op
    case Add(ev) => DevAdd(d, ev, h.ok1)
    case Del(ev) => DevDel(d, ev, h.ok1, h.ok2)
  }

  function Flushed(d: Dev, h: Attempt): (e: Dev)
    ensures |e.fds| == |d.fds| && |e.kernel| == |d.kernel|
  {
    if h.flush && h.flushOk then Commit(d) else d
  }

  function DevAfter(hs: seq<Attempt>, nfds: nat, nevents: nat): (d: Dev)
    requires Covered(hs, nfds)
    ensures |d.fds| == |d.kernel| == nfds
  {
    if hs == [] then Dev(seq(nfds, _ => Slot(None, None)), [], nevents, seq(nfds, _ => Mask(false, false)))
    else Flushed(Tried(DevAfter(hs[..|hs| - 1], nfds, nevents), hs[|hs| - 1]).0, hs[|hs| - 1])
  }

  /** The operations that returned zero. */
  function Succeeded(hs: seq<Attempt>, nfds: nat, nevents: nat): seq<Op>
    requires Covered(hs, nfds)
  {
    if hs == [] then []
    else
      var h, hs' := hs[|hs| - 1], hs[..|hs| - 1];
      Succeeded(hs', nfds, nevents) + if Tried(DevAfter(hs', nfds, nevents), h).1 == 0 then [h.op] else []
  }

  /** The last deletion on `fd` that returned zero lost what remained there. */
  predicate LostAt(hs: seq<Attempt>, nfds: nat, nevents: nat, fd: nat)
    requires Covered(hs, nfds)
  {
    if hs == [] then false
    else
      var h, hs' := hs[|hs| - 1], hs[..|hs| - 1];
      var d := DevAfter(hs', nfds, nevents);
      if h.op.Del? && h.op.ev.fd == fd && Tried(d, h).1 == 0 then Loses(d, h.op.ev, h.ok1, h.ok2)
      else LostAt(hs', nfds, nevents, fd)
  }

  ghost predicate NothingLost(hs: seq<Attempt>, nfds: nat, nevents: nat)
    requires Covered(hs, nfds)
  {
    forall fd :: 0 <= fd < nfds ==> !LostAt(hs, nfds, nevents, fd)
  }

  /** The kernel is told no more about `fd` than the table asks for, and less exactly if something is `lost`. */
  ghost predicate ToldAt(d: Dev, fd: nat, lost: bool)
    requires fd < |d.fds| == |d.kernel|
  {
    var told, bits := ToldAll(d.kernel, d.changes)[fd], Bits(d.fds[fd]);
    (told.pollin ==> bits.pollin) && (told.pollout ==> bits.pollout) && (lost <==> told != bits)
  }

  lemma {:induction false} FlushTells(d: Dev, h: Attempt)
    requires Shape(d)
    ensures var e := Flushed(d, h);
      Shape(e) && e.fds == d.fds && ToldAll(e.kernel, e.changes) == ToldAll(d.kernel, d.changes)
  {
  }

  /** A deletion that returns zero tells the kernel exactly what remains, unless it loses that. */
  lemma {:induction false} DelTells(d: Dev, ev: Ev, ok1: bool, ok2: bool)
    requires Shape(d) && ev.fd < |d.fds|
    ensures var (t, res) := DevDel(d, ev, ok1, ok2);
      && Shape(t) && (res != 0 ==> t == d)
      && (res == 0 ==>
          && |t.fds| == |d.fds| && (forall fd :: 0 <= fd < |d.fds| && fd != ev.fd ==> t.fds[fd] == d.fds[fd])
          && ToldAll(t.kernel, t.changes) ==
             ToldAll(d.kernel, d.changes)[ev.fd := if Loses(d, ev, ok1, ok2) then Mask(false, false)
               else Bits(t.fds[ev.fd])]
          && (Loses(d, ev, ok1, ok2) ==> Bits(t.fds[ev.fd]) != Mask(false, false)))
  {
    hide ToldAll;
    var (e, done) := Queue(d, Remove(ev.fd), ok1);
    QueueTells(d, Remove(ev.fd), ok1);
    var again := Again(d.fds[ev.fd], ev);
    if done && again.Some? { QueueTells(e, Join(ev.fd, again.value), ok2); }
  }

  lemma {:induction false} AddTells(d: Dev, ev: Ev, ok: bool)
    requires Shape(d) && ev.fd < |d.fds|
    ensures var (t, res) := DevAdd(d, ev, ok); var s := d.fds[ev.fd];
      && Shape(t) && (res != 0 ==> t == d)
      && (res == 0 ==>
          && t.fds == d.fds[ev.fd := Slot(if ev.read then Some(ev) else s.evread, if ev.write then Some(ev)
            else s.evwrite)]
          && ToldAll(t.kernel, t.changes) == Told(ToldAll(d.kernel, d.changes), Join(ev.fd, Mask(ev.read, ev.write))))
  {
    hide ToldAll, Queue, Told;
    QueueTells(d, Join(ev.fd, Mask(ev.read, ev.write)), ok);
  }

  /** A step keeps the table right, and a descriptor's telling as right as it was unless it deletes there. */
  lemma {:induction false} StepTracks(d: Dev, h: Attempt, it: Interest)
    requires Shape(d) && Holds(d, it) && h.op.ev.fd < |d.fds| && Paired(it)
    requires Tried(d, h).1 == 0 ==> Legal(it, h.op)
    ensures Shape(Tried(d, h).0) && Holds(Tried(d, h).0, if Tried(d, h).1 == 0 then Apply(it, h.op) else it)
  {
    hide Holds, Paired, Legal, DevAdd, DevDel, ToldAll;
    match h.op
    case Add(ev) =>
      AddTells(d, ev, h.ok1);
      if Tried(d, h).1 == 0 { DevAddHolds(d, ev, h.ok1, it); }
    case Del(ev) =>
      DelTells(d, ev, h.ok1, h.ok2);
      if Tried(d, h).1 == 0 { DevDelHolds(d, ev, h.ok1, h.ok2, it); }
  }

  lemma {:induction false} StepTells(d: Dev, h: Attempt, it: Interest, fd: nat, lost: bool)
    requires Shape(d) && Holds(d, it) && h.op.ev.fd < |d.fds| && fd < |d.fds| && ToldAt(d, fd, lost)
    requires Tried(d, h).1 == 0 ==> Legal(it, h.op)
    ensures var (t, res) := Tried(d, h);
      ToldAt(t, fd, if h.op.Del? && h.op.ev.fd == fd && res == 0 then Loses(d, h.op.ev, h.ok1, h.ok2) else lost)
  {
    hide DevAdd, DevDel, ToldAll, Loses;
    match h.op
    case Add(ev) => AddTells(d, ev, h.ok1);
    case Del(ev) => DelTells(d, ev, h.ok1, h.ok2);
  }

  lemma {:induction false} SyncIs(d: Dev, lost: set<nat>)
    requires Shape(d) && forall fd :: 0 <= fd < |d.fds| ==> ToldAt(d, fd, fd in lost)
    ensures InSync(d) <==> forall fd :: 0 <= fd < |d.fds| ==> fd !in lost
  {
    hide ToldAll, Bits;
    var told := ToldAll(d.kernel, d.changes);
    forall fd | 0 <= fd < |d.fds| ensures fd in lost <==> told[fd] != Bits(d.fds[fd]) {
      assert ToldAt(d, fd, fd in lost);
    }
  }

  lemma {:induction false} LostIs(hs: seq<Attempt>, nfds: nat, nevents: nat)
    requires Covered(hs, nfds) && Shape(DevAfter(hs, nfds, nevents))
    requires forall fd :: 0 <= fd < nfds ==> ToldAt(DevAfter(hs, nfds, nevents), fd, LostAt(hs, nfds, nevents, fd))
    ensures InSync(DevAfter(hs, nfds, nevents)) <==> NothingLost(hs, nfds, nevents)
  {
    hide ToldAt, InSync, Shape;
    var lost := set fd: nat | fd < nfds && LostAt(hs, nfds, nevents, fd);
    SyncIs(DevAfter(hs, nfds, nevents), lost);
    if forall fd :: 0 <= fd < nfds ==> fd !in lost {
      forall fd | 0 <= fd < nfds ensures !LostAt(hs, nfds, nevents, fd) { assert fd !in lost; }
    }
  }

  lemma {:induction false} NothingTold(nfds: nat, nevents: nat)
    requires nevents >= 1
    ensures var d := DevAfter([], nfds, nevents);
      Shape(d) && Holds(d, NOBODY) && InSync(d) && forall fd :: 0 <= fd < nfds ==> ToldAt(d, fd, false)
  {
  }

  lemma {:induction false} LegalBefore(hs: seq<Attempt>, nfds: nat, nevents: nat)
    requires Covered(hs, nfds) && hs != [] && AllLegal(Succeeded(hs, nfds, nevents))
    ensures var h, ops := hs[|hs| - 1], Succeeded(hs[..|hs| - 1], nfds, nevents);
      && AllLegal(ops)
      && (Tried(DevAfter(hs[..|hs| - 1], nfds, nevents), h).1 == 0 ==>
          Legal(InterestAfter(ops), h.op)
          && InterestAfter(Succeeded(hs, nfds, nevents)) == Apply(InterestAfter(ops), h.op))
      && (Tried(DevAfter(hs[..|hs| - 1], nfds, nevents), h).1 != 0 ==> Succeeded(hs, nfds, nevents) == ops)
  {
    hide Tried, Legal, Apply;
    var h, ops := hs[|hs| - 1], Succeeded(hs[..|hs| - 1], nfds, nevents);
    assert (ops + [h.op])[..|ops|] == ops;
    assert ops + [] == ops;
  }

  /**
    Whatever the buffer size, the commit points and the results of the commits: the table describes exactly the
    interest of the operations that returned zero; and table and log describe the same for a descriptor if and only
    if the last deletion there that returned zero did not lose what remained.
   */
  lemma {:induction false} DevTracks(hs: seq<Attempt>, nfds: nat, nevents: nat)
    requires Covered(hs, nfds) && nevents >= 1 && AllLegal(Succeeded(hs, nfds, nevents))
    ensures var d := DevAfter(hs, nfds, nevents);
      && Shape(d) && Holds(d, InterestAfter(Succeeded(hs, nfds, nevents)))
      && (forall fd :: 0 <= fd < nfds ==> ToldAt(d, fd, LostAt(hs, nfds, nevents, fd)))
      && (InSync(d) <==> NothingLost(hs, nfds, nevents))
  {
    hide Tried, Flushed, Loses;
    if hs == [] {
      NothingTold(nfds, nevents);
    } else {
      var h, hs' := hs[|hs| - 1], hs[..|hs| - 1];
      var d, it := DevAfter(hs', nfds, nevents), InterestAfter(Succeeded(hs', nfds, nevents));
      LegalBefore(hs, nfds, nevents);
      DevTracks(hs', nfds, nevents);
      LegalPaired(Succeeded(hs', nfds, nevents));
      StepTracks(d, h, it);
      var t := Tried(d, h).0;
      FlushTells(t, h);
      forall fd | 0 <= fd < nfds ensures ToldAt(Flushed(t, h), fd, LostAt(hs, nfds, nevents, fd)) {
        StepTells(d, h, it, fd, LostAt(hs', nfds, nevents, fd));
      }
      LostIs(hs, nfds, nevents);
    }
  }

  function Ops(hs: seq<Attempt>): seq<Op> {
    if hs == [] then [] else Ops(hs[..|hs| - 1]) + [hs[|hs| - 1].op]
  }

  lemma {:induction false} WrittenKeeps(hs: seq<Attempt>, nfds: nat, nevents: nat, fd: nat)
    requires Covered(hs, nfds) && forall i :: 0 <= i < |hs| ==> hs[i].ok1 && hs[i].ok2
    ensures !LostAt(hs, nfds, nevents, fd)
  {
    hide Tried, DevAfter;
    if hs != [] { WrittenKeeps(hs[..|hs| - 1], nfds, nevents, fd); }
  }

  lemma {:induction false} OpsLength(hs: seq<Attempt>)
    ensures |Ops(hs)| == |hs|
  {
    if hs != [] { OpsLength(hs[..|hs| - 1]); }
  }

  lemma {:induction false} TriedSucceeds(d: Dev, h: Attempt, it: Interest)
    requires Shape(d) && Holds(d, it) && h.op.ev.fd < |d.fds| && Legal(it, h.op) && h.ok1
    ensures Tried(d, h).1 == 0
  {
    hide ToldAll;
    match h.op
    case Add(ev) => DevAddHolds(d, ev, h.ok1, it);
    case Del(ev) =>
  }

  lemma {:induction false} WrittenSucceeds(hs: seq<Attempt>, nfds: nat, nevents: nat)
    requires Covered(hs, nfds) && nevents >= 1 && AllLegal(Ops(hs))
    requires forall i :: 0 <= i < |hs| ==> hs[i].ok1 && hs[i].ok2
    ensures Succeeded(hs, nfds, nevents) == Ops(hs)
  {
    if hs != [] {
      var h, hs' := hs[|hs| - 1], hs[..|hs| - 1];
      var d, it := DevAfter(hs', nfds, nevents), InterestAfter(Ops(hs'));
      assert Ops(hs)[..|hs'|] == Ops(hs') && Ops(hs)[|hs'|] == h.op by { OpsLength(hs'); }
      WrittenSucceeds(hs', nfds, nevents);
      DevTracks(hs', nfds, nevents);
      hide Ops, Succeeded, DevAfter, LostAt;
      TriedSucceeds(d, h, it);
    }
  }

  /** If every commit that an operation needs succeeds, every legal operation does, and nothing is ever lost. */
  lemma {:induction false} WrittenTracks(hs: seq<Attempt>, nfds: nat, nevents: nat)
    requires Covered(hs, nfds) && nevents >= 1 && AllLegal(Ops(hs))
    requires forall i :: 0 <= i < |hs| ==> hs[i].ok1 && hs[i].ok2
    ensures Succeeded(hs, nfds, nevents) == Ops(hs)
    ensures InSync(DevAfter(hs, nfds, nevents)) && Holds(DevAfter(hs, nfds, nevents), InterestAfter(Ops(hs)))
  {
    WrittenSucceeds(hs, nfds, nevents);
    DevTracks(hs, nfds, nevents);
    forall fd | 0 <= fd < nfds ensures !LostAt(hs, nfds, nevents, fd) { WrittenKeeps(hs, nfds, nevents, fd); }
  }

  /** `struct devpollop` */
  class DevPollOp {
    var fds: seq<Slot>
    var changes: array<Change>
    var nchanges: nat
    var kernel: seq<Mask>

    ghost function Value(): Dev
      reads this, changes
      requires nchanges <= changes.Length
    {
      Dev(fds, changes[..nchanges], changes.Length, kernel)
    }

    ghost predicate Valid()
      reads this, changes
    {
      nchanges <= changes.Length && Shape(Value())
    }

    constructor (nfds: nat, nevents: nat)
      requires nevents >= 1
      ensures Valid() && InSync(Value()) && fresh(changes)
      ensures Value() == Dev(seq(nfds, _ => Slot(None, None)), [], nevents, seq(nfds, _ => Mask(false, false)))
    {
      fds, kernel := seq(nfds, _ => Slot(None, None)), seq(nfds, _ => Mask(false, false));
      changes, nchanges := new Change[nevents](_ => Remove(0)), 0;
    }

    /** devpoll_commit: the kernel takes the changes in order. */
    method CommitChanges(ok: bool) returns (res: int)
      requires nchanges <= changes.Length
      modifies this`kernel, this`nchanges
      ensures nchanges <= changes.Length && res == if ok then 0 else -1
      ensures Value() == if ok then Commit(old(Value())) else old(Value())
    {
      if !ok {
        return -1;
      }
      var i := 0;
      while i < nchanges
        invariant 0 <= i <= nchanges == old(nchanges) && kernel == ToldAll(old(kernel), changes[..i])
      {
        assert changes[..i + 1][..i] == changes[..i];
        kernel := Told(kernel, changes[i]);
        i := i + 1;
      }
      nchanges := 0;
      return 0;
    }

    /** devpoll_queue */
    method QueueChange(c: Change, ok: bool) returns (res: int)
      requires nchanges <= changes.Length && changes.Length >= 1
      modifies this`kernel, this`nchanges, changes
      ensures nchanges <= changes.Length && (res == 0 || res == -1)
      ensures (Value(), res == 0) == Queue(old(Value()), c, ok)
    {
      hide ToldAll;
      if nchanges >= changes.Length {
        var r := CommitChanges(ok);
        if r != 0 {
          return -1;
        }
      }
      ghost var was := changes[..nchanges];
      changes[nchanges] := c;
      nchanges := nchanges + 1;
      assert changes[..nchanges] == was + [c];
      assert was == [] ==> was + [c] == [c];
      return 0;
    }

    /** devpoll_add */
    method AddEvent(ev: Ev, ok: bool) returns (res: int)
      requires Valid() && ev.fd < |fds|
      modifies this, changes
      ensures Valid() && changes == old(changes) && (Value(), res) == DevAdd(old(Value()), ev, ok)
      ensures old(InSync(Value())) ==> InSync(Value())
    {
      hide ToldAll, Queue;
      if InSync(Value()) { DevAddOk(Value(), ev, ok); }
      QueueTells(Value(), Join(ev.fd, Mask(ev.read, ev.write)), ok);
      var s := fds[ev.fd];
      if (ev.read && Taken(s.evread, ev)) || (ev.write && Taken(s.evwrite, ev)) {
        return -1;
      }
      var r := QueueChange(Join(ev.fd, Mask(ev.read, ev.write)), ok);
      if r != 0 {
        return -1;
      }
      fds := fds[ev.fd := Slot(if ev.read then Some(ev) else s.evread, if ev.write then Some(ev) else s.evwrite)];
      return 0;
    }

    /** devpoll_del */
    method DelEvent(ev: Ev, ok1: bool, ok2: bool) returns (res: int)
      requires Valid()
      modifies this, changes
      ensures Valid() && changes == old(changes) && (Value(), res) == DevDel(old(Value()), ev, ok1, ok2)
      ensures old(InSync(Value())) ==> (InSync(Value()) <==> !Loses(old(Value()), ev, ok1, ok2))
    {
      hide ToldAll, Queue, InSync;
      if InSync(Value()) { DevDelOk(Value(), ev, ok1, ok2); }
      if ev.fd >= |fds| {
        return 0;
      }
      var s := fds[ev.fd];
      QueueTells(Value(), Remove(ev.fd), ok1);
      var r := QueueChange(Remove(ev.fd), ok1);
      if r != 0 {
        return -1;
      }
      var needRead, needWrite := true, true;
      if !(ev.read && ev.write) {
        if ev.read && s.evwrite.Some? {
          QueueTells(Value(), Join(ev.fd, Mask(false, true)), ok2);
          var _ := QueueChange(Join(ev.fd, Mask(false, true)), ok2);
          needWrite := false;
        } else if ev.write && s.evread.Some? {
          QueueTells(Value(), Join(ev.fd, Mask(true, false)), ok2);
          var _ := QueueChange(Join(ev.fd, Mask(true, false)), ok2);
          needRead := false;
        }
      }
      fds := fds[ev.fd := Slot(if needRead then None else s.evread, if needWrite then None else s.evwrite)];
      return 0;
    }
  }

  /** One operation, and the commit of a dispatch if there is one. */
  method Try(op: DevPollOp, h: Attempt)
    requires op.Valid() && h.op.ev.fd < |op.fds|
    modifies op, op.changes
    ensures op.Valid() && op.changes == old(op.changes)
    ensures op.Value() == Flushed(Tried(old(op.Value()), h).0, h)
  {
    hide DevAdd, DevDel, InSync, ToldAll;
    match h.op {
      case Add(ev) => var _ := op.AddEvent(ev, h.ok1);
      case Del(ev) => var _ := op.DelEvent(ev, h.ok1, h.ok2);
    }
    if h.flush {
      var _ := op.CommitChanges(h.flushOk);
    }
  }

  /** A new object goes through a history. */
  method Replay(hs: seq<Attempt>, nfds: nat, nevents: nat) returns (op: DevPollOp)
    requires Covered(hs, nfds) && nevents >= 1
    ensures fresh(op) && fresh(op.changes) && op.Valid() && op.Value() == DevAfter(hs, nfds, nevents)
  {
    hide Flushed, Tried, InSync;
    op := new DevPollOp(nfds, nevents);
    assert hs[..0] == [];
    for i := 0 to |hs|
      invariant fresh(op) && fresh(op.changes) && op.Valid() && op.Value() == DevAfter(hs[..i], nfds, nevents)
    {
      assert hs[..i + 1][..i] == hs[..i] && hs[..i + 1][i] == hs[i];
      Try(op, hs[i]);
    }
    assert hs[..|hs|] == hs;
  }
}
