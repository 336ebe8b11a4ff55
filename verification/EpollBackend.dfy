/** epoll.c: a table by descriptor, and the kernel's registration changed with every call. */
module EpollBackend {
  import opened Basics
  import opened Interest

  datatype Mask = Mask(epollin: bool, epollout: bool)

  /** `struct evepoll` */
  datatype Slot = Slot(evread: Option<Ev>, evwrite: Option<Ev>)

  datatype Ctl = CtlAdd | CtlMod | CtlDel

  /** `struct epollop` and the masks the kernel has registered. */
  datatype Epoll = Epoll(fds: seq<Slot>, kernel: seq<Option<Mask>>)

  /** What epoll_ctl accepts. */
  predicate LegalCtl(kernel: seq<Option<Mask>>, op: Ctl, fd: nat)
    requires fd < |kernel|
  {
    op.CtlAdd? <==> kernel[fd].None?
  }

  function Changed(kernel: seq<Option<Mask>>, op: Ctl, fd: nat, mask: Mask): seq<Option<Mask>>
    requires fd < |kernel|
  {
    if !LegalCtl(kernel, op, fd) then kernel else kernel[fd := if op.CtlDel? then None else Some(mask)]
  }

  /** The registration a slot stands for. */
  function Registered(s: Slot): Option<Mask> {
    if s.evread.None? && s.evwrite.None? then None else Some(Mask(s.evread.Some?, s.evwrite.Some?))
  }

  ghost predicate InSync(e: Epoll) {
    |e.kernel| == |e.fds| && forall fd :: 0 <= fd < |e.fds| ==> e.kernel[fd] == Registered(e.fds[fd])
  }

  ghost predicate Holds(e: Epoll, it: Interest) {
    forall fd :: 0 <= fd < |e.fds| ==> e.fds[fd] == Slot(Reader(it, fd), Writer(it, fd))
  }

  // ----- epoll_add -----

  function AddCtl(s: Slot, ev: Ev): (Ctl, Mask) {
    (if s.evread.Some? || s.evwrite.Some? then CtlMod else CtlAdd,
     Mask(s.evread.Some? || ev.read, s.evwrite.Some? || ev.write))
  }

  /** epoll_add of a descriptor the table covers; `ok` says whether the kernel has the resources. */
  function EpollAdd(e: Epoll, ev: Ev, ok: bool): (Epoll, int)
    requires ev.fd < |e.fds| == |e.kernel|
  {
    var s := e.fds[ev.fd];
    var (op, mask) := AddCtl(s, ev);
    if !ok || !LegalCtl(e.kernel, op, ev.fd) then (e, -1)
    else (Epoll(e.fds[ev.fd := Slot(if ev.read then Some(ev) else s.evread, if ev.write then Some(ev) else s.evwrite)],
                Changed(e.kernel, op, ev.fd, mask)), 0)
  }

  /**
    The operation chosen is always legal, so an add fails only for want of resources; afterwards table and kernel
    agree.
   */
  lemma {:induction false} EpollAddOk(e: Epoll, ev: Ev, ok: bool)
    requires InSync(e) && ev.fd < |e.fds| && (ev.read || ev.write)
    ensures LegalCtl(e.kernel, AddCtl(e.fds[ev.fd], ev).0, ev.fd)
    ensures EpollAdd(e, ev, ok).1 == 0 <==> ok
    ensures InSync(EpollAdd(e, ev, ok).0)
  {
  }

  lemma {:induction false} EpollAddHolds(e: Epoll, ev: Ev, it: Interest)
    requires InSync(e) && Holds(e, it) && ev.fd < |e.fds| && (ev.read || ev.write)
    ensures Holds(EpollAdd(e, ev, true).0, Added(it, ev))
  {
  }

  // ----- epoll_del -----

  function DelCtl(s: Slot, ev: Ev): (Ctl, Mask, Slot) {
    if ev.read && !ev.write && s.evwrite.Some? then (CtlMod, Mask(false, true), Slot(None, s.evwrite))
    else if ev.write && !ev.read && s.evread.Some? then (CtlMod, Mask(true, false), Slot(s.evread, None))
    else (CtlDel, Mask(ev.read, ev.write), Slot(None, None))
  }

  /** epoll_del; the table changes before the kernel is asked, and `ok` says whether the kernel can do it. */
  function EpollDel(e: Epoll, ev: Ev, ok: bool): (Epoll, int)
    requires |e.fds| == |e.kernel|
  {
    if ev.fd >= |e.fds| then (e, 0)
    else
      var (op, mask, s) := DelCtl(e.fds[ev.fd], ev);
      var done := ok && LegalCtl(e.kernel, op, ev.fd);
      (Epoll(e.fds[ev.fd := s], if done then Changed(e.kernel, op, ev.fd, mask) else e.kernel), if done then 0 else -1)
  }

  /**
    The operation chosen is legal exactly if somebody waits for the descriptor. Table and kernel agree afterwards
    unless the kernel fails where the slot changes.
   */
  lemma {:induction false} EpollDelOk(e: Epoll, ev: Ev, ok: bool)
    requires InSync(e) && ev.fd < |e.fds|
    ensures LegalCtl(e.kernel, DelCtl(e.fds[ev.fd], ev).0, ev.fd) <==> e.fds[ev.fd] != Slot(None, None)
    ensures EpollDel(e, ev, ok).1 == 0 <==> ok && e.fds[ev.fd] != Slot(None, None)
    ensures InSync(EpollDel(e, ev, ok).0) <==> ok || DelCtl(e.fds[ev.fd], ev).2 == e.fds[ev.fd]
  {
    var t := EpollDel(e, ev, ok).0;
    if !ok && DelCtl(e.fds[ev.fd], ev).2 != e.fds[ev.fd] {
      assert t.kernel[ev.fd] == Registered(e.fds[ev.fd]) != Registered(t.fds[ev.fd]);
    }
  }

  /** Deleting a registered event leaves exactly the others. */
  lemma {:induction false} EpollDelHolds(e: Epoll, ev: Ev, it: Interest)
    requires InSync(e) && Holds(e, it) && ev.fd < |e.fds| && Legal(it, Del(ev)) && Paired(it)
    ensures EpollDel(e, ev, true).1 == 0 && Holds(EpollDel(e, ev, true).0, Deleted(it, ev))
  {
    assert PairedAt(Reader(it, ev.fd), Writer(it, ev.fd), ev.fd);
  }

  // ----- whole histories -----

  predicate Within(ops: seq<Op>, nfds: nat) {
    forall i :: 0 <= i < |ops| ==> ops[i].ev.fd < nfds && (ops[i].ev.read || ops[i].ev.write)
  }

  function EpollAfter(ops: seq<Op>, nfds: nat): (e: Epoll)
    requires Within(ops, nfds)
    ensures |e.fds| == |e.kernel| == nfds
  {
    if ops == [] then Epoll(seq(nfds, _ => Slot(None, None)), seq(nfds, _ => None))
    else
      var e := EpollAfter(ops[..|ops| - 1], nfds);
      match ops[|ops| - 1]
      case Add(ev) => EpollAdd(e, ev, true).0
      case Del(ev) => EpollDel(e, ev, true).0
  }

  /** Over every legal history the table is the interest and the kernel's masks are the table's. */
  lemma {:induction false} EpollTracks(ops: seq<Op>, nfds: nat)
    requires Within(ops, nfds) && AllLegal(ops)
    ensures InSync(EpollAfter(ops, nfds)) && Holds(EpollAfter(ops, nfds), InterestAfter(ops))
  {
    if ops != [] {
      hide EpollAdd, EpollDel, InSync, Holds, Paired;
      var h, op := ops[..|ops| - 1], ops[|ops| - 1];
      EpollTracks(h, nfds);
      LegalPaired(h);
      var e := EpollAfter(h, nfds);
      match op
      case Add(ev) =>
        EpollAddOk(e, ev, true);
        EpollAddHolds(e, ev, InterestAfter(h));
      case Del(ev) =>
        EpollDelOk(e, ev, true);
        EpollDelHolds(e, ev, InterestAfter(h));
    }
  }

  /** `struct epollop` */
  class EpollOp {
    var fds: seq<Slot>
    var kernel: seq<Option<Mask>>

    ghost function Value(): Epoll
      reads this
    {
      Epoll(fds, kernel)
    }

    ghost predicate Valid()
      reads this
    {
      InSync(Value())
    }

    constructor (nfds: nat)
      ensures Valid() && |fds| == nfds && Holds(Value(), NOBODY)
    {
      fds, kernel := seq(nfds, _ => Slot(None, None)), seq(nfds, _ => None);
    }

    /** epoll_ctl; `ok` says whether the kernel has the resources. */
    method Control(op: Ctl, fd: nat, mask: Mask, ok: bool) returns (res: int)
      requires fd < |kernel|
      modifies this`kernel
      ensures res == if ok && LegalCtl(old(kernel), op, fd) then 0 else -1
      ensures kernel == if res == 0 then Changed(old(kernel), op, fd, mask) else old(kernel)
    {
      if !ok || (op.CtlAdd? && kernel[fd].Some?) || (!op.CtlAdd? && kernel[fd].None?) {
        return -1;
      }
      kernel := kernel[fd := if op.CtlDel? then None else Some(mask)];
      return 0;
    }

    /** epoll_add */
    method AddEvent(ev: Ev, ok: bool) returns (res: int)
      requires Valid() && ev.fd < |fds| && (ev.read || ev.write)
      modifies this
      ensures Valid() && (Value(), res) == EpollAdd(old(Value()), ev, ok)
    {
      EpollAddOk(Value(), ev, ok);
      var s, op, events := fds[ev.fd], CtlAdd, Mask(false, false);
      if s.evread.Some? {
        events, op := events.(epollin := true), CtlMod;
      }
      if s.evwrite.Some? {
        events, op := events.(epollout := true), CtlMod;
      }
      if ev.read {
        events := events.(epollin := true);
      }
      if ev.write {
        events := events.(epollout := true);
      }
      var r := Control(op, ev.fd, events, ok);
      if r == -1 {
        return -1;
      }
      fds := fds[ev.fd := Slot(if ev.read then Some(ev) else s.evread, if ev.write then Some(ev) else s.evwrite)];
      return 0;
    }

    /** epoll_del */
    method DelEvent(ev: Ev, ok: bool) returns (res: int)
      requires Valid()
      modifies this
      ensures (Value(), res) == EpollDel(old(Value()), ev, ok)
      ensures Valid() <==> ok || ev.fd >= |old(fds)| || DelCtl(old(fds)[ev.fd], ev).2 == old(fds)[ev.fd]
    {
      if ev.fd >= |fds| {
        return 0;
      }
      EpollDelOk(Value(), ev, ok);
      var s, op, events, needRead, needWrite := fds[ev.fd], CtlDel, Mask(ev.read, ev.write), true, true;
      if !(ev.read && ev.write) {
        if ev.read && s.evwrite.Some? {
          needWrite, events, op := false, Mask(false, true), CtlMod;
        } else if ev.write && s.evread.Some? {
          needRead, events, op := false, Mask(true, false), CtlMod;
        }
      }
      fds := fds[ev.fd := Slot(if needRead then None else s.evread, if needWrite then None else s.evwrite)];
      res := Control(op, ev.fd, events, ok);
    }
  }
}
