/** select.c: bit sets and arrays by descriptor; and that it does the same as poll.c. */
module SelectBackend {
  import opened Basics
  import opened Interest
  import P = PollBackend

  const NFDBITS := 64

  /** `struct selectop`: event_fds, the two sets it watches and the events by descriptor. */
  datatype Select = Select(fds: nat, readset: seq<bool>, writeset: seq<bool>, r: seq<Option<Ev>>, w: seq<Option<Ev>>)

  predicate Lengths(s: Select) {
    |s.readset| == |s.writeset| == |s.r| == |s.w| && s.fds < |s.r|
  }

  /** check_selectop for one descriptor; nothing is set above event_fds. */
  predicate FdOk(s: Select, fd: nat)
    requires Lengths(s) && fd < |s.r|
  {
    && (s.readset[fd] <==> s.r[fd].Some?) && (s.writeset[fd] <==> s.w[fd].Some?)
    && (s.r[fd].Some? ==> s.r[fd].value.read && s.r[fd].value.fd == fd)
    && (s.w[fd].Some? ==> s.w[fd].value.write && s.w[fd].value.fd == fd)
    && (fd > s.fds ==> s.r[fd].None? && s.w[fd].None?)
  }

  ghost predicate SelectOk(s: Select) {
    Lengths(s) && forall fd :: 0 <= fd < |s.r| ==> FdOk(s, fd)
  }

  function ReaderOf(s: Select, fd: nat): Option<Ev> {
    if fd < |s.r| then s.r[fd] else None
  }

  function WriterOf(s: Select, fd: nat): Option<Ev> {
    if fd < |s.w| then s.w[fd] else None
  }

  ghost predicate Holds(s: Select, it: Interest) {
    forall fd :: ReaderOf(s, fd) == Reader(it, fd) && WriterOf(s, fd) == Writer(it, fd)
  }

  // ----- select_add and select_del -----

  function Padded<T>(s: seq<T>, n: nat, x: T): (r: seq<T>)
    requires n >= |s|
    ensures |r| == n && forall i :: 0 <= i < n ==> r[i] == if i < |s| then s[i] else x
  {
    s + seq(n - |s|, _ => x)
  }

  /** select_resize to `words` words */
  function Resized(s: Select, n: nat): Select
    requires n >= |s.readset| && n >= |s.writeset| && n >= |s.r| && n >= |s.w|
  {
    s.(readset := Padded(s.readset, n, false), writeset := Padded(s.writeset, n, false), r := Padded(s.r, n, None),
      w := Padded(s.w, n, None))
  }

  /** The words of the sets, doubled until they cover `fd`. */
  function Words(words: nat, fd: nat): (n: nat)
    requires words > 0
    ensures n >= words && fd < n * NFDBITS
    decreases fd + 1 - words
  {
    if words < (fd + 1 + NFDBITS - 1) / NFDBITS then Words(2 * words, fd) else words
  }

  /** The sets large enough for `fd`, and event_fds raised to it. */
  function Reached(s: Select, fd: nat): Select
    requires Lengths(s)
  {
    if s.fds >= fd then s
    else
      var n := Words(if |s.r| < NFDBITS then 1 else |s.r| / NFDBITS, fd) * NFDBITS;
      (if n > |s.r| then Resized(s, n) else s).(fds := fd)
  }

  function Set(s: Select, ev: Ev): Select
    requires Lengths(s) && ev.fd < |s.r|
  {
    var s1 := if ev.read then s.(readset := s.readset[ev.fd := true], r := s.r[ev.fd := Some(ev)]) else s;
    if ev.write then s1.(writeset := s.writeset[ev.fd := true], w := s.w[ev.fd := Some(ev)]) else s1
  }

  lemma {:induction false} ReachedLengths(s: Select, fd: nat)
    requires Lengths(s) && |s.r| % NFDBITS == 0
    ensures Lengths(Reached(s, fd)) && fd < |Reached(s, fd).r| && fd <= Reached(s, fd).fds
    ensures |Reached(s, fd).r| % NFDBITS == 0
  {
  }

  lemma {:induction false} ReachedOk(s: Select, fd: nat)
    requires SelectOk(s) && |s.r| % NFDBITS == 0
    ensures SelectOk(Reached(s, fd))
    ensures forall k :: ReaderOf(Reached(s, fd), k) == ReaderOf(s, k) && WriterOf(Reached(s, fd), k) == WriterOf(s, k)
  {
    ReachedLengths(s, fd);
    var t := Reached(s, fd);
    forall k | 0 <= k < |t.r| ensures FdOk(t, k) {
      if k < |s.r| { assert FdOk(s, k); }
    }
  }

  /** select_add of an event that is not a signal. */
  function SelectAdd(s: Select, ev: Ev): Select
    requires Lengths(s) && |s.r| % NFDBITS == 0
  {
    ReachedLengths(s, ev.fd);
    Set(Reached(s, ev.fd), ev)
  }

  lemma {:induction false} SelectAddOk(s: Select, ev: Ev, it: Interest)
    requires SelectOk(s) && |s.r| % NFDBITS == 0 && Holds(s, it)
    ensures SelectOk(SelectAdd(s, ev)) && Holds(SelectAdd(s, ev), Added(it, ev)) && |SelectAdd(s, ev).r| % NFDBITS == 0
  {
    hide Reached;
    ReachedLengths(s, ev.fd);
    ReachedOk(s, ev.fd);
    var m, t := Reached(s, ev.fd), SelectAdd(s, ev);
    forall k | 0 <= k < |t.r| ensures FdOk(t, k) { assert FdOk(m, k); }
    forall fd: nat
      ensures ReaderOf(t, fd) == Reader(Added(it, ev), fd) && WriterOf(t, fd) == Writer(Added(it, ev), fd)
    {
      assert ReaderOf(m, fd) == ReaderOf(s, fd) == Reader(it, fd)
        && WriterOf(m, fd) == WriterOf(s, fd) == Writer(it, fd);
    }
  }

  /** select_del of an event that is not a signal. */
  function SelectDel(s: Select, ev: Ev): Select
    requires Lengths(s)
  {
    if s.fds < ev.fd then s
    else
      var s1 := if ev.read then s.(readset := s.readset[ev.fd := false], r := s.r[ev.fd := None]) else s;
      if ev.write then s1.(writeset := s.writeset[ev.fd := false], w := s.w[ev.fd := None]) else s1
  }

  lemma {:induction false} SelectDelOk(s: Select, ev: Ev, it: Interest)
    requires SelectOk(s) && Holds(s, it)
    ensures SelectOk(SelectDel(s, ev)) && Holds(SelectDel(s, ev), Deleted(it, ev)) && |SelectDel(s, ev).r| == |s.r|
  {
    var t := SelectDel(s, ev);
    forall k | 0 <= k < |t.r| ensures FdOk(t, k) { assert FdOk(s, k); }
    forall fd: nat
      ensures ReaderOf(t, fd) == Reader(Deleted(it, ev), fd) && WriterOf(t, fd) == Writer(Deleted(it, ev), fd)
    {
      assert ReaderOf(s, fd) == Reader(it, fd) && WriterOf(s, fd) == Writer(it, fd);
      if fd < |s.r| { assert FdOk(s, fd); }
    }
  }

  // ----- select_dispatch -----

  /** The body of the dispatch loop. */
  function WakeFd(k: Readiness, reading: bool, writing: bool, r: Option<Ev>, w: Option<Ev>): seq<Activation> {
    var read, write := reading && (k.readable || k.broken), writing && (k.writable || k.broken);
    Woken(if read then r else None, if write then w else None, read, write)
  }

  /** The pass over one descriptor; the kernel reports a broken one in every set that asks for it. */
  function Wake(s: Select, kernel: Kernel, fd: nat): seq<Activation>
    requires Lengths(s) && fd < |s.r|
  {
    WakeFd(kernel(fd), s.readset[fd], s.writeset[fd], s.r[fd], s.w[fd])
  }

  function WakeFrom(s: Select, kernel: Kernel, fd: nat): seq<Activation>
    requires Lengths(s) && fd <= s.fds + 1
    decreases s.fds + 1 - fd
  {
    if fd == s.fds + 1 then [] else Wake(s, kernel, fd) + WakeFrom(s, kernel, fd + 1)
  }

  lemma {:induction false} WakeFromIn(s: Select, kernel: Kernel, fd: nat, a: Activation)
    requires Lengths(s) && fd <= s.fds + 1
    ensures a in WakeFrom(s, kernel, fd) <==> exists k :: fd <= k <= s.fds && a in Wake(s, kernel, k)
    decreases s.fds + 1 - fd
  {
    hide Wake;
    if fd <= s.fds { WakeFromIn(s, kernel, fd + 1, a); }
  }

  lemma {:induction false} WakeTells(s: Select, it: Interest, kernel: Kernel, fd: nat, a: Activation)
    requires SelectOk(s) && Holds(s, it) && Paired(it) && fd <= s.fds
    ensures a in Wake(s, kernel, fd) <==> a.ev.fd == fd && Tells(it, kernel, a)
  {
    assert FdOk(s, fd);
    assert s.r[fd] == ReaderOf(s, fd) == Reader(it, fd) && s.w[fd] == WriterOf(s, fd) == Writer(it, fd);
    assert PairedAt(Reader(it, fd), Writer(it, fd), fd);
  }

  /** The dispatch of select activates exactly the events it owes, with exactly the results it owes. */
  lemma {:induction false} SelectTells(s: Select, it: Interest, kernel: Kernel, a: Activation)
    requires SelectOk(s) && Holds(s, it) && Paired(it)
    ensures a in WakeFrom(s, kernel, 0) <==> Tells(it, kernel, a)
  {
    hide Wake, WakeFrom, Paired;
    WakeFromIn(s, kernel, 0, a);
    forall fd | 0 <= fd <= s.fds ensures a in Wake(s, kernel, fd) <==> a.ev.fd == fd && Tells(it, kernel, a) {
      WakeTells(s, it, kernel, fd, a);
    }
    if Tells(it, kernel, a) {
      var fd := a.ev.fd;
      assert ReaderOf(s, fd) == Reader(it, fd) && WriterOf(s, fd) == Writer(it, fd);
      if fd < |s.r| { assert FdOk(s, fd); }
      assert a in Wake(s, kernel, fd);
    }
  }

  function Fresh(): Select {
    Select(0, seq(NFDBITS, _ => false), seq(NFDBITS, _ => false), seq(NFDBITS, _ => None), seq(NFDBITS, _ => None))
  }

  lemma {:induction false} FreshOk()
    ensures SelectOk(Fresh()) && Holds(Fresh(), NOBODY)
  {
  }

  lemma {:induction false} ResizedOk(s: Select, n: nat)
    requires SelectOk(s) && n >= |s.r|
    ensures SelectOk(Resized(s, n))
  {
    var t := Resized(s, n);
    forall k | 0 <= k < |t.r| ensures FdOk(t, k) {
      if k < |s.r| { assert FdOk(s, k); }
    }
  }

  lemma {:induction false} AddKeeps(s: Select, ev: Ev)
    requires SelectOk(s) && |s.r| % NFDBITS == 0
    ensures Lengths(Reached(s, ev.fd)) && SelectOk(SelectAdd(s, ev)) && ev.fd < |Reached(s, ev.fd).r|
    ensures |SelectAdd(s, ev).r| == |Reached(s, ev.fd).r|
  {
    hide Reached;
    ReachedLengths(s, ev.fd);
    ReachedOk(s, ev.fd);
    var m, t := Reached(s, ev.fd), SelectAdd(s, ev);
    forall k | 0 <= k < |t.r| ensures FdOk(t, k) { assert FdOk(m, k); }
  }

  lemma {:induction false} DelKeeps(s: Select, ev: Ev)
    requires SelectOk(s)
    ensures SelectOk(SelectDel(s, ev))
  {
    var t := SelectDel(s, ev);
    forall k | 0 <= k < |t.r| ensures FdOk(t, k) { assert FdOk(s, k); }
  }

  /** `struct selectop` */
  class SelectOp {
    var eventFds: nat
    /** The number of words of each set. */
    var words: nat
    var readset: seq<bool>
    var writeset: seq<bool>
    var rByFd: seq<Option<Ev>>
    var wByFd: seq<Option<Ev>>

    ghost function Value(): Select
      reads this
    {
      Select(eventFds, readset, writeset, rByFd, wByFd)
    }

    ghost predicate Valid()
      reads this
    {
      SelectOk(Value()) && words > 0 && |rByFd| == words * NFDBITS
    }

    /** select_init */
    constructor ()
      ensures Valid() && Value() == Fresh()
    {
      eventFds, words := 0, 1;
      readset, writeset := seq(NFDBITS, _ => false), seq(NFDBITS, _ => false);
      rByFd, wByFd := seq(NFDBITS, _ => None), seq(NFDBITS, _ => None);
      FreshOk();
    }

    /** select_resize; `memory` says whether the reallocations succeed. */
    method Resize(n: nat, memory: bool) returns (res: int)
      requires Valid() && n >= words
      modifies this
      ensures Valid() && res == (if memory then 0 else -1)
      ensures Value() == if res == 0 then Resized(old(Value()), n * NFDBITS) else old(Value())
      ensures words == if res == 0 then n else old(words)
    {
      hide FdOk;
      if !memory {
        return -1;
      }
      ResizedOk(Value(), n * NFDBITS);
      readset, writeset := Padded(readset, n * NFDBITS, false), Padded(writeset, n * NFDBITS, false);
      rByFd, wByFd := Padded(rByFd, n * NFDBITS, None), Padded(wByFd, n * NFDBITS, None);
      words := n;
      return 0;
    }

    /** The start of select_add: sets large enough for `fd`. */
    method Reach(fd: nat, memory: bool) returns (res: int)
      requires Valid()
      modifies this
      ensures words > 0 && |rByFd| == words * NFDBITS && (res == 0 || (res == -1 && !memory))
      ensures Value() == if res == 0 then Reached(old(Value()), fd) else old(Value())
    {
      hide FdOk, Resized;
      if eventFds < fd {
        var fdsz := words;
        while fdsz < (fd + 1 + NFDBITS - 1) / NFDBITS
          invariant fdsz >= words && Words(fdsz, fd) == Words(words, fd)
          modifies {}
          decreases fd + 1 - fdsz
        {
          fdsz := fdsz * 2;
        }
        if fdsz != words {
          var r := Resize(fdsz, memory);
          if r != 0 {
            return -1;
          }
        }
        eventFds := fd;
      }
      return 0;
    }

    /** select_add */
    method Add(ev: Ev, memory: bool) returns (res: int)
      requires Valid()
      modifies this
      ensures Valid() && (res == 0 || (res == -1 && !memory))
      ensures Value() == if res == 0 then SelectAdd(old(Value()), ev) else old(Value())
    {
      hide FdOk, Reached;
      AddKeeps(Value(), ev);
      res := Reach(ev.fd, memory);
      if res != 0 {
        return;
      }
      if ev.read {
        readset, rByFd := readset[ev.fd := true], rByFd[ev.fd := Some(ev)];
      }
      if ev.write {
        writeset, wByFd := writeset[ev.fd := true], wByFd[ev.fd := Some(ev)];
      }
      return 0;
    }

    /** select_del */
    method Del(ev: Ev)
      requires Valid()
      modifies this
      ensures Valid() && Value() == SelectDel(old(Value()), ev)
    {
      hide FdOk;
      DelKeeps(Value(), ev);
      if eventFds < ev.fd {
        return;
      }
      if ev.read {
        readset, rByFd := readset[ev.fd := false], rByFd[ev.fd := None];
      }
      if ev.write {
        writeset, wByFd := writeset[ev.fd := false], wByFd[ev.fd := None];
      }
    }

    /** select_dispatch after a successful select. */
    method Dispatch(kernel: Kernel) returns (woken: seq<Activation>)
      requires Valid()
      ensures woken == WakeFrom(Value(), kernel, 0)
      ensures forall it :: Holds(Value(), it) && Paired(it) ==> forall a :: a in woken <==> Tells(it, kernel, a)
    {
      hide FdOk, WakeFd, Holds, Paired, Tells;
      woken := [];
      var i := 0;
      while i <= eventFds
        invariant 0 <= i <= eventFds + 1
        invariant WakeFrom(Value(), kernel, 0) == woken + WakeFrom(Value(), kernel, i)
      {
        woken := woken + WakeFd(kernel(i), readset[i], writeset[i], rByFd[i], wByFd[i]);
        i := i + 1;
      }
      forall it, a | Holds(Value(), it) && Paired(it) ensures a in woken <==> Tells(it, kernel, a) {
        SelectTells(Value(), it, kernel, a);
      }
    }
  }

  // ----- both backends over equal histories -----

  function SelectAfter(ops: seq<Op>): (s: Select)
    ensures Lengths(s) && |s.r| % NFDBITS == 0
  {
    if ops == [] then Fresh()
    else
      var s := SelectAfter(ops[..|ops| - 1]);
      ReachedLengths(s, ops[|ops| - 1].ev.fd);
      match ops[|ops| - 1]
      case Add(ev) => SelectAdd(s, ev)
      case Del(ev) => SelectDel(s, ev)
  }

  function PollAfter(ops: seq<Op>): P.Poll {
    if ops == [] then P.Poll([], [], [], [])
    else
      var p := PollAfter(ops[..|ops| - 1]);
      match ops[|ops| - 1]
      case Add(ev) => P.PollAdd(p, ev)
      case Del(ev) => P.PollDel(p, ev).0
  }

  lemma {:induction false} PollFreshOk()
    ensures P.PollOk(P.Poll([], [], [], [])) && P.Holds(P.Poll([], [], [], []), NOBODY)
  {
  }

  /** Both hold exactly the interest the history describes, whatever the history. */
  lemma {:induction false} BothHold(ops: seq<Op>)
    ensures SelectOk(SelectAfter(ops)) && Holds(SelectAfter(ops), InterestAfter(ops))
    ensures P.PollOk(PollAfter(ops)) && P.Holds(PollAfter(ops), InterestAfter(ops))
  {
    hide SelectOk, Holds, P.PollOk, P.Holds, SelectAdd, SelectDel, P.PollAdd, P.PollDel;
    if ops == [] {
      FreshOk();
      PollFreshOk();
    } else {
      var h, op := ops[..|ops| - 1], ops[|ops| - 1];
      BothHold(h);
      match op
      case Add(ev) =>
        SelectAddOk(SelectAfter(h), ev, InterestAfter(h));
        P.PollAddOk(PollAfter(h), ev, InterestAfter(h));
      case Del(ev) =>
        SelectDelOk(SelectAfter(h), ev, InterestAfter(h));
        P.PollDelOk(PollAfter(h), ev, InterestAfter(h));
    }
  }

  /** After any legal history both dispatchers activate exactly what the interest and the kernel say. */
  lemma {:induction false} DispatchTells(ops: seq<Op>, kernel: Kernel, a: Activation)
    requires AllLegal(ops)
    ensures P.PollOk(PollAfter(ops))
    ensures a in P.WakeFrom(PollAfter(ops), kernel, 0) <==> Tells(InterestAfter(ops), kernel, a)
    ensures a in WakeFrom(SelectAfter(ops), kernel, 0) <==> Tells(InterestAfter(ops), kernel, a)
  {
    hide P.WakeFrom, WakeFrom, SelectAfter, PollAfter, Holds, P.Holds, Tells, SelectOk, P.PollOk, Paired;
    BothHold(ops);
    LegalPaired(ops);
    P.PollTells(PollAfter(ops), InterestAfter(ops), kernel, a);
    SelectTells(SelectAfter(ops), InterestAfter(ops), kernel, a);
  }

  /** The entry of a descriptor and the descriptor itself wake the same events in the same way. */
  lemma {:induction false} SameWake(s: Select, p: P.Poll, it: Interest, kernel: Kernel, fd: nat)
    requires SelectOk(s) && P.PollOk(p) && Holds(s, it) && P.Holds(p, it)
    requires PairedAt(Reader(it, fd), Writer(it, fd), fd)
    requires fd < |s.r| && 0 < P.Slot(p, fd)
    ensures P.Slot(p, fd) <= |p.set_| && P.Wake(p, kernel, P.Slot(p, fd) - 1) == Wake(s, kernel, fd)
  {
    var i := P.Slot(p, fd) - 1;
    assert P.IndexOk(p, fd);
    assert P.EntryOk(p, i);
    assert FdOk(s, fd);
    assert P.ReaderOf(p, fd) == Reader(it, fd) == ReaderOf(s, fd);
    assert P.WriterOf(p, fd) == Writer(it, fd) == WriterOf(s, fd);
  }

  /** A descriptor without an entry wakes nobody, and one with an entry is within reach of select. */
  lemma {:induction false} OnlyEntries(s: Select, p: P.Poll, it: Interest, kernel: Kernel, fd: nat)
    requires SelectOk(s) && P.PollOk(p) && Holds(s, it) && P.Holds(p, it)
    ensures fd < |s.r| && P.Slot(p, fd) == 0 ==> Wake(s, kernel, fd) == []
    ensures P.Slot(p, fd) > 0 ==> fd <= s.fds
  {
    assert P.ReaderOf(p, fd) == Reader(it, fd) == ReaderOf(s, fd);
    assert P.WriterOf(p, fd) == Writer(it, fd) == WriterOf(s, fd);
    if fd < |s.r| { assert FdOk(s, fd); }
    if P.Slot(p, fd) > 0 {
      assert P.IndexOk(p, fd);
      assert P.EntryOk(p, P.Slot(p, fd) - 1);
    }
  }

  // ----- both wake the same events, each once -----

  /** How often the activation occurs. */
  function Occurs(s: seq<Activation>, a: Activation): nat {
    multiset(s)[a]
  }

  lemma {:induction false} OccursConcat(s: seq<Activation>, t: seq<Activation>, a: Activation)
    ensures Occurs(s + t, a) == Occurs(s, a) + Occurs(t, a)
    ensures Occurs(s, a) > 0 <==> a in s
  {
    assert multiset(s + t) == multiset(s) + multiset(t);
  }

  /** If only entry `k` wakes the event, the dispatch of poll wakes it as often as that entry. */
  lemma {:induction false} PollOccurs(p: P.Poll, kernel: Kernel, i: nat, k: nat, a: Activation)
    requires i <= |p.set_| == |p.r| == |p.w| && i <= k <= |p.set_|
    requires forall j :: i <= j < |p.set_| && j != k ==> a !in P.Wake(p, kernel, j)
    ensures Occurs(P.WakeFrom(p, kernel, i), a) == if k < |p.set_| then Occurs(P.Wake(p, kernel, k), a) else 0
    decreases |p.set_| - i
  {
    hide P.Wake, Occurs;
    if i < |p.set_| {
      OccursConcat(P.Wake(p, kernel, i), P.WakeFrom(p, kernel, i + 1), a);
      if i == k {
        PollOccurs(p, kernel, i + 1, |p.set_|, a);
      } else {
        PollOccurs(p, kernel, i + 1, k, a);
      }
    } else {
      OccursConcat([], [], a);
    }
  }

  /** If only descriptor `k` wakes the event, the dispatch of select wakes it as often as that descriptor. */
  lemma {:induction false} SelectOccurs(s: Select, kernel: Kernel, i: nat, k: nat, a: Activation)
    requires Lengths(s) && i <= s.fds + 1 && i <= k <= s.fds + 1
    requires forall j :: i <= j <= s.fds && j != k ==> a !in Wake(s, kernel, j)
    ensures Occurs(WakeFrom(s, kernel, i), a) == if k <= s.fds then Occurs(Wake(s, kernel, k), a) else 0
    decreases s.fds + 1 - i
  {
    hide Wake, Occurs;
    if i <= s.fds {
      OccursConcat(Wake(s, kernel, i), WakeFrom(s, kernel, i + 1), a);
      if i == k {
        SelectOccurs(s, kernel, i + 1, s.fds + 1, a);
      } else {
        SelectOccurs(s, kernel, i + 1, k, a);
      }
    } else {
      OccursConcat([], [], a);
    }
  }

  /** An entry and a descriptor wake only events of their own descriptor, each at most once. */
  lemma {:induction false} WakesOwn(s: Select, p: P.Poll, kernel: Kernel, a: Activation)
    requires SelectOk(s) && P.PollOk(p)
    ensures forall fd :: 0 <= fd < |s.r| && a in Wake(s, kernel, fd) ==> fd == a.ev.fd
    ensures forall i :: 0 <= i < |p.set_| && a in P.Wake(p, kernel, i) ==>
      p.set_[i].fd == a.ev.fd && i + 1 == P.Slot(p, a.ev.fd)
    ensures forall fd :: 0 <= fd < |s.r| ==> Occurs(Wake(s, kernel, fd), a) <= 1
  {
    forall fd | 0 <= fd < |s.r|
      ensures Occurs(Wake(s, kernel, fd), a) <= 1 && (a in Wake(s, kernel, fd) ==> fd == a.ev.fd)
    {
      assert FdOk(s, fd);
    }
    forall i | 0 <= i < |p.set_| && a in P.Wake(p, kernel, i)
      ensures p.set_[i].fd == a.ev.fd && i + 1 == P.Slot(p, a.ev.fd)
    {
      assert P.EntryOk(p, i);
    }
  }

  lemma {:induction false} MultisetIs(s: seq<Activation>, t: seq<Activation>)
    requires forall a :: Occurs(s, a) == Occurs(t, a)
    ensures multiset(s) == multiset(t)
  {
    forall a: Activation ensures multiset(s)[a] == multiset(t)[a] { assert Occurs(s, a) == Occurs(t, a); }
  }

  lemma {:induction false} SameOccurs(ops: seq<Op>, kernel: Kernel, a: Activation)
    requires AllLegal(ops)
    ensures P.PollOk(PollAfter(ops))
    ensures Occurs(P.WakeFrom(PollAfter(ops), kernel, 0), a) == Occurs(WakeFrom(SelectAfter(ops), kernel, 0), a) <= 1
  {
    hide Wake, P.Wake, SelectAfter, PollAfter, Holds, P.Holds, Occurs, P.WakeFrom, WakeFrom;
    BothHold(ops);
    LegalPaired(ops);
    var s, p, it, fd := SelectAfter(ops), PollAfter(ops), InterestAfter(ops), a.ev.fd;
    WakesOwn(s, p, kernel, a);
    OnlyEntries(s, p, it, kernel, fd);
    if P.Slot(p, fd) > 0 {
      assert PairedAt(Reader(it, fd), Writer(it, fd), fd);
      SameWake(s, p, it, kernel, fd);
      PollOccurs(p, kernel, 0, P.Slot(p, fd) - 1, a);
      SelectOccurs(s, kernel, 0, fd, a);
    } else {
      PollOccurs(p, kernel, 0, |p.set_|, a);
      SelectOccurs(s, kernel, 0, s.fds + 1, a);
    }
  }

  /**
    For equal legal histories and equal readiness, poll and select activate the same events with the same results,
    each once.
   */
  lemma {:induction false} SameDispatch(ops: seq<Op>, kernel: Kernel)
    requires AllLegal(ops)
    ensures P.PollOk(PollAfter(ops))
    ensures multiset(P.WakeFrom(PollAfter(ops), kernel, 0)) == multiset(WakeFrom(SelectAfter(ops), kernel, 0))
    ensures forall a :: Occurs(WakeFrom(SelectAfter(ops), kernel, 0), a) <= 1
  {
    hide P.WakeFrom, WakeFrom, SelectAfter, PollAfter, Occurs;
    BothHold(ops);
    forall a: Activation
      ensures Occurs(P.WakeFrom(PollAfter(ops), kernel, 0), a) == Occurs(WakeFrom(SelectAfter(ops), kernel, 0), a) <= 1
    {
      SameOccurs(ops, kernel, a);
    }
    MultisetIs(P.WakeFrom(PollAfter(ops), kernel, 0), WakeFrom(SelectAfter(ops), kernel, 0));
  }
}
