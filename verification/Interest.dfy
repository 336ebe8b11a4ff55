/** What every backend implements: for each descriptor, who wants to read and who wants to write. */
module Interest {
  import opened Basics

  /** The part of `struct event` a backend looks at. */
  datatype Ev = Ev(id: nat, fd: nat, read: bool, write: bool)

  datatype Interest = Interest(readers: map<nat, Ev>, writers: map<nat, Ev>)

  const NOBODY := Interest(map[], map[])

  function Reader(it: Interest, fd: nat): Option<Ev> {
    if fd in it.readers then Some(it.readers[fd]) else None
  }

  function Writer(it: Interest, fd: nat): Option<Ev> {
    if fd in it.writers then Some(it.writers[fd]) else None
  }

  function Added(it: Interest, ev: Ev): Interest {
    Interest(if ev.read then it.readers[ev.fd := ev] else it.readers,
             if ev.write then it.writers[ev.fd := ev] else it.writers)
  }

  function Deleted(it: Interest, ev: Ev): Interest {
    Interest(if ev.read then it.readers - {ev.fd} else it.readers,
             if ev.write then it.writers - {ev.fd} else it.writers)
  }

  /** Deletion where the event gives up only the places it holds itself. */
  function Withdrawn(it: Interest, ev: Ev): Interest {
    Interest(if Reader(it, ev.fd) == Some(ev) then it.readers - {ev.fd} else it.readers,
             if Writer(it, ev.fd) == Some(ev) then it.writers - {ev.fd} else it.writers)
  }

  // ----- histories in which each descriptor has at most one reader and one writer -----

  datatype Op = Add(ev: Ev) | Del(ev: Ev)

  predicate Legal(it: Interest, op: Op) {
    match op
    case Add(ev) => (ev.read ==> Reader(it, ev.fd).None?) && (ev.write ==> Writer(it, ev.fd).None?)
    case Del(ev) =>
      && (ev.read ==> Reader(it, ev.fd) == Some(ev)) && (ev.write ==> Writer(it, ev.fd) == Some(ev))
      && (ev.read || ev.write)
  }

  function Apply(it: Interest, op: Op): Interest {
    match op
    case Add(ev) => Added(it, ev)
    case Del(ev) => Deleted(it, ev)
  }

  function InterestAfter(ops: seq<Op>): Interest {
    if ops == [] then NOBODY else Apply(InterestAfter(ops[..|ops| - 1]), ops[|ops| - 1])
  }

  predicate AllLegal(ops: seq<Op>) {
    ops == [] || (AllLegal(ops[..|ops| - 1]) && Legal(InterestAfter(ops[..|ops| - 1]), ops[|ops| - 1]))
  }

  predicate PairedAt(r: Option<Ev>, w: Option<Ev>, fd: nat) {
    && (r.Some? ==> r.value.fd == fd && r.value.read && (r.value.write ==> w == r))
    && (w.Some? ==> w.value.fd == fd && w.value.write && (w.value.read ==> r == w))
  }

  /** An event that wants both stands in both places. */
  ghost predicate Paired(it: Interest) {
    forall fd :: PairedAt(Reader(it, fd), Writer(it, fd), fd)
  }

  lemma {:induction false} LegalPaired(ops: seq<Op>)
    requires AllLegal(ops)
    ensures Paired(InterestAfter(ops))
  {
    if ops != [] {
      var it, op := InterestAfter(ops[..|ops| - 1]), ops[|ops| - 1];
      LegalPaired(ops[..|ops| - 1]);
      forall fd ensures PairedAt(Reader(Apply(it, op), fd), Writer(Apply(it, op), fd), fd) {
        assert PairedAt(Reader(it, fd), Writer(it, fd), fd);
        assert PairedAt(Reader(it, op.ev.fd), Writer(it, op.ev.fd), op.ev.fd);
      }
    }
  }

  /** For a registered event both kinds of deletion are the same. */
  lemma {:induction false} WithdrawnIs(it: Interest, ev: Ev)
    requires Paired(it) && Legal(it, Del(ev))
    ensures Withdrawn(it, ev) == Deleted(it, ev)
  {
    assert PairedAt(Reader(it, ev.fd), Writer(it, ev.fd), ev.fd);
  }

  // ----- what a dispatcher activates -----

  /** An activation: the event and which of reading and writing it is told about. */
  datatype Activation = Activation(ev: Ev, read: bool, write: bool)

  /** The end of both dispatch loops, for a reader, a writer and the result mask. */
  function Woken(r: Option<Ev>, w: Option<Ev>, read: bool, write: bool): seq<Activation> {
    (if r.Some? && ((read && r.value.read) || (write && r.value.write))
     then [Activation(r.value, read && r.value.read, write && r.value.write)] else []) +
    (if w.Some? && w != r && ((read && w.value.read) || (write && w.value.write))
     then [Activation(w.value, read && w.value.read, write && w.value.write)] else [])
  }

  /** What the kernel knows about a descriptor. */
  datatype Readiness = Readiness(readable: bool, writable: bool, broken: bool)

  type Kernel = nat -> Readiness

  /**
    What a dispatcher owes: an event is told of reading exactly if it is the reader of its descriptor and that is
    readable or broken, and the same for writing; it is activated if it is told of anything.
   */
  predicate Tells(it: Interest, kernel: Kernel, a: Activation) {
    var fd := a.ev.fd;
    && (a.read || a.write)
    && (a.read <==> Reader(it, fd) == Some(a.ev) && (kernel(fd).readable || kernel(fd).broken))
    && (a.write <==> Writer(it, fd) == Some(a.ev) && (kernel(fd).writable || kernel(fd).broken))
  }
}
