/** WIN32-Code/win32.c: arrays of sockets, and a red-black tree of entries that know their places in them. */
module Win32Backend {
  import opened Basics
  import opened Interest
  import opened Trees
  import opened RedBlackTree

  // ----- one direction: an array of sockets and the places of the entries in it -----

  ghost predicate PlaceOk(x: Item, array_: seq<int>, pos: seq<int>) {
    x.ref < |pos| && -1 <= pos[x.ref] < |array_| && (pos[x.ref] >= 0 ==> array_[pos[x.ref]] == x.key)
  }

  ghost predicate Owned(items: set<Item>, pos: seq<int>, i: nat) {
    exists x :: x in items && x.ref < |pos| && pos[x.ref] == i
  }

  /** Every place an entry knows holds its socket, and every occupied place is known by an entry. */
  ghost predicate DirectionOk(items: set<Item>, array_: seq<int>, pos: seq<int>) {
    && (forall x :: x in items ==> PlaceOk(x, array_, pos))
    && (forall i :: 0 <= i < |array_| ==> Owned(items, pos, i))
  }

  ghost predicate Distinct(items: set<Item>) {
    forall x, y :: x in items && y in items && (x.key == y.key || x.ref == y.ref) ==> x == y
  }

  lemma {:induction false} OwnedBy(items: set<Item>, pos: seq<int>, x: Item, i: nat)
    requires x in items && x.ref < |pos| && pos[x.ref] == i
    ensures Owned(items, pos, i)
  {
  }

  /** do_fd_set of an entry that has no place. */
  lemma {:induction false} SetOk(items: set<Item>, array_: seq<int>, pos: seq<int>, x: Item)
    requires Distinct(items) && DirectionOk(items, array_, pos) && x in items && x.ref < |pos| && pos[x.ref] == -1
    ensures DirectionOk(items, array_ + [x.key], pos[x.ref := |array_|])
  {
    var a, p := array_ + [x.key], pos[x.ref := |array_|];
    forall y | y in items ensures PlaceOk(y, a, p) { assert PlaceOk(y, array_, pos); }
    forall i | 0 <= i < |a| ensures Owned(items, p, i) {
      if i < |array_| {
        assert Owned(items, pos, i);
        var y :| y in items && y.ref < |pos| && pos[y.ref] == i;
        OwnedBy(items, p, y, i);
      } else {
        OwnedBy(items, p, x, i);
      }
    }
  }

  /** The arrays after do_fd_clear: the last socket moves to the free place, and its entry learns of it. */
  function Cleared(array_: seq<int>, i: nat): seq<int>
    requires i < |array_|
  {
    var n := |array_| - 1;
    if i == n then array_[..n] else array_[..n][i := array_[n]]
  }

  lemma {:induction false} ClearLast(items: set<Item>, array_: seq<int>, pos: seq<int>, x: Item)
    requires Distinct(items) && DirectionOk(items, array_, pos) && x in items && x.ref < |pos|
    requires array_ != [] && pos[x.ref] == |array_| - 1
    ensures DirectionOk(items, Cleared(array_, |array_| - 1), pos[x.ref := -1])
  {
    var n := |array_| - 1;
    var a, p := Cleared(array_, n), pos[x.ref := -1];
    forall y | y in items ensures PlaceOk(y, a, p) {
      assert PlaceOk(y, array_, pos) && PlaceOk(x, array_, pos);
    }
    forall i | 0 <= i < n ensures Owned(items, p, i) {
      assert Owned(items, pos, i);
      var y :| y in items && y.ref < |pos| && pos[y.ref] == i;
      OwnedBy(items, p, y, i);
    }
  }

  /** The entry of the last socket exists; the source does not look at the result of that search. */
  lemma {:induction false} LastOwner(items: set<Item>, array_: seq<int>, pos: seq<int>) returns (y: Item)
    requires DirectionOk(items, array_, pos) && array_ != []
    ensures y in items && y.ref < |pos| && pos[y.ref] == |array_| - 1 && y.key == array_[|array_| - 1]
  {
    assert Owned(items, pos, |array_| - 1);
    y :| y in items && y.ref < |pos| && pos[y.ref] == |array_| - 1;
    assert PlaceOk(y, array_, pos);
  }

  lemma {:induction false} ClearMoved(items: set<Item>, array_: seq<int>, pos: seq<int>, x: Item, y: Item)
    requires Distinct(items) && DirectionOk(items, array_, pos) && x in items && y in items && x.ref < |pos|
    requires y.ref < |pos|
    requires 0 <= pos[x.ref] < |array_| - 1 && pos[y.ref] == |array_| - 1
    ensures DirectionOk(items, Cleared(array_, pos[x.ref]), pos[x.ref := -1][y.ref := pos[x.ref]])
  {
    var n, i := |array_| - 1, pos[x.ref];
    var a, p := Cleared(array_, i), pos[x.ref := -1][y.ref := i];
    assert PlaceOk(y, array_, pos) && PlaceOk(x, array_, pos);
    forall z | z in items ensures PlaceOk(z, a, p) { assert PlaceOk(z, array_, pos); }
    forall k | 0 <= k < n ensures Owned(items, p, k) {
      if k == i {
        OwnedBy(items, p, y, k);
      } else {
        assert Owned(items, pos, k);
        var z :| z in items && z.ref < |pos| && pos[z.ref] == k;
        OwnedBy(items, p, z, k);
      }
    }
  }

  /** A new entry has no place yet. */
  lemma {:induction false} GrowOk(items: set<Item>, array_: seq<int>, pos: seq<int>, x: Item)
    requires DirectionOk(items, array_, pos) && x.ref == |pos|
    ensures DirectionOk(items + {x}, array_, pos + [-1])
  {
    var p := pos + [-1];
    forall y | y in items + {x} ensures PlaceOk(y, array_, p) {
      if y in items { assert PlaceOk(y, array_, pos); }
    }
    forall i | 0 <= i < |array_| ensures Owned(items + {x}, p, i) {
      assert Owned(items, pos, i);
      var y :| y in items && y.ref < |pos| && pos[y.ref] == i;
      OwnedBy(items + {x}, p, y, i);
    }
  }

  /** An entry without a place may leave. */
  lemma {:induction false} ShrinkOk(items: set<Item>, array_: seq<int>, pos: seq<int>, x: Item)
    requires DirectionOk(items, array_, pos) && x.ref < |pos| && pos[x.ref] == -1
    ensures DirectionOk(items - {x}, array_, pos)
  {
    forall i | 0 <= i < |array_| ensures Owned(items - {x}, pos, i) {
      assert Owned(items, pos, i);
      var y :| y in items && y.ref < |pos| && pos[y.ref] == i;
      OwnedBy(items - {x}, pos, y, i);
    }
  }

  // ----- the backend -----

  /** One direction of `struct win32op` with that half of the entries: fd_array, and pos and event by address. */
  datatype Direction = Direction(array_: seq<int>, pos: seq<int>, event: seq<Option<Ev>>)

  /** An entry has a place exactly if it has an event. */
  ghost predicate HalfOk(items: set<Item>, d: Direction, n: nat) {
    && |d.pos| == |d.event| == n && DirectionOk(items, d.array_, d.pos)
    && forall x :: x in items ==> x.ref < n && (d.pos[x.ref] >= 0 <==> d.event[x.ref].Some?)
  }

  /** The tree holds exactly the sockets that have an event. */
  ghost predicate Busy(items: set<Item>, r: Direction, w: Direction) {
    forall x :: x in items ==> x.ref < |r.event| && x.ref < |w.event| && (r.event[x.ref].Some? || w.event[x.ref].Some?)
  }

  ghost predicate BusyBut(items: set<Item>, r: Direction, w: Direction, x: Item) {
    Busy(items - {x}, r, w)
  }

  ghost predicate TracksAt(x: Item, r: Direction, w: Direction, it: Interest) {
    && x.key >= 0 && x.ref < |r.event| && x.ref < |w.event|
    && r.event[x.ref] == Reader(it, x.key) && w.event[x.ref] == Writer(it, x.key)
  }

  ghost predicate HasKey(items: set<Item>, key: int) {
    exists x :: x in items && x.key == key
  }

  /** The events of the entries are the interest `it`. */
  ghost predicate Tracks(items: set<Item>, r: Direction, w: Direction, it: Interest) {
    && (forall x :: x in items ==> TracksAt(x, r, w, it))
    && (forall fd: nat :: Reader(it, fd).Some? || Writer(it, fd).Some? ==> HasKey(items, fd))
  }

  /** do_fd_set, and the event stored in the entry. */
  function Attached(d: Direction, ent: Ref, s: int, ev: Ev): Direction
    requires ent < |d.pos| == |d.event|
  {
    (if d.pos[ent] >= 0 then d else d.(array_ := d.array_ + [s], pos := d.pos[ent := |d.array_|]))
      .(event := d.event[ent := Some(ev)])
  }

  /** The array is full and the entry has no place in it. */
  predicate NoRoom(d: Direction, ent: Ref, size: nat)
    requires ent < |d.pos|
  {
    d.pos[ent] < 0 && |d.array_| == size
  }

  /** The same, for the event that the socket has in this direction. */
  predicate Blocked(event: Option<Ev>, d: Direction, size: nat) {
    event.None? && |d.array_| == size
  }

  /** The interest with the event added in some of the directions it wants. */
  function AddedSides(it: Interest, ev: Ev, read: bool, write: bool): Interest {
    Interest(if read then it.readers[ev.fd := ev] else it.readers,
             if write then it.writers[ev.fd := ev] else it.writers)
  }

  lemma {:induction false} AttachedLength(d: Direction, ent: Ref, s: int, ev: Ev)
    requires ent < |d.pos| == |d.event|
    ensures |Attached(d, ent, s, ev).array_| == |d.array_| + if d.pos[ent] < 0 then 1 else 0
  {
  }

  lemma {:induction false} AttachedOk(items: set<Item>, d: Direction, n: nat, x: Item, ev: Ev)
    requires Distinct(items) && HalfOk(items, d, n) && x in items && x.ref < n
    ensures HalfOk(items, Attached(d, x.ref, x.key, ev), n)
  {
    assert PlaceOk(x, d.array_, d.pos);
    if d.pos[x.ref] < 0 { SetOk(items, d.array_, d.pos, x); }
    hide DirectionOk;
  }

  /** do_fd_clear, and the event removed from the entry; `last` is the entry of the last socket. */
  function Detached(d: Direction, ent: Ref, last: Ref): Direction
    requires ent < |d.pos| == |d.event| && last < |d.pos| && d.pos[ent] < |d.array_|
  {
    var i := d.pos[ent];
    if i < 0 then d.(event := d.event[ent := None])
    else if i == |d.array_| - 1 then Direction(Cleared(d.array_, i), d.pos[ent := -1], d.event[ent := None])
    else Direction(Cleared(d.array_, i), d.pos[ent := -1][last := i], d.event[ent := None])
  }

  lemma {:induction false} DetachedOk(items: set<Item>, d: Direction, n: nat, x: Item, y: Item)
    requires Distinct(items) && HalfOk(items, d, n) && x in items && x.ref < n && y in items && y.ref < n
    requires d.pos[x.ref] >= 0 ==> d.array_ != [] && d.pos[y.ref] == |d.array_| - 1
    ensures d.pos[x.ref] < |d.array_| && HalfOk(items, Detached(d, x.ref, y.ref), n)
    ensures Detached(d, x.ref, y.ref).pos[x.ref] == -1
  {
    assert PlaceOk(x, d.array_, d.pos) && PlaceOk(y, d.array_, d.pos);
    if d.pos[x.ref] >= 0 {
      if d.pos[x.ref] == |d.array_| - 1 {
        ClearLast(items, d.array_, d.pos, x);
      } else {
        ClearMoved(items, d.array_, d.pos, x, y);
      }
    }
    hide DirectionOk;
  }

  lemma {:induction false} PlaceOf(items: set<Item>, d: Direction, x: Item)
    requires DirectionOk(items, d.array_, d.pos) && x in items
    ensures x.ref < |d.pos| && -1 <= d.pos[x.ref] < |d.array_|
  {
    assert PlaceOk(x, d.array_, d.pos);
  }

  lemma {:induction false} IdlePlace(items: set<Item>, d: Direction, n: nat, x: Item)
    requires HalfOk(items, d, n) && x in items && x.ref < |d.event| && d.event[x.ref].None?
    ensures x.ref < |d.pos| && d.pos[x.ref] == -1
  {
    assert PlaceOk(x, d.array_, d.pos);
  }

  lemma {:induction false} AbsentTracked(items: set<Item>, r: Direction, w: Direction, it: Interest, ev: Ev)
    requires Tracks(items, r, w, it) && forall x :: x in items ==> x.key != ev.fd
    ensures Withdrawn(it, ev) == it
  {
    assert !HasKey(items, ev.fd);
  }

  lemma {:induction false} RemovedTracked(items: set<Item>, r: Direction, w: Direction, it: Interest, x: Item, ev: Ev,
                                          r': Direction, w': Direction)
    requires Distinct(items) && Tracks(items, r, w, it) && x in items && x.key == ev.fd && x.ref < |r.event|
    requires x.ref < |w.event|
    requires r'.event == if r.event[x.ref] == Some(ev) then r.event[x.ref := None] else r.event
    requires w'.event == if w.event[x.ref] == Some(ev) then w.event[x.ref := None] else w.event
    ensures Tracks(items, r', w', Withdrawn(it, ev))
    ensures Busy(items, r, w) ==> BusyBut(items, r', w', x)
    ensures Busy(items, r, w) && (r'.event[x.ref].Some? || w'.event[x.ref].Some?) ==> Busy(items, r', w')
  {
    assert TracksAt(x, r, w, it);
    forall y | y in items ensures TracksAt(y, r', w', Withdrawn(it, ev)) { assert TracksAt(y, r, w, it); }
    forall fd: nat | Reader(Withdrawn(it, ev), fd).Some? || Writer(Withdrawn(it, ev), fd).Some?
      ensures HasKey(items, fd)
    {
      assert Reader(it, fd).Some? || Writer(it, fd).Some?;
    }
  }

  lemma {:induction false} GoneTracked(items: set<Item>, r: Direction, w: Direction, it: Interest, x: Item)
    requires Distinct(items) && Tracks(items, r, w, it) && x in items && x.ref < |r.event| && x.ref < |w.event|
    requires r.event[x.ref].None? && w.event[x.ref].None?
    ensures Tracks(items - {x}, r, w, it)
  {
    assert TracksAt(x, r, w, it);
    forall fd: nat | Reader(it, fd).Some? || Writer(it, fd).Some? ensures HasKey(items - {x}, fd) {
      assert HasKey(items, fd);
      var y :| y in items && y.key == fd;
      assert y in items - {x};
    }
  }

  /** A new entry without events changes nothing about the interest. */
  lemma {:induction false} EntryTracked(items: set<Item>, r: Direction, w: Direction, it: Interest, x: Item,
                                        r': Direction, w': Direction)
    requires Tracks(items, r, w, it) && x.key >= 0
    requires x in items ==> r' == r && w' == w
    requires x !in items ==>
      && (forall y :: y in items ==> y.key != x.key) && x.ref == |r.event| == |w.event|
      && r'.event == r.event + [None] && w'.event == w.event + [None]
    ensures Tracks(items + {x}, r', w', it)
    ensures Busy(items, r, w) ==> BusyBut(items + {x}, r', w', x)
  {
    forall y | y in items + {x} ensures TracksAt(y, r', w', it) {
      if y in items {
        assert TracksAt(y, r, w, it);
      } else {
        assert !HasKey(items, x.key);
      }
    }
    forall fd: nat | Reader(it, fd).Some? || Writer(it, fd).Some? ensures HasKey(items + {x}, fd) {
      assert HasKey(items, fd);
      var y :| y in items && y.key == fd;
      assert y in items + {x};
    }
  }

  lemma {:induction false} AddedTracked(items: set<Item>, r: Direction, w: Direction, it: Interest, x: Item, ev: Ev,
                                        read: bool, write: bool, r': Direction, w': Direction)
    requires Distinct(items) && Tracks(items, r, w, it) && x in items && x.key == ev.fd
    requires x.ref < |r.pos| == |r.event| == |w.pos| == |w.event|
    requires r' == if read then Attached(r, x.ref, x.key, ev) else r
    requires w' == if write then Attached(w, x.ref, x.key, ev) else w
    ensures Tracks(items, r', w', AddedSides(it, ev, read, write))
    ensures (read || write) && BusyBut(items, r, w, x) ==> Busy(items, r', w')
  {
    var it' := AddedSides(it, ev, read, write);
    forall y | y in items ensures TracksAt(y, r', w', it') { assert TracksAt(y, r, w, it); }
    forall fd: nat | Reader(it', fd).Some? || Writer(it', fd).Some? ensures HasKey(items, fd) {
      if fd != ev.fd { assert Reader(it, fd).Some? || Writer(it, fd).Some?; }
    }
  }

  /** An entry that is new and got no event is the one that has none. */
  lemma {:induction false} IdleEntry(items: set<Item>, x: Item, r0: Direction, w0: Direction, r1: Direction,
                                     w1: Direction)
    requires x !in items ==> x.ref < |r1.event| && x.ref < |w1.event| && r1.event[x.ref].None? && w1.event[x.ref].None?
    requires x in items ==> r1 == r0 && w1 == w0
    ensures x !in items ==> !Busy(items + {x}, r1, w1)
    ensures x in items ==> items + {x} == items && (Busy(items + {x}, r1, w1) <==> Busy(items, r0, w0))
  {
    if x in items {
      assert items + {x} == items;
    } else {
      assert x in items + {x};
    }
  }

  /** `struct win32op` */
  class Win32Op {
    const map_: EventMap
    var setSize: nat
    var r: Direction
    var w: Direction

    ghost function Entries(): set<Item>
      reads this, map_
    {
      Items(map_.tree)
    }

    ghost predicate Valid()
      reads this, map_
    {
      && map_.Valid() && |map_.mem| >= 1 && setSize >= 1 && |r.array_| <= setSize && |w.array_| <= setSize
      && HalfOk(Entries(), r, |map_.mem|) && HalfOk(Entries(), w, |map_.mem|)
    }

    /** win32_init */
    constructor ()
      ensures Valid() && fresh(map_) && Busy(Entries(), r, w) && Tracks(Entries(), r, w, NOBODY)
      ensures setSize == 64 && r.array_ == [] && w.array_ == []
    {
      map_ := new EventMap();
      setSize := 64;
      r, w := Direction([], [-1], [None]), Direction([], [-1], [None]);
    }

    /** get_event_entry without creation. */
    method Lookup(s: nat) returns (ent: Ref)
      requires map_.Valid() && s < MAX_KEY
      ensures ent != NULL ==> Item(ent, s) in Entries()
      ensures ent == NULL ==> forall x :: x in Entries() ==> x.key != s
    {
      ent := map_.Find(s);
    }

    /** get_event_entry with creation; null if there is no entry and `made`, the result of calloc, is false. */
    method GetEntry(s: nat, made: bool) returns (ent: Ref)
      requires Valid() && s < MAX_KEY
      modifies this, map_
      ensures Valid() && setSize == old(setSize) && r.array_ == old(r.array_) && w.array_ == old(w.array_)
      ensures ent == NULL <==> !made && !HasKey(old(Entries()), s)
      ensures ent == NULL ==> Entries() == old(Entries()) && r == old(r) && w == old(w)
      ensures ent != NULL ==> Entries() == old(Entries()) + {Item(ent, s)}
      ensures ent != NULL && HasKey(old(Entries()), s) ==> Item(ent, s) in old(Entries()) && r == old(r) && w == old(w)
      ensures ent != NULL && !HasKey(old(Entries()), s) ==>
        && ent == |old(r.event)| == |old(w.event)| && |r.pos| == |w.pos| == ent + 1 && r.pos[ent] == w.pos[ent] == -1
        && r.event == old(r.event) + [None] && w.event == old(w.event) + [None]
    {
      hide RedBlack, At, DirectionOk;
      ent := Lookup(s);
      if ent != NULL || !made {
        return;
      }
      ghost var items := Entries();
      ent := map_.Alloc(s);
      var existing := map_.Insert(ent);
      assert existing == NULL;
      GrowOk(items, r.array_, r.pos, Item(ent, s));
      GrowOk(items, w.array_, w.pos, Item(ent, s));
      r := r.(pos := r.pos + [-1], event := r.event + [None]);
      w := w.(pos := w.pos + [-1], event := w.event + [None]);
    }

    /** realloc_fd_sets where a set is full; `memory` says whether it succeeds. */
    method Room(count: nat, memory: bool) returns (res: int)
      requires count <= setSize && setSize >= 1
      modifies this`setSize
      ensures res == if count == old(setSize) && !memory then -1 else 0
      ensures setSize == if count == old(setSize) && memory then 2 * old(setSize) else old(setSize)
    {
      if count == setSize {
        if !memory {
          return -1;
        }
        setSize := setSize * 2;
      }
      return 0;
    }

    /** do_fd_set for reading or writing, and the event stored in the entry. */
    method Attach(ent: Ref, s: int, ev: Ev, read: bool, memory: bool) returns (res: int)
      requires Valid() && Item(ent, s) in Entries()
      modifies this
      ensures Valid() && ent < |old(r.pos)| && ent < |old(w.pos)|
      ensures res == if !memory && NoRoom(if read then old(r) else old(w), ent, old(setSize)) then -1 else 0
      ensures setSize == old(setSize) || (memory && NoRoom(if read then old(r) else old(w), ent, old(setSize)))
      ensures r == if read && res == 0 then Attached(old(r), ent, s, ev) else old(r)
      ensures w == if !read && res == 0 then Attached(old(w), ent, s, ev) else old(w)
    {
      hide RedBlack, At, DirectionOk;
      DistinctItems(map_.mem, map_.root, map_.tree);
      Sizes(ent, s);
      var d := if read then r else w;
      AttachedOk(Entries(), d, |map_.mem|, Item(ent, s), ev);
      if d.pos[ent] < 0 {
        res := Room(|d.array_|, memory);
        if res == -1 {
          return;
        }
      }
      d := Attached(d, ent, s, ev);
      if read {
        r := d;
      } else {
        w := d;
      }
      return 0;
    }

    /** Both halves of win32_insert, for an entry that exists; if the second fails, the first stays done. */
    method AttachBoth(ent: Ref, ev: Ev, memory: bool) returns (res: int)
      requires Valid() && Item(ent, ev.fd) in Entries()
      modifies this
      ensures Valid() && ent < |old(r.pos)| == |old(r.event)| == |old(w.pos)| == |old(w.event)|
      ensures var noR, noW := NoRoom(old(r), ent, old(setSize)), NoRoom(old(w), ent, old(setSize));
        && res == (if !memory && ((ev.read && noR) || (ev.write && noW)) then -1 else 0)
        && (setSize == old(setSize) || (ev.read && noR) || (ev.write && noW))
        && r == (if ev.read && (res == 0 || !noR) then Attached(old(r), ent, ev.fd, ev) else old(r))
        && w == if ev.write && res == 0 then Attached(old(w), ent, ev.fd, ev) else old(w)
    {
      hide HalfOk, Attached;
      Sizes(ent, ev.fd);
      ghost var w0, size := w, setSize;
      if ev.read {
        res := Attach(ent, ev.fd, ev, true, memory);
        if res == -1 {
          return;
        }
      }
      if ev.write {
        res := Attach(ent, ev.fd, ev, false, memory);
        assert setSize == size || !NoRoom(w0, ent, setSize) || memory;
        return;
      }
      return 0;
    }

    /**
      win32_insert of an event that is not a signal: afterwards its socket has an entry that holds it. `made` and
      `memory` are the results of calloc and realloc. Without memory for the sets the first half may have succeeded;
      otherwise an entry that is new stays in the tree without an event.
     */
    method Insert(ev: Ev, made: bool, memory: bool, ghost it: Interest) returns (res: int)
      requires Valid() && ev.fd < MAX_KEY && Tracks(Entries(), r, w, it)
      modifies this, map_
      ensures Valid()
      ensures var known := HasKey(old(Entries()), ev.fd);
        var noR, noW := Blocked(Reader(it, ev.fd), old(r), old(setSize)),
          Blocked(Writer(it, ev.fd), old(w), old(setSize));
        var wanted, entry := ev.read || ev.write, known || made;
        && res == (if wanted && (!entry || (!memory && ((ev.read && noR) || (ev.write && noW)))) then -1 else 0)
        && (wanted && entry ==> exists ent :: Entries() == old(Entries()) + {Item(ent, ev.fd)})
        && (!wanted || !entry ==> Entries() == old(Entries()) && r == old(r) && w == old(w) && setSize == old(setSize))
        && Tracks(Entries(), r, w, AddedSides(it, ev, ev.read && entry && (res == 0 || !noR), ev.write && res == 0))
        && (old(Busy(Entries(), r, w)) ==>
             (Busy(Entries(), r, w) <==> res == 0 || known || !entry || (ev.read && !noR)))
        && (setSize == old(setSize) || (ev.read && noR) || (ev.write && noW))
      ensures res == 0 ==> Tracks(Entries(), r, w, Added(it, ev))
      ensures res == 0 && old(Busy(Entries(), r, w)) ==> Busy(Entries(), r, w)
      ensures res == 0 ==> |r.array_| == |old(r.array_)| + if ev.read && Reader(it, ev.fd).None? then 1 else 0
    {
      hide HalfOk, Tracks, Busy, Attached;
      if !ev.read && !ev.write {
        return 0;
      }
      ghost var items, r0, w0, known := Entries(), r, w, HasKey(Entries(), ev.fd);
      var ent := GetEntry(ev.fd, made);
      if ent == NULL {
        return -1;
      }
      ghost var x := Item(ent, ev.fd);
      EntryTracked(items, r0, w0, it, x, r, w);
      Sizes(ent, ev.fd);
      PlacesAre(x, it);
      ghost var r1, w1 := r, w;
      res := AttachBoth(ent, ev, memory);
      DistinctItems(map_.mem, map_.root, map_.tree);
      ghost var noR := NoRoom(r1, ent, old(setSize));
      AddedTracked(Entries(), r1, w1, it, x, ev, ev.read && (res == 0 || !noR), ev.write && res == 0, r, w);
      IdleEntry(items, x, r0, w0, r1, w1);
      AttachedLength(r1, ent, ev.fd, ev);
    }

    /** An entry knows a place in an array exactly if the interest has an event for it. */
    lemma {:induction false} PlacesAre(x: Item, it: Interest)
      requires Valid() && x in Entries() && Tracks(Entries(), r, w, it)
      ensures x.key >= 0 && x.ref < |r.pos| && x.ref < |w.pos|
      ensures r.pos[x.ref] < 0 <==> Reader(it, x.key).None?
      ensures w.pos[x.ref] < 0 <==> Writer(it, x.key).None?
    {
      hide DirectionOk;
      assert TracksAt(x, r, w, it);
    }

    /** do_fd_clear for reading or writing, and the event removed from the entry. */
    method Detach(ent: Ref, s: int, read: bool)
      requires Valid() && Item(ent, s) in Entries() && s < MAX_KEY
      modifies this
      ensures Valid()
      ensures ent < |old(r.event)| && ent < |old(w.event)|
      ensures read ==> w == old(w) && |r.pos| == |r.event| && ent < |r.pos| && r.pos[ent] == -1
      ensures read ==> r.event == old(r.event)[ent := None]
      ensures !read ==> r == old(r) && |w.pos| == |w.event| && ent < |w.pos| && w.pos[ent] == -1
      ensures !read ==> w.event == old(w.event)[ent := None]
    {
      hide RedBlack, At, DirectionOk;
      Sizes(ent, s);
      DistinctItems(map_.mem, map_.root, map_.tree);
      var d := if read then r else w;
      var last := ent;
      if d.pos[ent] >= 0 {
        PlaceOf(Entries(), d, Item(ent, s));
        ghost var y := LastOwner(Entries(), d.array_, d.pos);
        PlaceOf(Entries(), d, y);
        KeyRange(y);
        last := Lookup(d.array_[|d.array_| - 1]);
        assert Item(last, y.key) == y;
      }
      DetachedOk(Entries(), d, |map_.mem|, Item(ent, s), Item(last, map_.mem[last].sock));
      d := Detached(d, ent, last);
      if read {
        r := d;
      } else {
        w := d;
      }
    }

    /** The two halves of win32_del: the event leaves the places it holds. */
    method DetachBoth(ent: Ref, ev: Ev) returns (idle: bool)
      requires Valid() && Item(ent, ev.fd) in Entries() && ev.fd < MAX_KEY
      modifies this
      ensures Valid() && ent < |old(r.event)| && ent < |old(w.event)|
      ensures r.event == if old(r.event)[ent] == Some(ev) then old(r.event)[ent := None] else old(r.event)
      ensures w.event == if old(w.event)[ent] == Some(ev) then old(w.event)[ent := None] else old(w.event)
      ensures idle == (r.event[ent].None? && w.event[ent].None?)
    {
      hide HalfOk;
      Sizes(ent, ev.fd);
      if r.event[ent] == Some(ev) {
        Detach(ent, ev.fd, true);
      }
      if w.event[ent] == Some(ev) {
        Detach(ent, ev.fd, false);
      }
      idle := r.event[ent].None? && w.event[ent].None?;
    }

    /** The end of win32_del: an entry without events leaves the tree. */
    method Drop(ent: Ref, s: int)
      requires Valid() && Item(ent, s) in Entries() && ent < |r.event| && ent < |w.event|
      requires r.event[ent].None? && w.event[ent].None?
      modifies map_
      ensures Valid() && Entries() == old(Entries()) - {Item(ent, s)}
    {
      hide RedBlack, At;
      DistinctItems(map_.mem, map_.root, map_.tree);
      IdlePlace(Entries(), r, |map_.mem|, Item(ent, s));
      IdlePlace(Entries(), w, |map_.mem|, Item(ent, s));
      ShrinkOk(Entries(), r.array_, r.pos, Item(ent, s));
      ShrinkOk(Entries(), w.array_, w.pos, Item(ent, s));
      hide DirectionOk;
      map_.Remove(ent);
    }

    /** win32_del of an event that is not a signal; -1 if its socket has no entry. */
    method Delete(ev: Ev, ghost it: Interest) returns (res: int)
      requires Valid() && ev.fd < MAX_KEY && Tracks(Entries(), r, w, it)
      modifies this, map_
      ensures Valid() && Tracks(Entries(), r, w, Withdrawn(it, ev))
      ensures old(Busy(Entries(), r, w)) ==> Busy(Entries(), r, w)
      ensures res == if HasKey(old(Entries()), ev.fd) then 0 else -1
    {
      hide HalfOk, Tracks, Busy;
      var ent := Lookup(ev.fd);
      if ent == NULL {
        AbsentTracked(Entries(), r, w, it, ev);
        return -1;
      }
      ghost var items, r0, w0, x := Entries(), r, w, Item(ent, ev.fd);
      DistinctItems(map_.mem, map_.root, map_.tree);
      var idle := DetachBoth(ent, ev);
      RemovedTracked(items, r0, w0, it, x, ev, r, w);
      if idle {
        Drop(ent, ev.fd);
        GoneTracked(items, r, w, Withdrawn(it, ev), x);
      }
      return 0;
    }

    lemma {:induction false} KeyRange(x: Item)
      requires Valid() && x in Entries()
      ensures 0 <= x.key < MAX_KEY
    {
      WithinIncreasing(map_.tree, MIN_KEY, MAX_KEY);
    }

    lemma {:induction false} Sizes(ent: Ref, s: int)
      requires Valid() && Item(ent, s) in Entries()
      ensures ent < |r.pos| == |r.event| == |w.pos| == |w.event|
    {
      hide RedBlack, At, DirectionOk;
    }
  }

  // ----- whole histories -----

  lemma {:induction false} LegalPrefix(ops: seq<Op>, i: nat)
    requires AllLegal(ops) && i < |ops|
    ensures AllLegal(ops[..i]) && Legal(InterestAfter(ops[..i]), ops[i])
    ensures InterestAfter(ops[..i + 1]) == Apply(InterestAfter(ops[..i]), ops[i])
    decreases |ops|
  {
    var n := |ops| - 1;
    assert ops[..i + 1][..i] == ops[..i];
    if i < n {
      LegalPrefix(ops[..n], i);
      assert ops[..n][..i] == ops[..i] && ops[..n][..i + 1] == ops[..i + 1];
    } else {
      assert ops[..i + 1] == ops;
    }
  }

  /**
    After every legal history with enough memory, the tree holds exactly the sockets of the interest, with their
    events.
   */
  method Replay(ops: seq<Op>) returns (op: Win32Op)
    requires AllLegal(ops) && forall i :: 0 <= i < |ops| ==> ops[i].ev.fd < MAX_KEY
    ensures fresh(op) && fresh(op.map_) && op.Valid()
    ensures Tracks(op.Entries(), op.r, op.w, InterestAfter(ops)) && Busy(op.Entries(), op.r, op.w)
  {
    hide HalfOk, Tracks, Busy, AllLegal;
    op := new Win32Op();
    var i := 0;
    assert ops[..0] == [];
    while i < |ops|
      invariant 0 <= i <= |ops| && op.Valid() && fresh(op) && fresh(op.map_)
      invariant Tracks(op.Entries(), op.r, op.w, InterestAfter(ops[..i])) && Busy(op.Entries(), op.r, op.w)
      decreases |ops| - i
    {
      ghost var h := ops[..i];
      LegalPrefix(ops, i);
      match ops[i] {
        case Add(ev) =>
          var _ := op.Insert(ev, true, true, InterestAfter(h));
        case Del(ev) =>
          LegalPaired(h);
          WithdrawnIs(InterestAfter(h), ev);
          var _ := op.Delete(ev, InterestAfter(h));
      }
      i := i + 1;
    }
    assert ops[..i] == ops;
  }

  lemma {:induction false} Unknown(op: Win32Op, it: Interest, fd: nat)
    requires Tracks(op.Entries(), op.r, op.w, it) && Busy(op.Entries(), op.r, op.w)
    requires Reader(it, fd).None? && Writer(it, fd).None?
    ensures !HasKey(op.Entries(), fd)
  {
    forall x | x in op.Entries() ensures x.key != fd { assert TracksAt(x, op.r, op.w, it); }
  }

  /** An input for the exception: with 64 readers the array is full, and without memory a 65th leaves an idle entry. */
  method LeftoverEntry() returns (op: Win32Op)
    ensures fresh(op) && op.Valid() && HasKey(op.Entries(), 64) && !Busy(op.Entries(), op.r, op.w)
  {
    hide HalfOk, Tracks, Busy;
    op := new Win32Op();
    ghost var it := NOBODY;
    var i: nat := 0;
    while i < 64
      invariant i <= 64 && op.Valid() && fresh(op) && fresh(op.map_) && op.setSize == 64 && |op.r.array_| == i
      invariant Tracks(op.Entries(), op.r, op.w, it) && Busy(op.Entries(), op.r, op.w)
      invariant forall fd: nat :: fd >= i ==> fd !in it.readers && fd !in it.writers
      decreases 64 - i
    {
      var _ := op.Insert(Ev(i, i, true, false), true, true, it);
      it := Added(it, Ev(i, i, true, false));
      i := i + 1;
    }
    Unknown(op, it, 64);
    var res := op.Insert(Ev(64, 64, true, false), true, false, it);
    assert res == -1;
  }
}
