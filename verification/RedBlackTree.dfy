/**
  The red-black tree of WIN32-Code/tree.h: parent-linked entries rewritten in place
  by rotations and two fix-up loops. Ghost trees and paths say what the links mean.
 */
module RedBlackTree {
  import opened Trees

  /** The memory that holds the entries, by address; address 0 is the null pointer. */
  type Memory = seq<Entry>

  // ----- what linked entries represent -----

  ghost function ParentOf(p: Path, outer: Ref): Ref {
    if p.Top? then outer else p.node.ref
  }

  ghost predicate Holds(m: Memory, x: Item, parent: Ref, c: Color) {
    NULL < x.ref < |m| && m[x.ref].sock == x.key && m[x.ref].parent == parent && m[x.ref].color == c
  }

  /** The entries reachable from `n` are the tree `t`, with colors and parent links as in `t`. */
  ghost predicate Linked(m: Memory, n: Ref, parent: Ref, t: Tree)
    decreases t
  {
    match t
    case Leaf => n == NULL
    case Bin(l, x, c, r) =>
      n == x.ref && Holds(m, x, parent, c) && Linked(m, m[n].left, n, l) && Linked(m, m[n].right, n, r)
  }

  /** The entries from `root` down to the hole, which holds `n`, are the path `p`; `outer` is above `root`. */
  ghost predicate PathLinked(m: Memory, root: Ref, outer: Ref, p: Path, n: Ref)
    decreases p
  {
    match p
    case Top => root == n
    case Left(up, x, c, r) =>
      && Holds(m, x, ParentOf(up, outer), c)
      && m[x.ref].left == n && Linked(m, m[x.ref].right, x.ref, r) && PathLinked(m, root, outer, up, x.ref)
    case Right(up, l, x, c) =>
      && Holds(m, x, ParentOf(up, outer), c)
      && m[x.ref].right == n && Linked(m, m[x.ref].left, x.ref, l) && PathLinked(m, root, outer, up, x.ref)
  }

  /** Entry `n` sits at the end of path `p` and carries the subtree `t`. */
  ghost predicate At(m: Memory, root: Ref, p: Path, n: Ref, t: Tree) {
    PathLinked(m, root, NULL, p, n) && Linked(m, n, ParentOf(p, NULL), t)
    && Ordered(p) && Within(t, Lo(p), Hi(p))
  }

  /** `m'` has the entries of `m` whose keys lie strictly between `lo` and `hi`. */
  ghost predicate AgreeInside(m: Memory, m': Memory, lo: int, hi: int) {
    |m'| == |m| && forall n :: 0 <= n < |m| && lo < m[n].sock < hi ==> m'[n] == m[n]
  }

  ghost predicate AgreeOutside(m: Memory, m': Memory, lo: int, hi: int) {
    |m'| == |m| && forall n :: 0 <= n < |m| && !(lo < m[n].sock < hi) ==> m'[n] == m[n]
  }

  lemma {:induction false} LinkedFrame(m: Memory, m': Memory, n: Ref, parent: Ref, t: Tree, lo: int, hi: int)
    requires Linked(m, n, parent, t) && Within(t, lo, hi) && AgreeInside(m, m', lo, hi)
    ensures Linked(m', n, parent, t)
    decreases t
  {
    if t.Bin? {
      LinkedFrame(m, m', m[n].left, n, t.left, lo, t.node.key);
      LinkedFrame(m, m', m[n].right, n, t.right, t.node.key, hi);
    }
  }

  lemma {:induction false} PathFrame(m: Memory, m': Memory, root: Ref, outer: Ref, p: Path, n: Ref)
    requires PathLinked(m, root, outer, p, n) && Ordered(p) && AgreeOutside(m, m', Lo(p), Hi(p))
    ensures PathLinked(m', root, outer, p, n)
    decreases p
  {
    match p
    case Top =>
    case Left(up, x, _, r) =>
      LinkedFrame(m, m', m[x.ref].right, x.ref, r, x.key, Hi(up));
      PathFrame(m, m', root, outer, up, x.ref);
    case Right(up, l, x, _) =>
      LinkedFrame(m, m', m[x.ref].left, x.ref, l, Lo(up), x.key);
      PathFrame(m, m', root, outer, up, x.ref);
  }

  lemma {:induction false} LinkPlug(m: Memory, root: Ref, p: Path, n: Ref, t: Tree)
    requires At(m, root, p, n, t)
    ensures At(m, root, Top, root, Plug(p, t))
  {
    match p
    case Top =>
    case Left(up, x, c, r) => LinkPlug(m, root, up, x.ref, Bin(t, x, c, r));
    case Right(up, l, x, c) => LinkPlug(m, root, up, x.ref, Bin(l, x, c, t));
  }

  lemma {:induction false} LinkedRoot(m: Memory, n: Ref, parent: Ref, t: Tree, lo: int, hi: int)
    requires Linked(m, n, parent, t) && Within(t, lo, hi)
    ensures n != NULL ==> t.Bin? && n == t.node.ref && n < |m| && lo < m[n].sock < hi
    ensures n == NULL ==> t.Leaf?
  {
  }

  /** The two children of an entry are told apart by either link, if one of them exists. */
  lemma {:induction false} DistinctChildren(m: Memory, root: Ref, up: Path, n: Ref, d: Side, t: Tree, x: Item, c: Color,
                                            s: Tree)
    requires n == x.ref && At(m, root, up, n, Join(d, t, x, c, s)) && s.Bin?
    ensures n < |m| && m[n].left != m[n].right
  {
    var j := Join(d, t, x, c, s);
    LinkedRoot(m, m[n].left, n, j.left, Lo(up), x.key);
    LinkedRoot(m, m[n].right, n, j.right, x.key, Hi(up));
  }

  function Child(e: Entry, d: Side): Ref {
    if d == L then e.left else e.right
  }

  /** Which child an entry is can be read off either link of its parent. */
  lemma {:induction false} WhichSide(m: Memory, root: Ref, p: Path, n: Ref, t: Tree)
    requires At(m, root, p, n, t) && !p.Top? && t.Bin?
    ensures p.node.ref < |m|
    ensures forall d :: Child(m[p.node.ref], d) == n <==> d == SideOf(p)
  {
    LinkedRoot(m, n, p.node.ref, t, Lo(p), Hi(p));
    if p.Right? {
      LinkedRoot(m, m[p.node.ref].left, p.node.ref, p.left, Lo(p.up), p.node.key);
    } else {
      LinkedRoot(m, m[p.node.ref].right, p.node.ref, p.right, p.node.key, Hi(p.up));
    }
  }

  // One step up or down a path changes nothing but the point of view.

  lemma {:induction false} Down(m: Memory, root: Ref, up: Path, l: Tree, x: Item, c: Color, r: Tree)
    requires At(m, root, up, x.ref, Bin(l, x, c, r))
    ensures Holds(m, x, ParentOf(up, NULL), c)
    ensures At(m, root, Left(up, x, c, r), m[x.ref].left, l) && At(m, root, Right(up, l, x, c), m[x.ref].right, r)
  {
  }

  lemma {:induction false} AtNode(m: Memory, root: Ref, p: Path, n: Ref, l: Tree, x: Item, c: Color, r: Tree)
    requires At(m, root, p, n, Bin(l, x, c, r))
    ensures n == x.ref && Holds(m, x, ParentOf(p, NULL), c)
    ensures !p.Top? ==> Holds(m, p.node, ParentOf(p.up, NULL), p.color)
  {
  }

  lemma {:induction false} DownJoin(m: Memory, root: Ref, d: Side, up: Path, t: Tree, x: Item, c: Color, s: Tree)
    requires At(m, root, up, x.ref, Join(d, t, x, c, s))
    ensures Holds(m, x, ParentOf(up, NULL), c)
    ensures At(m, root, Hole(d, up, x, c, s), Child(m[x.ref], d), t)
    ensures At(m, root, Hole(Other(d), up, x, c, t), Child(m[x.ref], Other(d)), s)
    ensures Plug(Hole(d, up, x, c, s), t) == Plug(up, Join(d, t, x, c, s)) == Plug(Hole(Other(d), up, x, c, t), s)
  {
  }

  /** The color test `tmp && RB_COLOR(tmp) == RB_RED` of the fix-up loops. */
  lemma {:induction false} AtColor(m: Memory, root: Ref, p: Path, n: Ref, t: Tree)
    requires At(m, root, p, n, t)
    ensures n == NULL <==> t.Leaf?
    ensures n != NULL ==> n < |m| && n == t.node.ref && m[n].color == t.color
  {
  }

  lemma {:induction false} Up(m: Memory, root: Ref, p: Path, n: Ref, t: Tree)
    requires At(m, root, p, n, t) && !p.Top?
    ensures At(m, root, p.up, p.node.ref, Fill(p, t)) && Holds(m, p.node, ParentOf(p.up, NULL), p.color)
    ensures Linked(m, n, p.node.ref, t) && Plug(p, t) == Plug(p.up, Fill(p, t)) && Length(p) == Length(p.up) + 1
    ensures Child(m[p.node.ref], SideOf(p)) == n
  {
  }

  // ----- pointer writes -----

  /** If `child` is not null, makes `up` its parent. */
  function Adopt(m: Memory, child: Ref, up: Ref): (r: Memory)
    requires child != NULL ==> child < |m|
  {
    if child == NULL then m else m[child := m[child].(parent := up)]
  }

  /** Puts `now` where `was` hangs below `up`; at the root (`up` null) there is no entry to change. */
  function ReplaceChild(m: Memory, up: Ref, was: Ref, now: Ref): (r: Memory)
    requires up != NULL ==> up < |m|
  {
    if up == NULL then m
    else if m[up].left == was then m[up := m[up].(left := now)]
    else m[up := m[up].(right := now)]
  }

  lemma {:induction false} Adopted(m: Memory, child: Ref, was: Ref, up: Ref, t: Tree, lo: int, hi: int)
    requires Linked(m, child, was, t) && Within(t, lo, hi)
    ensures child != NULL ==> child < |m|
    ensures AgreeOutside(m, Adopt(m, child, up), lo, hi)
    ensures Linked(Adopt(m, child, up), child, up, t)
  {
    if t.Bin? {
      LinkedFrame(m, Adopt(m, child, up), m[child].left, child, t.left, lo, t.node.key);
      LinkedFrame(m, Adopt(m, child, up), m[child].right, child, t.right, t.node.key, hi);
    }
  }

  /** Writing the link that leads into the hole. */
  ghost function SetHole(m: Memory, p: Path, now: Ref): Memory
    requires !p.Top? ==> p.node.ref < |m|
  {
    match p
    case Top => m
    case Left(_, x, _, _) => m[x.ref := m[x.ref].(left := now)]
    case Right(_, _, x, _) => m[x.ref := m[x.ref].(right := now)]
  }

  lemma {:induction false} HoleSet(m: Memory, root: Ref, p: Path, was: Ref, now: Ref)
    requires PathLinked(m, root, NULL, p, was) && Ordered(p)
    ensures !p.Top? ==> p.node.ref < |m|
    ensures AgreeInside(m, SetHole(m, p, now), Lo(p), Hi(p))
    ensures PathLinked(SetHole(m, p, now), if p.Top? then now else root, NULL, p, now)
  {
    match p
    case Top =>
    case Left(up, x, _, r) =>
      var m' := SetHole(m, p, now);
      LinkedFrame(m, m', m[x.ref].right, x.ref, r, x.key, Hi(up));
      PathFrame(m, m', root, NULL, up, x.ref);
    case Right(up, l, x, _) =>
      var m' := SetHole(m, p, now);
      LinkedFrame(m, m', m[x.ref].left, x.ref, l, Lo(up), x.key);
      PathFrame(m, m', root, NULL, up, x.ref);
  }

  lemma {:induction false} ChildReplaced(m: Memory, root: Ref, p: Path, was: Ref, now: Ref)
    requires PathLinked(m, root, NULL, p, was) && Ordered(p)
    requires NULL < was < |m| && Lo(p) < m[was].sock < Hi(p)
    ensures ParentOf(p, NULL) < |m|
    ensures AgreeInside(m, ReplaceChild(m, ParentOf(p, NULL), was, now), Lo(p), Hi(p))
    ensures PathLinked(ReplaceChild(m, ParentOf(p, NULL), was, now),
                       if p.Top? then now else root, NULL, p, now)
  {
    HoleSet(m, root, p, was, now);
    if p.Right? {
      LinkedRoot(m, m[p.node.ref].left, p.node.ref, p.left, Lo(p.up), p.node.key);
    }
  }

  /**
    The parts of a rotation around the keys kx < ky: the path above, whose hole holds `hole`,
    and three subtrees, each given by its root and the parent it names.
   */
  datatype Sub = Sub(n: Ref, parent: Ref, t: Tree)

  ghost predicate Parts(m: Memory, root: Ref, p: Path, hole: Ref, kx: int, ky: int, a: Sub, b: Sub, e: Sub) {
    && Ordered(p) && Lo(p) < kx < ky < Hi(p)
    && Within(a.t, Lo(p), kx) && Within(b.t, kx, ky) && Within(e.t, ky, Hi(p))
    && PathLinked(m, root, NULL, p, hole)
    && Linked(m, a.n, a.parent, a.t) && Linked(m, b.n, b.parent, b.t) && Linked(m, e.n, e.parent, e.t)
  }

  /** Writing the two entries being rotated leaves the parts alone. */
  lemma {:induction false} PartsFrame(m: Memory, m': Memory, root: Ref, p: Path, hole: Ref, kx: int, ky: int, a: Sub,
                                      b: Sub, e: Sub)
    requires Parts(m, root, p, hole, kx, ky, a, b, e)
    requires |m'| == |m| && forall n :: 0 <= n < |m| && m[n].sock != kx && m[n].sock != ky ==> m'[n] == m[n]
    ensures Parts(m', root, p, hole, kx, ky, a, b, e)
  {
    LinkedFrame(m, m', a.n, a.parent, a.t, Lo(p), kx);
    LinkedFrame(m, m', b.n, b.parent, b.t, kx, ky);
    LinkedFrame(m, m', e.n, e.parent, e.t, ky, Hi(p));
    PathFrame(m, m', root, NULL, p, hole);
  }

  /** The parts of the shape Bin(a, x, c, Bin(b, y, d, e)), and back. */
  lemma {:induction false} RightShape(m: Memory, root: Ref, p: Path, a: Tree, x: Item, c: Color, b: Tree, y: Item,
                                      d: Color, e: Tree)
    ensures At(m, root, p, x.ref, Bin(a, x, c, Bin(b, y, d, e))) <==>
      && Holds(m, x, ParentOf(p, NULL), c) && Holds(m, y, x.ref, d) && m[x.ref].right == y.ref
      && Parts(m, root, p, x.ref, x.key, y.key, Sub(m[x.ref].left, x.ref, a),
               Sub(m[y.ref].left, y.ref, b), Sub(m[y.ref].right, y.ref, e))
  {
    if Holds(m, x, ParentOf(p, NULL), c) {
      assert Linked(m, m[x.ref].right, x.ref, Bin(b, y, d, e)) <==>
        && m[x.ref].right == y.ref && Holds(m, y, x.ref, d)
        && Linked(m, m[y.ref].left, y.ref, b) && Linked(m, m[y.ref].right, y.ref, e);
    }
    assert Within(Bin(b, y, d, e), x.key, Hi(p)) <==>
      x.key < y.key < Hi(p) && Within(b, x.key, y.key) && Within(e, y.key, Hi(p));
  }

  /** The parts of the shape Bin(Bin(a, x, c, b), y, d, e), and back. */
  lemma {:induction false} LeftShape(m: Memory, root: Ref, p: Path, a: Tree, x: Item, c: Color, b: Tree, y: Item,
                                     d: Color, e: Tree)
    ensures At(m, root, p, y.ref, Bin(Bin(a, x, c, b), y, d, e)) <==>
      && Holds(m, y, ParentOf(p, NULL), d) && Holds(m, x, y.ref, c) && m[y.ref].left == x.ref
      && Parts(m, root, p, y.ref, x.key, y.key, Sub(m[x.ref].left, x.ref, a),
               Sub(m[x.ref].right, x.ref, b), Sub(m[y.ref].right, y.ref, e))
  {
    if Holds(m, y, ParentOf(p, NULL), d) {
      assert Linked(m, m[y.ref].left, y.ref, Bin(a, x, c, b)) <==>
        && m[y.ref].left == x.ref && Holds(m, x, y.ref, c)
        && Linked(m, m[x.ref].left, x.ref, a) && Linked(m, m[x.ref].right, x.ref, b);
    }
    assert Within(Bin(a, x, c, b), Lo(p), y.key) <==>
      Lo(p) < x.key < y.key && Within(a, Lo(p), x.key) && Within(b, x.key, y.key);
  }

  /** First half of a rotation: write one of the two entries, then hand the middle part to `up`. */
  lemma {:induction false} HandOver(m: Memory, root: Ref, p: Path, hole: Ref, kx: int, ky: int, a: Sub, b: Sub, e: Sub,
                 w: Ref, v: Entry, up: Ref)
    requires Parts(m, root, p, hole, kx, ky, a, b, e)
    requires w < |m| && v.sock == m[w].sock && (v.sock == kx || v.sock == ky)
    ensures b.n < |m|
    ensures var m' := Adopt(m[w := v], b.n, up);
      && Parts(m', root, p, hole, kx, ky, a, b.(parent := up), e)
      && |m'| == |m| && forall n :: 0 <= n < |m| && (m[n].sock == kx || m[n].sock == ky) ==> m'[n] == m[w := v][n]
  {
    var m1 := m[w := v];
    PartsFrame(m, m1, root, p, hole, kx, ky, a, b, e);
    LinkedRoot(m1, b.n, b.parent, b.t, kx, ky);
    var m' := Adopt(m1, b.n, up);
    Adopted(m1, b.n, b.parent, up, b.t, kx, ky);
    LinkedFrame(m1, m', a.n, a.parent, a.t, Lo(p), kx);
    LinkedFrame(m1, m', e.n, e.parent, e.t, ky, Hi(p));
    PathFrame(m1, m', root, NULL, p, hole);
  }

  /** Second half: write one of the two entries, then put `now` into the hole of the path. */
  lemma {:induction false} Rehang(m: Memory, root: Ref, p: Path, hole: Ref, kx: int, ky: int, a: Sub, b: Sub, e: Sub,
               w: Ref, v: Entry, now: Ref)
    requires Parts(m, root, p, hole, kx, ky, a, b, e)
    requires w < |m| && v.sock == m[w].sock && (v.sock == kx || v.sock == ky)
    requires NULL < hole < |m| && (m[hole].sock == kx || m[hole].sock == ky)
    ensures ParentOf(p, NULL) < |m| && (ParentOf(p, NULL) == NULL <==> p.Top?)
    ensures var m' := ReplaceChild(m[w := v], ParentOf(p, NULL), hole, now);
      && Parts(m', if p.Top? then now else root, p, now, kx, ky, a, b, e)
      && |m'| == |m| && forall n :: 0 <= n < |m| && (m[n].sock == kx || m[n].sock == ky) ==> m'[n] == m[w := v][n]
  {
    var m1 := m[w := v];
    PartsFrame(m, m1, root, p, hole, kx, ky, a, b, e);
    ChildReplaced(m1, root, p, hole, now);
    var m' := ReplaceChild(m1, ParentOf(p, NULL), hole, now);
    LinkedFrame(m1, m', a.n, a.parent, a.t, Lo(p), kx);
    LinkedFrame(m1, m', b.n, b.parent, b.t, kx, ky);
    LinkedFrame(m1, m', e.n, e.parent, e.t, ky, Hi(p));
  }

  // ----- paths through the tree -----

  /** The root lies outside the range of keys that can fill the hole of a path below it. */
  lemma {:induction false} RootOutside(m: Memory, root: Ref, p: Path, n: Ref)
    requires PathLinked(m, root, NULL, p, n) && Ordered(p) && !p.Top?
    ensures NULL < root < |m| && !(Lo(p) < m[root].sock < Hi(p))
    decreases p
  {
    if !p.up.Top? {
      RootOutside(m, root, p.up, p.node.ref);
    }
  }

  lemma {:induction false} AtRoot(m: Memory, root: Ref, p: Path, n: Ref, t: Tree)
    requires At(m, root, p, n, t)
    ensures n == root <==> p.Top?
  {
    LinkedRoot(m, n, ParentOf(p, NULL), t, Lo(p), Hi(p));
    if !p.Top? {
      RootOutside(m, root, p, n);
    }
  }

  /** What lies before and after the hole has keys outside the range of the hole. */
  lemma {:induction false} PathKeys(p: Path)
    requires Ordered(p)
    ensures forall i :: 0 <= i < |Before(p)| ==> Before(p)[i].key <= Lo(p)
    ensures forall i :: 0 <= i < |After(p)| ==> Hi(p) <= After(p)[i].key
  {
    match p
    case Top =>
    case Left(up, x, _, r) => PathKeys(up); WithinIncreasing(r, x.key, Hi(up));
    case Right(up, l, x, _) => PathKeys(up); WithinIncreasing(l, Lo(up), x.key);
  }

  /** A key that leads to an empty place is not in the tree. */
  lemma {:induction false} AbsentAt(m: Memory, root: Ref, p: Path, n: Ref, key: int)
    requires At(m, root, p, n, Leaf) && Lo(p) < key < Hi(p)
    ensures forall x :: x in Items(Plug(p, Leaf)) ==> x.key != key
  {
    PathKeys(p);
    PlugInorder(p, Leaf);
  }

  /** RB_SET and the link from the parent put a new red entry into an empty place. */
  lemma {:induction false} Grafted(m: Memory, root: Ref, p: Path, elm: Ref)
    requires At(m, root, p, NULL, Leaf) && NULL < elm < |m| && Lo(p) < m[elm].sock < Hi(p)
    ensures !p.Top? ==> p.node.ref < |m|
    ensures var e := Entry(NULL, NULL, ParentOf(p, NULL), Red, m[elm].sock);
      At(SetHole(m[elm := e], p, elm), if p.Top? then elm else root, p, elm,
         Bin(Leaf, Item(elm, m[elm].sock), Red, Leaf))
  {
    var e := Entry(NULL, NULL, ParentOf(p, NULL), Red, m[elm].sock);
    var m1 := m[elm := e];
    PathFrame(m, m1, root, NULL, p, NULL);
    HoleSet(m1, root, p, NULL, elm);
    var m2 := SetHole(m1, p, elm);
    assert m2[elm] == e;
    assert Linked(m2, elm, ParentOf(p, NULL), Bin(Leaf, Item(elm, m[elm].sock), Red, Leaf));
  }

  /** The entry of an item is found at the end of some path. */
  lemma {:induction false} Locate(m: Memory, root: Ref, p: Path, n: Ref, t: Tree, x: Item)
    returns (p': Path, l: Tree, c: Color, r: Tree)
    requires At(m, root, p, n, t) && x in Inorder(t)
    ensures At(m, root, p', x.ref, Bin(l, x, c, r)) && Plug(p', Bin(l, x, c, r)) == Plug(p, t)
    decreases t
  {
    assert t.Bin?;
    Down(m, root, p, t.left, t.node, t.color, t.right);
    if x == t.node {
      p', l, c, r := p, t.left, t.color, t.right;
    } else if x in Inorder(t.left) {
      p', l, c, r := Locate(m, root, Left(p, t.node, t.color, t.right), m[n].left, t.left, x);
    } else {
      p', l, c, r := Locate(m, root, Right(p, t.left, t.node, t.color), m[n].right, t.right, x);
    }
  }

  lemma {:induction false} PlugLeft(seg: Path, t: Tree)
    requires t.Bin?
    ensures Plug(Left(seg, t.node, t.color, t.right), t.left) == Plug(seg, t)
  {
  }

  function FirstRef(s: seq<Item>): Ref {
    if s == [] then NULL else s[0].ref
  }

  lemma {:induction false} FirstOf(t: Tree)
    ensures t.Bin? ==> Inorder(t) != []
    ensures t.Bin? ==> FirstRef(Inorder(t)) == if t.left.Leaf? then t.node.ref else FirstRef(Inorder(t.left))
    ensures t.Leaf? <==> Inorder(t) == []
  {
  }

  function EndRef(val: int, s: seq<Item>): Ref {
    if s == [] then NULL else if val < 0 then s[0].ref else s[|s| - 1].ref
  }

  lemma {:induction false} EndOf(val: int, t: Tree)
    requires t.Bin?
    ensures var u := if val < 0 then t.left else t.right;
      EndRef(val, Inorder(t)) == if u.Leaf? then t.node.ref else EndRef(val, Inorder(u))
  {
    FirstOf(t.left);
    FirstOf(t.right);
  }

  // ----- RB_REMOVE: splicing out an entry -----

  function RefOf(t: Tree): Ref {
    if t.Leaf? then NULL else t.node.ref
  }

  lemma {:induction false} AtRef(m: Memory, root: Ref, p: Path, n: Ref, t: Tree)
    requires At(m, root, p, n, t)
    ensures n == RefOf(t) && (n == NULL <==> t.Leaf?)
  {
  }

  lemma {:induction false} Widen(t: Tree, lo: int, hi: int, lo': int, hi': int)
    requires Within(t, lo, hi) && lo' <= lo && hi <= hi'
    ensures Within(t, lo', hi')
  {
    if t.Bin? {
      Widen(t.left, lo, t.node.key, lo', t.node.key);
      Widen(t.right, t.node.key, hi, t.node.key, hi');
    }
  }

  /** An entry with at most one child is replaced by that child. */
  lemma {:induction false} SplicedOut(m: Memory, root: Ref, p: Path, l: Tree, x: Item, c: Color, r: Tree)
    requires At(m, root, p, x.ref, Bin(l, x, c, r)) && (l.Leaf? || r.Leaf?)
    ensures var t := if l.Leaf? then r else l; var up := ParentOf(p, NULL);
      && RefOf(t) < |m| && up < |m| && x.ref < |m|
      && var m' := ReplaceChild(Adopt(m, RefOf(t), up), up, x.ref, RefOf(t));
      At(m', if p.Top? then RefOf(t) else root, p, RefOf(t), t) && m'[x.ref] == m[x.ref]
  {
    var t, lo, hi := if l.Leaf? then r else l, if l.Leaf? then x.key else Lo(p), if l.Leaf? then Hi(p) else x.key;
    var child, up := RefOf(t), ParentOf(p, NULL);
    Down(m, root, p, l, x, c, r);
    AtRef(m, root, Left(p, x, c, r), m[x.ref].left, l);
    AtRef(m, root, Right(p, l, x, c), m[x.ref].right, r);
    LinkedRoot(m, child, x.ref, t, lo, hi);
    Adopted(m, child, x.ref, up, t, lo, hi);
    var m1 := Adopt(m, child, up);
    PathFrame(m, m1, root, NULL, p, x.ref);
    ChildReplaced(m1, root, p, x.ref, child);
    var m2 := ReplaceChild(m1, up, x.ref, child);
    LinkedFrame(m1, m2, child, up, t, lo, hi);
    Widen(t, lo, hi, Lo(p), Hi(p));
  }

  lemma {:induction false} SubstitutedChildren(m: Memory, root: Ref, p: Path, left: Ref, l: Tree, right: Ref, r: Tree,
                                               x: Item, y: Item, c: Color)
    requires Ordered(p) && PathLinked(m, root, NULL, p, y.ref) && Lo(p) < x.key < y.key < Hi(p)
    requires Linked(m, left, x.ref, l) && Within(l, Lo(p), x.key) && Linked(m, right, x.ref, r)
    requires Within(r, y.key, Hi(p))
    requires Holds(m, y, ParentOf(p, NULL), c) && m[y.ref].left == left && m[y.ref].right == right
    ensures left < |m| && right < |m|
    ensures At(Adopt(Adopt(m, left, y.ref), right, y.ref), root, p, y.ref, Bin(l, y, c, r))
  {
    LinkedRoot(m, left, x.ref, l, Lo(p), x.key);
    Adopted(m, left, x.ref, y.ref, l, Lo(p), x.key);
    var m1 := Adopt(m, left, y.ref);
    LinkedFrame(m, m1, right, x.ref, r, y.key, Hi(p));
    PathFrame(m, m1, root, NULL, p, y.ref);
    LinkedRoot(m1, right, x.ref, r, y.key, Hi(p));
    Adopted(m1, right, x.ref, y.ref, r, y.key, Hi(p));
    var m2 := Adopt(m1, right, y.ref);
    LinkedFrame(m1, m2, left, y.ref, l, Lo(p), x.key);
    PathFrame(m1, m2, root, NULL, p, y.ref);
    Widen(l, Lo(p), x.key, Lo(p), y.key);
  }

  /** The entry `old` is replaced by the detached entry `elm`, which has the next larger key. */
  lemma {:induction false} Substituted(m: Memory, root: Ref, p: Path, l: Tree, x: Item, c: Color, r: Tree, y: Item)
    requires At(m, root, p, x.ref, Bin(l, x, c, r)) && l.Bin?
    requires NULL < y.ref < |m| && m[y.ref].sock == y.key && x.key < y.key < Hi(p) && Within(r, y.key, Hi(p))
    ensures x.ref < |m| && m[x.ref].left < |m| && m[x.ref].right < |m| && m[x.ref].parent < |m|
    ensures
      var m1 := m[y.ref := m[x.ref].(sock := y.key)];
      var m2 := ReplaceChild(m1, m[x.ref].parent, x.ref, y.ref);
      var m3 := Adopt(Adopt(m2, m[x.ref].left, y.ref), m[x.ref].right, y.ref);
      At(m3, if p.Top? then y.ref else root, p, y.ref, Bin(l, y, c, r))
  {
    var victim, elm, root' := x.ref, y.ref, if p.Top? then y.ref else root;
    var m1 := m[elm := m[victim].(sock := y.key)];
    PathFrame(m, m1, root, NULL, p, victim);
    LinkedFrame(m, m1, m[victim].left, victim, l, Lo(p), x.key);
    LinkedFrame(m, m1, m[victim].right, victim, r, y.key, Hi(p));
    ChildReplaced(m1, root, p, victim, elm);
    var m2 := ReplaceChild(m1, m[victim].parent, victim, elm);
    LinkedFrame(m1, m2, m[victim].left, victim, l, Lo(p), x.key);
    LinkedFrame(m1, m2, m[victim].right, victim, r, y.key, Hi(p));
    SubstitutedChildren(m2, root', p, m[victim].left, l, m[victim].right, r, x, y, c);
  }

  /** Without the one item `x`, the items are the rest. */
  lemma {:induction false} Unlisted(u: seq<Item>, x: Item, v: seq<Item>)
    requires Increasing(u + [x] + v)
    ensures (set y | y in u + v) == (set y | y in u + [x] + v) - {x}
  {
    var s := u + [x] + v;
    assert s[|u|] == x;
    forall i | 0 <= i < |u| ensures u[i] != x { assert s[i] == u[i]; }
    forall i | 0 <= i < |v| ensures v[i] != x { assert s[|u| + 1 + i] == v[i]; }
  }

  lemma {:induction false} Regroup4<T>(a: seq<T>, b: seq<T>, x: T, c: seq<T>, d: seq<T>)
    ensures a + (b + [x] + c) + d == (a + b) + [x] + (c + d)
    ensures a + (b + c) + d == (a + b) + (c + d)
  {
  }

  /** What is listed before and after the removed item. */
  lemma {:induction false} Listed(m: Memory, root: Ref, p: Path, l: Tree, x: Item, c: Color, r: Tree)
    requires At(m, root, p, x.ref, Bin(l, x, c, r))
    ensures Items(Plug(p, Bin(l, x, c, r))) - {x} == set y | y in Before(p) + (Inorder(l) + Inorder(r)) + After(p)
    ensures l.Leaf? ==> Inorder(l) + Inorder(r) == Inorder(r)
    ensures r.Leaf? ==> Inorder(l) + Inorder(r) == Inorder(l)
  {
    PlugOrdered(p, Bin(l, x, c, r));
    WithinIncreasing(Plug(p, Bin(l, x, c, r)), MIN_KEY, MAX_KEY);
    PlugInorder(p, Bin(l, x, c, r));
    Regroup4(Before(p), Inorder(l), x, Inorder(r), After(p));
    Unlisted(Before(p) + Inorder(l), x, Inorder(r) + After(p));
  }

  /** In an ascending listing an item has one place. */
  lemma {:induction false} OnePlace(a: seq<Item>, b: seq<Item>, x: Item, c: seq<Item>, d: seq<Item>, i: nat)
    requires Increasing(a + (b + [x] + c) + d) && i < |a + (b + [x] + c) + d| && (a + (b + [x] + c) + d)[i] == x
    ensures i == |a| + |b| && (a + (b + [x] + c) + d)[i + 1..] == c + d
  {
    Regroup4(a, b, x, c, d);
    var s, j := a + (b + [x] + c) + d, |a + b|;
    assert s == (a + b) + [x] + (c + d);
    assert s[j] == x && s[j + 1..] == c + d;
  }

  /** The position of an item in the listing of the whole tree. */
  lemma {:induction false} Position(m: Memory, root: Ref, p: Path, l: Tree, x: Item, c: Color, r: Tree, i: nat)
    requires At(m, root, p, x.ref, Bin(l, x, c, r))
    requires i < |Inorder(Plug(p, Bin(l, x, c, r)))| && Inorder(Plug(p, Bin(l, x, c, r)))[i] == x
    ensures i == |Before(p)| + |Inorder(l)|
    ensures Inorder(Plug(p, Bin(l, x, c, r)))[i + 1..] == Inorder(r) + After(p)
  {
    assert Inorder(Bin(l, x, c, r)) == Inorder(l) + [x] + Inorder(r);
    hide Plug, Inorder, Before, After, Linked, PathLinked, Within, Ordered, Increasing;
    var t := Plug(p, Bin(l, x, c, r));
    PlugOrdered(p, Bin(l, x, c, r));
    WithinIncreasing(t, MIN_KEY, MAX_KEY);
    PlugInorder(p, Bin(l, x, c, r));
    OnePlace(Before(p), Inorder(l), x, Inorder(r), After(p), i);
  }

  lemma {:induction false} LinkedGrow(m: Memory, e: Entry, n: Ref, parent: Ref, t: Tree)
    requires Linked(m, n, parent, t)
    ensures Linked(m + [e], n, parent, t)
    decreases t
  {
    match t
    case Leaf =>
    case Bin(l, x, c, r) =>
      LinkedGrow(m, e, m[n].left, n, l);
      LinkedGrow(m, e, m[n].right, n, r);
  }

  /** A linked tree lists its keys in ascending order, and none of its entries is at the null address. */
  lemma {:induction false} Ascending(m: Memory, root: Ref, t: Tree)
    requires At(m, root, Top, root, t)
    ensures Increasing(Inorder(t))
    ensures forall i :: 0 <= i < |Inorder(t)| ==>
      NULL < Inorder(t)[i].ref < |m| && m[Inorder(t)[i].ref].sock == Inorder(t)[i].key
  {
    WithinIncreasing(t, MIN_KEY, MAX_KEY);
    forall i | 0 <= i < |Inorder(t)|
      ensures NULL < Inorder(t)[i].ref < |m| && m[Inorder(t)[i].ref].sock == Inorder(t)[i].key
    {
      var p, l, c, r := Locate(m, root, Top, root, t, Inorder(t)[i]);
    }
  }

  /** Different entries have different keys and different addresses. */
  lemma {:induction false} DistinctItems(m: Memory, root: Ref, t: Tree)
    requires At(m, root, Top, root, t)
    ensures forall x, y :: x in Items(t) && y in Items(t) && (x.key == y.key || x.ref == y.ref) ==> x == y
    ensures forall x :: x in Items(t) ==> NULL < x.ref < |m| && m[x.ref].sock == x.key
  {
    Ascending(m, root, t);
  }

  // ----- the left spine below the right child of the entry to remove -----

  ghost function Append(seg: Path, base: Path): Path {
    match seg
    case Top => base
    case Left(up, x, c, r) => Left(Append(up, base), x, c, r)
    case Right(up, l, x, c) => Right(Append(up, base), l, x, c)
  }

  ghost predicate Spine(seg: Path) {
    seg.Top? || (seg.Left? && Spine(seg.up))
  }

  lemma {:induction false} UpSegment(m: Memory, root: Ref, seg: Path, base: Path, n: Ref, t: Tree)
    requires At(m, root, Append(seg, base), n, t)
    ensures At(m, root, base, RefOf(Plug(seg, t)), Plug(seg, t))
    ensures Plug(Append(seg, base), t) == Plug(base, Plug(seg, t))
  {
    AtRef(m, root, Append(seg, base), n, t);
    if !seg.Top? {
      Up(m, root, Append(seg, base), n, t);
      UpSegment(m, root, seg.up, base, seg.node.ref, Fill(seg, t));
    }
  }

  lemma {:induction false} DownSegment(m: Memory, root: Ref, seg: Path, base: Path, t: Tree)
    requires At(m, root, base, RefOf(Plug(seg, t)), Plug(seg, t))
    ensures At(m, root, Append(seg, base), RefOf(t), t)
    ensures Plug(Append(seg, base), t) == Plug(base, Plug(seg, t))
    decreases seg
  {
    if !seg.Top? {
      DownSegment(m, root, seg.up, base, Fill(seg, t));
      DownJoin(m, root, SideOf(seg), Append(seg.up, base), t, seg.node, seg.color, Sibling(seg));
      AtRef(m, root, Append(seg, base), Child(m[seg.node.ref], SideOf(seg)), t);
    }
  }

  /** `x` is the least item of `t`, and `t'` holds the others. */
  ghost predicate LeastOf(x: Item, t: Tree, t': Tree) {
    && Inorder(t) == [x] + Inorder(t')
    && forall lo, hi :: Within(t, lo, hi) ==> lo < x.key < hi && Within(t', x.key, hi)
  }

  lemma {:induction false} SpineLeast(seg: Path, x: Item, t: Tree, t': Tree)
    requires Spine(seg) && LeastOf(x, t, t')
    ensures LeastOf(x, Plug(seg, t), Plug(seg, t'))
    decreases seg
  {
    if !seg.Top? {
      var u, u' := Fill(seg, t), Fill(seg, t');
      assert Inorder(u) == [x] + Inorder(u');
      SpineLeast(seg.up, x, u, u');
    }
  }

  /** Red-black conditions do not depend on which item a path node carries. */
  lemma {:induction false} Recolored(seg: Path, up: Path, l: Tree, x: Item, y: Item, c: Color, h: nat)
    requires PathRedBlack(Append(seg, Right(up, l, x, c)), h)
    ensures PathRedBlack(Append(seg, Right(up, l, y, c)), h)
    decreases seg
  {
    if !seg.Top? {
      Recolored(seg.up, up, l, x, y, c, h + if seg.color == Black then 1 else 0);
    }
  }

  lemma {:induction false} SpineSplit(seg: Path, y: Item, d: Color, t: Tree)
    requires Spine(seg)
    ensures LeastOf(y, Plug(seg, Bin(Leaf, y, d, t)), Plug(seg, t))
  {
    hide Plug;
    assert Inorder(Bin(Leaf, y, d, t)) == [y] + Inorder(t);
    SpineLeast(seg, y, Bin(Leaf, y, d, t), t);
  }

  lemma {:induction false} RightWithin(m: Memory, root: Ref, p: Path, l: Tree, x: Item, c: Color, u: Tree)
    requires At(m, root, p, x.ref, Bin(l, x, c, u))
    ensures Within(u, x.key, Hi(p))
  {
    hide Plug;
  }

  /** The left-most entry of the right subtree carries the next larger key; `t` is what remains in its place. */
  lemma {:induction false} Successor(m: Memory, root: Ref, p: Path, l: Tree, x: Item, c: Color, seg: Path, y: Item,
                                     d: Color, t: Tree)
    requires At(m, root, p, x.ref, Bin(l, x, c, Plug(seg, Bin(Leaf, y, d, t)))) && Spine(seg)
    ensures x.key < y.key < Hi(p) && Within(Plug(seg, t), y.key, Hi(p))
    ensures Inorder(Plug(seg, Bin(Leaf, y, d, t))) == [y] + Inorder(Plug(seg, t))
    ensures Inorder(Plug(p, Bin(l, y, c, Plug(seg, t)))) ==
            Before(p) + (Inorder(l) + Inorder(Plug(seg, Bin(Leaf, y, d, t)))) + After(p)
  {
    var u, v := Plug(seg, Bin(Leaf, y, d, t)), Plug(seg, t);
    SpineSplit(seg, y, d, t);
    RightWithin(m, root, p, l, x, c, u);
    hide Plug, At, Within;
    PlugInorder(p, Bin(l, y, c, v));
    assert Inorder(Bin(l, y, c, v)) == Inorder(l) + [y] + Inorder(v);
    assert Inorder(l) + [y] + Inorder(v) == Inorder(l) + ([y] + Inorder(v));
  }

  lemma {:induction false} SpineBounds(seg: Path, base: Path)
    requires Spine(seg) && Ordered(Append(seg, base))
    ensures Lo(Append(seg, base)) == Lo(base)
    decreases seg
  {
    if !seg.Top? {
      SpineBounds(seg.up, base);
    }
  }

  /** Only the top of the spine hangs below the entry to remove. */
  lemma {:induction false} SpineParent(m: Memory, root: Ref, seg: Path, p: Path, l: Tree, x: Item, c: Color, n: Ref,
                                       t: Tree)
    requires At(m, root, Append(seg, Right(p, l, x, c)), n, t) && Spine(seg)
    ensures ParentOf(Append(seg, Right(p, l, x, c)), NULL) == x.ref <==> seg.Top?
  {
    if !seg.Top? {
      SpineBounds(seg, Right(p, l, x, c));
      UpSegment(m, root, seg, Right(p, l, x, c), n, t);
      Up(m, root, Right(p, l, x, c), RefOf(Plug(seg, t)), Plug(seg, t));
      Up(m, root, Append(seg, Right(p, l, x, c)), n, t);
    }
  }

  ghost predicate Fits(p: Path, t: Tree) {
    Shaped(t) && ColorOf(t) == Black && PathRedBlack(p, BlackHeight(t))
  }

  lemma {:induction false} ShapedJoin(d: Side, near: Tree, x: Item, c: Color, far: Tree)
    ensures Shaped(Join(d, near, x, c, far)) <==>
      && Shaped(near) && Shaped(far) && BlackHeight(near) == BlackHeight(far)
      && (c == Red ==> ColorOf(near) == Black && ColorOf(far) == Black)
    ensures Shaped(near) && Shaped(far) && BlackHeight(near) == BlackHeight(far) ==>
      BlackHeight(Join(d, near, x, c, far)) == BlackHeight(near) + if c == Black then 1 else 0
  {
  }

  /** The subtree `t` is one black short; a red root of `t` is still allowed red children. */
  ghost predicate Short(p: Path, t: Tree) {
    ShapedBelow(t) && PathRedBlack(p, BlackHeight(t) + 1)
  }

  /** Splicing out a red entry does no harm; splicing out a black one leaves its place one black short. */
  lemma {:induction false} SplicedColors(p: Path, l: Tree, x: Item, c: Color, r: Tree)
    requires RedBlack(Plug(p, Bin(l, x, c, r))) && (l.Leaf? || r.Leaf?)
    ensures var t := if l.Leaf? then r else l; if c == Black then Short(p, t) else Fits(p, t)
  {
    UnplugRedBlack(p, Bin(l, x, c, r));
    ShapedJoin(L, l, x, c, r);
  }

  lemma {:induction false} FitsDone(p: Path, t: Tree)
    requires Fits(p, t)
    ensures RedBlack(Plug(p, t))
  {
    PlugRedBlack(p, t);
  }

  lemma {:induction false} RecoloredPlace(seg: Path, up: Path, l: Tree, x: Item, y: Item, c: Color, t: Tree)
    ensures Short(Append(seg, Right(up, l, x, c)), t) ==> Short(Append(seg, Right(up, l, y, c)), t)
    ensures Fits(Append(seg, Right(up, l, x, c)), t) ==> Fits(Append(seg, Right(up, l, y, c)), t)
  {
    if PathRedBlack(Append(seg, Right(up, l, x, c)), BlackHeight(t) + 1) {
      Recolored(seg, up, l, x, y, c, BlackHeight(t) + 1);
    }
    if PathRedBlack(Append(seg, Right(up, l, x, c)), BlackHeight(t)) {
      Recolored(seg, up, l, x, y, c, BlackHeight(t));
    }
  }

  // ----- RB_INSERT_COLOR: what its loop keeps -----

  /** Only a red parent of the red entry `x` may be wrong. */
  ghost predicate Pushing(p: Path, l: Tree, x: Item, r: Tree) {
    Shaped(Bin(l, x, Red, r)) && PathRedBlack(p, BlackHeight(l))
  }

  lemma {:induction false} Single(x: Item)
    ensures Inorder(Bin(Leaf, x, Red, Leaf)) == [x]
  {
  }

  lemma {:induction false} PlugTop(t: Tree)
    ensures Plug(Top, t) == t
  {
  }

  lemma {:induction false} PushingStart(p: Path, x: Item)
    requires PathRedBlack(p, 0)
    ensures Pushing(p, Leaf, x, Leaf)
  {
    assert Shaped(Leaf);
  }

  /** Below a red parent there is a black grandparent, and the black heights around it are known. */
  lemma {:induction false} PushingBelowRed(p: Path, l: Tree, x: Item, r: Tree)
    requires Pushing(p, l, x, r) && !p.Top? && p.color == Red
    ensures Shaped(Sibling(p)) && ColorOf(Sibling(p)) == Black && BlackHeight(Sibling(p)) == BlackHeight(l)
    ensures !p.up.Top? && p.up.color == Black
    ensures Shaped(Sibling(p.up)) && BlackHeight(Sibling(p.up)) == BlackHeight(l)
    ensures PathRedBlack(p.up.up, BlackHeight(l) + 1)
  {
    assert PathRedBlack(p.up, BlackHeight(l));
  }

  /** A red uncle takes over the black of the grandparent, together with the parent. */
  lemma {:induction false} PushingStep(p: Path, l: Tree, x: Item, r: Tree, g: Item)
    requires Pushing(p, l, x, r) && !p.Top? && p.color == Red && !p.up.Top? && ColorOf(Sibling(p.up)) == Red
    ensures var t, u := Fill(p, Bin(l, x, Red, r)), Sibling(p.up);
      && t.Bin? && u.Bin?
      && Pushing(p.up.up, t.(color := Black), g, u.(color := Black))
      && Pushing(p.up.up, u.(color := Black), g, t.(color := Black))
  {
    PushingBelowRed(p, l, x, r);
    var t, u := Fill(p, Bin(l, x, Red, r)), Sibling(p.up);
    assert Shaped(t.(color := Black)) && BlackHeight(t.(color := Black)) == BlackHeight(l) + 1;
    assert Shaped(u.(color := Black)) && BlackHeight(u.(color := Black)) == BlackHeight(l) + 1;
  }

  /** The black uncle: after the rotations the red entry has a black parent. */
  lemma {:induction false} PushingSettles(d: Side, p: Path, l: Tree, x: Item, r: Tree)
    requires Pushing(p, l, x, r) && !p.Top? && p.color == Red && !p.up.Top? && ColorOf(Sibling(p.up)) == Black
    ensures var up, g, u, q, s := p.up.up, p.up.node, Sibling(p.up), p.node, Sibling(p);
      var t := Bin(l, x, Red, r);
      && Pushing(Hole(d, up, q, Black, Join(d, s, g, Red, u)), l, x, r)
      && var j := Join(d, s, q, Red, Near(d, t));
         Pushing(Hole(d, up, x, Black, Join(d, Near(Other(d), t), g, Red, u)), j.left, q, j.right)
  {
    PushingBelowRed(p, l, x, r);
    var up, g, u, q, s := p.up.up, p.up.node, Sibling(p.up), p.node, Sibling(p);
    var t := Bin(l, x, Red, r);
    ShapedJoin(L, l, x, Red, r);
    ShapedJoin(d, s, g, Red, u);
    ShapedJoin(d, s, q, Red, Near(d, t));
    ShapedJoin(d, Near(Other(d), t), g, Red, u);
  }

  lemma {:induction false} PushingDone(p: Path, l: Tree, x: Item, r: Tree)
    requires Pushing(p, l, x, r) && (p.Top? || p.color == Black)
    ensures var t := Plug(p, Bin(l, x, Red, r)); t.Bin? && RedBlack(t.(color := Black))
  {
    PlugRedBlack(p, Bin(l, x, Red, r));
    PlugNodes(p, Bin(l, x, Red, r));
  }

  // ----- RB_REMOVE_COLOR: what its loop keeps -----

  lemma {:induction false} RootBlack(t: Tree)
    ensures RedBlack(t) ==> ColorOf(t) == Black
  {
  }

  /** The sibling that the fix-up loop dereferences exists. */
  lemma {:induction false} ShortSibling(p: Path, t: Tree)
    requires Short(p, t) && !p.Top?
    ensures Sibling(p).Bin? && Shaped(Sibling(p)) && BlackHeight(Sibling(p)) == BlackHeight(t) + 1
    ensures PathRedBlack(p.up, BlackHeight(t) + 1 + if p.color == Black then 1 else 0)
    ensures p.color == Red ==> ColorOf(Sibling(p)) == Black && !p.up.Top? && p.up.color == Black
  {
  }

  lemma {:induction false} ShortDone(p: Path, t: Tree)
    requires Short(p, t) && (p.Top? || ColorOf(t) == Red)
    ensures t.Bin? ==> RedBlack(Plug(p, t.(color := Black)))
    ensures t.Leaf? ==> RedBlack(Plug(p, t))
  {
    if t.Bin? {
      PlugRedBlack(p, t.(color := Black));
    }
  }

  /** A red sibling: after the rotation the sibling is black and the shortage is still one. */
  lemma {:induction false} RedSibling(d: Side, up: Path, q: Item, c: Color, s: Tree, t: Tree)
    requires Short(Hole(d, up, q, c, s), t) && s.Bin? && s.color == Red
    ensures c == Black && Near(d, s).Bin? && Near(d, s).color == Black
    ensures Short(Hole(d, Hole(d, up, s.node, Black, Near(Other(d), s)), q, Red, Near(d, s)), t)
  {
    ShortSibling(Hole(d, up, q, c, s), t);
  }

  /** A black sibling with black children: painting it red moves the shortage up. */
  lemma {:induction false} BlackNephews(d: Side, up: Path, q: Item, c: Color, s: Tree, t: Tree)
    requires Short(Hole(d, up, q, c, s), t) && s.Bin? && s.color == Black && ColorOf(t) == Black
    requires ColorOf(s.left) == Black && ColorOf(s.right) == Black
    ensures Short(up, Join(d, t, q, c, s.(color := Red)))
  {
    ShortSibling(Hole(d, up, q, c, s), t);
    ShapedJoin(L, s.left, s.node, Black, s.right);
    ShapedJoin(L, s.left, s.node, Red, s.right);
    assert Shaped(t);
  }

  /** A red near nephew becomes the sibling, with a red child on the far side. */
  lemma {:induction false} NearNephew(d: Side, up: Path, q: Item, c: Color, s: Tree, t: Tree)
    requires Short(Hole(d, up, q, c, s), t) && s.Bin? && s.color == Black && ColorOf(t) == Black
    requires ColorOf(Near(Other(d), s)) == Black && ColorOf(Near(d, s)) == Red
    ensures var o := Near(d, s);
      Short(Hole(d, up, q, c, Join(d, Near(d, o), o.node, Black,
                                   Join(d, Near(Other(d), o), s.node, Red, Near(Other(d), s)))), t)
  {
    ShortSibling(Hole(d, up, q, c, s), t);
    var o := Near(d, s);
    ShapedJoin(d, o, s.node, Black, Near(Other(d), s));
    ShapedJoin(d, Near(d, o), o.node, Red, Near(Other(d), o));
    ShapedJoin(d, Near(Other(d), o), s.node, Red, Near(Other(d), s));
    ShapedJoin(d, Near(d, o), o.node, Black, Join(d, Near(Other(d), o), s.node, Red, Near(Other(d), s)));
  }

  /** A red far nephew pays the missing black. */
  lemma {:induction false} FarNephew(d: Side, up: Path, q: Item, c: Color, s: Tree, t: Tree)
    requires Short(Hole(d, up, q, c, s), t) && s.Bin? && s.color == Black && ColorOf(t) == Black
    requires ColorOf(Near(Other(d), s)) == Red
    ensures RedBlack(Plug(up, Join(d, Join(d, t, q, Black, Near(d, s)), s.node, c, Near(Other(d), s).(color := Black))))
  {
    ShortSibling(Hole(d, up, q, c, s), t);
    assert Shaped(t);
    var n, f := Near(d, s), Near(Other(d), s);
    ShapedJoin(d, n, s.node, Black, f);
    ShapedJoin(d, Near(d, f), f.node, Red, Near(Other(d), f));
    ShapedJoin(d, Near(d, f), f.node, Black, Near(Other(d), f));
    ShapedJoin(d, t, q, Black, n);
    ShapedJoin(d, Join(d, t, q, Black, n), s.node, c, f.(color := Black));
    PlugRedBlack(up, Join(d, Join(d, t, q, Black, n), s.node, c, f.(color := Black)));
  }

  /** RB_HEAD together with the entries it links. */
  class EventMap {
    var root: Ref
    var mem: Memory

    // ----- coloring and rotating -----

    method Paint(elm: Ref, color: Color, ghost p: Path, ghost l: Tree, ghost x: Item, ghost c: Color, ghost r: Tree)
      requires At(mem, root, p, elm, Bin(l, x, c, r))
      modifies this`mem
      ensures |mem| == old(|mem|)
      ensures At(mem, root, p, elm, Bin(l, x, color, r))
      ensures Inorder(Plug(p, Bin(l, x, color, r))) == Inorder(Plug(p, Bin(l, x, c, r)))
    {
      PlugSame(p, Bin(l, x, color, r), Bin(l, x, c, r));
      ghost var m := mem;
      mem := mem[elm := mem[elm].(color := color)];
      LinkedFrame(m, mem, m[elm].left, elm, l, Lo(p), x.key);
      LinkedFrame(m, mem, m[elm].right, elm, r, x.key, Hi(p));
      PathFrame(m, mem, root, NULL, p, elm);
    }

    method PaintJoin(d: Side, elm: Ref, color: Color, ghost p: Path, ghost t: Tree, ghost x: Item, ghost c: Color,
                     ghost s: Tree)
      requires At(mem, root, p, elm, Join(d, t, x, c, s))
      modifies this`mem
      ensures |mem| == old(|mem|)
      ensures At(mem, root, p, elm, Join(d, t, x, color, s))
      ensures Inorder(Plug(p, Join(d, t, x, color, s))) == Inorder(Plug(p, Join(d, t, x, c, s)))
    {
      hide At, Inorder, Plug;
      match d
      case L => Paint(elm, color, p, t, x, c, s);
      case R => Paint(elm, color, p, s, x, c, t);
    }

    /** RB_ROTATE_LEFT */
    method RotateLeft(elm: Ref, ghost p: Path, ghost a: Tree, ghost x: Item, ghost c: Color,
                      ghost b: Tree, ghost y: Item, ghost d: Color, ghost e: Tree)
      requires elm == x.ref && At(mem, root, p, elm, Bin(a, x, c, Bin(b, y, d, e)))
      modifies this
      ensures |mem| == old(|mem|)
      ensures At(mem, root, p, y.ref, Bin(Bin(a, x, c, b), y, d, e))
      ensures Inorder(Plug(p, Bin(Bin(a, x, c, b), y, d, e))) == Inorder(Plug(p, Bin(a, x, c, Bin(b, y, d, e))))
    {
      hide Parts, At;
      RotationSame(p, a, x, c, b, y, d, e);
      RightShape(mem, root, p, a, x, c, b, y, d, e);
      var tmp := mem[elm].right;
      ghost var sa, se := Sub(mem[elm].left, elm, a), Sub(mem[tmp].right, tmp, e);
      ghost var sb := Sub(mem[tmp].left, tmp, b);
      HandOver(mem, root, p, elm, x.key, y.key, sa, sb, se, elm, mem[elm].(right := mem[tmp].left), elm);
      mem := Adopt(mem[elm := mem[elm].(right := mem[tmp].left)], mem[tmp].left, elm);
      sb := sb.(parent := elm);
      var up := mem[elm].parent;
      Rehang(mem, root, p, elm, x.key, y.key, sa, sb, se, tmp, mem[tmp].(parent := up), tmp);
      mem := ReplaceChild(mem[tmp := mem[tmp].(parent := up)], up, elm, tmp);
      if up == NULL {
        root := tmp;
      }
      ghost var m := mem;
      mem := mem[tmp := mem[tmp].(left := elm)];
      mem := mem[elm := mem[elm].(parent := tmp)];
      PartsFrame(m, mem, root, p, tmp, x.key, y.key, sa, sb, se);
      LeftShape(mem, root, p, a, x, c, b, y, d, e);
    }

    /** RB_ROTATE_RIGHT */
    method RotateRight(elm: Ref, ghost p: Path, ghost a: Tree, ghost x: Item, ghost c: Color,
                      ghost b: Tree, ghost y: Item, ghost d: Color, ghost e: Tree)
      requires elm == y.ref && At(mem, root, p, elm, Bin(Bin(a, x, c, b), y, d, e))
      modifies this
      ensures |mem| == old(|mem|)
      ensures At(mem, root, p, x.ref, Bin(a, x, c, Bin(b, y, d, e)))
      ensures Inorder(Plug(p, Bin(a, x, c, Bin(b, y, d, e)))) == Inorder(Plug(p, Bin(Bin(a, x, c, b), y, d, e)))
    {
      hide Parts, At;
      RotationSame(p, a, x, c, b, y, d, e);
      LeftShape(mem, root, p, a, x, c, b, y, d, e);
      var tmp := mem[elm].left;
      ghost var sa, se := Sub(mem[tmp].left, tmp, a), Sub(mem[elm].right, elm, e);
      ghost var sb := Sub(mem[tmp].right, tmp, b);
      HandOver(mem, root, p, elm, x.key, y.key, sa, sb, se, elm, mem[elm].(left := mem[tmp].right), elm);
      mem := Adopt(mem[elm := mem[elm].(left := mem[tmp].right)], mem[tmp].right, elm);
      sb := sb.(parent := elm);
      var up := mem[elm].parent;
      Rehang(mem, root, p, elm, x.key, y.key, sa, sb, se, tmp, mem[tmp].(parent := up), tmp);
      mem := ReplaceChild(mem[tmp := mem[tmp].(parent := up)], up, elm, tmp);
      if up == NULL {
        root := tmp;
      }
      ghost var m := mem;
      mem := mem[tmp := mem[tmp].(right := elm)];
      mem := mem[elm := mem[elm].(parent := tmp)];
      PartsFrame(m, mem, root, p, tmp, x.key, y.key, sa, sb, se);
      RightShape(mem, root, p, a, x, c, b, y, d, e);
    }

    /** RB_ROTATE_LEFT or RB_ROTATE_RIGHT: the child of `elm` away from side `d` takes its place. */
    method Rotate(d: Side, elm: Ref, ghost p: Path, ghost a: Tree, ghost x: Item, ghost c: Color,
                  ghost b: Tree, ghost y: Item, ghost k: Color, ghost e: Tree)
      requires elm == x.ref && At(mem, root, p, elm, Join(d, a, x, c, Join(d, b, y, k, e)))
      modifies this
      ensures |mem| == old(|mem|)
      ensures At(mem, root, p, y.ref, Join(d, Join(d, a, x, c, b), y, k, e))
      ensures Inorder(Plug(p, Join(d, Join(d, a, x, c, b), y, k, e))) ==
              Inorder(Plug(p, Join(d, a, x, c, Join(d, b, y, k, e))))
    {
      hide At, Inorder, Plug;
      match d
      case L => RotateLeft(elm, p, a, x, c, b, y, k, e);
      case R => RotateRight(elm, p, e, y, k, b, x, c, a);
    }

    // ----- RB_INSERT_COLOR -----

    /** RB_COLOR of two siblings set to black and of their parent to red. */
    method PushBlack(gparent: Ref, ghost up: Path, ghost l: Tree, ghost g: Item, ghost r: Tree)
      requires gparent == g.ref && At(mem, root, up, gparent, Bin(l, g, Black, r)) && l.Bin? && r.Bin?
      modifies this`mem
      ensures |mem| == old(|mem|)
      ensures At(mem, root, up, gparent, Bin(l.(color := Black), g, Red, r.(color := Black)))
      ensures Inorder(Plug(up, Bin(l.(color := Black), g, Red, r.(color := Black)))) ==
              Inorder(Plug(up, Bin(l, g, Black, r)))
    {
      hide At;
      ghost var l', r' := l.(color := Black), r.(color := Black);
      Down(mem, root, up, l, g, Black, r);
      var left := mem[gparent].left;
      Paint(left, Black, Left(up, g, Black, r), l.left, l.node, l.color, l.right);
      Up(mem, root, Left(up, g, Black, r), left, l');
      Down(mem, root, up, l', g, Black, r);
      var right := mem[gparent].right;
      Paint(right, Black, Right(up, l', g, Black), r.left, r.node, r.color, r.right);
      Up(mem, root, Right(up, l', g, Black), right, r');
      Paint(gparent, Red, up, l', g, Black, r');
    }

    /** The rotations of RB_INSERT_COLOR, the parent being a child on side `d` and the uncle black. */
    method Settle(d: Side, elm0: Ref, parent0: Ref, gparent: Ref,
                  ghost p: Path, ghost l: Tree, ghost x: Item, ghost r: Tree)
      returns (elm: Ref, ghost p': Path, ghost l': Tree, ghost x': Item, ghost r': Tree)
      requires At(mem, root, p, elm0, Bin(l, x, Red, r)) && Pushing(p, l, x, r)
      requires !p.Top? && p.color == Red && !p.up.Top? && ColorOf(Sibling(p.up)) == Black && SideOf(p.up) == d
      requires elm0 == x.ref && parent0 == p.node.ref && gparent == p.up.node.ref
      modifies this
      ensures |mem| == old(|mem|)
      ensures elm == x'.ref && At(mem, root, p', elm, Bin(l', x', Red, r')) && Pushing(p', l', x', r')
      ensures Length(p') < Length(p)
      ensures Inorder(Plug(p', Bin(l', x', Red, r'))) == Inorder(Plug(p, Bin(l, x, Red, r)))
    {
      hide At, Inorder, Plug, Linked, Pushing, Shaped, PathRedBlack, BlackHeight;
      elm, x', l', r' := elm0, x, l, r;
      var parent := parent0;
      ghost var up, g, u, q, s := p.up.up, p.up.node, Sibling(p.up), p.node, Sibling(p);
      PushingBelowRed(p, l, x, r);
      PushingSettles(d, p, l, x, r);
      WhichSide(mem, root, p, elm, Bin(l, x, Red, r));
      Up(mem, root, p, elm, Bin(l, x, Red, r));
      if Child(mem[parent], Other(d)) == elm {
        ghost var n, f := Near(d, Bin(l, x, Red, r)), Near(Other(d), Bin(l, x, Red, r));
        Rotate(d, parent, p.up, s, q, Red, n, x, Red, f);
        elm, parent := parent, elm;
        l', r' := Join(d, s, q, Red, n).left, Join(d, s, q, Red, n).right;
        x', q, s := q, x, f;
      }
      ghost var t := Bin(l', x', Red, r');
      PaintJoin(d, parent, Black, p.up, t, q, Red, s);
      Up(mem, root, p.up, parent, Join(d, t, q, Black, s));
      PaintJoin(d, gparent, Red, up, Join(d, t, q, Black, s), g, Black, u);
      Rotate(Other(d), gparent, up, u, g, Red, s, q, Black, t);
      p' := Hole(d, up, q, Black, Join(d, s, g, Red, u));
      DownJoin(mem, root, d, up, t, q, Black, Join(d, s, g, Red, u));
      AtNode(mem, root, p', Child(mem[q.ref], d), l', x', Red, r');
    }

    /** One iteration of RB_INSERT_COLOR. */
    method InsertStep(elm0: Ref, parent: Ref, ghost p: Path, ghost l: Tree, ghost x: Item, ghost r: Tree)
      returns (elm: Ref, ghost p': Path, ghost l': Tree, ghost x': Item, ghost r': Tree)
      requires At(mem, root, p, elm0, Bin(l, x, Red, r)) && Pushing(p, l, x, r)
      requires elm0 == x.ref && !p.Top? && p.color == Red && parent == p.node.ref
      modifies this
      ensures |mem| == old(|mem|)
      ensures At(mem, root, p', elm, Bin(l', x', Red, r')) && Pushing(p', l', x', r') && Length(p') < Length(p)
      ensures Inorder(Plug(p', Bin(l', x', Red, r'))) == Inorder(Plug(p, Bin(l, x, Red, r)))
    {
      hide At, Pushing, PathRedBlack, Inorder, Plug, Linked, Shaped, BlackHeight, RedBlack;
      PushingBelowRed(p, l, x, r);
      ghost var up, g, u, t := p.up.up, p.up.node, Sibling(p.up), Fill(p, Bin(l, x, Red, r));
      Up(mem, root, p, elm0, Bin(l, x, Red, r));
      var gparent := mem[parent].parent;
      WhichSide(mem, root, p.up, parent, t);
      Up(mem, root, p.up, parent, t);
      var d := if parent == mem[gparent].left then L else R;
      assert d == SideOf(p.up) by {
        assert Child(mem[gparent], L) == mem[gparent].left;
      }
      DownJoin(mem, root, d, up, t, g, Black, u);
      var tmp := Child(mem[gparent], Other(d));
      AtColor(mem, root, Hole(Other(d), up, g, Black, t), tmp, u);
      if tmp != NULL && mem[tmp].color == Red {
        PushingStep(p, l, x, r, g);
        ghost var j := Join(d, t, g, Black, u);
        PushBlack(gparent, up, j.left, g, j.right);
        return gparent, up, j.left.(color := Black), g, j.right.(color := Black);
      }
      elm, p', l', x', r' := Settle(d, elm0, parent, gparent, p, l, x, r);
    }

    /** RB_INSERT_COLOR: from a freshly linked red entry to a red-black tree of the same items. */
    method InsertColor(elm0: Ref, ghost p0: Path, ghost x0: Item)
      returns (ghost t': Tree)
      requires At(mem, root, p0, elm0, Bin(Leaf, x0, Red, Leaf)) && PathRedBlack(p0, 0)
      modifies this
      ensures |mem| == old(|mem|)
      ensures At(mem, root, Top, root, t') && RedBlack(t')
      ensures Inorder(t') == Before(p0) + [x0] + After(p0)
    {
      hide At, Pushing, PathRedBlack, Inorder, Plug, Linked, Shaped, BlackHeight, RedBlack, Length;
      var elm := elm0;
      ghost var p, l, x, r := p0, Leaf, x0, Leaf;
      AtNode(mem, root, p, elm, l, x, Red, r);
      PushingStart(p, x);
      var parent := mem[elm].parent;
      while parent != NULL && mem[parent].color == Red
        invariant |mem| == old(|mem|)
        invariant At(mem, root, p, elm, Bin(l, x, Red, r)) && Pushing(p, l, x, r)
        invariant elm == x.ref && parent == ParentOf(p, NULL)
        invariant !p.Top? ==> Holds(mem, p.node, ParentOf(p.up, NULL), p.color)
        invariant Inorder(Plug(p, Bin(l, x, Red, r))) == Inorder(Plug(p0, Bin(Leaf, x0, Red, Leaf)))
        decreases Length(p)
      {
        elm, p, l, x, r := InsertStep(elm, parent, p, l, x, r);
        AtNode(mem, root, p, elm, l, x, Red, r);
        parent := mem[elm].parent;
      }
      ghost var t := Plug(p, Bin(l, x, Red, r));
      LinkPlug(mem, root, p, elm, Bin(l, x, Red, r));
      PushingDone(p, l, x, r);
      PlugInorder(p0, Bin(Leaf, x0, Red, Leaf));
      Single(x0);
      PlugTop(t);
      PlugTop(t.(color := Black));
      Paint(root, Black, Top, t.left, t.node, t.color, t.right);
      t' := t.(color := Black);
    }

    // ----- RB_REMOVE_COLOR -----

    /** The first branch of the loop body: a red sibling. */
    method LowerSibling(d: Side, parent: Ref, tmp: Ref, ghost up: Path, ghost q: Item, ghost s: Tree, ghost t: Tree)
      requires parent == q.ref && At(mem, root, up, parent, Join(d, t, q, Black, s))
      requires s.Bin? && s.color == Red && tmp == s.node.ref
      modifies this
      ensures |mem| == old(|mem|)
      ensures At(mem, root, Hole(d, up, s.node, Black, Near(Other(d), s)), parent, Join(d, t, q, Red, Near(d, s)))
      ensures Inorder(Plug(Hole(d, up, s.node, Black, Near(Other(d), s)), Join(d, t, q, Red, Near(d, s)))) ==
              Inorder(Plug(up, Join(d, t, q, Black, s)))
    {
      hide At, Inorder, Plug;
      ghost var n, f := Near(d, s), Near(Other(d), s);
      DownJoin(mem, root, d, up, t, q, Black, s);
      AtColor(mem, root, Hole(Other(d), up, q, Black, t), Child(mem[parent], Other(d)), s);
      Paint(tmp, Black, Hole(Other(d), up, q, Black, t), s.left, s.node, Red, s.right);
      Up(mem, root, Hole(Other(d), up, q, Black, t), tmp, s.(color := Black));
      PaintJoin(d, parent, Red, up, t, q, Black, s.(color := Black));
      Rotate(d, parent, up, t, q, Red, n, s.node, Black, f);
      DownJoin(mem, root, d, up, Join(d, t, q, Red, n), s.node, Black, f);
      AtColor(mem, root, Hole(d, up, s.node, Black, f), Child(mem[s.node.ref], d), Join(d, t, q, Red, n));
    }

    /** A red near nephew of the short side, its far sibling black, is rotated into the sibling's place. */
    method TurnNephew(d: Side, tmp: Ref, ghost hole: Path, ghost o: Tree, ghost y: Item, ghost f: Tree)
      requires tmp == y.ref && At(mem, root, hole, tmp, Join(d, o, y, Black, f)) && o.Bin? && o.color == Red
      modifies this
      ensures |mem| == old(|mem|)
      ensures At(mem, root, hole, o.node.ref, Join(d, Near(d, o), o.node, Black, Join(d, Near(Other(d), o), y, Red, f)))
      ensures Inorder(Plug(hole, Join(d, Near(d, o), o.node, Black, Join(d, Near(Other(d), o), y, Red, f)))) ==
              Inorder(Plug(hole, Join(d, o, y, Black, f)))
    {
      hide At, Inorder, Plug;
      DownJoin(mem, root, d, hole, o, y, Black, f);
      var near := Child(mem[tmp], d);
      Paint(near, Black, Hole(d, hole, y, Black, f), o.left, o.node, Red, o.right);
      Up(mem, root, Hole(d, hole, y, Black, f), near, o.(color := Black));
      PaintJoin(d, tmp, Red, hole, o.(color := Black), y, Black, f);
      Rotate(Other(d), tmp, hole, f, y, Red, Near(Other(d), o), o.node, Black, Near(d, o));
    }

    /** A red far nephew: recolor around the parent and rotate it down to the short side. */
    method TurnParent(d: Side, parent: Ref, tmp: Ref, ghost up: Path, ghost t: Tree, ghost q: Item, ghost c: Color,
                      ghost s: Tree)
      requires parent == q.ref && At(mem, root, up, parent, Join(d, t, q, c, s))
      requires s.Bin? && s.color == Black && tmp == s.node.ref && ColorOf(Near(Other(d), s)) == Red
      modifies this
      ensures |mem| == old(|mem|)
      ensures At(mem, root, up, tmp,
        Join(d, Join(d, t, q, Black, Near(d, s)), s.node, c, Near(Other(d), s).(color := Black)))
      ensures
        Inorder(Plug(up, Join(d, Join(d, t, q, Black, Near(d, s)), s.node, c, Near(Other(d), s).(color := Black)))) ==
              Inorder(Plug(up, Join(d, t, q, c, s)))
    {
      hide At, Inorder, Plug;
      ghost var n, f := Near(d, s), Near(Other(d), s);
      ghost var hole, hole' := Hole(Other(d), up, q, c, t), Hole(Other(d), up, q, Black, t);
      DownJoin(mem, root, d, up, t, q, c, s);
      AtColor(mem, root, hole, Child(mem[parent], Other(d)), s);
      Paint(tmp, mem[parent].color, hole, s.left, s.node, Black, s.right);
      Up(mem, root, hole, tmp, s.(color := c));
      PaintJoin(d, parent, Black, up, t, q, c, s.(color := c));
      DownJoin(mem, root, d, up, t, q, Black, s.(color := c));
      AtColor(mem, root, hole', Child(mem[parent], Other(d)), s.(color := c));
      DownJoin(mem, root, d, hole', n, s.node, c, f);
      var far := Child(mem[tmp], Other(d));
      Paint(far, Black, Hole(Other(d), hole', s.node, c, n), f.left, f.node, Red, f.right);
      Up(mem, root, Hole(Other(d), hole', s.node, c, n), far, f.(color := Black));
      Up(mem, root, hole', tmp, Join(d, n, s.node, c, f.(color := Black)));
      Rotate(d, parent, up, t, q, Black, n, s.node, c, f.(color := Black));
    }

    /** If only the near nephew is red, it takes the sibling's place, so that the far one is red. */
    method FarRed(d: Side, parent: Ref, tmp0: Ref, ghost up: Path, ghost q: Item, ghost c: Color, ghost s0: Tree,
                  ghost t: Tree)
      returns (tmp: Ref, ghost s: Tree)
      requires parent == q.ref && At(mem, root, up, parent, Join(d, t, q, c, s0)) && Short(Hole(d, up, q, c, s0), t)
      requires ColorOf(t) == Black && s0.Bin? && s0.color == Black && tmp0 == s0.node.ref
      requires ColorOf(s0.left) == Red || ColorOf(s0.right) == Red
      modifies this
      ensures |mem| == old(|mem|)
      ensures At(mem, root, up, parent, Join(d, t, q, c, s)) && Short(Hole(d, up, q, c, s), t)
      ensures s.Bin? && s.color == Black && tmp == s.node.ref && ColorOf(Near(Other(d), s)) == Red
      ensures Inorder(Plug(up, Join(d, t, q, c, s))) == Inorder(Plug(up, Join(d, t, q, c, s0)))
    {
      hide At, Inorder, Plug, Short;
      tmp, s := tmp0, s0;
      ghost var hole := Hole(Other(d), up, q, c, t);
      DownJoin(mem, root, d, up, t, q, c, s);
      AtColor(mem, root, hole, Child(mem[parent], Other(d)), s);
      DownJoin(mem, root, d, hole, Near(d, s), s.node, Black, Near(Other(d), s));
      var far := Child(mem[tmp], Other(d));
      AtColor(mem, root, Hole(Other(d), hole, s.node, Black, Near(d, s)), far, Near(Other(d), s));
      if far == NULL || mem[far].color == Black {
        NearNephew(d, up, q, c, s, t);
        ghost var o, y, f := Near(d, s), s.node, Near(Other(d), s);
        TurnNephew(d, tmp, hole, o, y, f);
        s := Join(d, Near(d, o), o.node, Black, Join(d, Near(Other(d), o), y, Red, f));
        Up(mem, root, hole, o.node.ref, s);
        tmp := Child(mem[parent], Other(d));
      }
    }

    /** The last branch of the loop body: a red nephew repays the black, and the loop ends. */
    method PayBack(d: Side, parent: Ref, tmp0: Ref, ghost up: Path, ghost q: Item, ghost c: Color, ghost s0: Tree,
                   ghost t: Tree)
      returns (ghost u: Tree)
      requires parent == q.ref && At(mem, root, up, parent, Join(d, t, q, c, s0)) && Short(Hole(d, up, q, c, s0), t)
      requires ColorOf(t) == Black && s0.Bin? && s0.color == Black && tmp0 == s0.node.ref
      requires ColorOf(s0.left) == Red || ColorOf(s0.right) == Red
      modifies this
      ensures |mem| == old(|mem|)
      ensures At(mem, root, Top, root, u) && RedBlack(u)
      ensures Inorder(u) == Inorder(Plug(up, Join(d, t, q, c, s0)))
    {
      hide At, Inorder, Plug, RedBlack, Short;
      var tmp;
      ghost var s;
      tmp, s := FarRed(d, parent, tmp0, up, q, c, s0, t);
      FarNephew(d, up, q, c, s, t);
      TurnParent(d, parent, tmp, up, t, q, c, s);
      ghost var v := Join(d, Join(d, t, q, Black, Near(d, s)), s.node, c, Near(Other(d), s).(color := Black));
      u := Plug(up, v);
      LinkPlug(mem, root, up, tmp, v);
    }

    /** Finds the sibling of the short side, which is never null, and makes it black if it is red. */
    method BlackSibling(parent: Ref, elm: Ref, ghost p: Path, ghost t: Tree)
      returns (d: Side, tmp: Ref, ghost up: Path, ghost c: Color, ghost s: Tree)
      requires At(mem, root, p, elm, t) && Short(p, t) && !p.Top? && parent == p.node.ref
      modifies this
      ensures |mem| == old(|mem|)
      ensures s.Bin? && s.color == Black && tmp == s.node.ref
      ensures At(mem, root, up, parent, Join(d, t, p.node, c, s)) && Short(Hole(d, up, p.node, c, s), t)
      ensures Inorder(Plug(up, Join(d, t, p.node, c, s))) == Inorder(Plug(p, t))
      ensures Length(up) < Length(p) || (Length(up) == Length(p) && c == Red)
    {
      hide At, Inorder, Plug, Short;
      ShortSibling(p, t);
      Up(mem, root, p, elm, t);
      ghost var q := p.node;
      up, c, s := p.up, p.color, Sibling(p);
      DownJoin(mem, root, SideOf(p), up, t, q, c, s);
      AtColor(mem, root, Hole(Other(SideOf(p)), up, q, c, t), Child(mem[parent], Other(SideOf(p))), s);
      DistinctChildren(mem, root, up, q.ref, SideOf(p), t, q, c, s);
      d := if mem[parent].left == elm then L else R;
      tmp := Child(mem[parent], Other(d));
      if mem[tmp].color == Red {
        RedSibling(d, up, q, c, s, t);
        LowerSibling(d, parent, tmp, up, q, s, t);
        up, c, s := Hole(d, up, s.node, Black, Near(Other(d), s)), Red, Near(d, s);
        DownJoin(mem, root, d, up, t, q, c, s);
        tmp := Child(mem[parent], Other(d));
        AtColor(mem, root, Hole(Other(d), up, q, c, t), tmp, s);
      }
    }

    /** One iteration of RB_REMOVE_COLOR. */
    method RemoveStep(parent0: Ref, elm0: Ref, ghost p: Path, ghost t: Tree)
      returns (done: bool, parent: Ref, elm: Ref, ghost p': Path, ghost t': Tree)
      requires At(mem, root, p, elm0, t) && Short(p, t)
      requires !p.Top? && ColorOf(t) == Black && parent0 == p.node.ref
      modifies this
      ensures |mem| == old(|mem|)
      ensures At(mem, root, p', elm, t') && Inorder(Plug(p', t')) == Inorder(Plug(p, t))
      ensures parent == ParentOf(p', NULL)
      ensures done ==> p'.Top? && RedBlack(t')
      ensures !done ==> Short(p', t') && Length(p') <= Length(p) && (Length(p') == Length(p) ==> ColorOf(t') == Red)
    {
      hide At, Inorder, Plug, RedBlack, Short;
      var d, tmp; ghost var up, c, s;
      d, tmp, up, c, s := BlackSibling(parent0, elm0, p, t);
      ghost var q, hole := p.node, Hole(Other(d), up, p.node, c, t);
      DownJoin(mem, root, d, up, t, q, c, s);
      AtColor(mem, root, hole, Child(mem[parent0], Other(d)), s);
      Down(mem, root, hole, s.left, s.node, Black, s.right);
      AtColor(mem, root, Left(hole, s.node, Black, s.right), mem[tmp].left, s.left);
      AtColor(mem, root, Right(hole, s.left, s.node, Black), mem[tmp].right, s.right);
      if (mem[tmp].left == NULL || mem[mem[tmp].left].color == Black) &&
         (mem[tmp].right == NULL || mem[mem[tmp].right].color == Black) {
        BlackNephews(d, up, q, c, s, t);
        Paint(tmp, Red, hole, s.left, s.node, Black, s.right);
        Up(mem, root, hole, tmp, s.(color := Red));
        return false, mem[parent0].parent, parent0, up, Join(d, t, q, c, s.(color := Red));
      }
      t' := PayBack(d, parent0, tmp, up, q, c, s, t);
      PlugTop(t');
      done, parent, elm, p' := true, NULL, root, Top;
    }

    /** RB_REMOVE_COLOR: from a subtree that is one black short to a red-black tree of the same items. */
    method RemoveColor(parent0: Ref, elm0: Ref, ghost p0: Path, ghost t0: Tree)
      returns (ghost u: Tree)
      requires At(mem, root, p0, elm0, t0) && Short(p0, t0) && parent0 == ParentOf(p0, NULL)
      modifies this
      ensures |mem| == old(|mem|)
      ensures At(mem, root, Top, root, u) && RedBlack(u)
      ensures Inorder(u) == Inorder(Plug(p0, t0))
    {
      hide At, Inorder, Plug, RedBlack, Short, Length;
      var parent: Ref, elm: Ref := parent0, elm0;
      ghost var p, t := p0, t0;
      var done := false;
      AtColor(mem, root, p, elm, t);
      AtRoot(mem, root, p, elm, t);
      while !done && (elm == NULL || mem[elm].color == Black) && elm != root
        invariant |mem| == old(|mem|)
        invariant At(mem, root, p, elm, t) && Inorder(Plug(p, t)) == Inorder(Plug(p0, t0))
        invariant if done then p.Top? && RedBlack(t) else Short(p, t)
        invariant (elm == NULL <==> t.Leaf?) && (elm != NULL ==> elm < |mem| && mem[elm].color == t.color)
        invariant (elm == root <==> p.Top?) && parent == ParentOf(p, NULL)
        decreases !done, Length(p), ColorOf(t) == Black
      {
        done, parent, elm, p, t := RemoveStep(parent, elm, p, t);
        AtColor(mem, root, p, elm, t);
        AtRoot(mem, root, p, elm, t);
      }
      if !done {
        ShortDone(p, t);
      }
      RootBlack(t);
      if elm != NULL {
        Paint(elm, Black, p, t.left, t.node, t.color, t.right);
        t := t.(color := Black);
      }
      LinkPlug(mem, root, p, elm, t);
      u := Plug(p, t);
      PlugTop(u);
      PlugTop(t);
    }

    // ----- the operations -----

    ghost var tree: Tree

    /** The linked entries are a red-black search tree. */
    ghost predicate Valid()
      reads this
    {
      At(mem, root, Top, root, tree) && RedBlack(tree)
    }

    /** RB_INIT; only the null address exists. */
    constructor ()
      ensures Valid() && tree == Leaf && |mem| == 1
    {
      root, mem, tree := NULL, [Entry(NULL, NULL, NULL, Black, 0)], Leaf;
    }

    /** A new entry outside the tree. */
    method Alloc(sock: int) returns (n: Ref)
      requires Valid()
      modifies this`mem
      ensures Valid() && n == |old(mem)| && |mem| == n + 1 && mem[n].sock == sock
    {
      hide RedBlack;
      n := |mem|;
      LinkedGrow(mem, Entry(NULL, NULL, NULL, Black, sock), root, NULL, tree);
      mem := mem + [Entry(NULL, NULL, NULL, Black, sock)];
    }

    /** RB_FIND: finds an entry exactly when its key is in the tree. */
    method Find(key: int) returns (n: Ref)
      requires Valid() && MIN_KEY < key < MAX_KEY
      ensures n != NULL ==> Item(n, key) in Items(tree)
      ensures n == NULL ==> forall x :: x in Items(tree) ==> x.key != key
    {
      hide At;
      n := root;
      ghost var p, t := Top, tree;
      AtColor(mem, root, p, n, t);
      while n != NULL
        invariant At(mem, root, p, n, t) && Plug(p, t) == tree && Lo(p) < key < Hi(p)
        invariant (n == NULL <==> t.Leaf?) && (n != NULL ==> n < |mem|)
        decreases t
      {
        AtNode(mem, root, p, n, t.left, t.node, t.color, t.right);
        Down(mem, root, p, t.left, t.node, t.color, t.right);
        if key < mem[n].sock {
          n, p, t := mem[n].left, Left(p, t.node, t.color, t.right), t.left;
        } else if key > mem[n].sock {
          n, p, t := mem[n].right, Right(p, t.left, t.node, t.color), t.right;
        } else {
          PlugInorder(p, t);
          return;
        }
        AtColor(mem, root, p, n, t);
      }
      AbsentAt(mem, root, p, n, key);
    }

    /** The search of RB_INSERT: an entry with the key, or where a new one goes. */
    method Search(key: int) returns (found: Ref, parent: Ref, comp: int, ghost p: Path)
      requires Valid() && MIN_KEY < key < MAX_KEY
      ensures found != NULL ==> Item(found, key) in Items(tree)
      ensures found == NULL ==>
        && At(mem, root, p, NULL, Leaf) && Plug(p, Leaf) == tree && Lo(p) < key < Hi(p) && parent == ParentOf(p, NULL)
        && (parent == NULL <==> p.Top?) && (!p.Top? ==> (comp < 0 <==> p.Left?))
    {
      hide At, RedBlack, Plug;
      var tmp: Ref := root;
      parent, comp := NULL, 0;
      p := Top;
      ghost var t := tree;
      PlugTop(tree);
      AtColor(mem, root, p, tmp, t);
      while tmp != NULL
        invariant At(mem, root, p, tmp, t) && Plug(p, t) == tree && Lo(p) < key < Hi(p)
        invariant (tmp == NULL <==> t.Leaf?) && (tmp != NULL ==> tmp < |mem|)
        invariant parent == ParentOf(p, NULL) && (parent == NULL <==> p.Top?)
        invariant !p.Top? ==> (comp < 0 <==> p.Left?)
        decreases t
      {
        AtNode(mem, root, p, tmp, t.left, t.node, t.color, t.right);
        DownJoin(mem, root, L, p, t.left, t.node, t.color, t.right);
        parent := tmp;
        comp := if key < mem[parent].sock then -1 else if key > mem[parent].sock then 1 else 0;
        if comp < 0 {
          tmp, p, t := mem[tmp].left, Left(p, t.node, t.color, t.right), t.left;
        } else if comp > 0 {
          tmp, p, t := mem[tmp].right, Right(p, t.left, t.node, t.color), t.right;
        } else {
          PlugInorder(p, t);
          return tmp, parent, comp, p;
        }
        AtColor(mem, root, p, tmp, t);
      }
      found := NULL;
    }

    /** RB_INSERT: adds the entry, or returns the entry that already has its key and changes nothing. */
    method Insert(elm: Ref) returns (existing: Ref)
      requires Valid() && NULL < elm < |mem| && MIN_KEY < mem[elm].sock < MAX_KEY
      modifies this
      ensures Valid() && |mem| == old(|mem|)
      ensures existing != NULL ==>
        mem == old(mem) && root == old(root) && tree == old(tree) && Item(existing, mem[elm].sock) in Items(tree)
      ensures existing == NULL ==>
        && (forall x :: x in old(Items(tree)) ==> x.key != old(mem[elm].sock))
        && Items(tree) == old(Items(tree)) + {Item(elm, old(mem[elm].sock))}
    {
      hide At, RedBlack, Plug;
      var key := mem[elm].sock;
      var found, parent, comp; ghost var p;
      found, parent, comp, p := Search(key);
      if found != NULL {
        return found;
      }
      AbsentAt(mem, root, p, NULL, key);
      PlugInorder(p, Leaf);
      UnplugRedBlack(p, Leaf);
      Grafted(mem, root, p, elm);
      mem := mem[elm := Entry(NULL, NULL, parent, Red, key)];
      if parent != NULL {
        if comp < 0 {
          mem := mem[parent := mem[parent].(left := elm)];
        } else {
          mem := mem[parent := mem[parent].(right := elm)];
        }
      } else {
        root := elm;
      }
      tree := InsertColor(elm, p, Item(elm, key));
      existing := NULL;
    }

    /** The end of RB_REMOVE's first part: `child` takes the place of `elm`, which has at most that child. */
    method SpliceOut(elm: Ref, child: Ref, ghost p: Path, ghost l: Tree, ghost x: Item, ghost c: Color, ghost r: Tree)
      returns (parent: Ref, color: Color, ghost t: Tree)
      requires elm == x.ref && At(mem, root, p, elm, Bin(l, x, c, r)) && (l.Leaf? || r.Leaf?)
      requires child == RefOf(if l.Leaf? then r else l)
      modifies this`root, this`mem
      ensures |mem| == old(|mem|) && elm < |mem| && mem[elm] == old(mem[elm])
      ensures t == (if l.Leaf? then r else l) && At(mem, root, p, child, t)
      ensures parent == ParentOf(p, NULL) && color == c
    {
      hide At;
      SplicedOut(mem, root, p, l, x, c, r);
      AtNode(mem, root, p, elm, l, x, c, r);
      t := if l.Leaf? then r else l;
      parent := mem[elm].parent;
      color := mem[elm].color;
      mem := Adopt(mem, child, parent);
      mem := ReplaceChild(mem, parent, elm, child);
      if parent == NULL {
        root := child;
      }
    }

    /** The left-most entry below the right child of `victim`. */
    method FindSuccessor(victim: Ref, ghost p: Path, ghost l: Tree, ghost x: Item, ghost c: Color, ghost r: Tree)
      returns (elm: Ref, ghost seg: Path, ghost y: Item, ghost d: Color, ghost tr: Tree)
      requires victim == x.ref && At(mem, root, p, victim, Bin(l, x, c, r)) && r.Bin?
      ensures elm == y.ref && At(mem, root, Append(seg, Right(p, l, x, c)), elm, Bin(Leaf, y, d, tr))
      ensures Spine(seg) && Plug(seg, Bin(Leaf, y, d, tr)) == r
    {
      hide At, Plug;
      Down(mem, root, p, l, x, c, r);
      ghost var base, t := Right(p, l, x, c), r;
      elm, seg := mem[victim].right, Top;
      PlugTop(r);
      AtNode(mem, root, base, elm, r.left, r.node, r.color, r.right);
      while mem[elm].left != NULL
        invariant At(mem, root, Append(seg, base), elm, t) && t.Bin? && Spine(seg) && Plug(seg, t) == r
        invariant elm == t.node.ref && Holds(mem, t.node, ParentOf(Append(seg, base), NULL), t.color)
        decreases t
      {
        Down(mem, root, Append(seg, base), t.left, t.node, t.color, t.right);
        PlugLeft(seg, t);
        seg, t := Left(seg, t.node, t.color, t.right), t.left;
        elm := mem[elm].left;
        AtRef(mem, root, Append(seg, base), elm, t);
        AtNode(mem, root, Append(seg, base), elm, t.left, t.node, t.color, t.right);
      }
      Down(mem, root, Append(seg, base), t.left, t.node, t.color, t.right);
      AtRef(mem, root, Left(Append(seg, base), t.node, t.color, t.right), mem[elm].left, t.left);
      y, d, tr := t.node, t.color, t.right;
    }

    /** The entry `elm`, spliced out before, takes over all links of `victim`. */
    method TakePlace(elm: Ref, victim: Ref, ghost p: Path, ghost l: Tree, ghost x: Item, ghost c: Color, ghost r: Tree,
                     ghost y: Item)
      requires victim == x.ref && At(mem, root, p, victim, Bin(l, x, c, r)) && l.Bin?
      requires elm == y.ref && NULL < elm < |mem| && mem[elm].sock == y.key
      requires x.key < y.key < Hi(p) && Within(r, y.key, Hi(p))
      modifies this`root, this`mem
      ensures |mem| == old(|mem|)
      ensures At(mem, root, p, elm, Bin(l, y, c, r))
    {
      hide At, Within;
      Substituted(mem, root, p, l, x, c, r, y);
      AtNode(mem, root, p, victim, l, x, c, r);
      var v := mem[victim];
      mem := mem[elm := v.(sock := mem[elm].sock)];
      mem := ReplaceChild(mem, v.parent, victim, elm);
      if v.parent == NULL {
        root := elm;
      }
      mem := Adopt(mem, v.left, elm);
      mem := Adopt(mem, v.right, elm);
    }

    /** RB_REMOVE of an entry with two children: its successor is spliced out and put in its place. */
    method SpliceSuccessor(victim: Ref, ghost p: Path, ghost l: Tree, ghost x: Item, ghost c: Color, ghost r: Tree)
      returns (parent: Ref, child: Ref, color: Color, ghost p': Path, ghost t: Tree)
      requires victim == x.ref && At(mem, root, p, victim, Bin(l, x, c, r)) && l.Bin? && r.Bin?
      requires RedBlack(Plug(p, Bin(l, x, c, r)))
      modifies this`root, this`mem
      ensures |mem| == old(|mem|)
      ensures At(mem, root, p', child, t) && parent == ParentOf(p', NULL)
      ensures if color == Black then Short(p', t) else Fits(p', t)
      ensures Inorder(Plug(p', t)) == Before(p) + (Inorder(l) + Inorder(r)) + After(p)
    {
      hide At, Plug, Inorder, RedBlack, Short, Fits, Within, PathRedBlack, Spine, Lo, Hi;
      var elm; ghost var seg, y, d, tr;
      elm, seg, y, d, tr := FindSuccessor(victim, p, l, x, c, r);
      ghost var base, t0 := Right(p, l, x, c), Bin(Leaf, y, d, tr);
      UpSegment(mem, root, seg, base, elm, t0);
      Up(mem, root, base, RefOf(r), r);
      Successor(mem, root, p, l, x, c, seg, y, d, tr);
      SpineParent(mem, root, seg, p, l, x, c, elm, t0);
      Down(mem, root, Append(seg, base), Leaf, y, d, tr);
      child := mem[elm].right;
      AtRef(mem, root, Right(Append(seg, base), Leaf, y, d), child, tr);
      SplicedColors(Append(seg, base), Leaf, y, d, tr);
      parent, color, t := SpliceOut(elm, child, Append(seg, base), Leaf, y, d, tr);
      UpSegment(mem, root, seg, base, child, t);
      ghost var r' := Plug(seg, t);
      Up(mem, root, base, RefOf(r'), r');
      if mem[elm].parent == victim {
        parent := elm;
      }
      TakePlace(elm, victim, p, l, x, c, r', y);
      DownJoin(mem, root, L, p, l, y, c, r');
      AtRef(mem, root, Right(p, l, y, c), mem[elm].right, r');
      p' := Append(seg, Right(p, l, y, c));
      DownSegment(mem, root, seg, Right(p, l, y, c), t);
      RecoloredPlace(seg, p, l, x, y, c, t);
    }

    /** RB_REMOVE: takes exactly the given entry out of the tree. */
    method Remove(elm: Ref)
      requires Valid() && elm < |mem| && Item(elm, mem[elm].sock) in Items(tree)
      modifies this
      ensures Valid() && |mem| == old(|mem|)
      ensures Items(tree) == old(Items(tree)) - {Item(elm, old(mem[elm].sock))}
    {
      hide At, Plug, RedBlack, Inorder, Short, Fits;
      ghost var x := Item(elm, mem[elm].sock);
      ghost var p, l, c, r := Locate(mem, root, Top, root, tree, x);
      PlugTop(tree);
      Listed(mem, root, p, l, x, c, r);
      DownJoin(mem, root, L, p, l, x, c, r);
      AtRef(mem, root, Left(p, x, c, r), mem[elm].left, l);
      AtRef(mem, root, Right(p, l, x, c), mem[elm].right, r);
      var parent, child, color; ghost var p', t;
      if mem[elm].left == NULL || mem[elm].right == NULL {
        SplicedColors(p, l, x, c, r);
        child := if mem[elm].left == NULL then mem[elm].right else mem[elm].left;
        parent, color, t := SpliceOut(elm, child, p, l, x, c, r);
        p' := p;
        PlugInorder(p, t);
      } else {
        parent, child, color, p', t := SpliceSuccessor(elm, p, l, x, c, r);
      }
      if color == Black {
        tree := RemoveColor(parent, child, p', t);
      } else {
        FitsDone(p', t);
        LinkPlug(mem, root, p', child, t);
        tree := Plug(p', t);
      }
    }

    // ----- traversal -----

    /** RB_NEXT: the entry listed right after `elm`, or null. */
    method Next(elm0: Ref, ghost i: nat) returns (elm: Ref)
      requires Valid() && i < |Inorder(tree)| && Inorder(tree)[i].ref == elm0
      ensures elm == FirstRef(Inorder(tree)[i + 1..])
    {
      hide At, Plug, Inorder;
      PlugTop(tree);
      ghost var p, l, c, r := Locate(mem, root, Top, root, tree, Inorder(tree)[i]);
      ghost var x := Inorder(tree)[i];
      Position(mem, root, p, l, x, c, r, i);
      DownJoin(mem, root, L, p, l, x, c, r);
      AtRef(mem, root, Right(p, l, x, c), mem[elm0].right, r);
      elm := elm0;
      if mem[elm].right != NULL {
        elm := mem[elm].right;
        ghost var q, t := Right(p, l, x, c), r;
        AtNode(mem, root, q, elm, t.left, t.node, t.color, t.right);
        while mem[elm].left != NULL
          invariant At(mem, root, q, elm, t) && t.Bin? && NULL < elm < |mem|
          invariant FirstRef(Inorder(t)) == FirstRef(Inorder(r))
          decreases t
        {
          AtNode(mem, root, q, elm, t.left, t.node, t.color, t.right);
          Down(mem, root, q, t.left, t.node, t.color, t.right);
          AtRef(mem, root, Left(q, t.node, t.color, t.right), mem[elm].left, t.left);
          FirstOf(t);
          elm, q, t := mem[elm].left, Left(q, t.node, t.color, t.right), t.left;
          AtNode(mem, root, q, elm, t.left, t.node, t.color, t.right);
        }
        FirstOf(t);
        FirstOf(r);
        AtNode(mem, root, q, elm, t.left, t.node, t.color, t.right);
        Down(mem, root, q, t.left, t.node, t.color, t.right);
        AtRef(mem, root, Left(q, t.node, t.color, t.right), mem[elm].left, t.left);
      } else {
        FirstOf(r);
        ghost var q, t := p, Bin(l, x, c, r);
        AtNode(mem, root, q, elm, l, x, c, r);
        while mem[elm].parent != NULL && elm == mem[mem[elm].parent].right
          invariant At(mem, root, q, elm, t) && t.Bin? && Holds(mem, t.node, ParentOf(q, NULL), t.color)
          invariant elm == t.node.ref
          invariant !q.Top? ==> Holds(mem, q.node, ParentOf(q.up, NULL), q.color)
          invariant FirstRef(After(q)) == FirstRef(After(p))
          decreases q
        {
          WhichSide(mem, root, q, elm, t);
          assert Child(mem[q.node.ref], R) == elm;
          Up(mem, root, q, elm, t);
          elm, t, q := mem[elm].parent, Fill(q, t), q.up;
          AtNode(mem, root, q, elm, t.left, t.node, t.color, t.right);
        }
        if !q.Top? {
          WhichSide(mem, root, q, elm, t);
          assert Child(mem[q.node.ref], R) != elm;
        }
        elm := mem[elm].parent;
      }
    }

    /** RB_MINMAX: the entry listed first (`val` negative) or last, or null. */
    method MinMax(val: int) returns (parent: Ref)
      requires Valid()
      ensures parent == EndRef(val, Inorder(tree))
    {
      hide At, Inorder;
      var tmp: Ref := root;
      parent := NULL;
      ghost var p, t := Top, tree;
      AtColor(mem, root, p, tmp, t);
      FirstOf(tree);
      while tmp != NULL
        invariant At(mem, root, p, tmp, t) && (tmp == NULL <==> t.Leaf?)
        invariant (if t.Leaf? then parent else EndRef(val, Inorder(t))) == EndRef(val, Inorder(tree))
        decreases t
      {
        AtNode(mem, root, p, tmp, t.left, t.node, t.color, t.right);
        Down(mem, root, p, t.left, t.node, t.color, t.right);
        EndOf(val, t);
        parent := tmp;
        if val < 0 {
          tmp, p, t := mem[tmp].left, Left(p, t.node, t.color, t.right), t.left;
        } else {
          tmp, p, t := mem[tmp].right, Right(p, t.left, t.node, t.color), t.right;
        }
        AtColor(mem, root, p, tmp, t);
      }
    }

    /** RB_FOREACH: RB_MIN and repeated RB_NEXT visit every entry once, in ascending order of keys. */
    method ForEach() returns (visited: seq<Ref>)
      requires Valid()
      ensures |visited| == |Inorder(tree)| && forall i :: 0 <= i < |visited| ==> visited[i] == Inorder(tree)[i].ref
      ensures Increasing(Inorder(tree))
    {
      hide At, Inorder;
      FirstOf(tree);
      Ascending(mem, root, tree);
      visited := [];
      var n: Ref := MinMax(-1);
      while n != NULL
        invariant |visited| <= |Inorder(tree)| && n == FirstRef(Inorder(tree)[|visited|..])
        invariant forall i :: 0 <= i < |visited| ==> visited[i] == Inorder(tree)[i].ref
        decreases |Inorder(tree)| - |visited|
      {
        ghost var i := |visited|;
        visited := visited + [n];
        n := Next(n, i);
      }
    }
  }
}
