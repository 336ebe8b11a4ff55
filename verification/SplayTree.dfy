/**
  The top-down splay tree of WIN32-Code/tree.h. While it splays, two lists of subtrees hang from a scratch
  node: one on each side of the key. Colors are not used; trees are black throughout.
 */
module SplayTree {
  import opened Trees

  datatype Cell = Cell(left: Ref, right: Ref, key: int)

  /** The cells by address. The cell at the null address is the scratch node `__node` of a splay. */
  type Memory = seq<Cell>

  function Child(m: Memory, n: Ref, d: Side): Ref
    requires n < |m|
  {
    if d == L then m[n].left else m[n].right
  }

  function SetChild(m: Memory, n: Ref, d: Side, c: Ref): (r: Memory)
    requires n < |m|
    ensures |r| == |m| && Child(r, n, d) == c && Child(r, n, Other(d)) == Child(m, n, Other(d)) && r[n].key == m[n].key
    ensures forall k :: 0 <= k < |m| && k != n ==> r[k] == m[k]
  {
    if d == L then m[n := m[n].(left := c)] else m[n := m[n].(right := c)]
  }

  ghost predicate Linked(m: Memory, n: Ref, t: Tree)
    decreases t
  {
    match t
    case Leaf => n == NULL
    case Bin(l, x, c, r) =>
      c == Black && n == x.ref && NULL < n < |m| && m[n].key == x.key && Linked(m, m[n].left, l)
        && Linked(m, m[n].right, r)
  }

  // ----- the lists on both sides -----

  /** A list of cells with subtrees; the newest is last. On side `d` each subtree hangs on side `d` of its cell. */
  datatype List = Empty | Snoc(up: List, sub: Tree, x: Item)

  function Hook(ls: List): Ref {
    if ls.Empty? then NULL else ls.x.ref
  }

  /** The list hangs from the scratch node; the inner child of its newest cell is open. */
  ghost predicate Hung(m: Memory, d: Side, ls: List) {
    match ls
    case Empty => |m| > 0
    case Snoc(up, sub, x) =>
      && Hung(m, d, up) && NULL < x.ref < |m| && m[x.ref].key == x.key && Linked(m, Child(m, x.ref, d), sub)
      && Hook(up) < |m| && Child(m, Hook(up), Other(d)) == x.ref
  }

  function Limit(d: Side, ls: List): int {
    if ls.Snoc? then ls.x.key else if d == L then MIN_KEY else MAX_KEY
  }

  predicate Ahead(d: Side, a: int, b: int) {
    if d == L then a < b else b < a
  }

  ghost predicate Between(d: Side, t: Tree, a: int, b: int) {
    if d == L then Within(t, a, b) else Within(t, b, a)
  }

  ghost predicate Sorted(d: Side, ls: List) {
    ls.Snoc? ==>
      && Sorted(d, ls.up) && Ahead(d, Limit(d, ls.up), ls.x.key)
      && Between(d, ls.sub, Limit(d, ls.up), ls.x.key)
  }

  ghost function Node(d: Side, near: Tree, x: Item, far: Tree): Tree {
    Join(d, near, x, Black, far)
  }

  /** The list with `t` in its open place. */
  ghost function Filled(d: Side, ls: List, t: Tree): Tree {
    match ls
    case Empty => t
    case Snoc(up, sub, x) => Filled(d, up, Node(d, sub, x, t))
  }

  ghost function Flat(d: Side, ls: List): seq<Item> {
    match ls
    case Empty => []
    case Snoc(up, sub, x) => if d == L then Flat(d, up) + Inorder(sub) + [x] else [x] + Inorder(sub) + Flat(d, up)
  }

  // ----- frames -----

  lemma {:induction false} WithinWider(t: Tree, lo: int, hi: int, lo': int, hi': int)
    requires Within(t, lo, hi) && lo' <= lo && hi <= hi'
    ensures Within(t, lo', hi')
    decreases t
  {
    match t
    case Leaf =>
    case Bin(l, x, _, r) =>
      WithinWider(l, lo, x.key, lo', x.key);
      WithinWider(r, x.key, hi, x.key, hi');
  }

  /** The cells up to the limit of the list are as before, and so is what hangs from the scratch node on that side. */
  ghost predicate Stays(m: Memory, m': Memory, d: Side, ls: List) {
    && |m'| == |m| && |m| > 0
    && (forall k :: 0 < k < |m| && !Ahead(d, Limit(d, ls), m[k].key) ==> m'[k] == m[k])
    && Child(m', NULL, Other(d)) == Child(m, NULL, Other(d))
  }

  /** A tree stays linked while the cells with keys in its range stay; the scratch node is never part of a tree. */
  lemma {:induction false} LinkedCells(m: Memory, m': Memory, n: Ref, t: Tree, lo: int, hi: int)
    requires Linked(m, n, t) && Within(t, lo, hi) && |m'| == |m|
    requires forall k :: 0 < k < |m| && lo < m[k].key < hi ==> m'[k] == m[k]
    ensures Linked(m', n, t)
    decreases t
  {
    match t
    case Leaf =>
    case Bin(l, x, _, r) =>
      LinkedCells(m, m', m[n].left, l, lo, x.key);
      LinkedCells(m, m', m[n].right, r, x.key, hi);
  }

  lemma {:induction false} BetweenFrame(m: Memory, m': Memory, d: Side, n: Ref, t: Tree, a: int, b: int)
    requires Linked(m, n, t) && Between(d, t, a, b) && |m'| == |m|
    requires forall k :: 0 < k < |m| && !Ahead(d, b, m[k].key) ==> m'[k] == m[k]
    ensures Linked(m', n, t)
  {
    if d == L {
      LinkedCells(m, m', n, t, a, b);
    } else {
      LinkedCells(m, m', n, t, b, a);
    }
  }

  lemma {:induction false} HungFrame(m: Memory, m': Memory, d: Side, ls: List)
    requires Hung(m, d, ls) && Sorted(d, ls) && Stays(m, m', d, ls)
    ensures ls.Empty? || (0 < Hook(ls) < |m| && m[Hook(ls)].key == Limit(d, ls))
    ensures Hung(m', d, ls)
    decreases ls
  {
    match ls
    case Empty =>
    case Snoc(up, sub, x) =>
      HungFrame(m, m', d, up);
      BetweenFrame(m, m', d, Child(m, x.ref, d), sub, Limit(d, up), x.key);
  }

  // ----- a splay in progress -----

  /** Everything between the two lists hangs from `root`. */
  ghost predicate Spread(m: Memory, root: Ref, l: List, t: Tree, r: List) {
    && Hung(m, L, l) && Hung(m, R, r) && Linked(m, root, t) && Sorted(L, l) && Sorted(R, r)
    && Limit(L, l) < Limit(R, r) && Within(t, Limit(L, l), Limit(R, r))
  }

  /** The list on side `d`. */
  ghost function Pair(d: Side, l: List, r: List): List {
    if d == L then l else r
  }

  ghost function WithList(d: Side, ls: List, l: List, r: List): (List, List) {
    if d == L then (ls, r) else (l, ls)
  }

  ghost function All(l: List, t: Tree, r: List): seq<Item> {
    Flat(L, l) + Inorder(t) + Flat(R, r)
  }

  // ----- opening and closing a node -----

  ghost function Low(d: Side, key: int, lo: int): int {
    if d == L then lo else key
  }

  ghost function High(d: Side, key: int, hi: int): int {
    if d == L then key else hi
  }

  lemma {:induction false} Opened(m: Memory, n: Ref, d: Side, s: Tree, x: Item, c: Tree, lo: int, hi: int)
    requires Linked(m, n, Node(d, s, x, c)) && Within(Node(d, s, x, c), lo, hi)
    ensures n == x.ref && 0 < n < |m| && m[n].key == x.key && lo < x.key < hi
    ensures Linked(m, Child(m, n, d), s) && Linked(m, Child(m, n, Other(d)), c)
    ensures Within(s, Low(d, x.key, lo), High(d, x.key, hi))
    ensures Within(c, Low(Other(d), x.key, lo), High(Other(d), x.key, hi))
  {
  }

  lemma {:induction false} Closed(m: Memory, n: Ref, d: Side, s: Tree, x: Item, c: Tree, lo: int, hi: int)
    requires n == x.ref && 0 < n < |m| && m[n].key == x.key && lo < x.key < hi
    requires Linked(m, Child(m, n, d), s) && Linked(m, Child(m, n, Other(d)), c)
    requires Within(s, Low(d, x.key, lo), High(d, x.key, hi))
    requires Within(c, Low(Other(d), x.key, lo), High(Other(d), x.key, hi))
    ensures Linked(m, n, Node(d, s, x, c)) && Within(Node(d, s, x, c), lo, hi)
  {
  }

  /** Only cells with keys strictly between the lists changed. */
  ghost predicate Inside(m: Memory, m': Memory, lo: int, hi: int) {
    |m'| == |m| && |m| > 0 && m'[0] == m[0] && forall k :: 0 < k < |m| && !(lo < m[k].key < hi) ==> m'[k] == m[k]
  }

  lemma {:induction false} ListsKeep(m: Memory, m': Memory, l: List, r: List)
    requires Hung(m, L, l) && Hung(m, R, r) && Sorted(L, l) && Sorted(R, r) && Limit(L, l) < Limit(R, r)
    requires Inside(m, m', Limit(L, l), Limit(R, r))
    ensures Hung(m', L, l) && Hung(m', R, r)
  {
    HungFrame(m, m', L, l);
    HungFrame(m, m', R, r);
  }

  // ----- the steps of a splay -----

  /** SPLAY_ROTATE_RIGHT for side L, SPLAY_ROTATE_LEFT for side R. */
  function Rotated(m: Memory, root: Ref, tmp: Ref, d: Side): Memory
    requires root < |m| && tmp < |m|
  {
    SetChild(SetChild(m, root, d, Child(m, tmp, Other(d))), tmp, Other(d), root)
  }

  lemma {:induction false} NodeRef(m: Memory, n: Ref, d: Side, a: Tree, y: Item, b: Tree)
    requires Linked(m, n, Node(d, a, y, b))
    ensures n == y.ref
  {
  }

  lemma {:induction false} RotatedIs(m: Memory, root: Ref, tmp: Ref, d: Side)
    requires 0 < root < |m| && 0 < tmp < |m| && root != tmp
    ensures var m' := Rotated(m, root, tmp, d);
      && |m'| == |m| && (forall k :: 0 <= k < |m| && k != root && k != tmp ==> m'[k] == m[k])
      && m'[root].key == m[root].key && m'[tmp].key == m[tmp].key
      && Child(m', root, d) == Child(m, tmp, Other(d)) && Child(m', root, Other(d)) == Child(m, root, Other(d))
      && Child(m', tmp, d) == Child(m, tmp, d) && Child(m', tmp, Other(d)) == root
  {
  }

  lemma {:induction false} RotatedLinked(m: Memory, root: Ref, d: Side, a: Tree, y: Item, b: Tree, x: Item, c: Tree,
                                         lo: int, hi: int)
    requires Linked(m, root, Node(d, Node(d, a, y, b), x, c)) && Within(Node(d, Node(d, a, y, b), x, c), lo, hi)
    ensures 0 < root < |m| && 0 < y.ref < |m| && Child(m, root, d) == y.ref
    ensures Linked(Rotated(m, root, y.ref, d), y.ref, Node(d, a, y, Node(d, b, x, c)))
    ensures Within(Node(d, a, y, Node(d, b, x, c)), lo, hi) && Inside(m, Rotated(m, root, y.ref, d), lo, hi)
  {
    hide Linked, Within, SetChild, Node;
    Opened(m, root, d, Node(d, a, y, b), x, c, lo, hi);
    var lo1, hi1 := Low(d, x.key, lo), High(d, x.key, hi);
    NodeRef(m, Child(m, root, d), d, a, y, b);
    Opened(m, y.ref, d, a, y, b, lo1, hi1);
    var m' := Rotated(m, root, y.ref, d);
    var far := Other(d);
    RotatedIs(m, root, y.ref, d);
    hide Rotated, Child;
    LinkedCells(m, m', Child(m, y.ref, d), a, Low(d, y.key, lo1), High(d, y.key, hi1));
    LinkedCells(m, m', Child(m, y.ref, far), b, Low(far, y.key, lo1), High(far, y.key, hi1));
    LinkedCells(m, m', Child(m, root, far), c, Low(far, x.key, lo), High(far, x.key, hi));
    var lo2, hi2 := Low(far, y.key, lo), High(far, y.key, hi);
    Closed(m', root, d, b, x, c, lo2, hi2);
    Closed(m', y.ref, d, a, y, Node(d, b, x, c), lo, hi);
  }

  lemma {:induction false} RotateFlat(d: Side, a: Tree, y: Item, b: Tree, x: Item, c: Tree)
    ensures Inorder(Node(d, a, y, Node(d, b, x, c))) == Inorder(Node(d, Node(d, a, y, b), x, c))
  {
    if d == L {
      assert Inorder(a) + [y] + (Inorder(b) + [x] + Inorder(c)) == Inorder(a) + [y] + Inorder(b) + [x] + Inorder(c);
    } else {
      assert Inorder(c) + [x] + Inorder(b) + [y] + Inorder(a) == Inorder(c) + [x] + (Inorder(b) + [y] + Inorder(a));
    }
  }

  lemma {:induction false} RotatedSpread(m: Memory, root: Ref, l: List, r: List, d: Side, a: Tree, y: Item, b: Tree,
                                         x: Item, c: Tree)
    requires Spread(m, root, l, Node(d, Node(d, a, y, b), x, c), r)
    ensures 0 < root < |m| && 0 < y.ref < |m| && Child(m, root, d) == y.ref
    ensures Spread(Rotated(m, root, y.ref, d), y.ref, l, Node(d, a, y, Node(d, b, x, c)), r)
    ensures All(l, Node(d, a, y, Node(d, b, x, c)), r) == All(l, Node(d, Node(d, a, y, b), x, c), r)
  {
    hide Linked, Within, Rotated, Node, Hung, Sorted, Inorder, Flat, Inside;
    RotatedLinked(m, root, d, a, y, b, x, c, Limit(L, l), Limit(R, r));
    ListsKeep(m, Rotated(m, root, y.ref, d), l, r);
    RotateFlat(d, a, y, b, x, c);
  }

  /** The open place of a list takes any address. */
  lemma {:induction false} HungHole(m: Memory, d: Side, ls: List, c: Ref)
    requires Hung(m, d, ls) && Sorted(d, ls)
    ensures Hook(ls) < |m| && Hung(SetChild(m, Hook(ls), Other(d), c), d, ls)
  {
    match ls
    case Empty =>
    case Snoc(up, sub, x) =>
      var m' := SetChild(m, x.ref, Other(d), c);
      HungFrame(m, m', d, up);
      if d == L {
        LinkedCells(m, m', Child(m, x.ref, d), sub, Limit(d, up), x.key);
      } else {
        LinkedCells(m, m', Child(m, x.ref, d), sub, x.key, Limit(d, up));
      }
  }

  lemma {:induction false} Reassociate(a: seq<Item>, b: seq<Item>, c: seq<Item>, d: seq<Item>, e: seq<Item>)
    ensures a + b + (c + d + e) == a + (b + c + d) + e && (a + b + c) + d + e == a + (b + c + d) + e
  {
  }

  lemma {:induction false} LinkFlat(l: List, r: List, d: Side, s: Tree, x: Item, c: Tree)
    ensures var (l', r') := WithList(Other(d), Snoc(Pair(Other(d), l, r), c, x), l, r);
      All(l', s, r') == All(l, Node(d, s, x, c), r)
  {
    if d == L {
      Reassociate(Flat(L, l), Inorder(s), [x], Inorder(c), Flat(R, r));
    } else {
      Reassociate(Flat(L, l), Inorder(c), [x], Inorder(s), Flat(R, r));
    }
  }

  /** The open place of a list is outside of everything else. */
  lemma {:induction false} HookOutside(m: Memory, d: Side, ls: List, c: Ref, lo: int, hi: int)
    requires Hung(m, d, ls) && (if d == L then Limit(d, ls) <= lo else hi <= Limit(d, ls))
    ensures Hook(ls) < |m|
    ensures forall k :: 0 < k < |m| && lo < m[k].key < hi ==> SetChild(m, Hook(ls), Other(d), c)[k] == m[k]
  {
  }

  lemma {:induction false} OtherListKeeps(m: Memory, d: Side, ls: List, other: List, c: Ref)
    requires Hung(m, d, ls) && Hung(m, Other(d), other) && Sorted(Other(d), other)
    requires Ahead(Other(d), Limit(Other(d), other), Limit(d, ls))
    ensures Hook(ls) < |m| && Hung(SetChild(m, Hook(ls), Other(d), c), Other(d), other)
  {
    HungFrame(m, SetChild(m, Hook(ls), Other(d), c), Other(d), other);
  }

  lemma {:induction false} Longer(m: Memory, d: Side, ls: List, sub: Tree, x: Item)
    requires Hung(m, d, ls) && Sorted(d, ls) && NULL < x.ref < |m| && m[x.ref].key == x.key
    requires Linked(m, Child(m, x.ref, d), sub)
    requires Hook(ls) < |m| && Child(m, Hook(ls), Other(d)) == x.ref
    requires Ahead(d, Limit(d, ls), x.key) && Between(d, sub, Limit(d, ls), x.key)
    ensures Hung(m, d, Snoc(ls, sub, x)) && Sorted(d, Snoc(ls, sub, x))
  {
  }

  /** SPLAY_LINKLEFT for side L, SPLAY_LINKRIGHT for side R: the root goes to the list of the other side. */
  lemma {:induction false} LinkedSpread(m: Memory, root: Ref, l: List, r: List, d: Side, s: Tree, x: Item, c: Tree)
    requires Spread(m, root, l, Node(d, s, x, c), r)
    ensures 0 < root < |m| && Hook(Pair(Other(d), l, r)) < |m|
    ensures var (l', r') := WithList(Other(d), Snoc(Pair(Other(d), l, r), c, x), l, r);
      var m' := SetChild(m, Hook(Pair(Other(d), l, r)), d, root);
      Spread(m', Child(m', root, d), l', s, r') && All(l', s, r') == All(l, Node(d, s, x, c), r)
        && Child(m', root, d) == Child(m, root, d)
  {
    hide Linked, Within, Node, Hung, Sorted, Inorder, Flat, SetChild;
    var o := Other(d);
    var ls, other := Pair(o, l, r), Pair(d, l, r);
    var lo, hi := Limit(L, l), Limit(R, r);
    Opened(m, root, d, s, x, c, lo, hi);
    HookOutside(m, o, ls, root, lo, hi);
    var m' := SetChild(m, Hook(ls), d, root);
    HungHole(m, o, ls, root);
    OtherListKeeps(m, o, ls, other, root);
    LinkedCells(m, m', Child(m, root, d), s, Low(d, x.key, lo), High(d, x.key, hi));
    LinkedCells(m, m', Child(m, root, o), c, Low(o, x.key, lo), High(o, x.key, hi));
    LinkFlat(l, r, d, s, x, c);
    assert Hung(m', o, Snoc(ls, c, x)) && Sorted(o, Snoc(ls, c, x)) by { Longer(m', o, ls, c, x); }
  }

  // ----- SPLAY_ASSEMBLE -----

  lemma {:induction false} FillLinked(m: Memory, d: Side, ls: List, n: Ref, t: Tree)
    requires Hung(m, d, ls) && Linked(m, n, t) && Hook(ls) < |m| && Child(m, Hook(ls), Other(d)) == n
    ensures Linked(m, Child(m, NULL, Other(d)), Filled(d, ls, t))
    decreases ls
  {
    match ls
    case Empty =>
    case Snoc(up, sub, x) => FillLinked(m, d, up, x.ref, Node(d, sub, x, t));
  }

  lemma {:induction false} FillWithin(d: Side, ls: List, t: Tree, b: int)
    requires Sorted(d, ls) && Between(d, t, Limit(d, ls), b) && Ahead(d, Limit(d, ls), b)
    ensures Between(d, Filled(d, ls, t), Limit(d, Empty), b)
    decreases ls
  {
    match ls
    case Empty =>
    case Snoc(up, sub, x) =>
      assert Between(d, Node(d, sub, x, t), Limit(d, up), b);
      FillWithin(d, up, Node(d, sub, x, t), b);
  }

  lemma {:induction false} Assoc(a: seq<Item>, b: seq<Item>, c: seq<Item>, d: seq<Item>)
    ensures a + (b + c + d) == (a + b + c) + d
  {
  }

  lemma {:induction false} FillFlat(d: Side, ls: List, t: Tree)
    ensures Inorder(Filled(d, ls, t)) == if d == L then Flat(d, ls) + Inorder(t) else Inorder(t) + Flat(d, ls)
    decreases ls
  {
    match ls
    case Empty =>
    case Snoc(up, sub, x) =>
      FillFlat(d, up, Node(d, sub, x, t));
      if d == L {
        Assoc(Flat(d, up), Inorder(sub), [x], Inorder(t));
      } else {
        Assoc(Inorder(t), [x], Inorder(sub), Flat(d, up));
      }
  }

  /** One half of SPLAY_ASSEMBLE: a subtree of the root goes to the open place of the list on its side. */
  lemma {:induction false} FilledSide(m: Memory, d: Side, ls: List, other: List, n: Ref, t: Tree, key: int)
    requires Hung(m, d, ls) && Sorted(d, ls) && Hung(m, Other(d), other) && Sorted(Other(d), other)
    requires Linked(m, n, t) && Between(d, t, Limit(d, ls), key) && Ahead(d, Limit(d, ls), key)
    requires Ahead(d, key, Limit(Other(d), other))
    ensures Hook(ls) < |m|
    ensures var m' := SetChild(m, Hook(ls), Other(d), n);
      && Linked(m', Child(m', NULL, Other(d)), Filled(d, ls, t)) && Between(d, Filled(d, ls, t), Limit(d, Empty), key)
      && Hung(m', Other(d), other)
  {
    hide SetChild, Sorted, Filled, Within;
    HookOutside(m, d, ls, n, if d == L then Limit(d, ls) else key, if d == L then key else Limit(d, ls));
    HungHole(m, d, ls, n);
    OtherListKeeps(m, d, ls, other, n);
    var m' := SetChild(m, Hook(ls), Other(d), n);
    LinkedCells(m, m', n, t, if d == L then Limit(d, ls) else key, if d == L then key else Limit(d, ls));
    FillLinked(m', d, ls, n, t);
    FillWithin(d, ls, t, key);
  }

  lemma {:induction false} LimitOk(d: Side, ls: List)
    requires Sorted(d, ls)
    ensures if d == L then MIN_KEY <= Limit(d, ls) else Limit(d, ls) <= MAX_KEY
    decreases ls
  {
    if ls.Snoc? { LimitOk(d, ls.up); }
  }

  function Assembled(m: Memory, root: Ref, left: Ref, right: Ref): (r: Memory)
    requires root < |m| && left < |m| && right < |m| && |m| > 0
    ensures |r| == |m|
  {
    var m1 := SetChild(m, left, R, Child(m, root, L));
    var m2 := SetChild(m1, right, L, Child(m1, root, R));
    var m3 := SetChild(m2, root, L, Child(m2, NULL, R));
    SetChild(m3, root, R, Child(m3, NULL, L))
  }

  lemma {:induction false} AssembledLinked(m: Memory, root: Ref, l: List, a: Tree, x: Item, b: Tree, r: List)
    requires Spread(m, root, l, Bin(a, x, Black, b), r)
    ensures 0 < root < |m| && Hook(l) < |m| && Hook(r) < |m|
    ensures Linked(Assembled(m, root, Hook(l), Hook(r)), root, Bin(Filled(L, l, a), x, Black, Filled(R, r, b)))
    ensures Within(Bin(Filled(L, l, a), x, Black, Filled(R, r, b)), MIN_KEY, MAX_KEY)
  {
    hide SetChild, Hung, Sorted, Filled, Linked, Within;
    var lo, hi := Limit(L, l), Limit(R, r);
    Opened(m, root, L, a, x, b, lo, hi);
    FilledSide(m, L, l, r, Child(m, root, L), a, x.key);
    HookOutside(m, L, l, Child(m, root, L), lo, hi);
    var m1 := SetChild(m, Hook(l), R, Child(m, root, L));
    LinkedCells(m, m1, Child(m, root, R), b, x.key, hi);
    HungHole(m, L, l, Child(m, root, L));
    FilledSide(m1, R, r, l, Child(m1, root, R), b, x.key);
    HookOutside(m1, R, r, Child(m1, root, R), MIN_KEY, hi);
    var m2 := SetChild(m1, Hook(r), L, Child(m1, root, R));
    var ta, tb := Filled(L, l, a), Filled(R, r, b);
    LinkedCells(m1, m2, Child(m1, NULL, R), ta, MIN_KEY, x.key);
    var m4 := Assembled(m, root, Hook(l), Hook(r));
    LinkedCells(m2, m4, Child(m2, NULL, R), ta, MIN_KEY, x.key);
    LinkedCells(m2, m4, Child(m2, NULL, L), tb, x.key, MAX_KEY);
    LimitOk(L, l);
    LimitOk(R, r);
    Closed(m4, root, L, ta, x, tb, MIN_KEY, MAX_KEY);
  }

  // ----- what a splay achieves -----

  /** The root has the key, or no key of the tree lies between the root and the key. */
  ghost predicate Nearest(t: Tree, key: int) {
    t.Bin? && (key < t.node.key ==> Within(t.left, MIN_KEY, key))
      && (key > t.node.key ==> Within(t.right, key, MAX_KEY))
  }

  lemma {:induction false} WithinItems(t: Tree, lo: int, hi: int)
    requires Within(t, lo, hi)
    ensures forall x :: x in Inorder(t) ==> lo < x.key < hi
    decreases t
  {
    match t
    case Leaf =>
    case Bin(l, x, _, r) =>
      WithinItems(l, lo, x.key);
      WithinItems(r, x.key, hi);
  }

  /** Membership shows at the root. */
  lemma {:induction false} NearestFinds(t: Tree, key: int)
    requires Nearest(t, key) && Within(t, MIN_KEY, MAX_KEY)
    ensures t.node.key != key ==> forall x :: x in Items(t) ==> x.key != key
    ensures forall x :: x in Items(t) && x.key == key ==> x == t.node
  {
    WithinItems(t.left, MIN_KEY, t.node.key);
    WithinItems(t.right, t.node.key, MAX_KEY);
    if key < t.node.key { WithinItems(t.left, MIN_KEY, key); }
    if key > t.node.key { WithinItems(t.right, key, MAX_KEY); }
  }

  ghost function Done(l: List, t: Tree, r: List): Tree
    requires t.Bin?
  {
    Bin(Filled(L, l, t.left), t.node, Black, Filled(R, r, t.right))
  }

  /** The key lies between the lists. */
  predicate KeyBetween(l: List, key: int, r: List) {
    (l.Empty? || Limit(L, l) < key) && (r.Empty? || key < Limit(R, r))
  }

  /** Where the descent may stop. */
  predicate Stopped(t: Tree, key: int) {
    t.Bin? && (key < t.node.key ==> t.left.Leaf?) && (key > t.node.key ==> t.right.Leaf?)
  }

  lemma {:induction false} DoneNearest(l: List, t: Tree, r: List, key: int)
    requires Sorted(L, l) && Sorted(R, r) && KeyBetween(l, key, r) && Stopped(t, key)
    ensures Nearest(Done(l, t, r), key)
  {
    if key < t.node.key && l.Snoc? { FillWithin(L, l, Leaf, key); }
    if key > t.node.key && r.Snoc? { FillWithin(R, r, Leaf, key); }
  }

  lemma {:induction false} Middle(a: seq<Item>, b: seq<Item>, c: seq<Item>, d: seq<Item>, e: seq<Item>)
    ensures (a + b) + c + (d + e) == a + (b + c + d) + e
  {
  }

  lemma {:induction false} DoneFlat(l: List, t: Tree, r: List)
    requires t.Bin?
    ensures Inorder(Done(l, t, r)) == All(l, t, r)
  {
    FillFlat(L, l, t.left);
    FillFlat(R, r, t.right);
    hide Filled, Flat;
    Middle(Flat(L, l), Inorder(t.left), [t.node], Inorder(t.right), Flat(R, r));
  }

  /** A tree with two nodes on side `d`, taken apart. */
  lemma {:induction false} Shape(m: Memory, n: Ref, t: Tree, d: Side)
    requires Linked(m, n, t) && t.Bin?
    ensures t == Node(d, Near(d, t), t.node, Near(Other(d), t)) && 0 < n < |m| && m[n].key == t.node.key
    ensures n == t.node.ref
    ensures Linked(m, Child(m, n, d), Near(d, t)) && (Child(m, n, d) == NULL <==> Near(d, t).Leaf?)
    ensures Near(d, t).Bin? ==> Child(m, n, d) < |m| && m[Child(m, n, d)].key == Near(d, t).node.key
    ensures Near(d, t).Bin? ==> Child(m, n, d) == Near(d, t).node.ref
  {
  }

  /** Keys stay, and cells that are neither in `s` nor scratch stay. */
  ghost predicate Local(m: Memory, m': Memory, s: seq<Item>) {
    && |m'| == |m| && (forall k :: 0 <= k < |m| ==> m'[k].key == m[k].key)
    && (forall k :: 0 < k < |m| && (forall x :: x in s ==> x.ref != k) ==> m'[k] == m[k])
  }

  lemma {:induction false} LocalSet(m: Memory, s: seq<Item>, n: Ref, d: Side, c: Ref)
    requires n < |m| && (n == 0 || exists x :: x in s && x.ref == n)
    ensures Local(m, SetChild(m, n, d, c), s)
  {
  }

  lemma {:induction false} LocalTrans(m: Memory, m1: Memory, m2: Memory, s: seq<Item>)
    requires Local(m, m1, s) && Local(m1, m2, s)
    ensures Local(m, m2, s)
  {
  }

  lemma {:induction false} RotatedLocal(m: Memory, root: Ref, tmp: Ref, d: Side, s: seq<Item>, x: Item, y: Item)
    requires root < |m| && tmp < |m| && x in s && y in s && x.ref == root && y.ref == tmp
    ensures Local(m, Rotated(m, root, tmp, d), s)
  {
    hide SetChild, Local;
    var m1 := SetChild(m, root, d, Child(m, tmp, Other(d)));
    LocalSet(m, s, root, d, Child(m, tmp, Other(d)));
    LocalSet(m1, s, tmp, Other(d), root);
    LocalTrans(m, m1, Rotated(m, root, tmp, d), s);
  }

  lemma {:induction false} HookIn(l: List, t: Tree, r: List, d: Side)
    ensures Hook(Pair(d, l, r)) == 0 || exists x :: x in All(l, t, r) && x.ref == Hook(Pair(d, l, r))
  {
    var ls := Pair(d, l, r);
    if ls.Snoc? {
      assert ls.x in Flat(d, ls);
      assert ls.x in All(l, t, r);
    }
  }

  lemma {:induction false} NodesIn(l: List, t: Tree, r: List, d: Side)
    requires t.Bin?
    ensures t.node in All(l, t, r) && (Near(d, t).Bin? ==> Near(d, t).node in All(l, t, r))
  {
    assert t.node in Inorder(t);
    if Near(d, t).Bin? {
      assert Near(d, t).node in Inorder(Near(d, t));
      assert Near(d, t).node in Inorder(t);
    }
  }

  lemma {:induction false} AssembledLocal(m: Memory, root: Ref, l: List, t: Tree, r: List)
    requires t.Bin? && root == t.node.ref && root < |m| && Hook(l) < |m| && Hook(r) < |m| && |m| > 0
    ensures Local(m, Assembled(m, root, Hook(l), Hook(r)), All(l, t, r))
  {
    hide SetChild, Local, All;
    var s := All(l, t, r);
    HookIn(l, t, r, L);
    HookIn(l, t, r, R);
    NodesIn(l, t, r, L);
    var m1 := SetChild(m, Hook(l), R, Child(m, root, L));
    LocalSet(m, s, Hook(l), R, Child(m, root, L));
    var m2 := SetChild(m1, Hook(r), L, Child(m1, root, R));
    LocalSet(m1, s, Hook(r), L, Child(m1, root, R));
    LocalTrans(m, m1, m2, s);
    var m3 := SetChild(m2, root, L, Child(m2, NULL, R));
    LocalSet(m2, s, root, L, Child(m2, NULL, R));
    LocalTrans(m, m2, m3, s);
    LocalSet(m3, s, root, R, Child(m3, NULL, L));
    LocalTrans(m, m3, SetChild(m3, root, R, Child(m3, NULL, L)), s);
  }

  lemma {:induction false} LinkedKeys(m: Memory, n: Ref, t: Tree)
    requires Linked(m, n, t)
    ensures forall x :: x in Inorder(t) ==> 0 < x.ref < |m| && m[x.ref].key == x.key
    decreases t
  {
    match t
    case Leaf =>
    case Bin(l, x, _, r) =>
      LinkedKeys(m, m[n].left, l);
      LinkedKeys(m, m[n].right, r);
  }

  lemma {:induction false} LocalNone(m: Memory, s: seq<Item>)
    ensures Local(m, m, s)
  {
  }

  lemma {:induction false} LocalSize(m: Memory, m': Memory, s: seq<Item>)
    requires Local(m, m', s)
    ensures |m'| == |m|
  {
  }

  lemma {:induction false} LocalKey(m: Memory, m': Memory, s: seq<Item>, n: Ref)
    requires Local(m, m', s) && n < |m|
    ensures |m'| == |m| && m'[n].key == m[n].key
  {
  }

  lemma {:induction false} ScratchLocal(m: Memory, s: seq<Item>)
    requires |m| > 0
    ensures Local(m, m[NULL := m[NULL].(left := NULL, right := NULL)], s)
  {
  }

  lemma {:induction false} RootShape(m: Memory, root: Ref, t: Tree)
    requires Linked(m, root, t)
    ensures root == NULL <==> t.Leaf?
    ensures t.Bin? ==> 0 < root < |m| && root == t.node.ref && m[root].key == t.node.key && t.color == Black
  {
  }

  lemma {:induction false} ItemsNode(d: Side, a: Tree, x: Item, b: Tree)
    ensures Items(Node(d, a, x, b)) == Items(a) + {x} + Items(b)
    ensures Items(Leaf) == {}
  {
    var t := Node(d, a, x, b);
    assert forall y :: y in Inorder(t) <==> y in Inorder(a) || y == x || y in Inorder(b);
  }

  lemma {:induction false} SingleOk(m: Memory, n: Ref, x: Item)
    requires 0 < n < |m| && m[n] == Cell(NULL, NULL, x.key) && x.ref == n && MIN_KEY < x.key < MAX_KEY
    ensures Linked(m, n, Bin(Leaf, x, Black, Leaf)) && Within(Bin(Leaf, x, Black, Leaf), MIN_KEY, MAX_KEY)
    ensures Items(Bin(Leaf, x, Black, Leaf)) == {x}
  {
    ItemsNode(L, Leaf, x, Leaf);
  }

  /** The tree with `x` as new root; the old root goes to the other side. */
  ghost function Grown(d: Side, t: Tree, x: Item): Tree
    requires t.Bin?
  {
    Node(d, Near(d, t), x, Node(d, Leaf, t.node, Near(Other(d), t)))
  }

  lemma {:induction false} NoTree(m: Memory, lo: int, hi: int)
    ensures Linked(m, NULL, Leaf) && Within(Leaf, lo, hi)
  {
  }

  lemma {:induction false} GrownIs(d: Side, t: Tree, x: Item)
    requires t.Bin?
    ensures Grown(d, t, x) == Node(d, Near(d, t), x, Node(d, Leaf, t.node, Near(Other(d), t)))
  {
  }

  lemma {:induction false} NearestSide(t: Tree, d: Side, key: int)
    requires Nearest(t, key) && (if d == L then key < t.node.key else key > t.node.key)
    ensures Within(Near(d, t), Low(d, key, MIN_KEY), High(d, key, MAX_KEY))
  {
  }

  lemma {:induction false} GrownItems(d: Side, t: Tree, x: Item)
    requires t.Bin? && t.color == Black
    ensures Items(Grown(d, t, x)) == Items(t) + {x}
  {
    hide Items;
    ItemsNode(d, Near(d, t), x, Node(d, Leaf, t.node, Near(Other(d), t)));
    ItemsNode(d, Leaf, t.node, Near(Other(d), t));
    ItemsNode(d, Near(d, t), t.node, Near(Other(d), t));
    assert t == Node(d, Near(d, t), t.node, Near(Other(d), t));
  }

  lemma {:induction false} NewRoot(m: Memory, root: Ref, t: Tree, d: Side, x: Item)
    requires Linked(m, root, t) && t.Bin? && Within(t, MIN_KEY, MAX_KEY) && Nearest(t, x.key)
    requires MIN_KEY < x.key < MAX_KEY
    requires 0 < x.ref < |m| && m[x.ref].key == x.key && (if d == L then x.key < t.node.key else x.key > t.node.key)
    ensures root < |m| && x.ref != root
    ensures var m' := SetChild(SetChild(SetChild(m, x.ref, d, Child(m, root, d)), x.ref, Other(d), root), root, d,
      NULL);
      Linked(m', x.ref, Grown(d, t, x)) && Within(Grown(d, t, x), MIN_KEY, MAX_KEY)
    ensures Items(Grown(d, t, x)) == Items(t) + {x}
  {
    hide Linked, Within, SetChild, Node, Items, Grown, Nearest;
    var o, near, far := Other(d), Near(d, t), Near(Other(d), t);
    Shape(m, root, t, d);
    RootShape(m, root, t);
    GrownItems(d, t, x);
    Opened(m, root, d, near, t.node, far, MIN_KEY, MAX_KEY);
    NearestSide(t, d, x.key);
    var m' := SetChild(SetChild(SetChild(m, x.ref, d, Child(m, root, d)), x.ref, o, root), root, d, NULL);
    LinkedCells(m, m', Child(m, root, d), near, Low(d, x.key, MIN_KEY), High(d, x.key, MAX_KEY));
    LinkedCells(m, m', Child(m, root, o), far, Low(o, t.node.key, MIN_KEY), High(o, t.node.key, MAX_KEY));
    NoTree(m', Low(d, t.node.key, MIN_KEY), High(d, t.node.key, MAX_KEY));
    var lo, hi := Low(o, x.key, MIN_KEY), High(o, x.key, MAX_KEY);
    NoTree(m', Low(d, t.node.key, lo), High(d, t.node.key, hi));
    Closed(m', root, d, Leaf, t.node, far, lo, hi);
    Closed(m', x.ref, d, near, x, Node(d, Leaf, t.node, far), MIN_KEY, MAX_KEY);
    GrownIs(d, t, x);
  }

  lemma {:induction false} SameItems(t: Tree, u: Tree)
    requires Inorder(t) == Inorder(u)
    ensures Items(t) == Items(u)
  {
  }

  lemma {:induction false} NoItems()
    ensures Items(Leaf) == {}
  {
  }

  lemma {:induction false} RootIn(t: Tree)
    requires t.Bin?
    ensures t.node in Items(t)
  {
  }

  /** The two subtrees of a tree whose root has the key. */
  lemma {:induction false} Halves(m: Memory, root: Ref, t: Tree)
    requires Linked(m, root, t) && t.Bin? && Within(t, MIN_KEY, MAX_KEY)
    ensures root < |m| && Linked(m, m[root].left, t.left) && Linked(m, m[root].right, t.right)
    ensures Within(t.left, MIN_KEY, MAX_KEY) && Within(t.right, MIN_KEY, MAX_KEY)
    ensures m[root].left == NULL <==> t.left.Leaf?
    ensures Items(t) == Items(t.left) + {t.node} + Items(t.right)
    ensures forall x :: x in Items(t.left) ==> x.key < t.node.key
    ensures forall x :: x in Items(t.right) ==> x.key > t.node.key
  {
    ItemsNode(L, t.left, t.node, t.right);
    WithinWider(t.left, MIN_KEY, t.node.key, MIN_KEY, MAX_KEY);
    WithinWider(t.right, t.node.key, MAX_KEY, MIN_KEY, MAX_KEY);
    WithinItems(t.left, MIN_KEY, t.node.key);
    WithinItems(t.right, t.node.key, MAX_KEY);
    hide Inorder;
  }

  /** After the second splay the root has no right child, and the right subtree is untouched. */
  lemma {:induction false} JoinHalves(m: Memory, m': Memory, root: Ref, u: Tree, t: Tree, tmp: Ref, key: int)
    requires t.Bin? && t.left.Bin? && t.node.key == key && Within(t, MIN_KEY, MAX_KEY)
    requires Linked(m, t.left.node.ref, t.left) && Linked(m, tmp, t.right)
    requires Linked(m', root, u) && Within(u, MIN_KEY, MAX_KEY) && Inorder(u) == Inorder(t.left) && Nearest(u, key)
    requires Local(m, m', Inorder(t.left))
    ensures root < |m'| && u.Bin?
    ensures Linked(m'[root := m'[root].(right := tmp)], root, u.(right := t.right))
    ensures Within(u.(right := t.right), MIN_KEY, MAX_KEY)
    ensures Items(u.(right := t.right)) == Items(t.left) + Items(t.right)
  {
    WithinItems(t.left, MIN_KEY, key);
    WithinItems(u.left, MIN_KEY, u.node.key);
    assert u.node in Inorder(u);
    assert u.right.Leaf?;
    LinkedKeys(m, t.left.node.ref, t.left);
    LinkedCells(m, m', tmp, t.right, key, MAX_KEY);
    var m2 := m'[root := m'[root].(right := tmp)];
    LinkedCells(m', m2, m'[root].left, u.left, MIN_KEY, u.node.key);
    LinkedCells(m', m2, tmp, t.right, key, MAX_KEY);
    WithinWider(t.right, key, MAX_KEY, u.node.key, MAX_KEY);
    ItemsNode(L, u.left, u.node, u.right);
    ItemsNode(L, u.left, u.node, t.right);
  }

  lemma {:induction false} SpreadShape(m: Memory, root: Ref, l: List, t: Tree, r: List, d: Side)
    requires Spread(m, root, l, t, r) && t.Bin?
    ensures t == Node(d, Near(d, t), t.node, Near(Other(d), t)) && 0 < root < |m| && m[root].key == t.node.key
    ensures root == t.node.ref
    ensures Child(m, root, d) == NULL <==> Near(d, t).Leaf?
    ensures Near(d, t).Bin? ==> Child(m, root, d) < |m| && m[Child(m, root, d)].key == Near(d, t).node.key
  {
    hide Hung, Sorted;
    Shape(m, root, t, d);
  }

  /** Writing the scratch node does not touch the tree. */
  lemma {:induction false} Scratch(m: Memory, root: Ref, t: Tree)
    requires |m| > 0 && Linked(m, root, t) && Within(t, MIN_KEY, MAX_KEY)
    ensures Spread(m[NULL := m[NULL].(left := NULL, right := NULL)], root, Empty, t, Empty)
    ensures All(Empty, t, Empty) == Inorder(t)
  {
    LinkedCells(m, m[NULL := m[NULL].(left := NULL, right := NULL)], root, t, MIN_KEY, MAX_KEY);
  }

  class SplayMap {
    var root: Ref
    var mem: Memory
    ghost var tree: Tree

    /** The linked cells are a search tree. */
    ghost predicate Valid()
      reads this
    {
      |mem| > 0 && Linked(mem, root, tree) && Within(tree, MIN_KEY, MAX_KEY)
    }

    constructor (mem: Memory)
      requires |mem| > 0
      ensures Valid() && tree == Leaf && this.mem == mem
    {
      root, this.mem, tree := NULL, mem, Leaf;
    }

    /** A rotation of the root with its child on side `d`. */
    method Rotate(d: Side, ghost l: List, ghost t: Tree, ghost r: List) returns (ghost t': Tree)
      requires Spread(mem, root, l, t, r) && t.Bin? && Near(d, t).Bin?
      modifies this`root, this`mem
      ensures Local(old(mem), mem, All(l, t, r)) && Spread(mem, root, l, t', r) && All(l, t', r) == All(l, t, r)
      ensures t' == Node(d, Near(d, Near(d, t)), Near(d, t).node,
        Node(d, Near(Other(d), Near(d, t)), t.node, Near(Other(d), t)))
    {
      hide Linked, Hung, Sorted, Within, All, Local, Rotated;
      Shape(mem, root, t, d);
      ghost var s := Near(d, t);
      NodesIn(l, t, r, d);
      Shape(mem, Child(mem, root, d), s, d);
      RotatedSpread(mem, root, l, r, d, Near(d, s), s.node, Near(Other(d), s), t.node, Near(Other(d), t));
      var tmp := Child(mem, root, d);
      RotatedLocal(mem, root, tmp, d, All(l, t, r), t.node, s.node);
      mem := Rotated(mem, root, tmp, d);
      root := tmp;
      t' := Node(d, Near(d, s), s.node, Node(d, Near(Other(d), s), t.node, Near(Other(d), t)));
    }

    /** The root goes to the list of the other side; its child on side `d` takes its place. */
    method Link(d: Side, hook: Ref, ghost l: List, ghost t: Tree, ghost r: List)
      returns (ghost l': List, ghost r': List)
      requires Spread(mem, root, l, t, r) && t.Bin? && hook == Hook(Pair(Other(d), l, r))
      modifies this`root, this`mem
      ensures Local(old(mem), mem, All(l, t, r))
      ensures (l', r') == WithList(Other(d), Snoc(Pair(Other(d), l, r), Near(Other(d), t), t.node), l, r)
      ensures Spread(mem, root, l', Near(d, t), r') && All(l', Near(d, t), r') == All(l, t, r)
      ensures old(root) == t.node.ref
    {
      hide Linked, Hung, Sorted, Within, All, Local;
      Shape(mem, root, t, d);
      LinkedSpread(mem, root, l, r, d, Near(d, t), t.node, Near(Other(d), t));
      HookIn(l, t, r, Other(d));
      LocalSet(mem, All(l, t, r), hook, d, root);
      mem := SetChild(mem, hook, d, root);
      root := Child(mem, root, d);
      var p := WithList(Other(d), Snoc(Pair(Other(d), l, r), Near(Other(d), t), t.node), l, r);
      l', r' := p.0, p.1;
    }

    /** One turn of the loop of SPLAY, towards side `d`; false if the descent stops. */
    method Descend(d: Side, key: int, left: Ref, right: Ref, ghost l: List, ghost t: Tree, ghost r: List)
      returns (more: bool, left': Ref, right': Ref, ghost l': List, ghost t': Tree, ghost r': List)
      requires Spread(mem, root, l, t, r) && t.Bin? && left == Hook(l) && right == Hook(r) && KeyBetween(l, key, r)
      requires if d == L then key < t.node.key else key > t.node.key
      modifies this`root, this`mem
      ensures Local(old(mem), mem, All(l, t, r)) && Spread(mem, root, l', t', r') && t'.Bin? && left' == Hook(l')
      ensures right' == Hook(r') && KeyBetween(l', key, r')
      ensures All(l', t', r') == All(l, t, r)
      ensures if more then t' < t else Stopped(t', key)
    {
      hide Spread, All, Linked, Hung, Sorted, Within, Local;
      LocalNone(mem, All(l, t, r));
      left', right', l', t', r' := left, right, l, t, r;
      SpreadShape(mem, root, l, t, r, d);
      var tmp := Child(mem, root, d);
      if tmp == NULL {
        return false, left, right, l, t, r;
      }
      if (d == L && key < mem[tmp].key) || (d == R && key > mem[tmp].key) {
        t' := Rotate(d, l, t, r);
        SpreadShape(mem, root, l, t', r, d);
        if Child(mem, root, d) == NULL {
          return false, left, right, l, t', r;
        }
      }
      var was := root;
      ghost var u, m := t', mem;
      l', r' := Link(d, if d == L then right else left, l, t', r);
      LocalTrans(old(mem), m, mem, All(l, t, r));
      t' := Near(d, u);
      if d == L {
        right' := was;
      } else {
        left' := was;
      }
      more := true;
    }

    /** SPLAY_ASSEMBLE */
    method Assemble(key: int, left: Ref, right: Ref, ghost l: List, ghost t: Tree, ghost r: List)
      requires Spread(mem, root, l, t, r) && left == Hook(l) && right == Hook(r) && KeyBetween(l, key, r)
      requires Stopped(t, key)
      modifies this`mem, this`tree
      ensures Valid() && Local(old(mem), mem, All(l, t, r)) && Inorder(tree) == All(l, t, r) && Nearest(tree, key)
    {
      hide Linked, Hung, Sorted, Within, All, Nearest, Assembled, Local;
      Shape(mem, root, t, L);
      AssembledLinked(mem, root, l, t.left, t.node, t.right, r);
      AssembledLocal(mem, root, l, t, r);
      DoneNearest(l, t, r, key);
      DoneFlat(l, t, r);
      mem := Assembled(mem, root, left, right);
      tree := Done(l, t, r);
    }

    /** SPLAY: brings the key, or a neighbour of it, to the root. With a key beyond all others it is SPLAY_MINMAX. */
    method Splay(key: int)
      requires Valid() && tree.Bin?
      modifies this
      ensures Valid() && Local(old(mem), mem, old(Inorder(tree))) && Inorder(tree) == old(Inorder(tree))
      ensures Nearest(tree, key)
    {
      hide Spread, All, Linked, Hung, Sorted, Nearest, Inorder, Flat, Local;
      var left: Ref, right: Ref, more := NULL, NULL, true;
      ghost var l, t, r := Empty, tree, Empty;
      Scratch(mem, root, tree);
      ScratchLocal(mem, Inorder(tree));
      mem := mem[NULL := mem[NULL].(left := NULL, right := NULL)];
      SpreadShape(mem, root, l, t, r, L);
      ghost var s := Inorder(tree);
      while key != mem[root].key && more
        invariant Local(old(mem), mem, s) && 0 < root < |mem| && Spread(mem, root, l, t, r) && t.Bin?
        invariant mem[root].key == t.node.key
        invariant left == Hook(l) && right == Hook(r) && KeyBetween(l, key, r)
        invariant All(l, t, r) == s == old(Inorder(tree)) && (!more ==> Stopped(t, key))
        decreases more, t
      {
        ghost var m := mem;
        more, left, right, l, t, r := Descend(if key < mem[root].key then L else R, key, left, right, l, t, r);
        LocalTrans(old(mem), m, mem, s);
        SpreadShape(mem, root, l, t, r, L);
      }
      ghost var m := mem;
      Assemble(key, left, right, l, t, r);
      LocalTrans(old(mem), m, mem, s);
    }

    /** SPLAY_FIND: finds a cell exactly when its key is in the tree. */
    method Find(key: int) returns (n: Ref)
      requires Valid()
      modifies this
      ensures Valid() && Items(tree) == old(Items(tree)) && Local(old(mem), mem, old(Inorder(tree)))
      ensures n != NULL ==> Item(n, key) in Items(tree)
      ensures n == NULL ==> forall x :: x in Items(tree) ==> x.key != key
    {
      hide Linked, Nearest, Local, Within;
      LocalNone(mem, Inorder(tree));
      RootShape(mem, root, tree);
      if root == NULL {
        return NULL;
      }
      Splay(key);
      NearestFinds(tree, key);
      RootShape(mem, root, tree);
      return if key == mem[root].key then root else NULL;
    }

    /** SPLAY_INSERT: adds the cell, or returns the cell that already has its key. */
    method Insert(elm: Ref) returns (existing: Ref)
      requires Valid() && NULL < elm < |mem| && MIN_KEY < mem[elm].key < MAX_KEY
      modifies this
      ensures Valid() && |mem| == |old(mem)|
      ensures existing != NULL ==> Items(tree) == old(Items(tree)) && Item(existing, old(mem)[elm].key) in Items(tree)
      ensures existing == NULL ==> forall x :: x in old(Items(tree)) ==> x.key != old(mem)[elm].key
      ensures existing == NULL ==> Items(tree) == old(Items(tree)) + {Item(elm, old(mem)[elm].key)}
    {
      hide Linked, Nearest, Local, Within, SetChild, Items, Grown;
      ghost var x := Item(elm, mem[elm].key);
      var key := mem[elm].key;
      RootShape(mem, root, tree);
      if root == NULL {
        mem := mem[elm := mem[elm].(left := NULL, right := NULL)];
        NoItems();
        tree := Bin(Leaf, x, Black, Leaf);
        SingleOk(mem, elm, x);
      } else {
        ghost var m, t := mem, tree;
        Splay(key);
        SameItems(t, tree);
        LocalKey(m, mem, Inorder(tree), elm);
        NearestFinds(tree, key);
        RootShape(mem, root, tree);
        if key == mem[root].key {
          RootIn(tree);
          return root;
        }
        var d := if key < mem[root].key then L else R;
        NewRoot(mem, root, tree, d, x);
        mem := SetChild(mem, elm, d, Child(mem, root, d));
        mem := SetChild(mem, elm, Other(d), root);
        mem := SetChild(mem, root, d, NULL);
        tree := Grown(d, tree, x);
      }
      root := elm;
      existing := NULL;
    }

    /** SPLAY_REMOVE: takes out the cell with the key, if there is one. */
    method Remove(key: int) returns (found: bool)
      requires Valid() && MIN_KEY < key < MAX_KEY
      modifies this
      ensures Valid() && |mem| == |old(mem)|
      ensures found <==> exists x :: x in old(Items(tree)) && x.key == key
      ensures Items(tree) == set x | x in old(Items(tree)) && x.key != key
    {
      hide Linked, Nearest, Local, Within;
      RootShape(mem, root, tree);
      if root == NULL {
        return false;
      }
      ghost var m := mem;
      Splay(key);
      LocalSize(m, mem, Inorder(tree));
      NearestFinds(tree, key);
      RootShape(mem, root, tree);
      if key != mem[root].key {
        return false;
      }
      ghost var t := tree;
      Halves(mem, root, t);
      if mem[root].left == NULL {
        root := mem[root].right;
        tree := t.right;
      } else {
        var tmp := mem[root].right;
        root := mem[root].left;
        tree := t.left;
        ghost var m1 := mem;
        RootShape(mem, root, tree);
        Splay(key);
        LocalSize(m1, mem, Inorder(tree));
        JoinHalves(m1, mem, root, tree, t, tmp, key);
        mem := mem[root := mem[root].(right := tmp)];
        tree := tree.(right := t.right);
      }
      found := true;
    }

    /** SPLAY_MIN_MAX: the cell listed first (`val` negative) or last, of a tree that is not empty. */
    method MinMax(val: int) returns (n: Ref)
      requires Valid() && tree.Bin? && val != 0
      modifies this
      ensures Valid() && Inorder(tree) == old(Inorder(tree)) && Inorder(tree) != []
      ensures n == Inorder(tree)[if val < 0 then 0 else |Inorder(tree)| - 1].ref
    {
      hide Linked, Local;
      Splay(if val < 0 then MIN_KEY else MAX_KEY);
      RootShape(mem, root, tree);
      n := root;
    }
  }
}
