/**
  Entries of the red-black tree that WIN32-Code/tree.h generates for the Windows
  backend, and the mathematical trees and paths that describe linked entries.
 */
module Trees {
  import opened Basics

  datatype Color = Black | Red

  /** The address of an entry. */
  type Ref = nat

  const NULL: Ref := 0

  /** The RB_ENTRY embedded in an entry, and the socket that entries are ordered by. */
  datatype Entry = Entry(left: Ref, right: Ref, parent: Ref, color: Color, sock: int)

  /** An entry as it occurs in a tree: where it is and what it is ordered by. */
  datatype Item = Item(ref: Ref, key: int)

  // ----- trees and paths -----

  datatype Tree = Leaf | Bin(left: Tree, node: Item, color: Color, right: Tree)

  /** A tree with a hole, read from the hole upwards. `Left` means the hole is a left child. */
  datatype Path =
    | Top
    | Left(up: Path, node: Item, color: Color, right: Tree)
    | Right(up: Path, left: Tree, node: Item, color: Color)

  ghost function Plug(p: Path, t: Tree): Tree {
    match p
    case Top => t
    case Left(up, n, c, r) => Plug(up, Bin(t, n, c, r))
    case Right(up, l, n, c) => Plug(up, Bin(l, n, c, t))
  }

  ghost function Length(p: Path): nat {
    if p.Top? then 0 else 1 + Length(p.up)
  }

  /** The side of a child. The mirror-image halves of the algorithms in tree.h differ only in it. */
  datatype Side = L | R

  function Other(d: Side): Side {
    if d == L then R else L
  }

  /** The tree with root `x`, child `near` on side `d` and child `far` on the other. */
  ghost function Join(d: Side, near: Tree, x: Item, c: Color, far: Tree): Tree {
    if d == L then Bin(near, x, c, far) else Bin(far, x, c, near)
  }

  ghost function Near(d: Side, t: Tree): Tree
    requires t.Bin?
  {
    if d == L then t.left else t.right
  }

  /** The path whose hole is the child on side `d` of `x`. */
  ghost function Hole(d: Side, up: Path, x: Item, c: Color, far: Tree): Path {
    if d == L then Left(up, x, c, far) else Right(up, far, x, c)
  }

  ghost function SideOf(p: Path): Side {
    if p.Left? then L else R
  }

  ghost function Sibling(p: Path): Tree
    requires !p.Top?
  {
    if p.Left? then p.right else p.left
  }

  /** One level of `Plug`. */
  ghost function Fill(p: Path, t: Tree): Tree
    requires !p.Top?
  {
    Join(SideOf(p), t, p.node, p.color, Sibling(p))
  }

  ghost function Nodes(t: Tree): set<Ref> {
    match t
    case Leaf => {}
    case Bin(l, n, _, r) => Nodes(l) + {n.ref} + Nodes(r)
  }

  ghost function PathNodes(p: Path): set<Ref> {
    match p
    case Top => {}
    case Left(up, n, _, r) => PathNodes(up) + {n.ref} + Nodes(r)
    case Right(up, l, n, _) => PathNodes(up) + {n.ref} + Nodes(l)
  }

  ghost function Inorder(t: Tree): seq<Item> {
    match t
    case Leaf => []
    case Bin(l, n, _, r) => Inorder(l) + [n] + Inorder(r)
  }

  ghost function Before(p: Path): seq<Item> {
    match p
    case Top => []
    case Left(up, _, _, _) => Before(up)
    case Right(up, l, n, _) => Before(up) + Inorder(l) + [n]
  }

  ghost function After(p: Path): seq<Item> {
    match p
    case Top => []
    case Left(up, n, _, r) => [n] + Inorder(r) + After(up)
    case Right(up, _, _, _) => After(up)
  }

  // ----- search order -----

  /** Bounds of a socket handle, both exclusive. */
  const MIN_KEY: int := -1

  const MAX_KEY: int := 0x1_0000_0000_0000_0000

  /** A search tree whose keys lie strictly between `lo` and `hi`. */
  ghost predicate Within(t: Tree, lo: int, hi: int) {
    match t
    case Leaf => true
    case Bin(l, x, _, r) => lo < x.key < hi && Within(l, lo, x.key) && Within(r, x.key, hi)
  }

  /** Exclusive bounds of the keys that may fill the hole. */
  ghost function Lo(p: Path): int {
    match p
    case Top => MIN_KEY
    case Left(up, _, _, _) => Lo(up)
    case Right(_, _, x, _) => x.key
  }

  ghost function Hi(p: Path): int {
    match p
    case Top => MAX_KEY
    case Left(_, x, _, _) => x.key
    case Right(up, _, _, _) => Hi(up)
  }

  ghost predicate Ordered(p: Path)
    ensures Ordered(p) ==> Lo(p) < Hi(p)
  {
    match p
    case Top => true
    case Left(up, x, _, r) => Ordered(up) && Lo(up) < x.key < Hi(up) && Within(r, x.key, Hi(up))
    case Right(up, l, x, _) => Ordered(up) && Lo(up) < x.key < Hi(up) && Within(l, Lo(up), x.key)
  }

  // ----- red-black conditions -----

  function ColorOf(t: Tree): Color {
    if t.Leaf? then Black else t.color
  }

  ghost function BlackHeight(t: Tree): nat {
    match t
    case Leaf => 0
    case Bin(l, _, c, _) => BlackHeight(l) + if c == Black then 1 else 0
  }

  /** Every way down from the root passes the same number of black nodes. */
  ghost predicate Balanced(t: Tree) {
    match t
    case Leaf => true
    case Bin(l, _, _, r) => Balanced(l) && Balanced(r) && BlackHeight(l) == BlackHeight(r)
  }

  /** No red node has a red child. */
  ghost predicate NoRedRed(t: Tree) {
    match t
    case Leaf => true
    case Bin(l, _, c, r) =>
      NoRedRed(l) && NoRedRed(r) && (c == Red ==> ColorOf(l) == Black && ColorOf(r) == Black)
  }

  ghost predicate Shaped(t: Tree) {
    Balanced(t) && NoRedRed(t)
  }

  ghost predicate RedBlack(t: Tree) {
    Shaped(t) && ColorOf(t) == Black
  }

  /** As `Shaped`, but a red root may have red children. */
  ghost predicate ShapedBelow(t: Tree) {
    Balanced(t) && (t.Bin? ==> NoRedRed(t.left) && NoRedRed(t.right))
  }

  /** Plugging a black-rooted `Shaped` tree of black height `h` into `p` gives a red-black tree. */
  ghost predicate PathRedBlack(p: Path, h: nat) {
    match p
    case Top => true
    case Left(up, _, c, r) =>
      && Shaped(r) && BlackHeight(r) == h
      && (c == Red ==> ColorOf(r) == Black && !up.Top? && up.color == Black)
      && PathRedBlack(up, h + if c == Black then 1 else 0)
    case Right(up, l, _, c) =>
      && Shaped(l) && BlackHeight(l) == h
      && (c == Red ==> ColorOf(l) == Black && !up.Top? && up.color == Black)
      && PathRedBlack(up, h + if c == Black then 1 else 0)
  }

  /** The items of a tree, as a set. */
  ghost function Items(t: Tree): set<Item> {
    set x | x in Inorder(t)
  }

  ghost predicate Increasing(s: seq<Item>) {
    forall i, j :: 0 <= i < j < |s| ==> s[i].key < s[j].key
  }

  // ----- lemmas about plugging -----

  lemma {:induction false} Regroup<T>(a: seq<T>, b: seq<T>, c: seq<T>, d: seq<T>, e: seq<T>)
    ensures (a + b + c) + d + e == a + b + (c + d + e)
    ensures a + (b + c + d) + e == (a + b + c) + d + e
    ensures a + (b + c + d) + e == a + b + (c + d + e)
  {
  }

  lemma {:induction false} PlugInorder(p: Path, t: Tree)
    ensures Inorder(Plug(p, t)) == Before(p) + Inorder(t) + After(p)
  {
    match p
    case Top =>
      assert [] + Inorder(t) + [] == Inorder(t);
    case Left(up, n, c, r) =>
      PlugInorder(up, Bin(t, n, c, r));
      Regroup(Before(up), Inorder(t), [n], Inorder(r), After(up));
    case Right(up, l, n, c) =>
      PlugInorder(up, Bin(l, n, c, t));
      Regroup(Before(up), Inorder(l), [n], Inorder(t), After(up));
  }

  /** Trees that list the same items list the same items wherever they are plugged in. */
  lemma {:induction false} PlugSame(p: Path, t: Tree, t': Tree)
    requires Inorder(t) == Inorder(t')
    ensures Inorder(Plug(p, t)) == Inorder(Plug(p, t'))
  {
    PlugInorder(p, t);
    PlugInorder(p, t');
  }

  lemma {:induction false} RotationSame(p: Path, a: Tree, x: Item, c: Color, b: Tree, y: Item, d: Color, e: Tree)
    ensures Inorder(Plug(p, Bin(Bin(a, x, c, b), y, d, e))) == Inorder(Plug(p, Bin(a, x, c, Bin(b, y, d, e))))
  {
    Regroup(Inorder(a), [x], Inorder(b), [y], Inorder(e));
    assert Inorder(Bin(a, x, c, Bin(b, y, d, e))) == Inorder(a) + [x] + (Inorder(b) + [y] + Inorder(e));
    PlugSame(p, Bin(Bin(a, x, c, b), y, d, e), Bin(a, x, c, Bin(b, y, d, e)));
  }

  lemma {:induction false} PlugNodes(p: Path, t: Tree)
    ensures Nodes(Plug(p, t)) == PathNodes(p) + Nodes(t)
  {
    match p
    case Top =>
    case Left(up, x, c, r) => PlugNodes(up, Bin(t, x, c, r));
    case Right(up, l, x, c) => PlugNodes(up, Bin(l, x, c, t));
  }

  lemma {:induction false} PlugOrdered(p: Path, t: Tree)
    ensures Within(Plug(p, t), MIN_KEY, MAX_KEY) <==> Ordered(p) && Within(t, Lo(p), Hi(p))
  {
    match p
    case Top =>
    case Left(up, x, c, r) => PlugOrdered(up, Bin(t, x, c, r));
    case Right(up, l, x, c) => PlugOrdered(up, Bin(l, x, c, t));
  }

  /** A search tree lists its keys in strictly ascending order. */
  lemma {:induction false} WithinIncreasing(t: Tree, lo: int, hi: int)
    requires Within(t, lo, hi)
    ensures Increasing(Inorder(t))
    ensures forall i :: 0 <= i < |Inorder(t)| ==> lo < Inorder(t)[i].key < hi
  {
    match t
    case Leaf =>
    case Bin(l, x, _, r) =>
      WithinIncreasing(l, lo, x.key);
      WithinIncreasing(r, x.key, hi);
  }

  lemma {:induction false} PlugRedBlack(p: Path, t: Tree)
    requires Shaped(t) && PathRedBlack(p, BlackHeight(t))
    requires ColorOf(t) == Red ==> p.Top? || p.color == Black
    ensures Shaped(Plug(p, t))
    ensures !p.Top? ==> ColorOf(Plug(p, t)) == Black
  {
    match p
    case Top =>
    case Left(up, n, c, r) => PlugRedBlack(up, Bin(t, n, c, r));
    case Right(up, l, n, c) => PlugRedBlack(up, Bin(l, n, c, t));
  }

  lemma {:induction false} UnplugRedBlack(p: Path, t: Tree)
    requires RedBlack(Plug(p, t))
    ensures Shaped(t) && PathRedBlack(p, BlackHeight(t))
    ensures ColorOf(t) == Red ==> !p.Top? && p.color == Black
  {
    match p
    case Top =>
    case Left(up, n, c, r) => UnplugRedBlack(up, Bin(t, n, c, r));
    case Right(up, l, n, c) => UnplugRedBlack(up, Bin(l, n, c, t));
  }

  ghost function Refs(s: seq<Item>): set<Ref> {
    set i | 0 <= i < |s| :: s[i].ref
  }

  lemma {:induction false} RefsConcat(s: seq<Item>, t: seq<Item>)
    ensures Refs(s + t) == Refs(s) + Refs(t)
  {
    forall r | r in Refs(s) + Refs(t) ensures r in Refs(s + t) {
      if r in Refs(s) {
        var i :| 0 <= i < |s| && s[i].ref == r;
        assert (s + t)[i].ref == r;
      } else {
        var i :| 0 <= i < |t| && t[i].ref == r;
        assert (s + t)[|s| + i].ref == r;
      }
    }
  }

  lemma {:induction false} InorderNodes(t: Tree)
    ensures Refs(Inorder(t)) == Nodes(t)
  {
    match t
    case Leaf =>
    case Bin(l, n, _, r) =>
      InorderNodes(l);
      InorderNodes(r);
      RefsConcat(Inorder(l), [n]);
      RefsConcat(Inorder(l) + [n], Inorder(r));
      assert [n][0].ref == n.ref;
  }

  // ----- the height bound stated in the header of tree.h -----

  ghost function Height(t: Tree): nat {
    match t
    case Leaf => 0
    case Bin(l, _, _, r) => 1 + if Height(l) < Height(r) then Height(r) else Height(l)
  }

  lemma {:induction false} Pow2Add(a: nat, b: nat)
    ensures Pow2(a + b) == Pow2(a) * Pow2(b)
  {
    if a > 0 {
      Pow2Add(a - 1, b);
      assert a + b - 1 == (a - 1) + b;
    }
  }

  lemma {:induction false} Pow2Monotone(a: nat, b: nat)
    requires a <= b
    ensures Pow2(a) <= Pow2(b)
    decreases b
  {
    if a < b { Pow2Monotone(a, b - 1); }
  }

  lemma {:induction false} BlackHeightBounds(t: Tree)
    requires Shaped(t)
    ensures Pow2(BlackHeight(t)) <= |Inorder(t)| + 1
    ensures Height(t) <= 2 * BlackHeight(t) + if ColorOf(t) == Red then 1 else 0
  {
    match t
    case Leaf =>
    case Bin(l, _, _, r) => BlackHeightBounds(l); BlackHeightBounds(r);
  }

  lemma {:induction false} SquareMonotone(a: nat, b: nat)
    requires a <= b
    ensures a * a <= b * b
  {
    assert a * a <= a * b <= b * b;
  }

  /** Height is at most 2 lg(n + 1): two to the height is at most (n + 1) squared. */
  lemma {:induction false} HeightBound(t: Tree)
    requires RedBlack(t)
    ensures Pow2(Height(t)) <= (|Inorder(t)| + 1) * (|Inorder(t)| + 1)
  {
    BlackHeightBounds(t);
    Pow2Monotone(Height(t), BlackHeight(t) + BlackHeight(t));
    Pow2Add(BlackHeight(t), BlackHeight(t));
    SquareMonotone(Pow2(BlackHeight(t)), |Inorder(t)| + 1);
  }
}
