/**
 B-tree nodes of fanout t and the local surgery on them: splitting, merging and rotating
 children. Each operation leaves the tree's entries exactly as they were, in order, and every
 child linked to its parent.
 */
module BTreeNodes {
  import opened Options
  import opened Seqs
  import opened SortedEntries

  /** The identity of a node: its address. */
  type Id = nat

  /** size: entries in the whole subtree; height: 0 for a leaf; index: its place among the parent's children. */
  datatype Node<V> = Node(id: Id, keys: seq<Entry<V>>, children: seq<Node<V>>, size: int, height: nat, parent: Option<Id>, index: int) {
    predicate IsLeaf() { children == [] }
    predicate IsFull(t: nat) { |keys| == 2 * t - 1 }
    predicate CanTakeKey(t: nat) { |keys| > t - 1 }
  }

  // ---- Entries in order ----

  function Flat<V>(n: Node<V>): seq<Entry<V>>
    decreases n, 1
  {
    if n.children == [] then n.keys else Flat(n.children[0]) + After(n.keys, n.children[1..])
  }

  /** Each key followed by the entries of the child to its right. */
  function After<V>(ks: seq<Entry<V>>, cs: seq<Node<V>>): seq<Entry<V>>
    decreases cs, 0
  {
    if ks == [] || cs == [] then [] else [ks[0]] + Flat(cs[0]) + After(ks[1..], cs[1..])
  }

  /** The entries of each child followed by the key to its right. */
  function Before<V>(ks: seq<Entry<V>>, cs: seq<Node<V>>): seq<Entry<V>>
    decreases cs, 0
  {
    if ks == [] || cs == [] then [] else Flat(cs[0]) + [ks[0]] + Before(ks[1..], cs[1..])
  }

  lemma {:induction false} AfterConcat<V>(a: seq<Entry<V>>, c: seq<Node<V>>, b: seq<Entry<V>>, d: seq<Node<V>>)
    requires |a| == |c|
    ensures After(a + b, c + d) == After(a, c) + After(b, d)
  {
    if a == [] {
      assert a + b == b && c + d == d;
    } else {
      assert (a + b)[1..] == a[1..] + b && (c + d)[1..] == c[1..] + d;
      AfterConcat(a[1..], c[1..], b, d);
    }
  }

  lemma {:induction false} BeforeConcat<V>(a: seq<Entry<V>>, c: seq<Node<V>>, b: seq<Entry<V>>, d: seq<Node<V>>)
    requires |a| == |c|
    ensures Before(a + b, c + d) == Before(a, c) + Before(b, d)
  {
    if a == [] {
      assert a + b == b && c + d == d;
    } else {
      assert (a + b)[1..] == a[1..] + b && (c + d)[1..] == c[1..] + d;
      BeforeConcat(a[1..], c[1..], b, d);
    }
  }

  /** The same entries, read with the keys on either side. */
  lemma {:induction false} BeforeIsAfter<V>(ks: seq<Entry<V>>, cs: seq<Node<V>>)
    requires |cs| == |ks| + 1
    ensures Flat(cs[0]) + After(ks, cs[1..]) == Before(ks, cs[..|ks|]) + Flat(cs[|ks|])
  {
    if ks != [] {
      BeforeIsAfter(ks[1..], cs[1..]);
      assert cs[..|ks|][1..] == cs[1..][..|ks| - 1];
      var rest := After(ks[1..], cs[1..][1..]);
      Cons(Flat(cs[0]), [ks[0]], Flat(cs[1]), rest);
      Assoc(Flat(cs[0]) + [ks[0]], Flat(cs[1]), rest);
      Assoc(Flat(cs[0]) + [ks[0]], Before(ks[1..], cs[1..][..|ks| - 1]), Flat(cs[|ks|]));
    }
  }

  /** A node's entries around its child i. */
  lemma FlatAt<V>(n: Node<V>, i: nat)
    requires |n.children| == |n.keys| + 1 && i < |n.children|
    ensures Flat(n) == Before(n.keys[..i], n.children[..i]) + Flat(n.children[i]) + After(n.keys[i..], n.children[i + 1..])
  {
    var ks, cs := n.keys, n.children;
    assert After(ks, cs[1..]) == After(ks[..i], cs[1..i + 1]) + After(ks[i..], cs[i + 1..]) by {
      assert ks == ks[..i] + ks[i..] && cs[1..] == cs[1..i + 1] + cs[i + 1..];
      AfterConcat(ks[..i], cs[1..i + 1], ks[i..], cs[i + 1..]);
    }
    assert Flat(cs[0]) + After(ks[..i], cs[1..i + 1]) == Before(ks[..i], cs[..i]) + Flat(cs[i]) by {
      assert cs[..i + 1][1..] == cs[1..i + 1] && cs[..i + 1][..i] == cs[..i];
      BeforeIsAfter(ks[..i], cs[..i + 1]);
    }
    Assoc(Flat(cs[0]), After(ks[..i], cs[1..i + 1]), After(ks[i..], cs[i + 1..]));
  }

  /** A node's entries around its key i. */
  lemma FlatAtKey<V>(n: Node<V>, i: nat)
    requires |n.children| == |n.keys| + 1 && i < |n.keys|
    ensures Flat(n) == Before(n.keys[..i], n.children[..i]) + Flat(n.children[i]) + [n.keys[i]]
      + Flat(n.children[i + 1]) + After(n.keys[i + 1..], n.children[i + 2..])
  {
    FlatAt(n, i);
    assert n.keys[i..][1..] == n.keys[i + 1..] && n.children[i + 1..][1..] == n.children[i + 2..];
  }

  // ---- Links ----

  /** These children name p as their parent and are numbered from first on. */
  ghost predicate Linked<V>(cs: seq<Node<V>>, p: Id, first: int) {
    forall i :: 0 <= i < |cs| ==> cs[i].parent == Some(p) && cs[i].index == first + i
  }

  function Unlinked<V>(n: Node<V>): Node<V> {
    n.(parent := None, index := 0)
  }

  /** The same nodes, apart from their own parents and places. */
  ghost predicate Alike<V>(cs: seq<Node<V>>, cs': seq<Node<V>>) {
    |cs| == |cs'| && forall i :: 0 <= i < |cs| ==> Unlinked(cs[i]) == Unlinked(cs'[i])
  }

  /** Two versions of one node, where it was. */
  ghost predicate SamePlace<V>(a: Node<V>, b: Node<V>) {
    a.id == b.id && a.parent == b.parent && a.index == b.index
  }

  /** Every child's parent_ is set. */
  function Reparented<V>(cs: seq<Node<V>>, p: Id): (r: seq<Node<V>>)
    ensures Alike(r, cs)
    ensures forall first :: (forall i :: 0 <= i < |cs| ==> cs[i].index == first + i) ==> Linked(r, p, first)
  {
    seq(|cs|, i requires 0 <= i < |cs| => cs[i].(parent := Some(p)))
  }

  /** Every child's index_ is moved by d. */
  function Renumbered<V>(cs: seq<Node<V>>, d: int): (r: seq<Node<V>>)
    ensures Alike(r, cs)
    ensures forall p, first :: Linked(cs, p, first) ==> Linked(r, p, first + d)
  {
    seq(|cs|, i requires 0 <= i < |cs| => cs[i].(index := cs[i].index + d))
  }

  /** Every child's parent_ is set, and its index_ counted from first on. */
  function Immigrated<V>(cs: seq<Node<V>>, p: Id, first: int): (r: seq<Node<V>>)
    ensures Alike(r, cs) && Linked(r, p, first)
  {
    seq(|cs|, i requires 0 <= i < |cs| => cs[i].(parent := Some(p), index := first + i))
  }

  lemma LinkedConcat<V>(a: seq<Node<V>>, b: seq<Node<V>>, p: Id, first: int)
    requires Linked(a, p, first) && Linked(b, p, first + |a|)
    ensures Linked(a + b, p, first)
  {
  }

  lemma LinkedSlice<V>(cs: seq<Node<V>>, p: Id, i: nat, j: nat)
    requires Linked(cs, p, 0) && i <= j <= |cs|
    ensures Linked(cs[i..j], p, i)
  {
  }

  lemma AlikeNode<V>(a: Node<V>, b: Node<V>)
    requires Unlinked(a) == Unlinked(b)
    ensures a.id == b.id && a.keys == b.keys && a.children == b.children && a.size == b.size && a.height == b.height
    ensures Flat(a) == Flat(b)
  {
    assert Unlinked(a).keys == a.keys && Unlinked(a).children == a.children;
  }

  lemma {:induction false} AlikeLists<V>(ks: seq<Entry<V>>, cs: seq<Node<V>>, cs': seq<Node<V>>)
    requires Alike(cs, cs')
    ensures After(ks, cs) == After(ks, cs') && Before(ks, cs) == Before(ks, cs')
  {
    if ks != [] && cs != [] {
      AlikeNode(cs[0], cs'[0]);
      AlikeTails(cs, cs');
      AlikeLists(ks[1..], cs[1..], cs'[1..]);
    }
  }

  lemma AlikeTails<V>(cs: seq<Node<V>>, cs': seq<Node<V>>)
    requires Alike(cs, cs') && cs != []
    ensures Alike(cs[1..], cs'[1..])
  {
    forall i | 0 <= i < |cs[1..]| ensures Unlinked(cs[1..][i]) == Unlinked(cs'[1..][i]) {
      assert Unlinked(cs[i + 1]) == Unlinked(cs'[i + 1]);
    }
  }

  lemma {:induction false} AlikeSums<V>(cs: seq<Node<V>>, cs': seq<Node<V>>)
    requires Alike(cs, cs')
    ensures SumSizes(cs) == SumSizes(cs')
  {
    if cs != [] {
      AlikeNode(cs[0], cs'[0]);
      AlikeTails(cs, cs');
      AlikeSums(cs[1..], cs'[1..]);
    }
  }

  lemma AlikeShape<V>(t: nat, a: Node<V>, b: Node<V>, h: nat)
    requires Unlinked(a) == Unlinked(b) && Shape(t, a, h)
    ensures Shape(t, b, h)
  {
    AlikeNode(a, b);
    if h > 0 {
      forall i | 0 <= i < |b.children| ensures |b.children[i].keys| >= t - 1 && Shape(t, b.children[i], h - 1) {
        assert Shape(t, a.children[i], h - 1);
      }
    }
  }

  lemma AlikeGood<V>(t: nat, cs: seq<Node<V>>, cs': seq<Node<V>>, h: nat)
    requires Alike(cs, cs') && AllGood(t, cs, h)
    ensures AllGood(t, cs', h)
  {
    forall i | 0 <= i < |cs'| ensures Good(t, cs'[i], h) {
      assert Good(t, cs[i], h) && Unlinked(cs[i]) == Unlinked(cs'[i]);
      AlikeNode(cs[i], cs'[i]);
      AlikeShape(t, cs[i], cs'[i], h);
    }
  }

  /** Entries and sizes do not depend on the children's links. */
  lemma AlikeFlat<V>(n: Node<V>, n': Node<V>)
    requires n.keys == n'.keys && Alike(n.children, n'.children)
    ensures Flat(n) == Flat(n') && SumSizes(n.children) == SumSizes(n'.children)
  {
    AlikeSums(n.children, n'.children);
    if n.children != [] {
      AlikeNode(n.children[0], n'.children[0]);
      AlikeTails(n.children, n'.children);
      AlikeLists(n.keys, n.children[1..], n'.children[1..]);
    }
  }

  lemma AlikeConcat<V>(a: seq<Node<V>>, a': seq<Node<V>>, b: seq<Node<V>>, b': seq<Node<V>>)
    requires Alike(a, a') && Alike(b, b')
    ensures Alike(a + b, a' + b')
  {
    forall i | 0 <= i < |a + b| ensures Unlinked((a + b)[i]) == Unlinked((a' + b')[i]) {
      if i < |a| {
        assert Unlinked(a[i]) == Unlinked(a'[i]);
      } else {
        assert Unlinked(b[i - |a|]) == Unlinked(b'[i - |a|]);
      }
    }
  }

  // ---- Shape ----

  function SumSizes<V>(cs: seq<Node<V>>): int {
    if cs == [] then 0 else cs[0].size + SumSizes(cs[1..])
  }

  lemma {:induction false} SumConcat<V>(a: seq<Node<V>>, b: seq<Node<V>>)
    ensures SumSizes(a + b) == SumSizes(a) + SumSizes(b)
  {
    if a == [] {
      assert a + b == b;
    } else {
      assert (a + b)[1..] == a[1..] + b;
      SumConcat(a[1..], b);
    }
  }

  lemma SumAround<V>(a: seq<Node<V>>, m: seq<Node<V>>, b: seq<Node<V>>)
    ensures SumSizes(a + m + b) == SumSizes(a) + SumSizes(m) + SumSizes(b)
    ensures |m| == 1 ==> SumSizes(m) == m[0].size
    ensures |m| == 2 ==> SumSizes(m) == m[0].size + m[1].size
  {
    SumConcat(a + m, b);
    SumConcat(a, m);
    if |m| == 2 {
      assert SumSizes(m) == m[0].size + SumSizes(m[1..]);
      assert SumSizes(m[1..]) == m[1].size + SumSizes(m[1..][1..]);
    }
  }

  /**
   The invariants stated in the node's declaration, except the lower bound on its keys: at most
   2t - 1 keys, a child on each side of each key or none at all, all leaves at the
   same depth, sizes and links right.
   */
  ghost predicate Shape<V>(t: nat, n: Node<V>, h: nat)
    decreases h
  {
    && n.height == h
    && |n.keys| <= 2 * t - 1
    && n.size == |n.keys| + SumSizes(n.children)
    && (h == 0 ==> n.children == [])
    && (h > 0 ==> |n.children| == |n.keys| + 1)
    && Linked(n.children, n.id, 0)
    && (h > 0 ==> forall i {:trigger Shape(t, n.children[i], h - 1)} ::
                   0 <= i < |n.children| ==> |n.children[i].keys| >= t - 1 && Shape(t, n.children[i], h - 1))
  }

  /** A node below the root has at least t - 1 keys. */
  ghost predicate Good<V>(t: nat, n: Node<V>, h: nat) {
    |n.keys| >= t - 1 && Shape(t, n, h)
  }

  ghost predicate AllGood<V>(t: nat, cs: seq<Node<V>>, h: nat) {
    forall i {:trigger Good(t, cs[i], h)} :: 0 <= i < |cs| ==> Good(t, cs[i], h)
  }

  /** What is known of child i. */
  lemma ChildGood<V>(t: nat, n: Node<V>, h: nat, i: nat)
    requires h > 0 && Shape(t, n, h) && i < |n.children|
    ensures Good(t, n.children[i], h - 1) && Arity(n.children[i], h == 1)
  {
    assert Shape(t, n.children[i], h - 1);
  }

  lemma ChildrenGood<V>(t: nat, n: Node<V>, h: nat)
    requires h > 0 && Shape(t, n, h)
    ensures AllGood(t, n.children, h - 1)
  {
    forall i | 0 <= i < |n.children|
      ensures Good(t, n.children[i], h - 1)
    {
      ChildGood(t, n, h, i);
    }
  }

  /** A node over good children. */
  lemma Built<V>(t: nat, n: Node<V>, h: nat)
    requires h > 0 && n.height == h && |n.keys| <= 2 * t - 1 && |n.children| == |n.keys| + 1
    requires n.size == |n.keys| + SumSizes(n.children) && AllGood(t, n.children, h - 1) && Linked(n.children, n.id, 0)
    ensures Shape(t, n, h)
  {
    forall i | 0 <= i < |n.children|
      ensures |n.children[i].keys| >= t - 1 && Shape(t, n.children[i], h - 1)
    {
      assert Good(t, n.children[i], h - 1);
    }
  }

  /** Leaf or inner node with one child more than keys. */
  predicate Arity<V>(n: Node<V>, leaf: bool) {
    if leaf then n.children == [] else |n.children| == |n.keys| + 1
  }

  lemma GoodAround<V>(t: nat, cs: seq<Node<V>>, i: nat, k: nat, m: seq<Node<V>>, h: nat)
    requires AllGood(t, cs, h) && AllGood(t, m, h) && i + k <= |cs|
    ensures AllGood(t, cs[..i] + m + cs[i + k..], h)
  {
    var cs' := cs[..i] + m + cs[i + k..];
    forall j | 0 <= j < |cs'|
      ensures Good(t, cs'[j], h)
    {
      if j < i {
        assert Good(t, cs[j], h);
      } else if j < i + |m| {
        assert Good(t, m[j - i], h);
      } else {
        assert Good(t, cs[j - |m| + k], h);
      }
    }
  }

  lemma GoodSlice<V>(t: nat, cs: seq<Node<V>>, i: nat, j: nat, h: nat)
    requires AllGood(t, cs, h) && i <= j <= |cs|
    ensures AllGood(t, cs[i..j], h)
  {
    forall k | 0 <= k < j - i
      ensures Good(t, cs[i..j][k], h)
    {
      assert Good(t, cs[i + k], h);
    }
  }

  /** The size field counts the entries. */
  lemma {:induction false} SizeCounts<V>(t: nat, n: Node<V>, h: nat)
    requires Shape(t, n, h)
    ensures n.size == |Flat(n)|
    decreases h, |n.children| + 1
  {
    if h > 0 {
      ChildrenGood(t, n, h);
      SizeCounts(t, n.children[0], h - 1);
      SizesCount(t, n.keys, n.children[1..], h - 1);
    }
  }

  lemma {:induction false} SizesCount<V>(t: nat, ks: seq<Entry<V>>, cs: seq<Node<V>>, h: nat)
    requires |ks| == |cs| && AllGood(t, cs, h)
    ensures |After(ks, cs)| == |ks| + SumSizes(cs)
    decreases h + 1, |cs|
  {
    if cs != [] {
      assert Good(t, cs[0], h);
      GoodSlice(t, cs, 1, |cs|, h);
      SizeCounts(t, cs[0], h);
      SizesCount(t, ks[1..], cs[1..], h);
    }
  }

  // ---- Replacing one child ----

  /** Child i is replaced, and the subtree size follows it. */
  function WithChild<V>(x: Node<V>, i: nat, c: Node<V>): Node<V>
    requires i < |x.children|
  {
    x.(children := x.children[i := c], size := x.size + c.size - x.children[i].size)
  }

  lemma {:induction false} SumUpdate<V>(cs: seq<Node<V>>, i: nat, c: Node<V>)
    requires i < |cs|
    ensures SumSizes(cs[i := c]) + cs[i].size == SumSizes(cs) + c.size
  {
    if i > 0 {
      assert cs[i := c][1..] == cs[1..][i - 1 := c];
      SumUpdate(cs[1..], i - 1, c);
    } else {
      assert cs[i := c][1..] == cs[1..];
    }
  }

  lemma WithChildFits<V>(t: nat, x: Node<V>, h: nat, i: nat, c: Node<V>)
    requires h > 0 && Shape(t, x, h) && i < |x.children| && Good(t, c, h - 1) && SamePlace(c, x.children[i])
    ensures Shape(t, WithChild(x, i, c), h)
    ensures Flat(WithChild(x, i, c)) ==
      Before(x.keys[..i], x.children[..i]) + Flat(c) + After(x.keys[i..], x.children[i + 1..])
  {
    var x' := WithChild(x, i, c);
    WithChildShape(t, x, h, i, c);
    hide Shape, Good;
    FlatAt(x', i);
    assert x'.children[..i] == x.children[..i] && x'.children[i + 1..] == x.children[i + 1..];
  }

  lemma WithChildShape<V>(t: nat, x: Node<V>, h: nat, i: nat, c: Node<V>)
    requires h > 0 && Shape(t, x, h) && i < |x.children| && Good(t, c, h - 1) && SamePlace(c, x.children[i])
    ensures Shape(t, WithChild(x, i, c), h)
  {
    SumUpdate(x.children, i, c);
    var x' := WithChild(x, i, c);
    ChildrenGood(t, x, h);
    assert x'.children == x.children[..i] + [c] + x.children[i + 1..];
    GoodAround(t, x.children, i, 1, [c], h - 1);
    Built(t, x', h);
  }

  /** k children of x from i on are replaced by others of the same total size, keys counted. */
  lemma ShapeSpliced<V>(t: nat, x: Node<V>, x': Node<V>, h: nat, i: nat, k: nat, m: seq<Node<V>>)
    requires h > 0 && Shape(t, x, h) && i + k <= |x.children|
    requires Alike(x'.children, x.children[..i] + m + x.children[i + k..]) && Linked(x'.children, x'.id, 0)
    requires x'.height == x.height && x'.size == x.size
    requires |x'.keys| <= 2 * t - 1 && |x'.children| == |x'.keys| + 1
    requires |x'.keys| + SumSizes(m) == |x.keys| + SumSizes(x.children[i..i + k])
    requires AllGood(t, m, h - 1)
    ensures Shape(t, x', h)
  {
    hide Flat;
    var cs := x.children[..i] + m + x.children[i + k..];
    SumSpliced(x.children, i, k, m);
    AlikeSums(x'.children, cs);
    ChildrenGood(t, x, h);
    GoodAround(t, x.children, i, k, m, h - 1);
    AlikeSymmetric(x'.children, cs);
    hide Alike;
    AlikeGood(t, cs, x'.children, h - 1);
    hide AllGood, Linked;
    Built(t, x', h);
  }

  lemma SumSpliced<V>(cs: seq<Node<V>>, i: nat, k: nat, m: seq<Node<V>>)
    requires i + k <= |cs|
    ensures SumSizes(cs[..i] + m + cs[i + k..]) == SumSizes(cs) - SumSizes(cs[i..i + k]) + SumSizes(m)
  {
    assert cs == cs[..i] + cs[i..i + k] + cs[i + k..];
    SumAround(cs[..i], cs[i..i + k], cs[i + k..]);
    SumAround(cs[..i], m, cs[i + k..]);
  }

  // ---- Two neighbours and the key between them ----

  /** One node holding everything of two neighbours and the key between them has their entries. */
  lemma JoinFlat<V>(y: Node<V>, k: Entry<V>, z: Node<V>, n: Node<V>, leaf: bool)
    requires Arity(y, leaf) && Arity(z, leaf)
    requires n.keys == y.keys + [k] + z.keys && Alike(n.children, y.children + z.children)
    ensures Flat(n) == Flat(y) + [k] + Flat(z)
  {
    var n' := n.(children := y.children + z.children);
    AlikeFlat(n, n');
    JoinFlatSame(y, k, z, n', leaf);
  }

  lemma JoinFlatSame<V>(y: Node<V>, k: Entry<V>, z: Node<V>, n: Node<V>, leaf: bool)
    requires Arity(y, leaf) && Arity(z, leaf)
    requires n.keys == y.keys + [k] + z.keys && n.children == y.children + z.children
    ensures Flat(n) == Flat(y) + [k] + Flat(z)
  {
    if !leaf {
      assert n.children[1..] == y.children[1..] + z.children;
      assert n.keys == y.keys + ([k] + z.keys);
      AfterConcat(y.keys, y.children[1..], [k] + z.keys, z.children);
      assert ([k] + z.keys)[1..] == z.keys;
      Regroup(Flat(y.children[0]), After(y.keys, y.children[1..]), [k], Flat(z.children[0]), After(z.keys, z.children[1..]));
    }
  }

  /** Moving the boundary between two neighbours moves no entry. */
  lemma Repartition<V>(y: Node<V>, k: Entry<V>, z: Node<V>, y': Node<V>, k': Entry<V>, z': Node<V>, leaf: bool)
    requires Arity(y, leaf) && Arity(z, leaf) && Arity(y', leaf) && Arity(z', leaf)
    requires y.keys + [k] + z.keys == y'.keys + [k'] + z'.keys
    requires Alike(y.children + z.children, y'.children + z'.children)
    ensures Flat(y) + [k] + Flat(z) == Flat(y') + [k'] + Flat(z')
  {
    var n := y.(keys := y.keys + [k] + z.keys, children := y.children + z.children);
    JoinFlat(y, k, z, n, leaf);
    JoinFlat(y', k', z', n, leaf);
  }

  /** x' is x with child i replaced by two and a key between them, of the same entries. */
  lemma OneForTwo<V>(x: Node<V>, x': Node<V>, i: nat, l: Node<V>, r: Node<V>)
    requires |x.children| == |x.keys| + 1 && i < |x.children|
    requires |x'.keys| == |x.keys| + 1 && x'.keys[..i] == x.keys[..i] && x'.keys[i + 1..] == x.keys[i..]
    requires Alike(x'.children, x.children[..i] + [l, r] + x.children[i + 1..])
    requires Flat(x.children[i]) == Flat(l) + [x'.keys[i]] + Flat(r)
    ensures Flat(x') == Flat(x)
  {
    hide Flat;
    var x'' := x'.(children := x.children[..i] + [l, r] + x.children[i + 1..]);
    AlikeFlat(x', x'');
    OneForTwoSame(x, x'', i, l, r);
  }

  lemma OneForTwoSame<V>(x: Node<V>, x': Node<V>, i: nat, l: Node<V>, r: Node<V>)
    requires |x.children| == |x.keys| + 1 && i < |x.children|
    requires |x'.keys| == |x.keys| + 1 && x'.keys[..i] == x.keys[..i] && x'.keys[i + 1..] == x.keys[i..]
    requires x'.children == x.children[..i] + [l, r] + x.children[i + 1..]
    requires Flat(x.children[i]) == Flat(l) + [x'.keys[i]] + Flat(r)
    ensures Flat(x') == Flat(x)
  {
    hide Flat, Before, After;
    FlatAt(x, i);
    FlatAtKey(x', i);
    assert x'.children[..i] == x.children[..i] && x'.children[i + 2..] == x.children[i + 1..];
    Regroup(Before(x.keys[..i], x.children[..i]), Flat(l), [x'.keys[i]], Flat(r), After(x.keys[i..], x.children[i + 1..]));
  }

  // ---- Split ----

  /** The left half keeps the node. */
  function SplitLeft<V>(t: nat, y: Node<V>, z: Id): Node<V>
    requires t >= 1 && y.IsFull(t) && (y.IsLeaf() || |y.children| == 2 * t)
  {
    y.(keys := y.keys[..t - 1], children := if y.IsLeaf() then [] else y.children[..t], size := y.size - (SplitRight(t, y, z).size + 1))
  }

  /** The right half is the new node z, the next child of the same parent, and its children follow it. */
  function SplitRight<V>(t: nat, y: Node<V>, z: Id): Node<V>
    requires t >= 1 && y.IsFull(t) && (y.IsLeaf() || |y.children| == 2 * t)
  {
    var cs := if y.IsLeaf() then [] else Renumbered(Reparented(y.children[t..], z), 0 - t);
    Node(z, y.keys[t..], cs, |y.keys[t..]| + SumSizes(cs), y.height, y.parent, y.index + 1)
  }

  lemma SplitParts<V>(t: nat, y: Node<V>, z: Id, h: nat)
    requires t >= 2 && Good(t, y, h) && y.IsFull(t)
    ensures (y.IsLeaf() <==> h == 0) && (h > 0 ==> |y.children| == 2 * t)
    ensures Linked(SplitLeft(t, y, z).children, y.id, 0) && Linked(SplitRight(t, y, z).children, z, 0)
    ensures Alike(y.children, SplitLeft(t, y, z).children + SplitRight(t, y, z).children)
    ensures h > 0 ==> Alike(SplitRight(t, y, z).children, y.children[t..])
  {
    if h > 0 {
      LinkedSlice(y.children, y.id, 0, t);
      LinkedSlice(y.children, y.id, t, 2 * t);
      assert y.children == y.children[..t] + y.children[t..];
      var r := Reparented(y.children[t..], z);
      AlikeTrans(Renumbered(r, 0 - t), r, y.children[t..]);
      AlikeConcat(y.children[..t], y.children[..t], y.children[t..], Renumbered(r, 0 - t));
    }
  }

  lemma AlikeSymmetric<V>(a: seq<Node<V>>, b: seq<Node<V>>)
    requires Alike(a, b)
    ensures Alike(b, a)
  {
  }

  lemma AlikeTrans<V>(a: seq<Node<V>>, b: seq<Node<V>>, c: seq<Node<V>>)
    requires Alike(a, b) && Alike(b, c)
    ensures Alike(a, c) && Alike(c, a)
  {
    forall i | 0 <= i < |a| ensures Unlinked(a[i]) == Unlinked(c[i]) {
      assert Unlinked(a[i]) == Unlinked(b[i]);
    }
  }

  lemma SplitSizes<V>(t: nat, y: Node<V>, z: Id, h: nat)
    requires t >= 2 && Good(t, y, h) && y.IsFull(t)
    ensures (y.IsLeaf() <==> h == 0) && (h > 0 ==> |y.children| == 2 * t)
    ensures h > 0 ==> SplitLeft(t, y, z).size == t - 1 + SumSizes(y.children[..t])
  {
    SplitParts(t, y, z, h);
    if h > 0 {
      assert y.children == y.children[..t] + y.children[t..];
      SumConcat(y.children[..t], y.children[t..]);
      AlikeSums(SplitRight(t, y, z).children, y.children[t..]);
    }
  }

  lemma SplitGood<V>(t: nat, y: Node<V>, z: Id, h: nat)
    requires t >= 2 && Good(t, y, h) && y.IsFull(t)
    requires y.IsLeaf() || |y.children| == 2 * t
    ensures Good(t, SplitLeft(t, y, z), h) && |SplitLeft(t, y, z).keys| == t - 1
    ensures Good(t, SplitRight(t, y, z), h) && |SplitRight(t, y, z).keys| == t - 1
  {
    if h > 0 {
      SplitLeftGood(t, y, z, h);
      SplitRightGood(t, y, z, h);
    }
  }

  lemma SplitLeftGood<V>(t: nat, y: Node<V>, z: Id, h: nat)
    requires h > 0 && t >= 2 && Good(t, y, h) && y.IsFull(t) && |y.children| == 2 * t
    ensures Good(t, SplitLeft(t, y, z), h)
  {
    hide Flat, Alike;
    SplitSizes(t, y, z, h);
    SplitParts(t, y, z, h);
    ChildrenGood(t, y, h);
    GoodSlice(t, y.children, 0, t, h - 1);
    hide AllGood, Linked;
    Built(t, SplitLeft(t, y, z), h);
  }

  lemma SplitRightGood<V>(t: nat, y: Node<V>, z: Id, h: nat)
    requires h > 0 && t >= 2 && Good(t, y, h) && y.IsFull(t) && |y.children| == 2 * t
    ensures Good(t, SplitRight(t, y, z), h)
  {
    hide Flat;
    SplitParts(t, y, z, h);
    ChildrenGood(t, y, h);
    assert y.children[t..] == y.children[t..2 * t];
    AlikeSymmetric(SplitRight(t, y, z).children, y.children[t..]);
    hide Alike, Linked;
    GoodSlice(t, y.children, t, 2 * t, h - 1);
    AlikeGood(t, y.children[t..], SplitRight(t, y, z).children, h - 1);
    hide AllGood;
    Built(t, SplitRight(t, y, z), h);
  }

  lemma SplitHalves<V>(t: nat, y: Node<V>, z: Id, h: nat)
    requires t >= 2 && Good(t, y, h) && y.IsFull(t)
    ensures y.IsLeaf() || |y.children| == 2 * t
    ensures Good(t, SplitLeft(t, y, z), h) && |SplitLeft(t, y, z).keys| == t - 1
    ensures Good(t, SplitRight(t, y, z), h) && |SplitRight(t, y, z).keys| == t - 1
    ensures Flat(y) == Flat(SplitLeft(t, y, z)) + [y.keys[t - 1]] + Flat(SplitRight(t, y, z))
  {
    SplitParts(t, y, z, h);
    SplitGood(t, y, z, h);
    hide Good, Flat, Alike;
    var l, r := SplitLeft(t, y, z), SplitRight(t, y, z);
    assert y.keys == l.keys + [y.keys[t - 1]] + r.keys;
    JoinFlat(l, y.keys[t - 1], r, y, h == 0);
  }

  /** split_child: the full child i becomes two, with its middle key between them in x; z is the new node. */
  function SplitChild<V>(t: nat, x: Node<V>, i: nat, z: Id): Node<V>
    requires i < |x.children| && i <= |x.keys|
    requires var y := x.children[i]; t >= 1 && y.IsFull(t) && (y.IsLeaf() || |y.children| == 2 * t)
  {
    var y := x.children[i];
    x.(keys := x.keys[..i] + [y.keys[t - 1]] + x.keys[i..],
       children := x.children[..i] + [SplitLeft(t, y, z), SplitRight(t, y, z)] + Renumbered(x.children[i + 1..], 1))
  }

  /** Children before i, some new ones, and renumbered ones after them are linked. */
  lemma LinkedAround<V>(cs: seq<Node<V>>, p: Id, i: nat, k: nat, m: seq<Node<V>>)
    requires Linked(cs, p, 0) && i + k <= |cs| && Linked(m, p, i)
    ensures Linked(cs[..i] + m + Renumbered(cs[i + k..], |m| - k), p, 0)
    ensures Alike(cs[..i] + m + Renumbered(cs[i + k..], |m| - k), cs[..i] + m + cs[i + k..])
  {
    LinkedSlice(cs, p, 0, i);
    LinkedSlice(cs, p, i + k, |cs|);
    assert cs[i + k..] == cs[i + k..|cs|];
    LinkedConcat(cs[..i], m, p, 0);
    LinkedConcat(cs[..i] + m, Renumbered(cs[i + k..], |m| - k), p, 0);
    AlikeConcat(cs[..i] + m, cs[..i] + m, Renumbered(cs[i + k..], |m| - k), cs[i + k..]);
  }

  /** Splitting a full child of a node that is not full keeps shape and entries. */
  lemma SplitKeeps<V>(t: nat, x: Node<V>, h: nat, i: nat, z: Id)
    requires t >= 2 && h > 0 && Shape(t, x, h) && !x.IsFull(t) && i < |x.children| && x.children[i].IsFull(t)
    ensures var y := x.children[i]; y.IsLeaf() || |y.children| == 2 * t
    ensures var x' := SplitChild(t, x, i, z);
      && Shape(t, x', h) && Flat(x') == Flat(x) && |x'.keys| == |x.keys| + 1 && SamePlace(x', x)
      && |x'.children[i].keys| == |x'.children[i + 1].keys| == t - 1
  {
    var y := x.children[i];
    ChildGood(t, x, h, i);
    SplitHalves(t, y, z, h - 1);
    var l, r, x' := SplitLeft(t, y, z), SplitRight(t, y, z), SplitChild(t, x, i, z);
    SumAround([], [y], []);
    SumAround([], [l, r], []);
    assert [] + [y] + [] == [y] && [] + [l, r] + [] == [l, r];
    assert x.children[i..i + 1] == [y];
    LinkedAround(x.children, x.id, i, 1, [l, r]);
    ShapeSpliced(t, x, x', h, i, 1, [l, r]);
    OneForTwo(x, x', i, l, r);
  }

  // ---- Merge ----

  /** Child i, key i and child i + 1 in one node. */
  function Merged<V>(y: Node<V>, k: Entry<V>, z: Node<V>): Node<V> {
    var immigrated := |z.keys| + SumSizes(z.children);
    y.(keys := y.keys + [k] + z.keys, children := y.children + Immigrated(z.children, y.id, |y.children|), size := y.size + immigrated + 1)
  }

  /** merge_child: child i + 1 and key i move into child i. */
  function MergeChild<V>(x: Node<V>, i: nat): Node<V>
    requires i + 1 < |x.children| && i < |x.keys|
  {
    x.(keys := x.keys[..i] + x.keys[i + 1..],
       children := x.children[..i] + [Merged(x.children[i], x.keys[i], x.children[i + 1])] + Renumbered(x.children[i + 2..], -1))
  }

  lemma MergedFits<V>(t: nat, y: Node<V>, k: Entry<V>, z: Node<V>, h: nat)
    requires t >= 2 && Good(t, y, h) && Good(t, z, h) && |y.keys| == |z.keys| == t - 1
    ensures Good(t, Merged(y, k, z), h) && |Merged(y, k, z).keys| == 2 * t - 1
    ensures Merged(y, k, z).size == y.size + 1 + z.size
    ensures Flat(Merged(y, k, z)) == Flat(y) + [k] + Flat(z)
  {
    var cs := Immigrated(z.children, y.id, |y.children|);
    AlikeConcat(y.children, y.children, cs, z.children);
    AlikeSums(cs, z.children);
    SumConcat(y.children, cs);
    JoinFlat(y, k, z, Merged(y, k, z), h == 0);
    LinkedConcat(y.children, cs, y.id, 0);
    if h > 0 {
      ChildrenGood(t, y, h);
      ChildrenGood(t, z, h);
      AlikeTrans(cs, z.children, z.children);
      AlikeGood(t, z.children, cs, h - 1);
      GoodAround(t, y.children, |y.children|, 0, cs, h - 1);
      assert y.children[..|y.children|] + cs + y.children[|y.children|..] == y.children + cs;
      Built(t, Merged(y, k, z), h);
    }
  }

  lemma MergeKeeps<V>(t: nat, x: Node<V>, h: nat, i: nat)
    requires t >= 2 && h > 0 && Shape(t, x, h) && i < |x.keys|
    requires |x.children[i].keys| == |x.children[i + 1].keys| == t - 1
    ensures var x' := MergeChild(x, i);
      && Shape(t, x', h) && Flat(x') == Flat(x) && |x'.keys| == |x.keys| - 1 && SamePlace(x', x)
      && |x'.children[i].keys| == 2 * t - 1
  {
    var y, k, z := x.children[i], x.keys[i], x.children[i + 1];
    ChildGood(t, x, h, i);
    ChildGood(t, x, h, i + 1);
    MergedFits(t, y, k, z, h - 1);
    MergeShape(t, x, h, i);
    MergeFlat(x, i);
  }

  lemma MergeShape<V>(t: nat, x: Node<V>, h: nat, i: nat)
    requires t >= 2 && h > 0 && Shape(t, x, h) && i < |x.keys|
    requires Good(t, Merged(x.children[i], x.keys[i], x.children[i + 1]), h - 1)
    requires Merged(x.children[i], x.keys[i], x.children[i + 1]).size == x.children[i].size + 1 + x.children[i + 1].size
    ensures Shape(t, MergeChild(x, i), h)
  {
    hide Flat, Alike;
    var y, z, m, x' := x.children[i], x.children[i + 1], Merged(x.children[i], x.keys[i], x.children[i + 1]), MergeChild(x, i);
    SumAround([], [m], []);
    SumAround([], [y, z], []);
    assert [] + [m] + [] == [m] && [] + [y, z] + [] == [y, z];
    assert x.children[i..i + 2] == [y, z];
    LinkedAround(x.children, x.id, i, 2, [m]);
    ShapeSpliced(t, x, x', h, i, 2, [m]);
  }

  lemma MergeFlat<V>(x: Node<V>, i: nat)
    requires |x.children| == |x.keys| + 1 && i < |x.keys|
    requires var y, k, z := x.children[i], x.keys[i], x.children[i + 1]; Flat(Merged(y, k, z)) == Flat(y) + [k] + Flat(z)
    ensures Flat(MergeChild(x, i)) == Flat(x)
  {
    hide Flat, Merged;
    var y, z, x' := x.children[i], x.children[i + 1], MergeChild(x, i);
    var tail := Renumbered(x.children[i + 2..], -1);
    AlikeTrans(tail, x.children[i + 2..], x.children[i + 2..]);
    AlikeConcat(x.children[..i] + [y, z], x.children[..i] + [y, z], x.children[i + 2..], tail);
    assert x.children == x.children[..i] + [y, z] + x.children[i + 2..];
    assert x.children[..i] + [y, z] + tail == x'.children[..i] + [y, z] + x'.children[i + 1..];
    hide Alike;
    OneForTwo(x', x, i, y, z);
  }

  // ---- Rotate ----

  /** Children i and i + 1 and the key between them replaced; the total size stays. */
  function WithPair<V>(x: Node<V>, i: nat, y: Node<V>, k: Entry<V>, z: Node<V>): Node<V>
    requires i + 1 < |x.children| && i < |x.keys|
  {
    x.(keys := x.keys[i := k], children := x.children[i := y][i + 1 := z])
  }

  lemma WithPairKeeps<V>(t: nat, x: Node<V>, h: nat, i: nat, y: Node<V>, k: Entry<V>, z: Node<V>)
    requires h > 0 && Shape(t, x, h) && i < |x.keys|
    requires Good(t, y, h - 1) && Good(t, z, h - 1) && SamePlace(y, x.children[i]) && SamePlace(z, x.children[i + 1])
    requires y.size + z.size == x.children[i].size + x.children[i + 1].size
    requires Flat(y) + [k] + Flat(z) == Flat(x.children[i]) + [x.keys[i]] + Flat(x.children[i + 1])
    ensures Shape(t, WithPair(x, i, y, k, z), h)
    ensures Flat(WithPair(x, i, y, k, z)) == Flat(x)
  {
    hide Flat;
    var x' := WithPair(x, i, y, k, z);
    SumUpdate(x.children, i, y);
    SumUpdate(x.children[i := y], i + 1, z);
    ChildrenGood(t, x, h);
    assert x'.children == x.children[..i] + [y, z] + x.children[i + 2..];
    GoodAround(t, x.children, i, 2, [y, z], h - 1);
    hide AllGood;
    Built(t, x', h);
    PairFlat(x, i, y, k, z);
  }

  lemma PairFlat<V>(x: Node<V>, i: nat, y: Node<V>, k: Entry<V>, z: Node<V>)
    requires |x.children| == |x.keys| + 1 && i < |x.keys|
    requires Flat(y) + [k] + Flat(z) == Flat(x.children[i]) + [x.keys[i]] + Flat(x.children[i + 1])
    ensures Flat(WithPair(x, i, y, k, z)) == Flat(x)
  {
    var x' := WithPair(x, i, y, k, z);
    FlatAtKey(x, i);
    FlatAtKey(x', i);
    assert x'.keys[..i] == x.keys[..i] && x'.children[..i] == x.children[..i];
    assert x'.keys[i + 1..] == x.keys[i + 1..] && x'.children[i + 2..] == x.children[i + 2..];
    var b, a := Before(x.keys[..i], x.children[..i]), After(x.keys[i + 1..], x.children[i + 2..]);
    Cons(b, Flat(y), [k], Flat(z));
    Cons(b, Flat(x.children[i]), [x.keys[i]], Flat(x.children[i + 1]));
  }

  /** The subtree a rotation moves: the first or last child of an inner node, or nothing. */
  function Edge<V>(cs: seq<Node<V>>, first: bool): seq<Node<V>> {
    if cs == [] then [] else if first then [cs[0]] else [cs[|cs| - 1]]
  }

  lemma EdgeGood<V>(t: nat, n: Node<V>, h: nat, first: bool)
    requires Good(t, n, h)
    ensures var c := Edge(n.children, first); if h == 0 then c == [] else |c| == 1 && Good(t, c[0], h - 1)
  {
    if h > 0 {
      ChildGood(t, n, h, if first then 0 else |n.children| - 1);
    }
  }

  /** n without its first key and child. */
  function DropFirst<V>(n: Node<V>): Node<V>
    requires |n.keys| > 0
  {
    n.(keys := n.keys[1..], children := if n.IsLeaf() then [] else Renumbered(n.children[1..], -1),
       size := n.size - 1 - SumSizes(Edge(n.children, true)))
  }

  /** n without its last key and child. */
  function DropLast<V>(n: Node<V>): Node<V>
    requires |n.keys| > 0
  {
    n.(keys := n.keys[..|n.keys| - 1], children := if n.IsLeaf() then [] else n.children[..|n.children| - 1],
       size := n.size - 1 - SumSizes(Edge(n.children, false)))
  }

  lemma DropFits<V>(t: nat, n: Node<V>, h: nat)
    requires Good(t, n, h) && n.CanTakeKey(t) && t >= 1
    ensures Good(t, DropFirst(n), h) && Good(t, DropLast(n), h)
  {
    if h > 0 {
      DropFirstFits(t, n, h);
      DropLastFits(t, n, h);
    }
  }

  lemma DropFirstFits<V>(t: nat, n: Node<V>, h: nat)
    requires h > 0 && Good(t, n, h) && n.CanTakeKey(t) && t >= 1
    ensures Good(t, DropFirst(n), h)
  {
    ChildrenGood(t, n, h);
    var rest := Renumbered(n.children[1..], -1);
    assert n.children[1..] == n.children[1..|n.children|];
    LinkedSlice(n.children, n.id, 1, |n.children|);
    AlikeSymmetric(rest, n.children[1..]);
    hide Alike, Linked;
    AlikeSums(rest, n.children[1..]);
    assert n.children == [n.children[0]] + n.children[1..];
    SumConcat([n.children[0]], n.children[1..]);
    GoodSlice(t, n.children, 1, |n.children|, h - 1);
    AlikeGood(t, n.children[1..], rest, h - 1);
    hide AllGood;
    Built(t, DropFirst(n), h);
  }

  lemma DropLastFits<V>(t: nat, n: Node<V>, h: nat)
    requires h > 0 && Good(t, n, h) && n.CanTakeKey(t) && t >= 1
    ensures Good(t, DropLast(n), h)
  {
    ChildrenGood(t, n, h);
    var last := |n.children| - 1;
    LinkedSlice(n.children, n.id, 0, last);
    assert n.children == n.children[..last] + [n.children[last]];
    SumConcat(n.children[..last], [n.children[last]]);
    GoodSlice(t, n.children, 0, last, h - 1);
    hide AllGood, Linked;
    Built(t, DropLast(n), h);
  }

  /** n with a key and a subtree added at its end. */
  function AddLast<V>(n: Node<V>, k: Entry<V>, c: seq<Node<V>>): Node<V> {
    n.(keys := n.keys + [k], children := n.children + Immigrated(c, n.id, |n.children|), size := n.size + 1 + SumSizes(c))
  }

  /** n with a key and a subtree added at its front. */
  function AddFirst<V>(n: Node<V>, k: Entry<V>, c: seq<Node<V>>): Node<V> {
    n.(keys := [k] + n.keys, children := Immigrated(c, n.id, 0) + Renumbered(n.children, 1), size := n.size + 1 + SumSizes(c))
  }

  lemma AddLinks<V>(n: Node<V>, k: Entry<V>, c: seq<Node<V>>)
    requires Linked(n.children, n.id, 0) && |c| <= 1 && (n.children == [] ==> c == []) && (c == [] ==> n.children == [])
    ensures Linked(AddLast(n, k, c).children, n.id, 0) && Linked(AddFirst(n, k, c).children, n.id, 0)
    ensures Alike(n.children + c, AddLast(n, k, c).children) && Alike(c + n.children, AddFirst(n, k, c).children)
  {
    LinkedConcat(n.children, Immigrated(c, n.id, |n.children|), n.id, 0);
    LinkedConcat(Immigrated(c, n.id, 0), Renumbered(n.children, 1), n.id, 0);
    AlikeTrans(Renumbered(n.children, 1), n.children, n.children);
    AlikeTrans(Immigrated(c, n.id, 0), c, c);
    AlikeTrans(Immigrated(c, n.id, |n.children|), c, c);
    AlikeConcat(n.children, n.children, c, Immigrated(c, n.id, |n.children|));
    AlikeConcat(c, Immigrated(c, n.id, 0), n.children, Renumbered(n.children, 1));
  }

  lemma AddFits<V>(t: nat, n: Node<V>, k: Entry<V>, c: seq<Node<V>>, h: nat)
    requires Good(t, n, h) && |n.keys| < 2 * t - 1
    requires if h == 0 then c == [] else |c| == 1 && Good(t, c[0], h - 1)
    ensures Good(t, AddLast(n, k, c), h) && Good(t, AddFirst(n, k, c), h)
  {
    AddLinks(n, k, c);
    SumConcat(n.children, c);
    SumConcat(c, n.children);
    AlikeSums(n.children + c, AddLast(n, k, c).children);
    AlikeSums(c + n.children, AddFirst(n, k, c).children);
    if h > 0 {
      AddGood(t, n, k, c, h);
      hide Alike, AllGood, Linked;
      Built(t, AddLast(n, k, c), h);
      Built(t, AddFirst(n, k, c), h);
    }
  }

  lemma AddGood<V>(t: nat, n: Node<V>, k: Entry<V>, c: seq<Node<V>>, h: nat)
    requires h > 0 && Good(t, n, h) && |c| == 1 && Good(t, c[0], h - 1)
    ensures AllGood(t, AddLast(n, k, c).children, h - 1) && AllGood(t, AddFirst(n, k, c).children, h - 1)
  {
    hide Flat, SumSizes;
    AddLinks(n, k, c);
    ChildrenGood(t, n, h);
    hide Alike, Linked, Good;
    GoodAround(t, n.children, |n.children|, 0, c, h - 1);
    assert n.children[..|n.children|] + c + n.children[|n.children|..] == n.children + c;
    GoodAround(t, n.children, 0, 0, c, h - 1);
    assert n.children[..0] + c + n.children[0..] == c + n.children;
    AlikeGood(t, n.children + c, AddLast(n, k, c).children, h - 1);
    AlikeGood(t, c + n.children, AddFirst(n, k, c).children, h - 1);
  }

  lemma MoveFirstChild<V>(y: Node<V>, k: Entry<V>, z: Node<V>)
    requires z.children != [] && |z.keys| > 0
    ensures Alike(y.children + z.children, AddLast(y, k, Edge(z.children, true)).children + DropFirst(z).children)
  {
    hide SumSizes;
    var c, rest := [z.children[0]], z.children[1..];
    AlikeSymmetric(Immigrated(c, y.id, |y.children|), c);
    AlikeSymmetric(Renumbered(rest, -1), rest);
    AlikeConcat(y.children, y.children, c, Immigrated(c, y.id, |y.children|));
    AlikeConcat(y.children + c, y.children + Immigrated(c, y.id, |y.children|), rest, Renumbered(rest, -1));
    hide Alike;
    assert y.children + z.children == y.children + c + rest;
  }

  lemma MoveFirst<V>(y: Node<V>, k: Entry<V>, z: Node<V>, leaf: bool)
    requires Arity(y, leaf) && Arity(z, leaf) && |z.keys| > 0
    ensures Flat(AddLast(y, k, Edge(z.children, true))) + [z.keys[0]] + Flat(DropFirst(z)) == Flat(y) + [k] + Flat(z)
  {
    hide Flat, SumSizes, Alike;
    var y', z' := AddLast(y, k, Edge(z.children, true)), DropFirst(z);
    assert y.keys + [k] + z.keys == y'.keys + [z.keys[0]] + z'.keys;
    if leaf {
      NoneAlike<V>();
    } else {
      MoveFirstChild(y, k, z);
    }
    Repartition(y, k, z, y', z.keys[0], z', leaf);
  }

  lemma NoneAlike<V>()
    ensures Alike<V>([], [])
  {
  }

  lemma MoveLastChild<V>(y: Node<V>, k: Entry<V>, z: Node<V>)
    requires y.children != [] && |y.keys| > 0
    ensures Alike(y.children + z.children, DropLast(y).children + AddFirst(z, k, Edge(y.children, false)).children)
  {
    hide SumSizes;
    var n := |y.children| - 1;
    var init, c := y.children[..n], [y.children[n]];
    AlikeSymmetric(Immigrated(c, z.id, 0), c);
    AlikeSymmetric(Renumbered(z.children, 1), z.children);
    AlikeConcat(c, Immigrated(c, z.id, 0), z.children, Renumbered(z.children, 1));
    AlikeConcat(init, init, c + z.children, Immigrated(c, z.id, 0) + Renumbered(z.children, 1));
    hide Alike;
    assert y.children + z.children == init + (c + z.children);
  }

  lemma MoveLast<V>(y: Node<V>, k: Entry<V>, z: Node<V>, leaf: bool)
    requires Arity(y, leaf) && Arity(z, leaf) && |y.keys| > 0
    ensures Flat(DropLast(y)) + [y.keys[|y.keys| - 1]] + Flat(AddFirst(z, k, Edge(y.children, false))) == Flat(y) + [k] + Flat(z)
  {
    hide Flat, SumSizes, Alike;
    var y', k', z' := DropLast(y), y.keys[|y.keys| - 1], AddFirst(z, k, Edge(y.children, false));
    assert y.keys + [k] + z.keys == y'.keys + [k'] + z'.keys;
    if leaf {
      NoneAlike<V>();
    } else {
      MoveLastChild(y, k, z);
    }
    Repartition(y, k, z, y', k', z', leaf);
  }

  lemma SamePlaces<V>(x: Node<V>, i: nat, y: Node<V>, z: Node<V>)
    requires i + 1 < |x.children| && i < |x.keys|
    requires var a := x.children[i]; y.id == a.id && y.parent == a.parent && y.index == a.index
    requires var b := x.children[i + 1]; z.id == b.id && z.parent == b.parent && z.index == b.index
    ensures SamePlace(y, x.children[i]) && SamePlace(z, x.children[i + 1])
    ensures forall k :: SamePlace(WithPair(x, i, y, k, z), x)
  {
  }

  /** left_rotate: child i takes the key after it; the first key and child of its right sibling move up and over. */
  function LeftRotate<V>(x: Node<V>, i: nat): Node<V>
    requires i + 1 < |x.children| && i < |x.keys|
    requires |x.children[i + 1].keys| > 0
  {
    var y, z := x.children[i], x.children[i + 1];
    WithPair(x, i, AddLast(y, x.keys[i], Edge(z.children, true)), z.keys[0], DropFirst(z))
  }

  lemma LeftRotateKeeps<V>(t: nat, x: Node<V>, h: nat, i: nat)
    requires t >= 2 && h > 0 && Shape(t, x, h) && i < |x.keys|
    requires |x.children[i].keys| == t - 1 && x.children[i + 1].CanTakeKey(t)
    ensures var x' := LeftRotate(x, i);
      && Shape(t, x', h) && Flat(x') == Flat(x) && |x'.keys| == |x.keys| && |x'.children[i].keys| == t && SamePlace(x', x)
  {
    var y, z := x.children[i], x.children[i + 1];
    hide Flat, SumSizes, SamePlace, Linked;
    ChildGood(t, x, h, i);
    ChildGood(t, x, h, i + 1);
    EdgeGood(t, z, h - 1, true);
    DropFits(t, z, h - 1);
    AddFits(t, y, x.keys[i], Edge(z.children, true), h - 1);
    SamePlaces(x, i, AddLast(y, x.keys[i], Edge(z.children, true)), DropFirst(z));
    hide Good;
    MoveFirst(y, x.keys[i], z, h == 1);
    WithPairKeeps(t, x, h, i, AddLast(y, x.keys[i], Edge(z.children, true)), z.keys[0], DropFirst(z));
  }

  /** right_rotate: child i + 1 takes the key before it; the last key and child of its left sibling move up and over. */
  function RightRotate<V>(x: Node<V>, i: nat): Node<V>
    requires i + 1 < |x.children| && i < |x.keys|
    requires |x.children[i].keys| > 0
  {
    var y, z := x.children[i], x.children[i + 1];
    WithPair(x, i, DropLast(y), y.keys[|y.keys| - 1], AddFirst(z, x.keys[i], Edge(y.children, false)))
  }

  lemma RightRotateKeeps<V>(t: nat, x: Node<V>, h: nat, i: nat)
    requires t >= 2 && h > 0 && Shape(t, x, h) && i < |x.keys|
    requires |x.children[i + 1].keys| == t - 1 && x.children[i].CanTakeKey(t)
    ensures var x' := RightRotate(x, i);
      && Shape(t, x', h) && Flat(x') == Flat(x) && |x'.keys| == |x.keys| && |x'.children[i + 1].keys| == t && SamePlace(x', x)
  {
    var y, z := x.children[i], x.children[i + 1];
    hide Flat, SumSizes, SamePlace, Linked;
    ChildGood(t, x, h, i);
    ChildGood(t, x, h, i + 1);
    DropFits(t, y, h - 1);
    EdgeGood(t, y, h - 1, false);
    AddFits(t, z, x.keys[i], Edge(y.children, false), h - 1);
    SamePlaces(x, i, DropLast(y), AddFirst(z, x.keys[i], Edge(y.children, false)));
    hide Good;
    MoveLast(y, x.keys[i], z, h == 1);
    WithPairKeeps(t, x, h, i, DropLast(y), y.keys[|y.keys| - 1], AddFirst(z, x.keys[i], Edge(y.children, false)));
  }
}
