/**
 The storage index as the code runs it: the descents of operator[] and erase_lb change keys and links on the way down and
 leave the sizes above the leaf alone; the loop along parent_ corrects those afterwards.
 */
module BTreeIndex {
  import opened Options
  import opened SortedEntries
  import opened BTreeNodes
  import opened BTree
  import opened BTreeLinks

  // ---- What surgery does to the identities ----

  lemma PairTimes<V>(a: seq<Node<V>>, l: Node<V>, r: Node<V>, b: seq<Node<V>>, id: Id)
    ensures TimesIn(a + [l, r] + b, id) == TimesIn(a, id) + Times(l, id) + Times(r, id) + TimesIn(b, id)
  {
    hide Times;
    TimesConcat(a + [l, r], b, id);
    TimesConcat(a, [l, r], id);
    assert TimesIn([l, r], id) == Times(l, id) + TimesIn([r], id) by {
      assert [l, r][1..] == [r];
    }
    assert TimesIn([r], id) == Times(r, id) by {
      assert [r][1..] == [];
    }
  }

  lemma OneTimes<V>(a: seq<Node<V>>, l: Node<V>, b: seq<Node<V>>, id: Id)
    ensures TimesIn(a + [l] + b, id) == TimesIn(a, id) + Times(l, id) + TimesIn(b, id)
  {
    hide Times;
    TimesConcat(a + [l], b, id);
    TimesConcat(a, [l], id);
    assert [l][1..] == [];
  }

  /** Splitting adds the new node. */
  lemma SplitTimes<V>(t: nat, x: Node<V>, h: nat, i: nat, z: Id, id: Id)
    requires t >= 2 && h > 0 && Shape(t, x, h) && !x.IsFull(t) && i < |x.children| && x.children[i].IsFull(t)
    ensures Times(Split(t, x, h, i, z), id) == Times(x, id) + if id == z then 1 else 0
  {
    var y := x.children[i];
    ChildGood(t, x, h, i);
    SplitParts(t, y, z, h - 1);
    hide Shape, Good, TimesIn, Linked;
    var l, r, x' := SplitLeft(t, y, z), SplitRight(t, y, z), Split(t, x, h, i, z);
    TimesAlike(y.children, l.children + r.children, id);
    TimesConcat(l.children, r.children, id);
    TimesAlike(Renumbered(x.children[i + 1..], 1), x.children[i + 1..], id);
    PairTimes(x.children[..i], l, r, Renumbered(x.children[i + 1..], 1), id);
    TimesAt(x.children, i, id);
  }

  /** Merging drops the right sibling. */
  lemma MergeTimes<V>(x: Node<V>, i: nat, id: Id)
    requires i + 1 < |x.children| && i < |x.keys|
    ensures Times(MergeChild(x, i), id) == Times(x, id) - if id == x.children[i + 1].id then 1 else 0
  {
    hide TimesIn, SumSizes;
    var y, z := x.children[i], x.children[i + 1];
    var m := Merged(y, x.keys[i], z);
    TimesAlike(Immigrated(z.children, y.id, |y.children|), z.children, id);
    TimesConcat(y.children, Immigrated(z.children, y.id, |y.children|), id);
    TimesAlike(Renumbered(x.children[i + 2..], -1), x.children[i + 2..], id);
    OneTimes(x.children[..i], m, Renumbered(x.children[i + 2..], -1), id);
    assert x.children == x.children[..i] + [y, z] + x.children[i + 2..];
    PairTimes(x.children[..i], y, z, x.children[i + 2..], id);
  }

  lemma PairReplaced<V>(x: Node<V>, i: nat, y: Node<V>, k: Entry<V>, z: Node<V>, id: Id)
    requires i + 1 < |x.children| && i < |x.keys|
    requires Times(y, id) + Times(z, id) == Times(x.children[i], id) + Times(x.children[i + 1], id)
    ensures Times(WithPair(x, i, y, k, z), id) == Times(x, id)
  {
    hide TimesIn;
    var x', a, b := WithPair(x, i, y, k, z), x.children[..i], x.children[i + 2..];
    assert x.children == a + [x.children[i], x.children[i + 1]] + b;
    assert x'.children == a + [y, z] + b;
    PairTimes(a, x.children[i], x.children[i + 1], b, id);
    PairTimes(a, y, z, b, id);
  }

  lemma EdgeTimes<V>(cs: seq<Node<V>>, id: Id)
    requires cs != []
    ensures TimesIn(cs, id) == TimesIn(Edge(cs, true), id) + TimesIn(cs[1..], id)
    ensures TimesIn(cs, id) == TimesIn(cs[..|cs| - 1], id) + TimesIn(Edge(cs, false), id)
  {
    hide TimesIn;
    assert cs == [cs[0]] + cs[1..];
    assert cs == cs[..|cs| - 1] + [cs[|cs| - 1]];
    TimesConcat([cs[0]], cs[1..], id);
    TimesConcat(cs[..|cs| - 1], [cs[|cs| - 1]], id);
  }

  /** Rotations keep all nodes. */
  lemma LeftRotateTimes<V>(x: Node<V>, i: nat, id: Id)
    requires i + 1 < |x.children| && i < |x.keys| && |x.children[i + 1].keys| > 0
    ensures Times(LeftRotate(x, i), id) == Times(x, id)
  {
    hide SumSizes;
    var y, z := x.children[i], x.children[i + 1];
    var c := Edge(z.children, true);
    var y', z' := AddLast(y, x.keys[i], c), DropFirst(z);
    TimesAlike(Immigrated(c, y.id, |y.children|), c, id);
    TimesConcat(y.children, Immigrated(c, y.id, |y.children|), id);
    if z.children != [] {
      EdgeTimes(z.children, id);
      TimesAlike(Renumbered(z.children[1..], -1), z.children[1..], id);
    }
    PairReplaced(x, i, y', z.keys[0], z', id);
  }

  lemma RightRotateTimes<V>(x: Node<V>, i: nat, id: Id)
    requires i + 1 < |x.children| && i < |x.keys| && |x.children[i].keys| > 0
    ensures Times(RightRotate(x, i), id) == Times(x, id)
  {
    hide SumSizes;
    var y, z := x.children[i], x.children[i + 1];
    var c := Edge(y.children, false);
    var y', z' := DropLast(y), AddFirst(z, x.keys[i], c);
    TimesAlike(Immigrated(c, z.id, 0), c, id);
    TimesAlike(Renumbered(z.children, 1), z.children, id);
    TimesConcat(Immigrated(c, z.id, 0), Renumbered(z.children, 1), id);
    if y.children != [] {
      EdgeTimes(y.children, id);
    }
    PairReplaced(x, i, y', y.keys[|y.keys| - 1], z', id);
  }

  lemma PrepareTimes<V>(t: nat, x: Node<V>, h: nat, i: nat, id: Id)
    requires t >= 2 && h > 0 && Shape(t, x, h) && |x.keys| >= 1 && i < |x.children|
    ensures Times(Prepare(t, x, h, i).0, id) <= Times(x, id)
  {
    ChildGood(t, x, h, i);
    if i + 1 < |x.children| {
      ChildGood(t, x, h, i + 1);
    }
    if i > 0 {
      ChildGood(t, x, h, i - 1);
    }
    hide Flat, Shape, Good, Times, LeftRotate, RightRotate, MergeChild;
    if |x.children[i].keys| == t - 1 {
      if i + 1 < |x.children| && x.children[i + 1].CanTakeKey(t) {
        LeftRotateTimes(x, i, id);
      } else if i > 0 && x.children[i - 1].CanTakeKey(t) {
        RightRotateTimes(x, i - 1, id);
      } else if i + 1 < |x.children| {
        MergeTimes(x, i, id);
      } else {
        MergeTimes(x, i - 1, id);
      }
    }
  }

  // ---- A child changes, and the climb comes up through it ----

  /** Child j is replaced and nothing else touched. */
  function Swapped<V>(x: Node<V>, j: nat, c: Node<V>): Node<V>
    requires j < |x.children|
  {
    x.(children := x.children[j := c])
  }

  lemma SwappedTimes<V>(x: Node<V>, j: nat, c: Node<V>, id: Id)
    requires j < |x.children|
    ensures Times(Swapped(x, j, c), id) == Times(x, id) - Times(x.children[j], id) + Times(c, id)
  {
    var x' := Swapped(x, j, c);
    TimesAt(x.children, j, id);
    TimesAt(x'.children, j, id);
    assert x'.children[..j] == x.children[..j] && x'.children[j + 1..] == x.children[j + 1..];
  }

  /** The trail of a node goes on from its child's. */
  lemma TrailThrough<V>(p: Node<V>, j: nat, leaf: Id)
    requires j < |p.children| && Once(p) && Holds(p.children[j], leaf)
    ensures Holds(p, leaf) && leaf != p.id && UpFrom(p, leaf) == UpFrom(p.children[j], leaf) + {p.id}
  {
    WhichIs(p, j, leaf);
    assert Trail(p, leaf) == Trail(p.children[j], leaf) + [p.id];
  }

  /** If the climb corrects the child, it corrects the node too. */
  lemma ClimbsThrough<V>(x: Node<V>, j: nat, c: Node<V>, leaf: Id, d: int)
    requires j < |x.children| && Once(Swapped(x, j, c)) && Holds(c, leaf) && c.size == x.children[j].size
    ensures var p := Swapped(x, j, c);
      && Holds(p, leaf) && leaf != p.id
      && Resized(p, UpFrom(p, leaf), d) == WithChild(x, j, Resized(c, UpFrom(c, leaf), d))
  {
    var p := Swapped(x, j, c);
    TrailThrough(p, j, leaf);
    var s := UpFrom(c, leaf);
    forall k | 0 <= k < |p.children|
      ensures Resized(p.children[k], s + {p.id}, d) == if k == j then Resized(c, s, d) else p.children[k]
    {
      ClimbAtChild(p, j, leaf, d, k);
    }
    var r := Resized(p, s + {p.id}, d);
    assert r.children == x.children[j := Resized(c, s, d)];
    ResizedRoot(c, leaf, d);
  }

  lemma ClimbAtChild<V>(p: Node<V>, j: nat, leaf: Id, d: int, k: nat)
    requires j < |p.children| && Once(p) && Holds(p.children[j], leaf) && k < |p.children|
    ensures var s := UpFrom(p.children[j], leaf);
      Resized(p.children[k], s + {p.id}, d) == if k == j then Resized(p.children[j], s, d) else p.children[k]
  {
    hide Resized, Times;
    var s := UpFrom(p.children[j], leaf);
    OnceApart(p, k);
    OnceApart(p, j);
    TrailIds(p.children[j], leaf);
    ResizedWithin(p.children[k], s, p.id, d);
    if k != j {
      ResizedElsewhere(p.children[k], s, d);
    }
  }

  lemma ResizedRoot<V>(c: Node<V>, leaf: Id, d: int)
    requires Holds(c, leaf)
    ensures Resized(c, UpFrom(c, leaf), d).size == c.size + d
  {
    TrailIds(c, leaf);
    var p := Trail(c, leaf);
    assert p[|p| - 1] == c.id;
  }

  // ---- Insertion as the code runs it ----

  /** A tree after the descent: where it ended, and whether the sizes from there up are still to be corrected. */
  datatype Descent<V> = Descent(node: Node<V>, leaf: Id, climb: bool)

  /** The descent of operator[], with the key in place and no size touched except by splits. */
  function Placed<V>(t: nat, x: Node<V>, h: nat, k: Key, v: V, z: Id): Descent<V>
    requires t >= 2 && Shape(t, x, h) && !x.IsFull(t)
    decreases h, 1
  {
    var i := LowerBound(x.keys, k);
    if i < |x.keys| && x.keys[i].key == k then Descent(SetKey(x, i, Entry(k, v)), x.id, false)
    else if x.IsLeaf() then Descent(x.(keys := x.keys[..i] + [Entry(k, v)] + x.keys[i..]), x.id, true)
    else if !x.children[i].IsFull(t) then PlacedBelow(t, x, h, i, k, v, z)
    else
      var x1 := Split(t, x, h, i, z + (h - 1));
      if x1.keys[i].key == k then Descent(SetKey(x1, i, Entry(k, v)), x1.id, false)
      else PlacedBelow(t, x1, h, if x1.keys[i].key < k then i + 1 else i, k, v, z)
  }

  function PlacedBelow<V>(t: nat, x: Node<V>, h: nat, j: nat, k: Key, v: V, z: Id): Descent<V>
    requires t >= 2 && h > 0 && Shape(t, x, h) && j < |x.children| && !x.children[j].IsFull(t)
    decreases h, 0
  {
    ChildGood(t, x, h, j);
    var p := Placed(t, x.children[j], h - 1, k, v, z);
    p.(node := Swapped(x, j, p.node))
  }

  /** The tree whose sizes are right: the climb from the descent's end, if there is one to make. */
  ghost predicate Corrects<V>(p: Descent<V>, d: int, r: Node<V>) {
    && Holds(p.node, p.leaf)
    && r == if p.climb then Resized(p.node, UpFrom(p.node, p.leaf), d) else p.node
  }

  /** The identities from z to z + h are unused. */
  ghost predicate Free<V>(x: Node<V>, z: Id, h: nat) {
    forall id: Id :: z <= id < z + h ==> !Holds(x, id)
  }

  function OneIf(b: bool): nat {
    if b then 1 else 0
  }

  /** From x to y no identity is lost, and some of those from z to z + h are new. */
  ghost predicate Extended<V>(x: Node<V>, y: Node<V>, z: Id, h: nat) {
    forall id: Id :: Times(x, id) <= Times(y, id) <= Times(x, id) + OneIf(z <= id < z + h)
  }

  lemma ExtendedOnce<V>(x: Node<V>, y: Node<V>, z: Id, h: nat)
    requires Once(x) && Free(x, z, h) && Extended(x, y, z, h)
    ensures Once(y)
  {
    forall id: Id ensures Times(y, id) <= 1 {
      assert Times(x, id) <= 1;
      assert Times(y, id) <= Times(x, id) + OneIf(z <= id < z + h);
      if z <= id < z + h {
        assert !Holds(x, id);
      }
    }
  }

  /** A child's change carries over to the node. */
  lemma ExtendedBelow<V>(x: Node<V>, j: nat, c: Node<V>, z: Id, h: nat, h': nat)
    requires j < |x.children| && Extended(x.children[j], c, z, h) && h <= h'
    ensures Extended(x, Swapped(x, j, c), z, h')
  {
    forall id: Id ensures Times(x, id) <= Times(Swapped(x, j, c), id) <= Times(x, id) + OneIf(z <= id < z + h') {
      SwappedTimes(x, j, c, id);
      assert Times(x.children[j], id) <= Times(c, id) <= Times(x.children[j], id) + OneIf(z <= id < z + h);
    }
  }

  /** A split first, then changes below. */
  lemma ExtendedAfterSplit<V>(t: nat, x: Node<V>, h: nat, i: nat, z: Id, y: Node<V>)
    requires t >= 2 && h > 0 && Shape(t, x, h) && !x.IsFull(t) && i < |x.children| && x.children[i].IsFull(t)
    requires Extended(Split(t, x, h, i, z + (h - 1)), y, z, h - 1)
    ensures Extended(x, y, z, h)
  {
    hide Shape, Times, Split;
    var x1 := Split(t, x, h, i, z + (h - 1));
    forall id: Id ensures Times(x, id) <= Times(y, id) <= Times(x, id) + OneIf(z <= id < z + h) {
      SplitTimes(t, x, h, i, z + (h - 1), id);
      assert Times(x1, id) <= Times(y, id) <= Times(x1, id) + OneIf(z <= id < z + (h - 1));
    }
  }

  lemma OwnKeysChanged<V>(x: Node<V>, y: Node<V>, z: Id, h: nat)
    requires y.id == x.id && y.children == x.children
    ensures Extended(x, y, z, h)
  {
    forall id: Id ensures Times(x, id) == Times(y, id) {
    }
  }

  /** Splitting keeps identities different. */
  lemma SplitOnce<V>(t: nat, x: Node<V>, h: nat, i: nat, z: Id)
    requires t >= 2 && h > 0 && Shape(t, x, h) && !x.IsFull(t) && i < |x.children| && x.children[i].IsFull(t)
    requires Once(x) && Free(x, z, h)
    ensures var x1 := Split(t, x, h, i, z + (h - 1)); Once(x1) && Free(x1, z, h - 1)
  {
    hide Shape, Times, Split;
    var x1 := Split(t, x, h, i, z + (h - 1));
    forall id: Id ensures Times(x1, id) <= 1 && (z <= id < z + (h - 1) ==> !Holds(x1, id)) {
      SplitTimes(t, x, h, i, z + (h - 1), id);
      assert Times(x, id) <= 1;
      if z <= id < z + h {
        assert !Holds(x, id);
      }
    }
  }

  lemma ChildOnce<V>(x: Node<V>, j: nat, z: Id, h: nat)
    requires j < |x.children| && Once(x) && Free(x, z, h)
    ensures Once(x.children[j]) && Free(x.children[j], z, h)
  {
    OnceApart(x, j);
    forall id: Id | z <= id < z + h ensures !Holds(x.children[j], id) {
      TimesAt(x.children, j, id);
      assert !Holds(x, id);
    }
  }

  /** The climb after the descent leaves exactly the tree whose sizes are right. */
  lemma {:induction false} PlacedIsInserted<V>(t: nat, x: Node<V>, h: nat, k: Key, v: V, z: Id)
    requires t >= 2 && Shape(t, x, h) && !x.IsFull(t) && Once(x) && Free(x, z, h)
    ensures var p := Placed(t, x, h, k, v, z);
      Corrects(p, 1, InsertInto(t, x, h, k, v, z)) && p.node.size == x.size && Extended(x, p.node, z, h)
    decreases h, 1, 1
  {
    hide Extended, Free, Once, Corrects, Flat, SamePlace, Linked;
    var i := LowerBound(x.keys, k);
    if i < |x.keys| && x.keys[i].key == k {
      AtOnce(x, SetKey(x, i, Entry(k, v)), z, h);
    } else if x.IsLeaf() {
      AtLeaf(x, x.keys[..i] + [Entry(k, v)] + x.keys[i..], 1, z, h);
    } else if !x.children[i].IsFull(t) {
      PlacedBelowIsInserted(t, x, h, i, k, v, z, h);
    } else {
      PlacedAfterSplit(t, x, h, i, k, v, z);
    }
  }

  lemma {:induction false} PlacedAfterSplit<V>(t: nat, x: Node<V>, h: nat, i: nat, k: Key, v: V, z: Id)
    requires t >= 2 && h > 0 && Shape(t, x, h) && !x.IsFull(t) && Once(x) && Free(x, z, h)
    requires i == LowerBound(x.keys, k) && (i < |x.keys| ==> x.keys[i].key != k) && x.children[i].IsFull(t)
    ensures var p := Placed(t, x, h, k, v, z);
      Corrects(p, 1, InsertInto(t, x, h, k, v, z)) && p.node.size == x.size && Extended(x, p.node, z, h)
    decreases h, 1, 0
  {
    hide Extended, Free, Once, Corrects, InsertBelow, PlacedBelow, SamePlace;
    SplitOnce(t, x, h, i, z);
    var x1 := Split(t, x, h, i, z + (h - 1));
    assert x1.size == x.size;
    hide Split;
    hide Shape;
    if x1.keys[i].key == k {
      AtOnce(x1, SetKey(x1, i, Entry(k, v)), z, h - 1);
      ExtendedAfterSplit(t, x, h, i, z, SetKey(x1, i, Entry(k, v)));
    } else {
      var j := if x1.keys[i].key < k then i + 1 else i;
      PlacedBelowIsInserted(t, x1, h, j, k, v, z, h - 1);
      ExtendedAfterSplit(t, x, h, i, z, PlacedBelow(t, x1, h, j, k, v, z).node);
    }
  }

  /** A descent that ends without a new key. */
  lemma AtOnce<V>(x: Node<V>, y: Node<V>, z: Id, h: nat)
    requires y.id == x.id && y.children == x.children
    ensures forall d :: Corrects(Descent(y, x.id, false), d, y)
    ensures Extended(x, y, z, h)
  {
    OwnKeysChanged(x, y, z, h);
  }

  /** A descent that ends in a leaf whose keys change. */
  lemma AtLeaf<V>(x: Node<V>, keys: seq<Entry<V>>, d: int, z: Id, h: nat)
    requires x.IsLeaf()
    ensures Corrects(Descent(x.(keys := keys), x.id, true), d, x.(keys := keys, size := x.size + d))
    ensures Extended(x, x.(keys := keys), z, h)
  {
    OwnKeysChanged(x, x.(keys := keys), z, h);
    assert Trail(x.(keys := keys), x.id) == [x.id];
  }

  lemma {:induction false} PlacedBelowIsInserted<V>(t: nat, x: Node<V>, h: nat, j: nat, k: Key, v: V, z: Id, free: nat)
    requires t >= 2 && h > 0 && Shape(t, x, h) && j < |x.children| && !x.children[j].IsFull(t)
    requires h - 1 <= free && Once(x) && Free(x, z, free)
    ensures var p := PlacedBelow(t, x, h, j, k, v, z);
      Corrects(p, 1, InsertBelow(t, x, h, j, k, v, z)) && p.node.size == x.size && Extended(x, p.node, z, free)
    decreases h, 0
  {
    hide Extended, Free, Once, Corrects;
    ChildGood(t, x, h, j);
    ChildOnce(x, j, z, free);
    FreeLess(x.children[j], z, h - 1, free);
    PlacedIsInserted(t, x.children[j], h - 1, k, v, z);
    var p := Placed(t, x.children[j], h - 1, k, v, z);
    ExtendedBelow(x, j, p.node, z, h - 1, free);
    ExtendedOnce(x, Swapped(x, j, p.node), z, free);
    CorrectedThrough(x, j, p, 1, InsertInto(t, x.children[j], h - 1, k, v, z));
  }

  lemma FreeLess<V>(x: Node<V>, z: Id, h: nat, h': nat)
    requires h <= h' && Free(x, z, h')
    ensures Free(x, z, h)
  {
  }

  /** What the climb corrects in a child it corrects in the node. */
  lemma CorrectedThrough<V>(x: Node<V>, j: nat, p: Descent<V>, d: int, c: Node<V>)
    requires j < |x.children| && Once(Swapped(x, j, p.node)) && Corrects(p, d, c) && p.node.size == x.children[j].size
    ensures Corrects(p.(node := Swapped(x, j, p.node)), d, WithChild(x, j, c))
    ensures p.leaf != x.id
  {
    ClimbsThrough(x, j, p.node, p.leaf, d);
  }

  // ---- Erasure as the code runs it ----

  /** The descent of erase_lb, with the key gone and no size touched except by rotations and merges. */
  function Erased<V>(t: nat, x: Node<V>, h: nat, k: Key): Descent<V>
    requires t >= 2 && Shape(t, x, h) && (h > 0 ==> |x.keys| >= 1)
    decreases h, 1
  {
    var i := LowerBound(x.keys, k);
    if i < |x.keys| && x.keys[i].key == k then
      if x.IsLeaf() then Descent(x.(keys := x.keys[..i] + x.keys[i + 1..]), x.id, true)
      else if x.children[i].CanTakeKey(t) then
        ChildGood(t, x, h, i);
        var c := ReplaceLast(t, x.children[i], h - 1, x.keys[i]);
        ErasedIn(t, SetKey(x, i, LastEntry(t, x.children[i], h - 1)), h, i, c, k)
      else if x.children[i + 1].CanTakeKey(t) then
        ChildGood(t, x, h, i + 1);
        var c := ReplaceFirst(t, x.children[i + 1], h - 1, x.keys[i]);
        ErasedIn(t, SetKey(x, i, FirstEntry(t, x.children[i + 1], h - 1)), h, i + 1, c, k)
      else
        ChildGood(t, x, h, i);
        ChildGood(t, x, h, i + 1);
        var x1 := Merge(t, x, h, i);
        ChildGood(t, x1, h, i);
        ErasedIn(t, x1, h, i, x1.children[i], k)
    else if x.IsLeaf() then Descent(x, x.id, false)
    else
      var p := Prepare(t, x, h, i);
      ChildGood(t, p.0, h, p.1);
      ErasedIn(t, p.0, h, p.1, p.0.children[p.1], k)
  }

  /** The descent goes on in c, child j of x. */
  function ErasedIn<V>(t: nat, x: Node<V>, h: nat, j: nat, c: Node<V>, k: Key): Descent<V>
    requires t >= 2 && h > 0 && j < |x.children| && Good(t, c, h - 1)
    decreases h, 0
  {
    var p := Erased(t, c, h - 1, k);
    p.(node := Swapped(x, j, p.node))
  }

  /** No identity is new. */
  ghost predicate Shrunk<V>(x: Node<V>, y: Node<V>) {
    forall id: Id :: Times(y, id) <= Times(x, id)
  }

  lemma ShrunkOnce<V>(x: Node<V>, y: Node<V>)
    requires Once(x) && Shrunk(x, y)
    ensures Once(y)
  {
    forall id: Id ensures Times(y, id) <= 1 {
      assert Times(x, id) <= 1;
      assert Times(y, id) <= Times(x, id);
    }
  }

  lemma ShrunkTwice<V>(x: Node<V>, y: Node<V>, w: Node<V>)
    requires Shrunk(x, y) && Shrunk(y, w)
    ensures Shrunk(x, w)
  {
    forall id: Id ensures Times(w, id) <= Times(x, id) {
      assert Times(y, id) <= Times(x, id);
      assert Times(w, id) <= Times(y, id);
    }
  }

  lemma ShrunkBelow<V>(x: Node<V>, j: nat, c: Node<V>)
    requires j < |x.children| && Shrunk(x.children[j], c)
    ensures Shrunk(x, Swapped(x, j, c))
  {
    forall id: Id ensures Times(Swapped(x, j, c), id) <= Times(x, id) {
      SwappedTimes(x, j, c, id);
      assert Times(c, id) <= Times(x.children[j], id);
    }
  }

  lemma ShrunkKeys<V>(x: Node<V>, y: Node<V>)
    requires y.id == x.id && y.children == x.children
    ensures Shrunk(x, y)
  {
  }

  lemma PrepareShrinks<V>(t: nat, x: Node<V>, h: nat, i: nat)
    requires t >= 2 && h > 0 && Shape(t, x, h) && |x.keys| >= 1 && i < |x.children|
    ensures Shrunk(x, Prepare(t, x, h, i).0) && Prepare(t, x, h, i).0.size == x.size && Prepare(t, x, h, i).0.id == x.id
  {
    forall id: Id ensures Times(Prepare(t, x, h, i).0, id) <= Times(x, id) {
      PrepareTimes(t, x, h, i, id);
    }
    hide Times, Flat, SamePlace, Linked;
  }

  lemma MergeShrinks<V>(x: Node<V>, i: nat)
    requires i + 1 < |x.children| && i < |x.keys|
    ensures Shrunk(x, MergeChild(x, i)) && MergeChild(x, i).size == x.size
  {
    forall id: Id ensures Times(MergeChild(x, i), id) <= Times(x, id) {
      MergeTimes(x, i, id);
    }
  }

  lemma {:induction false} ReplacedLast<V>(t: nat, n: Node<V>, h: nat, e: Entry<V>)
    requires t >= 2 && Good(t, n, h)
    ensures var r := ReplaceLast(t, n, h, e); r.size == n.size && Shrunk(n, r)
    decreases h
  {
    hide Shrunk, Flat, SamePlace;
    if n.IsLeaf() {
      ShrunkKeys(n, SetKey(n, |n.keys| - 1, e));
    } else {
      var j := |n.keys|;
      ChildGood(t, n, h, j);
      ReplacedLast(t, n.children[j], h - 1, e);
      var c := ReplaceLast(t, n.children[j], h - 1, e);
      ShrunkBelow(n, j, c);
      assert WithChild(n, j, c) == Swapped(n, j, c);
    }
  }

  lemma {:induction false} ReplacedFirst<V>(t: nat, n: Node<V>, h: nat, e: Entry<V>)
    requires t >= 2 && Good(t, n, h)
    ensures var r := ReplaceFirst(t, n, h, e); r.size == n.size && Shrunk(n, r)
    decreases h
  {
    hide Shrunk, Flat, SamePlace;
    if n.IsLeaf() {
      ShrunkKeys(n, SetKey(n, 0, e));
    } else {
      ChildGood(t, n, h, 0);
      ReplacedFirst(t, n.children[0], h - 1, e);
      var c := ReplaceFirst(t, n.children[0], h - 1, e);
      ShrunkBelow(n, 0, c);
      assert WithChild(n, 0, c) == Swapped(n, 0, c);
    }
  }

  /** What is shown of a descent: climbing down by one makes r of it. */
  ghost predicate ErasedTo<V>(x: Node<V>, p: Descent<V>, r: Node<V>, h: nat) {
    Corrects(p, -1, r) && p.node.size == x.size && Shrunk(x, p.node) && (h > 0 ==> p.leaf != p.node.id)
  }

  /** The descent goes on in a version c of child j. */
  lemma {:induction false} ErasedInTo<V>(t: nat, x: Node<V>, h: nat, j: nat, c: Node<V>, k: Key)
    requires t >= 2 && h > 0 && j < |x.children| && Good(t, c, h - 1) && Once(x)
    requires Shrunk(x.children[j], c) && c.size == x.children[j].size
    ensures ErasedTo(x, ErasedIn(t, x, h, j, c, k), WithChild(x, j, EraseFrom(t, c, h - 1, k)), h)
    decreases h, 0, 0
  {
    hide Shrunk, Once, Corrects, Flat, SamePlace;
    OnceApart(x, j);
    ShrunkOnce(x.children[j], c);
    ErasedIsErased(t, c, h - 1, k);
    var p := Erased(t, c, h - 1, k);
    ShrunkTwice(x.children[j], c, p.node);
    ShrunkBelow(x, j, p.node);
    ShrunkOnce(x, Swapped(x, j, p.node));
    CorrectedThrough(x, j, p, -1, EraseFrom(t, c, h - 1, k));
  }

  /** The climb after the descent leaves exactly the tree whose sizes are right. */
  lemma {:induction false} ErasedIsErased<V>(t: nat, x: Node<V>, h: nat, k: Key)
    requires t >= 2 && Shape(t, x, h) && (h > 0 ==> |x.keys| >= 1) && Once(x)
    ensures ErasedTo(x, Erased(t, x, h, k), EraseFrom(t, x, h, k), h)
    decreases h, 2
  {
    hide Shrunk, Once, Corrects, Flat, SamePlace, ErasedTo;
    var i := LowerBound(x.keys, k);
    if i < |x.keys| && x.keys[i].key == k {
      if x.IsLeaf() {
        ErasedAtLeaf(x, x.keys[..i] + x.keys[i + 1..]);
      } else {
        FoundIsErased(t, x, h, i, k);
      }
    } else if x.IsLeaf() {
      ErasedNothing(x);
    } else {
      PreparedIsErased(t, x, h, i, k);
    }
  }

  lemma ErasedAtLeaf<V>(x: Node<V>, keys: seq<Entry<V>>)
    requires x.IsLeaf()
    ensures ErasedTo(x, Descent(x.(keys := keys), x.id, true), x.(keys := keys, size := x.size - 1), 0)
  {
    AtLeaf(x, keys, -1, 0, 0);
    ShrunkKeys(x, x.(keys := keys));
  }

  lemma ErasedNothing<V>(x: Node<V>)
    ensures ErasedTo(x, Descent(x, x.id, false), x, 0)
  {
    AtOnce(x, x, 0, 0);
  }

  lemma {:induction false} PreparedIsErased<V>(t: nat, x: Node<V>, h: nat, i: nat, k: Key)
    requires t >= 2 && h > 0 && Shape(t, x, h) && |x.keys| >= 1 && Once(x) && i < |x.children|
    requires i == LowerBound(x.keys, k) && !(i < |x.keys| && x.keys[i].key == k)
    ensures ErasedTo(x, Erased(t, x, h, k), EraseFrom(t, x, h, k), h)
    decreases h, 1
  {
    hide Shrunk, Once, Corrects, Flat, SamePlace;
    PrepareShrinks(t, x, h, i);
    var p := Prepare(t, x, h, i);
    hide Prepare;
    ShrunkOnce(x, p.0);
    ChildGood(t, p.0, h, p.1);
    var c := p.0.children[p.1];
    ShrunkKeys(c, c);
    hide Shape, Good;
    ErasedInTo(t, p.0, h, p.1, c, k);
    ShrunkTwice(x, p.0, ErasedIn(t, p.0, h, p.1, c, k).node);
  }

  lemma {:induction false} FoundIsErased<V>(t: nat, x: Node<V>, h: nat, i: nat, k: Key)
    requires t >= 2 && h > 0 && Shape(t, x, h) && |x.keys| >= 1 && Once(x)
    requires i == LowerBound(x.keys, k) < |x.keys| && x.keys[i].key == k
    ensures ErasedTo(x, Erased(t, x, h, k), EraseFrom(t, x, h, k), h)
    decreases h, 1
  {
    hide Shrunk, Once, Corrects, Flat, SamePlace, ErasedTo;
    ChildGood(t, x, h, i);
    ChildGood(t, x, h, i + 1);
    hide Shape, Erased, EraseFrom, LastEntry, FirstEntry;
    if x.children[i].CanTakeKey(t) {
      PredIsErased(t, x, h, i, k);
    } else if x.children[i + 1].CanTakeKey(t) {
      SuccIsErased(t, x, h, i, k);
    } else {
      MergedIsErased(t, x, h, i, k);
    }
  }

  lemma {:induction false} PredIsErased<V>(t: nat, x: Node<V>, h: nat, i: nat, k: Key)
    requires t >= 2 && h > 0 && Shape(t, x, h) && |x.keys| >= 1 && Once(x)
    requires i == LowerBound(x.keys, k) < |x.keys| && x.keys[i].key == k && x.children[i].CanTakeKey(t)
    ensures ErasedTo(x, Erased(t, x, h, k), EraseFrom(t, x, h, k), h)
    decreases h, 0, 2
  {
    hide Shrunk, Once, Corrects, Flat, SamePlace, ErasedTo, ReplaceLast, LastEntry, ErasedIn, SetKey;
    ChildGood(t, x, h, i);
    var c := ReplaceLast(t, x.children[i], h - 1, x.keys[i]);
    ReplacedLast(t, x.children[i], h - 1, x.keys[i]);
    SwapIsErased(t, x, h, i, LastEntry(t, x.children[i], h - 1), i, c, k);
  }

  lemma {:induction false} SuccIsErased<V>(t: nat, x: Node<V>, h: nat, i: nat, k: Key)
    requires t >= 2 && h > 0 && Shape(t, x, h) && |x.keys| >= 1 && Once(x)
    requires i == LowerBound(x.keys, k) < |x.keys| && x.keys[i].key == k
    requires !x.children[i].CanTakeKey(t) && x.children[i + 1].CanTakeKey(t)
    ensures ErasedTo(x, Erased(t, x, h, k), EraseFrom(t, x, h, k), h)
    decreases h, 0, 2
  {
    hide Shrunk, Once, Corrects, Flat, SamePlace, ErasedTo, ReplaceFirst, FirstEntry, ErasedIn, SetKey;
    ChildGood(t, x, h, i + 1);
    var c := ReplaceFirst(t, x.children[i + 1], h - 1, x.keys[i]);
    ReplacedFirst(t, x.children[i + 1], h - 1, x.keys[i]);
    SwapIsErased(t, x, h, i, FirstEntry(t, x.children[i + 1], h - 1), i + 1, c, k);
  }

  lemma {:induction false} SwapIsErased<V>(t: nat, x: Node<V>, h: nat, i: nat, e: Entry<V>, j: nat, c: Node<V>, k: Key)
    requires t >= 2 && h > 0 && i < |x.keys| && j < |x.children| && Good(t, c, h - 1) && Once(x)
    requires Shrunk(x.children[j], c) && c.size == x.children[j].size
    ensures ErasedTo(x, ErasedIn(t, SetKey(x, i, e), h, j, c, k), WithChild(SetKey(x, i, e), j, EraseFrom(t, c, h - 1, k)), h)
    decreases h, 0, 1
  {
    hide Shrunk, Once, Corrects, Flat, SamePlace;
    var x1 := SetKey(x, i, e);
    ShrunkKeys(x, x1);
    ShrunkOnce(x, x1);
    ErasedInTo(t, x1, h, j, c, k);
    ShrunkTwice(x, x1, ErasedIn(t, x1, h, j, c, k).node);
  }

  lemma {:induction false} MergedIsErased<V>(t: nat, x: Node<V>, h: nat, i: nat, k: Key)
    requires t >= 2 && h > 0 && Shape(t, x, h) && |x.keys| >= 1 && Once(x)
    requires i == LowerBound(x.keys, k) < |x.keys| && x.keys[i].key == k
    requires !x.children[i].CanTakeKey(t) && !x.children[i + 1].CanTakeKey(t)
    ensures ErasedTo(x, Erased(t, x, h, k), EraseFrom(t, x, h, k), h)
    decreases h, 0, 1
  {
    hide Shrunk, Once, Corrects, Flat, SamePlace;
    ChildGood(t, x, h, i);
    ChildGood(t, x, h, i + 1);
    MergeShrinks(x, i);
    var x1 := Merge(t, x, h, i);
    hide MergeChild;
    ShrunkOnce(x, x1);
    ChildGood(t, x1, h, i);
    ShrunkKeys(x1.children[i], x1.children[i]);
    hide Shape, Good;
    ErasedInTo(t, x1, h, i, x1.children[i], k);
    ShrunkTwice(x, x1, ErasedIn(t, x1, h, i, x1.children[i], k).node);
  }

  // ---- The root ----

  /** Every identity in the tree is below next. */
  ghost predicate Bounded<V>(x: Node<V>, next: Id) {
    forall id: Id :: Holds(x, id) ==> id < next
  }

  lemma InsertedBounded<V>(x: Node<V>, y: Node<V>, next: Id, h: nat)
    requires Bounded(x, next) && Extended(x, y, next, h)
    ensures Bounded(y, next + h)
  {
    forall id: Id | Holds(y, id) ensures id < next + h {
      assert Times(y, id) <= Times(x, id) + OneIf(next <= id < next + h);
      assert Holds(x, id) ==> id < next;
    }
  }

  lemma ShrunkBounded<V>(x: Node<V>, y: Node<V>, next: Id)
    requires Bounded(x, next) && Shrunk(x, y)
    ensures Bounded(y, next)
  {
    forall id: Id | Holds(y, id) ensures id < next {
      assert Times(y, id) <= Times(x, id);
      assert Holds(x, id);
    }
  }

  /** A new root above the old one, which is split: two new nodes. */
  lemma GrownTimes<V>(t: nat, root: Node<V>, z: Id, id: Id)
    requires t >= 2 && Shape(t, root, root.height) && root.IsFull(t) && root.index == 0
    ensures Times(Grown(t, root, z), id) == Times(root, id) + OneIf(id == z + root.height) + OneIf(id == z + root.height + 1)
  {
    hide Flat, Times, SplitChild, SumSizes, Linked, SamePlace;
    var top := NewRoot(root, z);
    GrownTop(t, root, z);
    SplitTimes(t, top, root.height + 1, 0, z + root.height, id);
    hide Shape;
    OnlyChildTimes(top, id);
    RelinkedTimes(root, top.children[0], id);
  }

  lemma OnlyChildTimes<V>(n: Node<V>, id: Id)
    requires |n.children| == 1
    ensures Times(n, id) == OneIf(id == n.id) + Times(n.children[0], id)
  {
    TimesAt(n.children, 0, id);
    assert n.children[1..] == [] && n.children[..0] == [];
  }

  lemma RelinkedTimes<V>(c: Node<V>, c': Node<V>, id: Id)
    requires Unlinked(c) == Unlinked(c')
    ensures Times(c, id) == Times(c', id)
  {
    AlikeNode(c, c');
  }

  lemma GrownOnce<V>(t: nat, root: Node<V>, z: Id)
    requires t >= 2 && Shape(t, root, root.height) && root.IsFull(t) && root.index == 0
    requires Once(root) && Bounded(root, z)
    ensures Once(Grown(t, root, z)) && Bounded(Grown(t, root, z), z + root.height + 2)
  {
    hide Shape, Grown, Times;
    forall id: Id ensures Times(Grown(t, root, z), id) <= 1 && (Holds(Grown(t, root, z), id) ==> id < z + root.height + 2) {
      GrownTimes(t, root, z, id);
      assert Times(root, id) <= 1;
      assert Holds(root, id) ==> id < z;
    }
  }

  /** promote_root_if_necessary, on a tree whose sizes may still be off. */
  function PromotedRaw<V>(root: Node<V>): Node<V>
    requires root.children != []
  {
    root.children[0].(parent := None, index := 0)
  }

  lemma {:induction false} RelinkedRoot<V>(c: Node<V>, c': Node<V>, leaf: Id, d: int)
    requires Unlinked(c) == Unlinked(c') && Holds(c, leaf)
    ensures Holds(c', leaf) && UpFrom(c', leaf) == UpFrom(c, leaf)
    ensures Unlinked(Resized(c', UpFrom(c, leaf), d)) == Unlinked(Resized(c, UpFrom(c, leaf), d))
  {
    AlikeNode(c, c');
  }

  /** Promotion before the climb gives the same as after it. */
  lemma PromotionCommutes<V>(p: Node<V>, leaf: Id, d: int)
    requires |p.children| == 1 && Once(p) && Holds(p, leaf) && leaf != p.id
    ensures Holds(PromotedRaw(p), leaf) && Once(PromotedRaw(p))
    ensures Resized(PromotedRaw(p), UpFrom(PromotedRaw(p), leaf), d) == PromotedRaw(Resized(p, UpFrom(p, leaf), d))
  {
    var c, c' := p.children[0], PromotedRaw(p);
    OnlyChildTimes(p, leaf);
    assert Unlinked(c) == Unlinked(c');
    TrailThrough(p, 0, leaf);
    ClimbAtChild(p, 0, leaf, d, 0);
    RelinkedRoot(c, c', leaf, d);
    OnceApart(p, 0);
    forall id: Id ensures Times(c', id) == Times(c, id) {
    }
  }

  /** What Climb asks for, and what it makes of the tree. */
  ghost predicate Climbable<V>(q: Node<V>, leaf: Id, d: int, r: Node<V>) {
    Holds(q, leaf) && Once(q) && Links(q) && q.parent == None && Resized(q, UpFrom(q, leaf), d) == r
  }

  lemma ResizedOnce<V>(n: Node<V>, s: set<Id>, d: int, next: Id)
    requires Once(n)
    ensures Once(Resized(n, s, d)) && (Bounded(n, next) ==> Bounded(Resized(n, s, d), next))
  {
    hide Times, Resized;
    var n' := Resized(n, s, d);
    forall id: Id ensures Times(n', id) == Times(n, id) && (Holds(n', id) <==> Holds(n, id)) {
      ResizedTimes(n, s, d, id);
    }
  }

  /** After a descent: the loop can run and gives r, whose nodes are still different. */
  lemma ReadyToClimb<V>(t: nat, p: Descent<V>, d: int, r: Node<V>, h: nat, next: Id)
    requires Corrects(p, d, r) && Shape(t, r, h) && r.parent == None && Once(p.node) && Bounded(p.node, next)
    ensures if p.climb then Climbable(p.node, p.leaf, d, r) else p.node == r
    ensures Once(r) && Bounded(r, next) && r.keys == p.node.keys && |r.children| == |p.node.children|
    ensures r.size == p.node.size + if p.climb then d else 0
  {
    ShapeLinks(t, r, h);
    if p.climb {
      ResizedLinks(p.node, UpFrom(p.node, p.leaf), d);
      ResizedOnce(p.node, UpFrom(p.node, p.leaf), d, next);
      ResizedRoot(p.node, p.leaf, d);
    }
  }

  lemma BoundedFree<V>(x: Node<V>, z: Id, h: nat)
    requires Bounded(x, z)
    ensures Free(x, z, h)
  {
  }

  lemma InsertReady<V>(t: nat, x: Node<V>, h: nat, k: Key, v: V, z: Id)
    requires t >= 2 && Shape(t, x, h) && !x.IsFull(t) && Once(x) && Bounded(x, z) && x.parent == None
    ensures var p, r := Placed(t, x, h, k, v, z), InsertInto(t, x, h, k, v, z);
      (if p.climb then Climbable(p.node, p.leaf, 1, r) else p.node == r) && Once(r) && Bounded(r, z + h)
    ensures var r := InsertInto(t, x, h, k, v, z); r.height == h && r.parent == None && r.index == x.index && |r.keys| >= |x.keys|
  {
    hide Once, Free, Extended, Corrects, Bounded, Climbable;
    BoundedFree(x, z, h);
    PlacedIsInserted(t, x, h, k, v, z);
    var p, r := Placed(t, x, h, k, v, z), InsertInto(t, x, h, k, v, z);
    ExtendedOnce(x, p.node, z, h);
    InsertedBounded(x, p.node, z, h);
    ReadyToClimb(t, p, 1, r, h, z + h);
  }

  /** An inner root without keys gives way to its only child. */
  function RootOf<V>(n: Node<V>): Node<V> {
    if n.keys == [] && !n.IsLeaf() then PromotedRaw(n) else n
  }

  lemma RootOfOnce<V>(n: Node<V>, next: Id)
    requires Once(n) && Bounded(n, next)
    ensures Once(RootOf(n)) && Bounded(RootOf(n), next)
  {
    if n.keys == [] && !n.IsLeaf() {
      forall id: Id ensures Times(RootOf(n), id) <= Times(n, id) {
        TimesAt(n.children, 0, id);
      }
      ShrunkOnce(n, RootOf(n));
      ShrunkBounded(n, RootOf(n), next);
    }
  }

  lemma EraseReady<V>(t: nat, x: Node<V>, h: nat, k: Key, next: Id)
    requires t >= 2 && Shape(t, x, h) && (h > 0 ==> |x.keys| >= 1) && Once(x) && Bounded(x, next) && x.parent == None
    ensures var p, r := Erased(t, x, h, k), EraseFrom(t, x, h, k);
      && (if p.climb then Climbable(RootOf(p.node), p.leaf, -1, RootOf(r)) else RootOf(p.node) == RootOf(r))
      && Once(RootOf(r)) && Bounded(RootOf(r), next) && r.size == x.size - if p.climb then 1 else 0
  {
    hide Once, Shrunk, Corrects, Bounded;
    ErasedIsErased(t, x, h, k);
    var p, r := Erased(t, x, h, k), EraseFrom(t, x, h, k);
    ShrunkOnce(x, p.node);
    ShrunkBounded(x, p.node, next);
    ReadyToClimb(t, p, -1, r, h, next);
    RootOfOnce(r, next);
    if p.climb && r.keys == [] && !r.IsLeaf() {
      PromotionCommutes(p.node, p.leaf, -1);
      assert Links(p.node.children[0]);
    }
  }

  /** The size tells whether the key was there. */
  lemma EraseCounts<V>(t: nat, x: Node<V>, k: Key)
    requires t >= 2 && Shape(t, x, x.height) && (x.height > 0 ==> |x.keys| >= 1) && Sorted(Flat(x))
    ensures x.size - EraseFrom(t, x, x.height, k).size == if k in AsMap(Flat(x)) then 1 else 0
  {
    EraseIsRemove(t, x, x.height, k);
    SizeCounts(t, x, x.height);
    SizeCounts(t, EraseFrom(t, x, x.height, k), x.height);
    RemoveCounts(Flat(x), k);
  }

  lemma RootOfErased<V>(t: nat, r: Node<V>, h: nat)
    requires t >= 2 && Shape(t, r, h) && r.parent == None && r.index == 0
    ensures var q := RootOf(r);
      && Shape(t, q, q.height) && (q.height > 0 ==> |q.keys| >= 1) && Flat(q) == Flat(r) && q.parent == None && q.index == 0
  {
    if r.keys == [] && !r.IsLeaf() {
      assert RootOf(r) == Promoted(t, r);
    }
  }

  // ---- The tree as an object ----

  /**
   The index: a valid tree is sorted, has the shape of a B-tree of fanout t with all sizes and links right, and no
   childless inner root; its nodes are different, and next is the first identity that is not in use.
   */
  class Index<V> {
    const fanout: nat
    var root: Node<V>
    var next: Id

    ghost predicate Valid()
      reads this
    {
      && fanout >= 2 && Shape(fanout, root, root.height) && (root.height > 0 ==> |root.keys| >= 1) && Sorted(Flat(root))
      && root.parent == None && root.index == 0 && Once(root) && Bounded(root, next)
    }

    /** The finite map the tree stands for. */
    ghost function Contents(): map<Key, V>
      reads this
    {
      AsMap(Flat(root))
    }

    constructor (t: nat)
      requires t >= 2
      ensures Valid() && Contents() == map[] && fanout == t
    {
      fanout := t;
      root := Node(0, [], [], 0, 0, None, 0);
      next := 1;
    }

    method Find(k: Key) returns (r: Option<V>)
      requires Valid()
      ensures r == if k in Contents() then Some(Contents()[k]) else None
    {
      r := Search(fanout, root, root.height, k);
      SearchIsLookup(fanout, root, root.height, k);
      LookupIsGet(Flat(root), k);
    }

    /** A full root becomes the only child of a new one and is split. */
    method GrowIfFull()
      requires Valid()
      modifies this
      ensures Valid() && Contents() == old(Contents()) && !root.IsFull(fanout)
    {
      if root.IsFull(fanout) {
        GrownOnce(fanout, root, next);
        hide Once, Bounded, Flat, Sorted;
        root, next := Grown(fanout, root, next), next + root.height + 2;
      }
    }

    /** index[k] = v. */
    method Set(k: Key, v: V)
      requires Valid()
      modifies this
      ensures Valid() && Contents() == old(Contents())[k := v]
    {
      hide Once, Bounded, Flat, Sorted, Placed, InsertInto, Put, Holds, Links;
      GrowIfFull();
      ghost var x, z := root, next;
      PutIsUpdate(Flat(x), k, v);
      InsertReady(fanout, x, x.height, k, v, z);
      InsertIsPut(fanout, x, x.height, k, v, z);
      assert Shape(fanout, InsertInto(fanout, x, x.height, k, v, z), x.height);
      hide Shape;
      var p := Placed(fanout, root, root.height, k, v, next);
      next := next + root.height;
      root := p.node;
      if p.climb {
        root := Climb(root, p.leaf, 1);
      }
    }

    /** Erase by key; an inner root left without keys gives way to its only child. */
    method Erase(k: Key) returns (n: nat)
      requires Valid()
      modifies this
      ensures Valid() && Contents() == old(Contents()) - {k}
      ensures n == if k in old(Contents()) then 1 else 0
    {
      hide Once, Bounded, Sorted;
      ghost var x := root;
      EraseReady(fanout, x, x.height, k, next);
      EraseCounts(fanout, x, k);
      RemoveIsDelete(Flat(x), k);
      EraseIsRemove(fanout, x, x.height, k);
      var p := Erased(fanout, root, root.height, k);
      n := if p.climb then 1 else 0;
      root := RootOf(p.node);
      if p.climb {
        root := Climb(root, p.leaf, -1);
      }
      RootOfErased(fanout, EraseFrom(fanout, x, x.height, k), x.height);
    }
  }
}
