/**
 Search, insertion (operator[] followed by assignment) and erasure by key in a B-tree of any fanout t >= 2, with every
 size right on the way: the reference for the tree's entries.
 */
module BTree {
  import opened Options
  import opened Seqs
  import opened SortedEntries
  import opened BTreeNodes

  /** get_lb: the first key not below k. */
  function LowerBound<V>(keys: seq<Entry<V>>, k: Key): (i: nat)
    ensures i <= |keys|
    ensures forall j :: 0 <= j < i ==> keys[j].key < k
    ensures i < |keys| ==> k <= keys[i].key
  {
    if keys == [] || k <= keys[0].key then 0
    else
      var i := LowerBound(keys[1..], k);
      assert forall j :: 0 <= j < i ==> keys[j + 1] == keys[1..][j];
      i + 1
  }

  // ---- Order in a sorted tree ----

  /** Everything left of child i is below k and everything right of it above. */
  ghost predicate Window<V>(x: Node<V>, i: nat, k: Key) {
    && i < |x.children| == |x.keys| + 1
    && Below(Before(x.keys[..i], x.children[..i]), k)
    && Above(After(x.keys[i..], x.children[i + 1..]), k)
  }

  lemma SortedParts<V>(a: seq<Entry<V>>, b: seq<Entry<V>>, c: seq<Entry<V>>)
    requires Sorted(a + b + c)
    ensures Sorted(a) && Sorted(b) && Sorted(c)
  {
    var s := a + b + c;
    assert forall i :: 0 <= i < |a| ==> a[i] == s[i];
    assert forall i :: 0 <= i < |b| ==> b[i] == s[|a| + i];
    assert forall i :: 0 <= i < |c| ==> c[i] == s[|a| + |b| + i];
  }

  /** A sorted sequence around one of its entries. */
  lemma SortedAround<V>(a: seq<Entry<V>>, e: Entry<V>, b: seq<Entry<V>>)
    requires Sorted(a + [e] + b)
    ensures Below(a, e.key) && Above(b, e.key)
  {
    var s := a + [e] + b;
    assert s[|a|] == e;
    assert forall i :: 0 <= i < |a| ==> a[i] == s[i];
    assert forall i :: 0 <= i < |b| ==> b[i] == s[|a| + 1 + i];
  }

  /** Before(...) ends with its last key. */
  lemma {:induction false} BeforeEnds<V>(ks: seq<Entry<V>>, cs: seq<Node<V>>)
    requires |ks| == |cs| > 0
    ensures var b := Before(ks, cs); |b| > 0 && b[|b| - 1] == ks[|ks| - 1]
  {
    if |ks| > 1 {
      BeforeEnds(ks[1..], cs[1..]);
    }
  }

  /** Child i is the one to search for k, once the keys on either side of it say so. */
  lemma WindowAt<V>(x: Node<V>, i: nat, k: Key)
    requires i < |x.children| == |x.keys| + 1 && Sorted(Flat(x))
    requires i > 0 ==> x.keys[i - 1].key < k
    requires i < |x.keys| ==> k < x.keys[i].key
    ensures Window(x, i, k) && Sorted(Flat(x.children[i]))
  {
    var b, a := Before(x.keys[..i], x.children[..i]), After(x.keys[i..], x.children[i + 1..]);
    FlatAt(x, i);
    SortedParts(b, Flat(x.children[i]), a);
    if i > 0 {
      BeforeEnds(x.keys[..i], x.children[..i]);
      assert x.keys[..i][i - 1] == x.keys[i - 1];
    }
    if i < |x.keys| {
      assert a[0] == x.keys[i];
    }
  }

  /** Everything of child i is below key i and everything of child i + 1 above. */
  lemma KeyBetween<V>(x: Node<V>, i: nat)
    requires |x.children| == |x.keys| + 1 && i < |x.keys| && Sorted(Flat(x))
    ensures var k := x.keys[i].key;
      && Below(Before(x.keys[..i], x.children[..i]), k) && Below(Flat(x.children[i]), k)
      && Above(Flat(x.children[i + 1]), k) && Above(After(x.keys[i + 1..], x.children[i + 2..]), k)
      && Sorted(Flat(x.children[i])) && Sorted(Flat(x.children[i + 1]))
  {
    FlatAtKey(x, i);
    SortedFive(Before(x.keys[..i], x.children[..i]), Flat(x.children[i]), x.keys[i], Flat(x.children[i + 1]),
               After(x.keys[i + 1..], x.children[i + 2..]));
  }

  lemma SortedFive<V>(b: seq<Entry<V>>, l: seq<Entry<V>>, e: Entry<V>, r: seq<Entry<V>>, a: seq<Entry<V>>)
    requires Sorted(b + l + [e] + r + a)
    ensures Below(b, e.key) && Below(l, e.key) && Above(r, e.key) && Above(a, e.key) && Sorted(l) && Sorted(r)
  {
    var s := b + l + [e] + r + a;
    assert s[|b| + |l|] == e;
    assert forall j :: 0 <= j < |b| ==> b[j] == s[j];
    assert forall j :: 0 <= j < |l| ==> l[j] == s[|b| + j];
    assert forall j :: 0 <= j < |r| ==> r[j] == s[|b| + |l| + 1 + j];
    assert forall j :: 0 <= j < |a| ==> a[j] == s[|b| + |l| + 1 + |r| + j];
  }

  // ---- Search ----

  /** search: descend by lower bound. */
  function Search<V>(t: nat, x: Node<V>, h: nat, k: Key): (r: Option<V>)
    requires Shape(t, x, h)
    decreases h
  {
    var i := LowerBound(x.keys, k);
    if i < |x.keys| && x.keys[i].key == k then Some(x.keys[i].value)
    else if x.IsLeaf() then None
    else ChildGood(t, x, h, i); Search(t, x.children[i], h - 1, k)
  }

  lemma {:induction false} SearchIsLookup<V>(t: nat, x: Node<V>, h: nat, k: Key)
    requires Shape(t, x, h) && Sorted(Flat(x))
    ensures Search(t, x, h, k) == Lookup(Flat(x), k)
    decreases h
  {
    var i := LowerBound(x.keys, k);
    if i < |x.keys| && x.keys[i].key == k {
      FoundAt(x, h == 0, i);
    } else if x.IsLeaf() {
      RemoveAbsent(x.keys, k);
    } else {
      LookupInChild(x, i, k);
      ChildGood(t, x, h, i);
      SearchIsLookup(t, x.children[i], h - 1, k);
    }
  }

  lemma LookupInChild<V>(x: Node<V>, i: nat, k: Key)
    requires i < |x.children| == |x.keys| + 1 && Sorted(Flat(x)) && i == LowerBound(x.keys, k)
    requires i < |x.keys| ==> x.keys[i].key != k
    ensures Lookup(Flat(x), k) == Lookup(Flat(x.children[i]), k) && Sorted(Flat(x.children[i]))
  {
    WindowAt(x, i, k);
    FlatAt(x, i);
    hide Flat, Before, After, Lookup, Sorted;
    RemoveMiddle(Before(x.keys[..i], x.children[..i]), Flat(x.children[i]), After(x.keys[i..], x.children[i + 1..]), k);
  }

  /** The entries left and right of key i. */
  function LeftOf<V>(x: Node<V>, leaf: bool, i: nat): seq<Entry<V>>
    requires Arity(x, leaf) && i < |x.keys|
  {
    if leaf then x.keys[..i] else Before(x.keys[..i], x.children[..i]) + Flat(x.children[i])
  }

  function RightOf<V>(x: Node<V>, leaf: bool, i: nat): seq<Entry<V>>
    requires Arity(x, leaf) && i < |x.keys|
  {
    if leaf then x.keys[i + 1..] else Flat(x.children[i + 1]) + After(x.keys[i + 1..], x.children[i + 2..])
  }

  lemma KeySplit<V>(x: Node<V>, leaf: bool, i: nat)
    requires Arity(x, leaf) && i < |x.keys|
    ensures Flat(x) == LeftOf(x, leaf, i) + [x.keys[i]] + RightOf(x, leaf, i)
  {
    if leaf {
      assert x.keys == x.keys[..i] + [x.keys[i]] + x.keys[i + 1..];
    } else {
      FlatAtKey(x, i);
      var b, c, d, a := Before(x.keys[..i], x.children[..i]), Flat(x.children[i]), Flat(x.children[i + 1]),
                        After(x.keys[i + 1..], x.children[i + 2..]);
      Assoc(b + c + [x.keys[i]], d, a);
    }
  }

  /** What Put, Remove and Lookup do with a key of the node itself. */
  lemma FoundAt<V>(x: Node<V>, leaf: bool, i: nat)
    requires Arity(x, leaf) && i < |x.keys| && Sorted(Flat(x))
    ensures var k := x.keys[i].key;
      && Flat(x) == LeftOf(x, leaf, i) + [x.keys[i]] + RightOf(x, leaf, i)
      && Below(LeftOf(x, leaf, i), k) && Above(RightOf(x, leaf, i), k)
      && Lookup(Flat(x), k) == Some(x.keys[i].value)
      && Remove(Flat(x), k) == LeftOf(x, leaf, i) + RightOf(x, leaf, i)
      && forall v :: Put(Flat(x), k, v) == LeftOf(x, leaf, i) + [Entry(k, v)] + RightOf(x, leaf, i)
  {
    var l, e, r, k := LeftOf(x, leaf, i), x.keys[i], RightOf(x, leaf, i), x.keys[i].key;
    KeySplit(x, leaf, i);
    hide Sorted, Flat, LeftOf, RightOf;
    SortedAround(l, e, r);
    hide Below, Above;
    RemoveMiddle(l, [e], r, k);
    assert l + [] + r == l + r;
    assert Remove([e], k) == [];
    forall v
      ensures Put(Flat(x), k, v) == l + [Entry(k, v)] + r
    {
      PutMiddle(l, [e], r, k, v);
      assert Put([e], k, v) == [Entry(k, v)];
    }
  }

  // ---- Insertion ----

  /** Key i is set in place. */
  function SetKey<V>(x: Node<V>, i: nat, e: Entry<V>): Node<V>
    requires i < |x.keys|
  {
    x.(keys := x.keys[i := e])
  }

  lemma SetKeyFits<V>(t: nat, x: Node<V>, h: nat, i: nat, e: Entry<V>)
    requires Shape(t, x, h) && i < |x.keys|
    ensures Shape(t, SetKey(x, i, e), h)
    ensures Flat(SetKey(x, i, e)) == LeftOf(x, h == 0, i) + [e] + RightOf(x, h == 0, i)
  {
    var x' := SetKey(x, i, e);
    if h > 0 {
      ChildrenGood(t, x, h);
      Built(t, x', h);
      FlatAtKey(x', i);
      assert x'.keys[..i] == x.keys[..i] && x'.keys[i + 1..] == x.keys[i + 1..];
      var b, c, d, a := Before(x.keys[..i], x.children[..i]), Flat(x.children[i]), Flat(x.children[i + 1]),
                        After(x.keys[i + 1..], x.children[i + 2..]);
      assert b + c + [e] + d + a == (b + c) + [e] + (d + a);
    }
  }

  /** insert_leaf: a key enters a leaf at its place. */
  function InsertLeaf<V>(x: Node<V>, i: nat, e: Entry<V>): Node<V>
    requires i <= |x.keys|
  {
    x.(keys := x.keys[..i] + [e] + x.keys[i..], size := x.size + 1)
  }

  /** x with key i set, in a tree of height h. */
  function Reassign<V>(t: nat, x: Node<V>, h: nat, i: nat, e: Entry<V>): (r: Node<V>)
    requires Shape(t, x, h) && i < |x.keys|
    ensures Shape(t, r, h) && |r.keys| == |x.keys| && SamePlace(r, x)
  {
    SetKeyFits(t, x, h, i, e);
    SetKey(x, i, e)
  }

  /** x with child j replaced, in a tree of height h. */
  function Adopt<V>(t: nat, x: Node<V>, h: nat, j: nat, c: Node<V>): (r: Node<V>)
    requires h > 0 && Shape(t, x, h) && j < |x.children| && Good(t, c, h - 1) && SamePlace(c, x.children[j])
    ensures Shape(t, r, h) && |r.keys| == |x.keys| && SamePlace(r, x)
  {
    WithChildFits(t, x, h, j, c);
    WithChild(x, j, c)
  }

  /** x with its full child i split; z is the new node. */
  function Split<V>(t: nat, x: Node<V>, h: nat, i: nat, z: Id): (r: Node<V>)
    requires t >= 2 && h > 0 && Shape(t, x, h) && !x.IsFull(t) && i < |x.children| && x.children[i].IsFull(t)
    ensures Shape(t, r, h) && |r.keys| == |x.keys| + 1 && SamePlace(r, x)
    ensures |r.children[i].keys| == |r.children[i + 1].keys| == t - 1
  {
    SplitKeeps(t, x, h, i, z);
    SplitChild(t, x, i, z)
  }

  /**
   The descent of operator[] from a node that is not full: full children are split on the way down,
   so that the leaf has room; the shape is kept and the node loses no key. A new node of height g is called z + g.
   */
  function InsertInto<V>(t: nat, x: Node<V>, h: nat, k: Key, v: V, z: Id): (r: Node<V>)
    requires t >= 2 && Shape(t, x, h) && !x.IsFull(t)
    ensures Shape(t, r, h) && |r.keys| >= |x.keys| && SamePlace(r, x)
    decreases h, 1
  {
    var i := LowerBound(x.keys, k);
    if i < |x.keys| && x.keys[i].key == k then Reassign(t, x, h, i, Entry(k, v))
    else if x.IsLeaf() then InsertLeaf(x, i, Entry(k, v))
    else if !x.children[i].IsFull(t) then InsertBelow(t, x, h, i, k, v, z)
    else
      var x1 := Split(t, x, h, i, z + (h - 1));
      if x1.keys[i].key == k then Reassign(t, x1, h, i, Entry(k, v))
      else InsertBelow(t, x1, h, if x1.keys[i].key < k then i + 1 else i, k, v, z)
  }

  /** The descent goes on in child j, which is not full. */
  function InsertBelow<V>(t: nat, x: Node<V>, h: nat, j: nat, k: Key, v: V, z: Id): (r: Node<V>)
    requires t >= 2 && h > 0 && Shape(t, x, h) && j < |x.children| && !x.children[j].IsFull(t)
    ensures Shape(t, r, h) && |r.keys| == |x.keys| && SamePlace(r, x)
    decreases h, 0
  {
    ChildGood(t, x, h, j);
    Adopt(t, x, h, j, InsertInto(t, x.children[j], h - 1, k, v, z))
  }

  /** Descending into the child whose window holds k. */
  lemma PutInChild<V>(t: nat, x: Node<V>, h: nat, j: nat, c: Node<V>, k: Key, v: V)
    requires h > 0 && Shape(t, x, h) && j < |x.children| && Good(t, c, h - 1) && SamePlace(c, x.children[j])
    requires Window(x, j, k) && Flat(c) == Put(Flat(x.children[j]), k, v)
    ensures Flat(WithChild(x, j, c)) == Put(Flat(x), k, v)
  {
    WithChildFits(t, x, h, j, c);
    FlatAt(x, j);
    PutMiddle(Before(x.keys[..j], x.children[..j]), Flat(x.children[j]), After(x.keys[j..], x.children[j + 1..]), k, v);
  }

  /** After a split, the lower bound is the new key or the child on its left or right. */
  lemma SplitWindow<V>(t: nat, x: Node<V>, h: nat, i: nat, k: Key, z: Id)
    requires t >= 2 && h > 0 && Shape(t, x, h) && !x.IsFull(t) && i < |x.children| && x.children[i].IsFull(t)
    requires Sorted(Flat(x)) && i == LowerBound(x.keys, k) && (i < |x.keys| ==> x.keys[i].key != k)
    ensures var y := x.children[i]; y.IsLeaf() || |y.children| == 2 * t
    ensures var x1 := SplitChild(t, x, i, z); var j := if x1.keys[i].key < k then i + 1 else i;
      x1.keys[i].key != k ==> Window(x1, j, k) && Sorted(Flat(x1.children[j]))
  {
    SplitKeeps(t, x, h, i, z);
    var x1 := SplitChild(t, x, i, z);
    if x1.keys[i].key < k {
      assert i + 1 < |x1.keys| ==> x1.keys[i + 1] == x.keys[i];
      WindowAt(x1, i + 1, k);
    } else if x1.keys[i].key > k {
      assert i > 0 ==> x1.keys[i - 1] == x.keys[i - 1];
      WindowAt(x1, i, k);
    }
  }

  /** The descent sets k to v and changes nothing else. */
  lemma {:induction false} InsertIsPut<V>(t: nat, x: Node<V>, h: nat, k: Key, v: V, z: Id)
    requires t >= 2 && Shape(t, x, h) && !x.IsFull(t) && Sorted(Flat(x))
    ensures Flat(InsertInto(t, x, h, k, v, z)) == Put(Flat(x), k, v)
    decreases h, 2
  {
    hide Sorted, Put, SamePlace;
    var i := LowerBound(x.keys, k);
    if i < |x.keys| && x.keys[i].key == k {
      ReassignIsPut(t, x, h, i, v);
    } else if x.IsLeaf() {
      LeafIsPut(x, i, k, v);
    } else if !x.children[i].IsFull(t) {
      WindowAt(x, i, k);
      InsertBelowIsPut(t, x, h, i, k, v, z);
    } else {
      InsertSplitIsPut(t, x, h, i, k, v, z);
    }
  }

  lemma LeafIsPut<V>(x: Node<V>, i: nat, k: Key, v: V)
    requires x.IsLeaf() && i == LowerBound(x.keys, k) && (i < |x.keys| ==> x.keys[i].key != k) && Sorted(Flat(x))
    ensures Flat(InsertLeaf(x, i, Entry(k, v))) == Put(Flat(x), k, v)
  {
    assert Flat(x) == x.keys;
    var a, b := x.keys[..i], x.keys[i..];
    LeafSides(x.keys, i, k);
    hide Sorted, Below, Above, Flat, Put;
    assert x.keys == a + [] + b;
    PutMiddle(a, [], b, k, v);
    LeafEntries(x, a, b, k, v);
  }

  lemma LeafEntries<V>(x: Node<V>, a: seq<Entry<V>>, b: seq<Entry<V>>, k: Key, v: V)
    requires x.IsLeaf() && x.keys == a + b
    ensures Put([], k, v) == [Entry(k, v)] && Flat(InsertLeaf(x, |a|, Entry(k, v))) == a + [Entry(k, v)] + b
  {
    assert x.keys[..|a|] == a && x.keys[|a|..] == b;
  }

  lemma LeafSides<V>(keys: seq<Entry<V>>, i: nat, k: Key)
    requires Sorted(keys) && i == LowerBound(keys, k) && (i < |keys| ==> keys[i].key != k)
    ensures Below(keys[..i], k) && Above(keys[i..], k)
  {
    forall j | 0 <= j < |keys[i..]| ensures k < keys[i..][j].key {
      assert keys[i..][j] == keys[i + j];
      assert j > 0 ==> keys[i].key < keys[i + j].key;
    }
  }

  /** The case of a full child. */
  lemma {:induction false} InsertSplitIsPut<V>(t: nat, x: Node<V>, h: nat, i: nat, k: Key, v: V, z: Id)
    requires t >= 2 && h > 0 && Shape(t, x, h) && !x.IsFull(t) && Sorted(Flat(x))
    requires i == LowerBound(x.keys, k) && (i < |x.keys| ==> x.keys[i].key != k) && x.children[i].IsFull(t)
    ensures Flat(InsertInto(t, x, h, k, v, z)) == Put(Flat(x), k, v)
    decreases h, 1
  {
    hide Put, SamePlace, Flat, Sorted, Window, Reassign, InsertBelow, SplitChild;
    SplitWindow(t, x, h, i, k, z + (h - 1));
    SplitKeeps(t, x, h, i, z + (h - 1));
    var x1 := Split(t, x, h, i, z + (h - 1));
    hide Shape;
    if x1.keys[i].key == k {
      ReassignIsPut(t, x1, h, i, v);
    } else if x1.keys[i].key < k {
      InsertBelowIsPut(t, x1, h, i + 1, k, v, z);
    } else {
      InsertBelowIsPut(t, x1, h, i, k, v, z);
    }
  }

  lemma ReassignIsPut<V>(t: nat, x: Node<V>, h: nat, i: nat, v: V)
    requires Shape(t, x, h) && i < |x.keys| && Sorted(Flat(x))
    ensures Flat(Reassign(t, x, h, i, Entry(x.keys[i].key, v))) == Put(Flat(x), x.keys[i].key, v)
  {
    FoundAt(x, h == 0, i);
    SetKeyFits(t, x, h, i, Entry(x.keys[i].key, v));
  }

  lemma {:induction false} InsertBelowIsPut<V>(t: nat, x: Node<V>, h: nat, j: nat, k: Key, v: V, z: Id)
    requires t >= 2 && h > 0 && Shape(t, x, h) && j < |x.children| && !x.children[j].IsFull(t)
    requires Window(x, j, k) && Sorted(Flat(x.children[j]))
    ensures Flat(InsertBelow(t, x, h, j, k, v, z)) == Put(Flat(x), k, v)
    decreases h, 0
  {
    ChildGood(t, x, h, j);
    InsertIsPut(t, x.children[j], h - 1, k, v, z);
    PutInChild(t, x, h, j, InsertInto(t, x.children[j], h - 1, k, v, z), k, v);
  }

  // ---- The ends of a subtree ----

  /** The last entry of a subtree, in its rightmost leaf. */
  function LastEntry<V>(t: nat, n: Node<V>, h: nat): Entry<V>
    requires t >= 2 && Good(t, n, h)
    decreases h
  {
    if n.IsLeaf() then n.keys[|n.keys| - 1]
    else ChildGood(t, n, h, |n.keys|); LastEntry(t, n.children[|n.keys|], h - 1)
  }

  function FirstEntry<V>(t: nat, n: Node<V>, h: nat): Entry<V>
    requires t >= 2 && Good(t, n, h)
    decreases h
  {
    if n.IsLeaf() then n.keys[0]
    else ChildGood(t, n, h, 0); FirstEntry(t, n.children[0], h - 1)
  }

  /** The subtree with another last entry. */
  function ReplaceLast<V>(t: nat, n: Node<V>, h: nat, e: Entry<V>): (r: Node<V>)
    requires t >= 2 && Good(t, n, h)
    ensures Good(t, r, h) && |r.keys| == |n.keys| && SamePlace(r, n)
    decreases h
  {
    if n.IsLeaf() then SetKey(n, |n.keys| - 1, e)
    else
      ChildGood(t, n, h, |n.keys|);
      Adopt(t, n, h, |n.keys|, ReplaceLast(t, n.children[|n.keys|], h - 1, e))
  }

  function ReplaceFirst<V>(t: nat, n: Node<V>, h: nat, e: Entry<V>): (r: Node<V>)
    requires t >= 2 && Good(t, n, h)
    ensures Good(t, r, h) && |r.keys| == |n.keys| && SamePlace(r, n)
    decreases h
  {
    if n.IsLeaf() then SetKey(n, 0, e)
    else
      ChildGood(t, n, h, 0);
      Adopt(t, n, h, 0, ReplaceFirst(t, n.children[0], h - 1, e))
  }

  lemma {:induction false} LastFlat<V>(t: nat, n: Node<V>, h: nat, e: Entry<V>) returns (rest: seq<Entry<V>>)
    requires t >= 2 && Good(t, n, h)
    ensures Flat(n) == rest + [LastEntry(t, n, h)] && Flat(ReplaceLast(t, n, h, e)) == rest + [e]
    decreases h
  {
    var i := |n.keys|;
    if n.IsLeaf() {
      rest := n.keys[..i - 1];
    } else {
      ChildGood(t, n, h, i);
      hide Sorted, SumSizes, Before, Linked;
      var inner := LastFlat(t, n.children[i], h - 1, e);
      var b := Before(n.keys[..i], n.children[..i]);
      rest := b + inner;
      FlatAt(n, i);
      WithChildFits(t, n, h, i, ReplaceLast(t, n.children[i], h - 1, e));
      assert n.keys[i..] == [];
      Assoc(b, inner, [LastEntry(t, n, h)]);
      Assoc(b, inner, [e]);
    }
  }

  lemma {:induction false} FirstFlat<V>(t: nat, n: Node<V>, h: nat, e: Entry<V>) returns (rest: seq<Entry<V>>)
    requires t >= 2 && Good(t, n, h)
    ensures Flat(n) == [FirstEntry(t, n, h)] + rest && Flat(ReplaceFirst(t, n, h, e)) == [e] + rest
    decreases h
  {
    if n.IsLeaf() {
      rest := n.keys[1..];
    } else {
      ChildGood(t, n, h, 0);
      hide Sorted, SumSizes, After, Linked;
      var inner := FirstFlat(t, n.children[0], h - 1, e);
      var a := After(n.keys[0..], n.children[1..]);
      rest := inner + a;
      FlatAt(n, 0);
      WithChildFits(t, n, h, 0, ReplaceFirst(t, n.children[0], h - 1, e));
      assert Before(n.keys[..0], n.children[..0]) == [];
      Assoc([FirstEntry(t, n, h)], inner, a);
      Assoc([e], inner, a);
    }
  }

  // ---- Erasure ----

  function RotateLeft<V>(t: nat, x: Node<V>, h: nat, i: nat): (r: Node<V>)
    requires t >= 2 && h > 0 && Shape(t, x, h) && i < |x.keys|
    requires |x.children[i].keys| == t - 1 && x.children[i + 1].CanTakeKey(t)
    ensures Shape(t, r, h) && |r.keys| == |x.keys| && |r.children[i].keys| == t && Flat(r) == Flat(x) && SamePlace(r, x)
  {
    LeftRotateKeeps(t, x, h, i);
    LeftRotate(x, i)
  }

  function RotateRight<V>(t: nat, x: Node<V>, h: nat, i: nat): (r: Node<V>)
    requires t >= 2 && h > 0 && Shape(t, x, h) && i < |x.keys|
    requires |x.children[i + 1].keys| == t - 1 && x.children[i].CanTakeKey(t)
    ensures Shape(t, r, h) && |r.keys| == |x.keys| && |r.children[i + 1].keys| == t && Flat(r) == Flat(x) && SamePlace(r, x)
  {
    RightRotateKeeps(t, x, h, i);
    RightRotate(x, i)
  }

  function Merge<V>(t: nat, x: Node<V>, h: nat, i: nat): (r: Node<V>)
    requires t >= 2 && h > 0 && Shape(t, x, h) && i < |x.keys|
    requires |x.children[i].keys| == |x.children[i + 1].keys| == t - 1
    ensures Shape(t, r, h) && |r.keys| == |x.keys| - 1 && |r.children[i].keys| == 2 * t - 1 && Flat(r) == Flat(x) && SamePlace(r, x)
  {
    MergeKeeps(t, x, h, i);
    MergeChild(x, i)
  }

  /** Before descending into child i: a child with the fewest keys allowed borrows from a sibling or merges with one. */
  function Prepare<V>(t: nat, x: Node<V>, h: nat, i: nat): (p: (Node<V>, nat))
    requires t >= 2 && h > 0 && Shape(t, x, h) && |x.keys| >= 1 && i < |x.children|
    ensures Shape(t, p.0, h) && |p.0.keys| >= |x.keys| - 1 && Flat(p.0) == Flat(x) && SamePlace(p.0, x)
    ensures p.1 < |p.0.children| && p.0.children[p.1].CanTakeKey(t)
  {
    ChildGood(t, x, h, i);
    if |x.children[i].keys| != t - 1 then (x, i)
    else if i + 1 < |x.children| && x.children[i + 1].CanTakeKey(t) then (RotateLeft(t, x, h, i), i)
    else if i > 0 && x.children[i - 1].CanTakeKey(t) then (RotateRight(t, x, h, i - 1), i)
    else if i + 1 < |x.children| then ChildGood(t, x, h, i + 1); (Merge(t, x, h, i), i)
    else ChildGood(t, x, h, i - 1); (Merge(t, x, h, i - 1), i - 1)
  }

  /**
   The descent of erase_lb. Below the root it only enters nodes that have a key to spare, so no node
   ever falls below t - 1 keys, and it ends because the height decreases.
   */
  function EraseFrom<V>(t: nat, x: Node<V>, h: nat, k: Key): (r: Node<V>)
    requires t >= 2 && Shape(t, x, h) && (h > 0 ==> |x.keys| >= 1)
    ensures Shape(t, r, h) && |r.keys| >= |x.keys| - 1 && SamePlace(r, x)
    decreases h, 1
  {
    var i := LowerBound(x.keys, k);
    if i < |x.keys| && x.keys[i].key == k then
      if x.IsLeaf() then x.(keys := x.keys[..i] + x.keys[i + 1..], size := x.size - 1)
      else if x.children[i].CanTakeKey(t) then EraseSwapPred(t, x, h, i, k)
      else if x.children[i + 1].CanTakeKey(t) then EraseSwapSucc(t, x, h, i, k)
      else
        ChildGood(t, x, h, i);
        ChildGood(t, x, h, i + 1);
        EraseBelow(t, Merge(t, x, h, i), h, i, k)
    else if x.IsLeaf() then x
    else
      var p := Prepare(t, x, h, i);
      EraseBelow(t, p.0, h, p.1, k)
  }

  /** The descent goes on in child j, which has a key to spare. */
  function EraseBelow<V>(t: nat, x: Node<V>, h: nat, j: nat, k: Key): (r: Node<V>)
    requires t >= 2 && h > 0 && Shape(t, x, h) && j < |x.children| && x.children[j].CanTakeKey(t)
    ensures Shape(t, r, h) && |r.keys| == |x.keys| && SamePlace(r, x)
    decreases h, 0
  {
    ChildGood(t, x, h, j);
    Adopt(t, x, h, j, EraseFrom(t, x.children[j], h - 1, k))
  }

  /** Key i changes places with its predecessor, and is then erased from the child. */
  function EraseSwapPred<V>(t: nat, x: Node<V>, h: nat, i: nat, k: Key): (r: Node<V>)
    requires t >= 2 && h > 0 && Shape(t, x, h) && i < |x.keys| && x.children[i].CanTakeKey(t)
    ensures Shape(t, r, h) && |r.keys| == |x.keys| && SamePlace(r, x)
    decreases h, 0
  {
    ChildGood(t, x, h, i);
    var c := ReplaceLast(t, x.children[i], h - 1, x.keys[i]);
    var x1 := Reassign(t, x, h, i, LastEntry(t, x.children[i], h - 1));
    Adopt(t, x1, h, i, EraseFrom(t, c, h - 1, k))
  }

  /** Key i changes places with its successor, and is then erased from the child. */
  function EraseSwapSucc<V>(t: nat, x: Node<V>, h: nat, i: nat, k: Key): (r: Node<V>)
    requires t >= 2 && h > 0 && Shape(t, x, h) && i < |x.keys| && x.children[i + 1].CanTakeKey(t)
    ensures Shape(t, r, h) && |r.keys| == |x.keys| && SamePlace(r, x)
    decreases h, 0
  {
    ChildGood(t, x, h, i + 1);
    var c := ReplaceFirst(t, x.children[i + 1], h - 1, x.keys[i]);
    var x1 := Reassign(t, x, h, i, FirstEntry(t, x.children[i + 1], h - 1));
    Adopt(t, x1, h, i + 1, EraseFrom(t, c, h - 1, k))
  }

  // ---- Erasure removes exactly the key ----

  /** The key of a node lies among its entries. */
  lemma KeyBounded<V>(x: Node<V>, leaf: bool, i: nat, k: Key)
    requires Arity(x, leaf) && i < |x.keys|
    ensures Below(Flat(x), k) ==> x.keys[i].key < k
    ensures Above(Flat(x), k) ==> k < x.keys[i].key
  {
    KeySplit(x, leaf, i);
    assert Flat(x)[|LeftOf(x, leaf, i)|] == x.keys[i];
  }

  /** k belongs in child i of x: the key before it is smaller, the key after it larger. */
  predicate Brackets<V>(x: Node<V>, i: nat, k: Key) {
    && i < |x.children| == |x.keys| + 1
    && (i > 0 ==> x.keys[i - 1].key < k)
    && (i < |x.keys| ==> k < x.keys[i].key)
  }

  lemma RotateLeftBrackets<V>(t: nat, x: Node<V>, h: nat, i: nat, k: Key)
    requires t >= 2 && h > 0 && Shape(t, x, h) && i < |x.keys| && Sorted(Flat(x))
    requires |x.children[i].keys| == t - 1 && x.children[i + 1].CanTakeKey(t) && Brackets(x, i, k)
    ensures Brackets(RotateLeft(t, x, h, i), i, k)
  {
    LeftRotateKeeps(t, x, h, i);
    KeyBetween(x, i);
    ChildGood(t, x, h, i + 1);
    KeyBounded(x.children[i + 1], h == 1, 0, x.keys[i].key);
  }

  lemma RotateRightBrackets<V>(t: nat, x: Node<V>, h: nat, i: nat, k: Key)
    requires t >= 2 && h > 0 && Shape(t, x, h) && i < |x.keys| && Sorted(Flat(x))
    requires |x.children[i + 1].keys| == t - 1 && x.children[i].CanTakeKey(t) && Brackets(x, i + 1, k)
    ensures Brackets(RotateRight(t, x, h, i), i + 1, k)
  {
    RightRotateKeeps(t, x, h, i);
    KeyBetween(x, i);
    ChildGood(t, x, h, i);
    var y := x.children[i];
    KeyBounded(y, h == 1, |y.keys| - 1, x.keys[i].key);
  }

  lemma MergeBrackets<V>(t: nat, x: Node<V>, h: nat, i: nat, k: Key)
    requires t >= 2 && h > 0 && Shape(t, x, h) && i < |x.keys| && Sorted(Flat(x))
    requires |x.children[i].keys| == |x.children[i + 1].keys| == t - 1
    requires i > 0 ==> x.keys[i - 1].key < k
    requires k <= x.keys[i].key || (i + 1 == |x.keys|)
    ensures Brackets(Merge(t, x, h, i), i, k)
  {
    MergeKeeps(t, x, h, i);
    KeyBetween(x, i);
    if i + 1 < |x.keys| {
      assert After(x.keys[i + 1..], x.children[i + 2..])[0] == x.keys[i + 1];
    }
  }

  /** Merging the last child into its left neighbour. */
  lemma MergeLastBrackets<V>(t: nat, x: Node<V>, h: nat, i: nat, k: Key)
    requires t >= 2 && h > 0 && Shape(t, x, h) && i + 1 == |x.keys| && Sorted(Flat(x)) && Brackets(x, i + 1, k)
    requires |x.children[i].keys| == |x.children[i + 1].keys| == t - 1
    ensures Brackets(Merge(t, x, h, i), i, k)
  {
    if i > 0 {
      KeyBetween(x, i);
      BeforeEnds(x.keys[..i], x.children[..i]);
      var b := Before(x.keys[..i], x.children[..i]);
      assert b[|b| - 1] == x.keys[i - 1];
    }
    MergeBrackets(t, x, h, i, k);
  }

  lemma PrepareBrackets<V>(t: nat, x: Node<V>, h: nat, i: nat, k: Key)
    requires t >= 2 && h > 0 && Shape(t, x, h) && |x.keys| >= 1 && Sorted(Flat(x)) && Brackets(x, i, k)
    ensures Brackets(Prepare(t, x, h, i).0, Prepare(t, x, h, i).1, k)
  {
    ChildGood(t, x, h, i);
    if i + 1 < |x.children| {
      ChildGood(t, x, h, i + 1);
    }
    if i > 0 {
      ChildGood(t, x, h, i - 1);
    }
    hide Flat, Sorted, SamePlace, RotateLeft, RotateRight, Merge, Shape, Good;
    if |x.children[i].keys| == t - 1 {
      if i + 1 < |x.children| && x.children[i + 1].CanTakeKey(t) {
        RotateLeftBrackets(t, x, h, i, k);
      } else if i > 0 && x.children[i - 1].CanTakeKey(t) {
        RotateRightBrackets(t, x, h, i - 1, k);
      } else if i + 1 < |x.children| {
        MergeBrackets(t, x, h, i, k);
      } else {
        MergeLastBrackets(t, x, h, i - 1, k);
      }
    }
  }

  /** The descent removes k and changes nothing else. */
  lemma {:induction false} EraseIsRemove<V>(t: nat, x: Node<V>, h: nat, k: Key)
    requires t >= 2 && Shape(t, x, h) && (h > 0 ==> |x.keys| >= 1) && Sorted(Flat(x))
    ensures Flat(EraseFrom(t, x, h, k)) == Remove(Flat(x), k)
    decreases h, 1
  {
    var i := LowerBound(x.keys, k);
    if i < |x.keys| && x.keys[i].key == k {
      EraseFoundIsRemove(t, x, h, i);
    } else if x.IsLeaf() {
      RemoveAbsent(x.keys, k);
    } else {
      PrepareBrackets(t, x, h, i, k);
      var p := Prepare(t, x, h, i);
      EraseBelowIsRemove(t, p.0, h, p.1, k);
    }
  }

  lemma {:induction false} EraseBelowIsRemove<V>(t: nat, x: Node<V>, h: nat, j: nat, k: Key)
    requires t >= 2 && h > 0 && Shape(t, x, h) && j < |x.children| && x.children[j].CanTakeKey(t)
    requires Sorted(Flat(x)) && Brackets(x, j, k)
    ensures Flat(EraseBelow(t, x, h, j, k)) == Remove(Flat(x), k)
    decreases h, 0, 0
  {
    ChildGood(t, x, h, j);
    WindowAt(x, j, k);
    EraseIsRemove(t, x.children[j], h - 1, k);
    WithChildFits(t, x, h, j, EraseFrom(t, x.children[j], h - 1, k));
    FlatAt(x, j);
    RemoveMiddle(Before(x.keys[..j], x.children[..j]), Flat(x.children[j]), After(x.keys[j..], x.children[j + 1..]), k);
  }

  lemma {:induction false} EraseFoundIsRemove<V>(t: nat, x: Node<V>, h: nat, i: nat)
    requires t >= 2 && Shape(t, x, h) && Sorted(Flat(x)) && i < |x.keys| && i == LowerBound(x.keys, x.keys[i].key)
    ensures Flat(EraseFrom(t, x, h, x.keys[i].key)) == Remove(Flat(x), x.keys[i].key)
    decreases h, 0, 1
  {
    var k := x.keys[i].key;
    if x.IsLeaf() {
      FoundAt(x, true, i);
    } else if x.children[i].CanTakeKey(t) {
      SwapPredIsRemove(t, x, h, i);
    } else if x.children[i + 1].CanTakeKey(t) {
      SwapSuccIsRemove(t, x, h, i);
    } else {
      ChildGood(t, x, h, i);
      ChildGood(t, x, h, i + 1);
      MergeBrackets(t, x, h, i, k);
      EraseBelowIsRemove(t, Merge(t, x, h, i), h, i, k);
    }
  }

  lemma {:induction false} SwapPredIsRemove<V>(t: nat, x: Node<V>, h: nat, i: nat)
    requires t >= 2 && h > 0 && Shape(t, x, h) && Sorted(Flat(x)) && i < |x.keys| && x.children[i].CanTakeKey(t)
    ensures Flat(EraseSwapPred(t, x, h, i, x.keys[i].key)) == Remove(Flat(x), x.keys[i].key)
    decreases h, 0, 0
  {
    ChildGood(t, x, h, i);
    var e, last := x.keys[i], LastEntry(t, x.children[i], h - 1);
    var c := ReplaceLast(t, x.children[i], h - 1, e);
    var rest := LastFlat(t, x.children[i], h - 1, e);
    assert Flat(EraseFrom(t, c, h - 1, e.key)) == rest by {
      KeyBetween(x, i);
      EndsBelow(rest, last, e);
      EraseIsRemove(t, c, h - 1, e.key);
      RemoveOnly(rest, e, []);
    }
    PredSwapped(t, x, h, i, EraseFrom(t, c, h - 1, e.key), last);
    assert Remove(Flat(x), e.key) == LeftOf(x, false, i) + RightOf(x, false, i) by { FoundAt(x, false, i); }
    Assoc(Before(x.keys[..i], x.children[..i]), rest, [last]);
  }

  lemma RemoveOnly<V>(a: seq<Entry<V>>, e: Entry<V>, b: seq<Entry<V>>)
    requires Below(a, e.key) && Above(b, e.key)
    ensures Remove(a + [e] + b, e.key) == a + b
    ensures b == [] ==> Remove(a + [e], e.key) == a
    ensures a == [] ==> Remove([e] + b, e.key) == b
  {
    RemoveMiddle(a, [e], b, e.key);
    assert a + [] + b == a + b;
    assert b == [] ==> a + [e] + b == a + [e];
    assert a == [] ==> a + [e] + b == [e] + b;
  }

  /** x with key i and child i replaced, entries in order. */
  lemma PredSwapped<V>(t: nat, x: Node<V>, h: nat, i: nat, c: Node<V>, last: Entry<V>)
    requires h > 0 && Shape(t, x, h) && i < |x.keys| && Good(t, c, h - 1) && SamePlace(c, x.children[i])
    ensures Flat(Adopt(t, Reassign(t, x, h, i, last), h, i, c)) ==
      Before(x.keys[..i], x.children[..i]) + Flat(c) + [last] + RightOf(x, false, i)
  {
    var x1 := Reassign(t, x, h, i, last);
    WithChildFits(t, x1, h, i, c);
    var x2 := Adopt(t, x1, h, i, c);
    KeySplit(x2, false, i);
    assert x2.keys[..i] == x.keys[..i] && x2.keys[i + 1..] == x.keys[i + 1..];
    assert x2.children[..i] == x.children[..i] && x2.children[i + 2..] == x.children[i + 2..];
  }

  lemma SuccSwapped<V>(t: nat, x: Node<V>, h: nat, i: nat, c: Node<V>, first: Entry<V>)
    requires h > 0 && Shape(t, x, h) && i < |x.keys| && Good(t, c, h - 1) && SamePlace(c, x.children[i + 1])
    ensures Flat(Adopt(t, Reassign(t, x, h, i, first), h, i + 1, c)) ==
      LeftOf(x, false, i) + [first] + (Flat(c) + After(x.keys[i + 1..], x.children[i + 2..]))
  {
    var x1 := Reassign(t, x, h, i, first);
    WithChildFits(t, x1, h, i + 1, c);
    var x2 := Adopt(t, x1, h, i + 1, c);
    KeySplit(x2, false, i);
    assert x2.keys[..i] == x.keys[..i] && x2.keys[i + 1..] == x.keys[i + 1..];
    assert x2.children[..i] == x.children[..i] && x2.children[i + 2..] == x.children[i + 2..];
  }

  /** Replacing the last entry of a sorted sequence by one above it keeps it sorted. */
  lemma EndsBelow<V>(rest: seq<Entry<V>>, last: Entry<V>, e: Entry<V>)
    requires Sorted(rest + [last]) && Below(rest + [last], e.key)
    ensures Sorted(rest + [e]) && Below(rest, e.key)
  {
    var s := rest + [last];
    assert forall i :: 0 <= i < |rest| ==> rest[i] == s[i];
  }

  lemma StartsAbove<V>(first: Entry<V>, rest: seq<Entry<V>>, e: Entry<V>)
    requires Sorted([first] + rest) && Above([first] + rest, e.key)
    ensures Sorted([e] + rest) && Above(rest, e.key)
  {
    var s := [first] + rest;
    assert forall i :: 0 <= i < |rest| ==> rest[i] == s[i + 1];
  }

  lemma {:induction false} SwapSuccIsRemove<V>(t: nat, x: Node<V>, h: nat, i: nat)
    requires t >= 2 && h > 0 && Shape(t, x, h) && Sorted(Flat(x)) && i < |x.keys| && x.children[i + 1].CanTakeKey(t)
    ensures Flat(EraseSwapSucc(t, x, h, i, x.keys[i].key)) == Remove(Flat(x), x.keys[i].key)
    decreases h, 0, 0
  {
    ChildGood(t, x, h, i + 1);
    var e, first := x.keys[i], FirstEntry(t, x.children[i + 1], h - 1);
    var c := ReplaceFirst(t, x.children[i + 1], h - 1, e);
    var rest := FirstFlat(t, x.children[i + 1], h - 1, e);
    assert Flat(EraseFrom(t, c, h - 1, e.key)) == rest by {
      KeyBetween(x, i);
      StartsAbove(first, rest, e);
      EraseIsRemove(t, c, h - 1, e.key);
      RemoveOnly([], e, rest);
    }
    SuccSwapped(t, x, h, i, EraseFrom(t, c, h - 1, e.key), first);
    assert Remove(Flat(x), e.key) == LeftOf(x, false, i) + RightOf(x, false, i) by { FoundAt(x, false, i); }
    var a := After(x.keys[i + 1..], x.children[i + 2..]);
    Assoc(LeftOf(x, false, i), [first], rest + a);
    Assoc([first], rest, a);
  }

  // ---- The root ----

  /** operator[] on a full root: a new root above it, whose only child is split; z is the first unused identity. */
  function Grown<V>(t: nat, root: Node<V>, z: Id): (r: Node<V>)
    requires t >= 2 && Shape(t, root, root.height) && root.IsFull(t) && root.index == 0
    ensures Shape(t, r, root.height + 1) && |r.keys| == 1 && Flat(r) == Flat(root) && r.parent == None && r.index == 0
  {
    GrownKeeps(t, root, z);
    SplitChild(t, NewRoot(root, z), 0, z + root.height)
  }

  function NewRoot<V>(root: Node<V>, z: Id): Node<V> {
    var id := z + root.height + 1;
    Node(id, [], [root.(parent := Some(id))], root.size, root.height + 1, None, 0)
  }

  lemma GrownTop<V>(t: nat, root: Node<V>, z: Id)
    requires t >= 2 && Shape(t, root, root.height) && root.IsFull(t) && root.index == 0
    ensures Shape(t, NewRoot(root, z), root.height + 1) && Flat(NewRoot(root, z)) == Flat(root)
    ensures NewRoot(root, z).children[0].IsFull(t)
  {
    var top := NewRoot(root, z);
    var old' := top.children[0];
    assert Unlinked(root) == Unlinked(old');
    AlikeShape(t, root, old', root.height);
    AlikeNode(root, old');
    assert SumSizes([old']) == old'.size + SumSizes([old'][1..]);
    assert AllGood(t, [old'], root.height);
    Built(t, top, root.height + 1);
    assert Flat(top) == Flat(old') + After<V>([], []);
  }

  lemma GrownKeeps<V>(t: nat, root: Node<V>, z: Id)
    requires t >= 2 && Shape(t, root, root.height) && root.IsFull(t) && root.index == 0
    ensures var y := NewRoot(root, z).children[0]; y.IsFull(t) && (y.IsLeaf() || |y.children| == 2 * t)
    ensures var r := SplitChild(t, NewRoot(root, z), 0, z + root.height);
      Shape(t, r, root.height + 1) && |r.keys| == 1 && Flat(r) == Flat(root) && r.parent == None && r.index == 0
  {
    hide Flat, SumSizes, Renumbered, Reparented, Alike, Linked, Unlinked;
    GrownTop(t, root, z);
    SplitKeeps(t, NewRoot(root, z), root.height + 1, 0, z + root.height);
  }

  /** promote_root_if_necessary. */
  function Promoted<V>(t: nat, root: Node<V>): (r: Node<V>)
    requires t >= 2 && Shape(t, root, root.height) && root.keys == [] && !root.IsLeaf()
    ensures Shape(t, r, r.height) && |r.keys| >= 1 && Flat(r) == Flat(root) && r.parent == None && r.index == 0
  {
    ChildGood(t, root, root.height, 0);
    var c := root.children[0];
    var r := c.(parent := None, index := 0);
    assert Unlinked(c) == Unlinked(r);
    AlikeShape(t, c, r, root.height - 1);
    AlikeNode(c, r);
    r
  }

  lemma {:induction false} RemoveCounts<V>(s: seq<Entry<V>>, k: Key)
    ensures |Remove(s, k)| == |s| - (if k in AsMap(s) then 1 else 0)
  {
    if s != [] {
      RemoveCounts(s[1..], k);
    }
  }
}
