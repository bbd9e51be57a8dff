/**
 Following parent_ upwards: in a tree whose nodes have different identities and whose links are right, the climb from a
 node visits exactly the nodes above it, and so the loop that corrects the sizes corrects exactly those.
 */
module BTreeLinks {
  import opened Options
  import opened BTreeNodes

  // ---- Identities ----

  /** How often an identity occurs in a subtree. */
  function Times<V>(n: Node<V>, id: Id): nat
    decreases n, 0
  {
    (if n.id == id then 1 else 0) + TimesIn(n.children, id)
  }

  function TimesIn<V>(cs: seq<Node<V>>, id: Id): nat
    decreases cs, 1
  {
    if cs == [] then 0 else Times(cs[0], id) + TimesIn(cs[1..], id)
  }

  predicate Holds<V>(n: Node<V>, id: Id) {
    Times(n, id) > 0
  }

  /** No two nodes are the same. */
  ghost predicate Once<V>(n: Node<V>) {
    forall id :: Times(n, id) <= 1
  }

  lemma {:induction false} TimesConcat<V>(a: seq<Node<V>>, b: seq<Node<V>>, id: Id)
    ensures TimesIn(a + b, id) == TimesIn(a, id) + TimesIn(b, id)
  {
    if a == [] {
      assert a + b == b;
    } else {
      assert (a + b)[1..] == a[1..] + b;
      TimesConcat(a[1..], b, id);
    }
  }

  lemma {:induction false} TimesAlike<V>(a: seq<Node<V>>, b: seq<Node<V>>, id: Id)
    requires Alike(a, b)
    ensures TimesIn(a, id) == TimesIn(b, id)
  {
    if a != [] {
      AlikeNode(a[0], b[0]);
      AlikeTails(a, b);
      TimesAlike(a[1..], b[1..], id);
    }
  }

  /** The identities around child i. */
  lemma TimesAt<V>(cs: seq<Node<V>>, i: nat, id: Id)
    requires i < |cs|
    ensures TimesIn(cs, id) == TimesIn(cs[..i], id) + Times(cs[i], id) + TimesIn(cs[i + 1..], id)
  {
    assert cs == cs[..i] + cs[i..];
    TimesConcat(cs[..i], cs[i..], id);
    assert cs[i..][1..] == cs[i + 1..];
  }

  /** No identity is in two children, and the node's own in none. */
  lemma OnceApart<V>(n: Node<V>, i: nat)
    requires Once(n) && i < |n.children|
    ensures Once(n.children[i]) && !Holds(n.children[i], n.id)
    ensures forall id, j :: Holds(n.children[i], id) && 0 <= j < |n.children| && j != i ==> !Holds(n.children[j], id)
  {
    var cs := n.children;
    forall id ensures Times(cs[i], id) <= 1 && (id == n.id ==> !Holds(cs[i], id)) {
      TimesAt(cs, i, id);
      assert Times(n, id) <= 1;
    }
    forall id, j | Holds(cs[i], id) && 0 <= j < |cs| && j != i ensures !Holds(cs[j], id) {
      ApartAt(cs, i, j, id);
      assert Times(n, id) <= 1;
    }
  }

  lemma ApartAt<V>(cs: seq<Node<V>>, i: nat, j: nat, id: Id)
    requires i < |cs| && j < |cs| && i != j
    ensures Times(cs[i], id) + Times(cs[j], id) <= TimesIn(cs, id)
  {
    TimesAt(cs, i, id);
    if j < i {
      TimesAt(cs[..i], j, id);
    } else {
      assert cs[i + 1..][j - i - 1] == cs[j];
      TimesAt(cs[i + 1..], j - i - 1, id);
    }
  }

  // ---- Links of a whole tree ----

  /** Every node below n names its parent and its place. */
  ghost predicate Links<V>(n: Node<V>) {
    && Linked(n.children, n.id, 0)
    && forall i {:trigger Links(n.children[i])} :: 0 <= i < |n.children| ==> Links(n.children[i])
  }

  lemma {:induction false} ShapeLinks<V>(t: nat, n: Node<V>, h: nat)
    requires Shape(t, n, h)
    ensures Links(n)
    decreases h
  {
    forall i | 0 <= i < |n.children| ensures Links(n.children[i]) {
      ChildGood(t, n, h, i);
      ShapeLinks(t, n.children[i], h - 1);
    }
  }

  // ---- The nodes above a node ----

  /** The child that holds id, if any does. */
  function Which<V>(cs: seq<Node<V>>, id: Id): (i: nat)
    ensures TimesIn(cs, id) > 0 ==> i < |cs| && Holds(cs[i], id)
    ensures i <= |cs| && forall j :: 0 <= j < i ==> !Holds(cs[j], id)
  {
    if cs == [] || Holds(cs[0], id) then 0 else 1 + Which(cs[1..], id)
  }

  /** The identities from node id up to n. */
  ghost function Trail<V>(n: Node<V>, id: Id): seq<Id>
    requires Holds(n, id)
  {
    if n.id == id then [id] else Trail(n.children[Which(n.children, id)], id) + [n.id]
  }

  /** The parent_ field of node id. */
  function ParentIn<V>(n: Node<V>, id: Id): Option<Id>
    requires Holds(n, id)
  {
    if n.id == id then n.parent else ParentIn(n.children[Which(n.children, id)], id)
  }

  // ---- Changing sizes ----

  /** The nodes whose identities are in s have their size changed by d. */
  function Resized<V>(n: Node<V>, s: set<Id>, d: int): Node<V>
    decreases n, 0
  {
    n.(size := if n.id in s then n.size + d else n.size, children := ResizedAll(n.children, s, d))
  }

  function ResizedAll<V>(cs: seq<Node<V>>, s: set<Id>, d: int): (r: seq<Node<V>>)
    ensures |r| == |cs| && forall i :: 0 <= i < |cs| ==> r[i] == Resized(cs[i], s, d)
    decreases cs, 1
  {
    if cs == [] then [] else [Resized(cs[0], s, d)] + ResizedAll(cs[1..], s, d)
  }

  lemma {:induction false} ResizedTimes<V>(n: Node<V>, s: set<Id>, d: int, id: Id)
    ensures Times(Resized(n, s, d), id) == Times(n, id)
    decreases n, 0
  {
    ResizedTimesIn(n.children, s, d, id);
  }

  lemma {:induction false} ResizedTimesIn<V>(cs: seq<Node<V>>, s: set<Id>, d: int, id: Id)
    ensures TimesIn(ResizedAll(cs, s, d), id) == TimesIn(cs, id)
    decreases cs, 1
  {
    if cs != [] {
      ResizedTimes(cs[0], s, d, id);
      ResizedTimesIn(cs[1..], s, d, id);
      assert ResizedAll(cs, s, d)[1..] == ResizedAll(cs[1..], s, d);
    }
  }

  lemma {:induction false} ResizedWhich<V>(cs: seq<Node<V>>, s: set<Id>, d: int, id: Id)
    ensures Which(ResizedAll(cs, s, d), id) == Which(cs, id)
  {
    if cs != [] {
      ResizedTimes(cs[0], s, d, id);
      ResizedWhich(cs[1..], s, d, id);
      assert ResizedAll(cs, s, d)[1..] == ResizedAll(cs[1..], s, d);
    }
  }

  /** Links are not touched. */
  lemma {:induction false} ResizedParent<V>(n: Node<V>, s: set<Id>, d: int, id: Id)
    requires Holds(n, id)
    ensures Holds(Resized(n, s, d), id) && ParentIn(Resized(n, s, d), id) == ParentIn(n, id)
    decreases n
  {
    ResizedTimes(n, s, d, id);
    if n.id != id {
      ResizedWhich(n.children, s, d, id);
      ResizedParent(n.children[Which(n.children, id)], s, d, id);
    }
  }

  lemma {:induction false} ResizedLinks<V>(n: Node<V>, s: set<Id>, d: int)
    requires Links(Resized(n, s, d))
    ensures Links(n)
    decreases n
  {
    var n' := Resized(n, s, d);
    forall i | 0 <= i < |n.children| ensures Links(n.children[i]) {
      assert Links(n'.children[i]);
      ResizedLinks(n.children[i], s, d);
    }
    forall i | 0 <= i < |n.children| ensures n.children[i].parent == Some(n.id) && n.children[i].index == 0 + i {
      assert n'.children[i].parent == Some(n.id);
    }
  }

  /** Nothing happens where no identity of s is. */
  lemma {:induction false} ResizedElsewhere<V>(n: Node<V>, s: set<Id>, d: int)
    requires forall id :: id in s ==> !Holds(n, id)
    ensures Resized(n, s, d) == n
    decreases n
  {
    forall i | 0 <= i < |n.children| ensures Resized(n.children[i], s, d) == n.children[i] {
      forall id | id in s ensures !Holds(n.children[i], id) {
        TimesAt(n.children, i, id);
        assert !Holds(n, id);
      }
      ResizedElsewhere(n.children[i], s, d);
    }
    assert ResizedAll(n.children, s, d) == n.children;
  }

  /** Only the identities in the subtree matter. */
  lemma {:induction false} ResizedWithin<V>(n: Node<V>, s: set<Id>, x: Id, d: int)
    requires !Holds(n, x)
    ensures Resized(n, s + {x}, d) == Resized(n, s, d)
    decreases n
  {
    forall i | 0 <= i < |n.children| ensures Resized(n.children[i], s + {x}, d) == Resized(n.children[i], s, d) {
      TimesAt(n.children, i, x);
      ResizedWithin(n.children[i], s, x, d);
    }
    assert ResizedAll(n.children, s + {x}, d) == ResizedAll(n.children, s, d);
  }

  /** One node more. */
  lemma {:induction false} ResizedMore<V>(n: Node<V>, s: set<Id>, x: Id, d: int)
    requires x !in s
    ensures Resized(Resized(n, s, d), {x}, d) == Resized(n, s + {x}, d)
    decreases n
  {
    var n' := Resized(n, s, d);
    forall i | 0 <= i < |n.children| ensures Resized(n'.children[i], {x}, d) == Resized(n.children[i], s + {x}, d) {
      ResizedMore(n.children[i], s, x, d);
    }
    assert ResizedAll(n'.children, {x}, d) == ResizedAll(n.children, s + {x}, d);
  }

  lemma {:induction false} ResizedNone<V>(n: Node<V>, d: int)
    ensures Resized(n, {}, d) == n
  {
    ResizedElsewhere(n, {}, d);
  }

  // ---- The climb ----

  lemma {:induction false} TrailIds<V>(n: Node<V>, id: Id)
    requires Holds(n, id)
    ensures var p := Trail(n, id);
      |p| > 0 && p[0] == id && p[|p| - 1] == n.id && forall k :: 0 <= k < |p| ==> Holds(n, p[k])
    decreases n
  {
    if n.id != id {
      var i := Which(n.children, id);
      TrailIds(n.children[i], id);
      forall k | 0 <= k < |Trail(n.children[i], id)| ensures Holds(n, Trail(n.children[i], id)[k]) {
        TimesAt(n.children, i, Trail(n.children[i], id)[k]);
      }
    }
  }

  lemma {:induction false} TrailOnce<V>(n: Node<V>, id: Id)
    requires Holds(n, id) && Once(n)
    ensures var p := Trail(n, id); forall a, b :: 0 <= a < b < |p| ==> p[a] != p[b]
    decreases n
  {
    if n.id != id {
      var i := Which(n.children, id);
      OnceApart(n, i);
      TrailIds(n.children[i], id);
      TrailOnce(n.children[i], id);
    }
  }

  /** Identities are different, so there is one child to look in. */
  lemma WhichIs<V>(n: Node<V>, i: nat, id: Id)
    requires Once(n) && i < |n.children| && Holds(n.children[i], id)
    ensures Which(n.children, id) == i && n.id != id && Holds(n, id)
  {
    OnceApart(n, i);
    TimesAt(n.children, i, id);
  }

  /** The parent_ of each node on the trail is the next one, and at the end that of n. */
  lemma {:induction false} TrailFollowsParents<V>(n: Node<V>, id: Id, k: nat)
    requires Holds(n, id) && Once(n) && Links(n) && k < |Trail(n, id)|
    ensures var p := Trail(n, id); Holds(n, p[k]) && ParentIn(n, p[k]) == if k + 1 < |p| then Some(p[k + 1]) else n.parent
    decreases n
  {
    TrailIds(n, id);
    if n.id != id {
      var i := Which(n.children, id);
      var c := n.children[i];
      OnceApart(n, i);
      TrailIds(c, id);
      if k < |Trail(c, id)| {
        assert Links(c);
        TrailFollowsParents(c, id, k);
        WhichIs(n, i, Trail(c, id)[k]);
      }
    }
  }

  /** The nodes from id up to the root of n. */
  ghost function UpFrom<V>(n: Node<V>, id: Id): set<Id>
    requires Holds(n, id)
  {
    set x | x in Trail(n, id)
  }

  /** A node in n with identity x has id in its subtree. */
  ghost predicate Over<V>(n: Node<V>, x: Id, id: Id) {
    || (n.id == x && Holds(n, id))
    || exists i :: 0 <= i < |n.children| && Over(n.children[i], x, id)
  }

  lemma {:induction false} OverIds<V>(n: Node<V>, x: Id, id: Id)
    requires Over(n, x, id)
    ensures Holds(n, id) && Holds(n, x)
    decreases n
  {
    if !(n.id == x && Holds(n, id)) {
      var i :| 0 <= i < |n.children| && Over(n.children[i], x, id);
      OverIds(n.children[i], x, id);
      TimesAt(n.children, i, id);
      TimesAt(n.children, i, x);
    }
  }

  /** The climb visits a node if and only if the node's subtree holds the start of the climb. */
  lemma {:induction false} ClimbsExactly<V>(n: Node<V>, id: Id, x: Id)
    requires Holds(n, id) && Once(n)
    ensures x in UpFrom(n, id) <==> Over(n, x, id)
    decreases n
  {
    if n.id == id {
      if Over(n, x, id) && x != id {
        var i :| 0 <= i < |n.children| && Over(n.children[i], x, id);
        OverIds(n.children[i], x, id);
        OnceApart(n, i);
      }
    } else {
      var i := Which(n.children, id);
      OnceApart(n, i);
      ClimbsExactly(n.children[i], id, x);
      assert Trail(n, id) == Trail(n.children[i], id) + [n.id];
      if x != n.id && Over(n, x, id) {
        var j :| 0 <= j < |n.children| && Over(n.children[j], x, id);
        OverIds(n.children[j], x, id);
      }
    }
  }

  ghost function Visited(path: seq<Id>, k: nat): set<Id>
    requires k <= |path|
  {
    set x | x in path[..k]
  }

  /** The loop of insert_leaf and erase_leaf that corrects the sizes along parent_. */
  method Climb<V>(root: Node<V>, leaf: Id, d: int) returns (r: Node<V>)
    requires Holds(root, leaf) && Once(root) && Links(root) && root.parent == None
    ensures r == Resized(root, UpFrom(root, leaf), d)
  {
    hide Resized, Times, Links, Holds, ParentIn;
    ghost var path := Trail(root, leaf);
    ghost var k := 0;
    TrailIds(root, leaf);
    ResizedNone(root, d);
    assert Visited(path, 0) == {};
    r := root;
    var curr := Some(leaf);
    while curr.Some?
      invariant k <= |path| && curr == if k < |path| then Some(path[k]) else None
      invariant r == Resized(root, Visited(path, k), d)
      decreases |path| - k
    {
      TrailOnce(root, leaf);
      ResizedMore(root, Visited(path, k), path[k], d);
      assert Visited(path, k + 1) == Visited(path, k) + {path[k]};
      TrailFollowsParents(root, leaf, k);
      ResizedParent(root, Visited(path, k + 1), d, path[k]);
      r := Resized(r, {curr.value}, d);
      curr := ParentIn(r, curr.value);
      k := k + 1;
    }
    assert path[..k] == path;
  }
}
