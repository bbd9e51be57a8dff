/** Messages and consumers as objects: the methods of Consumer that link and unlink in-flight messages. */
module InFlight {

  class Message {
    const id: nat
    var next: Message?
    var prev: Message?
    var owner: Consumer?

    constructor (id: nat)
      ensures this.id == id && next == null && prev == null && owner == null
    {
      this.id := id;
      next, prev, owner := null, null, null;
    }

    /** Copying never copies the link: a copy is in no list. */
    method Copy() returns (m: Message)
      ensures fresh(m) && m.id == id && m.owner == null && m.next == null && m.prev == null
    {
      m := new Message(id);
    }
  }

  /** The message at position i of a chain, or null. */
  function At(chain: seq<Message>, i: int): Message? {
    if 0 <= i < |chain| then chain[i] else null
  }

  ghost predicate Distinct(chain: seq<Message>) {
    forall i, j :: 0 <= i < j < |chain| ==> chain[i] != chain[j]
  }

  /** Position i of c's list is linked to its neighbours and knows its owner. */
  ghost predicate NodeRight(c: Consumer, ms: set<Message>, i: nat)
    reads c, ms
    requires i < |c.chain|
  {
    var m := c.chain[i];
    m in ms && m.owner == c && m.next == At(c.chain, i + 1) && m.prev == At(c.chain, i - 1)
  }

  /** The fields spell out c's chain forwards and backwards. */
  ghost predicate Spells(c: Consumer, ms: set<Message>)
    reads c, ms
  {
    && Distinct(c.chain)
    && c.head == At(c.chain, 0) && c.tail == At(c.chain, |c.chain| - 1)
    && (forall i {:trigger NodeRight(c, ms, i)} :: 0 <= i < |c.chain| ==> NodeRight(c, ms, i))
  }

  /** A message is in the list of its owner; without an owner its links are empty. */
  ghost predicate Placed(m: Message, cs: set<Consumer>)
    reads m, cs
  {
    if m.owner == null then m.next == null && m.prev == null
    else m.owner in cs && m in m.owner.chain
  }

  ghost predicate Consistent(cs: set<Consumer>, ms: set<Message>)
    reads cs, ms
  {
    && (forall c {:trigger Spells(c, ms)} :: c in cs ==> Spells(c, ms))
    && (forall m {:trigger Placed(m, cs)} :: m in ms ==> Placed(m, cs))
  }

  /** A message is in a consumer's chain exactly if that consumer owns it: no message is in two chains. */
  lemma Member(c: Consumer, m: Message, cs: set<Consumer>, ms: set<Message>)
    requires Consistent(cs, ms) && c in cs && m in ms
    ensures m in c.chain <==> m.owner == c
  {
    assert Placed(m, cs) && Spells(c, ms);
    if m in c.chain {
      var i :| 0 <= i < |c.chain| && c.chain[i] == m;
      assert NodeRight(c, ms, i);
    }
  }

  /** The nodes next to position k of a list. */
  lemma Neighbours(c: Consumer, cs: set<Consumer>, ms: set<Message>, k: nat)
    requires Consistent(cs, ms) && c in cs && k < |c.chain|
    ensures c.chain[k] in ms && c.chain[k].owner == c
    ensures c.chain[k].next == At(c.chain, k + 1) && c.chain[k].prev == At(c.chain, k - 1)
    ensures c.chain[k].prev != c.chain[k] && c.chain[k].next != c.chain[k]
    ensures c.chain[k].next != null ==> c.chain[k].next in ms && c.chain[k].next.owner == c
    ensures c.chain[k].prev != null ==> c.chain[k].prev in ms && c.chain[k].prev.owner == c
  {
    assert Spells(c, ms) && NodeRight(c, ms, k);
    assert k > 0 ==> NodeRight(c, ms, k - 1);
    assert k < |c.chain| - 1 ==> NodeRight(c, ms, k + 1);
  }

  function IndexOf(chain: seq<Message>, m: Message): (i: nat)
    requires m in chain
    ensures i < |chain| && chain[i] == m
  {
    if chain[0] == m then 0 else IndexOf(chain[1..], m) + 1
  }

  /** A chain without one of its messages, the others in order. */
  function Without(chain: seq<Message>, m: Message): seq<Message> {
    if m !in chain then chain
    else var i := IndexOf(chain, m); chain[..i] + chain[i + 1..]
  }

  class Consumer {
    var head: Message?
    var tail: Message?
    ghost var chain: seq<Message>

    constructor ()
      ensures head == null && tail == null && chain == []
    {
      head, tail, chain := null, null, [];
    }

    method Track(m: Message, ghost cs: set<Consumer>, ghost ms: set<Message>)
      requires this in cs && m in ms && m.owner == null
      requires Consistent(cs, ms)
      modifies this, ms
      ensures Consistent(cs, ms)
      ensures forall c :: c in cs ==> c.chain == if c == this then old(c.chain) + [m] else old(c.chain)
    {
      assert Spells(this, ms) && Placed(m, cs);
      ghost var n := |chain|;
      assert n > 0 ==> NodeRight(this, ms, n - 1);
      Member(this, m, cs, ms);
      if tail != null {
        tail.next := m;
        m.prev := tail;
      } else {
        m.prev := null;
        head := m;
      }
      tail := m;
      m.owner := this;
      chain := chain + [m];
      assert forall c :: c in cs && c != this ==> c.chain == old(c.chain) && c.head == old(c.head) && c.tail == old(c.tail);
      assert forall x :: x in ms && x.owner != this ==> x.next == old(x.next) && x.prev == old(x.prev) && x.owner == old(x.owner);
      forall c | c in cs
        ensures Spells(c, ms)
      {
        assert old(Spells(c, ms));
        forall i | 0 <= i < |c.chain|
          ensures NodeRight(c, ms, i)
        {
          if c != this || i < n {
            assert old(NodeRight(c, ms, i));
          }
        }
      }
      forall x | x in ms
        ensures Placed(x, cs)
      {
        assert old(Placed(x, cs));
      }
    }

    /** acknowledgeOn, the unlinking half: exactly this message leaves the list; another consumer's message is left alone. */
    method Acknowledge(m: Message, ghost cs: set<Consumer>, ghost ms: set<Message>)
      requires this in cs && m in ms
      requires Consistent(cs, ms)
      modifies this, ms
      ensures Consistent(cs, ms)
      ensures forall c :: c in cs ==> c.chain == if c == this then Without(old(c.chain), m) else old(c.chain)
      ensures old(m.owner) == this ==> m.owner == null
      ensures old(m.owner) != this ==> unchanged(this) && unchanged(ms)
    {
      Member(this, m, cs, ms);
      if m.owner == this {
        ghost var k := IndexOf(chain, m);
        Neighbours(this, cs, ms, k);
        Splice(m, ms);
        ghost var ch := old(chain);
        assert chain == ch[..k] + ch[k + 1..];
        forall i | 0 <= i < |chain|
          ensures NodeRight(this, ms, i)
        {
          ghost var j := if i < k then i else i + 1;
          assert old(Spells(this, ms)) && old(NodeRight(this, ms, j));
          assert ch[j] != m && chain[i] == ch[j];
          assert (old(m.prev) == ch[j]) == (j + 1 == k);
          assert (old(m.next) == ch[j]) == (j == k + 1);
        }
        assert old(Spells(this, ms));
        assert Spells(this, ms);
        forall c | c in cs && c != this
          ensures Spells(c, ms)
        {
          assert old(Spells(c, ms));
          forall i | 0 <= i < |c.chain|
            ensures NodeRight(c, ms, i)
          {
            assert old(NodeRight(c, ms, i));
          }
        }
        forall x | x in ms
          ensures Placed(x, cs)
        {
          assert old(Placed(x, cs));
          if old(x.owner) == this && x != m {
            ghost var j := IndexOf(ch, x);
            assert chain[if j < k then j else j - 1] == x;
          }
        }
      }
    }

    /** The pointer assignments that take m out of this list. */
    method Splice(m: Message, ghost ms: set<Message>)
      requires m in ms && m.prev != m && m.next != m
      requires m.prev != null ==> m.prev in ms
      requires m.next != null ==> m.next in ms
      modifies this, ms
      ensures head == (if old(m.prev) == null then old(m.next) else old(head))
      ensures tail == (if old(m.next) == null then old(m.prev) else old(tail))
      ensures chain == Without(old(chain), m)
      ensures forall x :: x in ms ==> x.owner == if x == m then null else old(x.owner)
      ensures forall x :: x in ms ==> x.next == if x == m then null else if x == old(m.prev) then old(m.next) else old(x.next)
      ensures forall x :: x in ms ==> x.prev == if x == m then null else if x == old(m.next) then old(m.prev) else old(x.prev)
    {
      var p, q := m.prev, m.next;
      m.next := null;
      if p != null {
        p.next := q;
      } else {
        head := q;
      }
      if q != null {
        q.prev := p;
      } else {
        tail := p;
      }
      m.prev := null;
      m.owner := null;
      chain := Without(chain, m);
    }

    /**
     The walk shared by recover and clearInFlight: the list is taken off the consumer and each
     node is unlinked before the next is looked at. The nodes are visited in receive order.
     */
    method Detach(ghost cs: set<Consumer>, ghost ms: set<Message>) returns (walked: seq<Message>)
      requires this in cs
      requires Consistent(cs, ms)
      modifies this, ms
      ensures Consistent(cs, ms)
      ensures walked == old(chain)
      ensures forall c :: c in cs ==> c.chain == if c == this then [] else old(c.chain)
    {
      ghost var all := chain;
      assert Spells(this, ms);
      forall x | x in ms
        ensures x in all <==> x.owner == this
      {
        Member(this, x, cs, ms);
      }
      var node := head;
      head, tail, chain := null, null, [];
      walked := [];
      while node != null
        invariant |walked| <= |all| && walked == all[..|walked|]
        invariant node == At(all, |walked|)
        invariant head == null && tail == null && chain == []
        invariant forall c :: c in cs && c != this ==>
          c.head == old(c.head) && c.tail == old(c.tail) && c.chain == old(c.chain)
        invariant forall m :: m in ms && m !in walked ==>
          m.next == old(m.next) && m.prev == old(m.prev) && m.owner == old(m.owner)
        invariant forall m :: m in walked ==> m in ms && m.next == null && m.prev == null && m.owner == null
        decreases |all| - |walked|
      {
        assert old(Spells(this, ms)) && old(NodeRight(this, ms, |walked|));
        var next := node.next;
        node.next := null;
        node.prev := null;
        node.owner := null;
        walked := walked + [node];
        node := next;
      }
      assert walked == all;
      forall c | c in cs && c != this
        ensures Spells(c, ms)
      {
        assert old(Spells(c, ms));
        forall i | 0 <= i < |c.chain|
          ensures NodeRight(c, ms, i)
        {
          assert old(NodeRight(c, ms, i));
        }
      }
      forall x | x in ms
        ensures Placed(x, cs)
      {
        assert old(Placed(x, cs));
      }
    }
  }

  // ---- Whole runs ----

  /** recv hands m to c; m is acknowledged on c, rightly or wrongly; c recovers or is torn down. */
  datatype Event = Receive(c: Consumer, m: Message) | Ack(c: Consumer, m: Message) | Recover(c: Consumer)

  /** What the consumers hold, without links: a sequence each. */
  type Held = map<Consumer, seq<Message>>

  ghost predicate Possible(h: Held, ms: set<Message>, e: Event) {
    && e.c in h
    && match e
       case Receive(_, m) => m in ms && forall c :: c in h ==> m !in h[c]
       case Ack(_, m) => m in ms
       case Recover(_) => true
  }

  ghost function After(h: Held, e: Event): Held
    requires e.c in h
  {
    match e
    case Receive(c, m) => h[c := h[c] + [m]]
    case Ack(c, m) => h[c := Without(h[c], m)]
    case Recover(c) => h[c := []]
  }

  ghost predicate Feasible(h: Held, ms: set<Message>, run: seq<Event>)
    decreases |run|
  {
    run == [] || (Possible(h, ms, run[0]) && Feasible(After(h, run[0]), ms, run[1..]))
  }

  ghost function Final(h: Held, ms: set<Message>, run: seq<Event>): Held
    requires Feasible(h, ms, run)
    decreases |run|
  {
    if run == [] then h else Final(After(h, run[0]), ms, run[1..])
  }

  ghost function HeldBy(cs: set<Consumer>): Held
    reads cs
  {
    map c | c in cs :: c.chain
  }

  /** One event carried out on the objects. */
  method Perform(e: Event, ghost cs: set<Consumer>, ghost ms: set<Message>)
    requires Consistent(cs, ms) && Possible(HeldBy(cs), ms, e)
    modifies cs, ms
    ensures Consistent(cs, ms)
    ensures HeldBy(cs) == After(old(HeldBy(cs)), e)
  {
    match e {
      case Receive(c, m) =>
        assert Placed(m, cs);
        assert forall d :: d in cs ==> m !in HeldBy(cs)[d];
        c.Track(m, cs, ms);
      case Ack(c, m) =>
        c.Acknowledge(m, cs, ms);
      case Recover(c) =>
        var _ := c.Detach(cs, ms);
    }
  }

  /** Any sequence of events: the links keep representing the sequences that the events call for. */
  method PerformAll(run: seq<Event>, ghost cs: set<Consumer>, ghost ms: set<Message>)
    requires Consistent(cs, ms) && Feasible(HeldBy(cs), ms, run)
    modifies cs, ms
    ensures Consistent(cs, ms)
    ensures HeldBy(cs) == Final(old(HeldBy(cs)), ms, run)
    decreases |run|
  {
    if run != [] {
      Perform(run[0], cs, ms);
      PerformAll(run[1..], cs, ms);
    }
  }
}
