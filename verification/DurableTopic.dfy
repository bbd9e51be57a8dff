/** A topic with durable subscriptions as an object: the registry that Destination keeps and the files it writes. */
module DurableTopic {
  import opened Options
  import opened DurableNames
  import opened Durable

  class Destination {
    const fs: Resolver
    var dirs: map<Path, nat>
    var files: seq<seq<Slot>>
    var subs: map<string, Sub>
    var consumers: map<ConsumerId, Consumer>
    var consumerToSub: map<ConsumerId, string>

    ghost function State(): Topic
      reads this
    {
      Topic(fs, dirs, files, subs, consumers, consumerToSub)
    }

    /** Active consumers and subscriptions are inverse to each other. */
    ghost predicate Valid()
      reads this
    {
      Linked(State())
    }

    constructor (fs: Resolver)
      ensures Valid() && State() == EmptyTopic(fs)
    {
      this.fs := fs;
      dirs, files, subs, consumers, consumerToSub := map[], [], map[], map[], map[];
    }

    /** createConsumer on a topic. */
    method CreateConsumer(sel: Selector, id: ConsumerId)
      requires Valid() && Enabled(State(), Plain(sel, id))
      modifies this
      ensures Valid() && State() == Step(old(State()), Plain(sel, id))
    {
      StepLinks(State(), Plain(sel, id));
      hide Linked;
      consumers := consumers[id := Consumer(sel, None)];
    }

    /** createDurableConsumer: refused exactly if the subscription under that key has a consumer. */
    method CreateDurableConsumer(p: Pair, sel: Selector, id: ConsumerId) returns (ok: bool)
      requires Valid() && Enabled(State(), Subscribe(p, sel, id))
      modifies this
      ensures Valid() && State() == Step(old(State()), Subscribe(p, sel, id))
      ensures ok <==> !(Key(p) in old(subs) && old(subs)[Key(p)].active.Some?)
    {
      StepLinks(State(), Subscribe(p, sel, id));
      hide Linked, Key, Dir;
      var key := Key(p);
      var sub: Sub;
      if key !in subs {
        var tom := OpenStorage(Dir(fs, p));
        sub := Sub(Dir(fs, p), tom, None, sel);
      } else {
        sub := subs[key];
        if sub.active.Some? {
          return false;
        }
      }
      sub := sub.(selector := sel);
      consumers := consumers[id := Consumer(sel, Some(key))];
      subs := subs[key := sub.(active := Some(id))];
      consumerToSub := consumerToSub[id := key];
      ok := true;
    }

    /** A storage opens the file that is in its directory, at its end. */
    method OpenStorage(dir: Path) returns (tom: Tom)
      ensures tom == if dir in dirs && dirs[dir] < |files| then Tom(dirs[dir], |files[dirs[dir]]|) else NoTom
    {
      if dir in dirs && dirs[dir] < |files| {
        tom := Tom(dirs[dir], |files[dirs[dir]]|);
      } else {
        tom := NoTom;
      }
    }

    /** deleteConsumer: its subscription goes offline and keeps what it holds. */
    method DeleteConsumer(id: ConsumerId)
      requires Valid()
      modifies this
      ensures Valid() && State() == Step(old(State()), Detach(id))
    {
      StepLinks(State(), Detach(id));
      hide Linked;
      consumers := consumers - {id};
      if id in consumerToSub {
        var key := consumerToSub[id];
        if key in subs {
          subs := subs[key := subs[key].(active := None)];
        }
        consumerToSub := consumerToSub - {id};
      }
    }

    /** deleteSubscription: disconnects the consumer, wipes the directory with all below it, and forgets the subscription. */
    method DeleteSubscription(p: Pair)
      requires Valid()
      modifies this
      ensures Valid() && State() == Step(old(State()), Unsubscribe(p))
    {
      StepLinks(State(), Unsubscribe(p));
      hide Linked, Key, Dir;
      var key := Key(p);
      if key !in subs {
        return;
      }
      var dir := subs[key].dir;
      if subs[key].active.Some? {
        DeleteConsumer(subs[key].active.value);
      }
      dirs := Wiped(dirs, dir);
      subs := subs - {key};
    }

    /** The broker stops and starts again: what is in memory is gone, and the directories stay. */
    method Restart()
      requires Valid()
      modifies this
      ensures Valid() && State() == Step(old(State()), Event.Restart)
    {
      StepLinks(State(), Event.Restart);
      hide Linked;
      subs, consumers, consumerToSub := map[], map[], map[];
    }

    /** A consumer acknowledges the k-th record of its subscription. */
    method Acknowledge(p: Pair, k: nat)
      requires Valid() && Enabled(State(), Ack(p, k))
      modifies this
      ensures Valid() && State() == Step(old(State()), Ack(p, k))
    {
      StepLinks(State(), Ack(p, k));
      hide Linked, Key, Dir;
      var f := subs[Key(p)].tom.file;
      if f < |files| && k < |files[f]| {
        files := files[f := files[f][k := files[f][k].(live := false)]];
      }
    }

    /** Storage::append for a subscription; the file is opened or made at the first write. */
    method AppendTo(key: string, m: Msg)
      requires key in subs
      modifies this
      ensures State() == Append(old(State()), key, m)
    {
      var sub := subs[key];
      if sub.tom.NoTom? {
        var tom := OpenStorage(sub.dir);
        if tom.NoTom? {
          tom := Tom(|files|, 0);
          dirs := dirs[sub.dir := |files|];
          files := files + [[]];
        }
        sub := sub.(tom := tom);
        subs := subs[key := sub];
      }
      var f, n := sub.tom.file, sub.tom.size;
      if f < |files| {
        if n < |files[f]| {
          files := files[f := files[f][n := Slot(m, true)]];
        } else {
          files := files[f := files[f] + [Slot(m, true)]];
        }
        subs := subs[key := sub.(tom := Tom(f, n + 1))];
      }
    }

    /** Consumer::push, the storing part: a durable consumer stores for its subscription what its selector lets through. */
    method Push(id: ConsumerId, m: Msg) returns (ghost reached: seq<string>)
      requires Valid() && id in consumers
      modifies this
      ensures Valid() && SameLinks(old(State()), State())
      ensures reached == if consumers[id].durable.Some? then [consumers[id].durable.value] else []
      ensures State() == StoredAll(old(State()), reached, m)
      ensures var c := consumers[id];
        if c.durable.Some? && m.persistent && (c.selector.Some? ==> c.selector.value(m))
        then c.durable.value in old(subs) && State() == Append(old(State()), c.durable.value, m)
        else State() == old(State())
    {
      var c := consumers[id];
      reached := [];
      PushFacts(State(), id, m);
      hide Linked, Append, SubOk, ConsumerOk;
      if c.durable.Some? {
        var key := c.durable.value;
        reached := [key];
        if Matches(c.selector, m) && m.persistent {
          AppendTo(key, m);
        }
      }
    }

    /** save outside a transaction: the consumers first, then the subscriptions without one, each in whatever order. */
    method Save(m: Msg) returns (ghost order: seq<string>)
      requires Valid()
      modifies this
      ensures Valid() && Visits(order, old(subs.Keys))
      ensures State() == Step(old(State()), Publish(m, order))
    {
      hide Linked;
      ghost var t := State();
      ghost var online := PushAll(m);
      ghost var offline := [];
      if m.persistent {
        offline := PersistOffline(m);
      } else {
        offline := NothingStored(State(), m);
      }
      StoredAllJoin(t, online, offline, m);
      BothVisit(t, online, offline);
      order := online + offline;
    }

    method PushAll(m: Msg) returns (ghost order: seq<string>)
      requires Valid()
      modifies this
      ensures Valid() && SameLinks(old(State()), State()) && State() == StoredAll(old(State()), order, m)
      ensures Lists(order, Served(old(State()), {}))
    {
      ghost var t := State();
      order := [];
      var todo := consumers.Keys;
      NobodyServed(t);
      while todo != {}
        invariant Valid() && SameLinks(t, State()) && State() == StoredAll(t, order, m) && todo <= consumers.Keys
        invariant Lists(order, Served(t, todo))
        decreases todo
      {
        var id :| id in todo;
        ServedNext(t, todo, id, order);
        ghost var reached := Push(id, m);
        StoredAllJoin(t, order, reached, m);
        order := order + reached;
        todo := todo - {id};
      }
    }

    /** The subscriptions without a consumer. */
    method PersistOffline(m: Msg) returns (ghost order: seq<string>)
      requires Valid() && m.persistent
      modifies this
      ensures Valid() && SameLinks(old(State()), State()) && State() == StoredAll(old(State()), order, m)
      ensures Lists(order, Unserved(old(State()), {}))
    {
      hide Linked, Append, Lists;
      ghost var t := State();
      assert Lists([], {}) by {
        NoneListed();
      }
      order := [];
      var todo := subs.Keys;
      assert Unserved(t, todo) == {};
      while todo != {}
        invariant Valid() && SameLinks(t, State()) && State() == StoredAll(t, order, m) && todo <= subs.Keys
        invariant Lists(order, Unserved(t, todo))
        decreases todo
      {
        var key :| key in todo;
        ghost var before := todo;
        todo := todo - {key};
        assert todo + {key} == before;
        if subs[key].active.None? {
          StoreFacts(State(), key, m);
          StoredAllJoin(t, order, [key], m);
          ListsNext(order, Unserved(t, todo + {key}), key);
          assert Unserved(t, todo) == Unserved(t, todo + {key}) + {key};
          order := order + [key];
          if Matches(subs[key].selector, m) {
            AppendTo(key, m);
          }
        } else {
          assert Unserved(t, todo) == Unserved(t, todo + {key});
        }
      }
    }
  }

  /** The keys of subscriptions whose consumer has had its turn. */
  ghost function Served(t: Topic, todo: set<ConsumerId>): set<string> {
    set key | key in t.subs && t.subs[key].active.Some? && t.subs[key].active.value !in todo
  }

  /** The keys of subscriptions without a consumer that have had their turn. */
  ghost function Unserved(t: Topic, todo: set<string>): set<string> {
    set key | key in t.subs && t.subs[key].active.None? && key !in todo
  }

  /** The sequence lists the set, each element once. */
  ghost predicate Lists(order: seq<string>, keys: set<string>) {
    && (forall key :: key in order <==> key in keys)
    && (forall j, k :: 0 <= j < k < |order| ==> order[j] != order[k])
  }

  lemma ListsNext(order: seq<string>, keys: set<string>, key: string)
    requires Lists(order, keys) && key !in keys
    ensures Lists(order + [key], keys + {key})
  {
  }

  lemma NoneListed()
    ensures Lists([], {})
  {
  }

  lemma NobodyServed(t: Topic)
    requires Linked(t)
    ensures Lists([], Served(t, t.consumers.Keys))
  {
    forall key | key in t.subs ensures t.subs[key].active.Some? ==> t.subs[key].active.value in t.consumers.Keys {
      assert SubOk(t, key);
    }
  }

  lemma ServedNext(t: Topic, todo: set<ConsumerId>, id: ConsumerId, order: seq<string>)
    requires Linked(t) && id in todo && id in t.consumers && Lists(order, Served(t, todo))
    ensures var reached := if t.consumers[id].durable.Some? then [t.consumers[id].durable.value] else [];
      Lists(order + reached, Served(t, todo - {id}))
  {
    assert ConsumerOk(t, id);
    forall key | key in t.subs ensures t.subs[key].active == Some(id) ==> t.consumers[id].durable == Some(key) {
      assert SubOk(t, key);
    }
    if t.consumers[id].durable.Some? {
      var key := t.consumers[id].durable.value;
      assert Served(t, todo - {id}) == Served(t, todo) + {key};
      ListsNext(order, Served(t, todo), key);
    } else {
      assert Served(t, todo - {id}) == Served(t, todo);
      assert order + [] == order;
    }
  }

  lemma BothVisit(t: Topic, online: seq<string>, offline: seq<string>)
    requires Lists(online, Served(t, {})) && Lists(offline, Unserved(t, {}))
    ensures Visits(online + offline, t.subs.Keys)
  {
    var order := online + offline;
    forall k | 0 <= k < |order| ensures order[k] in t.subs.Keys {
      assert order[k] in online || order[k] in offline;
    }
    forall key | key in t.subs.Keys ensures key in order {
      assert key in Served(t, {}) || key in Unserved(t, {});
    }
    forall j, k | 0 <= j < k < |order| ensures order[j] != order[k] {
      if j < |online| <= k {
        assert order[j] in online && order[k] in offline;
      }
    }
  }

  lemma {:induction false} StoredAllJoin(t: Topic, a: seq<string>, b: seq<string>, m: Msg)
    ensures StoredAll(StoredAll(t, a, m), b, m) == StoredAll(t, a + b, m)
  {
    if b == [] {
      assert a + b == a;
    } else {
      StoredAllJoin(t, a, b[..|b| - 1], m);
      assert (a + b)[..|a + b| - 1] == a + b[..|b| - 1];
    }
  }

  lemma StoreFacts(t: Topic, key: string, m: Msg)
    requires Linked(t) && key in t.subs
    ensures StoredAll(t, [key], m) == Stored(t, key, m)
    ensures SameLinks(t, Stored(t, key, m)) && Linked(Stored(t, key, m))
  {
    assert [key][..0] == [] && StoredAll(t, [], m) == t;
    StoredLinks(t, key, m);
    LinksStay(t, Stored(t, key, m));
  }

  lemma PushFacts(t: Topic, id: ConsumerId, m: Msg)
    requires Linked(t) && id in t.consumers
    ensures SameLinks(t, t) && StoredAll(t, [], m) == t
    ensures t.consumers[id].durable.Some? ==>
      var key := t.consumers[id].durable.value;
      && key in t.subs && t.subs[key].selector == t.consumers[id].selector
      && StoredAll(t, [key], m) == Stored(t, key, m)
      && SameLinks(t, Stored(t, key, m)) && Linked(Stored(t, key, m))
  {
    assert ConsumerOk(t, id);
    if t.consumers[id].durable.Some? {
      var key := t.consumers[id].durable.value;
      assert SubOk(t, key);
      StoreFacts(t, key, m);
    }
  }

  /** A message that is not persistent passes the subscriptions without a consumer by. */
  lemma NothingStored(t: Topic, m: Msg) returns (order: seq<string>)
    requires !m.persistent
    ensures Lists(order, Unserved(t, {})) && StoredAll(t, order, m) == t
  {
    order := ListOf(Unserved(t, {}));
    PassesBy(t, order, m);
  }

  lemma {:induction false} PassesBy(t: Topic, order: seq<string>, m: Msg)
    requires !m.persistent
    ensures StoredAll(t, order, m) == t
  {
    if order != [] {
      PassesBy(t, order[..|order| - 1], m);
    }
  }

  lemma {:induction false} ListOf(keys: set<string>) returns (order: seq<string>)
    ensures Lists(order, keys)
    decreases |keys|
  {
    if keys == {} {
      order := [];
    } else {
      var key :| key in keys;
      order := ListOf(keys - {key});
      ListsNext(order, keys - {key}, key);
      assert keys - {key} + {key} == keys;
      order := order + [key];
    }
  }
}
