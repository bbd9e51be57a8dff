/**
 Durable subscriptions of one topic through restarts: who is attached, which file each subscription
 writes to, and what that file holds. A subscription finds its file through its directory.
 */
module Durable {
  import opened Options
  import opened DurableNames

  type ConsumerId = nat

  /** What the topic needs to know of a message published outside a transaction. */
  datatype Msg = Msg(id: nat, persistent: bool, text: string)

  type Selector = Option<Msg -> bool>

  predicate Matches(sel: Selector, m: Msg) {
    sel.None? || sel.value(m)
  }

  predicate Wants(sel: Selector, m: Msg) {
    m.persistent && Matches(sel, m)
  }

  /** A stored record; live until it is acknowledged. */
  datatype Slot = Slot(msg: Msg, live: bool)

  // ---- The simple picture: what each subscription is owed ----

  /**
   What a subscription is owed does not depend on whether it has a consumer. It is known from its first consumer on to the
   next restart; then it keeps what it has, and its next consumer makes it known again.
   */
  datatype Owed = Owed(selector: Selector, slots: seq<Slot>, active: Option<ConsumerId>, known: bool)

  type Register = map<Pair, Owed>

  datatype Event =
    | Subscribe(p: Pair, selector: Selector, id: ConsumerId)
    | Plain(selector: Selector, id: ConsumerId)
    | Detach(id: ConsumerId)
    | Unsubscribe(p: Pair)
    | Publish(m: Msg, order: seq<string>)
    | Ack(p: Pair, k: nat)
    | Restart

  function Gain(o: Owed, m: Msg): Owed {
    if o.known && Wants(o.selector, m) then o.(slots := o.slots + [Slot(m, true)]) else o
  }

  function Offline(o: Owed, id: ConsumerId): Owed {
    if o.active == Some(id) then o.(active := None) else o
  }

  function Due(r: Register, e: Event): Register {
    match e
    case Subscribe(p, sel, id) =>
      if p in r && r[p].active.Some? then r
      else r[p := Owed(sel, if p in r then r[p].slots else [], Some(id), true)]
    case Plain(_, _) => r
    case Detach(id) => map p | p in r :: Offline(r[p], id)
    case Unsubscribe(p) => if p in r && r[p].known then r - {p} else r
    case Publish(m, _) => map p | p in r :: Gain(r[p], m)
    case Ack(p, k) =>
      if p in r && k < |r[p].slots| then r[p := r[p].(slots := r[p].slots[k := r[p].slots[k].(live := false)])] else r
    case Restart => map p | p in r :: r[p].(active := None, known := false)
  }

  // ---- The topic ----

  /** The open file of a subscription with the number of records it takes it to have; none before the first write to an empty directory. */
  datatype Tom = NoTom | Tom(file: nat, size: nat)

  datatype Sub = Sub(dir: Path, tom: Tom, active: Option<ConsumerId>, selector: Selector)

  /** A consumer with its selector; a durable one writes to the storage of its subscription. */
  datatype Consumer = Consumer(selector: Selector, durable: Option<string>)

  /** dirs: the directories that hold a file, and which. */
  datatype Topic = Topic(
    fs: Resolver,
    dirs: map<Path, nat>,
    files: seq<seq<Slot>>,
    subs: map<string, Sub>,
    consumers: map<ConsumerId, Consumer>,
    consumerToSub: map<ConsumerId, string>)

  function EmptyTopic(fs: Resolver): Topic {
    Topic(fs, map[], [], map[], map[], map[])
  }

  /** A file is opened at its end, or made. */
  function Opened(t: Topic, key: string): Topic
    requires key in t.subs
  {
    var sub := t.subs[key];
    if sub.tom.Tom? then t
    else if sub.dir in t.dirs && t.dirs[sub.dir] < |t.files| then
      t.(subs := t.subs[key := sub.(tom := Tom(t.dirs[sub.dir], |t.files[t.dirs[sub.dir]]|))])
    else
      t.(subs := t.subs[key := sub.(tom := Tom(|t.files|, 0))], dirs := t.dirs[sub.dir := |t.files|], files := t.files + [[]])
  }

  /** Writing at a position: over what another subscription may have put there, or at the end. */
  function WrittenAt(file: seq<Slot>, n: nat, slot: Slot): seq<Slot> {
    if n < |file| then file[n := slot] else file + [slot]
  }

  function Append(t: Topic, key: string, m: Msg): Topic
    requires key in t.subs
  {
    var t1 := Opened(t, key);
    var sub := t1.subs[key];
    var f, n := sub.tom.file, sub.tom.size;
    if f >= |t1.files| then t1
    else
      t1.(files := t1.files[f := WrittenAt(t1.files[f], n, Slot(m, true))],
          subs := t1.subs[key := sub.(tom := Tom(f, n + 1))])
  }

  function Stored(t: Topic, key: string, m: Msg): Topic
    requires key in t.subs
  {
    if Wants(t.subs[key].selector, m) then Append(t, key, m) else t
  }

  /** A publication reaches the subscriptions one after the other. */
  function StoredAll(t: Topic, order: seq<string>, m: Msg): Topic {
    if order == [] then t
    else
      var t1 := StoredAll(t, order[..|order| - 1], m);
      var key := order[|order| - 1];
      if key in t1.subs then Stored(t1, key, m) else t1
  }

  function Attached(t: Topic, key: string, sub: Sub, id: ConsumerId): Topic {
    t.(subs := t.subs[key := sub.(active := Some(id))],
       consumers := t.consumers[id := Consumer(sub.selector, Some(key))],
       consumerToSub := t.consumerToSub[id := key])
  }

  function NewSub(t: Topic, p: Pair, sel: Selector): Sub {
    var dir := Dir(t.fs, p);
    Sub(dir, if dir in t.dirs && t.dirs[dir] < |t.files| then Tom(t.dirs[dir], |t.files[t.dirs[dir]]|) else NoTom, None, sel)
  }

  function Detached(t: Topic, id: ConsumerId): Topic {
    var t1 := t.(consumers := t.consumers - {id});
    if id !in t.consumerToSub then t1
    else
      var key := t.consumerToSub[id];
      t1.(subs := if key in t.subs then t.subs[key := t.subs[key].(active := None)] else t.subs,
          consumerToSub := t.consumerToSub - {id})
  }

  /** The directory goes with everything below it. */
  function Wiped(dirs: map<Path, nat>, dir: Path): map<Path, nat> {
    map d | d in dirs && !(dir <= d) :: dirs[d]
  }

  /** deleteSubscription: the consumer goes, then the directory, then the entry. */
  function Unsubscribed(t: Topic, key: string): Topic {
    if key !in t.subs then t
    else
      var t1 := if t.subs[key].active.Some? then Detached(t, t.subs[key].active.value) else t;
      t1.(dirs := Wiped(t1.dirs, t.subs[key].dir), subs := t1.subs - {key})
  }

  function Acked(t: Topic, key: string, k: nat): Topic {
    if key in t.subs && t.subs[key].tom.Tom? && t.subs[key].tom.file < |t.files| && k < |t.files[t.subs[key].tom.file]| then
      var f := t.subs[key].tom.file;
      t.(files := t.files[f := t.files[f][k := t.files[f][k].(live := false)]])
    else t
  }

  predicate Enabled(t: Topic, e: Event) {
    match e
    case Subscribe(_, _, id) => id !in t.consumers && id !in t.consumerToSub
    case Plain(_, id) => id !in t.consumers && id !in t.consumerToSub
    case Publish(_, order) => Visits(order, t.subs.Keys)
    case Ack(p, k) => Key(p) in t.subs && t.subs[Key(p)].tom.Tom? && k < t.subs[Key(p)].tom.size
    case _ => true
  }

  /** order runs through every subscription once; unordered maps promise no more. */
  predicate Visits(order: seq<string>, keys: set<string>) {
    && (forall k :: 0 <= k < |order| ==> order[k] in keys)
    && (forall key :: key in keys ==> key in order)
    && (forall j, k :: 0 <= j < k < |order| ==> order[j] != order[k])
  }

  function Step(t: Topic, e: Event): Topic
    requires Enabled(t, e)
  {
    match e
    case Subscribe(p, sel, id) =>
      var key := Key(p);
      if key in t.subs then
        if t.subs[key].active.Some? then t else Attached(t, key, t.subs[key].(selector := sel), id)
      else Attached(t, key, NewSub(t, p, sel), id)
    case Plain(sel, id) => t.(consumers := t.consumers[id := Consumer(sel, None)])
    case Detach(id) => Detached(t, id)
    case Unsubscribe(p) => Unsubscribed(t, Key(p))
    case Publish(m, order) => StoredAll(t, order, m)
    case Ack(p, k) => Acked(t, Key(p), k)
    case Restart => t.(subs := map[], consumers := map[], consumerToSub := map[])
  }

  /** What the storage of a subscription reads back. */
  function Read(t: Topic, tom: Tom): seq<Slot> {
    if tom.NoTom? || tom.file >= |t.files| then []
    else if tom.size <= |t.files[tom.file]| then t.files[tom.file][..tom.size]
    else t.files[tom.file]
  }

  function Holding(t: Topic, sub: Sub): Owed {
    Owed(sub.selector, Read(t, sub.tom), sub.active, true)
  }

  // ---- Histories ----

  predicate Feasible(t: Topic, history: seq<Event>)
    decreases |history|
  {
    history == [] || (Enabled(t, history[0]) && Feasible(Step(t, history[0]), history[1..]))
  }

  function Exec(t: Topic, history: seq<Event>): Topic
    requires Feasible(t, history)
    decreases |history|
  {
    if history == [] then t else Exec(Step(t, history[0]), history[1..])
  }

  function DueAll(r: Register, history: seq<Event>): Register
    decreases |history|
  {
    if history == [] then r else DueAll(Due(r, history[0]), history[1..])
  }

  /** The history speaks only of these subscriptions. */
  predicate Over(history: seq<Event>, pairs: set<Pair>) {
    forall k :: 0 <= k < |history| && (history[k].Subscribe? || history[k].Unsubscribe? || history[k].Ack?) ==>
      history[k].p in pairs
  }

  ghost predicate Knows(r: Register, p: Pair) {
    p in r && r[p].known
  }

  /** The known subscriptions are there, and each holds exactly what it is owed. */
  ghost predicate Agrees(t: Topic, r: Register, pairs: set<Pair>) {
    forall p :: p in pairs ==> (Knows(r, p) <==> Key(p) in t.subs) && (Knows(r, p) ==> Holding(t, t.subs[Key(p)]) == r[p])
  }

  /** No two of the subscriptions share a key, and none has its directory in another's. */
  ghost predicate Independent(fs: Resolver, pairs: set<Pair>) {
    forall p, q :: p in pairs && q in pairs && p != q ==> Key(p) != Key(q) && !Nested(Dir(fs, p), Dir(fs, q))
  }

  // ---- The maps between subscriptions and consumers, whatever the names ----

  ghost predicate SubOk(t: Topic, key: string)
    requires key in t.subs
  {
    t.subs[key].active.Some? ==>
      var id := t.subs[key].active.value;
      id in t.consumerToSub && t.consumerToSub[id] == key && id in t.consumers
      && t.consumers[id] == Consumer(t.subs[key].selector, Some(key))
  }

  ghost predicate ConsumerOk(t: Topic, id: ConsumerId) {
    && (id in t.consumerToSub ==> t.consumerToSub[id] in t.subs && t.subs[t.consumerToSub[id]].active == Some(id))
    && (id in t.consumers && t.consumers[id].durable.Some? ==>
          id in t.consumerToSub && t.consumerToSub[id] == t.consumers[id].durable.value)
  }

  /** Active consumers and subscriptions are inverse to each other; a subscription has at most one consumer. */
  ghost predicate Linked(t: Topic) {
    && (forall key {:trigger SubOk(t, key)} :: key in t.subs ==> SubOk(t, key))
    && (forall id {:trigger ConsumerOk(t, id)} :: ConsumerOk(t, id))
  }

  /** Storing changes files and sizes, not who is attached. */
  ghost predicate SameLinks(t: Topic, t': Topic) {
    && t'.fs == t.fs
    && t'.consumers == t.consumers && t'.consumerToSub == t.consumerToSub && t'.subs.Keys == t.subs.Keys
    && (forall key :: key in t.subs ==> t'.subs[key] == t.subs[key].(tom := t'.subs[key].tom))
  }

  lemma StoredLinks(t: Topic, key: string, m: Msg)
    requires key in t.subs
    ensures SameLinks(t, Stored(t, key, m))
  {
  }

  lemma {:induction false} StoredAllLinks(t: Topic, order: seq<string>, m: Msg)
    ensures SameLinks(t, StoredAll(t, order, m))
  {
    if order != [] {
      StoredAllLinks(t, order[..|order| - 1], m);
      var t1, key := StoredAll(t, order[..|order| - 1], m), order[|order| - 1];
      if key in t1.subs {
        StoredLinks(t1, key, m);
      }
    }
  }

  lemma LinksStay(t: Topic, t': Topic)
    requires Linked(t) && SameLinks(t, t')
    ensures Linked(t')
  {
    forall key | key in t'.subs ensures SubOk(t', key) {
      assert SubOk(t, key);
    }
    forall id ensures ConsumerOk(t', id) {
      assert ConsumerOk(t, id);
    }
  }

  lemma AttachedLinks(t: Topic, key: string, sub: Sub, id: ConsumerId)
    requires Linked(t) && id !in t.consumers && id !in t.consumerToSub && (key in t.subs ==> t.subs[key].active.None?)
    ensures Linked(Attached(t, key, sub, id))
  {
    var t' := Attached(t, key, sub, id);
    forall k | k in t'.subs ensures SubOk(t', k) {
      if k != key {
        assert SubOk(t, k);
      }
    }
    forall i ensures ConsumerOk(t', i) {
      assert ConsumerOk(t, i);
    }
  }

  lemma DetachedLinks(t: Topic, id: ConsumerId)
    requires Linked(t)
    ensures Linked(Detached(t, id))
    ensures forall key :: key in t.subs ==> Detached(t, id).subs[key].active == if t.subs[key].active == Some(id) then None else t.subs[key].active
  {
    var t' := Detached(t, id);
    assert ConsumerOk(t, id);
    forall k | k in t'.subs
      ensures SubOk(t', k) && t'.subs[k].active == if t.subs[k].active == Some(id) then None else t.subs[k].active
    {
      assert SubOk(t, k);
    }
    forall i ensures ConsumerOk(t', i) {
      assert ConsumerOk(t, i);
    }
  }

  lemma UnsubscribedLinks(t: Topic, key: string)
    requires Linked(t)
    ensures Linked(Unsubscribed(t, key))
  {
    if key in t.subs {
      assert SubOk(t, key);
      var t1 := if t.subs[key].active.Some? then Detached(t, t.subs[key].active.value) else t;
      if t.subs[key].active.Some? {
        DetachedLinks(t, t.subs[key].active.value);
      }
      assert t1.subs[key].active == None;
      var t' := Unsubscribed(t, key);
      forall k | k in t'.subs ensures SubOk(t', k) {
        assert SubOk(t1, k);
      }
      forall i ensures ConsumerOk(t', i) {
        assert ConsumerOk(t1, i);
      }
    }
  }

  lemma StepLinks(t: Topic, e: Event)
    requires Linked(t) && Enabled(t, e)
    ensures Linked(Step(t, e))
  {
    match e
    case Subscribe(p, sel, id) =>
      var key := Key(p);
      hide Key, Dir, Linked;
      if key in t.subs {
        if t.subs[key].active.None? {
          AttachedLinks(t, key, t.subs[key].(selector := sel), id);
        }
      } else {
        AttachedLinks(t, key, NewSub(t, p, sel), id);
      }
    case Plain(sel, id) =>
      var t' := Step(t, e);
      forall k | k in t'.subs ensures SubOk(t', k) {
        assert SubOk(t, k);
      }
      forall i ensures ConsumerOk(t', i) {
        assert ConsumerOk(t, i);
      }
    case Detach(id) => DetachedLinks(t, id);
    case Unsubscribe(p) => UnsubscribedLinks(t, Key(p));
    case Publish(m, order) =>
      StoredAllLinks(t, order, m);
      LinksStay(t, StoredAll(t, order, m));
    case Ack(p, k) => LinksStay(t, Acked(t, Key(p), k));
    case Restart =>
  }

  lemma {:induction false} RunLinks(t: Topic, history: seq<Event>)
    requires Linked(t) && Feasible(t, history)
    ensures Linked(Exec(t, history))
    decreases |history|
  {
    if history != [] {
      StepLinks(t, history[0]);
      RunLinks(Step(t, history[0]), history[1..]);
    }
  }

  /** After any history, with any names, consumers and subscriptions are inverse to each other. */
  lemma AlwaysLinked(fs: Resolver, history: seq<Event>)
    requires Feasible(EmptyTopic(fs), history)
    ensures Linked(Exec(EmptyTopic(fs), history))
  {
    RunLinks(EmptyTopic(fs), history);
  }

  // ---- Subscriptions with names of their own are independent ----

  /** What the files say of a subscription that has no storage open. */
  function OnDisk(t: Topic, dir: Path): seq<Slot> {
    if dir in t.dirs && t.dirs[dir] < |t.files| then t.files[t.dirs[dir]] else []
  }

  /** The subscription p of the topic is what the register says, and its file is its own. */
  ghost predicate PairOk(t: Topic, r: Register, p: Pair) {
    var dir := Dir(t.fs, p);
    && (Knows(r, p) <==> Key(p) in t.subs)
    && (p !in r ==> dir !in t.dirs)
    && (p in r && !r[p].known ==> r[p].active == None && r[p].slots == OnDisk(t, dir))
    && (p in r && r[p].known ==>
          var sub := t.subs[Key(p)];
          && sub.dir == dir && Holding(t, sub) == r[p]
          && (sub.tom.NoTom? <==> dir !in t.dirs)
          && (sub.tom.Tom? ==>
                t.dirs[dir] == sub.tom.file && sub.tom.file < |t.files| && sub.tom.size == |t.files[sub.tom.file]|))
  }

  ghost predicate DirsApart(t: Topic) {
    && (forall d :: d in t.dirs ==> t.dirs[d] < |t.files|)
    && (forall d, e :: d in t.dirs && e in t.dirs && d != e ==> t.dirs[d] != t.dirs[e])
  }

  ghost predicate Apart(t: Topic, r: Register, pairs: set<Pair>) {
    && DirsApart(t)
    && (forall p {:trigger PairOk(t, r, p)} :: p in pairs ==> PairOk(t, r, p))
    && (forall p :: p in r ==> p in pairs)
    && (forall key {:trigger key in t.subs} :: key in t.subs ==> exists p :: p in pairs && Key(p) == key)
  }

  /** What happens to one subscription and leaves the others' files, directories and entries alone. */
  ghost predicate OnlyTouches(t: Topic, t': Topic, r: Register, r': Register, p: Pair) {
    && (forall key :: key != Key(p) ==> (key in t'.subs <==> key in t.subs) && (key in t.subs ==> t'.subs[key] == t.subs[key]))
    && t'.fs == t.fs
    && (forall d :: !(Dir(t.fs, p) <= d) ==> (d in t'.dirs <==> d in t.dirs) && (d in t.dirs ==> t'.dirs[d] == t.dirs[d]))
    && |t.files| <= |t'.files|
    && (forall f :: 0 <= f < |t.files| && !(Dir(t.fs, p) in t.dirs && t.dirs[Dir(t.fs, p)] == f) ==> t'.files[f] == t.files[f])
    && (forall q :: q != p ==> (q in r' <==> q in r) && (q in r ==> r'[q] == r[q]))
  }

  lemma OneTouched(t: Topic, t': Topic, r: Register, r': Register, p: Pair, pairs: set<Pair>)
    requires Independent(t.fs, pairs) && p in pairs && Apart(t, r, pairs) && OnlyTouches(t, t', r, r', p)
    requires PairOk(t', r', p) && DirsApart(t')
    ensures Apart(t', r', pairs)
  {
    hide Key, Dir;
    forall q | q in pairs ensures PairOk(t', r', q) {
      assert PairOk(t, r, q);
      if q != p {
        assert Key(q) != Key(p) && !Nested(Dir(t.fs, p), Dir(t.fs, q));
      }
    }
    forall key | key in t'.subs ensures exists q :: q in pairs && Key(q) == key {
      if key != Key(p) {
        assert key in t.subs;
      }
    }
  }

  lemma SubscribeApart(t: Topic, r: Register, pairs: set<Pair>, e: Event)
    requires Independent(t.fs, pairs) && Apart(t, r, pairs) && e.Subscribe? && e.p in pairs && Enabled(t, e)
    ensures Apart(Step(t, e), Due(r, e), pairs)
  {
    hide Key, Dir, Apart, PairOk, OnlyTouches, DirsApart, Due, Step;
    PairOfApart(t, r, pairs, e.p);
    SubscribeOne(t, r, e);
    OneTouched(t, Step(t, e), r, Due(r, e), e.p, pairs);
  }

  lemma SubscribeOne(t: Topic, r: Register, e: Event)
    requires e.Subscribe? && PairOk(t, r, e.p) && DirsApart(t) && Enabled(t, e)
    ensures PairOk(Step(t, e), Due(r, e), e.p) && DirsApart(Step(t, e)) && OnlyTouches(t, Step(t, e), r, Due(r, e), e.p)
  {
    hide Key, Dir;
  }

  lemma StoredApart(t: Topic, r: Register, pairs: set<Pair>, p: Pair, m: Msg)
    requires Independent(t.fs, pairs) && Apart(t, r, pairs) && p in pairs && Knows(r, p)
    ensures Key(p) in t.subs && Apart(Stored(t, Key(p), m), r[p := Gain(r[p], m)], pairs)
  {
    hide Key, Dir, Apart;
    assert PairOk(t, r, p) && DirsApart(t) by {
      PairOfApart(t, r, pairs, p);
    }
    StoredOne(t, r, p, m);
    OneTouched(t, Stored(t, Key(p), m), r, r[p := Gain(r[p], m)], p, pairs);
  }

  lemma PairOfApart(t: Topic, r: Register, pairs: set<Pair>, p: Pair)
    requires Apart(t, r, pairs) && p in pairs
    ensures PairOk(t, r, p) && DirsApart(t)
  {
  }

  lemma StoredOne(t: Topic, r: Register, p: Pair, m: Msg)
    requires PairOk(t, r, p) && DirsApart(t) && Knows(r, p)
    ensures var t', r' := Stored(t, Key(p), m), r[p := Gain(r[p], m)];
      PairOk(t', r', p) && DirsApart(t') && OnlyTouches(t, t', r, r', p)
  {
    hide Key, Dir, PairOk, DirsApart, OnlyTouches, Append;
    assert Key(p) in t.subs && t.subs[Key(p)].selector == r[p].selector by {
      HeldSelector(t, r, p);
    }
    if Wants(r[p].selector, m) {
      if t.subs[Key(p)].tom.NoTom? {
        FirstRecord(t, r, p, m);
      } else {
        NextRecord(t, r, p, m);
      }
    } else {
      NotWanted(t, r, p);
    }
  }

  lemma HeldSelector(t: Topic, r: Register, p: Pair)
    requires PairOk(t, r, p) && Knows(r, p)
    ensures Key(p) in t.subs && t.subs[Key(p)].selector == r[p].selector
  {
  }

  lemma NotWanted(t: Topic, r: Register, p: Pair)
    requires PairOk(t, r, p) && DirsApart(t) && p in r
    ensures r[p := r[p]] == r && OnlyTouches(t, t, r, r, p)
  {
  }

  lemma FirstRecord(t: Topic, r: Register, p: Pair, m: Msg)
    requires PairOk(t, r, p) && DirsApart(t) && Knows(r, p) && Key(p) in t.subs && t.subs[Key(p)].tom.NoTom?
    ensures var t', r' := Append(t, Key(p), m), r[p := r[p].(slots := r[p].slots + [Slot(m, true)])];
      PairOk(t', r', p) && DirsApart(t') && OnlyTouches(t, t', r, r', p)
  {
    hide Key, Dir;
    var t' := Append(t, Key(p), m);
    var none: seq<Slot> := [];
    assert t'.files == t.files + [none + [Slot(m, true)]];
  }

  lemma NextRecord(t: Topic, r: Register, p: Pair, m: Msg)
    requires PairOk(t, r, p) && DirsApart(t) && Knows(r, p) && Key(p) in t.subs && t.subs[Key(p)].tom.Tom?
    ensures var t', r' := Append(t, Key(p), m), r[p := r[p].(slots := r[p].slots + [Slot(m, true)])];
      PairOk(t', r', p) && DirsApart(t') && OnlyTouches(t, t', r, r', p)
  {
    hide Key, Dir;
    var t', f := Append(t, Key(p), m), t.subs[Key(p)].tom.file;
    assert t'.files == t.files[f := t.files[f] + [Slot(m, true)]];
  }

  /** The register when the publication has reached the first subscriptions of the order. */
  ghost function Reached(r: Register, order: seq<string>, m: Msg): Register {
    map p | p in r :: if Key(p) in order then Gain(r[p], m) else r[p]
  }

  lemma {:induction false} PublishApart(t: Topic, r: Register, pairs: set<Pair>, order: seq<string>, m: Msg)
    requires Independent(t.fs, pairs) && Apart(t, r, pairs)
    requires (forall k :: 0 <= k < |order| ==> order[k] in t.subs) && (forall j, k :: 0 <= j < k < |order| ==> order[j] != order[k])
    ensures Apart(StoredAll(t, order, m), Reached(r, order, m), pairs)
  {
    hide Key, Dir, Apart, Independent, Gain;
    if order == [] {
      assert Reached(r, order, m) == r;
    } else {
      var init, key := order[..|order| - 1], order[|order| - 1];
      PublishApart(t, r, pairs, init, m);
      StoredAllLinks(t, init, m);
      var t1, r1 := StoredAll(t, init, m), Reached(r, init, m);
      var p := PairOfKey(t1, r1, pairs, key);
      StoredApart(t1, r1, pairs, p, m);
      assert key !in init;
      assert forall x :: x in order <==> x in init || x == key by {
        assert order == init + [key];
      }
      ReachedNext(t.fs, r, init, order, p, pairs, m);
    }
  }

  lemma PairOfKey(t: Topic, r: Register, pairs: set<Pair>, key: string) returns (p: Pair)
    requires Apart(t, r, pairs) && key in t.subs
    ensures p in pairs && Key(p) == key && Knows(r, p)
    ensures forall q :: q in r ==> q in pairs
  {
    p :| p in pairs && Key(p) == key;
    assert PairOk(t, r, p);
  }

  lemma ReachedNext(fs: Resolver, r: Register, init: seq<string>, order: seq<string>, p: Pair, pairs: set<Pair>, m: Msg)
    requires p in r && p in pairs && (forall q :: q in r ==> q in pairs) && Independent(fs, pairs) && Key(p) !in init
    requires forall x :: x in order <==> x in init || x == Key(p)
    ensures Reached(r, order, m) == Reached(r, init, m)[p := Gain(Reached(r, init, m)[p], m)]
  {
    hide Key, Dir, Gain;
    forall q | q in r
      ensures Key(q) in order <==> Key(q) in init || q == p
    {
    }
  }

  lemma UnsubscribeApart(t: Topic, r: Register, pairs: set<Pair>, p: Pair)
    requires Independent(t.fs, pairs) && Linked(t) && Apart(t, r, pairs) && p in pairs
    ensures Apart(Unsubscribed(t, Key(p)), Due(r, Unsubscribe(p)), pairs)
  {
    hide Key, Dir;
    assert PairOk(t, r, p);
    var key := Key(p);
    if key in t.subs {
      assert SubOk(t, key);
      OneTouched(t, Unsubscribed(t, key), r, r - {p}, p, pairs);
    }
  }

  lemma AckApart(t: Topic, r: Register, pairs: set<Pair>, e: Event)
    requires Independent(t.fs, pairs) && Apart(t, r, pairs) && e.Ack? && e.p in pairs && Enabled(t, e)
    ensures Apart(Step(t, e), Due(r, e), pairs)
  {
    hide Key, Dir;
    assert PairOk(t, r, e.p);
    var t', f := Step(t, e), t.subs[Key(e.p)].tom.file;
    assert t'.files == t.files[f := t.files[f][e.k := t.files[f][e.k].(live := false)]];
    assert r[e.p].slots == t.files[f];
    OneTouched(t, t', r, Due(r, e), e.p, pairs);
  }

  lemma DetachApart(t: Topic, r: Register, pairs: set<Pair>, id: ConsumerId)
    requires Linked(t) && Apart(t, r, pairs)
    ensures Apart(Detached(t, id), Due(r, Detach(id)), pairs)
  {
    hide Key, Dir, Linked;
    DetachedLinks(t, id);
    DetachedSubs(t, id);
    hide Detached;
    var t', r' := Detached(t, id), Due(r, Detach(id));
    forall p | p in pairs ensures PairOk(t', r', p) {
      assert PairOk(t, r, p);
      DetachPair(t, t', r, p, id);
    }
  }

  lemma DetachedSubs(t: Topic, id: ConsumerId)
    ensures var t' := Detached(t, id);
      && t'.fs == t.fs && t'.dirs == t.dirs && t'.files == t.files && t'.subs.Keys == t.subs.Keys
      && forall key :: key in t.subs ==> t'.subs[key] == t.subs[key].(active := t'.subs[key].active)
  {
  }

  lemma DetachPair(t: Topic, t': Topic, r: Register, p: Pair, id: ConsumerId)
    requires PairOk(t, r, p) && t'.fs == t.fs && t'.dirs == t.dirs && t'.files == t.files && t'.subs.Keys == t.subs.Keys
    requires forall key :: key in t.subs ==> t'.subs[key] == t.subs[key].(active := t'.subs[key].active)
    requires forall key :: key in t.subs ==> t'.subs[key].active == if t.subs[key].active == Some(id) then None else t.subs[key].active
    ensures PairOk(t', Due(r, Detach(id)), p)
  {
    hide Key, Dir;
  }

  lemma RestartApart(t: Topic, r: Register, pairs: set<Pair>)
    requires Apart(t, r, pairs)
    ensures Apart(Step(t, Restart), Due(r, Restart), pairs)
  {
    hide Key, Dir;
    var t', r' := Step(t, Restart), Due(r, Restart);
    forall p | p in pairs ensures PairOk(t', r', p) {
      assert PairOk(t, r, p);
    }
  }

  lemma StepApart(t: Topic, r: Register, pairs: set<Pair>, e: Event)
    requires Independent(t.fs, pairs) && Linked(t) && Apart(t, r, pairs) && Enabled(t, e) && Over([e], pairs)
    ensures Apart(Step(t, e), Due(r, e), pairs)
  {
    assert [e][0] == e;
    match e
    case Subscribe(_, _, _) => SubscribeApart(t, r, pairs, e);
    case Plain(_, _) =>
      hide Key, Dir;
      var t' := Step(t, e);
      forall p | p in pairs ensures PairOk(t', r, p) {
        assert PairOk(t, r, p);
      }
    case Detach(id) => DetachApart(t, r, pairs, id);
    case Unsubscribe(p) => UnsubscribeApart(t, r, pairs, p);
    case Publish(m, order) =>
      PublishApart(t, r, pairs, order, m);
      ReachedAll(t, r, pairs, order, m);
    case Ack(_, _) => AckApart(t, r, pairs, e);
    case Restart => RestartApart(t, r, pairs);
  }

  lemma ReachedAll(t: Topic, r: Register, pairs: set<Pair>, order: seq<string>, m: Msg)
    requires Apart(t, r, pairs) && Visits(order, t.subs.Keys)
    ensures Reached(r, order, m) == Due(r, Publish(m, order))
  {
    hide Key, Dir, Wants;
    forall p | Knows(r, p) ensures Key(p) in order {
      assert PairOk(t, r, p);
      assert Key(p) in t.subs.Keys;
    }
  }

  lemma StepFs(t: Topic, e: Event)
    requires Enabled(t, e)
    ensures Step(t, e).fs == t.fs
  {
    if e.Publish? {
      StoredAllLinks(t, e.order, e.m);
    }
  }

  lemma {:induction false} RunApart(t: Topic, r: Register, pairs: set<Pair>, history: seq<Event>)
    requires Independent(t.fs, pairs) && Linked(t) && Apart(t, r, pairs) && Feasible(t, history) && Over(history, pairs)
    ensures Apart(Exec(t, history), DueAll(r, history), pairs)
    decreases |history|
  {
    hide Independent, Linked, Apart, Due, Step, Enabled;
    if history != [] {
      assert Over([history[0]], pairs) && Over(history[1..], pairs);
      StepApart(t, r, pairs, history[0]);
      StepLinks(t, history[0]);
      StepFs(t, history[0]);
      RunApart(Step(t, history[0]), Due(r, history[0]), pairs, history[1..]);
    }
  }

  // ---- Main results ----

  /** After every history over these subscriptions, restarts included, each of them holds exactly what it is owed. */
  ghost predicate Faithful(fs: Resolver, pairs: set<Pair>) {
    forall history :: Over(history, pairs) && Feasible(EmptyTopic(fs), history) ==>
      Agrees(Exec(EmptyTopic(fs), history), DueAll(map[], history), pairs)
  }

  /**
   Subscriptions with keys of their own and directories apart hold what they are owed, online or offline, through every
   selector change and every restart.
   */
  lemma HoldsWhatIsOwed(fs: Resolver, history: seq<Event>, pairs: set<Pair>)
    requires Independent(fs, pairs) && Over(history, pairs) && Feasible(EmptyTopic(fs), history)
    ensures Agrees(Exec(EmptyTopic(fs), history), DueAll(map[], history), pairs)
  {
    RunApart(EmptyTopic(fs), map[], pairs, history);
    var t, r := Exec(EmptyTopic(fs), history), DueAll(map[], history);
    forall p | p in pairs
      ensures (Knows(r, p) <==> Key(p) in t.subs) && (Knows(r, p) ==> Holding(t, t.subs[Key(p)]) == r[p])
    {
      assert PairOk(t, r, p);
    }
  }

  const NOTE := Msg(1, true, "")

  /** The history of a collision: p gets a message and goes, then q comes. */
  function Collision(p: Pair, q: Pair): seq<Event> {
    [Subscribe(p, None, 0), Publish(NOTE, [Key(p)]), Detach(0), Subscribe(q, None, 1)]
  }

  /** The topic when p has left its message behind. */
  function LeftBehind(fs: Resolver, p: Pair): Topic {
    Topic(fs, map[Dir(fs, p) := 0], [[Slot(NOTE, true)]], map[Key(p) := Sub(Dir(fs, p), Tom(0, 1), None, None)], map[], map[])
  }

  /** One message stored for the only subscription. */
  lemma OneStored(p: Pair, t: Topic, sub: Sub)
    requires sub == Sub(Dir(t.fs, p), NoTom, Some(0), None) && t.dirs == map[] && t.files == [] && t.subs == map[Key(p) := sub]
    ensures Stored(t, Key(p), NOTE)
         == t.(dirs := map[Dir(t.fs, p) := 0], files := [[Slot(NOTE, true)]], subs := map[Key(p) := sub.(tom := Tom(0, 1))])
  {
    hide Key, Dir;
    var none: seq<Slot> := [];
    assert t.files + [none] == [none];
    assert none + [Slot(NOTE, true)] == [Slot(NOTE, true)];
    assert [none][0 := [Slot(NOTE, true)]] == [[Slot(NOTE, true)]];
    var t1 := Opened(t, Key(p));
    assert t1 == t.(dirs := map[Dir(t.fs, p) := 0], files := [none], subs := map[Key(p) := sub.(tom := Tom(0, 0))]);
    assert t1.subs[Key(p) := sub.(tom := Tom(0, 1))] == map[Key(p) := sub.(tom := Tom(0, 1))];
  }

  /** The topic while p is attached and has nothing yet. */
  function Fresh(fs: Resolver, p: Pair): Topic {
    Topic(fs, map[], [], map[Key(p) := Sub(Dir(fs, p), NoTom, Some(0), None)],
          map[0 := Consumer(None, Some(Key(p)))], map[0 := Key(p)])
  }

  lemma FirstStep(fs: Resolver, p: Pair)
    ensures Step(EmptyTopic(fs), Subscribe(p, None, 0)) == Fresh(fs, p)
  {
    hide Key, Dir;
  }

  lemma NextSteps(fs: Resolver, p: Pair)
    ensures Enabled(Fresh(fs, p), Publish(NOTE, [Key(p)]))
    ensures Step(Step(Fresh(fs, p), Publish(NOTE, [Key(p)])), Detach(0)) == LeftBehind(fs, p)
  {
    hide Key, Dir;
    OneStored(p, Fresh(fs, p), Sub(Dir(fs, p), NoTom, Some(0), None));
    assert [Key(p)][..0] == [] && StoredAll(Fresh(fs, p), [], NOTE) == Fresh(fs, p);
    assert Step(Fresh(fs, p), Publish(NOTE, [Key(p)])) == Stored(Fresh(fs, p), Key(p), NOTE);
  }

  lemma OnlyFirstOwed(p: Pair, e: Event)
    requires e.Publish? && e.m == NOTE
    ensures Due(Due(Due(map[], Subscribe(p, None, 0)), e), Detach(0)) == map[p := Owed(None, [Slot(NOTE, true)], None, true)]
  {
    hide Key, Dir;
    var none: seq<Slot> := [];
    var r1 := Due(map[], Subscribe(p, None, 0));
    assert r1 == map[p := Owed(None, none, Some(0), true)];
    var r2 := Due(r1, e);
    assert none + [Slot(NOTE, true)] == [Slot(NOTE, true)];
    assert r2 == map[p := Owed(None, [Slot(NOTE, true)], Some(0), true)];
  }

  lemma FirstThree(fs: Resolver, p: Pair)
    ensures var h := [Subscribe(p, None, 0), Publish(NOTE, [Key(p)]), Detach(0)];
      Feasible(EmptyTopic(fs), h) && Exec(EmptyTopic(fs), h) == LeftBehind(fs, p) && DueAll(map[], h) == map[p := Owed(None, [Slot(NOTE, true)], None, true)]
  {
    hide Key, Dir, Step, Due, LeftBehind, Fresh;
    var e0, e1, e2 := Subscribe(p, None, 0), Publish(NOTE, [Key(p)]), Detach(0);
    FirstStep(fs, p);
    NextSteps(fs, p);
    OnlyFirstOwed(p, e1);
    assert [] + [e0] == [e0] && [e0] + [e1] == [e0, e1] && [e0, e1] + [e2] == [e0, e1, e2];
    RunOn(EmptyTopic(fs), map[], [], e0);
    RunOn(EmptyTopic(fs), map[], [e0], e1);
    RunOn(EmptyTopic(fs), map[], [e0, e1], e2);
  }

  lemma {:induction false} RunOn(t: Topic, r: Register, history: seq<Event>, e: Event)
    requires Feasible(t, history) && Enabled(Exec(t, history), e)
    ensures Feasible(t, history + [e]) && Exec(t, history + [e]) == Step(Exec(t, history), e)
    ensures DueAll(r, history + [e]) == Due(DueAll(r, history), e)
    decreases |history|
  {
    if history == [] {
      assert history + [e] == [e] && [e][1..] == [];
    } else {
      RunOn(Step(t, history[0]), Due(r, history[0]), history[1..], e);
      assert (history + [e])[1..] == history[1..] + [e];
    }
  }

  /** Two subscriptions that share a key or a directory: the second finds the first one's message. */
  lemma CollisionDisagrees(fs: Resolver, p: Pair, q: Pair, pairs: set<Pair>)
    requires p in pairs && q in pairs && p != q && (Key(p) == Key(q) || Dir(fs, p) == Dir(fs, q))
    ensures Feasible(EmptyTopic(fs), Collision(p, q)) && Over(Collision(p, q), pairs)
    ensures !Agrees(Exec(EmptyTopic(fs), Collision(p, q)), DueAll(map[], Collision(p, q)), pairs)
  {
    var h, e := [Subscribe(p, None, 0), Publish(NOTE, [Key(p)]), Detach(0)], Subscribe(q, None, 1);
    FirstThree(fs, p);
    hide Key, Dir, Exec, Feasible, DueAll;
    RunOn(EmptyTopic(fs), map[], h, e);
    assert Collision(p, q) == h + [e];
    var t, r := LeftBehind(fs, p), DueAll(map[], h);
    var t', r' := Step(t, e), Due(r, e);
    assert r'[q].slots == [];
    assert Read(t', t'.subs[Key(q)].tom) == [Slot(NOTE, true)];
  }

  /** The history of a wipe: q gets a message and goes, p comes and goes for good, and after a restart q comes back. */
  function Wipe(p: Pair, q: Pair): seq<Event> {
    [Subscribe(q, None, 0), Publish(NOTE, [Key(q)]), Detach(0), Subscribe(p, None, 1), Unsubscribe(p), Restart, Subscribe(q, None, 2)]
  }

  /** Deleting a subscription wipes what lies in its directory: q's messages do not survive the next restart. */
  lemma NestedDisagrees(fs: Resolver, p: Pair, q: Pair, pairs: set<Pair>)
    requires p in pairs && q in pairs && Key(p) != Key(q) && Dir(fs, p) <= Dir(fs, q)
    ensures Feasible(EmptyTopic(fs), Wipe(p, q)) && Over(Wipe(p, q), pairs)
    ensures !Agrees(Exec(EmptyTopic(fs), Wipe(p, q)), DueAll(map[], Wipe(p, q)), pairs)
  {
    hide Key, Dir, Exec, Feasible, DueAll, Step, Due, Enabled, LeftBehind, Over, Wipe, Holding;
    var h3 := [Subscribe(q, None, 0), Publish(NOTE, [Key(q)]), Detach(0)];
    FirstThree(fs, q);
    WipedTopic(LeftBehind(fs, q), DueAll(map[], h3), fs, p, q);
    FourMore(EmptyTopic(fs), map[], h3, Subscribe(p, None, 1), Unsubscribe(p), Restart, Subscribe(q, None, 2));
    WipeEvents(p, q, pairs);
  }

  lemma WipeEvents(p: Pair, q: Pair, pairs: set<Pair>)
    requires p in pairs && q in pairs
    ensures Over(Wipe(p, q), pairs)
    ensures Wipe(p, q) == [Subscribe(q, None, 0), Publish(NOTE, [Key(q)]), Detach(0)]
                          + [Subscribe(p, None, 1)] + [Unsubscribe(p)] + [Restart] + [Subscribe(q, None, 2)]
  {
    hide Key;
  }

  lemma FourMore(t: Topic, r: Register, h: seq<Event>, a: Event, b: Event, c: Event, d: Event)
    requires Feasible(t, h) && Enabled(Exec(t, h), a) && Enabled(Step(Exec(t, h), a), b)
    requires Enabled(Step(Step(Exec(t, h), a), b), c) && Enabled(Step(Step(Step(Exec(t, h), a), b), c), d)
    ensures var h' := h + [a] + [b] + [c] + [d];
      && Feasible(t, h') && Exec(t, h') == Step(Step(Step(Step(Exec(t, h), a), b), c), d)
      && DueAll(r, h') == Due(Due(Due(Due(DueAll(r, h), a), b), c), d)
  {
    hide Exec, Feasible, DueAll, Step, Due, Enabled;
    RunOn(t, r, h, a);
    RunOn(t, r, h + [a], b);
    RunOn(t, r, h + [a] + [b], c);
    RunOn(t, r, h + [a] + [b] + [c], d);
  }

  lemma WipedTopic(t3: Topic, r3: Register, fs: Resolver, p: Pair, q: Pair)
    requires t3 == LeftBehind(fs, q) && r3 == map[q := Owed(None, [Slot(NOTE, true)], None, true)]
    requires p != q && Key(p) != Key(q) && Dir(fs, p) <= Dir(fs, q)
    ensures Enabled(t3, Subscribe(p, None, 1))
    ensures var t4, r4 := Step(t3, Subscribe(p, None, 1)), Due(r3, Subscribe(p, None, 1));
      && Enabled(t4, Unsubscribe(p))
      && var t5, r5 := Step(t4, Unsubscribe(p)), Due(r4, Unsubscribe(p));
      && Enabled(t5, Restart)
      && var t6, r6 := Step(t5, Restart), Due(r5, Restart);
      && Enabled(t6, Subscribe(q, None, 2))
      && var t7, r7 := Step(t6, Subscribe(q, None, 2)), Due(r6, Subscribe(q, None, 2));
      && Knows(r7, q) && r7[q].slots == [Slot(NOTE, true)] && Key(q) in t7.subs && Holding(t7, t7.subs[Key(q)]).slots == []
  {
    hide Key, Dir;
    WipeSteps(t3, fs, p, q);
    WipeDue(r3, p, q);
    hide LeftBehind, Holding;
    var t4 := Step(t3, Subscribe(p, None, 1));
    hide Step, Due;
    assert Enabled(t4, Unsubscribe(p));
  }

  lemma WipeDue(r3: Register, p: Pair, q: Pair)
    requires r3 == map[q := Owed(None, [Slot(NOTE, true)], None, true)] && p != q
    ensures var r7 := Due(Due(Due(Due(r3, Subscribe(p, None, 1)), Unsubscribe(p)), Restart), Subscribe(q, None, 2));
      Knows(r7, q) && r7[q].slots == [Slot(NOTE, true)]
  {
  }

  lemma WipeSteps(t3: Topic, fs: Resolver, p: Pair, q: Pair)
    requires t3 == LeftBehind(fs, q) && p != q && Key(p) != Key(q) && Dir(fs, p) <= Dir(fs, q)
    ensures Enabled(t3, Subscribe(p, None, 1))
    ensures var t6 := Step(Step(Step(t3, Subscribe(p, None, 1)), Unsubscribe(p)), Restart);
      && Enabled(t6, Subscribe(q, None, 2))
      && var t7 := Step(t6, Subscribe(q, None, 2));
      && Key(q) in t7.subs && Holding(t7, t7.subs[Key(q)]).slots == []
  {
    hide Key, Dir;
    var t4 := Step(t3, Subscribe(p, None, 1));
    assert t4.dirs == t3.dirs && t4.subs[Key(p)].dir == Dir(fs, p) && t4.subs[Key(p)].active == Some(1);
    var t5 := Step(t4, Unsubscribe(p));
    assert t5.dirs == map[] && t5.fs == fs;
  }

  /**
   Subscriptions hold what they are owed after every history if and only if no two of them share a key and none has its
   directory in another's.
   */
  lemma FaithfulExactly(fs: Resolver, pairs: set<Pair>)
    ensures Faithful(fs, pairs) <==> Independent(fs, pairs)
  {
    if Independent(fs, pairs) {
      forall history | Over(history, pairs) && Feasible(EmptyTopic(fs), history)
        ensures Agrees(Exec(EmptyTopic(fs), history), DueAll(map[], history), pairs)
      {
        HoldsWhatIsOwed(fs, history, pairs);
      }
    } else {
      var p, q :| p in pairs && q in pairs && p != q && (Key(p) == Key(q) || Nested(Dir(fs, p), Dir(fs, q)));
      if Key(p) == Key(q) {
        CollisionDisagrees(fs, p, q, pairs);
      } else if Dir(fs, p) <= Dir(fs, q) {
        NestedDisagrees(fs, p, q, pairs);
      } else {
        NestedDisagrees(fs, q, p, pairs);
      }
    }
  }

  /** In terms of names without path separators: exactly if no two of them meet at the unit separator or at a hyphen. */
  lemma FaithfulByName(fs: Resolver, pairs: set<Pair>)
    requires Literal(fs) && forall p :: p in pairs ==> PlainName(p)
    ensures Faithful(fs, pairs) <==>
      forall p, q :: p in pairs && q in pairs && p != q ==> !Meet(p, q, KEY_SEPARATOR) && !Meet(p, q, DIR_SEPARATOR)
  {
    FaithfulExactly(fs, pairs);
    hide Faithful, Literal;
    forall p, q | p in pairs && q in pairs && p != q
      ensures Key(p) == Key(q) <==> Meet(p, q, KEY_SEPARATOR)
      ensures Nested(Dir(fs, p), Dir(fs, q)) <==> Meet(p, q, DIR_SEPARATOR)
    {
      KeysExactly(p, q);
      DirsExactly(fs, p, q);
    }
  }

  /** Two names that meet nowhere and still are not faithful: one subscription's directory lies in the other's. */
  lemma PathsInNames()
    ensures var p, q := Pair("", "a"), Pair("", "a/b");
      && !Meet(p, q, KEY_SEPARATOR) && !Meet(p, q, DIR_SEPARATOR) && !Faithful(Components, {p, q})
  {
    var p, q := Pair("", "a"), Pair("", "a/b");
    hide Components, Faithful, Independent, Dir;
    NamesApart();
    DirsCanNest("a", "b");
    assert q.name == "a" + [PATH_SEPARATOR] + "b";
    assert Nested(Dir(Components, p), Dir(Components, q));
    NestedDependent(Components, p, q);
    FaithfulExactly(Components, {p, q});
  }

  lemma NestedDependent(fs: Resolver, p: Pair, q: Pair)
    requires p != q && Nested(Dir(fs, p), Dir(fs, q))
    ensures !Independent(fs, {p, q})
  {
    hide Key, Dir;
  }

  lemma NamesApart()
    ensures var p, q := Pair("", "a"), Pair("", "a/b"); p != q && !Meet(p, q, KEY_SEPARATOR) && !Meet(p, q, DIR_SEPARATOR)
  {
    assert |"a"| != |"a/b"|;
  }

  // ---- What the selector lets through ----

  /** A subscription gains a message exactly if it is known, the message persistent, and the selector, if any, says yes. */
  lemma GainsExactly(o: Owed, m: Msg)
    ensures o.known && m.persistent && (o.selector.Some? ==> o.selector.value(m)) ==> Gain(o, m) == o.(slots := o.slots + [Slot(m, true)])
    ensures !(o.known && m.persistent && (o.selector.Some? ==> o.selector.value(m))) ==> Gain(o, m) == o
  {
  }

  /** And its storage is written under the same condition. */
  lemma StoresExactly(t: Topic, key: string, m: Msg)
    requires key in t.subs
    ensures var sel := t.subs[key].selector;
      Stored(t, key, m) == if m.persistent && (sel.Some? ==> sel.value(m)) then Append(t, key, m) else t
  {
  }

  function IdsOf(slots: seq<Slot>): seq<nat> {
    seq(|slots|, k requires 0 <= k < |slots| => slots[k].msg.id)
  }

  /** The ids of the persistent messages that satisfy f, in order. */
  function Selected(f: Msg -> bool, ms: seq<Msg>): seq<nat> {
    if ms == [] then []
    else (if ms[0].persistent && f(ms[0]) then [ms[0].id] else []) + Selected(f, ms[1..])
  }

  /** The selector as a condition; without one everything satisfies it. */
  function ConditionOf(sel: Selector): Msg -> bool {
    if sel.Some? then sel.value else (_: Msg) => true
  }

  lemma {:induction false} OwedSelected(o: Owed, ms: seq<Msg>)
    requires o.known
    ensures IdsOf(GainAll(o, ms).slots) == IdsOf(o.slots) + Selected(ConditionOf(o.selector), ms)
    ensures GainAll(o, ms).selector == o.selector && GainAll(o, ms).known
  {
    if ms == [] {
      assert IdsOf(o.slots) + [] == IdsOf(o.slots);
    } else {
      var init, last, f := ms[..|ms| - 1], ms[|ms| - 1], ConditionOf(o.selector);
      OwedSelected(o, init);
      SelectedSnoc(f, init, last);
      assert ms == init + [last];
      var before := GainAll(o, init);
      GainsExactly(before, last);
      IdsSnoc(before.slots, Slot(last, true));
      assert IdsOf(o.slots) + (Selected(f, init) + [last.id]) == IdsOf(o.slots) + Selected(f, init) + [last.id];
    }
  }

  lemma IdsSnoc(slots: seq<Slot>, s: Slot)
    ensures IdsOf(slots + [s]) == IdsOf(slots) + [s.msg.id]
  {
  }

  lemma {:induction false} SelectedSnoc(f: Msg -> bool, ms: seq<Msg>, m: Msg)
    ensures Selected(f, ms + [m]) == Selected(f, ms) + if m.persistent && f(m) then [m.id] else []
  {
    if ms == [] {
      assert ms + [m] == [m] && [m][1..] == [];
    } else {
      SelectedSnoc(f, ms[1..], m);
      assert (ms + [m])[1..] == ms[1..] + [m];
    }
  }

  predicate OnlyPublishes(events: seq<Event>) {
    forall k :: 0 <= k < |events| ==> events[k].Publish?
  }

  function Messages(events: seq<Event>): seq<Msg>
    requires OnlyPublishes(events)
  {
    if events == [] then [] else [events[0].m] + Messages(events[1..])
  }

  lemma {:induction false} GainAllFirst(o: Owed, m: Msg, ms: seq<Msg>)
    ensures GainAll(o, [m] + ms) == GainAll(Gain(o, m), ms)
  {
    hide Gain;
    var all := [m] + ms;
    if ms == [] {
      assert all[..0] == [] && all == [m];
    } else {
      GainAllFirst(o, m, ms[..|ms| - 1]);
      assert all[..|all| - 1] == [m] + ms[..|ms| - 1];
    }
  }

  lemma {:induction false} DueOfPublishes(r: Register, events: seq<Event>, p: Pair)
    requires OnlyPublishes(events) && p in r
    ensures p in DueAll(r, events) && DueAll(r, events)[p] == GainAll(r[p], Messages(events))
    decreases |events|
  {
    hide Gain;
    if events != [] {
      DueOfPublishes(Due(r, events[0]), events[1..], p);
      GainAllFirst(r[p], events[0].m, Messages(events[1..]));
    }
  }

  lemma {:induction false} DueJoin(r: Register, a: seq<Event>, b: seq<Event>)
    ensures DueAll(r, a + b) == DueAll(DueAll(r, a), b)
    decreases |a|
  {
    if a == [] {
      assert a + b == b;
    } else {
      DueJoin(Due(r, a[0]), a[1..], b);
      assert (a + b)[1..] == a[1..] + b;
    }
  }

  /**
   After any history, whatever is published while a known subscription keeps its selector: its storage holds what it held
   and the persistent messages that the selector accepts, in the order of publication, and nothing else.
   */
  lemma HoldsWhatIsSelected(fs: Resolver, history: seq<Event>, events: seq<Event>, pairs: set<Pair>, p: Pair)
    requires Independent(fs, pairs) && p in pairs && Over(history + events, pairs) && Feasible(EmptyTopic(fs), history + events)
    requires OnlyPublishes(events) && Knows(DueAll(map[], history), p)
    ensures var t, o := Exec(EmptyTopic(fs), history + events), DueAll(map[], history)[p];
      && Key(p) in t.subs
      && IdsOf(Read(t, t.subs[Key(p)].tom)) == IdsOf(o.slots) + Selected(ConditionOf(o.selector), Messages(events))
  {
    HoldsWhatIsOwed(fs, history + events, pairs);
    DueJoin(map[], history, events);
    var r := DueAll(map[], history);
    DueOfPublishes(r, events, p);
    OwedSelected(r[p], Messages(events));
    hide Exec, Feasible, DueAll, Key, Over, GainAll, Independent, OnlyPublishes;
    assert Knows(DueAll(map[], history + events), p);
  }

  /** What a subscription is owed changes only by publications and acknowledgements, until it is deleted. */
  lemma OwedStays(r: Register, e: Event, p: Pair)
    requires p in r && !e.Publish? && !e.Ack? && e != Unsubscribe(p)
    ensures p in Due(r, e) && Due(r, e)[p].slots == r[p].slots
    ensures Due(r, e)[p].selector == if e.Subscribe? && e.p == p && r[p].active.None? then e.selector else r[p].selector
  {
  }

  /** From a restart to its next consumer a subscription is unknown: it gains nothing, and deleting it changes nothing. */
  lemma UnknownUntilNextConsumer(t: Topic, p: Pair, m: Msg, order: seq<string>)
    requires Enabled(Step(t, Restart), Publish(m, order))
    ensures Step(Step(t, Restart), Publish(m, order)) == Step(t, Restart)
    ensures Step(Step(t, Restart), Unsubscribe(p)) == Step(t, Restart)
  {
    hide Key, Dir;
    VisitsSomething(order, Step(t, Restart).subs.Keys);
  }

  lemma VisitsSomething(order: seq<string>, keys: set<string>)
    requires Visits(order, keys)
    ensures order != [] ==> keys != {}
  {
    if order != [] {
      assert order[0] in keys;
    }
  }

  /** While a selector is in force and nothing is acknowledged, a known subscription is owed the matching persistent messages in order. */
  function Matching(sel: Selector, ms: seq<Msg>): seq<Slot> {
    if ms == [] then []
    else
      var before, m := Matching(sel, ms[..|ms| - 1]), ms[|ms| - 1];
      if Wants(sel, m) then before + [Slot(m, true)] else before
  }

  function GainAll(o: Owed, ms: seq<Msg>): Owed {
    if ms == [] then o else Gain(GainAll(o, ms[..|ms| - 1]), ms[|ms| - 1])
  }

  lemma {:induction false} OwedIsMatching(o: Owed, ms: seq<Msg>)
    ensures GainAll(o, ms) == if o.known then o.(slots := o.slots + Matching(o.selector, ms)) else o
  {
    if ms != [] {
      OwedIsMatching(o, ms[..|ms| - 1]);
    }
  }
}
