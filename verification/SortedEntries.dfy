/** Strictly sorted sequences of entries, the specification of an ordered map. */
module SortedEntries {
  import opened Options
  import opened Seqs
  import Bytes

  type Key = Bytes.Uuid
  datatype Entry<V> = Entry(key: Key, value: V)

  ghost predicate Sorted<V>(s: seq<Entry<V>>) {
    forall i, j :: 0 <= i < j < |s| ==> s[i].key < s[j].key
  }

  ghost predicate Below<V>(s: seq<Entry<V>>, k: Key) {
    forall i :: 0 <= i < |s| ==> s[i].key < k
  }

  ghost predicate Above<V>(s: seq<Entry<V>>, k: Key) {
    forall i :: 0 <= i < |s| ==> k < s[i].key
  }

  /** The entry for k is set to v, where it belongs. */
  function Put<V>(s: seq<Entry<V>>, k: Key, v: V): seq<Entry<V>> {
    if s == [] then [Entry(k, v)]
    else if s[0].key < k then [s[0]] + Put(s[1..], k, v)
    else if s[0].key == k then [Entry(k, v)] + s[1..]
    else [Entry(k, v)] + s
  }

  function Remove<V>(s: seq<Entry<V>>, k: Key): seq<Entry<V>> {
    if s == [] then []
    else if s[0].key == k then s[1..]
    else [s[0]] + Remove(s[1..], k)
  }

  function Lookup<V>(s: seq<Entry<V>>, k: Key): Option<V> {
    if s == [] then None
    else if s[0].key == k then Some(s[0].value)
    else Lookup(s[1..], k)
  }

  /** The finite map a sequence of entries stands for. */
  ghost function AsMap<V>(s: seq<Entry<V>>): map<Key, V> {
    if s == [] then map[] else AsMap(s[1..])[s[0].key := s[0].value]
  }

  lemma {:induction false} AsMapKeys<V>(s: seq<Entry<V>>, k: Key)
    ensures k in AsMap(s) <==> exists i :: 0 <= i < |s| && s[i].key == k
  {
    if s != [] {
      AsMapKeys(s[1..], k);
      if k in AsMap(s[1..]) {
        var i :| 0 <= i < |s[1..]| && s[1..][i].key == k;
        assert s[i + 1].key == k;
      }
      if exists i :: 0 <= i < |s| && s[i].key == k {
        var i :| 0 <= i < |s| && s[i].key == k;
        assert i > 0 ==> s[1..][i - 1].key == k;
      }
    }
  }

  lemma {:induction false} PutIsUpdate<V>(s: seq<Entry<V>>, k: Key, v: V)
    requires Sorted(s)
    ensures AsMap(Put(s, k, v)) == AsMap(s)[k := v]
    ensures Sorted(Put(s, k, v))
    ensures forall b: Key :: b < k && Above(s, b) ==> Above(Put(s, k, v), b)
  {
    if s != [] {
      if s[0].key < k {
        PutIsUpdate(s[1..], k, v);
        assert Above(s[1..], s[0].key);
        assert Put(s, k, v)[1..] == Put(s[1..], k, v);
      } else if s[0].key == k {
        assert Put(s, k, v)[1..] == s[1..];
      } else {
        assert Put(s, k, v)[1..] == s;
      }
    }
  }

  lemma {:induction false} RemoveIsDelete<V>(s: seq<Entry<V>>, k: Key)
    requires Sorted(s)
    ensures AsMap(Remove(s, k)) == AsMap(s) - {k}
    ensures Sorted(Remove(s, k))
    ensures forall b :: Above(s, b) ==> Above(Remove(s, k), b)
  {
    if s != [] {
      if s[0].key == k {
        AsMapKeys(s[1..], k);
      } else {
        RemoveIsDelete(s[1..], k);
        assert Above(s[1..], s[0].key);
        assert Remove(s, k)[1..] == Remove(s[1..], k);
      }
    }
  }

  lemma {:induction false} LookupIsGet<V>(s: seq<Entry<V>>, k: Key)
    ensures Lookup(s, k) == if k in AsMap(s) then Some(AsMap(s)[k]) else None
  {
    if s != [] {
      LookupIsGet(s[1..], k);
    }
  }

  // ---- Only the middle part matters ----

  lemma {:induction false} PutMiddle<V>(a: seq<Entry<V>>, m: seq<Entry<V>>, b: seq<Entry<V>>, k: Key, v: V)
    requires Below(a, k) && Above(b, k)
    ensures Put(a + m + b, k, v) == a + Put(m, k, v) + b
  {
    if a == [] {
      PutFront(m, b, k, v);
      assert a + m + b == m + b && a + Put(m, k, v) + b == Put(m, k, v) + b;
    } else {
      Uncons(a);
      Cons([a[0]], a[1..], m, b);
      assert (a + m + b)[1..] == a[1..] + m + b;
      PutMiddle(a[1..], m, b, k, v);
      Cons([a[0]], a[1..], Put(m, k, v), b);
    }
  }

  lemma {:induction false} PutFront<V>(m: seq<Entry<V>>, b: seq<Entry<V>>, k: Key, v: V)
    requires Above(b, k)
    ensures Put(m + b, k, v) == Put(m, k, v) + b
  {
    if m == [] {
      assert m + b == b;
    } else {
      assert (m + b)[1..] == m[1..] + b;
      PutFront(m[1..], b, k, v);
      Assoc([m[0]], Put(m[1..], k, v), b);
      Assoc([Entry(k, v)], m[1..], b);
      Assoc([Entry(k, v)], m, b);
    }
  }

  lemma {:induction false} RemoveMiddle<V>(a: seq<Entry<V>>, m: seq<Entry<V>>, b: seq<Entry<V>>, k: Key)
    requires Below(a, k) && Above(b, k)
    ensures Remove(a + m + b, k) == a + Remove(m, k) + b
    ensures Lookup(a + m + b, k) == Lookup(m, k)
  {
    if a == [] {
      RemoveFront(m, b, k);
      assert a + m + b == m + b && a + Remove(m, k) + b == Remove(m, k) + b;
    } else {
      Uncons(a);
      Cons([a[0]], a[1..], m, b);
      assert (a + m + b)[1..] == a[1..] + m + b;
      RemoveMiddle(a[1..], m, b, k);
      Cons([a[0]], a[1..], Remove(m, k), b);
    }
  }

  lemma {:induction false} RemoveFront<V>(m: seq<Entry<V>>, b: seq<Entry<V>>, k: Key)
    requires Above(b, k)
    ensures Remove(m + b, k) == Remove(m, k) + b
    ensures Lookup(m + b, k) == Lookup(m, k)
  {
    if m == [] {
      assert m + b == b;
      RemoveAbsent(b, k);
    } else {
      assert (m + b)[1..] == m[1..] + b;
      RemoveFront(m[1..], b, k);
      Assoc([m[0]], Remove(m[1..], k), b);
    }
  }

  lemma {:induction false} RemoveAbsent<V>(s: seq<Entry<V>>, k: Key)
    requires forall i :: 0 <= i < |s| ==> s[i].key != k
    ensures Remove(s, k) == s && Lookup(s, k) == None
  {
    if s != [] {
      RemoveAbsent(s[1..], k);
    }
  }
}
