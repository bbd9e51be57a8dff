/** Re-bracketing concatenations. */
module Seqs {
  lemma Cons<T>(x: seq<T>, a: seq<T>, p: seq<T>, b: seq<T>)
    ensures x + (a + p + b) == x + a + p + b
  {
  }

  lemma Assoc<T>(a: seq<T>, b: seq<T>, c: seq<T>)
    ensures a + (b + c) == a + b + c
  {
  }

  lemma Regroup<T>(a: seq<T>, b: seq<T>, k: seq<T>, c: seq<T>, d: seq<T>)
    ensures a + (b + (k + c + d)) == a + b + k + (c + d)
    ensures a + (b + k + c) + d == a + b + k + c + d
  {
  }

  /** A sequence is its first element and the rest. */
  lemma Uncons<T>(s: seq<T>)
    requires s != []
    ensures s == [s[0]] + s[1..]
  {
  }

  /** Moving the last piece of a nested chain out. */
  lemma Chain2<T>(a: seq<T>, b: seq<T>, c: seq<T>)
    ensures a + (b + c) == (a + b) + c
  {
  }

  lemma Chain3<T>(a: seq<T>, b: seq<T>, c: seq<T>, d: seq<T>)
    ensures a + (b + (c + d)) == (a + (b + c)) + d
  {
  }

  lemma Chain4<T>(a: seq<T>, b: seq<T>, c: seq<T>, d: seq<T>, e: seq<T>)
    ensures a + (b + (c + (d + e))) == (a + (b + (c + d))) + e
  {
  }
}
