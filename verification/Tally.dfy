/** Sums over the threads of a protocol: how many threads are in a given situation. */
module Tally {

  /** The sum of f over s. */
  function Total<T>(s: seq<T>, f: T -> nat): nat {
    if s == [] then 0 else Total(s[..|s| - 1], f) + f(s[|s| - 1])
  }

  /** One thread moves: the sum changes by exactly the difference of its two weights. */
  lemma {:induction false} TotalUpdate<T>(s: seq<T>, i: nat, v: T, f: T -> nat)
    requires i < |s|
    ensures Total(s[i := v], f) + f(s[i]) == Total(s, f) + f(v)
  {
    var u := s[i := v];
    if i == |s| - 1 {
      assert u[..|u| - 1] == s[..|s| - 1];
    } else {
      assert u[..|u| - 1] == s[..|s| - 1][i := v];
      TotalUpdate(s[..|s| - 1], i, v, f);
    }
  }

  lemma {:induction false} TotalFirst<T>(s: seq<T>, f: T -> nat)
    requires s != []
    ensures Total(s, f) == f(s[0]) + Total(s[1..], f)
  {
    if |s| > 1 {
      TotalFirst(s[..|s| - 1], f);
      assert s[..|s| - 1][1..] == s[1..][..|s| - 2];
    }
  }

  /** No thread weighs more than all of them. */
  lemma {:induction false} TotalAtLeast<T>(s: seq<T>, i: nat, f: T -> nat)
    requires i < |s|
    ensures f(s[i]) <= Total(s, f)
  {
    if i < |s| - 1 {
      TotalAtLeast(s[..|s| - 1], i, f);
    }
  }

  /** Two distinct threads together weigh no more than all of them. */
  lemma {:induction false} TotalAtLeastTwo<T>(s: seq<T>, i: nat, j: nat, f: T -> nat)
    requires i < j < |s|
    ensures f(s[i]) + f(s[j]) <= Total(s, f)
  {
    if j == |s| - 1 {
      TotalAtLeast(s[..j], i, f);
    } else {
      TotalAtLeastTwo(s[..|s| - 1], i, j, f);
    }
  }

  /** When each element weighs at most one, the sum is at most the number of elements. */
  lemma {:induction false} TotalBound<T>(s: seq<T>, f: T -> nat)
    requires forall i :: 0 <= i < |s| ==> f(s[i]) <= 1
    ensures Total(s, f) <= |s|
  {
    if s != [] {
      TotalBound(s[..|s| - 1], f);
    }
  }

  /** A pointwise smaller weight has a smaller sum. */
  lemma {:induction false} TotalMonotone<T>(s: seq<T>, f: T -> nat, g: T -> nat)
    requires forall i :: 0 <= i < |s| ==> f(s[i]) <= g(s[i])
    ensures Total(s, f) <= Total(s, g)
  {
    if s != [] {
      TotalMonotone(s[..|s| - 1], f, g);
    }
  }

  /** If nobody weighs anything, the sum is zero. */
  lemma {:induction false} TotalZero<T>(s: seq<T>, f: T -> nat)
    requires forall i :: 0 <= i < |s| ==> f(s[i]) == 0
    ensures Total(s, f) == 0
  {
    if s != [] {
      TotalZero(s[..|s| - 1], f);
    }
  }

  /** A positive sum has a witness. */
  lemma {:induction false} TotalWitness<T>(s: seq<T>, f: T -> nat) returns (i: nat)
    requires Total(s, f) > 0
    ensures i < |s| && f(s[i]) > 0
  {
    if f(s[|s| - 1]) > 0 {
      i := |s| - 1;
    } else {
      i := TotalWitness(s[..|s| - 1], f);
    }
  }
}
