/** Sums over lists and sizes of sets of numbers, shared by the models. */
module Counting {

  function Sum<T>(s: seq<T>, f: T -> int): int {
    if s == [] then 0 else f(s[0]) + Sum(s[1..], f)
  }

  lemma {:induction false} SumUpdate<T>(s: seq<T>, f: T -> int, i: nat, x: T)
    requires i < |s|
    ensures Sum(s[i := x], f) == Sum(s, f) - f(s[i]) + f(x)
  {
    if i == 0 {
      assert s[i := x][1..] == s[1..];
    } else {
      assert s[i := x][1..] == s[1..][i - 1 := x];
      SumUpdate(s[1..], f, i - 1, x);
    }
  }

  lemma {:induction false} SumOfTwo<T>(a: seq<T>, b: seq<T>, f: T -> int)
    ensures Sum(a + b, f) == Sum(a, f) + Sum(b, f)
  {
    if a == [] {
      assert a + b == b;
    } else {
      assert (a + b)[1..] == a[1..] + b;
      SumOfTwo(a[1..], b, f);
    }
  }

  lemma {:induction false} SumUniform<T>(s: seq<T>, f: T -> int, c: int)
    requires forall i :: 0 <= i < |s| ==> f(s[i]) == c
    ensures Sum(s, f) == |s| * c
  {
    if s != [] {
      SumUniform(s[1..], f, c);
    }
  }

  lemma {:induction false} SumNonNegative<T>(s: seq<T>, f: T -> int)
    requires forall i :: 0 <= i < |s| ==> f(s[i]) >= 0
    ensures Sum(s, f) >= 0
    ensures Sum(s, f) == 0 <==> forall i :: 0 <= i < |s| ==> f(s[i]) == 0
  {
    if s != [] {
      SumNonNegative(s[1..], f);
    }
  }

  lemma {:induction false} SumAtMostLength<T>(s: seq<T>, f: T -> int)
    requires forall i :: 0 <= i < |s| ==> f(s[i]) <= 1
    ensures Sum(s, f) <= |s|
  {
    if s != [] {
      SumAtMostLength(s[1..], f);
    }
  }

  /** Numbers below n; all of them, if there are n. */
  lemma {:induction false} BoundedSize(n: nat, e: set<nat>)
    requires forall x :: x in e ==> x < n
    ensures |e| <= n
    ensures |e| == n ==> forall x: nat :: x < n ==> x in e
    ensures (forall x: nat :: x < n ==> x in e) ==> |e| == n
  {
    if n == 0 {
      assert e == {};
    } else {
      var rest := e - {n - 1};
      BoundedSize(n - 1, rest);
      if n - 1 in e {
        assert |rest| == |e| - 1;
        forall x: nat | |e| == n && x < n
          ensures x in e
        {
          assert x < n - 1 ==> x in rest;
        }
        assert (forall x: nat :: x < n ==> x in e) ==> forall x: nat :: x < n - 1 ==> x in rest;
      } else {
        assert rest == e;
      }
    }
  }
}
