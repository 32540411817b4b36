/** Sums of a measure over a sequence. */
module Sums {
  /** The sum of `f` over the elements of `s`. */
  function SumOf<T>(f: T -> int, s: seq<T>): int {
    if s == [] then 0 else f(s[0]) + SumOf(f, s[1..])
  }

  lemma {:induction false} SumOfConcat<T>(f: T -> int, a: seq<T>, b: seq<T>)
    ensures SumOf(f, a + b) == SumOf(f, a) + SumOf(f, b)
  {
    if a == [] {
      assert a + b == b;
    } else {
      SumOfConcat(f, a[1..], b);
      assert (a + b)[1..] == a[1..] + b;
    }
  }

  lemma {:induction false} SumOfLast<T>(f: T -> int, a: seq<T>, x: T)
    ensures SumOf(f, a + [x]) == SumOf(f, a) + f(x)
  {
    SumOfConcat(f, a, [x]);
    assert SumOf(f, [x]) == f(x) + SumOf(f, []);
  }

  /** Pointwise comparison of two measures over two sequences of one length. */
  lemma {:induction false} SumOfLe<T, U>(f: T -> int, a: seq<T>, g: U -> int, b: seq<U>)
    requires |a| == |b|
    requires forall i :: 0 <= i < |a| ==> f(a[i]) <= g(b[i])
    ensures SumOf(f, a) <= SumOf(g, b)
  {
    if a != [] {
      SumOfLe(f, a[1..], g, b[1..]);
    }
  }

  lemma {:induction false} SumOfSame<T, U>(f: T -> int, a: seq<T>, g: U -> int, b: seq<U>)
    requires |a| == |b|
    requires forall i :: 0 <= i < |a| ==> f(a[i]) == g(b[i])
    ensures SumOf(f, a) == SumOf(g, b)
  {
    SumOfLe(f, a, g, b);
    SumOfLe(g, b, f, a);
  }

  lemma {:induction false} SumOfZero<T>(f: T -> int, s: seq<T>)
    requires forall i :: 0 <= i < |s| ==> f(s[i]) == 0
    ensures SumOf(f, s) == 0
  {
    if s != [] {
      SumOfZero(f, s[1..]);
    }
  }

  /** A measure that is the sum of two others, element by element. */
  lemma {:induction false} SumOfSplit<T>(f: T -> int, g: T -> int, h: T -> int, s: seq<T>)
    requires forall i :: 0 <= i < |s| ==> f(s[i]) == g(s[i]) + h(s[i])
    ensures SumOf(f, s) == SumOf(g, s) + SumOf(h, s)
  {
    if s != [] {
      SumOfSplit(f, g, h, s[1..]);
    }
  }

  lemma {:induction false} SumOfPositive<T>(f: T -> int, s: seq<T>) returns (i: nat)
    requires SumOf(f, s) > 0
    ensures i < |s| && f(s[i]) > 0
  {
    if f(s[0]) > 0 {
      i := 0;
    } else {
      var j := SumOfPositive(f, s[1..]);
      i := j + 1;
    }
  }

  /** A measure that is 1 at the indexes in `marked` and 0 elsewhere sums to their number. */
  lemma {:induction false} SumOfMarks<T>(f: T -> int, s: seq<T>, marked: set<int>)
    requires forall i <- marked :: 0 <= i < |s|
    requires forall i :: 0 <= i < |s| ==> f(s[i]) == if i in marked then 1 else 0
    ensures SumOf(f, s) == |marked|
  {
    if s == [] {
      assert forall i :: i !in marked;
      assert |marked| == 0;
    } else {
      var n := |s| - 1;
      var rest := marked - {n};
      assert marked == if n in marked then rest + {n} else rest;
      SumOfMarks(f, s[..n], rest);
      SumOfLast(f, s[..n], s[n]);
      assert s[..n] + [s[n]] == s;
    }
  }
}
