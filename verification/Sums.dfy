/** Sums of an integer weight over a sequence, and how they move under the two
    updates every ledger of this project undergoes: an append and a write in place. */
module Sums {

  function Sum<T>(s: seq<T>, w: T -> int): int
  {
    if s == [] then 0 else Sum(s[..|s| - 1], w) + w(s[|s| - 1])
  }

  lemma SumAppend<T>(s: seq<T>, x: T, w: T -> int)
    ensures Sum(s + [x], w) == Sum(s, w) + w(x)
  {
    assert (s + [x])[..|s|] == s;
  }

  lemma {:induction false} SumUpdate<T>(s: seq<T>, i: nat, x: T, w: T -> int)
    requires i < |s|
    ensures Sum(s[i := x], w) == Sum(s, w) - w(s[i]) + w(x)
  {
    var k := |s| - 1;
    if i == k {
      assert s[i := x][..k] == s[..k];
    } else {
      assert s[i := x][..k] == s[..k][i := x];
      SumUpdate(s[..k], i, x, w);
    }
  }

  lemma {:induction false} SumConcat<T>(a: seq<T>, b: seq<T>, w: T -> int)
    ensures Sum(a + b, w) == Sum(a, w) + Sum(b, w)
  {
    if b == [] {
      assert a + b == a;
    } else {
      var k := |b| - 1;
      assert (a + b)[..|a| + k] == a + b[..k];
      SumConcat(a, b[..k], w);
    }
  }

  lemma {:induction false} SumLe<T>(s: seq<T>, v: T -> int, w: T -> int)
    requires forall i :: 0 <= i < |s| ==> v(s[i]) <= w(s[i])
    ensures Sum(s, v) <= Sum(s, w)
  {
    if s == [] {
    } else {
      var k := |s| - 1;
      forall i | 0 <= i < k ensures v(s[..k][i]) <= w(s[..k][i]) {
        assert s[..k][i] == s[i];
      }
      SumLe(s[..k], v, w);
    }
  }

  lemma {:induction false} SumZero<T>(s: seq<T>, w: T -> int)
    requires forall i :: 0 <= i < |s| ==> w(s[i]) == 0
    ensures Sum(s, w) == 0
  {
    if s == [] {
    } else {
      var k := |s| - 1;
      forall i | 0 <= i < k ensures w(s[..k][i]) == 0 {
        assert s[..k][i] == s[i];
      }
      SumZero(s[..k], w);
    }
  }

  /** Linear combinations of weights, for bounds of the form a <= b + k * c. */
  function Plus<T>(v: T -> int, k: int, w: T -> int): T -> int
  {
    x => v(x) + k * w(x)
  }

  lemma {:induction false} SumPlus<T>(s: seq<T>, v: T -> int, k: int, w: T -> int)
    ensures Sum(s, Plus(v, k, w)) == Sum(s, v) + k * Sum(s, w)
  {
    if s == [] {
    } else {
      SumPlus(s[..|s| - 1], v, k, w);
    }
  }

  lemma SumMiddle<T>(x: seq<T>, v: T, y: seq<T>, w: T -> int)
    ensures Sum(x + [v] + y, w) == Sum(x + y, w) + w(v)
  {
    SumConcat(x + [v], y, w);
    SumAppend(x, v, w);
    SumConcat(x, y, w);
  }

  lemma Locate<T>(s: seq<T>, v: T) returns (x: seq<T>, y: seq<T>)
    requires v in multiset(s)
    ensures s == x + [v] + y
  {
    var i :| 0 <= i < |s| && s[i] == v;
    x, y := s[..i], s[i + 1..];
  }

  lemma WithoutOne<T>(p: seq<T>, v: T, x: seq<T>, y: seq<T>)
    requires multiset(p + [v]) == multiset(x + [v] + y)
    ensures multiset(p) == multiset(x + y)
  {
    assert multiset(p) == multiset(p + [v]) - multiset{v};
    assert multiset(x + y) == multiset(x + [v] + y) - multiset{v};
  }

  /** A sum depends only on how often each element occurs. */
  lemma {:induction false} SumPermute<T>(a: seq<T>, b: seq<T>, w: T -> int)
    requires multiset(a) == multiset(b)
    ensures Sum(a, w) == Sum(b, w)
  {
    if a == [] {
      assert |multiset(b)| == 0;
    } else {
      var p, v := a[..|a| - 1], a[|a| - 1];
      assert a == p + [v];
      var x, y := Locate(b, v);
      WithoutOne(p, v, x, y);
      SumPermute(p, x + y, w);
      SumMiddle(x, v, y, w);
    }
  }
}
