/** Weighted sums over sequences: the arithmetic behind every conservation law of this project. */
module Counting {

  /** The total weight of `s`. */
  function Sum<T>(s: seq<T>, w: T -> int): int {
    if s == [] then 0 else Sum(s[..|s| - 1], w) + w(s[|s| - 1])
  }

  lemma {:induction false} SumConcat<T>(a: seq<T>, b: seq<T>, w: T -> int)
    ensures Sum(a + b, w) == Sum(a, w) + Sum(b, w)
  {
    if b == [] {
      assert a + b == a;
    } else {
      SumConcat(a, b[..|b| - 1], w);
      assert (a + b)[..|a + b| - 1] == a + b[..|b| - 1];
    }
  }

  lemma {:induction false} SumUpdate<T>(s: seq<T>, i: nat, x: T, w: T -> int)
    requires i < |s|
    ensures Sum(s[i := x], w) == Sum(s, w) - w(s[i]) + w(x)
  {
    if i == |s| - 1 {
      assert s[i := x][..|s| - 1] == s[..|s| - 1];
    } else {
      SumUpdate(s[..|s| - 1], i, x, w);
      assert s[i := x][..|s| - 1] == s[..|s| - 1][i := x];
    }
  }

  lemma SumOne<T>(x: T, w: T -> int)
    ensures Sum([x], w) == w(x)
  {
    assert [x][..0] == [];
  }

  lemma SumAppend<T>(s: seq<T>, x: T, w: T -> int)
    ensures Sum(s + [x], w) == Sum(s, w) + w(x)
  {
    SumOne(x, w);
    SumConcat(s, [x], w);
  }

  lemma SumHead<T>(s: seq<T>, w: T -> int)
    requires s != []
    ensures Sum(s, w) == w(s[0]) + Sum(s[1..], w)
  {
    SumOne(s[0], w);
    SumConcat([s[0]], s[1..], w);
    assert s == [s[0]] + s[1..];
  }

  lemma {:induction false} SumCompare<T>(s: seq<T>, v: T -> int, w: T -> int)
    requires forall x :: x in s ==> v(x) <= w(x)
    ensures Sum(s, v) <= Sum(s, w)
  {
    if s != [] {
      SumCompare(s[..|s| - 1], v, w);
    }
  }

  /** With weights that are never negative, a total bounds each of its terms. */
  lemma {:induction false} SumBoundsMember<T>(s: seq<T>, i: nat, w: T -> int)
    requires i < |s| && forall x :: x in s ==> 0 <= w(x)
    ensures 0 <= w(s[i]) <= Sum(s, w)
  {
    SumHasSign(s[..i], w);
    SumHasSign(s[i + 1..], w);
    SumConcat(s[..i], s[i..], w);
    SumHead(s[i..], w);
    assert s == s[..i] + s[i..] && s[i..][1..] == s[i + 1..];
  }

  lemma {:induction false} SumHasSign<T>(s: seq<T>, w: T -> int)
    requires forall x :: x in s ==> 0 <= w(x)
    ensures 0 <= Sum(s, w)
  {
    if s != [] {
      SumHasSign(s[..|s| - 1], w);
    }
  }

  /** A total of zero weights is zero. */
  lemma {:induction false} SumOfZeros<T>(s: seq<T>, w: T -> int)
    requires forall x :: x in s ==> w(x) == 0
    ensures Sum(s, w) == 0
  {
    if s != [] {
      SumOfZeros(s[..|s| - 1], w);
    }
  }
}
