/** Even sampling by rounded indices. Quotients are exact fractions. */
module Sampling {
  // ---------------------------------------------------------------------------------------
  // representative_sample
  // ---------------------------------------------------------------------------------------

  /** Python's `round(a / b)`: the nearest integer, a tie going to the even one. */
  function Round(a: nat, b: nat): nat
    requires b > 0
  {
    var q, r := a / b, a % b;
    if 2 * r < b || (2 * r == b && q % 2 == 0) then q else q + 1
  }

  /** `x` is within one half of `a / b`. */
  predicate WithinHalf(x: int, a: int, b: int) { -b <= 2 * (b * x - a) <= b }

  lemma RoundIsNearest(a: nat, b: nat)
    requires b > 0
    ensures WithinHalf(Round(a, b), a, b)
  {
    assert a == b * (a / b) + a % b;
    assert b * (a / b + 1) == b * (a / b) + b;
  }

  /** Half way between two integers the even one is taken. */
  lemma TiesGoToEven(a: nat, b: nat)
    requires b > 0
    ensures var d: int := 2 * (b * Round(a, b) - a); d == b || d + b == 0 ==> Round(a, b) % 2 == 0
  {
    assert a == b * (a / b) + a % b;
    assert b * (a / b + 1) == b * (a / b) + b;
  }

  lemma PositiveFactor(b: int, d: int)
    requires b > 0 && b * d > 0
    ensures d > 0
  {
  }

  lemma AtLeastOnce(b: int, d: int)
    requires b > 0 && d > 0
    ensures b * d >= b
  {
    assert b * d == b * (d - 1) + b;
  }

  lemma Spread(m: int, i: int, j: int)
    requires m > 0 && i < j
    ensures j * m - i * m >= m
  {
    AtLeastOnce(m, j - i);
    assert m * (j - i) == j * m - i * m;
  }

  lemma Factor(b: int, x: int, y: int)
    ensures b * y - b * x == b * (y - x)
  {
  }

  /** Multiples of `m` over `b`, where `m` exceeds `b`, round to different integers, in order. */
  lemma HalvesApart(x: int, i: int, y: int, j: int, m: int, b: int)
    requires m > b > 0 && i < j && WithinHalf(x, i * m, b) && WithinHalf(y, j * m, b)
    ensures x < y
  {
    Spread(m, i, j);
    Factor(b, x, y);
    PositiveFactor(b, y - x);
  }

  lemma SmallFactor(b: int, d: int)
    requires b > 0 && -b <= 2 * (b * d) <= b
    ensures d == 0
  {
    if d > 0 {
      AtLeastOnce(b, d);
    } else if d < 0 {
      AtLeastOnce(b, -d);
      Factor(b, d, 0);
    }
  }

  lemma ExactHalf(x: int, k: int, b: int)
    requires b > 0 && WithinHalf(x, k * b, b)
    ensures x == k
  {
    Factor(b, k, x);
    SmallFactor(b, x - k);
  }

  function Ideal(n: nat, limit: nat, i: nat): nat
    requires n > limit >= 2
  {
    Round(i * (n - 1), limit - 1)
  }

  function Ideals(n: nat, limit: nat): seq<nat>
    requires n > limit >= 2
  {
    seq(limit, i requires 0 <= i < limit => Ideal(n, limit, i))
  }

  function Members(s: seq<nat>): set<nat> { set x | x in s }

  function SortedBelow(s: set<nat>, n: nat): seq<nat> {
    if n == 0 then [] else SortedBelow(s, n - 1) + if n - 1 in s then [n - 1] else []
  }

  /** The positions chosen, in order: the sorted set of rounded ideal positions. */
  function Indices(n: nat, limit: int): seq<nat> {
    if n <= limit then seq(n, i requires 0 <= i < n => i)
    else if limit == 1 then [n / 2]
    else if limit < 1 then []
    else SortedBelow(Members(Ideals(n, limit)), n)
  }

  predicate Increasing(at: seq<nat>) { forall i, j :: 0 <= i < j < |at| ==> at[i] < at[j] }

  /** Each position is within one half of its ideal place. */
  predicate Near(at: seq<nat>, m: int, b: int) { forall i :: 0 <= i < |at| ==> WithinHalf(at[i], i * m, b) }

  lemma IdealsNear(n: nat, limit: nat)
    requires n > limit >= 2
    ensures Near(Ideals(n, limit), n - 1, limit - 1)
  {
    forall i | 0 <= i < limit ensures WithinHalf(Ideal(n, limit, i), i * (n - 1), limit - 1) {
      RoundIsNearest(i * (n - 1), limit - 1);
    }
  }

  lemma NearIncreases(at: seq<nat>, m: int, b: int)
    requires m > b > 0 && |at| == b + 1 && Near(at, m, b)
    ensures Increasing(at) && at[0] == 0 && at[b] == m && forall k :: k in at ==> k <= m
  {
    forall i, j | 0 <= i < j < |at| ensures at[i] < at[j] { HalvesApart(at[i], i, at[j], j, m, b); }
    assert 0 * m == 0 * b;
    ExactHalf(at[0], 0, b);
    Commute(b, m);
    ExactHalf(at[b], m, b);
  }

  lemma Commute(b: int, m: int)
    ensures b * m == m * b
  {
  }

  /** Sorting an increasing list changes nothing. */
  lemma {:induction false} SortedPrefix(at: seq<nat>, m: nat, k: nat)
    requires Increasing(at) && k <= |at|
    requires forall i :: 0 <= i < |at| ==> (at[i] < m <==> i < k)
    ensures SortedBelow(Members(at), m) == at[..k]
  {
    if m > 0 {
      if m - 1 in at {
        assert k > 0 && at[k - 1] == m - 1;
        SortedPrefix(at, m - 1, k - 1);
      } else {
        SortedPrefix(at, m - 1, k);
      }
    }
  }

  /** Exactly `limit` distinct positions, first and last among them, each within one half of its ideal place. */
  lemma SampleIsEven(n: nat, limit: nat)
    requires n > limit >= 2
    ensures
      var at := Indices(n, limit);
      |at| == limit && at[0] == 0 && at[limit - 1] == n - 1 && Increasing(at) && Near(at, n - 1, limit - 1)
  {
    var at := Ideals(n, limit);
    IdealsNear(n, limit);
    NearIncreases(at, n - 1, limit - 1);
    forall i | 0 <= i < limit ensures at[i] < n <==> i < limit { assert at[i] in at; }
    SortedPrefix(at, n, limit);
    assert at[..limit] == at;
  }

  /** No more rows than asked for: all positions; one: the middle; none: none. */
  lemma SmallSamples(n: nat, limit: int)
    ensures n <= limit ==> |Indices(n, limit)| == n && forall i :: 0 <= i < n ==> Indices(n, limit)[i] == i
    ensures n > 1 && limit == 1 ==>
      |Indices(n, limit)| == 1 && (n == 2 * Indices(n, limit)[0] || n == 2 * Indices(n, limit)[0] + 1)
    ensures n > limit && limit < 1 ==> Indices(n, limit) == []
  {
  }

  lemma {:induction false} SortedBelowIsBelow(s: set<nat>, n: nat)
    ensures forall k :: k in SortedBelow(s, n) <==> k in s && k < n
  {
    if n > 0 { SortedBelowIsBelow(s, n - 1); }
  }

  lemma IndicesInRange(n: nat, limit: int)
    ensures forall k :: k in Indices(n, limit) ==> k < n
  {
    if n > limit >= 2 { SortedBelowIsBelow(Members(Ideals(n, limit)), n); }
  }

  function Sample<T>(items: seq<T>, limit: int): seq<T> {
    IndicesInRange(|items|, limit);
    var at := Indices(|items|, limit);
    seq(|at|, i requires 0 <= i < |at| && at[i] in at => items[at[i]])
  }
}
