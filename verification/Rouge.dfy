/** `rouge_l_f1` and `token_f1`: the two-row longest-common-subsequence table and the scores built on it.
    Scores are exact reals; tokenisation is done by the caller. */
module Rouge {

  type Tokens = seq<string>

  function Max(x: nat, y: nat): nat { if x < y then y else x }

  /** Length of a longest common subsequence, by the textbook recursion on prefixes. */
  function Lcs(a: Tokens, b: Tokens): nat {
    if a == [] || b == [] then 0
    else
      var a', b' := a[..|a| - 1], b[..|b| - 1];
      if a[|a| - 1] == b[|b| - 1] then Lcs(a', b') + 1 else Max(Lcs(a', b), Lcs(a, b'))
  }

  // ---------------------------------------------------------------------------------------
  // Lcs is the maximum over all common subsequences
  // ---------------------------------------------------------------------------------------

  /** Positions picked from both lists, increasing in both, carrying equal tokens. */
  predicate Common(a: Tokens, b: Tokens, picks: seq<(nat, nat)>) {
    && (forall k :: 0 <= k < |picks| ==> picks[k].0 < |a| && picks[k].1 < |b| && a[picks[k].0] == b[picks[k].1])
    && (forall k, l :: 0 <= k < l < |picks| ==> picks[k].0 < picks[l].0 && picks[k].1 < picks[l].1)
  }

  lemma {:induction false} LcsIsUpperBound(a: Tokens, b: Tokens, picks: seq<(nat, nat)>)
    requires Common(a, b, picks)
    ensures |picks| <= Lcs(a, b)
    decreases |a| + |b|
  {
    if picks != [] {
      var n := |picks| - 1;
      var last := picks[n];
      if a[|a| - 1] == b[|b| - 1] {
        LcsIsUpperBound(a[..|a| - 1], b[..|b| - 1], picks[..n]);
      } else if last.0 < |a| - 1 {
        LcsIsUpperBound(a[..|a| - 1], b, picks);
      } else {
        LcsIsUpperBound(a, b[..|b| - 1], picks);
      }
    }
  }

  lemma {:induction false} LcsIsAttained(a: Tokens, b: Tokens) returns (picks: seq<(nat, nat)>)
    ensures Common(a, b, picks) && |picks| == Lcs(a, b)
    decreases |a| + |b|
  {
    if a == [] || b == [] {
      picks := [];
    } else {
      var a', b' := a[..|a| - 1], b[..|b| - 1];
      if a[|a| - 1] == b[|b| - 1] {
        var shorter := LcsIsAttained(a', b');
        picks := shorter + [(|a| - 1, |b| - 1)];
      } else if Lcs(a', b) < Lcs(a, b') {
        picks := LcsIsAttained(a, b');
      } else {
        picks := LcsIsAttained(a', b);
      }
    }
  }

  lemma {:induction false} LcsFacts(a: Tokens, b: Tokens)
    ensures Lcs(a, b) == Lcs(b, a)
    ensures Lcs(a, b) <= |a| && Lcs(a, b) <= |b|
    ensures Lcs(a, b) == |a| == |b| <==> a == b
    decreases |a| + |b|
  {
    if a != [] && b != [] {
      var a', b' := a[..|a| - 1], b[..|b| - 1];
      LcsFacts(a', b');
      LcsFacts(a', b);
      LcsFacts(a, b');
      assert a == a' + [a[|a| - 1]] && b == b' + [b[|b| - 1]];
    }
  }

  // ---------------------------------------------------------------------------------------
  // Bags of tokens
  // ---------------------------------------------------------------------------------------

  /** `sum((Counter(a) & Counter(b)).values())` */
  function Overlap(a: Tokens, b: Tokens): nat { |multiset(a) * multiset(b)| }

  lemma Included(x: multiset<string>, y: multiset<string>)
    requires x <= y
    ensures |x| <= |y|
    ensures |x| == |y| ==> x == y
  {
    assert y == x + (y - x);
    if |x| == |y| { assert y - x == multiset{}; }
  }

  lemma OverlapFacts(a: Tokens, b: Tokens)
    ensures Overlap(a, b) == Overlap(b, a)
    ensures Overlap(a, b) <= |a| && Overlap(a, b) <= |b|
    ensures Overlap(a, b) == |a| == |b| <==> multiset(a) == multiset(b)
  {
    var both := multiset(a) * multiset(b);
    assert both == multiset(b) * multiset(a);
    Included(both, multiset(a));
    Included(both, multiset(b));
    if multiset(a) == multiset(b) { assert both == multiset(a) == multiset(b) && |multiset(a)| == |a|; }
  }

  lemma BagsGrow(a: multiset<string>, x: string, b: multiset<string>, y: string)
    ensures x == y ==> |(a + multiset{x}) * (b + multiset{y})| == |a * b| + 1
    ensures |a * (b + multiset{y})| <= |(a + multiset{x}) * (b + multiset{y})|
    ensures |(a + multiset{x}) * b| <= |(a + multiset{x}) * (b + multiset{y})|
  {
    if x == y { assert (a + multiset{x}) * (b + multiset{y}) == a * b + multiset{x}; }
    Included(a * (b + multiset{y}), (a + multiset{x}) * (b + multiset{y}));
    Included((a + multiset{x}) * b, (a + multiset{x}) * (b + multiset{y}));
  }

  lemma {:induction false} LcsWithinOverlap(a: Tokens, b: Tokens)
    ensures Lcs(a, b) <= Overlap(a, b)
    decreases |a| + |b|
  {
    if a != [] && b != [] {
      var a', b' := a[..|a| - 1], b[..|b| - 1];
      var x, y := a[|a| - 1], b[|b| - 1];
      assert a == a' + [x] && b == b' + [y];
      BagsGrow(multiset(a'), x, multiset(b'), y);
      if x == y {
        LcsWithinOverlap(a', b');
      } else {
        LcsWithinOverlap(a', b);
        LcsWithinOverlap(a, b');
      }
    }
  }

  // ---------------------------------------------------------------------------------------
  // Scores
  // ---------------------------------------------------------------------------------------

  /** Harmonic mean of precision `hits / m` and recall `hits / n`. */
  function F1(hits: nat, m: nat, n: nat): real
    requires m > 0 && n > 0
  {
    if hits == 0 then 0.0
    else
      var precision, recall := hits as real / m as real, hits as real / n as real;
      2.0 * precision * recall / (precision + recall)
  }

  function Score(hits: nat, m: nat, n: nat): real {
    if m == 0 && n == 0 then 1.0 else if m == 0 || n == 0 then 0.0 else F1(hits, m, n)
  }

  function RougeL(a: Tokens, b: Tokens): real { Score(Lcs(a, b), |a|, |b|) }

  function TokenF1(a: Tokens, b: Tokens): real { Score(Overlap(a, b), |a|, |b|) }

  lemma Harmonic(h: real, m: real, n: real)
    requires h > 0.0 && m > 0.0 && n > 0.0
    ensures h / m + h / n > 0.0
    ensures 2.0 * (h / m) * (h / n) / (h / m + h / n) == 2.0 * h / (m + n)
  {
    var p, r := h / m, h / n;
    assert p * m == h && r * n == h;
    assert p > 0.0 && r > 0.0;
    var s := p + r;
    assert (2.0 * h / (m + n)) * (m + n) == 2.0 * h;
    var f := 2.0 * p * r / s;
    assert f * s == 2.0 * p * r;
    // s * m * n == h * (m + n) and p * r * m * n == h * h
    assert s * (m * n) == (p * m) * n + (r * n) * m == h * (m + n);
    assert (p * r) * (m * n) == (p * m) * (r * n) == h * h;
    assert f * (h * (m + n)) == f * s * (m * n) == 2.0 * (h * h);
    assert (f * (m + n)) * h == (2.0 * h) * h;
    assert f * (m + n) == 2.0 * h;
  }

  lemma Ratio(x: real, y: real, t: real)
    requires 0.0 <= x <= y <= t && t > 0.0
    ensures 0.0 <= x / t <= y / t <= 1.0
    ensures x / t == 1.0 <==> x == t
  {
    var p, q := x / t, y / t;
    assert p * t == x && q * t == y;
    assert (q - p) * t == y - x;
    assert (1.0 - q) * t == t - y;
  }

  /** The harmonic mean is twice the hits over the two lengths. */
  lemma F1Closed(hits: nat, m: nat, n: nat)
    requires m > 0 && n > 0
    ensures F1(hits, m, n) == (2.0 * hits as real) / (m as real + n as real)
  {
    if hits > 0 { Harmonic(hits as real, m as real, n as real); }
  }

  lemma F1Range(h1: nat, h2: nat, m: nat, n: nat)
    requires m > 0 && n > 0 && h1 <= h2 && h2 <= m && h2 <= n
    ensures 0.0 <= F1(h1, m, n) <= F1(h2, m, n) <= 1.0
    ensures F1(h1, m, n) == 1.0 <==> h1 == m == n
    ensures F1(h1, m, n) == F1(h1, n, m)
  {
    F1Closed(h1, m, n);
    F1Closed(h1, n, m);
    F1Closed(h2, m, n);
    Ratio(2.0 * h1 as real, 2.0 * h2 as real, m as real + n as real);
  }

  lemma ScoreIsRatio(hits: nat, m: nat, n: nat)
    requires m + n > 0 && hits <= m && hits <= n
    ensures Score(hits, m, n) * (m + n) as real == 2.0 * hits as real
  {
    if m > 0 && n > 0 {
      F1Closed(hits, m, n);
      var x, y := 2.0 * hits as real, (m + n) as real;
      assert m as real + n as real == y;
      assert x / y * y == x;
    }
  }

  /** ROUGE-L is twice the common tokens over all tokens, and 1 for two empty lists; so 0 when only one is empty. */
  lemma RougeLIsRatio(a: Tokens, b: Tokens)
    ensures a == [] && b == [] ==> RougeL(a, b) == 1.0
    ensures a != [] || b != [] ==> RougeL(a, b) * (|a| + |b|) as real == 2.0 * Lcs(a, b) as real
  {
    LcsFacts(a, b);
    hide Lcs, Score, F1;
    if a != [] || b != [] { ScoreIsRatio(Lcs(a, b), |a|, |b|); } else { NothingToScore(Lcs(a, b)); }
  }

  lemma NothingToScore(hits: nat)
    ensures Score(hits, 0, 0) == 1.0
  {
  }

  /** The token score is the same ratio of the bag overlap. */
  lemma TokenF1IsRatio(a: Tokens, b: Tokens)
    ensures a == [] && b == [] ==> TokenF1(a, b) == 1.0
    ensures a != [] || b != [] ==> TokenF1(a, b) * (|a| + |b|) as real == 2.0 * |multiset(a) * multiset(b)| as real
  {
    OverlapFacts(a, b);
    hide Score, F1;
    if a != [] || b != [] { ScoreIsRatio(Overlap(a, b), |a|, |b|); } else { NothingToScore(Overlap(a, b)); }
  }

  /** ROUGE-L is symmetric, lies in [0, 1], is 1 exactly on equal lists, and never exceeds the bag score. */
  lemma RougeLIsAScore(a: Tokens, b: Tokens)
    ensures RougeL(a, b) == RougeL(b, a)
    ensures 0.0 <= RougeL(a, b) <= 1.0
    ensures RougeL(a, b) == 1.0 <==> a == b
    ensures RougeL(a, b) <= TokenF1(a, b)
  {
    LcsFacts(a, b);
    if a != [] && b != [] {
      OverlapFacts(a, b);
      LcsWithinOverlap(a, b);
      F1Range(Lcs(a, b), Overlap(a, b), |a|, |b|);
    }
  }

  lemma TokenF1IsAScore(a: Tokens, b: Tokens)
    ensures TokenF1(a, b) == TokenF1(b, a)
    ensures 0.0 <= TokenF1(a, b) <= 1.0
    ensures TokenF1(a, b) == 1.0 <==> multiset(a) == multiset(b)
  {
    OverlapFacts(a, b);
    if a != [] && b != [] {
      F1Range(Overlap(a, b), Overlap(a, b), |a|, |b|);
    } else if a != [] {
      assert a[0] in multiset(a);
    } else if b != [] {
      assert b[0] in multiset(b);
    }
  }

  /** The rolling-row table: `previous` is one row, `current` the row being appended to. */
  method LcsTable(left: Tokens, right: Tokens) returns (lcs: nat)
    ensures lcs == Lcs(left, right)
  {
    var previous: seq<nat> := seq(|right| + 1, _ => 0);
    for i := 0 to |left|
      invariant |previous| == |right| + 1
      invariant forall j :: 0 <= j <= |right| ==> previous[j] == Lcs(left[..i], right[..j])
    {
      var current: seq<nat> := [0];
      for j := 0 to |right|
        invariant |current| == j + 1
        invariant forall k :: 0 <= k <= j ==> current[k] == Lcs(left[..i + 1], right[..k])
      {
        assert left[..i + 1][..i] == left[..i] && right[..j + 1][..j] == right[..j];
        current := current + [if left[i] == right[j] then previous[j] + 1 else Max(previous[j + 1], current[j])];
      }
      previous := current;
    }
    assert left[..|left|] == left && right[..|right|] == right;
    lcs := previous[|previous| - 1];
  }

  method RougeLF1(left: Tokens, right: Tokens) returns (score: real)
    ensures score == RougeL(left, right)
  {
    if left == [] && right == [] { return 1.0; }
    if left == [] || right == [] { return 0.0; }
    var lcs := LcsTable(left, right);
    if lcs == 0 { return 0.0; }
    score := HarmonicMean(lcs, |left|, |right|);
  }

  method HarmonicMean(lcs: nat, m: nat, n: nat) returns (score: real)
    requires lcs > 0 && m > 0 && n > 0
    ensures score == F1(lcs, m, n)
  {
    Harmonic(lcs as real, m as real, n as real);
    var precision, recall := lcs as real / m as real, lcs as real / n as real;
    return 2.0 * precision * recall / (precision + recall);
  }
}
