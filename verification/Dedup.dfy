/** Exact and near-duplicate removal. Hashes are taken as injective, so a shingle's fingerprint is its word list
    and an exact fingerprint is the stripped text; similarities are exact fractions. */
module Dedup {
  import opened Sequences
  import opened Schemas
  import opened ItemText

  const SHINGLE_SIZE := 3

  type Shingle = seq<string>

  // ---------------------------------------------------------------------------------------
  // Text to shingles
  // ---------------------------------------------------------------------------------------

  function LowerChar(c: char): char { if 'A' <= c <= 'Z' then (c as int + 32) as char else c }

  function Lower(s: string): string { seq(|s|, i requires 0 <= i < |s| => LowerChar(s[i])) }

  function WordEnd(s: string): nat
    ensures WordEnd(s) <= |s|
  {
    if s == "" || IsSpace(s[0]) then 0 else 1 + WordEnd(s[1..])
  }

  /** `s.split()` */
  function Split(s: string): seq<string>
    decreases |s|
  {
    if s == "" then []
    else if IsSpace(s[0]) then Split(s[1..])
    else [s[..WordEnd(s)]] + Split(s[WordEnd(s)..])
  }

  function Words(text: string): seq<string> { Split(Lower(text)) }

  function Gram(words: seq<string>, i: nat): Shingle
    requires i + SHINGLE_SIZE <= |words|
  {
    words[i..i + SHINGLE_SIZE]
  }

  function Shingles(words: seq<string>): set<Shingle> {
    if |words| < SHINGLE_SIZE then set i | 0 <= i < |words| :: [words[i]]
    else set i | 0 <= i <= |words| - SHINGLE_SIZE :: Gram(words, i)
  }

  /** `_content` */
  function Content(x: Item, show: Show): string {
    var (p, r) := PromptAndResponse(x, show);
    var combined := Strip(p + " " + r);
    if combined != "" then combined else ClassificationText(x, show)
  }

  function Signature(x: Item, show: Show): set<Shingle> { Shingles(Words(Content(x, show))) }

  function ExactKey(x: Item, show: Show): string { Strip(Content(x, show)) }

  // ---------------------------------------------------------------------------------------
  // The greedy choice
  // ---------------------------------------------------------------------------------------

  /** Jaccard similarity at or above the threshold; two empty sets are never near. */
  predicate Near(a: set<Shingle>, b: set<Shingle>, threshold: real) {
    |a + b| > 0 && |a * b| as real / |a + b| as real >= threshold
  }

  /** Which rows are dropped: those near an earlier row that was kept. */
  function Drops(sets: seq<set<Shingle>>, threshold: real): (d: seq<bool>)
    ensures |d| == |sets|
  {
    if sets == [] then []
    else
      var n := |sets| - 1;
      var d := Drops(sets[..n], threshold);
      d + [exists i :: 0 <= i < n && !d[i] && Near(sets[n], sets[i], threshold)]
  }

  /** Which rows are dropped by exact deduplication: those whose key has been seen. */
  function Repeats(keys: seq<string>): seq<bool> { seq(|keys|, i requires 0 <= i < |keys| => keys[i] in keys[..i]) }

  function Marked(x: Item, reason: string): Item { x.(metadata := x.metadata[Key.DedupReason := JStr(reason)]) }

  function MarkAll(xs: seq<Item>, reason: string): seq<Item> {
    seq(|xs|, i requires 0 <= i < |xs| => Marked(xs[i], reason))
  }

  // ---------------------------------------------------------------------------------------
  // The promises about near-duplicates
  // ---------------------------------------------------------------------------------------

  /** `d` keeps rows that are pairwise not near, and drops a row only for an earlier kept one. */
  ghost predicate GreedyIndependent(sets: seq<set<Shingle>>, threshold: real, d: seq<bool>) {
    && |d| == |sets|
    && (forall i, j :: 0 <= i < j < |sets| && !d[i] && !d[j] ==> !Near(sets[j], sets[i], threshold))
    && (forall j :: 0 <= j < |sets| && d[j] ==> exists i :: 0 <= i < j && !d[i] && Near(sets[j], sets[i], threshold))
  }

  lemma {:induction false} DropsPrefix(sets: seq<set<Shingle>>, threshold: real, n: nat)
    requires n <= |sets|
    ensures Drops(sets[..n], threshold) == Drops(sets, threshold)[..n]
  {
    if n < |sets| {
      DropsPrefix(sets[..|sets| - 1], threshold, n);
      assert sets[..|sets| - 1][..n] == sets[..n];
    } else {
      assert sets[..n] == sets;
    }
  }

  lemma DropsAt(sets: seq<set<Shingle>>, threshold: real, j: nat)
    requires j < |sets|
    ensures Drops(sets, threshold)[j] <==>
        exists i :: 0 <= i < j && !Drops(sets, threshold)[i] && Near(sets[j], sets[i], threshold)
  {
    DropsPrefix(sets, threshold, j + 1);
    DropsPrefix(sets, threshold, j);
    var front := sets[..j + 1];
    assert front[..j] == sets[..j];
    assert Drops(front, threshold)[j] == Drops(sets, threshold)[j];
  }

  /** The choice is the only one with the two properties: a greedy maximal independent set. */
  lemma {:induction false} DropsIsGreedyIndependent(sets: seq<set<Shingle>>, threshold: real, d: seq<bool>)
    ensures GreedyIndependent(sets, threshold, d) <==> d == Drops(sets, threshold)
  {
    var mine := Drops(sets, threshold);
    forall j | 0 <= j < |sets|
      ensures mine[j] <==> exists i :: 0 <= i < j && !mine[i] && Near(sets[j], sets[i], threshold)
    {
      DropsAt(sets, threshold, j);
    }
    if GreedyIndependent(sets, threshold, d) {
      var n := 0;
      while n < |sets|
        invariant n <= |sets| && forall i :: 0 <= i < n ==> d[i] == mine[i]
      {
        n := n + 1;
      }
    }
  }

  lemma KeepOneMore(kept: seq<set<Shingle>>, x: set<Shingle>, threshold: real)
    requires true !in Drops(kept, threshold)
    requires forall y :: y in kept ==> !Near(x, y, threshold)
    ensures true !in Drops(kept + [x], threshold)
  {
    var more, m := kept + [x], |kept|;
    assert more[..m] == kept;
    var d := Drops(kept, threshold);
    forall i | 0 <= i < m ensures !Near(more[m], more[i], threshold) { assert kept[i] in kept; }
    assert Drops(more, threshold) == d + [false];
  }

  lemma KeptFarFromLast(sets: seq<set<Shingle>>, threshold: real, n: nat, y: set<Shingle>)
    requires n < |sets| && !Drops(sets, threshold)[n]
    requires y in Pick(sets[..n], Drops(sets, threshold)[..n], false)
    ensures !Near(sets[n], y, threshold)
  {
    var d := Drops(sets, threshold);
    PickMembers(sets[..n], d[..n], false, y);
    var k :| 0 <= k < n && d[..n][k] == false && sets[..n][k] == y;
    DropsAt(sets, threshold, n);
    assert !d[k] && sets[k] == y;
  }

  /** Rerunning on what was kept drops nothing. */
  lemma {:induction false} RerunDropsNothing(sets: seq<set<Shingle>>, threshold: real)
    ensures true !in Drops(Pick(sets, Drops(sets, threshold), false), threshold)
    decreases |sets|
  {
    if sets != [] {
      var n := |sets| - 1;
      RerunDropsNothing(sets[..n], threshold);
      DropsPrefix(sets, threshold, n);
      var d := Drops(sets, threshold);
      var kept := Pick(sets[..n], d[..n], false);
      if !d[n] {
        forall y | y in kept ensures !Near(sets[n], y, threshold) { KeptFarFromLast(sets, threshold, n, y); }
        KeepOneMore(kept, sets[n], threshold);
      } else {
        assert kept + [] == kept;
      }
    }
  }

  // ---------------------------------------------------------------------------------------
  // Exact duplicates are near-duplicates
  // ---------------------------------------------------------------------------------------

  lemma {:induction false} SplitIgnoresTrailingSpace(s: string, c: char)
    requires IsSpace(c)
    ensures Split(s + [c]) == Split(s)
    ensures s != "" && !IsSpace(s[0]) ==> WordEnd(s + [c]) == WordEnd(s)
    decreases |s|
  {
    if s == "" {
      assert s + [c] == [c] && [c][1..] == "";
    } else {
      var rest := s[1..];
      assert (s + [c])[1..] == rest + [c];
      SplitIgnoresTrailingSpace(rest, c);
      if !IsSpace(s[0]) {
        var e := WordEnd(s);
        assert rest == "" || IsSpace(rest[0]) ==> IsSpace((rest + [c])[0]) && WordEnd(rest + [c]) == 0 == WordEnd(rest);
        assert WordEnd(s + [c]) == e;
        assert (s + [c])[..e] == s[..e] && (s + [c])[e..] == s[e..] + [c];
        SplitIgnoresTrailingSpace(s[e..], c);
      }
    }
  }

  lemma {:induction false} WordsIgnoreLStrip(s: string)
    ensures Words(LStrip(s)) == Words(s)
  {
    if s != "" && IsSpace(s[0]) {
      WordsIgnoreLStrip(s[1..]);
      assert Lower(s)[1..] == Lower(s[1..]);
    }
  }

  lemma {:induction false} WordsIgnoreRStrip(s: string)
    ensures Words(RStrip(s)) == Words(s)
  {
    if s != "" && IsSpace(s[|s| - 1]) {
      var n := |s| - 1;
      WordsIgnoreRStrip(s[..n]);
      assert Lower(s) == Lower(s[..n]) + [s[n]];
      SplitIgnoresTrailingSpace(Lower(s[..n]), s[n]);
    }
  }

  lemma SameKeySameSignature(x: Item, y: Item, show: Show)
    requires ExactKey(x, show) == ExactKey(y, show)
    ensures Signature(x, show) == Signature(y, show)
  {
    forall z | z in {x, y} ensures Words(ExactKey(z, show)) == Words(Content(z, show)) {
      WordsIgnoreRStrip(LStrip(Content(z, show)));
      WordsIgnoreLStrip(Content(z, show));
    }
  }

  lemma Itself(a: set<Shingle>, threshold: real)
    requires a != {} && threshold <= 1.0
    ensures Near(a, a, threshold)
  {
    assert a + a == a && a * a == a;
    var r := |a| as real;
    assert r / r == 1.0;
  }

  function Signatures(items: seq<Item>, show: Show): seq<set<Shingle>> {
    seq(|items|, i requires 0 <= i < |items| => Signature(items[i], show))
  }

  function ExactKeys(items: seq<Item>, show: Show): seq<string> {
    seq(|items|, i requires 0 <= i < |items| => ExactKey(items[i], show))
  }

  /** For a threshold of at most 1, whatever exact deduplication drops, near-duplicate removal drops too,
      provided the text has a word in it. */
  lemma ExactImpliesNear(items: seq<Item>, show: Show, threshold: real, j: nat)
    requires threshold <= 1.0 && j < |items| && Repeats(ExactKeys(items, show))[j]
    requires Words(Content(items[j], show)) != []
    ensures Drops(Signatures(items, show), threshold)[j]
  {
    var keys, sets := ExactKeys(items, show), Signatures(items, show);
    var i :| 0 <= i < j && keys[..j][i] == keys[j];
    SameKeySameSignature(items[i], items[j], show);
    SignatureHasShingle(Words(Content(items[j], show)));
    Itself(sets[j], threshold);
    DropsAt(sets, threshold, j);
    DropsAt(sets, threshold, i);
    if Drops(sets, threshold)[i] {
      var k :| 0 <= k < i && !Drops(sets, threshold)[k] && Near(sets[i], sets[k], threshold);
      assert Near(sets[j], sets[k], threshold);
    }
  }

  lemma SignatureHasShingle(words: seq<string>)
    requires words != []
    ensures Shingles(words) != {}
  {
    if |words| < SHINGLE_SIZE {
      assert [words[0]] in Shingles(words);
    } else {
      assert Gram(words, 0) in Shingles(words);
    }
  }

  // ---------------------------------------------------------------------------------------
  // The methods
  // ---------------------------------------------------------------------------------------

  lemma PickStep(xs: seq<Item>, flags: seq<bool>, i: nat, reason: string)
    requires |xs| == |flags| && i < |xs|
    ensures Pick(xs[..i + 1], flags[..i + 1], false) == Pick(xs[..i], flags[..i], false) + if flags[i] then []
        else [xs[i]]
    ensures MarkAll(Pick(xs[..i + 1], flags[..i + 1], true), reason) ==
            MarkAll(Pick(xs[..i], flags[..i], true), reason) + if flags[i] then [Marked(xs[i], reason)] else []
  {
    assert xs[..i + 1][..i] == xs[..i] && flags[..i + 1][..i] == flags[..i];
  }

  /** The rows split by the flags, those dropped carrying the reason. */
  predicate SplitBy(items: seq<Item>, d: seq<bool>, n: nat, reason: string, kept: seq<Item>, dropped: seq<Item>) {
    && |d| == |items| && n <= |items|
    && kept == Pick(items[..n], d[..n], false) && dropped == MarkAll(Pick(items[..n], d[..n], true), reason)
  }

  lemma SplitStep(items: seq<Item>, d: seq<bool>, i: nat, reason: string, kept: seq<Item>, dropped: seq<Item>)
    requires i < |items| && SplitBy(items, d, i, reason, kept, dropped)
    ensures if d[i] then SplitBy(items, d, i + 1, reason, kept, dropped + [Marked(items[i], reason)])
            else SplitBy(items, d, i + 1, reason, kept + [items[i]], dropped)
  {
    PickStep(items, d, i, reason);
    assert kept + [] == kept && dropped + [] == dropped;
  }

  method Fingerprint(x: Item, show: Show, ghost keys: seq<string>, ghost i: nat, ghost items: seq<Item>)
      returns (h: string)
    requires i < |items| && x == items[i] && keys == ExactKeys(items, show)
    ensures h == keys[i]
  {
    h := ExactKey(x, show);
  }

  ghost predicate Seen(seen: set<string>, keys: seq<string>, i: nat) {
    i <= |keys| && forall k :: k in seen <==> k in keys[..i]
  }

  lemma SeenStep(seen: set<string>, keys: seq<string>, i: nat)
    requires Seen(seen, keys, i) && i < |keys|
    ensures Repeats(keys)[i] <==> keys[i] in seen
    ensures Seen(seen + {keys[i]}, keys, i + 1)
    ensures keys[i] in seen ==> Seen(seen, keys, i + 1)
  {
    assert keys[..i + 1] == keys[..i] + [keys[i]];
  }

  method DeduplicateExact(items: seq<Item>, show: Show) returns (kept: seq<Item>, dropped: seq<Item>)
    ensures SplitBy(items, Repeats(ExactKeys(items, show)), |items|, "exact_duplicate", kept, dropped)
  {
    ghost var keys := ExactKeys(items, show);
    ghost var d := Repeats(keys);
    var seen: set<string> := {};
    kept, dropped := [], [];
    for i := 0 to |items|
      invariant Seen(seen, keys, i)
      invariant SplitBy(items, d, i, "exact_duplicate", kept, dropped)
    {
      SplitStep(items, d, i, "exact_duplicate", kept, dropped);
      SeenStep(seen, keys, i);
      var h := Fingerprint(items[i], show, keys, i, items);
      if h in seen {
        dropped := dropped + [Marked(items[i], "exact_duplicate")];
      } else {
        seen := seen + {h};
        kept := kept + [items[i]];
      }
    }
  }

  method NearAny(current: set<Shingle>, shingleSets: seq<set<Shingle>>, threshold: real) returns (isDup: bool)
    ensures isDup <==> exists k :: 0 <= k < |shingleSets| && Near(current, shingleSets[k], threshold)
  {
    for j := 0 to |shingleSets|
      invariant forall k :: 0 <= k < j ==> !Near(current, shingleSets[k], threshold)
    {
      var union := |current + shingleSets[j]|;
      if union > 0 {
        var sim := |current * shingleSets[j]| as real / union as real;
        if sim >= threshold {
          assert Near(current, shingleSets[j], threshold);
          return true;
        }
      }
    }
    return false;
  }

  method DeduplicateMinhash(items: seq<Item>, threshold: real, reason: string, show: Show)
    returns (kept: seq<Item>, dropped: seq<Item>)
    ensures SplitBy(items, Drops(Signatures(items, show), threshold), |items|, reason, kept, dropped)
  {
    ghost var sets := Signatures(items, show);
    ghost var d := Drops(sets, threshold);
    var shingleSets: seq<set<Shingle>> := [];
    kept, dropped := [], [];
    for i := 0 to |items|
      invariant KeptSets(sets, d, i, shingleSets)
      invariant SplitBy(items, d, i, reason, kept, dropped)
    {
      SplitStep(items, d, i, reason, kept, dropped);
      var current := Signature(items[i], show);
      var isDup := NearAny(current, shingleSets, threshold);
      KeptSetsDecide(sets, threshold, i, shingleSets);
      if isDup {
        dropped := dropped + [Marked(items[i], reason)];
      } else {
        shingleSets := shingleSets + [current];
        kept := kept + [items[i]];
      }
    }
  }

  ghost predicate KeptSets(sets: seq<set<Shingle>>, d: seq<bool>, i: nat, found: seq<set<Shingle>>) {
    i <= |sets| == |d| && forall x :: x in found <==> exists k :: 0 <= k < i && !d[k] && sets[k] == x
  }

  lemma KeptSetsDecide(sets: seq<set<Shingle>>, threshold: real, i: nat, found: seq<set<Shingle>>)
    requires i < |sets| && KeptSets(sets, Drops(sets, threshold), i, found)
    ensures
      var d := Drops(sets, threshold);
      && (d[i] <==> exists k :: 0 <= k < |found| && Near(sets[i], found[k], threshold))
      && KeptSets(sets, d, i + 1, if d[i] then found else found + [sets[i]])
  {
    var d := Drops(sets, threshold);
    DropsAt(sets, threshold, i);
    if k :| 0 <= k < |found| && Near(sets[i], found[k], threshold) { assert found[k] in found; }
    if d[i] {
      var k :| 0 <= k < i && !d[k] && Near(sets[i], sets[k], threshold);
      assert sets[k] in found;
    }
    var after := if d[i] then found else found + [sets[i]];
    forall x ensures x in after <==> exists k :: 0 <= k < i + 1 && !d[k] && sets[k] == x {
      if x in after {
        if x in found {
          var k :| 0 <= k < i && !d[k] && sets[k] == x;
          assert k < i + 1;
        } else {
          assert x == sets[i] && !d[i];
        }
      }
      if k :| 0 <= k < i + 1 && !d[k] && sets[k] == x {
        if k < i { assert x in found; }
      }
    }
  }
}
