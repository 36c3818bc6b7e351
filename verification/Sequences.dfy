/** Choosing the rows of a list that carry a flag, and putting changed rows back in their places. */
module Sequences {
  function Pick<T>(xs: seq<T>, flags: seq<bool>, which: bool): seq<T>
    requires |xs| == |flags|
  {
    if xs == [] then []
    else
      var n := |xs| - 1;
      Pick(xs[..n], flags[..n], which) + if flags[n] == which then [xs[n]] else []
  }

  lemma {:induction false} PickMembers<T>(xs: seq<T>, flags: seq<bool>, which: bool, x: T)
    requires |xs| == |flags|
    ensures x in Pick(xs, flags, which) <==> exists i :: 0 <= i < |xs| && flags[i] == which && xs[i] == x
  {
    if xs != [] {
      var n := |xs| - 1;
      PickMembers(xs[..n], flags[..n], which, x);
      if x in Pick(xs[..n], flags[..n], which) {
        var i :| 0 <= i < n && flags[..n][i] == which && xs[..n][i] == x;
        assert flags[i] == which && xs[i] == x;
      }
      if i :| 0 <= i < |xs| && flags[i] == which && xs[i] == x {
        if i < n { assert flags[..n][i] == which && xs[..n][i] == x; }
      }
    }
  }

  lemma PickOneMore<T>(xs: seq<T>, flags: seq<bool>, which: bool, i: nat)
    requires |xs| == |flags| && i < |xs|
    ensures Pick(xs[..i + 1], flags[..i + 1], which) == Pick(xs[..i], flags[..i], which) + if flags[i] == which
        then [xs[i]] else []
  {
    assert xs[..i + 1][..i] == xs[..i] && flags[..i + 1][..i] == flags[..i];
  }

  /** Both choices together are all the rows. */
  lemma {:induction false} PickBoth<T>(xs: seq<T>, flags: seq<bool>)
    requires |xs| == |flags|
    ensures multiset(Pick(xs, flags, false)) + multiset(Pick(xs, flags, true)) == multiset(xs)
  {
    if xs != [] {
      var n := |xs| - 1;
      PickBoth(xs[..n], flags[..n]);
      assert xs == xs[..n] + [xs[n]];
    }
  }

  /** `a` is `b` with some rows left out. */
  ghost predicate Subsequence<T(!new)>(a: seq<T>, b: seq<T>) { exists at: seq<nat> :: Places(a, b, at) }

  predicate Places<T(==)>(a: seq<T>, b: seq<T>, at: seq<nat>) {
    && |at| == |a| && (forall i :: 0 <= i < |at| ==> at[i] < |b| && a[i] == b[at[i]])
    && forall i, j :: 0 <= i < j < |at| ==> at[i] < at[j]
  }

  lemma PlacesOneMore<T>(a: seq<T>, b: seq<T>, at: seq<nat>, x: T, taken: bool)
    requires Places(a, b, at)
    ensures Places(if taken then a + [x] else a, b + [x], if taken then at + [|b|] else at)
  {
  }

  lemma PickLast<T>(front: seq<T>, flags: seq<bool>, which: bool, last: T, flag: bool)
    requires |front| == |flags|
    ensures Pick(front + [last], flags + [flag], which) ==
            if flag == which then Pick(front, flags, which) + [last] else Pick(front, flags, which)
  {
    assert (front + [last])[..|front|] == front && (flags + [flag])[..|flags|] == flags;
    assert Pick(front, flags, which) + [] == Pick(front, flags, which);
  }

  lemma {:induction false} PickPlaces<T>(xs: seq<T>, flags: seq<bool>, which: bool) returns (at: seq<nat>)
    requires |xs| == |flags|
    ensures Places(Pick(xs, flags, which), xs, at)
  {
    if xs == [] {
      at := [];
    } else {
      var n := |xs| - 1;
      var before := PickPlaces(xs[..n], flags[..n], which);
      PickLast(xs[..n], flags[..n], which, xs[n], flags[n]);
      assert xs == xs[..n] + [xs[n]] && flags == flags[..n] + [flags[n]];
      at := if flags[n] == which then before + [n] else before;
      PlacesOneMore(Pick(xs[..n], flags[..n], which), xs[..n], before, xs[n], flags[n] == which);
    }
  }

  lemma PickIsSubsequence<T(!new)>(xs: seq<T>, flags: seq<bool>, which: bool)
    requires |xs| == |flags|
    ensures Subsequence(Pick(xs, flags, which), xs)
  {
    var at := PickPlaces(xs, flags, which);
  }

  lemma SubsequenceTransitive<T(!new)>(a: seq<T>, b: seq<T>, c: seq<T>)
    requires Subsequence(a, b) && Subsequence(b, c)
    ensures Subsequence(a, c)
  {
    var f :| Places(a, b, f);
    var g :| Places(b, c, g);
    assert Places(a, c, seq(|f|, i requires 0 <= i < |f| => g[f[i]]));
  }

  /** `xs` with the rows that carry a flag replaced, in order, by those of `ys`. */
  function Merge<T>(xs: seq<T>, flags: seq<bool>, ys: seq<T>): (r: seq<T>)
    requires |xs| == |flags| && |ys| == |Pick(xs, flags, true)|
    ensures |r| == |xs|
  {
    if xs == [] then []
    else
      var n := |xs| - 1;
      if flags[n] then Merge(xs[..n], flags[..n], ys[..|ys| - 1]) + [ys[|ys| - 1]]
          else Merge(xs[..n], flags[..n], ys) + [xs[n]]
  }

  lemma {:induction false} PickSize<T, U>(xs: seq<T>, ys: seq<U>, flags: seq<bool>, which: bool)
    requires |xs| == |flags| == |ys|
    ensures |Pick(xs, flags, which)| == |Pick(ys, flags, which)|
  {
    if xs != [] {
      var n := |xs| - 1;
      PickSize(xs[..n], ys[..n], flags[..n], which);
    }
  }

  lemma {:induction false} PickNone<T>(xs: seq<T>, flags: seq<bool>)
    requires |xs| == |flags| && forall i :: 0 <= i < |flags| ==> !flags[i]
    ensures Pick(xs, flags, false) == xs && Pick(xs, flags, true) == []
  {
    if xs != [] {
      var n := |xs| - 1;
      PickNone(xs[..n], flags[..n]);
      assert xs == xs[..n] + [xs[n]];
    }
  }

  lemma {:induction false} MergeBack<T>(us: seq<T>, flags: seq<bool>)
    requires |us| == |flags|
    ensures Merge(us, flags, Pick(us, flags, true)) == us
  {
    if us != [] {
      var n := |us| - 1;
      MergeBack(us[..n], flags[..n]);
      assert us == us[..n] + [us[n]];
      if flags[n] {
        var p := Pick(us[..n], flags[..n], true);
        assert (p + [us[n]])[..|p|] == p;
      } else {
        assert Pick(us, flags, true) == Pick(us[..n], flags[..n], true);
      }
    }
  }

  lemma {:induction false} PickEvery<T>(xs: seq<T>, flags: seq<bool>)
    requires |xs| == |flags| && forall i :: 0 <= i < |flags| ==> flags[i]
    ensures Pick(xs, flags, false) == [] && Pick(xs, flags, true) == xs
  {
    if xs != [] {
      var n := |xs| - 1;
      PickEvery(xs[..n], flags[..n]);
      assert xs == xs[..n] + [xs[n]];
    }
  }

  lemma {:induction false} MergeEvery<T>(xs: seq<T>, flags: seq<bool>, ys: seq<T>)
    requires |xs| == |flags| == |ys| && |ys| == |Pick(xs, flags, true)| && forall i :: 0 <= i < |flags| ==> flags[i]
    ensures Merge(xs, flags, ys) == ys
  {
    if xs != [] {
      var n := |xs| - 1;
      PickEvery(xs[..n], flags[..n]);
      MergeEvery(xs[..n], flags[..n], ys[..n]);
      assert ys == ys[..n] + [ys[n]];
    }
  }

  lemma {:induction false} MergeNone<T>(xs: seq<T>, flags: seq<bool>, ys: seq<T>)
    requires |xs| == |flags| && |ys| == |Pick(xs, flags, true)| && forall i :: 0 <= i < |flags| ==> !flags[i]
    ensures Merge(xs, flags, ys) == xs
  {
    if xs != [] {
      var n := |xs| - 1;
      MergeNone(xs[..n], flags[..n], ys);
      assert xs == xs[..n] + [xs[n]];
    }
  }

  // ---------------------------------------------------------------------------------------
  // Places
  // ---------------------------------------------------------------------------------------

  /** How many of the first `i` flags are raised. */
  function Raised(flags: seq<bool>, i: nat): nat
    requires i <= |flags|
  {
    if i == 0 then 0 else Raised(flags, i - 1) + if flags[i - 1] then 1 else 0
  }

  lemma {:induction false} RaisedPrefix(flags: seq<bool>, n: nat, i: nat)
    requires i <= n <= |flags|
    ensures Raised(flags[..n], i) == Raised(flags, i)
  {
    if i > 0 { RaisedPrefix(flags, n, i - 1); }
  }

  lemma {:induction false} RaisedGrows(flags: seq<bool>, i: nat, j: nat)
    requires i <= j <= |flags|
    ensures Raised(flags, i) <= Raised(flags, j)
  {
    if i < j { RaisedGrows(flags, i, j - 1); }
  }

  /** The row `i` is the `Raised(flags, i)`th of those that carry a flag. */
  lemma {:induction false} PickAt<T>(xs: seq<T>, flags: seq<bool>)
    requires |xs| == |flags|
    ensures |Pick(xs, flags, true)| == Raised(flags, |flags|)
    ensures forall i :: 0 <= i < |xs| && flags[i] ==>
      Raised(flags, i) < Raised(flags, |flags|) && Pick(xs, flags, true)[Raised(flags, i)] == xs[i]
  {
    if xs != [] {
      var n := |xs| - 1;
      PickAt(xs[..n], flags[..n]);
      RaisedPrefix(flags, n, n);
      forall i | 0 <= i < n && flags[i]
        ensures Raised(flags, i) < Raised(flags, n) && Pick(xs[..n], flags[..n], true)[Raised(flags, i)] == xs[i]
      {
        assert flags[..n][i] && xs[..n][i] == xs[i];
        RaisedPrefix(flags, n, i);
      }
    }
  }

  /** A row that carries a flag is replaced by the one in its place among them. */
  lemma {:induction false} MergeAt<T>(xs: seq<T>, flags: seq<bool>, ys: seq<T>, i: nat)
    requires |xs| == |flags| && |ys| == |Pick(xs, flags, true)| && i < |xs|
    ensures flags[i] ==> Raised(flags, i) < |ys|
    ensures Merge(xs, flags, ys)[i] == if flags[i] then ys[Raised(flags, i)] else xs[i]
  {
    var n := |xs| - 1;
    PickAt(xs, flags);
    PickAt(xs[..n], flags[..n]);
    RaisedPrefix(flags, n, n);
    if i < n {
      RaisedPrefix(flags, n, i);
      MergeAt(xs[..n], flags[..n], if flags[n] then ys[..|ys| - 1] else ys, i);
    }
  }

  /** The chunk that row `i` falls into when `size` rows are taken at a time, and its place in it. */
  function ChunkAt<T>(xs: seq<T>, size: nat, i: nat): (seq<T>, nat)
    requires size > 0 && i < |xs|
  {
    if i >= size then ChunkAt(xs[size..], size, i - size) else (if |xs| <= size then xs else xs[..size], i)
  }

  lemma {:induction false} ChunkHolds<T>(xs: seq<T>, size: nat, i: nat)
    requires size > 0 && i < |xs|
    ensures
      var (chunk, k) := ChunkAt(xs, size, i);
      |chunk| <= size && k < |chunk| && chunk[k] == xs[i]
  {
    if i >= size { ChunkHolds(xs[size..], size, i - size); }
  }

  // ---------------------------------------------------------------------------------------
  // Permutations
  // ---------------------------------------------------------------------------------------

  function Mapped<T, U>(a: seq<T>, f: T -> U): seq<U> { seq(|a|, i requires 0 <= i < |a| => f(a[i])) }

  lemma MappedWithout<T, U>(b: seq<T>, j: nat, f: T -> U)
    requires j < |b|
    ensures multiset(b) == multiset(b[..j] + b[j + 1..]) + multiset{b[j]}
    ensures multiset(Mapped(b, f)) == multiset(Mapped(b[..j] + b[j + 1..], f)) + multiset{f(b[j])}
  {
    assert b == b[..j] + [b[j]] + b[j + 1..];
    assert Mapped(b, f) == Mapped(b[..j], f) + [f(b[j])] + Mapped(b[j + 1..], f);
    assert Mapped(b[..j] + b[j + 1..], f) == Mapped(b[..j], f) + Mapped(b[j + 1..], f);
  }

  /** Mapping keeps permutations. */
  lemma {:induction false} MappedPermutation<T, U>(a: seq<T>, b: seq<T>, f: T -> U)
    requires multiset(a) == multiset(b)
    ensures multiset(Mapped(a, f)) == multiset(Mapped(b, f))
  {
    if a == [] {
      assert |multiset(a)| == |multiset(b)| == |b|;
    } else {
      var n := |a| - 1;
      assert a[n] in multiset(b);
      var j :| 0 <= j < |b| && b[j] == a[n];
      MappedWithout(a, n, f);
      MappedWithout(b, j, f);
      var rest, others := a[..n] + a[n + 1..], b[..j] + b[j + 1..];
      assert multiset(rest) == multiset(a) - multiset{a[n]} == multiset(others);
      MappedPermutation(rest, others, f);
    }
  }
}
