/** Drawing a class-balanced sample from a labelled split. A shuffle is any permutation. */
module Stratified {
  import opened Wrappers

  datatype Row = Row(text: string, cls: int)

  datatype Error = UnknownLabel | TooFewRows | NoClasses | MissingLabel

  /** The `k`th shuffle of a run. */
  type Shuffle = (nat, seq<Row>) -> seq<Row>

  ghost predicate Permutes(shuffle: Shuffle) {
    forall k: nat, s: seq<Row> :: multiset(shuffle(k, s)) == multiset(s)
  }

  function Bucket(split: seq<Row>, l: int): seq<Row> {
    if split == [] then []
    else
      var n := |split| - 1;
      Bucket(split[..n], l) + if split[n].cls == l then [split[n]] else []
  }

  predicate Known(split: seq<Row>, classes: nat) { forall r :: r in split ==> 0 <= r.cls < classes }

  /** How many rows of a class a balanced request of `count` takes. */
  function Take(count: nat, classes: nat, l: nat): nat
    requires classes > 0
  {
    count / classes + if l < count % classes then 1 else 0
  }

  function Total(count: nat, classes: nat, l: nat): nat
    requires classes > 0
  {
    if l == 0 then 0 else Total(count, classes, l - 1) + Take(count, classes, l - 1)
  }

  lemma {:induction false} TotalIs(count: nat, classes: nat, l: nat)
    requires 0 < classes && l <= classes
    ensures Total(count, classes, l) == l * (count / classes) + if l <= count % classes then l else count % classes
  {
    if l > 0 {
      TotalIs(count, classes, l - 1);
      assert l * (count / classes) == (l - 1) * (count / classes) + count / classes;
    }
  }

  lemma TotalIsCount(count: nat, classes: nat)
    requires classes > 0
    ensures Total(count, classes, classes) == count
  {
    TotalIs(count, classes, classes);
    assert count == classes * (count / classes) + count % classes;
  }

  lemma {:induction false} BucketMembers(split: seq<Row>, l: int)
    ensures multiset(Bucket(split, l)) <= multiset(split)
    ensures forall r :: r in Bucket(split, l) <==> r in split && r.cls == l
  {
    if split != [] {
      var n := |split| - 1;
      BucketMembers(split[..n], l);
      assert split == split[..n] + [split[n]];
    }
  }

  // ---------------------------------------------------------------------------------------
  // available_row_count
  // ---------------------------------------------------------------------------------------

  /** The smallest count among the labels of `rows`, each counted over `split`. */
  function MinCount(split: seq<Row>, rows: seq<Row>): nat
    requires rows != []
  {
    var n := |Bucket(split, rows[0].cls)|;
    if |rows| == 1 || n <= MinCount(split, rows[1..]) then n else MinCount(split, rows[1..])
  }

  lemma {:induction false} MinCountIsLeast(split: seq<Row>, rows: seq<Row>)
    requires rows != []
    ensures forall r :: r in rows ==> MinCount(split, rows) <= |Bucket(split, r.cls)|
    ensures exists r :: r in rows && MinCount(split, rows) == |Bucket(split, r.cls)|
  {
    if |rows| > 1 {
      MinCountIsLeast(split, rows[1..]);
      if MinCount(split, rows) != |Bucket(split, rows[0].cls)| {
        var r :| r in rows[1..] && MinCount(split, rows[1..]) == |Bucket(split, r.cls)|;
        assert r in rows;
      }
      forall r | r in rows ensures MinCount(split, rows) <= |Bucket(split, r.cls)| {
        if r != rows[0] { assert r in rows[1..]; }
      }
    } else {
      assert rows[0] in rows;
    }
  }

  function Available(split: seq<Row>, requested: nat, classes: nat, random: bool): Result<nat, Error> {
    if random then Success(Min(requested, |split|))
    else if exists l :: 0 <= l < classes && Bucket(split, l) == [] then Failure(MissingLabel)
    else if split == [] then Failure(NoClasses)
    else Success(Min(requested, MinCount(split, split) * classes))
  }

  function Min(a: nat, b: nat): nat { if a <= b then a else b }

  // ---------------------------------------------------------------------------------------
  // stratified_rows
  // ---------------------------------------------------------------------------------------

  /** When a request can be met. */
  predicate Enough(split: seq<Row>, count: nat, classes: nat, random: bool) {
    && Known(split, classes)
    && if random then count <= |split|
       else classes > 0 && forall l: nat :: l < classes ==> Take(count, classes, l) <= |Bucket(split, l)|
  }

  lemma CapIsTakable(count: nat, classes: nat, least: nat, l: nat)
    requires classes > 0 && count <= least * classes
    ensures Take(count, classes, l) <= least
  {
    var q := count / classes;
    assert count == classes * q + count % classes;
    if q > least { Larger(classes, q, least); } else if q == least { assert count % classes == 0; }
  }

  lemma Larger(classes: nat, q: nat, least: nat)
    requires classes > 0 && q > least
    ensures classes * q > least * classes
  {
    assert classes * q - classes * least == classes * (q - least);
  }

  /** A request capped by `available_row_count` can be met exactly when every label of the split is a known class. */
  lemma CappedRequestIsMet(split: seq<Row>, requested: nat, classes: nat, random: bool)
    requires classes > 0 && Available(split, requested, classes, random).Success?
    ensures Enough(split, Available(split, requested, classes, random).value, classes, random) <==>
        Known(split, classes)
  {
    if !random {
      var k := Available(split, requested, classes, random).value;
      MinCountIsLeast(split, split);
      forall l: nat | l < classes ensures Take(k, classes, l) <= |Bucket(split, l)| {
        BucketMembers(split, l);
        assert Bucket(split, l)[0] in split && Bucket(split, l)[0].cls == l;
        CapIsTakable(k, classes, MinCount(split, split), l);
      }
    }
  }

  ghost predicate DrawnFrom(rows: seq<Row>, split: seq<Row>, count: nat, classes: nat, l: nat)
    requires classes > 0
  {
    multiset(Bucket(rows, l)) <= multiset(Bucket(split, l)) && |Bucket(rows, l)| == Take(count, classes, l)
  }

  /** Rows drawn without replacement, `Take` of them from each class. */
  ghost predicate Drawn(rows: seq<Row>, split: seq<Row>, count: nat, classes: nat, upTo: nat)
    requires classes > 0
  {
    && (forall l: nat {:trigger DrawnFrom(rows, split, count, classes, l)} :: l < upTo ==>
        DrawnFrom(rows, split, count, classes, l))
    && (forall r :: r in rows ==> 0 <= r.cls < upTo)
    && |rows| == Total(count, classes, upTo)
  }

  lemma {:induction false} BucketOfJoined(a: seq<Row>, b: seq<Row>, l: int)
    ensures Bucket(a + b, l) == Bucket(a, l) + Bucket(b, l)
  {
    if b == [] {
      assert a + b == a;
    } else {
      var n := |b| - 1;
      BucketOfJoined(a, b[..n], l);
      assert (a + b)[..|a + b| - 1] == a + b[..n];
    }
  }

  lemma {:induction false} BucketOfOwn(rows: seq<Row>, l: int)
    requires forall r :: r in rows ==> r.cls == l
    ensures Bucket(rows, l) == rows && forall m :: m != l ==> Bucket(rows, m) == []
  {
    if rows != [] {
      var n := |rows| - 1;
      BucketOfOwn(rows[..n], l);
      assert rows == rows[..n] + [rows[n]];
    }
  }

  lemma {:induction false} NoneInBucket(rows: seq<Row>, l: int)
    requires forall r :: r in rows ==> r.cls < l
    ensures Bucket(rows, l) == []
  {
    if rows != [] {
      assert rows[|rows| - 1] in rows;
      NoneInBucket(rows[..|rows| - 1], l);
    }
  }

  lemma DrawnClass(rows: seq<Row>, more: seq<Row>, l: nat, m: nat)
    requires forall r :: r in rows ==> r.cls < l
    requires forall r :: r in more ==> r.cls == l
    ensures Bucket(rows + more, m) == if m == l then more else Bucket(rows, m)
  {
    BucketOfJoined(rows, more, m);
    BucketOfOwn(more, l);
    if m == l { NoneInBucket(rows, l); }
    assert [] + more == more && Bucket(rows, m) + [] == Bucket(rows, m);
  }

  lemma DrawOneMore(rows: seq<Row>, split: seq<Row>, count: nat, classes: nat, l: nat, more: seq<Row>)
    requires classes > 0 && Drawn(rows, split, count, classes, l)
    requires |more| == Take(count, classes, l) && multiset(more) <= multiset(Bucket(split, l))
    ensures Drawn(rows + more, split, count, classes, l + 1)
  {
    forall r | r in more ensures r.cls == l {
      BucketMembers(split, l);
      assert r in multiset(more) && r in Bucket(split, l);
    }
    forall m: nat | m < l + 1 ensures DrawnFrom(rows + more, split, count, classes, m) {
      DrawnClass(rows, more, l, m);
      assert m < l ==> DrawnFrom(rows, split, count, classes, m);
    }
  }

  lemma {:induction false} BucketsOfPermuted(a: seq<Row>, b: seq<Row>, l: int)
    requires multiset(a) == multiset(b)
    ensures multiset(Bucket(a, l)) == multiset(Bucket(b, l))
  {
    forall r ensures multiset(Bucket(a, l))[r] == multiset(Bucket(b, l))[r] {
      BucketCount(a, l, r);
      BucketCount(b, l, r);
    }
  }

  lemma {:induction false} BucketCount(a: seq<Row>, l: int, r: Row)
    ensures multiset(Bucket(a, l))[r] == if r.cls == l then multiset(a)[r] else 0
  {
    if a != [] {
      var n := |a| - 1;
      BucketCount(a[..n], l, r);
      assert a == a[..n] + [a[n]];
    }
  }

  lemma DrawnPermuted(rows: seq<Row>, shuffled: seq<Row>, split: seq<Row>, count: nat, classes: nat)
    requires classes > 0 && Drawn(rows, split, count, classes, classes) && multiset(shuffled) == multiset(rows)
    ensures Drawn(shuffled, split, count, classes, classes)
  {
    SameSize(rows, shuffled);
    forall r | r in shuffled ensures r in rows { assert r in multiset(shuffled); }
    forall l: nat | l < classes ensures DrawnFrom(shuffled, split, count, classes, l) {
      assert DrawnFrom(rows, split, count, classes, l);
      BucketsOfPermuted(rows, shuffled, l);
      SameSize(Bucket(rows, l), Bucket(shuffled, l));
    }
  }

  lemma SameSize(a: seq<Row>, b: seq<Row>)
    requires multiset(a) == multiset(b)
    ensures |a| == |b|
  {
    assert |multiset(a)| == |a| && |multiset(b)| == |b|;
  }

  lemma PrefixOfPermuted(bucket: seq<Row>, shuffled: seq<Row>, n: nat)
    requires multiset(shuffled) == multiset(bucket) && n <= |shuffled|
    ensures multiset(shuffled[..n]) <= multiset(bucket)
  {
    assert shuffled == shuffled[..n] + shuffled[n..];
  }

  lemma BucketStep(rows: seq<Row>, r: Row, l: int)
    ensures Bucket(rows + [r], l) == Bucket(rows, l) + if r.cls == l then [r] else []
  {
    assert (rows + [r])[..|rows|] == rows;
  }

  ghost predicate Filled(buckets: map<int, seq<Row>>, rows: seq<Row>, classes: nat) {
    && (forall l :: l in buckets <==> 0 <= l < classes)
    && forall l {:trigger Bucket(rows, l)} :: 0 <= l < classes ==> buckets[l] == Bucket(rows, l)
  }

  /** The buckets, filled row by row, or the label that has none. */
  method FillBuckets(split: seq<Row>, classes: nat) returns (r: Result<map<int, seq<Row>>, Error>)
    ensures r.Success? <==> Known(split, classes)
    ensures r.Failure? ==> r.error == UnknownLabel
    ensures r.Success? ==> Filled(r.value, split, classes)
  {
    var buckets := map l: int | 0 <= l < classes :: Bucket([], l);
    for i := 0 to |split|
      invariant forall k :: 0 <= k < i ==> 0 <= split[k].cls < classes
      invariant Filled(buckets, split[..i], classes)
    {
      var row := split[i];
      if row.cls !in buckets { return Failure(UnknownLabel); }
      assert split[..i + 1] == split[..i] + [row];
      forall l ensures Bucket(split[..i + 1], l) == Bucket(split[..i], l) + if row.cls == l then [row] else [] {
        BucketStep(split[..i], row, l);
      }
      buckets := buckets[row.cls := buckets[row.cls] + [row]];
    }
    assert split[..|split|] == split;
    return Success(buckets);
  }

  lemma {:induction false} CombinedIsAll(split: seq<Row>, classes: nat)
    requires Known(split, classes)
    ensures multiset(Combined(split, classes)) == multiset(split)
  {
    if split == [] {
      NothingCombined(classes);
    } else {
      var n := |split| - 1;
      forall r | r in split[..n] ensures 0 <= r.cls < classes { assert r in split; }
      CombinedIsAll(split[..n], classes);
      assert split[n] in split;
      CombinedOneMore(split[..n], split[n], classes);
      assert split == split[..n] + [split[n]];
    }
  }

  function Combined(split: seq<Row>, classes: nat): seq<Row> {
    if classes == 0 then [] else Combined(split, classes - 1) + Bucket(split, classes - 1)
  }

  lemma {:induction false} NothingCombined(classes: nat)
    ensures Combined([], classes) == []
  {
    if classes > 0 { NothingCombined(classes - 1); }
  }

  lemma {:induction false} CombinedOneMore(split: seq<Row>, r: Row, classes: nat)
    requires 0 <= r.cls
    ensures multiset(Combined(split + [r], classes)) ==
            multiset(Combined(split, classes)) + if r.cls < classes then multiset{r} else multiset{}
  {
    hide Bucket;
    if classes > 0 {
      var l := classes - 1;
      var before, after, bucket := Combined(split, l), Combined(split + [r], l), Bucket(split, l);
      CombinedOneMore(split, r, l);
      BucketStep(split, r, l);
      if r.cls == l {
        JoinedMultisets(before, after, bucket, [r], multiset{});
      } else {
        assert bucket + [] == bucket;
        JoinedMultisets(before, after, bucket, [], if r.cls < l then multiset{r} else multiset{});
      }
    }
  }

  lemma JoinedMultisets(c: seq<Row>, d: seq<Row>, b: seq<Row>, more: seq<Row>, x: multiset<Row>)
    requires multiset(d) == multiset(c) + x
    ensures multiset(d + (b + more)) == multiset(c + b) + x + multiset(more)
  {
  }

  /** The first rows of each shuffled bucket, class after class. */
  function Draws(split: seq<Row>, count: nat, classes: nat, shuffle: Shuffle, l: nat): seq<Row>
    requires l <= classes && classes > 0
  {
    if l == 0 then []
    else
      var bucket, take := shuffle(l - 1, Bucket(split, l - 1)), Take(count, classes, l - 1);
      Draws(split, count, classes, shuffle, l - 1) + if take <= |bucket| then bucket[..take] else bucket
  }

  method RandomRows(buckets: map<int, seq<Row>>, ghost split: seq<Row>, count: nat, classes: nat, shuffle: Shuffle)
    returns (r: Result<seq<Row>, Error>)
    requires Permutes(shuffle) && Known(split, classes) && Filled(buckets, split, classes)
    ensures if count <= |split| then r.Success? else r == Failure(TooFewRows)
    ensures r.Success? ==> |r.value| == count && multiset(r.value) <= multiset(split)
    ensures r.Success? ==> |shuffle(0, Combined(split, classes))| >= count
    ensures r.Success? ==> r.value == shuffle(0, Combined(split, classes))[..count]
  {
    var combined: seq<Row> := [];
    for l := 0 to classes
      invariant combined == Combined(split, l)
    {
      combined := combined + buckets[l];
    }
    CombinedIsAll(split, classes);
    SameSize(combined, split);
    if |combined| < count { return Failure(TooFewRows); }
    var shuffled := shuffle(0, combined);
    SameSize(shuffled, combined);
    PrefixOfPermuted(split, shuffled, count);
    return Success(shuffled[..count]);
  }

  method BalancedRows(buckets: map<int, seq<Row>>, ghost split: seq<Row>, count: nat, classes: nat, shuffle: Shuffle)
    returns (r: Result<seq<Row>, Error>)
    requires Permutes(shuffle) && Filled(buckets, split, classes) && classes > 0
    ensures r.Success? <==> forall l: nat :: l < classes ==> Take(count, classes, l) <= |Bucket(split, l)|
    ensures r.Success? ==> |r.value| == count && Drawn(r.value, split, count, classes, classes)
    ensures r.Success? ==> r.value == shuffle(classes, Draws(split, count, classes, shuffle, classes))
    ensures r.Failure? ==> r.error == TooFewRows
  {
    hide Bucket;
    var result: seq<Row> := [];
    for l := 0 to classes
      invariant Drawn(result, split, count, classes, l) && result == Draws(split, count, classes, shuffle, l)
      invariant forall m: nat :: m < l ==> Take(count, classes, m) <= |Bucket(split, m)|
    {
      var bucket := shuffle(l, buckets[l]);
      SameSize(bucket, Bucket(split, l));
      var take := Take(count, classes, l);
      if |bucket| < take { return Failure(TooFewRows); }
      PrefixOfPermuted(Bucket(split, l), bucket, take);
      DrawOneMore(result, split, count, classes, l, bucket[..take]);
      result := result + bucket[..take];
    }
    var shuffled := shuffle(classes, result);
    DrawnPermuted(result, shuffled, split, count, classes);
    TotalIsCount(count, classes);
    return Success(shuffled);
  }

  method StratifiedRows(split: seq<Row>, count: nat, classes: nat, random: bool, shuffle: Shuffle)
    returns (r: Result<seq<Row>, Error>)
    requires Permutes(shuffle)
    ensures r.Success? <==> Enough(split, count, classes, random)
    ensures r.Success? ==> |r.value| == count && if random then multiset(r.value) <= multiset(split)
        else Drawn(r.value, split, count, classes, classes)
    ensures r.Success? && random ==>
      var shuffled := shuffle(0, Combined(split, classes));
      count <= |shuffled| && r.value == shuffled[..count]
    ensures r.Success? && !random ==>
      classes > 0 && r.value == shuffle(classes, Draws(split, count, classes, shuffle, classes))
    ensures r.Failure? ==> r.error == if !Known(split, classes) then UnknownLabel
        else if !random && classes == 0 then NoClasses else TooFewRows
  {
    var filled := FillBuckets(split, classes);
    if filled.Failure? { return Failure(filled.error); }
    if random {
      r := RandomRows(filled.value, split, count, classes, shuffle);
    } else if classes == 0 {
      r := Failure(NoClasses);
    } else {
      r := BalancedRows(filled.value, split, count, classes, shuffle);
    }
  }

  /** Class counts of a balanced draw differ by at most one. */
  lemma BalancedDraw(rows: seq<Row>, split: seq<Row>, count: nat, classes: nat, l: nat, m: nat)
    requires classes > 0 && Drawn(rows, split, count, classes, classes) && l < m < classes
    ensures |Bucket(rows, m)| <= |Bucket(rows, l)| <= |Bucket(rows, m)| + 1
  {
    assert DrawnFrom(rows, split, count, classes, l) && DrawnFrom(rows, split, count, classes, m);
  }

  lemma BucketOfThree(a: Row, b: Row, c: Row, l: int)
    requires a.cls == 0 && b.cls == 1 && c.cls == 2
    ensures Bucket([a, b, c], l) == if l == 0 then [a] else if l == 1 then [b] else if l == 2 then [c] else []
  {
    hide Bucket;
    assert [a, b, c] == (([] + [a]) + [b]) + [c];
    BucketStep([], a, l);
    BucketStep([] + [a], b, l);
    BucketStep(([] + [a]) + [b], c, l);
    assert Bucket([], l) == [] by { NoRows(l); }
  }

  lemma NoRows(l: int)
    ensures Bucket([], l) == []
  {
  }

  lemma MinCountOfThree(a: Row, b: Row, c: Row)
    requires a.cls == 0 && b.cls == 1 && c.cls == 2
    ensures MinCount([a, b, c], [a, b, c]) == 1
  {
    hide Bucket;
    BucketOfThree(a, b, c, 0);
    BucketOfThree(a, b, c, 1);
    BucketOfThree(a, b, c, 2);
    assert [c][1..] == [] && MinCount([a, b, c], [c]) == 1;
    assert [b, c][1..] == [c] && MinCount([a, b, c], [b, c]) == 1;
    assert [a, b, c][1..] == [b, c];
  }

  /** An input for which a capped request cannot be met: a third label in a split of two classes. */
  lemma UnknownLabelExample(requested: nat)
    ensures
      var split := [Row("a", 0), Row("b", 1), Row("c", 2)];
      && Available(split, requested, 2, false) == Success(if requested <= 2 then requested else 2)
      && !Enough(split, Available(split, requested, 2, false).value, 2, false)
  {
    hide MinCount, Bucket;
    var a, b, c := Row("a", 0), Row("b", 1), Row("c", 2);
    MinCountOfThree(a, b, c);
    BucketOfThree(a, b, c, 0);
    BucketOfThree(a, b, c, 1);
    assert c in [a, b, c] && !(0 <= c.cls < 2);
  }
}
