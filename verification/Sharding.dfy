/** Splitting a dataset round robin within each label, and merging what the partitions produced. A file is its list of
    rows; the streaming and the container format of a file are not modelled. */
module Sharding {
  import opened Schemas
  import opened Sequences
  import opened Wrappers

  datatype Error = NoPartitions | NoRows | BadRow

  /** The counter a row goes through: its scalar label's, or the shared one. */
  type Lane = Option<string>

  function LabelText(a: Atom, show: Show): string { match a case AStr(s) => s case AInt(i) => show(JNum(i as real)) }

  function LaneOf(x: Item, stratify: bool, show: Show): Lane {
    if stratify && x.labels.Some? && x.labels.value.One? then Some(LabelText(x.labels.value.x, show)) else None
  }

  function Lanes(items: seq<Item>, stratify: bool, show: Show): seq<Lane> {
    seq(|items|, i requires 0 <= i < |items| => LaneOf(items[i], stratify, show))
  }

  function Count(lanes: seq<Lane>, l: Lane): nat {
    if lanes == [] then 0
    else
      var n := |lanes| - 1;
      Count(lanes[..n], l) + if lanes[n] == l then 1 else 0
  }

  /** Which rows go to partition `p`: those whose lane has seen `p` rows modulo `n` before them. */
  function Flags(lanes: seq<Lane>, n: nat, p: nat): (f: seq<bool>)
    requires n > 0
    ensures |f| == |lanes|
  {
    if lanes == [] then []
    else
      var k := |lanes| - 1;
      Flags(lanes[..k], n, p) + [Count(lanes[..k], lanes[k]) % n == p]
  }

  function Part<T>(xs: seq<T>, lanes: seq<Lane>, n: nat, p: nat): seq<T>
    requires n > 0 && |xs| == |lanes|
  {
    Pick(xs, Flags(lanes, n, p), true)
  }

  // ---------------------------------------------------------------------------------------
  // Balance
  // ---------------------------------------------------------------------------------------

  /** The share of partition `p` in `c` rows dealt round robin. */
  function Share(c: nat, n: nat, p: nat): nat
    requires n > 0
  {
    c / n + if p < c % n then 1 else 0
  }

  lemma OneMoreDealt(c: nat, n: nat)
    requires n > 0
    ensures (c + 1) / n == if c % n == n - 1 then c / n + 1 else c / n
    ensures (c + 1) % n == if c % n == n - 1 then 0 else c % n + 1
  {
    var q, r := c / n, c % n;
    assert c + 1 == n * q + (r + 1);
    if r == n - 1 { QuotientIs(c + 1, n, q + 1, 0); } else { QuotientIs(c + 1, n, q, r + 1); }
  }

  lemma QuotientIs(a: nat, n: nat, q: nat, r: nat)
    requires n > 0 && a == n * q + r && r < n
    ensures a / n == q && a % n == r
  {
    var q', r' := a / n, a % n;
    assert a == n * q' + r' && 0 <= r' < n;
    assert n * q' - n * q == n * (q' - q) && n * q - n * q' == n * (q - q');
    if q' > q { Multiple(n, q' - q); } else if q' < q { Multiple(n, q - q'); }
  }

  lemma Multiple(n: nat, d: nat)
    requires n > 0 && d > 0
    ensures n * d >= n
  {
    assert n * d == n * (d - 1) + n;
  }

  lemma OneMoreShare(c: nat, n: nat, p: nat)
    requires p < n
    ensures Share(c + 1, n, p) == Share(c, n, p) + if c % n == p then 1 else 0
  {
    OneMoreDealt(c, n);
  }

  lemma PartCountOneMore(lanes: seq<Lane>, n: nat, p: nat, l: Lane, front: seq<Lane>, last: Lane)
    requires p < n && lanes == front + [last]
    ensures Count(Part(lanes, lanes, n, p), l) ==
            Count(Part(front, front, n, p), l) + if last == l && Count(front, l) % n == p then 1 else 0
  {
    assert lanes[..|front|] == front;
    PartOneMore(lanes, lanes, n, p);
    if Count(front, last) % n == p {
      CountOneMore(Part(front, front, n, p), last, l);
    } else {
      assert Part(front, front, n, p) + [] == Part(front, front, n, p);
    }
  }

  /** Every partition gets its share of every label. */
  lemma {:induction false} PartHasShare(lanes: seq<Lane>, n: nat, p: nat, l: Lane)
    requires p < n
    ensures Count(Part(lanes, lanes, n, p), l) == Share(Count(lanes, l), n, p)
  {
    if lanes == [] {
      assert Share(0, n, p) == 0 by { QuotientIs(0, n, 0, 0); }
    } else {
      var k := |lanes| - 1;
      PartHasShare(lanes[..k], n, p, l);
      assert lanes == lanes[..k] + [lanes[k]];
      PartCountOneMore(lanes, n, p, l, lanes[..k], lanes[k]);
      if lanes[k] == l { OneMoreShare(Count(lanes[..k], l), n, p); }
    }
  }

  lemma CountOneMore(lanes: seq<Lane>, last: Lane, l: Lane)
    ensures Count(lanes + [last], l) == Count(lanes, l) + if last == l then 1 else 0
  {
    assert (lanes + [last])[..|lanes|] == lanes;
  }

  lemma PartOneMore<T>(xs: seq<T>, lanes: seq<Lane>, n: nat, p: nat)
    requires n > 0 && |xs| == |lanes| > 0
    ensures
      var k := |xs| - 1;
      Part(xs, lanes, n, p) ==
        Part(xs[..k], lanes[..k], n, p) + if Count(lanes[..k], lanes[k]) % n == p then [xs[k]] else []
  {
    var k := |xs| - 1;
    assert Flags(lanes, n, p)[..k] == Flags(lanes[..k], n, p);
  }

  lemma {:induction false} LanesOfPart(items: seq<Item>, stratify: bool, show: Show, n: nat, p: nat)
    requires n > 0
    ensures
      var lanes := Lanes(items, stratify, show);
      Lanes(Part(items, lanes, n, p), stratify, show) == Part(lanes, lanes, n, p)
  {
    if items != [] {
      var k := |items| - 1;
      var lanes := Lanes(items, stratify, show);
      LanesOfPart(items[..k], stratify, show, n, p);
      assert Lanes(items[..k], stratify, show) == lanes[..k];
      PartOneMore(items, lanes, n, p);
      PartOneMore(lanes, lanes, n, p);
    }
  }

  /** For every label the partitions' counts differ by at most one, an earlier partition having no fewer. */
  lemma PartitionsAreBalanced(items: seq<Item>, stratify: bool, show: Show, n: nat, p: nat, q: nat, l: Lane)
    requires p < q < n
    ensures
      var lanes := Lanes(items, stratify, show);
      var a, b := Count(Lanes(Part(items, lanes, n, p), stratify, show), l),
          Count(Lanes(Part(items, lanes, n, q), stratify, show), l);
      b <= a <= b + 1
  {
    var lanes := Lanes(items, stratify, show);
    LanesOfPart(items, stratify, show, n, p);
    LanesOfPart(items, stratify, show, n, q);
    PartHasShare(lanes, n, p, l);
    PartHasShare(lanes, n, q, l);
  }

  lemma {:induction false} CountsSomething(lanes: seq<Lane>, i: nat)
    requires i < |lanes|
    ensures Count(lanes, lanes[i]) > 0
  {
    if i < |lanes| - 1 {
      CountsSomething(lanes[..|lanes| - 1], i);
    }
  }

  /** The partitions that receive a row are the first ones. */
  lemma FilledPartitionsAreAPrefix(items: seq<Item>, stratify: bool, show: Show, n: nat, p: nat, q: nat)
    requires p < q < n && Part(items, Lanes(items, stratify, show), n, q) != []
    ensures Part(items, Lanes(items, stratify, show), n, p) != []
  {
    var lanes := Lanes(items, stratify, show);
    var there := Lanes(Part(items, lanes, n, q), stratify, show);
    CountsSomething(there, 0);
    PartitionsAreBalanced(items, stratify, show, n, p, q, there[0]);
  }

  // ---------------------------------------------------------------------------------------
  // Which partition a row goes to
  // ---------------------------------------------------------------------------------------

  predicate HasScalar(x: Item) { x.labels.Some? && x.labels.value.One? }

  /** Both labels read the same when written out. */
  predicate SameScalar(x: Item, y: Item, show: Show)
    requires HasScalar(x) && HasScalar(y)
  {
    match (x.labels.value.x, y.labels.value.x)
    case (AStr(s), AStr(t)) => s == t
    case (AInt(i), AInt(j)) => show(JNum(i as real)) == show(JNum(j as real))
    case (AStr(s), AInt(j)) => s == show(JNum(j as real))
    case (AInt(i), AStr(t)) => show(JNum(i as real)) == t
  }

  /** Rows that share a counter: all of them, or when stratifying those of one scalar label, and those without any. */
  predicate ShareCounter(x: Item, y: Item, stratify: bool, show: Show) {
    || !stratify || (!HasScalar(x) && !HasScalar(y)) || (HasScalar(x) && HasScalar(y) && SameScalar(x, y, show))
  }

  lemma SameLaneExactly(x: Item, y: Item, stratify: bool, show: Show)
    ensures LaneOf(x, stratify, show) == LaneOf(y, stratify, show) <==> ShareCounter(x, y, stratify, show)
  {
  }

  /** How many of these rows share a counter with `x`. */
  function Sharing(rows: seq<Item>, x: Item, stratify: bool, show: Show): nat {
    if rows == [] then 0
    else
      var n := |rows| - 1;
      Sharing(rows[..n], x, stratify, show) + if ShareCounter(rows[n], x, stratify, show) then 1 else 0
  }

  lemma {:induction false} SharingIsCount(rows: seq<Item>, x: Item, stratify: bool, show: Show)
    ensures Sharing(rows, x, stratify, show) == Count(Lanes(rows, stratify, show), LaneOf(x, stratify, show))
  {
    hide LaneOf, ShareCounter;
    if rows != [] {
      var n := |rows| - 1;
      SharingIsCount(rows[..n], x, stratify, show);
      SameLaneExactly(rows[n], x, stratify, show);
      assert Lanes(rows, stratify, show)[..n] == Lanes(rows[..n], stratify, show);
    }
  }

  lemma {:induction false} FlagsAt(lanes: seq<Lane>, n: nat, p: nat, i: nat)
    requires n > 0 && i < |lanes|
    ensures Flags(lanes, n, p)[i] <==> Count(lanes[..i], lanes[i]) % n == p
  {
    var k := |lanes| - 1;
    if i < k {
      FlagsAt(lanes[..k], n, p, i);
      assert lanes[..k][..i] == lanes[..i];
    }
  }

  /** Round robin: a row goes to the partition numbered by the rows before it that share its counter, modulo their
      number. */
  lemma DealtExactly(items: seq<Item>, stratify: bool, show: Show, n: nat, p: nat, i: nat)
    requires n > 0 && i < |items|
    ensures Flags(Lanes(items, stratify, show), n, p)[i] <==> Sharing(items[..i], items[i], stratify, show) % n == p
  {
    var lanes := Lanes(items, stratify, show);
    FlagsAt(lanes, n, p, i);
    SharingIsCount(items[..i], items[i], stratify, show);
    assert lanes[..i] == Lanes(items[..i], stratify, show);
  }

  /** Of the rows that share a counter an earlier partition has as many as a later one, or one more. */
  lemma LabelsAreBalanced(items: seq<Item>, x: Item, stratify: bool, show: Show, n: nat, p: nat, q: nat)
    requires p < q < n
    ensures
      var lanes := Lanes(items, stratify, show);
      var a, b := Sharing(Part(items, lanes, n, p), x, stratify, show),
          Sharing(Part(items, lanes, n, q), x, stratify, show);
      b <= a <= b + 1
  {
    var lanes := Lanes(items, stratify, show);
    SharingIsCount(Part(items, lanes, n, p), x, stratify, show);
    SharingIsCount(Part(items, lanes, n, q), x, stratify, show);
    PartitionsAreBalanced(items, stratify, show, n, p, q, LaneOf(x, stratify, show));
  }

  // ---------------------------------------------------------------------------------------
  // Nothing is lost
  // ---------------------------------------------------------------------------------------

  function Flatten<T>(parts: seq<seq<T>>): seq<T> {
    if parts == [] then [] else Flatten(parts[..|parts| - 1]) + parts[|parts| - 1]
  }

  function Parts<T>(xs: seq<T>, lanes: seq<Lane>, n: nat): seq<seq<T>>
    requires n > 0 && |xs| == |lanes|
  {
    seq(n, p requires 0 <= p < n => Part(xs, lanes, n, p))
  }

  lemma AddRows<T>(c: seq<T>, d: seq<T>, b: seq<T>, more: seq<T>, x: multiset<T>)
    requires multiset(d) == multiset(c) + x
    ensures multiset(d + (b + more)) == multiset(c + b) + x + multiset(more)
  {
  }

  /** Adding a row to one part adds it to the whole. */
  lemma {:induction false} FlattenOneMore<T>(before: seq<seq<T>>, after: seq<seq<T>>, at: nat, last: T)
    requires |before| == |after|
    requires forall p :: 0 <= p < |before| ==> after[p] == before[p] + if p == at then [last] else []
    ensures multiset(Flatten(after)) == multiset(Flatten(before)) + if at < |before| then multiset{last} else multiset{}
  {
    if before != [] {
      var m := |before| - 1;
      FlattenOneMore(before[..m], after[..m], at, last);
      AddRows(Flatten(before[..m]), Flatten(after[..m]), before[m],
              if at == m then [last] else [], if at < m then multiset{last} else multiset{});
    }
  }

  lemma {:induction false} NothingToFlatten<T>(parts: seq<seq<T>>)
    requires forall p :: 0 <= p < |parts| ==> parts[p] == []
    ensures Flatten(parts) == []
  {
    if parts != [] { NothingToFlatten(parts[..|parts| - 1]); }
  }

  /** The partitions together are a permutation of the rows. */
  lemma {:induction false} PartsAreAll<T>(xs: seq<T>, lanes: seq<Lane>, n: nat)
    requires n > 0 && |xs| == |lanes|
    ensures multiset(Flatten(Parts(xs, lanes, n))) == multiset(xs)
  {
    if xs == [] {
      NothingToFlatten(Parts(xs, lanes, n));
    } else {
      var k := |xs| - 1;
      PartsAreAll(xs[..k], lanes[..k], n);
      var at := PartsOneMore(xs, lanes, n, k);
      FlattenOneMore(Parts(xs[..k], lanes[..k], n), Parts(xs, lanes, n), at, xs[k]);
      LastCounts(xs, k);
    }
  }

  lemma LastCounts<T>(xs: seq<T>, k: nat)
    requires |xs| == k + 1
    ensures multiset(xs) == multiset(xs[..k]) + multiset{xs[k]}
  {
    assert xs == xs[..k] + [xs[k]];
  }

  lemma PartsOneMore<T>(xs: seq<T>, lanes: seq<Lane>, n: nat, k: nat) returns (at: nat)
    requires n > 0 && |xs| == |lanes| == k + 1
    ensures at < n
    ensures forall p :: 0 <= p < n ==>
      Parts(xs, lanes, n)[p] == Parts(xs[..k], lanes[..k], n)[p] + if p == at then [xs[k]] else []
  {
    at := Count(lanes[..k], lanes[k]) % n;
    forall p | 0 <= p < n
      ensures Part(xs, lanes, n, p) == Part(xs[..k], lanes[..k], n, p) + if p == at then [xs[k]] else []
    {
      PartOneMore(xs, lanes, n, p);
    }
  }

  // ---------------------------------------------------------------------------------------
  // partition_dataset
  // ---------------------------------------------------------------------------------------

  ghost predicate Counted(counters: map<string, nat>, plain: nat, lanes: seq<Lane>) {
    && plain == Count(lanes, None)
    && forall s {:trigger Count(lanes, Some(s))} :: Count(lanes, Some(s)) == if s in counters then counters[s] else 0
  }

  /** The file of partition `p` once these rows have been dealt; it is opened by its first row. */
  function File(items: seq<Item>, lanes: seq<Lane>, n: nat, p: nat): Option<seq<Dict>>
    requires n > 0 && |items| == |lanes|
  {
    var part := Part(items, lanes, n, p);
    if part == [] then None else Some(Dicts(part))
  }

  method NextIndex(l: Lane, n: nat, counters: map<string, nat>, plain: nat, ghost lanes: seq<Lane>)
    returns (index: nat, counters': map<string, nat>, plain': nat)
    requires n > 0 && Counted(counters, plain, lanes)
    ensures index == Count(lanes, l) % n
    ensures Counted(counters', plain', lanes + [l])
  {
    counters', plain' := counters, plain;
    if l.Some? {
      assert Count(lanes, Some(l.value)) == Count(lanes, l);
      var seen := if l.value in counters then counters[l.value] else 0;
      counters' := counters[l.value := seen + 1];
      index := seen % n;
    } else {
      index := plain % n;
      plain' := plain + 1;
    }
    forall m ensures Count(lanes + [l], m) == Count(lanes, m) + if l == m then 1 else 0 { CountOneMore(lanes, l, m); }
  }

  method PartitionDataset(items: seq<Item>, numPartitions: int, stratify: bool, show: Show)
    returns (r: Result<seq<seq<Dict>>, Error>)
    ensures r.Failure? <==> numPartitions < 1 || items == []
    ensures r.Failure? ==> r.error == if numPartitions < 1 then NoPartitions else NoRows
    ensures r.Success? ==>
      var lanes := Lanes(items, stratify, show);
      && |r.value| <= numPartitions
      && (forall p :: 0 <= p < |r.value| ==> r.value[p] == Dicts(Part(items, lanes, numPartitions, p)))
      && forall p :: |r.value| <= p < numPartitions ==> Part(items, lanes, numPartitions, p) == []
  {
    if numPartitions < 1 { return Failure(NoPartitions); }
    var n: nat := numPartitions;
    var handles := DealRows(items, n, stratify, show);
    if items == [] { return Failure(NoRows); }
    FilesAreThePartitions(handles, items, stratify, show, n);
    var files := OpenedFiles(handles);
    return Success(files);
  }

  /** The streaming loop: each row to the file its counter names. */
  method DealRows(items: seq<Item>, n: nat, stratify: bool, show: Show) returns (handles: seq<Option<seq<Dict>>>)
    requires n > 0
    ensures FilesAre(handles, items, Lanes(items, stratify, show), n)
  {
    ghost var lanes := Lanes(items, stratify, show);
    handles := seq(n, _ => None);
    var counters: map<string, nat>, plain: nat := map[], 0;
    for i := 0 to |items|
      invariant Counted(counters, plain, lanes[..i])
      invariant FilesAre(handles, items[..i], lanes[..i], n)
    {
      var index;
      index, counters, plain := NextIndex(LaneOf(items[i], stratify, show), n, counters, plain, lanes[..i]);
      assert lanes[..i + 1] == lanes[..i] + [lanes[i]];
      FilesOneMore(handles, items, lanes, n, i);
      handles := handles[index := Some(handles[index].GetOr([]) + [ToDict(items[i])])];
    }
    assert items[..|items|] == items && lanes[..|lanes|] == lanes;
  }

  /** The files that have a handle, in order; the others come after them. */
  method OpenedFiles(handles: seq<Option<seq<Dict>>>) returns (files: seq<seq<Dict>>)
    requires forall p, q :: 0 <= p < q < |handles| && handles[q].Some? ==> handles[p].Some?
    ensures |files| <= |handles|
    ensures forall p :: 0 <= p < |files| ==> handles[p] == Some(files[p])
    ensures forall p :: |files| <= p < |handles| ==> handles[p].None?
  {
    files := [];
    for p := 0 to |handles|
      invariant |files| <= p
      invariant forall q :: 0 <= q < |files| ==> handles[q] == Some(files[q])
      invariant forall q :: |files| <= q < p ==> handles[q].None?
      invariant |files| < p ==> handles[|files|].None?
    {
      if handles[p].Some? { files := files + [handles[p].value]; }
    }
  }

  lemma FilesAreThePartitions(handles: seq<Option<seq<Dict>>>, items: seq<Item>, stratify: bool, show: Show, n: nat)
    requires n > 0 && FilesAre(handles, items, Lanes(items, stratify, show), n)
    ensures forall p, q :: 0 <= p < q < n && handles[q].Some? ==> handles[p].Some?
    ensures
      var lanes := Lanes(items, stratify, show);
      forall p :: 0 <= p < n ==>
        if handles[p].Some? then handles[p].value == Dicts(Part(items, lanes, n, p)) else Part(items, lanes, n, p) == []
  {
    var lanes := Lanes(items, stratify, show);
    forall p | 0 <= p < n ensures handles[p] == File(items, lanes, n, p) { }
    forall p, q | 0 <= p < q < n && handles[q].Some? ensures handles[p].Some? {
      FilledPartitionsAreAPrefix(items, stratify, show, n, p, q);
    }
  }

  ghost predicate FilesAre(handles: seq<Option<seq<Dict>>>, items: seq<Item>, lanes: seq<Lane>, n: nat)
    requires n > 0 && |items| == |lanes|
  {
    |handles| == n && forall p: nat {:trigger File(items, lanes, n, p)} :: p < n ==>
        handles[p] == File(items, lanes, n, p)
  }

  lemma FilesOneMore(handles: seq<Option<seq<Dict>>>, items: seq<Item>, lanes: seq<Lane>, n: nat, i: nat)
    requires n > 0 && |items| == |lanes| && i < |items| && FilesAre(handles, items[..i], lanes[..i], n)
    ensures
      var index := Count(lanes[..i], lanes[i]) % n;
      FilesAre(handles[index := Some(handles[index].GetOr([]) + [ToDict(items[i])])], items[..i + 1], lanes[..i + 1], n)
  {
    var index := Count(lanes[..i], lanes[i]) % n;
    var after := handles[index := Some(handles[index].GetOr([]) + [ToDict(items[i])])];
    forall p: nat | p < n ensures after[p] == File(items[..i + 1], lanes[..i + 1], n, p) {
      assert handles[p] == File(items[..i], lanes[..i], n, p);
      FileOneMore(items, lanes, n, p, i);
    }
  }

  lemma FileOneMore(items: seq<Item>, lanes: seq<Lane>, n: nat, p: nat, i: nat)
    requires n > 0 && |items| == |lanes| && i < |items|
    ensures
      var before, after := File(items[..i], lanes[..i], n, p), File(items[..i + 1], lanes[..i + 1], n, p);
      after == if Count(lanes[..i], lanes[i]) % n == p then Some(before.GetOr([]) + [ToDict(items[i])]) else before
  {
    var xs, ls := items[..i + 1], lanes[..i + 1];
    assert xs[..i] == items[..i] && ls[..i] == lanes[..i];
    PartOneMore(xs, ls, n, p);
    var part := Part(items[..i], lanes[..i], n, p);
    assert Dicts(part + [items[i]]) == Dicts(part) + [ToDict(items[i])];
    if part == [] { assert Dicts(part) == []; }
    if Count(lanes[..i], lanes[i]) % n != p { assert part + [] == part; }
  }

  // ---------------------------------------------------------------------------------------
  // merge_partition_results
  // ---------------------------------------------------------------------------------------

  /** A partition's companion report: token usage by name and rejection counts by reason. */
  datatype Report = Report(usage: map<string, int>, reasons: map<string, int>)

  datatype Output = Output(rows: seq<Dict>, rejected: Option<seq<Dict>>, report: Option<Report>)

  datatype Merged = Merged(accepted: seq<Dict>, rejected: seq<Dict>, usage: map<string, int>, reasons: map<string, int>)

  const USAGE := {"input_tokens", "output_tokens", "total_tokens"}

  /** A row parsed and serialised again, if it parses. */
  function Reread(d: Dict, uid: int, show: Show, newId: string): Option<Dict> {
    match FromDict(d, uid, show, newId)
    case Success(x) => Some(ToDict(x))
    case Failure(_) => None
  }

  /** Reading row `i` of partition `p` and writing it again. */
  type Reader = (Dict, nat, nat) -> Option<Dict>

  /** `id(p, i)` is the id given to a row that carries none. */
  ghost predicate Reads(read: Reader, show: Show, id: (nat, nat) -> string) {
    forall d: Dict, p: nat, i: nat {:trigger read(d, p, i)} :: read(d, p, i) == Reread(d, i, show, id(p, i))
  }

  function Rewritten(rows: seq<Dict>, p: nat, read: Reader): Result<seq<Dict>, Error> {
    if rows == [] then Success([])
    else
      var n := |rows| - 1;
      var front, last := Rewritten(rows[..n], p, read), read(rows[n], p, n);
      if front.Failure? || last.None? then Failure(BadRow) else Success(front.value + [last.value])
  }

  method Rewrite(rows: seq<Dict>, p: nat, read: Reader) returns (r: Result<seq<Dict>, Error>)
    ensures r == Rewritten(rows, p, read)
  {
    var done: seq<Dict> := [];
    for i := 0 to |rows|
      invariant Rewritten(rows[..i], p, read) == Success(done)
    {
      assert rows[..i + 1][..i] == rows[..i];
      var row := read(rows[i], p, i);
      if row.None? {
        BadPrefix(rows, i + 1, p, read);
        return Failure(BadRow);
      }
      done := done + [row.value];
    }
    assert rows[..|rows|] == rows;
    return Success(done);
  }

  lemma {:induction false} BadPrefix(rows: seq<Dict>, i: nat, p: nat, read: Reader)
    requires i <= |rows| && Rewritten(rows[..i], p, read).Failure?
    ensures Rewritten(rows, p, read) == Failure(BadRow)
  {
    if i == |rows| {
      assert rows[..i] == rows;
    } else {
      assert rows[..|rows| - 1][..i] == rows[..i];
      BadPrefix(rows[..|rows| - 1], i, p, read);
    }
  }

  function At(m: map<string, int>, k: string): int { if k in m then m[k] else 0 }

  function Usage(o: Output, k: string): int { if o.report.Some? then At(o.report.value.usage, k) else 0 }

  function Reasons(o: Output, k: string): int { if o.report.Some? then At(o.report.value.reasons, k) else 0 }

  function TotalUsage(outputs: seq<Output>, k: string): int {
    if outputs == [] then 0 else TotalUsage(outputs[..|outputs| - 1], k) + Usage(outputs[|outputs| - 1], k)
  }

  function TotalReasons(outputs: seq<Output>, k: string): int {
    if outputs == [] then 0 else TotalReasons(outputs[..|outputs| - 1], k) + Reasons(outputs[|outputs| - 1], k)
  }

  /** The rows of all outputs in order, each read and written again. */
  function AllRows(outputs: seq<Output>, rejected: bool, read: Reader): Result<seq<Dict>, Error> {
    if outputs == [] then Success([])
    else
      var n := |outputs| - 1;
      var front := AllRows(outputs[..n], rejected, read);
      var last := Rewritten(if rejected then outputs[n].rejected.GetOr([]) else outputs[n].rows, n, read);
      if front.Failure? || last.Failure? then Failure(BadRow) else Success(front.value + last.value)
  }

  ghost predicate Merges(m: Merged, outputs: seq<Output>, read: Reader) {
    && AllRows(outputs, false, read) == Success(m.accepted) && AllRows(outputs, true, read) == Success(m.rejected)
    && m.usage.Keys == USAGE && (forall k :: k in USAGE ==> m.usage[k] == TotalUsage(outputs, k))
    && forall k {:trigger At(m.reasons, k)} :: At(m.reasons, k) == TotalReasons(outputs, k)
  }

  method AddAll(total: map<string, int>, more: map<string, int>) returns (r: map<string, int>)
    ensures r.Keys == total.Keys + more.Keys
    ensures forall k :: At(r, k) == At(total, k) + At(more, k)
  {
    r := total;
    var rest := more.Keys;
    while rest != {}
      invariant rest <= more.Keys && r.Keys == total.Keys + (more.Keys - rest)
      invariant forall k :: At(r, k) == At(total, k) + if k in rest then 0 else At(more, k)
    {
      var k :| k in rest;
      r := r[k := At(r, k) + more[k]];
      rest := rest - {k};
    }
  }

  method AddUsage(total: map<string, int>, usage: map<string, int>) returns (r: map<string, int>)
    requires total.Keys == USAGE
    ensures r.Keys == USAGE && forall k :: k in USAGE ==> r[k] == total[k] + At(usage, k)
  {
    r := map k | k in total :: total[k] + At(usage, k);
  }

  method MergePartitionResults(outputs: seq<Output>, read: Reader) returns (r: Result<Merged, Error>)
    ensures r.Success? ==> Merges(r.value, outputs, read)
    ensures r.Failure? <==> AllRows(outputs, false, read).Failure? || AllRows(outputs, true, read).Failure?
  {
    var m := Merged([], [], map["input_tokens" := 0, "output_tokens" := 0, "total_tokens" := 0], map[]);
    for p := 0 to |outputs|
      invariant Merges(m, outputs[..p], read)
    {
      assert outputs[..p + 1][..p] == outputs[..p];
      var o := outputs[p];
      var rows := Rewrite(o.rows, p, read);
      if rows.Failure? {
        BadOutputs(outputs, p + 1, false, read);
        return Failure(BadRow);
      }
      var rejected := Rewrite(o.rejected.GetOr([]), p, read);
      if rejected.Failure? {
        BadOutputs(outputs, p + 1, true, read);
        return Failure(BadRow);
      }
      var usage, reasons := m.usage, m.reasons;
      if o.report.Some? {
        usage := AddUsage(m.usage, o.report.value.usage);
        reasons := AddAll(m.reasons, o.report.value.reasons);
      }
      m := Merged(m.accepted + rows.value, m.rejected + rejected.value, usage, reasons);
    }
    assert outputs[..|outputs|] == outputs;
    return Success(m);
  }

  lemma {:induction false} BadOutputs(outputs: seq<Output>, p: nat, rejected: bool, read: Reader)
    requires p <= |outputs| && AllRows(outputs[..p], rejected, read).Failure?
    ensures AllRows(outputs, rejected, read).Failure?
  {
    if p == |outputs| {
      assert outputs[..p] == outputs;
    } else {
      assert outputs[..|outputs| - 1][..p] == outputs[..p];
      BadOutputs(outputs[..|outputs| - 1], p, rejected, read);
    }
  }

  /** A row that does not parse fails the merge; otherwise each row is written again in its place. */
  lemma {:induction false} RewrittenExactly(rows: seq<Dict>, p: nat, read: Reader)
    ensures Rewritten(rows, p, read).Success? <==> forall i :: 0 <= i < |rows| ==> read(rows[i], p, i).Some?
    ensures Rewritten(rows, p, read).Success? ==>
      && |Rewritten(rows, p, read).value| == |rows|
      && forall i :: 0 <= i < |rows| ==> read(rows[i], p, i) == Some(Rewritten(rows, p, read).value[i])
  {
    if rows != [] {
      RewrittenExactly(rows[..|rows| - 1], p, read);
      assert forall i :: 0 <= i < |rows| - 1 ==> rows[..|rows| - 1][i] == rows[i];
    }
  }

  /** What one more partition adds: its accepted and its rejected rows behind those before it, and its counts. */
  lemma MergeOneMore(outputs: seq<Output>, o: Output, read: Reader, k: string)
    ensures AllRows([], false, read) == AllRows([], true, read) == Success([])
    ensures
      var before, rows := AllRows(outputs, false, read), Rewritten(o.rows, |outputs|, read);
      AllRows(outputs + [o], false, read) ==
        if before.Success? && rows.Success? then Success(before.value + rows.value) else Failure(BadRow)
    ensures
      var before := AllRows(outputs, true, read);
      var rows := Rewritten(if o.rejected == None then [] else o.rejected.value, |outputs|, read);
      AllRows(outputs + [o], true, read) ==
        if before.Success? && rows.Success? then Success(before.value + rows.value) else Failure(BadRow)
    ensures TotalUsage([], k) == TotalReasons([], k) == 0
    ensures TotalUsage(outputs + [o], k) - TotalUsage(outputs, k) ==
      if o.report.Some? && k in o.report.value.usage then o.report.value.usage[k] else 0
    ensures TotalReasons(outputs + [o], k) - TotalReasons(outputs, k) ==
      if o.report.Some? && k in o.report.value.reasons then o.report.value.reasons[k] else 0
  {
    assert (outputs + [o])[..|outputs|] == outputs;
  }

  // ---------------------------------------------------------------------------------------
  // Partition, then merge
  // ---------------------------------------------------------------------------------------

  ghost predicate AllWellFormed(items: seq<Item>) { forall x {:trigger WellFormed(x)} :: x in items ==> WellFormed(x) }

  lemma WrittenIsNormal(x: Item, uid: int, show: Show, newId: string)
    requires WellFormed(x)
    ensures Reread(ToDict(x), uid, show, newId) == Some(ToDict(x))
  {
    RoundTrip(x, uid, show, newId);
    SameSerialises(FromDict(ToDict(x), uid, show, newId).value, x);
  }

  lemma {:induction false} NormalRowsStay(rows: seq<Dict>, p: nat, read: Reader)
    requires forall i :: 0 <= i < |rows| ==> read(rows[i], p, i) == Some(rows[i])
    ensures Rewritten(rows, p, read) == Success(rows)
  {
    if rows != [] {
      var n := |rows| - 1;
      NormalRowsStay(rows[..n], p, read);
      assert rows == rows[..n] + [rows[n]];
    }
  }

  lemma RewritingIsANormalForm(items: seq<Item>, p: nat, read: Reader, show: Show, id: (nat, nat) -> string)
    requires AllWellFormed(items) && Reads(read, show, id)
    ensures Rewritten(Dicts(items), p, read) == Success(Dicts(items))
  {
    forall i | 0 <= i < |items| ensures read(Dicts(items)[i], p, i) == Some(Dicts(items)[i]) {
      assert items[i] in items;
      WrittenIsNormal(items[i], i, show, id(p, i));
    }
    NormalRowsStay(Dicts(items), p, read);
  }

  lemma DictsOfJoined(a: seq<Item>, b: seq<Item>)
    ensures Dicts(a + b) == Dicts(a) + Dicts(b)
  {
  }

  lemma {:induction false} MergedParts(parts: seq<seq<Item>>, outputs: seq<Output>, read: Reader)
    requires |parts| == |outputs|
    requires forall p :: 0 <= p < |parts| ==> Rewritten(outputs[p].rows, p, read) == Success(Dicts(parts[p]))
    ensures AllRows(outputs, false, read) == Success(Dicts(Flatten(parts)))
  {
    if parts != [] {
      var n := |parts| - 1;
      MergedParts(parts[..n], outputs[..n], read);
      DictsOfJoined(Flatten(parts[..n]), parts[n]);
      assert Rewritten(outputs[n].rows, n, read) == Success(Dicts(parts[n]));
      assert AllRows(outputs[..n], false, read) == Success(Dicts(Flatten(parts[..n])));
      assert AllRows(outputs, false, read) == Success(Dicts(Flatten(parts[..n])) + Dicts(parts[n]));
      assert Flatten(parts) == Flatten(parts[..n]) + parts[n];
    } else {
      assert AllRows(outputs, false, read) == Success([]);
      assert Dicts(Flatten(parts)) == [];
    }
  }

  lemma {:induction false} EmptyTail<T>(parts: seq<seq<T>>, k: nat)
    requires k <= |parts| && forall p :: k <= p < |parts| ==> parts[p] == []
    ensures Flatten(parts[..k]) == Flatten(parts)
  {
    if k < |parts| {
      var n := |parts| - 1;
      EmptyTail(parts[..n], k);
      assert parts[..n][..k] == parts[..k];
    } else {
      assert parts[..k] == parts;
    }
  }

  /** Merging the files of a partition, unprocessed: a permutation of the dataset's rows in normal form. */
  lemma PartitionThenMerge(items: seq<Item>, stratify: bool, show: Show, n: nat, files: nat, outputs: seq<Output>,
                           read: Reader, id: (nat, nat) -> string)
    requires n > 0 && files <= n && |outputs| == files && AllWellFormed(items) && Reads(read, show, id)
    requires forall p :: 0 <= p < files ==> outputs[p].rows == Dicts(Part(items, Lanes(items, stratify, show), n, p))
    requires forall p :: files <= p < n ==> Part(items, Lanes(items, stratify, show), n, p) == []
    ensures exists order: seq<Item> ::
      multiset(order) == multiset(items) && AllRows(outputs, false, read) == Success(Dicts(order))
  {
    var lanes := Lanes(items, stratify, show);
    var parts := Parts(items, lanes, n);
    forall p | 0 <= p < files ensures Rewritten(outputs[p].rows, p, read) == Success(Dicts(parts[..files][p])) {
      forall x | x in parts[p] ensures WellFormed(x) { PickMembers(items, Flags(lanes, n, p), true, x); }
      RewritingIsANormalForm(parts[p], p, read, show, id);
    }
    MergedParts(parts[..files], outputs, read);
    EmptyTail(parts, files);
    PartsAreAll(items, lanes, n);
  }

  /** Each partition's file keeps the dataset's order. */
  lemma PartitionKeepsOrder(items: seq<Item>, stratify: bool, show: Show, n: nat, p: nat)
    requires p < n
    ensures Subsequence(Part(items, Lanes(items, stratify, show), n, p), items)
  {
    PickIsSubsequence(items, Flags(Lanes(items, stratify, show), n, p), true);
  }
}
