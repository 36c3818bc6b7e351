/** `RunService.lineage`: the ancestor walk and the level-by-level search for descendants. */
module Lineage {
  import opened Wrappers
  import opened RunTables
  import Store

  const WINDOW := 1000

  // ---------------------------------------------------------------------------------------
  // Paths over the parent links
  // ---------------------------------------------------------------------------------------

  predicate Link(db: Db, child: string, parent: string) {
    child in db.runs && db.runs[child].parent == Some(parent)
  }

  /** A nonempty walk over parent links, youngest first. */
  predicate Walk(db: Db, path: seq<string>) {
    |path| >= 2 && forall i :: 0 <= i < |path| - 1 ==> Link(db, path[i], path[i + 1])
  }

  ghost predicate Ancestor(db: Db, a: string, b: string) {
    exists path :: Walk(db, path) && path[0] == b && path[|path| - 1] == a
  }

  /** All ancestors, nearest first. */
  ghost function Chain(db: Db, r: string): seq<string>
    requires TableInv(db) && r in db.runs
    decreases db.runs[r].serial
  {
    assert RowOk(db, r);
    match db.runs[r].parent
    case None => []
    case Some(q) => [q] + Chain(db, q)
  }

  lemma {:induction false} ChainIsSound(db: Db, r: string, k: nat)
    requires TableInv(db) && r in db.runs && k < |Chain(db, r)|
    ensures Chain(db, r)[k] in db.runs && db.runs[Chain(db, r)[k]].serial < db.runs[r].serial
    ensures db.runs[Chain(db, r)[k]].project == db.runs[r].project
    ensures Link(db, if k == 0 then r else Chain(db, r)[k - 1], Chain(db, r)[k])
    ensures k == |Chain(db, r)| - 1 ==> db.runs[Chain(db, r)[k]].parent == None
    ensures Ancestor(db, Chain(db, r)[k], r)
    decreases k
  {
    assert RowOk(db, r);
    var q := db.runs[r].parent.value;
    if k == 0 {
      assert Walk(db, [r, q]);
      if |Chain(db, r)| == 1 { assert Chain(db, q) == []; }
    } else {
      ChainIsSound(db, q, k - 1);
      var path :| Walk(db, path) && path[0] == q && path[|path| - 1] == Chain(db, q)[k - 1];
      assert Walk(db, [r] + path);
    }
  }

  lemma {:induction false} WalksStayInChain(db: Db, path: seq<string>)
    requires TableInv(db) && Walk(db, path)
    ensures path[0] in db.runs && path[|path| - 1] in Chain(db, path[0])
    decreases |path|
  {
    assert Link(db, path[0], path[1]) && RowOk(db, path[0]);
    if |path| > 2 {
      forall i | 0 <= i < |path[1..]| - 1 ensures Link(db, path[1..][i], path[1..][i + 1]) {
        assert Link(db, path[i + 1], path[i + 2]);
      }
      WalksStayInChain(db, path[1..]);
    }
  }

  /** The links are acyclic: the chain has no repeats, holds exactly the ancestors and ends at a root. */
  lemma ChainIsExact(db: Db, r: string)
    requires TableInv(db) && r in db.runs
    ensures forall a :: a in Chain(db, r) <==> Ancestor(db, a, r)
    ensures forall i, j :: 0 <= i < j < |Chain(db, r)| ==> Chain(db, r)[i] != Chain(db, r)[j]
    ensures r !in Chain(db, r)
    ensures Chain(db, r) != [] ==>
      Chain(db, r)[|Chain(db, r)| - 1] in db.runs && db.runs[Chain(db, r)[|Chain(db, r)| - 1]].parent == None
  {
    forall a | Ancestor(db, a, r) ensures a in Chain(db, r) {
      var path :| Walk(db, path) && path[0] == r && path[|path| - 1] == a;
      WalksStayInChain(db, path);
    }
    forall k | 0 <= k < |Chain(db, r)|
      ensures Ancestor(db, Chain(db, r)[k], r) && Chain(db, r)[k] in db.runs
      ensures db.runs[Chain(db, r)[k]].serial < db.runs[r].serial
      ensures k == |Chain(db, r)| - 1 ==> db.runs[Chain(db, r)[k]].parent == None
    {
      ChainIsSound(db, r, k);
    }
    ChainDescends(db, r);
  }

  lemma {:induction false} ChainDescends(db: Db, r: string)
    requires TableInv(db) && r in db.runs
    ensures forall i, j :: 0 <= i < j < |Chain(db, r)| ==> Chain(db, r)[i] != Chain(db, r)[j]
    decreases db.runs[r].serial
  {
    assert RowOk(db, r);
    if db.runs[r].parent.Some? {
      var q := db.runs[r].parent.value;
      ChainDescends(db, q);
      forall k | 0 <= k < |Chain(db, q)| ensures Chain(db, q)[k] != q { ChainIsSound(db, q, k); }
    }
  }

  // ---------------------------------------------------------------------------------------
  // Descendants within a window of runs
  // ---------------------------------------------------------------------------------------

  /** What `store.list(project, limit=1000)` may answer: distinct runs of the project, as many as the limit
      allows, none of those left out being newer. */
  ghost predicate Window(db: Db, p: string, w: seq<string>) {
    && (forall i :: 0 <= i < |w| ==> w[i] in db.runs && db.runs[w[i]].project == p)
    && (forall i, j :: 0 <= i < j < |w| ==> w[i] != w[j] && db.runs[w[i]].created >= db.runs[w[j]].created)
    && |w| == (if |Members(db, p)| <= WINDOW then |Members(db, p)| else WINDOW)
    && (forall i, r :: 0 <= i < |w| && r in Members(db, p) && r !in w ==> db.runs[w[i]].created >= db.runs[r].created)
  }

  function Members(db: Db, p: string): set<string> {
    set r | r in db.runs && db.runs[r].project == p
  }

  /** How many child links lead from `r` down to `d`, every run on the way (and `d`) being in the window. */
  ghost function Depth(db: Db, w: seq<string>, r: string, d: string): nat
    requires TableInv(db) && d in db.runs
    decreases db.runs[d].serial
  {
    assert RowOk(db, d);
    if d !in w || db.runs[d].parent == None then 0
    else if db.runs[d].parent.value == r then 1
    else
      var above := Depth(db, w, r, db.runs[d].parent.value);
      if above == 0 then 0 else above + 1
  }

  ghost predicate Below(db: Db, w: seq<string>, r: string, d: string)
    requires TableInv(db)
  {
    d in db.runs && Depth(db, w, r, d) > 0
  }

  lemma {:induction false} DepthIsChainPosition(db: Db, w: seq<string>, r: string, d: string)
    requires TableInv(db) && d in db.runs
    ensures Depth(db, w, r, d) > 0 ==>
      Depth(db, w, r, d) <= |Chain(db, d)| && Chain(db, d)[Depth(db, w, r, d) - 1] == r
    ensures (forall x :: x in Members(db, db.runs[d].project) ==> x in w) && r in Chain(db, d) ==>
        Depth(db, w, r, d) > 0
    decreases db.runs[d].serial
  {
    assert RowOk(db, d);
    if db.runs[d].parent.Some? { DepthIsChainPosition(db, w, r, db.runs[d].parent.value); }
  }

  lemma {:induction false} DistinctCardinality(w: seq<string>, all: set<string>)
    requires forall i, j :: 0 <= i < j < |w| ==> w[i] != w[j]
    requires forall i :: 0 <= i < |w| ==> w[i] in all
    ensures |w| <= |all|
    ensures |w| == |all| ==> forall x :: x in all ==> x in w
  {
    if w != [] {
      var n := |w| - 1;
      DistinctCardinality(w[..n], all - {w[n]});
      forall x | x in all && |w| == |all| ensures x in w {
        if x != w[n] { assert x in w[..n]; }
      }
    }
  }

  /** With at most 1000 runs the two directions agree. */
  lemma DirectionsAgree(db: Db, p: string, w: seq<string>, a: string, b: string)
    requires TableInv(db) && Window(db, p, w) && |Members(db, p)| <= WINDOW
    requires a in Members(db, p) && b in Members(db, p)
    ensures a in Chain(db, b) <==> Below(db, w, a, b)
  {
    DistinctCardinality(w, Members(db, p));
    DepthIsChainPosition(db, w, a, b);
  }

  // ---------------------------------------------------------------------------------------
  // The method
  // ---------------------------------------------------------------------------------------

  ghost predicate Nearer(db: Db, w: seq<string>, r: string, ds: seq<string>)
    requires TableInv(db)
  {
    && (forall i :: 0 <= i < |ds| ==> Below(db, w, r, ds[i]))
    && (forall i, j :: 0 <= i < j < |ds| ==> ds[i] != ds[j] && Depth(db, w, r, ds[i]) <= Depth(db, w, r, ds[j]))
  }

  lemma ParentIsOlder(db: Db, r: string)
    requires TableInv(db) && r in db.runs && db.runs[r].parent.Some?
    ensures
      var q := db.runs[r].parent.value;
      q in db.runs && db.runs[q].project == db.runs[r].project && db.runs[q].serial < db.runs[r].serial
      && Chain(db, r) == [q] + Chain(db, q)
  {
    assert RowOk(db, r);
  }

  method Ancestors(store: Store.RunStore, p: string, r: string) returns (out: Result<seq<string>, Error>)
    requires TableInv(store.Db())
    ensures out == if r in store.runs && store.runs[r].project == p then Success(Chain(store.Db(), r))
        else Failure(KeyError)
  {
    var first := store.Get(p, r);
    if first.Failure? { return Failure(KeyError); }
    ghost var db := store.Db();
    var ancestors, seen, current := [], {r}, r;
    while true
      invariant current in store.runs && store.runs[current].project == p
      invariant ancestors + Chain(db, current) == Chain(db, r)
      invariant forall x :: x in seen ==> x in db.runs && db.runs[x].serial >= db.runs[current].serial
      decreases db.runs[current].serial
    {
      var row := store.Get(p, current);
      var parent := row.value.parent;
      if parent.Some? { ParentIsOlder(db, current); }
      if parent.None? || parent.value in seen { break; }
      var found := store.Get(p, parent.value);
      assert ancestors + ([parent.value] + Chain(db, parent.value)) == (ancestors + [parent.value])
          + Chain(db, parent.value);
      seen := seen + {parent.value};
      ancestors := ancestors + [parent.value];
      current := parent.value;
    }
    assert Chain(db, current) == [] && ancestors + [] == ancestors;
    return Success(ancestors);
  }

  /** The children of `q` listed in the window, in window order. */
  function ChildrenOf(runs: map<string, Run>, w: seq<string>, q: string): seq<string> {
    if w == [] then []
    else ChildrenOf(runs, w[..|w| - 1], q) +
         (if w[|w| - 1] in runs && runs[w[|w| - 1]].parent == Some(q) then [w[|w| - 1]] else [])
  }

  lemma {:induction false} ChildrenAreLinked(runs: map<string, Run>, w: seq<string>, q: string, c: string)
    ensures c in ChildrenOf(runs, w, q) <==> c in w && c in runs && runs[c].parent == Some(q)
  {
    if w != [] {
      ChildrenAreLinked(runs, w[..|w| - 1], q, c);
      assert w == w[..|w| - 1] + [w[|w| - 1]];
    }
  }

  method GroupChildren(store: Store.RunStore, w: seq<string>) returns (children: map<string, seq<string>>)
    requires forall i :: 0 <= i < |w| ==> w[i] in store.runs
    ensures forall q :: (if q in children then children[q] else []) == ChildrenOf(store.runs, w, q)
  {
    children := map[];
    for i := 0 to |w|
      invariant forall q :: (if q in children then children[q] else []) == ChildrenOf(store.runs, w[..i], q)
    {
      assert w[..i + 1][..i] == w[..i];
      var parent := store.runs[w[i]].parent;
      if parent.Some? {
        var listed := if parent.value in children then children[parent.value] else [];
        children := children[parent.value := listed + [w[i]]];
      }
    }
    assert w[..|w|] == w;
  }

  lemma NotBelowItself(db: Db, w: seq<string>, r: string)
    requires TableInv(db) && r in db.runs
    ensures !Below(db, w, r, r)
  {
    DepthIsChainPosition(db, w, r, r);
    ChainIsExact(db, r);
  }

  lemma {:induction false} EveryLevelIsInhabited(db: Db, w: seq<string>, r: string, d: string, k: nat)
    requires TableInv(db) && Below(db, w, r, d) && 1 <= k <= Depth(db, w, r, d)
    ensures exists x :: Below(db, w, r, x) && Depth(db, w, r, x) == k
    decreases db.runs[d].serial
  {
    assert RowOk(db, d);
    if k < Depth(db, w, r, d) { EveryLevelIsInhabited(db, w, r, db.runs[d].parent.value, k); }
  }

  predicate ChildOf(runs: map<string, Run>, w: seq<string>, c: string, parents: seq<string>) {
    c in w && c in runs && runs[c].parent.Some? && runs[c].parent.value in parents
  }

  method AddUnseen(kids: seq<string>, seen0: set<string>, next0: seq<string>)
      returns (seen: set<string>, next: seq<string>)
    requires forall c :: c in next0 ==> c in seen0
    requires forall i, j :: 0 <= i < j < |next0| ==> next0[i] != next0[j]
    ensures forall c :: c in seen <==> c in seen0 || c in kids
    ensures forall c :: c in next <==> c in next0 || (c in kids && c !in seen0)
    ensures forall i, j :: 0 <= i < j < |next| ==> next[i] != next[j]
  {
    seen, next := seen0, next0;
    for j := 0 to |kids|
      invariant forall c :: c in seen <==> c in seen0 || c in kids[..j]
      invariant forall c :: c in next <==> c in next0 || (c in kids[..j] && c !in seen0)
      invariant forall i, j :: 0 <= i < j < |next| ==> next[i] != next[j]
    {
      assert kids[..j + 1] == kids[..j] + [kids[j]];
      if kids[j] !in seen {
        seen := seen + {kids[j]};
        next := next + [kids[j]];
      }
    }
    assert kids[..|kids|] == kids;
  }

  /** One level: the unseen children of the frontier, in order, each once. */
  method Expand(store: Store.RunStore, children: map<string, seq<string>>, w: seq<string>, seen0: set<string>,
      frontier: seq<string>)
    returns (seen: set<string>, next: seq<string>)
    requires forall q :: (if q in children then children[q] else []) == ChildrenOf(store.runs, w, q)
    ensures forall c :: c in seen <==> c in seen0 || ChildOf(store.runs, w, c, frontier)
    ensures forall c :: c in next <==> c !in seen0 && ChildOf(store.runs, w, c, frontier)
    ensures forall i, j :: 0 <= i < j < |next| ==> next[i] != next[j]
  {
    seen, next := seen0, [];
    ghost var runs := store.runs;
    for i := 0 to |frontier|
      invariant forall c :: c in seen <==> c in seen0 || ChildOf(runs, w, c, frontier[..i])
      invariant forall c :: c in next <==> c !in seen0 && ChildOf(runs, w, c, frontier[..i])
      invariant forall i, j :: 0 <= i < j < |next| ==> next[i] != next[j]
    {
      var kids := if frontier[i] in children then children[frontier[i]] else [];
      seen, next := AddUnseen(kids, seen, next);
      assert frontier[..i + 1] == frontier[..i] + [frontier[i]];
      forall c ensures ChildOf(runs, w, c, frontier[..i + 1]) <==> ChildOf(runs, w, c, frontier[..i]) || c in kids {
        ChildrenAreLinked(runs, w, frontier[i], c);
      }
    }
    assert frontier[..|frontier|] == frontier;
  }

  /** The state of the search when `level` levels have been expanded. */
  ghost predicate Searched(db: Db, w: seq<string>, r: string, level: nat, seen: set<string>, found: seq<string>,
      frontier: seq<string>)
    requires TableInv(db)
  {
    && Nearer(db, w, r, found)
    && seen == {r} + (set d | d in found)
    && (forall d :: d in found <==> Below(db, w, r, d) && Depth(db, w, r, d) <= level)
    && (level == 0 ==> frontier == [r])
    && (level > 0 ==> forall d :: d in frontier <==> Below(db, w, r, d) && Depth(db, w, r, d) == level)
  }

  lemma LevelExpanded(db: Db, w: seq<string>, r: string, level: nat, seen: set<string>, found: seq<string>,
                      frontier: seq<string>, seen': set<string>, next: seq<string>)
    requires TableInv(db) && r in db.runs && Searched(db, w, r, level, seen, found, frontier)
    requires forall i, j :: 0 <= i < j < |next| ==> next[i] != next[j]
    requires forall c :: c in next <==> c !in seen && ChildOf(db.runs, w, c, frontier)
    requires forall c :: c in seen' <==> c in seen || ChildOf(db.runs, w, c, frontier)
    ensures Searched(db, w, r, level + 1, seen', found + next, next)
  {
    NotBelowItself(db, w, r);
    forall d ensures d in next <==> Below(db, w, r, d) && Depth(db, w, r, d) == level + 1 {
      if d in db.runs { assert RowOk(db, d); }
    }
    forall i | 0 <= i < |next| ensures Depth(db, w, r, next[i]) == level + 1 && next[i] !in found {
      assert next[i] in next;
    }
    forall i | 0 <= i < |found| ensures Depth(db, w, r, found[i]) <= level { assert found[i] in found; }
  }

  /** Every run reachable over child links in the window, each once, nearest first. */
  method Descendants(store: Store.RunStore, p: string, r: string, w: seq<string>) returns (found: seq<string>)
    requires TableInv(store.Db()) && Window(store.Db(), p, w)
    requires r in store.runs && store.runs[r].project == p
    ensures Nearer(store.Db(), w, r, found)
    ensures forall d :: d in found <==> Below(store.Db(), w, r, d)
  {
    ghost var db := store.Db();
    var children := GroupChildren(store, w);
    var seen, frontier := {r}, [r];
    found := [];
    ghost var level := 0;
    while frontier != []
      invariant Searched(db, w, r, level, seen, found, frontier)
      decreases (set d | d in w) - seen, |frontier|
    {
      var seen', next := Expand(store, children, w, seen, frontier);
      LevelExpanded(db, w, r, level, seen, found, frontier, seen', next);
      if next != [] { assert next[0] in next && next[0] in (set d | d in w) - seen; }
      found, seen, frontier, level := found + next, seen', next, level + 1;
    }
    forall d | Below(db, w, r, d) ensures d in found {
      if Depth(db, w, r, d) > level { EveryLevelIsInhabited(db, w, r, d, level); }
    }
  }
}
