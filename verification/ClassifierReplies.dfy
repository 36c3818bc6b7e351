/** Which labels a row gets: those of its own entry in the reply, and what the provider is asked for them. */
module ClassifierReplies {
  import opened Classifier
  import opened ItemText
  import opened Schemas
  import opened Sequences
  import opened Wrappers

  // ---------------------------------------------------------------------------------------
  // Cleaning
  // ---------------------------------------------------------------------------------------

  /** The position of the first label that strips to `l`. */
  predicate FirstAt(labels: seq<string>, l: string, i: nat) {
    i < |labels| && Strip(labels[i]) == l && forall k :: 0 <= k < i ==> Strip(labels[k]) != l
  }

  lemma FirstExists(labels: seq<string>, l: string) returns (i: nat)
    requires exists k :: 0 <= k < |labels| && Strip(labels[k]) == l
    ensures FirstAt(labels, l, i)
  {
    i := 0;
    while Strip(labels[i]) != l
      invariant i < |labels| && forall k :: 0 <= k < i ==> Strip(labels[k]) != l
      invariant exists k :: i <= k < |labels| && Strip(labels[k]) == l
      decreases |labels| - i
    {
      i := i + 1;
    }
  }

  /** Cleaned labels are in the order in which they first come up. */
  lemma {:induction false} CleanKeepsOrder(labels: seq<string>, a: nat, b: nat, i: nat, j: nat)
    requires a < b < |Clean(labels)| && FirstAt(labels, Clean(labels)[a], i) && FirstAt(labels, Clean(labels)[b], j)
    ensures i < j
  {
    var n := |labels| - 1;
    var front, last := Clean(labels[..n]), Strip(labels[n]);
    CleanIsASet(labels[..n]);
    CleanIsASet(labels);
    if b < |front| {
      assert front[a] in front && front[b] in front;
      var i' := FirstExists(labels[..n], front[a]);
      var j' := FirstExists(labels[..n], front[b]);
      CleanKeepsOrder(labels[..n], a, b, i', j');
      SameFirst(labels, n, front[a], i', i);
      SameFirst(labels, n, front[b], j', j);
    } else {
      assert front[a] in front;
      var i' := FirstExists(labels[..n], front[a]);
      SameFirst(labels, n, front[a], i', i);
      forall k | 0 <= k < n ensures Strip(labels[k]) != last { assert Strip(labels[..n][k]) == Strip(labels[k]); }
    }
  }

  lemma SameFirst(labels: seq<string>, n: nat, l: string, i: nat, j: nat)
    requires n <= |labels| && FirstAt(labels[..n], l, i) && FirstAt(labels, l, j)
    ensures i == j
  {
    assert forall k :: 0 <= k < n ==> labels[..n][k] == labels[k];
  }

  // ---------------------------------------------------------------------------------------
  // One row
  // ---------------------------------------------------------------------------------------

  /** Entry `k` is the last one with this id. */
  predicate OwnEntry(results: seq<Entry>, id: string, k: int) {
    0 <= k < |results| && results[k].id == id && forall m :: k < m < |results| ==> results[m].id != id
  }

  lemma {:induction false} FindIsOwn(results: seq<Entry>, id: string)
    ensures Find(results, id).None? <==> forall k :: 0 <= k < |results| ==> results[k].id != id
    ensures forall k :: OwnEntry(results, id, k) ==> Find(results, id) == Some(results[k])
    ensures Find(results, id).Some? ==> exists k :: OwnEntry(results, id, k)
  {
    if results != [] {
      var n := |results| - 1;
      if results[n].id == id {
        assert OwnEntry(results, id, n);
      } else {
        FindIsOwn(results[..n], id);
        forall k | OwnEntry(results, id, k) ensures OwnEntry(results[..n], id, k) { }
        forall k | OwnEntry(results[..n], id, k) ensures OwnEntry(results, id, k) { }
        forall k | 0 <= k < n && results[k].id == id ensures results[..n][k].id == id { }
      }
    }
  }

  /** Labels that a reply may give: all of the schema's classes, one of them, or for several labels at least one. */
  predicate Acceptable(labels: seq<string>, schema: Schema) {
    && (forall l :: l in labels ==> l in schema.classes)
    && (schema.task in {Some(Binary), Some(MultiClass)} ==> |labels| == 1)
    && (schema.task == Some(MultiLabel) ==> |labels| >= 1)
  }

  /** A row with these cleaned labels: one, or the list of them in order. */
  predicate Carries(l: Option<Labels>, labels: seq<string>, task: Task) {
    match task
    case MultiLabel =>
      && l.Some? && l.value.Many? && |l.value.xs| == |labels|
      && forall i :: 0 <= i < |labels| ==> l.value.xs[i] == AStr(labels[i])
    case _ => |labels| == 1 && l == Some(One(AStr(labels[0])))
  }

  /** The record names the task, its classes, and how sure the schema and the entry are. */
  predicate RecordedAs(j: Json, schema: Schema, confidence: real)
    requires schema.task.Some?
  {
    && j.JObj? && j.fields.Keys == {Key.Other("task_type"), Key.Other("classes"), Key.Other("schema_confidence"),
                                    Key.Other("item_confidence")}
    && j.fields[Key.Other("item_confidence")] == JNum(confidence)
    && j.fields[Key.Other("schema_confidence")] == JNum(schema.confidence)
    && j.fields[Key.Other("task_type")] == JStr(match schema.task.value case Binary => "binary"
                                                case MultiClass => "multi-class" case MultiLabel => "multi-label")
    && j.fields[Key.Other("classes")].JArr? && |j.fields[Key.Other("classes")].items| == |schema.classes|
    && forall i :: 0 <= i < |schema.classes| ==> j.fields[Key.Other("classes")].items[i] == JStr(schema.classes[i])
  }

  lemma RecordIsExact(schema: Schema, confidence: real)
    requires schema.task.Some?
    ensures RecordedAs(Record(schema, confidence), schema, confidence)
  {
    assert Record(schema, confidence).fields.Keys ==
        {Key.Other("task_type"), Key.Other("classes"), Key.Other("schema_confidence"), Key.Other("item_confidence")};
  }

  /** The row as entry `e` labels it: its labels, their record with the entry's confidence, no error, and all else as it
      was. */
  predicate LabelledBy(x: Item, y: Item, e: Entry, schema: Schema) {
    && schema.task.Some? && Carries(y.labels, Clean(e.labels), schema.task.value)
    && y == x.(labels := y.labels, metadata := y.metadata)
    && Key.ClassificationError !in y.metadata && Key.Classification in y.metadata
    && RecordedAs(y.metadata[Key.Classification], schema, e.confidence)
    && forall k :: k in y.metadata.Keys + x.metadata.Keys && k !in {Key.Classification, Key.ClassificationError} ==>
         k in x.metadata && k in y.metadata && y.metadata[k] == x.metadata[k]
  }

  /** A row is labelled exactly when the last entry with its id has acceptable labels, and then it is labelled by that
      entry. */
  lemma AssignExactly(x: Item, results: seq<Entry>, schema: Schema, show: Show)
    requires schema.task.Some?
    ensures
      var y := Assign(x, results, schema, show);
      && (y.Success? <==> exists k :: OwnEntry(results, x.id, k) && Acceptable(Clean(results[k].labels), schema))
      && (y.Success? ==> forall k :: OwnEntry(results, x.id, k) ==> LabelledBy(x, y.value, results[k], schema))
  {
    FindIsOwn(results, x.id);
    var y := Assign(x, results, schema, show);
    if k :| OwnEntry(results, x.id, k) {
      AllowedIsAcceptable(Clean(results[k].labels), schema);
      if y.Success? { LabelledIsBy(x, results[k], schema); }
    }
  }

  lemma AllowedIsAcceptable(labels: seq<string>, schema: Schema)
    requires schema.task.Some?
    ensures Allowed(labels, schema) <==> Acceptable(labels, schema)
  {
  }

  lemma LabelledIsBy(x: Item, e: Entry, schema: Schema)
    requires schema.task.Some? && Acceptable(Clean(e.labels), schema) && Clean(e.labels) != []
    ensures LabelledBy(x, Labelled(x, Clean(e.labels), schema, e.confidence), e, schema)
  {
    RecordIsExact(schema, e.confidence);
    hide RecordedAs, Record;
  }

  // ---------------------------------------------------------------------------------------
  // A whole reply
  // ---------------------------------------------------------------------------------------

  ghost predicate Accepted(x: Item, results: seq<Entry>, schema: Schema, show: Show) {
    Classifiable(x, show) ==> exists k :: OwnEntry(results, x.id, k) && Acceptable(Clean(results[k].labels), schema)
  }

  /** The row as a reply that goes through leaves it. */
  ghost predicate Served(x: Item, y: Item, results: seq<Entry>, schema: Schema, show: Show) {
    if Classifiable(x, show) then forall k :: OwnEntry(results, x.id, k) ==> LabelledBy(x, y, results[k], schema)
    else y == x
  }

  /** A reply goes through exactly when it has an acceptable last entry for every row with text, and then each of them
      carries the labels of its own. */
  lemma {:induction false} ReplyExactly(chunk: seq<Item>, results: seq<Entry>, schema: Schema, show: Show)
    requires schema.task.Some?
    ensures
      var (out, error) := Apply(chunk, results, schema, show);
      && (error.None? <==> forall i :: 0 <= i < |chunk| ==> Accepted(chunk[i], results, schema, show))
      && (error.None? ==> forall i :: 0 <= i < |chunk| ==> Served(chunk[i], out[i], results, schema, show))
  {
    hide LabelledBy, Acceptable, Assign, Classifiable;
    if chunk != [] {
      ReplyExactly(chunk[1..], results, schema, show);
      AssignExactly(chunk[0], results, schema, show);
      ReplyFirst(chunk, results, schema, show);
      var out, rest := Apply(chunk, results, schema, show), Apply(chunk[1..], results, schema, show);
      forall i | 0 < i < |chunk| ensures chunk[i] == chunk[1..][i - 1] { }
      if out.1.None? {
        forall i | 0 <= i < |chunk| ensures Served(chunk[i], out.0[i], results, schema, show) {
          if i > 0 {
            assert Served(chunk[1..][i - 1], rest.0[i - 1], results, schema, show) && out.0[i] == out.0[1..][i - 1];
          }
        }
      }
    }
  }

  lemma ReplyFirst(chunk: seq<Item>, results: seq<Entry>, schema: Schema, show: Show)
    requires schema.task.Some? && chunk != []
    ensures
      var out, rest := Apply(chunk, results, schema, show), Apply(chunk[1..], results, schema, show);
      var y := Assign(chunk[0], results, schema, show);
      && (out.1.None? <==> (!Classifiable(chunk[0], show) || y.Success?) && rest.1.None?)
      && (out.1.None? ==>
            out.0[1..] == rest.0 && out.0[0] == if Classifiable(chunk[0], show) then y.value else chunk[0])
  {
    hide Assign, Classifiable;
  }

  // ---------------------------------------------------------------------------------------
  // A chunk
  // ---------------------------------------------------------------------------------------

  /** What is sent: for each row with text, in order, its id and the first 4000 characters of the text. */
  lemma {:induction false} RecordsExactly(a: seq<Item>, x: Item, show: Show)
    ensures
      var text := ClassificationText(x, show);
      Records(a + [x], show) ==
        Records(a, show) +
        if Strip(text) == "" then [] else if |text| <= 4000 then [(x.id, text)] else [(x.id, text[..4000])]
  {
    hide ClassificationText, Strip;
    if a == [] {
      assert a + [x] == [x] && [x][1..] == [];
    } else {
      RecordsExactly(a[1..], x, show);
      assert (a + [x])[1..] == a[1..] + [x];
    }
  }

  /** The reply that decides a chunk: the first attempt's, or if that is refused or fails, the second's. */
  function Deciding(chunk: seq<Item>, schema: Schema, ask: Ask, show: Show): Reply
    requires schema.task.Some?
  {
    var replies := Replies(chunk, schema, ask, show);
    if Attempt(Marked(chunk, false, NO_TEXT, show), replies.0, schema, show).1.None? then replies.0 else replies.1
  }

  lemma SameRow(x: Item, y: Item, results: seq<Entry>, schema: Schema, show: Show)
    requires y == x.(labels := y.labels, metadata := y.metadata)
    ensures Accepted(y, results, schema, show) <==> Accepted(x, results, schema, show)
    ensures Classifiable(y, show) == Classifiable(x, show)
  {
    SameClassifiable(x, y, show);
  }

  /** The entries of the reply decide which labels a row of the chunk has; attempts that came to nothing leave none. */
  ghost predicate HasOwnLabels(x: Item, y: Item, results: seq<Entry>, schema: Schema) {
    && schema.task.Some?
    && forall k :: OwnEntry(results, x.id, k) ==> Carries(y.labels, Clean(results[k].labels), schema.task.value)
  }

  lemma ServedHasOwn(x: Item, y: Item, z: Item, results: seq<Entry>, schema: Schema, show: Show)
    requires schema.task.Some? && y.id == x.id && Classifiable(y, show) && Served(y, z, results, schema, show)
    ensures HasOwnLabels(x, z, results, schema)
  {
    hide Carries, Classifiable;
  }

  /** Every row with text of a chunk that goes through has the labels of the last entry with its id in the reply that
      decided, and there is one. */
  lemma ChunkHasOwnLabels(chunk: seq<Item>, schema: Schema, ask: Ask, show: Show, i: nat)
    requires schema.task.Some? && i < |chunk| && Classifiable(chunk[i], show)
    requires ChunkError(chunk, schema, ask, show).None? && !ChunkRaises(chunk, schema, ask, show)
    ensures Deciding(chunk, schema, ask, show).Reply?
    ensures
      var results := Deciding(chunk, schema, ask, show).results;
      && HasOwnLabels(chunk[i], Chunk(chunk, schema, ask, show)[i], results, schema)
      && exists k :: OwnEntry(results, chunk[i].id, k)
  {
    hide HasOwnLabels, Classifiable, Accepted, Served, Apply;
    RecordsAreClassifiable(chunk, show);
    MarkedShape(chunk, false, NO_TEXT, show, i);
    var marked, replies := Marked(chunk, false, NO_TEXT, show), Replies(chunk, schema, ask, show);
    var first := Attempt(marked, replies.0, schema, show);
    if first.1.None? {
      AttemptHasOwn(chunk[i], marked, replies.0, schema, show, i);
    } else {
      AttemptShape(marked, replies.0, schema, show, i);
      AttemptHasOwn(chunk[i], first.0, replies.1, schema, show, i);
    }
  }

  lemma AttemptHasOwn(x: Item, chunk: seq<Item>, reply: Reply, schema: Schema, show: Show, i: nat)
    requires schema.task.Some? && i < |chunk| && Classifiable(chunk[i], show) && chunk[i].id == x.id
    requires Attempt(chunk, reply, schema, show).1.None?
    ensures reply.Reply? && HasOwnLabels(x, Attempt(chunk, reply, schema, show).0[i], reply.results, schema)
    ensures exists k :: OwnEntry(reply.results, x.id, k)
  {
    hide HasOwnLabels, Classifiable, Apply, LabelledBy, Acceptable, Served;
    ReplyExactly(chunk, reply.results, schema, show);
    assert Accepted(chunk[i], reply.results, schema, show);
    ServedHasOwn(x, chunk[i], Attempt(chunk, reply, schema, show).0[i], reply.results, schema, show);
  }

  // ---------------------------------------------------------------------------------------
  // Whole batches
  // ---------------------------------------------------------------------------------------

  /** Chunks are of ten rows, in order. */
  lemma ChunksOfTen(items: seq<Item>, i: nat)
    requires i < |items|
    ensures
      var first := i - i % 10;
      ChunkOf(items, i) == items[first..if |items| <= first + 10 then |items| else first + 10]
  {
    assert i / CHUNK_SIZE * CHUNK_SIZE == i - i % 10;
  }

  /** `classify_batch`: a row with text whose chunk goes through has the labels of the last entry with its own id in the
      reply that decided that chunk. */
  lemma BatchHasOwnLabels(items: seq<Item>, schema: Schema, ask: Ask, show: Show, i: nat)
    requires schema.task.Some? && i < |items| && Classifiable(items[i], show)
    requires ChunkError(ChunkOf(items, i), schema, ask, show).None?
    requires !ChunkRaises(ChunkOf(items, i), schema, ask, show)
    ensures Deciding(ChunkOf(items, i), schema, ask, show).Reply?
    ensures
      var results := Deciding(ChunkOf(items, i), schema, ask, show).results;
      && HasOwnLabels(items[i], Batch(items, schema, ask, show)[i], results, schema)
      && exists k :: OwnEntry(results, items[i].id, k)
  {
    hide Chunk, Batch, ChunkOf, HasOwnLabels, Deciding, ChunkRaises, ChunkError, Classifiable;
    BatchByChunk(items, schema, ask, show, i);
    ChunkHasOwnLabels(ChunkOf(items, i), schema, ask, show, i % CHUNK_SIZE);
  }

  // ---------------------------------------------------------------------------------------
  // Provider errors
  // ---------------------------------------------------------------------------------------

  /** The first reply is a provider error, or it fails or is refused for some row and the second is one. */
  ghost predicate Denies(chunk: seq<Item>, first: Reply, second: Reply, schema: Schema, show: Show) {
    || first.Denied?
    || (second.Denied? && first.Failed?)
    || (second.Denied? && first.Reply?
        && exists i :: 0 <= i < |chunk| && !Accepted(chunk[i], first.results, schema, show))
  }

  /** A chunk raises exactly when it has a row with text and a reply that is asked for is a provider error. */
  lemma ChunkRaisesExactly(chunk: seq<Item>, schema: Schema, ask: Ask, show: Show)
    requires schema.task.Some?
    ensures
      var sent := Records(chunk, show);
      ChunkRaises(chunk, schema, ask, show) <==>
        (exists i :: 0 <= i < |chunk| && Classifiable(chunk[i], show))
        && Denies(chunk, ask(schema, sent, 0), ask(schema, sent, 1), schema, show)
  {
    hide Accepted, Classifiable, Apply, Records;
    RecordsAreClassifiable(chunk, show);
    var marked, replies := Marked(chunk, false, NO_TEXT, show), Replies(chunk, schema, ask, show);
    if replies.0.Reply? {
      ReplyExactly(marked, replies.0.results, schema, show);
      forall i | 0 <= i < |chunk|
        ensures Accepted(marked[i], replies.0.results, schema, show) <==>
            Accepted(chunk[i], replies.0.results, schema, show)
      {
        SameRow(chunk[i], marked[i], replies.0.results, schema, show);
      }
    }
  }

  lemma ChunkOfLater(items: seq<Item>, i: nat)
    requires 10 <= i < |items|
    ensures ChunkOf(items, i) == ChunkOf(items[10..], i - 10)
  {
    ChunkOfRest(items, i);
  }

  /** A batch raises exactly when one of its chunks does. */
  lemma {:induction false} BatchRaisesExactly(items: seq<Item>, schema: Schema, ask: Ask, show: Show)
    requires schema.task.Some?
    ensures BatchRaises(items, schema, ask, show) <==>
        exists i :: 0 <= i < |items| && ChunkRaises(ChunkOf(items, i), schema, ask, show)
  {
    hide ChunkRaises, ChunkOf;
    forall i | 0 <= i < |items| && i < 10
      ensures ChunkOf(items, i) == if |items| <= 10 then items else items[..10]
    {
      ChunkOfFirst(items, i);
    }
    if |items| > 10 {
      var rest := items[10..];
      BatchRaisesExactly(rest, schema, ask, show);
      forall i | 10 <= i < |items| ensures ChunkOf(items, i) == ChunkOf(rest, i - 10) { ChunkOfLater(items, i); }
      forall j | 0 <= j < |rest| ensures ChunkOf(rest, j) == ChunkOf(items, j + 10) { ChunkOfLater(items, j + 10); }
      if BatchRaises(items, schema, ask, show) {
        if ChunkRaises(items[..10], schema, ask, show) {
          assert ChunkRaises(ChunkOf(items, 0), schema, ask, show);
        } else {
          var j :| 0 <= j < |rest| && ChunkRaises(ChunkOf(rest, j), schema, ask, show);
          assert ChunkRaises(ChunkOf(items, j + 10), schema, ask, show);
        }
      }
    } else if items != [] {
      assert ChunkRaises(ChunkOf(items, 0), schema, ask, show) <==> ChunkRaises(items, schema, ask, show);
    }
  }

  // ---------------------------------------------------------------------------------------
  // What is refused
  // ---------------------------------------------------------------------------------------

  /** Why a row is refused: no entry with its id, a label outside the classes, or the wrong number of them. */
  lemma RefusalReasons(x: Item, results: seq<Entry>, schema: Schema, show: Show)
    requires schema.task.Some? && Assign(x, results, schema, show).Failure?
    ensures
      var why := Assign(x, results, schema, show).error;
      if forall k :: 0 <= k < |results| ==> results[k].id != x.id then
        why == "Provider missed ID " + x.id + " in batch response"
      else
        forall k :: OwnEntry(results, x.id, k) ==>
          var labels := Clean(results[k].labels);
          if exists l :: l in labels && l !in schema.classes then
            "Provider returned labels outside the allowed set: " <= why
          else if schema.task == Some(MultiLabel) then
            labels == [] && why == "Multi-label results require at least one label"
          else |labels| != 1 && why == "Binary and multi-class results require exactly one label"
  {
    FindIsOwn(results, x.id);
  }

  /** A schema to label with: two classes for a binary task, three or more for one of many, two or more for several. */
  lemma SchemaExactly(schema: Schema)
    requires schema.applicable
    ensures schema.Valid() <==>
      || (schema.task == Some(Binary) && |schema.classes| == 2)
      || (schema.task == Some(MultiClass) && |schema.classes| > 2)
      || (schema.task == Some(MultiLabel) && |schema.classes| > 1)
  {
  }
}
