/** Closed-set labelling in chunks. A provider's replies are arbitrary: `ask` may answer any request, on either
    attempt, with any results or fail with any message. */
module Classifier {
  import opened ItemText
  import opened Schemas
  import opened Sequences
  import opened Wrappers

  const CHUNK_SIZE := 10
  const TEXT_LIMIT := 4000

  datatype Task = Binary | MultiClass | MultiLabel

  /** `ClassificationSchema` */
  datatype Schema = Schema(applicable: bool, task: Option<Task>, classes: seq<string>, confidence: real) {
    predicate Valid() {
      applicable ==>
        && task.Some?
        && match task.value
           case Binary => |classes| == 2
           case MultiClass => |classes| >= 3
           case MultiLabel => |classes| >= 2
    }
  }

  datatype Entry = Entry(id: string, labels: seq<string>, confidence: real)

  /** Results, an exception with a text, or a provider error, which is never retried and ends the run. */
  datatype Reply = Reply(results: seq<Entry>) | Failed(message: string) | Denied

  /** The request: the schema, the ids and texts, and which attempt it is. */
  type Ask = (Schema, seq<(string, string)>, nat) -> Reply

  // ---------------------------------------------------------------------------------------
  // _validate_result
  // ---------------------------------------------------------------------------------------

  /** Labels stripped, blanks and repeats left out. */
  function Clean(labels: seq<string>): seq<string> {
    if labels == [] then []
    else
      var n := |labels| - 1;
      var front, l := Clean(labels[..n]), Strip(labels[n]);
      if l == "" || l in front then front else front + [l]
  }

  lemma {:induction false} CleanIsASet(labels: seq<string>)
    ensures forall l :: l in Clean(labels) <==> l != "" && exists i :: 0 <= i < |labels| && Strip(labels[i]) == l
    ensures forall i, j :: 0 <= i < j < |Clean(labels)| ==> Clean(labels)[i] != Clean(labels)[j]
  {
    if labels != [] {
      var n := |labels| - 1;
      CleanIsASet(labels[..n]);
      forall l ensures l in Clean(labels) <==> l != "" && exists i :: 0 <= i < |labels| && Strip(labels[i]) == l {
        if l in Clean(labels[..n]) {
          var i :| 0 <= i < n && Strip(labels[..n][i]) == l;
          assert Strip(labels[i]) == l;
        }
        if i :| 0 <= i < |labels| && Strip(labels[i]) == l {
          if i < n { assert Strip(labels[..n][i]) == l; }
        }
      }
    }
  }

  predicate Allowed(labels: seq<string>, schema: Schema) {
    && (forall l :: l in labels ==> l in schema.classes)
    && (schema.task.Some? ==> if schema.task.value == MultiLabel then labels != [] else |labels| == 1)
  }

  function ValidateResult(entry: Entry, schema: Schema, show: Show): (r: Result<seq<string>, string>)
    ensures r.Success? <==> Allowed(Clean(entry.labels), schema)
    ensures r.Success? ==> r.value == Clean(entry.labels)
    ensures r.Failure? ==> r.error != ""
  {
    var labels := Clean(entry.labels);
    if exists l :: l in labels && l !in schema.classes then
      Failure("Provider returned labels outside the allowed set: "
              + show(JArr(seq(|labels|, i requires 0 <= i < |labels| => JStr(labels[i])))))
    else if schema.task.Some? && schema.task.value != MultiLabel && |labels| != 1 then
      Failure("Binary and multi-class results require exactly one label")
    else if schema.task == Some(MultiLabel) && labels == [] then
      Failure("Multi-label results require at least one label")
    else Success(labels)
  }

  // ---------------------------------------------------------------------------------------
  // _classify_chunk
  // ---------------------------------------------------------------------------------------

  predicate Classifiable(x: Item, show: Show) { Strip(ClassificationText(x, show)) != "" }

  const NO_TEXT := "No classifiable text found."

  function WithError(x: Item, message: string): Item {
    x.(metadata := x.metadata[Key.ClassificationError := JStr(message)])
  }

  /** Every classifiable row of the chunk with an error, or every other one. */
  function Marked(chunk: seq<Item>, classifiable: bool, message: string, show: Show): seq<Item> {
    seq(|chunk|, i requires 0 <= i < |chunk| =>
      if Classifiable(chunk[i], show) == classifiable then WithError(chunk[i], message) else chunk[i])
  }

  function Truncate(s: string): string { if |s| <= TEXT_LIMIT then s else s[..TEXT_LIMIT] }

  function Records(chunk: seq<Item>, show: Show): seq<(string, string)> {
    if chunk == [] then []
    else (if Classifiable(chunk[0], show) then [(chunk[0].id, Truncate(ClassificationText(chunk[0], show)))] else [])
         + Records(chunk[1..], show)
  }

  /** `result_map.get(id)`: a later entry with the same id wins. */
  function Find(results: seq<Entry>, id: string): Option<Entry> {
    if results == [] then None
    else if results[|results| - 1].id == id then Some(results[|results| - 1])
    else Find(results[..|results| - 1], id)
  }

  function LabelsFor(labels: seq<string>, schema: Schema): Labels
    requires labels != []
  {
    if schema.task == Some(MultiLabel) then Many(seq(|labels|, i requires 0 <= i < |labels| => AStr(labels[i])))
    else One(AStr(labels[0]))
  }

  function TaskName(task: Task): string {
    match task case Binary => "binary" case MultiClass => "multi-class" case MultiLabel => "multi-label"
  }

  /** `metadata["classification"]`, without the provider's and the model's name. */
  function Record(schema: Schema, confidence: real): Json {
    JObj(map[Key.Other("task_type") := if schema.task.Some? then JStr(TaskName(schema.task.value)) else JNull,
             Key.Other("classes") :=
                 JArr(seq(|schema.classes|, i requires 0 <= i < |schema.classes| => JStr(schema.classes[i]))),
             Key.Other("schema_confidence") := JNum(schema.confidence),
             Key.Other("item_confidence") := JNum(confidence)])
  }

  function Labelled(x: Item, labels: seq<string>, schema: Schema, confidence: real): Item
    requires labels != []
  {
    x.(labels := Some(LabelsFor(labels, schema)),
       metadata := x.metadata[Key.Classification := Record(schema, confidence)] - {Key.ClassificationError})
  }

  /** One row of a reply: the labelled row, or why it is refused. */
  function Assign(x: Item, results: seq<Entry>, schema: Schema, show: Show): (r: Result<Item, string>)
    requires schema.task.Some?
    ensures r.Failure? ==> r.error != ""
  {
    var entry := Find(results, x.id);
    if entry.None? then Failure("Provider missed ID " + x.id + " in batch response")
    else
      var labels := ValidateResult(entry.value, schema, show);
      if labels.Failure? then Failure(labels.error)
          else Success(Labelled(x, labels.value, schema, entry.value.confidence))
  }

  /** Rows are labelled in order until one is refused; those before it stay labelled. */
  function Apply(chunk: seq<Item>, results: seq<Entry>, schema: Schema, show: Show): (out: (seq<Item>, Option<string>))
    requires schema.task.Some?
    ensures |out.0| == |chunk|
  {
    if chunk == [] then ([], None)
    else if !Classifiable(chunk[0], show) then
      var rest := Apply(chunk[1..], results, schema, show);
      ([chunk[0]] + rest.0, rest.1)
    else
      match Assign(chunk[0], results, schema, show)
      case Failure(message) => (chunk, Some(message))
      case Success(y) =>
        var rest := Apply(chunk[1..], results, schema, show);
        ([y] + rest.0, rest.1)
  }

  function Attempt(chunk: seq<Item>, reply: Reply, schema: Schema, show: Show): (out: (seq<Item>, Option<string>))
    requires schema.task.Some?
    ensures |out.0| == |chunk|
  {
    match reply
    case Failed(message) => (chunk, Some(message))
    case Denied => (chunk, Some("provider error"))
    case Reply(results) => Apply(chunk, results, schema, show)
  }

  /** Two attempts, then the last error on every classifiable row. */
  function Twice(chunk: seq<Item>, replies: (Reply, Reply), schema: Schema, show: Show): (out: seq<Item>)
    requires schema.task.Some?
    ensures |out| == |chunk|
  {
    var first := Attempt(chunk, replies.0, schema, show);
    if first.1.None? then first.0
    else
      var second := Attempt(first.0, replies.1, schema, show);
      if second.1.None? then second.0 else Marked(second.0, true, second.1.value, show)
  }

  function Chunk(chunk: seq<Item>, schema: Schema, ask: Ask, show: Show): (out: seq<Item>)
    requires schema.task.Some?
    ensures |out| == |chunk|
  {
    var marked := Marked(chunk, false, NO_TEXT, show);
    if Records(chunk, show) == [] then marked else Twice(marked, Replies(chunk, schema, ask, show), schema, show)
  }

  /** What the provider would say to either attempt on this chunk. */
  function Replies(chunk: seq<Item>, schema: Schema, ask: Ask, show: Show): (Reply, Reply) {
    (ask(schema, Records(chunk, show), 0), ask(schema, Records(chunk, show), 1))
  }

  /** Whether a provider error comes up. What the other functions make of such a reply is then not used. */
  predicate ChunkRaises(chunk: seq<Item>, schema: Schema, ask: Ask, show: Show)
    requires schema.task.Some?
  {
    var replies := Replies(chunk, schema, ask, show);
    var first := Attempt(Marked(chunk, false, NO_TEXT, show), replies.0, schema, show);
    Records(chunk, show) != [] && (replies.0.Denied? || (first.1.Some? && replies.1.Denied?))
  }

  predicate BatchRaises(items: seq<Item>, schema: Schema, ask: Ask, show: Show)
    requires schema.task.Some?
  {
    if |items| <= CHUNK_SIZE then items != [] && ChunkRaises(items, schema, ask, show)
    else ChunkRaises(items[..CHUNK_SIZE], schema, ask, show) || BatchRaises(items[CHUNK_SIZE..], schema, ask, show)
  }

  /** Whole lists of at most ten rows at a time. */
  function Batch(items: seq<Item>, schema: Schema, ask: Ask, show: Show): (out: seq<Item>)
    requires schema.task.Some?
    ensures |out| == |items|
  {
    if |items| <= CHUNK_SIZE then (if items == [] then [] else Chunk(items, schema, ask, show))
    else Chunk(items[..CHUNK_SIZE], schema, ask, show) + Batch(items[CHUNK_SIZE..], schema, ask, show)
  }

  predicate HasError(x: Item) { Key.ClassificationError in x.metadata && x.metadata[Key.ClassificationError].Truthy() }

  function Failures(items: seq<Item>): seq<bool> { seq(|items|, i requires 0 <= i < |items| => HasError(items[i])) }

  // ---------------------------------------------------------------------------------------
  // What survives
  // ---------------------------------------------------------------------------------------

  /** A row whose labels are allowed classes, as many as the task type takes. */
  ghost predicate InClosedSet(x: Item, schema: Schema) {
    x.labels.Some?
    && match x.labels.value
       case One(a) => schema.task.Some? && schema.task != Some(MultiLabel) && a.AStr? && a.s in schema.classes
       case Many(xs) =>
         && schema.task == Some(MultiLabel) && xs != []
         && (forall a :: a in xs ==> a.AStr? && a.s in schema.classes)
         && forall i, j :: 0 <= i < j < |xs| ==> xs[i] != xs[j]
  }

  lemma SameClassifiable(x: Item, y: Item, show: Show)
    requires y == x.(labels := y.labels, metadata := y.metadata)
    ensures Classifiable(y, show) == Classifiable(x, show)
  {
  }

  lemma AssignIsClosed(x: Item, results: seq<Entry>, schema: Schema, show: Show)
    requires schema.task.Some? && Assign(x, results, schema, show).Success?
    ensures
      var y := Assign(x, results, schema, show).value;
      && InClosedSet(y, schema) && !HasError(y)
      && y == x.(labels := y.labels, metadata := y.metadata) && Classifiable(y, show) == Classifiable(x, show)
  {
    var labels := Find(results, x.id).value.labels;
    CleanIsASet(labels);
    var y := Assign(x, results, schema, show).value;
    if schema.task != Some(MultiLabel) { assert Clean(labels)[0] in Clean(labels); }
  }

  /** What one attempt leaves at a row: untouched, or labelled from the closed set without an error. */
  ghost predicate After(x: Item, y: Item, schema: Schema, show: Show) {
    y == x || (Classifiable(x, show) && InClosedSet(y, schema) && !HasError(y) &&
        y == x.(labels := y.labels, metadata := y.metadata))
  }

  lemma {:induction false} ApplyShape(chunk: seq<Item>, results: seq<Entry>, schema: Schema, show: Show, i: nat)
    requires schema.task.Some? && i < |chunk|
    ensures
      var (out, error) := Apply(chunk, results, schema, show);
      && After(chunk[i], out[i], schema, show)
      && (error.None? && Classifiable(chunk[i], show) ==> InClosedSet(out[i], schema) && !HasError(out[i]))
  {
    if Classifiable(chunk[0], show) {
      var y := Assign(chunk[0], results, schema, show);
      if y.Success? { AssignIsClosed(chunk[0], results, schema, show); }
      if y.Success? && i > 0 { ApplyShape(chunk[1..], results, schema, show, i - 1); }
    } else if i > 0 {
      ApplyShape(chunk[1..], results, schema, show, i - 1);
    }
  }

  lemma ApplyFirst(chunk: seq<Item>, results: seq<Entry>, schema: Schema, show: Show)
    requires schema.task.Some? && chunk != []
    ensures
      var out, rest := Apply(chunk, results, schema, show), Apply(chunk[1..], results, schema, show);
      if Classifiable(chunk[0], show) && Assign(chunk[0], results, schema, show).Failure?
      then out.0 == chunk && out.1.Some? && out.1.value != ""
      else out.0[1..] == rest.0 && out.1 == rest.1
  {
  }

  /** A refused reply refuses some classifiable row, for a stated reason. */
  lemma {:induction false} ApplyRefuses(chunk: seq<Item>, results: seq<Entry>, schema: Schema, show: Show)
      returns (at: nat)
    requires schema.task.Some? && Apply(chunk, results, schema, show).1.Some?
    ensures Apply(chunk, results, schema, show).1.value != ""
    ensures at < |chunk| && Classifiable(chunk[at], show) && Assign(chunk[at], results, schema, show).Failure?
  {
    hide Classifiable, Assign;
    ApplyFirst(chunk, results, schema, show);
    if Classifiable(chunk[0], show) && Assign(chunk[0], results, schema, show).Failure? {
      at := 0;
    } else {
      var before := ApplyRefuses(chunk[1..], results, schema, show);
      at := before + 1;
    }
  }

  lemma AttemptShape(chunk: seq<Item>, reply: Reply, schema: Schema, show: Show, i: nat)
    requires schema.task.Some? && i < |chunk|
    ensures
      var (out, error) := Attempt(chunk, reply, schema, show);
      && After(chunk[i], out[i], schema, show) && Classifiable(out[i], show) == Classifiable(chunk[i], show)
      && (error.None? && Classifiable(chunk[i], show) ==> InClosedSet(out[i], schema) && !HasError(out[i]))
  {
    if reply.Reply? { ApplyShape(chunk, reply.results, schema, show, i); }
    var y := Attempt(chunk, reply, schema, show).0[i];
    assert y == chunk[i].(labels := y.labels, metadata := y.metadata);
  }

  /** The last error when both attempts are refused, and none when one is not. */
  function LastError(chunk: seq<Item>, replies: (Reply, Reply), schema: Schema, show: Show): Option<string>
    requires schema.task.Some?
  {
    var first := Attempt(chunk, replies.0, schema, show);
    if first.1.None? then None else Attempt(first.0, replies.1, schema, show).1
  }

  /** Row by row: labelled from the closed set when an attempt went through, else carrying the last error. */
  lemma TwiceShape(chunk: seq<Item>, replies: (Reply, Reply), schema: Schema, show: Show, i: nat)
    requires schema.task.Some? && i < |chunk|
    ensures
      var out, e := Twice(chunk, replies, schema, show), LastError(chunk, replies, schema, show);
      && (!Classifiable(chunk[i], show) ==> out[i] == chunk[i])
      && (Classifiable(chunk[i], show) && e.None? ==> InClosedSet(out[i], schema) && !HasError(out[i]))
      && (Classifiable(chunk[i], show) && e.Some? ==> (HasError(out[i]) <==> e.value != ""))
      && out[i] == chunk[i].(labels := out[i].labels, metadata := out[i].metadata)
  {
    hide Classifiable, Apply, InClosedSet;
    AttemptShape(chunk, replies.0, schema, show, i);
    var first := Attempt(chunk, replies.0, schema, show);
    if first.1.Some? { AttemptShape(first.0, replies.1, schema, show, i); }
  }

  lemma MarkedShape(chunk: seq<Item>, classifiable: bool, message: string, show: Show, i: nat)
    requires i < |chunk|
    ensures
      var x, y := chunk[i], Marked(chunk, classifiable, message, show)[i];
      && y == x.(labels := y.labels, metadata := y.metadata) && Classifiable(y, show) == Classifiable(x, show)
      && (if Classifiable(x, show) == classifiable then HasError(y) <==> message != "" else y == x)
  {
    SameClassifiable(chunk[i], Marked(chunk, classifiable, message, show)[i], show);
  }

  function ChunkError(chunk: seq<Item>, schema: Schema, ask: Ask, show: Show): Option<string>
    requires schema.task.Some?
  {
    LastError(Marked(chunk, false, NO_TEXT, show), Replies(chunk, schema, ask, show), schema, show)
  }

  /** Closed-set labelling of a chunk, whatever the provider does: a row with no text is rejected, and one with text
      survives unlabelled only when the last error has an empty text. */
  lemma ChunkIsClosed(chunk: seq<Item>, schema: Schema, ask: Ask, show: Show, i: nat)
    requires schema.task.Some? && i < |chunk|
    ensures
      var out, e := Chunk(chunk, schema, ask, show), ChunkError(chunk, schema, ask, show);
      && out[i] == chunk[i].(labels := out[i].labels, metadata := out[i].metadata)
      && (!Classifiable(chunk[i], show) ==> HasError(out[i]))
      && (Classifiable(chunk[i], show) && e.None? ==> InClosedSet(out[i], schema) && !HasError(out[i]))
      && (Classifiable(chunk[i], show) && e.Some? ==> (HasError(out[i]) <==> e.value != ""))
  {
    RecordsAreClassifiable(chunk, show);
    MarkedShape(chunk, false, NO_TEXT, show, i);
    var marked := Marked(chunk, false, NO_TEXT, show);
    if Records(chunk, show) != [] { TwiceShape(marked, Replies(chunk, schema, ask, show), schema, show, i); }
  }

  lemma {:induction false} RecordsAreClassifiable(chunk: seq<Item>, show: Show)
    ensures Records(chunk, show) == [] <==> forall i :: 0 <= i < |chunk| ==> !Classifiable(chunk[i], show)
  {
    if chunk != [] {
      RecordsAreClassifiable(chunk[1..], show);
      if j :| 0 <= j < |chunk| && Classifiable(chunk[j], show) {
        if j > 0 { assert Classifiable(chunk[1..][j - 1], show); }
      }
      if j :| 0 <= j < |chunk[1..]| && Classifiable(chunk[1..][j], show) { assert Classifiable(chunk[j + 1], show); }
    }
  }

  /** The reply is accepted for every row up to the `i`th. */
  predicate Reaches(chunk: seq<Item>, reply: Reply, schema: Schema, show: Show, i: nat)
    requires schema.task.Some? && i < |chunk|
  {
    && reply.Reply?
    && forall k :: 0 <= k <= i && Classifiable(chunk[k], show) ==>
         Assign(chunk[k], reply.results, schema, show).Success?
  }

  lemma ReachesFirst(chunk: seq<Item>, reply: Reply, schema: Schema, show: Show)
    requires schema.task.Some? && chunk != [] && reply.Reply?
    ensures Reaches(chunk, reply, schema, show, 0) <==>
      (Classifiable(chunk[0], show) ==> Assign(chunk[0], reply.results, schema, show).Success?)
  {
    hide Classifiable, Assign;
  }

  lemma ReachesNext(chunk: seq<Item>, reply: Reply, schema: Schema, show: Show, i: nat)
    requires schema.task.Some? && 0 < i < |chunk| && reply.Reply?
    ensures Reaches(chunk, reply, schema, show, i) <==>
      (Classifiable(chunk[0], show) ==> Assign(chunk[0], reply.results, schema, show).Success?)
      && Reaches(chunk[1..], reply, schema, show, i - 1)
  {
    hide Classifiable, Assign;
    if Reaches(chunk[1..], reply, schema, show, i - 1) {
      forall k | 0 < k <= i && Classifiable(chunk[k], show)
        ensures Assign(chunk[k], reply.results, schema, show).Success?
      {
        assert chunk[k] == chunk[1..][k - 1];
      }
    }
  }

  /** An attempt labels the rows it reaches and leaves the others. */
  lemma {:induction false} ApplyReaches(chunk: seq<Item>, results: seq<Entry>, schema: Schema, show: Show, i: nat)
    requires schema.task.Some? && i < |chunk| && Classifiable(chunk[i], show)
    ensures
      var y := Apply(chunk, results, schema, show).0[i];
      if Reaches(chunk, Reply(results), schema, show, i) then InClosedSet(y, schema) else y == chunk[i]
  {
    hide Classifiable, Assign, Reaches;
    var first := Assign(chunk[0], results, schema, show);
    ReachesFirst(chunk, Reply(results), schema, show);
    if i == 0 {
      if first.Success? { AssignIsClosed(chunk[0], results, schema, show); }
    } else {
      ReachesNext(chunk, Reply(results), schema, show, i);
      if Classifiable(chunk[0], show) ==> first.Success? { ApplyReaches(chunk[1..], results, schema, show, i - 1); }
    }
  }

  /** Only an exception, never a refused reply, has an empty text. */
  lemma SilentIsFailed(chunk: seq<Item>, replies: (Reply, Reply), schema: Schema, show: Show)
    requires schema.task.Some? && LastError(chunk, replies, schema, show) == Some("")
    ensures replies.1 == Failed("") && Attempt(chunk, replies.0, schema, show).1.Some?
  {
    var once := Attempt(chunk, replies.0, schema, show).0;
    if replies.1.Reply? { var _ := ApplyRefuses(once, replies.1.results, schema, show); }
  }

  /** A row whose last error has an empty text survives with the labels the first reply gave it, or those it had. */
  lemma SilentLabels(chunk: seq<Item>, replies: (Reply, Reply), schema: Schema, show: Show, i: nat)
    requires schema.task.Some? && i < |chunk| && Classifiable(chunk[i], show)
    requires LastError(chunk, replies, schema, show) == Some("")
    ensures InClosedSet(Twice(chunk, replies, schema, show)[i], schema) <==>
            Reaches(chunk, replies.0, schema, show, i) || InClosedSet(chunk[i], schema)
  {
    hide Classifiable, Apply, Assign;
    SilentIsFailed(chunk, replies, schema, show);
    var once := Attempt(chunk, replies.0, schema, show).0;
    assert Twice(chunk, replies, schema, show) == Marked(once, true, "", show);
    if replies.0.Reply? { ApplyReaches(chunk, replies.0.results, schema, show, i); }
  }

  /** The exact condition, for rows of any kind: every survivor has labels of the closed set if and only if an attempt
      went through, or the last error has a text, or each row with text was reached by the first reply or had such
      labels before. */
  lemma SurvivorsAreLabelledExactly(chunk: seq<Item>, replies: (Reply, Reply), schema: Schema, show: Show)
    requires schema.task.Some?
    requires forall i :: 0 <= i < |chunk| ==> HasError(chunk[i]) || Classifiable(chunk[i], show)
    ensures
      var out, e := Twice(chunk, replies, schema, show), LastError(chunk, replies, schema, show);
      (forall i :: 0 <= i < |out| && !HasError(out[i]) ==> InClosedSet(out[i], schema))
      <==> (e.None? || e.value != "" || forall i :: 0 <= i < |chunk| && Classifiable(chunk[i], show) ==>
              Reaches(chunk, replies.0, schema, show, i) || InClosedSet(chunk[i], schema))
  {
    var out, e := Twice(chunk, replies, schema, show), LastError(chunk, replies, schema, show);
    forall i | 0 <= i < |chunk|
      ensures !HasError(out[i]) && !InClosedSet(out[i], schema) <==>
        e == Some("") && Classifiable(chunk[i], show)
        && !Reaches(chunk, replies.0, schema, show, i) && !InClosedSet(chunk[i], schema)
    {
      TwiceShape(chunk, replies, schema, show, i);
      if e == Some("") && Classifiable(chunk[i], show) { SilentLabels(chunk, replies, schema, show, i); }
    }
  }

  /** The chunk of at most ten rows that row `i` is sent in. */
  function ChunkOf(items: seq<Item>, i: nat): seq<Item>
    requires i < |items|
  {
    var lo := i / CHUNK_SIZE * CHUNK_SIZE;
    if |items| <= lo + CHUNK_SIZE then items[lo..] else items[lo..lo + CHUNK_SIZE]
  }

  lemma ChunkOfRest(items: seq<Item>, i: nat)
    requires CHUNK_SIZE <= i < |items|
    ensures ChunkOf(items[CHUNK_SIZE..], i - CHUNK_SIZE) == ChunkOf(items, i)
    ensures (i - CHUNK_SIZE) % CHUNK_SIZE == i % CHUNK_SIZE
  {
  }

  lemma ChunkOfFirst(items: seq<Item>, i: nat)
    requires i < |items| && i < CHUNK_SIZE
    ensures ChunkOf(items, i) == (if |items| <= CHUNK_SIZE then items else items[..CHUNK_SIZE]) && i % CHUNK_SIZE == i
  {
    assert i / CHUNK_SIZE == 0;
    assert items[0..] == items;
    if |items| > CHUNK_SIZE { assert items[0..CHUNK_SIZE] == items[..CHUNK_SIZE]; }
  }

  /** A row's outcome is decided by its own chunk. */
  lemma {:induction false} BatchByChunk(items: seq<Item>, schema: Schema, ask: Ask, show: Show, i: nat)
    requires schema.task.Some? && i < |items|
    ensures i % CHUNK_SIZE < |ChunkOf(items, i)| && ChunkOf(items, i)[i % CHUNK_SIZE] == items[i]
    ensures Batch(items, schema, ask, show)[i] == Chunk(ChunkOf(items, i), schema, ask, show)[i % CHUNK_SIZE]
    decreases |items|
  {
    hide ChunkOf, Chunk;
    if i < CHUNK_SIZE {
      ChunkOfFirst(items, i);
      if |items| > CHUNK_SIZE { BatchHead(items, schema, ask, show, i); }
    } else {
      ChunkOfRest(items, i);
      BatchTail(items, schema, ask, show, i);
      BatchByChunk(items[CHUNK_SIZE..], schema, ask, show, i - CHUNK_SIZE);
    }
  }

  lemma IndexJoined<T>(a: seq<T>, b: seq<T>, i: nat)
    requires i < |a| + |b|
    ensures (a + b)[i] == if i < |a| then a[i] else b[i - |a|]
  {
  }

  lemma BatchHead(items: seq<Item>, schema: Schema, ask: Ask, show: Show, i: nat)
    requires schema.task.Some? && i < CHUNK_SIZE < |items|
    ensures Batch(items, schema, ask, show)[i] == Chunk(items[..CHUNK_SIZE], schema, ask, show)[i]
  {
    IndexJoined(Chunk(items[..CHUNK_SIZE], schema, ask, show), Batch(items[CHUNK_SIZE..], schema, ask, show), i);
  }

  lemma BatchTail(items: seq<Item>, schema: Schema, ask: Ask, show: Show, i: nat)
    requires schema.task.Some? && CHUNK_SIZE <= i < |items|
    ensures Batch(items, schema, ask, show)[i] == Batch(items[CHUNK_SIZE..], schema, ask, show)[i - CHUNK_SIZE]
  {
    IndexJoined(Chunk(items[..CHUNK_SIZE], schema, ask, show), Batch(items[CHUNK_SIZE..], schema, ask, show), i);
  }

  /** `classify_batch` over any number of chunks, for every provider: a row without text is rejected; one with text is
      labelled from the closed set when an attempt on its own chunk went through, and otherwise survives exactly when
      that chunk's last error has an empty text. */
  lemma BatchIsClosed(items: seq<Item>, schema: Schema, ask: Ask, show: Show, i: nat)
    requires schema.task.Some? && i < |items|
    ensures
      var out, e := Batch(items, schema, ask, show), ChunkError(ChunkOf(items, i), schema, ask, show);
      && out[i] == items[i].(labels := out[i].labels, metadata := out[i].metadata)
      && (!Classifiable(items[i], show) ==> HasError(out[i]))
      && (Classifiable(items[i], show) && e.None? ==> InClosedSet(out[i], schema) && !HasError(out[i]))
      && (Classifiable(items[i], show) && e.Some? ==> (HasError(out[i]) <==> e.value != ""))
  {
    BatchByChunk(items, schema, ask, show, i);
    ChunkIsClosed(ChunkOf(items, i), schema, ask, show, i % CHUNK_SIZE);
  }

  /** The chunk that row `i` is sent in does not end in an empty error. */
  predicate Answered(items: seq<Item>, schema: Schema, ask: Ask, show: Show, i: nat)
    requires schema.task.Some? && i < |items|
  {
    Classifiable(items[i], show) ==> ChunkError(ChunkOf(items, i), schema, ask, show) != Some("")
  }

  lemma MarkedReaches(chunk: seq<Item>, reply: Reply, schema: Schema, show: Show, i: nat)
    requires schema.task.Some? && i < |chunk|
    ensures Reaches(Marked(chunk, false, NO_TEXT, show), reply, schema, show, i) <==>
            Reaches(chunk, reply, schema, show, i)
  {
    var marked := Marked(chunk, false, NO_TEXT, show);
    forall k | 0 <= k <= i
      ensures Classifiable(marked[k], show) == Classifiable(chunk[k], show)
      ensures Classifiable(chunk[k], show) ==> marked[k] == chunk[k]
    {
      MarkedShape(chunk, false, NO_TEXT, show, k);
    }
  }

  lemma SilentInChunk(chunk: seq<Item>, schema: Schema, ask: Ask, show: Show, i: nat)
    requires schema.task.Some? && i < |chunk| && Classifiable(chunk[i], show)
    requires ChunkError(chunk, schema, ask, show) == Some("")
    ensures InClosedSet(Chunk(chunk, schema, ask, show)[i], schema) <==>
            Reaches(chunk, Replies(chunk, schema, ask, show).0, schema, show, i) || InClosedSet(chunk[i], schema)
  {
    hide Twice, Reaches, Replies, InClosedSet;
    RecordsAreClassifiable(chunk, show);
    MarkedShape(chunk, false, NO_TEXT, show, i);
    var replies := Replies(chunk, schema, ask, show);
    MarkedReaches(chunk, replies.0, schema, show, i);
    SilentLabels(Marked(chunk, false, NO_TEXT, show), replies, schema, show, i);
  }

  /** A chunk whose first attempt is refused or fails has a row with text that the first reply does not reach. */
  lemma Unreached(chunk: seq<Item>, replies: (Reply, Reply), schema: Schema, show: Show, i: nat) returns (at: nat)
    requires schema.task.Some? && i < |chunk| && Classifiable(chunk[i], show)
    requires Attempt(Marked(chunk, false, NO_TEXT, show), replies.0, schema, show).1.Some?
    ensures at < |chunk| && Classifiable(chunk[at], show) && !Reaches(chunk, replies.0, schema, show, at)
  {
    hide Classifiable, Apply, Assign;
    at := i;
    if replies.0.Reply? {
      var marked := Marked(chunk, false, NO_TEXT, show);
      at := ApplyRefuses(marked, replies.0.results, schema, show);
      MarkedShape(chunk, false, NO_TEXT, show, at);
      MarkedReaches(chunk, replies.0, schema, show, at);
    }
  }

  /** Every row of a chunk is a row of the list that is sent in that chunk. */
  lemma SameChunk(items: seq<Item>, i: nat, at: nat) returns (j: nat)
    requires i < |items| && at < |ChunkOf(items, i)|
    ensures j < |items| && ChunkOf(items, j) == ChunkOf(items, i) && j % CHUNK_SIZE == at
    ensures items[j] == ChunkOf(items, i)[at]
  {
    j := i / CHUNK_SIZE * CHUNK_SIZE + at;
    assert j / CHUNK_SIZE == i / CHUNK_SIZE;
  }

  /** Row `i` is not left with labels outside the closed set by an error with an empty text. */
  ghost predicate Resolved(items: seq<Item>, schema: Schema, ask: Ask, show: Show, i: nat)
    requires schema.task.Some? && i < |items|
  {
    || Answered(items, schema, ask, show, i)
    || InClosedSet(items[i], schema)
    || ReachedAtOnce(items, schema, ask, show, i)
  }

  /** The first reply to the chunk of row `i` is accepted for every row up to it. */
  predicate ReachedAtOnce(items: seq<Item>, schema: Schema, ask: Ask, show: Show, i: nat)
    requires schema.task.Some? && i < |items|
  {
    var chunk := ChunkOf(items, i);
    i % CHUNK_SIZE < |chunk| &&
      Reaches(chunk, Replies(chunk, schema, ask, show).0, schema, show, i % CHUNK_SIZE)
  }

  lemma RowExactly(items: seq<Item>, schema: Schema, ask: Ask, show: Show, i: nat)
    requires schema.task.Some? && i < |items|
    ensures
      var y := Batch(items, schema, ask, show)[i];
      (!HasError(y) ==> InClosedSet(y, schema)) <==> Resolved(items, schema, ask, show, i)
  {
    hide Batch, Chunk, Reaches, Replies, InClosedSet;
    BatchIsClosed(items, schema, ask, show, i);
    BatchByChunk(items, schema, ask, show, i);
    if !Answered(items, schema, ask, show, i) {
      SilentInChunk(ChunkOf(items, i), schema, ask, show, i % CHUNK_SIZE);
    }
  }

  /** The rows that `partition_failures` accepts after `classify_batch`. */
  function Survivors(items: seq<Item>, schema: Schema, ask: Ask, show: Show): seq<Item>
    requires schema.task.Some?
  {
    var out := Batch(items, schema, ask, show);
    Pick(out, Failures(out), false)
  }

  lemma KeptMembers(out: seq<Item>, x: Item)
    ensures x in Pick(out, Failures(out), false) <==> exists i :: 0 <= i < |out| && !HasError(out[i]) && out[i] == x
  {
    PickMembers(out, Failures(out), false, x);
    if i :| 0 <= i < |out| && !HasError(out[i]) && out[i] == x { assert Failures(out)[i] == false; }
  }

  /** The exact condition over whole batches, rows that arrive labelled included: every survivor has labels of the
      closed set if and only if each row with text is in a chunk that does not end in an empty error, or had such labels
      before, or was reached by the first reply. */
  lemma BatchSurvivorsExactly(items: seq<Item>, schema: Schema, ask: Ask, show: Show)
    requires schema.task.Some?
    ensures (forall x :: x in Survivors(items, schema, ask, show) ==> InClosedSet(x, schema))
       <==> (forall i :: 0 <= i < |items| ==> Resolved(items, schema, ask, show, i))
  {
    hide InClosedSet, Resolved, Batch;
    var out := Batch(items, schema, ask, show);
    if i :| 0 <= i < |items| && !Resolved(items, schema, ask, show, i) {
      RowExactly(items, schema, ask, show, i);
      KeptMembers(out, out[i]);
    } else {
      forall x | x in Survivors(items, schema, ask, show) ensures InClosedSet(x, schema) {
        KeptMembers(out, x);
        var i :| 0 <= i < |items| && !HasError(out[i]) && out[i] == x;
        RowExactly(items, schema, ask, show, i);
      }
    }
  }

  lemma UnansweredIsUnresolved(items: seq<Item>, schema: Schema, ask: Ask, show: Show, i: nat) returns (j: nat)
    requires schema.task.Some? && forall x :: x in items ==> x.labels.None?
    requires i < |items| && !Answered(items, schema, ask, show, i)
    ensures j < |items| && !Resolved(items, schema, ask, show, j)
  {
    hide Reaches, Replies, LastError, Attempt;
    var chunk := ChunkOf(items, i);
    var replies := Replies(chunk, schema, ask, show);
    BatchByChunk(items, schema, ask, show, i);
    SilentIsFailed(Marked(chunk, false, NO_TEXT, show), replies, schema, show);
    var at := Unreached(chunk, replies, schema, show, i % CHUNK_SIZE);
    j := SameChunk(items, i, at);
  }

  /** When no row arrives labelled, that comes down to the chunks: none with text in it may end in an empty error. */
  lemma UnlabelledSurvivorsExactly(items: seq<Item>, schema: Schema, ask: Ask, show: Show)
    requires schema.task.Some? && forall x :: x in items ==> x.labels.None?
    ensures (forall x :: x in Survivors(items, schema, ask, show) ==> InClosedSet(x, schema))
       <==> (forall i :: 0 <= i < |items| ==> Answered(items, schema, ask, show, i))
  {
    hide Survivors, Answered, Resolved;
    BatchSurvivorsExactly(items, schema, ask, show);
    if i :| 0 <= i < |items| && !Answered(items, schema, ask, show, i) {
      var j := UnansweredIsUnresolved(items, schema, ask, show, i);
    } else {
      forall i | 0 <= i < |items| ensures Resolved(items, schema, ask, show, i) {
        AnsweredIsResolved(items, schema, ask, show, i);
      }
    }
  }

  lemma AnsweredIsResolved(items: seq<Item>, schema: Schema, ask: Ask, show: Show, i: nat)
    requires schema.task.Some? && i < |items| && Answered(items, schema, ask, show, i)
    ensures Resolved(items, schema, ask, show, i)
  {
  }

  /** An input for which it fails: a provider whose exceptions have no text leaves this row accepted and unlabelled. */
  lemma SilentProviderExample(uid: int, show: Show)
    ensures
      var x := Item(uid, "a", Raw, None, None, None, None, Some("text"), None, None, None, None, map[], None, map[]);
      var schema := Schema(true, Some(Binary), ["no", "yes"], 1.0);
      schema.Valid() && Survivors([x], schema, (s, r, k) => Failed(""), show) == [WithError(x, "")]
      && WithError(x, "").labels.None?
  {
    var x := Item(uid, "a", Raw, None, None, None, None, Some("text"), None, None, None, None, map[], None, map[]);
    var schema := Schema(true, Some(Binary), ["no", "yes"], 1.0);
    var ask: Ask := (s, r, k) => Failed("");
    StrippedWord();
    assert Classifiable(x, show) && Records([x], show) == [(x.id, "text")];
    assert Marked([x], false, NO_TEXT, show) == [x];
    assert Twice([x], (Failed(""), Failed("")), schema, show) == [WithError(x, "")];
    assert Failures([WithError(x, "")]) == [false];
    assert Pick([WithError(x, "")], [false], false) == [WithError(x, "")];
  }

  lemma StrippedWord()
    ensures Strip("text") == "text"
  {
    assert LStrip("text") == "text" && RStrip("text") == "text";
  }

  // ---------------------------------------------------------------------------------------
  // The methods: the rows of a chunk are changed in place
  // ---------------------------------------------------------------------------------------

  method MarkRows(chunk: array<Item>, classifiable: bool, message: string, show: Show)
    modifies chunk
    ensures chunk[..] == Marked(old(chunk[..]), classifiable, message, show)
  {
    hide Classifiable;
    for i := 0 to chunk.Length
      invariant forall k :: 0 <= k < i ==> chunk[k] == Marked(old(chunk[..]), classifiable, message, show)[k]
      invariant forall k :: i <= k < chunk.Length ==> chunk[k] == old(chunk[k])
    {
      if Classifiable(chunk[i], show) == classifiable { chunk[i] := WithError(chunk[i], message); }
    }
  }

  /** `done` and what the reply still makes of `rest` are the whole result. */
  ghost predicate Applying(all: (seq<Item>, Option<string>), done: seq<Item>, rest: seq<Item>,
                           results: seq<Entry>, schema: Schema, show: Show)
    requires schema.task.Some?
  {
    var after := Apply(rest, results, schema, show);
    all.0 == done + after.0 && all.1 == after.1
  }

  lemma ApplyingStep(all: (seq<Item>, Option<string>), done: seq<Item>, rest: seq<Item>,
                     results: seq<Entry>, schema: Schema, show: Show)
    requires schema.task.Some? && rest != [] && Applying(all, done, rest, results, schema, show)
    ensures
      var row := Assign(rest[0], results, schema, show);
      if !Classifiable(rest[0], show) then Applying(all, done + [rest[0]], rest[1..], results, schema, show)
      else if row.Failure? then all == (done + rest, Some(row.error))
      else Applying(all, done + [row.value], rest[1..], results, schema, show)
  {
    var tail := Apply(rest[1..], results, schema, show).0;
    var row := Assign(rest[0], results, schema, show);
    if !Classifiable(rest[0], show) {
      assert done + ([rest[0]] + tail) == (done + [rest[0]]) + tail;
    } else if row.Success? {
      assert done + ([row.value] + tail) == (done + [row.value]) + tail;
    }
  }

  lemma ApplyingEnd(all: (seq<Item>, Option<string>), done: seq<Item>, results: seq<Entry>, schema: Schema, show: Show)
    requires schema.task.Some? && Applying(all, done, [], results, schema, show)
    ensures all == (done, None)
  {
    assert all.0 == done + [] == done;
  }

  /** Write row `i` and move it from `rest` to `done`. */
  method Put(chunk: array<Item>, i: nat, y: Item, ghost done: seq<Item>, ghost rest: seq<Item>)
    requires i < chunk.Length && chunk[..i] == done && chunk[i..] == rest
    modifies chunk
    ensures chunk[..i + 1] == done + [y] && chunk[i + 1..] == rest[1..]
  {
    chunk[i] := y;
  }

  method ApplyReply(chunk: array<Item>, results: seq<Entry>, schema: Schema, show: Show) returns (error: Option<string>)
    requires schema.task.Some?
    modifies chunk
    ensures (chunk[..], error) == Apply(old(chunk[..]), results, schema, show)
  {
    hide Classifiable, Assign, Apply;
    ghost var all, done, rest := Apply(chunk[..], results, schema, show), [], chunk[..];
    assert chunk[0..] == chunk[..];
    for i := 0 to chunk.Length
      invariant chunk[..i] == done && chunk[i..] == rest
      invariant Applying(all, done, rest, results, schema, show)
    {
      ApplyingStep(all, done, rest, results, schema, show);
      var y := chunk[i];
      if Classifiable(y, show) {
        var row := Assign(y, results, schema, show);
        if row.Failure? {
          assert chunk[..] == done + rest;
          return Some(row.error);
        }
        y := row.value;
      }
      Put(chunk, i, y, done, rest);
      done, rest := done + [y], rest[1..];
    }
    ApplyingEnd(all, done, results, schema, show);
    assert chunk[..] == done;
    return None;
  }

  method TryOnce(chunk: array<Item>, reply: Reply, schema: Schema, show: Show) returns (error: Option<string>)
    requires schema.task.Some? && !reply.Denied?
    modifies chunk
    ensures (chunk[..], error) == Attempt(old(chunk[..]), reply, schema, show)
  {
    if reply.Reply? { error := ApplyReply(chunk, reply.results, schema, show); } else { error := Some(reply.message); }
  }

  /** The two attempts; the first refused row, or the provider's failure, ends an attempt. A provider error is raised
      on. */
  method ClassifyChunk(chunk: array<Item>, schema: Schema, ask: Ask, show: Show) returns (raised: bool)
    requires schema.task.Some?
    modifies chunk
    ensures raised == ChunkRaises(old(chunk[..]), schema, ask, show)
    ensures !raised ==> chunk[..] == Chunk(old(chunk[..]), schema, ask, show)
  {
    hide Classifiable, Apply, Records;
    var records := Records(chunk[..], show);
    MarkRows(chunk, false, NO_TEXT, show);
    if records == [] { return false; }
    ghost var marked, replies := chunk[..], Replies(old(chunk[..]), schema, ask, show);
    ghost var once := Attempt(marked, replies.0, schema, show);
    var lastError := None;
    for attempt := 0 to 2
      invariant attempt == 0 ==> chunk[..] == marked
      invariant attempt > 0 ==> once.1.Some? && lastError.Some? && !replies.0.Denied?
      invariant attempt == 1 ==> chunk[..] == once.0
      invariant attempt == 2 ==>
          (chunk[..], lastError) == Attempt(once.0, replies.1, schema, show) && !replies.1.Denied?
    {
      var reply := ask(schema, records, attempt);
      if reply.Denied? { return true; }
      var error := TryOnce(chunk, reply, schema, show);
      if error.None? { return false; }
      lastError := error;
    }
    MarkRows(chunk, true, lastError.value, show);
    return false;
  }

  /** Chunks share no rows, so the order in which they run does not matter; one that raises makes the batch raise. */
  method ClassifyBatch(items: seq<Item>, schema: Schema, ask: Ask, show: Show) returns (out: Option<seq<Item>>)
    requires schema.Valid()
    ensures !schema.applicable ==> out == Some(items)
    ensures schema.applicable ==>
      out == if BatchRaises(items, schema, ask, show) then None else Some(Batch(items, schema, ask, show))
  {
    if !schema.applicable { return Some(items); }
    var done: seq<Item>, rest := [], items;
    while rest != []
      invariant Batch(items, schema, ask, show) == done + Batch(rest, schema, ask, show)
      invariant BatchRaises(items, schema, ask, show) == BatchRaises(rest, schema, ask, show)
      decreases |rest|
    {
      var n := if |rest| <= CHUNK_SIZE then |rest| else CHUNK_SIZE;
      BatchStep(done, rest, n, schema, ask, show);
      var chunk := new Item[n](i requires 0 <= i < n <= |rest| => rest[i]);
      assert chunk[..] == rest[..n];
      var raised := ClassifyChunk(chunk, schema, ask, show);
      if raised { return None; }
      done, rest := done + chunk[..], rest[n..];
    }
    assert done + [] == done;
    return Some(done);
  }

  lemma BatchStep(done: seq<Item>, rest: seq<Item>, n: nat, schema: Schema, ask: Ask, show: Show)
    requires schema.task.Some? && rest != [] && n == if |rest| <= CHUNK_SIZE then |rest| else CHUNK_SIZE
    ensures done + Batch(rest, schema, ask, show) ==
            (done + Chunk(rest[..n], schema, ask, show)) + Batch(rest[n..], schema, ask, show)
    ensures BatchRaises(rest, schema, ask, show) ==
            (ChunkRaises(rest[..n], schema, ask, show) || BatchRaises(rest[n..], schema, ask, show))
  {
    if |rest| <= CHUNK_SIZE { assert rest[..n] == rest && rest[n..] == []; }
  }

  method PartitionFailures(items: seq<Item>) returns (accepted: seq<Item>, rejected: seq<Item>)
    ensures accepted == Pick(items, Failures(items), false)
    ensures rejected == Pick(items, Failures(items), true)
  {
    accepted, rejected := [], [];
    for i := 0 to |items|
      invariant accepted == Pick(items[..i], Failures(items)[..i], false)
      invariant rejected == Pick(items[..i], Failures(items)[..i], true)
    {
      PickOneMore(items, Failures(items), false, i);
      PickOneMore(items, Failures(items), true, i);
      if HasError(items[i]) { rejected := rejected + [items[i]]; } else { accepted := accepted + [items[i]]; }
    }
    assert items[..|items|] == items && Failures(items)[..|items|] == Failures(items);
  }
}
