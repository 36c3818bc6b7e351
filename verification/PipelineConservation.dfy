/** No row is lost, duplicated or reordered. */
module PipelineConservation {
  import opened Classifier
  import opened ItemText
  import opened Pipeline
  import opened PipelineResume
  import opened Schemas
  import opened Sequences
  import opened Wrappers

  /** What no stage touches in a row: its number, its id, its format and, unless redaction visits them all, its
      columns. */
  datatype Identity = Identity(uid: int, id: string, format: Format, columns: Dict)

  function IdentityOf(x: Item): Identity {
    Identity(x.uid, x.id, x.format, if x.format == Custom then map[] else x.raw)
  }

  function Identities(xs: seq<Item>): seq<Identity> { seq(|xs|, i requires 0 <= i < |xs| => IdentityOf(xs[i])) }

  ghost predicate Names(x: Item, stage: Stage) {
    && Key.Rejection in x.metadata && x.metadata[Key.Rejection].JObj? && Key.Stage in x.metadata[Key.Rejection].fields
    && x.metadata[Key.Rejection].fields[Key.Stage] == JStr(Name(stage))
  }

  /** The row names one of the first `k` stages. */
  ghost predicate NamesOneOf(x: Item, k: nat)
    requires k <= |STAGES|
  {
    exists i :: 0 <= i < k && Names(x, STAGES[i])
  }

  /** Accepted rows are rows of the input in its order; with the rejected ones they are all of them. */
  ghost predicate Conserved(s: State, items: seq<Item>) {
    && Subsequence(Identities(s.accepted), Identities(items))
    && multiset(Identities(s.accepted)) + multiset(Identities(s.rejected)) == multiset(Identities(items))
  }

  // ---------------------------------------------------------------------------------------
  // Identities
  // ---------------------------------------------------------------------------------------

  lemma {:induction false} IdentitiesOfPick(xs: seq<Item>, flags: seq<bool>, which: bool)
    requires |xs| == |flags|
    ensures Identities(Pick(xs, flags, which)) == Pick(Identities(xs), flags, which)
  {
    if xs != [] {
      var n := |xs| - 1;
      IdentitiesOfPick(xs[..n], flags[..n], which);
      assert Identities(xs)[..n] == Identities(xs[..n]);
    }
  }

  lemma IdentitiesOfJoined(a: seq<Item>, b: seq<Item>)
    ensures Identities(a + b) == Identities(a) + Identities(b)
  {
  }

  lemma BatchKeepsIdentities(xs: seq<Item>, schema: Schema, ask: Ask, show: Show)
    requires schema.task.Some?
    ensures Identities(Batch(xs, schema, ask, show)) == Identities(xs)
  {
    forall i | 0 <= i < |xs| ensures IdentityOf(Batch(xs, schema, ask, show)[i]) == IdentityOf(xs[i]) {
      BatchIsClosed(xs, schema, ask, show, i);
    }
  }

  // ---------------------------------------------------------------------------------------
  // Scoring and refining keep identities and labels
  // ---------------------------------------------------------------------------------------

  /** The rows' identities and labels. */
  function Traits(xs: seq<Item>): seq<(Identity, Option<Labels>)> {
    seq(|xs|, i requires 0 <= i < |xs| => (IdentityOf(xs[i]), xs[i].labels))
  }

  lemma SameTraits(xs: seq<Item>, ys: seq<Item>)
    requires Traits(xs) == Traits(ys)
    ensures Identities(xs) == Identities(ys) && AllLabelled(xs) == AllLabelled(ys)
  {
    assert |xs| == |Traits(xs)| == |ys|;
    forall i | 0 <= i < |xs| ensures IdentityOf(xs[i]) == IdentityOf(ys[i]) && xs[i].labels == ys[i].labels {
      assert Traits(xs)[i] == Traits(ys)[i];
    }
  }

  lemma {:induction false} TraitsOfPick(xs: seq<Item>, flags: seq<bool>, which: bool)
    requires |xs| == |flags|
    ensures Traits(Pick(xs, flags, which)) == Pick(Traits(xs), flags, which)
  {
    if xs != [] {
      var n := |xs| - 1;
      TraitsOfPick(xs[..n], flags[..n], which);
      assert Traits(xs)[..n] == Traits(xs[..n]);
    }
  }

  lemma TraitsOfJoined(a: seq<Item>, b: seq<Item>)
    ensures Traits(a + b) == Traits(a) + Traits(b)
  {
  }

  lemma {:induction false} TraitsOfMerge(xs: seq<Item>, flags: seq<bool>, ys: seq<Item>)
    requires |xs| == |flags| && |ys| == |Pick(xs, flags, true)| && |ys| == |Pick(Traits(xs), flags, true)|
    ensures Traits(Merge(xs, flags, ys)) == Merge(Traits(xs), flags, Traits(ys))
  {
    if xs != [] {
      var n := |xs| - 1;
      PickSize(xs[..n], Traits(xs)[..n], flags[..n], true);
      assert Traits(xs)[..n] == Traits(xs[..n]);
      if flags[n] {
        var m := |ys| - 1;
        TraitsOfMerge(xs[..n], flags[..n], ys[..m]);
        assert Traits(ys)[..m] == Traits(ys[..m]);
      } else {
        TraitsOfMerge(xs[..n], flags[..n], ys);
      }
    }
  }

  lemma MergeKeepsTraits(xs: seq<Item>, flags: seq<bool>, ys: seq<Item>)
    requires |xs| == |flags| && Traits(ys) == Traits(Pick(xs, flags, true))
    ensures |ys| == |Pick(xs, flags, true)| && Traits(Merge(xs, flags, ys)) == Traits(xs)
  {
    assert |ys| == |Traits(ys)| == |Pick(xs, flags, true)|;
    TraitsOfPick(xs, flags, true);
    TraitsOfMerge(xs, flags, ys);
    MergeBack(Traits(xs), flags);
  }

  lemma {:induction false} AuditRemoteKeepsTraits(xs: seq<Item>, env: Env, topic: Topic, size: Size)
    ensures Traits(AuditRemote(xs, env, topic, size)) == Traits(xs)
    decreases |xs|
  {
    if |xs| > size {
      AuditRemoteKeepsTraits(xs[size..], env, topic, size);
      TraitsOfJoined(xs[..size], xs[size..]);
      assert xs == xs[..size] + xs[size..];
      TraitsOfJoined(AuditChunk(xs[..size], env, topic), AuditRemote(xs[size..], env, topic, size));
      assert Traits(AuditChunk(xs[..size], env, topic)) == Traits(xs[..size]);
    } else if xs != [] {
      assert Traits(AuditChunk(xs, env, topic)) == Traits(xs);
    }
  }

  lemma AuditKeepsTraits(xs: seq<Item>, env: Env, topic: Topic, size: Size)
    ensures Traits(Audit(xs, env, topic, size)) == Traits(xs)
  {
    var passing, checked := Passing(xs, env), RuleChecked(xs, env);
    AuditRemoteKeepsTraits(Pick(xs, passing, true), env, topic, size);
    TraitsOfPick(xs, passing, true);
    TraitsOfPick(checked, passing, true);
    assert Traits(checked) == Traits(xs);
    MergeKeepsTraits(checked, passing, AuditRemote(Pick(xs, passing, true), env, topic, size));
  }

  lemma RefineOneKeepsTraits(x: Item, reply: RefineReply, mode: string, show: Show)
    ensures
      var y := RefineOne(x, reply, mode, show);
      IdentityOf(y) == IdentityOf(x) && y.labels == x.labels
  {
    hide Last, Updated, PromptAndResponse;
    if reply.Refined? && Last(reply.entries, x.id).Some? {
      var found := Last(reply.entries, x.id).value;
      var (p, r) := PromptAndResponse(x, show);
      UpdatedKeeps(x, Some(if mode in {"all", "prompt_only"} && found.prompt != "" then found.prompt else p),
                   Some(if mode in {"all", "response_only"} then found.response else r));
    }
  }

  lemma RefineChunkKeepsTraits(chunk: seq<Item>, env: Env, mode: string)
    ensures Traits(RefineChunk(chunk, env, mode)) == Traits(chunk)
  {
    hide RefineOne, RefineRecords, IdentityOf;
    var reply := env.refine(RefineRecords(chunk, env.show), mode);
    forall i | 0 <= i < |chunk|
      ensures Traits(RefineChunk(chunk, env, mode))[i] == Traits(chunk)[i]
    {
      RefineOneKeepsTraits(chunk[i], reply, mode, env.show);
    }
  }

  lemma {:induction false} RefineKeepsTraits(xs: seq<Item>, env: Env, mode: string)
    ensures Traits(RefineAll(xs, env, mode)) == Traits(xs)
    decreases |xs|
  {
    hide RefineChunk, IdentityOf;
    if |xs| > REFINE_BATCH {
      RefineKeepsTraits(xs[REFINE_BATCH..], env, mode);
      TraitsOfJoined(xs[..REFINE_BATCH], xs[REFINE_BATCH..]);
      assert xs == xs[..REFINE_BATCH] + xs[REFINE_BATCH..];
      TraitsOfJoined(RefineChunk(xs[..REFINE_BATCH], env, mode), RefineAll(xs[REFINE_BATCH..], env, mode));
      RefineChunkKeepsTraits(xs[..REFINE_BATCH], env, mode);
    } else if xs != [] {
      RefineChunkKeepsTraits(xs, env, mode);
    }
  }

  lemma ImprovedKeepsTraits(xs: seq<Item>, cfg: Config, env: Env, topic: Topic)
    ensures Traits(Improved(xs, cfg, env, topic)) == Traits(xs)
  {
    var flags := RefinableFlags(xs, cfg);
    var refined := RefineAll(Pick(xs, flags, true), env, cfg.refineMode);
    RefineKeepsTraits(Pick(xs, flags, true), env, cfg.refineMode);
    AuditKeepsTraits(refined, env, topic, cfg.auditBatch);
    MergeKeepsTraits(xs, flags, Audit(refined, env, topic, cfg.auditBatch));
  }

  // ---------------------------------------------------------------------------------------
  // Conservation
  // ---------------------------------------------------------------------------------------

  /** `t` keeps the identities that `s` has, and rejects on behalf of `stage`. */
  ghost predicate Keeps(s: State, t: State, stage: Stage) {
    && Subsequence(Identities(t.accepted), Identities(s.accepted))
    && s.rejected <= t.rejected
    && multiset(Identities(t.accepted)) + multiset(Identities(t.rejected[|s.rejected|..])) ==
         multiset(Identities(s.accepted))
    && forall i :: |s.rejected| <= i < |t.rejected| ==> Names(t.rejected[i], stage)
  }

  lemma DivideKeeps(s: State, xs: seq<Item>, reasons: seq<Option<Json>>, stage: Stage)
    requires Identities(xs) == Identities(s.accepted) && |reasons| == |xs|
    ensures Keeps(s, Divide(s, xs, reasons, stage), stage)
  {
    var t, flags, marked := Divide(s, xs, reasons, stage), Leaving(reasons), WithReasons(xs, reasons, stage);
    IdentitiesOfPick(xs, flags, false);
    PickIsSubsequence(Identities(xs), flags, false);
    IdentitiesOfPick(marked, flags, true);
    assert Identities(marked) == Identities(xs);
    PickBoth(Identities(xs), flags);
    assert t.rejected[|s.rejected|..] == Pick(marked, flags, true);
    forall i | |s.rejected| <= i < |t.rejected| ensures Names(t.rejected[i], stage) {
      assert t.rejected[i] in Pick(marked, flags, true);
      PickMembers(marked, flags, true, t.rejected[i]);
    }
  }

  lemma KeepsAll(s: State, t: State, stage: Stage)
    requires Identities(t.accepted) == Identities(s.accepted) && t.rejected == s.rejected
    ensures Keeps(s, t, stage)
  {
    var n := |s.accepted|;
    assert Places(Identities(s.accepted), Identities(s.accepted), seq(n, i requires 0 <= i < n => i));
    assert t.rejected[|s.rejected|..] == [];
  }

  lemma StepKeeps(cfg: Config, env: Env, stage: Stage, s: State)
    requires Step(cfg, env, stage, s).Some?
    ensures Keeps(s, Step(cfg, env, stage, s).value, stage)
  {
    var t := Step(cfg, env, stage, s).value;
    if stage in s.completed {
      KeepsAll(s, t, stage);
    } else {
      match stage
      case Validation =>
        DivideKeeps(s, s.accepted, Invalid(s.accepted, env), stage);
        SameRows(s, Divide(s, s.accepted, Invalid(s.accepted, env), stage), t, stage);
      case Redaction => PiiKeeps(cfg, env, s);
      case Profiling => KeepsAll(s, t, stage);
      case Deduplication => DedupKeeps(cfg, env, s);
      case Scoring => ScoreKeeps(cfg, env, s);
      case Filtering => FilterKeeps(cfg, env, s);
      case Labelling => ClassifyKeeps(cfg, env, s);
    }
  }

  lemma PiiKeeps(cfg: Config, env: Env, s: State)
    requires PiiStage(cfg, env, s).Some?
    ensures Keeps(s, PiiStage(cfg, env, s).value, Redaction)
  {
    KeepsAll(s, PiiStage(cfg, env, s).value, Redaction);
  }

  lemma DedupKeeps(cfg: Config, env: Env, s: State)
    ensures Keeps(s, DedupStage(cfg, env, s), Deduplication)
  {
    var reasons := Duplicates(DedupMethod(cfg, s.accepted), cfg, env, s.accepted);
    var xs := WithDedupReasons(s.accepted, reasons);
    assert Identities(xs) == Identities(s.accepted);
    DivideKeeps(s, xs, AsJson(reasons), Deduplication);
    SameRows(s, Divide(s, xs, AsJson(reasons), Deduplication), DedupStage(cfg, env, s), Deduplication);
  }

  lemma ScoreKeepsTraits(cfg: Config, env: Env, s: State)
    ensures Traits(ScoreStage(cfg, env, s).accepted) == Traits(s.accepted)
  {
    var audited := Audit(s.accepted, env, TopicOf(s), cfg.auditBatch);
    AuditKeepsTraits(s.accepted, env, TopicOf(s), cfg.auditBatch);
    ImprovedKeepsTraits(audited, cfg, env, TopicOf(s));
  }

  lemma ScoreKeeps(cfg: Config, env: Env, s: State)
    ensures Keeps(s, ScoreStage(cfg, env, s), Scoring)
  {
    ScoreKeepsTraits(cfg, env, s);
    SameTraits(ScoreStage(cfg, env, s).accepted, s.accepted);
    KeepsAll(s, ScoreStage(cfg, env, s), Scoring);
  }

  lemma FilterKeeps(cfg: Config, env: Env, s: State)
    ensures Keeps(s, FilterStage(cfg, env, s), Filtering)
  {
    if EffectiveMode(cfg, s.accepted) == Llm {
      var reasons := FilterReasons(s.accepted, cfg, env);
      DivideKeeps(s, s.accepted, reasons, Filtering);
      SameRows(s, Divide(s, s.accepted, reasons, Filtering), FilterStage(cfg, env, s), Filtering);
    } else {
      KeepsAll(s, FilterStage(cfg, env, s), Filtering);
    }
  }

  lemma SameRows(s: State, t: State, u: State, stage: Stage)
    requires Keeps(s, t, stage) && u.accepted == t.accepted && u.rejected == t.rejected
    ensures Keeps(s, u, stage)
  {
  }

  lemma ClassifyKeeps(cfg: Config, env: Env, s: State)
    requires ClassifyStage(cfg, env, s).Some?
    ensures Keeps(s, ClassifyStage(cfg, env, s).value, Labelling)
  {
    var t := ClassifyStage(cfg, env, s).value;
    if t.accepted == s.accepted && t.rejected == s.rejected {
      KeepsAll(s, t, Labelling);
    } else {
      ClassifyWithKeeps(cfg, env, s, LabelSchema(cfg, env, s).value);
    }
  }

  lemma ClassifyWithKeeps(cfg: Config, env: Env, s: State, schema: Schema)
    requires schema.Valid() && ClassifyWith(cfg, env, s, schema).Some?
    ensures Keeps(s, ClassifyWith(cfg, env, s, schema).value, Labelling)
  {
    var t := ClassifyWith(cfg, env, s, schema).value;
    if t.accepted == s.accepted && t.rejected == s.rejected {
      KeepsAll(s, t, Labelling);
    } else {
      var xs := Batch(s.accepted, schema, env.ask, env.show);
      BatchKeepsIdentities(s.accepted, schema, env.ask, env.show);
      DivideKeeps(s, xs, ErrorsOf(xs), Labelling);
    }
  }

  lemma KeepsConserves(s: State, t: State, stage: Stage, items: seq<Item>)
    requires Keeps(s, t, stage) && Conserved(s, items)
    ensures Conserved(t, items)
  {
    SubsequenceTransitive(Identities(t.accepted), Identities(s.accepted), Identities(items));
    assert t.rejected == s.rejected + t.rejected[|s.rejected|..];
    IdentitiesOfJoined(s.rejected, t.rejected[|s.rejected|..]);
  }

  /** Row conservation after any number of stages: accepted rows keep the input's order, nothing is lost or doubled,
      and every rejected row names a stage that has run. */
  lemma {:induction false} RunConservesRows(cfg: Config, env: Env, items: seq<Item>, k: nat)
    requires k <= |STAGES| && Steps(cfg, env, Initial(items), k).Some?
    ensures Conserved(Steps(cfg, env, Initial(items), k).value, items)
    ensures forall x :: x in Steps(cfg, env, Initial(items), k).value.rejected ==> NamesOneOf(x, k)
  {
    if k == 0 {
      var s := Initial(items);
      KeepsAll(s, s, Validation);
      assert Identities([]) == [];
    } else {
      RunConservesRows(cfg, env, items, k - 1);
      var s := Steps(cfg, env, Initial(items), k - 1).value;
      StepKeeps(cfg, env, STAGES[k - 1], s);
      NextRejections(s, Step(cfg, env, STAGES[k - 1], s).value, k, items);
    }
  }

  lemma NextRejections(s: State, t: State, k: nat, items: seq<Item>)
    requires 0 < k <= |STAGES| && Keeps(s, t, STAGES[k - 1]) && Conserved(s, items)
    requires forall x :: x in s.rejected ==> NamesOneOf(x, k - 1)
    ensures Conserved(t, items)
    ensures forall x :: x in t.rejected ==> NamesOneOf(x, k)
  {
    KeepsConserves(s, t, STAGES[k - 1], items);
    forall x | x in t.rejected ensures NamesOneOf(x, k) {
      var j :| 0 <= j < |t.rejected| && t.rejected[j] == x;
      if j < |s.rejected| {
        assert x == s.rejected[j] && x in s.rejected;
      } else {
        assert Names(x, STAGES[k - 1]);
      }
    }
  }

  // ---------------------------------------------------------------------------------------
  // Conservation across crashes, from a file's rows
  // ---------------------------------------------------------------------------------------

  /** The items read from a file's rows, each with its row number as identity and `ids[i]` if it carries none. */
  ghost predicate ReadFrom(items: seq<Item>, rows: seq<Dict>, show: Show, ids: seq<string>) {
    |items| == |rows| == |ids|
    && forall i :: 0 <= i < |rows| ==> ids[i] != "" && FromDict(rows[i], i, show, ids[i]) == Success(items[i])
  }

  /** The same for some choice of ids, the rows all being of the typed formats. */
  ghost predicate IsRead(items: seq<Item>, rows: seq<Dict>, show: Show) {
    (exists ids :: ReadFrom(items, rows, show, ids)) && forall x :: x in items ==> x.format != Custom
  }

  /** The id that a row of the file carries, or the empty string. */
  function CarriedId(row: Dict, show: Show): string { IdOf(row, show, "") }

  /** `x` was read from this row as the row with this number: it has the row's id, if there is one, and its columns. */
  predicate ReadAt(x: Item, row: Dict, i: int, show: Show) {
    && x.uid == i && x.raw == Popped(row) && x.format == FormatOf(x.raw)
    && (CarriedId(row, show) != "" ==> x.id == CarriedId(row, show))
  }

  lemma ParsedKeepsRow(d: Dict, uid: int, show: Show, newId: string)
    requires FromDict(d, uid, show, newId).Success?
    ensures ReadAt(FromDict(d, uid, show, newId).value, d, uid, show)
  {
  }

  lemma ReadIsSound(items: seq<Item>, rows: seq<Dict>, show: Show)
    requires IsRead(items, rows, show)
    requires forall j: Json :: j.Truthy() && !j.JStr? ==> show(j) != ""
    ensures AllSound(items) && |items| == |rows|
    ensures forall i :: 0 <= i < |items| ==> ReadAt(items[i], rows[i], i, show)
  {
    var ids :| ReadFrom(items, rows, show, ids);
    forall i: nat | i < |items| ensures Sound(items[i]) && ReadAt(items[i], rows[i], i, show) {
      assert ids[i] != "" && items[i] in items;
      ParsedIsWellFormed(rows[i], i, show, ids[i]);
      ParsedKeepsRow(rows[i], i, show, ids[i]);
    }
  }

  /** The columns that serialising a row of this format writes itself. */
  function Managed(f: Format): set<Key> {
    {Key.Id, Key.AltId, Key.Metadata, Key.QualityScore, Key.LabelsColumn} +
    match f
    case Alpaca => {Key.Instruction, Key.Input, Key.Output}
    case Chat => {Key.Messages}
    case Dpo => {Key.Prompt, Key.Chosen, Key.Rejected}
    case Raw => {Key.TextColumn}
    case Custom => {}
  }

  /** The dictionary `d` has the file row's id, if there is one, and all of its unknown columns, as they were. */
  ghost predicate Carries(d: Dict, row: Dict, show: Show) {
    && Key.Id in d && (CarriedId(row, show) != "" ==> d[Key.Id] == JStr(CarriedId(row, show)))
    && forall k :: k in row && k !in Managed(FormatOf(Popped(row))) ==> k in d && d[k] == row[k]
  }

  lemma UnmanagedIsKept(x: Item, k: Key)
    requires k in x.raw && k !in Managed(x.format) && x.format != Custom
    ensures k in ToDict(x) && ToDict(x)[k] == x.raw[k]
  {
    assert k !in BodyDict(BodyOf(x)) && k !in LabelDict(x.labels);
    assert k !in MetaDict(x.metadata) && k !in QualityDict(x.quality);
  }

  lemma IdIsWritten(x: Item)
    ensures Key.Id in ToDict(x) && ToDict(x)[Key.Id] == JStr(x.id)
  {
    assert Key.Id !in BodyDict(BodyOf(x)) && Key.Id !in LabelDict(x.labels);
    assert Key.Id !in MetaDict(x.metadata) && Key.Id !in QualityDict(x.quality);
  }

  lemma SameIdentityCarries(x: Item, y: Item, row: Dict, i: int, show: Show)
    requires IdentityOf(x) == IdentityOf(y) && ReadAt(y, row, i, show) && y.format != Custom
    ensures Carries(ToDict(x), row, show)
  {
    hide ToDict, FormatOf, CarriedId;
    IdIsWritten(x);
    forall k | k in row && k !in Managed(x.format) ensures k in ToDict(x) && ToDict(x)[k] == row[k] {
      UnmanagedIsKept(x, k);
    }
  }

  function Uids(xs: seq<Item>): seq<int> { seq(|xs|, i requires 0 <= i < |xs| => xs[i].uid) }

  /** Of the file's rows, those accepted are in the file's order, and with those rejected they are all rows, each once;
      what is written for a row carries its id and its unknown columns. */
  ghost predicate Accounted(t: State, rows: seq<Dict>, show: Show) {
    && (forall i, j :: 0 <= i < j < |t.accepted| ==> t.accepted[i].uid < t.accepted[j].uid)
    && multiset(Uids(t.accepted)) + multiset(Uids(t.rejected)) == multiset(seq(|rows|, i => i))
    && (forall x :: x in t.accepted || x in t.rejected ==>
          0 <= x.uid < |rows| && Carries(ToDict(x), rows[x.uid], show))
    && forall x :: x in t.rejected ==> NamesOneOf(x, |STAGES|)
  }

  lemma UidsConserved(t: State, items: seq<Item>)
    requires Conserved(t, items)
    ensures multiset(Uids(t.accepted)) + multiset(Uids(t.rejected)) == multiset(Uids(items))
  {
    var all := t.accepted + t.rejected;
    IdentitiesOfJoined(t.accepted, t.rejected);
    var uid := (x: Identity) => x.uid;
    MappedPermutation(Identities(all), Identities(items), uid);
    assert Mapped(Identities(all), uid) == Uids(all) == Uids(t.accepted) + Uids(t.rejected);
    assert Mapped(Identities(items), uid) == Uids(items);
  }

  lemma ConservedMember(t: State, items: seq<Item>, x: Item) returns (i: nat)
    requires Conserved(t, items) && (x in t.accepted || x in t.rejected)
    ensures i < |items| && IdentityOf(items[i]) == IdentityOf(x)
  {
    if x in t.accepted {
      var j :| 0 <= j < |t.accepted| && t.accepted[j] == x;
      assert Identities(t.accepted)[j] == IdentityOf(x) && IdentityOf(x) in multiset(Identities(t.accepted));
    } else {
      var j :| 0 <= j < |t.rejected| && t.rejected[j] == x;
      assert Identities(t.rejected)[j] == IdentityOf(x) && IdentityOf(x) in multiset(Identities(t.rejected));
    }
    assert IdentityOf(x) in multiset(Identities(items));
    i :| 0 <= i < |items| && Identities(items)[i] == IdentityOf(x);
  }

  lemma ConservedInOrder(t: State, items: seq<Item>)
    requires Conserved(t, items) && forall i :: 0 <= i < |items| ==> items[i].uid == i
    ensures forall i, j :: 0 <= i < j < |t.accepted| ==> t.accepted[i].uid < t.accepted[j].uid
  {
    var at :| Places(Identities(t.accepted), Identities(items), at);
    forall i, j | 0 <= i < j < |t.accepted| ensures t.accepted[i].uid < t.accepted[j].uid {
      assert Identities(t.accepted)[i] == Identities(items)[at[i]];
      assert Identities(t.accepted)[j] == Identities(items)[at[j]];
    }
  }

  lemma ConservedIsAccounted(t: State, items: seq<Item>, rows: seq<Dict>, show: Show)
    requires Conserved(t, items) && |items| == |rows| && AllSound(items)
    requires forall i :: 0 <= i < |items| ==> ReadAt(items[i], rows[i], i, show)
    requires forall x :: x in t.rejected ==> NamesOneOf(x, |STAGES|)
    ensures Accounted(t, rows, show)
  {
    ConservedInOrder(t, items);
    UidsConserved(t, items);
    assert Uids(items) == seq(|rows|, i => i);
    forall x | x in t.accepted || x in t.rejected
      ensures 0 <= x.uid < |rows| && Carries(ToDict(x), rows[x.uid], show)
    {
      var i := ConservedMember(t, items, x);
      assert Sound(items[i]);
      SameIdentityCarries(x, items[i], rows[i], i, show);
    }
  }

  lemma {:induction false} BaseIsRead(cfg: Config, env: Env, f: Fingerprint, sessions: seq<Session>, items: seq<Item>,
                                      rows: seq<Dict>)
    requires IsRead(items, rows, env.show)
    requires forall k :: 0 <= k < |sessions| ==> IsRead(sessions[k].items, rows, env.show)
    ensures IsRead(Base(cfg, env, f, sessions, items), rows, env.show)
  {
    hide AfterAll, IsRead;
    if sessions != [] {
      var front := sessions[..|sessions| - 1];
      forall k | 0 <= k < |front| ensures IsRead(front[k].items, rows, env.show) { assert front[k] == sessions[k]; }
      BaseIsRead(cfg, env, f, front, items, rows);
    }
  }

  /** However often a run over a file crashes and is resumed, its last process answers with the rows of the
      uninterrupted run over the items read from the file, or raises as that does. It writes every row of the file
      exactly once, accepted rows in the file's order, every rejected row naming its stage, each with the id and the
      unknown columns that it has in the file. For rows of the typed formats. */
  lemma ResumedRunConservesRows(cfg: Config, env: Env, f: Fingerprint, sessions: seq<Session>, items: seq<Item>,
      rows: seq<Dict>)
    requires forall j: Json :: j.Truthy() && !j.JStr? ==> env.show(j) != ""
    requires IsRead(items, rows, env.show)
    requires forall k :: 0 <= k < |sessions| ==> IsRead(sessions[k].items, rows, env.show)
    ensures
      var base := Base(cfg, env, f, sessions, items);
      var t := Steps(cfg, env, Initial(base), |STAGES|);
      && IsRead(base, rows, env.show) && Uids(base) == seq(|rows|, i => i)
      && Finished(cfg, env, f, AfterAll(cfg, env, f, sessions), items) == AnswerOf(t)
      && (t.Some? ==> Accounted(t.value, rows, env.show))
  {
    var base := Base(cfg, env, f, sessions, items);
    BaseIsRead(cfg, env, f, sessions, items, rows);
    ReadIsSound(items, rows, env.show);
    ReadIsSound(base, rows, env.show);
    forall k | 0 <= k < |sessions| ensures AllSound(sessions[k].items) {
      ReadIsSound(sessions[k].items, rows, env.show);
    }
    CrashesDoNotMatter(cfg, env, f, sessions, items);
    var end := Steps(cfg, env, Initial(base), |STAGES|);
    if end.Some? {
      RunConservesRows(cfg, env, base, |STAGES|);
      ConservedIsAccounted(end.value, base, rows, env.show);
    }
  }

  // ---------------------------------------------------------------------------------------
  // _rejection_counts
  // ---------------------------------------------------------------------------------------

  function Field(d: Dict, k: Key, show: Show): string { if k in d then Text(d[k], show) else "unknown" }

  /** `item.metadata.get("rejection", {})`, if that is a dictionary. */
  function RejectionOf(x: Item): Option<Dict> {
    if Key.Rejection !in x.metadata then Some(map[])
    else if x.metadata[Key.Rejection].JObj? then Some(x.metadata[Key.Rejection].fields)
    else None
  }

  function RejectionKey(x: Item, show: Show): string {
    var d := RejectionOf(x).GetOr(map[]);
    Field(d, Key.Stage, show) + ": " + Field(d, Key.Reason, show)
  }

  function RejectionKeys(xs: seq<Item>, show: Show): seq<string> {
    seq(|xs|, i requires 0 <= i < |xs| => RejectionKey(xs[i], show))
  }

  /** The report counts every row once, under its stage and reason or as unknown; it raises on a record that is no
      dictionary, which the run's own rejections never are. */
  method RejectionCounts(xs: seq<Item>, show: Show) returns (counts: Option<map<string, nat>>)
    ensures counts.None? <==> exists i :: 0 <= i < |xs| && RejectionOf(xs[i]).None?
    ensures counts.Some? ==> counts.value.Keys == set k | k in RejectionKeys(xs, show) :: k
    ensures counts.Some? ==> forall k :: k in counts.value ==> counts.value[k] == multiset(RejectionKeys(xs, show))[k]
    ensures (forall x :: x in xs ==> exists s :: Names(x, s)) ==> counts.Some?
  {
    var found: map<string, nat> := map[];
    ghost var keys := RejectionKeys(xs, show);
    for i := 0 to |xs|
      invariant forall k :: 0 <= k < i ==> RejectionOf(xs[k]).Some?
      invariant forall k :: k in found <==> k in keys[..i]
      invariant forall k :: k in found ==> found[k] == multiset(keys[..i])[k]
    {
      if RejectionOf(xs[i]).None? {
        assert xs[i] in xs;
        return None;
      }
      var key := RejectionKey(xs[i], show);
      assert keys[..i + 1] == keys[..i] + [key];
      found := found[key := (if key in found then found[key] else 0) + 1];
    }
    assert keys[..|xs|] == keys;
    return Some(found);
  }
}
