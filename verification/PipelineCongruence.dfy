/** No stage after validation can tell apart two states whose rows serialise alike. */
module PipelineCongruence {
  import opened Classifier
  import Dedup
  import opened ItemText
  import opened Pipeline
  import opened Sampling
  import opened Schemas
  import opened Sequences
  import opened Wrappers

  /** Two rows of a typed format that serialise to the same dictionary, both in shape. */
  ghost predicate Like(x: Item, y: Item) { Same(x, y) && WellFormed(x) && WellFormed(y) && x.format != Custom }

  ghost predicate AllLike(xs: seq<Item>, ys: seq<Item>) {
    |xs| == |ys| && forall i {:trigger Like(xs[i], ys[i])} :: 0 <= i < |xs| ==> Like(xs[i], ys[i])
  }

  /** States that no later stage tells apart. */
  ghost predicate Alike(s: State, t: State) {
    && AllLike(s.accepted, t.accepted) && AllLike(s.rejected, t.rejected)
    && s.completed == t.completed && s.profile == t.profile && s.inputRecords == t.inputRecords
    && s.reports == t.reports
  }

  // ---------------------------------------------------------------------------------------
  // One row
  // ---------------------------------------------------------------------------------------

  lemma LikeReads(x: Item, y: Item, show: Show)
    requires Like(x, y)
    ensures x.id == y.id && x.format == y.format && x.labels == y.labels && x.metadata == y.metadata
    ensures x.quality == y.quality
    ensures BodyOf(x) == BodyOf(y)
    ensures PromptAndResponse(x, show) == PromptAndResponse(y, show)
    ensures ClassificationText(x, show) == ClassificationText(y, show)
  {
    SameText(x, y, show);
  }

  lemma MetadataLike(x: Item, y: Item, m: Dict)
    requires Like(x, y)
    ensures Like(x.(metadata := m), y.(metadata := m))
  {
  }

  lemma QualityLike(x: Item, y: Item, q: Quality, m: Dict)
    requires Like(x, y) && InRange(q)
    ensures Like(x.(quality := Some(q), metadata := m), y.(quality := Some(q), metadata := m))
  {
  }

  lemma LabelsLike(x: Item, y: Item, l: Labels, m: Dict)
    requires Like(x, y) && Homogeneous(l)
    ensures Like(x.(labels := Some(l), metadata := m), y.(labels := Some(l), metadata := m))
  {
    LessRemains(x.raw, y.raw, BodyDict(BodyOf(x)).Keys, LabelDict(x.labels).Keys, LabelDict(Some(l)).Keys);
  }

  lemma LessRemains(r: Dict, t: Dict, b: set<Key>, few: set<Key>, many: set<Key>)
    requires few <= many && r - b - few == t - b - few
    ensures r - b - many == t - b - many
  {
    assert r - b - many == (r - b - few) - many;
    assert t - b - many == (t - b - few) - many;
  }

  predicate Retexted(x: Item, x': Item) {
    x' == x.(instruction := x'.instruction, input := x'.input, output := x'.output, messages := x'.messages,
             text := x'.text, prompt := x'.prompt, chosen := x'.chosen, rejected := x'.rejected,
             metadata := x'.metadata)
  }

  lemma TextLike(x: Item, x': Item, y: Item, y': Item)
    requires Like(x, y) && Retexted(x, x') && Retexted(y, y') && BodyOf(x') == BodyOf(y') && x'.metadata == y'.metadata
    ensures Like(x', y')
  {
    RetextedIsWellFormed(x, x');
    RetextedIsWellFormed(y, y');
    assert BodyDict(BodyOf(x')).Keys == BodyDict(BodyOf(x)).Keys;
  }

  lemma RetextedIsWellFormed(x: Item, x': Item)
    requires WellFormed(x) && Retexted(x, x')
    ensures WellFormed(x')
  {
    SameFormat(x.raw, BodyOf(x), BodyOf(x'));
  }

  lemma SameFormat(raw: Dict, a: Body, b: Body)
    requires a.BAlpaca? == b.BAlpaca? && a.BChat? == b.BChat? && a.BDpo? == b.BDpo? && a.BRaw? == b.BRaw?
    ensures FormatOf(raw + BodyDict(a)) == FormatOf(raw + BodyDict(b))
  {
  }

  // ---------------------------------------------------------------------------------------
  // Lists of rows
  // ---------------------------------------------------------------------------------------

  lemma AllLikeParts(xs: seq<Item>, ys: seq<Item>, n: nat)
    requires AllLike(xs, ys) && n <= |xs|
    ensures AllLike(xs[..n], ys[..n]) && AllLike(xs[n..], ys[n..])
  {
    forall i | 0 <= i < n ensures Like(xs[..n][i], ys[..n][i]) { assert Like(xs[i], ys[i]); }
    forall i | 0 <= i < |xs| - n ensures Like(xs[n..][i], ys[n..][i]) { assert Like(xs[n + i], ys[n + i]); }
  }

  lemma AllLikeJoined(a: seq<Item>, b: seq<Item>, c: seq<Item>, d: seq<Item>)
    requires AllLike(a, b) && AllLike(c, d)
    ensures AllLike(a + c, b + d)
  {
    forall i | 0 <= i < |a + c| ensures Like((a + c)[i], (b + d)[i]) {
      if i < |a| { assert Like(a[i], b[i]); } else { assert Like(c[i - |a|], d[i - |a|]); }
    }
  }

  lemma {:induction false} PickLike(xs: seq<Item>, ys: seq<Item>, flags: seq<bool>, which: bool)
    requires AllLike(xs, ys) && |flags| == |xs|
    ensures AllLike(Pick(xs, flags, which), Pick(ys, flags, which))
  {
    if xs != [] {
      var n := |xs| - 1;
      AllLikeParts(xs, ys, n);
      PickLike(xs[..n], ys[..n], flags[..n], which);
      assert Like(xs[n], ys[n]);
      if flags[n] == which {
        AllLikeJoined(Pick(xs[..n], flags[..n], which), Pick(ys[..n], flags[..n], which), [xs[n]], [ys[n]]);
      }
    }
  }

  lemma {:induction false} MergeLike(xs: seq<Item>, ys: seq<Item>, flags: seq<bool>, us: seq<Item>, vs: seq<Item>)
    requires AllLike(xs, ys) && AllLike(us, vs) && |flags| == |xs|
    requires |us| == |Pick(xs, flags, true)| && |vs| == |Pick(ys, flags, true)|
    ensures AllLike(Merge(xs, flags, us), Merge(ys, flags, vs))
  {
    if xs != [] {
      var n := |xs| - 1;
      AllLikeParts(xs, ys, n);
      if flags[n] {
        var m := |us| - 1;
        AllLikeParts(us, vs, m);
        MergeLike(xs[..n], ys[..n], flags[..n], us[..m], vs[..m]);
        assert Like(us[m], vs[m]);
        AllLikeJoined(Merge(xs[..n], flags[..n], us[..m]), Merge(ys[..n], flags[..n], vs[..m]), [us[m]], [vs[m]]);
      } else {
        MergeLike(xs[..n], ys[..n], flags[..n], us, vs);
        assert Like(xs[n], ys[n]);
        AllLikeJoined(Merge(xs[..n], flags[..n], us), Merge(ys[..n], flags[..n], vs), [xs[n]], [ys[n]]);
      }
    }
  }

  lemma SampleLike(xs: seq<Item>, ys: seq<Item>, limit: int)
    requires AllLike(xs, ys)
    ensures AllLike(Sample(xs, limit), Sample(ys, limit))
  {
    IndicesInRange(|xs|, limit);
    var at := Indices(|xs|, limit);
    forall i | 0 <= i < |at| ensures Like(Sample(xs, limit)[i], Sample(ys, limit)[i]) {
      assert at[i] in at;
      assert Like(xs[at[i]], ys[at[i]]);
    }
  }

  /** What a stage reads of the rows, list by list. */
  lemma ListsLike(xs: seq<Item>, ys: seq<Item>, show: Show)
    requires AllLike(xs, ys)
    ensures LabelsOfAll(xs) == LabelsOfAll(ys) && Texts(xs, show) == Texts(ys, show) && Ids(xs) == Ids(ys)
    ensures Contents(xs, show) == Contents(ys, show)
    ensures AllLabelled(xs) == AllLabelled(ys)
    ensures xs != [] ==> PrimaryFormat(xs) == PrimaryFormat(ys)
  {
    forall i | 0 <= i < |xs|
      ensures xs[i].labels == ys[i].labels && xs[i].id == ys[i].id && xs[i].format == ys[i].format
      ensures Texts(xs, show)[i] == Texts(ys, show)[i] && Contents(xs, show)[i] == Contents(ys, show)[i]
    {
      assert Like(xs[i], ys[i]);
      LikeReads(xs[i], ys[i], show);
    }
  }

  lemma KeysLike(xs: seq<Item>, ys: seq<Item>, show: Show)
    requires AllLike(xs, ys)
    ensures Dedup.ExactKeys(xs, show) == Dedup.ExactKeys(ys, show)
    ensures Dedup.Signatures(xs, show) == Dedup.Signatures(ys, show)
  {
    ListsLike(xs, ys, show);
    forall i | 0 <= i < |xs| ensures Dedup.Content(xs[i], show) == Dedup.Content(ys[i], show) {
      assert Contents(xs, show)[i] == Contents(ys, show)[i];
    }
    forall i | 0 <= i < |xs| ensures Dedup.Signatures(xs, show)[i] == Dedup.Signatures(ys, show)[i] {
      assert Dedup.Content(xs[i], show) == Dedup.Content(ys[i], show);
    }
  }

  // ---------------------------------------------------------------------------------------
  // Splitting off rejected rows
  // ---------------------------------------------------------------------------------------

  lemma DivideLike(s: State, t: State, xs: seq<Item>, ys: seq<Item>, reasons: seq<Option<Json>>, stage: Stage)
    requires Alike(s, t) && AllLike(xs, ys) && |reasons| == |xs|
    ensures Alike(Divide(s, xs, reasons, stage), Divide(t, ys, reasons, stage))
  {
    var us, vs := WithReasons(xs, reasons, stage), WithReasons(ys, reasons, stage);
    forall i | 0 <= i < |xs| ensures Like(us[i], vs[i]) {
      assert Like(xs[i], ys[i]);
      MetadataLike(xs[i], ys[i], us[i].metadata);
    }
    PickLike(xs, ys, Leaving(reasons), false);
    PickLike(us, vs, Leaving(reasons), true);
    AllLikeJoined(s.rejected, t.rejected, Pick(us, Leaving(reasons), true), Pick(vs, Leaving(reasons), true));
  }

  // ---------------------------------------------------------------------------------------
  // pii, profile, dedup
  // ---------------------------------------------------------------------------------------

  lemma ScrubTextLike(a: Option<string>, b: Option<string>, env: Env, only: bool)
    requires Txt(a) == Txt(b)
    ensures Txt(ScrubText(a, env, only).0) == Txt(ScrubText(b, env, only).0)
    ensures ScrubText(a, env, only).1 == ScrubText(b, env, only).1
  {
  }

  lemma ScrubRetexts(x: Item, env: Env, only: bool)
    requires x.format != Custom
    ensures Retexted(x, ScrubItem(x, env, only))
  {
  }

  lemma ScrubBodyLike(x: Item, y: Item, env: Env, only: bool)
    requires x.format == y.format != Custom && BodyOf(x) == BodyOf(y) && x.metadata == y.metadata
    ensures BodyOf(ScrubItem(x, env, only)) == BodyOf(ScrubItem(y, env, only))
    ensures ScrubItem(x, env, only).metadata == ScrubItem(y, env, only).metadata
  {
    match x.format
    case Alpaca =>
      ScrubTextLike(x.instruction, y.instruction, env, only);
      ScrubTextLike(x.input, y.input, env, only);
      ScrubTextLike(x.output, y.output, env, only);
    case Dpo =>
      ScrubTextLike(x.prompt, y.prompt, env, only);
      ScrubTextLike(x.chosen, y.chosen, env, only);
      ScrubTextLike(x.rejected, y.rejected, env, only);
    case Raw => ScrubTextLike(x.text, y.text, env, only);
    case _ =>
  }

  lemma ScrubLike(x: Item, y: Item, env: Env, only: bool)
    requires Like(x, y)
    ensures Like(ScrubItem(x, env, only), ScrubItem(y, env, only))
  {
    ScrubBodyLike(x, y, env, only);
    ScrubRetexts(x, env, only);
    ScrubRetexts(y, env, only);
    TextLike(x, ScrubItem(x, env, only), y, ScrubItem(y, env, only));
  }

  lemma ScrubAllLike(xs: seq<Item>, ys: seq<Item>, env: Env, only: bool)
    requires AllLike(xs, ys)
    ensures AllLike(ScrubAll(xs, env, only), ScrubAll(ys, env, only))
  {
    var us, vs := ScrubAll(xs, env, only), ScrubAll(ys, env, only);
    forall i | 0 <= i < |us| ensures Like(us[i], vs[i]) {
      assert Like(xs[i], ys[i]);
      ScrubLike(xs[i], ys[i], env, only);
    }
  }

  lemma {:induction false} RedactedLike(xs: seq<Item>, ys: seq<Item>)
    requires AllLike(xs, ys)
    ensures Redacted(xs) == Redacted(ys)
  {
    if xs != [] {
      AllLikeParts(xs, ys, |xs| - 1);
      RedactedLike(xs[..|xs| - 1], ys[..|xs| - 1]);
      assert Like(xs[|xs| - 1], ys[|xs| - 1]);
    }
  }

  lemma CountableLike(xs: seq<Item>, ys: seq<Item>)
    requires AllLike(xs, ys)
    ensures Countable(xs) == Countable(ys)
  {
    forall i | 0 <= i < |xs| ensures EntityCounts(xs[i]) == EntityCounts(ys[i]) { assert Like(xs[i], ys[i]); }
  }

  lemma PiiLike(cfg: Config, env: Env, s: State, t: State)
    requires Alike(s, t)
    ensures PiiStage(cfg, env, s).Some? == PiiStage(cfg, env, t).Some?
    ensures PiiStage(cfg, env, s).Some? ==> Alike(PiiStage(cfg, env, s).value, PiiStage(cfg, env, t).value)
  {
    ListsLike(s.accepted, t.accepted, env.show);
    var policy := PiiPolicy(cfg, s.accepted);
    var only := s.accepted != [] && AllLabelled(s.accepted) && policy == "identifiers";
    assert policy == PiiPolicy(cfg, t.accepted);
    var xs, ys := s.accepted, t.accepted;
    if cfg.scrubPii && policy != "off" {
      ScrubAllLike(xs, ys, env, only);
      xs, ys := ScrubAll(xs, env, only), ScrubAll(ys, env, only);
    }
    CountableLike(xs, ys);
    RedactedLike(xs, ys);
  }

  lemma ProfileLike(cfg: Config, env: Env, s: State, t: State)
    requires Alike(s, t)
    ensures ProfileStage(cfg, env, s).Some? == ProfileStage(cfg, env, t).Some?
    ensures ProfileStage(cfg, env, s).Some? ==> Alike(ProfileStage(cfg, env, s).value, ProfileStage(cfg, env, t).value)
  {
    ListsLike(s.accepted, t.accepted, env.show);
    SampleLike(s.accepted, t.accepted, cfg.classificationSample);
    ListsLike(Sample(s.accepted, cfg.classificationSample), Sample(t.accepted, cfg.classificationSample), env.show);
    assert ProfileOf(cfg, env, s.accepted) == ProfileOf(cfg, env, t.accepted);
  }

  lemma DedupLike(cfg: Config, env: Env, s: State, t: State)
    requires Alike(s, t)
    ensures Alike(DedupStage(cfg, env, s), DedupStage(cfg, env, t))
  {
    ListsLike(s.accepted, t.accepted, env.show);
    KeysLike(s.accepted, t.accepted, env.show);
    var how := DedupMethod(cfg, s.accepted);
    var reasons := Duplicates(how, cfg, env, s.accepted);
    assert reasons == Duplicates(how, cfg, env, t.accepted);
    var us, vs := WithDedupReasons(s.accepted, reasons), WithDedupReasons(t.accepted, reasons);
    forall i | 0 <= i < |us| ensures Like(us[i], vs[i]) {
      assert Like(s.accepted[i], t.accepted[i]);
      MetadataLike(s.accepted[i], t.accepted[i], us[i].metadata);
    }
    DivideLike(s, t, us, vs, AsJson(reasons), Deduplication);
  }

  // ---------------------------------------------------------------------------------------
  // score_refine
  // ---------------------------------------------------------------------------------------

  lemma RecordLike(x: Item, y: Item, env: Env)
    requires Like(x, y)
    ensures AuditRecordOf(x, env.show) == AuditRecordOf(y, env.show) && RuleIssues(x, env) == RuleIssues(y, env)
  {
    LikeReads(x, y, env.show);
  }

  lemma GradeLike(x: Item, y: Item, reply: AuditReply)
    requires Like(x, y)
    ensures Like(Grade(x, reply), Grade(y, reply))
  {
    var x' := Grade(x, reply);
    MetadataLike(x, y, x'.metadata);
    if reply.Scores? && Last(reply.entries, x.id).Some? {
      QualityLike(x, y, Last(reply.entries, x.id).value, x'.metadata);
    }
  }

  lemma AuditChunkLike(xs: seq<Item>, ys: seq<Item>, env: Env, topic: Topic)
    requires AllLike(xs, ys)
    ensures AllLike(AuditChunk(xs, env, topic), AuditChunk(ys, env, topic))
  {
    forall i | 0 <= i < |xs| ensures AuditRecords(xs, env.show)[i] == AuditRecords(ys, env.show)[i] {
      assert Like(xs[i], ys[i]);
      RecordLike(xs[i], ys[i], env);
    }
    var records := AuditRecords(xs, env.show);
    assert records == AuditRecords(ys, env.show);
    var reply := env.audit(records, topic.task, topic.classes);
    forall i | 0 <= i < |xs| ensures Like(AuditChunk(xs, env, topic)[i], AuditChunk(ys, env, topic)[i]) {
      assert Like(xs[i], ys[i]);
      GradeLike(xs[i], ys[i], reply);
    }
  }

  lemma {:induction false} AuditRemoteLike(xs: seq<Item>, ys: seq<Item>, env: Env, topic: Topic, size: Size)
    requires AllLike(xs, ys)
    ensures AllLike(AuditRemote(xs, env, topic, size), AuditRemote(ys, env, topic, size))
    decreases |xs|
  {
    if |xs| <= size {
      if xs != [] { AuditChunkLike(xs, ys, env, topic); }
    } else {
      AllLikeParts(xs, ys, size);
      AuditChunkLike(xs[..size], ys[..size], env, topic);
      AuditRemoteLike(xs[size..], ys[size..], env, topic, size);
      AllLikeJoined(AuditChunk(xs[..size], env, topic), AuditChunk(ys[..size], env, topic),
                    AuditRemote(xs[size..], env, topic, size), AuditRemote(ys[size..], env, topic, size));
    }
  }

  lemma PassingLike(xs: seq<Item>, ys: seq<Item>, env: Env)
    requires AllLike(xs, ys)
    ensures Passing(xs, env) == Passing(ys, env) && AllLike(RuleChecked(xs, env), RuleChecked(ys, env))
  {
    forall i | 0 <= i < |xs|
      ensures RuleIssues(xs[i], env) == RuleIssues(ys[i], env) && Like(RuleChecked(xs, env)[i], RuleChecked(ys, env)[i])
    {
      assert Like(xs[i], ys[i]);
      RecordLike(xs[i], ys[i], env);
      var x' := RuleFailed(xs[i], RuleIssues(xs[i], env));
      QualityLike(xs[i], ys[i], x'.quality.value, x'.metadata);
    }
  }

  lemma AuditLike(xs: seq<Item>, ys: seq<Item>, env: Env, topic: Topic, size: Size)
    requires AllLike(xs, ys)
    ensures AllLike(Audit(xs, env, topic, size), Audit(ys, env, topic, size))
  {
    PassingLike(xs, ys, env);
    var passing := Passing(xs, env);
    PickLike(xs, ys, passing, true);
    AuditRemoteLike(Pick(xs, passing, true), Pick(ys, passing, true), env, topic, size);
    PickSize(xs, RuleChecked(xs, env), passing, true);
    PickSize(ys, RuleChecked(ys, env), passing, true);
    MergeLike(RuleChecked(xs, env), RuleChecked(ys, env), passing,
              AuditRemote(Pick(xs, passing, true), env, topic, size),
              AuditRemote(Pick(ys, passing, true), env, topic, size));
  }

  lemma UpdatedLike(x: Item, y: Item, p: string, r: string)
    requires Like(x, y)
    ensures BodyOf(Updated(x, Some(p), Some(r))) == BodyOf(Updated(y, Some(p), Some(r)))
    ensures Retexted(x, Updated(x, Some(p), Some(r))) && Retexted(y, Updated(y, Some(p), Some(r)))
    ensures Updated(x, Some(p), Some(r)).metadata == Updated(y, Some(p), Some(r)).metadata
  {
  }

  lemma RefineOneLike(x: Item, y: Item, reply: RefineReply, mode: string, show: Show)
    requires Like(x, y)
    ensures Like(RefineOne(x, reply, mode, show), RefineOne(y, reply, mode, show))
  {
    hide Like, Updated, PromptAndResponse;
    LikeReads(x, y, show);
    var x', y' := RefineOne(x, reply, mode, show), RefineOne(y, reply, mode, show);
    if reply.Refined? && Last(reply.entries, x.id).Some? {
      var found := Last(reply.entries, x.id).value;
      var (p, r) := PromptAndResponse(x, show);
      UpdatedLike(x, y, if mode in {"all", "prompt_only"} && found.prompt != "" then found.prompt else p,
                  if mode in {"all", "response_only"} then found.response else r);
      TextLike(x, x', y, y');
    } else {
      MetadataLike(x, y, x'.metadata);
    }
  }

  lemma RefineChunkLike(xs: seq<Item>, ys: seq<Item>, env: Env, mode: string)
    requires AllLike(xs, ys)
    ensures AllLike(RefineChunk(xs, env, mode), RefineChunk(ys, env, mode))
  {
    forall i | 0 <= i < |xs| ensures RefineRecords(xs, env.show)[i] == RefineRecords(ys, env.show)[i] {
      assert Like(xs[i], ys[i]);
      LikeReads(xs[i], ys[i], env.show);
    }
    var records := RefineRecords(xs, env.show);
    assert records == RefineRecords(ys, env.show);
    var reply := env.refine(records, mode);
    forall i | 0 <= i < |xs| ensures Like(RefineChunk(xs, env, mode)[i], RefineChunk(ys, env, mode)[i]) {
      assert Like(xs[i], ys[i]);
      RefineOneLike(xs[i], ys[i], reply, mode, env.show);
    }
  }

  lemma {:induction false} RefineAllLike(xs: seq<Item>, ys: seq<Item>, env: Env, mode: string)
    requires AllLike(xs, ys)
    ensures AllLike(RefineAll(xs, env, mode), RefineAll(ys, env, mode))
    decreases |xs|
  {
    if |xs| <= REFINE_BATCH {
      if xs != [] { RefineChunkLike(xs, ys, env, mode); }
    } else {
      AllLikeParts(xs, ys, REFINE_BATCH);
      RefineChunkLike(xs[..REFINE_BATCH], ys[..REFINE_BATCH], env, mode);
      RefineAllLike(xs[REFINE_BATCH..], ys[REFINE_BATCH..], env, mode);
      AllLikeJoined(RefineChunk(xs[..REFINE_BATCH], env, mode), RefineChunk(ys[..REFINE_BATCH], env, mode),
                    RefineAll(xs[REFINE_BATCH..], env, mode), RefineAll(ys[REFINE_BATCH..], env, mode));
    }
  }

  lemma RefinableLike(xs: seq<Item>, ys: seq<Item>, cfg: Config)
    requires AllLike(xs, ys)
    ensures RefinableFlags(xs, cfg) == RefinableFlags(ys, cfg)
  {
    forall i | 0 <= i < |xs| ensures Refinable(xs[i], cfg) == Refinable(ys[i], cfg) { assert Like(xs[i], ys[i]); }
  }

  lemma ImprovedLike(xs: seq<Item>, ys: seq<Item>, cfg: Config, env: Env, topic: Topic)
    requires AllLike(xs, ys)
    ensures AllLike(Improved(xs, cfg, env, topic), Improved(ys, cfg, env, topic))
  {
    RefinableLike(xs, ys, cfg);
    var flags := RefinableFlags(xs, cfg);
    PickLike(xs, ys, flags, true);
    RefineAllLike(Pick(xs, flags, true), Pick(ys, flags, true), env, cfg.refineMode);
    var us := RefineAll(Pick(xs, flags, true), env, cfg.refineMode);
    var vs := RefineAll(Pick(ys, flags, true), env, cfg.refineMode);
    AuditLike(us, vs, env, topic, cfg.auditBatch);
    MergeLike(xs, ys, flags, Audit(us, env, topic, cfg.auditBatch), Audit(vs, env, topic, cfg.auditBatch));
  }

  lemma {:induction false} ScoresLike(xs: seq<Item>, ys: seq<Item>)
    requires AllLike(xs, ys)
    ensures ScoresOf(xs) == ScoresOf(ys)
  {
    if xs != [] {
      AllLikeParts(xs, ys, 1);
      ScoresLike(xs[1..], ys[1..]);
      assert Like(xs[0], ys[0]);
    }
  }

  lemma SampleReportLike(cfg: Config, env: Env, xs: seq<Item>, ys: seq<Item>, topic: Topic)
    requires AllLike(xs, ys)
    ensures SampleReport(cfg, env, xs, topic) == SampleReport(cfg, env, ys, topic)
  {
    SampleLike(xs, ys, cfg.sampleSize);
    var us, vs := Sample(xs, cfg.sampleSize), Sample(ys, cfg.sampleSize);
    AuditLike(us, vs, env, topic, cfg.auditBatch);
    ScoresLike(Audit(us, env, topic, cfg.auditBatch), Audit(vs, env, topic, cfg.auditBatch));
    PassingLike(us, vs, env);
    PickSize(us, vs, Passing(us, env), true);
  }

  lemma ScoreLike(cfg: Config, env: Env, s: State, t: State)
    requires Alike(s, t)
    ensures Alike(ScoreStage(cfg, env, s), ScoreStage(cfg, env, t))
  {
    ListsLike(s.accepted, t.accepted, env.show);
    var xs, ys, topic := s.accepted, t.accepted, TopicOf(s);
    match EffectiveMode(cfg, xs)
    case Off =>
    case Sampled => SampleReportLike(cfg, env, xs, ys, topic);
    case Llm =>
      AuditLike(xs, ys, env, topic, cfg.auditBatch);
      var us, vs := Audit(xs, env, topic, cfg.auditBatch), Audit(ys, env, topic, cfg.auditBatch);
      ImprovedLike(us, vs, cfg, env, topic);
      RefinableLike(us, vs, cfg);
      PickSize(us, vs, RefinableFlags(us, cfg), true);
  }

  // ---------------------------------------------------------------------------------------
  // filter, classify
  // ---------------------------------------------------------------------------------------

  lemma FilterLike(cfg: Config, env: Env, s: State, t: State)
    requires Alike(s, t)
    ensures Alike(FilterStage(cfg, env, s), FilterStage(cfg, env, t))
  {
    ListsLike(s.accepted, t.accepted, env.show);
    forall i | 0 <= i < |s.accepted|
      ensures FilterReason(s.accepted[i], cfg, env) == FilterReason(t.accepted[i], cfg, env)
    {
      assert Like(s.accepted[i], t.accepted[i]);
      LikeReads(s.accepted[i], t.accepted[i], env.show);
    }
    var reasons := FilterReasons(s.accepted, cfg, env);
    assert reasons == FilterReasons(t.accepted, cfg, env);
    DivideLike(s, t, s.accepted, t.accepted, reasons, Filtering);
  }

  lemma MarkedLike(xs: seq<Item>, ys: seq<Item>, which: bool, message: string, show: Show)
    requires AllLike(xs, ys)
    ensures AllLike(Classifier.Marked(xs, which, message, show), Classifier.Marked(ys, which, message, show))
  {
    var us, vs := Classifier.Marked(xs, which, message, show), Classifier.Marked(ys, which, message, show);
    forall i | 0 <= i < |xs| ensures Like(us[i], vs[i]) {
      assert Like(xs[i], ys[i]);
      LikeReads(xs[i], ys[i], show);
      MetadataLike(xs[i], ys[i], us[i].metadata);
    }
  }

  lemma {:induction false} RecordsLike(xs: seq<Item>, ys: seq<Item>, show: Show)
    requires AllLike(xs, ys)
    ensures Records(xs, show) == Records(ys, show)
  {
    if xs != [] {
      AllLikeParts(xs, ys, 1);
      RecordsLike(xs[1..], ys[1..], show);
      assert Like(xs[0], ys[0]);
      LikeReads(xs[0], ys[0], show);
    }
  }

  lemma AssignLike(x: Item, y: Item, results: seq<Entry>, schema: Schema, show: Show)
    requires Like(x, y) && schema.task.Some?
    ensures
      var a, b := Assign(x, results, schema, show), Assign(y, results, schema, show);
      if a.Success? then b.Success? && Like(a.value, b.value) else a == b
  {
    LikeReads(x, y, show);
    var a := Assign(x, results, schema, show);
    if a.Success? { LabelsLike(x, y, a.value.labels.value, a.value.metadata); }
  }

  lemma {:induction false} ApplyLike(xs: seq<Item>, ys: seq<Item>, results: seq<Entry>, schema: Schema, show: Show)
    requires AllLike(xs, ys) && schema.task.Some?
    ensures
      var a, b := Apply(xs, results, schema, show), Apply(ys, results, schema, show);
      AllLike(a.0, b.0) && a.1 == b.1
  {
    if xs != [] {
      AllLikeParts(xs, ys, 1);
      ApplyLike(xs[1..], ys[1..], results, schema, show);
      assert Like(xs[0], ys[0]);
      LikeReads(xs[0], ys[0], show);
      AssignLike(xs[0], ys[0], results, schema, show);
      var a, b := Assign(xs[0], results, schema, show), Assign(ys[0], results, schema, show);
      var u, v := Apply(xs[1..], results, schema, show).0, Apply(ys[1..], results, schema, show).0;
      if !Classifiable(xs[0], show) {
        AllLikeJoined([xs[0]], [ys[0]], u, v);
      } else if a.Success? {
        AllLikeJoined([a.value], [b.value], u, v);
      }
    }
  }

  lemma AttemptLike(xs: seq<Item>, ys: seq<Item>, reply: Reply, schema: Schema, show: Show)
    requires AllLike(xs, ys) && schema.task.Some?
    ensures
      var a, b := Attempt(xs, reply, schema, show), Attempt(ys, reply, schema, show);
      AllLike(a.0, b.0) && a.1 == b.1
  {
    if reply.Reply? { ApplyLike(xs, ys, reply.results, schema, show); }
  }

  lemma ChunkLike(xs: seq<Item>, ys: seq<Item>, schema: Schema, ask: Ask, show: Show)
    requires AllLike(xs, ys) && schema.task.Some?
    ensures AllLike(Chunk(xs, schema, ask, show), Chunk(ys, schema, ask, show))
  {
    RecordsLike(xs, ys, show);
    MarkedLike(xs, ys, false, NO_TEXT, show);
    var us, vs := Classifier.Marked(xs, false, NO_TEXT, show), Classifier.Marked(ys, false, NO_TEXT, show);
    var replies := Replies(xs, schema, ask, show);
    AttemptLike(us, vs, replies.0, schema, show);
    var a, b := Attempt(us, replies.0, schema, show), Attempt(vs, replies.0, schema, show);
    if a.1.Some? {
      AttemptLike(a.0, b.0, replies.1, schema, show);
      var c, d := Attempt(a.0, replies.1, schema, show), Attempt(b.0, replies.1, schema, show);
      if c.1.Some? { MarkedLike(c.0, d.0, true, c.1.value, show); }
    }
  }

  lemma {:induction false} BatchLike(xs: seq<Item>, ys: seq<Item>, schema: Schema, ask: Ask, show: Show)
    requires AllLike(xs, ys) && schema.task.Some?
    ensures AllLike(Batch(xs, schema, ask, show), Batch(ys, schema, ask, show))
    decreases |xs|
  {
    if |xs| <= CHUNK_SIZE {
      if xs != [] { ChunkLike(xs, ys, schema, ask, show); }
    } else {
      AllLikeParts(xs, ys, CHUNK_SIZE);
      ChunkLike(xs[..CHUNK_SIZE], ys[..CHUNK_SIZE], schema, ask, show);
      BatchLike(xs[CHUNK_SIZE..], ys[CHUNK_SIZE..], schema, ask, show);
      AllLikeJoined(Chunk(xs[..CHUNK_SIZE], schema, ask, show), Chunk(ys[..CHUNK_SIZE], schema, ask, show),
                    Batch(xs[CHUNK_SIZE..], schema, ask, show), Batch(ys[CHUNK_SIZE..], schema, ask, show));
    }
  }

  lemma ChunkRaisesLike(xs: seq<Item>, ys: seq<Item>, schema: Schema, ask: Ask, show: Show)
    requires AllLike(xs, ys) && schema.task.Some?
    ensures ChunkRaises(xs, schema, ask, show) == ChunkRaises(ys, schema, ask, show)
  {
    RecordsLike(xs, ys, show);
    MarkedLike(xs, ys, false, NO_TEXT, show);
    AttemptLike(Classifier.Marked(xs, false, NO_TEXT, show), Classifier.Marked(ys, false, NO_TEXT, show),
                Replies(xs, schema, ask, show).0, schema, show);
  }

  lemma {:induction false} BatchRaisesLike(xs: seq<Item>, ys: seq<Item>, schema: Schema, ask: Ask, show: Show)
    requires AllLike(xs, ys) && schema.task.Some?
    ensures BatchRaises(xs, schema, ask, show) == BatchRaises(ys, schema, ask, show)
    decreases |xs|
  {
    if |xs| <= CHUNK_SIZE {
      ChunkRaisesLike(xs, ys, schema, ask, show);
    } else {
      AllLikeParts(xs, ys, CHUNK_SIZE);
      ChunkRaisesLike(xs[..CHUNK_SIZE], ys[..CHUNK_SIZE], schema, ask, show);
      BatchRaisesLike(xs[CHUNK_SIZE..], ys[CHUNK_SIZE..], schema, ask, show);
    }
  }

  lemma ErrorsLike(xs: seq<Item>, ys: seq<Item>)
    requires AllLike(xs, ys)
    ensures ErrorsOf(xs) == ErrorsOf(ys)
  {
    forall i | 0 <= i < |xs| ensures ErrorsOf(xs)[i] == ErrorsOf(ys)[i] { assert Like(xs[i], ys[i]); }
  }

  lemma SchemaLike(cfg: Config, env: Env, s: State, t: State)
    requires Alike(s, t)
    ensures LabelSchema(cfg, env, s) == LabelSchema(cfg, env, t)
  {
    SampleLike(s.accepted, t.accepted, cfg.classificationSample);
    ListsLike(Sample(s.accepted, cfg.classificationSample), Sample(t.accepted, cfg.classificationSample), env.show);
  }

  lemma ClassifyLike(cfg: Config, env: Env, s: State, t: State)
    requires Alike(s, t)
    ensures ClassifyStage(cfg, env, s).Some? == ClassifyStage(cfg, env, t).Some?
    ensures ClassifyStage(cfg, env, s).Some? ==>
        Alike(ClassifyStage(cfg, env, s).value, ClassifyStage(cfg, env, t).value)
  {
    hide LabelSchema, ClassifyWith;
    ListsLike(s.accepted, t.accepted, env.show);
    SchemaLike(cfg, env, s, t);
    var found := LabelSchema(cfg, env, s);
    if found.Some? && found.value.Valid() { ClassifyWithLike(cfg, env, s, t, found.value); }
  }

  lemma ClassifyWithLike(cfg: Config, env: Env, s: State, t: State, schema: Schema)
    requires Alike(s, t) && schema.Valid()
    ensures
      var a, b := ClassifyWith(cfg, env, s, schema), ClassifyWith(cfg, env, t, schema);
      a.Some? == b.Some? && (a.Some? ==> Alike(a.value, b.value))
  {
    if schema.applicable {
      BatchRaisesLike(s.accepted, t.accepted, schema, env.ask, env.show);
      LabelledLike(env, s, t, schema);
    }
  }

  lemma LabelledLike(env: Env, s: State, t: State, schema: Schema)
    requires Alike(s, t) && schema.task.Some?
    ensures
      var us, vs := Batch(s.accepted, schema, env.ask, env.show), Batch(t.accepted, schema, env.ask, env.show);
      Alike(Divide(s, us, ErrorsOf(us), Labelling), Divide(t, vs, ErrorsOf(vs), Labelling))
  {
    BatchLike(s.accepted, t.accepted, schema, env.ask, env.show);
    var us, vs := Batch(s.accepted, schema, env.ask, env.show), Batch(t.accepted, schema, env.ask, env.show);
    ErrorsLike(us, vs);
    DivideLike(s, t, us, vs, ErrorsOf(us), Labelling);
  }

  /** Every stage after validation takes alike states to alike states, or raises on both. */
  lemma StepLike(cfg: Config, env: Env, stage: Stage, s: State, t: State)
    requires Alike(s, t) && Validation in s.completed
    ensures Step(cfg, env, stage, s).Some? == Step(cfg, env, stage, t).Some?
    ensures Step(cfg, env, stage, s).Some? ==> Alike(Step(cfg, env, stage, s).value, Step(cfg, env, stage, t).value)
  {
    if stage !in s.completed {
      match stage
      case Validation =>
      case Redaction => PiiLike(cfg, env, s, t);
      case Profiling => ProfileLike(cfg, env, s, t);
      case Deduplication => DedupLike(cfg, env, s, t);
      case Scoring => ScoreLike(cfg, env, s, t);
      case Filtering => FilterLike(cfg, env, s, t);
      case Labelling => ClassifyLike(cfg, env, s, t);
    }
  }
}
