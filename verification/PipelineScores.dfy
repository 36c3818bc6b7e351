/** What scoring and refining do to each row: which texts are sent, in which company, and what each reply makes of the
    row, stated on the rows and the replies. */
module PipelineScores {
  import opened ItemText
  import opened Pipeline
  import opened Sampling
  import opened Schemas
  import opened Sequences
  import opened Wrappers

  // ---------------------------------------------------------------------------------------
  // Replies by id
  // ---------------------------------------------------------------------------------------

  /** Entry `k` is the last one with this id. */
  predicate Own<T>(entries: seq<(string, T)>, id: string, k: int) {
    0 <= k < |entries| && entries[k].0 == id && forall m :: k < m < |entries| ==> entries[m].0 != id
  }

  predicate Missing<T>(entries: seq<(string, T)>, id: string) { forall k :: 0 <= k < |entries| ==> entries[k].0 != id }

  lemma {:induction false} LastIsOwn<T>(entries: seq<(string, T)>, id: string)
    ensures Last(entries, id).None? <==> Missing(entries, id)
    ensures forall k :: Own(entries, id, k) ==> Last(entries, id) == Some(entries[k].1)
  {
    if entries != [] {
      var n := |entries| - 1;
      if entries[n].0 != id {
        LastIsOwn(entries[..n], id);
        forall k | Own(entries, id, k) ensures Own(entries[..n], id, k) { }
        if Missing(entries[..n], id) {
          forall k | 0 <= k < |entries| ensures entries[k].0 != id { if k < n { assert entries[..n][k].0 != id; } }
        }
      }
    }
  }

  // ---------------------------------------------------------------------------------------
  // Auditing a row
  // ---------------------------------------------------------------------------------------

  /** The two texts a row is judged by: a missing prompt is the response, a missing response only the text to classify
      when there is no prompt either. */
  predicate JudgedBy(x: Item, prompt: string, response: string, show: Show) {
    var (p, r) := PromptAndResponse(x, show);
    && (p != "" ==> prompt == p && response == r)
    && (p == "" ==> prompt == response)
    && (p == "" && r != "" ==> response == r)
    && (p == "" && r == "" ==> response == ClassificationText(x, show))
  }

  lemma JudgedByContent(x: Item, prompt: string, response: string, show: Show)
    ensures JudgedBy(x, prompt, response, show) <==> AuditContent(x, show) == (prompt, response)
  {
  }

  /** A row the rules object to. */
  predicate FailedRules(x: Item, y: Item, issues: seq<string>) {
    && y == x.(quality := y.quality, metadata := x.metadata[Key.RuleCheck := JBool(false)])
    && y.quality == Some(Quality(2.0, 3.0, 3.0, 1.0, 2.0, true, issues,
                                 "Failed basic heuristic checks: " + JoinWith(issues)))
  }

  /** What the reply to a chunk makes of a row in it. */
  predicate GradedBy(x: Item, y: Item, reply: AuditReply) {
    match reply
    case AuditFailed(message) => y == x.(metadata := x.metadata[Key.ScoringError := JStr(message)])
    case Scores(entries) =>
      && (Missing(entries, x.id) ==>
            y == x.(metadata :=
                      x.metadata[Key.ScoringError := JStr("Batch audit returned no score for this item_id.")]))
      && forall k :: 0 <= k < |entries| && Own(entries, x.id, k) ==>
           y == x.(quality := Some(entries[k].1), metadata := x.metadata[Key.RuleCheck := JBool(true)])
  }

  lemma GradeIsBy(x: Item, reply: AuditReply)
    ensures GradedBy(x, Grade(x, reply), reply)
  {
    if reply.Scores? { LastIsOwn(reply.entries, x.id); }
  }

  /** What is sent of a row: its id and labels and the first 2500 characters of either text. */
  predicate SentFor(x: Item, sent: AuditRecord, prompt: string, response: string) {
    && sent.id == x.id && sent.labels == x.labels
    && sent.prompt <= prompt && |sent.prompt| == (if |prompt| < 2500 then |prompt| else 2500)
    && sent.response <= response && |sent.response| == (if |response| < 2500 then |response| else 2500)
  }

  lemma SentForRow(x: Item, prompt: string, response: string, show: Show)
    requires JudgedBy(x, prompt, response, show)
    ensures SentFor(x, AuditRecordOf(x, show), prompt, response)
  {
    hide PromptAndResponse, ClassificationText;
  }

  lemma {:induction false} AuditRemoteAt(xs: seq<Item>, env: Env, topic: Topic, size: Size, i: nat)
    requires i < |xs|
    ensures
      var (chunk, k) := ChunkAt(xs, size, i);
      k < |chunk| && chunk[k] == xs[i] && AuditRemote(xs, env, topic, size)[i] == AuditChunk(chunk, env, topic)[k]
  {
    hide AuditChunk;
    ChunkHolds(xs, size, i);
    if i >= size { AuditRemoteAt(xs[size..], env, topic, size, i - size); }
  }

  /** The rows the rules do not object to, in order. */
  function Sound(xs: seq<Item>, env: Env): seq<Item> { Pick(xs, Passing(xs, env), true) }

  /** The provider is asked about the rows the rules do not object to, `size` at a time in order, and a row is graded by
      the reply to its own chunk; the others are graded here. */
  lemma AuditExactly(xs: seq<Item>, env: Env, topic: Topic, size: Size, i: nat, prompt: string, response: string)
    requires i < |xs| && JudgedBy(xs[i], prompt, response, env.show)
    ensures Passing(xs, env)[i] <==> env.rules(prompt, response) == []
    ensures SentFor(xs[i], AuditRecordOf(xs[i], env.show), prompt, response)
    ensures
      var y := Audit(xs, env, topic, size)[i];
      if env.rules(prompt, response) != [] then FailedRules(xs[i], y, env.rules(prompt, response))
      else
        var j := Raised(Passing(xs, env), i);
        && j < |Sound(xs, env)| && Sound(xs, env)[j] == xs[i]
        && var chunk := ChunkAt(Sound(xs, env), size, j).0;
           GradedBy(xs[i], y, env.audit(AuditRecords(chunk, env.show), topic.task, topic.classes))
  {
    hide PromptAndResponse, ClassificationText, FailedRules, GradedBy, SentFor, Merge, Pick, Raised, ChunkAt,
        AuditRemote;
    SentForRow(xs[i], prompt, response, env.show);
    JudgedByContent(xs[i], prompt, response, env.show);
    var passing, checked := Passing(xs, env), RuleChecked(xs, env);
    PickSize(xs, checked, passing, true);
    PickAt(xs, passing);
    MergeAt(checked, passing, AuditRemote(Sound(xs, env), env, topic, size), i);
    if passing[i] {
      var j := Raised(passing, i);
      AuditRemoteAt(Sound(xs, env), env, topic, size, j);
      var chunk := ChunkAt(Sound(xs, env), size, j).0;
      GradeIsBy(xs[i], env.audit(AuditRecords(chunk, env.show), topic.task, topic.classes));
    } else {
      FailedHere(xs[i], env.rules(prompt, response));
    }
  }

  lemma FailedHere(x: Item, issues: seq<string>)
    ensures FailedRules(x, RuleFailed(x, issues), issues)
  {
  }

  // ---------------------------------------------------------------------------------------
  // Refining a row
  // ---------------------------------------------------------------------------------------

  /** What is sent of a row: its id and the first 6000 characters of either text. */
  predicate RefineSentFor(x: Item, sent: (string, string, string), show: Show) {
    var (p, r) := PromptAndResponse(x, show);
    && sent.0 == x.id
    && sent.1 <= p && |sent.1| == (if |p| < 6000 then |p| else 6000)
    && sent.2 <= r && |sent.2| == (if |r| < 6000 then |r| else 6000)
  }

  /** The row with the texts the mode lets the refinement replace; an empty prompt replaces nothing. */
  predicate Rewritten(x: Item, y: Item, given: Refinement, mode: string, show: Show) {
    var (p, r) := PromptAndResponse(x, show);
    var prompt := if (mode == "all" || mode == "prompt_only") && given.prompt != "" then given.prompt else p;
    var response := if mode == "all" || mode == "response_only" then given.response else r;
    var z := Updated(x, Some(prompt), Some(response));
    && y == z.(metadata := y.metadata)
    && y.metadata == x.metadata[Key.Refined := JBool(true)][Key.RefinementInfo := given.info]
  }

  /** What the reply to a chunk makes of a row in it. */
  predicate RefinedBy(x: Item, y: Item, reply: RefineReply, mode: string, show: Show) {
    match reply
    case RefineFailed(message) => y == x.(metadata := x.metadata[Key.RefinementError := JStr(message)])
    case Refined(entries) =>
      && (Missing(entries, x.id) ==>
            y == x.(metadata :=
                      x.metadata[Key.RefinementError := JStr("Batch refinement returned no entry for this item_id.")]))
      && forall k :: 0 <= k < |entries| && Own(entries, x.id, k) ==> Rewritten(x, y, entries[k].1, mode, show)
  }

  lemma RefineOneIsBy(x: Item, reply: RefineReply, mode: string, show: Show)
    ensures RefinedBy(x, RefineOne(x, reply, mode, show), reply, mode, show)
  {
    hide PromptAndResponse;
    if reply.Refined? {
      LastIsOwn(reply.entries, x.id);
      if k :| 0 <= k < |reply.entries| && Own(reply.entries, x.id, k) {
        UpdatedKeepsMetadata(x);
        RewrittenOnce(x, reply, mode, show, k);
      }
    }
  }

  lemma UpdatedKeepsMetadata(x: Item)
    ensures forall p, r :: Updated(x, p, r).metadata == x.metadata
  {
  }

  lemma RewrittenOnce(x: Item, reply: RefineReply, mode: string, show: Show, k: nat)
    requires reply.Refined? && k < |reply.entries| && Own(reply.entries, x.id, k)
    requires Last(reply.entries, x.id) == Some(reply.entries[k].1)
    requires forall p, r :: Updated(x, p, r).metadata == x.metadata
    ensures Rewritten(x, RefineOne(x, reply, mode, show), reply.entries[k].1, mode, show)
  {
    hide PromptAndResponse, Updated, Last, Own;
    var (p, r) := PromptAndResponse(x, show);
    var given := reply.entries[k].1;
    var prompt := if mode in {"all", "prompt_only"} && given.prompt != "" then given.prompt else p;
    var response := if mode in {"all", "response_only"} then given.response else r;
    var z := Updated(x, Some(prompt), Some(response));
    assert RefineOne(x, reply, mode, show) ==
        z.(metadata := z.metadata[Key.Refined := JBool(true)][Key.RefinementInfo := given.info]);
  }

  lemma {:induction false} RefineAllAt(xs: seq<Item>, env: Env, mode: string, i: nat)
    requires i < |xs|
    ensures
      var (chunk, k) := ChunkAt(xs, 20, i);
      k < |chunk| && chunk[k] == xs[i] && RefineAll(xs, env, mode)[i] == RefineChunk(chunk, env, mode)[k]
  {
    hide RefineChunk;
    ChunkHolds(xs, 20, i);
    if i >= 20 { RefineAllAt(xs[20..], env, mode, i - 20); }
  }

  /** Rows are sent to be refined twenty at a time, in order, and each is rewritten by the reply to its own chunk. */
  lemma RefineExactly(xs: seq<Item>, env: Env, mode: string, i: nat)
    requires i < |xs|
    ensures
      var chunk := ChunkAt(xs, 20, i).0;
      var sent := RefineRecords(chunk, env.show);
      && |sent| == |chunk| && (forall j :: 0 <= j < |chunk| ==> RefineSentFor(chunk[j], sent[j], env.show))
      && RefinedBy(xs[i], RefineAll(xs, env, mode)[i], env.refine(sent, mode), mode, env.show)
  {
    hide PromptAndResponse, RefinedBy, ChunkAt, RefineAll;
    RefineAllAt(xs, env, mode, i);
    var chunk := ChunkAt(xs, 20, i).0;
    RefineOneIsBy(xs[i], env.refine(RefineRecords(chunk, env.show), mode), mode, env.show);
  }

  // ---------------------------------------------------------------------------------------
  // The stage
  // ---------------------------------------------------------------------------------------

  /** The rows that are sent to be refined. */
  predicate Weak(x: Item, cfg: Config) {
    && x.format != Raw && x.format != Custom
    && !(Key.ScoringError in x.metadata && x.metadata[Key.ScoringError].Truthy())
    && x.quality.Some? && x.quality.value.overall < cfg.refineBelow
  }

  lemma WeakExactly(x: Item, cfg: Config)
    ensures Refinable(x, cfg) <==> Weak(x, cfg)
  {
  }

  /** The weak rows, in order. */
  function WeakRows(xs: seq<Item>, cfg: Config): seq<Item> { Pick(xs, RefinableFlags(xs, cfg), true) }

  /** Weak rows are refined and then audited among themselves, each in its place; the others stay as they are. */
  lemma ImproveExactly(xs: seq<Item>, cfg: Config, env: Env, topic: Topic, i: nat)
    requires i < |xs|
    ensures RefinableFlags(xs, cfg)[i] <==> Weak(xs[i], cfg)
    ensures
      var y := Improved(xs, cfg, env, topic)[i];
      if !Weak(xs[i], cfg) then y == xs[i]
      else
        var j, again := Raised(RefinableFlags(xs, cfg), i), RefineAll(WeakRows(xs, cfg), env, cfg.refineMode);
        && j < |WeakRows(xs, cfg)| == |again| && WeakRows(xs, cfg)[j] == xs[i]
        && y == Audit(again, env, topic, cfg.auditBatch)[j]
  {
    hide Weak, Merge, Pick, Raised, Audit, RefineAll, Refinable;
    WeakExactly(xs[i], cfg);
    var flags := RefinableFlags(xs, cfg);
    PickAt(xs, flags);
    MergeAt(xs, flags, Audit(RefineAll(WeakRows(xs, cfg), env, cfg.refineMode), env, topic, cfg.auditBatch), i);
  }

  predicate ScoredAll(cfg: Config, xs: seq<Item>) {
    cfg.quality == Llm && !(cfg.strict && xs != [] && forall x :: x in xs ==> x.labels.Some?)
  }

  predicate ScoredSome(cfg: Config, xs: seq<Item>) {
    cfg.quality == Sampled && !(cfg.strict && xs != [] && forall x :: x in xs ==> x.labels.Some?)
  }

  lemma EffectiveExactly(cfg: Config, xs: seq<Item>)
    ensures EffectiveMode(cfg, xs) == Llm <==> ScoredAll(cfg, xs)
    ensures EffectiveMode(cfg, xs) == Sampled <==> ScoredSome(cfg, xs)
  {
    if cfg.strict && xs != [] && forall x :: x in xs ==> x.labels.Some? {
      forall i | 0 <= i < |xs| ensures xs[i].labels.Some? { assert xs[i] in xs; }
    }
  }

  /** What the profile says about labels, or nothing. */
  predicate TopicIs(s: State, topic: Topic) {
    if s.profile.Some? then topic.task == s.profile.value.schema.task && topic.classes == s.profile.value.schema.classes
    else topic.task == None && topic.classes == []
  }

  predicate HasScore(x: Item) {
    x.quality.Some? && !(Key.ScoringError in x.metadata && x.metadata[Key.ScoringError].Truthy())
  }

  /** The scores of a list of audited rows: one for each whose audit did not fail, in order. */
  lemma {:induction false} ScoresExactly(xs: seq<Item>, x: Item)
    ensures ScoresOf([]) == []
    ensures ScoresOf(xs + [x]) == ScoresOf(xs) + if HasScore(x) then [x.quality.value.overall] else []
  {
    if xs == [] {
      assert [] + [x] == [x] && [x][1..] == [];
    } else {
      ScoresExactly(xs[1..], x);
      assert (xs + [x])[1..] == xs[1..] + [x];
    }
  }

  lemma {:induction false} NoMoreScores(xs: seq<Item>)
    ensures |ScoresOf(xs)| <= |xs|
  {
    if xs != [] { NoMoreScores(xs[1..]); }
  }

  lemma BatchesExactly(n: nat, size: Size)
    ensures size * (Batches(n, size) - 1) < n <= size * Batches(n, size) || n == Batches(n, size) == 0
  {
    var q, r := (n + size - 1) / size, (n + size - 1) % size;
    assert n + size - 1 == size * q + r;
    assert size * (q - 1) == size * q - size;
    assert q > 0 ==> size * q >= size;
  }

  /** When every row is scored, each is audited and, if weak, improved; when some are, a sample is audited and only its
      scores are reported; else nothing is done. No row leaves. */
  lemma ScoreStageExactly(cfg: Config, env: Env, s: State)
    ensures
      var t, xs, topic := ScoreStage(cfg, env, s), s.accepted, TopicOf(s);
      && TopicIs(s, topic) && t.rejected == s.rejected
      && (ScoredAll(cfg, xs) ==>
            var audited := Audit(xs, env, topic, cfg.auditBatch);
            && t.accepted == Improved(audited, cfg, env, topic)
            && t.reports == s.reports + [AllScored(|xs|, |WeakRows(audited, cfg)|)])
      && (!ScoredAll(cfg, xs) ==> t.accepted == xs && |t.reports| == |s.reports| + 1 && s.reports <= t.reports)
      && (!ScoredAll(cfg, xs) && !ScoredSome(cfg, xs) ==> t.reports[|s.reports|] == NotScored(cfg.quality))
      && (ScoredSome(cfg, xs) ==>
            var sample := Sample(xs, cfg.sampleSize);
            var scores := ScoresOf(Audit(sample, env, topic, cfg.auditBatch));
            var remote := |Sound(sample, env)|;
            && |scores| <= |sample|
            && t.reports[|s.reports|] ==
               SampleScored(if |xs| < cfg.sampleSize then |xs| else cfg.sampleSize, |sample| - |scores|,
                            Batches(remote, cfg.auditBatch), remote, scores))
  {
    hide Audit, Improved, Sample, ScoredAll, ScoredSome, ScoresOf, Batches;
    EffectiveExactly(cfg, s.accepted);
    NoMoreScores(Audit(Sample(s.accepted, cfg.sampleSize), env, TopicOf(s), cfg.auditBatch));
  }
}
