/** `OptimizationPipeline` as the object whose fields the stages reassign, each method proved against its stage. */
module PipelineObject {
  import opened Classifier
  import Dedup
  import opened Pipeline
  import opened PipelineResume
  import opened Schemas
  import opened Sequences
  import opened Wrappers

  /** The first `n` rows divided: what one more iteration of a rejecting loop has done. */
  ghost predicate Divided(xs: seq<Item>, reasons: seq<Option<Json>>, stage: Stage, n: nat, kept: seq<Item>,
      dropped: seq<Item>) {
    && |xs| == |reasons| && n <= |xs|
    && kept == Pick(xs[..n], Leaving(reasons)[..n], false)
    && dropped == Pick(WithReasons(xs, reasons, stage)[..n], Leaving(reasons)[..n], true)
  }

  lemma DividedNext(xs: seq<Item>, reasons: seq<Option<Json>>, stage: Stage, n: nat, kept: seq<Item>,
      dropped: seq<Item>)
    requires Divided(xs, reasons, stage, n, kept, dropped) && n < |xs|
    ensures
      if reasons[n].Some? then Divided(xs, reasons, stage, n + 1, kept, dropped
          + [Rejecting(xs[n], stage, reasons[n].value)])
      else Divided(xs, reasons, stage, n + 1, kept + [xs[n]], dropped)
  {
    PickOneMore(xs, Leaving(reasons), false, n);
    PickOneMore(WithReasons(xs, reasons, stage), Leaving(reasons), true, n);
    assert kept + [] == kept && dropped + [] == dropped;
  }

  lemma DividedAll(s: State, xs: seq<Item>, reasons: seq<Option<Json>>, stage: Stage, kept: seq<Item>,
      dropped: seq<Item>)
    requires Divided(xs, reasons, stage, |xs|, kept, dropped)
    ensures Divide(s, xs, reasons, stage) == s.(accepted := kept, rejected := s.rejected + dropped)
    ensures |dropped| == Left(reasons)
  {
    assert xs[..|xs|] == xs && Leaving(reasons)[..|xs|] == Leaving(reasons);
    assert WithReasons(xs, reasons, stage)[..|xs|] == WithReasons(xs, reasons, stage);
    PickSize(reasons, WithReasons(xs, reasons, stage), Leaving(reasons), true);
  }

  /** Rows already set aside, rejected one by one. */
  lemma {:induction false} RejectEach(xs: seq<Item>, reasons: seq<Option<Json>>, stage: Stage, failed: seq<Item>,
      why: Item -> Json)
    requires |xs| == |reasons| && failed == Pick(xs, Leaving(reasons), true)
    requires forall i :: 0 <= i < |xs| && reasons[i].Some? ==> reasons[i].value == why(xs[i])
    ensures Pick(WithReasons(xs, reasons, stage), Leaving(reasons), true) ==
            seq(|failed|, i requires 0 <= i < |failed| => Rejecting(failed[i], stage, why(failed[i])))
  {
    if xs != [] {
      var n := |xs| - 1;
      assert Leaving(reasons)[..n] == Leaving(reasons[..n]);
      assert WithReasons(xs, reasons, stage)[..n] == WithReasons(xs[..n], reasons[..n], stage);
      RejectEach(xs[..n], reasons[..n], stage, Pick(xs[..n], Leaving(reasons[..n]), true), why);
    }
  }

  lemma {:induction false} ReachedAt(cfg: Config, env: Env, s: State, k: nat, stop: nat)
    requires k < stop <= |STAGES| && Steps(cfg, env, s, k).Some? && Steps(cfg, env, s, k + 1).None?
    ensures Reached(cfg, env, s, stop) == k && Steps(cfg, env, s, stop).None?
  {
    hide Step;
    if k + 1 < stop { ReachedAt(cfg, env, s, k, stop - 1); }
  }

  class OptimizationPipeline {
    const config: Config
    const env: Env
    const fingerprint: Fingerprint
    var accepted: seq<Item>
    var rejected: seq<Item>
    var completed: seq<Stage>
    var profile: Option<Profile>
    var inputRecords: nat
    var reports: seq<Report>
    /** The checkpoint file. */
    var checkpoint: Option<Checkpoint>

    ghost function Now(): State
      reads this
    {
      State(accepted, rejected, completed, profile, inputRecords, reports)
    }

    constructor (config: Config, env: Env, fingerprint: Fingerprint, checkpoint: Option<Checkpoint>)
      ensures this.config == config && this.env == env && this.fingerprint == fingerprint
      ensures this.checkpoint == checkpoint
    {
      this.config, this.env, this.fingerprint, this.checkpoint := config, env, fingerprint, checkpoint;
      accepted, rejected, completed, profile, inputRecords, reports := [], [], [], None, 0, [];
    }

    method Complete(stage: Stage, report: Report)
      modifies this`completed, this`reports
      ensures Now() == Done(old(Now()), stage, report)
    {
      completed, reports := completed + [stage], reports + [report];
    }

    method CheckRow(x: Item) returns (reason: Option<Json>)
      ensures reason == InvalidReason(x, env)
    {
      var errors := Errors(x, env);
      reason := if errors != [] then Some(JStr(JoinWith(errors))) else None;
    }

    method Reject(x: Item, stage: Stage, reason: Json)
      modifies this`rejected
      ensures rejected == old(rejected) + [Rejecting(x, stage, reason)]
    {
      rejected := rejected + [Rejecting(x, stage, reason)];
    }

    method ValidateRows()
      modifies this
      ensures Now() == ValidateStage(env, old(Now())) && checkpoint == old(checkpoint)
    {
      hide InvalidReason, Rejecting, Divide;
      var valid: seq<Item> := [];
      ghost var reasons, dropped, before := Invalid(accepted, env), [], Now();
      for i := 0 to |accepted|
        invariant rejected == before.rejected + dropped
        invariant Divided(accepted, reasons, Validation, i, valid, dropped)
        modifies this`rejected
      {
        DividedNext(accepted, reasons, Validation, i, valid, dropped);
        var item := accepted[i];
        var reason := CheckRow(item);
        assert reason == reasons[i];
        if reason.Some? {
          Reject(item, Validation, reason.value);
          dropped := dropped + [Rejecting(item, Validation, reason.value)];
        } else {
          valid := valid + [item];
        }
      }
      DividedAll(before, accepted, reasons, Validation, valid, dropped);
      accepted := valid;
      Complete(Validation, Validated(|accepted|, |rejected|));
    }

    method ScrubRows() returns (ok: bool)
      modifies this
      ensures ok == PiiStage(config, env, old(Now())).Some? && checkpoint == old(checkpoint)
      ensures ok ==> Now() == PiiStage(config, env, old(Now())).value
    {
      var policy := PiiPolicy(config, accepted);
      var enabled := config.scrubPii && policy != "off";
      if enabled {
        var only := accepted != [] && AllLabelled(accepted) && policy == "identifiers";
        accepted := ScrubAll(accepted, env, only);
      }
      if !Countable(accepted) { return false; }
      Complete(Redaction, Scrubbed(enabled, policy, Redacted(accepted)));
      return true;
    }

    method ProfileRows() returns (ok: bool)
      modifies this
      ensures ok == ProfileStage(config, env, old(Now())).Some? && checkpoint == old(checkpoint)
      ensures ok ==> Now() == ProfileStage(config, env, old(Now())).value
    {
      var made := ProfileOf(config, env, accepted);
      if made.None? { return false; }
      profile := made;
      var schema := made.value.schema;
      Complete(Profiling, Profiled(schema.applicable, schema.confidence, schema.task));
      return true;
    }

    /** Which rows the chosen method drops, by calling it. */
    method FindDuplicates(how: string) returns (kept: seq<Item>, dropped: seq<Item>)
      ensures
        var reasons := Duplicates(how, config, env, accepted);
        && kept == Pick(accepted, Leaving(AsJson(reasons)), false)
        && dropped == Pick(WithDedupReasons(accepted, reasons), Leaving(AsJson(reasons)), true)
    {
      ghost var reasons := Duplicates(how, config, env, accepted);
      ghost var flags := Leaving(AsJson(reasons));
      if how == "off" {
        kept, dropped := accepted, [];
        PickNone(accepted, flags);
        PickNone(WithDedupReasons(accepted, reasons), flags);
      } else if how == "semantic-local" {
        kept, dropped := [], [];
        var texts := Contents(accepted, env.show);
        for i := 0 to |accepted|
          invariant kept == Pick(accepted[..i], flags[..i], false)
          invariant dropped == Pick(WithDedupReasons(accepted, reasons)[..i], flags[..i], true)
        {
          PickOneMore(accepted, flags, false, i);
          PickOneMore(WithDedupReasons(accepted, reasons), flags, true, i);
          var similar := env.similar(texts, i);
          if similar.Some? {
            dropped := dropped + [Dedup.Marked(accepted[i], similar.value)];
          } else {
            kept := kept + [accepted[i]];
          }
        }
        assert accepted[..|accepted|] == accepted && flags[..|accepted|] == flags;
        assert WithDedupReasons(accepted, reasons)[..|accepted|] == WithDedupReasons(accepted, reasons);
      } else if how == "exact" {
        kept, dropped := Dedup.DeduplicateExact(accepted, env.show);
        SplitIsDivided(accepted, Dedup.Repeats(Dedup.ExactKeys(accepted, env.show)), "exact_duplicate", reasons, kept,
            dropped);
      } else {
        var reason := "minhash_near_dup (threshold " + config.thresholdText + ")";
        kept, dropped := Dedup.DeduplicateMinhash(accepted, config.threshold, reason, env.show);
        SplitIsDivided(accepted, Dedup.Drops(Dedup.Signatures(accepted, env.show), config.threshold), reason, reasons,
            kept, dropped);
      }
    }

    method RejectDuplicates(duplicates: seq<Item>) returns (marked: seq<Item>)
      ensures marked == seq(|duplicates|, i requires 0 <= i < |duplicates| =>
        Rejecting(duplicates[i], Deduplication, DedupWhy(duplicates[i], env)))
    {
      marked := [];
      for i := 0 to |duplicates|
        invariant marked == seq(i,
            j requires 0 <= j < i => Rejecting(duplicates[j], Deduplication, DedupWhy(duplicates[j], env)))
      {
        marked := marked + [Rejecting(duplicates[i], Deduplication, DedupWhy(duplicates[i], env))];
      }
    }

    method Deduplicate()
      modifies this
      ensures Now() == DedupStage(config, env, old(Now())) && checkpoint == old(checkpoint)
    {
      var how := DedupMethod(config, accepted);
      ghost var reasons, before := Duplicates(how, config, env, accepted), Now();
      var kept, duplicates := FindDuplicates(how);
      var marked := RejectDuplicates(duplicates);
      DuplicatesAreDivided(before, reasons, kept, duplicates, env);
      accepted, rejected := kept, rejected + marked;
      Complete(Deduplication, Deduplicated(how, |duplicates|));
    }

    method ScoreAndRefine()
      modifies this
      ensures Now() == ScoreStage(config, env, old(Now())) && checkpoint == old(checkpoint)
    {
      var topic := Topic(if profile.Some? then profile.value.schema.task else None,
                         if profile.Some? then profile.value.schema.classes else []);
      match EffectiveMode(config, accepted)
      case Off => Complete(Scoring, NotScored(config.quality));
      case Sampled => Complete(Scoring, SampleReport(config, env, accepted, topic));
      case Llm =>
        accepted := Audit(accepted, env, topic, config.auditBatch);
        var refinable := Pick(accepted, RefinableFlags(accepted, config), true);
        var scored := |accepted|;
        accepted := Improved(accepted, config, env, topic);
        Complete(Scoring, AllScored(scored, |refinable|));
    }

    method FilterRows()
      modifies this
      ensures Now() == FilterStage(config, env, old(Now())) && checkpoint == old(checkpoint)
    {
      var kept: seq<Item>, filtered: seq<Item> := [], [];
      var mode := EffectiveMode(config, accepted);
      if mode != Llm {
        var reason := if StrictLabelled(config, accepted) then "accuracy_contract=strict preserves labeled rows"
                      else "quality_mode=" + ModeName(mode) + " does not produce per-row scores";
        Complete(Filtering, FilterSkipped(reason, |accepted|));
        return;
      }
      ghost var reasons, before := FilterReasons(accepted, config, env), Now();
      for i := 0 to |accepted|
        invariant Now() == before && checkpoint == old(checkpoint)
        invariant Divided(accepted, reasons, Filtering, i, kept, filtered)
      {
        DividedNext(accepted, reasons, Filtering, i, kept, filtered);
        var item := accepted[i];
        var reason := FilterReason(item, config, env);
        assert reason == reasons[i];
        if reason.None? {
          kept := kept + [item];
        } else {
          filtered := filtered + [Rejecting(item, Filtering, reason.value)];
        }
      }
      DividedAll(Now(), accepted, reasons, Filtering, kept, filtered);
      accepted, rejected := kept, rejected + filtered;
      Complete(Filtering, Filtered(|accepted|, |filtered|));
    }

    /** `classify_batch`, `partition_failures`, and the rejection of the rows that failed. */
    method LabelRows(schema: Schema) returns (ok: bool)
      requires schema.Valid() && schema.applicable
      modifies this`accepted, this`rejected
      ensures ok == !BatchRaises(old(accepted), schema, env.ask, env.show)
      ensures ok ==>
        var xs := Batch(old(accepted), schema, env.ask, env.show);
        Now() == Divide(old(Now()), xs, ErrorsOf(xs), Labelling)
    {
      var labelled := ClassifyBatch(accepted, schema, env.ask, env.show);
      if labelled.None? { return false; }
      var xs := labelled.value;
      var kept, failed := PartitionFailures(xs);
      FailuresAreDivided(xs);
      var marked := RejectFailed(failed);
      accepted, rejected := kept, rejected + marked;
      return true;
    }

    method RejectFailed(failed: seq<Item>) returns (marked: seq<Item>)
      ensures marked == seq(|failed|,
          i requires 0 <= i < |failed| => Rejecting(failed[i], Labelling, ErrorJson(failed[i])))
    {
      marked := [];
      for i := 0 to |failed|
        invariant marked == seq(i, j requires 0 <= j < i => Rejecting(failed[j], Labelling, ErrorJson(failed[j])))
      {
        marked := marked + [Rejecting(failed[i], Labelling, ErrorJson(failed[i]))];
      }
    }

    method Label() returns (ok: bool)
      modifies this
      ensures ok == ClassifyStage(config, env, old(Now())).Some? && checkpoint == old(checkpoint)
      ensures ok ==> Now() == ClassifyStage(config, env, old(Now())).value
    {
      ghost var before := Now();
      var report: Report;
      if StrictLabelled(config, accepted) {
        report := Described("strict_existing_labels", None);
      } else if config.classification.NoClassification? {
        report := Described("disabled", None);
      } else if accepted != [] && AllLabelled(accepted) && config.classification.Auto? {
        report := Described("existing_labels", None);
      } else {
        var found := LabelSchema(config, env, State(accepted, rejected, completed, profile, inputRecords, reports));
        if found.None? || !found.value.Valid() { return false; }
        var schema := found.value;
        if !schema.applicable {
          report := Described("not_applicable", Some(schema));
        } else if schema.confidence < config.confidence {
          report := Described("low_confidence_skip", Some(schema));
        } else {
          var labelled := LabelRows(schema);
          if !labelled { return false; }
          report := Described("classified", Some(schema));
        }
      }
      Complete(Labelling, report);
      return true;
    }

    method Described(action: string, schema: Option<Schema>) returns (r: Report)
      ensures r == ClassifiedAs(Now(), action, schema)
    {
      var found := if profile.Some? then profile.value.schema else Schema(false, None, [], 0.0);
      if schema.Some? {
        return Classified(action, schema.value.task, schema.value.classes, schema.value.confidence);
      }
      return Classified(action, None, found.classes, found.confidence);
    }

    /** One stage and its checkpoint. A stage that raises leaves the checkpoint file alone. */
    method RunStage(stage: Stage) returns (ok: bool)
      modifies this
      ensures ok == Step(config, env, stage, old(Now())).Some?
      ensures ok ==> Now() == Step(config, env, stage, old(Now())).value
      ensures checkpoint == if ok && stage !in old(completed) then Some(Save(Now(), fingerprint)) else old(checkpoint)
    {
      if stage in completed { return true; }
      ok := true;
      match stage {
        case Validation => ValidateRows();
        case Redaction => ok := ScrubRows();
        case Profiling => ok := ProfileRows();
        case Deduplication => Deduplicate();
        case Scoring => ScoreAndRefine();
        case Filtering => FilterRows();
        case Labelling => ok := Label();
      }
      if ok { SaveCheckpoint(); }
    }

    method SaveCheckpoint()
      modifies this`checkpoint
      ensures checkpoint == Some(Save(Now(), fingerprint))
    {
      checkpoint := Some(Checkpoint(fingerprint, completed, Dicts(accepted), Dicts(rejected), profile, inputRecords,
          reports));
    }

    /** The beginning of `run`: from the checkpoint if there is one, else from the input. */
    method Begin(items: seq<Item>) returns (error: Option<LoadError>)
      modifies this
      ensures checkpoint == old(checkpoint)
      ensures
        var start := Start(checkpoint, fingerprint, items, env.show);
        if error.Some? then start == Failure(error.value) else start == Success(Now())
    {
      if checkpoint.None? {
        accepted, rejected, completed, profile, inputRecords, reports := items, [], [], None, |items|, [];
        return None;
      }
      var loaded := Load(checkpoint.value, fingerprint, env.show);
      if loaded.Failure? { return Some(loaded.error); }
      var s := loaded.value;
      accepted, rejected, completed, profile, inputRecords, reports :=
        s.accepted, s.rejected, s.completed, s.profile, s.inputRecords, s.reports;
      return None;
    }

    /** A process that runs until `stop` stages are behind it, unless a stage raises. What it leaves on disk is the
        session's checkpoint; what it holds is the state of its first stages. */
    method Run(items: seq<Item>, stop: nat) returns (ok: bool)
      requires stop <= |STAGES|
      modifies this
      ensures
        var start := Start(old(checkpoint), fingerprint, items, env.show);
        && checkpoint == PipelineResume.After(config, env, fingerprint, old(checkpoint), Session(items, stop))
        && ok == (start.Success? && Steps(config, env, start.value, stop).Some?)
        && (ok ==> Now() == Steps(config, env, start.value, stop).value)
    {
      hide Step, Start;
      var error := Begin(items);
      if error.Some? { return false; }
      ghost var start := Now();
      for k := 0 to stop
        invariant Steps(config, env, start, k) == Some(Now())
        invariant |Now().completed| >= |start.completed|
        invariant checkpoint == if |Now().completed| > |start.completed| then Some(Save(Now(), fingerprint))
            else old(checkpoint)
      {
        ghost var s := Now();
        var done := RunStage(STAGES[k]);
        if !done {
          ReachedAt(config, env, start, k, stop);
          return false;
        }
        StepCompletes(config, env, STAGES[k], s);
      }
      return true;
    }

    /** `run_file`: a whole run, whose end removes the checkpoint. */
    method RunFile(items: seq<Item>) returns (answer: Answer)
      modifies this
      ensures answer == Finished(config, env, fingerprint, old(checkpoint), items)
      ensures checkpoint == if answer != Raises then None
          else PipelineResume.After(config, env, fingerprint, old(checkpoint), Session(items, |STAGES|))
    {
      var ok := Run(items, |STAGES|);
      if !ok { return Raises; }
      checkpoint := None;
      return Answer(Dicts(accepted), Dicts(rejected), completed, profile, inputRecords, reports);
    }
  }

  lemma FailuresAreDivided(xs: seq<Item>)
    ensures Leaving(ErrorsOf(xs)) == Failures(xs)
    ensures
      var failed := Pick(xs, Failures(xs), true);
      Pick(WithReasons(xs, ErrorsOf(xs), Labelling), Failures(xs), true) ==
        seq(|failed|, i requires 0 <= i < |failed| => Rejecting(failed[i], Labelling, ErrorJson(failed[i])))
  {
    assert Leaving(ErrorsOf(xs)) == Failures(xs);
    RejectEach(xs, ErrorsOf(xs), Labelling, Pick(xs, Failures(xs), true), ErrorJson);
  }

  function ErrorJson(x: Item): Json {
    if Key.ClassificationError in x.metadata then x.metadata[Key.ClassificationError] else JNull
  }

  /** `str(item.metadata.get("dedup_reason", "duplicate"))` */
  function DedupWhy(x: Item, env: Env): Json {
    JStr(if Key.DedupReason in x.metadata then Text(x.metadata[Key.DedupReason], env.show) else "duplicate")
  }

  lemma {:induction false} MarkedPick(xs: seq<Item>, d: seq<bool>, reason: string, reasons: seq<Option<string>>)
    requires |xs| == |d| == |reasons|
    requires forall i :: 0 <= i < |xs| ==> reasons[i] == if d[i] then Some(reason) else None
    ensures Dedup.MarkAll(Pick(xs, d, true), reason) == Pick(WithDedupReasons(xs, reasons), d, true)
  {
    if xs != [] {
      var n := |xs| - 1;
      MarkedPick(xs[..n], d[..n], reason, reasons[..n]);
      assert WithDedupReasons(xs, reasons)[..n] == WithDedupReasons(xs[..n], reasons[..n]);
    }
  }

  lemma SplitIsDivided(xs: seq<Item>, d: seq<bool>, reason: string, reasons: seq<Option<string>>, kept: seq<Item>,
      dropped: seq<Item>)
    requires |reasons| == |xs| && Dedup.SplitBy(xs, d, |xs|, reason, kept, dropped)
    requires forall i :: 0 <= i < |xs| ==> reasons[i] == if d[i] then Some(reason) else None
    ensures kept == Pick(xs, Leaving(AsJson(reasons)), false)
    ensures dropped == Pick(WithDedupReasons(xs, reasons), Leaving(AsJson(reasons)), true)
  {
    assert Leaving(AsJson(reasons)) == d && xs[..|xs|] == xs && d[..|xs|] == d;
    MarkedPick(xs, d, reason, reasons);
  }

  lemma {:induction false} KeptUnmarked(xs: seq<Item>, reasons: seq<Option<string>>)
    requires |xs| == |reasons|
    ensures Pick(WithDedupReasons(xs, reasons), Leaving(AsJson(reasons)), false) ==
        Pick(xs, Leaving(AsJson(reasons)), false)
  {
    if xs != [] {
      var n := |xs| - 1;
      KeptUnmarked(xs[..n], reasons[..n]);
      assert WithDedupReasons(xs, reasons)[..n] == WithDedupReasons(xs[..n], reasons[..n]);
      assert Leaving(AsJson(reasons))[..n] == Leaving(AsJson(reasons[..n]));
    }
  }

  lemma DuplicatesAreDivided(s: State, reasons: seq<Option<string>>, kept: seq<Item>, duplicates: seq<Item>, env: Env)
    requires |reasons| == |s.accepted|
    requires kept == Pick(s.accepted, Leaving(AsJson(reasons)), false)
    requires duplicates == Pick(WithDedupReasons(s.accepted, reasons), Leaving(AsJson(reasons)), true)
    ensures |duplicates| == Left(AsJson(reasons))
    ensures Divide(s, WithDedupReasons(s.accepted, reasons), AsJson(reasons), Deduplication) ==
      s.(accepted := kept, rejected := s.rejected + seq(|duplicates|, i requires 0 <= i < |duplicates| =>
        Rejecting(duplicates[i], Deduplication, DedupWhy(duplicates[i], env))))
  {
    var xs := WithDedupReasons(s.accepted, reasons);
    DedupRejections(s.accepted, reasons, duplicates);
    KeptUnmarked(s.accepted, reasons);
    PickSize(AsJson(reasons), xs, Leaving(AsJson(reasons)), true);
    var why := (x: Item) => DedupWhy(x, env);
    RejectEach(xs, AsJson(reasons), Deduplication, duplicates, why);
    forall i | 0 <= i < |duplicates| ensures why(duplicates[i]) == DedupWhy(duplicates[i], env) { }
  }

  lemma DedupRejections(xs: seq<Item>, reasons: seq<Option<string>>, duplicates: seq<Item>)
    requires |xs| == |reasons|
    ensures forall i, env: Env :: 0 <= i < |xs| && AsJson(reasons)[i].Some? ==>
      AsJson(reasons)[i].value == DedupWhy(WithDedupReasons(xs, reasons)[i], env)
  {
  }
}
