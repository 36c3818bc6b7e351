/** The strict accuracy contract: what such a run keeps, and exactly when the contract holds as it is described. */
module PipelineStrict {
  import opened Classifier
  import opened ItemText
  import opened Pipeline
  import opened PipelineConservation
  import opened Sampling
  import opened Schemas
  import opened Sequences
  import opened Wrappers

  function Valid(items: seq<Item>, env: Env): seq<Item> { Pick(items, Leaving(Invalid(items, env)), false) }

  function Refused(items: seq<Item>, env: Env): seq<Item> {
    Pick(WithReasons(items, Invalid(items, env), Validation), Leaving(Invalid(items, env)), true)
  }

  // ---------------------------------------------------------------------------------------
  // When profiling needs the provider
  // ---------------------------------------------------------------------------------------

  /** The rows show neither a class nor a generative format, so that a text, if there is one, goes to the provider. */
  predicate Undecided(xs: seq<Item>, show: Show) {
    xs != [] && FlattenLabels(LabelsOfAll(xs), show).0 == {} && PrimaryFormat(xs) !in {Alpaca, Chat, Dpo}
  }

  /** The texts that profiling sends, given the size of the sample; no call is made if there are none. */
  function Sent(xs: seq<Item>, size: SampleSize, show: Show): seq<string> {
    if Undecided(xs, show) then Shown(Texts(Sample(xs, size), show)) else []
  }

  /** The provider is not asked, or answers. */
  predicate Profiles(cfg: Config, env: Env, xs: seq<Item>) {
    var texts := Sent(xs, cfg.classificationSample, env.show);
    texts == [] || env.detect(texts, None, []).Some?
  }

  lemma ProfilesExactly(cfg: Config, env: Env, xs: seq<Item>)
    ensures ProfileOf(cfg, env, xs).Some? <==> Profiles(cfg, env, xs)
  {
  }

  // ---------------------------------------------------------------------------------------
  // Every stage of a strict run over labelled rows
  // ---------------------------------------------------------------------------------------

  /** The stage goes through and leaves every row where and as it is. */
  ghost predicate Untouched(s: State, t: Option<State>, stage: Stage) {
    t.Some? && t.value.accepted == s.accepted && t.value.rejected == s.rejected
    && t.value.completed == s.completed + [stage]
  }

  lemma StrictStep(cfg: Config, env: Env, stage: Stage, s: State)
    requires StrictLabelled(cfg, s.accepted) && stage !in s.completed && stage != Validation
    requires Countable(s.accepted) && Profiles(cfg, env, s.accepted)
    ensures Untouched(s, Step(cfg, env, stage, s), stage)
  {
    match stage
    case Redaction => assert Untouched(s, PiiStage(cfg, env, s), stage);
    case Profiling => ProfileUntouched(cfg, env, s);
    case Deduplication => DedupUntouched(cfg, env, s);
    case Scoring => assert Untouched(s, Some(ScoreStage(cfg, env, s)), stage);
    case Filtering => assert Untouched(s, Some(FilterStage(cfg, env, s)), stage);
    case Labelling => assert Untouched(s, ClassifyStage(cfg, env, s), stage);
  }

  lemma ProfileUntouched(cfg: Config, env: Env, s: State)
    requires Profiles(cfg, env, s.accepted)
    ensures Untouched(s, ProfileStage(cfg, env, s), Profiling)
  {
    ProfilesExactly(cfg, env, s.accepted);
  }

  lemma DedupUntouched(cfg: Config, env: Env, s: State)
    requires DedupMethod(cfg, s.accepted) == "off"
    ensures Untouched(s, Some(DedupStage(cfg, env, s)), Deduplication)
  {
    var xs, reasons := s.accepted, Duplicates("off", cfg, env, s.accepted);
    assert WithDedupReasons(xs, reasons) == xs;
    PickNone(xs, Leaving(AsJson(reasons)));
    PickNone(WithReasons(xs, AsJson(reasons), Deduplication), Leaving(AsJson(reasons)));
    assert s.rejected + [] == s.rejected;
  }

  lemma FirstStep(cfg: Config, env: Env, items: seq<Item>)
    ensures Steps(cfg, env, Initial(items), 1) == Some(ValidateStage(env, Initial(items)))
    ensures
      var t := ValidateStage(env, Initial(items));
      t.accepted == Valid(items, env) && t.rejected == Refused(items, env) && t.completed == STAGES[..1]
  {
    assert Steps(cfg, env, Initial(items), 0) == Some(Initial(items));
    assert [] + Refused(items, env) == Refused(items, env);
  }

  /** What a strict run holds after `k` stages. */
  ghost predicate StrictState(t: State, env: Env, items: seq<Item>, k: nat)
    requires k <= |STAGES|
  {
    t.accepted == Valid(items, env) && t.rejected == Refused(items, env) && t.completed == STAGES[..k]
  }

  /** Nothing stops a strict run. */
  ghost predicate Runs(cfg: Config, env: Env, valid: seq<Item>) {
    StrictLabelled(cfg, valid) && Countable(valid) && Profiles(cfg, env, valid)
  }

  lemma StrictNext(cfg: Config, env: Env, items: seq<Item>, k: nat, s: State)
    requires 1 < k <= |STAGES| && Runs(cfg, env, Valid(items, env)) && StrictState(s, env, items, k - 1)
    ensures
      var t := Step(cfg, env, STAGES[k - 1], s);
      t.Some? && StrictState(t.value, env, items, k)
  {
    hide Step, Valid, Refused, Profiles, Countable, StrictLabelled;
    NextStage(k);
    StrictStep(cfg, env, STAGES[k - 1], s);
  }

  lemma {:induction false} StrictSteps(cfg: Config, env: Env, items: seq<Item>, k: nat)
    requires 0 < k <= |STAGES| && Runs(cfg, env, Valid(items, env))
    ensures
      var t := Steps(cfg, env, Initial(items), k);
      t.Some? && StrictState(t.value, env, items, k)
  {
    hide Step, Valid, Refused, ValidateStage, Profiles, Countable, StrictLabelled;
    if k == 1 {
      FirstStep(cfg, env, items);
    } else {
      StrictSteps(cfg, env, items, k - 1);
      StrictNext(cfg, env, items, k, Steps(cfg, env, Initial(items), k - 1).value);
    }
  }

  // ---------------------------------------------------------------------------------------
  // What stops a run
  // ---------------------------------------------------------------------------------------

  lemma {:induction false} NoneStays(cfg: Config, env: Env, s: State, j: nat, k: nat)
    requires j <= k <= |STAGES| && Steps(cfg, env, s, j).None?
    ensures Steps(cfg, env, s, k).None?
  {
    if j < k { NoneStays(cfg, env, s, j, k - 1); }
  }

  /** No redaction takes place. */
  predicate Unscrubbed(cfg: Config, xs: seq<Item>) { !cfg.scrubPii || StrictLabelled(cfg, xs) }

  lemma PiiUntouched(cfg: Config, env: Env, s: State)
    requires Unscrubbed(cfg, s.accepted)
    ensures PiiStage(cfg, env, s).Some? <==> Countable(s.accepted)
    ensures Countable(s.accepted) ==> Untouched(s, PiiStage(cfg, env, s), Redaction)
  {
  }

  lemma SecondStep(cfg: Config, env: Env, items: seq<Item>)
    requires Unscrubbed(cfg, Valid(items, env))
    ensures Steps(cfg, env, Initial(items), 2).Some? <==> Countable(Valid(items, env))
    ensures Countable(Valid(items, env)) ==>
      var t := Steps(cfg, env, Initial(items), 2).value;
      t.accepted == Valid(items, env) && t.completed == STAGES[..2]
  {
    hide Valid, PiiStage, ValidateStage, Countable;
    FirstStep(cfg, env, items);
    PiiUntouched(cfg, env, ValidateStage(env, Initial(items)));
    NextStage(2);
  }

  lemma ThirdStep(cfg: Config, env: Env, s: State)
    requires s.completed == STAGES[..2]
    ensures Step(cfg, env, STAGES[2], s).Some? <==> Profiles(cfg, env, s.accepted)
  {
    NextStage(3);
    ProfilesExactly(cfg, env, s.accepted);
  }

  /** With redaction off, a valid row whose redaction record is no dictionary stops the run at the second stage. */
  lemma UncountableStops(cfg: Config, env: Env, items: seq<Item>)
    requires !Countable(Valid(items, env)) && Unscrubbed(cfg, Valid(items, env))
    ensures Steps(cfg, env, Initial(items), |STAGES|).None?
  {
    SecondStep(cfg, env, items);
    NoneStays(cfg, env, Initial(items), 2, |STAGES|);
  }

  /** A provider that is asked and fails stops it at the third. */
  lemma UnprofiledStops(cfg: Config, env: Env, items: seq<Item>)
    requires !Profiles(cfg, env, Valid(items, env)) && Unscrubbed(cfg, Valid(items, env))
    ensures Steps(cfg, env, Initial(items), |STAGES|).None?
  {
    hide Step, Valid, Profiles, Countable;
    SecondStep(cfg, env, items);
    if Countable(Valid(items, env)) { ThirdStep(cfg, env, Steps(cfg, env, Initial(items), 2).value); }
    NoneStays(cfg, env, Initial(items), 3, |STAGES|);
  }

  /** Under the strict contract, when every valid row is labelled, the run finishes exactly when every valid row's
      redaction record can be counted and the provider answers the profiling call, should there be one; then it accepts
      exactly the valid rows, unchanged in every field, and rejects exactly the invalid ones. */
  lemma StrictKeepsValidRows(cfg: Config, env: Env, items: seq<Item>)
    requires StrictLabelled(cfg, Valid(items, env))
    ensures Steps(cfg, env, Initial(items), |STAGES|).Some? <==>
            Countable(Valid(items, env)) && Profiles(cfg, env, Valid(items, env))
    ensures
      var t := Steps(cfg, env, Initial(items), |STAGES|);
      t.Some? ==> t.value.accepted == Valid(items, env) && t.value.rejected == Refused(items, env)
  {
    if !Countable(Valid(items, env)) {
      UncountableStops(cfg, env, items);
    } else if !Profiles(cfg, env, Valid(items, env)) {
      UnprofiledStops(cfg, env, items);
    } else {
      StrictSteps(cfg, env, items, |STAGES|);
    }
  }

  // ---------------------------------------------------------------------------------------
  // Where the strict contract falls short of its description: one row without a label
  // ---------------------------------------------------------------------------------------

  /** A strict configuration that scores every row and labels none. */
  const SCORING := Config(true, false, "identifiers", "off", 1.0, "1.0", Llm, 50, 20, 8.0, "all", 7.0,
                          NoClassification, [], 0.75, 100)

  /** The same environment with a provider whose audits fail. */
  function Failing(env: Env): Env { env.(audit := (records, task, classes) => AuditFailed("unavailable")) }

  /** The filter will reject this row: it could not be scored, or failed the rules. */
  predicate Doomed(x: Item) { HasScoringError(x) || (x.quality.Some? && x.quality.value.overall < SCORING.filterMin) }

  predicate AllDoomed(xs: seq<Item>) { forall i {:trigger xs[i]} :: 0 <= i < |xs| ==> Doomed(xs[i]) }

  lemma {:induction false} RemoteAuditFails(xs: seq<Item>, env: Env, topic: Topic, size: Size)
    ensures AllDoomed(AuditRemote(xs, Failing(env), topic, size))
    decreases |xs|
  {
    if |xs| > size {
      RemoteAuditFails(xs[size..], env, topic, size);
      assert AllDoomed(AuditChunk(xs[..size], Failing(env), topic));
    }
  }

  lemma {:induction false} MergeDoomed(xs: seq<Item>, flags: seq<bool>, ys: seq<Item>)
    requires |xs| == |flags| && |ys| == |Pick(xs, flags, true)| && AllDoomed(ys)
    requires forall i :: 0 <= i < |xs| && !flags[i] ==> Doomed(xs[i])
    ensures AllDoomed(Merge(xs, flags, ys))
  {
    if xs != [] {
      var n := |xs| - 1;
      MergeDoomed(xs[..n], flags[..n], if flags[n] then ys[..|ys| - 1] else ys);
    }
  }

  lemma AuditFails(xs: seq<Item>, env: Env, topic: Topic, size: Size)
    ensures AllDoomed(Audit(xs, Failing(env), topic, size))
  {
    var e := Failing(env);
    var passing, checked := Passing(xs, e), RuleChecked(xs, e);
    PickSize(xs, checked, passing, true);
    RemoteAuditFails(Pick(xs, passing, true), env, topic, size);
    MergeDoomed(checked, passing, AuditRemote(Pick(xs, passing, true), e, topic, size));
  }

  /** Whatever refining does, its rows are audited again. */
  lemma ScoringFailsAll(env: Env, s: State)
    requires !AllLabelled(s.accepted)
    ensures AllDoomed(ScoreStage(SCORING, Failing(env), s).accepted)
  {
    var e, topic, size := Failing(env), TopicOf(s), SCORING.auditBatch;
    var audited := Audit(s.accepted, e, topic, size);
    AuditFails(s.accepted, env, topic, size);
    var flags := RefinableFlags(audited, SCORING);
    var refined := RefineAll(Pick(audited, flags, true), e, SCORING.refineMode);
    AuditFails(refined, env, topic, size);
    MergeDoomed(audited, flags, Audit(refined, e, topic, size));
  }

  lemma FilteringDropsAll(env: Env, s: State)
    requires Lost(s.accepted)
    ensures FilterStage(SCORING, env, s).accepted == []
  {
    var reasons := FilterReasons(s.accepted, SCORING, env);
    PickEvery(s.accepted, Leaving(reasons));
  }

  /** The contract does not apply to these rows, and the filter drops them all. */
  predicate Lost(xs: seq<Item>) { AllDoomed(xs) && !AllLabelled(xs) }

  /** What the run holds after `k` stages, none of them scoring. */
  ghost predicate Lapsing(s: State, env: Env, items: seq<Item>, k: nat)
    requires k <= |STAGES|
  {
    s.completed == STAGES[..k] && s.accepted == Valid(items, env)
  }

  /** The stages before scoring leave the rows alone, and so does the last. */
  lemma LapsingQuietly(env: Env, stage: Stage, s: State)
    requires stage in {Redaction, Profiling, Deduplication} && stage !in s.completed
    requires Countable(s.accepted) && Profiles(SCORING, env, s.accepted)
    ensures Untouched(s, Step(SCORING, Failing(env), stage, s), stage)
  {
    match stage
    case Redaction => PiiUntouched(SCORING, Failing(env), s);
    case Profiling => ProfileUntouched(SCORING, Failing(env), s);
    case _ => DedupUntouched(SCORING, Failing(env), s);
  }

  lemma LapsingLabels(env: Env, s: State)
    requires Labelling !in s.completed
    ensures Untouched(s, Step(SCORING, Failing(env), Labelling, s), Labelling)
  {
  }

  lemma LapsingScore(env: Env, s: State)
    requires Scoring !in s.completed && !AllLabelled(s.accepted)
    ensures
      var t := Step(SCORING, Failing(env), Scoring, s);
      t.Some? && Lost(t.value.accepted)
  {
    hide ScoreStage;
    ScoringFailsAll(env, s);
    ScoreKeepsTraits(SCORING, Failing(env), s);
    SameTraits(ScoreStage(SCORING, Failing(env), s).accepted, s.accepted);
  }

  lemma LapsingValidate(env: Env, s: State)
    requires s.completed == []
    ensures
      var t := Step(SCORING, Failing(env), Validation, s);
      t.Some? && t.value.accepted == Valid(s.accepted, env)
  {
    assert Invalid(s.accepted, Failing(env)) == Invalid(s.accepted, env);
  }

  lemma LapsingFilter(env: Env, s: State)
    requires Filtering !in s.completed && Lost(s.accepted)
    ensures
      var t := Step(SCORING, Failing(env), Filtering, s);
      t.Some? && t.value.accepted == []
  {
    FilteringDropsAll(Failing(env), s);
  }

  lemma {:induction false} LapsingSteps(env: Env, items: seq<Item>, k: nat)
    requires 0 < k <= 4
    requires Countable(Valid(items, env)) && Profiles(SCORING, env, Valid(items, env))
    ensures
      var s := Steps(SCORING, Failing(env), Initial(items), k);
      s.Some? && Lapsing(s.value, env, items, k)
  {
    hide Step, Valid, Profiles, Countable;
    var e := Failing(env);
    NextStage(k);
    if k == 1 {
      LapsingValidate(env, Initial(items));
      StepsCompleteNext(SCORING, e, Initial(items), k);
    } else {
      LapsingSteps(env, items, k - 1);
      var s := Steps(SCORING, e, Initial(items), k - 1).value;
      LapsingQuietly(env, STAGES[k - 1], s);
      StepsCompleteNext(SCORING, e, s, k);
    }
  }

  lemma LapsingRun(env: Env, items: seq<Item>)
    requires Countable(Valid(items, env)) && Profiles(SCORING, env, Valid(items, env))
    requires !AllLabelled(Valid(items, env))
    ensures
      var t := Steps(SCORING, Failing(env), Initial(items), |STAGES|);
      t.Some? && t.value.accepted == []
  {
    hide Step, Valid, Profiles, Countable, AllLabelled, Lost;
    var e := Failing(env);
    LapsingSteps(env, items, 4);
    var s := Steps(SCORING, e, Initial(items), 4).value;
    NextStage(5);
    LapsingScore(env, s);
    StepsCompleteNext(SCORING, e, s, 5);
    var t := Steps(SCORING, e, Initial(items), 5).value;
    NextStage(6);
    LapsingFilter(env, t);
    StepsCompleteNext(SCORING, e, t, 6);
    NextStage(7);
    LapsingLabels(env, Steps(SCORING, e, Initial(items), 6).value);
  }

  /** With one valid row that is not labelled, the contract lapses for the whole dataset: under this configuration and a
      provider whose audits fail every labelled valid row is lost. */
  lemma StrictLapses(env: Env, items: seq<Item>, x: Item)
    requires !AllLabelled(Valid(items, env)) && x in Valid(items, env) && x.labels.Some?
    ensures SCORING.strict && !Kept(x, Steps(SCORING, Failing(env), Initial(items), |STAGES|), env.show)
  {
    assert Invalid(items, Failing(env)) == Invalid(items, env);
    if !Profiles(SCORING, env, Valid(items, env)) {
      UnprofiledStops(SCORING, Failing(env), items);
    } else if !Countable(Valid(items, env)) {
      UncountableStops(SCORING, Failing(env), items);
    } else {
      LapsingRun(env, items);
    }
  }

  // ---------------------------------------------------------------------------------------
  // Exactly when it holds
  // ---------------------------------------------------------------------------------------

  /** The run finished with a row of the same identity, labels and classification text among the accepted ones. */
  ghost predicate Kept(x: Item, t: Option<State>, show: Show) {
    t.Some? && exists y :: y in t.value.accepted && y.uid == x.uid && y.labels == x.labels
                           && ClassificationText(y, show) == ClassificationText(x, show)
  }

  /** What the configuration describes: every valid labelled row is kept, with its labels and its text. */
  ghost predicate KeepsLabelled(cfg: Config, env: Env, items: seq<Item>) {
    var t := Steps(cfg, env, Initial(items), |STAGES|);
    forall x :: x in Valid(items, env) && x.labels.Some? ==> Kept(x, t, env.show)
  }

  /** Environments that validate rows alike. */
  ghost predicate Agree(env: Env, e: Env, items: seq<Item>) {
    e.show == env.show && Invalid(items, e) == Invalid(items, env)
  }

  /** No sample is sent to the provider, of whatever size. */
  ghost predicate NothingSent(xs: seq<Item>, show: Show) { forall n: SampleSize :: Sent(xs, n, show) == [] }

  lemma StrictKeepsWhen(cfg: Config, env: Env, items: seq<Item>)
    requires cfg.strict && AllLabelled(Valid(items, env)) && Countable(Valid(items, env))
    requires NothingSent(Valid(items, env), env.show)
    ensures KeepsLabelled(cfg, env, items)
  {
    assert Sent(Valid(items, env), cfg.classificationSample, env.show) == [];
    if Valid(items, env) != [] { StrictKeepsValidRows(cfg, env, items); }
  }

  /** The same environment with a provider that cannot be asked for a schema. */
  function Unavailable(env: Env): Env { env.(detect := (texts, task, classes) => None) }

  /** A sample that is sent is a way to lose every row. */
  lemma StrictStops(env: Env, items: seq<Item>, n: SampleSize)
    requires Sent(Valid(items, env), n, env.show) != []
    ensures Steps(SCORING.(classificationSample := n), Unavailable(env), Initial(items), |STAGES|).None?
  {
    assert Invalid(items, Unavailable(env)) == Invalid(items, env);
    UnprofiledStops(SCORING.(classificationSample := n), Unavailable(env), items);
  }

  /** The strict contract does what it is described to do, under every strict configuration and every provider, exactly
      when no valid row is labelled, or all of them are, their redaction records can be counted, and profiling them
      sends nothing to the provider. */
  lemma StrictContractExactly(env: Env, items: seq<Item>)
    ensures (forall cfg: Config, e: Env {:trigger KeepsLabelled(cfg, e, items)} ::
               cfg.strict && Agree(env, e, items) ==> KeepsLabelled(cfg, e, items))
       <==> ((forall x :: x in Valid(items, env) ==> x.labels.None?)
             || (AllLabelled(Valid(items, env)) && Countable(Valid(items, env))
                 && NothingSent(Valid(items, env), env.show)))
  {
    var valid := Valid(items, env);
    if x :| x in valid && x.labels.Some? {
      if !AllLabelled(valid) {
        StrictLapses(env, items, x);
        Fails(env, Failing(env), items, SCORING, x);
      } else if !Countable(valid) {
        UncountableStops(SCORING, env, items);
        Fails(env, env, items, SCORING, x);
      } else if n: SampleSize :| Sent(valid, n, env.show) != [] {
        StrictStops(env, items, n);
        Fails(env, Unavailable(env), items, SCORING.(classificationSample := n), x);
      } else {
        forall cfg: Config, e: Env | cfg.strict && Agree(env, e, items) ensures KeepsLabelled(cfg, e, items) {
          StrictKeepsWhen(cfg, e, items);
        }
      }
    }
  }

  lemma Fails(env: Env, e: Env, items: seq<Item>, cfg: Config, x: Item)
    requires cfg.strict && x in Valid(items, env) && x.labels.Some?
    requires e == env || e == Failing(env) || e == Unavailable(env)
    requires !Kept(x, Steps(cfg, e, Initial(items), |STAGES|), env.show)
    ensures Agree(env, e, items) && !KeepsLabelled(cfg, e, items)
  {
    hide Steps;
    assert Invalid(items, e) == Invalid(items, env);
  }

  // ---------------------------------------------------------------------------------------
  // Inputs for which it fails
  // ---------------------------------------------------------------------------------------

  /** A raw row with a text and, perhaps, a label. */
  function RawRow(uid: int, mark: Option<string>): Item {
    Item(uid, "a", Raw, None, None, None, None, Some("text"), None, None, None,
         if mark.Some? then Some(One(AStr(mark.value))) else None, map[], None, map[])
  }

  lemma RawRowIsValid(x: Item, env: Env)
    requires x.format == Raw && x.text == Some("text") && env.plugins(x) == []
    ensures InvalidReason(x, env) == None
  {
    assert Errors(x, env) == [];
  }

  lemma AllValid(xs: seq<Item>, env: Env)
    requires forall i :: 0 <= i < |xs| ==> InvalidReason(xs[i], env) == None
    ensures Valid(xs, env) == xs
  {
    PickNone(xs, Leaving(Invalid(xs, env)));
  }

  lemma LabelDecides(x: Item, y: Item, env: Env)
    requires x.labels == Some(One(AStr("yes"))) && y.labels == None
    ensures !Undecided([x, y], env.show)
  {
    var labels := LabelsOfAll([x, y]);
    assert labels == [x.labels, y.labels] && labels[..1] == [x.labels] && [x.labels][..0] == [];
    assert Strip("yes") == "yes" && Nonblank(["yes"]) == ["yes"];
    assert "yes" in FlattenLabels([x.labels], env.show).0;
  }

  lemma PairIsNotAllLabelled(x: Item, y: Item, env: Env)
    requires x.labels == Some(One(AStr("yes"))) && y.labels == None && x.metadata == y.metadata == map[]
    ensures !AllLabelled([x, y]) && Countable([x, y]) && Profiles(SCORING, env, [x, y])
  {
    LabelDecides(x, y, env);
    assert [x, y][1] == y;
  }

  /** Two valid rows, one of them labelled, and nothing accepted. */
  lemma StrictLapsesExample(env: Env)
    requires forall x :: env.plugins(x) == []
    ensures
      var items := [RawRow(0, Some("yes")), RawRow(1, None)];
      var t := Steps(SCORING, Failing(env), Initial(items), |STAGES|);
      Valid(items, env) == items && t.Some? && t.value.accepted == []
  {
    hide Steps, Step;
    var x, y := RawRow(0, Some("yes")), RawRow(1, None);
    RawRowIsValid(x, env);
    RawRowIsValid(y, env);
    AllValid([x, y], env);
    PairIsNotAllLabelled(x, y, env);
    LapsingRun(env, [x, y]);
  }

  lemma BlankLabelIsUndecided(x: Item, env: Env)
    requires x == RawRow(0, Some(""))
    ensures Undecided([x], env.show)
  {
    var labels := LabelsOfAll([x]);
    assert labels == [x.labels] && labels[..0] == [];
    assert Strip("") == "";
    assert AtomText(AStr(""), env.show) == "";
    assert LabelTexts(One(AStr("")), env.show) == Nonblank([""]) == Nonblank([]);
    assert FlattenLabels(labels, env.show).0 == {};
  }

  lemma BlankLabelSends(x: Item, env: Env)
    requires x == RawRow(0, Some(""))
    ensures Sent([x], 100, env.show) == ["text"]
  {
    BlankLabelIsUndecided(x, env);
    assert Sample([x], 100) == [x] && Texts([x], env.show) == ["text"];
    assert Strip("text") == "text";
    assert Truncate("text") == "text";
    assert Shown(["text"]) == ["text"] + Shown([]);
  }

  /** One valid row with an empty label under the strict contract: it is labelled and its redaction record can be
      counted, but the provider is asked for a schema, and the run ends when it does not answer. */
  lemma StrictStopsExample(env: Env)
    requires forall x :: env.plugins(x) == []
    ensures
      var items := [RawRow(0, Some(""))];
      && Valid(items, env) == items && StrictLabelled(SCORING, items) && Countable(items)
      && Steps(SCORING, Unavailable(env), Initial(items), |STAGES|) == None
  {
    hide Steps, Step;
    var x := RawRow(0, Some(""));
    RawRowIsValid(x, env);
    AllValid([x], env);
    BlankLabelSends(x, env);
    StrictStops(env, [x], 100);
  }
}
