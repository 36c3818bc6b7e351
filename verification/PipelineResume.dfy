/** Checkpoints: what is written after each stage, what is read back, and that no number of stops changes the answer. */
module PipelineResume {
  import opened ItemText
  import opened Pipeline
  import opened PipelineCongruence
  import opened Schemas
  import opened Wrappers

  /** What a fingerprint stands for: the input's bytes and the configuration (the digest is taken as injective). */
  datatype Fingerprint = Fingerprint(input: seq<nat>, config: Config)

  datatype Checkpoint = Checkpoint(fingerprint: Fingerprint, completed: seq<Stage>, accepted: seq<Dict>,
                                   rejected: seq<Dict>, profile: Option<Profile>, inputRecords: nat,
                                   reports: seq<Report>)

  datatype LoadError = OtherRun | BadRow

  function Save(s: State, f: Fingerprint): Checkpoint {
    Checkpoint(f, s.completed, Dicts(s.accepted), Dicts(s.rejected), s.profile, s.inputRecords, s.reports)
  }

  function Parsed(rows: seq<Dict>, show: Show): Result<seq<Item>, LoadError> {
    if rows == [] then Success([])
    else
      var n := |rows| - 1;
      var front, last := Parsed(rows[..n], show), FromDict(rows[n], n, show, "new");
      if front.Failure? || last.Failure? then Failure(BadRow) else Success(front.value + [last.value])
  }

  /** `_load_checkpoint` and the first lines of `run`. */
  function Load(c: Checkpoint, f: Fingerprint, show: Show): Result<State, LoadError> {
    var accepted, rejected := Parsed(c.accepted, show), Parsed(c.rejected, show);
    if c.fingerprint != f then Failure(OtherRun)
    else if accepted.Failure? || rejected.Failure? then Failure(BadRow)
    else Success(State(accepted.value, rejected.value, c.completed, c.profile, c.inputRecords, c.reports))
  }

  // ---------------------------------------------------------------------------------------
  // Saving and loading
  // ---------------------------------------------------------------------------------------

  ghost predicate Sound(x: Item) { WellFormed(x) && x.format != Custom }

  ghost predicate AllSound(xs: seq<Item>) { forall i {:trigger Sound(xs[i])} :: 0 <= i < |xs| ==> Sound(xs[i]) }

  lemma SavedAlike(s: State, t: State, f: Fingerprint)
    requires Alike(s, t)
    ensures Save(s, f) == Save(t, f)
  {
    DictsLike(s.accepted, t.accepted);
    DictsLike(s.rejected, t.rejected);
  }

  lemma DictsLike(xs: seq<Item>, ys: seq<Item>)
    requires AllLike(xs, ys)
    ensures Dicts(xs) == Dicts(ys)
  {
    forall i | 0 <= i < |xs| ensures Dicts(xs)[i] == Dicts(ys)[i] {
      assert Like(xs[i], ys[i]);
      SameSerialises(xs[i], ys[i]);
    }
  }

  lemma ParsedLike(x: Item, uid: int, show: Show)
    requires Sound(x)
    ensures FromDict(ToDict(x), uid, show, "new").Success? && Like(FromDict(ToDict(x), uid, show, "new").value, x)
  {
    RoundTrip(x, uid, show, "new");
  }

  lemma {:induction false} ParsedRows(rows: seq<Dict>, xs: seq<Item>, show: Show)
    requires |rows| == |xs|
    requires forall i :: 0 <= i < |xs| ==> FromDict(rows[i], i, show, "new") == Success(xs[i])
    ensures Parsed(rows, show) == Success(xs)
  {
    if xs != [] {
      var n := |xs| - 1;
      ParsedRows(rows[..n], xs[..n], show);
      assert xs == xs[..n] + [xs[n]];
    }
  }

  predicate Readable(rows: seq<Dict>, show: Show) {
    forall i :: 0 <= i < |rows| ==> FromDict(rows[i], i, show, "new").Success?
  }

  lemma {:induction false} ParsedExactly(rows: seq<Dict>, show: Show)
    ensures Parsed(rows, show).Success? <==> Readable(rows, show)
    ensures Parsed(rows, show).Failure? ==> Parsed(rows, show).error == BadRow
    ensures Parsed(rows, show).Success? ==>
      && |Parsed(rows, show).value| == |rows|
      && forall i :: 0 <= i < |rows| ==> FromDict(rows[i], i, show, "new") == Success(Parsed(rows, show).value[i])
  {
    hide FromDict;
    if rows != [] {
      ParsedExactly(rows[..|rows| - 1], show);
      assert forall i :: 0 <= i < |rows| - 1 ==> rows[..|rows| - 1][i] == rows[i];
    }
  }

  /** A checkpoint is refused exactly when it belongs to another input or configuration, or a row in it does not parse;
      otherwise the run goes on with just what was saved. */
  lemma LoadExactly(c: Checkpoint, f: Fingerprint, show: Show)
    ensures
      var t := Load(c, f, show);
      && (t == Failure(OtherRun) <==> c.fingerprint != f)
      && (t == Failure(BadRow) <==> c.fingerprint == f && !(Readable(c.accepted, show) && Readable(c.rejected, show)))
      && (t.Success? ==>
            && t.value.completed == c.completed && t.value.profile == c.profile
            && t.value.inputRecords == c.inputRecords && t.value.reports == c.reports
            && |t.value.accepted| == |c.accepted| && |t.value.rejected| == |c.rejected|
            && (forall i :: 0 <= i < |c.accepted| ==>
                FromDict(c.accepted[i], i, show, "new") == Success(t.value.accepted[i]))
            && forall i :: 0 <= i < |c.rejected| ==>
                FromDict(c.rejected[i], i, show, "new") == Success(t.value.rejected[i]))
  {
    hide FromDict, Parsed, Readable;
    ParsedExactly(c.accepted, show);
    ParsedExactly(c.rejected, show);
  }

  lemma ReadBack(xs: seq<Item>, show: Show)
    requires AllSound(xs)
    ensures Parsed(Dicts(xs), show).Success? && AllLike(Parsed(Dicts(xs), show).value, xs)
  {
    forall i | 0 <= i < |xs|
      ensures FromDict(ToDict(xs[i]), i, show, "new").Success?
      ensures Like(FromDict(ToDict(xs[i]), i, show, "new").value, xs[i])
    {
      assert Sound(xs[i]);
      ParsedLike(xs[i], i, show);
    }
    var ys := seq(|xs|, i requires 0 <= i < |xs| && FromDict(ToDict(xs[i]), i, show, "new").Success? =>
      FromDict(ToDict(xs[i]), i, show, "new").value);
    ParsedRows(Dicts(xs), ys, show);
    forall i | 0 <= i < |xs| ensures Like(ys[i], xs[i]) { }
  }

  lemma LikeItself(xs: seq<Item>)
    requires AllSound(xs)
    ensures AllLike(xs, xs)
  {
    forall i | 0 <= i < |xs| ensures Like(xs[i], xs[i]) { assert Sound(xs[i]); }
  }

  lemma SoundWhenLike(xs: seq<Item>, ys: seq<Item>)
    requires AllLike(xs, ys)
    ensures AllSound(xs) && AllSound(ys)
  {
    forall i | 0 <= i < |xs| ensures Sound(xs[i]) && Sound(ys[i]) { assert Like(xs[i], ys[i]); }
  }

  ghost predicate SoundState(s: State) { AllSound(s.accepted) && AllSound(s.rejected) }

  lemma LoadSaved(s: State, f: Fingerprint, show: Show)
    requires SoundState(s)
    ensures Load(Save(s, f), f, show).Success? && Alike(Load(Save(s, f), f, show).value, s)
  {
    ReadBack(s.accepted, show);
    ReadBack(s.rejected, show);
  }

  // ---------------------------------------------------------------------------------------
  // The uninterrupted run
  // ---------------------------------------------------------------------------------------

  lemma {:induction false} StepsComplete(cfg: Config, env: Env, items: seq<Item>, k: nat)
    requires k <= |STAGES| && Steps(cfg, env, Initial(items), k).Some?
    ensures Steps(cfg, env, Initial(items), k).value.completed == STAGES[..k]
  {
    if k > 0 {
      StepsComplete(cfg, env, items, k - 1);
      StepsCompleteNext(cfg, env, Steps(cfg, env, Initial(items), k - 1).value, k);
    }
  }

  lemma ValidateSound(env: Env, s: State)
    requires SoundState(s)
    ensures SoundState(ValidateStage(env, s))
  {
    LikeItself(s.accepted);
    LikeItself(s.rejected);
    DivideLike(s, s, s.accepted, s.accepted, Invalid(s.accepted, env), Validation);
    var t := ValidateStage(env, s);
    SoundWhenLike(t.accepted, t.accepted);
    SoundWhenLike(t.rejected, t.rejected);
  }

  lemma StepSound(cfg: Config, env: Env, stage: Stage, s: State)
    requires SoundState(s) && Step(cfg, env, stage, s).Some? && (stage != Validation ==> Validation in s.completed)
    ensures SoundState(Step(cfg, env, stage, s).value)
  {
    if stage == Validation {
      if stage !in s.completed { ValidateSound(env, s); }
    } else {
      LikeItself(s.accepted);
      LikeItself(s.rejected);
      StepLike(cfg, env, stage, s, s);
      var t := Step(cfg, env, stage, s).value;
      SoundWhenLike(t.accepted, t.accepted);
      SoundWhenLike(t.rejected, t.rejected);
    }
  }

  lemma {:induction false} StepsSound(cfg: Config, env: Env, items: seq<Item>, k: nat)
    requires AllSound(items) && k <= |STAGES| && Steps(cfg, env, Initial(items), k).Some?
    ensures SoundState(Steps(cfg, env, Initial(items), k).value)
  {
    if k > 0 {
      StepsSound(cfg, env, items, k - 1);
      StepsComplete(cfg, env, items, k - 1);
      if k > 1 { assert Validation == STAGES[..k - 1][0]; }
      StepSound(cfg, env, STAGES[k - 1], Steps(cfg, env, Initial(items), k - 1).value);
    }
  }

  // ---------------------------------------------------------------------------------------
  // Resuming
  // ---------------------------------------------------------------------------------------

  /** Stages already completed are skipped. */
  lemma {:induction false} SkippedSteps(cfg: Config, env: Env, j: nat, r: State, k: nat)
    requires k <= j <= |STAGES| && r.completed == STAGES[..j]
    ensures Steps(cfg, env, r, k) == Some(r)
  {
    if k > 0 {
      SkippedSteps(cfg, env, j, r, k - 1);
      assert STAGES[k - 1] == STAGES[..j][k - 1];
    }
  }

  /** From a state like the one after `j` stages, the first `k` stages lead to a state like the one after the more of
      the two, or raise exactly when the uninterrupted run does. */
  lemma {:induction false} ResumedSteps(cfg: Config, env: Env, items: seq<Item>, j: nat, r: State, k: nat)
    requires 0 < j <= |STAGES| && k <= |STAGES|
    requires Steps(cfg, env, Initial(items), j).Some? && Alike(r, Steps(cfg, env, Initial(items), j).value)
    ensures
      var there, here := Steps(cfg, env, Initial(items), if j < k then k else j), Steps(cfg, env, r, k);
      there.Some? == here.Some? && (there.Some? ==> Alike(here.value, there.value))
  {
    StepsComplete(cfg, env, items, j);
    assert r.completed == STAGES[..j];
    hide Step, Alike;
    if k <= j {
      SkippedSteps(cfg, env, j, r, k);
    } else {
      ResumedSteps(cfg, env, items, j, r, k - 1);
      var here, there := Steps(cfg, env, r, k - 1), Steps(cfg, env, Initial(items), k - 1);
      if here.Some? { ResumedStep(cfg, env, items, k, here.value, there.value); }
    }
  }

  lemma ResumedStep(cfg: Config, env: Env, items: seq<Item>, k: nat, here: State, there: State)
    requires 1 < k <= |STAGES| && Steps(cfg, env, Initial(items), k - 1) == Some(there) && Alike(here, there)
    ensures
      var a, b := Step(cfg, env, STAGES[k - 1], here), Step(cfg, env, STAGES[k - 1], there);
      a.Some? == b.Some? && (a.Some? ==> Alike(a.value, b.value))
  {
    StepsComplete(cfg, env, items, k - 1);
    assert Validation == STAGES[..k - 1][0];
    StepLike(cfg, env, STAGES[k - 1], here, there);
  }

  /** A stop: the process starts, perhaps from a checkpoint, and dies once the first `stop` stages are behind it, or
      earlier if one of them raises. `items` is what it read from the input. */
  datatype Session = Session(items: seq<Item>, stop: nat)

  /** How far the process gets. */
  function Reached(cfg: Config, env: Env, s: State, k: nat): (r: nat)
    requires k <= |STAGES|
    ensures r <= k && Steps(cfg, env, s, r).Some?
  {
    if Steps(cfg, env, s, k).Some? then k else Reached(cfg, env, s, k - 1)
  }

  /** Where a process starts: at the checkpoint if there is one, else at its input. */
  function Start(c: Option<Checkpoint>, f: Fingerprint, items: seq<Item>, show: Show): Result<State, LoadError> {
    if c.None? then Success(Initial(items)) else Load(c.value, f, show)
  }

  /** The checkpoint after a session: the one saved after the last stage it completed, if it completed any. */
  function After(cfg: Config, env: Env, f: Fingerprint, c: Option<Checkpoint>, session: Session): Option<Checkpoint> {
    var start := Start(c, f, session.items, env.show);
    if start.Failure? then c
    else
      var k := Reached(cfg, env, start.value, if session.stop <= |STAGES| then session.stop else |STAGES|);
      var s := Steps(cfg, env, start.value, k).value;
      if |s.completed| > |start.value.completed| then Some(Save(s, f)) else c
  }

  function AfterAll(cfg: Config, env: Env, f: Fingerprint, sessions: seq<Session>): Option<Checkpoint> {
    if sessions == [] then None
    else After(cfg, env, f, AfterAll(cfg, env, f, sessions[..|sessions| - 1]), sessions[|sessions| - 1])
  }

  /** The input that counts: that of the session which wrote the first checkpoint, or of the last process. */
  function Base(cfg: Config, env: Env, f: Fingerprint, sessions: seq<Session>, items: seq<Item>): seq<Item> {
    if sessions == [] then items
    else
      var n := |sessions| - 1;
      if AfterAll(cfg, env, f, sessions[..n]).Some? then Base(cfg, env, f, sessions[..n], items)
      else if AfterAll(cfg, env, f, sessions).Some? then sessions[n].items
      else items
  }

  /** What a run answers: the rows as it writes them, the stage reports and the profile, or that it raises. */
  datatype Answer = Raises | Answer(accepted: seq<Dict>, rejected: seq<Dict>, completed: seq<Stage>,
                                    profile: Option<Profile>, inputRecords: nat, reports: seq<Report>)

  function AnswerOf(s: Option<State>): Answer {
    if s.None? then Raises
    else Answer(Dicts(s.value.accepted), Dicts(s.value.rejected), s.value.completed, s.value.profile,
        s.value.inputRecords, s.value.reports)
  }

  function Finished(cfg: Config, env: Env, f: Fingerprint, c: Option<Checkpoint>, items: seq<Item>): Answer {
    var start := Start(c, f, items, env.show);
    if start.Failure? then Raises else AnswerOf(Steps(cfg, env, start.value, |STAGES|))
  }

  /** The checkpoint is the one an uninterrupted run over `items` saves after some stage. */
  ghost predicate SavedBy(cfg: Config, env: Env, f: Fingerprint, c: Checkpoint, items: seq<Item>, j: nat) {
    0 < j <= |STAGES| && Steps(cfg, env, Initial(items), j).Some? &&
        c == Save(Steps(cfg, env, Initial(items), j).value, f)
  }

  lemma SessionKeepsCheckpoint(cfg: Config, env: Env, f: Fingerprint, c: Checkpoint, base: seq<Item>, j: nat,
      session: Session)
    returns (k: nat)
    requires AllSound(base) && SavedBy(cfg, env, f, c, base, j)
    ensures After(cfg, env, f, Some(c), session).Some?
    ensures SavedBy(cfg, env, f, After(cfg, env, f, Some(c), session).value, base, k)
  {
    var there := Steps(cfg, env, Initial(base), j).value;
    StepsSound(cfg, env, base, j);
    LoadSaved(there, f, env.show);
    var r := Load(c, f, env.show).value;
    var m := Reached(cfg, env, r, if session.stop <= |STAGES| then session.stop else |STAGES|);
    ResumedSteps(cfg, env, base, j, r, m);
    k := if |Steps(cfg, env, r, m).value.completed| > |r.completed| && j < m then m else j;
    StepsComplete(cfg, env, base, if j < m then m else j);
    SavedAlike(Steps(cfg, env, r, m).value, Steps(cfg, env, Initial(base), if j < m then m else j).value, f);
  }

  lemma FirstCheckpoint(cfg: Config, env: Env, f: Fingerprint, session: Session) returns (k: nat)
    requires After(cfg, env, f, None, session).Some?
    ensures SavedBy(cfg, env, f, After(cfg, env, f, None, session).value, session.items, k)
  {
    k := Reached(cfg, env, Initial(session.items), if session.stop <= |STAGES| then session.stop else |STAGES|);
    StepsComplete(cfg, env, session.items, k);
  }

  lemma {:induction false} CheckpointIsTheRuns(cfg: Config, env: Env, f: Fingerprint, sessions: seq<Session>,
      items: seq<Item>)
    returns (j: nat)
    requires forall i :: 0 <= i < |sessions| ==> AllSound(sessions[i].items)
    requires AfterAll(cfg, env, f, sessions).Some?
    ensures AllSound(Base(cfg, env, f, sessions, items))
    ensures SavedBy(cfg, env, f, AfterAll(cfg, env, f, sessions).value, Base(cfg, env, f, sessions, items), j)
  {
    var n := |sessions| - 1;
    var before := AfterAll(cfg, env, f, sessions[..n]);
    if before.Some? {
      var i := CheckpointIsTheRuns(cfg, env, f, sessions[..n], items);
      j := SessionKeepsCheckpoint(cfg, env, f, before.value, Base(cfg, env, f, sessions[..n], items), i, sessions[n]);
    } else {
      j := FirstCheckpoint(cfg, env, f, sessions[n]);
    }
  }

  /** Crash and resume: however often the process stops, and after whatever stages, the last one answers as a run that
      never stopped. For rows of the four typed formats. */
  lemma CrashesDoNotMatter(cfg: Config, env: Env, f: Fingerprint, sessions: seq<Session>, items: seq<Item>)
    requires AllSound(items) && forall i :: 0 <= i < |sessions| ==> AllSound(sessions[i].items)
    ensures Finished(cfg, env, f, AfterAll(cfg, env, f, sessions), items)
         == Finished(cfg, env, f, None, Base(cfg, env, f, sessions, items))
  {
    var c, base := AfterAll(cfg, env, f, sessions), Base(cfg, env, f, sessions, items);
    if c.Some? {
      var j := CheckpointIsTheRuns(cfg, env, f, sessions, items);
      StepsSound(cfg, env, base, j);
      LoadSaved(Steps(cfg, env, Initial(base), j).value, f, env.show);
      var r := Load(c.value, f, env.show).value;
      ResumedSteps(cfg, env, base, j, r, |STAGES|);
      var here, there := Steps(cfg, env, r, |STAGES|), Steps(cfg, env, Initial(base), |STAGES|);
      if here.Some? {
        DictsLike(here.value.accepted, there.value.accepted);
        DictsLike(here.value.rejected, there.value.rejected);
      }
    } else if sessions != [] {
      NoCheckpointNoBase(cfg, env, f, sessions, items);
    }
  }

  lemma {:induction false} NoCheckpointNoBase(cfg: Config, env: Env, f: Fingerprint, sessions: seq<Session>,
      items: seq<Item>)
    requires AfterAll(cfg, env, f, sessions).None?
    ensures Base(cfg, env, f, sessions, items) == items
  {
    if sessions != [] {
      KeepsSome(cfg, env, f, AfterAll(cfg, env, f, sessions[..|sessions| - 1]), sessions[|sessions| - 1]);
    }
  }

  lemma KeepsSome(cfg: Config, env: Env, f: Fingerprint, c: Option<Checkpoint>, session: Session)
    ensures c.Some? ==> After(cfg, env, f, c, session).Some?
  {
  }

  // ---------------------------------------------------------------------------------------
  // What resuming does change
  // ---------------------------------------------------------------------------------------

  const CANDIDATES := {Key.TextColumn, Key.Other("content"), Key.Query, Key.Prompt, Key.Instruction, Key.Input,
      Key.Messages}

  /** `_text_fields`: the candidate columns some raw row has. */
  function TextFields(raws: seq<Dict>): set<Key> {
    set k | k in CANDIDATES && exists i :: 0 <= i < |raws| && k in raws[i]
  }

  function Raws(xs: seq<Item>): seq<Dict> { seq(|xs|, i requires 0 <= i < |xs| => xs[i].raw) }

  /** `restored` are the raw rows after a round trip. */
  ghost predicate Restored(xs: seq<Item>, restored: seq<Dict>, show: Show) {
    |restored| == |xs| && forall i {:trigger Sound(xs[i])} :: 0 <= i < |xs| ==>
      FromDict(ToDict(xs[i]), i, show, "new").Success? &&
          restored[i] == FromDict(ToDict(xs[i]), i, show, "new").value.raw
  }

  lemma RestoredRaw(x: Item, uid: int, show: Show)
    requires Sound(x)
    ensures FromDict(ToDict(x), uid, show, "new").Success?
    ensures FromDict(ToDict(x), uid, show, "new").value.raw == x.raw + BodyDict(BodyOf(x)) + LabelDict(x.labels)
  {
    RoundTrip(x, uid, show, "new");
  }

  /** The profile's text columns are read off the raw rows, to which a round trip adds every text column of the format:
      a profile made after resuming lists the same columns exactly when each such column was in some raw row already. */
  lemma ResumedTextFields(xs: seq<Item>, restored: seq<Dict>, show: Show)
    requires AllSound(xs) && Restored(xs, restored, show)
    ensures TextFields(restored) == TextFields(Raws(xs)) <==> Written(xs) * CANDIDATES <= TextFields(Raws(xs))
  {
    forall k: Key | k in CANDIDATES
      ensures k in TextFields(restored) <==> k in TextFields(Raws(xs)) || k in Written(xs)
    {
      RestoredField(xs, restored, show, k);
    }
  }

  /** The columns that serialising these rows writes for their texts. */
  function Written(xs: seq<Item>): set<Key> { set i, k | 0 <= i < |xs| && k in BodyDict(BodyOf(xs[i])) :: k }

  lemma RestoredField(xs: seq<Item>, restored: seq<Dict>, show: Show, k: Key)
    requires AllSound(xs) && Restored(xs, restored, show) && k in CANDIDATES
    ensures k in TextFields(restored) <==> k in TextFields(Raws(xs)) || k in Written(xs)
  {
    forall i | 0 <= i < |xs| ensures k in restored[i] <==> k in xs[i].raw || k in BodyDict(BodyOf(xs[i])) {
      assert Sound(xs[i]);
      RestoredRaw(xs[i], i, show);
      assert k !in LabelDict(xs[i].labels);
    }
    if i :| 0 <= i < |xs| && k in xs[i].raw { assert k in Raws(xs)[i] && k in restored[i]; }
    if i :| 0 <= i < |xs| && k in BodyDict(BodyOf(xs[i])) { assert k in restored[i]; }
    if i :| 0 <= i < |restored| && k in restored[i] { assert k in xs[i].raw ==> k in Raws(xs)[i]; }
  }

  const LABEL_FIELDS := [Key.LabelsColumn, Key.Label, Key.Category, Key.Target]

  predicate SomeHas(raws: seq<Dict>, k: Key) { exists i :: 0 <= i < |raws| && k in raws[i] }

  /** `_label_field`: the first label column some raw row has. */
  function LabelField(raws: seq<Dict>): Option<Key> {
    if SomeHas(raws, Key.LabelsColumn) then Some(Key.LabelsColumn)
    else if SomeHas(raws, Key.Label) then Some(Key.Label)
    else if SomeHas(raws, Key.Category) then Some(Key.Category)
    else if SomeHas(raws, Key.Target) then Some(Key.Target)
    else None
  }

  lemma RestoredLabelKey(x: Item, d: Dict, k: Key)
    requires d == x.raw + BodyDict(BodyOf(x)) + LabelDict(x.labels) && k in LABEL_FIELDS
    ensures k in d <==> k in x.raw || (k == Key.LabelsColumn && x.labels.Some?)
  {
  }

  lemma RestoredLabelColumn(xs: seq<Item>, restored: seq<Dict>, show: Show, k: Key)
    requires AllSound(xs) && Restored(xs, restored, show) && k in LABEL_FIELDS
    ensures SomeHas(restored, k) <==>
            SomeHas(Raws(xs), k) || (k == Key.LabelsColumn && exists i :: 0 <= i < |xs| && xs[i].labels.Some?)
  {
    forall i | 0 <= i < |xs|
      ensures k in restored[i] <==> k in Raws(xs)[i] || (k == Key.LabelsColumn && xs[i].labels.Some?)
    {
      assert Sound(xs[i]);
      RestoredRaw(xs[i], i, show);
      RestoredLabelKey(xs[i], restored[i], k);
    }
  }

  /** The label column a profile stores: only when some label has a text. */
  function ProfiledLabelField(labels: seq<Option<Labels>>, raws: seq<Dict>, show: Show): Option<Key> {
    if FlattenLabels(labels, show).0 == {} then None else LabelField(raws)
  }

  lemma {:induction false} NoLabelsNoClasses(labels: seq<Option<Labels>>, show: Show)
    requires forall i :: 0 <= i < |labels| ==> labels[i].None?
    ensures FlattenLabels(labels, show).0 == {}
  {
    if labels != [] { NoLabelsNoClasses(labels[..|labels| - 1], show); }
  }

  /** The profile's label column survives a resumption exactly when no label has a text or some raw row had the column
      that serialising writes labels to. */
  lemma ResumedLabelField(xs: seq<Item>, restored: seq<Dict>, show: Show)
    requires AllSound(xs) && Restored(xs, restored, show)
    ensures ProfiledLabelField(LabelsOfAll(xs), restored, show) == ProfiledLabelField(LabelsOfAll(xs), Raws(xs), show)
       <==> FlattenLabels(LabelsOfAll(xs), show).0 == {} || SomeHas(Raws(xs), Key.LabelsColumn)
  {
    RestoredLabelColumn(xs, restored, show, LABEL_FIELDS[0]);
    RestoredLabelColumn(xs, restored, show, LABEL_FIELDS[1]);
    RestoredLabelColumn(xs, restored, show, LABEL_FIELDS[2]);
    RestoredLabelColumn(xs, restored, show, LABEL_FIELDS[3]);
    if forall i :: 0 <= i < |xs| ==> xs[i].labels.None? { NoLabelsNoClasses(LabelsOfAll(xs), show); }
  }

  /** An input for which the text columns change: a row without an input column comes back with an empty one. */
  lemma ResumedTextFieldsExample(show: Show)
    ensures
      var raw := map[Key.Instruction := JStr("a"), Key.Output := JStr("b")];
      var x := Item(0, "a", Alpaca, Some("a"), None, Some("b"), None, None, None, None, None, None, map[], None, raw);
      && FromDict(ToDict(x), 0, show, "new").Success?
      && Key.Input in TextFields([FromDict(ToDict(x), 0, show, "new").value.raw]) && Key.Input !in TextFields([raw])
  {
    var raw := map[Key.Instruction := JStr("a"), Key.Output := JStr("b")];
    var x := Item(0, "a", Alpaca, Some("a"), None, Some("b"), None, None, None, None, None, None, map[], None, raw);
    assert Sound(x);
    RestoredRaw(x, 0, show);
    var restored := FromDict(ToDict(x), 0, show, "new").value.raw;
    assert Key.Input in BodyDict(BodyOf(x)) && Key.Input in [restored][0];
    assert forall i :: 0 <= i < |[raw]| ==> Key.Input !in [raw][i];
  }

  /** An input for which the label column changes: a class given in a column of its own comes back as a label. */
  lemma ResumedLabelFieldExample(show: Show)
    ensures
      var raw := map[Key.TextColumn := JStr("a"), Key.Category := JStr("b")];
      var x := Item(0, "a", Raw, None, None, None, None, Some("a"), None, None, None, Some(One(AStr("b"))), map[], None,
                    raw);
      && FromDict(ToDict(x), 0, show, "new").Success?
      && ProfiledLabelField([x.labels], [raw], show) == Some(Key.Category)
      && ProfiledLabelField([x.labels], [FromDict(ToDict(x), 0, show, "new").value.raw], show) == Some(Key.LabelsColumn)
  {
    hide FromDict, ToDict, FlattenLabels, SomeHas;
    var raw := map[Key.TextColumn := JStr("a"), Key.Category := JStr("b")];
    var x := Item(0, "a", Raw, None, None, None, None, Some("a"), None, None, None, Some(One(AStr("b"))), map[], None,
                  raw);
    assert Sound(x);
    RestoredRaw(x, 0, show);
    var d := FromDict(ToDict(x), 0, show, "new").value.raw;
    RestoredLabelKey(x, d, Key.LabelsColumn);
    OneRow(d, Key.LabelsColumn);
    OneRow(raw, Key.LabelsColumn);
    OneRow(raw, Key.Label);
    OneRow(raw, Key.Category);
    OneClass(x.labels, show);
  }

  lemma OneRow(d: Dict, k: Key)
    ensures SomeHas([d], k) <==> k in d
  {
    assert [d][0] == d;
  }

  lemma OneClass(labels: Option<Labels>, show: Show)
    requires labels == Some(One(AStr("b")))
    ensures FlattenLabels([labels], show).0 != {}
  {
    assert AtomText(AStr("b"), show) == Strip("b") == "b";
    assert LabelTexts(labels.value, show) == Nonblank(["b"]) == ["b"] + Nonblank([]);
    assert [labels][..0] == [] && "b" in FlattenLabels([labels], show).0;
  }
}
