/** The seven stages as functions of the run's state. Everything foreign (plugins, redaction, provider replies, sorting)
    is a member of `Env`: arbitrary, but fixed for the run and every resumption of it. */
module Pipeline {
  import opened Classifier
  import opened Dedup
  import opened ItemText
  import opened Sampling
  import opened Schemas
  import opened Sequences
  import opened Wrappers

  // ---------------------------------------------------------------------------------------
  // What the stages call
  // ---------------------------------------------------------------------------------------

  type Score = q: Quality | InRange(q) witness Quality(0.0, 0.0, 0.0, 0.0, 0.0, true, [], "")

  type Checked = s: Schema | s.Valid() witness Schema(false, None, [], 0.0)

  datatype AuditRecord = AuditRecord(id: string, prompt: string, response: string, labels: Option<Labels>)
  datatype AuditReply = Scores(entries: seq<(string, Score)>) | AuditFailed(message: string)

  datatype Refinement = Refinement(prompt: string, response: string, info: Json)
  datatype RefineReply = Refined(entries: seq<(string, Refinement)>) | RefineFailed(message: string)

  /** How often each kind of entity was found. */
  type Found = multiset<string>

  datatype Env = Env(
    show: Show,
    twoDigits: real -> string,
    sorted: set<string> -> seq<string>,
    plugins: Item -> seq<string>,
    scrub: (bool, string) -> (string, Found),
    scrubRow: (bool, Dict) -> (Dict, Found),
    rules: (string, string) -> seq<string>,
    audit: (seq<AuditRecord>, Option<Task>, seq<string>) -> AuditReply,
    refine: (seq<(string, string, string)>, string) -> RefineReply,
    similar: (seq<string>, nat) -> Option<string>,
    detect: (seq<string>, Option<Task>, seq<string>) -> Option<Checked>,
    ask: Ask)

  datatype QualityMode = Llm | Sampled | Off
  datatype ClassificationMode = Auto | NoClassification | Force(task: Task)

  type Size = n: nat | n > 0 witness 1

  type SampleSize = n: nat | 1 <= n <= 1000 witness 1

  datatype Config = Config(
    strict: bool, scrubPii: bool, piiMode: string, dedup: string, threshold: real, thresholdText: string,
    quality: QualityMode, sampleSize: Size, auditBatch: Size, refineBelow: real, refineMode: string, filterMin: real,
    classification: ClassificationMode, classes: seq<string>, confidence: real, classificationSample: SampleSize)

  // ---------------------------------------------------------------------------------------
  // State
  // ---------------------------------------------------------------------------------------

  datatype Stage = Validation | Redaction | Profiling | Deduplication | Scoring | Filtering | Labelling

  const STAGES := [Validation, Redaction, Profiling, Deduplication, Scoring, Filtering, Labelling]

  function Name(s: Stage): string {
    match s
    case Validation => "validate"
    case Redaction => "pii"
    case Profiling => "profile"
    case Deduplication => "dedup"
    case Scoring => "score_refine"
    case Filtering => "filter"
    case Labelling => "classify"
  }

  datatype Profile = Profile(format: Format, rowCount: nat, schema: Schema, sampledIds: seq<string>)

  /** `metrics["stages"][stage]` */
  datatype Report =
    | Validated(accepted: nat, rejected: nat)
    | Scrubbed(enabled: bool, policy: string, redacted: nat)
    | Profiled(applicable: bool, confidence: real, task: Option<Task>)
    | Deduplicated(how: string, rejected: nat)
    | NotScored(mode: QualityMode)
    | SampleScored(requested: nat, failed: nat, batches: nat, records: nat, scores: seq<real>)
    | AllScored(scored: nat, refined: nat)
    | FilterSkipped(reason: string, accepted: nat)
    | Filtered(accepted: nat, rejected: nat)
    | Classified(action: string, task: Option<Task>, classes: seq<string>, confidence: real)

  datatype State = State(accepted: seq<Item>, rejected: seq<Item>, completed: seq<Stage>, profile: Option<Profile>,
                         inputRecords: nat, reports: seq<Report>)

  function Initial(items: seq<Item>): State { State(items, [], [], None, |items|, []) }

  predicate AllLabelled(xs: seq<Item>) { forall i :: 0 <= i < |xs| ==> xs[i].labels.Some? }

  predicate StrictLabelled(cfg: Config, xs: seq<Item>) { cfg.strict && xs != [] && AllLabelled(xs) }

  function Rejecting(x: Item, stage: Stage, reason: Json): Item {
    x.(metadata := x.metadata[Key.Rejection := JObj(map[Key.Stage := JStr(Name(stage)), Key.Reason := reason])])
  }

  /** Rows with a reason leave `accepted` and end `rejected`; `xs` are the accepted rows as the stage changed them. */
  function Divide(s: State, xs: seq<Item>, reasons: seq<Option<Json>>, stage: Stage): State
    requires |xs| == |reasons|
  {
    s.(accepted := Pick(xs, Leaving(reasons), false),
       rejected := s.rejected + Pick(WithReasons(xs, reasons, stage), Leaving(reasons), true))
  }

  function Leaving(reasons: seq<Option<Json>>): seq<bool> {
    seq(|reasons|, i requires 0 <= i < |reasons| => reasons[i].Some?)
  }

  function WithReasons(xs: seq<Item>, reasons: seq<Option<Json>>, stage: Stage): seq<Item>
    requires |xs| == |reasons|
  {
    seq(|xs|, i requires 0 <= i < |xs| => if reasons[i].Some? then Rejecting(xs[i], stage, reasons[i].value) else xs[i])
  }

  function Left(reasons: seq<Option<Json>>): nat { |Pick(reasons, Leaving(reasons), true)| }

  function Done(s: State, stage: Stage, report: Report): State {
    s.(completed := s.completed + [stage], reports := s.reports + [report])
  }

  // ---------------------------------------------------------------------------------------
  // validate
  // ---------------------------------------------------------------------------------------

  function JoinWith(parts: seq<string>): string {
    if parts == [] then "" else if |parts| == 1 then parts[0] else parts[0] + "; " + JoinWith(parts[1..])
  }

  function Errors(x: Item, env: Env): seq<string> {
    var (p, r) := PromptAndResponse(x, env.show);
    (if p == "" && r == "" && ClassificationText(x, env.show) == ""
     then ["Missing usable text, instruction, prompt, or messages content."] else [])
    + (if x.format == Alpaca && Txt(x.instruction) != "" && Txt(x.output) == ""
       then ["Instruction format detected but output is missing."] else [])
    + (if x.format == Chat && x.messages.GetOr([]) == [] then ["Chat format detected but messages is empty."] else [])
    + env.plugins(x)
  }

  function InvalidReason(x: Item, env: Env): Option<Json> {
    var errors := Errors(x, env);
    if errors != [] then Some(JStr(JoinWith(errors))) else None
  }

  function Invalid(xs: seq<Item>, env: Env): (r: seq<Option<Json>>)
    ensures |r| == |xs|
  {
    seq(|xs|, i requires 0 <= i < |xs| => InvalidReason(xs[i], env))
  }

  function ValidateStage(env: Env, s: State): State {
    var t := Divide(s, s.accepted, Invalid(s.accepted, env), Validation);
    Done(t, Validation, Validated(|t.accepted|, |t.rejected|))
  }

  // ---------------------------------------------------------------------------------------
  // pii
  // ---------------------------------------------------------------------------------------

  function ScrubText(t: Option<string>, env: Env, identifiersOnly: bool): (Option<string>, Found) {
    if t.None? then (None, multiset{})
    else if t.value == "" then (t, multiset{})
    else
      var (r, f) := env.scrub(identifiersOnly, t.value);
      (Some(r), f)
  }

  function ScrubMessages(ms: seq<Message>, env: Env, identifiersOnly: bool): (seq<Message>, Found) {
    if ms == [] then ([], multiset{})
    else
      var (text, f) := ScrubText(Some(ms[0].content), env, identifiersOnly);
      var (rest, g) := ScrubMessages(ms[1..], env, identifiersOnly);
      ([ms[0].(content := Txt(text))] + rest, f + g)
  }

  function FoundJson(f: Found): Json {
    JObj(map[Key.Other("scrubbed") := JBool(true),
             Key.Other("entity_counts") := JObj(map e | e in f :: Key.Other(e) := JNum(f[e] as real))])
  }

  function WithFound(x: Item, f: Found): Item { x.(metadata := x.metadata[Key.Pii := FoundJson(f)]) }

  function ScrubItem(x: Item, env: Env, only: bool): Item {
    match x.format
    case Alpaca =>
      var (a, f), (b, g), (c, h) :=
          ScrubText(x.instruction, env, only), ScrubText(x.input, env, only), ScrubText(x.output, env, only);
      WithFound(x.(instruction := a, input := b, output := c), f + g + h)
    case Chat =>
      var (ms, f) := ScrubMessages(x.messages.GetOr([]), env, only);
      WithFound(x.(messages := Some(ms)), f)
    case Dpo =>
      var (a, f), (b, g), (c, h) :=
          ScrubText(x.prompt, env, only), ScrubText(x.chosen, env, only), ScrubText(x.rejected, env, only);
      WithFound(x.(prompt := a, chosen := b, rejected := c), f + g + h)
    case Raw =>
      var (a, f) := ScrubText(x.text, env, only);
      WithFound(x.(text := a), f)
    case Custom =>
      var (row, f) := env.scrubRow(only, x.raw);
      WithFound(x.(raw := row), f)
  }

  function ScrubAll(xs: seq<Item>, env: Env, only: bool): (ys: seq<Item>)
    ensures |ys| == |xs|
  {
    seq(|xs|, i requires 0 <= i < |xs| => ScrubItem(xs[i], env, only))
  }

  /** `item.metadata.get("pii", {}).get("entity_counts")`, or nothing when there is no dictionary to look in. */
  function EntityCounts(x: Item): Option<Json> {
    if Key.Pii !in x.metadata then Some(JNull)
    else if !x.metadata[Key.Pii].JObj? then None
    else
      var d := x.metadata[Key.Pii].fields;
      Some(if Key.Other("entity_counts") in d then d[Key.Other("entity_counts")] else JNull)
  }

  predicate Countable(xs: seq<Item>) { forall i :: 0 <= i < |xs| ==> EntityCounts(xs[i]).Some? }

  function Redacted(xs: seq<Item>): nat {
    if xs == [] then 0
    else
      var n := |xs| - 1;
      var c := EntityCounts(xs[n]);
      Redacted(xs[..n]) + if c.Some? && c.value.Truthy() then 1 else 0
  }

  function PiiPolicy(cfg: Config, xs: seq<Item>): string {
    if StrictLabelled(cfg, xs) then "off" else if xs != [] && AllLabelled(xs) then cfg.piiMode else "all"
  }

  function PiiStage(cfg: Config, env: Env, s: State): Option<State> {
    var policy := PiiPolicy(cfg, s.accepted);
    var enabled := cfg.scrubPii && policy != "off";
    var only := s.accepted != [] && AllLabelled(s.accepted) && policy == "identifiers";
    var xs := if enabled then ScrubAll(s.accepted, env, only) else s.accepted;
    if !Countable(xs) then None
    else Some(Done(s.(accepted := xs), Redaction, Scrubbed(enabled, policy, Redacted(xs))))
  }

  // ---------------------------------------------------------------------------------------
  // profile
  // ---------------------------------------------------------------------------------------

  function AtomText(a: Atom, show: Show): string {
    Strip(match a case AStr(s) => s case AInt(i) => show(JNum(i as real)))
  }

  function LabelTexts(l: Labels, show: Show): seq<string> {
    match l
    case One(a) => Nonblank([AtomText(a, show)])
    case Many(xs) => Nonblank(seq(|xs|, i requires 0 <= i < |xs| => AtomText(xs[i], show)))
  }

  function Nonblank(texts: seq<string>): seq<string> {
    if texts == [] then [] else (if texts[0] != "" then [texts[0]] else []) + Nonblank(texts[1..])
  }

  /** `_flatten_labels`: the distinct label texts, and whether some row has several. */
  function FlattenLabels(labels: seq<Option<Labels>>, show: Show): (set<string>, bool) {
    if labels == [] then ({}, false)
    else
      var n := |labels| - 1;
      var (values, multiple) := FlattenLabels(labels[..n], show);
      if labels[n].None? then (values, multiple)
      else
        var clean := LabelTexts(labels[n].value, show);
        (values + (set t | t in clean), multiple || (labels[n].value.Many? && |clean| > 1))
  }

  function LabelsOfAll(xs: seq<Item>): seq<Option<Labels>> { seq(|xs|, i requires 0 <= i < |xs| => xs[i].labels) }

  function Texts(xs: seq<Item>, show: Show): seq<string> {
    seq(|xs|, i requires 0 <= i < |xs| => ClassificationText(xs[i], show))
  }

  function Ids(xs: seq<Item>): seq<string> { seq(|xs|, i requires 0 <= i < |xs| => xs[i].id) }

  /** The texts shown to the provider: not blank, cut to 4000 characters. */
  function Shown(texts: seq<string>): seq<string> {
    if texts == [] then []
    else (if Strip(texts[0]) != "" then [Truncate(texts[0])] else []) + Shown(texts[1..])
  }

  function PrimaryFormat(xs: seq<Item>): Format
    requires xs != []
  {
    if forall i :: 0 <= i < |xs| ==> xs[i].format == xs[0].format then xs[0].format else Custom
  }

  /** The schema that existing labels imply. */
  function Implied(classes: seq<string>, multiple: bool): Schema {
    var task := if multiple then Some(MultiLabel) else if |classes| == 2 then Some(Binary)
                else if |classes| > 2 then Some(MultiClass) else None;
    Schema(task.Some?, task, classes, if task.Some? then 1.0 else 0.4)
  }

  /** The schema the provider is asked for, if it has to be; `None` when the provider raises. */
  function ProfileSchema(cfg: Config, env: Env, xs: seq<Item>): Option<Schema>
    requires xs != []
  {
    var (values, multiple) := FlattenLabels(LabelsOfAll(xs), env.show);
    var texts := Shown(Texts(Sample(xs, cfg.classificationSample), env.show));
    if values != {} then Some(Implied(env.sorted(values), multiple))
    else if PrimaryFormat(xs) in {Alpaca, Chat, Dpo} then Some(Schema(false, None, [], 0.99))
    else if texts == [] then Some(Schema(false, None, [], 1.0))
    else env.detect(texts, None, [])
  }

  /** What the profile of no rows is, and of some. */
  function ProfileOf(cfg: Config, env: Env, xs: seq<Item>): Option<Profile> {
    if xs == [] then Some(Profile(Custom, 0, Schema(false, None, [], 1.0), []))
    else
      var schema := ProfileSchema(cfg, env, xs);
      if schema.None? then None
      else Some(Profile(PrimaryFormat(xs), |xs|, schema.value, Ids(Sample(xs, cfg.classificationSample))))
  }

  function ProfileStage(cfg: Config, env: Env, s: State): Option<State> {
    var profile := ProfileOf(cfg, env, s.accepted);
    if profile.None? then None
    else
      var schema := profile.value.schema;
      Some(Done(s.(profile := profile), Profiling, Profiled(schema.applicable, schema.confidence, schema.task)))
  }

  // ---------------------------------------------------------------------------------------
  // dedup
  // ---------------------------------------------------------------------------------------

  function DedupMethod(cfg: Config, xs: seq<Item>): string {
    if StrictLabelled(cfg, xs) then "off"
    else if cfg.dedup != "auto" then cfg.dedup
    else if xs != [] && AllLabelled(xs) then "exact"
    else "minhash"
  }

  function Contents(xs: seq<Item>, show: Show): seq<string> {
    seq(|xs|, i requires 0 <= i < |xs| => Dedup.Content(xs[i], show))
  }

  function Duplicates(how: string, cfg: Config, env: Env, xs: seq<Item>): (r: seq<Option<string>>)
    ensures |r| == |xs|
  {
    if how == "off" then seq(|xs|, _ => None)
    else if how == "semantic-local" then seq(|xs|, i requires 0 <= i < |xs| => env.similar(Contents(xs, env.show), i))
    else
      var exact := how == "exact";
      var d := if exact then Repeats(ExactKeys(xs, env.show)) else Drops(Signatures(xs, env.show), cfg.threshold);
      var reason := if exact then "exact_duplicate" else "minhash_near_dup (threshold " + cfg.thresholdText + ")";
      seq(|xs|, i requires 0 <= i < |xs| => if d[i] then Some(reason) else None)
  }

  function AsJson(reasons: seq<Option<string>>): (r: seq<Option<Json>>)
    ensures |r| == |reasons|
  {
    seq(|reasons|, i requires 0 <= i < |reasons| => if reasons[i].Some? then Some(JStr(reasons[i].value)) else None)
  }

  function WithDedupReasons(xs: seq<Item>, reasons: seq<Option<string>>): (ys: seq<Item>)
    requires |xs| == |reasons|
    ensures |ys| == |xs|
  {
    seq(|xs|, i requires 0 <= i < |xs| => if reasons[i].Some? then Dedup.Marked(xs[i], reasons[i].value) else xs[i])
  }

  function DedupStage(cfg: Config, env: Env, s: State): State {
    var how := DedupMethod(cfg, s.accepted);
    var reasons := Duplicates(how, cfg, env, s.accepted);
    Done(Divide(s, WithDedupReasons(s.accepted, reasons), AsJson(reasons), Deduplication),
         Deduplication, Deduplicated(how, Left(AsJson(reasons))))
  }

  // ---------------------------------------------------------------------------------------
  // score_refine
  // ---------------------------------------------------------------------------------------

  function AuditContent(x: Item, show: Show): (string, string) {
    var (p, r) := PromptAndResponse(x, show);
    var response := if p == "" && r == "" then ClassificationText(x, show) else r;
    (if p == "" then response else p, response)
  }

  function Cut(s: string, n: nat): string { if |s| <= n then s else s[..n] }

  function AuditRecordOf(x: Item, show: Show): AuditRecord {
    var (p, r) := AuditContent(x, show);
    AuditRecord(x.id, Cut(p, 2500), Cut(r, 2500), x.labels)
  }

  function RuleIssues(x: Item, env: Env): seq<string> {
    var (p, r) := AuditContent(x, env.show);
    env.rules(p, r)
  }

  function RuleFailed(x: Item, issues: seq<string>): Item {
    x.(quality := Some(Quality(2.0, 3.0, 3.0, 1.0, 2.0, true, issues,
                               "Failed basic heuristic checks: " + JoinWith(issues))),
       metadata := x.metadata[Key.RuleCheck := JBool(false)])
  }

  /** A dictionary built from pairs: the last pair with the key. */
  function Last<T>(entries: seq<(string, T)>, id: string): Option<T> {
    if entries == [] then None
    else
      var n := |entries| - 1;
      if entries[n].0 == id then Some(entries[n].1) else Last(entries[..n], id)
  }

  function Grade(x: Item, reply: AuditReply): Item {
    match reply
    case AuditFailed(message) => x.(metadata := x.metadata[Key.ScoringError := JStr(message)])
    case Scores(entries) =>
      var score := Last(entries, x.id);
      if score.None? then
        x.(metadata := x.metadata[Key.ScoringError := JStr("Batch audit returned no score for this item_id.")])
      else x.(quality := Some(score.value), metadata := x.metadata[Key.RuleCheck := JBool(true)])
  }

  /** What an audit tells the provider about the dataset. */
  datatype Topic = Topic(task: Option<Task>, classes: seq<string>)

  function TopicOf(s: State): Topic {
    if s.profile.Some? then Topic(s.profile.value.schema.task, s.profile.value.schema.classes) else Topic(None, [])
  }

  function AuditRecords(xs: seq<Item>, show: Show): seq<AuditRecord> {
    seq(|xs|, i requires 0 <= i < |xs| => AuditRecordOf(xs[i], show))
  }

  function AuditChunk(chunk: seq<Item>, env: Env, topic: Topic): (ys: seq<Item>)
    ensures |ys| == |chunk|
  {
    var reply := env.audit(AuditRecords(chunk, env.show), topic.task, topic.classes);
    seq(|chunk|, i requires 0 <= i < |chunk| => Grade(chunk[i], reply))
  }

  function AuditRemote(xs: seq<Item>, env: Env, topic: Topic, size: Size): (ys: seq<Item>)
    ensures |ys| == |xs|
  {
    if |xs| <= size then (if xs == [] then [] else AuditChunk(xs, env, topic))
    else AuditChunk(xs[..size], env, topic) + AuditRemote(xs[size..], env, topic, size)
  }

  function Passing(xs: seq<Item>, env: Env): (f: seq<bool>)
    ensures |f| == |xs|
  {
    seq(|xs|, i requires 0 <= i < |xs| => RuleIssues(xs[i], env) == [])
  }

  function RuleChecked(xs: seq<Item>, env: Env): (ys: seq<Item>)
    ensures |ys| == |xs|
  {
    seq(|xs|, i requires 0 <= i < |xs| => if RuleIssues(xs[i], env) == [] then xs[i]
        else RuleFailed(xs[i], RuleIssues(xs[i], env)))
  }

  /** `audit_sample_batch_async`: rows that fail the rules are graded here, the others in chunks by the provider. */
  function Audit(xs: seq<Item>, env: Env, topic: Topic, size: Size): (ys: seq<Item>)
    ensures |ys| == |xs|
  {
    var passing := Passing(xs, env);
    PickSize(xs, RuleChecked(xs, env), passing, true);
    Merge(RuleChecked(xs, env), passing, AuditRemote(Pick(xs, passing, true), env, topic, size))
  }

  function RefineRecords(xs: seq<Item>, show: Show): seq<(string, string, string)> {
    seq(|xs|, i requires 0 <= i < |xs| =>
      var (p, r) := PromptAndResponse(xs[i], show);
      (xs[i].id, Cut(p, 6000), Cut(r, 6000)))
  }

  function RefineOne(x: Item, reply: RefineReply, mode: string, show: Show): Item {
    match reply
    case RefineFailed(message) => x.(metadata := x.metadata[Key.RefinementError := JStr(message)])
    case Refined(entries) =>
      var found := Last(entries, x.id);
      if found.None? then
        x.(metadata := x.metadata[Key.RefinementError := JStr("Batch refinement returned no entry for this item_id.")])
      else
        var (p, r) := PromptAndResponse(x, show);
        var prompt := if mode in {"all", "prompt_only"} && found.value.prompt != "" then found.value.prompt else p;
        var response := if mode in {"all", "response_only"} then found.value.response else r;
        var y := Updated(x, Some(prompt), Some(response));
        y.(metadata := y.metadata[Key.Refined := JBool(true)][Key.RefinementInfo := found.value.info])
  }

  function RefineChunk(chunk: seq<Item>, env: Env, mode: string): (ys: seq<Item>)
    ensures |ys| == |chunk|
  {
    var reply := env.refine(RefineRecords(chunk, env.show), mode);
    seq(|chunk|, i requires 0 <= i < |chunk| => RefineOne(chunk[i], reply, mode, env.show))
  }

  const REFINE_BATCH := 20

  function RefineAll(xs: seq<Item>, env: Env, mode: string): (ys: seq<Item>)
    ensures |ys| == |xs|
  {
    if |xs| <= REFINE_BATCH then (if xs == [] then [] else RefineChunk(xs, env, mode))
    else RefineChunk(xs[..REFINE_BATCH], env, mode) + RefineAll(xs[REFINE_BATCH..], env, mode)
  }

  predicate HasScoringError(x: Item) { Key.ScoringError in x.metadata && x.metadata[Key.ScoringError].Truthy() }

  predicate Refinable(x: Item, cfg: Config) {
    x.quality.Some? && x.quality.value.overall < cfg.refineBelow && x.format in {Alpaca, Chat, Dpo} &&
        !HasScoringError(x)
  }

  function RefinableFlags(xs: seq<Item>, cfg: Config): (f: seq<bool>)
    ensures |f| == |xs|
  {
    seq(|xs|, i requires 0 <= i < |xs| => Refinable(xs[i], cfg))
  }

  /** The refinable rows are refined and audited again, each in its place. */
  function Improved(xs: seq<Item>, cfg: Config, env: Env, topic: Topic): (ys: seq<Item>)
    ensures |ys| == |xs|
  {
    var flags := RefinableFlags(xs, cfg);
    Merge(xs, flags, Audit(RefineAll(Pick(xs, flags, true), env, cfg.refineMode), env, topic, cfg.auditBatch))
  }

  function ScoresOf(xs: seq<Item>): seq<real> {
    if xs == [] then []
    else
      var first := if xs[0].quality.Some? && !HasScoringError(xs[0]) then [xs[0].quality.value.overall] else [];
      first + ScoresOf(xs[1..])
  }

  function Batches(n: nat, size: Size): nat { (n + size - 1) / size }

  function EffectiveMode(cfg: Config, xs: seq<Item>): QualityMode {
    if StrictLabelled(cfg, xs) then Off else cfg.quality
  }

  function SampleReport(cfg: Config, env: Env, xs: seq<Item>, topic: Topic): Report {
    var sample := Sample(xs, cfg.sampleSize);
    var scores := ScoresOf(Audit(sample, env, topic, cfg.auditBatch));
    var remote := |Pick(sample, Passing(sample, env), true)|;
    SampleScored(if cfg.sampleSize <= |xs| then cfg.sampleSize else |xs|,
                 if |scores| <= |sample| then |sample| - |scores| else 0,
                 Batches(remote, cfg.auditBatch), remote, scores)
  }

  function ScoreStage(cfg: Config, env: Env, s: State): State {
    var xs, topic := s.accepted, TopicOf(s);
    match EffectiveMode(cfg, xs)
    case Off => Done(s, Scoring, NotScored(cfg.quality))
    case Sampled => Done(s, Scoring, SampleReport(cfg, env, xs, topic))
    case Llm =>
      var audited := Audit(xs, env, topic, cfg.auditBatch);
      Done(s.(accepted := Improved(audited, cfg, env, topic)), Scoring,
           AllScored(|xs|, |Pick(audited, RefinableFlags(audited, cfg), true)|))
  }

  // ---------------------------------------------------------------------------------------
  // filter
  // ---------------------------------------------------------------------------------------

  function FilterReason(x: Item, cfg: Config, env: Env): Option<Json> {
    if HasScoringError(x) then Some(JStr("Provider scoring failed: " + Text(x.metadata[Key.ScoringError], env.show)))
    else if x.quality.None? then Some(JStr("No final quality score was produced."))
    else if !x.quality.value.safe then Some(JStr("Record failed the safety assessment."))
    else if x.quality.value.overall < cfg.filterMin then
      Some(JStr("Final quality score " + env.twoDigits(x.quality.value.overall) + " is below "
          + env.twoDigits(cfg.filterMin) + "."))
    else None
  }

  function FilterReasons(xs: seq<Item>, cfg: Config, env: Env): (r: seq<Option<Json>>)
    ensures |r| == |xs|
  {
    seq(|xs|, i requires 0 <= i < |xs| => FilterReason(xs[i], cfg, env))
  }

  function ModeName(m: QualityMode): string { match m case Llm => "llm" case Sampled => "sampled" case Off => "off" }

  function FilterStage(cfg: Config, env: Env, s: State): State {
    var xs, mode := s.accepted, EffectiveMode(cfg, s.accepted);
    if mode != Llm then
      var reason := if StrictLabelled(cfg, xs) then "accuracy_contract=strict preserves labeled rows"
                    else "quality_mode=" + ModeName(mode) + " does not produce per-row scores";
      Done(s, Filtering, FilterSkipped(reason, |xs|))
    else
      var t := Divide(s, xs, FilterReasons(xs, cfg, env), Filtering);
      Done(t, Filtering, Filtered(|t.accepted|, Left(FilterReasons(xs, cfg, env))))
  }

  // ---------------------------------------------------------------------------------------
  // classify
  // ---------------------------------------------------------------------------------------

  function ShownCut(texts: seq<string>): seq<string> {
    if texts == [] then []
    else (if Strip(Truncate(texts[0])) != "" then [Truncate(texts[0])] else []) + ShownCut(texts[1..])
  }

  function Forced(found: Option<Schema>, task: Task): Option<Schema> {
    if found.None? then None else Some(Schema(true, Some(task), Clean(found.value.classes), found.value.confidence))
  }

  /** The schema to label with: the profile's, or the one the configuration forces. It may turn out invalid; `None` when
      the provider raises. */
  function LabelSchema(cfg: Config, env: Env, s: State): Option<Schema> {
    match cfg.classification
    case Force(task) =>
      if Clean(cfg.classes) != [] then Some(Schema(true, Some(task), Clean(cfg.classes), 1.0))
      else
        var texts := ShownCut(Texts(Sample(s.accepted, cfg.classificationSample), env.show));
        Forced(env.detect(texts, Some(task), []), task)
    case _ =>
      if s.profile.None? then Some(Schema(false, None, [], 0.0))
      else Some(s.profile.value.schema.(classes := Clean(s.profile.value.schema.classes)))
  }

  function ClassifiedAs(s: State, action: string, schema: Option<Schema>): Report {
    var profile := if s.profile.Some? then s.profile.value.schema else Schema(false, None, [], 0.0);
    if schema.Some? then Classified(action, schema.value.task, schema.value.classes, schema.value.confidence)
    else Classified(action, None, profile.classes, profile.confidence)
  }

  function ErrorsOf(xs: seq<Item>): (r: seq<Option<Json>>)
    ensures |r| == |xs|
  {
    seq(|xs|, i requires 0 <= i < |xs| => if HasError(xs[i]) then Some(xs[i].metadata[Key.ClassificationError])
        else None)
  }

  /** Labelling with a schema, if it applies and is trusted. */
  function ClassifyWith(cfg: Config, env: Env, s: State, schema: Schema): Option<State>
    requires schema.Valid()
  {
    if !schema.applicable then Some(Done(s, Labelling, ClassifiedAs(s, "not_applicable", Some(schema))))
    else if schema.confidence < cfg.confidence
        then Some(Done(s, Labelling, ClassifiedAs(s, "low_confidence_skip", Some(schema))))
    else if BatchRaises(s.accepted, schema, env.ask, env.show) then None
    else
      var xs := Batch(s.accepted, schema, env.ask, env.show);
      Some(Done(Divide(s, xs, ErrorsOf(xs), Labelling), Labelling, ClassifiedAs(s, "classified", Some(schema))))
  }

  function ClassifyStage(cfg: Config, env: Env, s: State): Option<State> {
    if StrictLabelled(cfg, s.accepted) then Some(Done(s, Labelling, ClassifiedAs(s, "strict_existing_labels", None)))
    else if cfg.classification.NoClassification? then Some(Done(s, Labelling, ClassifiedAs(s, "disabled", None)))
    else if s.accepted != [] && AllLabelled(s.accepted) && cfg.classification.Auto? then
      Some(Done(s, Labelling, ClassifiedAs(s, "existing_labels", None)))
    else
      var found := LabelSchema(cfg, env, s);
      if found.None? || !found.value.Valid() then None else ClassifyWith(cfg, env, s, found.value)
  }

  // ---------------------------------------------------------------------------------------
  // The run
  // ---------------------------------------------------------------------------------------

  /** One stage, skipped when it has been completed; `None` when it raises. */
  function Step(cfg: Config, env: Env, stage: Stage, s: State): Option<State> {
    if stage in s.completed then Some(s)
    else
      match stage
      case Validation => Some(ValidateStage(env, s))
      case Redaction => PiiStage(cfg, env, s)
      case Profiling => ProfileStage(cfg, env, s)
      case Deduplication => Some(DedupStage(cfg, env, s))
      case Scoring => Some(ScoreStage(cfg, env, s))
      case Filtering => Some(FilterStage(cfg, env, s))
      case Labelling => ClassifyStage(cfg, env, s)
  }

  /** The first `k` stages. */
  function Steps(cfg: Config, env: Env, s: State, k: nat): Option<State>
    requires k <= |STAGES|
  {
    if k == 0 then Some(s)
    else
      var before := Steps(cfg, env, s, k - 1);
      if before.None? then None else Step(cfg, env, STAGES[k - 1], before.value)
  }

  lemma NextStage(k: nat)
    requires 0 < k <= |STAGES|
    ensures STAGES[k - 1] !in STAGES[..k - 1] && STAGES[..k] == STAGES[..k - 1] + [STAGES[k - 1]]
  {
  }

  lemma StepCompletes(cfg: Config, env: Env, stage: Stage, s: State)
    requires Step(cfg, env, stage, s).Some?
    ensures Step(cfg, env, stage, s).value.completed == if stage in s.completed then s.completed
        else s.completed + [stage]
    ensures stage in s.completed ==> Step(cfg, env, stage, s).value == s
  {
  }

  lemma StepsCompleteNext(cfg: Config, env: Env, s: State, k: nat)
    requires 0 < k <= |STAGES| && s.completed == STAGES[..k - 1] && Step(cfg, env, STAGES[k - 1], s).Some?
    ensures Step(cfg, env, STAGES[k - 1], s).value.completed == STAGES[..k]
  {
    NextStage(k);
    StepCompletes(cfg, env, STAGES[k - 1], s);
  }
}
