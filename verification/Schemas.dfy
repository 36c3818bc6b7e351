/** `DatasetItem`: parsing a row, serialising it, and reading or replacing its text.

    Dictionaries are JSON objects; numbers are exact. Pydantic accepts a field here when it has the declared
    type (a JSON number with an integral value, or a boolean, counts as an int). `show` stands for Python's
    `str` on values that are not strings. */
module Schemas {
  import opened Wrappers

  /** Dictionary keys. Those the program names have a constructor each; `Other` is every other key. */
  datatype Key =
    | Id | AltId | Metadata | QualityScore
    | Instruction | Input | Output | Messages | TextColumn | Prompt | Chosen | Rejected
    | LabelsColumn | Label | Category | Target
    | Role | Content
    | OverallScore | Clarity | FactualAccuracy | ReasoningDepth | InstructionFollowing | IsSafe
    | Issues | Recommendations
    | Rejection | Stage | Reason | Pii | DedupReason | ScoringError | RuleCheck
    | Refined | RefinementInfo | RefinementError
    | Classification | ClassificationError
    | Response | Query
    | Other(name: string)

  datatype Json =
    | JNull | JBool(b: bool) | JNum(n: real) | JStr(s: string) | JArr(items: seq<Json>) | JObj(fields: map<Key, Json>)
  {
    predicate Truthy() {
      match this
      case JNull => false
      case JBool(b) => b
      case JNum(n) => n != 0.0
      case JStr(s) => s != ""
      case JArr(a) => a != []
      case JObj(o) => o != map[]
    }
  }

  type Dict = map<Key, Json>
  type Show = Json -> string

  datatype Format = Alpaca | Chat | Dpo | Raw | Custom
  datatype Message = Message(role: string, content: string)
  datatype Atom = AStr(s: string) | AInt(i: int)
  datatype Labels = One(x: Atom) | Many(xs: seq<Atom>)

  datatype Quality = Quality(overall: real, clarity: real, accuracy: real, depth: real, following: real,
                             safe: bool, issues: seq<string>, advice: string)

  /** `uid` is the identity of the Python object: never read by the program and never serialised. */
  datatype Item = Item(uid: int, id: string, format: Format,
                       instruction: Option<string>, input: Option<string>, output: Option<string>,
                       messages: Option<seq<Message>>, text: Option<string>,
                       prompt: Option<string>, chosen: Option<string>, rejected: Option<string>,
                       labels: Option<Labels>, metadata: Dict, quality: Option<Quality>, raw: Dict)

  datatype ParseError = ValidationError

  // ---------------------------------------------------------------------------------------
  // Field codecs
  // ---------------------------------------------------------------------------------------

  function AtomToJson(a: Atom): Json { match a case AStr(s) => JStr(s) case AInt(i) => JNum(i as real) }

  function LabelsToJson(l: Labels): Json {
    match l
    case One(x) => AtomToJson(x)
    case Many(xs) => JArr(seq(|xs|, i requires 0 <= i < |xs| => AtomToJson(xs[i])))
  }

  predicate Intish(j: Json) { j.JBool? || (j.JNum? && j.n.Floor as real == j.n) }

  function IntOf(j: Json): int
    requires Intish(j)
  {
    if j.JBool? then (if j.b then 1 else 0) else j.n.Floor
  }

  function LabelsOf(j: Json): Result<Option<Labels>, ParseError> {
    match j
    case JNull => Success(None)
    case JStr(s) => Success(Some(One(AStr(s))))
    case JArr(a) =>
      if forall x :: x in a ==> x.JStr?
          then Success(Some(Many(seq(|a|, i requires 0 <= i < |a| && a[i].JStr? => AStr(a[i].s)))))
      else if forall x :: x in a ==> Intish(x) then
        Success(Some(Many(seq(|a|, i requires 0 <= i < |a| && Intish(a[i]) => AInt(IntOf(a[i]))))))
      else Failure(ValidationError)
    case _ => if Intish(j) then Success(Some(One(AInt(IntOf(j))))) else Failure(ValidationError)
  }

  /** `Union[str, int, List[str], List[int]]`: lists do not mix. */
  predicate Homogeneous(l: Labels) {
    l.Many? ==> (forall x :: x in l.xs ==> x.AStr?) || (l.xs != [] && forall x :: x in l.xs ==> x.AInt?)
  }

  lemma LabelsRoundTrip(l: Labels)
    requires Homogeneous(l)
    ensures LabelsOf(LabelsToJson(l)) == Success(Some(l))
  {
    if l.Many? {
      var a := LabelsToJson(l).items;
      if forall x :: x in l.xs ==> x.AStr? {
        forall x | x in a ensures x.JStr? { var i :| 0 <= i < |a| && a[i] == x; assert l.xs[i] in l.xs; }
        forall i | 0 <= i < |a| ensures AStr(a[i].s) == l.xs[i] { assert l.xs[i] in l.xs && a[i] in a; }
        assert seq(|a|, i requires 0 <= i < |a| && a[i].JStr? => AStr(a[i].s)) == l.xs;
      } else {
        forall x | x in a ensures Intish(x) { var i :| 0 <= i < |a| && a[i] == x; assert l.xs[i] in l.xs; }
        assert l.xs[0] in l.xs && a[0] in a && !a[0].JStr?;
        forall i | 0 <= i < |a| ensures AInt(IntOf(a[i])) == l.xs[i] { assert l.xs[i] in l.xs; }
        assert seq(|a|, i requires 0 <= i < |a| && Intish(a[i]) => AInt(IntOf(a[i]))) == l.xs;
      }
    }
  }

  function ScoreField(d: Dict, key: Key): Option<real> {
    if key in d && d[key].JNum? && 0.0 <= d[key].n <= 10.0 then Some(d[key].n) else None
  }

  function QualityToDict(q: Quality): Dict {
    map[Key.OverallScore := JNum(q.overall), Key.Clarity := JNum(q.clarity), Key.FactualAccuracy := JNum(q.accuracy),
        Key.ReasoningDepth := JNum(q.depth), Key.InstructionFollowing := JNum(q.following), Key.IsSafe := JBool(q.safe),
        Key.Issues := JArr(seq(|q.issues|, i requires 0 <= i < |q.issues| => JStr(q.issues[i]))),
        Key.Recommendations := JStr(q.advice)]
  }

  function QualityOf(d: Dict): Result<Quality, ParseError> {
    var o, c, a := ScoreField(d, Key.OverallScore), ScoreField(d, Key.Clarity), ScoreField(d, Key.FactualAccuracy);
    var r, f := ScoreField(d, Key.ReasoningDepth), ScoreField(d, Key.InstructionFollowing);
    var safe := if Key.IsSafe in d then d[Key.IsSafe] else JBool(true);
    var issues := if Key.Issues in d then d[Key.Issues] else JArr([]);
    var advice := if Key.Recommendations in d then d[Key.Recommendations] else JStr("");
    if o.Some? && c.Some? && a.Some? && r.Some? && f.Some? && safe.JBool? && advice.JStr?
       && issues.JArr? && (forall x :: x in issues.items ==> x.JStr?)
    then Success(Quality(o.value, c.value, a.value, r.value, f.value, safe.b,
                         seq(|issues.items|,
                             i requires 0 <= i < |issues.items| && issues.items[i].JStr? => issues.items[i].s),
                         advice.s))
    else Failure(ValidationError)
  }

  predicate InRange(q: Quality) {
    && 0.0 <= q.overall <= 10.0 && 0.0 <= q.clarity <= 10.0 && 0.0 <= q.accuracy <= 10.0
    && 0.0 <= q.depth <= 10.0 && 0.0 <= q.following <= 10.0
  }

  lemma QualityRoundTrip(q: Quality)
    requires InRange(q)
    ensures QualityOf(QualityToDict(q)) == Success(q)
  {
    var a := QualityToDict(q)[Key.Issues].items;
    assert seq(|a|, i requires 0 <= i < |a| && a[i].JStr? => a[i].s) == q.issues;
  }

  /** `Optional[str]` */
  function StringField(d: Dict, key: Key): Result<Option<string>, ParseError> {
    if key !in d || d[key].JNull? then Success(None)
    else if d[key].JStr? then Success(Some(d[key].s))
    else Failure(ValidationError)
  }

  function MessageToJson(m: Message): Json { JObj(map[Key.Role := JStr(m.role), Key.Content := JStr(m.content)]) }

  function MessageOf(j: Json): Result<Message, ParseError> {
    if j.JObj? && Key.Role in j.fields && Key.Content in j.fields
       && j.fields[Key.Role].JStr? && j.fields[Key.Content].JStr?
    then Success(Message(j.fields[Key.Role].s, j.fields[Key.Content].s)) else Failure(ValidationError)
  }

  function MessagesToJson(ms: seq<Message>): seq<Json> { seq(|ms|, i requires 0 <= i < |ms| => MessageToJson(ms[i])) }

  function MessagesOf(a: seq<Json>): Result<seq<Message>, ParseError> {
    if a == [] then Success([])
    else
      var first, rest := MessageOf(a[0]), MessagesOf(a[1..]);
      if first.Failure? then Failure(first.error)
      else if rest.Failure? then Failure(rest.error)
      else Success([first.value] + rest.value)
  }

  lemma {:induction false} MessagesRoundTrip(ms: seq<Message>)
    ensures MessagesOf(MessagesToJson(ms)) == Success(ms)
  {
    if ms != [] {
      MessagesRoundTrip(ms[1..]);
      assert MessagesToJson(ms)[1..] == MessagesToJson(ms[1..]);
      assert MessageOf(MessageToJson(ms[0])) == Success(ms[0]);
      assert [ms[0]] + ms[1..] == ms;
    }
  }

  // ---------------------------------------------------------------------------------------
  // to_dict
  // ---------------------------------------------------------------------------------------

  function Txt(s: Option<string>): string { s.GetOr("") }

  /** The text of an item, by format, with a missing string read as the empty one. */
  datatype Body =
    | BAlpaca(instruction: string, input: string, output: string)
    | BChat(messages: seq<Message>)
    | BDpo(prompt: string, chosen: string, rejected: string)
    | BRaw(text: string)
    | BCustom

  function BodyOf(x: Item): Body {
    match x.format
    case Alpaca => BAlpaca(Txt(x.instruction), Txt(x.input), Txt(x.output))
    case Chat => BChat(x.messages.GetOr([]))
    case Dpo => BDpo(Txt(x.prompt), Txt(x.chosen), Txt(x.rejected))
    case Raw => BRaw(Txt(x.text))
    case Custom => BCustom
  }

  function BodyDict(b: Body): Dict {
    match b
    case BAlpaca(i, c, o) => map[Key.Instruction := JStr(i), Key.Input := JStr(c), Key.Output := JStr(o)]
    case BChat(ms) => map[Key.Messages := JArr(MessagesToJson(ms))]
    case BDpo(p, c, r) => map[Key.Prompt := JStr(p), Key.Chosen := JStr(c), Key.Rejected := JStr(r)]
    case BRaw(t) => map[Key.TextColumn := JStr(t)]
    case BCustom => map[]
  }

  function LabelDict(l: Option<Labels>): Dict {
    if l.Some? then map[Key.LabelsColumn := LabelsToJson(l.value)] else map[]
  }

  function MetaDict(metadata: Dict): Dict { if metadata != map[] then map[Key.Metadata := JObj(metadata)] else map[] }

  function QualityDict(q: Option<Quality>): Dict {
    if q.Some? then map[Key.QualityScore := JObj(QualityToDict(q.value))] else map[]
  }

  function ToDict(x: Item): Dict {
    x.raw[Key.Id := JStr(x.id)]
    + BodyDict(BodyOf(x))
    + LabelDict(x.labels)
    + MetaDict(x.metadata)
    + QualityDict(x.quality)
  }

  function Dicts(items: seq<Item>): seq<Dict> { seq(|items|, i requires 0 <= i < |items| => ToDict(items[i])) }

  // ---------------------------------------------------------------------------------------
  // from_dict
  // ---------------------------------------------------------------------------------------

  function Text(j: Json, show: Show): string { if j.JStr? then j.s else show(j) }

  predicate HasId(d: Dict) { Key.Id in d && d[Key.Id].Truthy() }

  function IdOf(d: Dict, show: Show, newId: string): string {
    if HasId(d) then Text(d[Key.Id], show)
    else if Key.AltId in d && d[Key.AltId].Truthy() then Text(d[Key.AltId], show)
    else newId
  }

  /** What is left of the row once metadata, quality and id have been popped. */
  function Popped(d: Dict): Dict {
    d - {Key.Metadata, Key.QualityScore, Key.Id} - (if HasId(d) then {} else {Key.AltId})
  }

  function LabelSource(d: Dict): Json {
    if Key.LabelsColumn in d then d[Key.LabelsColumn] else if Key.Label in d then d[Key.Label]
    else if Key.Category in d then d[Key.Category] else if Key.Target in d then d[Key.Target] else JNull
  }

  function FormatOf(d: Dict): Format {
    if Key.Messages in d && d[Key.Messages].JArr? then Chat
    else if Key.Chosen in d && Key.Rejected in d then Dpo
    else if Key.Instruction in d || Key.Output in d then Alpaca
    else if Key.TextColumn in d then Raw
    else Custom
  }

  function ParseMetadata(d: Dict): Result<Dict, ParseError> {
    if Key.Metadata !in d then Success(map[])
    else if d[Key.Metadata].JObj? then Success(d[Key.Metadata].fields) else Failure(ValidationError)
  }

  function ParseQuality(d: Dict): Result<Option<Quality>, ParseError> {
    if Key.QualityScore !in d || !d[Key.QualityScore].Truthy() then Success(None)
    else if !d[Key.QualityScore].JObj? then Failure(ValidationError)
    else match QualityOf(d[Key.QualityScore].fields)
         case Success(q) => Success(Some(q))
         case Failure(e) => Failure(e)
  }

  /** A row parsed up to its text fields. */
  function Shell(d: Dict, uid: int, show: Show, newId: string): Result<Item, ParseError> {
    var metadata, quality, labels := ParseMetadata(d), ParseQuality(d), LabelsOf(LabelSource(Popped(d)));
    if metadata.Failure? || quality.Failure? || labels.Failure? then Failure(ValidationError)
    else Success(Item(uid, IdOf(d, show, newId), FormatOf(Popped(d)), None, None, None, None, None, None, None, None,
                      labels.value, metadata.value, quality.value, Popped(d)))
  }

  /** The text fields, by format. */
  function ParseText(x: Item): Result<Item, ParseError>
    requires x.format == FormatOf(x.raw)
  {
    match x.format
    case Chat =>
      (match MessagesOf(x.raw[Key.Messages].items)
       case Success(ms) => Success(x.(messages := Some(ms)))
       case Failure(e) => Failure(e))
    case Dpo =>
      var p, c, r := StringField(x.raw, Key.Prompt), StringField(x.raw, Key.Chosen), StringField(x.raw, Key.Rejected);
      if p.Failure? || c.Failure? || r.Failure? then Failure(ValidationError)
      else Success(x.(prompt := p.value, chosen := c.value, rejected := r.value))
    case Alpaca =>
      var i, c, o := StringField(x.raw, Key.Instruction), StringField(x.raw, Key.Input), StringField(x.raw, Key.Output);
      if i.Failure? || c.Failure? || o.Failure? then Failure(ValidationError)
      else Success(x.(instruction := i.value, input := c.value, output := o.value))
    case Raw =>
      var t := StringField(x.raw, Key.TextColumn);
      if t.Failure? then Failure(ValidationError) else Success(x.(text := t.value))
    case Custom => Success(x)
  }

  function FromDict(d: Dict, uid: int, show: Show, newId: string): Result<Item, ParseError> {
    match Shell(d, uid, show, newId)
    case Success(x) => ParseText(x)
    case Failure(e) => Failure(e)
  }

  // ---------------------------------------------------------------------------------------
  // The normal form
  // ---------------------------------------------------------------------------------------

  /** What parsing establishes and no stage undoes: the raw row still has the item's shape. */
  predicate WellFormed(x: Item) {
    && x.id != ""
    && Key.Metadata !in x.raw && Key.QualityScore !in x.raw && Key.Id !in x.raw
    && FormatOf(x.raw + BodyDict(BodyOf(x))) == x.format
    && (x.labels.None? ==> LabelSource(x.raw).JNull?)
    && (x.labels.Some? ==> Homogeneous(x.labels.value))
    && (x.quality.Some? ==> InRange(x.quality.value))
  }

  /** The raw columns that serialising does not overwrite. */
  function Rest(x: Item): Dict { x.raw - BodyDict(BodyOf(x)).Keys - LabelDict(x.labels).Keys }

  /** Two items no later stage can tell apart. */
  predicate Same(x: Item, y: Item) {
    && x.id == y.id && x.format == y.format && BodyOf(x) == BodyOf(y)
    && x.labels == y.labels && x.metadata == y.metadata && x.quality == y.quality && Rest(x) == Rest(y)
  }

  lemma Overwrite(raw: Dict, id: Json, b: Dict, l: Dict)
    ensures raw[Key.Id := id] + b + l == (raw - b.Keys - l.Keys)[Key.Id := id] + b + l
  {
  }

  /** Serialising shows exactly what `Same` compares. */
  lemma SameSerialises(x: Item, y: Item)
    requires Same(x, y)
    ensures ToDict(x) == ToDict(y)
  {
    Overwrite(x.raw, JStr(x.id), BodyDict(BodyOf(x)), LabelDict(x.labels));
    Overwrite(y.raw, JStr(y.id), BodyDict(BodyOf(y)), LabelDict(y.labels));
  }

  /** Every item that parsing produces is well formed. */
  lemma ParsedIsWellFormed(d: Dict, uid: int, show: Show, newId: string)
    requires newId != "" && forall j: Json :: j.Truthy() && !j.JStr? ==> show(j) != ""
    requires FromDict(d, uid, show, newId).Success?
    ensures WellFormed(FromDict(d, uid, show, newId).value)
  {
    var x := FromDict(d, uid, show, newId).value;
    ParsedLabels(LabelSource(x.raw));
    if x.quality.Some? { ParsedQuality(d[Key.QualityScore].fields); }
    BodyKeepsFormat(x);
  }

  lemma ParsedLabels(j: Json)
    requires LabelsOf(j).Success?
    ensures LabelsOf(j).value.None? ==> j.JNull?
    ensures LabelsOf(j).value.Some? ==> Homogeneous(LabelsOf(j).value.value)
  {
  }

  lemma ParsedQuality(d: Dict)
    requires QualityOf(d).Success?
    ensures InRange(QualityOf(d).value)
  {
  }

  lemma BodyKeepsFormat(x: Item)
    requires FormatOf(x.raw) == x.format
    ensures FormatOf(x.raw + BodyDict(BodyOf(x))) == x.format
  {
  }

  /** Under the keys that `from_dict` pops, `to_dict` stored id, metadata and quality; the rest is the other columns. */
  lemma Unstack(base: Dict, id: Json, m: Dict, q: Dict)
    requires Key.Metadata !in base && Key.QualityScore !in base && Key.Id !in base
    requires m.Keys <= {Key.Metadata} && q.Keys <= {Key.QualityScore}
    ensures
      var d := base[Key.Id := id] + m + q;
      && Key.Id in d && d[Key.Id] == id
      && d - {Key.Metadata, Key.QualityScore, Key.Id} == base
      && (Key.Metadata in d <==> Key.Metadata in m) && (Key.Metadata in m ==> d[Key.Metadata] == m[Key.Metadata])
      && (Key.QualityScore in d <==> Key.QualityScore in q)
      && (Key.QualityScore in q ==> d[Key.QualityScore] == q[Key.QualityScore])
  {
  }

  lemma IdFirst(raw: Dict, id: Json, b: Dict, l: Dict)
    requires Key.Id !in b && Key.Id !in l
    ensures raw[Key.Id := id] + b + l == (raw + b + l)[Key.Id := id]
  {
  }

  /** The columns other than id, metadata and quality that a serialised item carries. */
  function Columns(x: Item): Dict { x.raw + BodyDict(BodyOf(x)) + LabelDict(x.labels) }

  lemma ColumnsAreKept(raw: Dict, b: Body, l: Option<Labels>)
    requires l.None? ==> LabelSource(raw).JNull?
    ensures
      var c := raw + BodyDict(b) + LabelDict(l);
      && LabelSource(c) == (if l.Some? then LabelsToJson(l.value) else JNull)
      && FormatOf(c) == FormatOf(raw + BodyDict(b))
      && (forall k :: k in BodyDict(b) ==> k in c && c[k] == BodyDict(b)[k])
      && (forall k :: k in {Key.Id, Key.Metadata, Key.QualityScore} ==> k !in BodyDict(b) && k !in LabelDict(l))
  {
  }

  lemma ShellOfSerialised(x: Item, uid: int, show: Show, newId: string)
    requires WellFormed(x)
    ensures Shell(ToDict(x), uid, show, newId) ==
            Success(Item(uid, x.id, x.format, None, None, None, None, None, None, None, None,
                         x.labels, x.metadata, x.quality, Columns(x)))
    ensures FormatOf(Columns(x)) == x.format
  {
    var d := ToDict(x);
    var b, l := BodyDict(BodyOf(x)), LabelDict(x.labels);
    ColumnsAreKept(x.raw, BodyOf(x), x.labels);
    IdFirst(x.raw, JStr(x.id), b, l);
    Unstack(Columns(x), JStr(x.id), MetaDict(x.metadata), QualityDict(x.quality));
    assert d == Columns(x)[Key.Id := JStr(x.id)] + MetaDict(x.metadata) + QualityDict(x.quality);
    assert HasId(d) && Popped(d) == Columns(x);
    assert ParseMetadata(d) == Success(x.metadata);
    if x.labels.Some? { LabelsRoundTrip(x.labels.value); }
    QualityIsKept(d, x.quality);
  }

  lemma QualityIsKept(d: Dict, q: Option<Quality>)
    requires q.Some? ==> InRange(q.value)
    requires Key.QualityScore in d <==> q.Some?
    requires q.Some? ==> d[Key.QualityScore] == JObj(QualityToDict(q.value))
    ensures ParseQuality(d) == Success(q)
  {
    if q.Some? {
      QualityRoundTrip(q.value);
      assert Key.Clarity in QualityToDict(q.value);
    }
  }

  /** Parsing the text columns written by `to_dict` gives the same text back. */
  lemma TextOfSerialised(b: Body, y: Item)
    requires FormatOf(y.raw) == y.format
    requires forall k :: k in BodyDict(b) ==> k in y.raw && y.raw[k] == BodyDict(b)[k]
    requires (y.format == Alpaca <==> b.BAlpaca?) && (y.format == Chat <==> b.BChat?) && (y.format == Dpo <==> b.BDpo?)
    requires (y.format == Raw <==> b.BRaw?)
    ensures ParseText(y).Success?
    ensures var z := ParseText(y).value;
      && BodyOf(z) == b && z.uid == y.uid && z.id == y.id && z.format == y.format && z.labels == y.labels
      && z.metadata == y.metadata && z.quality == y.quality && z.raw == y.raw
  {
    match b
    case BChat(ms) => MessagesRoundTrip(ms); assert Key.Messages in BodyDict(b);
    case BAlpaca(_, _, _) => assert Key.Instruction in BodyDict(b) && Key.Input in BodyDict(b) &&
        Key.Output in BodyDict(b);
    case BDpo(_, _, _) => assert Key.Prompt in BodyDict(b) && Key.Chosen in BodyDict(b) && Key.Rejected in BodyDict(b);
    case BRaw(_) => assert Key.TextColumn in BodyDict(b);
    case BCustom =>
  }

  lemma RestIsKept(raw: Dict, b: Dict, l: Dict)
    ensures (raw + b + l) - b.Keys - l.Keys == raw - b.Keys - l.Keys
  {
  }

  /** Serialising and parsing back: the result is the same item for every later purpose. */
  lemma RoundTrip(x: Item, uid: int, show: Show, newId: string)
    requires WellFormed(x)
    ensures FromDict(ToDict(x), uid, show, newId).Success?
    ensures Same(FromDict(ToDict(x), uid, show, newId).value, x)
    ensures WellFormed(FromDict(ToDict(x), uid, show, newId).value)
    ensures FromDict(ToDict(x), uid, show, newId).value.uid == uid
    ensures FromDict(ToDict(x), uid, show, newId).value.raw == Columns(x)
  {
    ShellOfSerialised(x, uid, show, newId);
    ColumnsAreKept(x.raw, BodyOf(x), x.labels);
    var y := Shell(ToDict(x), uid, show, newId).value;
    TextOfSerialised(BodyOf(x), y);
    RestIsKept(x.raw, BodyDict(BodyOf(x)), LabelDict(x.labels));
    BodyKeepsFormat(ParseText(y).value);
  }
}
