/** What `from_dict` reads and `to_dict` writes, column by column: relations between rows and items that name none of
    the functions that parse. */
module Parsing {
  import opened Schemas
  import opened Wrappers

  // ---------------------------------------------------------------------------------------
  // Values
  // ---------------------------------------------------------------------------------------

  predicate Present(d: Dict, k: Key) { k in d && d[k].Truthy() }

  /** `Optional[str]` */
  predicate IsText(d: Dict, k: Key, t: Option<string>) {
    match t
    case None => k in d ==> d[k] == JNull
    case Some(s) => k in d && d[k] == JStr(s)
  }

  /** A number or boolean with this integral value. */
  predicate IsInt(j: Json, n: int) {
    j == JNum(n as real) || (j == JBool(true) && n == 1) || (j == JBool(false) && n == 0)
  }

  predicate IsAtom(j: Json, a: Atom) { match a case AStr(s) => j == JStr(s) case AInt(n) => IsInt(j, n) }

  /** The labels that a value stands for: a string or an integer for one, a list of either for several, in order. */
  predicate IsLabels(j: Json, l: Option<Labels>) {
    match l
    case None => j == JNull
    case Some(One(a)) => IsAtom(j, a)
    case Some(Many(xs)) =>
      && j.JArr? && |j.items| == |xs| && (forall i :: 0 <= i < |xs| ==> IsAtom(j.items[i], xs[i]))
      && ((forall i :: 0 <= i < |xs| ==> xs[i].AStr?) || (xs != [] && forall i :: 0 <= i < |xs| ==> xs[i].AInt?))
  }

  predicate IsScore(d: Dict, k: Key, v: real) { k in d && d[k] == JNum(v) && 0.0 <= v <= 10.0 }

  predicate IsQuality(d: Dict, q: Quality) {
    && IsScore(d, Key.OverallScore, q.overall) && IsScore(d, Key.Clarity, q.clarity)
    && IsScore(d, Key.FactualAccuracy, q.accuracy) && IsScore(d, Key.ReasoningDepth, q.depth)
    && IsScore(d, Key.InstructionFollowing, q.following)
    && (if Key.IsSafe in d then d[Key.IsSafe] == JBool(q.safe) else q.safe)
    && (if Key.Recommendations in d then d[Key.Recommendations] == JStr(q.advice) else q.advice == "")
    && if Key.Issues in d
       then d[Key.Issues].JArr? && IsStrings(d[Key.Issues].items, q.issues)
       else q.issues == []
  }

  predicate IsStrings(a: seq<Json>, ts: seq<string>) { |a| == |ts| && forall i :: 0 <= i < |a| ==> a[i] == JStr(ts[i]) }

  predicate IsMessage(j: Json, m: Message) {
    && j.JObj? && Key.Role in j.fields && j.fields[Key.Role] == JStr(m.role)
    && Key.Content in j.fields && j.fields[Key.Content] == JStr(m.content)
  }

  predicate IsMessages(a: seq<Json>, ms: seq<Message>) {
    |a| == |ms| && forall i :: 0 <= i < |a| ==> IsMessage(a[i], ms[i])
  }

  // ---------------------------------------------------------------------------------------
  // Rows
  // ---------------------------------------------------------------------------------------

  predicate IsChatRow(d: Dict) { Key.Messages in d && d[Key.Messages].JArr? }

  predicate IsDpoRow(d: Dict) { Key.Chosen in d && Key.Rejected in d }

  predicate IsAlpacaRow(d: Dict) { Key.Instruction in d || Key.Output in d }

  predicate NoOtherText(x: Item, f: Format) {
    && (f != Alpaca ==> x.instruction == x.input == x.output == None) && (f != Chat ==> x.messages == None)
    && (f != Dpo ==> x.prompt == x.chosen == x.rejected == None) && (f != Raw ==> x.text == None)
  }

  /** The format, by the columns that are there, and the columns that each text comes from. */
  predicate HasTexts(x: Item, d: Dict) {
    NoOtherText(x, x.format) &&
    if IsChatRow(d) then x.format == Chat && x.messages.Some? && IsMessages(d[Key.Messages].items, x.messages.value)
    else if IsDpoRow(d) then
      && x.format == Dpo && IsText(d, Key.Prompt, x.prompt)
      && IsText(d, Key.Chosen, x.chosen) && IsText(d, Key.Rejected, x.rejected)
    else if IsAlpacaRow(d) then
      && x.format == Alpaca && IsText(d, Key.Instruction, x.instruction)
      && IsText(d, Key.Input, x.input) && IsText(d, Key.Output, x.output)
    else if Key.TextColumn in d then x.format == Raw && IsText(d, Key.TextColumn, x.text)
    else x.format == Custom
  }

  /** Labels come from the first of four columns that is there. */
  predicate HasLabels(d: Dict, l: Option<Labels>) {
    if Key.LabelsColumn in d then IsLabels(d[Key.LabelsColumn], l)
    else if Key.Label in d then IsLabels(d[Key.Label], l)
    else if Key.Category in d then IsLabels(d[Key.Category], l)
    else if Key.Target in d then IsLabels(d[Key.Target], l)
    else l == None
  }

  predicate HasQuality(d: Dict, q: Option<Quality>) {
    match q
    case None => !Present(d, Key.QualityScore)
    case Some(score) =>
      Present(d, Key.QualityScore) && d[Key.QualityScore].JObj? && IsQuality(d[Key.QualityScore].fields, score)
  }

  predicate HasIdentity(d: Dict, id: string, show: Show, newId: string) {
    if Present(d, Key.Id) then id == Shows(d[Key.Id], show)
    else if Present(d, Key.AltId) then id == Shows(d[Key.AltId], show)
    else id == newId
  }

  /** `str(value)` */
  function Shows(j: Json, show: Show): string { match j case JStr(s) => s case _ => show(j) }

  /** All columns but metadata, quality and the id, and but the second id if there is no first. */
  ghost predicate HasColumns(d: Dict, raw: Dict) {
    && (forall k :: k in raw <==> && k in d && k != Key.Metadata && k != Key.QualityScore && k != Key.Id
                                  && (k == Key.AltId ==> Present(d, Key.Id)))
    && forall k :: k in raw ==> raw[k] == d[k]
  }

  /** The item `x` is what row `d` says. */
  ghost predicate Reads(x: Item, d: Dict, uid: int, show: Show, newId: string) {
    && x.uid == uid && HasIdentity(d, x.id, show, newId) && HasColumns(d, x.raw)
    && HasTexts(x, d) && HasLabels(d, x.labels) && HasQuality(d, x.quality)
    && if Key.Metadata in d then d[Key.Metadata] == JObj(x.metadata) else x.metadata == map[]
  }

  // ---------------------------------------------------------------------------------------
  // Parsing is exactly that
  // ---------------------------------------------------------------------------------------

  lemma LabelsAreRead(j: Json, l: Option<Labels>)
    ensures LabelsOf(j) == Success(l) <==> IsLabels(j, l)
  {
    if j.JArr? {
      ListIsRead(j.items, l);
    } else if l.Some? && l.value.One? && l.value.x.AInt? {
      IntIsRead(j, l.value.x.i);
    }
  }

  lemma IntIsRead(j: Json, n: int)
    ensures IsInt(j, n) <==> Intish(j) && IntOf(j) == n
  {
  }

  lemma ListIsRead(a: seq<Json>, l: Option<Labels>)
    ensures LabelsOf(JArr(a)) == Success(l) <==> IsLabels(JArr(a), l)
  {
    if l.Some? && l.value.Many? {
      var xs := l.value.xs;
      if LabelsOf(JArr(a)) == Success(l) {
        forall i | 0 <= i < |xs| ensures IsAtom(a[i], xs[i]) {
          assert a[i] in a;
          if xs[i].AInt? { IntIsRead(a[i], xs[i].i); }
        }
      } else if IsLabels(JArr(a), l) {
        ListIsParsed(a, xs);
      }
    }
  }

  lemma ListIsParsed(a: seq<Json>, xs: seq<Atom>)
    requires IsLabels(JArr(a), Some(Many(xs)))
    ensures LabelsOf(JArr(a)) == Success(Some(Many(xs)))
  {
    if forall i :: 0 <= i < |xs| ==> xs[i].AStr? {
      forall x | x in a ensures x.JStr? { var i :| 0 <= i < |a| && a[i] == x; assert IsAtom(a[i], xs[i]); }
      assert seq(|a|, i requires 0 <= i < |a| && a[i].JStr? => AStr(a[i].s)) == xs;
    } else {
      forall i | 0 <= i < |a| ensures Intish(a[i]) && AInt(IntOf(a[i])) == xs[i] {
        assert IsAtom(a[i], xs[i]);
        IntIsRead(a[i], xs[i].i);
      }
      assert a[0] in a && !a[0].JStr?;
      assert seq(|a|, i requires 0 <= i < |a| && Intish(a[i]) => AInt(IntOf(a[i]))) == xs;
    }
  }

  lemma QualityIsRead(d: Dict, q: Quality)
    ensures QualityOf(d) == Success(q) <==> IsQuality(d, q)
  {
    var issues := if Key.Issues in d then d[Key.Issues] else JArr([]);
    if issues.JArr? {
      var a := issues.items;
      if IsQuality(d, q) {
        assert IsStrings(a, q.issues);
        forall x | x in a ensures x.JStr? { var i :| 0 <= i < |a| && a[i] == x; }
        assert seq(|a|, i requires 0 <= i < |a| && a[i].JStr? => a[i].s) == q.issues;
      } else if QualityOf(d) == Success(q) {
        assert forall x :: x in a ==> x.JStr?;
        var ts := seq(|a|, i requires 0 <= i < |a| && a[i].JStr? => a[i].s);
        assert q.issues == ts;
        forall i | 0 <= i < |a| ensures a[i] == JStr(ts[i]) { assert a[i] in a; }
      }
    }
  }

  lemma {:induction false} MessagesAreRead(a: seq<Json>, ms: seq<Message>)
    ensures MessagesOf(a) == Success(ms) <==> IsMessages(a, ms)
  {
    if a != [] {
      if ms != [] {
        MessagesAreRead(a[1..], ms[1..]);
        assert ms == [ms[0]] + ms[1..];
        if IsMessages(a, ms) {
          assert IsMessage(a[0], ms[0]);
          forall i | 0 <= i < |a[1..]| ensures IsMessage(a[1..][i], ms[1..][i]) {
            assert IsMessage(a[i + 1], ms[i + 1]);
          }
        }
        if MessagesOf(a) == Success(ms) {
          forall i | 0 <= i < |a| ensures IsMessage(a[i], ms[i]) {
            if i > 0 { assert IsMessage(a[1..][i - 1], ms[1..][i - 1]); }
          }
        }
      }
    }
  }

  lemma TextIsRead(d: Dict, k: Key, t: Option<string>)
    ensures StringField(d, k) == Success(t) <==> IsText(d, k, t)
  {
  }

  lemma ColumnsAreRead(d: Dict, raw: Dict)
    ensures raw == Popped(d) <==> HasColumns(d, raw)
  {
    if HasColumns(d, raw) {
      forall k ensures k in raw <==> k in Popped(d) { }
      assert raw.Keys == Popped(d).Keys;
    }
  }

  /** Which of a row's text columns count does not depend on the columns popped. */
  lemma PoppedTexts(d: Dict, k: Key)
    requires k !in {Key.Metadata, Key.QualityScore, Key.Id, Key.AltId}
    ensures k in Popped(d) <==> k in d
    ensures k in d ==> Popped(d)[k] == d[k]
  {
  }

  lemma ShellIsRead(d: Dict, uid: int, show: Show, newId: string, x: Item)
    requires x.raw == Popped(d)
    ensures
      var s := Shell(d, uid, show, newId);
      (s.Success? && s.value.labels == x.labels && s.value.metadata == x.metadata && s.value.quality == x.quality)
      <==>
      (HasLabels(d, x.labels) && HasQuality(d, x.quality)
       && if Key.Metadata in d then d[Key.Metadata] == JObj(x.metadata) else x.metadata == map[])
  {
    LabelSourceIsRead(d, x.labels);
    if x.quality.Some? && Key.QualityScore in d && d[Key.QualityScore].JObj? {
      QualityIsRead(d[Key.QualityScore].fields, x.quality.value);
    }
  }

  lemma LabelSourceIsRead(d: Dict, l: Option<Labels>)
    ensures LabelsOf(LabelSource(Popped(d))) == Success(l) <==> HasLabels(d, l)
  {
    PoppedTexts(d, Key.LabelsColumn);
    PoppedTexts(d, Key.Label);
    PoppedTexts(d, Key.Category);
    PoppedTexts(d, Key.Target);
    LabelsAreRead(LabelSource(Popped(d)), l);
  }

  lemma FormatIsRead(d: Dict)
    ensures
      FormatOf(Popped(d)) ==
        if IsChatRow(d) then Chat else if IsDpoRow(d) then Dpo else if IsAlpacaRow(d) then Alpaca
        else if Key.TextColumn in d then Raw else Custom
  {
    PoppedTexts(d, Key.Messages);
    PoppedTexts(d, Key.Chosen);
    PoppedTexts(d, Key.Rejected);
    PoppedTexts(d, Key.Instruction);
    PoppedTexts(d, Key.Output);
    PoppedTexts(d, Key.TextColumn);
  }

  lemma PoppedTextIsRead(d: Dict, k: Key, t: Option<string>)
    requires k !in {Key.Metadata, Key.QualityScore, Key.Id, Key.AltId}
    ensures StringField(Popped(d), k) == Success(t) <==> IsText(d, k, t)
  {
    PoppedTexts(d, k);
    TextIsRead(Popped(d), k, t);
  }

  /** `y` is `x` but for the texts. */
  predicate Textless(x: Item, y: Item) {
    && y == x.(instruction := None, input := None, output := None, messages := None, text := None, prompt := None,
               chosen := None, rejected := None)
  }

  lemma TextsAreRead(d: Dict, x: Item, shell: Item)
    requires Textless(x, shell) && shell.raw == Popped(d) && shell.format == FormatOf(shell.raw)
    ensures ParseText(shell) == Success(x) <==> HasTexts(x, d)
  {
    FormatIsRead(d);
    match shell.format
    case Chat =>
      PoppedTexts(d, Key.Messages);
      if x.messages.Some? { MessagesAreRead(d[Key.Messages].items, x.messages.value); }
    case Dpo =>
      PoppedTextIsRead(d, Key.Prompt, x.prompt);
      PoppedTextIsRead(d, Key.Chosen, x.chosen);
      PoppedTextIsRead(d, Key.Rejected, x.rejected);
    case Alpaca =>
      PoppedTextIsRead(d, Key.Instruction, x.instruction);
      PoppedTextIsRead(d, Key.Input, x.input);
      PoppedTextIsRead(d, Key.Output, x.output);
    case Raw => PoppedTextIsRead(d, Key.TextColumn, x.text);
    case Custom =>
  }

  lemma ParseKeepsShell(shell: Item)
    requires shell.format == FormatOf(shell.raw) && ParseText(shell).Success?
    requires shell.instruction == shell.input == shell.output == shell.prompt == shell.chosen == shell.rejected == None
    requires shell.messages == None && shell.text == None
    ensures Textless(ParseText(shell).value, shell)
  {
  }

  lemma IdentityIsRead(d: Dict, id: string, show: Show, newId: string)
    ensures id == IdOf(d, show, newId) <==> HasIdentity(d, id, show, newId)
  {
  }

  /** Parsing a row succeeds with an item exactly when that item is what the row says. */
  lemma FromDictExactly(d: Dict, uid: int, show: Show, newId: string, x: Item)
    ensures FromDict(d, uid, show, newId) == Success(x) <==> Reads(x, d, uid, show, newId)
  {
    hide HasTexts, HasLabels, HasQuality, HasColumns, HasIdentity, ParseText, Popped, FormatOf, IdOf;
    ColumnsAreRead(d, x.raw);
    IdentityIsRead(d, x.id, show, newId);
    if FromDict(d, uid, show, newId) == Success(x) {
      var shell := Shell(d, uid, show, newId).value;
      ParseKeepsShell(shell);
      ShellIsRead(d, uid, show, newId, x);
      TextsAreRead(d, x, shell);
    } else if Reads(x, d, uid, show, newId) {
      ShellIsRead(d, uid, show, newId, x);
      FormatIsHad(x, d);
      var shell := Shell(d, uid, show, newId).value;
      TextsAreRead(d, x, shell);
    }
  }

  lemma FormatIsHad(x: Item, d: Dict)
    requires HasTexts(x, d)
    ensures x.format == FormatOf(Popped(d)) && NoOtherText(x, x.format)
  {
    FormatIsRead(d);
  }

  // ---------------------------------------------------------------------------------------
  // Serialising
  // ---------------------------------------------------------------------------------------

  predicate Holds(d: Dict, k: Key, j: Json) { k in d && d[k] == j }

  /** The text columns of the item's own format, a missing text as the empty one. */
  predicate DumpsTexts(x: Item, d: Dict) {
    match x.format
    case Alpaca =>
      && Holds(d, Key.Instruction, JStr(x.instruction.GetOr(""))) && Holds(d, Key.Input, JStr(x.input.GetOr("")))
      && Holds(d, Key.Output, JStr(x.output.GetOr("")))
    case Chat =>
      && Key.Messages in d && d[Key.Messages].JArr? && IsMessages(d[Key.Messages].items, x.messages.GetOr([]))
    case Dpo =>
      && Holds(d, Key.Prompt, JStr(x.prompt.GetOr(""))) && Holds(d, Key.Chosen, JStr(x.chosen.GetOr("")))
      && Holds(d, Key.Rejected, JStr(x.rejected.GetOr("")))
    case Raw => Holds(d, Key.TextColumn, JStr(x.text.GetOr("")))
    case Custom => true
  }

  /** The columns that serialising writes. */
  function Written(x: Item): set<Key> {
    {Key.Id}
    + (match x.format
       case Alpaca => {Key.Instruction, Key.Input, Key.Output}
       case Chat => {Key.Messages}
       case Dpo => {Key.Prompt, Key.Chosen, Key.Rejected}
       case Raw => {Key.TextColumn}
       case Custom => {})
    + (if x.labels.Some? then {Key.LabelsColumn} else {})
    + (if x.metadata != map[] then {Key.Metadata} else {})
    + (if x.quality.Some? then {Key.QualityScore} else {})
  }

  /** The dictionary `d` has the columns that are written, with the item's values, and the other raw columns as they
      were. */
  ghost predicate Dumps(x: Item, d: Dict) {
    && Holds(d, Key.Id, JStr(x.id)) && DumpsTexts(x, d)
    && (x.labels.Some? ==> Key.LabelsColumn in d && IsLabels(d[Key.LabelsColumn], x.labels))
    && (x.metadata != map[] ==> Holds(d, Key.Metadata, JObj(x.metadata)))
    && (x.quality.Some? ==>
          Key.QualityScore in d && d[Key.QualityScore].JObj? && IsQuality(d[Key.QualityScore].fields, x.quality.value))
    && forall k :: k !in Written(x) ==> (k in d <==> k in x.raw) && (k in d ==> d[k] == x.raw[k])
  }

  lemma DumpedLabels(l: Labels)
    requires Homogeneous(l)
    ensures IsLabels(LabelsToJson(l), Some(l))
  {
    LabelsRoundTrip(l);
    LabelsAreRead(LabelsToJson(l), Some(l));
  }

  lemma DumpedQuality(q: Quality)
    requires InRange(q)
    ensures IsQuality(QualityToDict(q), q)
  {
    QualityRoundTrip(q);
    QualityIsRead(QualityToDict(q), q);
  }

  lemma DumpedTexts(x: Item)
    ensures DumpsTexts(x, BodyDict(BodyOf(x))) && BodyDict(BodyOf(x)).Keys <= Written(x)
  {
    if x.format == Chat {
      MessagesRoundTrip(x.messages.GetOr([]));
      MessagesAreRead(MessagesToJson(x.messages.GetOr([])), x.messages.GetOr([]));
    }
  }

  /** Of dictionaries merged one after the other, the last that has a key counts. */
  lemma Layered<K, V>(a: map<K, V>, b: map<K, V>, c: map<K, V>, d: map<K, V>, e: map<K, V>, k: K)
    ensures
      var all := a + b + c + d + e;
      && (k in all <==> k in a || k in b || k in c || k in d || k in e)
      && (k in all ==> all[k] == if k in e then e[k] else if k in d then d[k] else if k in c then c[k]
                                 else if k in b then b[k] else a[k])
  {
  }

  lemma ToDictAt(x: Item, k: Key)
    ensures
      var b, l, m, q := BodyDict(BodyOf(x)), LabelDict(x.labels), MetaDict(x.metadata), QualityDict(x.quality);
      && (k in ToDict(x) <==> k == Key.Id || k in x.raw || k in b || k in l || k in m || k in q)
      && (k in ToDict(x) ==>
            ToDict(x)[k] == if k in q then q[k] else if k in m then m[k] else if k in l then l[k]
                            else if k in b then b[k] else if k == Key.Id then JStr(x.id) else x.raw[k])
  {
    hide BodyDict, LabelDict, MetaDict, QualityDict;
    Layered(x.raw[Key.Id := JStr(x.id)], BodyDict(BodyOf(x)), LabelDict(x.labels), MetaDict(x.metadata),
            QualityDict(x.quality), k);
  }

  lemma OtherKeys(x: Item, k: Key)
    requires k !in Written(x)
    ensures k != Key.Id && k !in BodyDict(BodyOf(x)) && k !in LabelDict(x.labels)
    ensures k !in MetaDict(x.metadata) && k !in QualityDict(x.quality)
  {
  }

  lemma OtherColumnsStay(x: Item, k: Key)
    requires k !in Written(x)
    ensures (k in ToDict(x) <==> k in x.raw) && (k in ToDict(x) ==> ToDict(x)[k] == x.raw[k])
  {
    hide ToDict, Written, BodyDict, LabelDict, MetaDict, QualityDict;
    ToDictAt(x, k);
    OtherKeys(x, k);
  }

  lemma TextKeys(x: Item, k: Key)
    requires k in BodyDict(BodyOf(x))
    ensures k !in LabelDict(x.labels) && k !in MetaDict(x.metadata) && k !in QualityDict(x.quality)
  {
  }

  lemma TextsCarryOver(x: Item, d: Dict, e: Dict)
    requires DumpsTexts(x, d) && forall k :: k in d ==> Holds(e, k, d[k])
    ensures DumpsTexts(x, e)
  {
  }

  lemma TextColumnsStay(x: Item)
    ensures DumpsTexts(x, ToDict(x))
  {
    hide ToDict, BodyDict, LabelDict, MetaDict, QualityDict, DumpsTexts;
    DumpedTexts(x);
    var texts := BodyDict(BodyOf(x));
    forall k | k in texts ensures Holds(ToDict(x), k, texts[k]) {
      ToDictAt(x, k);
      TextKeys(x, k);
    }
    TextsCarryOver(x, texts, ToDict(x));
  }

  lemma OwnColumnsStay(x: Item)
    ensures Holds(ToDict(x), Key.Id, JStr(x.id))
    ensures x.labels.Some? ==> Holds(ToDict(x), Key.LabelsColumn, LabelsToJson(x.labels.value))
    ensures x.metadata != map[] ==> Holds(ToDict(x), Key.Metadata, JObj(x.metadata))
    ensures x.quality.Some? ==> Holds(ToDict(x), Key.QualityScore, JObj(QualityToDict(x.quality.value)))
  {
    hide ToDict, LabelsToJson, QualityToDict;
    ToDictAt(x, Key.Id);
    ToDictAt(x, Key.LabelsColumn);
    ToDictAt(x, Key.Metadata);
    ToDictAt(x, Key.QualityScore);
    assert Key.Id !in BodyDict(BodyOf(x));
  }

  /** What is written for an item. */
  lemma ToDictDumps(x: Item)
    requires x.labels.Some? ==> Homogeneous(x.labels.value)
    requires x.quality.Some? ==> InRange(x.quality.value)
    ensures Dumps(x, ToDict(x))
  {
    hide DumpsTexts, IsLabels, IsQuality, ToDict, LabelsToJson, QualityToDict, Written;
    if x.labels.Some? { DumpedLabels(x.labels.value); }
    if x.quality.Some? { DumpedQuality(x.quality.value); }
    forall k | k !in Written(x)
      ensures (k in ToDict(x) <==> k in x.raw) && (k in ToDict(x) ==> ToDict(x)[k] == x.raw[k])
    {
      OtherColumnsStay(x, k);
    }
    OwnColumnsStay(x);
    TextColumnsStay(x);
  }
}
