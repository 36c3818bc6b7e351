/** Which rows each stage keeps, which it rejects and why, and what it does to the others: stated on the rows, without
    the functions that decide. */
module PipelineExact {
  import opened Classifier
  import opened ClassifierReplies
  import Dedup
  import opened ItemText
  import opened Pipeline
  import opened Sampling
  import opened Schemas
  import opened Sequences
  import opened Wrappers

  // ---------------------------------------------------------------------------------------
  // Keeping and rejecting
  // ---------------------------------------------------------------------------------------

  /** `y` is `x` as the stage with this name rejects it. */
  predicate RejectedAs(x: Item, y: Item, name: string, why: Json) {
    && y == x.(metadata := y.metadata)
    && y.metadata == x.metadata[Key.Rejection := JObj(map[Key.Stage := JStr(name), Key.Reason := why])]
  }

  lemma DividedMembers(s: State, xs: seq<Item>, reasons: seq<Option<Json>>, stage: Stage)
    requires |xs| == |reasons|
    ensures
      var t := Divide(s, xs, reasons, stage);
      && (forall x :: x in t.accepted <==> exists i :: 0 <= i < |xs| && xs[i] == x && reasons[i].None?)
      && s.rejected <= t.rejected
      && (forall y :: y in t.rejected[|s.rejected|..] <==>
            exists i :: 0 <= i < |xs| && reasons[i].Some? && RejectedAs(xs[i], y, Name(stage), reasons[i].value))
  {
    var t, flags, marked := Divide(s, xs, reasons, stage), Leaving(reasons), WithReasons(xs, reasons, stage);
    forall x ensures x in t.accepted <==> exists i :: 0 <= i < |xs| && xs[i] == x && reasons[i].None? {
      PickMembers(xs, flags, false, x);
      if i :| 0 <= i < |xs| && xs[i] == x && reasons[i].None? { assert flags[i] == false; }
    }
    assert t.rejected[|s.rejected|..] == Pick(marked, flags, true);
    forall y
      ensures y in t.rejected[|s.rejected|..] <==>
        exists i :: 0 <= i < |xs| && reasons[i].Some? && RejectedAs(xs[i], y, Name(stage), reasons[i].value)
    {
      PickMembers(marked, flags, true, y);
      forall i | 0 <= i < |xs| && reasons[i].Some? && RejectedAs(xs[i], y, Name(stage), reasons[i].value)
        ensures flags[i] == true && marked[i] == y
      {
      }
      if i :| 0 <= i < |xs| && flags[i] == true && marked[i] == y {
        assert RejectedAs(xs[i], y, Name(stage), reasons[i].value);
      }
    }
  }

  /** When the reasons depend on the rows alone. */
  lemma DividedBy(s: State, xs: seq<Item>, reasons: seq<Option<Json>>, stage: Stage, bad: Item -> bool,
      why: Item -> Json)
    requires |xs| == |reasons|
    requires forall i :: 0 <= i < |xs| ==> reasons[i] == if bad(xs[i]) then Some(why(xs[i])) else None
    ensures
      var t := Divide(s, xs, reasons, stage);
      && (forall x :: x in t.accepted <==> x in xs && !bad(x)) && s.rejected <= t.rejected
      && (forall y :: y in t.rejected[|s.rejected|..] <==>
            exists x :: x in xs && bad(x) && RejectedAs(x, y, Name(stage), why(x)))
  {
    hide RejectedAs, Divide;
    DividedMembers(s, xs, reasons, stage);
    var t := Divide(s, xs, reasons, stage);
    forall x ensures x in t.accepted <==> x in xs && !bad(x) {
      if x in xs && !bad(x) { var i :| 0 <= i < |xs| && xs[i] == x; assert reasons[i].None?; }
    }
    forall y
      ensures y in t.rejected[|s.rejected|..] <==>
        exists x :: x in xs && bad(x) && RejectedAs(x, y, Name(stage), why(x))
    {
      if i :| 0 <= i < |xs| && reasons[i].Some? && RejectedAs(xs[i], y, Name(stage), reasons[i].value) {
        assert xs[i] in xs && bad(xs[i]);
      }
      if x :| x in xs && bad(x) && RejectedAs(x, y, Name(stage), why(x)) {
        var i :| 0 <= i < |xs| && xs[i] == x;
        assert reasons[i].Some? && RejectedAs(xs[i], y, Name(stage), reasons[i].value);
      }
    }
  }

  /** The strict contract applies to these rows. */
  predicate StrictApplies(cfg: Config, xs: seq<Item>) {
    cfg.strict && xs != [] && forall x :: x in xs ==> x.labels.Some?
  }

  lemma StrictIsLabelled(cfg: Config, xs: seq<Item>)
    ensures StrictLabelled(cfg, xs) <==> StrictApplies(cfg, xs)
  {
    if StrictApplies(cfg, xs) {
      forall i | 0 <= i < |xs| ensures xs[i].labels.Some? { assert xs[i] in xs; }
    }
  }

  // ---------------------------------------------------------------------------------------
  // validate
  // ---------------------------------------------------------------------------------------

  /** There is some text, an instruction has its output, a chat its messages, and no plugin objects. */
  predicate Usable(x: Item, env: Env) {
    var (p, r) := PromptAndResponse(x, env.show);
    && (p != "" || r != "" || ClassificationText(x, env.show) != "")
    && (x.format == Alpaca && x.instruction.GetOr("") != "" ==> x.output.GetOr("") != "")
    && (x.format == Chat ==> x.messages.GetOr([]) != [])
    && env.plugins(x) == []
  }

  function Says(wrong: bool, text: string): seq<string> { if wrong then [text] else [] }

  /** Everything that is wrong with a row, in order. */
  predicate Objections(x: Item, why: seq<string>, env: Env) {
    var (p, r) := PromptAndResponse(x, env.show);
    var silent := p == "" && r == "" && ClassificationText(x, env.show) == "";
    var unanswered := x.format == Alpaca && x.instruction.GetOr("") != "" && x.output.GetOr("") == "";
    why == Says(silent, "Missing usable text, instruction, prompt, or messages content.")
           + Says(unanswered, "Instruction format detected but output is missing.")
           + Says(x.format == Chat && x.messages.GetOr([]) == [], "Chat format detected but messages is empty.")
           + env.plugins(x)
  }

  /** Objections are joined by semicolons. */
  lemma {:induction false} ReasonsExactly(a: seq<string>, b: seq<string>, t: string)
    ensures JoinWith([]) == "" && JoinWith([t]) == t
    ensures a != [] && b != [] ==> JoinWith(a + b) == JoinWith(a) + "; " + JoinWith(b)
  {
    if |a| > 1 && b != [] {
      ReasonsExactly(a[1..], b, t);
      assert (a + b)[1..] == a[1..] + b;
    } else if |a| == 1 && b != [] {
      assert (a + b)[1..] == b;
    }
  }

  lemma ReasonIsObjections(x: Item, env: Env)
    ensures Objections(x, Errors(x, env), env)
    ensures InvalidReason(x, env) == if Usable(x, env) then None else Some(JStr(JoinWith(Errors(x, env))))
  {
    hide PromptAndResponse, ClassificationText, JoinWith;
  }

  /** Validation keeps exactly the usable rows, as they are, and rejects each other one for all that is wrong. */
  lemma ValidateKeepsExactly(env: Env, s: State)
    ensures
      var t := ValidateStage(env, s);
      && (forall x :: x in t.accepted <==> x in s.accepted && Usable(x, env))
      && s.rejected <= t.rejected
      && (forall y :: y in t.rejected[|s.rejected|..] <==>
            exists x :: x in s.accepted && !Usable(x, env)
              && RejectedAs(x, y, "validate", JStr(JoinWith(Errors(x, env)))))
      && (forall x :: x in s.accepted ==> Objections(x, Errors(x, env), env))
      && t.reports == s.reports + [Validated(|t.accepted|, |t.rejected|)]
  {
    hide Usable, Objections, InvalidReason, RejectedAs, JoinWith, Errors;
    var xs, reasons := s.accepted, Invalid(s.accepted, env);
    forall x ensures Objections(x, Errors(x, env), env) { ReasonIsObjections(x, env); }
    forall i | 0 <= i < |xs|
      ensures reasons[i] == if Usable(xs[i], env) then None else Some(JStr(JoinWith(Errors(xs[i], env))))
    {
      ReasonIsObjections(xs[i], env);
    }
    DividedBy(s, xs, reasons, Validation, x => !Usable(x, env), x => JStr(JoinWith(Errors(x, env))));
  }

  // ---------------------------------------------------------------------------------------
  // pii
  // ---------------------------------------------------------------------------------------

  /** Every text but the empty one is replaced by what redaction makes of it. */
  predicate TextScrubbed(a: Option<string>, b: Option<string>, env: Env, only: bool) {
    if a.Some? && a.value != "" then b == Some(env.scrub(only, a.value).0) else b == a
  }

  predicate MessagesScrubbed(a: seq<Message>, b: seq<Message>, env: Env, only: bool) {
    && |a| == |b|
    && forall i :: 0 <= i < |a| ==>
         b[i].role == a[i].role && b[i].content == if a[i].content == "" then "" else env.scrub(only, a[i].content).0
  }

  /** The texts redaction reads. */
  function Pieces(x: Item): seq<string> {
    match x.format
    case Alpaca => [x.instruction.GetOr(""), x.input.GetOr(""), x.output.GetOr("")]
    case Chat => TurnTexts(x.messages.GetOr([]))
    case Dpo => [x.prompt.GetOr(""), x.chosen.GetOr(""), x.rejected.GetOr("")]
    case Raw => [x.text.GetOr("")]
    case Custom => []
  }

  function TurnTexts(ms: seq<Message>): seq<string> { seq(|ms|, i requires 0 <= i < |ms| => ms[i].content) }

  /** How often redaction finds an entity in the texts. */
  function Times(texts: seq<string>, e: string, env: Env, only: bool): nat {
    if texts == [] then 0
    else (if texts[0] == "" then 0 else env.scrub(only, texts[0]).1[e]) + Times(texts[1..], e, env, only)
  }

  function TimesIn(x: Item, e: string, env: Env, only: bool): nat {
    if x.format == Custom then env.scrubRow(only, x.raw).1[e] else Times(Pieces(x), e, env, only)
  }

  /** The record redaction leaves: each entity found, and how often. */
  ghost predicate Recorded(j: Json, x: Item, env: Env, only: bool) {
    && j.JObj? && j.fields.Keys == {Key.Other("scrubbed"), Key.Other("entity_counts")}
    && j.fields[Key.Other("scrubbed")] == JBool(true) && j.fields[Key.Other("entity_counts")].JObj?
    && var counts := j.fields[Key.Other("entity_counts")].fields;
       && (forall k :: k in counts ==> k.Other?)
       && forall e: string {:trigger Key.Other(e)} ::
            && (Key.Other(e) in counts <==> TimesIn(x, e, env, only) > 0)
            && (Key.Other(e) in counts ==> counts[Key.Other(e)] == JNum(TimesIn(x, e, env, only) as real))
  }

  /** The row as redaction leaves it: each text of its format, for an unknown format the whole row, and the record. */
  ghost predicate ScrubbedAs(x: Item, y: Item, env: Env, only: bool) {
    && y.metadata == x.metadata[Key.Pii := if Key.Pii in y.metadata then y.metadata[Key.Pii] else JNull]
    && Recorded(y.metadata[Key.Pii], x, env, only)
    && match x.format
       case Alpaca =>
         && y == x.(instruction := y.instruction, input := y.input, output := y.output, metadata := y.metadata)
         && TextScrubbed(x.instruction, y.instruction, env, only) && TextScrubbed(x.input, y.input, env, only)
         && TextScrubbed(x.output, y.output, env, only)
       case Chat =>
         && y == x.(messages := y.messages, metadata := y.metadata) && y.messages.Some?
         && MessagesScrubbed(x.messages.GetOr([]), y.messages.value, env, only)
       case Dpo =>
         && y == x.(prompt := y.prompt, chosen := y.chosen, rejected := y.rejected, metadata := y.metadata)
         && TextScrubbed(x.prompt, y.prompt, env, only) && TextScrubbed(x.chosen, y.chosen, env, only)
         && TextScrubbed(x.rejected, y.rejected, env, only)
       case Raw => y == x.(text := y.text, metadata := y.metadata) && TextScrubbed(x.text, y.text, env, only)
       case Custom => y == x.(raw := y.raw, metadata := y.metadata) && y.raw == env.scrubRow(only, x.raw).0
  }

  lemma ScrubTextIs(t: Option<string>, env: Env, only: bool)
    ensures TextScrubbed(t, ScrubText(t, env, only).0, env, only)
    ensures forall e :: ScrubText(t, env, only).1[e] == Times([t.GetOr("")], e, env, only)
  {
    forall e
      ensures Times([t.GetOr("")], e, env, only) == if t.GetOr("") == "" then 0 else env.scrub(only, t.value).1[e]
    {
      assert [t.GetOr("")][1..] == [];
    }
  }

  lemma {:induction false} ScrubMessagesIs(ms: seq<Message>, env: Env, only: bool)
    ensures MessagesScrubbed(ms, ScrubMessages(ms, env, only).0, env, only)
    ensures forall e :: ScrubMessages(ms, env, only).1[e] == Times(TurnTexts(ms), e, env, only)
  {
    if ms != [] {
      ScrubMessagesIs(ms[1..], env, only);
      assert TurnTexts(ms)[1..] == TurnTexts(ms[1..]);
      var rest := ScrubMessages(ms[1..], env, only).0;
      var all := ScrubMessages(ms, env, only).0;
      forall i | 0 < i < |ms| ensures all[i] == rest[i - 1] && ms[i] == ms[1..][i - 1] { }
    }
  }

  lemma CountsOf(f: Found) returns (counts: Dict)
    ensures
      var j := FoundJson(f);
      && j.JObj? && j.fields.Keys == {Key.Other("scrubbed"), Key.Other("entity_counts")}
      && j.fields[Key.Other("scrubbed")] == JBool(true) && j.fields[Key.Other("entity_counts")] == JObj(counts)
    ensures forall k :: k in counts ==> k.Other?
    ensures forall e: string {:trigger Key.Other(e)} :: Key.Other(e) in counts <==> f[e] > 0
    ensures forall e: string {:trigger Key.Other(e)} :: Key.Other(e) in counts ==>
        counts[Key.Other(e)] == JNum(f[e] as real)
  {
    counts := map e | e in f :: Key.Other(e) := JNum(f[e] as real);
    assert FoundJson(f).fields.Keys == {Key.Other("scrubbed"), Key.Other("entity_counts")};
  }

  lemma FoundIsRecorded(f: Found, x: Item, env: Env, only: bool)
    requires forall e :: f[e] == TimesIn(x, e, env, only)
    ensures Recorded(FoundJson(f), x, env, only)
  {
    hide TimesIn, FoundJson;
    var counts := CountsOf(f);
    forall e: string
      ensures Key.Other(e) in counts <==> TimesIn(x, e, env, only) > 0
      ensures Key.Other(e) in counts ==> counts[Key.Other(e)] == JNum(TimesIn(x, e, env, only) as real)
    {
      assert f[e] == TimesIn(x, e, env, only);
    }
  }

  lemma Three(a: string, b: string, c: string, e: string, env: Env, only: bool)
    ensures Times([a, b, c], e, env, only) == Times([a], e, env, only) + Times([b], e, env, only)
        + Times([c], e, env, only)
  {
    assert [a, b, c][1..] == [b, c] && [b, c][1..] == [c] && [a][1..] == [] && [b][1..] == [];
  }

  lemma ScrubItemIs(x: Item, env: Env, only: bool)
    ensures ScrubbedAs(x, ScrubItem(x, env, only), env, only)
  {
    hide TextScrubbed, MessagesScrubbed, Recorded, FoundJson, Times, ScrubText, ScrubMessages;
    match x.format
    case Alpaca =>
      ScrubTextIs(x.instruction, env, only);
      ScrubTextIs(x.input, env, only);
      ScrubTextIs(x.output, env, only);
      var f := ScrubText(x.instruction, env, only).1 + ScrubText(x.input, env, only).1
          + ScrubText(x.output, env, only).1;
      forall e ensures f[e] == TimesIn(x, e, env, only) {
        Three(x.instruction.GetOr(""), x.input.GetOr(""), x.output.GetOr(""), e, env, only);
      }
      FoundIsRecorded(f, x, env, only);
    case Chat =>
      ScrubMessagesIs(x.messages.GetOr([]), env, only);
      FoundIsRecorded(ScrubMessages(x.messages.GetOr([]), env, only).1, x, env, only);
    case Dpo =>
      ScrubTextIs(x.prompt, env, only);
      ScrubTextIs(x.chosen, env, only);
      ScrubTextIs(x.rejected, env, only);
      var f := ScrubText(x.prompt, env, only).1 + ScrubText(x.chosen, env, only).1 + ScrubText(x.rejected, env, only).1;
      forall e ensures f[e] == TimesIn(x, e, env, only) {
        Three(x.prompt.GetOr(""), x.chosen.GetOr(""), x.rejected.GetOr(""), e, env, only);
      }
      FoundIsRecorded(f, x, env, only);
    case Raw =>
      ScrubTextIs(x.text, env, only);
      FoundIsRecorded(ScrubText(x.text, env, only).1, x, env, only);
    case Custom =>
      FoundIsRecorded(env.scrubRow(only, x.raw).1, x, env, only);
  }

  predicate AllHaveLabels(xs: seq<Item>) { xs != [] && forall x :: x in xs ==> x.labels.Some? }

  lemma LabelledExactly(xs: seq<Item>)
    ensures AllHaveLabels(xs) <==> xs != [] && AllLabelled(xs)
  {
    if AllHaveLabels(xs) { forall i | 0 <= i < |xs| ensures xs[i].labels.Some? { assert xs[i] in xs; } }
  }

  /** A redaction record there is nothing to count in. */
  predicate Uncountable(x: Item) { Key.Pii in x.metadata && !x.metadata[Key.Pii].JObj? }

  predicate HasFindings(x: Item) {
    && Key.Pii in x.metadata && x.metadata[Key.Pii].JObj? && Key.Other("entity_counts") in x.metadata[Key.Pii].fields
    && x.metadata[Key.Pii].fields[Key.Other("entity_counts")].Truthy()
  }

  lemma RedactedExactly(xs: seq<Item>, x: Item)
    ensures Redacted([]) == 0
    ensures Redacted(xs + [x]) == Redacted(xs) + if HasFindings(x) then 1 else 0
  {
    assert (xs + [x])[..|xs|] == xs;
  }

  lemma CountableExactly(xs: seq<Item>)
    ensures Countable(xs) <==> forall x :: x in xs ==> !Uncountable(x)
  {
    if forall x :: x in xs ==> !Uncountable(x) {
      forall i | 0 <= i < |xs| ensures EntityCounts(xs[i]).Some? { assert xs[i] in xs; }
    }
  }

  /** Redaction is off, for some labelled rows or for all. */
  function Policy(cfg: Config, xs: seq<Item>): string {
    if !AllHaveLabels(xs) then "all" else if cfg.strict then "off" else cfg.piiMode
  }

  /** Labelled rows are left alone under the strict contract and when the policy for them is `off`; otherwise every row
      loses its entities, or when they are labelled and the policy says so only its identifiers. */
  lemma RedactExactly(cfg: Config, env: Env, s: State)
    ensures
      var xs, policy, t := s.accepted, Policy(cfg, s.accepted), PiiStage(cfg, env, s);
      if !cfg.scrubPii || policy == "off" then
        && (t.None? <==> exists x :: x in xs && Uncountable(x))
        && (t.Some? ==>
              && t.value.accepted == xs && t.value.rejected == s.rejected
              && t.value.reports == s.reports + [Scrubbed(false, policy, Redacted(xs))])
      else
        && t.Some? && t.value.rejected == s.rejected && |t.value.accepted| == |xs|
        && (forall i :: 0 <= i < |xs| ==>
              ScrubbedAs(xs[i], t.value.accepted[i], env, AllHaveLabels(xs) && policy == "identifiers"))
        && t.value.reports == s.reports + [Scrubbed(true, policy, Redacted(t.value.accepted))]
  {
    hide ScrubbedAs, ScrubItem, EntityCounts, Uncountable, Redacted, Countable;
    var xs, policy := s.accepted, Policy(cfg, s.accepted);
    StrictIsLabelled(cfg, xs);
    LabelledExactly(xs);
    assert PiiPolicy(cfg, xs) == policy;
    if !cfg.scrubPii || policy == "off" {
      CountableExactly(xs);
    } else {
      var only := AllHaveLabels(xs) && policy == "identifiers";
      var ys := ScrubAll(xs, env, only);
      forall i | 0 <= i < |xs| ensures ScrubbedAs(xs[i], ys[i], env, only) { ScrubItemIs(xs[i], env, only); }
      RedactedCount(xs, ys, env, only);
    }
  }

  lemma RedactedCount(xs: seq<Item>, ys: seq<Item>, env: Env, only: bool)
    requires |xs| == |ys| && forall i :: 0 <= i < |xs| ==> ScrubbedAs(xs[i], ys[i], env, only)
    ensures Countable(ys)
  {
    forall i | 0 <= i < |ys| ensures EntityCounts(ys[i]).Some? { assert ScrubbedAs(xs[i], ys[i], env, only); }
  }

  // ---------------------------------------------------------------------------------------
  // profile
  // ---------------------------------------------------------------------------------------

  function AtomsIn(l: Labels): seq<Atom> { match l case One(a) => [a] case Many(xs) => xs }

  /** The text of a label, white space at its ends left out. */
  predicate ShownAs(a: Atom, text: string, show: Show) {
    match a
    case AStr(t) => text == Strip(t)
    case AInt(i) => text == Strip(show(JNum(i as real)))
  }

  predicate NamesClass(l: Option<Labels>, text: string, show: Show) {
    l.Some? && text != "" && exists k :: 0 <= k < |AtomsIn(l.value)| && ShownAs(AtomsIn(l.value)[k], text, show)
  }

  predicate NotBlank(a: Atom, show: Show) { !ShownAs(a, "", show) }

  /** A list with two labels that are not blank. */
  predicate Several(l: Option<Labels>, show: Show) {
    && l.Some? && l.value.Many?
    && exists j, k :: 0 <= j < k < |l.value.xs| && NotBlank(l.value.xs[j], show) && NotBlank(l.value.xs[k], show)
  }

  lemma {:induction false} NonblankExactly(texts: seq<string>)
    ensures forall t :: t in Nonblank(texts) <==> t != "" && t in texts
    ensures |Nonblank(texts)| > 0 <==> exists j :: 0 <= j < |texts| && texts[j] != ""
    ensures |Nonblank(texts)| > 1 <==> exists j, k :: 0 <= j < k < |texts| && texts[j] != "" && texts[k] != ""
  {
    if texts != [] {
      var rest := texts[1..];
      NonblankExactly(rest);
      if j, k :| 0 <= j < k < |texts| && texts[j] != "" && texts[k] != "" {
        if j > 0 { assert rest[j - 1] != "" && rest[k - 1] != ""; } else { assert rest[k - 1] != ""; }
      }
      if j :| 0 <= j < |texts| && texts[j] != "" { if j > 0 { assert rest[j - 1] != ""; } }
      if j, k :| 0 <= j < k < |rest| && rest[j] != "" && rest[k] != "" {
        assert texts[j + 1] != "" && texts[k + 1] != "";
      }
      if j :| 0 <= j < |rest| && rest[j] != "" { assert texts[j + 1] != ""; }
    }
  }

  lemma AtomTextIs(a: Atom, text: string, show: Show)
    ensures ShownAs(a, text, show) <==> AtomText(a, show) == text
  {
  }

  lemma LabelTextsAre(l: Labels, text: string, show: Show)
    ensures text in LabelTexts(l, show) <==> NamesClass(Some(l), text, show)
    ensures l.Many? && |LabelTexts(l, show)| > 1 <==> Several(Some(l), show)
  {
    var atoms := AtomsIn(l);
    var texts := seq(|atoms|, i requires 0 <= i < |atoms| => AtomText(atoms[i], show));
    assert l.One? ==> texts == [AtomText(l.x, show)];
    assert l.Many? ==> texts == seq(|l.xs|, i requires 0 <= i < |l.xs| => AtomText(l.xs[i], show));
    NonblankExactly(texts);
    forall i | 0 <= i < |atoms|
      ensures ShownAs(atoms[i], text, show) <==> texts[i] == text
      ensures NotBlank(atoms[i], show) <==> texts[i] != ""
    {
      AtomTextIs(atoms[i], text, show);
      AtomTextIs(atoms[i], "", show);
    }
    hide AtomText, ShownAs, NotBlank, Nonblank;
    if text in texts {
      var i :| 0 <= i < |texts| && texts[i] == text;
      assert ShownAs(atoms[i], text, show);
    }
  }

  lemma {:induction false} FlattenValue(labels: seq<Option<Labels>>, v: string, show: Show)
    ensures v in FlattenLabels(labels, show).0 <==> exists i :: 0 <= i < |labels| && NamesClass(labels[i], v, show)
  {
    hide NamesClass, LabelTexts;
    if labels != [] {
      var n := |labels| - 1;
      FlattenValue(labels[..n], v, show);
      LastOrBefore(labels, labels[..n], labels[n], l => NamesClass(l, v, show));
      NoLabelsNameNothing(v, show);
      if labels[n].Some? { LabelTextsAre(labels[n].value, v, show); }
    }
  }

  lemma {:induction false} FlattenMultiple(labels: seq<Option<Labels>>, show: Show)
    ensures FlattenLabels(labels, show).1 <==> exists i :: 0 <= i < |labels| && Several(labels[i], show)
  {
    hide Several, LabelTexts;
    if labels != [] {
      var n := |labels| - 1;
      FlattenMultiple(labels[..n], show);
      LastOrBefore(labels, labels[..n], labels[n], l => Several(l, show));
      NoLabelsNameNothing("", show);
      if labels[n].Some? { LabelTextsAre(labels[n].value, "", show); }
    }
  }

  /** The classes are the label texts that are not blank; there are several to a row when some row has a list of two. */
  lemma FlattenExactly(labels: seq<Option<Labels>>, show: Show)
    ensures
      var (values, multiple) := FlattenLabels(labels, show);
      && (forall v :: v in values <==> exists i :: 0 <= i < |labels| && NamesClass(labels[i], v, show))
      && (multiple <==> exists i :: 0 <= i < |labels| && Several(labels[i], show))
  {
    hide NamesClass, Several, FlattenLabels;
    forall v
      ensures v in FlattenLabels(labels, show).0 <==> exists i :: 0 <= i < |labels| && NamesClass(labels[i], v, show)
    {
      FlattenValue(labels, v, show);
    }
    FlattenMultiple(labels, show);
  }

  lemma NoLabelsNameNothing(v: string, show: Show)
    ensures !Several(None, show) && !NamesClass(None, v, show)
  {
  }

  lemma LastOrBefore<T>(xs: seq<T>, front: seq<T>, last: T, p: T -> bool)
    requires xs == front + [last]
    ensures (exists i :: 0 <= i < |xs| && p(xs[i])) <==> (exists i :: 0 <= i < |front| && p(front[i])) || p(last)
  {
    if i :| 0 <= i < |xs| && p(xs[i]) { if i < |front| { assert p(front[i]); } }
    if i :| 0 <= i < |front| && p(front[i]) { assert p(xs[i]); }
    if p(last) { assert p(xs[|front|]); }
  }

  /** The texts shown to the provider: those with some text, their first 4000 characters. */
  lemma {:induction false} ShownExactly(texts: seq<string>, t: string)
    ensures Shown([]) == []
    ensures Shown(texts + [t]) ==
      Shown(texts) + if Strip(t) == "" then [] else if |t| <= 4000 then [t] else [t[..4000]]
  {
    hide Strip;
    if texts == [] {
      assert [] + [t] == [t] && [t][1..] == [];
    } else {
      ShownExactly(texts[1..], t);
      assert (texts + [t])[1..] == texts[1..] + [t];
    }
  }

  /** When a schema is forced, a text is shown if its first 4000 characters are not blank. */
  lemma {:induction false} ShownCutExactly(texts: seq<string>, t: string)
    ensures ShownCut([]) == []
    ensures
      var first := if |t| <= 4000 then t else t[..4000];
      ShownCut(texts + [t]) == ShownCut(texts) + if Strip(first) == "" then [] else [first]
  {
    hide Strip;
    if texts == [] {
      assert [] + [t] == [t] && [t][1..] == [];
    } else {
      ShownCutExactly(texts[1..], t);
      assert (texts + [t])[1..] == texts[1..] + [t];
    }
  }

  /** The schema that these classes imply: several to a row, two, more, or too few to label by. */
  predicate ImpliedBy(schema: Schema, classes: set<string>, several: bool, sorted: seq<string>) {
    && schema.classes == sorted
    && (if several then schema.task == Some(MultiLabel)
        else if |sorted| == 2 then schema.task == Some(Binary)
        else if |sorted| < 2 then schema.task == None
        else schema.task == Some(MultiClass))
    && schema.applicable == (several || |sorted| > 1)
    && schema.confidence == if several || |sorted| > 1 then 1.0 else 0.4
  }

  ghost predicate ClassesOf(xs: seq<Item>, values: set<string>, show: Show) {
    forall v :: v in values <==> exists i :: 0 <= i < |xs| && NamesClass(xs[i].labels, v, show)
  }

  predicate SomeSeveral(xs: seq<Item>, show: Show) { exists i :: 0 <= i < |xs| && Several(xs[i].labels, show) }

  /** The profile of no rows. */
  lemma EmptyProfile(cfg: Config, env: Env)
    ensures ProfileOf(cfg, env, []) == Some(Profile(Custom, 0, Schema(false, None, [], 1.0), []))
  {
  }

  lemma SchemaExactly(cfg: Config, env: Env, xs: seq<Item>)
    requires xs != []
    ensures
      var (values, multiple) := FlattenLabels(LabelsOfAll(xs), env.show);
      var texts, t := Shown(Texts(Sample(xs, cfg.classificationSample), env.show)), ProfileSchema(cfg, env, xs);
      && (values != {} ==> t.Some? && ImpliedBy(t.value, values, multiple, env.sorted(values)))
      && (values == {} && PrimaryFormat(xs) !in {Raw, Custom} ==> t == Some(Schema(false, None, [], 0.99)))
      && (values == {} && PrimaryFormat(xs) in {Raw, Custom} && texts == [] ==> t == Some(Schema(false, None, [], 1.0)))
      && (values == {} && PrimaryFormat(xs) in {Raw, Custom} && texts != [] ==> t == env.detect(texts, None, []))
  {
    hide Shown, Sample, Texts, FlattenLabels, PrimaryFormat;
    var f := PrimaryFormat(xs);
    assert f.Alpaca? || f.Chat? || f.Dpo? || f.Raw? || f.Custom?;
  }

  /** The schema follows from the labels if there are any; else instructions, chats and preferences have none; else the
      provider is asked about the sampled texts if there are any. */
  lemma ProfileExactly(cfg: Config, env: Env, xs: seq<Item>, values: set<string>)
    requires xs != [] && ClassesOf(xs, values, env.show)
    ensures
      var sample := Sample(xs, cfg.classificationSample);
      var texts, t := Shown(Texts(sample, env.show)), ProfileOf(cfg, env, xs);
      var asked := values == {} && PrimaryFormat(xs) in {Raw, Custom} && texts != [];
      && (t.None? <==> asked && env.detect(texts, None, []).None?)
      && (t.Some? ==>
            && t.value.format == PrimaryFormat(xs) && t.value.rowCount == |xs| && t.value.sampledIds == Ids(sample)
            && (values != {} ==> ImpliedBy(t.value.schema, values, SomeSeveral(xs, env.show), env.sorted(values)))
            && (asked ==> Some(t.value.schema) == env.detect(texts, None, []))
            && (values == {} && !asked ==>
                  t.value.schema == Schema(false, None, [], if PrimaryFormat(xs) in {Raw, Custom} then 1.0 else 0.99)))
  {
    hide Shown, Sample, Texts, Ids, FlattenLabels, PrimaryFormat, NamesClass, Several;
    var labels := LabelsOfAll(xs);
    FlattenExactly(labels, env.show);
    var (found, multiple) := FlattenLabels(labels, env.show);
    forall v ensures v in found <==> v in values {
      assert v in found <==> exists i :: 0 <= i < |labels| && NamesClass(labels[i], v, env.show);
      if i :| 0 <= i < |labels| && NamesClass(labels[i], v, env.show) { assert NamesClass(xs[i].labels, v, env.show); }
      if i :| 0 <= i < |xs| && NamesClass(xs[i].labels, v, env.show) { assert NamesClass(labels[i], v, env.show); }
    }
    assert found == values;
    SchemaExactly(cfg, env, xs);
    assert multiple <==> SomeSeveral(xs, env.show) by {
      if i :| 0 <= i < |labels| && Several(labels[i], env.show) { assert Several(xs[i].labels, env.show); }
      if i :| 0 <= i < |xs| && Several(xs[i].labels, env.show) { assert Several(labels[i], env.show); }
    }
  }

  /** The format is the one all rows share, and else the unknown one. */
  lemma PrimaryExactly(xs: seq<Item>, x: Item)
    requires xs != [] && x in xs
    ensures PrimaryFormat(xs) == if forall y :: y in xs ==> y.format == x.format then x.format else Custom
  {
    if forall y :: y in xs ==> y.format == x.format {
      forall i | 0 <= i < |xs| ensures xs[i].format == xs[0].format { assert xs[i] in xs && xs[0] in xs; }
      assert xs[0] in xs;
    } else {
      var y :| y in xs && y.format != x.format;
      var i :| 0 <= i < |xs| && xs[i] == y;
      var j :| 0 <= j < |xs| && xs[j] == x;
    }
  }

  /** Profiling raises exactly when the provider is asked and fails, and else only stores the profile. */
  lemma ProfileStageExactly(cfg: Config, env: Env, s: State)
    ensures
      var t, profile := ProfileStage(cfg, env, s), ProfileOf(cfg, env, s.accepted);
      && (t.None? <==> profile.None?)
      && (t.Some? ==>
            && t.value.profile == profile && t.value.accepted == s.accepted && t.value.rejected == s.rejected
            && t.value.reports == s.reports
                + [Profiled(profile.value.schema.applicable, profile.value.schema.confidence,
                    profile.value.schema.task)])
  {
    hide ProfileOf;
  }

  // ---------------------------------------------------------------------------------------
  // dedup
  // ---------------------------------------------------------------------------------------

  /** Which rows leave under a method, and with which reason. */
  ghost predicate Leaves(xs: seq<Item>, how: string, cfg: Config, env: Env, gone: seq<bool>, why: seq<string>) {
    && |gone| == |xs| == |why|
    && (how == "off" ==> forall i :: 0 <= i < |xs| ==> !gone[i])
    && (how == "exact" ==>
          forall i :: 0 <= i < |xs| ==>
            (gone[i] <==> exists j :: 0 <= j < i && Dedup.ExactKey(xs[j], env.show) == Dedup.ExactKey(xs[i], env.show))
            && why[i] == "exact_duplicate")
    && (how == "semantic-local" ==>
          forall i :: 0 <= i < |xs| ==>
            (gone[i] <==> env.similar(Pipeline.Contents(xs, env.show), i).Some?)
            && (gone[i] ==> Some(why[i]) == env.similar(Pipeline.Contents(xs, env.show), i)))
    && (how !in {"off", "exact", "semantic-local"} ==>
          && Dedup.GreedyIndependent(Dedup.Signatures(xs, env.show), cfg.threshold, gone)
          && forall i :: 0 <= i < |xs| ==> why[i] == "minhash_near_dup (threshold " + cfg.thresholdText + ")")
  }

  /** The method: none under the strict contract, and for `auto` by whether all rows are labelled. */
  predicate ChosenMethod(cfg: Config, xs: seq<Item>, how: string) {
    if cfg.strict && AllHaveLabels(xs) then how == "off"
    else if cfg.dedup != "auto" then how == cfg.dedup
    else how == if AllHaveLabels(xs) then "exact" else "minhash"
  }

  /** A duplicate as it is rejected: both records give the reason. */
  predicate DroppedAs(x: Item, y: Item, why: string) {
    RejectedAs(x.(metadata := x.metadata[Key.DedupReason := JStr(why)]), y, "dedup", JStr(why))
  }

  /** Deduplication keeps, as they are, the rows that do not leave under the method, and rejects the others. */
  lemma DedupExactly(cfg: Config, env: Env, s: State) returns (how: string, gone: seq<bool>, why: seq<string>)
    ensures ChosenMethod(cfg, s.accepted, how) && Leaves(s.accepted, how, cfg, env, gone, why)
    ensures
      var xs, t := s.accepted, DedupStage(cfg, env, s);
      && (forall x :: x in t.accepted <==> exists i :: 0 <= i < |xs| && xs[i] == x && !gone[i])
      && s.rejected <= t.rejected
      && (forall y :: y in t.rejected[|s.rejected|..] <==>
            exists i :: 0 <= i < |xs| && gone[i] && DroppedAs(xs[i], y, why[i]))
      && t.reports == s.reports + [Deduplicated(how, |t.rejected| - |s.rejected|)]
  {
    var xs := s.accepted;
    how := DedupMethod(cfg, xs);
    var reasons := Duplicates(how, cfg, env, xs);
    gone := seq(|xs|, i requires 0 <= i < |xs| => reasons[i].Some?);
    why := WhyLeave(how, cfg, reasons);
    MethodIsChosen(cfg, xs);
    LeavesExactly(xs, how, cfg, env, gone, why);
    StageDrops(cfg, env, s, reasons, gone, why);
    StageReports(cfg, env, s);
  }

  lemma StageReports(cfg: Config, env: Env, s: State)
    ensures
      var t := DedupStage(cfg, env, s);
      t.reports == s.reports + [Deduplicated(DedupMethod(cfg, s.accepted), |t.rejected| - |s.rejected|)]
  {
    hide Duplicates, DedupMethod, Pick, Left;
    var reasons := Duplicates(DedupMethod(cfg, s.accepted), cfg, env, s.accepted);
    LeftIsRejected(s, WithDedupReasons(s.accepted, reasons), AsJson(reasons), Deduplication);
  }

  function WhyLeave(how: string, cfg: Config, reasons: seq<Option<string>>): (r: seq<string>)
    ensures |r| == |reasons|
  {
    seq(|reasons|, i requires 0 <= i < |reasons| =>
      if how == "semantic-local" then reasons[i].GetOr("") else if how == "exact" then "exact_duplicate"
      else "minhash_near_dup (threshold " + cfg.thresholdText + ")")
  }

  lemma MethodIsChosen(cfg: Config, xs: seq<Item>)
    ensures ChosenMethod(cfg, xs, DedupMethod(cfg, xs))
  {
    StrictIsLabelled(cfg, xs);
    LabelledExactly(xs);
  }

  lemma LeavesExactly(xs: seq<Item>, how: string, cfg: Config, env: Env, gone: seq<bool>, why: seq<string>)
    requires |gone| == |xs| && why == WhyLeave(how, cfg, Duplicates(how, cfg, env, xs))
    requires forall i :: 0 <= i < |xs| ==> (gone[i] <==> Duplicates(how, cfg, env, xs)[i].Some?)
    ensures Leaves(xs, how, cfg, env, gone, why)
  {
    hide Dedup.ExactKey, Dedup.Signature, Dedup.GreedyIndependent, Pipeline.Contents;
    var sets := Dedup.Signatures(xs, env.show);
    if how == "exact" {
      RepeatsExactly(xs, env.show);
    } else if how !in {"off", "semantic-local"} {
      Dedup.DropsIsGreedyIndependent(sets, cfg.threshold, Dedup.Drops(sets, cfg.threshold));
      var d := Dedup.Drops(sets, cfg.threshold);
      forall i | 0 <= i < |xs| ensures gone[i] == d[i] { assert gone[i] <==> Duplicates(how, cfg, env, xs)[i].Some?; }
      assert gone == d;
    }
  }

  lemma RepeatsExactly(xs: seq<Item>, show: Show)
    ensures forall i :: 0 <= i < |xs| ==>
      (Dedup.Repeats(Dedup.ExactKeys(xs, show))[i] <==>
        exists j :: 0 <= j < i && Dedup.ExactKey(xs[j], show) == Dedup.ExactKey(xs[i], show))
  {
    hide Dedup.ExactKey;
    var keys := Dedup.ExactKeys(xs, show);
    forall i | 0 <= i < |xs|
      ensures Dedup.Repeats(keys)[i] <==>
          exists j :: 0 <= j < i && Dedup.ExactKey(xs[j], show) == Dedup.ExactKey(xs[i], show)
    {
      if j :| 0 <= j < i && Dedup.ExactKey(xs[j], show) == Dedup.ExactKey(xs[i], show) {
        assert keys[..i][j] == keys[i];
      }
      if keys[i] in keys[..i] {
        var j :| 0 <= j < i && keys[..i][j] == keys[i];
        assert Dedup.ExactKey(xs[j], show) == Dedup.ExactKey(xs[i], show);
      }
    }
  }

  lemma StageDrops(cfg: Config, env: Env, s: State, reasons: seq<Option<string>>, gone: seq<bool>, why: seq<string>)
    requires reasons == Duplicates(DedupMethod(cfg, s.accepted), cfg, env, s.accepted)
    requires |gone| == |why| == |s.accepted|
    requires forall i :: 0 <= i < |gone| ==> (gone[i] <==> reasons[i].Some?) && (gone[i] ==> reasons[i] == Some(why[i]))
    ensures
      var xs, t := s.accepted, DedupStage(cfg, env, s);
      && (forall x :: x in t.accepted <==> exists i :: 0 <= i < |xs| && xs[i] == x && !gone[i])
      && s.rejected <= t.rejected
      && (forall y :: y in t.rejected[|s.rejected|..] <==>
            exists i :: 0 <= i < |xs| && gone[i] && DroppedAs(xs[i], y, why[i]))
  {
    hide Duplicates, DedupMethod, Divide, Left;
    var xs, ys, whys := s.accepted, WithDedupReasons(s.accepted, reasons), AsJson(reasons);
    DividedMembers(s, ys, whys, Deduplication);
    var t := DedupStage(cfg, env, s);
    forall x ensures x in t.accepted <==> exists i :: 0 <= i < |xs| && xs[i] == x && !gone[i] {
      if i :| 0 <= i < |xs| && xs[i] == x && !gone[i] { assert ys[i] == x && whys[i].None?; }
      if i :| 0 <= i < |ys| && ys[i] == x && whys[i].None? { assert xs[i] == x && !gone[i]; }
    }
    forall y
      ensures y in t.rejected[|s.rejected|..] <==>
        exists i :: 0 <= i < |xs| && gone[i] && DroppedAs(xs[i], y, why[i])
    {
      if i :| 0 <= i < |xs| && gone[i] && DroppedAs(xs[i], y, why[i]) {
        assert whys[i].Some? && RejectedAs(ys[i], y, Name(Deduplication), whys[i].value);
      }
      if i :| 0 <= i < |ys| && whys[i].Some? && RejectedAs(ys[i], y, Name(Deduplication), whys[i].value) {
        assert gone[i] && DroppedAs(xs[i], y, why[i]);
      }
    }
  }

  // ---------------------------------------------------------------------------------------
  // filter
  // ---------------------------------------------------------------------------------------

  /** The provider scored the row, found it safe, and the score is high enough. */
  predicate Good(x: Item, cfg: Config) {
    && !(Key.ScoringError in x.metadata && x.metadata[Key.ScoringError].Truthy())
    && x.quality.Some? && x.quality.value.safe && x.quality.value.overall >= cfg.filterMin
  }

  /** Why a row that is not good is rejected. */
  predicate FilteredFor(x: Item, why: Json, cfg: Config, env: Env) {
    && why.JStr?
    && if Key.ScoringError in x.metadata && x.metadata[Key.ScoringError].Truthy() then
         why.s == "Provider scoring failed: "
                  + (match x.metadata[Key.ScoringError] case JStr(e) => e case other => env.show(other))
       else if x.quality == None then why.s == "No final quality score was produced."
       else if !x.quality.value.safe then why.s == "Record failed the safety assessment."
       else why.s == "Final quality score " + env.twoDigits(x.quality.value.overall)
                     + " is below " + env.twoDigits(cfg.filterMin) + "."
  }

  lemma ReasonIsFor(x: Item, cfg: Config, env: Env)
    ensures FilterReason(x, cfg, env).None? <==> Good(x, cfg)
    ensures FilterReason(x, cfg, env).Some? ==> FilteredFor(x, FilterReason(x, cfg, env).value, cfg, env)
  {
  }

  /** What is reported when nothing is filtered. */
  function WhySkipped(cfg: Config, xs: seq<Item>): string {
    if StrictApplies(cfg, xs) then "accuracy_contract=strict preserves labeled rows"
    else "quality_mode=" + (if cfg.quality == Off then "off" else "sampled") + " does not produce per-row scores"
  }

  lemma SkippedExactly(cfg: Config, env: Env, s: State)
    requires cfg.quality != Llm || StrictApplies(cfg, s.accepted)
    ensures FilterStage(cfg, env, s).reports == s.reports + [FilterSkipped(WhySkipped(cfg, s.accepted), |s.accepted|)]
  {
    StrictIsLabelled(cfg, s.accepted);
    hide StrictLabelled, StrictApplies;
  }

  /** When every row is scored, the filter keeps exactly the good rows, as they are, and says of each other one why; in
      every other mode, and under the strict contract, it keeps them all. */
  lemma FilterKeepsExactly(cfg: Config, env: Env, s: State)
    ensures
      var t := FilterStage(cfg, env, s);
      if cfg.quality == Llm && !StrictApplies(cfg, s.accepted) then
        && (forall x :: x in t.accepted <==> x in s.accepted && Good(x, cfg))
        && s.rejected <= t.rejected
        && (forall y :: y in t.rejected[|s.rejected|..] <==>
              exists x, why :: x in s.accepted && !Good(x, cfg) && FilteredFor(x, why, cfg, env)
                && RejectedAs(x, y, "filter", why))
        && t.reports == s.reports + [Filtered(|t.accepted|, |t.rejected| - |s.rejected|)]
      else
        && t.accepted == s.accepted && t.rejected == s.rejected
        && t.reports == s.reports + [FilterSkipped(WhySkipped(cfg, s.accepted), |s.accepted|)]
  {
    hide Good, FilteredFor, FilterReason;
    StrictIsLabelled(cfg, s.accepted);
    if cfg.quality == Llm && !StrictApplies(cfg, s.accepted) {
      var xs, reasons := s.accepted, FilterReasons(s.accepted, cfg, env);
      DividedMembers(s, xs, reasons, Filtering);
      LeftIsRejected(s, xs, reasons, Filtering);
      forall i | 0 <= i < |xs|
        ensures xs[i] in xs && (reasons[i].None? <==> Good(xs[i], cfg))
        ensures reasons[i].Some? ==> FilteredFor(xs[i], reasons[i].value, cfg, env)
      {
        ReasonIsFor(xs[i], cfg, env);
      }
      FilterRejects(cfg, env, s, xs, reasons);
    } else {
      SkippedExactly(cfg, env, s);
    }
  }

  lemma LeftIsRejected(s: State, xs: seq<Item>, reasons: seq<Option<Json>>, stage: Stage)
    requires |xs| == |reasons|
    ensures |Divide(s, xs, reasons, stage).rejected| == |s.rejected| + Left(reasons)
  {
    PickSize(reasons, WithReasons(xs, reasons, stage), Leaving(reasons), true);
  }

  lemma OneReason(x: Item, why: Json, other: Json, cfg: Config, env: Env)
    requires FilteredFor(x, why, cfg, env) && FilteredFor(x, other, cfg, env)
    ensures why == other
  {
  }

  lemma FilterRejects(cfg: Config, env: Env, s: State, xs: seq<Item>, reasons: seq<Option<Json>>)
    requires xs == s.accepted && |reasons| == |xs|
    requires forall i :: 0 <= i < |xs| ==> (reasons[i].None? <==> Good(xs[i], cfg))
    requires forall i :: 0 <= i < |xs| && reasons[i].Some? ==> FilteredFor(xs[i], reasons[i].value, cfg, env)
    ensures
      var t := Divide(s, xs, reasons, Filtering);
      forall y :: y in t.rejected[|s.rejected|..] <==>
        exists x, why :: x in s.accepted && !Good(x, cfg) && FilteredFor(x, why, cfg, env)
          && RejectedAs(x, y, "filter", why)
  {
    hide Good, FilteredFor, RejectedAs;
    DividedMembers(s, xs, reasons, Filtering);
    var t := Divide(s, xs, reasons, Filtering);
    forall y
      ensures y in t.rejected[|s.rejected|..] <==>
        exists x, why :: x in s.accepted && !Good(x, cfg) && FilteredFor(x, why, cfg, env)
          && RejectedAs(x, y, "filter", why)
    {
      if i :| 0 <= i < |xs| && reasons[i].Some? && RejectedAs(xs[i], y, Name(Filtering), reasons[i].value) {
        assert xs[i] in s.accepted && FilteredFor(xs[i], reasons[i].value, cfg, env);
      }
      if x, why :| x in s.accepted && !Good(x, cfg) && FilteredFor(x, why, cfg, env)
                   && RejectedAs(x, y, "filter", why) {
        var i :| 0 <= i < |xs| && xs[i] == x;
        OneReason(x, why, reasons[i].value, cfg, env);
      }
    }
  }

  // ---------------------------------------------------------------------------------------
  // classify
  // ---------------------------------------------------------------------------------------

  /** Labelling did nothing but report why. */
  predicate LeftAlone(s: State, t: Option<State>, report: Report) {
    && t.Some? && t.value.accepted == s.accepted && t.value.rejected == s.rejected
    && t.value.reports == s.reports + [report]
  }

  /** The report names the schema, or when there is none what the profile knew. */
  predicate Names(s: State, report: Report, action: string, schema: Option<Schema>) {
    && report.Classified? && report.action == action
    && match schema
       case Some(c) => report.task == c.task && report.classes == c.classes && report.confidence == c.confidence
       case None =>
         && report.task == None
         && (s.profile.None? ==> report.classes == [] && report.confidence == 0.0)
         && (s.profile.Some? ==>
               && report.classes == s.profile.value.schema.classes
               && report.confidence == s.profile.value.schema.confidence)
  }

  /** The schema: for a forced task the classes configured, or those the provider finds for it; else the profile's. */
  predicate SchemaFor(cfg: Config, env: Env, s: State, schema: Option<Schema>) {
    if cfg.classification.Force? then
      if Clean(cfg.classes) != [] then
        schema == Some(Schema(true, Some(cfg.classification.task), Clean(cfg.classes), 1.0))
      else
        var found := env.detect(ShownCut(Texts(Sample(s.accepted, cfg.classificationSample), env.show)),
                                Some(cfg.classification.task), []);
        if found.None? then schema == None
        else
          && schema.Some? && schema.value.applicable && schema.value.task == Some(cfg.classification.task)
          && schema.value.classes == Clean(found.value.classes) && schema.value.confidence == found.value.confidence
    else
      match s.profile
      case None => schema.Some? && !schema.value.applicable && schema.value.task == None && schema.value.classes == []
                   && schema.value.confidence == 0.0
      case Some(p) =>
        && schema.Some? && schema.value.applicable == p.schema.applicable && schema.value.task == p.schema.task
        && schema.value.classes == Clean(p.schema.classes) && schema.value.confidence == p.schema.confidence
  }

  lemma SchemaIsFor(cfg: Config, env: Env, s: State)
    ensures SchemaFor(cfg, env, s, LabelSchema(cfg, env, s))
  {
    hide Clean, Sample, ShownCut, Texts;
  }

  /** Which rows are labelled at all, and with what outcome: rows leave exactly when they carry an error afterwards. */
  lemma LabelExactly(cfg: Config, env: Env, s: State) returns (schema: Option<Schema>, report: Report)
    ensures SchemaFor(cfg, env, s, schema)
    ensures
      var xs, t := s.accepted, ClassifyStage(cfg, env, s);
      if StrictApplies(cfg, xs) then LeftAlone(s, t, report) && Names(s, report, "strict_existing_labels", None)
      else if cfg.classification == NoClassification then LeftAlone(s, t, report) && Names(s, report, "disabled", None)
      else if AllHaveLabels(xs) && cfg.classification == Auto then
        LeftAlone(s, t, report) && Names(s, report, "existing_labels", None)
      else if schema.None? || !schema.value.Valid() then t.None?
      else if !schema.value.applicable then LeftAlone(s, t, report) && Names(s, report, "not_applicable", schema)
      else if schema.value.confidence < cfg.confidence then
        LeftAlone(s, t, report) && Names(s, report, "low_confidence_skip", schema)
      else LabelledWith(s, t, schema.value, env, report) && Names(s, report, "classified", schema)
  {
    hide SchemaFor, Batch, Clean;
    var xs := s.accepted;
    schema := LabelSchema(cfg, env, s);
    SchemaIsFor(cfg, env, s);
    StrictIsLabelled(cfg, xs);
    LabelledExactly(xs);
    var action := if StrictApplies(cfg, xs) then "strict_existing_labels" else if cfg.classification == NoClassification
      then "disabled" else if AllHaveLabels(xs) && cfg.classification == Auto then "existing_labels" else "";
    if action != "" {
      report := ClassifiedAs(s, action, None);
    } else if schema.Some? && schema.value.Valid() {
      report := LabelWith(cfg, env, s, schema.value);
    } else {
      report := ClassifiedAs(s, "", None);
    }
  }

  predicate Erring(x: Item) { Key.ClassificationError in x.metadata && x.metadata[Key.ClassificationError].Truthy() }

  ghost predicate LabelledWith(s: State, t: Option<State>, schema: Schema, env: Env, report: Report)
    requires schema.task.Some?
  {
    if BatchRaises(s.accepted, schema, env.ask, env.show) then t.None?
    else
      var ys := Batch(s.accepted, schema, env.ask, env.show);
      && t.Some? && (forall y :: y in t.value.accepted <==> y in ys && !Erring(y))
      && s.rejected <= t.value.rejected
      && (forall z :: z in t.value.rejected[|s.rejected|..] <==>
            exists y :: y in ys && Erring(y) && RejectedAs(y, z, "classify", y.metadata[Key.ClassificationError]))
      && t.value.reports == s.reports + [report]
  }

  lemma LabelWith(cfg: Config, env: Env, s: State, schema: Schema) returns (report: Report)
    requires schema.Valid()
    ensures
      var t := ClassifyWith(cfg, env, s, schema);
      if !schema.applicable then LeftAlone(s, t, report) && Names(s, report, "not_applicable", Some(schema))
      else if schema.confidence < cfg.confidence then
        LeftAlone(s, t, report) && Names(s, report, "low_confidence_skip", Some(schema))
      else LabelledWith(s, t, schema, env, report) && Names(s, report, "classified", Some(schema))
  {
    hide Batch, BatchRaises, Erring;
    var t := ClassifyWith(cfg, env, s, schema);
    if !schema.applicable {
      report := ClassifiedAs(s, "not_applicable", Some(schema));
    } else if schema.confidence < cfg.confidence {
      report := ClassifiedAs(s, "low_confidence_skip", Some(schema));
    } else {
      report := ClassifiedAs(s, "classified", Some(schema));
      if !BatchRaises(s.accepted, schema, env.ask, env.show) {
        ErringLeave(s, Batch(s.accepted, schema, env.ask, env.show));
      }
    }
  }

  lemma ErringLeave(s: State, ys: seq<Item>)
    ensures
      var t := Divide(s, ys, ErrorsOf(ys), Labelling);
      && (forall y :: y in t.accepted <==> y in ys && !Erring(y)) && s.rejected <= t.rejected
      && (forall z :: z in t.rejected[|s.rejected|..] <==>
            exists y :: y in ys && Erring(y) && RejectedAs(y, z, "classify", y.metadata[Key.ClassificationError]))
  {
    hide RejectedAs;
    var errors := ErrorsOf(ys);
    DividedMembers(s, ys, errors, Labelling);
    var t := Divide(s, ys, errors, Labelling);
    forall y ensures y in t.accepted <==> y in ys && !Erring(y) {
      if y in ys && !Erring(y) { var i :| 0 <= i < |ys| && ys[i] == y; assert errors[i].None?; }
    }
    forall z
      ensures z in t.rejected[|s.rejected|..] <==>
        exists y :: y in ys && Erring(y) && RejectedAs(y, z, "classify", y.metadata[Key.ClassificationError])
    {
      if i :| 0 <= i < |ys| && errors[i].Some? && RejectedAs(ys[i], z, Name(Labelling), errors[i].value) {
        assert ys[i] in ys && Erring(ys[i]);
      }
      if y :| y in ys && Erring(y) && RejectedAs(y, z, "classify", y.metadata[Key.ClassificationError]) {
        var i :| 0 <= i < |ys| && ys[i] == y;
        assert errors[i].Some? && RejectedAs(ys[i], z, Name(Labelling), errors[i].value);
      }
    }
  }

  // ---------------------------------------------------------------------------------------
  // The run
  // ---------------------------------------------------------------------------------------

  lemma {:induction false} StagesDone(cfg: Config, env: Env, items: seq<Item>, k: nat)
    requires k <= 7
    ensures var t := Steps(cfg, env, Initial(items), k); t.Some? ==> t.value.completed == STAGES[..k]
  {
    hide Step;
    if k > 0 {
      StagesDone(cfg, env, items, k - 1);
      var t := Steps(cfg, env, Initial(items), k - 1);
      if t.Some? && Step(cfg, env, STAGES[k - 1], t.value).Some? { StepsCompleteNext(cfg, env, t.value, k); }
    }
  }

  lemma OneStage(cfg: Config, env: Env, items: seq<Item>, k: nat)
    requires 0 < k <= 7
    ensures
      var t := Steps(cfg, env, Initial(items), k - 1);
      if t.None? then Steps(cfg, env, Initial(items), k).None?
      else STAGES[k - 1] !in t.value.completed
           && Steps(cfg, env, Initial(items), k) == Step(cfg, env, STAGES[k - 1], t.value)
  {
    hide Step;
    StagesDone(cfg, env, items, k - 1);
    NextStage(k);
  }

  /** A run is the seven stages, each from what the one before left, and ends at the first that raises. */
  lemma RunIsSevenStages(cfg: Config, env: Env, items: seq<Item>)
    ensures
      var redacted := PiiStage(cfg, env, ValidateStage(env, State(items, [], [], None, |items|, [])));
      var end := Steps(cfg, env, Initial(items), 7);
      if redacted.None? then end.None?
      else
        var profiled := ProfileStage(cfg, env, redacted.value);
        if profiled.None? then end.None?
        else
          end == ClassifyStage(cfg, env,
              FilterStage(cfg, env, ScoreStage(cfg, env, DedupStage(cfg, env, profiled.value))))
  {
    hide ValidateStage, PiiStage, ProfileStage, DedupStage, ScoreStage, FilterStage, ClassifyStage, Steps;
    assert Steps(cfg, env, Initial(items), 0) == Some(Initial(items)) by { NoStages(cfg, env, Initial(items)); }
    OneStage(cfg, env, items, 1);
    OneStage(cfg, env, items, 2);
    OneStage(cfg, env, items, 3);
    OneStage(cfg, env, items, 4);
    OneStage(cfg, env, items, 5);
    OneStage(cfg, env, items, 6);
    OneStage(cfg, env, items, 7);
  }

  lemma NoStages(cfg: Config, env: Env, s: State)
    ensures Steps(cfg, env, s, 0) == Some(s)
  {
  }
}
