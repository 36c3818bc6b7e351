/** Reading and replacing the text of a `DatasetItem`, whatever its format. */
module ItemText {
  import opened Wrappers
  import opened Schemas

  // ---------------------------------------------------------------------------------------
  // Strings
  // ---------------------------------------------------------------------------------------

  /** ASCII white space. */
  predicate IsSpace(c: char) {
    c in {' ', '\t', '\n', '\r', '\U{b}', '\U{c}', '\U{1c}', '\U{1d}', '\U{1e}', '\U{1f}'}
  }

  function LStrip(s: string): string { if s != "" && IsSpace(s[0]) then LStrip(s[1..]) else s }

  function RStrip(s: string): string { if s != "" && IsSpace(s[|s| - 1]) then RStrip(s[..|s| - 1]) else s }

  function Strip(s: string): string { RStrip(LStrip(s)) }

  function Join(parts: seq<string>): string {
    if parts == [] then "" else if |parts| == 1 then parts[0] else parts[0] + "\n\n" + Join(parts[1..])
  }

  // ---------------------------------------------------------------------------------------
  // get_prompt_and_response, get_classification_text
  // ---------------------------------------------------------------------------------------

  const USER := {"user", "human"}
  const ASSISTANT := {"assistant", "gpt", "model"}

  function Parts(ms: seq<Message>, roles: set<string>): seq<string> {
    if ms == [] then []
    else (if ms[0].role in roles then [ms[0].content] else []) + Parts(ms[1..], roles)
  }

  /** `str(d.get(a) or d.get(b) or d.get(c) or "")` */
  function FirstOf(d: Dict, keys: seq<Key>, show: Show): string {
    if keys == [] then ""
    else if keys[0] in d && d[keys[0]].Truthy() then Text(d[keys[0]], show)
    else FirstOf(d, keys[1..], show)
  }

  function PromptAndResponse(x: Item, show: Show): (string, string) {
    match x.format
    case Alpaca =>
      var p := Txt(x.instruction);
      var full := if p == "" then Txt(x.input) else p + "\n\nContext / Input:\n" + Txt(x.input);
      (if Txt(x.input) == "" then p else full, Txt(x.output))
    case Chat => (Join(Parts(x.messages.GetOr([]), USER)), Join(Parts(x.messages.GetOr([]), ASSISTANT)))
    case Dpo => (Txt(x.prompt), Txt(x.chosen))
    case Raw => ("", Txt(x.text))
    case Custom => (FirstOf(x.raw, [Key.Prompt, Key.Instruction, Key.Input], show),
                    FirstOf(x.raw, [Key.Response, Key.Output, Key.TextColumn], show))
  }

  function FirstClassifiable(d: Dict, keys: seq<Key>, show: Show): string {
    if keys == [] then ""
    else if keys[0] in d && !d[keys[0]].JNull? && Strip(Text(d[keys[0]], show)) != "" then Text(d[keys[0]], show)
    else FirstClassifiable(d, keys[1..], show)
  }

  function ClassificationText(x: Item, show: Show): string {
    match x.format
    case Raw => Txt(x.text)
    case Chat => Join(Parts(x.messages.GetOr([]), USER))
    case Alpaca =>
      Join((if Txt(x.instruction) != "" then [Txt(x.instruction)] else [])
          + (if Txt(x.input) != "" then [Txt(x.input)] else []))
    case Dpo => Txt(x.prompt)
    case Custom =>
      FirstClassifiable(x.raw,
          [Key.TextColumn, Key.Other("content"), Key.Query, Key.Prompt, Key.Instruction, Key.Input], show)
  }

  lemma SameText(x: Item, y: Item, show: Show)
    requires x.format == y.format && BodyOf(x) == BodyOf(y) && x.format != Custom
    ensures PromptAndResponse(x, show) == PromptAndResponse(y, show)
    ensures ClassificationText(x, show) == ClassificationText(y, show)
  {
  }

  // ---------------------------------------------------------------------------------------
  // update_content
  // ---------------------------------------------------------------------------------------

  /** Replace the content of the first message with such a role, or prepend a new one. */
  function WithPrompt(ms: seq<Message>, text: string): seq<Message> {
    if exists i :: 0 <= i < |ms| && ms[i].role in USER then FirstReplaced(ms, text) else [Message("user", text)] + ms
  }

  function FirstReplaced(ms: seq<Message>, text: string): seq<Message> {
    if ms == [] then []
    else if ms[0].role in USER then [ms[0].(content := text)] + ms[1..]
    else [ms[0]] + FirstReplaced(ms[1..], text)
  }

  /** Replace the content of the last message with such a role, or append a new one. */
  function WithResponse(ms: seq<Message>, text: string): seq<Message> {
    if exists i :: 0 <= i < |ms| && ms[i].role in ASSISTANT then LastReplaced(ms, text)
        else ms + [Message("assistant", text)]
  }

  function LastReplaced(ms: seq<Message>, text: string): seq<Message> {
    if ms == [] then []
    else
      var n := |ms| - 1;
      if ms[n].role in ASSISTANT then ms[..n] + [ms[n].(content := text)] else LastReplaced(ms[..n], text) + [ms[n]]
  }

  /** `update_content` with the texts that are given. A raw row has one text, the response if both are given. */
  function Updated(x: Item, prompt: Option<string>, response: Option<string>): Item {
    match x.format
    case Alpaca =>
      x.(instruction := Or(prompt, x.instruction), input := if prompt.Some? then None else x.input,
         output := Or(response, x.output))
    case Chat => x.(messages := Some(WithTexts(x.messages.GetOr([]), prompt, response)))
    case Dpo => x.(prompt := Or(prompt, x.prompt), chosen := Or(response, x.chosen))
    case Raw => x.(text := Or(response, Or(prompt, x.text)))
    case Custom =>
      var d := if prompt.Some? then x.raw[Key.Prompt := JStr(prompt.value)] else x.raw;
      x.(raw := if response.Some? then d[Key.Response := JStr(response.value)] else d)
  }

  lemma UpdatedKeeps(x: Item, prompt: Option<string>, response: Option<string>)
    ensures
      var y := Updated(x, prompt, response);
      && y.uid == x.uid && y.id == x.id && y.format == x.format && y.labels == x.labels
      && (x.format != Custom ==> y.raw == x.raw)
  {
  }

  function Or(given: Option<string>, kept: Option<string>): Option<string> { if given.Some? then given else kept }

  function WithTexts(ms: seq<Message>, prompt: Option<string>, response: Option<string>): seq<Message> {
    var asked := if prompt.Some? then WithPrompt(ms, prompt.value) else ms;
    if response.Some? then WithResponse(asked, response.value) else asked
  }

  lemma Splice<T>(ms: seq<T>, i: nat, m: T)
    requires i < |ms|
    ensures ms[..i] + ([m] + ms[i + 1..]) == ms[i := m]
    ensures ms[i..][0] == ms[i] && ms[i..][1..] == ms[i + 1..]
  {
  }

  lemma Shift<T>(ms: seq<T>, i: nat, rest: seq<T>)
    requires i < |ms|
    ensures ms[..i] + ([ms[i]] + rest) == ms[..i + 1] + rest
  {
  }

  lemma FirstReplacedStep(ms: seq<Message>, text: string, i: nat)
    requires i < |ms| && FirstReplaced(ms, text) == ms[..i] + FirstReplaced(ms[i..], text)
    ensures ms[i].role in USER ==> FirstReplaced(ms, text) == ms[i := ms[i].(content := text)]
    ensures ms[i].role !in USER ==> FirstReplaced(ms, text) == ms[..i + 1] + FirstReplaced(ms[i + 1..], text)
  {
    Splice(ms, i, ms[i].(content := text));
    Shift(ms, i, FirstReplaced(ms[i + 1..], text));
  }

  lemma LastReplacedNext(front: seq<Message>, last: Message, text: string)
    ensures LastReplaced(front + [last], text) ==
            if last.role in ASSISTANT then front + [last.(content := text)] else LastReplaced(front, text) + [last]
  {
    assert (front + [last])[..|front|] == front;
  }

  lemma LastReplacedStep(ms: seq<Message>, text: string, i: nat)
    requires i < |ms| && LastReplaced(ms, text) == LastReplaced(ms[..i + 1], text) + ms[i + 1..]
    ensures ms[i].role in ASSISTANT ==> LastReplaced(ms, text) == ms[i := ms[i].(content := text)]
    ensures ms[i].role !in ASSISTANT ==> LastReplaced(ms, text) == LastReplaced(ms[..i], text) + ms[i..]
  {
    hide LastReplaced;
    SplitAt(ms, i, ms[i].(content := text), LastReplaced(ms[..i], text));
    LastReplacedNext(ms[..i], ms[i], text);
  }

  lemma SplitAt<T>(ms: seq<T>, i: nat, m: T, front: seq<T>)
    requires i < |ms|
    ensures ms[..i + 1] == ms[..i] + [ms[i]]
    ensures (ms[..i] + [m]) + ms[i + 1..] == ms[i := m]
    ensures (front + [ms[i]]) + ms[i + 1..] == front + ms[i..]
  {
  }

  /** The in-place loops of `update_content` over a chat's message list. */
  class Conversation {
    var messages: seq<Message>

    constructor (ms: seq<Message>)
      ensures messages == ms
    {
      messages := ms;
    }

    method SetPrompt(text: string)
      modifies this
      ensures messages == WithPrompt(old(messages), text)
    {
      ghost var ms := messages;
      for i := 0 to |messages|
        invariant messages == ms
        invariant forall k :: 0 <= k < i ==> ms[k].role !in USER
        invariant FirstReplaced(ms, text) == ms[..i] + FirstReplaced(ms[i..], text)
      {
        FirstReplacedStep(ms, text, i);
        if messages[i].role in USER {
          messages := messages[i := messages[i].(content := text)];
          return;
        }
      }
      messages := [Message("user", text)] + messages;
    }

    method SetResponse(text: string)
      modifies this
      ensures messages == WithResponse(old(messages), text)
    {
      ghost var ms := messages;
      assert ms[..|ms|] == ms && LastReplaced(ms, text) + [] == LastReplaced(ms, text);
      for i := |messages| downto 0
        invariant messages == ms
        invariant forall k :: i <= k < |ms| ==> ms[k].role !in ASSISTANT
        invariant LastReplaced(ms, text) == LastReplaced(ms[..i], text) + ms[i..]
      {
        LastReplacedStep(ms, text, i);
        if messages[i].role in ASSISTANT {
          messages := messages[i := messages[i].(content := text)];
          return;
        }
      }
      messages := messages + [Message("assistant", text)];
    }
  }

  // ---------------------------------------------------------------------------------------
  // What a refined item then says
  // ---------------------------------------------------------------------------------------

  lemma {:induction false} PartsOfJoined(a: seq<Message>, b: seq<Message>, roles: set<string>)
    ensures Parts(a + b, roles) == Parts(a, roles) + Parts(b, roles)
  {
    if a == [] {
      assert a + b == b;
    } else {
      PartsOfJoined(a[1..], b, roles);
      assert (a + b)[1..] == a[1..] + b && (a + b)[0] == a[0];
      var head := if a[0].role in roles then [a[0].content] else [];
      assert Parts(a + b, roles) == head + (Parts(a[1..], roles) + Parts(b, roles));
      assert Parts(a, roles) == head + Parts(a[1..], roles);
    }
  }

  lemma {:induction false} NoParts(ms: seq<Message>, roles: set<string>)
    ensures Parts(ms, roles) == [] <==> forall i :: 0 <= i < |ms| ==> ms[i].role !in roles
  {
    if ms != [] { NoParts(ms[1..], roles); }
  }

  lemma PartsOfFirst(m: Message, ms: seq<Message>, roles: set<string>)
    ensures Parts([m] + ms, roles) == (if m.role in roles then [m.content] else []) + Parts(ms, roles)
  {
  }

  lemma {:induction false} FirstReplacedParts(ms: seq<Message>, text: string, roles: set<string>)
    requires roles == ASSISTANT || roles == USER
    requires Parts(ms, USER) != []
    ensures Parts(FirstReplaced(ms, text), roles) == if roles == USER then [text] + Parts(ms, USER)[1..]
        else Parts(ms, ASSISTANT)
  {
    var first, rest := ms[0], ms[1..];
    assert ms == [first] + rest;
    if first.role in USER {
      PartsOfFirst(first.(content := text), rest, roles);
    } else {
      FirstReplacedParts(rest, text, roles);
      PartsOfFirst(first, FirstReplaced(rest, text), roles);
    }
  }

  lemma PromptParts(ms: seq<Message>, text: string)
    ensures Parts(WithPrompt(ms, text), USER) == if Parts(ms, USER) == [] then [text] else [text] + Parts(ms, USER)[1..]
    ensures Parts(WithPrompt(ms, text), ASSISTANT) == Parts(ms, ASSISTANT)
  {
    hide Parts, FirstReplaced;
    NoParts(ms, USER);
    assert USER != ASSISTANT by { assert "user" !in ASSISTANT; }
    if Parts(ms, USER) != [] {
      FirstReplacedParts(ms, text, USER);
      FirstReplacedParts(ms, text, ASSISTANT);
    } else {
      PartsOfFirst(Message("user", text), ms, USER);
      PartsOfFirst(Message("user", text), ms, ASSISTANT);
    }
  }

  lemma PartsOfLast(ms: seq<Message>, m: Message, roles: set<string>)
    ensures Parts(ms + [m], roles) == Parts(ms, roles) + if m.role in roles then [m.content] else []
  {
    PartsOfJoined(ms, [m], roles);
  }

  lemma {:induction false} LastReplacedUser(ms: seq<Message>, text: string)
    ensures Parts(LastReplaced(ms, text), USER) == Parts(ms, USER)
  {
    if ms != [] {
      var front, last := ms[..|ms| - 1], ms[|ms| - 1];
      assert ms == front + [last];
      LastReplacedNext(front, last, text);
      PartsOfLast(front, last, USER);
      PartsOfLast(front, last.(content := text), USER);
      LastReplacedUser(front, text);
      PartsOfLast(LastReplaced(front, text), last, USER);
    }
  }

  lemma {:induction false} LastReplacedAssistant(ms: seq<Message>, text: string)
    requires Parts(ms, ASSISTANT) != []
    ensures Parts(LastReplaced(ms, text), ASSISTANT) == Parts(ms, ASSISTANT)[..|Parts(ms, ASSISTANT)| - 1] + [text]
  {
    var front, last := ms[..|ms| - 1], ms[|ms| - 1];
    assert ms == front + [last];
    LastReplacedNext(front, last, text);
    PartsOfLast(front, last, ASSISTANT);
    if last.role in ASSISTANT {
      PartsOfLast(front, last.(content := text), ASSISTANT);
    } else {
      LastReplacedAssistant(front, text);
      PartsOfLast(LastReplaced(front, text), last, ASSISTANT);
    }
  }

  lemma ResponseParts(ms: seq<Message>, text: string)
    ensures Parts(WithResponse(ms, text), ASSISTANT) ==
      if Parts(ms, ASSISTANT) == [] then [text] else Parts(ms, ASSISTANT)[..|Parts(ms, ASSISTANT)| - 1] + [text]
    ensures Parts(WithResponse(ms, text), USER) == Parts(ms, USER)
  {
    NoParts(ms, ASSISTANT);
    if Parts(ms, ASSISTANT) != [] {
      LastReplacedAssistant(ms, text);
      LastReplacedUser(ms, text);
    } else {
      PartsOfLast(ms, Message("assistant", text), ASSISTANT);
      PartsOfLast(ms, Message("assistant", text), USER);
    }
  }

  lemma {:induction false} JoinEndsWith(parts: seq<string>, last: string)
    ensures |Join(parts + [last])| >= |last| + if parts == [] then 0 else 2
  {
    if parts != [] {
      JoinEndsWith(parts[1..], last);
      assert (parts + [last])[1..] == parts[1..] + [last];
    }
  }

  /** When reading back what `update_content` wrote is exact: for a chat, when it has at most one turn of each side that
      is written; for a custom row, when no empty text is covered by an older column; for the other formats always. */
  predicate ReadsBack(x: Item, prompt: Option<string>, response: Option<string>, show: Show) {
    match x.format
    case Chat =>
      && (prompt.Some? ==> |Parts(x.messages.GetOr([]), USER)| <= 1)
      && (response.Some? ==> |Parts(x.messages.GetOr([]), ASSISTANT)| <= 1)
    case Custom =>
      && (prompt == Some("") ==> FirstOf(x.raw, [Key.Instruction, Key.Input], show) == "")
      && (response == Some("") ==> FirstOf(x.raw, [Key.Output, Key.TextColumn], show) == "")
    case _ => true
  }

  /** What a caller expects to read: the texts given, and those not given as they were. */
  function Expected(x: Item, prompt: Option<string>, response: Option<string>, show: Show): (string, string) {
    var (p, r) := PromptAndResponse(x, show);
    if x.format == Raw then (p, response.GetOr(prompt.GetOr(r))) else (prompt.GetOr(p), response.GetOr(r))
  }

  lemma FirstOfUpdated(d: Dict, k: Key, t: string, keys: seq<Key>, show: Show)
    requires keys != [] && keys[0] == k && k in d && d[k] == JStr(t)
    ensures FirstOf(d, keys, show) == if t != "" then t else FirstOf(d, keys[1..], show)
  {
  }

  lemma {:induction false} FirstOfAgrees(d: Dict, e: Dict, keys: seq<Key>, show: Show)
    requires forall k :: k in keys ==> (k in d <==> k in e) && (k in d ==> d[k] == e[k])
    ensures FirstOf(d, keys, show) == FirstOf(e, keys, show)
  {
    if keys != [] {
      assert keys[0] in keys;
      FirstOfAgrees(d, e, keys[1..], show);
    }
  }

  lemma UpdateThenReadCustom(x: Item, prompt: Option<string>, response: Option<string>, show: Show)
    requires x.format == Custom
    ensures PromptAndResponse(Updated(x, prompt, response), show) == Expected(x, prompt, response, show) <==>
        ReadsBack(x, prompt, response, show)
  {
    var d := Updated(x, prompt, response).raw;
    UpdatedColumn(x.raw, d, Key.Prompt, prompt, [Key.Instruction, Key.Input], show);
    UpdatedColumn(x.raw, d, Key.Response, response, [Key.Output, Key.TextColumn], show);
    assert [Key.Prompt] + [Key.Instruction, Key.Input] == [Key.Prompt, Key.Instruction, Key.Input];
    assert [Key.Response] + [Key.Output, Key.TextColumn] == [Key.Response, Key.Output, Key.TextColumn];
  }

  /** One side of a custom row: the column written first, and the older columns behind it. */
  lemma UpdatedColumn(raw: Dict, d: Dict, k: Key, given: Option<string>, older: seq<Key>, show: Show)
    requires forall o :: o in older ==> (o in raw <==> o in d) && (o in raw ==> raw[o] == d[o])
    requires if given.Some? then k in d && d[k] == JStr(given.value)
             else (k in raw <==> k in d) && (k in raw ==> raw[k] == d[k])
    ensures FirstOf(d, [k] + older, show) == given.GetOr(FirstOf(raw, [k] + older, show))
       <==> (given == Some("") ==> FirstOf(raw, older, show) == "")
  {
    assert ([k] + older)[1..] == older;
    FirstOfAgrees(raw, d, older, show);
    if given.Some? {
      FirstOfUpdated(d, k, given.value, [k] + older, show);
    } else {
      FirstOfAgrees(raw, d, [k] + older, show);
    }
  }

  lemma JoinStartsWith(t: string, rest: seq<string>)
    ensures Join([t] + rest) == t <==> rest == []
  {
    if rest != [] {
      assert ([t] + rest)[1..] == rest;
      assert |Join([t] + rest)| >= |t| + 2;
    } else {
      assert [t] + rest == [t];
    }
  }

  lemma JoinIsLast(front: seq<string>, t: string)
    ensures Join(front + [t]) == t <==> front == []
  {
    JoinEndsWith(front, t);
    if front == [] { assert front + [t] == [t]; }
  }

  /** The turns of one side without the one that was replaced. */
  function OtherTurns(ms: seq<Message>, roles: set<string>): seq<string> {
    var all := Parts(ms, roles);
    if all == [] then [] else if roles == USER then all[1..] else all[..|all| - 1]
  }

  lemma PromptGiven(ms: seq<Message>, prompt: string)
    ensures Parts(WithPrompt(ms, prompt), USER) == [prompt] + OtherTurns(ms, USER)
    ensures Parts(WithPrompt(ms, prompt), ASSISTANT) == Parts(ms, ASSISTANT)
  {
    PromptParts(ms, prompt);
    assert [prompt] + [] == [prompt];
  }

  lemma ResponseGiven(ms: seq<Message>, response: string)
    ensures Parts(WithResponse(ms, response), ASSISTANT) == OtherTurns(ms, ASSISTANT) + [response]
    ensures Parts(WithResponse(ms, response), USER) == Parts(ms, USER)
  {
    hide WithResponse;
    ResponseParts(ms, response);
    assert [] + [response] == [response];
    assert USER != ASSISTANT by { assert "user" !in ASSISTANT; }
  }

  lemma UpdatedParts(ms: seq<Message>, prompt: Option<string>, response: Option<string>)
    ensures Parts(WithTexts(ms, prompt, response), USER) ==
            if prompt.Some? then [prompt.value] + OtherTurns(ms, USER) else Parts(ms, USER)
    ensures Parts(WithTexts(ms, prompt, response), ASSISTANT) ==
            if response.Some? then OtherTurns(ms, ASSISTANT) + [response.value] else Parts(ms, ASSISTANT)
  {
    hide WithPrompt, WithResponse, Parts;
    if prompt.Some? {
      PromptGiven(ms, prompt.value);
      if response.Some? { ResponseGiven(WithPrompt(ms, prompt.value), response.value); }
    } else if response.Some? {
      ResponseGiven(ms, response.value);
    }
  }

  lemma UpdateThenReadChat(x: Item, prompt: Option<string>, response: Option<string>, show: Show)
    requires x.format == Chat
    ensures PromptAndResponse(Updated(x, prompt, response), show) == Expected(x, prompt, response, show) <==>
        ReadsBack(x, prompt, response, show)
  {
    var ms := x.messages.GetOr([]);
    UpdatedParts(ms, prompt, response);
    JoinStartsWith(prompt.GetOr(""), OtherTurns(ms, USER));
    JoinIsLast(OtherTurns(ms, ASSISTANT), response.GetOr(""));
    OneTurn(ms);
  }

  lemma OneTurn(ms: seq<Message>)
    ensures OtherTurns(ms, USER) == [] <==> |Parts(ms, USER)| <= 1
    ensures OtherTurns(ms, ASSISTANT) == [] <==> |Parts(ms, ASSISTANT)| <= 1
  {
    assert USER != ASSISTANT by { assert "user" !in ASSISTANT; }
  }

  /** Whichever of the two texts are given: reading back gives them, and the other as it was, exactly when `ReadsBack`
      says so. */
  lemma UpdateThenRead(x: Item, prompt: Option<string>, response: Option<string>, show: Show)
    ensures PromptAndResponse(Updated(x, prompt, response), show) == Expected(x, prompt, response, show)
       <==> ReadsBack(x, prompt, response, show)
  {
    match x.format
    case Chat => UpdateThenReadChat(x, prompt, response, show);
    case Custom => UpdateThenReadCustom(x, prompt, response, show);
    case _ =>
  }

  /** An input for which it is not: the second user turn stays behind the new prompt. */
  lemma SecondTurnStaysExample(x: Item, show: Show)
    requires x.format == Chat && x.messages == Some([Message("user", "a"), Message("user", "b")])
    ensures PromptAndResponse(Updated(x, Some("new"), Some("answer")), show) == (Join(["new", "b"]), "answer")
    ensures Join(["new", "b"]) == "new" + "\n\n" + "b"
  {
    var ms := x.messages.value;
    TwoTurns(ms[0], ms[1], USER);
    TwoTurns(ms[0], ms[1], ASSISTANT);
    assert ms == [ms[0], ms[1]];
    PromptParts(ms, "new");
    assert ["new"] + ["a", "b"][1..] == ["new", "b"];
    ResponseParts(WithPrompt(ms, "new"), "answer");
    assert ["new", "b"][1..] == ["b"];
  }

  lemma TwoTurns(m: Message, n: Message, roles: set<string>)
    ensures Parts([m, n], roles) ==
      (if m.role in roles then [m.content] else []) + (if n.role in roles then [n.content] else [])
  {
    PartsOfFirst(m, [n], roles);
    PartsOfFirst(n, [], roles);
    assert [m, n] == [m] + [n] && [n] == [n] + [];
  }
}
