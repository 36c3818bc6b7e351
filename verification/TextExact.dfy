/** Which text a row is read as, by prompt and response, for classification and for comparison: stated by what the text
    must be, not by how it is put together. */
module TextExact {
  import Dedup
  import opened ItemText
  import opened Schemas
  import opened Wrappers

  // ---------------------------------------------------------------------------------------
  // Strings
  // ---------------------------------------------------------------------------------------

  lemma SpacesAre(c: char)
    ensures IsSpace(c) <==> c == ' ' || 9 <= c as int <= 13 || 28 <= c as int <= 31
  {
  }

  predicate Trimmed(s: string, lo: int, hi: int) {
    && 0 <= lo <= hi <= |s|
    && (forall i :: 0 <= i < lo ==> IsSpace(s[i])) && (forall i :: hi <= i < |s| ==> IsSpace(s[i]))
    && (lo < hi ==> !IsSpace(s[lo]) && !IsSpace(s[hi - 1]))
  }

  lemma {:induction false} LStripIs(s: string) returns (lo: nat)
    ensures lo <= |s| && LStrip(s) == s[lo..] && (forall i :: 0 <= i < lo ==> IsSpace(s[i]))
    ensures lo < |s| ==> !IsSpace(s[lo])
  {
    lo := 0;
    if s != "" && IsSpace(s[0]) {
      var n := LStripIs(s[1..]);
      lo := n + 1;
      forall i | 0 <= i < lo ensures IsSpace(s[i]) { if i > 0 { assert s[i] == s[1..][i - 1]; } }
    }
  }

  lemma {:induction false} RStripIs(s: string) returns (hi: nat)
    ensures hi <= |s| && RStrip(s) == s[..hi] && (forall i :: hi <= i < |s| ==> IsSpace(s[i]))
    ensures hi > 0 ==> !IsSpace(s[hi - 1])
  {
    hi := |s|;
    if s != "" && IsSpace(s[|s| - 1]) {
      var front := s[..|s| - 1];
      hi := RStripIs(front);
      assert front[..hi] == s[..hi];
      forall i | hi <= i < |s| ensures IsSpace(s[i]) { if i < |front| { assert front[i] == s[i]; } }
    }
  }

  /** Stripping leaves what lies between the first and the last character that is no white space. */
  lemma StripExactly(s: string) returns (lo: nat, hi: nat)
    ensures Trimmed(s, lo, hi) && Strip(s) == s[lo..hi]
  {
    lo := LStripIs(s);
    var rest := s[lo..];
    var end := RStripIs(rest);
    hi := lo + end;
    assert rest[..end] == s[lo..hi];
    forall i | hi <= i < |s| ensures IsSpace(s[i]) { assert s[i] == rest[i - lo]; }
  }

  /** Texts are joined by a blank line between them. */
  lemma {:induction false} JoinExactly(a: seq<string>, b: seq<string>, t: string)
    ensures Join([]) == "" && Join([t]) == t
    ensures a != [] && b != [] ==> Join(a + b) == Join(a) + "\n\n" + Join(b)
  {
    if |a| > 1 && b != [] {
      JoinExactly(a[1..], b, t);
      assert (a + b)[1..] == a[1..] + b;
    } else if |a| == 1 && b != [] {
      assert (a + b)[1..] == b;
    }
  }

  /** The turns of one side, in order. */
  lemma PartsExactly(a: seq<Message>, b: seq<Message>, m: Message, roles: set<string>)
    ensures Parts([], roles) == [] && Parts([m], roles) == if m.role in roles then [m.content] else []
    ensures Parts(a + b, roles) == Parts(a, roles) + Parts(b, roles)
  {
    PartsOfFirst(m, [], roles);
    assert [m] + [] == [m];
    PartsOfJoined(a, b, roles);
  }

  // ---------------------------------------------------------------------------------------
  // Reading a row
  // ---------------------------------------------------------------------------------------

  /** The text of the first of these columns that has a truth value, or nothing. */
  predicate FirstTruthy(d: Dict, keys: seq<Key>, text: string, show: Show) {
    || (text == "" && forall k :: k in keys ==> !(k in d && d[k].Truthy()))
    || exists i :: 0 <= i < |keys| && keys[i] in d && d[keys[i]].Truthy() && text == Text(d[keys[i]], show)
         && forall j :: 0 <= j < i ==> !(keys[j] in d && d[keys[j]].Truthy())
  }

  lemma {:induction false} FirstOfIs(d: Dict, keys: seq<Key>, show: Show)
    ensures FirstTruthy(d, keys, FirstOf(d, keys, show), show)
  {
    if keys != [] && !(keys[0] in d && d[keys[0]].Truthy()) {
      var rest := keys[1..];
      FirstOfIs(d, rest, show);
      if i :| 0 <= i < |rest| && rest[i] in d && d[rest[i]].Truthy() && FirstOf(d, rest, show) == Text(d[rest[i]], show)
              && forall j :: 0 <= j < i ==> !(rest[j] in d && d[rest[j]].Truthy()) {
        assert keys[i + 1] == rest[i];
        forall j | 0 <= j < i + 1 ensures !(keys[j] in d && d[keys[j]].Truthy()) {
          if j > 0 { assert keys[j] == rest[j - 1]; }
        }
      }
    }
  }

  /** Prompt and response, by format. */
  lemma PromptAndResponseExactly(x: Item, show: Show)
    ensures
      var (p, r) := PromptAndResponse(x, show);
      var i, c, ms := x.instruction.GetOr(""), x.input.GetOr(""), x.messages.GetOr([]);
      && (x.format == Alpaca ==> r == x.output.GetOr("") && (c == "" ==> p == i) && (i == "" ==> p == c))
      && (x.format == Alpaca && i != "" && c != "" ==> p == i + "\n\nContext / Input:\n" + c)
      && (x.format == Chat ==>
            p == Join(Parts(ms, {"user", "human"})) && r == Join(Parts(ms, {"assistant", "gpt", "model"})))
      && (x.format == Dpo ==> p == x.prompt.GetOr("") && r == x.chosen.GetOr(""))
      && (x.format == Raw ==> p == "" && r == x.text.GetOr(""))
      && (x.format == Custom ==>
            && FirstTruthy(x.raw, [Key.Prompt, Key.Instruction, Key.Input], p, show)
            && FirstTruthy(x.raw, [Key.Response, Key.Output, Key.TextColumn], r, show))
  {
    hide FirstOf, FirstTruthy, Join, Parts;
    FirstOfIs(x.raw, [Key.Prompt, Key.Instruction, Key.Input], show);
    FirstOfIs(x.raw, [Key.Response, Key.Output, Key.TextColumn], show);
  }

  predicate HasText(d: Dict, k: Key, show: Show) { k in d && d[k] != JNull && Strip(Text(d[k], show)) != "" }

  /** The text of the first of these columns that has some text, or nothing. */
  predicate FirstWithText(d: Dict, keys: seq<Key>, text: string, show: Show) {
    || (text == "" && forall k :: k in keys ==> !HasText(d, k, show))
    || exists i :: 0 <= i < |keys| && HasText(d, keys[i], show) && text == Text(d[keys[i]], show)
         && forall j :: 0 <= j < i ==> !HasText(d, keys[j], show)
  }

  lemma {:induction false} FirstClassifiableIs(d: Dict, keys: seq<Key>, show: Show)
    ensures FirstWithText(d, keys, FirstClassifiable(d, keys, show), show)
  {
    hide Strip;
    if keys != [] && !HasText(d, keys[0], show) {
      var rest := keys[1..];
      FirstClassifiableIs(d, rest, show);
      if i :| 0 <= i < |rest| && HasText(d, rest[i], show) && FirstClassifiable(d, rest, show) == Text(d[rest[i]], show)
              && forall j :: 0 <= j < i ==> !HasText(d, rest[j], show) {
        assert keys[i + 1] == rest[i];
        forall j | 0 <= j < i + 1 ensures !HasText(d, keys[j], show) { if j > 0 { assert keys[j] == rest[j - 1]; } }
      }
    }
  }

  /** The text to classify, by format: what is asked, not what is answered. */
  lemma ClassificationTextExactly(x: Item, show: Show)
    ensures
      var t, i, c := ClassificationText(x, show), x.instruction.GetOr(""), x.input.GetOr("");
      && (x.format == Raw ==> t == x.text.GetOr(""))
      && (x.format == Chat ==> t == Join(Parts(x.messages.GetOr([]), {"user", "human"})))
      && (x.format == Alpaca ==>
          (c == "" ==> t == i) && (i == "" ==> t == c) && (i != "" && c != "" ==> t == i + "\n\n" + c))
      && (x.format == Dpo ==> t == x.prompt.GetOr(""))
      && (x.format == Custom ==>
            FirstWithText(x.raw,
              [Key.TextColumn, Key.Other("content"), Key.Query, Key.Prompt, Key.Instruction, Key.Input], t, show))
  {
    hide FirstClassifiable, FirstWithText, Parts, Join;
    FirstClassifiableIs(x.raw,
        [Key.TextColumn, Key.Other("content"), Key.Query, Key.Prompt, Key.Instruction, Key.Input], show);
    var i, c := x.instruction.GetOr(""), x.input.GetOr("");
    JoinExactly([i], [c], i);
    JoinExactly([], [], c);
    var none: seq<string> := [];
    assert [i] + none == [i] && none + [c] == [c] && none + none == none;
  }

  // ---------------------------------------------------------------------------------------
  // Replacing the text of a row
  // ---------------------------------------------------------------------------------------

  /** Which fields `update_content` sets, and to what; it leaves all others. */
  lemma UpdateExactly(x: Item, prompt: Option<string>, response: Option<string>)
    ensures
      var y := Updated(x, prompt, response);
      match x.format
      case Alpaca =>
        && y == x.(instruction := y.instruction, input := y.input, output := y.output)
        && (if prompt.Some? then y.instruction == prompt && y.input == None
            else y.instruction == x.instruction && y.input == x.input)
        && y.output == if response.Some? then response else x.output
      case Chat =>
        var asked := if prompt.Some? then WithPrompt(x.messages.GetOr([]), prompt.value) else x.messages.GetOr([]);
        y == x.(messages := Some(if response.Some? then WithResponse(asked, response.value) else asked))
      case Dpo =>
        && y == x.(prompt := y.prompt, chosen := y.chosen)
        && y.prompt == (if prompt.Some? then prompt else x.prompt)
        && y.chosen == if response.Some? then response else x.chosen
      case Raw =>
        && y == x.(text := y.text)
        && (response.Some? ==> y.text == response)
        && (response.None? ==> y.text == if prompt.Some? then prompt else x.text)
      case Custom =>
        && y == x.(raw := y.raw)
        && (forall k :: k in x.raw.Keys + y.raw.Keys && k != Key.Prompt && k != Key.Response ==>
              k in x.raw && k in y.raw && y.raw[k] == x.raw[k])
        && (if prompt.Some? then Key.Prompt in y.raw && y.raw[Key.Prompt] == JStr(prompt.value)
            else (Key.Prompt in y.raw <==> Key.Prompt in x.raw)
                 && (Key.Prompt in x.raw ==> y.raw[Key.Prompt] == x.raw[Key.Prompt]))
        && (if response.Some? then Key.Response in y.raw && y.raw[Key.Response] == JStr(response.value)
            else (Key.Response in y.raw <==> Key.Response in x.raw)
                 && (Key.Response in x.raw ==> y.raw[Key.Response] == x.raw[Key.Response]))
  {
    hide WithPrompt, WithResponse;
  }

  /** The first user turn gets the new text, or a new first turn does. */
  lemma {:induction false} PromptSetExactly(ms: seq<Message>, text: string, i: nat)
    requires i < |ms| && ms[i].role in {"user", "human"}
    requires forall j :: 0 <= j < i ==> ms[j].role !in {"user", "human"}
    ensures WithPrompt(ms, text) == ms[i := Message(ms[i].role, text)]
  {
    FirstReplacedAt(ms, text, i);
  }

  lemma {:induction false} FirstReplacedAt(ms: seq<Message>, text: string, i: nat)
    requires i < |ms| && ms[i].role in USER && forall j :: 0 <= j < i ==> ms[j].role !in USER
    ensures FirstReplaced(ms, text) == ms[i := Message(ms[i].role, text)]
  {
    if i > 0 {
      FirstReplacedAt(ms[1..], text, i - 1);
      assert ms[i := Message(ms[i].role, text)] == [ms[0]] + ms[1..][i - 1 := Message(ms[i].role, text)];
    }
  }

  /** The last assistant turn gets the new text, or a new last turn does. */
  lemma {:induction false} ResponseSetExactly(ms: seq<Message>, text: string, i: nat)
    requires i < |ms| && ms[i].role in {"assistant", "gpt", "model"}
    requires forall j :: i < j < |ms| ==> ms[j].role !in {"assistant", "gpt", "model"}
    ensures WithResponse(ms, text) == ms[i := Message(ms[i].role, text)]
  {
    LastReplacedAt(ms, text, i);
  }

  lemma {:induction false} LastReplacedAt(ms: seq<Message>, text: string, i: nat)
    requires i < |ms| && ms[i].role in ASSISTANT && forall j :: i < j < |ms| ==> ms[j].role !in ASSISTANT
    ensures LastReplaced(ms, text) == ms[i := Message(ms[i].role, text)]
  {
    var n := |ms| - 1;
    if i < n {
      LastReplacedAt(ms[..n], text, i);
      assert ms[i := Message(ms[i].role, text)] == ms[..n][i := Message(ms[i].role, text)] + [ms[n]];
    } else {
      assert ms[i := Message(ms[i].role, text)] == ms[..n] + [Message(ms[i].role, text)];
    }
  }

  lemma NewTurnExactly(ms: seq<Message>, text: string)
    ensures (forall m :: m in ms ==> m.role !in {"user", "human"}) ==>
        WithPrompt(ms, text) == [Message("user", text)] + ms
    ensures (forall m :: m in ms ==> m.role !in {"assistant", "gpt", "model"}) ==>
      WithResponse(ms, text) == ms + [Message("assistant", text)]
  {
  }

  // ---------------------------------------------------------------------------------------
  // Comparing rows
  // ---------------------------------------------------------------------------------------

  predicate Word(w: string) { w != "" && forall i :: 0 <= i < |w| ==> !IsSpace(w[i]) }

  /** Splitting at white space: a word is itself, and a space separates. */
  lemma SplitExactly(w: string, a: string, c: char, b: string)
    ensures Dedup.Split("") == []
    ensures Word(w) ==> Dedup.Split(w) == [w]
    ensures IsSpace(c) ==> Dedup.Split(a + [c] + b) == Dedup.Split(a) + Dedup.Split(b)
  {
    if Word(w) { SplitWord(w); }
    if IsSpace(c) { SplitAtSpace(a, c, b); }
  }

  lemma {:induction false} WordEnds(s: string, tail: string)
    requires forall i :: 0 <= i < |s| ==> !IsSpace(s[i])
    requires tail == "" || IsSpace(tail[0])
    ensures Dedup.WordEnd(s + tail) == |s|
  {
    if s == "" {
      assert s + tail == tail;
    } else {
      WordEnds(s[1..], tail);
      assert (s + tail)[1..] == s[1..] + tail;
    }
  }

  lemma SplitWord(w: string)
    requires Word(w)
    ensures Dedup.Split(w) == [w]
  {
    WordEnds(w, "");
    assert w + "" == w && w[..|w|] == w && w[|w|..] == "";
  }

  lemma {:induction false} SplitAtSpace(a: string, c: char, b: string)
    requires IsSpace(c)
    ensures Dedup.Split(a + [c] + b) == Dedup.Split(a) + Dedup.Split(b)
    decreases |a|
  {
    var s := a + [c] + b;
    if a == "" {
      assert s[1..] == b;
    } else if IsSpace(a[0]) {
      SplitAtSpace(a[1..], c, b);
      assert s[1..] == a[1..] + [c] + b;
    } else {
      var n := Dedup.WordEnd(a);
      WordStops(a, [c] + b);
      assert s == a + ([c] + b);
      SplitAtSpace(a[n..], c, b);
      assert s[..n] == a[..n] && s[n..] == a[n..] + [c] + b;
    }
  }

  lemma {:induction false} WordStops(a: string, tail: string)
    requires tail != "" && IsSpace(tail[0])
    ensures Dedup.WordEnd(a + tail) == Dedup.WordEnd(a)
    ensures a != "" && !IsSpace(a[0]) ==> Dedup.WordEnd(a) > 0
  {
    if a == "" {
      assert a + tail == tail;
    } else {
      WordStops(a[1..], tail);
      assert (a + tail)[1..] == a[1..] + tail;
    }
  }

  /** Only the ASCII capitals change. */
  lemma LowerExactly(s: string, i: nat)
    requires i < |s|
    ensures |Dedup.Lower(s)| == |s|
    ensures 65 <= s[i] as int <= 90 ==> Dedup.Lower(s)[i] as int == s[i] as int + 32
    ensures !(65 <= s[i] as int <= 90) ==> Dedup.Lower(s)[i] == s[i]
  {
  }

  predicate RunOfThree(words: seq<string>, i: int, g: Dedup.Shingle) {
    0 <= i && i + 3 <= |words| && g == words[i..i + 3]
  }

  /** The shingles of a text: its runs of three lower-case words, or its words when there are fewer. */
  lemma SignatureExactly(x: Item, show: Show, g: Dedup.Shingle)
    ensures
      var words := Dedup.Split(Dedup.Lower(Dedup.Content(x, show)));
      g in Dedup.Signature(x, show) <==>
        if |words| < 3 then |g| == 1 && g[0] in words
        else exists i :: RunOfThree(words, i, g)
  {
    var words := Dedup.Split(Dedup.Lower(Dedup.Content(x, show)));
    hide Dedup.Content, Dedup.Split, Dedup.Lower;
    if |words| >= 3 {
      if i :| RunOfThree(words, i, g) { assert Dedup.Gram(words, i) == g; }
      if i :| 0 <= i <= |words| - 3 && Dedup.Gram(words, i) == g { assert RunOfThree(words, i, g); }
    } else if |g| == 1 && g[0] in words {
      var i :| 0 <= i < |words| && words[i] == g[0];
      assert g == [words[i]];
    }
  }

  /** Rows are compared by prompt and response, and when those are blank by the text to classify. */
  lemma ContentExactly(x: Item, show: Show)
    ensures
      var (p, r) := PromptAndResponse(x, show);
      var both, content := Strip(p + " " + r), Dedup.Content(x, show);
      && (both != "" ==> content == both) && (both == "" ==> content == ClassificationText(x, show))
      && Dedup.ExactKey(x, show) == Strip(content)
  {
    hide PromptAndResponse, ClassificationText, Strip;
  }

  /** Two rows are near when at least `threshold` of their shingles are common. */
  lemma NearExactly(a: set<Dedup.Shingle>, b: set<Dedup.Shingle>, threshold: real)
    ensures Dedup.Near(a, b, threshold) <==> (a != {} || b != {}) && |a * b| as real >= threshold * |a + b| as real
  {
    var m, n := |a * b| as real, |a + b| as real;
    if a + b == {} {
      assert a == {} && b == {};
    } else {
      assert n > 0.0 && m / n * n == m;
    }
  }
}
