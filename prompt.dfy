/**
 * The text prompts of the `commit` command: the sanitizer every answer goes
 * through, the line editor behind `askWithCharacterCount` as a step function
 * over the text and the cursor, the test-answer context each prompt reads
 * from, and the answer loop of `askWithValidation`. The terminal is a queue of
 * key chunks (raw mode) and a queue of whole lines (readline); drawing is not
 * modelled.
 */
module Prompt {
  import opened Wrappers
  import opened Text
  import Rules
  import I18n

  // ---------------------------------------------------------------------------
  // sanitizeInputSafe

  /** `[\x00-\x08\x0B-\x0C\x0E-\x1F\x7F]`, the class the first `replace` removes. */
  predicate InFirstClass(c: char) {
    c <= '\U{8}' || c == '\U{B}' || c == '\U{C}' || ('\U{E}' <= c <= '\U{1F}') || c == '\U{7F}'
  }

  /** `[\u0000-\u001F\u007F-\u009F]`, the class of the second `replace`. */
  predicate InSecondClass(c: char) {
    c <= '\U{1F}' || ('\U{7F}' <= c <= '\U{9F}')
  }

  /** `[  ]`, the class of the third `replace`. */
  predicate IsLineSeparator(c: char) {
    c == '\U{2028}' || c == '\U{2029}'
  }

  /** What the sanitizer removes: the C0 and C1 controls, DEL, and the two Unicode line separators. */
  predicate Unsafe(c: char) {
    c <= '\U{1F}' || ('\U{7F}' <= c <= '\U{9F}') || c == '\U{2028}' || c == '\U{2029}'
  }

  /** Text the sanitizer leaves alone. */
  predicate Clean(s: string) {
    forall i :: 0 <= i < |s| ==> !Unsafe(s[i])
  }

  /**
   * `sanitizeInputSafe`: three global replacements in a row. The second one's
   * callback keeps a match only when it is a space, which its class never
   * matches.
   */
  function SanitizeSafe(s: string): string {
    var first := Filter(s, c => !InFirstClass(c));
    var second := Filter(first, c => !InSecondClass(c) || c == ' ');
    Filter(second, c => !IsLineSeparator(c))
  }

  /** The three replacements together remove exactly the unsafe characters. */
  lemma SanitizeSafeIsOneFilter(s: string)
    ensures SanitizeSafe(s) == Filter(s, c => !Unsafe(c))
  {
    var first := Filter(s, c => !InFirstClass(c));
    FilterFilter(s, c => !InFirstClass(c), c => !InSecondClass(c) || c == ' ', c => !InSecondClass(c));
    FilterFilter(s, c => !InSecondClass(c), c => !IsLineSeparator(c), c => !Unsafe(c));
  }

  /**
   * What the sanitizer promises: the result holds no unsafe character and
   * every safe character of the input, it is never longer, clean text comes
   * back unchanged, and a second pass changes nothing. Tab, line feed and
   * carriage return are removed as well.
   */
  lemma SanitizeSafeSpec(s: string)
    ensures var r := SanitizeSafe(s);
      Clean(r) && |r| <= |s|
      && (forall c :: c in r <==> c in s && !Unsafe(c))
      && (Clean(s) ==> r == s)
      && SanitizeSafe(r) == r
    ensures Unsafe('\t') && Unsafe('\n') && Unsafe('\r') && !Unsafe(' ')
  {
    SanitizeSafeIsOneFilter(s);
    var r := Filter(s, c => !Unsafe(c));
    if Clean(s) {
      FilterKeepsAll(s, c => !Unsafe(c));
    }
    SanitizeSafeIsOneFilter(r);
    FilterKeepsAll(r, c => !Unsafe(c));
  }

  // ---------------------------------------------------------------------------
  // The line editor of askWithCharacterCount

  const CtrlC: string := "\U{3}"
  const Escape: string := "\U{1B}"
  const KeyLeft: string := "\U{1B}[D"
  const KeyRight: string := "\U{1B}[C"
  const KeyHome: string := "\U{1B}[H"
  const KeyHomeAlt: string := "\U{1B}[1~"
  const KeyEnd: string := "\U{1B}[F"
  const KeyEndAlt: string := "\U{1B}[4~"
  const KeyDelete: string := "\U{1B}[3~"

  predicate IsEnter(key: string) { key == "\r" || key == "\n" }
  predicate IsBackspace(key: string) { key == "\U{7F}" || key == "\U{8}" }
  predicate IsHome(key: string) { key == KeyHome || key == KeyHomeAlt }
  predicate IsEnd(key: string) { key == KeyEnd || key == KeyEndAlt }

  /** The keys with an editing action of their own. */
  predicate IsCommandKey(key: string) {
    key == CtrlC || IsEnter(key) || IsBackspace(key) || key == KeyLeft || key == KeyRight
    || IsHome(key) || IsEnd(key) || key == KeyDelete
  }

  /** The other keys that are dropped: escape sequences and keys starting with a control code. */
  predicate IsIgnoredKey(key: string) {
    StartsWith(key, Escape) || (|key| > 0 && key[0] < ' ')
  }

  /** The text typed so far and the cursor's offset in it. */
  datatype EditState = EditState(text: string, cursor: int)

  predicate Bounded(st: EditState) {
    0 <= st.cursor <= |st.text|
  }

  /** `maxLength` as a condition: `undefined` and 0 set no limit. */
  predicate HasLimit(maxLength: Option<int>) {
    maxLength.Some? && maxLength.value != 0
  }

  predicate TooLong(s: string, maxLength: Option<int>) {
    HasLimit(maxLength) && |s| > maxLength.value
  }

  /** Why Enter did not submit: the error shown before editing goes on. */
  datatype Refusal = OverLimit(max: int) | RequiredEmpty

  /** What one key does to the prompt. */
  datatype StepResult =
    | Editing(state: EditState)                  // keep reading keys
    | Refused(state: EditState, why: Refusal)    // an error is shown, then keep reading keys
    | Submitted(value: string)                   // resolve with the value
    | Cancelled                                  // Ctrl-C: reject with SIGINT

  /** `currentInput` with the character before or at `at` taken out. */
  function Without(text: string, at: nat): string
    requires at < |text|
  {
    text[..at] + text[at + 1..]
  }

  /** The keys `onKeypress` tells apart; any other chunk is text. */
  datatype Key = Interrupt | Submit | Backspace | Left | Right | Home | End | Delete | Other(chunk: string)

  /** Which key a chunk read in raw mode is, checked in `onKeypress`'s order. */
  function KeyOf(key: string): (k: Key)
    ensures k == Interrupt <==> key == CtrlC
    ensures k == Submit <==> IsEnter(key)
    ensures k.Other? <==> !IsCommandKey(key)
    ensures k.Other? ==> k.chunk == key
  {
    if key == CtrlC then Interrupt
    else if IsEnter(key) then Submit
    else if IsBackspace(key) then Backspace
    else if key == KeyLeft then Left
    else if key == KeyRight then Right
    else if IsHome(key) then Home
    else if IsEnd(key) then End
    else if key == KeyDelete then Delete
    else Other(key)
  }

  /**
   * `onKeypress(key)`: Ctrl-C cancels; Enter submits the sanitized text unless it
   * is over the limit or the field is required and blank; Backspace, Delete and
   * the cursor keys edit within bounds; escape sequences and control keys are
   * dropped; anything else is inserted, sanitized, at the cursor.
   */
  function Step(st: EditState, key: string, maxLength: Option<int>, required: bool): (r: StepResult)
    requires Bounded(st)
    ensures (r.Editing? || r.Refused?) ==> Bounded(r.state) && (Clean(st.text) ==> Clean(r.state.text))
    ensures r.Refused? ==> r.state == st
    ensures r.Submitted? ==> IsEnter(key) && !TooLong(r.value, maxLength) && !(required && IsBlank(r.value))
    ensures r.Cancelled? <==> key == CtrlC
  {
    match KeyOf(key)
    case Interrupt => Cancelled
    case Submit =>
      var s := SanitizeSafe(st.text);
      if TooLong(s, maxLength) then Refused(st, OverLimit(maxLength.value))
      else if required && IsBlank(s) then Refused(st, RequiredEmpty)
      else Submitted(s)
    case Backspace =>
      if st.cursor > 0 then Editing(EditState(Without(st.text, st.cursor - 1), st.cursor - 1)) else Editing(st)
    case Left =>
      if st.cursor > 0 then Editing(st.(cursor := st.cursor - 1)) else Editing(st)
    case Right =>
      if st.cursor < |st.text| then Editing(st.(cursor := st.cursor + 1)) else Editing(st)
    case Home => Editing(st.(cursor := 0))
    case End => Editing(st.(cursor := |st.text|))
    case Delete =>
      if st.cursor < |st.text| then Editing(st.(text := Without(st.text, st.cursor))) else Editing(st)
    case Other(chunk) => Editing(Typed(st, chunk))
  }

  /**
   * A key that is not a command: dropped when it is ignored, else its
   * sanitized text inserted at the cursor, which moves past it.
   */
  function Typed(st: EditState, key: string): (r: EditState)
    requires Bounded(st)
    ensures Bounded(r) && (Clean(st.text) ==> Clean(r.text))
    ensures IsIgnoredKey(key) || Clean(key) ==> |r.text| == |st.text| + (if IsIgnoredKey(key) then 0 else |key|)
  {
    if IsIgnoredKey(key) then st
    else
      var safe := SanitizeSafe(key);
      SanitizeSafeSpec(key);
      if |safe| > 0 then
        EditState(st.text[..st.cursor] + safe + st.text[st.cursor..], st.cursor + |safe|)
      else st
  }

  /**
   * The cursor keys move the cursor and leave the text alone: Left and Right by
   * one within bounds, Home to the start, End to the end.
   */
  lemma CursorKeys(st: EditState, maxLength: Option<int>, required: bool)
    requires Bounded(st)
    ensures Step(st, KeyLeft, maxLength, required)
      == Editing(st.(cursor := if st.cursor > 0 then st.cursor - 1 else st.cursor))
    ensures Step(st, KeyRight, maxLength, required)
      == Editing(st.(cursor := if st.cursor < |st.text| then st.cursor + 1 else st.cursor))
    ensures Step(st, KeyHome, maxLength, required) == Step(st, KeyHomeAlt, maxLength, required)
      == Editing(st.(cursor := 0))
    ensures Step(st, KeyEnd, maxLength, required) == Step(st, KeyEndAlt, maxLength, required)
      == Editing(st.(cursor := |st.text|))
  {
  }

  /**
   * Backspace after the start removes the one character before the cursor and
   * moves back onto its place; Delete before the end removes the one character
   * at the cursor and stays. At the bounds both change nothing.
   */
  lemma DeletingKeys(st: EditState, maxLength: Option<int>, required: bool)
    requires Bounded(st)
    ensures var b := Step(st, "\U{7F}", maxLength, required);
      b == Step(st, "\U{8}", maxLength, required) && b.Editing?
      && (st.cursor > 0 ==>
            |b.state.text| == |st.text| - 1 && b.state.cursor == st.cursor - 1
            && b.state.text[..b.state.cursor] == st.text[..st.cursor - 1]
            && b.state.text[b.state.cursor..] == st.text[st.cursor..])
      && (st.cursor == 0 ==> b.state == st)
    ensures var d := Step(st, KeyDelete, maxLength, required);
      d.Editing?
      && (st.cursor < |st.text| ==>
            |d.state.text| == |st.text| - 1 && d.state.cursor == st.cursor
            && d.state.text[..st.cursor] == st.text[..st.cursor]
            && d.state.text[st.cursor..] == st.text[st.cursor + 1..])
      && (st.cursor == |st.text| ==> d.state == st)
  {
  }

  /**
   * Any other key is either dropped, when it starts with ESC or with a control
   * code, or inserted at the cursor in its sanitized form, the cursor moving
   * past it.
   */
  lemma OtherKeys(st: EditState, key: string, maxLength: Option<int>, required: bool)
    requires Bounded(st) && !IsCommandKey(key)
    ensures IsIgnoredKey(key) ==> Step(st, key, maxLength, required) == Editing(st)
    ensures !IsIgnoredKey(key) ==>
      var safe := SanitizeSafe(key);
      Step(st, key, maxLength, required)
        == Editing(EditState(st.text[..st.cursor] + safe + st.text[st.cursor..], st.cursor + |safe|))
  {
    if !IsIgnoredKey(key) && |SanitizeSafe(key)| == 0 {
      assert st.text[..st.cursor] + SanitizeSafe(key) + st.text[st.cursor..] == st.text;
    }
  }

  /**
   * Enter never truncates: over the limit, or required and blank, the text and
   * the cursor stay as they are and an error is shown; otherwise the sanitized
   * text is submitted. Ctrl-C cancels.
   */
  lemma EnterAndCtrlC(st: EditState, maxLength: Option<int>, required: bool)
    requires Bounded(st)
    ensures var s := SanitizeSafe(st.text);
      Step(st, "\r", maxLength, required) == Step(st, "\n", maxLength, required)
      == if TooLong(s, maxLength) then Refused(st, OverLimit(maxLength.value))
         else if required && IsBlank(s) then Refused(st, RequiredEmpty)
         else Submitted(s)
    ensures Step(st, CtrlC, maxLength, required) == Cancelled
  {
  }

  /** Typing a safe character and then Backspace gives back the state before. */
  lemma BackspaceUndoesTyping(st: EditState, ch: char, maxLength: Option<int>, required: bool)
    requires Bounded(st) && !Unsafe(ch) && ch != '\U{7F}'
    ensures var typed := Step(st, [ch], maxLength, required);
      typed.Editing? && Step(typed.state, "\U{7F}", maxLength, required) == Editing(st)
  {
    var key := [ch];
    assert !IsCommandKey(key) && !IsIgnoredKey(key) by {
      assert key[0] == ch;
    }
    var t := st.text[..st.cursor] + key + st.text[st.cursor..];
    assert Typed(st, key) == EditState(t, st.cursor + 1) by {
      SanitizeSafeSpec(key);
      assert SanitizeSafe(key) == key;
    }
    assert Step(st, key, maxLength, required) == Editing(EditState(t, st.cursor + 1));
    assert Step(EditState(t, st.cursor + 1), "\U{7F}", maxLength, required) == Editing(st) by {
      assert Without(t, st.cursor) == st.text;
    }
  }

  /** Left followed by Delete removes what Backspace removes, and leaves the cursor where Backspace does. */
  lemma LeftDeleteIsBackspace(st: EditState, maxLength: Option<int>, required: bool)
    requires Bounded(st) && st.cursor > 0
    ensures var left := Step(st, KeyLeft, maxLength, required);
      left.Editing? && Step(left.state, KeyDelete, maxLength, required) == Step(st, "\U{8}", maxLength, required)
  {
  }

  /** The message shown for a refusal: the over-limit text is fixed, the required one is looked up. */
  function RefusalMessage(why: Refusal, lang: Option<string>): (m: string)
    ensures why.RequiredEmpty? && lang.Some? ==> m == "commit.validation.required"
  {
    match why
    case OverLimit(max) => "Entrada excede o limite de " + IntToString(max) + " caracteres. Tente novamente."
    case RequiredEmpty =>
      if lang.Some? then
        var m := I18n.Translate(lang.value, "commit.validation.required", []);
        I18n.MissingKeysComeBackAsKeys(lang.value);
        if m != "" then m else RequiredFallback
      else RequiredFallback
  }

  const RequiredFallback: string := "Este campo é obrigatório. Por favor, forneça uma resposta."

  /**
   * The key handler of an interactive `askWithCharacterCount`, between the
   * first key and the clean-up that detaches it.
   */
  class LineEditor {
    const maxLength: Option<int>
    const required: bool
    var text: string
    var cursor: int
    var listening: bool

    /** The editor's state as a value. */
    function State(): EditState
      reads this
    {
      EditState(text, cursor)
    }

    predicate Valid()
      reads this
    {
      Bounded(State()) && Clean(text)
    }

    constructor(maxLength: Option<int>, required: bool)
      ensures Valid() && listening && text == "" && cursor == 0
      ensures this.maxLength == maxLength && this.required == required
    {
      this.maxLength := maxLength;
      this.required := required;
      text := "";
      cursor := 0;
      listening := true;
    }

    /**
     * `onKeypress(key)`: the new state is the one `Step` gives; Enter with an
     * acceptable text and Ctrl-C end the prompt and detach the handler.
     */
    method OnKey(key: string) returns (r: StepResult)
      requires Valid() && listening
      modifies this
      ensures Valid()
      ensures r == Step(old(State()), key, maxLength, required)
      ensures r.Editing? || r.Refused? ==> State() == r.state && listening
      ensures r.Submitted? || r.Cancelled? ==> State() == old(State()) && !listening
      ensures r.Submitted? ==> r.value == text
    {
      if key == CtrlC {
        listening := false;
        return Cancelled;
      }
      if key == "\r" || key == "\n" {
        r := OnEnter(key);
        return;
      }
      if key == "\U{7F}" || key == "\U{8}" || key == KeyLeft || key == KeyRight || key == KeyHome
         || key == KeyHomeAlt || key == KeyEnd || key == KeyEndAlt || key == KeyDelete {
        OnEditKey(key);
        return Editing(State());
      }
      OnOtherKey(key);
      return Editing(State());
    }

    /** Enter: the sanitized text is submitted, or an error is shown and editing goes on. */
    method OnEnter(key: string) returns (r: StepResult)
      requires Valid() && listening && IsEnter(key)
      modifies this`listening
      ensures Valid()
      ensures r == Step(old(State()), key, maxLength, required)
      ensures r.Refused? ==> listening
      ensures r.Submitted? ==> !listening && r.value == text
    {
      var sanitized := SanitizeSafe(text);
      if HasLimit(maxLength) && |sanitized| > maxLength.value {
        return Refused(State(), OverLimit(maxLength.value));
      }
      if required && IsBlank(sanitized) {
        return Refused(State(), RequiredEmpty);
      }
      SanitizeSafeSpec(text);
      listening := false;
      return Submitted(sanitized);
    }

    /** Backspace, Delete and the cursor keys. */
    method OnEditKey(key: string)
      requires Valid() && !IsEnter(key) && key != CtrlC
      requires IsBackspace(key) || key == KeyLeft || key == KeyRight || IsHome(key) || IsEnd(key) || key == KeyDelete
      modifies this`text, this`cursor
      ensures Valid()
      ensures Step(old(State()), key, maxLength, required) == Editing(State())
    {
      if key == "\U{7F}" || key == "\U{8}" {
        if cursor > 0 {
          text := text[..cursor - 1] + text[cursor..];
          cursor := cursor - 1;
        }
      } else if key == KeyLeft {
        if cursor > 0 {
          cursor := cursor - 1;
        }
      } else if key == KeyRight {
        if cursor < |text| {
          cursor := cursor + 1;
        }
      } else if key == KeyHome || key == KeyHomeAlt {
        cursor := 0;
      } else if key == KeyEnd || key == KeyEndAlt {
        cursor := |text|;
      } else {
        if cursor < |text| {
          text := text[..cursor] + text[cursor + 1..];
        }
      }
    }

    /** Any other key: dropped when it starts with ESC or a control code, else inserted sanitized. */
    method OnOtherKey(key: string)
      requires Valid() && !IsCommandKey(key)
      modifies this`text, this`cursor
      ensures State() == Typed(old(State()), key)
      ensures Valid()
    {
      if StartsWith(key, Escape) || (|key| > 0 && key[0] < ' ') {
        return;
      }
      ghost var before := State();
      var safe := SanitizeSafe(key);
      if |safe| > 0 {
        text := text[..cursor] + safe + text[cursor..];
        cursor := cursor + |safe|;
      }
      assert State() == Typed(before, key);
    }
  }

  /** How a prompt ends: resolved with a value, or rejected with a reason. */
  datatype Reply = Resolved(value: string) | Rejected(reason: string)

  /**
   * The keys from index `from` on fed to the editor from `st`: the reply at
   * the key that ends the prompt and the index just past it, or no reply when
   * the keys run out first.
   */
  function Feed(st: EditState, keys: seq<string>, from: nat, maxLength: Option<int>, required: bool): (f: (Option<Reply>, nat))
    requires Bounded(st) && from <= |keys|
    ensures from <= f.1 <= |keys|
    ensures f.0.None? ==> f.1 == |keys|
    ensures f.0.Some? ==> f.1 > from
    decreases |keys| - from
  {
    if from == |keys| then (None, from)
    else
      match Step(st, keys[from], maxLength, required)
      case Submitted(v) => (Some(Resolved(v)), from + 1)
      case Cancelled => (Some(Rejected("SIGINT")), from + 1)
      case Editing(next) => Feed(next, keys, from + 1, maxLength, required)
      case Refused(next, _) => Feed(next, keys, from + 1, maxLength, required)
  }

  /**
   * An interactive prompt only ever resolves on Enter, with text within the
   * limit and not blank when required.
   */
  lemma {:induction false} FeedResolvesAcceptable(st: EditState, keys: seq<string>, from: nat, maxLength: Option<int>, required: bool)
    requires Bounded(st) && from <= |keys|
    ensures var f := Feed(st, keys, from, maxLength, required);
      f.0.Some? && f.0.value.Resolved? ==>
        var v := f.0.value.value; !TooLong(v, maxLength) && !(required && IsBlank(v)) && IsEnter(keys[f.1 - 1])
  {
    FeedAcceptable(st, keys, from, maxLength, required);
    FeedEndKey(st, keys, from, maxLength, required);
  }

  /** A feed that resolved did so with text within the limit, not blank when required. */
  predicate AcceptableReply(f: (Option<Reply>, nat), maxLength: Option<int>, required: bool) {
    f.0.Some? && f.0.value.Resolved? ==> !TooLong(f.0.value.value, maxLength) && !(required && IsBlank(f.0.value.value))
  }

  /** Whatever feeding keys resolves with is acceptable to the prompt. */
  lemma {:induction false} FeedAcceptable(st: EditState, keys: seq<string>, from: nat, maxLength: Option<int>, required: bool)
    requires Bounded(st) && from <= |keys|
    decreases |keys| - from
    ensures AcceptableReply(Feed(st, keys, from, maxLength, required), maxLength, required)
  {
    if from < |keys| {
      var r := Step(st, keys[from], maxLength, required);
      FeedOnce(st, keys, from, maxLength, required);
      if r.Editing? || r.Refused? {
        FeedAcceptable(r.state, keys, from + 1, maxLength, required);
      }
    }
  }

  /** The key at which a feed that ended did: Enter when it resolved, Ctrl-C when it rejected. */
  predicate EndsOnKey(f: (Option<Reply>, nat), keys: seq<string>) {
    f.0.Some? && 0 < f.1 <= |keys| ==> KeyOf(keys[f.1 - 1]) == if f.0.value.Resolved? then Submit else Interrupt
  }

  /** Feeding keys ends, if it does, on Enter with a reply and on Ctrl-C with a rejection. */
  lemma {:induction false} FeedEndKey(st: EditState, keys: seq<string>, from: nat, maxLength: Option<int>, required: bool)
    requires Bounded(st) && from <= |keys|
    decreases |keys| - from
    ensures EndsOnKey(Feed(st, keys, from, maxLength, required), keys)
  {
    if from < |keys| {
      var r := Step(st, keys[from], maxLength, required);
      if r.Editing? || r.Refused? {
        FeedOnce(st, keys, from, maxLength, required);
        FeedEndKey(r.state, keys, from + 1, maxLength, required);
      } else {
        FeedStops(st, keys, from, maxLength, required);
      }
    }
  }

  /** A key that ends the prompt is Enter with a reply, Ctrl-C with a rejection. */
  lemma FeedStops(st: EditState, keys: seq<string>, from: nat, maxLength: Option<int>, required: bool)
    requires Bounded(st) && from < |keys|
    requires var r := Step(st, keys[from], maxLength, required); r.Submitted? || r.Cancelled?
    ensures EndsOnKey(Feed(st, keys, from, maxLength, required), keys)
  {
    FeedOnce(st, keys, from, maxLength, required);
  }

  /** Feeding one key that does not end the prompt goes on from the next; one that does ends there. */
  lemma FeedOnce(st: EditState, keys: seq<string>, from: nat, maxLength: Option<int>, required: bool)
    requires Bounded(st) && from < |keys|
    ensures var r := Step(st, keys[from], maxLength, required);
      var f := Feed(st, keys, from, maxLength, required);
      (r.Editing? || r.Refused? ==> f == Feed(r.state, keys, from + 1, maxLength, required))
      && (r.Submitted? ==> f == (Some(Resolved(r.value)), from + 1))
      && (r.Cancelled? ==> f == (Some(Rejected("SIGINT")), from + 1))
  {
  }

  /** An interactive prompt only rejects on Ctrl-C. */
  lemma {:induction false} FeedRejectsOnCtrlC(st: EditState, keys: seq<string>, from: nat, maxLength: Option<int>, required: bool)
    requires Bounded(st) && from <= |keys|
    ensures var f := Feed(st, keys, from, maxLength, required);
      f.0.Some? && f.0.value.Rejected? ==> keys[f.1 - 1] == CtrlC
  {
    FeedEndKey(st, keys, from, maxLength, required);
  }

  /** Typed text is clean: what an interactive prompt resolves with has no unsafe character. */
  lemma {:induction false} FeedResolvesClean(st: EditState, keys: seq<string>, from: nat, maxLength: Option<int>, required: bool)
    requires Bounded(st) && Clean(st.text) && from <= |keys|
    decreases |keys| - from
    ensures var f := Feed(st, keys, from, maxLength, required);
      f.0.Some? && f.0.value.Resolved? ==> Clean(f.0.value.value)
  {
    if from < |keys| {
      var r := Step(st, keys[from], maxLength, required);
      if r.Submitted? {
        SanitizeSafeSpec(st.text);
      } else if r.Editing? || r.Refused? {
        FeedResolvesClean(r.state, keys, from + 1, maxLength, required);
      }
    }
  }

  // ---------------------------------------------------------------------------
  // Where the answers come from

  /** The answer that stands for Ctrl-C in the test answers. */
  const Sentinel: string := "__SIGINT__"

  /** `JSON.parse` of `COMMITZERO_TEST_ANSWERS`: a list of answers, another value, or a syntax error. */
  datatype ParsedAnswers = AnswerList(items: seq<string>) | OtherValue | NotJson

  /** `TestAnswerCtx`: the test answers, their raw text, and the next answer's index. */
  class AnswerContext {
    const answers: Option<seq<string>>
    const raw: Option<string>
    var index: nat

    /** `initTestAnswerCtx()`, given the variable's value and what `JSON.parse` makes of it. */
    constructor(env: Option<string>, parsed: ParsedAnswers)
      ensures index == 0
      ensures Rules.Truthy(env) && parsed.AnswerList? ==> answers == Some(parsed.items) && raw == env
      ensures Rules.Truthy(env) && parsed.OtherValue? ==> answers == None && raw == env
      ensures !Rules.Truthy(env) || parsed.NotJson? ==> answers == None && raw == None
    {
      index := 0;
      if Rules.Truthy(env) && !parsed.NotJson? {
        answers := if parsed.AnswerList? then Some(parsed.items) else None;
        raw := env;
      } else {
        answers := None;
        raw := None;
      }
    }
  }

  /** The terminal: its raw-mode flag, the key chunks typed in raw mode, and the lines typed at readline prompts. */
  class Terminal {
    const isTTY: bool
    const rows: int
    const keys: seq<string>
    const lines: seq<Reply>
    var pos: nat
    var linePos: nat
    var rawMode: bool

    predicate Valid()
      reads this
    {
      pos <= |keys| && linePos <= |lines|
    }

    constructor(isTTY: bool, rows: int, keys: seq<string>, lines: seq<Reply>)
      ensures Valid() && pos == 0 && linePos == 0 && !rawMode
      ensures this.isTTY == isTTY && this.rows == rows && this.keys == keys && this.lines == lines
    {
      this.isTTY := isTTY;
      this.rows := rows;
      this.keys := keys;
      this.lines := lines;
      pos := 0;
      linePos := 0;
      rawMode := false;
    }
  }

  /** The environment switches the prompts consult. */
  datatype Switches = Switches(
    skipInputPrompt: bool,   // COMMITSKIP_INPUT_PROMPT=1
    ci: bool,                // CI=true
    nodeTest: bool,          // NODE_TEST=1
    skipSelectPrompt: bool,  // COMMITSKIP_SELECT_PROMPT=1
    useAltScreen: bool)      // USE_ALT_SCREEN=1

  /** `!!stdin.isTTY && !forceNonInteractive`. */
  predicate Interactive(isTTY: bool, sw: Switches) {
    isTTY && !(sw.skipInputPrompt || sw.ci || sw.nodeTest)
  }

  /** Everything the prompts read that does not change. */
  datatype Script = Script(answers: Option<seq<string>>, raw: Option<string>, keys: seq<string>, lines: seq<Reply>)

  /** How far the prompts have read: the next test answer, key chunk and line. */
  datatype Cursor = Cursor(index: nat, pos: nat, linePos: nat)

  predicate Fits(s: Script, at: Cursor) {
    at.pos <= |s.keys| && at.linePos <= |s.lines|
  }

  function ScriptOf(ctx: AnswerContext, term: Terminal): Script {
    Script(ctx.answers, ctx.raw, term.keys, term.lines)
  }

  function CursorOf(ctx: AnswerContext, term: Terminal): Cursor
    reads ctx, term
  {
    Cursor(ctx.index, term.pos, term.linePos)
  }

  /** How a prompt call ends: with a reply, waiting for more input, or re-asking forever. */
  datatype Ask = Got(reply: Reply) | Blocked | Loops

  /** The test answer at the index, when there is one. */
  predicate HasAnswer(s: Script, at: Cursor) {
    s.answers.Some? && at.index < |s.answers.value|
  }

  /**
   * What `askWithCharacterCount` replies and how far it reads: the next test
   * answer; else the raw variable text, consuming nothing; else "" when the
   * terminal is not interactive; else the keys fed to the editor.
   */
  function CharCountAsk(s: Script, at: Cursor, interactive: bool, maxLength: Option<int>, required: bool): (r: (Ask, Cursor))
    requires Fits(s, at)
    ensures Fits(s, r.1) && r.1.linePos == at.linePos
  {
    if HasAnswer(s, at) then
      var a := s.answers.value[at.index];
      (Got(if a == Sentinel then Rejected("SIGINT") else Resolved(SanitizeSafe(a))), at.(index := at.index + 1))
    else if Rules.Truthy(s.raw) then
      (Got(if Contains(s.raw.value, Sentinel) then Rejected("SIGINT") else Resolved(SanitizeSafe(s.raw.value))), at)
    else if !interactive then (Got(Resolved("")), at)
    else
      var e := EditAsk(s.keys, at.pos, maxLength, required);
      (e.0, at.(pos := e.1))
  }

  /** The keys from `pos` fed to a fresh editor: the reply, or none yet, and where reading stopped. */
  function EditAsk(keys: seq<string>, pos: nat, maxLength: Option<int>, required: bool): (r: (Ask, nat))
    requires pos <= |keys|
    ensures pos <= r.1 <= |keys| && !r.0.Loops?
    ensures r.0.Blocked? ==> r.1 == |keys|
    ensures r.0.Got? ==> r.1 > pos
  {
    var f := Feed(EditState("", 0), keys, pos, maxLength, required);
    (if f.0.Some? then Got(f.0.value) else Blocked, f.1)
  }

  /**
   * Each prompt consumes exactly one test answer while there are any: the
   * sentinel rejects, anything else resolves sanitized. Past the end the raw
   * variable text is the reply every time, rejected when it holds the
   * sentinel anywhere.
   */
  lemma TestAnswers(s: Script, at: Cursor, interactive: bool, maxLength: Option<int>, required: bool)
    requires Fits(s, at)
    ensures var r := CharCountAsk(s, at, interactive, maxLength, required);
      (HasAnswer(s, at) ==>
        r.1 == at.(index := at.index + 1)
        && (s.answers.value[at.index] == Sentinel <==> r.0 == Got(Rejected("SIGINT")))
        && (s.answers.value[at.index] != Sentinel ==> r.0 == Got(Resolved(SanitizeSafe(s.answers.value[at.index])))))
      && (!HasAnswer(s, at) && Rules.Truthy(s.raw) ==>
        r.1 == at
        && (r.0 == Got(Rejected("SIGINT")) <==> Contains(s.raw.value, Sentinel)))
  {
  }

  /**
   * `askWithCharacterCount` without its drawing: the test answers first, then
   * the raw variable text, then "" when not interactive, and otherwise the
   * line editor run in raw mode, which is switched back off once the prompt
   * has ended.
   */
  method AskWithCharacterCount(ctx: AnswerContext, term: Terminal, sw: Switches, maxLength: Option<int>, required: bool)
    returns (r: Ask)
    requires term.Valid()
    modifies ctx`index, term`pos, term`rawMode
    ensures term.Valid()
    ensures (r, CursorOf(ctx, term)) == CharCountAsk(ScriptOf(ctx, term), old(CursorOf(ctx, term)),
                                                     Interactive(term.isTTY, sw), maxLength, required)
    ensures r.Got? ==> term.rawMode == old(term.rawMode)
  {
    ghost var at := CursorOf(ctx, term);
    if ctx.answers.Some? && ctx.index < |ctx.answers.value| {
      var answer := ctx.answers.value[ctx.index];
      ctx.index := ctx.index + 1;
      if answer == Sentinel {
        return Got(Rejected("SIGINT"));
      }
      // a required field left blank is resolved all the same in this branch
      return Got(Resolved(SanitizeSafe(answer)));
    }
    assert !HasAnswer(ScriptOf(ctx, term), at);
    if ctx.raw.Some? && ctx.raw.value != "" {
      if Contains(ctx.raw.value, Sentinel) {
        return Got(Rejected("SIGINT"));
      }
      return Got(Resolved(SanitizeSafe(ctx.raw.value)));
    }
    if !(term.isTTY && !(sw.skipInputPrompt || sw.ci || sw.nodeTest)) {
      return Got(Resolved(""));
    }
    r := EditLine(term, maxLength, required);
    assert CursorOf(ctx, term) == at.(pos := term.pos);
  }

  /**
   * The interactive part of `askWithCharacterCount`: raw mode on, the keys fed
   * to a fresh editor until Enter submits or Ctrl-C cancels, raw mode back as
   * it was.
   */
  method EditLine(term: Terminal, maxLength: Option<int>, required: bool) returns (r: Ask)
    requires term.Valid()
    modifies term`pos, term`rawMode
    ensures term.Valid()
    ensures (r, term.pos) == EditAsk(term.keys, old(term.pos), maxLength, required)
    ensures r.Got? ==> term.rawMode == old(term.rawMode)
  {
    var wasRaw := term.rawMode;
    term.rawMode := true;
    var stop;
    r, stop := EditKeys(term.keys, term.pos, maxLength, required);
    term.pos := stop;
    if r.Got? {
      term.rawMode := wasRaw;
    }
  }

  /** A fresh editor fed the keys from `start`: the reply, if the prompt ended, and where reading stopped. */
  method EditKeys(keys: seq<string>, start: nat, maxLength: Option<int>, required: bool) returns (r: Ask, stop: nat)
    requires start <= |keys|
    ensures (r, stop) == EditAsk(keys, start, maxLength, required)
  {
    var editor := new LineEditor(maxLength, required);
    var reply;
    reply, stop := FeedEditor(editor, keys, start);
    r := if reply.Some? then Got(reply.value) else Blocked;
  }

  /** The keys from `start` on, handed one by one to a listening editor until the prompt ends. */
  method FeedEditor(editor: LineEditor, keys: seq<string>, start: nat) returns (reply: Option<Reply>, stop: nat)
    requires editor.Valid() && editor.listening && start <= |keys|
    modifies editor
    ensures (reply, stop) == Feed(old(editor.State()), keys, start, editor.maxLength, editor.required)
  {
    var pos := start;
    ghost var total := Feed(editor.State(), keys, start, editor.maxLength, editor.required);
    while pos < |keys|
      invariant start <= pos <= |keys|
      invariant editor.Valid() && editor.listening
      invariant Feed(editor.State(), keys, pos, editor.maxLength, editor.required) == total
      decreases |keys| - pos
    {
      var ended := FeedOne(editor, keys, pos, total);
      pos := pos + 1;
      if ended.Some? {
        return ended, pos;
      }
    }
    return None, pos;
  }

  /**
   * The key at `pos` handed to the editor, the keys after it still to be fed
   * to reach `total`: the reply when it ends the prompt, or the same `total`
   * ahead of the new state.
   */
  method FeedOne(editor: LineEditor, keys: seq<string>, pos: nat, ghost total: (Option<Reply>, nat))
    returns (ended: Option<Reply>)
    requires editor.Valid() && editor.listening && pos < |keys|
    requires Feed(editor.State(), keys, pos, editor.maxLength, editor.required) == total
    modifies editor
    ensures ended.Some? ==> total == (ended, pos + 1)
    ensures ended.None? ==> editor.Valid() && editor.listening
    ensures ended.None? ==> Feed(editor.State(), keys, pos + 1, editor.maxLength, editor.required) == total
  {
    var step := editor.OnKey(keys[pos]);
    if step.Submitted? {
      return Some(Resolved(step.value));
    }
    if step.Cancelled? {
      return Some(Rejected("SIGINT"));
    }
    return None;
  }

  // ---------------------------------------------------------------------------
  // askWithValidation

  /** What the answer loop makes of one answer: take it, cancel, or ask again. */
  datatype Verdict = Accept(value: string) | Retry

  /**
   * The checks of `askWithValidation` on a sanitized answer: a required field
   * left blank and an answer the validator refuses are asked again, except
   * under `NODE_TEST=1`, which takes them as they are.
   */
  function Judge(s: string, accepts: string -> bool, required: bool, nodeTest: bool): (v: Verdict)
    ensures v.Accept? ==> v.value == s
    ensures v.Retry? <==> !nodeTest && ((required && IsBlank(s)) || !accepts(s))
  {
    if required && IsBlank(s) then (if nodeTest then Accept(s) else Retry)
    else if !accepts(s) then (if nodeTest then Accept(s) else Retry)
    else Accept(s)
  }

  /**
   * How many re-asks nested one in another the JavaScript call stack holds
   * before it overflows with a `RangeError`; it depends on the engine and its
   * stack size, and is fixed here.
   */
  const StackRoom: nat := 10000

  /** The rejection a call stack overflow gives inside a promise executor. */
  const StackOverflow: string := "RangeError"

  /**
   * The test-answer loop of `askWithValidation` from answer `index` on: each
   * answer (past the end, "") is trimmed and compared with the sentinel, then
   * sanitized and judged. A refused answer re-asks by a nested call; the call
   * stack holds the nested calls up to the read at index `last`, and a refusal
   * there overflows it, so the promise rejects with `RangeError`.
   */
  function ScriptedValidation(answers: seq<string>, index: nat, accepts: string -> bool, required: bool,
                              nodeTest: bool, last: nat): (r: (Ask, nat))
    ensures r.0.Got? && r.1 > index
    decreases last - index
  {
    var ans := ScriptedRead(answers, index);
    if ans == Sentinel then (Got(Rejected("cancelled")), index + 1)
    else match Judge(SanitizeSafe(ans), accepts, required, nodeTest)
      case Accept(v) => (Got(Resolved(v)), index + 1)
      case Retry =>
        if index >= last then (Got(Rejected(StackOverflow)), index + 1)
        else ScriptedValidation(answers, index + 1, accepts, required, nodeTest, last)
  }

  /** The test answer read at `index`: past the end, "". */
  function ScriptedRead(answers: seq<string>, index: nat): string {
    if index < |answers| then Trim(answers[index]) else ""
  }

  /** One read of the test-answer loop that does not re-ask ends it with the next index. */
  lemma ScriptedStop(answers: seq<string>, index: nat, accepts: string -> bool, required: bool,
                     nodeTest: bool, last: nat)
    requires var v := Judge(SanitizeSafe(ScriptedRead(answers, index)), accepts, required, nodeTest);
      ScriptedRead(answers, index) == Sentinel || v.Accept? || index >= last
    ensures var ans := ScriptedRead(answers, index);
      var v := Judge(SanitizeSafe(ans), accepts, required, nodeTest);
      ScriptedValidation(answers, index, accepts, required, nodeTest, last)
        == (Got(if ans == Sentinel then Rejected("cancelled")
                else if v.Accept? then Resolved(v.value) else Rejected(StackOverflow)), index + 1)
  {
  }

  /** A refused read short of `last` re-asks at the next index. */
  lemma ScriptedRetry(answers: seq<string>, index: nat, accepts: string -> bool, required: bool,
                      nodeTest: bool, last: nat)
    requires ScriptedRead(answers, index) != Sentinel && index < last
    requires Judge(SanitizeSafe(ScriptedRead(answers, index)), accepts, required, nodeTest).Retry?
    ensures ScriptedValidation(answers, index, accepts, required, nodeTest, last)
      == ScriptedValidation(answers, index + 1, accepts, required, nodeTest, last)
  {
  }

  /**
   * Once the test answers have run out, a validator that refuses "" makes
   * every read re-ask until the call stack overflows: the reply is the
   * `RangeError` rejection, after the read at `last`.
   */
  lemma {:induction false} ExhaustedRefusalOverflows(answers: seq<string>, index: nat, accepts: string -> bool,
                                                     required: bool, nodeTest: bool, last: nat)
    requires |answers| <= index <= last && Judge("", accepts, required, nodeTest).Retry?
    ensures ScriptedValidation(answers, index, accepts, required, nodeTest, last)
      == (Got(Rejected(StackOverflow)), last + 1)
    decreases last - index
  {
    assert SanitizeSafe("") == "";
    if index < last {
      ExhaustedRefusalOverflows(answers, index + 1, accepts, required, nodeTest, last);
    }
  }

  /** The readline loop of `askWithValidation`: Ctrl-C cancels, a refused line is asked again. */
  function LineValidation(lines: seq<Reply>, linePos: nat, accepts: string -> bool, required: bool): (r: (Ask, nat))
    requires linePos <= |lines|
    ensures linePos <= r.1 <= |lines|
    ensures r.0.Got? || r.0.Blocked?
    decreases |lines| - linePos
  {
    if linePos == |lines| then (Blocked, linePos)
    else match lines[linePos]
      case Rejected(_) => (Got(Rejected("cancelled")), linePos + 1)
      case Resolved(line) =>
        match Judge(SanitizeSafe(Trim(line)), accepts, required, false)
        case Accept(v) => (Got(Resolved(v)), linePos + 1)
        case Retry => LineValidation(lines, linePos + 1, accepts, required)
  }

  /** What `askWithValidation` replies and how far it reads. */
  function ValidationAsk(s: Script, at: Cursor, interactive: bool, accepts: string -> bool, required: bool, nodeTest: bool)
    : (r: (Ask, Cursor))
    requires Fits(s, at)
    ensures Fits(s, r.1) && r.1.pos == at.pos
  {
    if s.answers.Some? then
      var v := ScriptedValidation(s.answers.value, at.index, accepts, required, nodeTest, at.index + StackRoom);
      (v.0, at.(index := v.1))
    else if !interactive then (Got(Resolved("")), at)
    else
      var v := LineValidation(s.lines, at.linePos, accepts, required);
      (v.0, at.(linePos := v.1))
  }

  /**
   * A test answer the validator takes is consumed alone (index + 1) and
   * resolves trimmed and sanitized; one that trims to the sentinel rejects;
   * past the end the reply is "" when "" is acceptable.
   */
  lemma ScriptedValidationSteps(answers: seq<string>, index: nat, accepts: string -> bool,
                                required: bool, nodeTest: bool, last: nat)
    ensures var r := ScriptedValidation(answers, index, accepts, required, nodeTest, last);
      (index < |answers| && Trim(answers[index]) == Sentinel ==> r == (Got(Rejected("cancelled")), index + 1))
      && (index < |answers| && Trim(answers[index]) != Sentinel
          && Judge(SanitizeSafe(Trim(answers[index])), accepts, required, nodeTest).Accept? ==>
            r == (Got(Resolved(SanitizeSafe(Trim(answers[index])))), index + 1))
      && (index >= |answers| && Judge("", accepts, required, nodeTest).Accept? ==> r == (Got(Resolved("")), index + 1))
      && (r.0.reply.Resolved? ==>
            nodeTest || (accepts(r.0.reply.value) && !(required && IsBlank(r.0.reply.value))))
  {
    ScriptedFirstRead(answers, index, accepts, required, nodeTest, last);
    ScriptedResolvesAccepted(answers, index, accepts, required, nodeTest, last);
  }

  /** The first read decides the reply when it is the sentinel or an accepted answer. */
  lemma ScriptedFirstRead(answers: seq<string>, index: nat, accepts: string -> bool,
                          required: bool, nodeTest: bool, last: nat)
    ensures var r := ScriptedValidation(answers, index, accepts, required, nodeTest, last);
      (index < |answers| && Trim(answers[index]) == Sentinel ==> r == (Got(Rejected("cancelled")), index + 1))
      && (index < |answers| && Trim(answers[index]) != Sentinel
          && Judge(SanitizeSafe(Trim(answers[index])), accepts, required, nodeTest).Accept? ==>
            r == (Got(Resolved(SanitizeSafe(Trim(answers[index])))), index + 1))
      && (index >= |answers| && Judge("", accepts, required, nodeTest).Accept? ==> r == (Got(Resolved("")), index + 1))
  {
    assert SanitizeSafe("") == "";
  }

  /** Whatever the loop resolves with, the validator accepted, unless `NODE_TEST` is set. */
  lemma {:induction false} ScriptedResolvesAccepted(answers: seq<string>, index: nat, accepts: string -> bool,
                                                    required: bool, nodeTest: bool, last: nat)
    ensures var r := ScriptedValidation(answers, index, accepts, required, nodeTest, last);
      r.0.reply.Resolved? ==> nodeTest || (accepts(r.0.reply.value) && !(required && IsBlank(r.0.reply.value)))
    decreases last - index
  {
    var ans := ScriptedRead(answers, index);
    var v := Judge(SanitizeSafe(ans), accepts, required, nodeTest);
    if ans == Sentinel || v.Accept? || index >= last {
      ScriptedStop(answers, index, accepts, required, nodeTest, last);
    } else {
      ScriptedRetry(answers, index, accepts, required, nodeTest, last);
      ScriptedResolvesAccepted(answers, index + 1, accepts, required, nodeTest, last);
    }
  }

  /**
   * `askWithValidation` without its drawing: with test answers, the loop over
   * them; else "" when not interactive; else the readline loop over the typed
   * lines.
   */
  method AskWithValidation(ctx: AnswerContext, term: Terminal, sw: Switches, accepts: string -> bool, required: bool)
    returns (r: Ask)
    requires term.Valid()
    modifies ctx`index, term`linePos
    ensures term.Valid()
    ensures (r, CursorOf(ctx, term)) == ValidationAsk(ScriptOf(ctx, term), old(CursorOf(ctx, term)),
                                                      Interactive(term.isTTY, sw), accepts, required, sw.nodeTest)
  {
    if ctx.answers.Some? {
      r := ScriptedLoop(ctx, accepts, required, sw.nodeTest, ctx.index + StackRoom);
      return;
    }
    if !(term.isTTY && !(sw.skipInputPrompt || sw.ci || sw.nodeTest)) {
      return Got(Resolved(""));
    }
    r := ReadlineLoop(term, accepts, required);
  }

  /**
   * `askQuestion` over the test answers from `index` on: ask again until one
   * is taken or cancels, or until a refusal at `last` overflows the call
   * stack; `next` is the index after the last read.
   */
  method AskScripted(answers: seq<string>, index: nat, accepts: string -> bool, required: bool, nodeTest: bool,
                     last: nat) returns (r: Ask, next: nat)
    ensures (r, next) == ScriptedValidation(answers, index, accepts, required, nodeTest, last)
  {
    var i := index;
    var ans := ScriptedRead(answers, i);
    var verdict := Judge(SanitizeSafe(ans), accepts, required, nodeTest);
    while ans != Sentinel && verdict.Retry? && i < last
      invariant index <= i
      invariant ans == ScriptedRead(answers, i) && verdict == Judge(SanitizeSafe(ans), accepts, required, nodeTest)
      invariant ScriptedValidation(answers, i, accepts, required, nodeTest, last)
        == ScriptedValidation(answers, index, accepts, required, nodeTest, last)
      decreases last - i
    {
      ScriptedRetry(answers, i, accepts, required, nodeTest, last);
      i := i + 1;
      ans := ScriptedRead(answers, i);
      verdict := Judge(SanitizeSafe(ans), accepts, required, nodeTest);
    }
    ScriptedStop(answers, i, accepts, required, nodeTest, last);
    r := if ans == Sentinel then Got(Rejected("cancelled"))
      else if verdict.Accept? then Got(Resolved(verdict.value))
      else Got(Rejected(StackOverflow));
    next := i + 1;
  }

  /** `askQuestion` over the context's test answers, moving its index past what was read. */
  method ScriptedLoop(ctx: AnswerContext, accepts: string -> bool, required: bool, nodeTest: bool, last: nat)
    returns (r: Ask)
    requires ctx.answers.Some?
    modifies ctx`index
    ensures (r, ctx.index) == ScriptedValidation(ctx.answers.value, old(ctx.index), accepts, required, nodeTest, last)
  {
    r, ctx.index := AskScripted(ctx.answers.value, ctx.index, accepts, required, nodeTest, last);
  }

  /** `askQuestion` at a readline prompt: ask again until a line is taken, or Ctrl-C. */
  method ReadlineLoop(term: Terminal, accepts: string -> bool, required: bool) returns (r: Ask)
    requires term.Valid()
    modifies term`linePos
    ensures term.Valid()
    ensures (r, term.linePos) == LineValidation(term.lines, old(term.linePos), accepts, required)
  {
    ghost var l0 := term.linePos;
    while term.linePos < |term.lines|
      invariant l0 <= term.linePos <= |term.lines|
      invariant LineValidation(term.lines, l0, accepts, required) == LineValidation(term.lines, term.linePos, accepts, required)
      decreases |term.lines| - term.linePos
    {
      var line := term.lines[term.linePos];
      term.linePos := term.linePos + 1;
      if line.Rejected? {
        return Got(Rejected("cancelled"));
      }
      var verdict := Judge(SanitizeSafe(Trim(line.value)), accepts, required, false);
      if verdict.Accept? {
        return Got(Resolved(verdict.value));
      }
    }
    return Blocked;
  }
}
