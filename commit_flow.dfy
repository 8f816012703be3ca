/**
 * The `commit` command after its git pre-check: the type menu, the scope loop,
 * the subject, body and breaking-change prompts, the commit assembled from the
 * answers, the lint, the message written, and the exit code (0, 1, or 130 for a
 * cancelled prompt). Git itself is reduced to the outcomes the command reads
 * from it.
 */
module CommitFlow {
  import opened Wrappers
  import opened Text
  import opened Rules
  import opened Prompt
  import I18n
  import Formatter
  import Select

  // ---------------------------------------------------------------------------
  // The yes/no validator

  /** The answers the yes/no validator takes: "", n, no, y, yes, after trimming and lower-casing. */
  predicate YesNoAccepts(answer: string) {
    Lower(Trim(answer)) in ["", "n", "no", "y", "yes"]
  }

  const YesNoKey: string := "commit.validation.yesNo"

  /**
   * `yesNoValidator`: `true` (here `None`) for an accepted answer, and the
   * looked-up message otherwise. The table has no entry for the key, so the
   * message is the key itself and the English fallback is never shown.
   */
  function YesNoValidator(lang: string, answer: string): (r: Option<string>)
    ensures r.None? <==> YesNoAccepts(answer)
    ensures r.Some? ==> r.value == YesNoKey
  {
    I18n.MissingKeysComeBackAsKeys(lang);
    if YesNoAccepts(answer) then None
    else
      var m := I18n.Lookup(lang, YesNoKey);
      Some(if m != "" then m else "Please answer with 'y' or 'n'")
  }

  /** `/^y(es)?$/i`: y or yes in any mix of cases. */
  predicate IsYes(s: string) {
    Lower(s) == "y" || Lower(s) == "yes"
  }

  /** Every answer taken as a yes is one the yes/no validator accepts. */
  lemma YesIsAccepted(s: string)
    requires IsYes(s) && Trim(s) == s
    ensures YesNoAccepts(s)
  {
  }

  // ---------------------------------------------------------------------------
  // The scope check of the scope loop

  /**
   * A character of `[\p{L}\p{N}\p{M}\p{P}\p{S}\- .]`. The Unicode classes are
   * the parameter `category`.
   */
  predicate ScopeChar(c: char, category: char -> bool) {
    category(c) || c == '-' || c == ' ' || c == '.'
  }

  datatype ScopeCheck = ScopeOk | BadPattern | NotLower

  /**
   * The checks the scope loop makes on the trimmed answer: an empty scope is
   * fine; otherwise every character must be in the pattern's class, and then
   * the scope must be its own lower case.
   */
  function CheckScope(scope: string, category: char -> bool): (r: ScopeCheck)
    ensures r == ScopeOk <==>
      var s := Trim(scope);
      s == "" || ((forall i :: 0 <= i < |s| ==> ScopeChar(s[i], category)) && s == Lower(s))
    ensures r == BadPattern ==> exists i :: 0 <= i < |Trim(scope)| && !ScopeChar(Trim(scope)[i], category)
  {
    var s := Trim(scope);
    if s == "" then ScopeOk
    else if exists i :: 0 <= i < |s| && !ScopeChar(s[i], category) then BadPattern
    else if s != Lower(s) then NotLower
    else ScopeOk
  }

  /** How much test input and how many key chunks are left to read. */
  function Remaining(s: Script, at: Cursor): nat {
    (if s.answers.Some? && at.index < |s.answers.value| then |s.answers.value| - at.index else 0)
    + (if at.pos <= |s.keys| then |s.keys| - at.pos else 0)
  }

  /** A prompt that replies either reads input or stays where it was. */
  lemma AskProgress(s: Script, at: Cursor, interactive: bool, maxLength: Option<int>, required: bool)
    requires Fits(s, at)
    ensures var q := CharCountAsk(s, at, interactive, maxLength, required);
      q.0.Got? && q.1 != at ==> Remaining(s, q.1) < Remaining(s, at)
  {
  }

  /** A reply that carries an answer. */
  predicate Replied(a: Ask) {
    a.Got? && a.reply.Resolved?
  }

  /**
   * The scope loop: ask (at most 50 characters, required as configured) until
   * the answer passes `CheckScope`. An answer that fails without any input
   * read asks the same question with the same input again, forever: `Loops`.
   */
  function ScopeLoop(s: Script, at: Cursor, interactive: bool, required: bool, category: char -> bool): (r: (Ask, Cursor))
    requires Fits(s, at)
    ensures Fits(s, r.1)
    decreases Remaining(s, at)
  {
    var q := CharCountAsk(s, at, interactive, Some(50), required);
    if Replied(q.0) && CheckScope(q.0.reply.value, category) != ScopeOk then
      if q.1 == at then (Loops, at)
      else
        AskProgress(s, at, interactive, Some(50), required);
        ScopeLoop(s, q.1, interactive, required, category)
    else q
  }

  /** A scope the loop lets through passes its checks. */
  lemma {:induction false} ScopeLoopAccepts(s: Script, at: Cursor, interactive: bool, required: bool, category: char -> bool)
    requires Fits(s, at)
    ensures var r := ScopeLoop(s, at, interactive, required, category);
      Replied(r.0) ==> CheckScope(r.0.reply.value, category) == ScopeOk
    decreases Remaining(s, at)
  {
    var q := CharCountAsk(s, at, interactive, Some(50), required);
    if Replied(q.0) && CheckScope(q.0.reply.value, category) != ScopeOk && q.1 != at {
      AskProgress(s, at, interactive, Some(50), required);
      ScopeLoopAccepts(s, q.1, interactive, required, category);
    }
  }

  /**
   * The scope loop of `interactiveCommit`: `askWithCharacterCount` until the
   * trimmed answer is empty or passes the pattern and lower-case checks. Where
   * the source would ask forever, the loop stops with `Loops`.
   */
  method AskScope(ctx: AnswerContext, term: Terminal, sw: Switches, required: bool, category: char -> bool)
    returns (r: Ask)
    requires term.Valid()
    modifies ctx`index, term`pos, term`rawMode
    ensures term.Valid()
    ensures (r, CursorOf(ctx, term)) == ScopeLoop(ScriptOf(ctx, term), old(CursorOf(ctx, term)),
                                                  Interactive(term.isTTY, sw), required, category)
  {
    ghost var s := ScriptOf(ctx, term);
    ghost var interactive := Interactive(term.isTTY, sw);
    ghost var total := ScopeLoop(s, CursorOf(ctx, term), interactive, required, category);
    while true
      invariant term.Valid()
      invariant ScopeLoop(s, CursorOf(ctx, term), interactive, required, category) == total
      decreases Remaining(s, CursorOf(ctx, term))
    {
      var at := CursorOf(ctx, term);
      r := AskWithCharacterCount(ctx, term, sw, Some(50), required);
      if !(r.Got? && r.reply.Resolved? && CheckScope(r.reply.value, category) != ScopeOk) {
        return;
      }
      if CursorOf(ctx, term) == at {
        return Loops;
      }
      AskProgress(s, at, interactive, Some(50), required);
    }
  }

  // ---------------------------------------------------------------------------
  // The answers and the commit assembled from them

  datatype Answers = Answers(scope: string, subject: string, body: string, breaking: string, details: string)

  /**
   * The commit `interactiveCommit` builds: scope and body only when non-empty,
   * the breaking flag from the yes/no answer, the `BREAKING CHANGE` footer with
   * the details exactly when breaking, and the layout flags set to what the
   * formatter will write.
   */
  function Assemble(ty: string, a: Answers): (c: ParsedCommit)
    ensures c.commitType == ty && c.subject == a.subject
    ensures c.scope == (if a.scope != "" then Some(a.scope) else None)
    ensures c.body == (if a.body != "" then Some(a.body) else None)
  {
    var breaking := IsYes(a.breaking);
    var footers := if breaking then [Footer("BREAKING CHANGE", a.details)] else [];
    var header := ty + (if a.scope != "" then "(" + a.scope + ")" else "")
      + (if breaking && !Contains(a.subject, "!") then "!" else "") + ": " + a.subject;
    ParsedCommit(ty, if a.scope != "" then Some(a.scope) else None, a.subject,
                 if a.body != "" then Some(a.body) else None, Some(footers), Some(breaking),
                 Some(Meta(header, a.body != "", |footers| > 0)))
  }

  /**
   * The assembled commit is breaking exactly when the answer is a yes, and then
   * it has the one footer `BREAKING CHANGE: details`, otherwise none; the
   * header it records is the one the formatter writes; and the blank-line
   * flags hold exactly when there is a body, and footers, to separate.
   */
  lemma AssembledShape(ty: string, a: Answers)
    ensures var c := Assemble(ty, a);
      (c.isBreaking == Some(true) <==> IsYes(a.breaking))
      && (IsYes(a.breaking) ==> FootersOf(c) == [Footer("BREAKING CHANGE", a.details)])
      && (!IsYes(a.breaking) ==> FootersOf(c) == [])
      && c.meta.Some? && c.meta.value.header == Formatter.FormatHeader(c)
      && (c.meta.value.hasBlankAfterHeader <==> Truthy(c.body))
      && (c.meta.value.hasBlankBeforeFooter <==> |FootersOf(c)| > 0)
  {
  }

  /** The layout and breaking-footer checks never fail on an assembled commit. */
  lemma AssembledLayoutPasses(ty: string, a: Answers)
    ensures var c := Assemble(ty, a);
      !BodyNotSeparated(c) && !FootersNotSeparated(c) && !BreakingFooterMissing(c)
  {
    var c := Assemble(ty, a);
    if IsYes(a.breaking) {
      assert FootersOf(c)[0].key == "BREAKING CHANGE";
    }
  }

  /** The conditions on the answers under which the lint passes on the assembled commit. */
  predicate LintPasses(ty: string, a: Answers, o: LintOptions) {
    ty in o.types && ty == Lower(ty)
    && !(o.requireScope && a.scope == "")
    && (a.scope != "" ==> (|o.scopes| == 0 || a.scope in o.scopes) && ScopeCharsOk(a.scope) && a.scope == Lower(a.scope))
    && !IsBlank(a.subject) && !EndsWith(Trim(a.subject), ".")
    && !(IsYes(a.breaking) && !o.allowBreaking)
  }

  /**
   * The lint passes on an assembled commit exactly when the type is allowed and
   * lower-case, the scope is present when required and, when present, listed
   * (if there is a list), of the allowed characters and lower-case, the subject
   * is not blank and does not end in a period, and a breaking change is allowed.
   */
  lemma AssembledLint(ty: string, a: Answers, o: LintOptions)
    ensures Errors(Assemble(ty, a), o) == [] <==> LintPasses(ty, a, o)
  {
    if Errors(Assemble(ty, a), o) == [] {
      NoErrorsPasses(ty, a, o);
    } else {
      ErrorsFail(ty, a, o);
    }
  }

  /** No lint error on an assembled commit means the conditions hold. */
  lemma NoErrorsPasses(ty: string, a: Answers, o: LintOptions)
    requires Errors(Assemble(ty, a), o) == []
    ensures LintPasses(ty, a, o)
  {
    var c := Assemble(ty, a);
    ValidIffNoCheckFails(c, o);
    assert SubjectBlank(c) <==> IsBlank(a.subject) by {
      assert TrimStart("") == "";
    }
    assert !Fails(c, o, 0) && !Fails(c, o, 1) && !Fails(c, o, 2) && !Fails(c, o, 3);
    assert !Fails(c, o, 4) && !Fails(c, o, 5) && !Fails(c, o, 6) && !Fails(c, o, 7);
    assert !Fails(c, o, 10);
  }

  /** A lint error on an assembled commit comes from one of the conditions. */
  lemma ErrorsFail(ty: string, a: Answers, o: LintOptions)
    requires Errors(Assemble(ty, a), o) != []
    ensures !LintPasses(ty, a, o)
  {
    var c := Assemble(ty, a);
    AssembledLayoutPasses(ty, a);
    ValidIffNoCheckFails(c, o);
    assert SubjectBlank(c) <==> IsBlank(a.subject) by {
      assert TrimStart("") == "";
    }
    var j :| 0 <= j < CheckCount() && Fails(c, o, j);
  }

  // ---------------------------------------------------------------------------
  // The configuration and the outside world

  /** The parts of the configuration the command reads: the lint options and `autoPush`. */
  datatype FlowConfig = FlowConfig(options: PartialOptions, autoPush: bool)

  /**
   * What `checkAndAskForAdd` decided from the state of the repository: nothing
   * to commit (`false`), only a push was done (`"push_success"`), or go on.
   */
  datatype PreCheck = NotReady | PushedInstead | Ready

  /**
   * Whether the write of `.git/COMMIT_EDITMSG` succeeded (it fails, for one,
   * where `.git` is a file, as in a worktree), whether `git commit` succeeded,
   * and whether the push (with its upstream retry) did.
   */
  datatype GitResults = GitResults(writeOk: bool, commitOk: bool, pushOk: bool)

  /**
   * How the command ends: an exit code with the message written to
   * `.git/COMMIT_EDITMSG` if one was, still waiting for input, or asking the
   * same question forever.
   */
  datatype Outcome = Exit(code: int, written: Option<string>) | Waiting | Spins

  /** `cfg?.requireScope || false`. */
  function ScopeRequired(options: PartialOptions): bool {
    options.requireScope.GetOr(false)
  }

  /** `cfg?.maxSubjectLength || 72`: an absent or zero limit is 72. */
  function SubjectLimit(options: PartialOptions): (m: int)
    ensures m != 0
    ensures options.maxSubjectLength.Some? && options.maxSubjectLength.value != 0 ==> m == options.maxSubjectLength.value
  {
    if options.maxSubjectLength.Some? && options.maxSubjectLength.value != 0 then options.maxSubjectLength.value else 72
  }

  /** `{ ...defaultOptions, ...cfg, language: lang }`. */
  function LintOptionsFor(options: PartialOptions, lang: string): (o: LintOptions)
    ensures o.language == lang
  {
    Resolve(options.(language := Some(lang)))
  }

  // ---------------------------------------------------------------------------
  // The type menu

  /** The types offered: the configured ones when there are any, else the defaults. */
  function MenuTypes(options: PartialOptions): (ts: seq<string>)
    ensures |ts| > 0
    ensures options.types.Some? && |options.types.value| > 0 ==> ts == options.types.value
  {
    if options.types.Some? && |options.types.value| > 0 then options.types.value else DefaultTypes
  }

  /**
   * The menu: one item per type, with the type as value, `type:` as label and
   * its translated description.
   */
  method TypeItems(lang: string, types: seq<string>) returns (items: seq<Select.Item>)
    ensures Select.Values(items) == types
    ensures |items| == |types| && forall k :: 0 <= k < |items| ==>
      items[k] == Select.Item(types[k], Some(types[k] + ":"), Some(I18n.Translate(lang, "type.desc." + types[k], [])))
  {
    items := [];
    for k := 0 to |types|
      invariant Select.Values(items) == types[..k]
      invariant |items| == k && forall j :: 0 <= j < k ==>
        items[j] == Select.Item(types[j], Some(types[j] + ":"), Some(I18n.Translate(lang, "type.desc." + types[j], [])))
    {
      var description := I18n.T(lang, "type.desc." + types[k], []);
      items := items + [Select.Item(types[k], Some(types[k] + ":"), Some(description))];
    }
  }

  /**
   * The type `select` gives: the first type when standard input is not a
   * terminal or the select prompt is switched off, else the menu run over the
   * key chunks.
   */
  function TypePick(types: seq<string>, isTTY: bool, sw: Switches, keys: seq<string>, pos: nat)
    : (r: (Select.KeyOutcome, nat))
    requires |types| > 0 && pos <= |keys|
    ensures pos <= r.1 <= |keys|
  {
    if !isTTY || sw.skipSelectPrompt then (Select.Resolved(types[0]), pos)
    else Select.SelectFeed(types, 0, keys, pos)
  }

  /**
   * When the configured types are present and non-empty, or absent, the type
   * picked from the menu is one the lint allows.
   */
  lemma PickedTypeIsAllowed(lang: string, options: PartialOptions, isTTY: bool, sw: Switches, keys: seq<string>, pos: nat)
    requires pos <= |keys|
    requires options.types.None? || |options.types.value| > 0
    ensures var r := TypePick(MenuTypes(options), isTTY, sw, keys, pos);
      r.0.Resolved? ==> r.0.value in MenuTypes(options) && r.0.value in LintOptionsFor(options, lang).types
  {
    Select.SelectFeedPicksAnItem(MenuTypes(options), 0, keys, pos);
  }

  /**
   * The type menu of `interactiveCommit`: the non-interactive fallback to the
   * first item, or the interactive `select` reading key chunks from the
   * terminal.
   */
  method PickType(items: seq<Select.Item>, term: Terminal, sw: Switches) returns (k: Select.KeyOutcome)
    requires |items| > 0 && term.Valid()
    modifies term`pos
    ensures term.Valid()
    ensures (k, term.pos) == TypePick(Select.Values(items), term.isTTY, sw, term.keys, old(term.pos))
  {
    if !term.isTTY || sw.skipSelectPrompt {
      return Select.Resolved(Select.Fallback(items).value);
    }
    var stop;
    k, stop := Select.RunSelect(items, None, term.rows, term.isTTY && sw.useAltScreen, term.keys, term.pos);
    term.pos := stop;
  }

  // ---------------------------------------------------------------------------
  // The prompts

  /** How a prompt that did not answer ends the command: cancelled, waiting, or asking forever. */
  function Stop(a: Ask): (o: Outcome)
    requires !Replied(a)
    ensures o.Exit? ==> o == Exit(130, None)
  {
    match a
    case Got(_) => Exit(130, None)
    case Blocked => Waiting
    case Loops => Spins
  }

  datatype Collected = Answered(answers: Answers) | Ended(outcome: Outcome)

  /**
   * The prompts after the type, in order: the scope loop, the subject
   * (required, at most `SubjectLimit` characters), the body (at most 500), the
   * breaking-change question (yes/no), and the details (at most 200) only after
   * a yes. The first prompt that does not answer ends the command.
   */
  function Collect(s: Script, at: Cursor, interactive: bool, nodeTest: bool, options: PartialOptions,
                   category: char -> bool): (r: (Collected, Cursor))
    requires Fits(s, at)
    ensures Fits(s, r.1)
    ensures r.0.Ended? && r.0.outcome.Exit? ==> r.0.outcome == Exit(130, None)
  {
    var q1 := ScopeLoop(s, at, interactive, ScopeRequired(options), category);
    if !Replied(q1.0) then (Ended(Stop(q1.0)), q1.1) else
    var q2 := CharCountAsk(s, q1.1, interactive, Some(SubjectLimit(options)), true);
    if !Replied(q2.0) then (Ended(Stop(q2.0)), q2.1) else
    var q3 := CharCountAsk(s, q2.1, interactive, Some(500), false);
    if !Replied(q3.0) then (Ended(Stop(q3.0)), q3.1) else
    var q4 := ValidationAsk(s, q3.1, interactive, YesNoAccepts, false, nodeTest);
    if !Replied(q4.0) then (Ended(Stop(q4.0)), q4.1) else
    var a := Answers(q1.0.reply.value, q2.0.reply.value, q3.0.reply.value, q4.0.reply.value, "");
    if !IsYes(a.breaking) then (Answered(a), q4.1) else
    var q5 := CharCountAsk(s, q4.1, interactive, Some(200), false);
    if !Replied(q5.0) then (Ended(Stop(q5.0)), q5.1) else
    (Answered(a.(details := q5.0.reply.value)), q5.1)
  }

  /** The prompts of `interactiveCommit` after the type menu. */
  method AskAnswers(ctx: AnswerContext, term: Terminal, sw: Switches, options: PartialOptions, category: char -> bool)
    returns (col: Collected)
    requires term.Valid()
    modifies ctx`index, term`pos, term`rawMode, term`linePos
    ensures term.Valid()
    ensures (col, CursorOf(ctx, term)) == Collect(ScriptOf(ctx, term), old(CursorOf(ctx, term)),
                                                  Interactive(term.isTTY, sw), sw.nodeTest, options, category)
  {
    var q := AskScope(ctx, term, sw, ScopeRequired(options), category);
    if !Replied(q) {
      return Ended(Stop(q));
    }
    var scope := q.reply.value;
    q := AskWithCharacterCount(ctx, term, sw, Some(SubjectLimit(options)), true);
    if !Replied(q) {
      return Ended(Stop(q));
    }
    var subject := q.reply.value;
    q := AskWithCharacterCount(ctx, term, sw, Some(500), false);
    if !Replied(q) {
      return Ended(Stop(q));
    }
    var body := q.reply.value;
    q := AskWithValidation(ctx, term, sw, YesNoAccepts, false);
    if !Replied(q) {
      return Ended(Stop(q));
    }
    var a := Answers(scope, subject, body, q.reply.value, "");
    if !IsYes(a.breaking) {
      return Answered(a);
    }
    q := AskWithCharacterCount(ctx, term, sw, Some(200), false);
    if !Replied(q) {
      return Ended(Stop(q));
    }
    col := Answered(a.(details := q.reply.value));
  }

  // ---------------------------------------------------------------------------
  // Lint, write, commit, push

  /**
   * The end of the command: an invalid commit exits 1 without writing; a valid
   * one is formatted and written. A failed write throws out of the command to
   * the handler of `main`, which exits 2; after a write, a failed commit, or a
   * failed push when pushing, exits 1 and anything else exits 0.
   */
  function Conclude(lang: string, cfg: FlowConfig, git: GitResults, ty: string, a: Answers): (o: Outcome)
    ensures o.Exit? && (o.code == 0 || o.code == 1 || o.code == 2)
    ensures o.code == 2 <==> Errors(Assemble(ty, a), LintOptionsFor(cfg.options, lang)) == [] && !git.writeOk
    ensures o.written.Some? <==> Errors(Assemble(ty, a), LintOptionsFor(cfg.options, lang)) == [] && git.writeOk
    ensures o.written.Some? ==> o.written.value == Formatter.Format(Assemble(ty, a))
    ensures o.code == 0 <==> o.written.Some? && git.commitOk && (cfg.autoPush ==> git.pushOk)
  {
    var c := Assemble(ty, a);
    if Errors(c, LintOptionsFor(cfg.options, lang)) != [] then Exit(1, None)
    else if !git.writeOk then Exit(2, None)
    else
      var w := Formatter.Format(c);
      if !git.commitOk then Exit(1, Some(w))
      else if cfg.autoPush && !git.pushOk then Exit(1, Some(w))
      else Exit(0, Some(w))
  }

  /** `lintCommit`, `formatMessage`, the write of the message, `git commit` and `git push`. */
  method Finish(lang: string, cfg: FlowConfig, git: GitResults, ty: string, a: Answers) returns (o: Outcome)
    ensures o == Conclude(lang, cfg, git, ty, a)
  {
    var commit := Assemble(ty, a);
    var result := LintCommit(commit, cfg.options.(language := Some(lang)));
    if !result.valid {
      return Exit(1, None);
    }
    var msg := Formatter.Format(commit);
    if !git.writeOk {
      return Exit(2, None);
    }
    if !git.commitOk {
      return Exit(1, Some(msg));
    }
    if cfg.autoPush && !git.pushOk {
      return Exit(1, Some(msg));
    }
    return Exit(0, Some(msg));
  }

  // ---------------------------------------------------------------------------
  // interactiveCommit

  /** `interactiveCommit` from the pre-check on: the outcome and how far the input was read. */
  function CommitRun(lang: string, cfg: FlowConfig, pre: PreCheck, git: GitResults, category: char -> bool,
                     s: Script, at: Cursor, isTTY: bool, sw: Switches): (r: (Outcome, Cursor))
    requires Fits(s, at)
    ensures Fits(s, r.1)
    ensures r.0.Exit? ==> r.0.code == 0 || r.0.code == 1 || r.0.code == 2 || r.0.code == 130
    ensures r.0.Exit? && r.0.code == 0 ==> pre.PushedInstead? || (git.writeOk && git.commitOk && (cfg.autoPush ==> git.pushOk))
    ensures r.0.Exit? && r.0.code == 2 ==> pre.Ready? && !git.writeOk && r.0.written.None?
    ensures r.0.Exit? && r.0.code == 130 ==> r.0.written.None?
    ensures !pre.Ready? ==> r.1 == at && r.0 == Exit(if pre.NotReady? then 1 else 0, None)
  {
    match pre
    case NotReady => (Exit(1, None), at)
    case PushedInstead => (Exit(0, None), at)
    case Ready =>
      var pick := TypePick(MenuTypes(cfg.options), isTTY, sw, s.keys, at.pos);
      var at' := at.(pos := pick.1);
      match pick.0
      case Pending => (Waiting, at')
      case Cancelled => (Exit(130, None), at')
      case Resolved(ty) => AfterType(lang, cfg, git, ty, Collect(s, at', Interactive(isTTY, sw), sw.nodeTest, cfg.options, category))
  }

  /** What follows the type menu: the end the prompts came to, or the conclusion over their answers. */
  function AfterType(lang: string, cfg: FlowConfig, git: GitResults, ty: string, col: (Collected, Cursor)): (Outcome, Cursor) {
    match col.0
    case Ended(o) => (o, col.1)
    case Answered(a) => (Conclude(lang, cfg, git, ty, a), col.1)
  }

  /**
   * `interactiveCommit` after the version banner: the pre-check's verdict, the
   * type menu, the prompts, and the lint, write, commit and push.
   */
  method InteractiveCommit(lang: string, cfg: FlowConfig, pre: PreCheck, git: GitResults, category: char -> bool,
                           ctx: AnswerContext, term: Terminal, sw: Switches) returns (o: Outcome)
    requires term.Valid()
    modifies ctx`index, term`pos, term`rawMode, term`linePos
    ensures term.Valid()
    ensures (o, CursorOf(ctx, term)) == CommitRun(lang, cfg, pre, git, category, ScriptOf(ctx, term),
                                                  old(CursorOf(ctx, term)), term.isTTY, sw)
  {
    if pre.NotReady? {
      return Exit(1, None);
    }
    if pre.PushedInstead? {
      return Exit(0, None);
    }
    var items := TypeItems(lang, MenuTypes(cfg.options));
    var picked := PickType(items, term, sw);
    match picked
    case Pending =>
      return Waiting;
    case Cancelled =>
      return Exit(130, None);
    case Resolved(ty) =>
      var col := AskAnswers(ctx, term, sw, cfg.options, category);
      match col
      case Ended(out) =>
        return out;
      case Answered(a) =>
        o := Finish(lang, cfg, git, ty, a);
  }

  // ---------------------------------------------------------------------------
  // What the configuration does to the outcome

  /**
   * An empty `types` list in the configuration: the menu offers the default
   * types, but the lint allows none, so every commit that reaches the lint
   * exits 1 without a message written.
   */
  lemma EmptyTypeListRejectsEveryCommit(lang: string, cfg: FlowConfig, git: GitResults, ty: string, a: Answers)
    requires cfg.options.types == Some([])
    ensures MenuTypes(cfg.options) == DefaultTypes
    ensures Conclude(lang, cfg, git, ty, a) == Exit(1, None)
  {
    AssembledLint(ty, a, LintOptionsFor(cfg.options, lang));
  }

  // ---------------------------------------------------------------------------
  // Runs with test answers

  /** A clean test answer other than the sentinel is the reply, and the index moves on by one. */
  lemma CleanAnswer(s: Script, at: Cursor, interactive: bool, maxLength: Option<int>, required: bool)
    requires Fits(s, at) && HasAnswer(s, at)
    requires s.answers.value[at.index] != Sentinel && Clean(s.answers.value[at.index])
    ensures CharCountAsk(s, at, interactive, maxLength, required)
      == (Got(Resolved(s.answers.value[at.index])), at.(index := at.index + 1))
  {
    SanitizeSafeSpec(s.answers.value[at.index]);
  }

  /** Text made of the small ASCII letters and inner spaces is its own trim and its own lower case. */
  lemma PlainWord(w: string)
    requires |w| > 0 && w[0] != ' ' && w[|w| - 1] != ' '
    requires forall i :: 0 <= i < |w| ==> 'a' <= w[i] <= 'z' || w[i] == ' '
    ensures Trim(w) == w && Lower(w) == w && Clean(w) && !IsBlank(w)
  {
    TrimUnchanged(w);
    LowerUnchanged(w);
  }

  /**
   * Four test answers from `i` on that the scope, subject, body and yes/no
   * prompts take as they are: none is the cancel sentinel, all are clean, the
   * scope passes the scope check, and the fourth is trimmed, not a yes, and
   * accepted by the yes/no validator unless `NODE_TEST` skips validation.
   */
  predicate PlainAnswers(ans: seq<string>, i: nat, category: char -> bool, nodeTest: bool) {
    i + 4 <= |ans|
    && (forall k :: i <= k < i + 4 ==> ans[k] != Sentinel && Clean(ans[k]))
    && CheckScope(ans[i], category) == ScopeOk
    && Trim(ans[i + 3]) == ans[i + 3] && !IsYes(ans[i + 3])
    && (nodeTest || YesNoAccepts(ans[i + 3]))
  }

  /**
   * Four clean test answers from `at` on, the fourth a yes/no answer that is
   * not a yes and is taken as it is: they are the scope, subject, body and
   * breaking answers, read one each, and no details are asked for.
   */
  lemma ScriptedAnswers(s: Script, at: Cursor, interactive: bool, nodeTest: bool, options: PartialOptions,
                        category: char -> bool)
    requires Fits(s, at) && s.answers.Some? && PlainAnswers(s.answers.value, at.index, category, nodeTest)
    ensures var ans := s.answers.value; var i := at.index;
      Collect(s, at, interactive, nodeTest, options, category)
        == (Answered(Answers(ans[i], ans[i + 1], ans[i + 2], ans[i + 3], "")), at.(index := i + 4))
  {
    var ans := s.answers.value;
    var i := at.index;
    var r := ScopeRequired(options);
    assert ScopeLoop(s, at, interactive, r, category) == (Got(Resolved(ans[i])), at.(index := i + 1)) by {
      CleanAnswer(s, at, interactive, Some(50), r);
    }
    var m := SubjectLimit(options);
    assert CharCountAsk(s, at.(index := i + 1), interactive, Some(m), true)
      == (Got(Resolved(ans[i + 1])), at.(index := i + 2)) by {
      CleanAnswer(s, at.(index := i + 1), interactive, Some(m), true);
    }
    assert CharCountAsk(s, at.(index := i + 2), interactive, Some(500), false)
      == (Got(Resolved(ans[i + 2])), at.(index := i + 3)) by {
      CleanAnswer(s, at.(index := i + 2), interactive, Some(500), false);
    }
    BreakingAnswer(s, at.(index := i + 3), interactive, nodeTest);
    CollectAnswered(s, at, interactive, nodeTest, options, category);
  }

  /** A clean, trimmed test answer the yes/no validator takes is the breaking answer, read alone. */
  lemma BreakingAnswer(s: Script, at: Cursor, interactive: bool, nodeTest: bool)
    requires Fits(s, at) && s.answers.Some? && at.index < |s.answers.value|
    requires var a := s.answers.value[at.index];
      a != Sentinel && Clean(a) && Trim(a) == a && (nodeTest || YesNoAccepts(a))
    ensures ValidationAsk(s, at, interactive, YesNoAccepts, false, nodeTest)
      == (Got(Resolved(s.answers.value[at.index])), at.(index := at.index + 1))
  {
    var ans := s.answers.value;
    var i := at.index;
    SanitizeSafeSpec(ans[i]);
    assert ScriptedRead(ans, i) == ans[i];
    assert Judge(ans[i], YesNoAccepts, false, nodeTest).Accept?;
    ScriptedStop(ans, i, YesNoAccepts, false, nodeTest, i + StackRoom);
  }

  /** When all four prompts answer and the breaking answer is not a yes, those are the answers. */
  lemma CollectAnswered(s: Script, at: Cursor, interactive: bool, nodeTest: bool, options: PartialOptions,
                        category: char -> bool)
    requires Fits(s, at)
    ensures var q1 := ScopeLoop(s, at, interactive, ScopeRequired(options), category);
      var q2 := CharCountAsk(s, q1.1, interactive, Some(SubjectLimit(options)), true);
      var q3 := CharCountAsk(s, q2.1, interactive, Some(500), false);
      var q4 := ValidationAsk(s, q3.1, interactive, YesNoAccepts, false, nodeTest);
      Replied(q1.0) && Replied(q2.0) && Replied(q3.0) && Replied(q4.0) && !IsYes(q4.0.reply.value) ==>
        Collect(s, at, interactive, nodeTest, options, category)
          == (Answered(Answers(q1.0.reply.value, q2.0.reply.value, q3.0.reply.value, q4.0.reply.value, "")), q4.1)
  {
  }

  /** A commit without body or breaking change is written as its header alone. */
  lemma PlainFormat(ty: string, a: Answers)
    requires a.body == "" && !IsYes(a.breaking)
    ensures Formatter.Format(Assemble(ty, a))
      == ty + (if a.scope != "" then "(" + a.scope + ")" else "") + ": " + a.subject
  {
    var c := Assemble(ty, a);
    assert Formatter.Parts(c) == [Formatter.FormatHeader(c)];
  }

  /**
   * With no body and no breaking change, a passing lint and a working git,
   * the header alone is written and the command exits 0.
   */
  lemma PlainConclusion(lang: string, cfg: FlowConfig, git: GitResults, ty: string, a: Answers)
    requires a.body == "" && !IsYes(a.breaking)
    requires LintPasses(ty, a, LintOptionsFor(cfg.options, lang))
    requires git.writeOk && git.commitOk && (cfg.autoPush ==> git.pushOk)
    ensures Conclude(lang, cfg, git, ty, a)
      == Exit(0, Some(ty + (if a.scope != "" then "(" + a.scope + ")" else "") + ": " + a.subject))
  {
    AssembledLint(ty, a, LintOptionsFor(cfg.options, lang));
    PlainFormat(ty, a);
    var o := Conclude(lang, cfg, git, ty, a);
    assert o.written.Some?;
    assert o.code == 0;
  }

  /**
   * With the select prompt off the first menu type is taken without reading a
   * key, and the prompts follow from where the run stood.
   */
  lemma ReadyRun(lang: string, cfg: FlowConfig, git: GitResults, category: char -> bool,
                 s: Script, at: Cursor, isTTY: bool, sw: Switches)
    requires Fits(s, at) && sw.skipSelectPrompt
    ensures CommitRun(lang, cfg, Ready, git, category, s, at, isTTY, sw)
      == AfterType(lang, cfg, git, MenuTypes(cfg.options)[0],
                   Collect(s, at, Interactive(isTTY, sw), sw.nodeTest, cfg.options, category))
  {
    var pick := TypePick(MenuTypes(cfg.options), isTTY, sw, s.keys, at.pos);
    assert pick == (Select.Resolved(MenuTypes(cfg.options)[0]), at.pos);
    var at' := at.(pos := pick.1);
    assert CommitRun(lang, cfg, Ready, git, category, s, at, isTTY, sw)
      == AfterType(lang, cfg, git, MenuTypes(cfg.options)[0],
                   Collect(s, at', Interactive(isTTY, sw), sw.nodeTest, cfg.options, category));
    assert at' == at;
  }

  /**
   * A run over four test answers (scope, subject, an empty body, and a
   * breaking answer that is not a yes) with the select prompt off: the first
   * menu type is picked, and when the lint passes and git succeeds the header
   * alone is written and the command exits 0.
   */
  lemma ScriptedRun(lang: string, cfg: FlowConfig, git: GitResults, category: char -> bool,
                    s: Script, at: Cursor, isTTY: bool, sw: Switches)
    requires Fits(s, at) && s.answers.Some? && PlainAnswers(s.answers.value, at.index, category, sw.nodeTest)
    requires sw.skipSelectPrompt
    requires var ans := s.answers.value; var i := at.index;
      ans[i] != "" && ans[i + 2] == ""
      && LintPasses(MenuTypes(cfg.options)[0], Answers(ans[i], ans[i + 1], "", ans[i + 3], ""), LintOptionsFor(cfg.options, lang))
    requires git.writeOk && git.commitOk && (cfg.autoPush ==> git.pushOk)
    ensures var ans := s.answers.value; var i := at.index;
      CommitRun(lang, cfg, Ready, git, category, s, at, isTTY, sw).0
        == Exit(0, Some(MenuTypes(cfg.options)[0] + ("(" + ans[i] + ")") + ": " + ans[i + 1]))
  {
    var ans := s.answers.value;
    var i := at.index;
    var a := Answers(ans[i], ans[i + 1], "", ans[i + 3], "");
    ScriptedAnswers(s, at, Interactive(isTTY, sw), sw.nodeTest, cfg.options, category);
    assert Collect(s, at, Interactive(isTTY, sw), sw.nodeTest, cfg.options, category).0 == Answered(a);
    ReadyRun(lang, cfg, git, category, s, at, isTTY, sw);
    PlainConclusion(lang, cfg, git, MenuTypes(cfg.options)[0], a);
  }

  /**
   * `interactiveCommit("en", { autoPush: true })` with the test answers
   * ["core", "add login", "", "n"], `NODE_TEST=1` and the select prompt
   * skipped: type `feat`, the message `feat(core): add login`, exit 0.
   */
  lemma HappyPathExample(lang: string, cfg: FlowConfig, git: GitResults, s: Script, at: Cursor, isTTY: bool,
                         sw: Switches, category: char -> bool)
    requires lang == "en" && cfg == FlowConfig(NoOptions, true) && git == GitResults(true, true, true)
    requires s.answers == Some(["core", "add login", "", "n"]) && at.index == 0 && Fits(s, at)
    requires sw.nodeTest && sw.skipSelectPrompt
    requires forall c :: 'a' <= c <= 'z' ==> category(c)
    ensures CommitRun(lang, cfg, Ready, git, category, s, at, isTTY, sw).0 == Exit(0, Some("feat(core): add login"))
  {
    assert "feat" + ("(" + "core" + ")") + ": " + "add login" == "feat(core): add login";
    HappyPathReady(s, at, sw, category);
    ScriptedRun(lang, cfg, git, category, s, at, isTTY, sw);
  }

  /** The example run meets the conditions of a scripted run. */
  lemma HappyPathReady(s: Script, at: Cursor, sw: Switches, category: char -> bool)
    requires s.answers == Some(["core", "add login", "", "n"]) && at.index == 0
    requires sw.nodeTest
    requires forall c :: 'a' <= c <= 'z' ==> category(c)
    ensures s.answers.Some? && PlainAnswers(s.answers.value, at.index, category, sw.nodeTest)
    ensures var ans := s.answers.value; var i := at.index;
      ans[i] != "" && ans[i + 2] == ""
      && LintPasses(MenuTypes(NoOptions)[0], Answers(ans[i], ans[i + 1], "", ans[i + 3], ""), LintOptionsFor(NoOptions, "en"))
  {
    HappyPathWords(category);
    HappyPathLint();
  }

  /** The four test answers of the example run are clean, and the scope passes the scope check. */
  lemma HappyPathWords(category: char -> bool)
    requires forall c :: 'a' <= c <= 'z' ==> category(c)
    ensures PlainAnswers(["core", "add login", "", "n"], 0, category, true)
  {
    PlainWord("core");
    PlainWord("add login");
    PlainWord("n");
    assert Clean("");
  }

  /** With no configuration, `feat` is the first menu type and the example answers pass the lint. */
  lemma HappyPathLint()
    ensures MenuTypes(NoOptions)[0] == "feat"
    ensures LintPasses("feat", Answers("core", "add login", "", "n", ""), LintOptionsFor(NoOptions, "en"))
  {
    PlainWord("core");
    PlainWord("add login");
    PlainWord("n");
    PlainWord("feat");
    assert !EndsWith("add login", ".");
    assert ScopeCharsOk("core");
  }

  /** The test answer "__SIGINT__" at the scope prompt cancels the command: exit 130. */
  lemma CancelExample(s: Script, at: Cursor, cfg: FlowConfig, isTTY: bool, sw: Switches, category: char -> bool,
                      git: GitResults)
    requires s.answers == Some([Sentinel]) && at.index == 0 && Fits(s, at)
    requires sw.skipSelectPrompt
    ensures CommitRun("en", cfg, Ready, git, category, s, at, isTTY, sw).0 == Exit(130, None)
  {
    var at' := at.(pos := at.pos);
    assert CharCountAsk(s, at, Interactive(isTTY, sw), Some(50), ScopeRequired(cfg.options)).0 == Got(Rejected("SIGINT"));
  }
}
