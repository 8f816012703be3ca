/**
 * The commit linter: a parsed commit checked against the options, giving translated
 * error and warning messages. Errors make a commit invalid; warnings never do.
 */
module Rules {
  import opened Wrappers
  import opened Text
  import I18n

  datatype Footer = Footer(key: string, value: string)

  datatype Meta = Meta(header: string, hasBlankAfterHeader: bool, hasBlankBeforeFooter: bool)

  /** A commit as the parser produces it or the prompt assembles it; `None` is `undefined`. */
  datatype ParsedCommit = ParsedCommit(
    commitType: string,
    scope: Option<string>,
    subject: string,
    body: Option<string>,
    footers: Option<seq<Footer>>,
    isBreaking: Option<bool>,
    meta: Option<Meta>)

  /** Every option filled in (`Required<LintOptions>`). */
  datatype LintOptions = LintOptions(
    types: seq<string>,
    scopes: seq<string>,
    requireScope: bool,
    maxSubjectLength: int,
    allowBreaking: bool,
    footerKeywords: seq<string>,
    language: string)

  /** The options a caller may leave out, as passed to `lintCommit`. */
  datatype PartialOptions = PartialOptions(
    types: Option<seq<string>>,
    scopes: Option<seq<string>>,
    requireScope: Option<bool>,
    maxSubjectLength: Option<int>,
    allowBreaking: Option<bool>,
    footerKeywords: Option<seq<string>>,
    language: Option<string>)

  datatype LintResult = LintResult(valid: bool, errors: seq<string>, warnings: seq<string>)

  const DefaultTypes: seq<string> :=
    ["feat", "fix", "docs", "style", "refactor", "perf", "test", "build", "ci", "chore", "revert"]

  const DefaultOptions: LintOptions := LintOptions(
    DefaultTypes, [], false, 72, true, ["BREAKING CHANGE", "Closes", "Refs"], I18n.DefaultLang)

  const NoOptions: PartialOptions := PartialOptions(None, None, None, None, None, None, None)

  /** `{ ...defaultOptions, ...opts }`: each given option replaces the default, field by field. */
  function Resolve(opts: PartialOptions): (o: LintOptions)
    ensures opts == NoOptions ==> o == DefaultOptions
    ensures opts.types.Some? ==> o.types == opts.types.value
    ensures opts.types.None? ==> o.types == DefaultTypes
    ensures o.scopes == (if opts.scopes.Some? then opts.scopes.value else [])
    ensures o.requireScope == (opts.requireScope == Some(true))
    ensures opts.maxSubjectLength.Some? ==> o.maxSubjectLength == opts.maxSubjectLength.value
    ensures opts.maxSubjectLength.None? ==> o.maxSubjectLength == 72
    ensures o.allowBreaking == (opts.allowBreaking != Some(false))
    ensures opts.footerKeywords.Some? ==> o.footerKeywords == opts.footerKeywords.value
    ensures opts.footerKeywords.None? ==> o.footerKeywords == ["BREAKING CHANGE", "Closes", "Refs"]
    ensures opts.language.Some? ==> o.language == opts.language.value
    ensures opts.language.None? ==> o.language == I18n.DefaultLang
  {
    LintOptions(
      opts.types.GetOr(DefaultOptions.types),
      opts.scopes.GetOr(DefaultOptions.scopes),
      opts.requireScope.GetOr(DefaultOptions.requireScope),
      opts.maxSubjectLength.GetOr(DefaultOptions.maxSubjectLength),
      opts.allowBreaking.GetOr(DefaultOptions.allowBreaking),
      opts.footerKeywords.GetOr(DefaultOptions.footerKeywords),
      opts.language.GetOr(DefaultOptions.language))
  }

  /** Every option of `o` given explicitly. */
  function Given(o: LintOptions): PartialOptions {
    PartialOptions(Some(o.types), Some(o.scopes), Some(o.requireScope), Some(o.maxSubjectLength),
                   Some(o.allowBreaking), Some(o.footerKeywords), Some(o.language))
  }

  /**
   * Options given in full are taken as they are, whatever the defaults; so
   * resolving the resolved options again changes nothing.
   */
  lemma ResolveGiven(o: LintOptions, opts: PartialOptions)
    ensures Resolve(Given(o)) == o
    ensures Resolve(Given(Resolve(opts))) == Resolve(opts)
  {
  }

  /** A present, non-empty string: JavaScript truthiness of an optional string. */
  predicate Truthy(s: Option<string>) {
    s.Some? && s.value != ""
  }

  /** `commit.footers || []`. */
  function FootersOf(c: ParsedCommit): seq<Footer> {
    c.footers.GetOr([])
  }

  /** `/^[a-z0-9\- ]+$/`. */
  predicate ScopeCharsOk(s: string) {
    |s| > 0 && forall i :: 0 <= i < |s| ==> ('a' <= s[i] <= 'z' || '0' <= s[i] <= '9' || s[i] == '-' || s[i] == ' ')
  }

  predicate HasBreakingFooter(fs: seq<Footer>) {
    exists i :: 0 <= i < |fs| && fs[i].key == "BREAKING CHANGE"
  }

  /** The failed checks, one constructor per check, in the order they are made. */
  datatype LintError =
    | TypeInvalid(commitType: string)
    | TypeLower
    | ScopeRequired
    | ScopeInvalid(scope: string)
    | ScopePattern
    | ScopeLower
    | SubjectEmpty
    | SubjectPeriod
    | BlankHeaderBody
    | BlankBeforeFooters
    | BreakingNotAllowed
    | BreakingRequiresFooter

  datatype LintWarning = SubjectTooLong(max: int) | FooterUnknown(key: string)

  /** The number of error checks. */
  function CheckCount(): nat { 12 }

  /** The position of a check in the sequence of checks. */
  function Rank(e: LintError): (r: nat)
    ensures r < CheckCount()
  {
    match e
    case TypeInvalid(_) => 0
    case TypeLower => 1
    case ScopeRequired => 2
    case ScopeInvalid(_) => 3
    case ScopePattern => 4
    case ScopeLower => 5
    case SubjectEmpty => 6
    case SubjectPeriod => 7
    case BlankHeaderBody => 8
    case BlankBeforeFooters => 9
    case BreakingNotAllowed => 10
    case BreakingRequiresFooter => 11
  }

  /** The error check number `j` reports about `c`. */
  function CheckAt(c: ParsedCommit, j: nat): (e: LintError)
    requires j < CheckCount()
    ensures Rank(e) == j
  {
    if j == 0 then TypeInvalid(c.commitType)
    else if j == 1 then TypeLower
    else if j == 2 then ScopeRequired
    else if j == 3 then ScopeInvalid(c.scope.GetOr(""))
    else if j == 4 then ScopePattern
    else if j == 5 then ScopeLower
    else if j == 6 then SubjectEmpty
    else if j == 7 then SubjectPeriod
    else if j == 8 then BlankHeaderBody
    else if j == 9 then BlankBeforeFooters
    else if j == 10 then BreakingNotAllowed
    else BreakingRequiresFooter
  }

  predicate TypeNotAllowed(c: ParsedCommit, o: LintOptions) {
    c.commitType !in o.types
  }

  predicate TypeNotLower(c: ParsedCommit) {
    c.commitType != Lower(c.commitType)
  }

  predicate ScopeMissing(c: ParsedCommit, o: LintOptions) {
    o.requireScope && !Truthy(c.scope)
  }

  predicate ScopeNotListed(c: ParsedCommit, o: LintOptions) {
    Truthy(c.scope) && |o.scopes| > 0 && c.scope.value !in o.scopes
  }

  predicate ScopeBadChars(c: ParsedCommit) {
    Truthy(c.scope) && !ScopeCharsOk(c.scope.value)
  }

  predicate ScopeNotLower(c: ParsedCommit) {
    Truthy(c.scope) && c.scope.value != Lower(c.scope.value)
  }

  /** `!commit.subject || commit.subject.trim().length === 0`. */
  predicate SubjectBlank(c: ParsedCommit) {
    c.subject == "" || IsBlank(c.subject)
  }

  predicate SubjectEndsWithPeriod(c: ParsedCommit) {
    EndsWith(Trim(c.subject), ".")
  }

  predicate BodyNotSeparated(c: ParsedCommit) {
    Truthy(c.body) && !(c.meta.Some? && c.meta.value.hasBlankAfterHeader)
  }

  predicate FootersNotSeparated(c: ParsedCommit) {
    c.footers.Some? && |c.footers.value| > 0 && !(c.meta.Some? && c.meta.value.hasBlankBeforeFooter)
  }

  predicate BreakingForbidden(c: ParsedCommit, o: LintOptions) {
    c.isBreaking == Some(true) && !o.allowBreaking
  }

  predicate BreakingFooterMissing(c: ParsedCommit) {
    c.isBreaking == Some(true) && !HasBreakingFooter(FootersOf(c))
  }

  /** Whether check number `j` fails on `c` under `o`. */
  predicate Fails(c: ParsedCommit, o: LintOptions, j: nat) {
    if j == 0 then TypeNotAllowed(c, o)
    else if j == 1 then TypeNotLower(c)
    else if j == 2 then ScopeMissing(c, o)
    else if j == 3 then ScopeNotListed(c, o)
    else if j == 4 then ScopeBadChars(c)
    else if j == 5 then ScopeNotLower(c)
    else if j == 6 then SubjectBlank(c)
    else if j == 7 then SubjectEndsWithPeriod(c)
    else if j == 8 then BodyNotSeparated(c)
    else if j == 9 then FootersNotSeparated(c)
    else if j == 10 then BreakingForbidden(c, o)
    else if j == 11 then BreakingFooterMissing(c)
    else false
  }

  /** The failures among the first `k` checks, in check order. */
  function ErrorsUpTo(c: ParsedCommit, o: LintOptions, k: nat): seq<LintError>
    requires k <= CheckCount()
  {
    if k == 0 then []
    else ErrorsUpTo(c, o, k - 1) + (if Fails(c, o, k - 1) then [CheckAt(c, k - 1)] else [])
  }

  /** The messages of the failures among the first `k` checks, in check order. */
  function MessagesUpTo(lang: string, c: ParsedCommit, o: LintOptions, k: nat): seq<string>
    requires k <= CheckCount()
  {
    if k == 0 then []
    else MessagesUpTo(lang, c, o, k - 1) + (if Fails(c, o, k - 1) then [ErrorText(lang, CheckAt(c, k - 1))] else [])
  }

  /** Every failing check, in check order. */
  function Errors(c: ParsedCommit, o: LintOptions): seq<LintError> {
    ErrorsUpTo(c, o, CheckCount())
  }

  function If<T>(b: bool, x: T): seq<T> {
    if b then [x] else []
  }

  /** One warning per footer whose key is not a known keyword, in footer order. */
  function UnknownFooters(fs: seq<Footer>, keywords: seq<string>): seq<LintWarning> {
    if |fs| == 0 then []
    else UnknownFooters(fs[..|fs| - 1], keywords) + If(fs[|fs| - 1].key !in keywords, FooterUnknown(fs[|fs| - 1].key))
  }

  /** Every warning, in the order they are found. */
  function Warnings(c: ParsedCommit, o: LintOptions): seq<LintWarning> {
    If(|c.subject| > o.maxSubjectLength, SubjectTooLong(o.maxSubjectLength))
    + UnknownFooters(FootersOf(c), o.footerKeywords)
  }

  /** The message key of a failed check. */
  function ErrorKey(e: LintError): string {
    match e
    case TypeInvalid(_) => "rules.typeInvalid"
    case TypeLower => "rules.typeLower"
    case ScopeRequired => "rules.scopeRequired"
    case ScopeInvalid(_) => "rules.scopeInvalid"
    case ScopePattern => "rules.scopePattern"
    case ScopeLower => "rules.scopeLower"
    case SubjectEmpty => "rules.subjectEmpty"
    case SubjectPeriod => "rules.subjectPeriod"
    case BlankHeaderBody => "rules.blankHeaderBody"
    case BlankBeforeFooters => "rules.blankBeforeFooters"
    case BreakingNotAllowed => "rules.breakingNotAllowed"
    case BreakingRequiresFooter => "rules.breakingRequiresFooter"
  }

  /** The placeholder values of a failed check's message. */
  function ErrorParams(e: LintError): seq<(string, string)> {
    match e
    case TypeInvalid(t) => [("type", t)]
    case ScopeInvalid(s) => [("scope", s)]
    case _ => []
  }

  /** The translated message of a failed check. */
  function ErrorText(lang: string, e: LintError): string {
    I18n.Translate(lang, ErrorKey(e), ErrorParams(e))
  }

  function WarningKey(w: LintWarning): string {
    match w
    case SubjectTooLong(_) => "rules.subjectTooLong"
    case FooterUnknown(_) => "rules.footerUnknown"
  }

  function WarningParams(w: LintWarning): seq<(string, string)> {
    match w
    case SubjectTooLong(max) => [("max", IntToString(max))]
    case FooterUnknown(k) => [("key", k)]
  }

  /** The translated message of a warning. */
  function WarningText(lang: string, w: LintWarning): string {
    I18n.Translate(lang, WarningKey(w), WarningParams(w))
  }

  function ErrorTexts(lang: string, es: seq<LintError>): (r: seq<string>)
    ensures |r| == |es|
  {
    if |es| == 0 then [] else ErrorTexts(lang, es[..|es| - 1]) + [ErrorText(lang, es[|es| - 1])]
  }

  function WarningTexts(lang: string, ws: seq<LintWarning>): (r: seq<string>)
    ensures |r| == |ws|
  {
    if |ws| == 0 then [] else WarningTexts(lang, ws[..|ws| - 1]) + [WarningText(lang, ws[|ws| - 1])]
  }

  lemma ErrorTextsSnoc(lang: string, es: seq<LintError>, e: LintError)
    ensures ErrorTexts(lang, es + [e]) == ErrorTexts(lang, es) + [ErrorText(lang, e)]
  {
    assert (es + [e])[..|es|] == es;
  }

  lemma WarningTextsSnoc(lang: string, ws: seq<LintWarning>, w: LintWarning)
    ensures WarningTexts(lang, ws + [w]) == WarningTexts(lang, ws) + [WarningText(lang, w)]
  {
    assert (ws + [w])[..|ws|] == ws;
  }

  /**
   * One check of `lintCommit`, `if (failed) errors.push(t(lang, key, params))`, where
   * `failed` and `e` are the condition and the report of check number `j`.
   */
  method Check(lang: string, failed: bool, e: LintError, errors: seq<string>,
               ghost c: ParsedCommit, ghost o: LintOptions, ghost j: nat)
    returns (errors': seq<string>)
    requires j < CheckCount() && failed == Fails(c, o, j) && e == CheckAt(c, j)
    requires errors == MessagesUpTo(lang, c, o, j)
    ensures errors' == MessagesUpTo(lang, c, o, j + 1)
  {
    errors' := errors;
    if failed {
      var m := I18n.T(lang, ErrorKey(e), ErrorParams(e));
      errors' := errors + [m];
    }
  }

  /** The unknown footers among the first `i + 1` are those among the first `i`, then the footer at `i` if its key is unknown. */
  lemma UnknownFootersSnoc(fs: seq<Footer>, keywords: seq<string>, i: nat)
    requires i < |fs|
    ensures UnknownFooters(fs[..i + 1], keywords) == UnknownFooters(fs[..i], keywords) + UnknownFooters([fs[i]], keywords)
  {
    assert fs[..i + 1][..i] == fs[..i];
  }

  lemma AppendAssoc<T>(a: seq<T>, b: seq<T>, c: seq<T>)
    ensures (a + b) + c == a + (b + c)
  {
  }

  /** One turn of the footer loop: the warning for footer `f` is pushed when its key is unknown. */
  method WarnIfUnknown(lang: string, f: Footer, keywords: seq<string>, warnings: seq<string>, ghost noted: seq<LintWarning>)
    returns (warnings': seq<string>, ghost noted': seq<LintWarning>)
    requires warnings == WarningTexts(lang, noted)
    ensures noted' == noted + UnknownFooters([f], keywords)
    ensures warnings' == WarningTexts(lang, noted')
  {
    assert [f][..0] == [];
    warnings', noted' := warnings, noted;
    if f.key !in keywords {
      var m := I18n.T(lang, WarningKey(FooterUnknown(f.key)), WarningParams(FooterUnknown(f.key)));
      WarningTextsSnoc(lang, noted, FooterUnknown(f.key));
      warnings', noted' := warnings + [m], noted + [FooterUnknown(f.key)];
    }
  }

  /** The footer loop of `lintCommit`: one warning pushed per footer with an unknown key. */
  method WarnUnknownFooters(lang: string, fs: seq<Footer>, keywords: seq<string>,
                            warnings: seq<string>, ghost noted: seq<LintWarning>)
    returns (warnings': seq<string>)
    requires warnings == WarningTexts(lang, noted)
    ensures warnings' == WarningTexts(lang, noted + UnknownFooters(fs, keywords))
  {
    warnings' := warnings;
    ghost var all := noted;
    for i := 0 to |fs|
      invariant all == noted + UnknownFooters(fs[..i], keywords)
      invariant warnings' == WarningTexts(lang, all)
    {
      UnknownFootersSnoc(fs, keywords, i);
      AppendAssoc(noted, UnknownFooters(fs[..i], keywords), UnknownFooters([fs[i]], keywords));
      warnings', all := WarnIfUnknown(lang, fs[i], keywords, warnings', all);
    }
    assert fs[..|fs|] == fs;
  }

  /** `lintCommit`: every check in turn, each failure pushing its message, then the warnings. */
  method LintCommit(c: ParsedCommit, opts: PartialOptions) returns (res: LintResult)
    ensures res.errors == ErrorTexts(Resolve(opts).language, Errors(c, Resolve(opts)))
    ensures res.warnings == WarningTexts(Resolve(opts).language, Warnings(c, Resolve(opts)))
    ensures res.valid <==> Errors(c, Resolve(opts)) == []
  {
    var o := Resolve(opts);
    var lang := o.language;
    var errors := HeaderChecks(lang, c, o);
    var warnings: seq<string> := [];
    if |c.subject| > o.maxSubjectLength {
      var m := I18n.T(lang, WarningKey(SubjectTooLong(o.maxSubjectLength)), WarningParams(SubjectTooLong(o.maxSubjectLength)));
      warnings := warnings + [m];
    }
    errors := LayoutChecks(lang, c, o, errors, 7);
    ghost var noted := If(|c.subject| > o.maxSubjectLength, SubjectTooLong(o.maxSubjectLength));
    assert warnings == WarningTexts(lang, noted) by {
      if |c.subject| > o.maxSubjectLength {
        WarningTextsSnoc(lang, [], SubjectTooLong(o.maxSubjectLength));
      }
    }
    warnings := WarnUnknownFooters(lang, FootersOf(c), o.footerKeywords, warnings, noted);
    MessagesAreErrorTexts(lang, c, o, CheckCount());
    res := LintResult(|errors| == 0, errors, warnings);
  }

  /** The type, scope and blank-subject checks of `lintCommit`, the first seven. */
  method HeaderChecks(lang: string, c: ParsedCommit, o: LintOptions) returns (errors: seq<string>)
    ensures errors == MessagesUpTo(lang, c, o, 7)
  {
    errors := [];
    ghost var j: nat := 0;
    errors := Check(lang, TypeNotAllowed(c, o), TypeInvalid(c.commitType), errors, c, o, j);
    j := j + 1;
    errors := Check(lang, TypeNotLower(c), TypeLower, errors, c, o, j);
    j := j + 1;
    errors := Check(lang, ScopeMissing(c, o), ScopeRequired, errors, c, o, j);
    j := j + 1;
    var scope := c.scope.GetOr("");
    errors := Check(lang, ScopeNotListed(c, o), ScopeInvalid(scope), errors, c, o, j);
    j := j + 1;
    errors := Check(lang, ScopeBadChars(c), ScopePattern, errors, c, o, j);
    j := j + 1;
    errors := Check(lang, ScopeNotLower(c), ScopeLower, errors, c, o, j);
    j := j + 1;
    errors := Check(lang, SubjectBlank(c), SubjectEmpty, errors, c, o, j);
  }

  /** The period, layout and breaking-change checks of `lintCommit`, the last five. */
  method LayoutChecks(lang: string, c: ParsedCommit, o: LintOptions, errors: seq<string>, ghost j: nat)
    returns (errors': seq<string>)
    requires j == 7 && errors == MessagesUpTo(lang, c, o, j)
    ensures errors' == MessagesUpTo(lang, c, o, j + 5)
  {
    errors' := Check(lang, SubjectEndsWithPeriod(c), SubjectPeriod, errors, c, o, j);
    errors' := Check(lang, BodyNotSeparated(c), BlankHeaderBody, errors', c, o, j + 1);
    errors' := Check(lang, FootersNotSeparated(c), BlankBeforeFooters, errors', c, o, j + 2);
    errors' := Check(lang, BreakingForbidden(c, o), BreakingNotAllowed, errors', c, o, j + 3);
    errors' := Check(lang, BreakingFooterMissing(c), BreakingRequiresFooter, errors', c, o, j + 4);
  }

  /** The messages are the texts of the reported checks. */
  lemma {:induction false} MessagesAreErrorTexts(lang: string, c: ParsedCommit, o: LintOptions, k: nat)
    requires k <= CheckCount()
    ensures MessagesUpTo(lang, c, o, k) == ErrorTexts(lang, ErrorsUpTo(c, o, k))
  {
    if k > 0 {
      MessagesAreErrorTexts(lang, c, o, k - 1);
      var before := ErrorsUpTo(c, o, k - 1);
      if Fails(c, o, k - 1) {
        var e := CheckAt(c, k - 1);
        assert ErrorsUpTo(c, o, k) == before + [e];
        assert MessagesUpTo(lang, c, o, k) == MessagesUpTo(lang, c, o, k - 1) + [ErrorText(lang, e)];
        ErrorTextsSnoc(lang, before, e);
      } else {
        assert ErrorsUpTo(c, o, k) == before;
        assert MessagesUpTo(lang, c, o, k) == MessagesUpTo(lang, c, o, k - 1);
      }
    }
  }

  /** Check `e` is reported among the first `k` checks exactly when it is the failing check of its rank. */
  lemma {:induction false} ErrorsUpToMembers(c: ParsedCommit, o: LintOptions, k: nat, e: LintError)
    requires k <= CheckCount()
    ensures e in ErrorsUpTo(c, o, k) <==> Rank(e) < k && Fails(c, o, Rank(e)) && e == CheckAt(c, Rank(e))
  {
    if k > 0 {
      ErrorsUpToMembers(c, o, k - 1, e);
    }
  }

  /** The first `k` checks are reported in check order, each at most once. */
  lemma {:induction false} ErrorsUpToOrdered(c: ParsedCommit, o: LintOptions, k: nat)
    requires k <= CheckCount()
    ensures forall i :: 0 <= i < |ErrorsUpTo(c, o, k)| ==> Rank(ErrorsUpTo(c, o, k)[i]) < k
    ensures forall i, j :: 0 <= i < j < |ErrorsUpTo(c, o, k)| ==>
      Rank(ErrorsUpTo(c, o, k)[i]) < Rank(ErrorsUpTo(c, o, k)[j])
  {
    if k > 0 {
      ErrorsUpToOrdered(c, o, k - 1);
    }
  }

  /** All failing checks are reported, in check order, each at most once. */
  lemma ErrorsInCheckOrder(c: ParsedCommit, o: LintOptions)
    ensures forall i, j :: 0 <= i < j < |Errors(c, o)| ==> Rank(Errors(c, o)[i]) < Rank(Errors(c, o)[j])
    ensures forall j :: 0 <= j < CheckCount() ==> (Fails(c, o, j) <==> CheckAt(c, j) in Errors(c, o))
  {
    ErrorsUpToOrdered(c, o, CheckCount());
    forall j | 0 <= j < CheckCount()
      ensures Fails(c, o, j) <==> CheckAt(c, j) in Errors(c, o)
    {
      ErrorsUpToMembers(c, o, CheckCount(), CheckAt(c, j));
    }
  }

  /** `valid` holds exactly when no check fails. */
  lemma ValidIffNoCheckFails(c: ParsedCommit, o: LintOptions)
    ensures Errors(c, o) == [] <==> forall j :: 0 <= j < CheckCount() ==> !Fails(c, o, j)
  {
    ErrorsInCheckOrder(c, o);
    if Errors(c, o) != [] {
      var e := Errors(c, o)[0];
      ErrorsUpToMembers(c, o, CheckCount(), e);
    }
  }

  /** The type and scope checks fail exactly when their conditions hold. */
  lemma TypeAndScopeConditions(c: ParsedCommit, o: LintOptions)
    ensures TypeInvalid(c.commitType) in Errors(c, o) <==> c.commitType !in o.types
    ensures TypeLower in Errors(c, o) <==> c.commitType != Lower(c.commitType)
    ensures ScopeRequired in Errors(c, o) <==> o.requireScope && !Truthy(c.scope)
    ensures (exists s :: ScopeInvalid(s) in Errors(c, o))
      <==> Truthy(c.scope) && |o.scopes| > 0 && c.scope.value !in o.scopes
    ensures ScopePattern in Errors(c, o) <==> Truthy(c.scope) && !ScopeCharsOk(c.scope.value)
    ensures ScopeLower in Errors(c, o) <==> Truthy(c.scope) && c.scope.value != Lower(c.scope.value)
  {
    ErrorsUpToMembers(c, o, CheckCount(), TypeInvalid(c.commitType));
    ErrorsUpToMembers(c, o, CheckCount(), TypeLower);
    ErrorsUpToMembers(c, o, CheckCount(), ScopeRequired);
    forall s ensures ScopeInvalid(s) in Errors(c, o) <==> ScopeNotListed(c, o) && s == c.scope.GetOr("") {
      ErrorsUpToMembers(c, o, CheckCount(), ScopeInvalid(s));
    }
    if ScopeNotListed(c, o) {
      assert ScopeInvalid(c.scope.value) in Errors(c, o);
    }
    ErrorsUpToMembers(c, o, CheckCount(), ScopePattern);
    ErrorsUpToMembers(c, o, CheckCount(), ScopeLower);
  }

  /** Check number `j` is reported exactly when it fails. */
  lemma CheckReported(c: ParsedCommit, o: LintOptions, j: nat)
    requires j < CheckCount()
    ensures CheckAt(c, j) in Errors(c, o) <==> Fails(c, o, j)
  {
    ErrorsUpToMembers(c, o, CheckCount(), CheckAt(c, j));
  }

  /** A blank subject is an error, and so is one ending in a period once trimmed. */
  lemma SubjectConditions(c: ParsedCommit, o: LintOptions)
    ensures SubjectEmpty in Errors(c, o) <==> IsBlank(c.subject)
    ensures SubjectPeriod in Errors(c, o) <==> EndsWith(Trim(c.subject), ".")
  {
    CheckReported(c, o, 6);
    CheckReported(c, o, 7);
    if c.subject == "" {
      assert TrimStart(c.subject) == "";
    }
  }

  /** A body or footers without the blank line before them are errors. */
  lemma LayoutConditions(c: ParsedCommit, o: LintOptions)
    ensures BlankHeaderBody in Errors(c, o) <==> Truthy(c.body) && !(c.meta.Some? && c.meta.value.hasBlankAfterHeader)
    ensures BlankBeforeFooters in Errors(c, o)
      <==> c.footers.Some? && |c.footers.value| > 0 && !(c.meta.Some? && c.meta.value.hasBlankBeforeFooter)
  {
    ErrorsUpToMembers(c, o, CheckCount(), BlankHeaderBody);
    ErrorsUpToMembers(c, o, CheckCount(), BlankBeforeFooters);
  }

  /** A breaking change is an error when not allowed, and when it has no `BREAKING CHANGE` footer. */
  lemma BreakingConditions(c: ParsedCommit, o: LintOptions)
    ensures BreakingNotAllowed in Errors(c, o) <==> c.isBreaking == Some(true) && !o.allowBreaking
    ensures BreakingRequiresFooter in Errors(c, o)
      <==> c.isBreaking == Some(true) && !(exists i :: 0 <= i < |FootersOf(c)| && FootersOf(c)[i].key == "BREAKING CHANGE")
  {
    ErrorsUpToMembers(c, o, CheckCount(), BreakingNotAllowed);
    ErrorsUpToMembers(c, o, CheckCount(), BreakingRequiresFooter);
  }

  /** A subject that is too long is only a warning: the errors do not depend on the length limit. */
  lemma LengthLimitOnlyWarns(c: ParsedCommit, o: LintOptions, max: int)
    ensures Errors(c, o) == Errors(c, o.(maxSubjectLength := max))
    ensures SubjectTooLong(o.maxSubjectLength) in Warnings(c, o) <==> |c.subject| > o.maxSubjectLength
  {
    var o' := o.(maxSubjectLength := max);
    forall j | 0 <= j < CheckCount() ensures Fails(c, o, j) == Fails(c, o', j) {
    }
    ErrorsUpToSameFailures(c, o, o', CheckCount());
    if |c.subject| <= o.maxSubjectLength {
      UnknownFootersKind(FootersOf(c), o.footerKeywords);
    }
  }

  lemma {:induction false} ErrorsUpToSameFailures(c: ParsedCommit, o: LintOptions, o': LintOptions, k: nat)
    requires k <= CheckCount()
    requires forall j :: 0 <= j < k ==> Fails(c, o, j) == Fails(c, o', j)
    ensures ErrorsUpTo(c, o, k) == ErrorsUpTo(c, o', k)
  {
    if k > 0 {
      ErrorsUpToSameFailures(c, o, o', k - 1);
    }
  }

  /** Every warning about footers is about an unknown footer key. */
  lemma {:induction false} UnknownFootersKind(fs: seq<Footer>, keywords: seq<string>)
    ensures forall i :: 0 <= i < |UnknownFooters(fs, keywords)| ==>
      UnknownFooters(fs, keywords)[i].FooterUnknown? && UnknownFooters(fs, keywords)[i].key !in keywords
  {
    if |fs| > 0 {
      UnknownFootersKind(fs[..|fs| - 1], keywords);
    }
  }

  /** The number of footers whose key is not a keyword. */
  function CountUnknown(fs: seq<Footer>, keywords: seq<string>): nat {
    if |fs| == 0 then 0 else (if fs[0].key in keywords then 0 else 1) + CountUnknown(fs[1..], keywords)
  }

  /** Each footer with an unknown key adds exactly one warning. */
  lemma {:induction false} OneWarningPerUnknownFooter(fs: seq<Footer>, keywords: seq<string>)
    ensures |UnknownFooters(fs, keywords)| == CountUnknown(fs, keywords)
  {
    if |fs| > 0 {
      OneWarningPerUnknownFooter(fs[..|fs| - 1], keywords);
      CountUnknownSnoc(fs[..|fs| - 1], fs[|fs| - 1], keywords);
      assert fs[..|fs| - 1] + [fs[|fs| - 1]] == fs;
    }
  }

  lemma {:induction false} CountUnknownSnoc(fs: seq<Footer>, f: Footer, keywords: seq<string>)
    ensures CountUnknown(fs + [f], keywords) == CountUnknown(fs, keywords) + (if f.key in keywords then 0 else 1)
  {
    if |fs| > 0 {
      assert (fs + [f])[1..] == fs[1..] + [f];
      CountUnknownSnoc(fs[1..], f, keywords);
    }
  }

  /** A commit with a known lower-case type, a plain subject and nothing else passes every check. */
  lemma PlainCommitIsValid(c: ParsedCommit, o: LintOptions)
    requires c.commitType in o.types && c.commitType == Lower(c.commitType)
    requires c.scope == None && !o.requireScope
    requires !IsBlank(c.subject) && !EndsWith(Trim(c.subject), ".")
    requires c.body == None && c.footers == None && c.isBreaking == None
    ensures Errors(c, o) == []
  {
    SubjectConditions(c, o);
    forall j | 0 <= j < CheckCount() ensures !Fails(c, o, j) {
      CheckReported(c, o, j);
    }
    ValidIffNoCheckFails(c, o);
  }

  /** `lintCommit({type: "foo", subject: "x"})` reports an invalid type. */
  lemma UnknownTypeExample()
    ensures TypeInvalid("foo") in Errors(ParsedCommit("foo", None, "x", None, None, None, None), DefaultOptions)
  {
    TypeAndScopeConditions(ParsedCommit("foo", None, "x", None, None, None, None), DefaultOptions);
  }

  /** `lintCommit({type: "feat", subject: "add x"})` is valid. */
  lemma ValidExample()
    ensures Errors(ParsedCommit("feat", None, "add x", None, None, None, None), DefaultOptions) == []
  {
    assert Trim("add x") == "add x" by {
      assert TrimStart("add x") == "add x";
      assert TrimEnd("add x") == "add x";
    }
    assert Lower("feat") == "feat";
    PlainCommitIsValid(ParsedCommit("feat", None, "add x", None, None, None, None), DefaultOptions);
  }

  /** A body without the blank line after the header, and a breaking change without its footer, are errors. */
  lemma MissingBlankAndFooterExamples()
    ensures BlankHeaderBody in Errors(
      ParsedCommit("feat", None, "add x", Some("details"), None, None, Some(Meta("feat: add x", false, false))),
      DefaultOptions)
    ensures BreakingRequiresFooter in Errors(
      ParsedCommit("feat", None, "add x!", None, None, Some(true), None), DefaultOptions)
  {
    LayoutConditions(
      ParsedCommit("feat", None, "add x", Some("details"), None, None, Some(Meta("feat: add x", false, false))),
      DefaultOptions);
    BreakingConditions(ParsedCommit("feat", None, "add x!", None, None, Some(true), None), DefaultOptions);
  }
}
