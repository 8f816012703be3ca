/**
 * The check of the three README files (English, Portuguese, Spanish): language
 * links at the top, required sections in order, and required examples. The
 * file contents are parameters.
 */
module ReadmeCheck {
  import opened Wrappers
  import opened Text

  /**
   * A regular expression of the shapes the check uses: literal pieces with
   * `\s*` between consecutive pieces, matched case-sensitively or, with the `i`
   * flag, ignoring the case of ASCII letters. No piece after the first starts
   * with white space, so skipping all white space before it, as `\s*` does
   * greedily, loses no match.
   */
  datatype Pattern = Pattern(pieces: seq<string>, ignoreCase: bool)

  /** A pattern that is one literal text. */
  function Literal(text: string): Pattern {
    Pattern([text], false)
  }

  /** `s` starts with `p`, up to case when `ignoreCase` holds. */
  predicate StartsWithCase(s: string, p: string, ignoreCase: bool) {
    |p| <= |s| && (if ignoreCase then Lower(s[..|p|]) == Lower(p) else s[..|p|] == p)
  }

  /** The pieces match at the start of `s`, each after the white space that follows the one before. */
  predicate MatchesFront(s: string, pieces: seq<string>, ignoreCase: bool)
    decreases |pieces|
  {
    |pieces| == 0
    || (StartsWithCase(s, pieces[0], ignoreCase)
        && (|pieces| == 1 || MatchesFront(TrimStart(s[|pieces[0]|..]), pieces[1..], ignoreCase)))
  }

  /** `re.test(content)`. */
  predicate Test(p: Pattern, content: string) {
    exists k :: 0 <= k <= |content| && MatchesFront(content[k..], p.pieces, p.ignoreCase)
  }

  /** A literal pattern is found exactly where `includes` finds its text. */
  lemma LiteralIsContains(text: string, content: string)
    ensures Test(Literal(text), content) <==> Contains(content, text)
  {
    ContainsIff(content, text);
    if Test(Literal(text), content) {
      var k :| 0 <= k <= |content| && MatchesFront(content[k..], [text], false);
      assert content[k..][..|text|] == content[k..k + |text|];
      assert OccursAt(content, text, k);
    }
    if Contains(content, text) {
      var k :| OccursAt(content, text, k);
      assert content[k..][..|text|] == content[k..k + |text|];
      assert MatchesFront(content[k..], [text], false);
    }
  }

  /** The language-link patterns for a language; none for a language the check does not know. */
  function LinkPatterns(lang: string): seq<Pattern> {
    if lang == "en" then
      [Literal("(./README.pt-BR.md)"), Literal("(./README.es.md)"), Pattern(["languages:", "english", "|"], true)]
    else if lang == "pt" then
      [Literal("(./README.md)"), Literal("(./README.es.md)"), Pattern(["idiomas:", "[english]"], true)]
    else if lang == "es" then
      [Literal("(./README.md)"), Literal("(./README.pt-BR.md)"), Pattern(["idiomas:", "[english]"], true)]
    else
      []
  }

  /** `checkPatterns(content, patterns)`: every pattern matches. */
  predicate CheckPatterns(content: string, patterns: seq<Pattern>) {
    forall i :: 0 <= i < |patterns| ==> Test(patterns[i], content)
  }

  /** `checkLinks(content, lang)`. */
  predicate CheckLinks(content: string, lang: string) {
    CheckPatterns(content, LinkPatterns(lang))
  }

  /** A language without link patterns passes the link check whatever the content. */
  lemma UnknownLanguageLinksPass(content: string, lang: string)
    requires lang != "en" && lang != "pt" && lang != "es"
    ensures CheckLinks(content, lang)
  {
  }

  /** Every title occurs, and each first occurrence comes after that of the title before it. */
  predicate InOrder(content: string, titles: seq<string>) {
    (forall i :: 0 <= i < |titles| ==> IndexOf(content, titles[i]) >= 0)
    && (forall i :: 0 < i < |titles| ==> IndexOf(content, titles[i - 1]) < IndexOf(content, titles[i]))
  }

  /** `checkSectionsOrder(content, titles)`. */
  method CheckSectionsOrder(content: string, titles: seq<string>) returns (ok: bool)
    ensures ok <==> InOrder(content, titles)
  {
    var indexes := seq(|titles|, i requires 0 <= i < |titles| => IndexOf(content, titles[i]));
    if exists i :: 0 <= i < |indexes| && indexes[i] == -1 {
      return false;
    }
    assert forall i :: 0 <= i < |titles| ==> IndexOf(content, titles[i]) >= 0 by {
      forall i | 0 <= i < |titles| ensures IndexOf(content, titles[i]) >= 0 {
        assert indexes[i] != -1;
      }
    }
    var i := 1;
    while i < |indexes|
      invariant 1 <= i
      invariant forall j :: 0 < j < i && j < |indexes| ==> indexes[j - 1] < indexes[j]
    {
      if indexes[i] <= indexes[i - 1] {
        return false;
      }
      i := i + 1;
    }
    forall j | 0 < j < |titles| ensures IndexOf(content, titles[j - 1]) < IndexOf(content, titles[j]) {
      assert indexes[j - 1] < indexes[j];
    }
    return true;
  }

  /** The sections each README must have, in this order. */
  function Sections(lang: string): seq<string> {
    if lang == "en" then
      ["## Installation", "## CLI Usage", "## Multi-line messages", "## Core rules",
       "## Configuration", "## Compatibility", "## Contributing", "## Documentation PR Checklist"]
    else if lang == "pt" then
      ["## Instalação", "## Uso do CLI", "## Mensagens multi-linha", "## Regras principais",
       "## Configuração", "## Compatibilidade", "## Contribuindo", "## Checklist para PRs de documentação"]
    else
      ["## Instalación", "## Uso del CLI", "## Mensajes multi-línea", "## Reglas principales",
       "## Configuración", "## Compatibilidad", "## Contribuyendo", "## Checklist para PRs de documentación"]
  }

  /** The examples every README must show: the same four in each language. */
  function Examples(): seq<Pattern> {
    [Literal("lint --file"), Literal("lint -m $'feat(core): change\\n\\nBody text"),
     Literal("install-hooks"), Literal("Node >= 16")]
  }

  /** The languages in the order their files are checked. */
  const Languages: seq<string> := ["en", "pt", "es"]

  /** One README passes: links, section order and examples. */
  predicate Passes(lang: string, content: string) {
    CheckLinks(content, lang) && InOrder(content, Sections(lang)) && CheckPatterns(content, Examples())
  }

  /** The three checks of one README, all of them run. */
  method CheckReadme(lang: string, content: string) returns (ok: bool)
    ensures ok <==> Passes(lang, content)
  {
    var linksOk := CheckLinks(content, lang);
    var sectionsOk := CheckSectionsOrder(content, Sections(lang));
    var patternsOk := CheckPatterns(content, Examples());
    ok := linksOk && sectionsOk && patternsOk;
  }

  /** The index of the first README that cannot be read, `|files|` when every one can. */
  function FirstUnreadable(files: seq<Option<string>>): (k: nat)
    ensures k <= |files| && (k < |files| ==> files[k].None?)
    ensures forall j :: 0 <= j < k ==> files[j].Some?
  {
    if |files| == 0 || files[0].None? then 0 else 1 + FirstUnreadable(files[1..])
  }

  /** The languages among the first `n` whose README `passes` rejects, in order. */
  function FailedIn(langs: seq<string>, contents: seq<string>, n: nat, passes: (string, string) -> bool): seq<string>
    requires n <= |contents| <= |langs|
  {
    if n == 0 then []
    else FailedIn(langs, contents, n - 1, passes) + (if passes(langs[n - 1], contents[n - 1]) then [] else [langs[n - 1]])
  }

  /** A language is listed as failed exactly when its README, among the first `n`, fails. */
  lemma {:induction false} FailedInMembers(langs: seq<string>, contents: seq<string>, n: nat, passes: (string, string) -> bool)
    requires n <= |contents| <= |langs|
    ensures forall l :: l in FailedIn(langs, contents, n, passes) <==>
      exists i :: 0 <= i < n && l == langs[i] && !passes(langs[i], contents[i])
  {
    if n > 0 {
      FailedInMembers(langs, contents, n - 1, passes);
      var before := FailedIn(langs, contents, n - 1, passes);
      forall l ensures l in FailedIn(langs, contents, n, passes) <==>
        exists i :: 0 <= i < n && l == langs[i] && !passes(langs[i], contents[i])
      {
        if exists i :: 0 <= i < n && l == langs[i] && !passes(langs[i], contents[i]) {
          var i :| 0 <= i < n && l == langs[i] && !passes(langs[i], contents[i]);
          if i < n - 1 {
            assert l in before;
          }
        }
      }
    }
  }

  /** No language is listed as failed exactly when every README among the first `n` passes. */
  lemma NoneFailedIn(langs: seq<string>, contents: seq<string>, n: nat, passes: (string, string) -> bool)
    requires n <= |contents| <= |langs|
    ensures FailedIn(langs, contents, n, passes) == [] <==> forall i :: 0 <= i < n ==> passes(langs[i], contents[i])
  {
    FailedInMembers(langs, contents, n, passes);
    if FailedIn(langs, contents, n, passes) != [] {
      assert FailedIn(langs, contents, n, passes)[0] in FailedIn(langs, contents, n, passes);
    }
  }

  /**
   * The loop of the script over the contents of the first files, each checked
   * for the language at the same place in `langs`: the languages whose README
   * fails, and whether all passed.
   */
  method CheckContents(langs: seq<string>, contents: seq<string>) returns (failed: seq<string>, ok: bool)
    requires |contents| <= |langs|
    ensures forall l :: l in failed <==> exists i :: 0 <= i < |contents| && l == langs[i] && !Passes(langs[i], contents[i])
    ensures ok <==> |failed| == 0
    ensures ok <==> forall i :: 0 <= i < |contents| ==> Passes(langs[i], contents[i])
  {
    ok := true;
    failed := [];
    for i := 0 to |contents|
      invariant ok <==> |failed| == 0
      invariant failed == FailedIn(langs, contents, i, Passes)
    {
      var passes := CheckReadme(langs[i], contents[i]);
      if !passes {
        ok := false;
        failed := failed + [langs[i]];
      }
    }
    FailedInMembers(langs, contents, |contents|, Passes);
    NoneFailedIn(langs, contents, |contents|, Passes);
  }

  /**
   * The whole script over the three files, in the order of `Languages`, each
   * `None` when it cannot be read: the languages whose README fails, and the
   * exit code. A file that cannot be read throws, which stops the script with
   * exit code 1 after the files before it were checked.
   */
  method VerifyReadmes(files: seq<Option<string>>) returns (failed: seq<string>, exitCode: int)
    requires |files| == |Languages|
    ensures forall l :: l in failed <==>
      exists i :: 0 <= i < FirstUnreadable(files) && l == Languages[i] && !Passes(Languages[i], files[i].value)
    ensures exitCode == (if FirstUnreadable(files) < 3 || |failed| > 0 then 1 else 0)
    ensures exitCode == 0 <==> forall i :: 0 <= i < 3 ==> files[i].Some? && Passes(Languages[i], files[i].value)
  {
    var k := FirstUnreadable(files);
    var contents := seq(k, i requires 0 <= i < k => files[i].value);
    var ok;
    failed, ok := CheckContents(Languages, contents);
    exitCode := if k < 3 || !ok then 1 else 0;
  }
}
