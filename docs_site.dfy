/**
 * The documentation site's script: the language taken from the page path and
 * the path of the same page in another language, the search over the page's
 * headings, paragraphs and code blocks, the light/dark theme switch and the
 * mobile menu. The DOM, storage and navigation are reduced to the values the
 * script reads and writes.
 */
module DocsSite {
  import opened Wrappers
  import opened Text

  // ---------------------------------------------------------------------------
  // Languages

  /** The site's languages; `en` lives at the root, the others under their own prefix. */
  predicate IsLanguage(lang: string) {
    lang == "en" || lang == "pt-br" || lang == "es"
  }

  /** `detectLanguage`: the language a page path belongs to. */
  function DetectLanguage(path: string): (lang: string)
    ensures IsLanguage(lang)
    ensures lang == "pt-br" <==> StartsWith(path, "/pt-br/")
    ensures lang == "es" <==> !StartsWith(path, "/pt-br/") && StartsWith(path, "/es/")
  {
    if StartsWith(path, "/pt-br/") then "pt-br"
    else if StartsWith(path, "/es/") then "es"
    else "en"
  }

  /** `String.prototype.replace` with a text pattern: only the first occurrence is replaced. */
  function ReplaceFirst(s: string, p: string, v: string): (r: string)
    ensures IndexOf(s, p) < 0 ==> r == s
    ensures IndexOf(s, p) >= 0 ==> |r| == |s| - |p| + |v|
  {
    var i := IndexOf(s, p);
    if i < 0 then s else s[..i] + v + s[i + |p|..]
  }

  /** A text that starts with the pattern loses exactly that prefix. */
  lemma ReplaceLeadingPrefix(s: string, p: string)
    requires StartsWith(s, p)
    ensures ReplaceFirst(s, p, "") == s[|p|..]
  {
    assert OccursAt(s, p, 0);
    assert IndexOf(s, p) == 0;
  }

  /** The path prefix of a language: empty for `en` and any other name. */
  function Prefix(lang: string): (p: string)
    ensures p == "" <==> lang != "pt-br" && lang != "es"
  {
    if lang == "pt-br" then "/pt-br" else if lang == "es" then "/es" else ""
  }

  /** The path with the current language's prefix removed (its first occurrence). */
  function Stripped(current: string, path: string): string {
    if current == "pt-br" then ReplaceFirst(path, "/pt-br", "")
    else if current == "es" then ReplaceFirst(path, "/es", "")
    else path
  }

  /**
   * The path `switchLanguage` navigates to: the current language's prefix
   * removed, the target's prefix added, and a leading slash added when missing.
   */
  function SwitchedPath(current: string, path: string, target: string): (r: string)
    ensures |r| > 0 && r[0] == '/'
  {
    var prefixed := Prefix(target) + Stripped(current, path);
    if StartsWith(prefixed, "/") then prefixed else "/" + prefixed
  }

  /** On a page of its own language, the path without the language's prefix starts with a slash. */
  lemma StrippedPath(path: string)
    requires StartsWith(path, "/")
    ensures var lang := DetectLanguage(path);
      StartsWith(Stripped(lang, path), "/") && Prefix(lang) + Stripped(lang, path) == path
  {
    var lang := DetectLanguage(path);
    if lang == "pt-br" || lang == "es" {
      var p := Prefix(lang);
      ReplaceLeadingPrefix(path, p);
      assert path[|p|..][..1] == path[|p|..|p| + 1];
      assert p + path[|p|..] == path;
    }
  }

  /** A path under the prefix of `pt-br` or `es` belongs to that language and loses just that prefix. */
  lemma PrefixedPath(target: string, rest: string)
    requires (target == "pt-br" || target == "es") && StartsWith(rest, "/")
    ensures var r := Prefix(target) + rest;
      StartsWith(r, "/") && DetectLanguage(r) == target && Stripped(target, r) == rest
  {
    var p := Prefix(target);
    var r := p + rest;
    assert r[..|p| + 1] == p + "/";
    assert r[..1] == "/";
    assert StartsWith(r, p);
    if target == "pt-br" {
      assert p + "/" == "/pt-br/";
    } else {
      assert p + "/" == "/es/";
      assert r[1] == 'e';
    }
    ReplaceLeadingPrefix(r, p);
    assert r[|p|..] == rest;
  }

  /** Switching a page to the language it is already in leaves its path unchanged. */
  lemma SwitchToCurrentLanguage(path: string)
    requires StartsWith(path, "/")
    ensures SwitchedPath(DetectLanguage(path), path, DetectLanguage(path)) == path
  {
    StrippedPath(path);
  }

  /** Switching to `pt-br` or `es` lands on a page of that language. */
  lemma SwitchLandsOnTarget(path: string, target: string)
    requires StartsWith(path, "/") && (target == "pt-br" || target == "es")
    ensures DetectLanguage(SwitchedPath(DetectLanguage(path), path, target)) == target
  {
    StrippedPath(path);
    PrefixedPath(target, Stripped(DetectLanguage(path), path));
  }

  /**
   * Switching a page to `pt-br` or `es` and then, on the page reached, back
   * to the page's own language returns the original path.
   */
  lemma SwitchRoundTrip(path: string, target: string)
    requires StartsWith(path, "/") && (target == "pt-br" || target == "es")
    ensures var there := SwitchedPath(DetectLanguage(path), path, target);
      SwitchedPath(DetectLanguage(there), there, DetectLanguage(path)) == path
  {
    var lang := DetectLanguage(path);
    StrippedPath(path);
    PrefixedPath(target, Stripped(lang, path));
  }

  /** The en, pt-br, en round trip of a page at the site's root language. */
  lemma EnglishRoundTrip(path: string)
    requires StartsWith(path, "/") && DetectLanguage(path) == "en"
    ensures SwitchedPath("pt-br", SwitchedPath("en", path, "pt-br"), "en") == path
  {
    SwitchRoundTrip(path, "pt-br");
  }

  /** `LanguageSwitcher`: the language is read from the page path once, when the switcher is built. */
  class LanguageSwitcher {
    const pathname: string
    const currentLang: string

    constructor(pathname: string)
      ensures this.pathname == pathname && currentLang == DetectLanguage(pathname)
    {
      this.pathname := pathname;
      currentLang := DetectLanguage(pathname);
    }

    /** `switchLanguage(targetLang)`: the path the browser is sent to. */
    method SwitchLanguage(targetLang: string) returns (newPath: string)
      ensures newPath == SwitchedPath(currentLang, pathname, targetLang)
    {
      newPath := pathname;
      if currentLang == "pt-br" {
        newPath := ReplaceFirst(newPath, "/pt-br", "");
      } else if currentLang == "es" {
        newPath := ReplaceFirst(newPath, "/es", "");
      }
      assert newPath == Stripped(currentLang, pathname);
      if targetLang == "pt-br" {
        newPath := "/pt-br" + newPath;
      } else if targetLang == "es" {
        newPath := "/es" + newPath;
      }
      assert newPath == Prefix(targetLang) + Stripped(currentLang, pathname);
      if !StartsWith(newPath, "/") {
        newPath := "/" + newPath;
      }
    }
  }

  // ---------------------------------------------------------------------------
  // Search

  /** One entry of the search index. */
  datatype Entry = Entry(id: string, title: string, content: string, url: string, category: string)

  /** A heading of the page: its text and its `id` attribute ("" when it has none). */
  datatype Heading = Heading(text: string, id: string)

  /** A paragraph or code block: its text and the `id` of the section holding it ("" when none). */
  datatype Block = Block(text: string, sectionId: string)

  /** An entry is found by a query that its lower-cased title or content contains. */
  predicate Matches(e: Entry, query: string) {
    Contains(Lower(e.title), query) || Contains(Lower(e.content), query)
  }

  /** `filter`: the entries a query finds, in index order. */
  function Found(index: seq<Entry>, query: string): (r: seq<Entry>)
    ensures |r| <= |index|
    ensures forall k :: 0 <= k < |r| ==> Matches(r[k], query)
  {
    if |index| == 0 then []
    else (if Matches(index[0], query) then [index[0]] else []) + Found(index[1..], query)
  }

  /** An entry is found exactly when it is in the index and matches. */
  lemma {:induction false} FoundIff(index: seq<Entry>, query: string, e: Entry)
    ensures e in Found(index, query) <==> e in index && Matches(e, query)
    decreases |index|
  {
    if |index| > 0 {
      FoundIff(index[1..], query, e);
      assert index == [index[0]] + index[1..];
    }
  }

  /** Filtering keeps index order: the entries found in two parts follow each other. */
  lemma {:induction false} FoundAppend(a: seq<Entry>, b: seq<Entry>, query: string)
    ensures Found(a + b, query) == Found(a, query) + Found(b, query)
    decreases |a|
  {
    if |a| == 0 {
      assert a + b == b;
    } else {
      assert (a + b)[1..] == a[1..] + b;
      FoundAppend(a[1..], b, query);
    }
  }

  /** `slice(0, 5)`. */
  function Take(s: seq<Entry>, n: nat): (r: seq<Entry>)
    ensures |r| == if |s| < n then |s| else n
    ensures r == s[..|r|]
  {
    if |s| <= n then s else s[..n]
  }

  /** `search(query)`: the first five entries the query finds. */
  function SearchIn(index: seq<Entry>, query: string): (r: seq<Entry>)
    ensures |r| <= 5
    ensures forall k :: 0 <= k < |r| ==> r[k] in index && Matches(r[k], query)
  {
    var found := Found(index, query);
    var r := Take(found, 5);
    forall k | 0 <= k < |r|
      ensures r[k] in index
    {
      FoundIff(index, query, r[k]);
    }
    r
  }

  /** When five or fewer entries match, the search shows every one of them. */
  lemma SearchShowsAllFew(index: seq<Entry>, query: string, e: Entry)
    requires |Found(index, query)| <= 5 && e in index && Matches(e, query)
    ensures e in SearchIn(index, query)
  {
    FoundIff(index, query, e);
  }

  /** Entries after five matches never reach the results: the first five found are the ones shown. */
  lemma SearchIgnoresLaterEntries(a: seq<Entry>, b: seq<Entry>, query: string)
    requires |Found(a, query)| >= 5
    ensures SearchIn(a + b, query) == SearchIn(a, query)
  {
    FoundAppend(a, b, query);
    var fa := Found(a, query);
    assert (fa + Found(b, query))[..5] == fa[..5];
  }

  /** The input handler's query: the input lower-cased and trimmed. */
  function Query(input: string): string {
    Lower(Trim(input))
  }

  /** The entry of the `n`-th heading. */
  function HeadingEntry(h: Heading, n: nat): Entry {
    Entry("heading-" + NatToString(n), h.text, h.text, "#" + h.id, "heading")
  }

  /** The entry of the `n`-th paragraph: its first 50 characters and an ellipsis as the title. */
  function ParagraphEntry(p: Block, n: nat): Entry {
    Entry("paragraph-" + NatToString(n), (if |p.text| <= 50 then p.text else p.text[..50]) + "...", p.text,
          "#" + p.sectionId, "content")
  }

  /** The entry of the `n`-th code block. */
  function CodeEntry(c: Block, n: nat): Entry {
    Entry("code-" + NatToString(n), "Code Example", c.text, "#" + c.sectionId, "code")
  }

  /** The entries of the first `n` headings: every heading has one. */
  function HeadingEntries(hs: seq<Heading>, n: nat): (r: seq<Entry>)
    requires n <= |hs|
    ensures |r| == n
    ensures forall k :: 0 <= k < n ==> r[k].category == "heading" && r[k].content == hs[k].text
  {
    if n == 0 then [] else HeadingEntries(hs, n - 1) + [HeadingEntry(hs[n - 1], n - 1)]
  }

  /** The entries of the first `n` paragraphs: only those longer than 20 characters have one. */
  function ParagraphEntries(ps: seq<Block>, n: nat): (r: seq<Entry>)
    requires n <= |ps|
    ensures |r| <= n
    ensures forall k :: 0 <= k < |r| ==> r[k].category == "content" && |r[k].content| > 20
  {
    if n == 0 then []
    else
      var last := if |ps[n - 1].text| > 20 then [ParagraphEntry(ps[n - 1], n - 1)] else [];
      ParagraphEntries(ps, n - 1) + last
  }

  /** The entries of the first `n` code blocks: only those longer than 10 characters have one. */
  function CodeEntries(cs: seq<Block>, n: nat): (r: seq<Entry>)
    requires n <= |cs|
    ensures |r| <= n
    ensures forall k :: 0 <= k < |r| ==> r[k].category == "code" && |r[k].content| > 10
  {
    if n == 0 then []
    else
      var last := if |cs[n - 1].text| > 10 then [CodeEntry(cs[n - 1], n - 1)] else [];
      CodeEntries(cs, n - 1) + last
  }

  /** The index `buildSearchIndex` adds: the headings, then the long paragraphs, then the long code blocks. */
  function IndexEntries(hs: seq<Heading>, ps: seq<Block>, cs: seq<Block>): seq<Entry> {
    HeadingEntries(hs, |hs|) + ParagraphEntries(ps, |ps|) + CodeEntries(cs, |cs|)
  }

  /** Every long paragraph has its entry in the index, and a query found in its text finds that entry. */
  lemma {:induction false} LongParagraphIndexed(ps: seq<Block>, n: nat, k: nat, query: string)
    requires k < n <= |ps| && |ps[k].text| > 20 && Contains(Lower(ps[k].text), query)
    ensures ParagraphEntry(ps[k], k) in ParagraphEntries(ps, n)
    ensures Matches(ParagraphEntry(ps[k], k), query)
    decreases n
  {
    if k < n - 1 {
      LongParagraphIndexed(ps, n - 1, k, query);
    }
  }

  /** Every heading is in the index, and a query found in its text finds it. */
  lemma HeadingIndexed(hs: seq<Heading>, ps: seq<Block>, cs: seq<Block>, k: nat, query: string)
    requires k < |hs| && Contains(Lower(hs[k].text), query)
    ensures var e := IndexEntries(hs, ps, cs)[k];
      e == HeadingEntry(hs[k], k) && Matches(e, query)
  {
    HeadingEntriesAt(hs, |hs|, k);
  }

  lemma {:induction false} HeadingEntriesAt(hs: seq<Heading>, n: nat, k: nat)
    requires k < n <= |hs|
    ensures HeadingEntries(hs, n)[k] == HeadingEntry(hs[k], k)
    decreases n
  {
    if k < n - 1 {
      HeadingEntriesAt(hs, n - 1, k);
    }
  }

  /** `SearchManager`: the index the page's content is collected into, and the search over it. */
  class SearchManager {
    var searchIndex: seq<Entry>

    constructor()
      ensures searchIndex == []
    {
      searchIndex := [];
    }

    /** `buildSearchIndex`: one entry per heading, per paragraph over 20 and per code block over 10 characters. */
    method BuildSearchIndex(headings: seq<Heading>, paragraphs: seq<Block>, codeBlocks: seq<Block>)
      modifies this
      ensures searchIndex == old(searchIndex) + IndexEntries(headings, paragraphs, codeBlocks)
    {
      AddHeadings(headings);
      AddParagraphs(paragraphs);
      AddCodeBlocks(codeBlocks);
    }

    /** The `forEach` over the headings. */
    method AddHeadings(headings: seq<Heading>)
      modifies this
      ensures searchIndex == old(searchIndex) + HeadingEntries(headings, |headings|)
    {
      ghost var start := searchIndex;
      for k := 0 to |headings|
        invariant searchIndex == start + HeadingEntries(headings, k)
      {
        searchIndex := searchIndex + [HeadingEntry(headings[k], k)];
      }
    }

    /** The `forEach` over the paragraphs. */
    method AddParagraphs(paragraphs: seq<Block>)
      modifies this
      ensures searchIndex == old(searchIndex) + ParagraphEntries(paragraphs, |paragraphs|)
    {
      ghost var start := searchIndex;
      for k := 0 to |paragraphs|
        invariant searchIndex == start + ParagraphEntries(paragraphs, k)
      {
        if |paragraphs[k].text| > 20 {
          searchIndex := searchIndex + [ParagraphEntry(paragraphs[k], k)];
        }
      }
    }

    /** The `forEach` over the code blocks. */
    method AddCodeBlocks(codeBlocks: seq<Block>)
      modifies this
      ensures searchIndex == old(searchIndex) + CodeEntries(codeBlocks, |codeBlocks|)
    {
      ghost var start := searchIndex;
      for k := 0 to |codeBlocks|
        invariant searchIndex == start + CodeEntries(codeBlocks, k)
      {
        if |codeBlocks[k].text| > 10 {
          searchIndex := searchIndex + [CodeEntry(codeBlocks[k], k)];
        }
      }
    }

    /** `search(query)`. */
    function Search(query: string): (r: seq<Entry>)
      reads this
      ensures r == SearchIn(searchIndex, query)
    {
      SearchIn(searchIndex, query)
    }

    /**
     * The search box's input handler: results are hidden (`None`) for a query
     * shorter than two characters, and shown otherwise.
     */
    function OnInput(input: string): (shown: Option<seq<Entry>>)
      reads this
      ensures shown.None? <==> |Query(input)| < 2
      ensures shown.Some? ==> |shown.value| <= 5
      ensures shown.Some? ==>
                forall k :: 0 <= k < |shown.value| ==> shown.value[k] in searchIndex && Matches(shown.value[k], Query(input))
    {
      var query := Query(input);
      if |query| < 2 then None else Some(SearchIn(searchIndex, query))
    }
  }

  // ---------------------------------------------------------------------------
  // Theme

  /** The theme the page starts with: the stored one, or light when none (or an empty one) is stored. */
  function InitialTheme(stored: Option<string>): (t: string)
    ensures t != ""
    ensures stored.Some? && stored.value != "" ==> t == stored.value
    ensures stored.None? || stored.value == "" ==> t == "light"
  {
    if stored.Some? && stored.value != "" then stored.value else "light"
  }

  /** The theme after a toggle: light becomes dark, and anything else becomes light. */
  function NextTheme(t: string): (n: string)
    ensures n == "light" || n == "dark"
    ensures n == "dark" <==> t == "light"
  {
    if t == "light" then "dark" else "light"
  }

  /** Two toggles restore a light or dark theme. */
  lemma NextThemeTwice(t: string)
    requires t == "light" || t == "dark"
    ensures NextTheme(NextTheme(t)) == t
  {
  }

  /** `ThemeManager`: the theme, the `dark` class on the document, and the stored value. */
  class ThemeManager {
    var theme: string
    var darkClass: bool
    var stored: Option<string>

    /** `applyTheme` has run: the class and the stored value follow the theme. */
    predicate Valid()
      reads this
    {
      darkClass == (theme == "dark") && stored == Some(theme)
    }

    constructor(stored: Option<string>)
      ensures Valid() && theme == InitialTheme(stored)
    {
      theme := InitialTheme(stored);
      new;
      ApplyTheme();
    }

    /** `applyTheme`. */
    method ApplyTheme()
      modifies this
      ensures Valid() && theme == old(theme)
    {
      darkClass := theme == "dark";
      stored := Some(theme);
    }

    /** `toggle`. */
    method Toggle()
      modifies this
      ensures Valid() && theme == NextTheme(old(theme))
    {
      theme := if theme == "light" then "dark" else "light";
      ApplyTheme();
    }
  }

  // ---------------------------------------------------------------------------
  // Mobile menu

  /** `MobileNav`: whether the menu is open, and whether the menu element carries `hidden`. */
  class MobileNav {
    const hasMenu: bool
    const listening: bool
    var isOpen: bool
    var menuHidden: bool
    var animated: bool

    /** The page's toggle button and menu element, when present, and the menu's initial classes. */
    constructor(hasToggle: bool, hasMenu: bool, hidden: bool, animated: bool)
      ensures !isOpen && this.hasMenu == hasMenu && listening == (hasToggle && hasMenu)
      ensures menuHidden == hidden && this.animated == animated
    {
      this.hasMenu := hasMenu;
      listening := hasToggle && hasMenu;
      isOpen := false;
      menuHidden := hidden;
      this.animated := animated;
    }

    method Open()
      modifies this
      ensures isOpen
      ensures hasMenu ==> !menuHidden && animated
      ensures !hasMenu ==> menuHidden == old(menuHidden) && animated == old(animated)
    {
      isOpen := true;
      if hasMenu {
        menuHidden := false;
        animated := true;
      }
    }

    method Close()
      modifies this
      ensures !isOpen
      ensures hasMenu ==> menuHidden && !animated
      ensures !hasMenu ==> menuHidden == old(menuHidden) && animated == old(animated)
    {
      isOpen := false;
      if hasMenu {
        menuHidden := true;
        animated := false;
      }
    }

    /** `toggle`: the menu opens when closed and closes when open, so two toggles restore it. */
    method Toggle()
      modifies this
      ensures isOpen == !old(isOpen)
      ensures hasMenu ==> menuHidden == !isOpen && animated == isOpen
      ensures !hasMenu ==> menuHidden == old(menuHidden) && animated == old(animated)
    {
      if isOpen {
        Close();
      } else {
        Open();
      }
    }

    /** A click on the document: one outside the button and the menu closes the menu. */
    method OnDocumentClick(inside: bool)
      modifies this
      ensures listening && !inside ==> !isOpen && (hasMenu ==> menuHidden && !animated)
      ensures listening && !inside && !hasMenu ==> menuHidden == old(menuHidden) && animated == old(animated)
      ensures !(listening && !inside) ==>
        isOpen == old(isOpen) && menuHidden == old(menuHidden) && animated == old(animated)
    {
      if listening && !inside {
        Close();
      }
    }
  }
}
