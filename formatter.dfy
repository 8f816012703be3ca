/**
 * The commit message formatter, and what parsing its output gives back: every part
 * of a well-formed commit, except that a breaking change marked only by the `!` the
 * formatter adds after the scope is not recognised by the parser's header pattern.
 */
module Formatter {
  import opened Wrappers
  import opened Text
  import opened Rules
  import opened Parser

  /** The formatter adds `!` for a breaking change whose subject does not already hold one. */
  predicate Bang(c: ParsedCommit) {
    c.isBreaking == Some(true) && !Contains(c.subject, "!")
  }

  /** `type(scope)!: subject`, the scope only when non-empty and the `!` only when `Bang`. */
  function FormatHeader(c: ParsedCommit): string {
    var scope := if Truthy(c.scope) then "(" + c.scope.value + ")" else "";
    var bang := if Bang(c) then "!" else "";
    c.commitType + scope + bang + ": " + c.subject
  }

  /** `commit.footers.map((f) => `${f.key}: ${f.value}`)`. */
  function FooterLines(fs: seq<Footer>): (r: seq<string>)
    ensures |r| == |fs|
  {
    seq(|fs|, i requires 0 <= i < |fs| => FooterLine(fs[i]))
  }

  /** The parts `formatMessage` joins: the header, then the body and the footers, each after a blank line. */
  function Parts(c: ParsedCommit): seq<string> {
    [FormatHeader(c)]
    + (if Truthy(c.body) then ["", c.body.value] else [])
    + (if |FootersOf(c)| > 0 then [""] + FooterLines(FootersOf(c)) else [])
  }

  /** `formatMessage`. */
  function Format(c: ParsedCommit): (r: string)
    ensures StartsWith(r, FormatHeader(c))
  {
    var parts := Parts(c);
    JoinStartsWithFirst(parts, "\n");
    Join(parts, "\n")
  }

  lemma {:induction false} JoinStartsWithFirst(lines: seq<string>, sep: string)
    requires |lines| > 0
    ensures StartsWith(Join(lines, sep), lines[0])
  {
    if |lines| > 1 {
      assert Join(lines, sep) == lines[0] + (sep + Join(lines[1..], sep));
    }
  }

  /** The header as the parser's groups see it. */
  function HeaderOf(c: ParsedCommit): Header {
    Header(c.commitType, if Truthy(c.scope) then c.scope else None, Bang(c), c.subject)
  }

  lemma FormatHeaderGroups(c: ParsedCommit)
    ensures FormatHeader(c) == HeaderWith(HeaderOf(c), ' ')
  {
    var h := HeaderOf(c);
    assert ": " + c.subject == ":" + [' '] + c.subject;
  }

  /** No character of `s` is a line terminator. */
  predicate NoTerminators(s: string) {
    forall i :: 0 <= i < |s| ==> !IsLineTerminator(s[i])
  }

  /** A body the parser gives back unchanged: trimmed, without `\r`, and with no line that looks like a footer. */
  predicate BodyReady(b: string) {
    Trim(b) == b && '\r' !in b && forall i :: 0 <= i < |SplitLines(b)| ==> !IsFooter(SplitLines(b)[i])
  }

  /** Footers the parser reads back unchanged. */
  predicate FootersReady(fs: seq<Footer>) {
    forall i :: 0 <= i < |fs| ==> WellFormedFooter(fs[i])
  }

  /** A commit whose every part survives formatting and parsing. */
  predicate FormatReady(c: ParsedCommit) {
    |c.commitType| > 0 && AllOf(c.commitType, IsLowerLetter)
    && (Truthy(c.scope) ==> ')' !in c.scope.value && NoTerminators(c.scope.value))
    && IsDotRun(c.subject)
    && (Truthy(c.body) ==> BodyReady(c.body.value))
    && FootersReady(FootersOf(c))
  }

  /** The lines of the formatted message: the body is split at its line breaks. */
  function FormatLines(c: ParsedCommit): seq<string> {
    [FormatHeader(c)] + BodyPart(c.body) + FooterPart(FootersOf(c))
  }

  /** The blank line and the body's lines, when there is a body. */
  function BodyPart(body: Option<string>): seq<string> {
    if Truthy(body) then [""] + SplitLines(body.value) else []
  }

  /** The blank line and the footer lines, when there are footers. */
  function FooterPart(fs: seq<Footer>): seq<string> {
    if |fs| > 0 then [""] + FooterLines(fs) else []
  }

  /** What the parser gives back for a formatted commit; `acceptBang` as in `Parse`. */
  function Expected(c: ParsedCommit, acceptBang: bool): ParsedCommit {
    var fs := FootersOf(c);
    ParsedCommit(
      c.commitType,
      if Truthy(c.scope) then c.scope else None,
      c.subject,
      if Truthy(c.body) then c.body else None,
      Some(fs),
      Some(Contains(c.subject, "!") || HasBreakingFooter(fs) || (acceptBang && Bang(c))),
      Some(Meta(FormatHeader(c), Truthy(c.body) || |fs| > 0, |fs| > 0)))
  }

  /**
   * Parsing a formatted commit gives back its type, scope, subject, body and footers, and
   * counts it as breaking when the subject holds `!` or a `BREAKING CHANGE` footer is
   * present. The parser as written needs the commit not to carry the formatter's `!`;
   * the corrected parser (`acceptBang`) also reads that `!` as a breaking change.
   */
  lemma RoundTrip(c: ParsedCommit, acceptBang: bool)
    requires FormatReady(c) && (Bang(c) ==> acceptBang)
    ensures Parse(Format(c), acceptBang) == Expected(c, acceptBang)
  {
    assert SplitLines(Format(c)) == FormatLines(c) by {
      SplitFormat(c);
    }
    ParseFormatLines(c, acceptBang);
  }

  /** Splitting a formatted ready commit at its line breaks gives its lines back. */
  lemma SplitFormat(c: ParsedCommit)
    requires FormatReady(c)
    ensures SplitLines(Format(c)) == FormatLines(c)
  {
    FormatLinesJoin(c);
    FormatLinesPlain(c);
    SplitJoin(FormatLines(c));
  }

  /**
   * With the parser as written, a formatted breaking commit whose subject has no `!` is
   * read back with an empty type, which the linter then reports as not allowed: its
   * header `type(scope)!: subject` does not match the header pattern.
   */
  lemma BangHeaderRejected(c: ParsedCommit)
    requires FormatReady(c) && Bang(c)
    ensures Parse(Format(c), false).commitType == ""
    ensures TypeInvalid("") in Errors(Parse(Format(c), false), DefaultOptions)
  {
    var p := Parse(Format(c), false);
    assert p.commitType == "" by {
      var lines := FormatLines(c);
      assert p == ParseLines(lines, false) by {
        SplitFormat(c);
      }
      assert lines[0] == FormatHeader(c);
      assert MatchHeader(lines[0], false) == None by {
        FormatHeaderGroups(c);
        MatchHeaderRejectsBang(HeaderOf(c), ' ');
      }
    }
    assert TypeInvalid("") in Errors(p, DefaultOptions) by {
      TypeAndScopeConditions(p, DefaultOptions);
    }
  }

  /** The lines of a formatted ready commit parse back to it. */
  lemma ParseFormatLines(c: ParsedCommit, acceptBang: bool)
    requires FormatReady(c) && (Bang(c) ==> acceptBang)
    ensures ParseLines(FormatLines(c), acceptBang) == Expected(c, acceptBang)
  {
    var lines := FormatLines(c);
    var body, fs := c.body, FootersOf(c);
    var rest := lines[1..];
    FormatLinesSplit(c, acceptBang);
    FormattedRest(body, fs, rest);
    ParseMatchedLines(lines, acceptBang, HeaderOf(c), rest, if Truthy(body) then body else None,
      fs, Truthy(body) || |fs| > 0, |fs| > 0);
  }

  /** The first formatted line is a header the parser matches; the others are the body and footer parts. */
  lemma FormatLinesSplit(c: ParsedCommit, acceptBang: bool)
    requires FormatReady(c) && (Bang(c) ==> acceptBang)
    ensures MatchHeader(FormatLines(c)[0], acceptBang) == Some(HeaderOf(c))
    ensures FormatLines(c)[1..] == BodyPart(c.body) + FooterPart(FootersOf(c))
  {
    var hdr := FormatHeader(c);
    assert FormatLines(c)[0] == hdr && FormatLines(c)[1..] == BodyPart(c.body) + FooterPart(FootersOf(c));
    assert MatchHeader(hdr, acceptBang) == Some(HeaderOf(c)) by {
      FormatHeaderGroups(c);
      MatchHeaderText(HeaderOf(c), ' ', acceptBang);
    }
  }

  /** What the parser reads off the lines after a formatted header. */
  lemma FormattedRest(body: Option<string>, fs: seq<Footer>, rest: seq<string>)
    requires BodyOk(body) && FootersReady(fs) && rest == BodyPart(body) + FooterPart(fs)
    ensures FootersIn(rest) == fs
    ensures BlankBeforeFirstFooter(rest) <==> |fs| > 0
    ensures |rest| > 0 && IsBlank(rest[0]) <==> Truthy(body) || |fs| > 0
    ensures BodyOf(BodyLinesIn(rest)) == (if Truthy(body) then body else None)
  {
    RestFooters(body, fs, rest);
    RestBlankBeforeFooters(body, fs, rest);
    RestStartsBlank(body, fs, rest);
    BodyTextBack(body, fs, rest);
  }

  /** The formatted message is its lines joined by `\n`. */
  lemma FormatLinesJoin(c: ParsedCommit)
    requires FormatReady(c)
    ensures Format(c) == Join(FormatLines(c), "\n")
  {
    var h := [FormatHeader(c)];
    var fs := FootersOf(c);
    var f := FooterPart(fs);
    if Truthy(c.body) {
      var b := c.body.value;
      JoinSplit(b);
      var bl := SplitLines(b);
      assert Parts(c) == h + ([""] + [b] + f);
      assert FormatLines(c) == h + ([""] + bl + f);
      JoinAppend(h, [""] + [b] + f, "\n");
      JoinAppend(h, [""] + bl + f, "\n");
      if |f| > 0 {
        JoinAppend([""] + [b], f, "\n");
        JoinAppend([""] + bl, f, "\n");
        assert [""] + [b] + f == ([""] + [b]) + f;
        assert [""] + bl + f == ([""] + bl) + f;
      } else {
        assert [""] + [b] + f == [""] + [b];
        assert [""] + bl + f == [""] + bl;
      }
      JoinAppend([""], [b], "\n");
      JoinAppend([""], bl, "\n");
      assert Join([b], "\n") == b;
    } else {
      assert Parts(c) == FormatLines(c);
    }
  }

  /** Joining two non-empty runs of lines puts the separator between them. */
  lemma {:induction false} JoinAppend(a: seq<string>, b: seq<string>, sep: string)
    requires |b| > 0
    ensures |a| > 0 ==> Join(a + b, sep) == Join(a, sep) + sep + Join(b, sep)
    ensures |a| == 0 ==> Join(a + b, sep) == Join(b, sep)
  {
    if |a| == 0 {
      assert a + b == b;
    } else if |a| == 1 {
      assert (a + b)[1..] == b;
    } else {
      assert (a + b)[1..] == a[1..] + b;
      JoinAppend(a[1..], b, sep);
    }
  }

  /** Every line of a formatted ready commit is a plain line. */
  lemma FormatLinesPlain(c: ParsedCommit)
    requires FormatReady(c)
    ensures forall j :: 0 <= j < |FormatLines(c)| ==> PlainLine(FormatLines(c)[j])
  {
    var lines := FormatLines(c);
    assert PlainLine(FormatHeader(c)) by {
      var h := FormatHeader(c);
      forall i | 0 <= i < |h| ensures h[i] != '\n' && h[i] != '\r' {
        HeaderCharsPlain(c, i);
      }
    }
    if Truthy(c.body) {
      SplitLinesPlain(c.body.value);
    }
    forall j | 0 <= j < |FootersOf(c)| ensures PlainLine(FooterLine(FootersOf(c)[j])) {
      var f := FootersOf(c)[j];
      var l := FooterLine(f);
      forall i | 0 <= i < |l| ensures l[i] != '\n' && l[i] != '\r' {
        if i >= |f.key| + 2 {
          assert l[i] == f.value[i - |f.key| - 2];
        } else if i < |f.key| {
          assert IsKeyChar(f.key[i]);
        }
      }
    }
  }

  lemma HeaderCharsPlain(c: ParsedCommit, i: nat)
    requires FormatReady(c) && i < |FormatHeader(c)|
    ensures FormatHeader(c)[i] != '\n' && FormatHeader(c)[i] != '\r'
  {
    var scope := if Truthy(c.scope) then "(" + c.scope.value + ")" else "";
    var bang := if Bang(c) then "!" else "";
    var h := FormatHeader(c);
    var n1 := |c.commitType|;
    var n2 := n1 + |scope|;
    var n3 := n2 + |bang| + 2;
    if i < n1 {
      assert h[i] == c.commitType[i] && IsLowerLetter(c.commitType[i]);
    } else if i < n2 {
      assert h[i] == scope[i - n1];
      if 0 < i - n1 < |scope| - 1 {
        assert scope[i - n1] == c.scope.value[i - n1 - 1];
      }
    } else if i >= n3 {
      assert h[i] == c.subject[i - n3];
    }
  }

  /** The body may be given back unchanged. */
  predicate BodyOk(body: Option<string>) {
    Truthy(body) ==> BodyReady(body.value)
  }

  /** The line after the header is blank exactly when a body or footers follow. */
  lemma RestStartsBlank(body: Option<string>, fs: seq<Footer>, rest: seq<string>)
    requires rest == BodyPart(body) + FooterPart(fs)
    ensures |rest| > 0 && IsBlank(rest[0]) <==> Truthy(body) || |fs| > 0
  {
    assert IsBlank("");
    if |rest| > 0 {
      assert rest[0] == "";
    }
  }

  lemma RestFooters(body: Option<string>, fs: seq<Footer>, rest: seq<string>)
    requires BodyOk(body) && FootersReady(fs) && rest == BodyPart(body) + FooterPart(fs)
    ensures FootersIn(rest) == fs
  {
    assert FootersIn(BodyPart(body)) == [] by {
      BodyPartSorted(body);
    }
    assert FootersIn(FooterPart(fs)) == fs by {
      FooterPartSorted(fs);
    }
    SortAppend(BodyPart(body), FooterPart(fs));
  }

  lemma RestBlankBeforeFooters(body: Option<string>, fs: seq<Footer>, rest: seq<string>)
    requires BodyOk(body) && FootersReady(fs) && rest == BodyPart(body) + FooterPart(fs)
    ensures BlankBeforeFirstFooter(rest) <==> |fs| > 0
  {
    var bpart, fpart := BodyPart(body), FooterPart(fs);
    RestFooters(body, fs, rest);
    BodyPartSorted(body);
    FooterPartSorted(fs);
    FirstFooterAfter(bpart, fpart);
    assert IsBlank("");
    if |fs| > 0 {
      assert rest[|bpart|] == fpart[0] == "";
    }
  }

  /** The body lines are no footers. */
  lemma BodyPartSorted(body: Option<string>)
    requires BodyOk(body)
    ensures forall i :: 0 <= i < |BodyPart(body)| ==> !IsFooter(BodyPart(body)[i])
    ensures FootersIn(BodyPart(body)) == [] && BodyLinesIn(BodyPart(body)) == BodyPart(body)
    ensures FirstFooterIndex(BodyPart(body)) == -1
  {
    var bp := BodyPart(body);
    forall i | 0 <= i < |bp| ensures !IsFooter(bp[i]) {
      if i == 0 {
        assert bp[i] == "";
      } else {
        assert bp[i] == SplitLines(body.value)[i - 1];
      }
    }
    NoFooters(bp);
  }

  /** The footer part is a blank line and then the footers. */
  lemma FooterPartSorted(fs: seq<Footer>)
    requires FootersReady(fs)
    ensures FootersIn(FooterPart(fs)) == fs
    ensures BodyLinesIn(FooterPart(fs)) == (if |fs| > 0 then [""] else [])
    ensures FirstFooterIndex(FooterPart(fs)) == (if |fs| > 0 then 1 else -1)
  {
    FooterLinesSorted(fs);
    if |fs| > 0 {
      assert !IsFooter("");
      NoFooters([""]);
      SortAppend([""], FooterLines(fs));
      FirstFooterAfter([""], FooterLines(fs));
    }
  }

  /** The body lines of a formatted ready commit give back its body. */
  lemma BodyTextBack(body: Option<string>, fs: seq<Footer>, rest: seq<string>)
    requires BodyOk(body) && FootersReady(fs) && rest == BodyPart(body) + FooterPart(fs)
    ensures BodyOf(BodyLinesIn(rest)) == (if Truthy(body) then body else None)
  {
    var bpart, fpart := BodyPart(body), FooterPart(fs);
    var tail := if |fs| > 0 then [""] else [];
    assert BodyLinesIn(rest) == bpart + tail by {
      BodyPartSorted(body);
      FooterPartSorted(fs);
      SortAppend(bpart, fpart);
    }
    if Truthy(body) {
      assert bpart + tail == [""] + SplitLines(body.value) + tail;
      BodyJoined(body.value, tail);
    } else {
      assert bpart + tail == tail;
    }
  }

  /** The blank line, the body's lines and possibly one more blank line, joined and trimmed, give the body. */
  lemma BodyJoined(b: string, tail: seq<string>)
    requires BodyReady(b) && b != ""
    requires tail == [] || tail == [""]
    ensures BodyOf([""] + SplitLines(b) + tail) == Some(b)
  {
    JoinSplit(b);
    JoinAppend([""], SplitLines(b), "\n");
    var joined := Join([""] + SplitLines(b) + tail, "\n");
    if tail == [""] {
      JoinAppend([""] + SplitLines(b), [""], "\n");
      assert joined == "\n" + b + "\n";
      TrimmedBody(b, "\n", "\n");
    } else {
      assert [""] + SplitLines(b) + tail == [""] + SplitLines(b);
      assert joined == "\n" + b + "";
      TrimmedBody(b, "\n", "");
    }
  }

  lemma TrimmedBody(b: string, x: string, y: string)
    requires Trim(b) == b && b != "" && AllSpace(x) && AllSpace(y)
    ensures Trim(x + b + y) == b
  {
    TrimmedEnds(b);
    TrimSurrounded(x, b, y);
  }

  /** Lines none of which is a footer are all body lines. */
  lemma {:induction false} NoFooters(lines: seq<string>)
    requires forall i :: 0 <= i < |lines| ==> !IsFooter(lines[i])
    ensures FootersIn(lines) == [] && BodyLinesIn(lines) == lines
    ensures FirstFooterIndex(lines) == -1
  {
    NoFootersBody(lines);
    NoFootersFirst(lines);
  }

  lemma {:induction false} NoFootersBody(lines: seq<string>)
    requires forall i :: 0 <= i < |lines| ==> !IsFooter(lines[i])
    ensures FootersIn(lines) == [] && BodyLinesIn(lines) == lines
  {
    if |lines| > 0 {
      var n := |lines| - 1;
      var init := lines[..n];
      assert forall i :: 0 <= i < |init| ==> init[i] == lines[i];
      NoFootersBody(init);
      assert !IsFooter(lines[n]);
      assert init + [lines[n]] == lines;
    }
  }

  lemma {:induction false} NoFootersFirst(lines: seq<string>)
    requires forall i :: 0 <= i < |lines| ==> !IsFooter(lines[i])
    ensures FirstFooterIndex(lines) == -1
  {
    if |lines| > 0 {
      assert !IsFooter(lines[0]);
      NoFootersFirst(lines[1..]);
    }
  }

  /** The formatted footer lines are all footers, read back unchanged. */
  lemma {:induction false} FooterLinesSorted(fs: seq<Footer>)
    requires FootersReady(fs)
    ensures FootersIn(FooterLines(fs)) == fs && BodyLinesIn(FooterLines(fs)) == []
    ensures |fs| > 0 ==> IsFooter(FooterLines(fs)[0])
  {
    if |fs| > 0 {
      var n := |fs| - 1;
      var lines := FooterLines(fs);
      FooterLinesSorted(fs[..n]);
      assert lines[..n] == FooterLines(fs[..n]);
      assert MatchFooter(lines[n]) == Some(fs[n]) by {
        MatchFooterLine(fs[n]);
      }
      assert FootersIn(lines) == FootersIn(lines[..n]) + [fs[n]];
      assert fs[..n] + [fs[n]] == fs;
      assert IsFooter(lines[0]) by {
        MatchFooterLine(fs[0]);
      }
    }
  }

  /** With no footer among `a`, the first footer of `a + b` is the first of `b`, shifted. */
  lemma {:induction false} FirstFooterAfter(a: seq<string>, b: seq<string>)
    requires forall i :: 0 <= i < |a| ==> !IsFooter(a[i])
    ensures FirstFooterIndex(a + b) == if FirstFooterIndex(b) == -1 then -1 else |a| + FirstFooterIndex(b)
  {
    if |a| > 0 {
      assert (a + b)[1..] == a[1..] + b;
      assert !IsFooter((a + b)[0]);
      FirstFooterAfter(a[1..], b);
    } else {
      assert a + b == b;
    }
  }
}
