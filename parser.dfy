/**
 * The commit message parser: the header matched against the conventional-commit
 * pattern, every later line sorted into a footer (`Key: value`) or the body, and the
 * layout facts the linter needs.
 */
module Parser {
  import opened Wrappers
  import opened Text
  import opened Rules

  predicate IsLowerLetter(c: char) {
    'a' <= c <= 'z'
  }

  /** `[A-Za-z\- ]`: the characters of a footer key. */
  predicate IsKeyChar(c: char) {
    'a' <= c <= 'z' || 'A' <= c <= 'Z' || c == '-' || c == ' '
  }

  /** The characters a regular-expression `.` does not match. */
  predicate IsLineTerminator(c: char) {
    c == '\n' || c == '\r' || c == '\U{2028}' || c == '\U{2029}'
  }

  /** `.+$`: a non-empty rest of the text with no line terminator. */
  predicate IsDotRun(s: string) {
    |s| > 0 && forall i :: 0 <= i < |s| ==> !IsLineTerminator(s[i])
  }

  /** Every character of `s` satisfies `p`. */
  predicate AllOf(s: string, p: char -> bool) {
    forall i :: 0 <= i < |s| ==> p(s[i])
  }

  /** The length of the longest prefix of `s` whose characters all satisfy `p` (a greedy `[…]+`). */
  function Span(s: string, p: char -> bool): (n: nat)
    ensures n <= |s|
    ensures AllOf(s[..n], p)
    ensures n < |s| ==> !p(s[n])
  {
    if |s| == 0 || !p(s[0]) then 0 else 1 + Span(s[1..], p)
  }

  /** The groups of a matched header; `bang` is the `!` only the corrected pattern accepts. */
  datatype Header = Header(commitType: string, scope: Option<string>, bang: bool, subject: string)

  /** `(scope)`, or nothing. */
  function ScopePart(scope: Option<string>): string {
    if scope.Some? then "(" + scope.value + ")" else ""
  }

  /** The header text with `w` as the white space after the colon. */
  function HeaderWith(h: Header, w: char): string {
    h.commitType + ScopePart(h.scope) + TailWith(h.bang, w, h.subject)
  }

  /** Where the white space after the colon sits in a header. */
  function SpaceIndex(h: Header): nat {
    |h.commitType| + |ScopePart(h.scope)| + (if h.bang then 2 else 1)
  }

  /** The groups a header match can give: `[a-z]+`, `[^)]+`, `.+`. */
  predicate WellFormedHeader(h: Header, acceptBang: bool) {
    |h.commitType| > 0 && AllOf(h.commitType, IsLowerLetter)
    && (h.scope.Some? ==> |h.scope.value| > 0 && ')' !in h.scope.value)
    && (h.bang ==> acceptBang)
    && IsDotRun(h.subject)
  }

  /** The text after the type and scope: an optional bang, then a colon, the white space and the subject. */
  function TailWith(bang: bool, w: char, subject: string): string {
    (if bang then "!" else "") + ":" + [w] + subject
  }

  /** `: subject` after the type, scope and (when accepted) bang. */
  function MatchTail(t: string, scope: Option<string>, a: string, acceptBang: bool): (r: Option<Header>)
    ensures r.Some? ==> r.value.commitType == t && r.value.scope == scope
    ensures r.Some? ==> (r.value.bang ==> acceptBang) && IsDotRun(r.value.subject)
    ensures r.Some? ==> var n := if r.value.bang then 2 else 1;
      n < |a| && IsSpace(a[n]) && a == TailWith(r.value.bang, a[n], r.value.subject)
  {
    var bang := acceptBang && |a| > 0 && a[0] == '!';
    var a' := if bang then a[1..] else a;
    if |a'| >= 2 && a'[0] == ':' && IsSpace(a'[1]) && IsDotRun(a'[2..])
    then
      assert a' == ":" + [a'[1]] + a'[2..];
      Some(Header(t, scope, bang, a'[2..]))
    else None
  }

  /** The optional `(scope)` group and the tail after the type. */
  function MatchAfterType(t: string, rest: string, acceptBang: bool): (r: Option<Header>)
    ensures r.Some? ==> r.value.commitType == t && (r.value.bang ==> acceptBang) && IsDotRun(r.value.subject)
    ensures r.Some? && r.value.scope.Some? ==> |r.value.scope.value| > 0 && ')' !in r.value.scope.value
    ensures r.Some? ==> var k := |ScopePart(r.value.scope)| + (if r.value.bang then 2 else 1);
      k < |rest| && IsSpace(rest[k]) && rest == ScopePart(r.value.scope) + TailWith(r.value.bang, rest[k], r.value.subject)
  {
    if |rest| > 0 && rest[0] == '(' then
      var i := FindChar(rest[1..], ')');
      if i == 0 || i == |rest| - 1 then None
      else
        var scope, a := rest[1..1 + i], rest[i + 2..];
        assert rest == ScopePart(Some(scope)) + a;
        assert ')' !in scope by {
          forall j | 0 <= j < |scope| ensures scope[j] != ')' {
            assert scope[j] == rest[1..][j];
          }
        }
        MatchTail(t, Some(scope), a, acceptBang)
    else MatchTail(t, None, rest, acceptBang)
  }

  /**
   * The header pattern `^([a-z]+)(\(([^)]+)\))?:\s(.+)$`; with `acceptBang` the corrected
   * pattern `^([a-z]+)(\(([^)]+)\))?(!)?:\s(.+)$`. Both are unambiguous, so the match is
   * computed left to right without backtracking.
   */
  function MatchHeader(s: string, acceptBang: bool): (r: Option<Header>)
    ensures r.Some? ==> WellFormedHeader(r.value, acceptBang)
  {
    var n := Span(s, IsLowerLetter);
    if n == 0 then None else MatchAfterType(s[..n], s[n..], acceptBang)
  }

  /** A match is the header text rebuilt from its groups, with the white space that was there. */
  lemma MatchHeaderSound(s: string, acceptBang: bool)
    requires MatchHeader(s, acceptBang).Some?
    ensures var h := MatchHeader(s, acceptBang).value; var n := SpaceIndex(h);
      n < |s| && IsSpace(s[n]) && s == HeaderWith(h, s[n])
  {
    var h := MatchHeader(s, acceptBang).value;
    var n := Span(s, IsLowerLetter);
    var t, rest := s[..n], s[n..];
    MatchHeaderUnfold(s, acceptBang);
    var k := |ScopePart(h.scope)| + (if h.bang then 2 else 1);
    var w := rest[k];
    assert s == t + rest && s[n + k] == w;
    Regroup(s, t, rest, ScopePart(h.scope), TailWith(h.bang, w, h.subject));
  }

  lemma MatchHeaderUnfold(s: string, acceptBang: bool)
    requires MatchHeader(s, acceptBang).Some?
    ensures var n := Span(s, IsLowerLetter); n > 0 && MatchAfterType(s[..n], s[n..], acceptBang) == MatchHeader(s, acceptBang)
  {
  }

  lemma Regroup(s: string, t: string, rest: string, x: string, a: string)
    requires s == t + rest && rest == x + a
    ensures s == t + x + a
  {
  }

  /** A well-formed header is matched back, with every group. */
  lemma MatchHeaderText(h: Header, w: char, acceptBang: bool)
    requires WellFormedHeader(h, acceptBang) && IsSpace(w)
    ensures MatchHeader(HeaderWith(h, w), acceptBang) == Some(h)
  {
    MatchHeaderSteps(h, w, acceptBang);
    MatchTailText(h.commitType, h.scope, h.bang, w, h.subject, acceptBang);
  }

  /**
   * The header pattern the parser has, which has no `!`, rejects a header carrying the
   * `!` that the formatter writes for a breaking change.
   */
  lemma MatchHeaderRejectsBang(h: Header, w: char)
    requires WellFormedHeader(h, true) && h.bang && IsSpace(w)
    ensures MatchHeader(HeaderWith(h, w), false) == None
  {
    MatchHeaderSteps(h, w, false);
    var a := TailWith(true, w, h.subject);
    assert a[0] == '!';
  }

  /** Matching a header text built from groups comes down to matching its tail. */
  lemma MatchHeaderSteps(h: Header, w: char, acceptBang: bool)
    requires |h.commitType| > 0 && AllOf(h.commitType, IsLowerLetter)
    requires h.scope.Some? ==> |h.scope.value| > 0 && ')' !in h.scope.value
    ensures MatchHeader(HeaderWith(h, w), acceptBang)
      == MatchTail(h.commitType, h.scope, TailWith(h.bang, w, h.subject), acceptBang)
  {
    var s := HeaderWith(h, w);
    var rest := ScopePart(h.scope) + TailWith(h.bang, w, h.subject);
    assert s == h.commitType + rest;
    assert |rest| > 0 && !IsLowerLetter(rest[0]);
    SpanPrefix(h.commitType, rest, IsLowerLetter);
    var n := |h.commitType|;
    assert s[..n] == h.commitType && s[n..] == rest;
    MatchAfterTypeTail(h, w, acceptBang);
  }

  /** After the type, a `(scope)` group is taken off and the tail is left. */
  lemma MatchAfterTypeTail(h: Header, w: char, acceptBang: bool)
    requires h.scope.Some? ==> |h.scope.value| > 0 && ')' !in h.scope.value
    ensures MatchAfterType(h.commitType, ScopePart(h.scope) + TailWith(h.bang, w, h.subject), acceptBang)
      == MatchTail(h.commitType, h.scope, TailWith(h.bang, w, h.subject), acceptBang)
  {
    var tail := TailWith(h.bang, w, h.subject);
    if h.scope.Some? {
      MatchAfterTypeScoped(h.commitType, h.scope.value, tail, acceptBang);
    } else {
      assert ScopePart(h.scope) + tail == tail && tail[0] != '(';
    }
  }

  /** A `(scope)` group with no `)` in it is taken off whole. */
  lemma MatchAfterTypeScoped(t: string, sc: string, tail: string, acceptBang: bool)
    requires |sc| > 0 && ')' !in sc && |tail| > 0
    ensures MatchAfterType(t, "(" + sc + ")" + tail, acceptBang) == MatchTail(t, Some(sc), tail, acceptBang)
  {
    var rest := "(" + sc + ")" + tail;
    assert rest[1..] == sc + (")" + tail);
    FindCharPrefix(sc, ")" + tail, ')');
    assert rest[1..1 + |sc|] == sc;
    assert rest[|sc| + 2..] == tail;
  }

  /** The tail of a well-formed header is matched back. */
  lemma MatchTailText(t: string, scope: Option<string>, bang: bool, w: char, subject: string, acceptBang: bool)
    requires (bang ==> acceptBang) && IsSpace(w) && IsDotRun(subject)
    ensures MatchTail(t, scope, TailWith(bang, w, subject), acceptBang) == Some(Header(t, scope, bang, subject))
  {
    var a := TailWith(bang, w, subject);
    if bang {
      assert a[1..] == ":" + [w] + subject;
    }
    assert (":" + [w] + subject)[2..] == subject;
  }

  lemma {:induction false} SpanPrefix(a: string, b: string, p: char -> bool)
    requires AllOf(a, p)
    requires |b| > 0 && !p(b[0])
    ensures Span(a + b, p) == |a|
  {
    if |a| > 0 {
      assert (a + b)[1..] == a[1..] + b;
      SpanPrefix(a[1..], b, p);
    } else {
      assert a + b == b;
    }
  }

  lemma FindCharPrefix(a: string, b: string, c: char)
    requires c !in a
    requires |b| > 0 && b[0] == c
    ensures FindChar(a + b, c) == |a|
  {
    var s := a + b;
    assert s[|a|] == c;
  }

  /** `/^([A-Za-z\- ]+):\s(.+)$/`: a footer line and its key and value. */
  function MatchFooter(l: string): (r: Option<Footer>)
    ensures r.Some? ==> WellFormedFooter(r.value)
  {
    var n := Span(l, IsKeyChar);
    if n == 0 then None
    else
      var a := l[n..];
      if |a| >= 2 && a[0] == ':' && IsSpace(a[1]) && IsDotRun(a[2..])
      then Some(Footer(l[..n], a[2..]))
      else None
  }

  /** A footer match is the line rebuilt from its key and value, with the white space that was there. */
  lemma MatchFooterSound(l: string)
    requires MatchFooter(l).Some?
    ensures var f := MatchFooter(l).value; var n := |f.key| + 1;
      n < |l| && IsSpace(l[n]) && l == f.key + ":" + [l[n]] + f.value
  {
    var n := Span(l, IsKeyChar);
    var a := l[n..];
    assert l == l[..n] + a;
    assert a == ":" + [a[1]] + a[2..];
  }

  /** The groups a footer match can give. */
  predicate WellFormedFooter(f: Footer) {
    |f.key| > 0 && AllOf(f.key, IsKeyChar) && IsDotRun(f.value)
  }

  /** The line the formatter writes for a footer. */
  function FooterLine(f: Footer): string {
    f.key + ": " + f.value
  }

  /** A well-formed footer line is matched back. */
  lemma MatchFooterLine(f: Footer)
    requires WellFormedFooter(f)
    ensures MatchFooter(FooterLine(f)) == Some(f)
  {
    var rest := ": " + f.value;
    assert FooterLine(f) == f.key + rest;
    SpanPrefix(f.key, rest, IsKeyChar);
    assert FooterLine(f)[|f.key|..] == rest;
    assert rest[2..] == f.value;
  }

  predicate IsFooter(l: string) {
    MatchFooter(l).Some?
  }

  /** The footers among `lines`, in order. */
  function FootersIn(lines: seq<string>): seq<Footer> {
    if |lines| == 0 then []
    else
      var last := lines[|lines| - 1];
      FootersIn(lines[..|lines| - 1]) + (if IsFooter(last) then [MatchFooter(last).value] else [])
  }

  /** The lines among `lines` that are not footers, in order. */
  function BodyLinesIn(lines: seq<string>): seq<string> {
    if |lines| == 0 then []
    else
      var last := lines[|lines| - 1];
      BodyLinesIn(lines[..|lines| - 1]) + (if IsFooter(last) then [] else [last])
  }

  /** `rest.findIndex(l => footerRegex.test(l))`. */
  function FirstFooterIndex(lines: seq<string>): (i: int)
    ensures -1 <= i < |lines|
  {
    if |lines| == 0 then -1
    else if IsFooter(lines[0]) then 0
    else
      var i := FirstFooterIndex(lines[1..]);
      if i == -1 then -1 else i + 1
  }

  /** `findIndex` finds a footer line, and no footer line comes before it; -1 means there is none. */
  lemma {:induction false} FirstFooterIndexFinds(lines: seq<string>)
    ensures var i := FirstFooterIndex(lines);
      (i >= 0 ==> IsFooter(lines[i]))
      && forall j :: 0 <= j < |lines| && (i == -1 || j < i) ==> !IsFooter(lines[j])
  {
    if |lines| > 0 && !IsFooter(lines[0]) {
      FirstFooterIndexFinds(lines[1..]);
      forall j | 1 <= j < |lines|
        ensures lines[j] == lines[1..][j - 1]
      {
      }
    }
  }

  /** `bodyLines.join("\n").trim() || undefined`. */
  function BodyOf(bodyLines: seq<string>): Option<string> {
    var b := Trim(Join(bodyLines, "\n"));
    if b == "" then None else Some(b)
  }

  /** `hasBlankBeforeFooter`: the line just before the first footer line is blank. */
  predicate BlankBeforeFirstFooter(rest: seq<string>) {
    |FootersIn(rest)| > 0 && var i := FirstFooterIndex(rest); i > 0 && IsBlank(rest[i - 1])
  }

  /**
   * `parseMessage`; `acceptBang` selects the corrected header pattern (which also counts
   * the `!` as a breaking change), `false` the one the parser has.
   */
  function Parse(message: string, acceptBang: bool): ParsedCommit {
    ParseLines(SplitLines(message), acceptBang)
  }

  /** `parseMessage` once the message is split into lines. */
  function ParseLines(lines: seq<string>, acceptBang: bool): ParsedCommit
    requires |lines| >= 1
  {
    var header := lines[0];
    var m := MatchHeader(header, acceptBang);
    var subject := if m.Some? then m.value.subject else "";
    var rest := lines[1..];
    var footers := FootersIn(rest);
    ParsedCommit(
      if m.Some? then m.value.commitType else "",
      if m.Some? then m.value.scope else None,
      subject,
      BodyOf(BodyLinesIn(rest)),
      Some(footers),
      Some(Contains(subject, "!") || HasBreakingFooter(footers) || (m.Some? && m.value.bang)),
      Some(Meta(header, |rest| > 0 && IsBlank(rest[0]), BlankBeforeFirstFooter(rest))))
  }

  /** The parse of lines whose header matched, from what is known of the lines after it. */
  lemma ParseMatchedLines(lines: seq<string>, acceptBang: bool, h: Header, rest: seq<string>,
                          body: Option<string>, footers: seq<Footer>, blankAfterHeader: bool, blankBeforeFooter: bool)
    requires |lines| >= 1 && MatchHeader(lines[0], acceptBang) == Some(h) && rest == lines[1..]
    requires FootersIn(rest) == footers && BodyOf(BodyLinesIn(rest)) == body
    requires (|rest| > 0 && IsBlank(rest[0])) == blankAfterHeader
    requires BlankBeforeFirstFooter(rest) == blankBeforeFooter
    ensures ParseLines(lines, acceptBang) == ParsedCommit(h.commitType, h.scope, h.subject, body,
      Some(footers), Some(Contains(h.subject, "!") || HasBreakingFooter(footers) || h.bang),
      Some(Meta(lines[0], blankAfterHeader, blankBeforeFooter)))
  {
  }

  /** The loop of `parseMessage`: each line after the header is a footer or a body line. */
  method SortLines(rest: seq<string>) returns (footers: seq<Footer>, bodyLines: seq<string>)
    ensures footers == FootersIn(rest) && bodyLines == BodyLinesIn(rest)
  {
    footers, bodyLines := [], [];
    for i := 0 to |rest|
      invariant footers == FootersIn(rest[..i])
      invariant bodyLines == BodyLinesIn(rest[..i])
    {
      assert rest[..i + 1][..i] == rest[..i];
      var f := MatchFooter(rest[i]);
      if f.Some? {
        footers := footers + [f.value];
      } else {
        bodyLines := bodyLines + [rest[i]];
      }
    }
    assert rest[..|rest|] == rest;
  }

  /** `parseMessage`, with its loop sorting the lines after the header into footers and body. */
  method ParseMessage(message: string, acceptBang: bool) returns (c: ParsedCommit)
    ensures c == Parse(message, acceptBang)
  {
    var lines := SplitLines(message);
    var header := lines[0];
    var m := MatchHeader(header, acceptBang);
    var commitType := if m.Some? then m.value.commitType else "";
    var scope := if m.Some? then m.value.scope else None;
    var subject := if m.Some? then m.value.subject else "";

    var rest := lines[1..];
    var hasBlankAfterHeader := if |rest| > 0 then IsBlank(rest[0]) else false;
    var footers, bodyLines := SortLines(rest);
    var body := BodyOf(bodyLines);
    var isBreaking := Contains(subject, "!") || HasBreakingFooter(footers) || (m.Some? && m.value.bang);

    var hasBlankBeforeFooter := false;
    if |footers| > 0 {
      var firstFooterIdx := FirstFooterIndex(rest);
      if firstFooterIdx > 0 {
        hasBlankBeforeFooter := IsBlank(rest[firstFooterIdx - 1]);
      }
    }
    assert hasBlankBeforeFooter == BlankBeforeFirstFooter(rest);
    c := ParsedCommit(commitType, scope, subject, body, Some(footers), Some(isBreaking),
      Some(Meta(header, hasBlankAfterHeader, hasBlankBeforeFooter)));
  }

  /** Every line after the header becomes a footer or a body line, and none is lost. */
  lemma {:induction false} LinesPartitioned(lines: seq<string>)
    ensures |FootersIn(lines)| + |BodyLinesIn(lines)| == |lines|
  {
    if |lines| > 0 {
      LinesPartitioned(lines[..|lines| - 1]);
    }
  }

  /** The footers are exactly the matched lines, and the body lines exactly the others. */
  lemma {:induction false} FootersAreMatchedLines(lines: seq<string>)
    ensures forall f :: f in FootersIn(lines) <==> exists i :: 0 <= i < |lines| && MatchFooter(lines[i]) == Some(f)
    ensures forall l :: l in BodyLinesIn(lines) <==> l in lines && !IsFooter(l)
  {
    if |lines| > 0 {
      var init := lines[..|lines| - 1];
      FootersAreMatchedLines(init);
      assert lines == init + [lines[|lines| - 1]];
      forall f ensures f in FootersIn(lines) <==> exists i :: 0 <= i < |lines| && MatchFooter(lines[i]) == Some(f) {
        if exists i :: 0 <= i < |lines| && MatchFooter(lines[i]) == Some(f) {
          var i :| 0 <= i < |lines| && MatchFooter(lines[i]) == Some(f);
          if i < |lines| - 1 {
            assert init[i] == lines[i];
          }
        }
        if f in FootersIn(init) {
          var i :| 0 <= i < |init| && MatchFooter(init[i]) == Some(f);
          assert lines[i] == init[i];
        }
      }
    }
  }

  /** Sorting distributes over concatenation. */
  lemma {:induction false} SortAppend(a: seq<string>, b: seq<string>)
    ensures FootersIn(a + b) == FootersIn(a) + FootersIn(b)
    ensures BodyLinesIn(a + b) == BodyLinesIn(a) + BodyLinesIn(b)
  {
    if |b| > 0 {
      var b' := b[..|b| - 1];
      assert (a + b)[..|a + b| - 1] == a + b';
      SortAppend(a, b');
    } else {
      assert a + b == a;
    }
  }

  /** The body, when there is one, is non-empty and already trimmed. */
  lemma BodyIsTrimmed(message: string, acceptBang: bool)
    ensures Parse(message, acceptBang).body.Some? ==>
      var b := Parse(message, acceptBang).body.value; b != "" && Trim(b) == b
  {
    var lines := SplitLines(message);
    TrimIdempotent(Join(BodyLinesIn(lines[1..]), "\n"));
  }

  /** Trimming twice is trimming once. */
  lemma TrimIdempotent(s: string)
    ensures Trim(Trim(s)) == Trim(s)
  {
    var t := Trim(s);
    NoSpaceEnds(t);
    TrimmedEnds(s);
  }

  /** A trimmed string neither starts nor ends with white space. */
  lemma TrimmedEnds(s: string)
    ensures Trim(s) == [] || (!IsSpace(Trim(s)[0]) && !IsSpace(Trim(s)[|Trim(s)| - 1]))
  {
    var a := TrimStart(s);
    var t := TrimEnd(a);
    if t != [] {
      assert t[0] == a[0];
    }
  }

  /** Trimming leaves a string alone that neither starts nor ends with white space. */
  lemma NoSpaceEnds(s: string)
    requires s == [] || (!IsSpace(s[0]) && !IsSpace(s[|s| - 1]))
    ensures Trim(s) == s
  {
  }

  /** A trimmed text keeps its trimmed form with white space added on either side. */
  lemma {:induction false} TrimSurrounded(a: string, s: string, b: string)
    requires AllSpace(a) && AllSpace(b)
    requires s != [] && !IsSpace(s[0]) && !IsSpace(s[|s| - 1])
    ensures Trim(a + s + b) == s
  {
    TrimStartSpaces(a, s + b);
    assert a + s + b == a + (s + b);
    TrimEndSpaces(s, b);
  }

  lemma {:induction false} TrimStartSpaces(a: string, s: string)
    requires AllSpace(a) && s != [] && !IsSpace(s[0])
    ensures TrimStart(a + s) == s
  {
    if |a| > 0 {
      assert (a + s)[1..] == a[1..] + s;
      TrimStartSpaces(a[1..], s);
    } else {
      assert a + s == s;
    }
  }

  lemma {:induction false} TrimEndSpaces(s: string, b: string)
    requires AllSpace(b) && s != [] && !IsSpace(s[|s| - 1])
    ensures TrimEnd(s + b) == s
  {
    if |b| > 0 {
      assert (s + b)[..|s + b| - 1] == s + b[..|b| - 1];
      TrimEndSpaces(s, b[..|b| - 1]);
    } else {
      assert s + b == s;
    }
  }
}
