/**
 * Installing and uninstalling the Git hooks: removing the managed block from a
 * hook file, choosing the hooks directory, and what happens to each hook file
 * and to the directory. The Git configuration and the directory's files are
 * parameters; a directory is the map from its file names to their contents.
 */
module HookInstall {
  import opened Wrappers
  import opened Text
  import opened HookScripts

  /** The two texts the filter looks for: a line holding `start` opens a block, one holding `end` closes it. */
  datatype Markers = Markers(start: string, end: string)

  /** The markers of the blocks CommitZero manages. */
  const Managed: Markers := Markers(StartMarker, EndMarker)

  /** No line contains either marker. */
  predicate NoMarkers(lines: seq<string>, m: Markers) {
    forall i :: 0 <= i < |lines| ==> !Contains(lines[i], m.start) && !Contains(lines[i], m.end)
  }

  /**
   * The lines the filter keeps when it reaches `lines` with the flag `skip`: a
   * START line sets the flag, an END line clears it, both are dropped, and any
   * other line is kept unless the flag is set.
   */
  function Kept(lines: seq<string>, skip: bool, m: Markers): seq<string>
    decreases |lines|
  {
    if |lines| == 0 then []
    else if Contains(lines[0], m.start) then Kept(lines[1..], true, m)
    else if Contains(lines[0], m.end) then Kept(lines[1..], false, m)
    else (if skip then [] else [lines[0]]) + Kept(lines[1..], skip, m)
  }

  /** The flag after the filter has gone through `lines`. */
  function SkipAfter(lines: seq<string>, skip: bool, m: Markers): bool
    decreases |lines|
  {
    if |lines| == 0 then skip
    else if Contains(lines[0], m.start) then SkipAfter(lines[1..], true, m)
    else if Contains(lines[0], m.end) then SkipAfter(lines[1..], false, m)
    else SkipAfter(lines[1..], skip, m)
  }

  /** The text split into lines with `split(/\r?\n/)`, filtered, and joined with `\n`. */
  function Filtered(original: string, m: Markers): string {
    Join(Kept(SplitLines(original), false, m), "\n")
  }

  /** What `removeManagedBlock(original)` returns. */
  function Cleaned(original: string): string {
    Filtered(original, Managed)
  }

  /** `removeManagedBlock(original)`. */
  method RemoveManagedBlock(original: string) returns (cleaned: string)
    ensures cleaned == Cleaned(original)
  {
    var m := Managed;
    var lines := SplitLines(original);
    var out: seq<string> := [];
    var skip := false;
    for i := 0 to |lines|
      invariant out + Kept(lines[i..], skip, m) == Kept(lines, false, m)
    {
      assert lines[i..][0] == lines[i] && lines[i..][1..] == lines[i + 1..];
      if Contains(lines[i], m.start) {
        skip := true;
        continue;
      }
      if Contains(lines[i], m.end) {
        skip := false;
        continue;
      }
      if !skip {
        out := out + [lines[i]];
      }
    }
    assert Kept(lines[|lines|..], skip, m) == [];
    assert out == Kept(lines, false, Managed);
    cleaned := Join(out, "\n");
  }

  /** `xs` is `ys` with some elements dropped, the rest in their order. */
  predicate Subsequence(xs: seq<string>, ys: seq<string>)
    decreases |ys|
  {
    |xs| == 0
    || (|ys| > 0 && ((xs[0] == ys[0] && Subsequence(xs[1..], ys[1..])) || Subsequence(xs, ys[1..])))
  }

  /** The flag after reading the line `l` with the flag `skip`. */
  function Step(l: string, skip: bool, m: Markers): bool {
    Contains(l, m.start) || (!Contains(l, m.end) && skip)
  }

  /**
   * The filter only drops lines: the kept lines are a subsequence of the input,
   * and none of them contains a marker.
   */
  lemma {:induction false} KeptIsFiltered(lines: seq<string>, skip: bool, m: Markers)
    ensures Subsequence(Kept(lines, skip, m), lines)
    ensures NoMarkers(Kept(lines, skip, m), m)
    ensures forall x :: x in Kept(lines, skip, m) ==> x in lines
    decreases |lines|
  {
    if |lines| > 0 {
      var rest := lines[1..];
      KeptIsFiltered(rest, Step(lines[0], skip, m), m);
      var k := Kept(lines, skip, m);
      if Contains(lines[0], m.start) || Contains(lines[0], m.end) || skip {
        assert k == Kept(rest, Step(lines[0], skip, m), m);
      } else {
        assert k == [lines[0]] + Kept(rest, false, m);
        assert k[1..] == Kept(rest, false, m);
      }
    }
  }

  /** Filtering a concatenation: the second part is filtered from the flag the first part leaves. */
  lemma {:induction false} KeptAppend(a: seq<string>, b: seq<string>, skip: bool, m: Markers)
    ensures Kept(a + b, skip, m) == Kept(a, skip, m) + Kept(b, SkipAfter(a, skip, m), m)
    ensures SkipAfter(a + b, skip, m) == SkipAfter(b, SkipAfter(a, skip, m), m)
    decreases |a|
  {
    if |a| == 0 {
      assert a + b == b;
    } else {
      assert (a + b)[0] == a[0] && (a + b)[1..] == a[1..] + b;
      KeptAppend(a[1..], b, Step(a[0], skip, m), m);
    }
  }

  /** Lines without markers are all kept outside a block and all dropped inside one. */
  lemma {:induction false} KeptUnmarked(lines: seq<string>, skip: bool, m: Markers)
    requires NoMarkers(lines, m)
    ensures Kept(lines, skip, m) == (if skip then [] else lines)
    ensures SkipAfter(lines, skip, m) == skip
    decreases |lines|
  {
    if |lines| > 0 {
      KeptUnmarked(lines[1..], skip, m);
    }
  }

  /** Inside a block, lines without an END marker are dropped and the block stays open. */
  lemma {:induction false} KeptInsideBlock(lines: seq<string>, m: Markers)
    requires forall i :: 0 <= i < |lines| ==> !Contains(lines[i], m.end)
    ensures Kept(lines, true, m) == [] && SkipAfter(lines, true, m)
    decreases |lines|
  {
    if |lines| > 0 {
      KeptInsideBlock(lines[1..], m);
    }
  }

  /**
   * A managed block is removed with its marker lines, and the lines around it
   * are kept in their order.
   */
  lemma BlockRemoved(pre: seq<string>, s: string, mid: seq<string>, e: string, post: seq<string>, m: Markers)
    requires NoMarkers(pre, m) && NoMarkers(post, m)
    requires Contains(s, m.start) && Contains(e, m.end) && !Contains(e, m.start)
    requires forall i :: 0 <= i < |mid| ==> !Contains(mid[i], m.end)
    ensures Kept(pre + [s] + mid + [e] + post, false, m) == pre + post
  {
    var block := [s] + mid + [e];
    BlockDropped(s, mid, e, m);
    assert Kept(block + post, false, m) == post by {
      KeptAppend(block, post, false, m);
      KeptUnmarked(post, false, m);
    }
    assert Kept(pre + (block + post), false, m) == pre + post by {
      KeptAppend(pre, block + post, false, m);
      KeptUnmarked(pre, false, m);
    }
    Regrouped(pre, s, mid, e, post);
  }

  lemma Regrouped(pre: seq<string>, s: string, mid: seq<string>, e: string, post: seq<string>)
    ensures pre + [s] + mid + [e] + post == pre + (([s] + mid + [e]) + post)
  {
  }

  /** A block from a START line to an END line is dropped whole and leaves the block closed. */
  lemma BlockDropped(s: string, mid: seq<string>, e: string, m: Markers)
    requires Contains(s, m.start) && Contains(e, m.end) && !Contains(e, m.start)
    requires forall i :: 0 <= i < |mid| ==> !Contains(mid[i], m.end)
    ensures Kept([s] + mid + [e], false, m) == [] && !SkipAfter([s] + mid + [e], false, m)
  {
    assert Kept([s], false, m) == [] && SkipAfter([s], false, m) by {
      assert [s][1..] == [];
    }
    assert Kept([s] + mid, false, m) == [] && SkipAfter([s] + mid, false, m) by {
      KeptInsideBlock(mid, m);
      KeptAppend([s], mid, false, m);
    }
    assert Kept([e], true, m) == [] && !SkipAfter([e], true, m) by {
      assert [e][1..] == [];
    }
    KeptAppend([s] + mid, [e], false, m);
  }

  /** A START marker that no END marker follows drops every line after it. */
  lemma UnterminatedBlock(pre: seq<string>, s: string, rest: seq<string>, m: Markers)
    requires Contains(s, m.start)
    requires forall i :: 0 <= i < |rest| ==> !Contains(rest[i], m.end)
    ensures Kept(pre + [s] + rest, false, m) == Kept(pre, false, m)
  {
    KeptInsideBlock(rest, m);
    assert Kept([s], SkipAfter(pre, false, m), m) == [] && SkipAfter([s], SkipAfter(pre, false, m), m) by {
      assert [s][1..] == [];
    }
    KeptAppend(pre, [s], false, m);
    KeptAppend(pre + [s], rest, false, m);
  }

  /** Text without markers comes back with its line breaks normalised to `\n`, and unchanged if it had no `\r`. */
  lemma UnmarkedTextUnchanged(s: string, m: Markers)
    requires NoMarkers(SplitLines(s), m)
    ensures Filtered(s, m) == Join(SplitLines(s), "\n")
    ensures (forall i :: 0 <= i < |s| ==> s[i] != '\r') ==> Filtered(s, m) == s
  {
    KeptUnmarked(SplitLines(s), false, m);
    if forall i :: 0 <= i < |s| ==> s[i] != '\r' {
      JoinSplit(s);
    }
  }

  /** On text without `\r`, filtering a second time changes nothing. */
  lemma FilteredIdempotent(s: string, m: Markers)
    requires forall i :: 0 <= i < |s| ==> s[i] != '\r'
    ensures Filtered(Filtered(s, m), m) == Filtered(s, m)
  {
    var lines := SplitLines(s);
    var k := Kept(lines, false, m);
    KeptIsFiltered(lines, false, m);
    if |k| == 0 {
      assert Filtered(s, m) == "";
      assert SplitLines("") == [""];
      assert Kept([""], false, m) == [] || Kept([""], false, m) == [""] by {
        assert [""][1..] == [];
      }
    } else {
      SplitLinesPlain(s);
      assert forall j :: 0 <= j < |k| ==> PlainLine(k[j]) by {
        forall j | 0 <= j < |k| ensures PlainLine(k[j]) {
          assert k[j] in k;
        }
      }
      SplitJoin(k);
      KeptUnmarked(k, false, m);
    }
  }

  /** Each marker line holds its own marker and not the other one. */
  lemma MarkerLines()
    ensures Contains(StartMarker, StartMarker) && !Contains(StartMarker, EndMarker)
    ensures Contains(EndMarker, EndMarker) && !Contains(EndMarker, StartMarker)
  {
    assert OccursAt(StartMarker, StartMarker, 0);
    assert OccursAt(EndMarker, EndMarker, 0);
    assert 'E' !in StartMarker by {
      assert Unmarked(HookHeader);
      assert forall i :: 0 <= i < |HookHeader| ==> StartMarker[i] == HookHeader[i];
    }
    assert EndMarker[27] == 'E';
    MissingCharLacks(StartMarker, EndMarker, 'E');
  }

  /** Neither marker line has a line break. */
  lemma MarkersPlain()
    ensures PlainLine(StartMarker) && PlainLine(EndMarker)
  {
    assert Unmarked(HookHeader);
    assert forall i :: 0 <= i < |HookHeader| ==> StartMarker[i] == HookHeader[i] && EndMarker[i] == HookHeader[i];
  }

  /** The preamble lines and the empty last line are too short to hold a marker. */
  lemma ShortLinesUnmarked()
    ensures NoMarkers(Preamble, Managed) && NoMarkers([""], Managed)
    ensures PlainLine(Preamble[0]) && PlainLine(Preamble[1]) && PlainLine("")
  {
  }

  /**
   * A script built from marker-free body lines splits back into its lines, has
   * its START marker on its third line and its END marker on its last but one,
   * and no other marker line; removing the managed block leaves the preamble.
   */
  lemma ScriptShape(body: seq<string>)
    requires forall i :: 0 <= i < |body| ==> BodyLine(body[i])
    ensures var lines := ScriptLines(body);
      SplitLines(Join(lines, "\n")) == lines
      && (forall i :: 0 <= i < |lines| ==> (Contains(lines[i], StartMarker) <==> i == 2))
      && (forall i :: 0 <= i < |lines| ==> (Contains(lines[i], EndMarker) <==> i == |lines| - 2))
      && Cleaned(Join(lines, "\n")) == "#!/bin/sh\nset -eu\n"
  {
    ScriptSplits(body);
    ScriptMarkers(body);
    ScriptCleaned(body);
  }

  lemma ScriptSplits(body: seq<string>)
    requires forall i :: 0 <= i < |body| ==> BodyLine(body[i])
    ensures SplitLines(Join(ScriptLines(body), "\n")) == ScriptLines(body)
  {
    var lines := ScriptLines(body);
    assert lines == Preamble + [StartMarker] + body + [EndMarker] + [""];
    ShortLinesUnmarked();
    MarkersPlain();
    forall i | 0 <= i < |lines| ensures PlainLine(lines[i]) {
      if 3 <= i < |lines| - 2 {
        assert lines[i] == body[i - 3];
      }
    }
    SplitJoin(lines);
  }

  lemma ScriptMarkers(body: seq<string>)
    requires forall i :: 0 <= i < |body| ==> BodyLine(body[i])
    ensures var lines := ScriptLines(body);
      forall i :: 0 <= i < |lines| ==>
        (Contains(lines[i], StartMarker) <==> i == 2) && (Contains(lines[i], EndMarker) <==> i == |lines| - 2)
  {
    var lines := ScriptLines(body);
    assert lines == Preamble + [StartMarker] + body + [EndMarker] + [""];
    MarkerLines();
    ShortLinesUnmarked();
    forall i | 0 <= i < |lines|
      ensures (Contains(lines[i], StartMarker) <==> i == 2) && (Contains(lines[i], EndMarker) <==> i == |lines| - 2)
    {
      if 3 <= i < |lines| - 2 {
        assert lines[i] == body[i - 3];
      } else if i < 2 {
        assert lines[i] == Preamble[i];
      }
    }
  }

  lemma ScriptCleaned(body: seq<string>)
    requires forall i :: 0 <= i < |body| ==> BodyLine(body[i])
    ensures Cleaned(Join(ScriptLines(body), "\n")) == "#!/bin/sh\nset -eu\n"
  {
    var lines := ScriptLines(body);
    assert lines == Preamble + [StartMarker] + body + [EndMarker] + [""];
    assert Kept(lines, false, Managed) == Preamble + [""] by {
      MarkerLines();
      ShortLinesUnmarked();
      BlockRemoved(Preamble, StartMarker, body, EndMarker, [""], Managed);
    }
    assert SplitLines(Join(lines, "\n")) == lines by {
      ScriptSplits(body);
    }
    assert Join(Preamble + [""], "\n") == "#!/bin/sh\nset -eu\n" by {
      assert Preamble + [""] == ["#!/bin/sh"] + (["set -eu"] + [""]);
      JoinCons("set -eu", [""], "\n");
      JoinCons("#!/bin/sh", ["set -eu"] + [""], "\n");
    }
  }

  /** The text of every script starts with the two preamble lines and holds `HOOK_HEADER`. */
  lemma ScriptPreamble(body: seq<string>)
    ensures StartsWith(Join(ScriptLines(body), "\n"), "#!/bin/sh\nset -eu\n")
    ensures Contains(Join(ScriptLines(body), "\n"), HookHeader)
  {
    var rest := body + [EndMarker, ""];
    var r := Join(rest, "\n");
    var p := "#!/bin/sh\nset -eu\n";
    var t := Join(ScriptLines(body), "\n");
    assert t == p + (StartMarker + "\n" + r) by {
      assert ScriptLines(body) == ["#!/bin/sh"] + (["set -eu"] + ([StartMarker] + rest));
      JoinCons(StartMarker, rest, "\n");
      JoinCons("set -eu", [StartMarker] + rest, "\n");
      JoinCons("#!/bin/sh", ["set -eu"] + ([StartMarker] + rest), "\n");
    }
    assert t[..|p|] == p;
    assert OccursAt(t, HookHeader, |p|) by {
      assert t[|p|..|p| + |HookHeader|] == StartMarker[..|HookHeader|];
    }
  }

  /**
   * `commitMsgScript()`: the preamble, then one START line and later one END
   * line; it holds `HOOK_HEADER`, and removing its managed block leaves
   * `#!/bin/sh\nset -eu\n`, which is not blank.
   */
  lemma CommitMsgScriptShape()
    ensures StartsWith(CommitMsgScript(), "#!/bin/sh\nset -eu\n")
    ensures Contains(CommitMsgScript(), HookHeader)
    ensures var lines := SplitLines(CommitMsgScript());
      (forall i :: 0 <= i < |lines| ==> (Contains(lines[i], StartMarker) <==> i == 2))
      && (forall i :: 0 <= i < |lines| ==> (Contains(lines[i], EndMarker) <==> i == |lines| - 2))
    ensures Cleaned(CommitMsgScript()) == "#!/bin/sh\nset -eu\n"
    ensures !IsBlank(Cleaned(CommitMsgScript()))
  {
    BodiesUnmarked();
    ScriptShape(CommitMsgBody);
    ScriptPreamble(CommitMsgBody);
    PreambleNotBlank();
  }

  /** `prepareCommitMsgScript()` has the same shape. */
  lemma PrepareScriptShape()
    ensures StartsWith(PrepareCommitMsgScript(), "#!/bin/sh\nset -eu\n")
    ensures Contains(PrepareCommitMsgScript(), HookHeader)
    ensures var lines := SplitLines(PrepareCommitMsgScript());
      (forall i :: 0 <= i < |lines| ==> (Contains(lines[i], StartMarker) <==> i == 2))
      && (forall i :: 0 <= i < |lines| ==> (Contains(lines[i], EndMarker) <==> i == |lines| - 2))
    ensures Cleaned(PrepareCommitMsgScript()) == "#!/bin/sh\nset -eu\n"
    ensures !IsBlank(Cleaned(PrepareCommitMsgScript()))
  {
    BodiesUnmarked();
    ScriptShape(PrepareBody);
    ScriptPreamble(PrepareBody);
    PreambleNotBlank();
  }

  /** What is left of a script is not blank. */
  lemma PreambleNotBlank()
    ensures !IsBlank("#!/bin/sh\nset -eu\n")
  {
    var s := "#!/bin/sh\nset -eu\n";
    BlankIffAllSpace(s);
    assert !IsSpace(s[0]);
  }

  /** `isCommitZeroHooksPath(path)`. */
  predicate IsCommitZeroHooksPath(path: string) {
    path == CommitZeroDir || EndsWith(path, "/" + CommitZeroDir)
  }

  /** The directory CommitZero configures as `core.hooksPath`. */
  const CommitZeroDir: string := ".commitzero/hooks"

  /** Git's own hooks directory, `join(".git", "hooks")`. */
  const GitHooksDir: string := ".git/hooks"

  /** `join(a, b)` for a relative `b`, without the normalisation of `.` and `..`. */
  function PathJoin(a: string, b: string): string {
    a + "/" + b
  }

  /**
   * A path is a CommitZero hooks path exactly when it is `.commitzero/hooks`
   * itself or that directory under some other directory.
   */
  lemma CommitZeroPathIff(path: string)
    ensures IsCommitZeroHooksPath(path)
        <==> path == CommitZeroDir || exists root :: path == PathJoin(root, CommitZeroDir)
  {
    var tail := "/" + CommitZeroDir;
    if EndsWith(path, tail) {
      var root := path[..|path| - |tail|];
      assert path == root + tail;
      assert path == PathJoin(root, CommitZeroDir);
    }
    if exists root :: path == PathJoin(root, CommitZeroDir) {
      var root :| path == PathJoin(root, CommitZeroDir);
      assert path == root + tail;
      assert path[|path| - |tail|..] == tail;
    }
  }

  /** Git's default hooks directory is not a CommitZero path. */
  lemma GitHooksDirIsForeign()
    ensures !IsCommitZeroHooksPath(GitHooksDir)
  {
    assert !EndsWith(GitHooksDir, "/" + CommitZeroDir);
  }

  /** A configuration value JavaScript treats as set: present and not empty. */
  predicate IsSet(value: Option<string>) {
    value.Some? && value.value != ""
  }

  /** The hooks directory an operation uses, and `core.hooksPath` after it. */
  datatype HookDirChoice = HookDirChoice(dir: string, hooksPath: Option<string>)

  /**
   * The hooks directory `installHooks` writes to. `hookDir` is the option
   * (`""` when not given), `current` the configured `core.hooksPath`, and
   * `configSet` whether `git config core.hooksPath .commitzero/hooks` succeeds.
   */
  function InstallHookDir(hookDir: string, current: Option<string>, forceOverride: bool, configSet: bool): HookDirChoice {
    if hookDir != "" then HookDirChoice(hookDir, current)
    else if !IsSet(current) then
      if configSet then HookDirChoice(CommitZeroDir, Some(CommitZeroDir)) else HookDirChoice(GitHooksDir, current)
    else if forceOverride && !IsCommitZeroHooksPath(current.value) then
      if configSet then HookDirChoice(CommitZeroDir, Some(CommitZeroDir)) else HookDirChoice(current.value, current)
    else HookDirChoice(current.value, current)
  }

  /**
   * Without an explicit directory, the hooks are written where Git will look for
   * them: the configured `core.hooksPath` afterwards, or `.git/hooks` when none
   * is configured. The configuration only changes to `.commitzero/hooks`.
   */
  lemma InstallWhereGitLooks(current: Option<string>, forceOverride: bool, configSet: bool)
    ensures var c := InstallHookDir("", current, forceOverride, configSet);
      c.dir == (if IsSet(c.hooksPath) then c.hooksPath.value else GitHooksDir)
      && (c.hooksPath == current || c.hooksPath == Some(CommitZeroDir))
  {
  }

  /**
   * The three cases of the choice: an unset path becomes `.commitzero/hooks`
   * (or `.git/hooks` when it cannot be set); a foreign path is replaced only
   * when forced; any other configured path is respected.
   */
  lemma InstallHookDirCases(current: Option<string>, forceOverride: bool, configSet: bool)
    ensures var c := InstallHookDir("", current, forceOverride, configSet);
      (!IsSet(current) ==> c.dir == (if configSet then CommitZeroDir else GitHooksDir))
      && (IsSet(current) && forceOverride && configSet ==> IsCommitZeroHooksPath(c.dir))
      && ((IsSet(current) && (!forceOverride || !configSet || IsCommitZeroHooksPath(current.value)))
          ==> c.dir == current.value && c.hooksPath == current)
  {
  }

  /** The hook files `installHooks` writes, by name. */
  const CommitMsgHook: string := "commit-msg"
  const PrepareHook: string := "prepare-commit-msg"
  const PreCommitHook: string := "pre-commit"
  const HookNames: seq<string> := [CommitMsgHook, PrepareHook, PreCommitHook]

  /** What `installHooks` does, or the error it throws first. */
  datatype InstallResult =
    | NotProjectRoot      // "Command must be run from project root (where package.json is located)"
    | NotGitRepository    // "Git repository not initialized. ..."
    | Installed(choice: HookDirChoice, files: map<string, string>)

  /**
   * `installHooks(opts)`. `files` is the chosen directory's content before the
   * call, and `preCommit` the text of the pre-commit script, which is not part
   * of this model.
   */
  function InstallHooks(isProjectRoot: bool, isGitRepository: bool, hookDir: string, current: Option<string>,
                        forceOverride: bool, configSet: bool, files: map<string, string>, preCommit: string): InstallResult
  {
    if !isProjectRoot then NotProjectRoot
    else if !isGitRepository then NotGitRepository
    else
      var choice := InstallHookDir(hookDir, current, forceOverride, configSet);
      Installed(choice, files[CommitMsgHook := CommitMsgScript()][PrepareHook := PrepareCommitMsgScript()][PreCommitHook := preCommit])
  }

  /**
   * Installing fails outside a project root or a Git repository; otherwise the
   * three hooks hold their scripts and every other file is left alone.
   */
  lemma InstallWritesHooks(isProjectRoot: bool, isGitRepository: bool, hookDir: string, current: Option<string>,
                           forceOverride: bool, configSet: bool, files: map<string, string>, preCommit: string)
    ensures var r := InstallHooks(isProjectRoot, isGitRepository, hookDir, current, forceOverride, configSet, files, preCommit);
      (r.Installed? <==> isProjectRoot && isGitRepository)
      && (!isProjectRoot ==> r == NotProjectRoot)
      && (r.Installed? ==>
            r.files.Keys == files.Keys + {CommitMsgHook, PrepareHook, PreCommitHook}
            && r.files[CommitMsgHook] == CommitMsgScript()
            && r.files[PrepareHook] == PrepareCommitMsgScript()
            && r.files[PreCommitHook] == preCommit
            && (forall f :: f in files && f !in HookNames ==> r.files[f] == files[f]))
  {
  }

  /**
   * The hooks directory `uninstallHooks` works on: the option, else the
   * configured path (absolute as it is, relative under `cwd`), else `.git/hooks`.
   */
  function UninstallHookDir(hookDir: string, current: Option<string>, cwd: string): string {
    if hookDir != "" then hookDir
    else if IsSet(current) then
      if StartsWith(current.value, "/") then current.value else PathJoin(cwd, current.value)
    else GitHooksDir
  }

  /** The configured path, when used, is taken relative to `cwd` unless it is absolute. */
  lemma UninstallHookDirCases(current: Option<string>, cwd: string)
    ensures var d := UninstallHookDir("", current, cwd);
      (!IsSet(current) ==> d == GitHooksDir)
      && (IsSet(current) && current.value[0] == '/' ==> d == current.value)
      && (IsSet(current) && current.value[0] != '/' ==> d == cwd + "/" + current.value)
  {
  }

  /** One hook file on uninstall: deleted when nothing but white space is left of it, else rewritten. */
  function UninstallFile(files: map<string, string>, name: string): map<string, string> {
    if name !in files then files
    else
      var cleaned := Cleaned(files[name]);
      if IsBlank(cleaned) then files - {name} else files[name := cleaned]
  }

  /**
   * A hook file is deleted exactly when its cleaned text is blank, and is
   * otherwise rewritten with the cleaned text; no other file changes.
   */
  lemma UninstallFileKeepsOrDeletes(files: map<string, string>, name: string)
    ensures var r := UninstallFile(files, name);
      (name in files ==> (name !in r <==> IsBlank(Cleaned(files[name]))))
      && (name in r ==> name in files && r[name] == Cleaned(files[name]))
      && (forall f :: f != name ==> (f in r <==> f in files) && (f in r ==> r[f] == files[f]))
  {
  }

  /** The three hook files in turn, as `uninstallHooks` handles them. */
  function UninstallFiles(files: map<string, string>): map<string, string> {
    UninstallFile(UninstallFile(UninstallFile(files, CommitMsgHook), PrepareHook), PreCommitHook)
  }

  /** `hasOnlyCommitZeroHooks(dir)`: every file is a hook file that holds `HOOK_HEADER`. */
  predicate HasOnlyCommitZeroHooks(files: map<string, string>) {
    forall f :: f in files ==> f in HookNames && Contains(files[f], HookHeader)
  }

  /** What `uninstallHooks` leaves: the directory's files, whether it was removed, and `core.hooksPath`. */
  datatype UninstallResult = UninstallResult(files: map<string, string>, dirRemoved: bool, hooksPath: Option<string>)

  /** `uninstallHooks`, on the chosen directory's files and the configured `core.hooksPath`. */
  function UninstallHooks(files: map<string, string>, current: Option<string>): UninstallResult {
    var after := UninstallFiles(files);
    if IsSet(current) && IsCommitZeroHooksPath(current.value) && HasOnlyCommitZeroHooks(after) && after == map[] then
      UninstallResult(map[], true, None)
    else
      UninstallResult(after, false, current)
  }

  /**
   * The directory is removed, and `core.hooksPath` unset, exactly when the
   * configured path is a CommitZero path and no file is left in the directory;
   * the test that only CommitZero hooks remain adds nothing to the emptiness test.
   */
  lemma DirectoryRemovedIffEmpty(files: map<string, string>, current: Option<string>)
    ensures var r := UninstallHooks(files, current);
      (r.dirRemoved <==> IsSet(current) && IsCommitZeroHooksPath(current.value) && UninstallFiles(files) == map[])
      && (r.dirRemoved ==> r.hooksPath.None?)
      && (!r.dirRemoved ==> r.hooksPath == current && r.files == UninstallFiles(files))
  {
  }

  /**
   * After CommitZero's own install, uninstalling keeps `commit-msg` and
   * `prepare-commit-msg` as bare `#!/bin/sh\nset -eu\n` stubs, so the hooks
   * directory is never removed and `core.hooksPath` is never unset.
   */
  lemma UninstallAfterInstallKeepsStubs(files: map<string, string>, current: Option<string>)
    requires CommitMsgHook in files && files[CommitMsgHook] == CommitMsgScript()
    requires PrepareHook in files && files[PrepareHook] == PrepareCommitMsgScript()
    ensures var r := UninstallHooks(files, current);
      !r.dirRemoved && r.hooksPath == current
      && CommitMsgHook in r.files && r.files[CommitMsgHook] == "#!/bin/sh\nset -eu\n"
      && PrepareHook in r.files && r.files[PrepareHook] == "#!/bin/sh\nset -eu\n"
  {
    var stub := "#!/bin/sh\nset -eu\n";
    assert Cleaned(files[CommitMsgHook]) == stub && !IsBlank(stub) by {
      CommitMsgScriptShape();
    }
    assert Cleaned(files[PrepareHook]) == stub by {
      PrepareScriptShape();
    }
    var f1 := UninstallFile(files, CommitMsgHook);
    assert CommitMsgHook in f1 && f1[CommitMsgHook] == stub && PrepareHook in f1 && f1[PrepareHook] == files[PrepareHook] by {
      UninstallFileKeepsOrDeletes(files, CommitMsgHook);
    }
    var f2 := UninstallFile(f1, PrepareHook);
    assert CommitMsgHook in f2 && f2[CommitMsgHook] == stub && PrepareHook in f2 && f2[PrepareHook] == stub by {
      UninstallFileKeepsOrDeletes(f1, PrepareHook);
    }
    var f3 := UninstallFile(f2, PreCommitHook);
    assert CommitMsgHook in f3 && f3[CommitMsgHook] == stub && PrepareHook in f3 && f3[PrepareHook] == stub by {
      UninstallFileKeepsOrDeletes(f2, PreCommitHook);
    }
    assert f3 == UninstallFiles(files);
  }
}
