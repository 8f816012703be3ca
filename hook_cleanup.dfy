/**
 * Removing CommitZero's managed blocks from the hook files without deleting
 * anything: finding the project root from a start directory, choosing the
 * hooks directory, and rewriting each hook file. The file system is given as
 * parameters: which directories hold `.git/hooks`, and the hook directory's files.
 */
module HookCleanup {
  import opened Wrappers
  import opened Text
  import opened HookScripts
  import opened HookInstall

  /**
   * The backwards scan of POSIX `path.dirname`, from position `i` down to 1: the
   * first `/` that follows a character other than `/`, or -1.
   */
  function DirEnd(p: string, i: int, matchedSlash: bool): (end: int)
    requires i < |p|
    ensures end == -1 || 1 <= end <= i
    decreases i
  {
    if i < 1 then -1
    else if p[i] == '/' then (if !matchedSlash then i else DirEnd(p, i - 1, true))
    else DirEnd(p, i - 1, false)
  }

  /** A measure that each step to a different parent directory decreases. */
  function Rank(p: string): nat {
    if p == "." then 0 else |p| + 1
  }

  /** POSIX `path.dirname(p)`. */
  function Dirname(p: string): (r: string)
    ensures r == p || Rank(r) < Rank(p)
  {
    if |p| == 0 then "."
    else
      var end := DirEnd(p, |p| - 1, true);
      if end == -1 then (if p[0] == '/' then "/" else ".")
      else if p[0] == '/' && end == 1 then "//"
      else p[..end]
  }

  /** The root directory and `.` are their own parents. */
  lemma DirnameFixedPoints()
    ensures Dirname("/") == "/" && Dirname(".") == "."
  {
  }

  /** `dir` and its parents, up to the first directory that is its own parent. */
  function Ancestors(dir: string): (chain: seq<string>)
    ensures |chain| >= 1 && chain[0] == dir
    ensures Dirname(chain[|chain| - 1]) == chain[|chain| - 1]
    ensures forall i :: 0 <= i < |chain| - 1 ==> chain[i + 1] == Dirname(chain[i]) != chain[i]
    decreases Rank(dir)
  {
    if Dirname(dir) == dir then [dir] else [dir] + Ancestors(Dirname(dir))
  }

  /** The first directory of `chain` that holds `.git/hooks`. */
  function FirstWithHooks(chain: seq<string>, hasGitHooks: string -> bool): Option<string> {
    if |chain| == 0 then None
    else if hasGitHooks(chain[0]) then Some(chain[0])
    else FirstWithHooks(chain[1..], hasGitHooks)
  }

  /** What `findProjectRoot(start)` returns. */
  function ProjectRoot(start: string, hasGitHooks: string -> bool): string {
    FirstWithHooks(Ancestors(start), hasGitHooks).GetOr(start)
  }

  /**
   * The project root is the first of `start` and its parents that holds
   * `.git/hooks`, or `start` itself when none does.
   */
  lemma {:induction false} FirstWithHooksIsFirst(chain: seq<string>, hasGitHooks: string -> bool)
    ensures var r := FirstWithHooks(chain, hasGitHooks);
      (r.None? <==> forall i :: 0 <= i < |chain| ==> !hasGitHooks(chain[i]))
      && (r.Some? ==> exists k :: 0 <= k < |chain| && chain[k] == r.value && hasGitHooks(r.value)
                                 && forall j :: 0 <= j < k ==> !hasGitHooks(chain[j]))
  {
    if |chain| > 0 && !hasGitHooks(chain[0]) {
      FirstWithHooksIsFirst(chain[1..], hasGitHooks);
      var r := FirstWithHooks(chain, hasGitHooks);
      if r.Some? {
        var k :| 0 <= k < |chain| - 1 && chain[1..][k] == r.value && hasGitHooks(r.value)
                 && forall j :: 0 <= j < k ==> !hasGitHooks(chain[1..][j]);
        assert chain[k + 1] == r.value;
        assert forall j :: 0 < j < k + 1 ==> !hasGitHooks(chain[j]) by {
          forall j | 0 < j < k + 1 ensures !hasGitHooks(chain[j]) {
            assert chain[j] == chain[1..][j - 1];
          }
        }
      } else {
        forall i | 0 < i < |chain| ensures !hasGitHooks(chain[i]) {
          assert chain[i] == chain[1..][i - 1];
        }
      }
    }
  }

  /** `findProjectRoot(start)`, the existence test of `<dir>/.git/hooks` being `hasGitHooks`. */
  method FindProjectRoot(start: string, hasGitHooks: string -> bool) returns (root: string)
    ensures root == ProjectRoot(start, hasGitHooks)
  {
    ghost var chain := Ancestors(start);
    ghost var k := 0;
    var dir := start;
    while true
      invariant 0 <= k < |chain| && dir == chain[k]
      invariant FirstWithHooks(chain, hasGitHooks) == FirstWithHooks(chain[k..], hasGitHooks)
      decreases Rank(dir)
    {
      assert chain[k..][0] == dir && chain[k..][1..] == chain[k + 1..];
      if hasGitHooks(dir) {
        return dir;
      }
      var parent := Dirname(dir);
      if parent == dir {
        break;
      }
      dir := parent;
      k := k + 1;
    }
    assert k == |chain| - 1;
    assert chain[k..][1..] == [];
    return start;
  }

  /** The start directory: the `cwd` argument, else `INIT_CWD`, else the process's directory. */
  function StartDir(cwd: string, initCwd: Option<string>, processCwd: string): string {
    if cwd != "" then cwd else if IsSet(initCwd) then initCwd.value else processCwd
  }

  /** The hooks directory of `cleanupHooks`: the configured path, absolute or under `root`, else `root/.git/hooks`. */
  function CleanupHookDir(root: string, configured: Option<string>): string {
    if IsSet(configured) then
      if StartsWith(configured.value, "/") then configured.value else PathJoin(root, configured.value)
    else PathJoin(root, GitHooksDir)
  }

  /** The choices of the start directory and of the hooks directory, case by case. */
  lemma CleanupDirCases(cwd: string, initCwd: Option<string>, processCwd: string, root: string, configured: Option<string>)
    ensures StartDir(cwd, initCwd, processCwd)
         == (if cwd != "" then cwd else if initCwd.Some? && initCwd.value != "" then initCwd.value else processCwd)
    ensures !IsSet(configured) ==> CleanupHookDir(root, configured) == root + "/.git/hooks"
    ensures IsSet(configured) && configured.value[0] == '/' ==> CleanupHookDir(root, configured) == configured.value
    ensures IsSet(configured) && configured.value[0] != '/'
         ==> CleanupHookDir(root, configured) == root + "/" + configured.value
  {
  }

  /** One hook file on cleanup: rewritten with its managed block removed if it exists. */
  function CleanupFile(files: map<string, string>, name: string): map<string, string> {
    if name in files then files[name := Cleaned(files[name])] else files
  }

  /** The three hook files in turn. */
  function CleanupFiles(files: map<string, string>): map<string, string> {
    CleanupFile(CleanupFile(CleanupFile(files, CommitMsgHook), PrepareHook), PreCommitHook)
  }

  /** `cleanupHooks(cwd)`: the hooks directory it works on and that directory's files afterwards. */
  method CleanupHooks(cwd: string, initCwd: Option<string>, processCwd: string, hasGitHooks: string -> bool,
                      configured: Option<string>, files: map<string, string>)
    returns (hookDir: string, after: map<string, string>)
    ensures hookDir == CleanupHookDir(ProjectRoot(StartDir(cwd, initCwd, processCwd), hasGitHooks), configured)
    ensures after == CleanupFiles(files)
  {
    var start := StartDir(cwd, initCwd, processCwd);
    var root := FindProjectRoot(start, hasGitHooks);
    hookDir := CleanupHookDir(root, configured);
    after := files;
    var names := [CommitMsgHook, PrepareHook, PreCommitHook];
    for i := 0 to 3
      invariant after == if i == 0 then files
                         else if i == 1 then CleanupFile(files, CommitMsgHook)
                         else if i == 2 then CleanupFile(CleanupFile(files, CommitMsgHook), PrepareHook)
                         else CleanupFiles(files)
    {
      if names[i] in after {
        var cleaned := RemoveManagedBlock(after[names[i]]);
        after := after[names[i] := cleaned];
      }
    }
  }

  /**
   * Cleanup never deletes a file: the directory keeps the same names, each hook
   * file holds its cleaned text, and every other file is unchanged.
   */
  lemma CleanupNeverDeletes(files: map<string, string>)
    ensures var r := CleanupFiles(files);
      r.Keys == files.Keys
      && (forall f :: f in files && f in HookNames ==> r[f] == Cleaned(files[f]))
      && (forall f :: f in files && f !in HookNames ==> r[f] == files[f])
  {
  }

  /**
   * Custom lines around a managed block survive cleanup: a hook file made of
   * plain custom lines, a block, and more custom lines keeps exactly the custom lines.
   */
  lemma CustomLinesSurvive(pre: seq<string>, mid: seq<string>, post: seq<string>)
    requires |post| >= 1
    requires forall i :: 0 <= i < |pre| ==> PlainLine(pre[i])
    requires forall i :: 0 <= i < |mid| ==> PlainLine(mid[i]) && !Contains(mid[i], EndMarker)
    requires forall i :: 0 <= i < |post| ==> PlainLine(post[i])
    requires NoMarkers(pre, Managed) && NoMarkers(post, Managed)
    ensures Cleaned(Join(pre + [StartMarker] + mid + [EndMarker] + post, "\n")) == Join(pre + post, "\n")
  {
    var lines := pre + [StartMarker] + mid + [EndMarker] + post;
    assert SplitLines(Join(lines, "\n")) == lines by {
      CustomLinesSplit(pre, mid, post);
    }
    assert Kept(lines, false, Managed) == pre + post by {
      MarkerLines();
      BlockRemoved(pre, StartMarker, mid, EndMarker, post, Managed);
    }
  }

  /** Plain lines around a managed block, joined, split back into the same lines. */
  lemma CustomLinesSplit(pre: seq<string>, mid: seq<string>, post: seq<string>)
    requires forall i :: 0 <= i < |pre| ==> PlainLine(pre[i])
    requires forall i :: 0 <= i < |mid| ==> PlainLine(mid[i])
    requires forall i :: 0 <= i < |post| ==> PlainLine(post[i])
    ensures var lines := pre + [StartMarker] + mid + [EndMarker] + post;
      SplitLines(Join(lines, "\n")) == lines
  {
    var lines := pre + [StartMarker] + mid + [EndMarker] + post;
    MarkersPlain();
    forall i | 0 <= i < |lines| ensures PlainLine(lines[i]) {
      if i < |pre| {
        assert lines[i] == pre[i];
      } else if |pre| < i <= |pre| + |mid| {
        assert lines[i] == mid[i - |pre| - 1];
      } else if i > |pre| + |mid| + 1 {
        assert lines[i] == post[i - |pre| - |mid| - 2];
      }
    }
    SplitJoin(lines);
  }

  /** Cleaning a file whose text is already clean changes nothing. */
  lemma CleanupFileOfClean(files: map<string, string>, name: string)
    requires name in files ==> Cleaned(files[name]) == files[name]
    ensures CleanupFile(files, name) == files
  {
  }

  /** After uninstall, each hook file left holds the cleaned text of the original. */
  lemma UninstallLeavesCleaned(files: map<string, string>, name: string)
    requires name in HookNames
    ensures var u := UninstallFiles(files);
      name in u ==> name in files && u[name] == Cleaned(files[name])
  {
    var f1 := UninstallFile(files, CommitMsgHook);
    UninstallFileKeepsOrDeletes(files, CommitMsgHook);
    var f2 := UninstallFile(f1, PrepareHook);
    UninstallFileKeepsOrDeletes(f1, PrepareHook);
    UninstallFileKeepsOrDeletes(f2, PreCommitHook);
  }

  /**
   * Running cleanup after uninstall, as the `uninstall-hooks` command does,
   * changes nothing when the hook files had no `\r`.
   */
  lemma CleanupAfterUninstallHarmless(files: map<string, string>)
    requires forall f :: f in files ==> forall i :: 0 <= i < |files[f]| ==> files[f][i] != '\r'
    ensures CleanupFiles(UninstallFiles(files)) == UninstallFiles(files)
  {
    var u := UninstallFiles(files);
    forall name | name in HookNames
      ensures name in u ==> Cleaned(u[name]) == u[name]
    {
      UninstallLeavesCleaned(files, name);
      if name in u {
        FilteredIdempotent(files[name], Managed);
      }
    }
    CleanupFileOfClean(u, CommitMsgHook);
    CleanupFileOfClean(u, PrepareHook);
    CleanupFileOfClean(u, PreCommitHook);
  }
}
