/**
 * The decisions of the `commitzero` command line that do not depend on the
 * terminal: the control-character sanitizer, the guard against commit flags
 * used as commands, the input of `lint`, the outcome of `lint` and `check`,
 * the example message shown for an invalid commit, the push-progress setting
 * of `commit`, and the `pre-commit` command list. Files, the configuration
 * and child processes are parameters.
 */
module Cli {
  import opened Wrappers
  import opened Text
  import opened Rules
  import opened Parser
  import opened Formatter

  /** The characters `sanitizeInput` removes: C0 controls other than tab, line feed and carriage return, and DEL. */
  predicate Stripped(c: char) {
    c <= '\U{8}' || c == '\U{B}' || c == '\U{C}' || ('\U{E}' <= c <= '\U{1F}') || c == '\U{7F}'
  }

  /** `sanitizeInput(s)`. */
  function SanitizeInput(s: string): string {
    Filter(s, c => !Stripped(c))
  }

  /**
   * The sanitizer removes exactly the stripped characters: what is left has
   * none, every other character of the input survives in its order, text
   * without them is unchanged, and a second pass changes nothing. Tab, line
   * feed and carriage return are kept.
   */
  lemma SanitizeInputSpec(s: string)
    ensures var r := SanitizeInput(s);
      |r| <= |s|
      && (forall c :: c in r <==> c in s && !Stripped(c))
      && ((forall i :: 0 <= i < |s| ==> !Stripped(s[i])) ==> r == s)
      && SanitizeInput(r) == r
    ensures !Stripped('\t') && !Stripped('\n') && !Stripped('\r')
  {
    if forall i :: 0 <= i < |s| ==> !Stripped(s[i]) {
      FilterKeepsAll(s, c => !Stripped(c));
    }
    FilterIdempotent(s, c => !Stripped(c));
  }

  /** The flags that only `commit` takes. */
  predicate IsCommitFlag(arg: string) {
    arg == "-a" || arg == "--add" || arg == "-p" || arg == "--push" || arg == "--progress-off"
  }

  /** What `main` does with the arguments after the script name. */
  datatype Command =
    | Help            // no arguments, `--help` anywhere, or an unknown command
    | FlagMisuse      // a commit flag as the command: exit 2
    | Init | Lint | Check | InstallHooks | UninstallHooks | Cleanup | Commit | PreCommit

  /** The dispatch of `main`. */
  function Route(args: seq<string>): Command {
    if |args| == 0 || "--help" in args then Help
    else if IsCommitFlag(args[0]) then FlagMisuse
    else if args[0] == "init" then Init
    else if args[0] == "lint" then Lint
    else if args[0] == "check" then Check
    else if args[0] == "install-hooks" then InstallHooks
    else if args[0] == "uninstall-hooks" then UninstallHooks
    else if args[0] == "cleanup" then Cleanup
    else if args[0] == "commit" then Commit
    else if args[0] == "pre-commit" then PreCommit
    else Help
  }

  /**
   * A commit flag given as the command is refused (exit 2), unless `--help`
   * appears somewhere, which always shows the help.
   */
  lemma FlagGuard(args: seq<string>)
    ensures Route(args) == FlagMisuse <==> |args| > 0 && "--help" !in args && IsCommitFlag(args[0])
    ensures "--help" in args ==> Route(args) == Help
  {
  }

  /** `args.indexOf(x)`. */
  function ArgIndex(args: seq<string>, x: string): (i: int)
    ensures i == -1 <==> x !in args
    ensures i != -1 ==> 0 <= i < |args| && args[i] == x && x !in args[..i]
  {
    if |args| == 0 then -1
    else if args[0] == x then 0
    else var j := ArgIndex(args[1..], x); if j == -1 then -1 else (assert args[1..][..j] == args[1..j + 1]; j + 1)
  }

  /** The argument after the first `flag`, when there is one and it is not empty. */
  function ValueAfter(args: seq<string>, flag: string): Option<string> {
    var i := ArgIndex(args, flag);
    if i != -1 && i + 1 < |args| && args[i + 1] != "" then Some(args[i + 1]) else None
  }

  /** Where `lint` takes the message from. */
  datatype LintInput = FromFile(path: string) | FromArgument(message: string) | NoInput

  /** The input choice of `lint`: `--file <path>` first, then `-m <message>`. */
  function ChooseLintInput(args: seq<string>): LintInput {
    var file := ValueAfter(args, "--file");
    var msg := ValueAfter(args, "-m");
    if file.Some? then FromFile(file.value)
    else if msg.Some? then FromArgument(msg.value)
    else NoInput
  }

  /**
   * `--file` wins over `-m` whenever the first `--file` is followed by a
   * non-empty argument; `-m` is used otherwise when the first `-m` is; with
   * neither there is no input.
   */
  lemma LintInputPrecedence(args: seq<string>)
    ensures var i := ArgIndex(args, "--file"); var j := ArgIndex(args, "-m");
      (ChooseLintInput(args).FromFile? <==> 0 <= i < |args| - 1 && args[i + 1] != "")
      && (ChooseLintInput(args).FromFile? ==> ChooseLintInput(args).path == args[i + 1])
      && (ChooseLintInput(args).FromArgument? <==>
            !(0 <= i < |args| - 1 && args[i + 1] != "") && 0 <= j < |args| - 1 && args[j + 1] != "")
      && (ChooseLintInput(args).FromArgument? ==> ChooseLintInput(args).message == args[j + 1])
  {
  }

  /**
   * The message `lint` checks, once chosen; `readFile` stands for reading a
   * file, `None` when the read throws (a missing or unreadable file).
   */
  function LintMessage(input: LintInput, readFile: string -> Option<string>): Option<string> {
    match input
    case FromFile(path) => readFile(path)
    case FromArgument(m) => Some(m)
    case NoInput => Some("")
  }

  /**
   * `lint`: exit 2 without input, and exit 2 from the top-level handler when
   * the file cannot be read; else the lint result of the sanitized message
   * parsed by `parseMessage` as written, with exit 1 when it is invalid and 0
   * when it is valid.
   */
  method RunLint(args: seq<string>, readFile: string -> Option<string>, config: PartialOptions)
    returns (exitCode: int, result: Option<LintResult>)
    ensures ChooseLintInput(args) == NoInput ==> exitCode == 2 && result == None
    ensures ChooseLintInput(args) != NoInput && LintMessage(ChooseLintInput(args), readFile).None? ==>
      exitCode == 2 && result == None
    ensures ChooseLintInput(args) != NoInput && LintMessage(ChooseLintInput(args), readFile).Some? ==>
      var c := Parse(SanitizeInput(LintMessage(ChooseLintInput(args), readFile).value), false);
      result.Some? && (result.value.valid <==> Errors(c, Resolve(config)) == [])
      && exitCode == (if result.value.valid then 0 else 1)
  {
    var input := ChooseLintInput(args);
    if input == NoInput {
      return 2, None;
    }
    var read := LintMessage(input, readFile);
    if read.None? {
      return 2, None;
    }
    var message := SanitizeInput(read.value);
    var parsed := ParseMessage(message, false);
    var res := LintCommit(parsed, config);
    exitCode := if res.valid then 0 else 1;
    result := Some(res);
  }

  /**
   * `check`, run by the `commit-msg` hook on `.git/COMMIT_EDITMSG`: exit 2
   * when the file cannot be read, 1 when the message is invalid, else 0.
   */
  method RunCheck(editMsg: Option<string>, config: PartialOptions) returns (exitCode: int)
    ensures editMsg.None? ==> exitCode == 2
    ensures editMsg.Some? ==>
      exitCode == (if Errors(Parse(SanitizeInput(editMsg.value), false), Resolve(config)) == [] then 0 else 1)
  {
    if editMsg.None? {
      return 2;
    }
    var parsed := ParseMessage(SanitizeInput(editMsg.value), false);
    var res := LintCommit(parsed, config);
    exitCode := if res.valid then 0 else 1;
  }

  /**
   * The `commit-msg` hook rejects the breaking commits `commit` writes: the
   * header `type(scope)!: subject` of a ready commit with `!` is not matched by
   * the parser `check` uses, so the message is read with an empty type, which
   * is an error (and `check` exits 1) unless the empty type is configured.
   */
  lemma CheckRejectsBreakingCommit(c: ParsedCommit, config: PartialOptions)
    requires FormatReady(c) && Bang(c)
    requires SanitizeInput(Format(c)) == Format(c)
    requires "" !in Resolve(config).types
    ensures Errors(Parse(SanitizeInput(Format(c)), false), Resolve(config)) != []
  {
    BangHeaderRejected(c);
    TypeAndScopeConditions(Parse(Format(c), false), Resolve(config));
  }

  /** The type of the example: the first configured type, else the first default one. */
  function ExampleType(o: LintOptions): string {
    if |o.types| > 0 then o.types[0] else DefaultTypes[0]
  }

  /** The scope of the example: shown when a scope is required or scopes are listed; the first listed, else `core`. */
  function ExampleScope(o: LintOptions): Option<string> {
    if o.requireScope || |o.scopes| > 0 then Some(if |o.scopes| > 0 then o.scopes[0] else "core") else None
  }

  /** The example header shown after an invalid message, with the translated example subject. */
  function ExampleMessage(o: LintOptions, subject: string): string {
    ExampleType(o) + ScopePart(ExampleScope(o)) + ": " + subject
  }

  /**
   * The example is a header the parser accepts, with the first type, the
   * scope exactly when one is required or listed, and the subject; the
   * scope is `core` when scopes are required but none are listed.
   */
  lemma ExampleParses(o: LintOptions, subject: string)
    requires |ExampleType(o)| > 0 && AllOf(ExampleType(o), IsLowerLetter)
    requires |o.scopes| > 0 ==> |o.scopes[0]| > 0 && ')' !in o.scopes[0]
    requires IsDotRun(subject)
    ensures MatchHeader(ExampleMessage(o, subject), false) == Some(Header(ExampleType(o), ExampleScope(o), false, subject))
    ensures ExampleScope(o).Some? <==> o.requireScope || |o.scopes| > 0
    ensures o.requireScope && |o.scopes| == 0 ==> ExampleScope(o) == Some("core")
  {
    var h := Header(ExampleType(o), ExampleScope(o), false, subject);
    assert ExampleMessage(o, subject) == HeaderWith(h, ' ');
    MatchHeaderText(h, ' ', false);
  }

  /**
   * `pushProgress` of `commit`: off with `--progress-off`, else the top-level
   * boolean setting, else the nested `commitZero.pushProgress`, else on.
   * `None` stands for a setting that is absent or not a boolean.
   */
  function PushProgress(progressOff: bool, topLevel: Option<bool>, nested: Option<bool>): bool {
    if progressOff then false else if topLevel.Some? then topLevel.value else nested.GetOr(true)
  }

  /** The flags `commit` passes on. */
  datatype CommitFlags = CommitFlags(autoAdd: bool, autoPush: bool, pushProgress: bool)

  /** The flags of `commit`, read anywhere in the arguments. */
  function CommitFlagsOf(args: seq<string>, topLevel: Option<bool>, nested: Option<bool>): CommitFlags {
    CommitFlags("-a" in args || "--add" in args, "-p" in args || "--push" in args,
                PushProgress("--progress-off" in args, topLevel, nested))
  }

  /** Progress is shown exactly when not switched off and the first boolean setting found does not turn it off. */
  lemma PushProgressPrecedence(args: seq<string>, topLevel: Option<bool>, nested: Option<bool>)
    ensures var f := CommitFlagsOf(args, topLevel, nested);
      (f.pushProgress <==>
        ("--progress-off" !in args
         && (topLevel.Some? ==> topLevel.value)
         && (topLevel.None? && nested.Some? ==> nested.value)))
      && (f.autoAdd <==> "-a" in args || "--add" in args)
      && (f.autoPush <==> "-p" in args || "--push" in args)
  {
  }

  /** The command `pre-commit add|remove` takes: the remaining arguments joined by spaces. */
  function PreCommitArgument(args: seq<string>): string {
    if |args| <= 2 then "" else Join(args[2..], " ")
  }

  /** `arr.splice(arr.indexOf(x), 1)`: the first occurrence of `x` removed. */
  function RemoveFirst(s: seq<string>, x: string): seq<string> {
    var i := ArgIndex(s, x);
    if i == -1 then s else s[..i] + s[i + 1..]
  }

  /**
   * Removing takes out exactly one occurrence, the first: the elements before
   * it and after it stay in order, and the multiset loses one `x`.
   */
  lemma RemoveFirstSpec(s: seq<string>, x: string)
    requires x in s
    ensures var r := RemoveFirst(s, x); var i := ArgIndex(s, x);
      |r| == |s| - 1 && r[..i] == s[..i] && x !in r[..i] && r[i..] == s[i + 1..]
      && multiset(r) == multiset(s) - multiset{x}
  {
    var i := ArgIndex(s, x);
    var a, b := s[..i], s[i + 1..];
    assert s == a + [x] + b;
    assert RemoveFirst(s, x) == a + b;
    assert multiset(s) == multiset(a) + multiset{x} + multiset(b);
  }

  /** Adding a command that was absent and removing it again restores the list. */
  lemma AddThenRemove(s: seq<string>, x: string)
    requires x !in s
    ensures RemoveFirst(s + [x], x) == s
  {
    assert (s + [x])[|s|] == x;
    assert (s + [x])[..|s|] == s;
  }

  /** A list without repeated commands keeps that property through `add`. */
  lemma AddKeepsDistinct(s: seq<string>, x: string)
    requires forall i, j :: 0 <= i < j < |s| ==> s[i] != s[j]
    requires x !in s
    ensures var t := s + [x]; forall i, j :: 0 <= i < j < |t| ==> t[i] != t[j]
  {
  }

  /** Whether `pre-commit` edits with `add` or with `remove`. */
  datatype ListEdit = Add | Remove

  /**
   * `pre-commit add|remove <command>` on the configured list `current`:
   * the exit code and the list written back to `commitzero.config.json`, if
   * any. `jsonExists` and `jsExists` say which configuration files exist.
   */
  method EditPreCommit(edit: ListEdit, cmd: string, jsonExists: bool, jsExists: bool, current: seq<string>)
    returns (exitCode: int, written: Option<seq<string>>)
    ensures IsBlank(cmd) ==> exitCode == 2 && written == None
    ensures !IsBlank(cmd) && !jsonExists && jsExists ==> exitCode == 2 && written == None
    ensures !IsBlank(cmd) && (jsonExists || !jsExists) ==>
      match edit
      case Add =>
        exitCode == 0 && written == (if cmd in current then None else Some(current + [cmd]))
      case Remove =>
        (exitCode == 1 <==> cmd !in current) && exitCode in {0, 1}
        && written == (if cmd in current then Some(RemoveFirst(current, cmd)) else None)
  {
    if IsBlank(cmd) {
      return 2, None;
    }
    if !jsonExists && jsExists {
      return 2, None;
    }
    var arr := current;
    if edit == Add {
      if cmd in arr {
        return 0, None;
      }
      arr := arr + [cmd];
      return 0, Some(arr);
    } else {
      var idx := ArgIndex(arr, cmd);
      if idx == -1 {
        return 1, None;
      }
      arr := arr[..idx] + arr[idx + 1..];
      return 0, Some(arr);
    }
  }

  /**
   * `pre-commit` without `add` or `remove`: the commands run in order until
   * one fails. `succeeds` stands for running a command. `ran` are the commands
   * started; the exit code is 1 after a failure, else 0.
   */
  method RunPreCommit(commands: seq<string>, succeeds: string -> bool) returns (exitCode: int, ran: seq<string>)
    ensures exitCode in {0, 1}
    ensures exitCode == 0 <==> forall i :: 0 <= i < |commands| ==> succeeds(commands[i])
    ensures exitCode == 0 ==> ran == commands
    ensures exitCode == 1 ==>
      0 < |ran| <= |commands| && ran == commands[..|ran|] && !succeeds(ran[|ran| - 1])
      && forall i :: 0 <= i < |ran| - 1 ==> succeeds(ran[i])
  {
    ran := [];
    if |commands| == 0 {
      return 0, ran;
    }
    for i := 0 to |commands|
      invariant ran == commands[..i]
      invariant forall k :: 0 <= k < i ==> succeeds(commands[k])
    {
      ran := ran + [commands[i]];
      if !succeeds(commands[i]) {
        return 1, ran;
      }
    }
    return 0, ran;
  }
}
