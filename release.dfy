/**
 * The release dry run: reading its arguments, computing the next version, and
 * the commands it runs in order, stopping at the first that fails. The commands
 * themselves are outside the model; whether each succeeds is a parameter.
 */
module Release {
  import opened Wrappers
  import opened Text
  import VersionCheck

  /** A JavaScript value produced by `Number` on a part of a version, or a part that is missing. */
  datatype JsNumber = Undefined | NaN | Int(i: int)

  /** `Number(s)` on a text: blank is 0, an optionally signed run of digits its value, anything else NaN. */
  function ToNumber(s: string): JsNumber {
    var t := Trim(s);
    if t == "" then Int(0)
    else if IsDigits(t) then Int(DigitsValue(t))
    else if t[0] == '-' && IsDigits(t[1..]) then Int(0 - DigitsValue(t[1..]))
    else if t[0] == '+' && IsDigits(t[1..]) then Int(DigitsValue(t[1..]))
    else NaN
  }

  /** The `i`-th part of `v.split('.').map(Number)`, `undefined` when there is none. */
  function Part(parts: seq<string>, i: nat): JsNumber {
    if i < |parts| then ToNumber(parts[i]) else Undefined
  }

  /** `x + 1`. */
  function Inc(x: JsNumber): JsNumber {
    if x.Int? then Int(x.i + 1) else NaN
  }

  /** `${x}`. */
  function Show(x: JsNumber): string {
    match x
    case Undefined => "undefined"
    case NaN => "NaN"
    case Int(i) => IntToString(i)
  }

  predicate IsBumpKind(kind: string) {
    kind == "patch" || kind == "minor" || kind == "major"
  }

  /** `bumpVersion(v, type)`. */
  function BumpVersion(v: string, kind: string): string {
    var parts := SplitOn(v, ".");
    if IsBumpKind(kind) then BumpParts(Part(parts, 0), Part(parts, 1), Part(parts, 2), kind) else v
  }

  /** The bumped text, from the numbers of the three parts. */
  function BumpParts(major: JsNumber, minor: JsNumber, patch: JsNumber, kind: string): string {
    if kind == "patch" then Show(major) + "." + Show(minor) + "." + Show(Inc(patch))
    else if kind == "minor" then Show(major) + "." + Show(Inc(minor)) + ".0"
    else Show(Inc(major)) + ".0.0"
  }

  /** The next version by sections 6 to 8 of Semantic Versioning 2.0.0. */
  function Bumped(x: VersionCheck.Semver, kind: string): VersionCheck.Semver {
    if kind == "patch" then VersionCheck.Semver(x.major, x.minor, x.patch + 1)
    else if kind == "minor" then VersionCheck.Semver(x.major, x.minor + 1, 0)
    else if kind == "major" then VersionCheck.Semver(x.major + 1, 0, 0)
    else x
  }

  /** Splitting at the first point of a text whose front part has none. */
  lemma SplitAtPoint(a: string, rest: string)
    requires '.' !in a
    ensures SplitOn(a + "." + rest, ".") == [a] + SplitOn(rest, ".")
  {
    var s := a + "." + rest;
    assert OccursAt(s, ".", |a|) by {
      assert s[|a|..|a| + 1] == ".";
    }
    forall j | 0 <= j < |a| ensures !OccursAt(s, ".", j) {
      assert s[j..j + 1][0] == a[j];
    }
    assert IndexOf(s, ".") == |a|;
    assert s[..|a|] == a && s[|a| + 1..] == rest;
  }

  /** A text without a point is not split. */
  lemma NoPoint(a: string)
    requires '.' !in a
    ensures SplitOn(a, ".") == [a]
  {
    ContainsChar(a, '.');
  }

  /** `Number` reads back the decimal text of a natural number. */
  lemma ToNumberOfNat(n: nat)
    ensures ToNumber(NatToString(n)) == Int(n)
  {
    var d := NatToString(n);
    assert IsDigit(d[0]) && IsDigit(d[|d| - 1]);
    TrimUnchanged(d);
    DigitsOfNat(n);
  }

  /** The parts of a rendered version. */
  lemma SplitRender(x: VersionCheck.Semver)
    ensures var parts := SplitOn(VersionCheck.Render(x), ".");
      Part(parts, 0) == Int(x.major) && Part(parts, 1) == Int(x.minor) && Part(parts, 2) == Int(x.patch)
  {
    var a, b, c := NatToString(x.major), NatToString(x.minor), NatToString(x.patch);
    assert forall d: string :: IsDigits(d) ==> '.' !in d;
    assert VersionCheck.Render(x) == a + "." + (b + "." + c);
    SplitAtPoint(a, b + "." + c);
    SplitAtPoint(b, c);
    NoPoint(c);
    assert SplitOn(VersionCheck.Render(x), ".") == [a, b, c];
    ToNumberOfNat(x.major);
    ToNumberOfNat(x.minor);
    ToNumberOfNat(x.patch);
  }

  /** Bumping the text of a version is bumping the version. */
  lemma BumpRendered(x: VersionCheck.Semver, kind: string)
    requires IsBumpKind(kind)
    ensures BumpVersion(VersionCheck.Render(x), kind) == VersionCheck.Render(Bumped(x, kind))
  {
    SplitRender(x);
    BumpNumbers(x, kind);
  }

  /** Bumping three natural numbers is bumping the version they make. */
  lemma BumpNumbers(x: VersionCheck.Semver, kind: string)
    requires IsBumpKind(kind)
    ensures BumpParts(Int(x.major), Int(x.minor), Int(x.patch), kind) == VersionCheck.Render(Bumped(x, kind))
  {
    assert Show(Int(0)) == NatToString(0) == "0";
  }

  /**
   * Bumping a `major.minor.patch` version of natural numbers gives the next
   * version of that kind, which `isNewer` ranks above the old one; any other
   * kind leaves the text as it is.
   */
  lemma BumpIsNewer(x: VersionCheck.Semver, kind: string)
    ensures IsBumpKind(kind) ==>
      BumpVersion(VersionCheck.Render(x), kind) == VersionCheck.Render(Bumped(x, kind))
      && VersionCheck.IsNewer(BumpVersion(VersionCheck.Render(x), kind), VersionCheck.Render(x))
    ensures !IsBumpKind(kind) ==> BumpVersion(VersionCheck.Render(x), kind) == VersionCheck.Render(x)
  {
    if IsBumpKind(kind) {
      var y := Bumped(x, kind);
      var v, w := VersionCheck.Render(x), VersionCheck.Render(y);
      BumpRendered(x, kind);
      assert VersionCheck.ParseSemver(v) == Some(x) by {
        VersionCheck.ParseRender(x, "");
        assert v + "" == v;
      }
      assert VersionCheck.ParseSemver(w) == Some(y) by {
        VersionCheck.ParseRender(y, "");
        assert w + "" == w;
      }
      VersionCheck.IsNewerIsAbove(w, v);
    }
  }

  datatype ReleaseOptions = ReleaseOptions(bump: string, ignoreReadmes: bool, dryPublish: bool)

  /** The last bump kind among the arguments. */
  function LastBump(args: seq<string>): Option<string> {
    if |args| == 0 then None
    else if IsBumpKind(args[|args| - 1]) then Some(args[|args| - 1])
    else LastBump(args[..|args| - 1])
  }

  /**
   * The options the arguments ask for: the last bump kind given, the readme
   * check skipped iff `--ignore-readmes` is present, and a dry publish unless
   * `--no-dry-publish` is; `None` (usage message, exit code 1) without a bump kind.
   */
  function ReleaseArgs(args: seq<string>): Option<ReleaseOptions> {
    match LastBump(args)
    case None => None
    case Some(b) => Some(ReleaseOptions(b, "--ignore-readmes" in args, "--no-dry-publish" !in args))
  }

  /** `parseArgs()` over the command-line arguments after the script name. */
  method ParseArgs(args: seq<string>) returns (r: Option<ReleaseOptions>)
    ensures r == ReleaseArgs(args)
  {
    var bump: Option<string> := None;
    var ignoreReadmes, dryPublish := false, true;
    for i := 0 to |args|
      invariant bump == LastBump(args[..i])
      invariant ignoreReadmes == ("--ignore-readmes" in args[..i])
      invariant dryPublish == ("--no-dry-publish" !in args[..i])
    {
      assert args[..i + 1][..i] == args[..i];
      if IsBumpKind(args[i]) {
        bump := Some(args[i]);
      }
      if args[i] == "--ignore-readmes" {
        ignoreReadmes := true;
      }
      if args[i] == "--no-dry-publish" {
        dryPublish := false;
      }
    }
    assert args[..|args|] == args;
    if bump.None? {
      return None;
    }
    r := Some(ReleaseOptions(bump.value, ignoreReadmes, dryPublish));
  }

  /** The publish command. */
  function PublishCommand(dryPublish: bool): string {
    Trim("npm publish --access public " + (if dryPublish then "--dry-run" else ""))
  }

  /** A text that lacks one of the characters of `p` does not contain `p`. */
  lemma MissingCharNotContained(s: string, p: string, c: char)
    requires c in p && c !in s
    ensures !Contains(s, p)
  {
  }

  /** The publish command, with the trailing space of the non-dry form trimmed. */
  lemma PublishCommandText(dryPublish: bool)
    ensures PublishCommand(dryPublish)
         == if dryPublish then "npm publish --access public --dry-run" else "npm publish --access public"
  {
    var base := "npm publish --access public";
    if dryPublish {
      TrimUnchanged(base + " --dry-run");
    } else {
      var t := base + " ";
      assert "npm publish --access public " + "" == t;
      assert TrimStart(t) == t;
      assert IsSpace(t[|t| - 1]) && t[..|t| - 1] == base;
      assert TrimEnd(base) == base by {
        assert !IsSpace(base[|base| - 1]);
      }
      assert TrimEnd(t) == TrimEnd(base);
    }
  }

  /** The publish command is a dry run exactly when a dry publish was asked for. */
  lemma PublishDryRunIffDry(dryPublish: bool)
    ensures Contains(PublishCommand(dryPublish), "--dry-run") <==> dryPublish
  {
    if dryPublish {
      var s := "npm publish --access public --dry-run";
      assert PublishCommand(true) == s by {
        PublishCommandText(true);
      }
      assert Contains(s, "--dry-run") by {
        assert OccursAt(s, "--dry-run", 28) by {
          assert s[28..37] == "--dry-run";
        }
        ContainsIff(s, "--dry-run");
      }
    } else {
      var s := "npm publish --access public";
      assert PublishCommand(false) == s by {
        PublishCommandText(false);
      }
      assert !Contains(s, "--dry-run") by {
        MissingCharNotContained(s, "--dry-run", 'd');
      }
    }
  }

  /** The commands the dry run runs, in order, when every one succeeds. */
  function Commands(opts: ReleaseOptions): seq<string> {
    ["npm ci"] + (if opts.ignoreReadmes then [] else ["npm run verify:readmes"])
    + ["npm test", "npm run build", PublishCommand(opts.dryPublish)]
  }

  /** The commands run, given which succeed: every one up to and including the first that fails. */
  function RunUntilFailure(cmds: seq<string>, succeeds: string -> bool): seq<string> {
    if |cmds| == 0 then []
    else if !succeeds(cmds[0]) then [cmds[0]]
    else [cmds[0]] + RunUntilFailure(cmds[1..], succeeds)
  }

  /** Every command in `cmds` succeeds. */
  predicate AllSucceed(cmds: seq<string>, succeeds: string -> bool) {
    forall i :: 0 <= i < |cmds| ==> succeeds(cmds[i])
  }

  /** `main()`: the commands run and the exit code. */
  function SimulateRelease(args: seq<string>, succeeds: string -> bool): (seq<string>, int) {
    match ReleaseArgs(args)
    case None => ([], 1)
    case Some(opts) =>
      var ran := RunUntilFailure(Commands(opts), succeeds);
      (ran, if AllSucceed(ran, succeeds) then 0 else 1)
  }

  /**
   * The commands are run in order and the first failure stops the run: what ran
   * is a prefix of the list, every command before the last one run succeeded,
   * and the run is cut short only by a failure.
   */
  lemma {:induction false} RunStopsAtFirstFailure(cmds: seq<string>, succeeds: string -> bool)
    ensures var ran := RunUntilFailure(cmds, succeeds);
      |ran| <= |cmds| && ran == cmds[..|ran|]
      && (forall i :: 0 <= i < |ran| - 1 ==> succeeds(ran[i]))
      && (|ran| < |cmds| ==> |ran| > 0 && !succeeds(ran[|ran| - 1]))
  {
    if |cmds| > 0 && succeeds(cmds[0]) {
      RunStopsAtFirstFailure(cmds[1..], succeeds);
    }
  }

  /**
   * The dry run ends with exit code 0 exactly when a bump kind was given and
   * every command succeeded, and then it has run them all.
   */
  lemma ReleaseExitCode(args: seq<string>, succeeds: string -> bool)
    ensures var (ran, code) := SimulateRelease(args, succeeds);
      (code == 0 <==> ReleaseArgs(args).Some? && forall c :: c in Commands(ReleaseArgs(args).value) ==> succeeds(c))
      && (code == 0 ==> ran == Commands(ReleaseArgs(args).value))
  {
    if ReleaseArgs(args).Some? {
      var cmds := Commands(ReleaseArgs(args).value);
      var ran := RunUntilFailure(cmds, succeeds);
      assert SimulateRelease(args, succeeds) == (ran, if AllSucceed(ran, succeeds) then 0 else 1);
      RunAllSucceed(cmds, succeeds);
      assert AllSucceed(cmds, succeeds) <==> (forall c :: c in cmds ==> succeeds(c));
    }
  }

  lemma HeadSucceeds(xs: seq<string>, succeeds: string -> bool)
    requires |xs| > 0 && succeeds(xs[0])
    ensures AllSucceed(xs, succeeds) <==> AllSucceed(xs[1..], succeeds)
  {
    if AllSucceed(xs[1..], succeeds) {
      forall i | 0 <= i < |xs| ensures succeeds(xs[i]) {
        if i > 0 {
          assert xs[i] == xs[1..][i - 1];
        }
      }
    }
  }

  /** Every command run succeeded exactly when every command succeeds, and then all of them ran. */
  lemma {:induction false} RunAllSucceed(cmds: seq<string>, succeeds: string -> bool)
    ensures var ran := RunUntilFailure(cmds, succeeds);
      (AllSucceed(ran, succeeds) <==> AllSucceed(cmds, succeeds))
      && (AllSucceed(ran, succeeds) ==> ran == cmds)
  {
    if |cmds| > 0 {
      var ran := RunUntilFailure(cmds, succeeds);
      if succeeds(cmds[0]) {
        var tail := cmds[1..];
        var rest := RunUntilFailure(tail, succeeds);
        RunAllSucceed(tail, succeeds);
        assert ran == [cmds[0]] + rest;
        assert ran[1..] == rest;
        HeadSucceeds(ran, succeeds);
        HeadSucceeds(cmds, succeeds);
        assert [cmds[0]] + tail == cmds;
      } else {
        assert ran == [cmds[0]];
        assert !succeeds(ran[0]);
      }
    }
  }

  /** The readme check is among the commands only when it is not skipped. */
  lemma ReadmeCheckUnlessIgnored(opts: ReleaseOptions)
    ensures "npm run verify:readmes" in Commands(opts) <==> !opts.ignoreReadmes
  {
    PublishCommandText(opts.dryPublish);
  }
}
