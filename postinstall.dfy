/**
 * The `postinstall` step: find the consumer project that installed CommitZero
 * and add the three CommitZero scripts to its `package.json` when they are
 * missing. The file system is given as parameters: the lock files present in
 * a directory, and what reading and parsing a directory's `package.json` gives.
 */
module Postinstall {
  import opened Wrappers
  import opened Text

  /** The package managers the lock files identify. */
  datatype PackageManager = Npm | Pnpm | Yarn | Bun

  /** `detectPackageManager(dir)`, given the names of the files in `dir`. */
  function DetectPackageManager(files: set<string>): PackageManager {
    if "pnpm-lock.yaml" in files then Pnpm
    else if "yarn.lock" in files then Yarn
    else if "bun.lockb" in files then Bun
    else Npm
  }

  /** The lock files take precedence in the order pnpm, yarn, bun; npm is the default. */
  lemma LockFilePrecedence(files: set<string>)
    ensures DetectPackageManager(files) == Pnpm <==> "pnpm-lock.yaml" in files
    ensures DetectPackageManager(files) == Yarn <==> "pnpm-lock.yaml" !in files && "yarn.lock" in files
    ensures DetectPackageManager(files) == Bun
        <==> "pnpm-lock.yaml" !in files && "yarn.lock" !in files && "bun.lockb" in files
    ensures DetectPackageManager(files) == Npm
        <==> "pnpm-lock.yaml" !in files && "yarn.lock" !in files && "bun.lockb" !in files
  {
  }

  /** `pmExec(pm)`: the command that runs the package's executable under `pm`. */
  function PmExec(pm: PackageManager): string {
    match pm
    case Pnpm => "pnpm exec commitzero"
    case Yarn => "yarn run commitzero"
    case Bun => "bunx commitzero"
    case Npm => "npm exec commitzero"
  }

  /** Each manager has its own command. */
  lemma PmExecDistinct(a: PackageManager, b: PackageManager)
    ensures PmExec(a) == PmExec(b) <==> a == b
  {
    if a != b {
      assert PmExec(a)[0] != PmExec(b)[0];
    }
  }

  /** A JSON value under `scripts`: a string, or another value that is truthy or not. */
  datatype Value = Str(s: string) | NonString(truthy: bool)

  /** JavaScript truthiness: the empty string, `false`, `0` and `null` are falsy. */
  predicate Truthy(v: Value) {
    match v
    case Str(s) => s != ""
    case NonString(t) => t
  }

  /**
   * The `scripts` of a package: absent or not an object (`NoScripts`), an
   * object with its entries, or an array, which `typeof` also calls an object.
   */
  datatype Scripts = NoScripts | ScriptMap(entries: map<string, Value>) | ScriptList(items: seq<Value>)

  /**
   * A directory's `package.json`: missing, not valid JSON, a JSON value that is
   * not an object, an array (an object to `typeof`, with no `name`), or an
   * object with its `name` when that is a string and its `scripts`.
   */
  datatype PackageFile =
    | Missing
    | Unparsable
    | Primitive(truthy: bool)
    | List(items: seq<Value>)
    | Package(name: Option<string>, scripts: Scripts)

  /** The name of CommitZero's own package. */
  const OwnName: string := "@codemastersolutions/commitzero"

  /** Sets `key` to `default` unless it holds a truthy value. */
  function FillIfEmpty(scripts: map<string, Value>, key: string, default: string): map<string, Value> {
    if key in scripts && Truthy(scripts[key]) then scripts else scripts[key := Str(default)]
  }

  /** The scripts `updateScripts` ensures, with the exec command `exec`. */
  function Defaults(exec: string): map<string, string> {
    map["commitzero" := "commitzero",
        "commitzero:install" := exec + " install-hooks",
        "commitzero:uninstall" := exec + " uninstall-hooks"]
  }

  /** The three scripts filled in, in the order of the source. */
  function FillScripts(scripts: map<string, Value>, exec: string): map<string, Value> {
    var d := Defaults(exec);
    FillIfEmpty(FillIfEmpty(FillIfEmpty(scripts, "commitzero", d["commitzero"]),
                            "commitzero:install", d["commitzero:install"]),
                "commitzero:uninstall", d["commitzero:uninstall"])
  }

  /**
   * Filling adds exactly the missing CommitZero scripts: a CommitZero script
   * with a truthy value keeps it, an empty or missing one gets its default, and
   * every other script is untouched.
   */
  lemma FillScriptsSpec(scripts: map<string, Value>, exec: string)
    ensures var r := FillScripts(scripts, exec); var d := Defaults(exec);
      r.Keys == scripts.Keys + d.Keys
      && (forall k :: k in d ==> r[k] == if k in scripts && Truthy(scripts[k]) then scripts[k] else Str(d[k]))
      && (forall k :: k in scripts && k !in d ==> r[k] == scripts[k])
  {
    var d := Defaults(exec);
    assert d.Keys == {"commitzero", "commitzero:install", "commitzero:uninstall"};
  }

  /** Filling a second time changes nothing. */
  lemma FillScriptsIdempotent(scripts: map<string, Value>, exec: string)
    ensures FillScripts(FillScripts(scripts, exec), exec) == FillScripts(scripts, exec)
  {
    var r := FillScripts(scripts, exec);
    var d := Defaults(exec);
    FillScriptsSpec(scripts, exec);
    FillScriptsSpec(r, exec);
    forall k | k in d ensures k in r && Truthy(r[k]) {
      assert |d[k]| > 0;
    }
  }

  /**
   * `updateScripts(targetDir)`: the package object written back, or `None` when
   * nothing is written. `files` are the names of the files in `targetDir`.
   */
  method UpdateScripts(pkg: PackageFile, files: set<string>) returns (written: Option<PackageFile>)
    ensures written.None? <==> !(pkg.Package? || pkg.List?) || (pkg.Package? && pkg.name == Some(OwnName))
    ensures pkg.List? ==> written == Some(pkg)
    ensures written.Some? && pkg.Package? && pkg.scripts.ScriptList? ==> written == Some(pkg)
    ensures written.Some? && pkg.Package? && !pkg.scripts.ScriptList? ==>
      var entries := if pkg.scripts.ScriptMap? then pkg.scripts.entries else map[];
      written.value.Package? && written.value.name == pkg.name
      && written.value.scripts == ScriptMap(FillScripts(entries, PmExec(DetectPackageManager(files))))
  {
    if pkg.List? {
      // The scripts land on the array as a named property, which
      // `JSON.stringify` leaves out: the array is written back as it was.
      return Some(pkg);
    }
    if !pkg.Package? {
      return None;
    }
    if pkg.name == Some(OwnName) {
      return None;
    }
    var exec := PmExec(DetectPackageManager(files));
    if pkg.scripts.ScriptList? {
      // As with an array package: the three scripts become named properties
      // of the array, which `JSON.stringify` leaves out.
      return Some(pkg);
    }
    var scripts := if pkg.scripts.ScriptMap? then pkg.scripts.entries else map[];
    if !("commitzero" in scripts && Truthy(scripts["commitzero"])) {
      scripts := scripts["commitzero" := Str("commitzero")];
    }
    if !("commitzero:install" in scripts && Truthy(scripts["commitzero:install"])) {
      scripts := scripts["commitzero:install" := Str(exec + " install-hooks")];
    }
    if !("commitzero:uninstall" in scripts && Truthy(scripts["commitzero:uninstall"])) {
      scripts := scripts["commitzero:uninstall" := Str(exec + " uninstall-hooks")];
    }
    written := Some(pkg.(scripts := ScriptMap(scripts)));
  }

  /** A `package.json` that marks its directory as the consumer: parsed, truthy and not CommitZero's own. */
  predicate IsConsumer(pkg: PackageFile) {
    match pkg
    case Primitive(truthy) => truthy
    case List(_) => true
    case Package(name, _) => name != Some(OwnName)
    case _ => false
  }

  /** How many directories the search looks at, from the current one up. */
  const MaxLevels: nat := 6

  /** `dir` after `k` steps up, `up` being `join(dir, "..")`. */
  function Up(dir: string, k: nat, up: string -> string): string
    decreases k
  {
    if k == 0 then dir else Up(up(dir), k - 1, up)
  }

  /** The search from `dir` with `n` levels left. */
  function Climb(dir: string, n: nat, up: string -> string, pkgAt: string -> PackageFile): Option<string>
    decreases n
  {
    if n == 0 then None
    else if IsConsumer(pkgAt(dir)) then Some(dir)
    else if up(dir) == dir then None
    else Climb(up(dir), n - 1, up, pkgAt)
  }

  /** `findConsumerRoot()`. */
  function ConsumerRoot(initCwd: Option<string>, cwd: string, up: string -> string, pkgAt: string -> PackageFile)
    : Option<string>
  {
    if initCwd.Some? && !IsBlank(initCwd.value) then initCwd else Climb(cwd, MaxLevels, up, pkgAt)
  }

  /** `findConsumerRoot()`, as the loop the source runs. */
  method FindConsumerRoot(initCwd: Option<string>, cwd: string, up: string -> string, pkgAt: string -> PackageFile)
    returns (root: Option<string>)
    ensures root == ConsumerRoot(initCwd, cwd, up, pkgAt)
  {
    if initCwd.Some? && !IsBlank(initCwd.value) {
      return initCwd;
    }
    var dir := cwd;
    for i := 0 to MaxLevels
      invariant Climb(cwd, MaxLevels, up, pkgAt) == Climb(dir, MaxLevels - i, up, pkgAt)
    {
      if IsConsumer(pkgAt(dir)) {
        return Some(dir);
      }
      var next := up(dir);
      if next == dir {
        return None;
      }
      dir := next;
    }
    return None;
  }

  /** How many steps up the search goes before it stops. */
  function Steps(dir: string, n: nat, up: string -> string, pkgAt: string -> PackageFile): nat
    decreases n
  {
    if n == 0 || IsConsumer(pkgAt(dir)) || up(dir) == dir then 0 else 1 + Steps(up(dir), n - 1, up, pkgAt)
  }

  /** The search stops at step `Steps`, having passed only directories that are not the consumer. */
  lemma {:induction false} ClimbStops(dir: string, n: nat, up: string -> string, pkgAt: string -> PackageFile)
    ensures var r := Climb(dir, n, up, pkgAt); var k := Steps(dir, n, up, pkgAt);
      (forall j :: 0 <= j < k ==> !IsConsumer(pkgAt(Up(dir, j, up))))
      && (r.Some? ==> k < n && r.value == Up(dir, k, up) && IsConsumer(pkgAt(r.value)))
      && (r.None? ==> forall j :: 0 <= j < n ==> !IsConsumer(pkgAt(Up(dir, j, up))))
    decreases n
  {
    if n == 0 {
    } else if IsConsumer(pkgAt(dir)) {
      assert Up(dir, 0, up) == dir;
    } else if up(dir) == dir {
      forall j | 0 <= j < n ensures Up(dir, j, up) == dir {
        UpFixedPoint(dir, j, up);
      }
    } else {
      ClimbStops(up(dir), n - 1, up, pkgAt);
      forall j | 0 < j < n ensures Up(dir, j, up) == Up(up(dir), j - 1, up) {
      }
    }
  }

  /**
   * Without `INIT_CWD`, the consumer root is the first directory within six
   * levels of the current one whose `package.json` marks a consumer, and there
   * is none when no such directory is reached.
   */
  lemma ClimbFindsFirst(dir: string, n: nat, up: string -> string, pkgAt: string -> PackageFile)
    ensures var r := Climb(dir, n, up, pkgAt);
      (r.Some? ==> exists k :: 0 <= k < n && r.value == Up(dir, k, up) && IsConsumer(pkgAt(r.value))
                               && forall j :: 0 <= j < k ==> !IsConsumer(pkgAt(Up(dir, j, up))))
      && (r.None? ==> forall j :: 0 <= j < n ==> !IsConsumer(pkgAt(Up(dir, j, up))))
  {
    ClimbStops(dir, n, up, pkgAt);
    var k := Steps(dir, n, up, pkgAt);
    assert forall j :: 0 <= j < k ==> !IsConsumer(pkgAt(Up(dir, j, up)));
  }

  /** A directory that is its own parent stays where it is. */
  lemma {:induction false} UpFixedPoint(dir: string, k: nat, up: string -> string)
    requires up(dir) == dir
    ensures Up(dir, k, up) == dir
  {
    if k > 0 {
      UpFixedPoint(dir, k - 1, up);
    }
  }

  /** A non-blank `INIT_CWD` is the consumer root whatever the directories hold. */
  lemma InitCwdWins(initCwd: string, cwd: string, up: string -> string, pkgAt: string -> PackageFile)
    requires !IsBlank(initCwd)
    ensures ConsumerRoot(Some(initCwd), cwd, up, pkgAt) == Some(initCwd)
  {
  }
}
