/**
 * The periodic check for a newer published version: reading `major.minor.patch`
 * numbers, comparing them, deciding whether a check is due, and what the check
 * records and reports. The registry request and the state file are parameters.
 */
module VersionCheck {
  import opened Wrappers
  import opened Text

  datatype Semver = Semver(major: nat, minor: nat, patch: nat)

  /** The length of a run of digits followed by a point at the front of `s`, or 0 if there is none. */
  function NumberThenPoint(s: string): (n: nat)
    ensures n <= |s|
  {
    var i := LeadingDigits(s);
    if 0 < i < |s| && s[i] == '.' then i + 1 else 0
  }

  /** `parseSemver(v)`: the numbers of a leading `/^(\d+)\.(\d+)\.(\d+)/`, anything after them ignored. */
  function ParseSemver(v: string): Option<Semver> {
    var i := NumberThenPoint(v);
    var r1 := v[i..];
    var j := NumberThenPoint(r1);
    var r2 := r1[j..];
    var k := LeadingDigits(r2);
    if i > 0 && j > 0 && k > 0 then
      Some(Semver(DigitsValue(v[..i - 1]), DigitsValue(r1[..j - 1]), DigitsValue(r2[..k])))
    else
      None
  }

  /** `isNewer(a, b)`. */
  function IsNewer(a: string, b: string): bool {
    var pa := ParseSemver(a);
    var pb := ParseSemver(b);
    if pa.None? || pb.None? then a != b
    else if pa.value.major != pb.value.major then pa.value.major > pb.value.major
    else if pa.value.minor != pb.value.minor then pa.value.minor > pb.value.minor
    else if pa.value.patch != pb.value.patch then pa.value.patch > pb.value.patch
    else false
  }

  /** Precedence of versions without pre-release parts (section 11 of Semantic Versioning 2.0.0). */
  predicate Above(x: Semver, y: Semver) {
    x.major > y.major
    || (x.major == y.major && x.minor > y.minor)
    || (x.major == y.major && x.minor == y.minor && x.patch > y.patch)
  }

  /** The text `M.m.p`. */
  function Render(x: Semver): string {
    NatToString(x.major) + "." + NatToString(x.minor) + "." + NatToString(x.patch)
  }

  /** On two readable versions, `isNewer` is precedence. */
  lemma IsNewerIsAbove(a: string, b: string)
    requires ParseSemver(a).Some? && ParseSemver(b).Some?
    ensures IsNewer(a, b) <==> Above(ParseSemver(a).value, ParseSemver(b).value)
  {
  }

  /** When either version cannot be read, `isNewer` only asks whether the texts differ. */
  lemma IsNewerFallback(a: string, b: string)
    requires ParseSemver(a).None? || ParseSemver(b).None?
    ensures IsNewer(a, b) <==> a != b
  {
  }

  /** Precedence is a strict order: irreflexive, asymmetric and transitive. */
  lemma AboveIsStrictOrder(x: Semver, y: Semver, z: Semver)
    ensures !Above(x, x)
    ensures Above(x, y) ==> !Above(y, x)
    ensures Above(x, y) && Above(y, z) ==> Above(x, z)
  {
  }

  /** No version is newer than itself, readable or not. */
  lemma NotNewerThanItself(a: string)
    ensures !IsNewer(a, a)
  {
    if ParseSemver(a).Some? {
      IsNewerIsAbove(a, a);
      AboveIsStrictOrder(ParseSemver(a).value, ParseSemver(a).value, ParseSemver(a).value);
    }
  }

  /** A run of digits followed by a point is measured by `NumberThenPoint`. */
  lemma NumberThenPointOf(d: string, rest: string)
    requires IsDigits(d)
    ensures NumberThenPoint(d + "." + rest) == |d| + 1
    ensures (d + "." + rest)[..|d|] == d && (d + "." + rest)[|d| + 1..] == rest
  {
    var s := d + "." + rest;
    assert forall i :: 0 <= i < |d| ==> s[i] == d[i];
    assert LeadingDigits(s) == |d| by {
      assert !IsDigit(s[|d|]);
    }
  }

  /** Reading three runs of digits separated by points, and text that does not start with a digit. */
  lemma ParseParts(a: string, b: string, c: string, suffix: string)
    requires IsDigits(a) && IsDigits(b) && IsDigits(c)
    requires suffix == [] || !IsDigit(suffix[0])
    ensures ParseSemver(a + "." + (b + "." + (c + suffix)))
         == Some(Semver(DigitsValue(a), DigitsValue(b), DigitsValue(c)))
  {
    var r2 := c + suffix;
    assert NumberThenPoint(a + "." + (b + "." + r2)) == |a| + 1
        && (a + "." + (b + "." + r2))[..|a|] == a && (a + "." + (b + "." + r2))[|a| + 1..] == b + "." + r2 by {
      NumberThenPointOf(a, b + "." + r2);
    }
    assert NumberThenPoint(b + "." + r2) == |b| + 1
        && (b + "." + r2)[..|b|] == b && (b + "." + r2)[|b| + 1..] == r2 by {
      NumberThenPointOf(b, r2);
    }
    assert LeadingDigits(r2) == |c| && r2[..|c|] == c by {
      assert forall i :: 0 <= i < |c| ==> r2[i] == c[i];
      assert |suffix| > 0 ==> r2[|c|] == suffix[0];
    }
  }

  /** Reading a rendered version, followed by text that does not start with a digit, gives it back. */
  lemma ParseRender(x: Semver, suffix: string)
    requires suffix == [] || !IsDigit(suffix[0])
    ensures ParseSemver(Render(x) + suffix) == Some(x)
  {
    var a, b, c := NatToString(x.major), NatToString(x.minor), NatToString(x.patch);
    assert Render(x) + suffix == a + "." + (b + "." + (c + suffix));
    ParseParts(a, b, c, suffix);
    DigitsOfNat(x.major);
    DigitsOfNat(x.minor);
    DigitsOfNat(x.patch);
  }

  /** One day in milliseconds. */
  const DayMs: nat := 24 * 60 * 60 * 1000

  /** `msForPeriod(period)`: any period other than weekly or monthly counts as daily. */
  function MsForPeriod(period: string): (ms: nat)
    ensures ms == DayMs || ms == 7 * DayMs || ms == 30 * DayMs
    ensures ms == 7 * DayMs <==> period == "weekly"
    ensures ms == 30 * DayMs <==> period == "monthly"
  {
    if period == "weekly" then 7 * DayMs
    else if period == "monthly" then 30 * DayMs
    else DayMs
  }

  /** `shouldCheck(period, lastCheckedAt)` at the time `now`. */
  function ShouldCheck(period: string, lastCheckedAt: Option<int>, now: int): (b: bool)
    ensures lastCheckedAt.None? || lastCheckedAt == Some(0) ==> b
    ensures lastCheckedAt.Some? && lastCheckedAt.value != 0 ==> (b <==> now >= lastCheckedAt.value + MsForPeriod(period))
  {
    if lastCheckedAt.None? || lastCheckedAt.value == 0 then true
    else now - lastCheckedAt.value >= MsForPeriod(period)
  }

  /** What the state file holds. */
  datatype CheckState = CheckState(lastCheckedAt: Option<int>, lastPromptedVersion: Option<string>)

  datatype CheckConfig = CheckConfig(enabled: bool, period: string, currentVersion: string)

  /** The answer of `checkForUpdate`, together with the state it writes, if any. */
  datatype CheckOutcome = CheckOutcome(shouldPrompt: bool, latestVersion: Option<string>, written: Option<CheckState>)

  /** A version the registry gave: JavaScript treats `null` and `""` alike as absent. */
  predicate Given(latest: Option<string>) {
    latest.Some? && latest.value != ""
  }

  /**
   * `checkForUpdate(cfg)`, with the stored state, the registry's answer `latest`
   * (`None` when the request failed) and two clock readings as parameters:
   * `now`, taken by `shouldCheck` before the fetch, and `fetchedAt`, taken
   * after it and recorded as the time of the check.
   */
  function CheckForUpdate(cfg: CheckConfig, state: CheckState, latest: Option<string>, now: int, fetchedAt: int)
    : CheckOutcome
  {
    if !cfg.enabled then CheckOutcome(false, None, None)
    else if !ShouldCheck(cfg.period, state.lastCheckedAt, now) then CheckOutcome(false, None, None)
    else
      var written := Some(CheckState(Some(fetchedAt), if Given(latest) then latest else state.lastPromptedVersion));
      if !Given(latest) then CheckOutcome(false, None, written)
      else if latest.value == cfg.currentVersion then CheckOutcome(false, None, written)
      else if !IsNewer(latest.value, cfg.currentVersion) then CheckOutcome(false, None, written)
      else CheckOutcome(true, latest, written)
  }

  /**
   * The check prompts exactly when it is enabled and due and the registry gave a
   * version newer than the current one; it then names that version. The
   * comparison with the current version adds nothing to `isNewer`.
   */
  lemma PromptsIffNewer(cfg: CheckConfig, state: CheckState, latest: Option<string>, now: int, fetchedAt: int)
    ensures var r := CheckForUpdate(cfg, state, latest, now, fetchedAt);
      (r.shouldPrompt <==> cfg.enabled && ShouldCheck(cfg.period, state.lastCheckedAt, now)
                           && Given(latest) && IsNewer(latest.value, cfg.currentVersion))
      && (r.shouldPrompt ==> r.latestVersion == latest)
      && (!r.shouldPrompt ==> r.latestVersion.None?)
  {
    if Given(latest) && latest.value == cfg.currentVersion {
      NotNewerThanItself(latest.value);
    }
  }

  /**
   * The state is written exactly when the check is enabled and due at `now`; it
   * records the clock reading taken after the fetch and the version the
   * registry gave, keeping the previous one when it gave none.
   */
  lemma RecordsEveryDueCheck(cfg: CheckConfig, state: CheckState, latest: Option<string>, now: int, fetchedAt: int)
    ensures var r := CheckForUpdate(cfg, state, latest, now, fetchedAt);
      (r.written.Some? <==> cfg.enabled && ShouldCheck(cfg.period, state.lastCheckedAt, now))
      && (r.written.Some? ==>
            r.written.value.lastCheckedAt == Some(fetchedAt)
            && r.written.value.lastPromptedVersion == (if Given(latest) then latest else state.lastPromptedVersion))
  {
  }

  /** A check that just ran is not due again before the period has passed. */
  lemma NotDueAgainWithinPeriod(period: string, checkedAt: int, now: int)
    requires checkedAt != 0 && now - checkedAt < MsForPeriod(period)
    ensures !ShouldCheck(period, Some(checkedAt), now)
  {
  }
}
