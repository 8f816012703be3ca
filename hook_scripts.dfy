/**
 * The hook scripts CommitZero writes into the hooks directory, and the marker
 * lines that delimit the block it manages inside them.
 */
module HookScripts {
  import opened Text

  /** `HOOK_HEADER`: the text every managed marker line carries. */
  const HookHeader: string := "# CommitZero managed block"

  /** The line that opens a managed block. */
  const StartMarker: string := HookHeader + " START"

  /** The line that closes a managed block. */
  const EndMarker: string := HookHeader + " END"

  /** The two lines every script starts with. */
  const Preamble: seq<string> := ["#!/bin/sh", "set -eu"]

  // The longer script lines are written as concatenations of short pieces so
  // that their characters can be inspected piece by piece.

  /** The comment that opens the `commit-msg` block. */
  const Validate: string :=
    "# Validate" + " commit message" + " using" + " CommitZero"

  /** The test for the package's executable under `node_modules/.bin`. */
  const IfLocalBin: string :=
    "if [ -x \"./" + "node_modules/" + ".bin/commitzero\"" + " ]; then"

  /** Running that executable's `check` command. */
  const RunLocalBin: string :=
    "  ./" + "node_modules/" + ".bin/commitzero" + " check"

  /** The test for the package's compiled entry point. */
  const ElifPackageEntry: string :=
    "elif [ -f \"./" + "node_modules/" + "@codemastersolut" + "ins/" + "commitzero/dist/" +
    "cjs/cli/" + "index.js\" ];" + " then"

  /** Running the entry point's `check` command with `node`. */
  const RunPackageEntry: string :=
    "  node ./" + "node_modules/" + "@codemastersolut" + "ins/" + "commitzero/dist/" +
    "cjs/cli/index.js" + " check"

  /** The message printed when neither is installed. */
  const NotFound: string :=
    "  echo" + " \"CommitZero not" + " found. Install" + " with 'npm i -D" + " @codemastersolu" +
    "tins/" + "commitzero'\"" + " 1>&2"

  /** The comment that opens the `prepare-commit-msg` block. */
  const PreparePlaceholder: string :=
    "#" + " prepare-commit-" + "msg" + " hook" + " (placeholder)"

  /** Its second comment line. */
  const PrepareKeeps: string :=
    "# Keeps default" + " behavior; may" + " pre-fill" + " templates in" + " the future."
  /** The body of the `commit-msg` block: run `commitzero check` from the local install, or fail. */
  const CommitMsgBody: seq<string> :=
    [Validate, IfLocalBin, RunLocalBin, ElifPackageEntry, RunPackageEntry, "else", NotFound, "  exit 1", "fi"]

  /** The body of the `prepare-commit-msg` block, which does nothing yet. */
  const PrepareBody: seq<string> := [PreparePlaceholder, PrepareKeeps]

  /**
   * The lines of a script whose managed block holds `body`: the preamble, the
   * block, and the empty text after the final line break.
   */
  function ScriptLines(body: seq<string>): seq<string> {
    Preamble + [StartMarker] + body + [EndMarker, ""]
  }

  /** `commitMsgScript()`: its lines, each ended by a line break. */
  function CommitMsgScript(): string {
    Join(ScriptLines(CommitMsgBody), "\n")
  }

  /** `prepareCommitMsgScript()`. */
  function PrepareCommitMsgScript(): string {
    Join(ScriptLines(PrepareBody), "\n")
  }

  /** A line without some character of `p` does not contain `p`. */
  lemma MissingCharLacks(line: string, p: string, c: char)
    requires c in p && c !in line
    ensures !Contains(line, p)
  {
  }

  /** A line of a block body: neither marker, and no line break. */
  predicate BodyLine(l: string) {
    !Contains(l, StartMarker) && !Contains(l, EndMarker) && PlainLine(l)
  }

  /** No line break, carriage return, capital `E` or capital `S`. */
  predicate Unmarked(l: string) {
    forall i :: 0 <= i < |l| ==> l[i] != '\n' && l[i] != '\r' && l[i] != 'E' && l[i] != 'S'
  }

  lemma CatUnmarked(a: string, b: string)
    requires Unmarked(a) && Unmarked(b)
    ensures Unmarked(a + b)
  {
    forall i | |a| <= i < |a + b| ensures (a + b)[i] == b[i - |a|] {
    }
  }

  /** An unmarked line is a plain line that holds neither marker: the markers have a capital `S` or `E`. */
  lemma UnmarkedIsBody(l: string)
    requires Unmarked(l)
    ensures BodyLine(l)
  {
    assert StartMarker[27] == 'S';
    assert EndMarker[27] == 'E';
    MissingCharLacks(l, StartMarker, 'S');
    MissingCharLacks(l, EndMarker, 'E');
  }

  /** Every line of both block bodies is a plain line without a marker. */
  lemma BodiesUnmarked()
    ensures forall i :: 0 <= i < |CommitMsgBody| ==> BodyLine(CommitMsgBody[i])
    ensures forall i :: 0 <= i < |PrepareBody| ==> BodyLine(PrepareBody[i])
  {
    ValidateUnmarked();
    IfLocalBinUnmarked();
    RunLocalBinUnmarked();
    ElifPackageEntryUnmarked();
    RunPackageEntryUnmarked();
    NotFoundUnmarked();
    PreparePlaceholderUnmarked();
    PrepareKeepsUnmarked();
    assert Unmarked("else") && Unmarked("  exit 1") && Unmarked("fi");
    forall i | 0 <= i < |CommitMsgBody| ensures BodyLine(CommitMsgBody[i]) {
      UnmarkedIsBody(CommitMsgBody[i]);
    }
    forall i | 0 <= i < |PrepareBody| ensures BodyLine(PrepareBody[i]) {
      UnmarkedIsBody(PrepareBody[i]);
    }
  }

  lemma ValidateUnmarked()
    ensures Unmarked(Validate)
  {
    var t := "# Validate";
    assert Unmarked(t);
    CatUnmarked(t, " commit message");
    t := t + " commit message";
    CatUnmarked(t, " using");
    t := t + " using";
    CatUnmarked(t, " CommitZero");
    t := t + " CommitZero";
    assert t == Validate;
  }

  lemma IfLocalBinUnmarked()
    ensures Unmarked(IfLocalBin)
  {
    var t := "if [ -x \"./";
    assert Unmarked(t);
    CatUnmarked(t, "node_modules/");
    t := t + "node_modules/";
    CatUnmarked(t, ".bin/commitzero\"");
    t := t + ".bin/commitzero\"";
    CatUnmarked(t, " ]; then");
    t := t + " ]; then";
    assert t == IfLocalBin;
  }

  lemma RunLocalBinUnmarked()
    ensures Unmarked(RunLocalBin)
  {
    var t := "  ./";
    assert Unmarked(t);
    CatUnmarked(t, "node_modules/");
    t := t + "node_modules/";
    CatUnmarked(t, ".bin/commitzero");
    t := t + ".bin/commitzero";
    CatUnmarked(t, " check");
    t := t + " check";
    assert t == RunLocalBin;
  }

  lemma ElifPackageEntryUnmarked()
    ensures Unmarked(ElifPackageEntry)
  {
    var t := "elif [ -f \"./";
    assert Unmarked(t);
    CatUnmarked(t, "node_modules/");
    t := t + "node_modules/";
    CatUnmarked(t, "@codemastersolut");
    t := t + "@codemastersolut";
    CatUnmarked(t, "ins/");
    t := t + "ins/";
    CatUnmarked(t, "commitzero/dist/");
    t := t + "commitzero/dist/";
    CatUnmarked(t, "cjs/cli/");
    t := t + "cjs/cli/";
    CatUnmarked(t, "index.js\" ];");
    t := t + "index.js\" ];";
    CatUnmarked(t, " then");
    t := t + " then";
    assert t == ElifPackageEntry;
  }

  lemma RunPackageEntryUnmarked()
    ensures Unmarked(RunPackageEntry)
  {
    var t := "  node ./";
    assert Unmarked(t);
    CatUnmarked(t, "node_modules/");
    t := t + "node_modules/";
    CatUnmarked(t, "@codemastersolut");
    t := t + "@codemastersolut";
    CatUnmarked(t, "ins/");
    t := t + "ins/";
    CatUnmarked(t, "commitzero/dist/");
    t := t + "commitzero/dist/";
    CatUnmarked(t, "cjs/cli/index.js");
    t := t + "cjs/cli/index.js";
    CatUnmarked(t, " check");
    t := t + " check";
    assert t == RunPackageEntry;
  }

  lemma NotFoundUnmarked()
    ensures Unmarked(NotFound)
  {
    var t := "  echo";
    assert Unmarked(t);
    CatUnmarked(t, " \"CommitZero not");
    t := t + " \"CommitZero not";
    CatUnmarked(t, " found. Install");
    t := t + " found. Install";
    CatUnmarked(t, " with 'npm i -D");
    t := t + " with 'npm i -D";
    CatUnmarked(t, " @codemastersolu");
    t := t + " @codemastersolu";
    CatUnmarked(t, "tins/");
    t := t + "tins/";
    CatUnmarked(t, "commitzero'\"");
    t := t + "commitzero'\"";
    CatUnmarked(t, " 1>&2");
    t := t + " 1>&2";
    assert t == NotFound;
  }

  lemma PreparePlaceholderUnmarked()
    ensures Unmarked(PreparePlaceholder)
  {
    var t := "#";
    assert Unmarked(t);
    CatUnmarked(t, " prepare-commit-");
    t := t + " prepare-commit-";
    CatUnmarked(t, "msg");
    t := t + "msg";
    CatUnmarked(t, " hook");
    t := t + " hook";
    CatUnmarked(t, " (placeholder)");
    t := t + " (placeholder)";
    assert t == PreparePlaceholder;
  }

  lemma PrepareKeepsUnmarked()
    ensures Unmarked(PrepareKeeps)
  {
    var t := "# Keeps default";
    assert Unmarked(t);
    CatUnmarked(t, " behavior; may");
    t := t + " behavior; may";
    CatUnmarked(t, " pre-fill");
    t := t + " pre-fill";
    CatUnmarked(t, " templates in");
    t := t + " templates in";
    CatUnmarked(t, " the future.");
    t := t + " the future.";
    assert t == PrepareKeeps;
  }
}
