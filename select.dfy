/**
 * The single-select list prompt: which rows are drawn, how the keys move the
 * selection, and the clean-up that releases the terminal exactly once. Terminal
 * output is modelled as the text of the rows; the terminal modes are flags.
 */
module Select {
  import opened Wrappers
  import opened Text

  /** An entry of the list; the label defaults to the value. */
  datatype Item = Item(value: string, labelText: Option<string>, description: Option<string>)

  /** `it.label ?? it.value`. */
  function LabelOf(it: Item): string {
    it.labelText.GetOr(it.value)
  }

  /**
   * The length of the longest label (`Math.max` over the labels). An empty
   * list draws no row, so the value for it is never used.
   */
  function MaxLabelLen(items: seq<Item>): (w: nat)
    ensures forall i :: 0 <= i < |items| ==> |LabelOf(items[i])| <= w
    ensures |items| > 0 ==> exists i :: 0 <= i < |items| && |LabelOf(items[i])| == w
  {
    if |items| == 0 then 0
    else
      var rest := MaxLabelLen(items[1..]);
      assert forall i :: 1 <= i < |items| ==> items[i] == items[1..][i - 1];
      if |items| == 1 || |LabelOf(items[0])| >= rest then |LabelOf(items[0])| else rest
  }

  /**
   * The rows `renderItems` draws, from `start` up to `end`: all of them, or a
   * window of `maxVisible` rows placed so that the selected one is in it.
   */
  function Window(total: nat, selected: int, maxVisible: Option<int>): (w: (nat, nat))
    ensures w.0 <= w.1 <= total
    ensures maxVisible.Some? && 0 < maxVisible.value < total ==>
      w.1 - w.0 == maxVisible.value && w.0 <= total - maxVisible.value
      && (0 <= selected < total ==> w.0 <= selected < w.1)
    ensures !(maxVisible.Some? && 0 < maxVisible.value < total) ==> w == (0, total)
  {
    if maxVisible.Some? && 0 < maxVisible.value < total then
      var m := maxVisible.value;
      var half := m / 2;
      var lower := if selected - half > 0 then selected - half else 0;
      var start := if lower < total - m then lower else total - m;
      (start, start + m)
    else (0, total)
  }

  /** The number of rows drawn. */
  function Visible(total: nat, selected: int, maxVisible: Option<int>): nat {
    Window(total, selected, maxVisible).1 - Window(total, selected, maxVisible).0
  }

  /**
   * The rows that fit under the header and the prompt: `rows` less the
   * overhead, at least one; no limit when the terminal's height is unknown (0).
   */
  function MaxVisible(rows: int, overhead: nat): (m: Option<int>)
    ensures rows > 0 ==> m.Some? && m.value >= 1 && m.value >= rows - overhead
    ensures rows > 0 ==> m.value == 1 || m.value == rows - overhead
    ensures rows <= 0 ==> m.None?
  {
    if rows > 0 then Some(if rows - overhead > 1 then rows - overhead else 1) else None
  }

  /** The lines above the list: the prompt, and the header with a blank line when there is a header. */
  function Overhead(header: Option<string>): nat {
    (if header.Some? && header.value != "" then 2 else 0) + 1
  }

  /** The pointer the source draws: `❯` read back as two Latin-1 characters, `â¯`. */
  const PointerAsWritten: string := "\U{E2}\U{AF}"

  /** The pointer `❯` (U+276F), one character wide like the blank of the other rows. */
  const Pointer: string := "\U{276F}"

  /** The description part of a row: two spaces and the description, when it is not empty. */
  function DescriptionPart(it: Item): string {
    if it.description.Some? && it.description.value != "" then "  " + it.description.value else ""
  }

  /** One row: the pointer or a blank, a space, the label padded to `width + 1`, and the description. */
  function RowWith(pointer: string, it: Item, isSelected: bool, width: nat): string {
    (if isSelected then pointer else " ") + " " + PadEnd(LabelOf(it), width + 1) + DescriptionPart(it) + "\n"
  }

  /** A row as the model draws it. */
  function Row(it: Item, isSelected: bool, width: nat): string {
    RowWith(Pointer, it, isSelected, width)
  }

  /**
   * With the pointer as written, the label of the selected row starts one
   * column to the right of the labels of the other rows.
   */
  lemma PointerAsWrittenShiftsLabel(a: Item, b: Item, width: nat)
    ensures var s := RowWith(PointerAsWritten, a, true, width); var o := RowWith(PointerAsWritten, b, false, width);
      s[..3] == PointerAsWritten + " " && s[3..3 + width + 1] == PadEnd(LabelOf(a), width + 1)[..width + 1]
      && o[..2] == "  " && o[2..2 + width + 1] == PadEnd(LabelOf(b), width + 1)[..width + 1]
  {
  }

  /**
   * With a one-character pointer every row has the pointer or a blank in its
   * first column, and its label padded to `width + 1` from the third, so
   * labels no longer than `width` and the descriptions line up.
   */
  lemma RowColumns(it: Item, isSelected: bool, width: nat)
    requires |LabelOf(it)| <= width
    ensures var r := Row(it, isSelected, width);
      r[0] == (if isSelected then Pointer[0] else ' ') && r[1] == ' '
      && r[2..width + 3] == PadEnd(LabelOf(it), width + 1)
      && r[width + 3..] == DescriptionPart(it) + "\n"
  {
    var r := Row(it, isSelected, width);
    var p := if isSelected then Pointer else " ";
    assert r == p + " " + PadEnd(LabelOf(it), width + 1) + (DescriptionPart(it) + "\n");
  }

  /** The rows of the items from `lo` up to `hi`. */
  function Rows(items: seq<Item>, lo: nat, hi: nat, selected: int, width: nat): (rows: seq<string>)
    requires lo <= hi <= |items|
    ensures |rows| == hi - lo
    ensures forall k :: 0 <= k < hi - lo ==> rows[k] == Row(items[lo + k], lo + k == selected, width)
    decreases hi
  {
    if hi == lo then []
    else
      var before := Rows(items, lo, hi - 1, selected, width);
      var rows := before + [Row(items[hi - 1], hi - 1 == selected, width)];
      assert forall k :: 0 <= k < hi - 1 - lo ==> rows[k] == before[k];
      rows
  }

  /**
   * `renderItems(items, selected, maxVisible)`: the rows of the window, the
   * selected one with the pointer, and their number.
   */
  method RenderItems(items: seq<Item>, selected: int, maxVisible: Option<int>) returns (lines: nat, rows: seq<string>)
    ensures var w := Window(|items|, selected, maxVisible);
      lines == w.1 - w.0 && rows == Rows(items, w.0, w.1, selected, MaxLabelLen(items))
  {
    var width := MaxLabelLen(items);
    var w := Window(|items|, selected, maxVisible);
    lines := 0;
    rows := [];
    for i := w.0 to w.1
      invariant lines == i - w.0
      invariant rows == Rows(items, w.0, i, selected, width)
    {
      rows := rows + [Row(items[i], i == selected, width)];
      lines := lines + 1;
    }
  }

  /** Exactly one drawn row carries the pointer, the selected one, when the selection is in the list. */
  lemma OnePointer(items: seq<Item>, selected: int, maxVisible: Option<int>, k: nat)
    requires 0 <= selected < |items|
    requires k < Visible(|items|, selected, maxVisible)
    ensures var w := Window(|items|, selected, maxVisible);
      w.0 <= selected < w.1
      && (Rows(items, w.0, w.1, selected, MaxLabelLen(items))[k][0] == Pointer[0] <==> w.0 + k == selected)
  {
    var w := Window(|items|, selected, maxVisible);
    var width := MaxLabelLen(items);
    var it := items[w.0 + k];
    assert |LabelOf(it)| <= width;
    RowColumns(it, w.0 + k == selected, width);
    assert Rows(items, w.0, w.1, selected, width)[k] == Row(it, w.0 + k == selected, width);
    assert Pointer[0] != ' ';
  }

  /** The selection after Up or `k`. */
  function Previous(selected: int, n: nat): int
    requires n > 0
  {
    (selected - 1 + n) % n
  }

  /** The selection after Down or `j`. */
  function Next(selected: int, n: nat): int
    requires n > 0
  {
    (selected + 1) % n
  }

  /**
   * Moving wraps around: the selection stays in the list, the first row goes
   * up to the last and the last down to the first, and a move down undoes a
   * move up and the other way round.
   */
  lemma Wrapping(selected: int, n: nat)
    requires n > 0 && 0 <= selected < n
    ensures 0 <= Previous(selected, n) < n && 0 <= Next(selected, n) < n
    ensures Previous(0, n) == n - 1 && Next(n - 1, n) == 0
    ensures Next(Previous(selected, n), n) == selected && Previous(Next(selected, n), n) == selected
  {
    ModOnce(selected - 1 + n, n);
    ModOnce(selected + 1, n);
    ModOnce(n - 1, n);
    ModOnce(n, n);
    var p := Previous(selected, n);
    var q := Next(selected, n);
    ModOnce(p + 1, n);
    ModOnce(q - 1 + n, n);
  }

  /** Below twice the modulus, the remainder subtracts the modulus at most once. */
  lemma ModOnce(x: int, n: int)
    requires 0 < n && 0 <= x < 2 * n
    ensures x % n == if x < n then x else x - n
  {
    if x < n {
      assert x == n * 0 + x;
    } else {
      assert x == n * 1 + (x - n);
    }
  }

  /** What a key press leads to. */
  datatype KeyOutcome = Pending | Resolved(value: string) | Cancelled

  const KeyUp: string := "\U{1B}[A"
  const KeyDown: string := "\U{1B}[B"
  const CtrlC: string := "\U{3}"

  /**
   * `select` without a terminal, or with `COMMITSKIP_SELECT_PROMPT=1`: the
   * first value, or `undefined` for an empty list.
   */
  function Fallback(items: seq<Item>): Option<string> {
    if |items| > 0 then Some(items[0].value) else None
  }

  /** The interactive prompt between its start and its clean-up. */
  class SelectPrompt {
    const items: seq<Item>
    const overhead: nat
    const maxVisible: Option<int>
    const useAlt: bool
    var selected: int
    var cleaned: bool
    var renderedLines: nat
    var rawMode: bool        // raw mode on and the data listener attached
    var cursorHidden: bool
    var altScreen: bool
    var cleanups: nat        // how many times the body of `cleanup` has run

    predicate Valid()
      reads this
    {
      |items| > 0 && 0 <= selected < |items|
      && cleanups == (if cleaned then 1 else 0)
      && (cleaned ==> !rawMode && !cursorHidden && !altScreen)
      && (!cleaned ==> rawMode && cursorHidden && altScreen == useAlt)
      && renderedLines == overhead + Visible(|items|, selected, maxVisible)
    }

    /**
     * The start of an interactive `select`: raw mode, the cursor hidden, the
     * alternate screen when asked for, and the list drawn with the first item
     * selected. `rows` is the terminal's height, 0 when unknown.
     */
    constructor(items: seq<Item>, header: Option<string>, rows: int, useAlt: bool)
      requires |items| > 0
      ensures Valid() && !cleaned && selected == 0
      ensures this.items == items && this.useAlt == useAlt
      ensures overhead == Overhead(header) && maxVisible == MaxVisible(rows, Overhead(header))
    {
      this.items := items;
      this.useAlt := useAlt;
      overhead := Overhead(header);
      maxVisible := MaxVisible(rows, Overhead(header));
      selected := 0;
      cleaned := false;
      rawMode := true;
      cursorHidden := true;
      altScreen := useAlt;
      cleanups := 0;
      new;
      var lines, _ := RenderItems(items, 0, maxVisible);
      renderedLines := overhead + lines;
    }

    /** `cleanup()`: releases the terminal the first time, and does nothing afterwards. */
    method Cleanup()
      requires Valid()
      modifies this
      ensures Valid() && cleaned && cleanups == 1
      ensures selected == old(selected)
      ensures old(cleaned) ==> rawMode == old(rawMode) && cursorHidden == old(cursorHidden) && altScreen == old(altScreen)
    {
      if cleaned {
        return;
      }
      cleaned := true;
      cleanups := cleanups + 1;
      rawMode := false;
      altScreen := false;
      cursorHidden := false;
    }

    /** Redraws the list after the selection moved. */
    method Redraw()
      requires |items| > 0 && 0 <= selected < |items|
      modifies this`renderedLines
      ensures renderedLines == overhead + Visible(|items|, selected, maxVisible)
    {
      var lines, _ := RenderItems(items, selected, maxVisible);
      renderedLines := overhead + lines;
    }

    /**
     * `onData(buf)`: Up/`k` and Down/`j` move with wrap-around, Enter resolves
     * the selected value, Ctrl-C cancels, both after clean-up; anything else
     * is ignored.
     */
    method OnData(s: string) returns (outcome: KeyOutcome)
      requires Valid()
      modifies this
      ensures Valid()
      ensures s == KeyUp || s == "k" ==>
        outcome == Pending && selected == Previous(old(selected), |items|) && cleaned == old(cleaned)
      ensures s == KeyDown || s == "j" ==>
        outcome == Pending && selected == Next(old(selected), |items|) && cleaned == old(cleaned)
      ensures s == "\r" || s == "\n" ==>
        outcome == Resolved(items[old(selected)].value) && cleaned && selected == old(selected)
      ensures s == CtrlC ==> outcome == Cancelled && cleaned && selected == old(selected)
      ensures s != KeyUp && s != "k" && s != KeyDown && s != "j" && s != "\r" && s != "\n" && s != CtrlC ==>
        outcome == Pending && selected == old(selected) && cleaned == old(cleaned)
        && renderedLines == old(renderedLines) && cleanups == old(cleanups)
    {
      var n := |items|;
      if s == KeyUp {
        Wrapping(selected, n);
        selected := Previous(selected, n);
        Redraw();
        return Pending;
      }
      if s == KeyDown {
        Wrapping(selected, n);
        selected := Next(selected, n);
        Redraw();
        return Pending;
      }
      if s == "\r" || s == "\n" {
        Cleanup();
        return Resolved(items[selected].value);
      }
      if s == CtrlC {
        Cleanup();
        return Cancelled;
      }
      if s == "j" {
        Wrapping(selected, n);
        selected := Next(selected, n);
        Redraw();
        return Pending;
      }
      if s == "k" {
        Wrapping(selected, n);
        selected := Previous(selected, n);
        Redraw();
        return Pending;
      }
      return Pending;
    }
  }

  /** The values of the items, in order: all that decides what `select` resolves with. */
  function Values(items: seq<Item>): (vs: seq<string>)
    ensures |vs| == |items|
    ensures forall i :: 0 <= i < |items| ==> vs[i] == items[i].value
  {
    seq(|items|, i requires 0 <= i < |items| => items[i].value)
  }

  /**
   * The keys from index `from` on handed to `onData` with `selected` the
   * current row of a list with these values: the outcome of the key that ends
   * the prompt and the index just past it, or `Pending` when the keys run out
   * first.
   */
  function SelectFeed(values: seq<string>, selected: int, keys: seq<string>, from: nat): (r: (KeyOutcome, nat))
    requires 0 <= selected < |values| && from <= |keys|
    ensures from <= r.1 <= |keys|
    ensures r.0.Pending? ==> r.1 == |keys|
    ensures !r.0.Pending? ==> r.1 > from
    decreases |keys| - from
  {
    if from == |keys| then (Pending, from)
    else
      var s := keys[from];
      if s == KeyUp || s == "k" then SelectFeed(values, Previous(selected, |values|), keys, from + 1)
      else if s == KeyDown || s == "j" then SelectFeed(values, Next(selected, |values|), keys, from + 1)
      else if s == "\r" || s == "\n" then (Resolved(values[selected]), from + 1)
      else if s == CtrlC then (Cancelled, from + 1)
      else SelectFeed(values, selected, keys, from + 1)
  }

  /** Whatever the keys, the prompt only ever resolves with one of the values. */
  lemma {:induction false} SelectFeedPicksAnItem(values: seq<string>, selected: int, keys: seq<string>, from: nat)
    requires 0 <= selected < |values| && from <= |keys|
    ensures var r := SelectFeed(values, selected, keys, from);
      r.0.Resolved? ==> r.0.value in values
    decreases |keys| - from
  {
    if from < |keys| {
      var s := keys[from];
      var n := |values|;
      if s == KeyUp || s == "k" {
        SelectFeedPicksAnItem(values, Previous(selected, n), keys, from + 1);
      } else if s == KeyDown || s == "j" {
        SelectFeedPicksAnItem(values, Next(selected, n), keys, from + 1);
      } else if s != "\r" && s != "\n" && s != CtrlC {
        SelectFeedPicksAnItem(values, selected, keys, from + 1);
      }
    }
  }

  /**
   * An interactive `select` fed the keys from `start`: the prompt is started
   * with the first item selected, and every key goes to `onData` until one
   * resolves or cancels; the terminal is then released.
   */
  method RunSelect(items: seq<Item>, header: Option<string>, rows: int, useAlt: bool, keys: seq<string>, start: nat)
    returns (outcome: KeyOutcome, stop: nat)
    requires |items| > 0 && start <= |keys|
    ensures (outcome, stop) == SelectFeed(Values(items), 0, keys, start)
  {
    var p := new SelectPrompt(items, header, rows, useAlt);
    var pos := start;
    ghost var total := SelectFeed(Values(items), 0, keys, start);
    while pos < |keys|
      invariant start <= pos <= |keys|
      invariant p.Valid() && !p.cleaned && p.items == items
      invariant SelectFeed(Values(items), p.selected, keys, pos) == total
      decreases |keys| - pos
    {
      outcome := p.OnData(keys[pos]);
      pos := pos + 1;
      if !outcome.Pending? {
        return outcome, pos;
      }
    }
    return Pending, pos;
  }

  /** How `select` ends: an outcome of the keys, or `undefined` from the fallback over an empty list. */
  datatype SelectEnd = UndefinedValue | Ended(outcome: KeyOutcome)

  /**
   * `select(prompt, items, header)`: without a terminal, or with the select
   * prompt switched off, the first value and no key read (`undefined` for an
   * empty list); otherwise the interactive prompt over the key chunks, which
   * only ever resolves with one of the values.
   */
  method SelectValue(items: seq<Item>, header: Option<string>, isTTY: bool, skipPrompt: bool, rows: int, useAlt: bool,
                     keys: seq<string>, start: nat) returns (r: SelectEnd, stop: nat)
    requires start <= |keys|
    requires isTTY && !skipPrompt ==> |items| > 0
    ensures !isTTY || skipPrompt ==>
      stop == start && r == if |items| > 0 then Ended(Resolved(items[0].value)) else UndefinedValue
    ensures isTTY && !skipPrompt ==> r.Ended? && (r.outcome, stop) == SelectFeed(Values(items), 0, keys, start)
    ensures r.Ended? && r.outcome.Resolved? ==> r.outcome.value in Values(items)
  {
    if !isTTY || skipPrompt {
      var v := Fallback(items);
      return if v.Some? then Ended(Resolved(v.value)) else UndefinedValue, start;
    }
    var outcome;
    outcome, stop := RunSelect(items, header, rows, useAlt, keys, start);
    SelectFeedPicksAnItem(Values(items), 0, keys, start);
    r := Ended(outcome);
  }

  /**
   * A run of the prompt over three items: `k` from the first item wraps to
   * the last, and Enter then resolves its value.
   */
  method WrapThenEnter() returns (outcome: KeyOutcome)
    ensures outcome == Resolved("c")
  {
    var p := new SelectPrompt([Item("a", Some("A"), None), Item("b", Some("B"), None), Item("c", Some("C"), None)],
                              None, 0, false);
    var o := p.OnData("k");
    outcome := p.OnData("\r");
  }
}
