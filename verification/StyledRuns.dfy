/** Rows of terminal cells coalesced into styled runs, and runs rendered as HTML (crates/codegen/ptyctl/src/styled.rs). */
module StyledRuns {
  import opened Common

  /** What is kept of a cell's look; colours are CSS texts. */
  datatype Style = Style(
    fg: Option<string>, bg: Option<string>,
    bold: bool, italic: bool, underline: bool, strikeout: bool, dim: bool, inverse: bool)

  datatype Run = Run(text: string, style: Style)

  datatype Cell = Cell(c: char, zeroWidth: string, spacer: bool, style: Style)

  datatype Cursor = Cursor(row: nat, col: nat)

  // ---------------------------------------------------------------- what a row shows

  /** One character on screen with its look. */
  datatype Glyph = Glyph(c: char, style: Style)

  function Same(text: string, style: Style): seq<Glyph> {
    seq(|text|, i requires 0 <= i < |text| => Glyph(text[i], style))
  }

  /** The text of one cell; the cursor character replaces the character under the cursor. Columns count from 1. */
  function CellText(cell: Cell, col: nat, line: nat, cursor: Cursor, cursorChar: Option<char>): string {
    [if cursor == Cursor(line, col + 1) && cursorChar.Some? then cursorChar.value else cell.c] + cell.zeroWidth
  }

  function CellGlyphs(cell: Cell, col: nat, line: nat, cursor: Cursor, cursorChar: Option<char>): seq<Glyph> {
    if cell.spacer then [] else Same(CellText(cell, col, line, cursor, cursorChar), cell.style)
  }

  /** Everything the columns start..end-1 of a row show. */
  function Glyphs(row: seq<Cell>, start: nat, end: nat, line: nat, cursor: Cursor, cursorChar: Option<char>): seq<Glyph>
    requires start >= end || end <= |row|
    decreases end
  {
    if start >= end then []
    else
      Glyphs(row, start, end - 1, line, cursor, cursorChar) + CellGlyphs(row[end - 1], end - 1, line, cursor, cursorChar)
  }

  // ---------------------------------------------------------------- runs

  function Expand(runs: seq<Run>): seq<Glyph> {
    if runs == [] then []
    else Expand(runs[..|runs| - 1]) + Same(runs[|runs| - 1].text, runs[|runs| - 1].style)
  }

  /** No run is empty and neighbouring runs look different. */
  ghost predicate Coalesced(runs: seq<Run>) {
    && (forall i :: 0 <= i < |runs| ==> runs[i].text != [])
    && (forall i :: 0 < i < |runs| ==> runs[i - 1].style != runs[i].style)
  }

  function Extend(runs: seq<Run>, text: string, style: Style): seq<Run> {
    if runs != [] && runs[|runs| - 1].style == style then
      runs[..|runs| - 1] + [Run(runs[|runs| - 1].text + text, style)]
    else runs + [Run(text, style)]
  }

  function Coalesce(glyphs: seq<Glyph>): seq<Run> {
    if glyphs == [] then []
    else
      var last := glyphs[|glyphs| - 1];
      Extend(Coalesce(glyphs[..|glyphs| - 1]), [last.c], last.style)
  }

  lemma ExtendExpands(runs: seq<Run>, text: string, style: Style)
    requires Coalesced(runs) && text != []
    ensures Coalesced(Extend(runs, text, style))
    ensures Expand(Extend(runs, text, style)) == Expand(runs) + Same(text, style)
  {
    var n := |runs|;
    if n > 0 && runs[n - 1].style == style {
      var front, longer := runs[..n - 1], runs[n - 1].text + text;
      assert (front + [Run(longer, style)])[..n - 1] == front;
      assert Same(longer, style) == Same(runs[n - 1].text, style) + Same(text, style);
    } else {
      assert (runs + [Run(text, style)])[..n] == runs;
    }
  }

  lemma CoalesceNext(glyphs: seq<Glyph>, g: Glyph)
    ensures Coalesce(glyphs + [g]) == Extend(Coalesce(glyphs), [g.c], g.style)
  {
    assert (glyphs + [g])[..|glyphs|] == glyphs;
  }

  /** Coalescing loses nothing and joins as much as it can. */
  lemma {:induction false} CoalesceExpands(glyphs: seq<Glyph>)
    ensures Coalesced(Coalesce(glyphs)) && Expand(Coalesce(glyphs)) == glyphs
  {
    if glyphs != [] {
      var front, g := glyphs[..|glyphs| - 1], glyphs[|glyphs| - 1];
      CoalesceExpands(front);
      assert glyphs == front + [g];
      CoalesceNext(front, g);
      ExtendExpands(Coalesce(front), [g.c], g.style);
      assert Same([g.c], g.style) == [g];
    }
  }

  lemma SameNext(glyphs: seq<Glyph>, text: string, c: char, style: Style)
    ensures glyphs + Same(text + [c], style) == glyphs + Same(text, style) + [Glyph(c, style)]
  {
    assert Same(text + [c], style) == Same(text, style) + [Glyph(c, style)];
  }

  lemma {:induction false} CoalesceMore(glyphs: seq<Glyph>, text: string, style: Style)
    requires text != []
    ensures Coalesce(glyphs + Same(text, style)) == Extend(Coalesce(glyphs), text, style)
    decreases |text|
  {
    var front, c := text[..|text| - 1], text[|text| - 1];
    assert text == front + [c];
    SameNext(glyphs, front, c, style);
    CoalesceNext(glyphs + Same(front, style), Glyph(c, style));
    if front != [] {
      CoalesceMore(glyphs, front, style);
      ExtendTwice(Coalesce(glyphs), front, [c], style);
    } else {
      assert glyphs + Same(front, style) == glyphs;
    }
  }

  lemma ExtendTwice(runs: seq<Run>, a: string, b: string, style: Style)
    ensures Extend(Extend(runs, a, style), b, style) == Extend(runs, a + b, style)
  {
    if runs != [] && runs[|runs| - 1].style == style {
      var t := runs[|runs| - 1].text;
      assert t + a + b == t + (a + b);
    }
  }

  /** Runs that are coalesced are what their own expansion coalesces to: no other runs show the same. */
  lemma {:induction false} CoalescedRunsAreUnique(runs: seq<Run>)
    requires Coalesced(runs)
    ensures Coalesce(Expand(runs)) == runs
    decreases |runs|
  {
    if runs != [] {
      var n := |runs| - 1;
      CoalescedRunsAreUnique(runs[..n]);
      CoalesceMore(Expand(runs[..n]), runs[n].text, runs[n].style);
      assert n > 0 ==> runs[..n][n - 1] == runs[n - 1];
      assert runs == runs[..n] + [Run(runs[n].text, runs[n].style)];
    }
  }

  // ---------------------------------------------------------------- trimming

  /** Whether a last run is dropped; `blank` tells white space. */
  predicate Dropped(run: Run, blank: char -> bool) {
    (forall i :: 0 <= i < |run.text| ==> blank(run.text[i])) && run.style.fg.None? && run.style.bg.None? && !run.style.bold
  }

  function Trim(runs: seq<Run>, blank: char -> bool): seq<Run> {
    if runs != [] && Dropped(runs[|runs| - 1], blank) then Trim(runs[..|runs| - 1], blank) else runs
  }

  /** Trimming takes away exactly the longest tail of droppable runs. */
  lemma {:induction false} TrimDropsMaximalTail(runs: seq<Run>, blank: char -> bool)
    ensures var k := |Trim(runs, blank)|;
      && k <= |runs| && Trim(runs, blank) == runs[..k]
      && (forall i :: k <= i < |runs| ==> Dropped(runs[i], blank))
      && (k > 0 ==> !Dropped(runs[k - 1], blank))
  {
    if runs != [] && Dropped(runs[|runs| - 1], blank) {
      var front := runs[..|runs| - 1];
      TrimDropsMaximalTail(front, blank);
      var k := |Trim(front, blank)|;
      assert front[..k] == runs[..k];
      forall i | k <= i < |runs| ensures Dropped(runs[i], blank) {
        if i < |front| { assert Dropped(front[i], blank); }
      }
    } else {
      assert runs[..|runs|] == runs;
    }
  }

  /** What trimming leaves shows the same glyphs up to a blank, uncoloured, not bold end. */
  lemma {:induction false} TrimmedRunsShowPrefix(runs: seq<Run>, blank: char -> bool)
    ensures var kept := Expand(Trim(runs, blank));
      && kept <= Expand(runs)
      && forall i :: |kept| <= i < |Expand(runs)| ==>
           var g := Expand(runs)[i]; blank(g.c) && g.style.fg.None? && g.style.bg.None? && !g.style.bold
  {
    if runs != [] && Dropped(runs[|runs| - 1], blank) {
      TrimmedRunsShowPrefix(runs[..|runs| - 1], blank);
    }
  }

  /** The run that a trimmed line ends in shows something: a character that is not blank, a colour, or bold. */
  lemma LastKeptIsVisible(runs: seq<Run>, blank: char -> bool)
    ensures var kept := Trim(runs, blank);
      kept != [] ==>
        var last := kept[|kept| - 1];
        last.style.fg.Some? || last.style.bg.Some? || last.style.bold || exists c :: c in last.text && !blank(c)
  {
    TrimDropsMaximalTail(runs, blank);
  }

  const DEFAULT := Style(None, None, false, false, false, false, false, false)

  /** Trimming as its comment describes it: blank runs of default style only. */
  function TrimDefault(runs: seq<Run>, blank: char -> bool): seq<Run> {
    if runs != [] && Dropped(runs[|runs| - 1], blank) && runs[|runs| - 1].style == DEFAULT then
      TrimDefault(runs[..|runs| - 1], blank)
    else runs
  }

  /** Run i is dropped although its style is not the default: it and all behind it are droppable. */
  ghost predicate DroppedWithStyle(runs: seq<Run>, blank: char -> bool, i: int) {
    0 <= i < |runs| && runs[i].style != DEFAULT && forall j :: i <= j < |runs| ==> Dropped(runs[j], blank)
  }

  /** A run of another style is dropped if and only if trimming goes further than its comment says. */
  lemma {:induction false} TrimIsDefaultTrimIff(runs: seq<Run>, blank: char -> bool)
    ensures Trim(runs, blank) == TrimDefault(runs, blank) <==> !exists i :: DroppedWithStyle(runs, blank, i)
  {
    if runs == [] || !Dropped(runs[|runs| - 1], blank) {
      forall i ensures !DroppedWithStyle(runs, blank, i) {
      }
    } else if runs[|runs| - 1].style != DEFAULT {
      assert DroppedWithStyle(runs, blank, |runs| - 1);
      TrimDropsMaximalTail(runs[..|runs| - 1], blank);
      assert |Trim(runs, blank)| < |runs|;
    } else {
      var front := runs[..|runs| - 1];
      TrimIsDefaultTrimIff(front, blank);
      SameDroppedRuns(runs, front, blank);
    }
  }

  lemma SameDroppedRuns(runs: seq<Run>, front: seq<Run>, blank: char -> bool)
    requires runs != [] && Dropped(runs[|runs| - 1], blank) && runs[|runs| - 1].style == DEFAULT
    requires front == runs[..|runs| - 1]
    ensures (exists i :: DroppedWithStyle(runs, blank, i)) <==> exists i :: DroppedWithStyle(front, blank, i)
  {
    forall i ensures DroppedWithStyle(runs, blank, i) <==> DroppedWithStyle(front, blank, i) {
      if 0 <= i < |front| {
        assert front[i] == runs[i];
        assert forall j :: i <= j < |front| ==> front[j] == runs[j];
        if DroppedWithStyle(front, blank, i) {
          forall j | i <= j < |runs| ensures Dropped(runs[j], blank) {
            if j < |front| { assert Dropped(front[j], blank); }
          }
        }
        if DroppedWithStyle(runs, blank, i) {
          assert forall j :: i <= j < |front| ==> Dropped(runs[j], blank);
        }
      }
    }
  }

  lemma UnderlinedBlanksAreDropped(blank: char -> bool)
    requires blank(' ')
    ensures Trim([Run("  ", DEFAULT.(underline := true))], blank) == []
    ensures TrimDefault([Run("  ", DEFAULT.(underline := true))], blank) != []
  {
    assert [Run("  ", DEFAULT.(underline := true))][..0] == [];
    var t := Trim([Run("  ", DEFAULT.(underline := true))], blank);
  }

  // ---------------------------------------------------------------- the code

  method IsBlank(text: string, blank: char -> bool) returns (b: bool)
    ensures b <==> forall i :: 0 <= i < |text| ==> blank(text[i])
  {
    for k := 0 to |text|
      invariant forall i :: 0 <= i < k ==> blank(text[i])
    {
      if !blank(text[k]) {
        return false;
      }
    }
    return true;
  }

  /** The runs built so far, the open one included. */
  function Built(runs: seq<Run>, text: string, style: Option<Style>): seq<Run> {
    if style.None? then runs else runs + [Run(text, style.value)]
  }

  method PushCell(text: string, ch: char, zeroWidth: string) returns (longer: string)
    ensures longer == text + ([ch] + zeroWidth)
  {
    longer := text + [ch];
    for k := 0 to |zeroWidth|
      invariant longer == text + ([ch] + zeroWidth[..k])
    {
      longer := longer + [zeroWidth[k]];
    }
  }

  lemma ExtendBuilt(runs: seq<Run>, text: string, style: Option<Style>, more: string, next: Style)
    requires style.None? ==> runs == [] && text == []
    ensures Extend(Built(runs, text, style), more, next) ==
      if style == Some(next) then Built(runs, text + more, Some(next))
      else Built(if style.None? then [] else runs + [Run(text, style.value)], more, Some(next))
  {
    if style == Some(next) {
      assert (runs + [Run(text, next)])[..|runs|] == runs;
    }
  }

  /** The body of the coalescing loop for a cell that is not a spacer. */
  method AddCell(runs: seq<Run>, currentText: string, currentStyle: Option<Style>, ch: char, zeroWidth: string, style: Style)
    returns (newRuns: seq<Run>, newText: string)
    requires currentStyle.None? ==> runs == [] && currentText == []
    requires currentStyle.Some? ==> currentText != []
    ensures newText != []
    ensures Built(newRuns, newText, Some(style)) == Extend(Built(runs, currentText, currentStyle), [ch] + zeroWidth, style)
  {
    ExtendBuilt(runs, currentText, currentStyle, [ch] + zeroWidth, style);
    newRuns, newText := runs, currentText;
    if currentStyle.Some? && currentStyle.value != style && currentText != [] {
      newRuns := runs + [Run(currentText, currentStyle.value)];
      newText := [];
    }
    ghost var before := newText;
    newText := PushCell(newText, ch, zeroWidth);
    assert before == [] ==> newText == [ch] + zeroWidth;
  }

  /** What one more column does to the runs. */
  lemma CoalesceColumn(row: seq<Cell>, start: nat, col: nat, line: nat, cursor: Cursor, cursorChar: Option<char>)
    requires start <= col < |row|
    ensures var runs := Coalesce(Glyphs(row, start, col, line, cursor, cursorChar));
      Coalesce(Glyphs(row, start, col + 1, line, cursor, cursorChar)) ==
      if row[col].spacer then runs else Extend(runs, CellText(row[col], col, line, cursor, cursorChar), row[col].style)
  {
    var glyphs := Glyphs(row, start, col, line, cursor, cursorChar);
    if row[col].spacer {
      assert glyphs + [] == glyphs;
    } else {
      CoalesceMore(glyphs, CellText(row[col], col, line, cursor, cursorChar), row[col].style);
    }
  }

  /** One round of the coalescing loop. */
  method AddColumn(row: seq<Cell>, ghost start: nat, col: nat, line: nat, cursor: Cursor, cursorChar: Option<char>,
                   runs: seq<Run>, currentText: string, currentStyle: Option<Style>)
    returns (newRuns: seq<Run>, newText: string, newStyle: Option<Style>)
    requires start <= col < |row|
    requires currentStyle.None? ==> runs == [] && currentText == []
    requires currentStyle.Some? ==> currentText != []
    requires Built(runs, currentText, currentStyle) == Coalesce(Glyphs(row, start, col, line, cursor, cursorChar))
    ensures newStyle.None? ==> newRuns == [] && newText == []
    ensures newStyle.Some? ==> newText != []
    ensures Built(newRuns, newText, newStyle) == Coalesce(Glyphs(row, start, col + 1, line, cursor, cursorChar))
  {
    var cell := row[col];
    CoalesceColumn(row, start, col, line, cursor, cursorChar);
    if cell.spacer {
      return runs, currentText, currentStyle;
    }
    var isCursor := cursor.row == line && cursor.col == col + 1;
    var ch := if isCursor && cursorChar.Some? then cursorChar.value else cell.c;
    newRuns, newText := AddCell(runs, currentText, currentStyle, ch, cell.zeroWidth, cell.style);
    newStyle := Some(cell.style);
  }

  /** The coalescing loop of `extract_styled_line`. */
  method CoalesceRow(row: seq<Cell>, start: nat, end: nat, line: nat, cursor: Cursor, cursorChar: Option<char>)
    returns (runs: seq<Run>)
    requires start >= end || end <= |row|
    ensures runs == Coalesce(Glyphs(row, start, end, line, cursor, cursorChar))
  {
    runs := [];
    var currentText: string := [];
    var currentStyle: Option<Style> := None;
    var col := start;
    while col < end
      invariant start == col || start < col <= end
      invariant currentStyle.None? ==> runs == [] && currentText == []
      invariant currentStyle.Some? ==> currentText != []
      invariant Built(runs, currentText, currentStyle) == Coalesce(Glyphs(row, start, col, line, cursor, cursorChar))
      decreases end - col
    {
      runs, currentText, currentStyle :=
        AddColumn(row, start, col, line, cursor, cursorChar, runs, currentText, currentStyle);
      col := col + 1;
    }
    assert Glyphs(row, start, col, line, cursor, cursorChar) == Glyphs(row, start, end, line, cursor, cursorChar);
    runs := Flush(runs, currentText, currentStyle);
  }

  /** The open run is closed. */
  method Flush(runs: seq<Run>, currentText: string, currentStyle: Option<Style>) returns (all: seq<Run>)
    requires currentStyle.None? <==> currentText == []
    ensures all == Built(runs, currentText, currentStyle)
  {
    all := runs;
    if currentText != [] {
      all := all + [Run(currentText, currentStyle.value)];
    }
  }

  /** `extract_styled_line` */
  method ExtractStyledLine(
    row: seq<Cell>, start: nat, end: nat, line: nat, cursor: Cursor, cursorChar: Option<char>, blank: char -> bool)
    returns (runs: seq<Run>)
    requires start >= end || end <= |row|
    ensures runs == Trim(Coalesce(Glyphs(row, start, end, line, cursor, cursorChar)), blank)
  {
    runs := CoalesceRow(row, start, end, line, cursor, cursorChar);
    while runs != []
      invariant Trim(runs, blank) == Trim(Coalesce(Glyphs(row, start, end, line, cursor, cursorChar)), blank)
      decreases |runs|
    {
      var last := runs[|runs| - 1];
      var isBlank := IsBlank(last.text, blank);
      if !(isBlank && last.style.fg.None? && last.style.bg.None? && !last.style.bold) {
        break;
      }
      runs := runs[..|runs| - 1];
    }
  }
}
