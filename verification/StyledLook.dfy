/**
 How rendered lines look to a reader (crates/codegen/ptyctl/src/styled.rs): every character with the classes and
 colours of the span it stands in, and which character stands under the cursor.
 */
module StyledLook {
  import opened Common
  import opened StyledRuns
  import opened StyledHtml

  // ---------------------------------------------------------------- reading a tag

  /** The text up to the first occurrence of `stop`, or all of it. */
  function UpTo(s: string, stop: char): (r: string)
    ensures r <= s
  {
    if s == [] || s[0] == stop then [] else [s[0]] + UpTo(s[1..], stop)
  }

  /** The parts of a text between occurrences of `separator`. */
  function Split(s: string, separator: char): seq<string>
    decreases |s|
  {
    var first := UpTo(s, separator);
    if |first| == |s| then [first] else [first] + Split(s[|first| + 1..], separator)
  }

  /** The value of an attribute at the start of `s`, written as ` name="value"`; None without it. */
  function Attribute(s: string, name: string): Option<string> {
    var open := " " + name + "=\"";
    if open <= s then Some(UpTo(s[|open|..], '"')) else None
  }

  /** What follows the attribute. */
  function Behind(s: string, name: string): string {
    var n := |name| + 3;
    match Attribute(s, name)
    case None => s
    case Some(value) => if n + |value| + 1 <= |s| then s[n + |value| + 1..] else []
  }

  /** The value of the declaration with this property, written as `property:value`. */
  function Declared(declarations: seq<string>, property: string): Option<string> {
    if declarations == [] then None
    else if property + ":" <= declarations[0] then Some(declarations[0][|property| + 1..])
    else Declared(declarations[1..], property)
  }

  /** The look that the text behind an opening `span` tag describes. */
  function LookOf(attributes: string): Style {
    var classes := match Attribute(attributes, "class") case None => [] case Some(v) => Split(v, ' ');
    var declarations := match Attribute(Behind(attributes, "class"), "style") case None => [] case Some(v) => Split(v, ';');
    Style(Declared(declarations, "color"), Declared(declarations, "background"),
          "bold" in classes, "italic" in classes, "underline" in classes, "strikeout" in classes, "dim" in classes, false)
  }

  /** The look inside a tag's element, given the look outside it. */
  function TagLook(inside: string, look: Style): Style {
    if "span" <= inside then LookOf(inside[4..]) else if inside == "/span" then DEFAULT else look
  }

  // ---------------------------------------------------------------- a rendered tag describes its style

  lemma {:induction false} UpToStops(value: string, stop: char, rest: string)
    requires stop !in value
    ensures UpTo(value + [stop] + rest, stop) == value && UpTo(value, stop) == value
  {
    var s := value + [stop] + rest;
    if value != [] {
      assert s[0] == value[0] && s[1..] == value[1..] + [stop] + rest;
      UpToStops(value[1..], stop, rest);
      assert value == [value[0]] + value[1..];
    }
  }

  lemma {:induction false} SplitJoined(parts: seq<string>, separator: char)
    requires parts != [] && forall i :: 0 <= i < |parts| ==> separator !in parts[i]
    ensures Split(Joined(parts, [separator]), separator) == parts
    decreases |parts|
  {
    var s := Joined(parts, [separator]);
    if |parts| == 1 {
      UpToStops(parts[0], separator, []);
    } else {
      var rest := Joined(parts[1..], [separator]);
      UpToStops(parts[0], separator, rest);
      assert s == parts[0] + [separator] + rest;
      assert s[|parts[0]| + 1..] == rest;
      SplitJoined(parts[1..], separator);
    }
  }

  function Written(name: string, value: string): string {
    " " + name + "=\"" + value + "\""
  }

  lemma AttributeIsRead(name: string, value: string, rest: string)
    requires '"' !in value
    ensures Attribute(Written(name, value) + rest, name) == Some(value)
    ensures Behind(Written(name, value) + rest, name) == rest
  {
    var open, s := " " + name + "=\"", Written(name, value) + rest;
    assert s == open + (value + ['"'] + rest);
    assert open <= s && s[|open|..] == value + ['"'] + rest;
    UpToStops(value, '"', rest);
    assert s[|open| + |value| + 1..] == rest;
  }

  /** Colour texts are of the form `#rrggbb`; all that matters is that they end no tag, attribute or declaration. */
  predicate CssColours(style: Style) {
    && (style.fg.Some? ==> '>' !in style.fg.value && '"' !in style.fg.value && ';' !in style.fg.value)
    && (style.bg.Some? ==> '>' !in style.bg.value && '"' !in style.bg.value && ';' !in style.bg.value)
  }

  lemma {:induction false} JoinedHasNo(parts: seq<string>, separator: char, c: char)
    requires c != separator && forall i :: 0 <= i < |parts| ==> c !in parts[i]
    ensures c !in Joined(parts, [separator])
  {
    if |parts| > 1 { JoinedHasNo(parts[1..], separator, c); }
  }

  /** A class name holds neither a space nor a quote. */
  lemma ClassesAreWords(style: Style)
    ensures forall i :: 0 <= i < |Classes(style)| ==> ' ' !in Classes(style)[i] && '"' !in Classes(style)[i]
  {
  }

  lemma ClassesTell(style: Style)
    ensures "bold" in Classes(style) <==> style.bold
    ensures "italic" in Classes(style) <==> style.italic
    ensures "underline" in Classes(style) <==> style.underline
    ensures "strikeout" in Classes(style) <==> style.strikeout
    ensures "dim" in Classes(style) <==> style.dim
  {
  }

  lemma ColoursAreDeclarations(style: Style)
    requires CssColours(style)
    ensures forall i :: 0 <= i < |Colours(style)| ==> ';' !in Colours(style)[i] && '"' !in Colours(style)[i]
    ensures Declared(Colours(style), "color") == style.fg && Declared(Colours(style), "background") == style.bg
  {
    var colours := Colours(style);
    if style.fg.Some? {
      var d := "color:" + style.fg.value;
      assert colours[0] == d && "color" + ":" <= d && d[6..] == style.fg.value;
      assert d[0] == 'c';
    }
    if style.bg.Some? {
      var d := "background:" + style.bg.value;
      assert colours[|colours| - 1] == d && "background" + ":" <= d && d[11..] == style.bg.value;
      assert d[0] == 'b';
    }
  }

  /** The two attributes of a rendered tag. */
  function ClassPart(style: Style): string {
    if Classes(style) == [] then [] else Written("class", Joined(Classes(style), " "))
  }

  function StylePart(style: Style): string {
    if Colours(style) == [] then [] else Written("style", Joined(Colours(style), ";"))
  }

  lemma SpanTagParts(style: Style)
    ensures SpanTag(style) == "span" + (ClassPart(style) + StylePart(style))
  {
    assert " " + "class" + "=\"" == " class=\"" && " " + "style" + "=\"" == " style=\"";
  }

  lemma ClassPartIsRead(style: Style)
    ensures var s := ClassPart(style) + StylePart(style);
      && Attribute(s, "class") == (if Classes(style) == [] then None else Some(Joined(Classes(style), " ")))
      && Behind(s, "class") == StylePart(style)
  {
    ClassesAreWords(style);
    var classes, rest := Classes(style), StylePart(style);
    if classes == [] {
      assert ClassPart(style) + rest == rest;
      if rest != [] { assert rest[1] == 's'; }
      assert (" " + "class" + "=\"")[1] == 'c';
    } else {
      JoinedHasNo(classes, ' ', '"');
      AttributeIsRead("class", Joined(classes, " "), rest);
    }
  }

  lemma StylePartIsRead(style: Style)
    requires CssColours(style)
    ensures Attribute(StylePart(style), "style") ==
            if Colours(style) == [] then None else Some(Joined(Colours(style), ";"))
  {
    ColoursAreDeclarations(style);
    if Colours(style) != [] {
      JoinedHasNo(Colours(style), ';', '"');
      AttributeIsRead("style", Joined(Colours(style), ";"), []);
      assert StylePart(style) + [] == StylePart(style);
    }
  }

  /** What a reader makes of the tag of a run is its style, up to inverse video, which the page does not show. */
  lemma TagTellsStyle(style: Style)
    requires CssColours(style)
    ensures LookOf(ClassPart(style) + StylePart(style)) == style.(inverse := false)
  {
    ClassPartIsRead(style);
    StylePartIsRead(style);
    ClassesTell(style);
    ClassesAreWords(style);
    ColoursAreDeclarations(style);
    if Classes(style) != [] { SplitJoined(Classes(style), ' '); }
    if Colours(style) != [] { SplitJoined(Colours(style), ';'); }
  }

  // ---------------------------------------------------------------- reading the page

  /** Each character a reader sees, with its look: tags change the look, entities stand for their characters. */
  function ReadPage(html: string, look: Style): seq<Glyph>
    decreases |html|
  {
    if html == [] then []
    else if html[0] == '<' then
      var inside := UpTo(html[1..], '>');
      if |inside| + 2 > |html| then [] else ReadPage(html[|inside| + 2..], TagLook(inside, look))
    else if html[0] != '&' then [Glyph(html[0], look)] + ReadPage(html[1..], look)
    else if "&amp;" <= html then [Glyph('&', look)] + ReadPage(html[5..], look)
    else if "&lt;" <= html then [Glyph('<', look)] + ReadPage(html[4..], look)
    else if "&gt;" <= html then [Glyph('>', look)] + ReadPage(html[4..], look)
    else if "&quot;" <= html then [Glyph('"', look)] + ReadPage(html[6..], look)
    else [Glyph(html[0], look)] + ReadPage(html[1..], look)
  }

  lemma PageChar(c: char, rest: string, look: Style)
    ensures ReadPage(EscapeChar(c) + rest, look) == [Glyph(c, look)] + ReadPage(rest, look)
  {
    var code := EscapeChar(c);
    var html := code + rest;
    assert html[|code|..] == rest;
    assert code <= html;
    assert |code| > 1 ==> html[1] == code[1];
  }

  lemma SameCons(text: string, look: Style)
    requires text != []
    ensures Same(text, look) == [Glyph(text[0], look)] + Same(text[1..], look)
  {
  }

  lemma GlyphsAssoc(a: seq<Glyph>, b: seq<Glyph>, c: seq<Glyph>)
    ensures a + b + c == a + (b + c)
  {
  }

  lemma {:induction false} PageText(text: string, rest: string, look: Style)
    ensures ReadPage(Escape(text) + rest, look) == Same(text, look) + ReadPage(rest, look)
    decreases |text|
  {
    if text == [] {
      assert Escape(text) + rest == rest;
    } else {
      EscapeNext(text, rest);
      PageChar(text[0], Escape(text[1..]) + rest, look);
      PageText(text[1..], rest, look);
      SameCons(text, look);
      GlyphsAssoc([Glyph(text[0], look)], Same(text[1..], look), ReadPage(rest, look));
    }
  }

  lemma PageTag(inside: string, rest: string, look: Style)
    requires '>' !in inside
    ensures ReadPage(Tag(inside) + rest, look) == ReadPage(rest, TagLook(inside, look))
  {
    var html := Tag(inside) + rest;
    UpToStops(inside, '>', rest);
    assert html[1..] == inside + ['>'] + rest;
    assert html[|inside| + 2..] == rest;
  }

  /** What the page shows of a style. */
  function Shown(style: Style): Style {
    style.(inverse := false)
  }

  lemma CssColoursArePlain(style: Style)
    requires CssColours(style)
    ensures PlainColours(style)
  {
  }

  lemma SpanLook(style: Style, look: Style)
    requires CssColours(style)
    ensures TagLook(SpanTag(style), look) == Shown(style)
  {
    SpanTagParts(style);
    var attributes := ClassPart(style) + StylePart(style);
    assert "span" <= SpanTag(style) && SpanTag(style)[4..] == attributes;
    TagTellsStyle(style);
  }

  lemma OtherTag(inside: string, rest: string, look: Style)
    requires '>' !in inside && inside != [] && inside[0] != 's' && inside[0] != '/'
    ensures ReadPage(Tag(inside) + rest, look) == ReadPage(rest, look)
  {
    PageTag(inside, rest, look);
  }

  lemma SpanCloses(rest: string, look: Style)
    ensures ReadPage(Tag("/span") + rest, look) == ReadPage(rest, DEFAULT)
  {
    PageTag("/span", rest, look);
  }

  lemma SpanOpens(style: Style, rest: string)
    requires CssColours(style)
    ensures ReadPage(Tag(SpanTag(style)) + rest, DEFAULT) == ReadPage(rest, Shown(style))
  {
    CssColoursArePlain(style);
    SpanTagDoesNotClose(style);
    SpanLook(style, DEFAULT);
    PageTag(SpanTag(style), rest, DEFAULT);
  }

  lemma PlainStyle(style: Style)
    requires Classes(style) == [] && Colours(style) == []
    ensures Shown(style) == DEFAULT
  {
  }

  lemma PageRun(run: Run, rest: string)
    requires CssColours(run.style)
    ensures ReadPage(RenderRun(run) + rest, DEFAULT) == Same(run.text, Shown(run.style)) + ReadPage(rest, DEFAULT)
  {
    if Classes(run.style) == [] && Colours(run.style) == [] {
      PlainStyle(run.style);
      PageText(run.text, rest, DEFAULT);
    } else {
      PageSpan(run.text, run.style, Tag("/span"), rest);
    }
  }

  lemma PageSpan(text: string, style: Style, close: string, rest: string)
    requires CssColours(style) && close == Tag("/span")
    ensures ReadPage(Tag(SpanTag(style)) + (Escape(text) + close) + rest, DEFAULT) ==
            Same(text, Shown(style)) + ReadPage(rest, DEFAULT)
  {
    var open, escaped := Tag(SpanTag(style)), Escape(text);
    Assoc(open, escaped + close, rest);
    Assoc(escaped, close, rest);
    SpanOpens(style, escaped + (close + rest));
    PageText(text, close + rest, Shown(style));
    SpanCloses(rest, Shown(style));
  }

  /** The glyphs of runs, as far as the page shows them. */
  function Look(runs: seq<Run>): seq<Glyph> {
    if runs == [] then [] else Same(runs[0].text, Shown(runs[0].style)) + Look(runs[1..])
  }

  lemma {:induction false} PageRuns(runs: seq<Run>, rest: string)
    requires forall i :: 0 <= i < |runs| ==> CssColours(runs[i].style)
    ensures ReadPage(RenderRuns(runs) + rest, DEFAULT) == Look(runs) + ReadPage(rest, DEFAULT)
    decreases |runs|
  {
    if runs == [] {
      assert RenderRuns(runs) + rest == rest;
    } else {
      Assoc(RenderRun(runs[0]), RenderRuns(runs[1..]), rest);
      PageRun(runs[0], RenderRuns(runs[1..]) + rest);
      PageRuns(runs[1..], rest);
      GlyphsAssoc(Same(runs[0].text, Shown(runs[0].style)), Look(runs[1..]), ReadPage(rest, DEFAULT));
    }
  }

  function LookOfLines(lines: seq<seq<Run>>): seq<Glyph> {
    if lines == [] then [] else Look(lines[0]) + ([Glyph('\n', DEFAULT)] + LookOfLines(lines[1..]))
  }

  lemma PageStart(rest: string)
    ensures ReadPage(Tag("div class=\"line\"") + rest, DEFAULT) == ReadPage(rest, DEFAULT)
  {
    var inside := "div class=\"line\"";
    assert inside[0] == 'd';
    OtherTag(inside, rest, DEFAULT);
  }

  lemma PageEnd(rest: string)
    ensures ReadPage(Tag("/div") + ("\n" + rest), DEFAULT) == [Glyph('\n', DEFAULT)] + ReadPage(rest, DEFAULT)
  {
    PageTag("/div", "\n" + rest, DEFAULT);
    PageChar('\n', rest, DEFAULT);
  }

  lemma PageLine(runs: seq<Run>, rest: string)
    requires forall i :: 0 <= i < |runs| ==> CssColours(runs[i].style)
    ensures ReadPage(RenderLine(runs) + rest, DEFAULT) == Look(runs) + ([Glyph('\n', DEFAULT)] + ReadPage(rest, DEFAULT))
  {
    var end := Tag("/div") + ("\n" + rest);
    LineParts(runs, rest);
    PageStart(RenderRuns(runs) + end);
    PageRuns(runs, end);
    PageEnd(rest);
  }

  /** Every character of the page has the look of its run: colours, bold, italic, underline, strikeout and dim. */
  lemma {:induction false} PageShowsLook(lines: seq<seq<Run>>)
    requires forall i, j :: 0 <= i < |lines| && 0 <= j < |lines[i]| ==> CssColours(lines[i][j].style)
    ensures ReadPage(RenderLines(lines), DEFAULT) == LookOfLines(lines)
    decreases |lines|
  {
    if lines != [] {
      PageLine(lines[0], RenderLines(lines[1..]));
      assert forall i, j :: 0 <= i < |lines[1..]| && 0 <= j < |lines[1..][i]| ==> lines[1..][i][j] == lines[i + 1][j];
      PageShowsLook(lines[1..]);
    }
  }

  /** What the page shows is the style itself if and only if the cell is not in inverse video. */
  lemma LookIsStyleIff(style: Style)
    ensures Shown(style) == style <==> !style.inverse
  {
  }

  // ---------------------------------------------------------------- the cursor

  /** The row with this character in the cell under the cursor, if the cursor is in it; columns of cursors count from 1. */
  function UnderCursor(row: seq<Cell>, line: nat, cursor: Cursor, c: char): (r: seq<Cell>)
    ensures |r| == |row|
  {
    if cursor.row == line && 0 < cursor.col <= |row| then row[cursor.col - 1 := row[cursor.col - 1].(c := c)] else row
  }

  lemma CursorInCell(row: seq<Cell>, col: nat, line: nat, cursor: Cursor, c: char)
    requires col < |row|
    ensures CellGlyphs(row[col], col, line, cursor, Some(c)) ==
            CellGlyphs(UnderCursor(row, line, cursor, c)[col], col, line, cursor, None)
  {
  }

  /**
   The cursor character takes the place of the character in exactly the cell under the cursor, with that cell's look
   and zero-width characters; a cursor elsewhere changes nothing.
   */
  lemma {:induction false} CursorReplacesItsCell(
      row: seq<Cell>, start: nat, end: nat, line: nat, cursor: Cursor, c: char)
    requires end <= |row|
    ensures Glyphs(row, start, end, line, cursor, Some(c)) ==
            Glyphs(UnderCursor(row, line, cursor, c), start, end, line, cursor, None)
    decreases end
  {
    if start < end {
      CursorReplacesItsCell(row, start, end - 1, line, cursor, c);
      CursorInCell(row, end - 1, line, cursor, c);
    }
  }

  function PlainCell(cell: Cell): seq<Glyph> {
    if cell.spacer then [] else Same([cell.c] + cell.zeroWidth, cell.style)
  }

  function CellsOf(cells: seq<Cell>): seq<Glyph> {
    if cells == [] then [] else CellsOf(cells[..|cells| - 1]) + PlainCell(cells[|cells| - 1])
  }

  lemma CellsUnfold(cells: seq<Cell>)
    requires cells != []
    ensures CellsOf(cells) == CellsOf(cells[..|cells| - 1]) + PlainCell(cells[|cells| - 1])
  {
  }

  lemma CellsNext(row: seq<Cell>, start: nat, end: nat)
    requires start < end <= |row|
    ensures CellsOf(row[start..end]) == CellsOf(row[start..end - 1]) + PlainCell(row[end - 1])
  {
    var cells := row[start..end];
    assert cells != [] && cells[|cells| - 1] == row[end - 1];
    assert cells[..|cells| - 1] == row[start..end - 1];
    CellsUnfold(cells);
  }

  lemma CellIsPlain(cell: Cell, col: nat, line: nat, cursor: Cursor)
    ensures CellGlyphs(cell, col, line, cursor, None) == PlainCell(cell)
  {
  }

  /** The characters of a row without a cursor: each cell that is no spacer, with its zero-width characters and look. */
  lemma {:induction false} RowShowsItsCells(row: seq<Cell>, start: nat, end: nat, line: nat, cursor: Cursor)
    requires start <= end <= |row|
    ensures Glyphs(row, start, end, line, cursor, None) == CellsOf(row[start..end])
    decreases end
  {
    if start < end {
      RowShowsItsCells(row, start, end - 1, line, cursor);
      CellsNext(row, start, end);
      CellIsPlain(row[end - 1], end - 1, line, cursor);
    }
  }
}
