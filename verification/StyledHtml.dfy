/** Styled runs rendered as HTML (crates/codegen/ptyctl/src/styled.rs): a reader of the HTML sees the same text. */
module StyledHtml {
  import opened Common
  import opened StyledRuns

  // ---------------------------------------------------------------- rendering, as functions

  function EscapeChar(c: char): string {
    if c == '&' then "&amp;" else if c == '<' then "&lt;" else if c == '>' then "&gt;" else if c == '"' then "&quot;"
    else [c]
  }

  function Escape(s: string): string {
    if s == [] then [] else EscapeChar(s[0]) + Escape(s[1..])
  }

  function Joined(parts: seq<string>, separator: string): string {
    if parts == [] then [] else if |parts| == 1 then parts[0] else parts[0] + separator + Joined(parts[1..], separator)
  }

  function Classes(style: Style): seq<string> {
    (if style.bold then ["bold"] else []) + (if style.italic then ["italic"] else [])
    + (if style.underline then ["underline"] else []) + (if style.strikeout then ["strikeout"] else [])
    + (if style.dim then ["dim"] else [])
  }

  function Colours(style: Style): seq<string> {
    (if style.fg.Some? then ["color:" + style.fg.value] else [])
    + (if style.bg.Some? then ["background:" + style.bg.value] else [])
  }

  function Tag(inside: string): string {
    "<" + inside + ">"
  }

  /** What stands between `<` and `>` in the opening tag of a run. */
  function SpanTag(style: Style): string {
    "span"
    + (if Classes(style) == [] then [] else " class=\"" + Joined(Classes(style), " ") + "\"")
    + (if Colours(style) == [] then [] else " style=\"" + Joined(Colours(style), ";") + "\"")
  }

  function RenderRun(run: Run): string {
    if Classes(run.style) == [] && Colours(run.style) == [] then Escape(run.text)
    else Tag(SpanTag(run.style)) + (Escape(run.text) + Tag("/span"))
  }

  function RenderRuns(runs: seq<Run>): string {
    if runs == [] then [] else RenderRun(runs[0]) + RenderRuns(runs[1..])
  }

  function RenderLine(runs: seq<Run>): string {
    Tag("div class=\"line\"") + (RenderRuns(runs) + (Tag("/div") + "\n"))
  }

  /** The lines inside `<pre>`. */
  function RenderLines(lines: seq<seq<Run>>): string {
    if lines == [] then [] else RenderLine(lines[0]) + RenderLines(lines[1..])
  }

  // ---------------------------------------------------------------- reading HTML

  /** The text a reader sees: tags are skipped, the four entities stand for their characters. */
  function Read(html: string, inTag: bool): string {
    if html == [] then []
    else if inTag then Read(html[1..], html[0] != '>')
    else if html[0] == '<' then Read(html[1..], true)
    else if html[0] != '&' then [html[0]] + Read(html[1..], false)
    else if "&amp;" <= html then "&" + Read(html[5..], false)
    else if "&lt;" <= html then "<" + Read(html[4..], false)
    else if "&gt;" <= html then ">" + Read(html[4..], false)
    else if "&quot;" <= html then "\"" + Read(html[6..], false)
    else [html[0]] + Read(html[1..], false)
  }

  function TextOf(runs: seq<Run>): string {
    if runs == [] then [] else runs[0].text + TextOf(runs[1..])
  }

  function TextOfLines(lines: seq<seq<Run>>): string {
    if lines == [] then [] else TextOf(lines[0]) + "\n" + TextOfLines(lines[1..])
  }

  /** Colour texts are of the form `#rrggbb`; all that matters is that they do not close a tag. */
  predicate PlainColours(style: Style) {
    (style.fg.Some? ==> '>' !in style.fg.value) && (style.bg.Some? ==> '>' !in style.bg.value)
  }

  lemma ReadEscapedChar(c: char, rest: string)
    ensures Read(EscapeChar(c) + rest, false) == [c] + Read(rest, false)
  {
    var code := EscapeChar(c);
    var html := code + rest;
    assert html[|code|..] == rest;
    assert code <= html;
    assert |code| > 1 ==> html[1] == code[1];
  }

  lemma Assoc(a: string, b: string, c: string)
    ensures a + b + c == a + (b + c)
  {
  }

  lemma EscapeNext(text: string, rest: string)
    requires text != []
    ensures Escape(text) + rest == EscapeChar(text[0]) + (Escape(text[1..]) + rest)
  {
    Assoc(EscapeChar(text[0]), Escape(text[1..]), rest);
  }

  /** Escaped text is read as the text, whatever follows it. */
  lemma {:induction false} ReadEscaped(text: string, rest: string)
    ensures Read(Escape(text) + rest, false) == text + Read(rest, false)
    decreases |text|
  {
    if text == [] {
      assert Escape(text) + rest == rest;
      assert text + Read(rest, false) == Read(rest, false);
    } else {
      EscapeNext(text, rest);
      ReadEscapedChar(text[0], Escape(text[1..]) + rest);
      ReadEscaped(text[1..], rest);
      Assoc([text[0]], text[1..], Read(rest, false));
      assert text == [text[0]] + text[1..];
    }
  }

  lemma {:induction false} ReadInTag(inside: string, rest: string)
    requires '>' !in inside
    ensures Read(inside + ">" + rest, true) == Read(rest, false)
    decreases |inside|
  {
    var html := inside + ">" + rest;
    if inside == [] {
      assert html[1..] == rest;
    } else {
      assert html[0] == inside[0] && html[1..] == inside[1..] + ">" + rest;
      ReadInTag(inside[1..], rest);
    }
  }

  lemma ReadTag(inside: string, rest: string)
    requires '>' !in inside
    ensures Read(Tag(inside) + rest, false) == Read(rest, false)
  {
    assert (Tag(inside) + rest)[1..] == inside + ">" + rest;
    ReadInTag(inside, rest);
  }

  lemma {:induction false} JoinedDoesNotClose(parts: seq<string>, separator: string)
    requires '>' !in separator && forall i :: 0 <= i < |parts| ==> '>' !in parts[i]
    ensures '>' !in Joined(parts, separator)
  {
    if |parts| > 1 { JoinedDoesNotClose(parts[1..], separator); }
  }

  lemma SpanTagDoesNotClose(style: Style)
    requires PlainColours(style)
    ensures '>' !in SpanTag(style)
  {
    JoinedDoesNotClose(Classes(style), " ");
    JoinedDoesNotClose(Colours(style), ";");
  }

  lemma RunIsRead(run: Run, rest: string)
    requires PlainColours(run.style)
    ensures Read(RenderRun(run) + rest, false) == run.text + Read(rest, false)
  {
    var open, text, close := Tag(SpanTag(run.style)), Escape(run.text), Tag("/span");
    if Classes(run.style) == [] && Colours(run.style) == [] {
      ReadEscaped(run.text, rest);
    } else {
      SpanTagDoesNotClose(run.style);
      Assoc(open, text + close, rest);
      Assoc(text, close, rest);
      ReadTag(SpanTag(run.style), text + (close + rest));
      ReadEscaped(run.text, close + rest);
      ReadTag("/span", rest);
    }
  }

  lemma {:induction false} RunsAreRead(runs: seq<Run>, rest: string)
    requires forall i :: 0 <= i < |runs| ==> PlainColours(runs[i].style)
    ensures Read(RenderRuns(runs) + rest, false) == TextOf(runs) + Read(rest, false)
    decreases |runs|
  {
    if runs == [] {
      assert RenderRuns(runs) + rest == rest;
    } else {
      Assoc(RenderRun(runs[0]), RenderRuns(runs[1..]), rest);
      RunIsRead(runs[0], RenderRuns(runs[1..]) + rest);
      RunsAreRead(runs[1..], rest);
      Assoc(runs[0].text, TextOf(runs[1..]), Read(rest, false));
    }
  }

  lemma LineParts(runs: seq<Run>, rest: string)
    ensures RenderLine(runs) + rest ==
            Tag("div class=\"line\"") + (RenderRuns(runs) + (Tag("/div") + ("\n" + rest)))
  {
    var open, text, close := Tag("div class=\"line\""), RenderRuns(runs), Tag("/div");
    Assoc(open, text + (close + "\n"), rest);
    Assoc(text, close + "\n", rest);
    Assoc(close, "\n", rest);
  }

  lemma LineIsRead(runs: seq<Run>, rest: string)
    requires forall i :: 0 <= i < |runs| ==> PlainColours(runs[i].style)
    ensures Read(RenderLine(runs) + rest, false) == TextOf(runs) + ("\n" + Read(rest, false))
  {
    var end := Tag("/div") + ("\n" + rest);
    LineParts(runs, rest);
    ReadTag("div class=\"line\"", RenderRuns(runs) + end);
    RunsAreRead(runs, end);
    ReadTag("/div", "\n" + rest);
    ReadEscapedChar('\n', rest);
  }

  /** Whatever the runs hold, markup characters included, the rendered page shows exactly their text. */
  lemma {:induction false} PageShowsText(lines: seq<seq<Run>>)
    requires forall i, j :: 0 <= i < |lines| && 0 <= j < |lines[i]| ==> PlainColours(lines[i][j].style)
    ensures Read(RenderLines(lines), false) == TextOfLines(lines)
    decreases |lines|
  {
    if lines != [] {
      LineIsRead(lines[0], RenderLines(lines[1..]));
      Assoc(TextOf(lines[0]), "\n", Read(RenderLines(lines[1..]), false));
      assert forall i, j :: 0 <= i < |lines[1..]| && 0 <= j < |lines[1..][i]| ==> lines[1..][i][j] == lines[i + 1][j];
      PageShowsText(lines[1..]);
    }
  }

  // ---------------------------------------------------------------- the code

  /** `html_escape` */
  method HtmlEscape(s: string) returns (out: string)
    ensures out == Escape(s)
  {
    out := [];
    assert s[0..] == s;
    for k := 0 to |s|
      invariant out + Escape(s[k..]) == Escape(s)
    {
      assert s[k..][1..] == s[k + 1..];
      assert out + (EscapeChar(s[k]) + Escape(s[k + 1..])) == out + EscapeChar(s[k]) + Escape(s[k + 1..]);
      match s[k] {
        case '&' => out := out + "&amp;";
        case '<' => out := out + "&lt;";
        case '>' => out := out + "&gt;";
        case '"' => out := out + "&quot;";
        case _ => out := out + [s[k]];
      }
    }
  }

  method ClassList(style: Style) returns (classes: seq<string>)
    ensures classes == Classes(style)
  {
    classes := [];
    if style.bold { classes := classes + ["bold"]; }
    if style.italic { classes := classes + ["italic"]; }
    if style.underline { classes := classes + ["underline"]; }
    if style.strikeout { classes := classes + ["strikeout"]; }
    if style.dim { classes := classes + ["dim"]; }
  }

  method StyleList(style: Style) returns (styles: seq<string>)
    ensures styles == Colours(style)
  {
    styles := [];
    if style.fg.Some? { styles := styles + ["color:" + style.fg.value]; }
    if style.bg.Some? { styles := styles + ["background:" + style.bg.value]; }
  }

  method RenderOne(run: Run) returns (html: string)
    ensures html == RenderRun(run)
  {
    var classes := ClassList(run.style);
    var styles := StyleList(run.style);
    var text := HtmlEscape(run.text);
    if classes == [] && styles == [] {
      return text;
    }
    var inside := "span";
    if classes != [] { inside := inside + (" class=\"" + Joined(classes, " ") + "\""); }
    if styles != [] { inside := inside + (" style=\"" + Joined(styles, ";") + "\""); }
    html := Tag(inside) + (text + Tag("/span"));
  }

  method RenderOneLine(runs: seq<Run>) returns (html: string)
    ensures html == RenderLine(runs)
  {
    var body: string := [];
    assert runs[0..] == runs;
    for k := 0 to |runs|
      invariant body + RenderRuns(runs[k..]) == RenderRuns(runs)
    {
      assert runs[k..][1..] == runs[k + 1..];
      var one := RenderOne(runs[k]);
      Assoc(body, one, RenderRuns(runs[k + 1..]));
      body := body + one;
    }
    html := Tag("div class=\"line\"") + (body + (Tag("/div") + "\n"));
  }

  /** The loops of `render_html`. */
  method RenderBody(lines: seq<seq<Run>>) returns (html: string)
    ensures html == RenderLines(lines)
  {
    html := [];
    assert lines[0..] == lines;
    for k := 0 to |lines|
      invariant html + RenderLines(lines[k..]) == RenderLines(lines)
    {
      assert lines[k..][1..] == lines[k + 1..];
      var line := RenderOneLine(lines[k]);
      Assoc(html, line, RenderLines(lines[k + 1..]));
      html := html + line;
    }
  }
}
