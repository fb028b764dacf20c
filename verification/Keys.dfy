/** The key notation of ptyctl (crates/codegen/ptyctl/src/keys.rs): `hello<CR>`, `<C-c>`, `<lt>`. */
module Keys {
  import opened Common

  datatype Modifier = Ctrl | Alt | Shift

  datatype KeyCode =
    | Enter | Esc | Backspace | Tab | Up | Down | Left | Right | Home | End | PageUp | PageDown | Insert | Delete
    | F(n: nat) | Char(c: char)

  datatype KeyEvent = KeyEvent(code: KeyCode, modifiers: set<Modifier>)

  // ---------------------------------------------------------------- characters

  predicate IsAscii(c: char) {
    c as int < 128
  }

  predicate AllAscii(s: string) {
    forall i :: 0 <= i < |s| ==> IsAscii(s[i])
  }

  predicate IsUpper(c: char) {
    'A' <= c <= 'Z'
  }

  predicate IsLower(c: char) {
    'a' <= c <= 'z'
  }

  predicate NoUpper(s: string) {
    forall i :: 0 <= i < |s| ==> !IsUpper(s[i])
  }

  function LowerChar(c: char): char {
    if IsUpper(c) then (c as int + 32) as char else c
  }

  function UpperChar(c: char): char {
    if IsLower(c) then (c as int - 32) as char else c
  }

  function Lower(s: string): string {
    seq(|s|, i requires 0 <= i < |s| => LowerChar(s[i]))
  }

  /** What is assumed of Unicode lower-casing: ASCII text is lowered letter by letter, and no A to Z is left. */
  ghost predicate Folds(fold: string -> string) {
    && (forall s :: AllAscii(s) ==> fold(s) == Lower(s))
    && (forall s :: NoUpper(fold(s)))
  }

  /** The number of bytes of a character in UTF-8 (section 3 of RFC 3629). */
  function Utf8Len(c: char): (n: nat)
    ensures 1 <= n <= 4
    ensures n == 1 <==> IsAscii(c)
  {
    var u := c as int;
    if u < 0x80 then 1 else if u < 0x800 then 2 else if u < 0x10000 then 3 else 4
  }

  function ByteLen(s: string): (n: nat)
    ensures n >= |s|
  {
    if s == [] then 0 else Utf8Len(s[0]) + ByteLen(s[1..])
  }

  // ---------------------------------------------------------------- one key

  /** The modifier prefix a lower-case text starts with. */
  function PrefixOf(s: string): Option<Modifier> {
    if |s| < 2 || s[1] != '-' then None
    else if s[0] == 'c' then Some(Ctrl)
    else if s[0] == 'm' || s[0] == 'a' then Some(Alt)
    else if s[0] == 's' then Some(Shift)
    else None
  }

  datatype Stripped = Stripped(modifiers: set<Modifier>, rest: string)

  function Strip(s: string, modifiers: set<Modifier>): (r: Stripped)
    ensures PrefixOf(r.rest).None?
    decreases |s|
  {
    match PrefixOf(s)
    case None => Stripped(modifiers, s)
    case Some(m) => Strip(s[2..], modifiers + {m})
  }

  /** The names of keys; a name is lower-case letters and digits. */
  function NamedKey(s: string): Option<KeyCode> {
    if s == "cr" || s == "enter" || s == "return" then Some(Enter)
    else if s == "esc" || s == "escape" then Some(Esc)
    else if s == "bs" || s == "backspace" then Some(Backspace)
    else if s == "tab" then Some(Tab)
    else if s == "space" || s == "spc" then Some(Char(' '))
    else if s == "up" then Some(Up)
    else if s == "down" then Some(Down)
    else if s == "left" then Some(Left)
    else if s == "right" then Some(Right)
    else if s == "home" then Some(Home)
    else if s == "end" then Some(End)
    else if s == "pageup" || s == "pgup" then Some(PageUp)
    else if s == "pagedown" || s == "pgdn" then Some(PageDown)
    else if s == "insert" || s == "ins" then Some(Insert)
    else if s == "delete" || s == "del" then Some(Delete)
    else if s == "f1" then Some(F(1))
    else if s == "f2" then Some(F(2))
    else if s == "f3" then Some(F(3))
    else if s == "f4" then Some(F(4))
    else if s == "f5" then Some(F(5))
    else if s == "f6" then Some(F(6))
    else if s == "f7" then Some(F(7))
    else if s == "f8" then Some(F(8))
    else if s == "f9" then Some(F(9))
    else if s == "f10" then Some(F(10))
    else if s == "f11" then Some(F(11))
    else if s == "f12" then Some(F(12))
    else if s == "lt" then Some(Char('<'))
    else if s == "gt" then Some(Char('>'))
    else if s == "bar" then Some(Char('|'))
    else if s == "bslash" then Some(Char('\\'))
    else None
  }

  /** The key that the text after the modifiers stands for. */
  function BaseKey(rest: string, modifiers: set<Modifier>): Result<KeyEvent> {
    match NamedKey(rest)
    case Some(code) => Ok(KeyEvent(code, modifiers))
    case None =>
      if |rest| != 1 || !IsAscii(rest[0]) then Err
      else if modifiers == {Shift} && (IsLower(rest[0]) || IsUpper(rest[0])) then
        Ok(KeyEvent(Char(UpperChar(rest[0])), {}))
      else Ok(KeyEvent(Char(rest[0]), modifiers))
  }

  /** `parse_special`, as a function. */
  function Special(notation: string, fold: string -> string): Result<KeyEvent> {
    var stripped := Strip(fold(notation), {});
    BaseKey(stripped.rest, stripped.modifiers)
  }

  method ParseSpecial(notation: string, fold: string -> string) returns (r: Result<KeyEvent>)
    ensures r == Special(notation, fold)
  {
    var modifiers: set<Modifier> := {};
    var remaining := fold(notation);
    while true
      invariant Strip(remaining, modifiers) == Strip(fold(notation), {})
      decreases |remaining|
    {
      if |remaining| >= 2 && remaining[0] == 'c' && remaining[1] == '-' {
        modifiers, remaining := modifiers + {Ctrl}, remaining[2..];
      } else if |remaining| >= 2 && (remaining[0] == 'm' || remaining[0] == 'a') && remaining[1] == '-' {
        modifiers, remaining := modifiers + {Alt}, remaining[2..];
      } else if |remaining| >= 2 && remaining[0] == 's' && remaining[1] == '-' {
        modifiers, remaining := modifiers + {Shift}, remaining[2..];
      } else {
        break;
      }
    }
    r := BaseKey(remaining, modifiers);
  }

  // ---------------------------------------------------------------- the whole text

  /** The position of the first `>`, or the length. */
  function FirstClose(s: string): (p: nat)
    ensures p <= |s|
    ensures p < |s| ==> s[p] == '>'
    ensures forall i :: 0 <= i < p ==> s[i] != '>'
  {
    if s == [] then 0 else if s[0] == '>' then 0 else 1 + FirstClose(s[1..])
  }

  /** How many characters the bracket at the start of s takes: its end is a byte offset, used as a count of characters. */
  function Taken(s: string): (n: nat)
    requires FirstClose(s) < |s|
    ensures FirstClose(s) < n <= |s|
  {
    var count := ByteLen(s[..FirstClose(s)]) + 1;
    if count <= |s| then count else |s|
  }

  function Prepend(e: KeyEvent, r: Result<seq<KeyEvent>>): Result<seq<KeyEvent>> {
    match r case Ok(events) => Ok([e] + events) case Err => Err
  }

  /** `parse_to_events`, as a function. */
  function Events(s: string, fold: string -> string): Result<seq<KeyEvent>>
    decreases |s|
  {
    if s == [] then Ok([])
    else if s[0] != '<' || FirstClose(s) == |s| then Prepend(KeyEvent(Char(s[0]), {}), Events(s[1..], fold))
    else
      match Special(s[1..FirstClose(s)], fold)
      case Err => Err
      case Ok(e) => Prepend(e, Events(s[Taken(s)..], fold))
  }

  function After(done: seq<KeyEvent>, r: Result<seq<KeyEvent>>): Result<seq<KeyEvent>> {
    match r case Ok(events) => Ok(done + events) case Err => Err
  }

  lemma AfterNothing(r: Result<seq<KeyEvent>>)
    ensures After([], r) == r
  {
    if r.Ok? { assert [] + r.value == r.value; }
  }

  lemma AfterPrepend(done: seq<KeyEvent>, e: KeyEvent, r: Result<seq<KeyEvent>>)
    ensures After(done, Prepend(e, r)) == After(done + [e], r)
  {
    if r.Ok? { assert done + ([e] + r.value) == done + [e] + r.value; }
  }

  method ParseToEvents(input: string, fold: string -> string) returns (r: Result<seq<KeyEvent>>)
    ensures r == Events(input, fold)
  {
    var events: seq<KeyEvent> := [];
    var chars := 0;
    assert input[0..] == input;
    AfterNothing(Events(input, fold));
    while chars < |input|
      invariant chars <= |input|
      invariant After(events, Events(input[chars..], fold)) == Events(input, fold)
    {
      var startPos := input[chars..];
      assert startPos[1..] == input[chars + 1..];
      assert startPos[0] == input[chars];
      if input[chars] == '<' && FirstClose(startPos) < |startPos| {
        var end := ByteLen(startPos[..FirstClose(startPos)]);
        var notation := startPos[1..FirstClose(startPos)];
        var from := chars;
        for k := 0 to end + 1
          invariant from <= chars <= |input|
          invariant chars - from == if k <= |startPos| then k else |startPos|
        {
          if chars < |input| {
            chars := chars + 1;
          }
        }
        assert startPos[Taken(startPos)..] == input[chars..];
        var event := ParseSpecial(notation, fold);
        if event.Err? {
          return Err;
        }
        AfterPrepend(events, event.value, Events(input[chars..], fold));
        events := events + [event.value];
      } else {
        chars := chars + 1;
        AfterPrepend(events, KeyEvent(Char(input[chars - 1]), {}), Events(input[chars..], fold));
        events := events + [KeyEvent(Char(input[chars - 1]), {})];
      }
    }
    assert events + [] == events;
    r := Ok(events);
  }

  // ---------------------------------------------------------------- literal text

  /** The text with every `<` written as `<lt>`. */
  function Spell(text: string): string {
    if text == [] then [] else (if text[0] == '<' then "<lt>" else [text[0]]) + Spell(text[1..])
  }

  function Typed(text: string): seq<KeyEvent> {
    seq(|text|, i requires 0 <= i < |text| => KeyEvent(Char(text[i]), {}))
  }

  lemma FirstCloseAt(s: string, p: nat)
    requires p < |s| && s[p] == '>' && forall i :: 0 <= i < p ==> s[i] != '>'
    ensures FirstClose(s) == p
  {
  }

  lemma {:induction false} AsciiBytes(s: string)
    ensures ByteLen(s) == |s| <==> AllAscii(s)
  {
    if s != [] {
      AsciiBytes(s[1..]);
      assert forall i :: 0 <= i < |s[1..]| ==> s[1..][i] == s[i + 1];
      assert AllAscii(s) <==> IsAscii(s[0]) && AllAscii(s[1..]) by {
        if IsAscii(s[0]) && AllAscii(s[1..]) {
          forall i | 0 <= i < |s| ensures IsAscii(s[i]) {
            if i > 0 { assert IsAscii(s[1..][i - 1]); }
          }
        }
      }
    }
  }

  /** An ASCII bracket is read as its content says and takes exactly its own characters. */
  lemma BracketEvents(notation: string, rest: string, fold: string -> string)
    requires AllAscii(notation) && '>' !in notation
    ensures var s := "<" + notation + ">" + rest;
      Events(s, fold) == match Special(notation, fold) { case Err => Err case Ok(e) => Prepend(e, Events(rest, fold)) }
  {
    var s := "<" + notation + ">" + rest;
    var p := |notation| + 1;
    assert forall i :: 0 < i < p ==> s[i] == notation[i - 1];
    FirstCloseAt(s, p);
    assert s[1..p] == notation;
    assert s[p + 1..] == rest;
    AsciiBytes(s[..p]);
    assert AllAscii(s[..p]);
    assert Taken(s) == p + 1;
  }

  lemma PlainEvents(c: char, rest: string, fold: string -> string)
    requires c != '<'
    ensures Events([c] + rest, fold) == Prepend(KeyEvent(Char(c), {}), Events(rest, fold))
  {
    assert ([c] + rest)[1..] == rest;
  }

  lemma LtIsLess(fold: string -> string)
    requires Folds(fold)
    ensures Special("lt", fold) == Ok(KeyEvent(Char('<'), {}))
  {
    assert AllAscii("lt");
    assert Lower("lt") == "lt";
  }

  lemma SpelledCharIsTyped(c: char, rest: string, fold: string -> string)
    requires Folds(fold)
    ensures Events((if c == '<' then "<lt>" else [c]) + rest, fold) == Prepend(KeyEvent(Char(c), {}), Events(rest, fold))
  {
    if c == '<' {
      LtIsLess(fold);
      BracketEvents("lt", rest, fold);
      assert "<lt>" + rest == "<" + "lt" + ">" + rest;
    } else {
      PlainEvents(c, rest, fold);
    }
  }

  /** Spelling any text, of any characters, and parsing it gives back its characters as plain key presses. */
  lemma {:induction false} SpelledTextIsTyped(text: string, fold: string -> string)
    requires Folds(fold)
    ensures Events(Spell(text), fold) == Ok(Typed(text))
  {
    if text != [] {
      SpelledTextIsTyped(text[1..], fold);
      SpelledCharIsTyped(text[0], Spell(text[1..]), fold);
      assert Events(Spell(text), fold) == Prepend(KeyEvent(Char(text[0]), {}), Ok(Typed(text[1..])));
      assert Typed(text) == [KeyEvent(Char(text[0]), {})] + Typed(text[1..]);
    }
  }

  // ---------------------------------------------------------------- which keys can be written

  /** The written form of a modifier prefix, in lower case; `Alt` has two. */
  datatype Prefix = CPrefix | MPrefix | APrefix | SPrefix

  function PrefixText(p: Prefix): string {
    match p case CPrefix => "c-" case MPrefix => "m-" case APrefix => "a-" case SPrefix => "s-"
  }

  function Meaning(p: Prefix): Modifier {
    match p case CPrefix => Ctrl case MPrefix => Alt case APrefix => Alt case SPrefix => Shift
  }

  function Join(ps: seq<Prefix>): string {
    if ps == [] then [] else PrefixText(ps[0]) + Join(ps[1..])
  }

  function Meanings(ps: seq<Prefix>): set<Modifier> {
    set p | p in ps :: Meaning(p)
  }

  lemma MeaningsCons(ps: seq<Prefix>)
    requires ps != []
    ensures Meanings(ps) == {Meaning(ps[0])} + Meanings(ps[1..])
  {
    assert ps == [ps[0]] + ps[1..];
  }

  lemma StripOne(p: Prefix, rest: string, modifiers: set<Modifier>)
    ensures Strip(PrefixText(p) + rest, modifiers) == Strip(rest, modifiers + {Meaning(p)})
  {
    var s := PrefixText(p) + rest;
    assert s[0] == PrefixText(p)[0] && s[1] == PrefixText(p)[1] && s[2..] == rest;
  }

  lemma {:induction false} StripJoined(ps: seq<Prefix>, base: string, modifiers: set<Modifier>)
    requires PrefixOf(base).None?
    ensures Strip(Join(ps) + base, modifiers) == Stripped(modifiers + Meanings(ps), base)
    decreases |ps|
  {
    if ps == [] {
      assert Join(ps) + base == base;
      assert modifiers + Meanings(ps) == modifiers;
    } else {
      var p := ps[0];
      assert Join(ps) + base == PrefixText(p) + (Join(ps[1..]) + base);
      StripOne(p, Join(ps[1..]) + base, modifiers);
      StripJoined(ps[1..], base, modifiers + {Meaning(p)});
      MeaningsCons(ps);
      assert modifiers + Meanings(ps) == modifiers + {Meaning(p)} + Meanings(ps[1..]);
    }
  }

  /** Only the set of modifiers counts: order, repetition, letter case and M or A make no difference. */
  lemma PrefixOrderIsIrrelevant(n1: string, n2: string, ps: seq<Prefix>, qs: seq<Prefix>, base: string, fold: string -> string)
    requires Folds(fold) && AllAscii(n1) && AllAscii(n2)
    requires Lower(n1) == Join(ps) + base && Lower(n2) == Join(qs) + base && PrefixOf(base).None?
    requires Meanings(ps) == Meanings(qs)
    ensures Special(n1, fold) == Special(n2, fold)
  {
    StripJoined(ps, base, {});
    StripJoined(qs, base, {});
  }

  /** The key presses that bracket notation can express. */
  predicate Supported(e: KeyEvent) {
    match e.code
    case F(n) => 1 <= n <= 12
    case Char(c) => IsAscii(c) && (IsUpper(c) ==> e.modifiers == {}) && (IsLower(c) ==> e.modifiers != {Shift})
    case _ => true
  }

  // ---------------------------------------------------------------- the names of keys

  function Decimal(n: nat): string {
    if n < 10 then [('0' as int + n) as char] else Decimal(n / 10) + [('0' as int + n % 10) as char]
  }

  /** The names that the notation has for each key. */
  function NamesOf(code: KeyCode): set<string> {
    match code
    case Enter => {"cr", "enter", "return"}
    case Esc => {"esc", "escape"}
    case Backspace => {"bs", "backspace"}
    case Tab => {"tab"}
    case Up => {"up"} case Down => {"down"} case Left => {"left"} case Right => {"right"}
    case Home => {"home"} case End => {"end"}
    case PageUp => {"pageup", "pgup"}
    case PageDown => {"pagedown", "pgdn"}
    case Insert => {"insert", "ins"}
    case Delete => {"delete", "del"}
    case F(n) => if 1 <= n <= 12 then {"f" + Decimal(n)} else {}
    case Char(c) => NamesOfChar(c)
  }

  function NamesOfChar(c: char): set<string> {
    if c == ' ' then {"space", "spc"}
    else if c == '<' then {"lt"}
    else if c == '>' then {"gt"}
    else if c == '|' then {"bar"}
    else if c == '\\' then {"bslash"}
    else {}
  }

  lemma FunctionKeyNames()
    ensures "f" + Decimal(1) == "f1" && "f" + Decimal(2) == "f2" && "f" + Decimal(3) == "f3" && "f" + Decimal(4) == "f4"
    ensures "f" + Decimal(5) == "f5" && "f" + Decimal(6) == "f6" && "f" + Decimal(7) == "f7" && "f" + Decimal(8) == "f8"
    ensures "f" + Decimal(9) == "f9" && "f" + Decimal(10) == "f10"
    ensures "f" + Decimal(11) == "f11" && "f" + Decimal(12) == "f12"
  {
  }

  lemma NamedFunctionKey(s: string)
    requires NamedKey(s).Some? && NamedKey(s).value.F?
    ensures s in NamesOf(NamedKey(s).value)
  {
    FunctionKeyNames();
  }

  lemma NamedCharacter(s: string)
    requires NamedKey(s).Some? && NamedKey(s).value.Char?
    ensures s in NamesOf(NamedKey(s).value)
  {
  }

  predicate IsMove(code: KeyCode) {
    code.Up? || code.Down? || code.Left? || code.Right? || code.Home? || code.End? || code.PageUp? || code.PageDown?
  }

  lemma NamedMove(s: string)
    requires NamedKey(s).Some? && IsMove(NamedKey(s).value)
    ensures s in NamesOf(NamedKey(s).value)
  {
  }

  lemma NamedOtherKey(s: string)
    requires NamedKey(s).Some?
    requires var code := NamedKey(s).value; !code.F? && !code.Char? && !IsMove(code)
    ensures s in NamesOf(NamedKey(s).value)
  {
  }

  lemma ShortFunctionKey(s: string)
    requires |s| == 2 && s[0] == 'f' && '1' <= s[1] <= '9'
    ensures NamedKey(s) == Some(F(s[1] as int - '0' as int))
  {
  }

  lemma LongFunctionKey(s: string)
    requires |s| == 3 && s[0] == 'f' && s[1] == '1' && '0' <= s[2] <= '2'
    ensures NamedKey(s) == Some(F(10 + s[2] as int - '0' as int))
  {
  }

  lemma FunctionKeyIsNamed(n: nat)
    requires 1 <= n <= 12
    ensures NamedKey("f" + Decimal(n)) == Some(F(n))
  {
    if n < 10 { ShortFunctionKey("f" + Decimal(n)); } else { LongFunctionKey("f" + Decimal(n)); }
  }

  lemma EditingKeyIsNamed(s: string, code: KeyCode)
    requires s in NamesOf(code) && (code.Enter? || code.Esc? || code.Backspace? || code.Tab? || code.Insert? || code.Delete?)
    ensures NamedKey(s) == Some(code)
  {
  }

  lemma MovingKeyIsNamed(s: string, code: KeyCode)
    requires s in NamesOf(code) && (code.Up? || code.Down? || code.Left? || code.Right? || code.Home? || code.End?)
    ensures NamedKey(s) == Some(code)
  {
  }

  lemma PagingKeyIsNamed(s: string, code: KeyCode)
    requires s in NamesOf(code) && (code.PageUp? || code.PageDown?)
    ensures NamedKey(s) == Some(code)
  {
  }

  lemma SpaceIsNamed(s: string)
    requires s in NamesOfChar(' ')
    ensures NamedKey(s) == Some(Char(' '))
  {
  }

  lemma AngleIsNamed(s: string, c: char)
    requires s in NamesOfChar(c) && (c == '<' || c == '>')
    ensures NamedKey(s) == Some(Char(c))
  {
  }

  lemma BarIsNamed(s: string, c: char)
    requires s in NamesOfChar(c) && c != ' ' && c != '<' && c != '>'
    ensures NamedKey(s) == Some(Char(c))
  {
  }

  lemma TableIsNamed(s: string, code: KeyCode)
    requires s in NamesOf(code)
    ensures NamedKey(s) == Some(code)
  {
    match code
    case F(n) => FunctionKeyIsNamed(n);
    case Char(c) => if c == ' ' { SpaceIsNamed(s); } else if c == '<' || c == '>' { AngleIsNamed(s, c); } else { BarIsNamed(s, c); }
    case PageUp => PagingKeyIsNamed(s, code);
    case PageDown => PagingKeyIsNamed(s, code);
    case Up => MovingKeyIsNamed(s, code);
    case Down => MovingKeyIsNamed(s, code);
    case Left => MovingKeyIsNamed(s, code);
    case Right => MovingKeyIsNamed(s, code);
    case Home => MovingKeyIsNamed(s, code);
    case End => MovingKeyIsNamed(s, code);
    case _ => EditingKeyIsNamed(s, code);
  }

  /** A text is a name of a key if and only if the table has it for that key. */
  lemma NameIsInTable(s: string, code: KeyCode)
    ensures NamedKey(s) == Some(code) <==> s in NamesOf(code)
  {
    if NamedKey(s) == Some(code) {
      if code.F? { NamedFunctionKey(s); } else if code.Char? { NamedCharacter(s); } else if IsMove(code) { NamedMove(s); } else { NamedOtherKey(s); }
    }
    if s in NamesOf(code) { TableIsNamed(s, code); }
  }

  /** A name of each key; an upper-case letter is written as the letter with Shift. */
  function BaseName(code: KeyCode): string {
    match code
    case Enter => "enter" case Esc => "esc" case Backspace => "bs" case Tab => "tab"
    case Up => "up" case Down => "down" case Left => "left" case Right => "right"
    case Home => "home" case End => "end" case PageUp => "pageup" case PageDown => "pagedown"
    case Insert => "insert" case Delete => "delete"
    case F(n) =>
      if n == 1 then "f1" else if n == 2 then "f2" else if n == 3 then "f3" else if n == 4 then "f4"
      else if n == 5 then "f5" else if n == 6 then "f6" else if n == 7 then "f7" else if n == 8 then "f8"
      else if n == 9 then "f9" else if n == 10 then "f10" else if n == 11 then "f11" else "f12"
    case Char(c) => if c == '>' then "gt" else [LowerChar(c)]
  }

  function BaseModifiers(e: KeyEvent): set<Modifier> {
    if e.code.Char? && IsUpper(e.code.c) then {Shift} else e.modifiers
  }

  /** A way to write the key itself: one of its names, or the character. */
  predicate IsBase(base: string, e: KeyEvent) {
    base in NamesOf(e.code) || (e.code.Char? && e.code.c != '>' && base == [LowerChar(e.code.c)])
  }

  lemma NamesAreNoPrefixes(s: string)
    requires NamedKey(s).Some?
    ensures PrefixOf(s).None? && |s| >= 2 && '>' !in s
  {
  }

  lemma ShortTextIsNoName(s: string)
    requires |s| <= 1
    ensures NamedKey(s).None?
  {
  }

  lemma BaseIsRead(base: string, e: KeyEvent)
    requires Supported(e) && IsBase(base, e)
    ensures PrefixOf(base).None? && '>' !in base
    ensures BaseKey(base, BaseModifiers(e)) == Ok(e)
  {
    NameIsInTable(base, e.code);
    if base in NamesOf(e.code) { NamesAreNoPrefixes(base); } else { ShortTextIsNoName(base); }
  }

  lemma BaseNameIsBase(code: KeyCode, modifiers: set<Modifier>)
    requires Supported(KeyEvent(code, modifiers))
    ensures IsBase(BaseName(code), KeyEvent(code, modifiers))
  {
    FunctionKeyNames();
  }

  /** A text of two or more characters that starts with no modifier is read as a key if and only if the table has it. */
  lemma LongTextIsKeyIff(notation: string, fold: string -> string)
    requires Folds(fold) && AllAscii(notation) && |notation| >= 2 && PrefixOf(Lower(notation)).None?
    ensures Special(notation, fold).Ok? <==> exists code :: Lower(notation) in NamesOf(code)
    ensures forall code :: Lower(notation) in NamesOf(code) ==> Special(notation, fold) == Ok(KeyEvent(code, {}))
  {
    var s := Lower(notation);
    assert Strip(s, {}) == Stripped({}, s);
    forall code ensures NamedKey(s) == Some(code) <==> s in NamesOf(code) {
      NameIsInTable(s, code);
    }
  }

  lemma NamedKeysAreSupported(s: string, modifiers: set<Modifier>)
    requires NamedKey(s).Some?
    ensures Supported(KeyEvent(NamedKey(s).value, modifiers))
  {
  }

  /** A notation that writes e: any name, and any order, repetition and letter case of prefixes that mean its modifiers. */
  predicate Writes(notation: string, ps: seq<Prefix>, base: string, e: KeyEvent) {
    AllAscii(notation) && IsBase(base, e) && Lower(notation) == Join(ps) + base && Meanings(ps) == BaseModifiers(e)
  }

  /** Every way of writing a supported key press is read as that key press. */
  lemma WrittenKeyIsRead(notation: string, ps: seq<Prefix>, base: string, e: KeyEvent, fold: string -> string)
    requires Folds(fold) && Supported(e) && Writes(notation, ps, base, e)
    ensures Special(notation, fold) == Ok(e)
  {
    BaseIsRead(base, e);
    StripJoined(ps, base, {});
    assert {} + Meanings(ps) == Meanings(ps);
  }

  lemma {:induction false} JoinHasNoClose(ps: seq<Prefix>)
    ensures '>' !in Join(ps)
  {
    if ps != [] { JoinHasNoClose(ps[1..]); }
  }

  lemma WrittenHasNoClose(notation: string, ps: seq<Prefix>, base: string, e: KeyEvent)
    requires Supported(e) && Writes(notation, ps, base, e)
    ensures '>' !in notation
  {
    JoinHasNoClose(ps);
    BaseIsRead(base, e);
    assert '>' !in Lower(notation);
    forall i | 0 <= i < |notation| ensures notation[i] != '>' {
      assert Lower(notation)[i] == LowerChar(notation[i]);
    }
  }

  /** A piece of written text: a character standing for itself, or a key press in brackets. */
  datatype Piece = Plain(c: char) | Key(notation: string, prefixes: seq<Prefix>, base: string, press: KeyEvent)

  predicate PieceOk(piece: Piece) {
    match piece
    case Plain(c) => c != '<'
    case Key(notation, ps, base, e) => Supported(e) && Writes(notation, ps, base, e)
  }

  function PieceText(piece: Piece): string {
    match piece
    case Plain(c) => [c]
    case Key(notation, _, _, _) => "<" + notation + ">"
  }

  function Press(piece: Piece): KeyEvent {
    match piece
    case Plain(c) => KeyEvent(Char(c), {})
    case Key(_, _, _, e) => e
  }

  function Written(pieces: seq<Piece>): string {
    if pieces == [] then [] else PieceText(pieces[0]) + Written(pieces[1..])
  }

  function Presses(pieces: seq<Piece>): seq<KeyEvent> {
    seq(|pieces|, i requires 0 <= i < |pieces| => Press(pieces[i]))
  }

  /** Characters and written key presses, in any mixture, are read one by one. */
  lemma {:induction false} WrittenKeysAreRead(pieces: seq<Piece>, fold: string -> string)
    requires Folds(fold) && forall i :: 0 <= i < |pieces| ==> PieceOk(pieces[i])
    ensures Events(Written(pieces), fold) == Ok(Presses(pieces))
  {
    if pieces == [] {
      assert Presses(pieces) == [];
    } else {
      WrittenKeysAreRead(pieces[1..], fold);
      PieceIsRead(pieces[0], Written(pieces[1..]), fold);
      PressesCons(pieces);
      assert Written(pieces) == PieceText(pieces[0]) + Written(pieces[1..]);
    }
  }

  lemma PressesCons(pieces: seq<Piece>)
    requires pieces != []
    ensures Prepend(Press(pieces[0]), Ok(Presses(pieces[1..]))) == Ok(Presses(pieces))
  {
    assert Presses(pieces) == [Press(pieces[0])] + Presses(pieces[1..]);
  }

  lemma PieceIsRead(piece: Piece, rest: string, fold: string -> string)
    requires Folds(fold) && PieceOk(piece)
    ensures Events(PieceText(piece) + rest, fold) == Prepend(Press(piece), Events(rest, fold))
  {
    match piece
    case Plain(c) => PlainEvents(c, rest, fold);
    case Key(notation, ps, base, e) =>
      WrittenHasNoClose(notation, ps, base, e);
      WrittenKeyIsRead(notation, ps, base, e, fold);
      BracketEvents(notation, rest, fold);
  }

  lemma {:induction false} StripLeavesSuffix(s: string, modifiers: set<Modifier>)
    requires NoUpper(s)
    ensures NoUpper(Strip(s, modifiers).rest)
    decreases |s|
  {
    match PrefixOf(s)
    case None =>
    case Some(m) =>
      StripLeavesSuffix(s[2..], modifiers + {m});
      assert Strip(s, modifiers) == Strip(s[2..], modifiers + {m});
  }

  /** Whatever a bracket is read as is a supported key press. */
  lemma ReadKeyIsSupported(notation: string, fold: string -> string)
    requires Folds(fold) && Special(notation, fold).Ok?
    ensures Supported(Special(notation, fold).value)
  {
    StripLeavesSuffix(fold(notation), {});
    var stripped := Strip(fold(notation), {});
    BaseKeyIsSupported(stripped.rest, stripped.modifiers);
  }

  lemma BaseKeyIsSupported(rest: string, modifiers: set<Modifier>)
    requires NoUpper(rest)
    requires BaseKey(rest, modifiers).Ok?
    ensures Supported(BaseKey(rest, modifiers).value)
  {
    if NamedKey(rest).Some? {
      NamedKeysAreSupported(rest, modifiers);
    } else {
      assert |rest| == 1 && !IsUpper(rest[0]);
      assert IsLower(rest[0]) ==> IsUpper(UpperChar(rest[0])) && IsAscii(UpperChar(rest[0]));
    }
  }

  function Prefixes(modifiers: set<Modifier>): seq<Prefix> {
    (if Ctrl in modifiers then [CPrefix] else [])
    + (if Alt in modifiers then [MPrefix] else [])
    + (if Shift in modifiers then [SPrefix] else [])
  }

  lemma PrefixesMean(modifiers: set<Modifier>)
    ensures Meanings(Prefixes(modifiers)) == modifiers
  {
    var ps := Prefixes(modifiers);
    assert Meaning(CPrefix) == Ctrl && Meaning(MPrefix) == Alt && Meaning(SPrefix) == Shift;
    assert Ctrl in modifiers ==> CPrefix in ps;
    assert Alt in modifiers ==> MPrefix in ps;
    assert Shift in modifiers ==> SPrefix in ps;
    forall m | m in modifiers ensures m in Meanings(ps) {
      match m case Ctrl => case Alt => case Shift =>
    }
  }

  lemma {:induction false} JoinIsLower(ps: seq<Prefix>)
    ensures AllAscii(Join(ps)) && Lower(Join(ps)) == Join(ps)
  {
    if ps != [] { JoinIsLower(ps[1..]); }
  }

  /** A key press can be written in brackets exactly when it is supported. */
  lemma CanBeWrittenIff(e: KeyEvent, fold: string -> string)
    requires Folds(fold)
    ensures (exists notation :: '>' !in notation && Special(notation, fold) == Ok(e)) <==> Supported(e)
  {
    if Supported(e) {
      var ps := Prefixes(BaseModifiers(e));
      var notation := Join(ps) + BaseName(e.code);
      PrefixesMean(BaseModifiers(e));
      JoinIsLower(ps);
      BaseNameIsLower(e);
      assert Lower(notation) == Lower(Join(ps)) + Lower(BaseName(e.code));
      BaseNameIsBase(e.code, e.modifiers);
      WrittenKeyIsRead(notation, ps, BaseName(e.code), e, fold);
      WrittenHasNoClose(notation, ps, BaseName(e.code), e);
    }
    forall notation | '>' !in notation && Special(notation, fold) == Ok(e) ensures Supported(e) {
      ReadKeyIsSupported(notation, fold);
    }
  }

  lemma BaseNameIsLower(e: KeyEvent)
    requires Supported(e)
    ensures AllAscii(BaseName(e.code)) && Lower(BaseName(e.code)) == BaseName(e.code)
  {
  }

  // ---------------------------------------------------------------- where reading goes on after a bracket

  /** Reading goes on right behind the `>` exactly when the bracket is ASCII or nothing follows it. */
  lemma GoesOnBehindBracketIff(s: string)
    requires s != [] && s[0] == '<' && FirstClose(s) < |s|
    ensures Taken(s) == FirstClose(s) + 1 <==> AllAscii(s[1..FirstClose(s)]) || FirstClose(s) + 1 == |s|
  {
    var p := FirstClose(s);
    AsciiBytes(s[..p]);
    assert AllAscii(s[..p]) <==> AllAscii(s[1..p]) by {
      assert forall i :: 1 <= i < p ==> s[..p][i] == s[1..p][i - 1];
      assert p > 0 && s[..p][0] == '<';
      if AllAscii(s[1..p]) {
        forall i | 0 <= i < p ensures IsAscii(s[..p][i]) {
          if i > 0 { assert IsAscii(s[1..p][i - 1]); }
        }
      }
    }
  }

  /** Reading that always goes on right behind the `>`. */
  function ExactEvents(s: string, fold: string -> string): Result<seq<KeyEvent>>
    decreases |s|
  {
    if s == [] then Ok([])
    else if s[0] != '<' || FirstClose(s) == |s| then Prepend(KeyEvent(Char(s[0]), {}), ExactEvents(s[1..], fold))
    else
      match Special(s[1..FirstClose(s)], fold)
      case Err => Err
      case Ok(e) => Prepend(e, ExactEvents(s[FirstClose(s) + 1..], fold))
  }

  /** What is left of the text when everything between a bracket and the place where reading goes on is taken out. */
  function Kept(s: string, fold: string -> string): (kept: string)
    ensures |kept| <= |s|
    decreases |s|
  {
    if s == [] then []
    else if s[0] != '<' || FirstClose(s) == |s| then [s[0]] + Kept(s[1..], fold)
    else if Special(s[1..FirstClose(s)], fold).Err? then s
    else s[..FirstClose(s) + 1] + Kept(s[Taken(s)..], fold)
  }

  /** The places where exact reading meets a bracket, each as the text from there on. */
  function Met(s: string, fold: string -> string): seq<string>
    decreases |s|
  {
    if s == [] then []
    else if s[0] != '<' || FirstClose(s) == |s| then Met(s[1..], fold)
    else if Special(s[1..FirstClose(s)], fold).Err? then [s]
    else [s] + Met(s[FirstClose(s) + 1..], fold)
  }

  /** The bracket at the start holds characters beyond ASCII, is read as a key all the same, and has text behind it. */
  predicate Loses(s: string, fold: string -> string) {
    var p := FirstClose(s);
    && 0 < p && p + 1 < |s|
    && !AllAscii(s[1..p]) && Special(s[1..p], fold).Ok?
  }

  lemma {:induction false} WithoutCloseAllIsKept(s: string, fold: string -> string)
    requires '>' !in s
    ensures Kept(s, fold) == s
    decreases |s|
  {
    if s != [] {
      WithoutCloseAllIsKept(s[1..], fold);
    }
  }

  /** The key presses are those of the kept text, read exactly. */
  lemma {:induction false} KeptTextIsRead(s: string, fold: string -> string)
    ensures Events(s, fold) == ExactEvents(Kept(s, fold), fold)
    decreases |s|
  {
    var kept := Kept(s, fold);
    if s == [] {
    } else if s[0] != '<' {
      KeptTextIsRead(s[1..], fold);
      assert kept[1..] == Kept(s[1..], fold);
    } else if FirstClose(s) == |s| {
      KeptTextIsRead(s[1..], fold);
      assert forall i :: 0 <= i < |s| ==> s[i] != '>';
      WithoutCloseAllIsKept(s[1..], fold);
      assert kept == s;
    } else {
      var p := FirstClose(s);
      if Special(s[1..p], fold).Ok? {
        KeptTextIsRead(s[Taken(s)..], fold);
        assert forall i :: 0 <= i <= p ==> kept[i] == s[i];
        FirstCloseAt(kept, p);
        assert kept[1..p] == s[1..p] && kept[p + 1..] == Kept(s[Taken(s)..], fold);
      } else {
        assert ExactEvents(s, fold).Err?;
      }
    }
  }

  /**
   The exact condition over whole texts: all of the text is read, and exactly, if and only if every bracket that
   exact reading meets and takes for a key is ASCII or ends the text.
   */
  lemma {:induction false} NothingIsLostIff(s: string, fold: string -> string)
    ensures Kept(s, fold) == s <==> forall t :: t in Met(s, fold) ==> !Loses(t, fold)
    decreases |s|
  {
    if s == [] {
    } else if s[0] != '<' || FirstClose(s) == |s| {
      NothingIsLostIff(s[1..], fold);
      assert s == [s[0]] + s[1..];
    } else {
      var n := FirstClose(s) + 1;
      LosesIff(s, fold);
      if Special(s[1..n - 1], fold).Ok? && Taken(s) == n {
        NothingIsLostIff(s[n..], fold);
        assert s == s[..n] + s[n..];
      }
    }
  }

  lemma LosesIff(s: string, fold: string -> string)
    requires s != [] && s[0] == '<' && FirstClose(s) < |s|
    ensures Loses(s, fold) <==> Special(s[1..FirstClose(s)], fold).Ok? && Taken(s) != FirstClose(s) + 1
  {
    GoesOnBehindBracketIff(s);
  }

  lemma TwoCharacters(a: char, b: char)
    ensures ByteLen([a, b]) == Utf8Len(a) + Utf8Len(b)
  {
    assert [a, b][1..] == [b];
    assert [b][1..] == [];
    assert ByteLen([b]) == Utf8Len(b) + ByteLen([]);
  }

  lemma KelvinIsK(fold: string -> string)
    requires fold("\U{212A}") == "k"
    ensures Special("\U{212A}", fold) == Ok(KeyEvent(Char('k'), {}))
  {
    assert Strip("k", {}) == Stripped({}, "k");
  }

  /** The Kelvin sign lowers to k, so a bracket around it is read as k and swallows the two characters behind it. */
  lemma KelvinSwallowsText(fold: string -> string, after: string)
    requires Folds(fold) && fold("\U{212A}") == "k"
    ensures var s := "<\U{212A}>ab" + after;
      && Events(s, fold) == Prepend(KeyEvent(Char('k'), {}), Events(after, fold))
      && ExactEvents(s, fold) == Prepend(KeyEvent(Char('k'), {}), ExactEvents("ab" + after, fold))
  {
    var s := "<\U{212A}>ab" + after;
    FirstCloseAt(s, 2);
    assert s[1..2] == "\U{212A}";
    assert s[..2] == ['<', '\U{212A}'];
    TwoCharacters('<', '\U{212A}');
    assert s[5..] == after && s[3..] == "ab" + after;
    KelvinIsK(fold);
  }
}
