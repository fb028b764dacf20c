/**
 Cancel-safe line buffering (crates/codegen/xai-acp-lib/src/line_reader.rs): a task reads capped
 lines and sends them through a channel, and `poll_read` serves them piece by piece.
 */
module LineReader {
  import opened Common

  newtype byte = x: int | 0 <= x < 256

  const NEWLINE: byte := 10
  const MAX_LINE_SIZE := 64 * 1024 * 1024
  const CHANNEL_CAPACITY := 65

  /** How the wrapped source ends, after all its bytes. */
  datatype End = Eof | Failure

  // ---------------------------------------------------------------- what the stream means

  /** The length of the first line, newline included; everything if there is no newline. */
  function LineLength(data: seq<byte>): (n: nat)
    ensures n <= |data| && (data != [] ==> n > 0)
  {
    if data == [] then 0 else if data[0] == NEWLINE then 1 else 1 + LineLength(data[1..])
  }

  /** One result of `read_line_capped`: `EndOfInput` is its `Ok(0)`. */
  datatype Item = Line(bytes: seq<byte>) | TooLong | IoError | EndOfInput

  function FirstItem(data: seq<byte>, end: End): Item {
    var n := LineLength(data);
    if n > MAX_LINE_SIZE then TooLong
    else if n > 0 && data[n - 1] == NEWLINE then Line(data[..n])
    else if end.Failure? then IoError
    else if n == 0 then EndOfInput
    else Line(data)
  }

  /** Everything the reader task sends for a source, whatever pieces the source comes in. */
  function Items(data: seq<byte>, end: End): seq<Item>
    decreases |data|
  {
    match FirstItem(data, end)
    case Line(bytes) => [Line(bytes)] + Items(data[|bytes|..], end)
    case EndOfInput => []
    case error => [error]
  }

  function BytesOf(items: seq<Item>): seq<byte> {
    if items == [] then []
    else BytesOf(items[..|items| - 1]) + (if items[|items| - 1].Line? then items[|items| - 1].bytes else [])
  }

  function Flatten(pieces: seq<seq<byte>>): seq<byte> {
    if pieces == [] then [] else pieces[0] + Flatten(pieces[1..])
  }

  ghost predicate NoNewline(data: seq<byte>) {
    forall i :: 0 <= i < |data| ==> data[i] != NEWLINE
  }

  lemma {:induction false} LineLengthSkips(a: seq<byte>, b: seq<byte>)
    requires NoNewline(a)
    ensures LineLength(a + b) == |a| + LineLength(b)
  {
    if a == [] {
      assert a + b == b;
    } else {
      assert (a + b)[1..] == a[1..] + b;
      LineLengthSkips(a[1..], b);
    }
  }

  lemma LineLengthStops(data: seq<byte>, pos: nat)
    requires pos < |data| && data[pos] == NEWLINE && NoNewline(data[..pos])
    ensures LineLength(data) == pos + 1
  {
    assert data == data[..pos] + data[pos..];
    LineLengthSkips(data[..pos], data[pos..]);
  }

  lemma LineLengthOfRest(data: seq<byte>)
    requires NoNewline(data)
    ensures LineLength(data) == |data|
  {
    LineLengthSkips(data, []);
    assert data + [] == data;
  }

  // ---------------------------------------------------------------- the source and the line loop

  /** A buffered source: the pieces still to come, none empty or larger than its buffer, and then its end. */
  class Source {
    var pieces: seq<seq<byte>>
    const end: End
    const capacity: nat

    ghost predicate Valid()
      reads this
    {
      forall i :: 0 <= i < |pieces| ==> 0 < |pieces[i]| <= capacity
    }

    function Data(): seq<byte>
      reads this
    {
      Flatten(pieces)
    }

    constructor (pieces: seq<seq<byte>>, end: End, capacity: nat)
      requires forall i :: 0 <= i < |pieces| ==> 0 < |pieces[i]| <= capacity
      ensures Valid() && this.pieces == pieces && this.end == end && this.capacity == capacity
    {
      this.pieces, this.end, this.capacity := pieces, end, capacity;
    }

    /** `fill_buf`: what is buffered now, or nothing at the end, or an error. */
    method FillBuf() returns (r: Result<seq<byte>>)
      requires Valid()
      ensures r.Err? <==> pieces == [] && end.Failure?
      ensures pieces == [] ==> (r.Ok? ==> r.value == []) && Data() == []
      ensures pieces != [] ==> r == Ok(pieces[0])
    {
      if pieces != [] {
        return Ok(pieces[0]);
      }
      r := if end.Failure? then Err else Ok([]);
    }

    method Consume(n: nat)
      requires Valid() && pieces != [] && 0 < n <= |pieces[0]|
      modifies this
      ensures Valid() && Data() == old(Data())[n..]
      ensures n == |old(pieces)[0]| ==> pieces == old(pieces)[1..]
    {
      FlattenDrop(pieces, n);
      pieces := if n == |pieces[0]| then pieces[1..] else [pieces[0][n..]] + pieces[1..];
    }
  }

  lemma FlattenDrop(pieces: seq<seq<byte>>, n: nat)
    requires pieces != [] && n <= |pieces[0]|
    ensures Flatten(pieces)[n..] == pieces[0][n..] + Flatten(pieces[1..])
    ensures Flatten(if n == |pieces[0]| then pieces[1..] else [pieces[0][n..]] + pieces[1..]) == Flatten(pieces)[n..]
  {
    var rest := [pieces[0][n..]] + pieces[1..];
    assert rest[1..] == pieces[1..];
  }

  method Position(available: seq<byte>) returns (pos: Option<nat>)
    ensures pos.None? ==> NoNewline(available)
    ensures pos.Some? ==> pos.value < |available| && available[pos.value] == NEWLINE && NoNewline(available[..pos.value])
  {
    for i := 0 to |available|
      invariant NoNewline(available[..i])
    {
      if available[i] == NEWLINE {
        return Some(i);
      }
    }
    assert available[..|available|] == available;
    pos := None;
  }

  /** The newline is in this piece: the line ends with it. */
  lemma LineFound(data: seq<byte>, before: seq<byte>, piece: seq<byte>, rest: seq<byte>)
    requires data == before + (piece + rest) && NoNewline(before)
    requires piece != [] && piece[|piece| - 1] == NEWLINE && NoNewline(piece[..|piece| - 1])
    ensures LineLength(data) == |before + piece|
    ensures data[..|before + piece|] == before + piece && data[|before + piece|..] == rest
    ensures data[|before + piece| - 1] == NEWLINE
  {
    LineLengthSkips(before, piece + rest);
    assert (piece + rest)[..|piece| - 1] == piece[..|piece| - 1];
    LineLengthStops(piece + rest, |piece| - 1);
  }

  /** No newline yet: the line is at least as long as what has been read. */
  lemma LineGoesOn(data: seq<byte>, before: seq<byte>, piece: seq<byte>, rest: seq<byte>)
    requires data == before + (piece + rest) && NoNewline(before) && NoNewline(piece)
    ensures data == (before + piece) + rest && NoNewline(before + piece)
    ensures LineLength(data) >= |before + piece|
  {
    assert data == (before + piece) + rest;
    LineLengthSkips(before + piece, rest);
  }

  lemma ItemOfLine(data: seq<byte>, n: nat, end: End)
    requires 0 < n <= |data| && LineLength(data) == n && data[n - 1] == NEWLINE
    ensures FirstItem(data, end) == if n > MAX_LINE_SIZE then TooLong else Line(data[..n])
  {
  }

  lemma ItemOfRest(data: seq<byte>, buf: seq<byte>, end: End)
    requires data == buf + [] && NoNewline(buf) && |buf| <= MAX_LINE_SIZE
    ensures FirstItem(data, end) == if end.Failure? then IoError else if buf == [] then EndOfInput else Line(buf)
    ensures data[|buf|..] == []
  {
    assert data == buf;
    LineLengthOfRest(data);
  }

  /** Takes what is buffered, up to and with the first newline. */
  method TakePiece(src: Source, buf: seq<byte>, ghost data: seq<byte>) returns (piece: seq<byte>, found: bool)
    requires src.Valid() && src.pieces != [] && data == buf + src.Data() && NoNewline(buf)
    modifies src
    ensures src.Valid() && |piece| <= src.capacity && data == (buf + piece) + src.Data()
    ensures found ==> LineLength(data) == |buf + piece| && data[..|buf + piece|] == buf + piece
    ensures found ==> data[|buf + piece|..] == src.Data() && data[|buf + piece| - 1] == NEWLINE
    ensures !found ==> |src.pieces| < |old(src.pieces)| && NoNewline(buf + piece) && LineLength(data) >= |buf + piece|
  {
    var available := src.pieces[0];
    var pos := Position(available);
    found := pos.Some?;
    piece := if found then available[..pos.value + 1] else available;
    SplitFirst(src.pieces, piece);
    src.Consume(|piece|);
    if found {
      LineFound(data, buf, piece, src.Data());
    } else {
      LineGoesOn(data, buf, piece, src.Data());
    }
  }

  /** What the loop of `read_line_capped` knows: so much of the source is in `buf`, and no line has ended. */
  ghost predicate Reading(data: seq<byte>, buf: seq<byte>, rest: seq<byte>) {
    data == buf + rest && NoNewline(buf) && |buf| <= MAX_LINE_SIZE
  }

  /** What a finished call says about the source. */
  ghost predicate Took(data: seq<byte>, end: End, item: Item, buf: seq<byte>, rest: seq<byte>) {
    item == FirstItem(data, end) && (item.Line? ==> buf == item.bytes && rest == data[|buf|..])
  }

  /** One round of the loop: another piece, or the result. */
  method Round(src: Source, buf: seq<byte>, ghost data: seq<byte>) returns (next: seq<byte>, item: Option<Item>)
    requires src.Valid() && Reading(data, buf, src.Data())
    modifies src
    ensures src.Valid() && |next| <= MAX_LINE_SIZE + src.capacity
    ensures item.None? ==> Reading(data, next, src.Data()) && |src.pieces| < |old(src.pieces)|
    ensures item.Some? ==> Took(data, src.end, item.value, next, src.Data())
  {
    var filled := src.FillBuf();
    if filled.Err? || filled.value == [] {
      ItemOfRest(data, buf, src.end);
      return buf, Some(if filled.Err? then IoError else if buf == [] then EndOfInput else Line(buf));
    }
    var piece, found := TakePiece(src, buf, data);
    next, item := buf + piece, None;
    if found {
      ItemOfLine(data, |next|, src.end);
      item := Some(if |next| > MAX_LINE_SIZE then TooLong else Line(next));
    } else if |next| > MAX_LINE_SIZE {
      item := Some(TooLong);
    }
  }

  /**
   `read_line_capped`: takes one line, bounded while it grows. `buf` is what was accumulated; it never
   exceeds the cap by more than one fill.
   */
  method ReadLineCapped(src: Source) returns (item: Item, buf: seq<byte>)
    requires src.Valid()
    modifies src
    ensures src.Valid() && |buf| <= MAX_LINE_SIZE + src.capacity
    ensures item == FirstItem(old(src.Data()), src.end)
    ensures item.Line? ==> buf == item.bytes && src.Data() == old(src.Data())[|buf|..]
  {
    ghost var data := src.Data();
    var result: Option<Item> := None;
    buf := [];
    while result.None?
      invariant src.Valid() && |buf| <= MAX_LINE_SIZE + src.capacity
      invariant result.None? ==> Reading(data, buf, src.Data())
      invariant result.Some? ==> Took(data, src.end, result.value, buf, src.Data())
      decreases result.None?, |src.pieces|
    {
      buf, result := Round(src, buf, data);
    }
    item := result.value;
  }

  lemma SplitFirst(pieces: seq<seq<byte>>, piece: seq<byte>)
    requires pieces != [] && piece <= pieces[0]
    ensures Flatten(pieces) == piece + Flatten(pieces)[|piece|..]
  {
  }
}
