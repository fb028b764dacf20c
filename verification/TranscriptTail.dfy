/**
 What the bounded transcript is (desktop/src/conversation-controller.js): after any run, the longest end of the whole
 transcript that fits, message by message, with its roles and ids.
 */
module TranscriptTail {
  import opened Common
  import opened Transcript

  // ---------------------------------------------------------------- the whole transcript

  /** A transcript without bounds: text goes on in the last message of its role, or starts one. */
  function Extended(ws: seq<Message>, c: Chunk, id: nat): seq<Message> {
    if GoesOn(ws, c) then
      ws[..|ws| - 1] + [ws[|ws| - 1].(text := ws[|ws| - 1].text + c.text)]
    else ws + [Message(id, c.role, c.text)]
  }

  predicate GoesOn(ws: seq<Message>, c: Chunk) {
    !c.forceNew && ws != [] && ws[|ws| - 1].role == c.role
  }

  function Whole(chunks: seq<Chunk>): (ws: seq<Message>)
    ensures |ws| <= |chunks|
  {
    if chunks == [] then []
    else
      var ws := Whole(chunks[..|chunks| - 1]);
      Extended(ws, chunks[|chunks| - 1], |ws| + 1)
  }

  // ---------------------------------------------------------------- the longest end that fits

  predicate Fits(ms: seq<Message>) {
    |ms| <= MAX_PUBLIC_MESSAGES && |Kept(ms)| <= MAX_PUBLIC_TRANSCRIPT_CHARS
  }

  function Cut(m: Message): Message {
    m.(text := LastUnits(m.text, MAX_PUBLIC_TRANSCRIPT_CHARS))
  }

  /** ms is ws from d on, and one message more would not fit. */
  ghost predicate EndsAt(ms: seq<Message>, ws: seq<Message>, d: int) {
    0 <= d <= |ws| && ms == ws[d..] && Fits(ms) && (d > 0 ==> !Fits(ws[d - 1..]))
  }

  /** A last message that does not fit by itself is cut and stands alone. */
  ghost predicate IsLongestEnd(ms: seq<Message>, ws: seq<Message>) {
    if ws != [] && |ws[|ws| - 1].text| > MAX_PUBLIC_TRANSCRIPT_CHARS then ms == [Cut(ws[|ws| - 1])]
    else exists d :: EndsAt(ms, ws, d)
  }

  lemma {:induction false} KeptAppend(a: seq<Message>, b: seq<Message>)
    ensures Kept(a + b) == Kept(a) + Kept(b)
    decreases |b|
  {
    if b == [] {
      assert a + b == a;
    } else {
      assert (a + b)[..|a + b| - 1] == a + b[..|b| - 1];
      KeptAppend(a, b[..|b| - 1]);
    }
  }

  lemma KeptLast(ms: seq<Message>)
    requires ms != []
    ensures |Kept(ms)| >= |ms[|ms| - 1].text|
    ensures |ms| == 1 ==> Kept(ms) == ms[0].text
  {
    SoleKept(ms);
  }

  /** The loops stop as soon as the rest fits, or only one message is left. */
  ghost predicate StoppedAt(us: seq<Message>, d: int) {
    && 0 <= d <= |us| && |us[d..]| <= MAX_PUBLIC_MESSAGES
    && (|us| - d <= 1 || |Kept(us[d..])| <= MAX_PUBLIC_TRANSCRIPT_CHARS)
    && (d > 0 ==> d < |us| && !Fits(us[d - 1..]))
  }

  lemma {:induction false} CountLoop(s: State) returns (d: nat)
    ensures d <= |s.messages| && DropOverCount(s).messages == s.messages[d..] && |s.messages| - d <= MAX_PUBLIC_MESSAGES
    ensures d > 0 ==> d < |s.messages| && |s.messages| - d + 1 > MAX_PUBLIC_MESSAGES
    decreases |s.messages|
  {
    d := 0;
    if |s.messages| > MAX_PUBLIC_MESSAGES {
      d := CountLoop(DropOldest(s));
      d := d + 1;
    }
  }

  lemma {:induction false} TotalLoop(s: State) returns (d: nat)
    ensures d <= |s.messages| && DropOverTotal(s).messages == s.messages[d..]
    ensures |s.messages| - d <= 1 || |Kept(s.messages[d..])| <= MAX_PUBLIC_TRANSCRIPT_CHARS
    ensures d > 0 ==> d < |s.messages| && |Kept(s.messages[d - 1..])| > MAX_PUBLIC_TRANSCRIPT_CHARS
    decreases |s.messages|
  {
    d := 0;
    if |Kept(s.messages)| > MAX_PUBLIC_TRANSCRIPT_CHARS && |s.messages| > 1 {
      var k := TotalLoop(DropOldest(s));
      d := k + 1;
      assert s.messages[d..] == s.messages[1..][k..];
      if k > 0 { assert s.messages[d - 1..] == s.messages[1..][k - 1..]; }
    }
  }

  lemma LoopsStop(s: State) returns (d: nat)
    ensures d <= |s.messages| && DropOverTotal(DropOverCount(s)).messages == s.messages[d..] && StoppedAt(s.messages, d)
  {
    var c := CountLoop(s);
    var k := TotalLoop(DropOverCount(s));
    d := c + k;
    assert s.messages[c..][k..] == s.messages[d..];
    if k > 0 { assert s.messages[c..][k - 1..] == s.messages[d - 1..]; }
  }

  /** What the two loops and the cut leave of any list is its longest end that fits. */
  lemma DropsLeaveLongestEnd(s: State)
    ensures IsLongestEnd(CutSole(DropOverTotal(DropOverCount(s))).messages, s.messages)
  {
    var us := s.messages;
    var d := LoopsStop(s);
    var rest := us[d..];
    if us != [] {
      var last := us[|us| - 1];
      assert rest != [] && rest[|rest| - 1] == last;
      KeptLast(rest);
      if |last.text| > MAX_PUBLIC_TRANSCRIPT_CHARS {
        assert rest == [last];
      } else {
        assert EndsAt(rest, us, d);
      }
    } else {
      assert EndsAt(rest, us, 0);
    }
  }

  // ---------------------------------------------------------------- one step

  lemma ExtendedGrows(ws: seq<Message>, c: Chunk, id: nat, e: nat)
    requires e <= |ws|
    ensures e <= |Extended(ws, c, id)|
    ensures !Fits(ws[e..]) ==> !Fits(Extended(ws, c, id)[e..])
  {
    var xs := Extended(ws, c, id);
    if |xs| == |ws| {
      var n := |ws| - 1;
      if e <= n {
        assert ws[e..] == ws[e..n] + [ws[n]] && xs[e..] == ws[e..n] + [xs[n]];
        KeptAppend(ws[e..n], [ws[n]]);
        KeptAppend(ws[e..n], [xs[n]]);
        KeptLast([ws[n]]);
        KeptLast([xs[n]]);
      }
    } else {
      assert xs[e..] == ws[e..] + [xs[|ws|]];
      KeptAppend(ws[e..], [xs[|ws|]]);
    }
  }

  /** The longest end of a list that starts where one more message of ws would not fit is the longest end of ws. */
  lemma EndOfEnd(ms: seq<Message>, us: seq<Message>, ws: seq<Message>, d: nat)
    requires d <= |ws| && us == ws[d..] && (d > 0 ==> d < |ws| && !Fits(ws[d - 1..]))
    requires IsLongestEnd(ms, us)
    ensures IsLongestEnd(ms, ws)
  {
    if ws != [] && us != [] { assert us[|us| - 1] == ws[|ws| - 1]; }
    if !(us != [] && |us[|us| - 1].text| > MAX_PUBLIC_TRANSCRIPT_CHARS) {
      var k :| EndsAt(ms, us, k);
      assert us[k..] == ws[d + k..];
      if k > 0 { assert us[k - 1..] == ws[d + k - 1..]; }
      assert EndsAt(ms, ws, d + k);
    }
  }

  lemma LastUnitsAgain(front: string, text: string)
    requires |front| > MAX_PUBLIC_TRANSCRIPT_CHARS
    ensures LastUnits(LastUnits(front, MAX_PUBLIC_TRANSCRIPT_CHARS) + text, MAX_PUBLIC_TRANSCRIPT_CHARS) ==
            LastUnits(front + text, MAX_PUBLIC_TRANSCRIPT_CHARS)
  {
    var cut := LastUnits(front, MAX_PUBLIC_TRANSCRIPT_CHARS);
    assert front + text == front[..|front| - MAX_PUBLIC_TRANSCRIPT_CHARS] + (cut + text);
  }

  /** The last message kept is the last one of the whole transcript, cut if it must be. */
  lemma LastIsKept(ms: seq<Message>, ws: seq<Message>)
    requires IsLongestEnd(ms, ws)
    ensures ws == [] <==> ms == []
    ensures ws != [] ==> ms[|ms| - 1] == Cut(ws[|ws| - 1])
  {
    if ws != [] && |ws[|ws| - 1].text| <= MAX_PUBLIC_TRANSCRIPT_CHARS {
      assert ws[|ws| - 1..] == [ws[|ws| - 1]];
      KeptLast([ws[|ws| - 1]]);
      assert Fits(ws[|ws| - 1..]);
      var d :| EndsAt(ms, ws, d);
    }
  }

  lemma OverflowStep(s: State, ws: seq<Message>, c: Chunk)
    requires WellFormed(s) && IsLongestEnd(s.messages, ws) && c.text != ""
    requires GoesOn(ws, c)
    requires |ws[|ws| - 1].text + c.text| > MAX_PUBLIC_TRANSCRIPT_CHARS
    ensures Append(s, c.role, c.text, c.forceNew).messages == [Cut(ws[|ws| - 1].(text := ws[|ws| - 1].text + c.text))]
  {
    var merged, last := WithText(s, c.role, c.text, c.forceNew), ws[|ws| - 1];
    LastIsKept(s.messages, ws);
    if |last.text| > MAX_PUBLIC_TRANSCRIPT_CHARS { LastUnitsAgain(last.text, c.text); }
    MergedText(s, c.role, c.text, c.forceNew);
    FullLastStaysAlone(merged);
  }

  /** The message before is cut already: it goes, and the new one is all that is kept. */
  lemma AfterCutStep(s: State, ws: seq<Message>, m: Message)
    requires ws != [] && |ws[|ws| - 1].text| > MAX_PUBLIC_TRANSCRIPT_CHARS && m.text != ""
    requires IsLongestEnd(s.messages, [Cut(ws[|ws| - 1]), m])
    ensures IsLongestEnd(s.messages, ws + [m])
  {
    var cut, us, xs := Cut(ws[|ws| - 1]), [Cut(ws[|ws| - 1]), m], ws + [m];
    KeptAppend([cut], [m]);
    KeptLast([cut]);
    KeptLast([m]);
    assert us == [cut] + [m];
    if |m.text| <= MAX_PUBLIC_TRANSCRIPT_CHARS {
      var k :| EndsAt(s.messages, us, k);
      assert us[0..] == us && us[1..] == [m];
      assert xs[|ws| - 1..] == [ws[|ws| - 1]] + [m] && xs[|ws|..] == [m];
      KeptAppend([ws[|ws| - 1]], [m]);
      KeptLast([ws[|ws| - 1]]);
      assert EndsAt([m], xs, |ws|);
    }
  }

  lemma RoomyText(s: State, ws: seq<Message>, c: Chunk, d: nat)
    requires s.counter == |ws| && d <= |ws| && s.messages == ws[d..] && (ws != [] ==> d < |ws|)
    requires GoesOn(ws, c) ==> |ws[|ws| - 1].text + c.text| <= MAX_PUBLIC_TRANSCRIPT_CHARS
    ensures WithText(s, c.role, c.text, c.forceNew).messages == Extended(ws, c, |ws| + 1)[d..]
  {
  }

  lemma RoomyEnd(s: State, ws: seq<Message>, c: Chunk) returns (d: nat)
    requires s.counter == |ws| && IsLongestEnd(s.messages, ws)
    requires ws == [] || |ws[|ws| - 1].text| <= MAX_PUBLIC_TRANSCRIPT_CHARS
    requires GoesOn(ws, c) ==> |ws[|ws| - 1].text + c.text| <= MAX_PUBLIC_TRANSCRIPT_CHARS
    ensures var xs := Extended(ws, c, |ws| + 1);
      && d < |xs| && WithText(s, c.role, c.text, c.forceNew).messages == xs[d..]
      && (d > 0 ==> !Fits(xs[d - 1..]))
  {
    LastIsKept(s.messages, ws);
    d :| EndsAt(s.messages, ws, d);
    RoomyText(s, ws, c, d);
    if d > 0 { ExtendedGrows(ws, c, |ws| + 1, d - 1); }
  }

  lemma RoomyStep(s: State, ws: seq<Message>, c: Chunk)
    requires s.counter == |ws| && IsLongestEnd(s.messages, ws)
    requires ws == [] || |ws[|ws| - 1].text| <= MAX_PUBLIC_TRANSCRIPT_CHARS
    requires GoesOn(ws, c) ==> |ws[|ws| - 1].text + c.text| <= MAX_PUBLIC_TRANSCRIPT_CHARS
    ensures IsLongestEnd(Append(s, c.role, c.text, c.forceNew).messages, Extended(ws, c, |ws| + 1))
  {
    var d := RoomyEnd(s, ws, c);
    var t := WithText(s, c.role, c.text, c.forceNew);
    DropsLeaveLongestEnd(t);
    EndOfEnd(CutSole(DropOverTotal(DropOverCount(t))).messages, t.messages, Extended(ws, c, |ws| + 1), d);
  }

  lemma CutStep(s: State, ws: seq<Message>, c: Chunk)
    requires s.counter == |ws| && IsLongestEnd(s.messages, ws) && c.text != ""
    requires ws != [] && |ws[|ws| - 1].text| > MAX_PUBLIC_TRANSCRIPT_CHARS && (c.forceNew || ws[|ws| - 1].role != c.role)
    ensures IsLongestEnd(Append(s, c.role, c.text, c.forceNew).messages, Extended(ws, c, |ws| + 1))
  {
    var t := WithText(s, c.role, c.text, c.forceNew);
    assert t.messages == [Cut(ws[|ws| - 1]), Message(|ws| + 1, c.role, c.text)];
    DropsLeaveLongestEnd(t);
    AfterCutStep(Append(s, c.role, c.text, c.forceNew), ws, Message(|ws| + 1, c.role, c.text));
  }

  lemma StepKeepsLongestEnd(s: State, ws: seq<Message>, c: Chunk)
    requires WellFormed(s) && s.counter == |ws| && IsLongestEnd(s.messages, ws) && c.text != ""
    ensures IsLongestEnd(Append(s, c.role, c.text, c.forceNew).messages, Extended(ws, c, |ws| + 1))
  {
    if GoesOn(ws, c) && |ws[|ws| - 1].text + c.text| > MAX_PUBLIC_TRANSCRIPT_CHARS {
      OverflowStep(s, ws, c);
      LastOfExtended(ws, c);
    } else if ws != [] && |ws[|ws| - 1].text| > MAX_PUBLIC_TRANSCRIPT_CHARS {
      CutStep(s, ws, c);
    } else {
      RoomyStep(s, ws, c);
    }
  }

  lemma LastOfExtended(ws: seq<Message>, c: Chunk)
    requires GoesOn(ws, c)
    ensures var xs := Extended(ws, c, |ws| + 1);
      xs != [] && xs[|xs| - 1] == ws[|ws| - 1].(text := ws[|ws| - 1].text + c.text)
  {
  }

  lemma CounterAfterStep(s: State, ws: seq<Message>, c: Chunk)
    requires WellFormed(s) && Bounded(s) && s.counter == |ws| && IsLongestEnd(s.messages, ws) && c.text != ""
    ensures Append(s, c.role, c.text, c.forceNew).counter == |Extended(ws, c, |ws| + 1)|
  {
    LastIsKept(s.messages, ws);
    var t := WithText(s, c.role, c.text, c.forceNew);
    MergedText(s, c.role, c.text, c.forceNew);
    DropsKeep(t);
  }

  /** The state is that of a transcript kept from `ws`. */
  ghost predicate Keeps(s: State, ws: seq<Message>) {
    IsLongestEnd(s.messages, ws) && s.counter == |ws|
  }

  lemma StepKeeps(s: State, ws: seq<Message>, c: Chunk, t: State)
    requires WellFormed(s) && Bounded(s) && Keeps(s, ws) && c.text != "" && t == Append(s, c.role, c.text, c.forceNew)
    ensures Keeps(t, Extended(ws, c, |ws| + 1))
  {
    StepKeepsLongestEnd(s, ws, c);
    CounterAfterStep(s, ws, c);
  }

  lemma WholeNext(chunks: seq<Chunk>, i: nat)
    requires i < |chunks|
    ensures Whole(chunks[..i + 1]) == Extended(Whole(chunks[..i]), chunks[i], |Whole(chunks[..i])| + 1)
  {
    assert chunks[..i + 1][..i] == chunks[..i];
  }

  lemma NextKeeps(states: seq<State>, chunks: seq<Chunk>, j: nat)
    requires IsRun(states, chunks) && j < |chunks| && Keeps(states[j], Whole(chunks[..j]))
    ensures Keeps(states[j + 1], Whole(chunks[..j + 1]))
  {
    RunKeepsSuffix(states, chunks, j);
    StepKeeps(states[j], Whole(chunks[..j]), chunks[j], states[j + 1]);
    WholeNext(chunks, j);
  }

  lemma StartKeeps()
    ensures Keeps(State([], 0, false), [])
  {
    assert EndsAt([], [], 0);
  }

  /**
   Over any run the kept messages are the longest end of the whole transcript that fits: the same messages, with the
   same ids, roles and texts. Only a last message that is too long by itself is cut, and then it stands alone.
   */
  lemma {:induction false} TranscriptIsLongestEnd(states: seq<State>, chunks: seq<Chunk>, i: nat)
    requires IsRun(states, chunks) && i < |states|
    ensures Keeps(states[i], Whole(chunks[..i]))
  {
    if i == 0 {
      StartKeeps();
      assert chunks[..0] == [];
    } else {
      TranscriptIsLongestEnd(states, chunks, i - 1);
      NextKeeps(states, chunks, i - 1);
    }
  }
}
