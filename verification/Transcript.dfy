/** The bounded transcript of a session: `#appendMessage` (desktop/src/conversation-controller.js). */
module Transcript {
  import opened Common

  const MAX_PUBLIC_MESSAGES := 200
  const MAX_PUBLIC_TRANSCRIPT_CHARS := 200000

  datatype Role = User | Assistant

  datatype Message = Message(id: nat, role: Role, text: string)

  datatype State = State(messages: seq<Message>, counter: nat, truncated: bool)

  // ---------------------------------------------------------------- the step, as a function

  /** `text.slice(-n)` */
  function LastUnits(text: string, n: nat): string {
    if |text| <= n then text else text[|text| - n..]
  }

  function Kept(ms: seq<Message>): string {
    if ms == [] then "" else Kept(ms[..|ms| - 1]) + ms[|ms| - 1].text
  }

  predicate Merges(ms: seq<Message>, role: Role, forceNew: bool) {
    !forceNew && ms != [] && ms[|ms| - 1].role == role
  }

  /** The new text is merged into the last message, and cut there, or becomes a message of its own. */
  function WithText(s: State, role: Role, text: string, forceNew: bool): State {
    if Merges(s.messages, role, forceNew) then
      var last := |s.messages| - 1;
      var merged := LastUnits(s.messages[last].text + text, MAX_PUBLIC_TRANSCRIPT_CHARS);
      s.(messages := s.messages[last := s.messages[last].(text := merged)])
    else
      s.(messages := s.messages + [Message(s.counter + 1, role, text)], counter := s.counter + 1)
  }

  function DropOldest(s: State): State
    requires s.messages != []
  {
    s.(messages := s.messages[1..], truncated := true)
  }

  function DropOverCount(s: State): State
    decreases |s.messages|
  {
    if |s.messages| > MAX_PUBLIC_MESSAGES then DropOverCount(DropOldest(s)) else s
  }

  function DropOverTotal(s: State): State
    decreases |s.messages|
  {
    if |Kept(s.messages)| > MAX_PUBLIC_TRANSCRIPT_CHARS && |s.messages| > 1 then DropOverTotal(DropOldest(s)) else s
  }

  function CutSole(s: State): State {
    if |Kept(s.messages)| > MAX_PUBLIC_TRANSCRIPT_CHARS && |s.messages| == 1 then
      s.(messages := [s.messages[0].(text := LastUnits(s.messages[0].text, MAX_PUBLIC_TRANSCRIPT_CHARS))], truncated := true)
    else s
  }

  function Append(s: State, role: Role, text: string, forceNew: bool): State {
    CutSole(DropOverTotal(DropOverCount(WithText(s, role, text, forceNew))))
  }

  // ---------------------------------------------------------------- the step, as it runs

  class Transcript {
    var messages: seq<Message>
    var messageCounter: nat
    var transcriptTruncated: bool

    function View(): State
      reads this
    {
      State(messages, messageCounter, transcriptTruncated)
    }

    constructor ()
      ensures View() == State([], 0, false)
    {
      messages, messageCounter, transcriptTruncated := [], 0, false;
    }

    method Merge(role: Role, text: string, forceNew: bool)
      modifies this
      ensures View() == WithText(old(View()), role, text, forceNew)
    {
      if !forceNew && messages != [] && messages[|messages| - 1].role == role {
        var last := |messages| - 1;
        var merged := LastUnits(messages[last].text + text, MAX_PUBLIC_TRANSCRIPT_CHARS);
        messages := messages[last := messages[last].(text := merged)];
      } else {
        messageCounter := messageCounter + 1;
        messages := messages + [Message(messageCounter, role, text)];
      }
    }

    method TotalLength() returns (total: nat)
      ensures total == |Kept(messages)|
    {
      total := 0;
      for i := 0 to |messages|
        invariant total == |Kept(messages[..i])|
      {
        assert messages[..i + 1][..i] == messages[..i];
        total := total + |messages[i].text|;
      }
      assert messages[..|messages|] == messages;
    }

    /** The loop over the number of messages. */
    method DropExtraMessages()
      modifies this
      ensures View() == DropOverCount(old(View()))
    {
      while |messages| > MAX_PUBLIC_MESSAGES
        invariant DropOverCount(View()) == DropOverCount(old(View()))
      {
        messages, transcriptTruncated := messages[1..], true;
      }
    }

    /** The loop over the length of the text. */
    method DropExtraText() returns (total: nat)
      modifies this
      ensures View() == DropOverTotal(old(View())) && total == |Kept(messages)|
    {
      total := TotalLength();
      while total > MAX_PUBLIC_TRANSCRIPT_CHARS && |messages| > 1
        invariant total == |Kept(messages)|
        invariant DropOverTotal(View()) == DropOverTotal(old(View()))
      {
        KeptSplits(messages);
        total := total - |messages[0].text|;
        messages, transcriptTruncated := messages[1..], true;
      }
    }

    method AppendMessage(role: Role, text: string, forceNew: bool)
      modifies this
      ensures View() == Append(old(View()), role, text, forceNew)
    {
      Merge(role, text, forceNew);
      DropExtraMessages();
      var total := DropExtraText();
      CutSoleMessage(total);
    }

    /** A sole message that is still too long is cut. */
    method CutSoleMessage(total: nat)
      requires total == |Kept(messages)|
      modifies this
      ensures View() == CutSole(old(View()))
    {
      if total > MAX_PUBLIC_TRANSCRIPT_CHARS && |messages| == 1 {
        messages := [messages[0].(text := LastUnits(messages[0].text, MAX_PUBLIC_TRANSCRIPT_CHARS))];
        transcriptTruncated := true;
      }
    }
  }

  // ---------------------------------------------------------------- what a step keeps

  lemma {:induction false} KeptSplits(ms: seq<Message>)
    requires ms != []
    ensures Kept(ms) == ms[0].text + Kept(ms[1..])
  {
    if |ms| > 1 {
      KeptSplits(ms[..|ms| - 1]);
      assert ms[1..][..|ms| - 2] == ms[..|ms| - 1][1..];
    } else {
      assert ms[..0] == [] && ms[1..] == [];
    }
  }

  ghost predicate IsSuffix(a: string, b: string) {
    |a| <= |b| && b[|b| - |a|..] == a
  }

  lemma SuffixTransitive(a: string, b: string, c: string)
    requires IsSuffix(a, b) && IsSuffix(b, c)
    ensures IsSuffix(a, c)
  {
    assert c[|c| - |a|..] == c[|c| - |b|..][|b| - |a|..];
  }

  ghost predicate WellFormed(s: State) {
    && (forall i :: 0 <= i < |s.messages| ==> s.messages[i].text != "" && s.messages[i].id <= s.counter)
    && (forall i, j :: 0 <= i < j < |s.messages| ==> s.messages[i].id < s.messages[j].id)
  }

  ghost predicate Bounded(s: State) {
    |s.messages| <= MAX_PUBLIC_MESSAGES && |Kept(s.messages)| <= MAX_PUBLIC_TRANSCRIPT_CHARS
  }

  /** b arises from a by dropping messages at the front; the flag is raised exactly when something was dropped. */
  ghost predicate DroppedFront(a: State, b: State) {
    && |b.messages| <= |a.messages| && b.messages == a.messages[|a.messages| - |b.messages|..]
    && b.counter == a.counter
    && IsSuffix(Kept(b.messages), Kept(a.messages))
    && (a.messages != [] ==> b.messages != [])
    && b.truncated == (a.truncated || |b.messages| < |a.messages|)
    && (|b.messages| < |a.messages| ==> |Kept(b.messages)| < |Kept(a.messages)|)
  }

  lemma DropOldestKeeps(s: State)
    requires WellFormed(s) && |s.messages| > 1
    requires Kept(s.messages) == s.messages[0].text + Kept(s.messages[1..])
    ensures WellFormed(DropOldest(s)) && DroppedFront(s, DropOldest(s))
  {
  }

  lemma DroppedFrontTransitive(a: State, b: State, c: State)
    requires DroppedFront(a, b) && DroppedFront(b, c)
    ensures DroppedFront(a, c)
  {
    SuffixTransitive(Kept(c.messages), Kept(b.messages), Kept(a.messages));
  }

  lemma {:induction false} DropOverCountKeeps(s: State)
    requires WellFormed(s)
    ensures WellFormed(DropOverCount(s)) && DroppedFront(s, DropOverCount(s))
    ensures |DropOverCount(s).messages| <= MAX_PUBLIC_MESSAGES
    decreases |s.messages|
  {
    if |s.messages| > MAX_PUBLIC_MESSAGES {
      KeptSplits(s.messages);
      DropOldestKeeps(s);
      DropOverCountKeeps(DropOldest(s));
      DroppedFrontTransitive(s, DropOldest(s), DropOverCount(s));
    }
  }

  lemma {:induction false} DropOverTotalKeeps(s: State)
    requires WellFormed(s)
    ensures WellFormed(DropOverTotal(s)) && DroppedFront(s, DropOverTotal(s))
    ensures |DropOverTotal(s).messages| > 1 ==> |Kept(DropOverTotal(s).messages)| <= MAX_PUBLIC_TRANSCRIPT_CHARS
    decreases |s.messages|
  {
    if |Kept(s.messages)| > MAX_PUBLIC_TRANSCRIPT_CHARS && |s.messages| > 1 {
      KeptSplits(s.messages);
      DropOldestKeeps(s);
      DropOverTotalKeeps(DropOldest(s));
      DroppedFrontTransitive(s, DropOldest(s), DropOverTotal(s));
    }
  }

  lemma CutSoleKeeps(s: State)
    requires WellFormed(s) && (|s.messages| > 1 ==> |Kept(s.messages)| <= MAX_PUBLIC_TRANSCRIPT_CHARS)
    ensures WellFormed(CutSole(s)) && |CutSole(s).messages| == |s.messages| && CutSole(s).counter == s.counter
    ensures |Kept(CutSole(s).messages)| <= MAX_PUBLIC_TRANSCRIPT_CHARS
    ensures IsSuffix(Kept(CutSole(s).messages), Kept(s.messages))
    ensures |Kept(s.messages)| <= MAX_PUBLIC_TRANSCRIPT_CHARS ==> CutSole(s) == s
    ensures |Kept(s.messages)| > MAX_PUBLIC_TRANSCRIPT_CHARS ==>
      CutSole(s).truncated && |Kept(CutSole(s).messages)| < |Kept(s.messages)|
  {
    SoleKept(s.messages);
    SoleKept(CutSole(s).messages);
  }

  lemma SoleKept(ms: seq<Message>)
    ensures |ms| == 1 ==> Kept(ms) == ms[0].text
  {
    if |ms| == 1 {
      KeptSplits(ms);
      assert ms[1..] == [];
    }
  }

  lemma DropsKeep(s: State)
    requires WellFormed(s)
    ensures var t := CutSole(DropOverTotal(DropOverCount(s)));
            && WellFormed(t) && Bounded(t) && t.counter == s.counter
            && IsSuffix(Kept(t.messages), Kept(s.messages))
            && t.truncated == (s.truncated || |Kept(t.messages)| < |Kept(s.messages)|)
  {
    var a, b := DropOverCount(s), DropOverTotal(DropOverCount(s));
    DropOverCountKeeps(s);
    DropOverTotalKeeps(a);
    DroppedFrontTransitive(s, a, b);
    CutSoleKeeps(b);
    SuffixTransitive(Kept(CutSole(b).messages), Kept(b.messages), Kept(s.messages));
  }

  lemma MergedText(s: State, role: Role, text: string, forceNew: bool)
    requires WellFormed(s) && text != ""
    ensures WellFormed(WithText(s, role, text, forceNew))
    ensures !Merges(s.messages, role, forceNew) ==> Kept(WithText(s, role, text, forceNew).messages) == Kept(s.messages) + text
    ensures Merges(s.messages, role, forceNew) ==>
      var n := |s.messages| - 1;
      Kept(WithText(s, role, text, forceNew).messages) ==
      Kept(s.messages[..n]) + LastUnits(s.messages[n].text + text, MAX_PUBLIC_TRANSCRIPT_CHARS)
  {
    var ms, t := s.messages, WithText(s, role, text, forceNew).messages;
    if Merges(ms, role, forceNew) {
      assert t[..|t| - 1] == ms[..|ms| - 1];
    } else {
      assert t[..|t| - 1] == ms;
    }
  }

  /** A merge that is cut leaves a hole, which dropping all older messages closes again. */
  lemma {:induction false} DropsToLast(s: State)
    requires WellFormed(s) && s.messages != [] && |s.messages[|s.messages| - 1].text| == MAX_PUBLIC_TRANSCRIPT_CHARS
    ensures DropOverTotal(s).messages == [s.messages[|s.messages| - 1]]
    decreases |s.messages|
  {
    if |s.messages| > 1 {
      KeptSplits(s.messages);
      assert Kept(s.messages) == Kept(s.messages[..|s.messages| - 1]) + s.messages[|s.messages| - 1].text;
      KeptSplits(s.messages[..|s.messages| - 1]);
      DropOldestKeeps(s);
      DropsToLast(DropOldest(s));
    }
  }

  /** A merge that overflows the last message on its own. */
  predicate MergeOverflows(s: State, role: Role, text: string, forceNew: bool) {
    && Merges(s.messages, role, forceNew)
    && |s.messages[|s.messages| - 1].text + text| > MAX_PUBLIC_TRANSCRIPT_CHARS
  }

  /** When the last message fills the cap by itself, it is all that is kept. */
  lemma FullLastStaysAlone(s: State)
    requires WellFormed(s) && s.messages != [] && |s.messages[|s.messages| - 1].text| == MAX_PUBLIC_TRANSCRIPT_CHARS
    ensures var t := CutSole(DropOverTotal(DropOverCount(s)));
            && t.messages == [s.messages[|s.messages| - 1]]
            && t.truncated == (s.truncated || |s.messages| > 1)
  {
    var a, b := DropOverCount(s), DropOverTotal(DropOverCount(s));
    DropOverCountKeeps(s);
    DropsToLast(a);
    DropOverTotalKeeps(a);
    DroppedFrontTransitive(s, a, b);
    SoleKept(b.messages);
  }

  lemma LastUnitsOfSum(front: string, whole: string)
    requires |whole| >= MAX_PUBLIC_TRANSCRIPT_CHARS
    ensures LastUnits(front + whole, MAX_PUBLIC_TRANSCRIPT_CHARS) == LastUnits(whole, MAX_PUBLIC_TRANSCRIPT_CHARS)
  {
  }

  lemma OverflowKeepsLastUnits(s: State, role: Role, text: string, forceNew: bool)
    requires WellFormed(s) && text != "" && MergeOverflows(s, role, text, forceNew)
    ensures var t := Append(s, role, text, forceNew);
            && Kept(t.messages) == LastUnits(Kept(s.messages) + text, MAX_PUBLIC_TRANSCRIPT_CHARS)
            && t.truncated == (s.truncated || |s.messages| > 1)
            && WellFormed(t) && Bounded(t) && t.counter == s.counter
  {
    var merged := WithText(s, role, text, forceNew);
    var n := |s.messages| - 1;
    MergedText(s, role, text, forceNew);
    DropsKeep(merged);
    FullLastStaysAlone(merged);
    SoleKept(Append(s, role, text, forceNew).messages);
    LastUnitsOfSum(Kept(s.messages[..n]), s.messages[n].text + text);
    assert Kept(s.messages) + text == Kept(s.messages[..n]) + (s.messages[n].text + text);
  }

  /** The kept text after a step is the end of the kept text before it followed by the new text. */
  lemma AppendKeepsSuffix(s: State, role: Role, text: string, forceNew: bool)
    requires WellFormed(s) && Bounded(s) && text != ""
    ensures var t := Append(s, role, text, forceNew);
            && WellFormed(t) && Bounded(t) && s.counter <= t.counter
            && IsSuffix(Kept(t.messages), Kept(s.messages) + text)
  {
    if MergeOverflows(s, role, text, forceNew) {
      OverflowKeepsLastUnits(s, role, text, forceNew);
    } else {
      NoOverflowMerge(s, role, text, forceNew);
      DropsKeep(WithText(s, role, text, forceNew));
    }
  }

  lemma NoOverflowMerge(s: State, role: Role, text: string, forceNew: bool)
    requires WellFormed(s) && text != "" && !MergeOverflows(s, role, text, forceNew)
    ensures WellFormed(WithText(s, role, text, forceNew))
    ensures Kept(WithText(s, role, text, forceNew).messages) == Kept(s.messages) + text
    ensures WithText(s, role, text, forceNew).truncated == s.truncated
    ensures s.counter <= WithText(s, role, text, forceNew).counter
  {
    MergedText(s, role, text, forceNew);
    if Merges(s.messages, role, forceNew) {
      var n := |s.messages| - 1;
      assert Kept(s.messages) + text == Kept(s.messages[..n]) + (s.messages[n].text + text);
    }
  }

  /** The one way to lose text without raising the flag: the only message grows past the cap. */
  predicate SoleOverflow(s: State, role: Role, text: string, forceNew: bool) {
    |s.messages| == 1 && MergeOverflows(s, role, text, forceNew)
  }

  ghost predicate Drops(s: State, role: Role, text: string, forceNew: bool) {
    |Kept(Append(s, role, text, forceNew).messages)| < |Kept(s.messages)| + |text|
  }

  /** A step raises the flag if and only if it drops text, except when the only message grows past the cap. */
  lemma FlagIff(s: State, role: Role, text: string, forceNew: bool)
    requires WellFormed(s) && Bounded(s) && text != ""
    ensures Append(s, role, text, forceNew).truncated <==>
            s.truncated || (Drops(s, role, text, forceNew) && !SoleOverflow(s, role, text, forceNew))
    ensures SoleOverflow(s, role, text, forceNew) ==> Drops(s, role, text, forceNew)
  {
    if MergeOverflows(s, role, text, forceNew) {
      OverflowKeepsLastUnits(s, role, text, forceNew);
      var n := |s.messages| - 1;
      assert |Kept(s.messages)| >= |s.messages[n].text|;
    } else {
      NoOverflowMerge(s, role, text, forceNew);
      DropsKeep(WithText(s, role, text, forceNew));
    }
  }

  // ---------------------------------------------------------------- runs

  datatype Chunk = Chunk(role: Role, text: string, forceNew: bool)

  function AllText(chunks: seq<Chunk>): string {
    if chunks == [] then "" else AllText(chunks[..|chunks| - 1]) + chunks[|chunks| - 1].text
  }

  /** Chunks reach `#appendMessage` only when they are not empty. */
  ghost predicate IsRun(states: seq<State>, chunks: seq<Chunk>) {
    && |states| == |chunks| + 1
    && states[0] == State([], 0, false)
    && (forall i :: 0 <= i < |chunks| ==>
          && chunks[i].text != ""
          && states[i + 1] == Append(states[i], chunks[i].role, chunks[i].text, chunks[i].forceNew))
  }

  lemma SuffixExtends(a: string, b: string, text: string, c: string)
    requires IsSuffix(a, b) && IsSuffix(c, a + text)
    ensures IsSuffix(c, b + text)
  {
    assert (b + text)[|b| - |a|..] == a + text;
    SuffixTransitive(c, a + text, b + text);
  }

  ghost predicate Faithful(s: State, all: string) {
    WellFormed(s) && Bounded(s) && IsSuffix(Kept(s.messages), all) && (s.truncated ==> |Kept(s.messages)| < |all|)
  }

  lemma StepKeepsSuffix(s: State, all: string, c: Chunk)
    requires Faithful(s, all) && c.text != ""
    ensures Faithful(Append(s, c.role, c.text, c.forceNew), all + c.text)
  {
    AppendKeepsSuffix(s, c.role, c.text, c.forceNew);
    FlagIff(s, c.role, c.text, c.forceNew);
    SuffixExtends(Kept(s.messages), all, c.text, Kept(Append(s, c.role, c.text, c.forceNew).messages));
  }

  lemma AllTextNext(chunks: seq<Chunk>, i: nat)
    requires 0 < i <= |chunks|
    ensures AllText(chunks[..i]) == AllText(chunks[..i - 1]) + chunks[i - 1].text
  {
    assert chunks[..i][..i - 1] == chunks[..i - 1];
  }

  /**
   Over any run the kept text is a suffix of everything appended, within 200 messages and 200000 units,
   with increasing ids, and a raised flag means that text was dropped.
   */
  lemma {:induction false} RunKeepsSuffix(states: seq<State>, chunks: seq<Chunk>, i: nat)
    requires IsRun(states, chunks) && i < |states|
    ensures WellFormed(states[i]) && Bounded(states[i])
    ensures IsSuffix(Kept(states[i].messages), AllText(chunks[..i]))
    ensures states[i].truncated ==> |Kept(states[i].messages)| < |AllText(chunks[..i])|
  {
    if i > 0 {
      RunKeepsSuffix(states, chunks, i - 1);
      StepKeepsSuffix(states[i - 1], AllText(chunks[..i - 1]), chunks[i - 1]);
      AllTextNext(chunks, i);
    }
  }

  /** Without such an overflow the flag tells exactly whether the transcript is complete. */
  lemma {:induction false} RunFlagIff(states: seq<State>, chunks: seq<Chunk>, i: nat)
    requires IsRun(states, chunks) && i < |states|
    requires forall k :: 0 <= k < i ==> !SoleOverflow(states[k], chunks[k].role, chunks[k].text, chunks[k].forceNew)
    ensures !states[i].truncated <==> Kept(states[i].messages) == AllText(chunks[..i])
  {
    RunKeepsSuffix(states, chunks, i);
    if i > 0 {
      var s, c := states[i - 1], chunks[i - 1];
      RunFlagIff(states, chunks, i - 1);
      RunKeepsSuffix(states, chunks, i - 1);
      FlagIff(s, c.role, c.text, c.forceNew);
      AllTextNext(chunks, i);
      assert |AllText(chunks[..i])| == |AllText(chunks[..i - 1])| + |c.text|;
    }
  }

  const FULL := State([Message(1, User, seq(MAX_PUBLIC_TRANSCRIPT_CHARS, _ => 'a'))], 1, false)

  lemma FullSoleOverflows()
    ensures Drops(FULL, User, "b", false) && !Append(FULL, User, "b", false).truncated
    ensures WellFormed(FULL) && Bounded(FULL) && |Kept(FULL.messages)| == MAX_PUBLIC_TRANSCRIPT_CHARS
  {
    SoleKept(FULL.messages);
    FlagIff(FULL, User, "b", false);
  }

  lemma FullIsReached()
    ensures Append(State([], 0, false), User, FULL.messages[0].text, false) == FULL
  {
    SoleKept(FULL.messages);
  }

  /**
   The exception is real: a run of two chunks, the first of which fills the transcript, loses text and
   shows no flag.
   */
  lemma SoleOverflowIsSilent()
    ensures exists states: seq<State>, chunks: seq<Chunk> ::
      IsRun(states, chunks) && !states[|chunks|].truncated && |Kept(states[|chunks|].messages)| < |AllText(chunks)|
  {
    var chunks := [Chunk(User, FULL.messages[0].text, false), Chunk(User, "b", false)];
    var last := Append(FULL, User, "b", false);
    var states := [State([], 0, false), FULL, last];
    FullIsReached();
    FullSoleOverflows();
    assert IsRun(states, chunks);
    AllTextNext(chunks, 1);
    AllTextNext(chunks, 2);
    assert chunks[..0] == [] && chunks[..2] == chunks;
    assert |AllText(chunks)| == MAX_PUBLIC_TRANSCRIPT_CHARS + 1;
    assert |Kept(last.messages)| < |AllText(chunks)|;
  }
}
