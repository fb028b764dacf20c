/**
 Which permission requests that left the table were announced by a `permission-resolved` event
 (desktop/src/host/acp-client.js). Listeners learn from this event alone that a request is over.
 */
module HostEvents {
  import opened Common
  import opened HostClient

  /** The request was admitted and is not in the table any more. */
  predicate Gone(s: State, serial: nat) {
    serial < s.admitted && serial !in Serials(s.permissions)
  }

  predicate Announced(s: State, serial: nat) {
    exists e :: e in s.events && e.serial == serial
  }

  predicate Answered(s: State, serial: nat) {
    exists w :: w in s.sent && w.Answer? && w.serial == serial
  }

  /** It was taken out of the table without an answer having been tried. */
  predicate WasDropped(s: State, serial: nat) {
    exists c :: c in s.closed && c.entry.serial == serial && c.how.Dropped?
  }

  // ---------------------------------------------------------------- events, answers and closings

  lemma {:induction false} EventsComeFromClosings(closed: seq<Closing>, e: Event)
    ensures e in EventsOf(closed) <==> exists c :: c in closed && e in EventOf(c)
  {
    if closed != [] {
      var front, last := closed[..|closed| - 1], closed[|closed| - 1];
      assert closed == front + [last];
      EventsComeFromClosings(front, e);
    }
  }

  lemma {:induction false} AnswersComeFromClosings(closed: seq<Closing>, w: Wire)
    ensures w in AnswersOf(closed) <==> exists c :: c in closed && w in AnswerOf(c)
  {
    if closed != [] {
      var front, last := closed[..|closed| - 1], closed[|closed| - 1];
      assert closed == front + [last];
      AnswersComeFromClosings(front, w);
    }
  }

  lemma {:induction false} AnswersAreSent(sent: seq<Wire>, w: Wire)
    ensures w in Answers(sent) <==> w in sent && w.Answer?
  {
    if sent != [] {
      var front, last := sent[..|sent| - 1], sent[|sent| - 1];
      assert sent == front + [last];
      AnswersAreSent(front, w);
    }
  }

  /** The one closing of a request that is gone. */
  lemma ClosingOf(s: State, serial: nat) returns (c: Closing)
    requires Books(s) && Gone(s, serial)
    ensures c in s.closed && c.entry.serial == serial
    ensures forall d :: d in s.closed && d.entry.serial == serial ==> d == c
  {
    var serials := ClosedSerials(s.closed);
    assert serial in serials;
    var i :| 0 <= i < |serials| && serials[i] == serial;
    c := s.closed[i];
    forall d | d in s.closed && d.entry.serial == serial ensures d == c {
      var j :| 0 <= j < |s.closed| && s.closed[j] == d;
      assert serials[j] == serial;
    }
  }

  /** What the closing of a request says about its event. */
  lemma ClosingDecidesEvent(s: State, serial: nat, c: Closing)
    requires s.events == EventsOf(s.closed) && c in s.closed && c.entry.serial == serial
    requires forall d :: d in s.closed && d.entry.serial == serial ==> d == c
    ensures Announced(s, serial) <==> !c.how.Unsent?
  {
    if Announced(s, serial) {
      var e :| e in s.events && e.serial == serial;
      EventsComeFromClosings(s.closed, e);
    }
    if !c.how.Unsent? { ClosingEmits(s, c); }
  }

  lemma ClosingEmits(s: State, c: Closing)
    requires s.events == EventsOf(s.closed) && c in s.closed && !c.how.Unsent?
    ensures Announced(s, c.entry.serial)
  {
    var e := EventOf(c)[0];
    EventsComeFromClosings(s.closed, e);
    assert e in s.events;
  }

  lemma ClosingDecidesAnswer(s: State, serial: nat, c: Closing)
    requires Answers(s.sent) == AnswersOf(s.closed) && c in s.closed && c.entry.serial == serial
    requires forall d :: d in s.closed && d.entry.serial == serial ==> d == c
    ensures Answered(s, serial) <==> !c.how.Unsent? && !c.how.Dropped?
  {
    if Answered(s, serial) {
      var w :| w in s.sent && w.Answer? && w.serial == serial;
      AnswersAreSent(s.sent, w);
      AnswersComeFromClosings(s.closed, w);
    }
    if !c.how.Unsent? && !c.how.Dropped? {
      var w := AnswerOf(c)[0];
      assert w in AnswerOf(c);
      AnswersComeFromClosings(s.closed, w);
      AnswersAreSent(s.sent, w);
    }
  }

  /**
   The exact condition: a permission request that left the table was announced if and only if its answer was
   written or it was dropped.
   */
  lemma AnnouncedIff(s: State, serial: nat)
    requires Reachable(s) && Gone(s, serial)
    ensures Announced(s, serial) <==> Answered(s, serial) || WasDropped(s, serial)
  {
    ReachableKeepsBooks(s);
    var c := ClosingOf(s, serial);
    ClosingDecidesEvent(s, serial, c);
    ClosingDecidesAnswer(s, serial, c);
  }

  // ---------------------------------------------------------------- one event and one answer per request

  predicate DistinctClosings(closed: seq<Closing>) {
    forall i, j :: 0 <= i < j < |closed| ==> closed[i].entry.serial != closed[j].entry.serial
  }

  predicate DistinctEvents(es: seq<Event>) {
    forall i, j :: 0 <= i < j < |es| ==> es[i].serial != es[j].serial
  }

  predicate DistinctAnswers(ws: seq<Wire>) {
    forall i, j :: 0 <= i < j < |ws| && ws[i].Answer? && ws[j].Answer? ==> ws[i].serial != ws[j].serial
  }

  lemma {:induction false} EventsAreDistinct(closed: seq<Closing>)
    requires DistinctClosings(closed)
    ensures DistinctEvents(EventsOf(closed))
  {
    if closed != [] {
      var front, last := closed[..|closed| - 1], closed[|closed| - 1];
      EventsAreDistinct(front);
      forall e | e in EventsOf(front) ensures e.serial != last.entry.serial {
        EventsComeFromClosings(front, e);
      }
      OneMoreEvent(EventsOf(front), EventOf(last), last.entry.serial);
    }
  }

  lemma OneMoreEvent(es: seq<Event>, more: seq<Event>, serial: nat)
    requires DistinctEvents(es) && |more| <= 1
    requires (forall e :: e in es ==> e.serial != serial) && forall e :: e in more ==> e.serial == serial
    ensures DistinctEvents(es + more)
  {
    assert forall i :: 0 <= i < |es| ==> es[i] in es;
  }

  lemma {:induction false} AnswersAreDistinct(closed: seq<Closing>)
    requires DistinctClosings(closed)
    ensures DistinctAnswers(AnswersOf(closed))
  {
    if closed != [] {
      var front, last := closed[..|closed| - 1], closed[|closed| - 1];
      AnswersAreDistinct(front);
      forall w | w in AnswersOf(front) ensures w.Answer? ==> w.serial != last.entry.serial {
        AnswersComeFromClosings(front, w);
      }
      OneMoreAnswer(AnswersOf(front), AnswerOf(last), last.entry.serial);
    }
  }

  lemma OneMoreAnswer(ws: seq<Wire>, more: seq<Wire>, serial: nat)
    requires DistinctAnswers(ws) && |more| <= 1
    requires forall w :: w in ws && w.Answer? ==> w.serial != serial
    requires forall w :: w in more && w.Answer? ==> w.serial == serial
    ensures DistinctAnswers(ws + more)
  {
    assert forall i :: 0 <= i < |ws| ==> ws[i] in ws;
  }

  lemma {:induction false} SentAnswersAreDistinct(sent: seq<Wire>)
    requires DistinctAnswers(Answers(sent))
    ensures DistinctAnswers(sent)
  {
    if sent != [] {
      var front, last := sent[..|sent| - 1], sent[|sent| - 1];
      var before := Answers(front);
      assert forall i :: 0 <= i < |before| ==> Answers(sent)[i] == before[i];
      SentAnswersAreDistinct(front);
      if last.Answer? {
        forall w | w in front && w.Answer? ensures w.serial != last.serial {
          AnswersAreSent(front, w);
          var k :| 0 <= k < |before| && before[k] == w;
          assert Answers(sent)[k] == w && Answers(sent)[|before|] == last;
        }
        OneMoreAnswer(front, [last], last.serial);
        assert sent == front + [last];
      } else {
        assert sent == front + [last];
      }
    }
  }

  /** A selection, a cancellation and an expiry are told with the answer that was written, a closed transport without one. */
  ghost predicate EventIsTrue(s: State, e: Event) {
    match e.outcome
    case AsSelected => exists option :: Answer(e.serial, e.requestId, Some(option)) in s.sent
    case AsCancelled | AsExpired => Answer(e.serial, e.requestId, None) in s.sent
    case TransportClosed => !Answered(s, e.serial)
  }

  /**
   A request is announced at most once and answered at most once, and only when it is gone. The announcement names
   its id and tells the truth about the answer.
   */
  lemma AnnouncementsAreTruthful(s: State)
    requires Reachable(s)
    ensures DistinctEvents(s.events) && DistinctAnswers(s.sent)
    ensures forall e :: e in s.events ==> Gone(s, e.serial) && EventIsTrue(s, e)
  {
    ReachableKeepsBooks(s);
    assert forall i :: 0 <= i < |s.closed| ==> ClosedSerials(s.closed)[i] == s.closed[i].entry.serial;
    assert DistinctClosings(s.closed);
    EventsAreDistinct(s.closed);
    AnswersAreDistinct(s.closed);
    SentAnswersAreDistinct(s.sent);
    forall e | e in s.events ensures Gone(s, e.serial) && EventIsTrue(s, e) {
      EventTruth(s, e);
    }
  }

  lemma EventTruth(s: State, e: Event)
    requires Books(s) && e in s.events
    ensures Gone(s, e.serial) && EventIsTrue(s, e)
  {
    EventsComeFromClosings(s.closed, e);
    var c :| c in s.closed && e in EventOf(c);
    ClosedIsGone(s, c);
    var d := ClosingOf(s, e.serial);
    ClosingDecidesAnswer(s, e.serial, c);
    forall w | w in AnswerOf(c) ensures w in s.sent {
      AnswersComeFromClosings(s.closed, w);
      AnswersAreSent(s.sent, w);
    }
    if c.how.Selected? {
      assert Answer(e.serial, e.requestId, Some(c.how.option)) in AnswerOf(c);
    } else if !c.how.Dropped? {
      assert Answer(e.serial, e.requestId, None) in AnswerOf(c);
    }
  }

  // ---------------------------------------------------------------- step by step

  /** Whether an answer to this id could be written in the step; without one to write there is nothing to fail. */
  predicate Writes(step: Step, requestId: RequestId) {
    match step
    case Line(_, _, writes) => writes
    case Stop(broken) => requestId !in broken
    case PermissionTimer(_, writes) => writes
    case Respond(_, _, writes) => writes
    case _ => true
  }

  /** Since s, exactly the closings whose answer could not be written are `Unsent`. */
  ghost predicate ClosedSince(s: State, t: State, writes: RequestId -> bool) {
    forall c :: c in t.closed ==> c in s.closed || (c.how.Unsent? <==> !writes(c.entry.requestId))
  }

  lemma ResolveClosedSince(
      s: State, requestId: RequestId, option: Option<OptionId>, unselected: How, writes: RequestId -> bool)
    requires !unselected.Unsent?
    ensures ClosedSince(s, ResolvePermission(s, requestId, option, unselected, writes(requestId)), writes)
  {
  }

  lemma {:induction false} CancelClosedSince(s: State, broken: set<RequestId>, writes: RequestId -> bool)
    requires forall requestId :: writes(requestId) <==> requestId !in broken
    ensures ClosedSince(s, CancelPermissions(s, broken), writes)
    decreases |s.permissions|
  {
    if s.permissions != [] {
      var requestId := s.permissions[0].requestId;
      ResolveClosedSince(s, requestId, None, Cancelled, writes);
      CancelClosedSince(ResolvePermission(s, requestId, None, Cancelled, requestId !in broken), broken, writes);
    }
  }

  lemma AnnounceClosedSince(s: State, requestId: RequestId, reaction: Reaction, can: bool, writes: RequestId -> bool)
    requires can == writes(requestId)
    ensures ClosedSince(s, Announce(s, requestId, reaction, can), writes)
  {
    match reaction
    case Nobody => ResolveClosedSince(s, requestId, None, Cancelled, writes);
    case Reacts(answer, throws) =>
      var t := if answer.Some? then ResolvePermission(s, requestId, answer.value, Cancelled, can) else s;
      if answer.Some? { ResolveClosedSince(s, requestId, answer.value, Cancelled, writes); }
      ResolveClosedSince(t, requestId, None, Cancelled, writes);
  }

  lemma StepClosedSince(s: State, step: Step, writes: RequestId -> bool)
    requires forall requestId :: writes(requestId) <==> Writes(step, requestId)
    ensures ClosedSince(s, Next(s, step), writes)
  {
    match step
    case Line(_, m, can) =>
      if m.PermissionRequest? {
        AnnounceClosedSince(Admit(s, m.requestId, m.options), m.requestId, m.reaction, can, writes);
      }
    case Stop(broken) => CancelClosedSince(s, broken, writes);
    case PermissionTimer(requestId, can) => ResolveClosedSince(s, requestId, None, Expired, writes);
    case Respond(requestId, option, can) => ResolveClosedSince(s, requestId, option, Cancelled, writes);
    case _ =>
  }

  /**
   A request that a step takes out of the table is announced in that step if and only if the step can write its
   answer, or ends the child and needs none.
   */
  lemma LeavingIsAnnouncedIff(s: State, step: Step, c: Closing)
    requires Reachable(s) && c in Next(s, step).closed && c !in s.closed
    ensures Gone(Next(s, step), c.entry.serial) && (Announced(Next(s, step), c.entry.serial) <==> Writes(step, c.entry.requestId))
  {
    var t := Next(s, step);
    ReachableKeepsBooks(s);
    StepKeepsBooks(s, step);
    StepClosedSince(s, step, requestId => Writes(step, requestId));
    ClosedIsGone(t, c);
    var d := ClosingOf(t, c.entry.serial);
    ClosingDecidesEvent(t, c.entry.serial, c);
  }

  lemma ClosedIsGone(s: State, c: Closing)
    requires Books(s) && c in s.closed
    ensures Gone(s, c.entry.serial)
  {
    var i :| 0 <= i < |s.closed| && s.closed[i] == c;
    assert ClosedSerials(s.closed)[i] == c.entry.serial;
    assert ClosedSerials(s.closed)[i] in ClosedSerials(s.closed);
  }

  /** Once gone without an announcement, a request is never announced. */
  lemma SilenceIsForGood(s: State, serial: nat, steps: seq<Step>)
    requires Reachable(s) && Gone(s, serial) && !Announced(s, serial)
    ensures Gone(Run(s, steps), serial) && !Announced(Run(s, steps), serial)
  {
    var t := Run(s, steps);
    ReachableKeepsBooks(s);
    RunKeepsBooks(s, steps);
    HistoryIsNeverRewritten(s, steps);
    var c := ClosingOf(s, serial);
    ClosingDecidesEvent(s, serial, c);
    var i :| 0 <= i < |s.closed| && s.closed[i] == c;
    assert t.closed[i] == c && ClosedSerials(t.closed)[i] == serial;
    var d := ClosingOf(t, serial);
    ClosingDecidesEvent(t, serial, c);
  }

  // ---------------------------------------------------------------- a run

  /** A child, a request that a listener leaves open, and an answer whose line cannot be written. */
  lemma AnUnsentAnswerIsNeverAnnounced(requestId: RequestId, option: OptionId)
    ensures exists s :: Reachable(s) && Gone(s, 0) && !Announced(s, 0)
  {
    var ask := Line(0, PermissionRequest(requestId, true, [option], Reacts(None, false)), true);
    var answer := Respond(requestId, Some(option), false);
    var steps := [Spawn(true, true), ask, answer];
    var a := Next(START, steps[0]);
    var b := Next(a, steps[1]);
    var c := Next(b, steps[2]);
    assert b.permissions == [Entry(0, requestId, [option])];
    ThreeSteps(START, steps);
    assert Reachable(c);
  }

  lemma ThreeSteps(s: State, steps: seq<Step>)
    requires |steps| == 3
    ensures Run(s, steps) == Next(Next(Next(s, steps[0]), steps[1]), steps[2])
  {
    assert steps[1..][0] == steps[1] && steps[1..][1..] == [steps[2]];
    assert Run(s, steps) == Run(Next(s, steps[0]), steps[1..]);
    assert Run(Next(Next(s, steps[0]), steps[1]), [steps[2]]) == Run(Next(Next(Next(s, steps[0]), steps[1]), steps[2]), []);
  }
}
