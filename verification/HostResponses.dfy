/**
 Who gets which answer (desktop/src/host/acp-client.js): a response settles the request it names, a timer its own
 request, and a permission decision goes to the request it is for. Over whole runs, everything that was settled or
 decided has its cause.
 */
module HostResponses {
  import opened Common
  import opened HostClient

  // ---------------------------------------------------------------- one answer to one request

  /** `rest` is `all` without x, in the same order. */
  ghost predicate LeavesOut<T>(all: seq<T>, x: T, rest: seq<T>) {
    x !in rest && exists k :: 0 <= k <= |rest| && all == rest[..k] + [x] + rest[k..]
  }

  /** Exactly this request is settled, with this outcome, and nothing else changes. */
  ghost predicate SettlesOnly(s: State, t: State, id: nat, outcome: Outcome) {
    && t.settled == s.settled + [Settlement(id, outcome)]
    && LeavesOut(s.pending, id, t.pending)
    && t == s.(pending := t.pending, settled := t.settled)
  }

  lemma WithoutLeavesOut<T>(xs: seq<T>, k: nat)
    requires k < |xs| && forall i :: 0 <= i < |xs| && i != k ==> xs[i] != xs[k]
    ensures LeavesOut(xs, xs[k], Without(xs, k))
  {
    var rest := Without(xs, k);
    assert rest[..k] == xs[..k] && rest[k..] == xs[k + 1..];
    assert xs == rest[..k] + [xs[k]] + rest[k..];
  }

  lemma PendingSettles(s: State, id: nat, outcome: Outcome)
    requires Books(s) && id in s.pending
    ensures SettlesOnly(s, SettleFound(s, id, outcome), id, outcome)
  {
    var k := Find(s.pending, id);
    var j :| 0 <= j < |s.pending| && s.pending[j] == id;
    assert k < |s.pending| && s.pending[k] == id;
    WithoutLeavesOut(s.pending, k);
  }

  /** A response of the running child settles the request it names with what it carries, and only that one. */
  lemma ResponseSettlesItsRequest(s: State, child: ChildId, id: nat, outcome: Outcome, writes: bool)
    requires Reachable(s) && s.child == Some(child) && id in s.pending
    ensures SettlesOnly(s, Next(s, Line(child, Response(id, outcome), writes)), id, outcome)
  {
    ReachableKeepsBooks(s);
    PendingSettles(s, id, outcome);
  }

  /** The timer of a request rejects that request; after the request was settled it does nothing. */
  lemma TimerRejectsItsRequest(s: State, id: nat)
    requires Reachable(s)
    ensures if id in s.pending then SettlesOnly(s, Next(s, RequestTimer(id)), id, Rejected(HostTimeout))
            else Next(s, RequestTimer(id)) == s
  {
    ReachableKeepsBooks(s);
    if id in s.pending {
      PendingSettles(s, id, Rejected(HostTimeout));
    } else {
      assert forall i :: 0 <= i < |s.pending| ==> s.pending[i] in s.pending;
      MissingIsNotFound(s.pending, id);
    }
  }

  /** What every request that was pending is rejected with when a connection ends. */
  function EndReason(step: Step): Failure
    requires step.Stop? || step.Exit? || step.StartFailed?
  {
    if step.Stop? then HostStopped else step.reason
  }

  lemma CancelKeepsRequests(s: State, broken: set<RequestId>)
    ensures var t := CancelPermissions(s, broken); t.pending == s.pending && t.settled == s.settled && t.nextId == s.nextId
    decreases |s.permissions|
  {
    if s.permissions != [] {
      var requestId := s.permissions[0].requestId;
      CancelKeepsRequests(ResolvePermission(s, requestId, None, Cancelled, requestId !in broken), broken);
    }
  }

  /** The end of a connection rejects exactly the pending requests, in the order they were made, with its reason. */
  lemma EndRejectsAll(s: State, step: Step)
    requires Ends(s, step)
    ensures var t, n := Next(s, step), |s.settled|;
      && |t.settled| == n + |s.pending| && t.settled[..n] == s.settled
      && forall i :: 0 <= i < |s.pending| ==> t.settled[n + i] == Settlement(s.pending[i], Rejected(EndReason(step)))
  {
    if step.Stop? { CancelKeepsRequests(s, step.broken); }
  }

  // ---------------------------------------------------------------- every settlement has its cause

  /** The step, taken in s, gives this request this outcome. */
  predicate Settles(s: State, step: Step, id: nat, outcome: Outcome) {
    match step
    case Line(c, m, _) => s.child == Some(c) && m == Response(id, outcome)
    case RequestTimer(i) => i == id && outcome == Rejected(HostTimeout)
    case Exit(c, reason) => s.child == Some(c) && outcome == Rejected(reason)
    case StartFailed(c, reason) => s.child == Some(c) && outcome == Rejected(reason)
    case Stop(_) => outcome == Rejected(HostStopped)
    case Spawn(_, writes) => !writes && id == s.nextId && outcome == Rejected(HostUnavailable)
    case Issue(_, writes) => !writes && id == s.nextId && outcome == Rejected(HostUnavailable)
    case _ => false
  }

  lemma AnnounceKeepsRequests(s: State, requestId: RequestId, reaction: Reaction, writes: bool)
    ensures var t := Announce(s, requestId, reaction, writes); t.settled == s.settled && t.pending == s.pending
  {
  }

  lemma StepSettles(s: State, step: Step, x: Settlement)
    requires x in Next(s, step).settled && x !in s.settled
    ensures Settles(s, step, x.id, x.outcome)
  {
    match step
    case Stop(broken) => CancelKeepsRequests(s, broken);
    case Line(_, m, writes) =>
      if m.PermissionRequest? {
        AnnounceKeepsRequests(Admit(s, m.requestId, m.options), m.requestId, m.reaction, writes);
      }
    case _ =>
  }

  lemma {:induction false} RunNext(s: State, steps: seq<Step>, k: nat)
    requires k < |steps|
    ensures Run(s, steps[..k + 1]) == Next(Run(s, steps[..k]), steps[k])
    decreases k
  {
    if k == 0 {
      assert steps[..1] == [steps[0]] && steps[..0] == [] && [steps[0]][1..] == [];
      assert Run(s, [steps[0]]) == Run(Next(s, steps[0]), []);
    } else {
      assert steps[..k + 1][1..] == steps[1..][..k] && steps[..k][1..] == steps[1..][..k - 1];
      RunNext(Next(s, steps[0]), steps[1..], k - 1);
    }
  }

  /** Over any run, every settlement was caused by a step that gave that request that outcome. */
  lemma {:induction false} SettlementsHaveCauses(steps: seq<Step>, n: nat, x: Settlement)
    requires n <= |steps| && x in Run(START, steps[..n]).settled
    ensures exists k :: 0 <= k < n && Settles(Run(START, steps[..k]), steps[k], x.id, x.outcome)
    decreases n
  {
    assert steps[..0] == [];
    if n > 0 {
      RunNext(START, steps, n - 1);
      if x in Run(START, steps[..n - 1]).settled {
        SettlementsHaveCauses(steps, n - 1, x);
      } else {
        StepSettles(Run(START, steps[..n - 1]), steps[n - 1], x);
      }
    }
  }

  /** So a request that resolved with a value got it from a response that names it, sent by the child then running. */
  lemma ValuesComeFromOwnResponses(steps: seq<Step>, id: nat, value: string)
    requires Settlement(id, Resolved(value)) in Run(START, steps).settled
    ensures exists k :: 0 <= k < |steps| && steps[k].Line? && steps[k].message == Response(id, Resolved(value))
              && Run(START, steps[..k]).child == Some(steps[k].child)
  {
    assert steps[..|steps|] == steps;
    SettlementsHaveCauses(steps, |steps|, Settlement(id, Resolved(value)));
    var k :| 0 <= k < |steps| && Settles(Run(START, steps[..k]), steps[k], id, Resolved(value));
  }

  // ---------------------------------------------------------------- requests are written

  /** The line of every pending request was written. */
  ghost predicate AllAsked(s: State) {
    forall id :: id in s.pending ==> Request(id) in s.sent
  }

  lemma SentStays(s: State, t: State)
    requires AllAsked(s) && s.sent <= t.sent && forall id :: id in t.pending ==> id in s.pending || Request(id) in t.sent
    ensures AllAsked(t)
  {
  }

  lemma StepPends(s: State, step: Step, id: nat)
    requires id in Next(s, step).pending
    ensures id in s.pending || Request(id) in Next(s, step).sent
  {
    match step
    case Stop(broken) => CancelKeepsRequests(s, broken);
    case Line(_, m, writes) =>
      if m.PermissionRequest? {
        AnnounceKeepsRequests(Admit(s, m.requestId, m.options), m.requestId, m.reaction, writes);
      }
    case _ =>
  }

  lemma StepAsks(s: State, step: Step)
    requires AllAsked(s)
    ensures AllAsked(Next(s, step))
  {
    StepExtends(s, step);
    forall id | id in Next(s, step).pending ensures id in s.pending || Request(id) in Next(s, step).sent {
      StepPends(s, step, id);
    }
    SentStays(s, Next(s, step));
  }

  lemma {:induction false} RunAsks(s: State, steps: seq<Step>)
    requires AllAsked(s)
    ensures AllAsked(Run(s, steps))
    decreases |steps|
  {
    if steps != [] {
      StepAsks(s, steps[0]);
      RunAsks(Next(s, steps[0]), steps[1..]);
    }
  }

  /** In every reachable state each request that is waited for has been written to the Host. */
  lemma PendingWasAsked(s: State, id: nat)
    requires Reachable(s) && id in s.pending
    ensures Request(id) in s.sent
  {
    var steps :| s == Run(START, steps);
    RunAsks(START, steps);
  }

  // ---------------------------------------------------------------- permission decisions

  /** Whether a call of `#resolvePermission` has something to decide: the request is open and the option was offered. */
  predicate CanDecide(entry: Entry, requestId: RequestId, option: Option<OptionId>) {
    entry.requestId == requestId && (option.Some? ==> option.value in entry.options)
  }

  function AnswerLines(entry: Entry, option: Option<OptionId>, writes: bool): seq<Wire> {
    if writes then [Answer(entry.serial, entry.requestId, option)] else []
  }

  /** Exactly this request leaves the table, decided in this way, with this line written if it can be. */
  ghost predicate DecidesOnly(s: State, t: State, entry: Entry, option: Option<OptionId>, how: How, writes: bool) {
    && LeavesOut(s.permissions, entry, t.permissions)
    && t.closed == s.closed + [Closing(entry, if writes then how else Unsent)]
    && t.sent == s.sent + AnswerLines(entry, option, writes)
    && t == s.(permissions := t.permissions, closed := t.closed, sent := t.sent, events := t.events)
  }

  lemma OpenIsFound(s: State, entry: Entry)
    requires Books(s) && entry in s.permissions
    ensures var k := FindEntry(s.permissions, entry.requestId); k < |s.permissions| && s.permissions[k] == entry
    ensures LeavesOut(s.permissions, entry, Without(s.permissions, FindEntry(s.permissions, entry.requestId)))
  {
    var j :| 0 <= j < |s.permissions| && s.permissions[j] == entry;
    var k := FindEntry(s.permissions, entry.requestId);
    assert k == j;
    WithoutLeavesOut(s.permissions, k);
  }

  lemma DecisionIsForItsRequest(
      s: State, requestId: RequestId, option: Option<OptionId>, unselected: How, writes: bool, entry: Entry)
    requires Books(s) && entry in s.permissions && CanDecide(entry, requestId, option)
    ensures DecidesOnly(s, ResolvePermission(s, requestId, option, unselected, writes), entry, option,
                        if option.Some? then Selected(option.value) else unselected, writes)
  {
    OpenIsFound(s, entry);
    assert s.sent + [] == s.sent;
  }

  lemma NothingToDecide(s: State, requestId: RequestId, option: Option<OptionId>, unselected: How, writes: bool)
    requires forall entry :: entry in s.permissions ==> !CanDecide(entry, requestId, option)
    ensures ResolvePermission(s, requestId, option, unselected, writes) == s
  {
    var k := FindEntry(s.permissions, requestId);
    if k < |s.permissions| { assert s.permissions[k] in s.permissions; }
  }

  /** A decision of the user goes to the request it is for; one for no open request, or for an option not offered, to none. */
  lemma RespondDecidesItsRequest(s: State, requestId: RequestId, option: Option<OptionId>, writes: bool)
    requires Reachable(s)
    ensures var t := Next(s, Respond(requestId, option, writes));
      && (forall entry :: entry in s.permissions && CanDecide(entry, requestId, option) ==>
            DecidesOnly(s, t, entry, option, if option.Some? then Selected(option.value) else Cancelled, writes))
      && ((forall entry :: entry in s.permissions ==> !CanDecide(entry, requestId, option)) ==> t == s)
  {
    ReachableKeepsBooks(s);
    forall entry | entry in s.permissions && CanDecide(entry, requestId, option)
      ensures DecidesOnly(s, Next(s, Respond(requestId, option, writes)), entry, option,
                          if option.Some? then Selected(option.value) else Cancelled, writes)
    {
      DecisionIsForItsRequest(s, requestId, option, Cancelled, writes, entry);
    }
    if forall entry :: entry in s.permissions ==> !CanDecide(entry, requestId, option) {
      NothingToDecide(s, requestId, option, Cancelled, writes);
    }
  }

  /** The timer of a permission request cancels that request as expired. */
  lemma TimerExpiresItsRequest(s: State, entry: Entry, writes: bool)
    requires Reachable(s) && entry in s.permissions
    ensures DecidesOnly(s, Next(s, PermissionTimer(entry.requestId, writes)), entry, None, Expired, writes)
  {
    ReachableKeepsBooks(s);
    DecisionIsForItsRequest(s, entry.requestId, None, Expired, writes, entry);
  }

  /** A proper request of the running child is admitted with the options it offers and stays open while nobody decides. */
  lemma RequestIsAdmitted(s: State, child: ChildId, requestId: RequestId, options: seq<OptionId>, writes: bool)
    requires Reachable(s) && s.child == Some(child) && options != []
    requires forall entry :: entry in s.permissions ==> entry.requestId != requestId
    ensures var t := Next(s, Line(child, PermissionRequest(requestId, true, options, Reacts(None, false)), writes));
      t == s.(permissions := s.permissions + [Entry(s.admitted, requestId, options)], admitted := s.admitted + 1)
  {
    assert !Has(s, requestId);
  }

  /** Without a listener, and with one that throws, it is cancelled at once; with one that decides, decided so. */
  lemma RequestIsDecidedAtOnce(
      s: State, child: ChildId, requestId: RequestId, options: seq<OptionId>, reaction: Reaction, writes: bool)
    requires Reachable(s) && s.child == Some(child) && options != []
    requires forall entry :: entry in s.permissions ==> entry.requestId != requestId
    requires reaction.Nobody? || reaction == Reacts(None, true)
             || (reaction.Reacts? && reaction.answer.Some? && (reaction.answer.value.Some? ==> reaction.answer.value.value in options))
    ensures var t := Next(s, Line(child, PermissionRequest(requestId, true, options, reaction), writes));
      var entry := Entry(s.admitted, requestId, options);
      var option := if reaction.Reacts? && reaction.answer.Some? then reaction.answer.value else None;
      DecidesOnly(Admit(s, requestId, options), t, entry, option, if option.Some? then Selected(option.value) else Cancelled, writes)
  {
    ReachableKeepsBooks(s);
    assert !Has(s, requestId);
    var a, entry := Admit(s, requestId, options), Entry(s.admitted, requestId, options);
    AdmitKeepsBooks(s, requestId, options);
    assert entry in a.permissions;
    var option := if reaction.Reacts? && reaction.answer.Some? then reaction.answer.value else None;
    DecisionIsForItsRequest(a, requestId, option, Cancelled, writes, entry);
    var t := ResolvePermission(a, requestId, option, Cancelled, writes);
    forall other | other in t.permissions ensures other.requestId != requestId {
    }
    NothingToDecide(t, requestId, None, Cancelled, writes);
  }

  /** A malformed request, one without options, and one whose id is open are refused, and nothing is admitted. */
  lemma BadRequestIsRefused(s: State, child: ChildId, m: Message, writes: bool)
    requires s.child == Some(child) && m.PermissionRequest?
    requires !m.wellFormed || m.options == [] || exists entry :: entry in s.permissions && entry.requestId == m.requestId
    ensures Next(s, Line(child, m, writes)) == s.(sent := s.sent + if writes then [Refusal(m.requestId)] else [])
  {
    if exists entry :: entry in s.permissions && entry.requestId == m.requestId {
      assert Has(s, m.requestId);
    }
    assert s.sent + [] == s.sent;
  }

  function StopClosings(entries: seq<Entry>, broken: set<RequestId>): seq<Closing> {
    seq(|entries|, i requires 0 <= i < |entries| =>
      Closing(entries[i], if entries[i].requestId in broken then Unsent else Cancelled))
  }

  lemma StopClosingsCons(closed: seq<Closing>, entries: seq<Entry>, broken: set<RequestId>)
    requires entries != []
    ensures closed + StopClosings(entries, broken) ==
            closed + StopClosings(entries[..1], broken) + StopClosings(entries[1..], broken)
  {
  }

  /** Stopping cancels every open request, in the order they came; those whose answer cannot be written get none. */
  lemma {:induction false} StopCancelsAll(s: State, broken: set<RequestId>)
    requires Books(s)
    ensures CancelPermissions(s, broken).closed == s.closed + StopClosings(s.permissions, broken)
    decreases |s.permissions|
  {
    if s.permissions == [] {
      assert s.closed + StopClosings(s.permissions, broken) == s.closed;
    } else {
      StopCancelsFirst(s, broken);
      StopClosingsCons(s.closed, s.permissions, broken);
      var requestId := s.permissions[0].requestId;
      StopCancelsAll(ResolvePermission(s, requestId, None, Cancelled, requestId !in broken), broken);
    }
  }

  lemma StopCancelsFirst(s: State, broken: set<RequestId>)
    requires Books(s) && s.permissions != []
    ensures var t := ResolvePermission(s, s.permissions[0].requestId, None, Cancelled, s.permissions[0].requestId !in broken);
      && t.permissions == s.permissions[1..] && Books(t)
      && t.closed == s.closed + StopClosings(s.permissions[..1], broken)
  {
    var requestId := s.permissions[0].requestId;
    ResolveKeepsBooks(s, requestId, None, Cancelled, requestId !in broken);
    assert FindEntry(s.permissions, requestId) == 0;
  }

  // ---------------------------------------------------------------- every selection has its cause

  /** The step, taken in s, selects the option for the request with this id. */
  predicate Selects(s: State, step: Step, requestId: RequestId, option: OptionId) {
    match step
    case Respond(id, o, writes) => id == requestId && o == Some(option) && writes
    case Line(c, m, writes) =>
      && s.child == Some(c) && m.PermissionRequest? && m.requestId == requestId && writes
      && m.reaction.Reacts? && m.reaction.answer == Some(Some(option))
    case _ => false
  }

  /** What was closed since s with a selection was closed for this id with this option. */
  ghost predicate SelectedOnly(s: State, t: State, requestId: RequestId, option: Option<OptionId>) {
    forall c :: c in t.closed && c.how.Selected? ==> c in s.closed || (c.entry.requestId == requestId && option == Some(c.how.option))
  }

  lemma ResolveSelects(s: State, requestId: RequestId, option: Option<OptionId>, unselected: How, writes: bool)
    requires !unselected.Selected?
    ensures SelectedOnly(s, ResolvePermission(s, requestId, option, unselected, writes), requestId, if writes then option else None)
  {
  }

  lemma AnnounceSelects(s: State, requestId: RequestId, reaction: Reaction, writes: bool)
    ensures SelectedOnly(s, Announce(s, requestId, reaction, writes), requestId,
      if writes && reaction.Reacts? && reaction.answer.Some? then reaction.answer.value else None)
  {
    match reaction
    case Nobody => ResolveSelects(s, requestId, None, Cancelled, writes);
    case Reacts(answer, throws) =>
      var t := if answer.Some? then ResolvePermission(s, requestId, answer.value, Cancelled, writes) else s;
      if answer.Some? { ResolveSelects(s, requestId, answer.value, Cancelled, writes); }
      ResolveSelects(t, requestId, None, Cancelled, writes);
  }

  lemma StepSelects(s: State, step: Step, c: Closing)
    requires Books(s) && c in Next(s, step).closed && c !in s.closed && c.how.Selected?
    ensures Selects(s, step, c.entry.requestId, c.how.option)
  {
    match step
    case Stop(broken) => StopCancelsAll(s, broken);
    case Line(_, m, writes) =>
      if m.PermissionRequest? {
        AnnounceSelects(Admit(s, m.requestId, m.options), m.requestId, m.reaction, writes);
      }
    case PermissionTimer(requestId, writes) => ResolveSelects(s, requestId, None, Expired, writes);
    case Respond(requestId, option, writes) => ResolveSelects(s, requestId, option, Cancelled, writes);
    case _ =>
  }

  /** Over any run, an option that was selected for a request was selected for that request by a listener. */
  lemma {:induction false} SelectionsHaveCauses(steps: seq<Step>, n: nat, c: Closing)
    requires n <= |steps| && c in Run(START, steps[..n]).closed && c.how.Selected?
    ensures exists k :: 0 <= k < n && Selects(Run(START, steps[..k]), steps[k], c.entry.requestId, c.how.option)
    decreases n
  {
    assert steps[..0] == [];
    if n > 0 {
      RunNext(START, steps, n - 1);
      if c in Run(START, steps[..n - 1]).closed {
        SelectionsHaveCauses(steps, n - 1, c);
      } else {
        RunKeepsBooks(START, steps[..n - 1]);
        StepSelects(Run(START, steps[..n - 1]), steps[n - 1], c);
      }
    }
  }
}
