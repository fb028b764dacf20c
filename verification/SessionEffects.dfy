/** What each step of a session does (desktop/src/conversation-controller.js), told from the outside. */
module SessionEffects {
  import opened Common
  import opened Session
  import opened SessionProofs
  import QueueSnapshot

  // ---------------------------------------------------------------- public queue ids are kept

  lemma {:induction false} EnsureNamesKeepsIds(n: Names, ps: seq<PromptId>, p: PromptId)
    ensures p in n.publicIds ==> p in EnsureNames(n, ps).publicIds && EnsureNames(n, ps).publicIds[p] == n.publicIds[p]
    ensures p !in n.publicIds && p in EnsureNames(n, ps).publicIds ==> EnsureNames(n, ps).publicIds[p] > n.counter
    ensures EnsureNames(n, ps).counter >= n.counter
  {
    if ps != [] {
      EnsureNamesKeepsIds(n, ps[..|ps| - 1], p);
    }
  }

  /** Whether the step makes a session forget which prompt an id is for: an applied snapshot without the prompt. */
  predicate LosesName(s: State, step: Step, p: PromptId) {
    AppliesSnapshot(s, step) && p !in LiveIds(step.next) && p !in IdsOf(s.submissions)
  }

  /**
   A prompt keeps its public id through every step, unless it is neither live in an applied snapshot nor submitted
   here; then it has none. A prompt without an id gets one exactly when an applied snapshot shows it live, and a new one.
   */
  lemma PublicIdIsKept(s: State, step: Step, p: PromptId)
    ensures var before, after := s.names.publicIds, Apply(s, step).names.publicIds;
      if p in before then
        if LosesName(s, step, p) then p !in after else p in after && after[p] == before[p]
      else
        && (p in after <==> AppliesSnapshot(s, step) && p in LiveIds(step.next))
        && (p in after ==> after[p] > s.names.counter)
  {
    if AppliesSnapshot(s, step) {
      EnsureNamesKeepsIds(s.names, LiveIds(step.next), p);
      EnsureNamesCovers(s.names, LiveIds(step.next));
    }
  }

  lemma LiveAfterSnapshot(s: State, next: QueueSnapshot.Snapshot)
    requires next.queueRevision > s.revision
    ensures LiveBefore(ApplySnapshot(s, next)) == Elements(LiveIds(next))
  {
    ListedAfter(s, next);
    ElementsAppend(EntryIds(next.entries), if next.running.Some? then [next.running.value] else []);
  }

  /** The prompt is listed or running in every state of this stretch. */
  ghost predicate LiveThroughout(states: seq<State>, i: nat, j: nat, p: PromptId)
    requires j < |states|
  {
    forall k :: i <= k <= j ==> p in LiveBefore(states[k])
  }

  lemma {:induction false} LivePromptKeepsItsId(states: seq<State>, steps: seq<Step>, i: nat, j: nat, p: PromptId)
    requires IsRun(states, steps) && i <= j < |states| && LiveThroughout(states, i, j, p)
    ensures p in states[i].names.publicIds && p in states[j].names.publicIds
    ensures states[j].names.publicIds[p] == states[i].names.publicIds[p]
    decreases j - i
  {
    if i == j {
      RunKeepsNames(states, steps, i, i);
      assert p in LiveBefore(states[i]);
    } else {
      LivePromptKeepsItsId(states, steps, i, j - 1, p);
      PublicIdIsKept(states[j - 1], steps[j - 1], p);
      assert p in LiveBefore(states[j]);
      if AppliesSnapshot(states[j - 1], steps[j - 1]) {
        LiveAfterSnapshot(states[j - 1], steps[j - 1].next);
      }
    }
  }

  /** While a prompt stays live, its entry is shown under the same public id. */
  lemma EntryKeepsItsId(states: seq<State>, steps: seq<Step>, i: nat, j: nat, a: QueueEntry, b: QueueEntry)
    requires IsRun(states, steps) && i <= j < |states| && LiveThroughout(states, i, j, a.privateId)
    requires a in states[i].entries && b in states[j].entries && a.privateId == b.privateId
    ensures a.queueId == b.queueId
  {
    LivePromptKeepsItsId(states, steps, i, j, a.privateId);
    RunKeepsNames(states, steps, i, j);
  }

  // ---------------------------------------------------------------- what a snapshot shows

  /** Every entry is shown with the text, owner, version and place that the Host sent, and its prompt's public id. */
  lemma EntriesAreShown(s: State, next: QueueSnapshot.Snapshot)
    requires next.queueRevision > s.revision
    ensures var t := ApplySnapshot(s, next);
      && |t.entries| == |next.entries| && t.revision == next.queueRevision && t.running == next.running
      && forall i :: 0 <= i < |next.entries| ==>
           var e, x := t.entries[i], next.entries[i];
           && e.privateId == x.id && e.text == x.text && e.owner == x.owner && e.version == x.version
           && e.position == x.position
           && x.id in t.names.publicIds && e.queueId == t.names.publicIds[x.id]
  {
    NamesCoverLive(s, next);
    assert forall i :: 0 <= i < |next.entries| ==> next.entries[i] in next.entries;
  }

  // ---------------------------------------------------------------- cancellation

  /** The first submission whose status satisfies this. */
  ghost predicate IsFirst(subs: seq<Submission>, wanted: Status -> bool, p: PromptId) {
    exists i :: 0 <= i < |subs| && subs[i].promptId == p && wanted(subs[i].status)
      && forall j :: 0 <= j < i ==> !wanted(subs[j].status)
  }

  ghost predicate NoneIs(subs: seq<Submission>, wanted: Status -> bool) {
    forall x :: x in subs ==> !wanted(x.status)
  }

  lemma {:induction false} FirstWithIsFirst(subs: seq<Submission>, statuses: set<Status>, wanted: Status -> bool)
    requires forall status :: wanted(status) <==> status in statuses
    ensures match FirstWith(subs, statuses)
      case None => NoneIs(subs, wanted)
      case Some(p) => IsFirst(subs, wanted, p)
  {
    if subs != [] && subs[0].status !in statuses {
      var rest := subs[1..];
      FirstWithIsFirst(rest, statuses, wanted);
      assert subs == [subs[0]] + rest;
      if FirstWith(rest, statuses).Some? {
        var i :| 0 <= i < |rest| && rest[i].promptId == FirstWith(rest, statuses).value && wanted(rest[i].status)
          && forall j :: 0 <= j < i ==> !wanted(rest[j].status);
        assert subs[i + 1] == rest[i];
        assert forall j :: 0 < j < i + 1 ==> subs[j] == rest[j - 1];
      }
    }
  }

  /** The prompt to stop: the running one, else the first one shown as running, else the first one on its way. */
  ghost predicate IsTarget(s: State, target: Option<PromptId>) {
    var running, onItsWay := (x: Status) => x.Running?, (x: Status) => x.Submitting? || x.Unknown?;
    if s.running.Some? then target == s.running
    else if !NoneIs(s.submissions, running) then target.Some? && IsFirst(s.submissions, running, target.value)
    else if !NoneIs(s.submissions, onItsWay) then target.Some? && IsFirst(s.submissions, onItsWay, target.value)
    else target.None?
  }

  /** A request to cancel is taken when there is something to stop and none is pending, and then it is for its target. */
  lemma CancelIsForItsTarget(s: State)
    ensures var t := Apply(s, Cancel);
      if s.cancelRequested || (s.running.None? && !s.active) then t == s
      else t.cancelRequested && IsTarget(s, t.cancelTarget) && t == s.(cancelRequested := true, cancelTarget := t.cancelTarget)
  {
    var running, onItsWay := (x: Status) => x.Running?, (x: Status) => x.Submitting? || x.Unknown?;
    FirstWithIsFirst(s.submissions, {Running}, running);
    FirstWithIsFirst(s.submissions, {Submitting, Unknown}, onItsWay);
  }

  /** The prompt whose Host call has just come to its end. */
  function Ended(step: Step): Option<PromptId> {
    match step
    case CompleteEnds(p) => Some(p)
    case FailEnds(p, _) => Some(p)
    case _ => None
  }

  /** What ends a pending cancellation: its prompt ends, the connection does, the Host refuses, or its target does not run. */
  predicate EndsCancel(s: State, step: Step) {
    || step.HostExit? || step.HostReconnect? || step.CancelFails?
    || (Ended(step).Some? && (s.cancelTarget.None? || s.cancelTarget == Ended(step)))
    || (AppliesSnapshot(s, step) && (step.next.running.None? || (s.cancelTarget.Some? && step.next.running != s.cancelTarget)))
  }

  /** A pending cancellation stays, with its target, until something ends it; no other step starts one. */
  lemma CancelStaysUntilEnded(s: State, step: Step)
    ensures var t := Apply(s, step);
      && (s.cancelRequested ==> (t.cancelRequested <==> !EndsCancel(s, step)))
      && (s.cancelRequested && t.cancelRequested ==> t.cancelTarget == s.cancelTarget)
      && (!s.cancelRequested && t.cancelRequested ==> step.Cancel?)
  {
  }

  // ---------------------------------------------------------------- submissions, one by one

  /** The submission that this one becomes in a step other than a snapshot; None if it leaves the table. */
  function Becomes(x: Submission, step: Step): Option<Submission> {
    match step
    case CompleteBegins(p) => Some(if x.promptId == p then x.(settled := true, status := Completed) else x)
    case CompleteEnds(p) => if x.promptId == p then None else Some(x)
    case FailBegins(p) => Some(if x.promptId == p then x.(settled := true) else x)
    case FailEnds(p, uncertain) =>
      if x.promptId != p then Some(x) else if uncertain then Some(x.(status := Unknown)) else None
    case HostExit => Some(if x.status.Submitting? then x.(status := Unknown) else x)
    case HostReconnect => Some(if x.status.Submitting? then x.(status := Unknown) else x)
    case _ => Some(x)
  }

  function Become(subs: seq<Submission>, step: Step): seq<Submission> {
    if subs == [] then []
    else
      var front, last := Become(subs[..|subs| - 1], step), Becomes(subs[|subs| - 1], step);
      if last.None? then front else front + [last.value]
  }

  lemma {:induction false} BecomeEach(subs: seq<Submission>, step: Step, after: seq<Submission>)
    requires |after| == |subs| && forall i :: 0 <= i < |subs| ==> Becomes(subs[i], step) == Some(after[i])
    ensures Become(subs, step) == after
  {
    if subs != [] {
      var n := |subs| - 1;
      BecomeEach(subs[..n], step, after[..n]);
      assert after == after[..n] + [after[n]];
    }
  }

  lemma {:induction false} BecomeWithout(subs: seq<Submission>, step: Step, p: PromptId)
    requires step == CompleteEnds(p) || step == FailEnds(p, false)
    ensures Become(subs, step) == Without(subs, p)
  {
    if subs != [] {
      BecomeWithout(subs[..|subs| - 1], step, p);
    }
  }

  /**
   The table after a step: every submission becomes what its own row says, in the same order; a new prompt comes last,
   on its way, with its attachments.
   */
  lemma TableAfterStep(s: State, step: Step)
    requires !step.Snapshot?
    ensures Apply(s, step).submissions == Become(s.submissions, step) +
      (if step.Add? then [Submission(step.p, Submitting, false, step.ids)] else [])
  {
    var after := Apply(s, step).submissions;
    if step.CompleteEnds? || (step.FailEnds? && !step.uncertain) {
      BecomeWithout(s.submissions, step, step.p);
    } else if step.Add? {
      BecomeEach(s.submissions, step, s.submissions);
    } else {
      BecomeEach(s.submissions, step, after);
    }
    assert Become(s.submissions, step) + [] == Become(s.submissions, step);
  }

  /** A renewed connection forgets the revision, so that the next snapshot is applied whatever its revision is. */
  lemma SnapshotAfterReconnectApplies(s: State, next: QueueSnapshot.Snapshot)
    ensures AppliesSnapshot(Apply(s, HostReconnect), Snapshot(next))
    ensures Apply(s, HostReconnect).entries == s.entries && Apply(s, HostReconnect).running == s.running
  {
  }

  /** When a session counts as busy: from a submission on, and from a snapshot on as the snapshot tells. */
  lemma BusyAfterStep(s: State, step: Step)
    ensures Apply(s, step).active <==>
      if step.Add? then true
      else if AppliesSnapshot(s, step) then step.next.running.Some?
      else s.active && !(Ended(step).Some? && s.revision < 0)
  {
  }

  /** What the Host last said changes with applied snapshots alone, save for the two exceptions of a new connection. */
  lemma QueueAfterStep(s: State, step: Step)
    requires !AppliesSnapshot(s, step)
    ensures var t := Apply(s, step);
      && t.entries == s.entries && t.names == s.names
      && t.revision == (if step.HostReconnect? then -1 else s.revision)
      && t.running == (if step.CompleteEnds? && s.revision < 0 then None else s.running)
  {
  }

  // ---------------------------------------------------------------- the table after a snapshot

  /** Settling goes submission by submission, in order, and changes nothing of one but its status. */
  lemma {:induction false} SettleAllSplits(a: seq<Submission>, b: seq<Submission>, v: Sight)
    ensures SettleAll(a + b, v) == SettleAll(a, v) + SettleAll(b, v)
    decreases |b|
  {
    if b == [] {
      assert a + b == a;
    } else {
      var front, last := b[..|b| - 1], b[|b| - 1];
      assert (a + b)[..|a + b| - 1] == a + front && (a + b)[|a + b| - 1] == last;
      SettleAllSplits(a, front, v);
    }
  }

  lemma SettleAllOne(x: Submission, v: Sight)
    ensures SettleAll([x], v) ==
      if LiveIn(x.promptId, v) then [x.(status := if v.running == Some(x.promptId) then Running else Queued)]
      else if x.status.Unknown? || x.promptId in v.before then []
      else [x]
  {
    assert [x][..0] == [];
    assert SettleAll([], v) == [];
  }
}
