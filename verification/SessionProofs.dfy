/** What every run of a session keeps: public queue ids, cancellation, and submission statuses. */
module SessionProofs {
  import opened Common
  import opened Session
  import QueueSnapshot

  // ---------------------------------------------------------------- public queue ids

  /** The two id maps are mutual inverses, and no id above the counter was ever handed out. */
  ghost predicate NamesOk(n: Names) {
    && (forall p :: p in n.publicIds ==> n.publicIds[p] in n.privateIds && n.privateIds[n.publicIds[p]] == p)
    && (forall k :: k in n.privateIds ==> n.privateIds[k] in n.publicIds && n.publicIds[n.privateIds[k]] == k)
    && (forall k :: k in n.privateIds ==> k <= n.counter)
  }

  /** Every listed entry shows its own public id, and the running prompt has one. */
  ghost predicate NamesShown(s: State) {
    && NamesOk(s.names)
    && (forall e :: e in s.entries ==> e.privateId in s.names.publicIds && s.names.publicIds[e.privateId] == e.queueId)
    && (s.running.Some? ==> s.running.value in s.names.publicIds)
  }

  /** Between an earlier and a later state, an id handed out by then still means the same prompt. */
  ghost predicate NamesExtend(a: Names, b: Names) {
    && a.counter <= b.counter
    && (forall k :: k in b.privateIds && k <= a.counter ==> k in a.privateIds && a.privateIds[k] == b.privateIds[k])
  }

  lemma EnsureNameKeeps(n: Names, p: PromptId)
    requires NamesOk(n)
    ensures NamesOk(EnsureName(n, p)) && NamesExtend(n, EnsureName(n, p))
  {
  }

  lemma {:induction false} EnsureNamesKeeps(n: Names, ps: seq<PromptId>)
    requires NamesOk(n)
    ensures NamesOk(EnsureNames(n, ps)) && NamesExtend(n, EnsureNames(n, ps))
  {
    if ps != [] {
      EnsureNamesKeeps(n, ps[..|ps| - 1]);
      EnsureNameKeeps(EnsureNames(n, ps[..|ps| - 1]), ps[|ps| - 1]);
    }
  }

  lemma DropNamesKeeps(n: Names, dead: set<PromptId>)
    requires NamesOk(n)
    ensures NamesOk(DropNames(n, dead)) && NamesExtend(n, DropNames(n, dead))
  {
    var d := DropNames(n, dead);
    forall p | p in d.publicIds ensures d.publicIds[p] in d.privateIds {
      forall q | q in dead && q in n.publicIds ensures n.publicIds[q] != n.publicIds[p] {
        assert n.privateIds[n.publicIds[q]] == q;
      }
    }
  }

  lemma NamesAfterKeeps(s: State, next: QueueSnapshot.Snapshot)
    requires NamesOk(s.names)
    ensures NamesOk(NamesAfter(s, next)) && NamesExtend(s.names, NamesAfter(s, next))
  {
    var names := EnsureNames(s.names, LiveIds(next));
    EnsureNamesKeeps(s.names, LiveIds(next));
    DropNamesKeeps(names, names.publicIds.Keys - Elements(LiveIds(next)) - IdsOf(s.submissions));
  }

  lemma SnapshotKeepsNames(s: State, next: QueueSnapshot.Snapshot)
    requires NamesShown(s)
    ensures NamesShown(ApplySnapshot(s, next)) && NamesExtend(s.names, ApplySnapshot(s, next).names)
  {
    NamesAfterKeeps(s, next);
    NamesCoverLive(s, next);
    if next.queueRevision > s.revision {
      var t := ApplySnapshot(s, next);
      if next.running.Some? {
        assert LiveIds(next)[|next.entries|] == next.running.value;
        assert next.running.value in Elements(LiveIds(next));
      }
      forall e | e in t.entries ensures e.privateId in t.names.publicIds && t.names.publicIds[e.privateId] == e.queueId {
        var i :| 0 <= i < |t.entries| && t.entries[i] == e;
        assert next.entries[i] in next.entries;
      }
    }
  }

  lemma StepKeepsNames(s: State, step: Step)
    requires NamesShown(s) && Enabled(s, step)
    ensures NamesShown(Apply(s, step)) && NamesExtend(s.names, Apply(s, step).names)
  {
    if step.Snapshot? {
      SnapshotKeepsNames(s, step.next);
    }
  }

  lemma {:induction false} RunKeepsNames(states: seq<State>, steps: seq<Step>, i: nat, j: nat)
    requires IsRun(states, steps) && i <= j < |states|
    ensures NamesShown(states[i]) && NamesShown(states[j])
    ensures NamesExtend(states[i].names, states[j].names)
    decreases j
  {
    if j > 0 {
      if i < j {
        RunKeepsNames(states, steps, i, j - 1);
      } else {
        RunKeepsNames(states, steps, j - 1, j - 1);
      }
      StepKeepsNames(states[j - 1], steps[j - 1]);
    }
  }

  /** Over a whole run a public id never names two prompts, and a listed or running prompt always has one. */
  lemma PublicIdsNeverReused(states: seq<State>, steps: seq<Step>, i: nat, j: nat, k: nat)
    requires IsRun(states, steps) && i <= j < |states|
    requires k in states[i].names.privateIds && k in states[j].names.privateIds
    ensures states[i].names.privateIds[k] == states[j].names.privateIds[k]
    ensures LiveBefore(states[j]) <= states[j].names.publicIds.Keys
  {
    RunKeepsNames(states, steps, i, j);
  }

  // ---------------------------------------------------------------- revisions

  lemma {:induction false} RevisionsGrow(states: seq<State>, steps: seq<Step>, i: nat, j: nat)
    requires IsRun(states, steps) && i < j < |states|
    requires forall k :: i <= k < j ==> !steps[k].HostReconnect?
    ensures states[i].revision <= states[j].revision
    ensures (exists k :: i <= k < j && AppliesSnapshot(states[k], steps[k])) ==> states[i].revision < states[j].revision
    decreases j - i
  {
    assert states[j] == Apply(states[j - 1], steps[j - 1]);
    if i < j - 1 {
      RevisionsGrow(states, steps, i, j - 1);
    }
  }

  // ---------------------------------------------------------------- cancellation

  ghost predicate CancelOk(s: State) {
    && (!s.cancelRequested ==> s.cancelTarget.None?)
    && (s.cancelTarget.Some? && s.running.Some? ==> s.cancelTarget == s.running)
  }

  lemma StepKeepsCancel(s: State, step: Step)
    requires CancelOk(s)
    ensures CancelOk(Apply(s, step))
  {
  }

  lemma {:induction false} RunKeepsCancel(states: seq<State>, steps: seq<Step>, i: nat)
    requires IsRun(states, steps) && i < |states|
    ensures CancelOk(states[i])
  {
    if i > 0 {
      RunKeepsCancel(states, steps, i - 1);
      StepKeepsCancel(states[i - 1], steps[i - 1]);
    }
  }

  // ---------------------------------------------------------------- submission statuses

  // ---------------------------------------------------------------- what an outcome leaves behind

  /** Everything about other prompts is as it was. */
  ghost predicate SameForOthers(s: State, t: State, p: PromptId) {
    && (forall x: Submission :: x.promptId != p ==> (x in t.submissions <==> x in s.submissions))
    && t.entries == s.entries && t.names == s.names && t.revision == s.revision
    && (s.cancelTarget.Some? && s.cancelTarget != Some(p) ==>
          t.cancelRequested == s.cancelRequested && t.cancelTarget == s.cancelTarget)
  }

  /**
   After a completion the prompt is neither in the table nor the target of a cancellation, and nothing about
   any other prompt has changed, except that without a snapshot on this connection nothing is running.
   */
  lemma CompletionForgetsPrompt(s: State, p: PromptId)
    requires CancelOk(s)
    ensures var t := FinishComplete(s, p);
      && p !in IdsOf(t.submissions) && t.cancelTarget != Some(p)
      && SameForOthers(s, t, p)
      && t.running == (if s.revision < 0 then None else s.running)
  {
    var t := FinishComplete(s, p);
    assert forall x :: x in t.submissions ==> x.promptId != p;
  }

  /**
   After a failure the prompt is not the target of a cancellation; it is gone if the failure was definite and
   unknown, which shuts the gate, if it was not; and nothing about any other prompt has changed.
   */
  lemma FailureSettlesPrompt(s: State, p: PromptId, uncertain: bool)
    requires CancelOk(s)
    ensures var t := FinishFail(s, p, uncertain);
      && t.cancelTarget != Some(p) && t.running == s.running
      && SameForOthers(s, t, p)
      && (!uncertain ==> p !in IdsOf(t.submissions))
      && (uncertain ==> IdsOf(t.submissions) == IdsOf(s.submissions))
      && (uncertain && p in IdsOf(s.submissions) ==> !GateOpen(t))
  {
    var t := FinishFail(s, p, uncertain);
    if uncertain {
      assert |t.submissions| == |s.submissions|;
      forall x | x in s.submissions
        ensures x.promptId in IdsOf(t.submissions) && (x.promptId != p ==> x in t.submissions)
        ensures x.promptId == p ==> !GateOpen(t)
      {
        var i :| 0 <= i < |s.submissions| && s.submissions[i] == x;
        assert t.submissions[i] in t.submissions;
      }
      forall y | y in t.submissions ensures y.promptId in IdsOf(s.submissions) && (y.promptId != p ==> y in s.submissions) {
        var i :| 0 <= i < |t.submissions| && t.submissions[i] == y;
        assert s.submissions[i] in s.submissions;
      }
    } else {
      assert forall x :: x in t.submissions ==> x.promptId != p;
    }
  }

  lemma {:induction false} SettleAllMembers(subs: seq<Submission>, v: Sight, y: Submission)
    ensures y in SettleAll(subs, v) <==> exists x :: x in subs && Settle(x, v) == Some(y)
  {
    if subs != [] {
      var init, last := subs[..|subs| - 1], subs[|subs| - 1];
      SettleAllMembers(init, v, y);
      assert subs == init + [last];
      assert forall x :: x in subs <==> x in init || x == last;
    }
  }

  lemma {:induction false} SettleAllDistinct(subs: seq<Submission>, v: Sight)
    requires DistinctSubmissions(subs)
    ensures DistinctSubmissions(SettleAll(subs, v))
    ensures IdsOf(SettleAll(subs, v)) == IdsOf(subs) - Reconciled(subs, v)
  {
    if subs != [] {
      var init, last := subs[..|subs| - 1], subs[|subs| - 1];
      SettleAllDistinct(init, v);
      SplitIds(init, last, v);
      assert subs == init + [last];
      assert last.promptId !in IdsOf(init);
      if Settle(last, v).Some? {
        SplitIds(SettleAll(init, v), Settle(last, v).value, v);
      }
    }
  }

  lemma SplitIds(init: seq<Submission>, last: Submission, v: Sight)
    ensures IdsOf(init + [last]) == IdsOf(init) + {last.promptId}
    ensures Reconciled(init + [last], v) ==
            Reconciled(init, v) + (if Settle(last, v).None? then {last.promptId} else {})
  {
    var all := init + [last];
    assert forall x :: x in all <==> x in init || x == last;
    assert last in all;
    forall p ensures p in IdsOf(all) <==> p in IdsOf(init) + {last.promptId} {
    }
    forall p ensures p in Reconciled(all, v) <==>
                     p in Reconciled(init, v) + (if Settle(last, v).None? then {last.promptId} else {}) {
    }
  }

  /** After an applied snapshot: running means the running prompt, queued means listed and not running. */
  ghost predicate Exact(s: State) {
    forall x :: x in s.submissions ==>
      && (x.status.Running? <==> s.running == Some(x.promptId))
      && (x.status.Queued? <==> x.promptId in Listed(s.entries) && s.running != Some(x.promptId))
  }

  /** A submission shown as live that the queue no longer knew about, and still does not. */
  ghost predicate Stranded(s: State, next: QueueSnapshot.Snapshot, x: Submission) {
    && (x.status.Running? || x.status.Queued?)
    && x.promptId !in LiveBefore(s)
    && !LiveIn(x.promptId, SightOf(s, next))
  }

  lemma ListedAfter(s: State, next: QueueSnapshot.Snapshot)
    requires next.queueRevision > s.revision
    ensures Listed(ApplySnapshot(s, next).entries) == Elements(EntryIds(next.entries))
  {
    var t, ids := ApplySnapshot(s, next), EntryIds(next.entries);
    assert |t.entries| == |ids|;
    assert forall i :: 0 <= i < |ids| ==> t.entries[i].privateId == ids[i];
    forall p ensures p in Listed(t.entries) <==> p in Elements(ids) {
      if p in Listed(t.entries) {
        var i :| 0 <= i < |t.entries| && t.entries[i].privateId == p;
        assert ids[i] == p;
      }
      if p in ids {
        var i :| 0 <= i < |ids| && ids[i] == p;
        assert t.entries[i] in t.entries;
      }
    }
  }

  /**
   An applied snapshot leaves no submission unknown and opens the gate. A submission that remains is
   queued or running as the snapshot shows it, or untouched, and then it was not live before.
   */
  lemma SnapshotSettles(s: State, next: QueueSnapshot.Snapshot, y: Submission)
    requires next.queueRevision > s.revision
    requires y in ApplySnapshot(s, next).submissions
    ensures !y.status.Unknown?
    ensures next.running == Some(y.promptId) ==> y.status.Running?
    ensures next.running != Some(y.promptId) && y.promptId in Listed(ApplySnapshot(s, next).entries) ==> y.status.Queued?
    ensures !LiveIn(y.promptId, SightOf(s, next)) ==> y in s.submissions && y.promptId !in LiveBefore(s)
  {
    SettleAllMembers(s.submissions, SightOf(s, next), y);
    ListedAfter(s, next);
  }

  lemma SnapshotOpensGate(s: State, next: QueueSnapshot.Snapshot)
    requires next.queueRevision > s.revision
    ensures GateOpen(ApplySnapshot(s, next))
  {
    forall y | y in ApplySnapshot(s, next).submissions ensures !y.status.Unknown? {
      SnapshotSettles(s, next, y);
    }
  }

  /** The statuses are exact after an applied snapshot if and only if it stranded no submission. */
  lemma SnapshotExactIff(s: State, next: QueueSnapshot.Snapshot)
    requires next.queueRevision > s.revision
    ensures Exact(ApplySnapshot(s, next)) <==> !exists x :: x in s.submissions && Stranded(s, next, x)
  {
    var t, v := ApplySnapshot(s, next), SightOf(s, next);
    ListedAfter(s, next);
    forall x | x in s.submissions && Stranded(s, next, x) ensures x in t.submissions && !Exact(t) {
      SettleAllMembers(s.submissions, v, x);
    }
    if !exists x :: x in s.submissions && Stranded(s, next, x) {
      forall y | y in t.submissions
        ensures y.status.Running? <==> t.running == Some(y.promptId)
        ensures y.status.Queued? <==> y.promptId in Listed(t.entries) && t.running != Some(y.promptId)
      {
        SnapshotSettles(s, next, y);
        assert y in s.submissions ==> !Stranded(s, next, y);
      }
    }
  }

  /** Submissions shown as live are live in the queue as last seen: nothing can be stranded. */
  ghost predicate Faithful(s: State) {
    forall x :: x in s.submissions ==>
      && (x.status.Running? ==> s.running == Some(x.promptId))
      && (x.status.Queued? ==> x.promptId in Listed(s.entries))
  }

  /** The one step that can lose track of a running submission: see `FinishComplete`. */
  ghost predicate ForgetsRunning(s: State, step: Step) {
    && step.CompleteEnds?
    && s.revision < 0
    && exists x :: x in s.submissions && x.promptId != step.p && x.status.Running?
  }

  lemma FaithfulSnapshotIsExact(s: State, next: QueueSnapshot.Snapshot)
    requires Faithful(s) && next.queueRevision > s.revision
    ensures Exact(ApplySnapshot(s, next)) && Faithful(ApplySnapshot(s, next))
  {
    SnapshotExactIff(s, next);
    forall x | x in s.submissions ensures !Stranded(s, next, x) {
    }
  }

  lemma FaithfulUpdates(s: State, p: PromptId)
    requires Faithful(s)
    ensures Faithful(BeginComplete(s, p)) && Faithful(BeginFail(s, p)) && Faithful(Disconnect(s))
    ensures Faithful(FinishFail(s, p, true)) && Faithful(FinishFail(s, p, false))
  {
    var n := |s.submissions|;
    assert forall i :: 0 <= i < n ==> s.submissions[i] in s.submissions;
  }

  /** A step keeps the statuses faithful if and only if it does not forget a running submission. */
  lemma FaithfulStepIff(s: State, step: Step)
    requires Faithful(s) && Enabled(s, step)
    ensures Faithful(Apply(s, step)) <==> !ForgetsRunning(s, step)
  {
    match step
    case Snapshot(next) =>
      if next.queueRevision > s.revision {
        FaithfulSnapshotIsExact(s, next);
      }
    case CompleteEnds(p) =>
      var t := FinishComplete(s, p);
      if ForgetsRunning(s, step) {
        var x :| x in s.submissions && x.promptId != p && x.status.Running?;
        assert x in t.submissions && t.running.None?;
      }
    case CompleteBegins(p) => FaithfulUpdates(s, p);
    case FailBegins(p) => FaithfulUpdates(s, p);
    case FailEnds(p, uncertain) => FaithfulUpdates(s, p);
    case HostExit => FaithfulUpdates(s, 0);
    case HostReconnect => FaithfulUpdates(s.(revision := -1), 0);
    case _ =>
  }

  lemma {:induction false} RunStaysFaithful(states: seq<State>, steps: seq<Step>, i: nat)
    requires IsRun(states, steps) && i < |states|
    requires forall k :: 0 <= k < i ==> !ForgetsRunning(states[k], steps[k])
    ensures Faithful(states[i])
  {
    if i > 0 {
      RunStaysFaithful(states, steps, i - 1);
      FaithfulStepIff(states[i - 1], steps[i - 1]);
    }
  }

  /** Every applied snapshot of such a run shows each remaining submission exactly as the Host does. */
  lemma RunSnapshotsAreExact(states: seq<State>, steps: seq<Step>, i: nat)
    requires IsRun(states, steps) && i < |steps| && AppliesSnapshot(states[i], steps[i])
    ensures GateOpen(states[i + 1])
    ensures (forall k :: 0 <= k < i ==> !ForgetsRunning(states[k], steps[k])) ==> Exact(states[i + 1])
  {
    SnapshotOpensGate(states[i], steps[i].next);
    if forall k :: 0 <= k < i ==> !ForgetsRunning(states[k], steps[k]) {
      RunStaysFaithful(states, steps, i);
      FaithfulSnapshotIsExact(states[i], steps[i].next);
    }
  }

  const EMPTY_QUEUE := QueueSnapshot.Snapshot(0, [], None)

  const FORGETTING_STEPS: seq<Step> := [
    Add(1, []), Snapshot(QueueSnapshot.Snapshot(1, [], Some(1))), Add(2, []),
    HostReconnect, CompleteBegins(2), CompleteEnds(2), Snapshot(EMPTY_QUEUE)]

  const RUNNING1 := Submission(1, Running, false, [])

  ghost predicate ForgettingRun(states: seq<State>) {
    && |states| == 8 && states[0] == EMPTY
    && (forall i :: 0 <= i < 7 ==> states[i + 1] == Apply(states[i], FORGETTING_STEPS[i]))
  }

  /** Prompt 1 is submitted. */
  lemma ForgettingRunAdd(states: seq<State>)
    requires ForgettingRun(states)
    ensures states[1].submissions == [Submission(1, Submitting, false, [])] && states[1].revision == -1
  {
    assert states[1] == Apply(states[0], FORGETTING_STEPS[0]);
  }

  /** Prompt 1 runs. */
  lemma ForgettingRunStart(states: seq<State>)
    requires ForgettingRun(states)
    ensures states[2].submissions == [RUNNING1] && states[2].revision == 1 && states[2].entries == []
  {
    ForgettingRunAdd(states);
    assert states[2] == Apply(states[1], FORGETTING_STEPS[1]);
    assert states[1].submissions[..0] == [];
    assert SettleAll([], SightOf(states[1], FORGETTING_STEPS[1].next)) == [];
  }

  /** Prompt 2 is submitted and the transport reconnects. */
  lemma ForgettingRunMiddle(states: seq<State>)
    requires ForgettingRun(states)
    ensures states[2].submissions == [RUNNING1]
    ensures states[4].submissions == [RUNNING1, Submission(2, Unknown, false, [])]
    ensures states[4].revision == -1 && states[4].entries == []
  {
    ForgettingRunStart(states);
    assert states[3] == Apply(states[2], FORGETTING_STEPS[2]);
    assert states[4] == Apply(states[3], FORGETTING_STEPS[3]);
  }

  /** The reply to prompt 2 clears the running prompt. */
  lemma ForgettingRunReply(states: seq<State>)
    requires ForgettingRun(states)
    ensures states[6].submissions == [RUNNING1]
    ensures states[6].revision == -1 && states[6].entries == [] && states[6].running.None?
  {
    ForgettingRunMiddle(states);
    assert states[5] == Apply(states[4], FORGETTING_STEPS[4]);
    assert states[5].submissions == [RUNNING1, Submission(2, Completed, true, [])];
    assert states[6] == Apply(states[5], FORGETTING_STEPS[5]);
    assert states[5].submissions[..1] == [RUNNING1];
    assert [RUNNING1][..0] == [];
    assert Without([], 2) == [];
    assert Without([RUNNING1], 2) == [RUNNING1];
  }

  /**
   The statuses are not exact on every run. Prompt 1 runs and prompt 2 has just been submitted when
   the transport reconnects; the reply to prompt 2 clears the running prompt, and the first snapshot
   after that, with nothing running, leaves prompt 1 shown as running.
   */
  lemma SomeRunForgetsRunning()
    ensures exists states, steps :: IsRun(states, steps) && EndsInexactly(states, steps)
  {
    var states := ForgettingStates();
    ForgettingRunEnds(states);
  }

  /** The last step applied a snapshot, and the statuses are not those the snapshot tells. */
  ghost predicate EndsInexactly(states: seq<State>, steps: seq<Step>)
    requires |states| == |steps| + 1
  {
    var n := |steps| - 1;
    n >= 0 && AppliesSnapshot(states[n], steps[n]) && !Exact(states[n + 1])
  }

  lemma ForgettingStates() returns (states: seq<State>)
    ensures ForgettingRun(states)
  {
    states := [EMPTY];
    for i := 0 to 7
      invariant |states| == i + 1 && states[0] == EMPTY
      invariant forall k :: 0 <= k < i ==> states[k + 1] == Apply(states[k], FORGETTING_STEPS[k])
    {
      states := states + [Apply(states[i], FORGETTING_STEPS[i])];
    }
  }

  lemma ForgettingRunEnds(states: seq<State>)
    requires ForgettingRun(states)
    ensures IsRun(states, FORGETTING_STEPS) && EndsInexactly(states, FORGETTING_STEPS)
    ensures states[7].running.None? && states[7].submissions == [RUNNING1]
  {
    ForgettingRunMiddle(states);
    assert IdsOf(states[0].submissions) == {} && IdsOf(states[2].submissions) == {1};
    ForgettingRunReply(states);
    assert states[7] == Apply(states[6], FORGETTING_STEPS[6]);
    assert states[6].submissions[..0] == [];
    assert SettleAll([], SightOf(states[6], EMPTY_QUEUE)) == [];
    assert RUNNING1 in states[7].submissions;
  }
}
