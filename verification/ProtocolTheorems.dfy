/** What the prompt protocol promises over every run. */
module ProtocolTheorems {
  import opened Common
  import opened Protocol
  import opened ProtocolInvariant
  import S = Session
  import A = AttachmentStore
  import AP = AttachmentProofs
  import SP = SessionProofs
  import QueueSnapshot

  // ---------------------------------------------------------------- a reservation ends once

  lemma ReservedPromptIsKnown(s: State, key: A.Key)
    requires Inv(s) && A.ReservedIds(s.records, key) != {}
    ensures key.promptId in s.used
  {
    var r :| r in s.records && A.ReservedFor(r, key);
  }

  /** No step reserves anything for a prompt id that is already known. */
  lemma StepNeverReservesAgain(s: State, step: Step, key: A.Key)
    requires Inv(s) && Enabled(s, step) && key.promptId in s.used
    ensures A.ReservedIds(Next(s, step).records, key) <= A.ReservedIds(s.records, key)
    ensures s.used <= Next(s, step).used
  {
    match step
    case Submit(home, p, ids) =>
      FreshKeyHoldsNothing(s.records, KeyOf(home, p));
      AP.ReserveMovesDrafts(s.records, KeyOf(home, p), ids);
    case Aborted(p) =>
      assert MustHold(s, p) && Intact(s, s.calls[p]);
      UnreserveIsRelease(s.records, s.calls[p].key, s.calls[p].ids);
      ReleaseOnlyEnds(s.records, s.calls[p].key, key);
    case Completes(p) => AP.ConsumeDeletesExactly(s.records, s.calls[p].key);
    case Fails(p, _) =>
      AP.MarkKeepsReservations(s.records, s.calls[p].key, A.Unknown);
      ReleaseOnlyEnds(s.records, s.calls[p].key, key);
    case Snapshot(home, next) =>
      var before := s.sessions[home];
      MarkAllKeepsReservations(s.records, home, S.Accepted(before.submissions, S.SightOf(before, next)));
    case Job(i) =>
      AP.MarkKeepsReservations(s.records, s.jobs[i][0].key, A.Accepted);
      AP.MarkKeepsReservations(s.records, s.jobs[i][0].key, A.Unknown);
      AP.ConsumeDeletesExactly(s.records, s.jobs[i][0].key);
    case Staging(op) => AP.StagingKeepsReserved(s.records, op);
    case _ =>
  }

  lemma ReleaseOnlyEnds(rs: seq<A.Record>, key: A.Key, k: A.Key)
    ensures A.ReservedIds(A.Release(rs, key), k) <= A.ReservedIds(rs, k)
  {
    AP.ReleaseReturnsDrafts(rs, key);
  }

  lemma {:induction false} ReservationsOnlyEnd(states: seq<State>, steps: seq<Step>, i: nat, j: nat, key: A.Key)
    requires IsRun(states, steps) && i <= j < |states| && key.promptId in states[i].used
    ensures A.ReservedIds(states[j].records, key) <= A.ReservedIds(states[i].records, key)
    ensures states[i].used <= states[j].used
    decreases j - i
  {
    if i < j {
      ReservationsOnlyEnd(states, steps, i, j - 1, key);
      RunKeepsInv(states, steps, j - 1);
      StepNeverReservesAgain(states[j - 1], steps[j - 1], key);
    }
  }

  /** Attachment a is given back as a draft by step i, or deleted by it. */
  ghost predicate GivenBack(states: seq<State>, i: nat, a: A.AttachmentId, key: A.Key)
    requires i + 1 < |states|
  {
    a in A.ReservedIds(states[i].records, key) && a in A.DraftIds(states[i + 1].records, key.scope)
  }

  ghost predicate Deleted(states: seq<State>, i: nat, a: A.AttachmentId, key: A.Key)
    requires i + 1 < |states|
  {
    a in A.ReservedIds(states[i].records, key) && a !in A.Ids(states[i + 1].records)
  }

  lemma DraftsAreNotReserved(rs: seq<A.Record>, key: A.Key, a: A.AttachmentId)
    requires A.DistinctIds(rs) && (a in A.DraftIds(rs, key.scope) || a !in A.Ids(rs))
    ensures a !in A.ReservedIds(rs, key)
  {
    if a in A.ReservedIds(rs, key) {
      var r :| r in rs && A.ReservedFor(r, key) && r.attachmentId == a;
      assert a in A.Ids(rs);
      var d :| d in rs && A.IsDraft(d, key.scope) && d.attachmentId == a;
      AP.MembersById(rs, r, d);
      assert false;
    }
  }

  /** A reservation ends once: no attachment is ever both given back and deleted for the same prompt, nor either twice. */
  lemma NeverBothReturnedAndDeleted(states: seq<State>, steps: seq<Step>, i: nat, j: nat, a: A.AttachmentId, key: A.Key)
    requires IsRun(states, steps) && i < |steps| && j < |steps|
    requires GivenBack(states, i, a, key) || Deleted(states, i, a, key)
    requires GivenBack(states, j, a, key) || Deleted(states, j, a, key)
    ensures i == j && !(GivenBack(states, i, a, key) && Deleted(states, i, a, key))
  {
    if i < j {
      EndedForGood(states, steps, i, j, a, key);
    } else if j < i {
      EndedForGood(states, steps, j, i, a, key);
    }
    assert A.DraftIds(states[i + 1].records, key.scope) <= A.Ids(states[i + 1].records);
  }

  lemma EndedForGood(states: seq<State>, steps: seq<Step>, i: nat, j: nat, a: A.AttachmentId, key: A.Key)
    requires IsRun(states, steps) && i < j < |states| && i < |steps|
    requires GivenBack(states, i, a, key) || Deleted(states, i, a, key)
    ensures a !in A.ReservedIds(states[j].records, key)
  {
    RunKeepsInv(states, steps, i);
    RunKeepsInv(states, steps, i + 1);
    ReservedPromptIsKnown(states[i], key);
    ReservationsOnlyEnd(states, steps, i, i + 1, key);
    DraftsAreNotReserved(states[i + 1].records, key, a);
    ReservationsOnlyEnd(states, steps, i + 1, j, key);
  }

  // ---------------------------------------------------------------- deletion is justified

  /** An applied snapshot of the prompt's session lacks it, after it was live or its outcome was unknown. */
  ghost predicate ShowsAbsent(s: State, step: Step, key: A.Key) {
    && step.Snapshot? && step.home == HomeOf(key) && step.home in s.sessions
    && var before := s.sessions[step.home];
    && step.next.queueRevision > before.revision
    && key.promptId !in S.LiveIds(step.next)
    && (|| key.promptId in S.LiveBefore(before)
        || exists x :: x in before.submissions && x.promptId == key.promptId && x.status.Unknown?)
  }

  lemma RemovedMeansAbsent(s: State, home: Home, next: QueueSnapshot.Snapshot, p: PromptId)
    requires home in s.sessions && next.queueRevision > s.sessions[home].revision
    requires p in S.RemovedBy(s.sessions[home], next)
    ensures ShowsAbsent(s, Snapshot(home, next), KeyOf(home, p))
  {
    var before, v := s.sessions[home], S.SightOf(s.sessions[home], next);
    LiveMeansListed(next, p, v);
    if p in S.Reconciled(before.submissions, v) {
      var x :| x in before.submissions && S.Settle(x, v).None? && x.promptId == p;
    }
  }

  lemma {:induction false} AbsentWasShown(states: seq<State>, steps: seq<Step>, i: nat, key: A.Key)
    requires IsRun(states, steps) && i < |states| && key in states[i].absent
    ensures exists j :: 0 <= j < i && ShowsAbsent(states[j], steps[j], key)
  {
    var s, step := states[i - 1], steps[i - 1];
    assert states[i] == Next(s, step);
    if key in s.absent {
      AbsentWasShown(states, steps, i - 1, key);
    } else {
      RemovedMeansAbsent(s, step.home, step.next, key.promptId);
      assert ShowsAbsent(states[i - 1], steps[i - 1], key);
    }
  }

  lemma OnlyReservationsChange(rs: seq<A.Record>, after: seq<A.Record>, a: A.AttachmentId, key: A.Key)
    requires AP.SameButReservations(rs, after) && a in A.ReservedIds(rs, key)
    ensures a in A.Ids(after)
  {
    AP.SameIds(rs, after);
    var r :| r in rs && A.ReservedFor(r, key) && r.attachmentId == a;
    assert a in A.Ids(rs);
  }

  /** All other steps keep every record, up to its reservation. */
  lemma StepKeepsRecords(s: State, step: Step)
    requires Inv(s) && Enabled(s, step)
    requires !step.Completes? && !step.Job? && !step.Staging? && !step.AccountCleared?
    ensures AP.SameButReservations(s.records, Next(s, step).records)
  {
    match step
    case Submit(home, p, ids) => AP.ReservationOpsKeepTheRest(s.records, KeyOf(home, p), A.Unknown, ids);
    case Aborted(p) => AP.ReservationOpsKeepTheRest(s.records, s.calls[p].key, A.Unknown, s.calls[p].ids);
    case Fails(p, _) => AP.ReservationOpsKeepTheRest(s.records, s.calls[p].key, A.Unknown, []);
    case Snapshot(home, next) =>
      var before := s.sessions[home];
      MarkAllKeepsReservations(s.records, home, S.Accepted(before.submissions, S.SightOf(before, next)));
    case _ =>
  }

  lemma JobKeepsOrDeletes(s: State, i: nat, a: A.AttachmentId, key: A.Key)
    requires Inv(s) && Enabled(s, Job(i)) && a in A.ReservedIds(s.records, key)
    ensures s.jobs[i][0] != ConsumeFor(key) ==> a in A.Ids(RunJob(s, i).records)
  {
    var k := s.jobs[i][0].key;
    AP.ReservationOpsKeepTheRest(s.records, k, A.Unknown, []);
    AP.ReservationOpsKeepTheRest(s.records, k, A.Accepted, []);
    OnlyReservationsChange(s.records, A.SetReservationStatus(s.records, k, A.Unknown), a, key);
    OnlyReservationsChange(s.records, A.SetReservationStatus(s.records, k, A.Accepted), a, key);
    if k != key {
      OtherKeysStay(s.records, k, a, key);
    }
  }

  lemma StepDeletesOnly(s: State, step: Step, a: A.AttachmentId, key: A.Key)
    requires Inv(s) && Enabled(s, step) && a in A.ReservedIds(s.records, key)
    ensures || a in A.Ids(Next(s, step).records)
            || step.AccountCleared?
            || (step == Completes(key.promptId) && Unsettled(s, step.p))
            || (step.Job? && s.jobs[step.i][0] == ConsumeFor(key))
  {
    var r :| r in s.records && A.ReservedFor(r, key) && r.attachmentId == a;
    match step
    case Completes(p) =>
      if s.calls[p].key != key {
        OtherKeysStay(s.records, s.calls[p].key, a, key);
      }
    case Job(i) => JobKeepsOrDeletes(s, i, a, key);
    case Staging(op) =>
      AP.StagingKeepsReserved(s.records, op);
      assert r in Next(s, step).records;
    case AccountCleared =>
    case _ =>
      StepKeepsRecords(s, step);
      OnlyReservationsChange(s.records, Next(s, step).records, a, key);
  }

  lemma OtherKeysStay(rs: seq<A.Record>, gone: A.Key, a: A.AttachmentId, key: A.Key)
    requires A.DistinctIds(rs) && a in A.ReservedIds(rs, key) && key != gone
    ensures a in A.Ids(A.Consume(rs, gone))
  {
    AP.ConsumeDeletesExactly(rs, gone);
    var r :| r in rs && A.ReservedFor(r, key) && r.attachmentId == a;
    assert r in A.Consume(rs, gone);
  }

  /**
   Apart from account clearing, an attachment reserved for a prompt is deleted only when the Host call
   of that prompt completes, or after a snapshot showed the prompt absent once it was live or unknown.
   */
  lemma DeletionIsJustified(states: seq<State>, steps: seq<Step>, i: nat, a: A.AttachmentId, key: A.Key)
    requires IsRun(states, steps) && i < |steps| && !steps[i].AccountCleared?
    requires Deleted(states, i, a, key)
    ensures || (steps[i] == Completes(key.promptId) && Unsettled(states[i], key.promptId))
            || exists j :: 0 <= j < i && ShowsAbsent(states[j], steps[j], key)
  {
    var s, step := states[i], steps[i];
    RunKeepsInv(states, steps, i);
    StepDeletesOnly(s, step, a, key);
    if step.Job? {
      assert ConsumeFor(key) in s.jobs[step.i];
      assert Pending(s, key);
      AbsentWasShown(states, steps, i, key);
    }
  }

  // ---------------------------------------------------------------- failures

  /** While its end is unknown to the client, every attachment of a submitted prompt stays reserved for it. */
  lemma UnfinishedPromptsKeepAttachments(states: seq<State>, steps: seq<Step>, i: nat, p: PromptId)
    requires IsRun(states, steps) && i < |states| && MustHold(states[i], p)
    ensures A.ReservedIds(states[i].records, states[i].calls[p].key) == Elements(states[i].calls[p].ids)
  {
    RunKeepsInv(states, steps, i);
    assert Intact(states[i], states[i].calls[p]);
  }

  lemma UnsettledMustHold(s: State, p: PromptId)
    requires Inv(s) && InPhase(s, p, InFlight) && Unsettled(s, p)
    ensures MustHold(s, p) && Intact(s, s.calls[p])
  {
    var x :| x in s.sessions[HomeOf(s.calls[p].key)].submissions && x.promptId == p && !x.settled;
    assert InTable(s, p);
  }

  /** A definite failure gives back exactly the attachments of the prompt, as drafts with the same ids. */
  lemma DefiniteFailureReturnsAll(states: seq<State>, steps: seq<Step>, i: nat, p: PromptId)
    requires IsRun(states, steps) && i < |steps| && steps[i] == Fails(p, false) && Unsettled(states[i], p)
    ensures var c := states[i].calls[p];
            && A.DraftIds(states[i + 1].records, c.key.scope) ==
               A.DraftIds(states[i].records, c.key.scope) + Elements(c.ids)
            && A.ReservedIds(states[i + 1].records, c.key) == {}
            && AP.SameButReservations(states[i].records, states[i + 1].records)
  {
    var s := states[i];
    RunKeepsInv(states, steps, i);
    UnsettledMustHold(s, p);
    assert states[i + 1] == Next(s, steps[i]);
    AP.ReleaseReturnsDrafts(s.records, s.calls[p].key);
    AP.ReservationOpsKeepTheRest(s.records, s.calls[p].key, A.Unknown, []);
  }

  /** An uncertain failure keeps every attachment reserved, and shuts the send gate once it is shown. */
  lemma UncertainFailureKeepsAll(states: seq<State>, steps: seq<Step>, i: nat, p: PromptId)
    requires IsRun(states, steps) && i < |steps| && steps[i] == Fails(p, true) && Unsettled(states[i], p)
    ensures A.ReservedIds(states[i + 1].records, states[i].calls[p].key) == Elements(states[i].calls[p].ids)
    ensures forall r :: r in states[i + 1].records && A.ReservedFor(r, states[i].calls[p].key) ==>
      r.reservation.value.status == A.Unknown
    ensures AP.SameButReservations(states[i].records, states[i + 1].records)
    ensures MustHold(states[i + 1], p)
  {
    var s := states[i];
    RunKeepsInv(states, steps, i);
    UnsettledMustHold(s, p);
    assert states[i + 1] == Next(s, steps[i]);
    AP.MarkKeepsReservations(s.records, s.calls[p].key, A.Unknown);
    AP.ReservationOpsKeepTheRest(s.records, s.calls[p].key, A.Unknown, []);
    var before := s.sessions[HomeOf(s.calls[p].key)];
    var x :| x in before.submissions && x.promptId == p && !x.settled;
    var k :| 0 <= k < |before.submissions| && before.submissions[k] == x;
    assert S.BeginFail(before, p).submissions[k].promptId == p;
  }

  // ---------------------------------------------------------------- sessions inside the protocol

  /** The step of module `Session` that a protocol step is for one session; None if it leaves the session alone. */
  function SessionStep(s: State, step: Step, home: Home): Option<S.Step>
    requires Enabled(s, step)
  {
    match step
    case Ready(p) => if HomeOf(s.calls[p].key) == home then Some(S.Add(p, s.calls[p].ids)) else None
    case Completes(p) =>
      if HomeOf(s.calls[p].key) == home && Unsettled(s, p) then Some(S.CompleteBegins(p)) else None
    case CompleteEnds(p) => if HomeOf(s.calls[p].key) == home then Some(S.CompleteEnds(p)) else None
    case Fails(p, _) => if HomeOf(s.calls[p].key) == home && Unsettled(s, p) then Some(S.FailBegins(p)) else None
    case FailEnds(p) =>
      if HomeOf(s.calls[p].key) == home then Some(S.FailEnds(p, s.calls[p].phase.uncertain)) else None
    case Snapshot(h, next) => if h == home then Some(S.Snapshot(next)) else None
    case HostExit => Some(S.HostExit)
    case HostReconnect => Some(S.HostReconnect)
    case Cancel(h) => if h == home then Some(S.Cancel) else None
    case CancelFails(h) => if h == home then Some(S.CancelFails) else None
    case _ => None
  }

  lemma NewPromptIsNotInTable(s: State, p: PromptId)
    requires Inv(s) && Enabled(s, Ready(p))
    ensures S.Enabled(s.sessions[HomeOf(s.calls[p].key)], S.Add(p, s.calls[p].ids))
  {
    var home := HomeOf(s.calls[p].key);
    forall x | x in s.sessions[home].submissions ensures x.promptId != p {
      assert Entitled(s, home, x);
    }
  }

  /** The session moves by that step, or stays as it is. */
  predicate MovesBy(before: S.State, step: Option<S.Step>, after: S.State) {
    match step
    case None => after == before
    case Some(x) => S.Enabled(before, x) && after == S.Apply(before, x)
  }

  lemma OutcomesFollow(s: State, step: Step, home: Home)
    requires Enabled(s, step) && home in s.sessions && home in Next(s, step).sessions
    requires step.Completes? || step.CompleteEnds? || step.Fails? || step.FailEnds?
    ensures MovesBy(s.sessions[home], SessionStep(s, step, home), Next(s, step).sessions[home])
  {
  }

  lemma EventsFollow(s: State, step: Step, home: Home)
    requires Enabled(s, step) && home in s.sessions
    requires step.HostExit? || step.HostReconnect? || step.Snapshot? || step.Cancel? || step.CancelFails?
    ensures MovesBy(s.sessions[home], SessionStep(s, step, home), Next(s, step).sessions[home])
  {
  }

  lemma SessionsFollow(s: State, step: Step, home: Home)
    requires Inv(s) && Enabled(s, step) && home in s.sessions && home in Next(s, step).sessions
    ensures MovesBy(s.sessions[home], SessionStep(s, step, home), Next(s, step).sessions[home])
  {
    if step.Completes? || step.CompleteEnds? || step.Fails? || step.FailEnds? {
      OutcomesFollow(s, step, home);
    } else if step.HostExit? || step.HostReconnect? || step.Snapshot? || step.Cancel? || step.CancelFails? {
      EventsFollow(s, step, home);
    } else if step.Ready? && HomeOf(s.calls[step.p].key) == home {
      NewPromptIsNotInTable(s, step.p);
    }
  }

  /** So the session invariants hold in every session of every reachable protocol state. */
  lemma {:induction false} SessionsStayValid(states: seq<State>, steps: seq<Step>, i: nat, home: Home)
    requires IsRun(states, steps) && i < |states| && home in states[i].sessions
    ensures SP.NamesShown(states[i].sessions[home]) && SP.CancelOk(states[i].sessions[home])
  {
    if i > 0 {
      assert states[i] == Next(states[i - 1], steps[i - 1]);
      if home in states[i - 1].sessions {
        SessionsStayValid(states, steps, i - 1, home);
        RunKeepsInv(states, steps, i - 1);
        SessionsFollow(states[i - 1], steps[i - 1], home);
        var step := SessionStep(states[i - 1], steps[i - 1], home);
        if step.Some? {
          SP.StepKeepsNames(states[i - 1].sessions[home], step.value);
          SP.StepKeepsCancel(states[i - 1].sessions[home], step.value);
        }
      }
    }
  }
}
