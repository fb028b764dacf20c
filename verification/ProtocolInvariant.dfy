/** The invariant behind the prompt protocol, and its preservation by every step. */
module ProtocolInvariant {
  import opened Common
  import opened Protocol
  import S = Session
  import A = AttachmentStore
  import AP = AttachmentProofs
  import SP = SessionProofs
  import QueueSnapshot

  // ---------------------------------------------------------------- the invariant

  /** Prompt ids in use anywhere are known, so a newly drawn one is new everywhere. */
  ghost predicate Known(s: State) {
    && A.DistinctIds(s.records)
    && PromptsOf(s.records) <= s.used
    && (forall p :: p in s.calls ==> p in s.used && s.calls[p].key.promptId == p)
    && (forall home :: home in s.sessions ==> S.LiveBefore(s.sessions[home]) <= s.used)
  }

  /** The Host never lists a prompt that is still being prepared. */
  ghost predicate NonePreparing(s: State, ps: set<PromptId>) {
    forall p :: p in ps ==> !InPhase(s, p, Preparing)
  }

  ghost predicate Unlisted(s: State) {
    forall home :: home in s.sessions ==> NonePreparing(s, S.LiveBefore(s.sessions[home]))
  }

  /** A submission in a table belongs to a call of that session, settled as soon as the call has an outcome. */
  ghost predicate Entitled(s: State, home: Home, x: S.Submission) {
    && x.promptId in s.calls
    && s.calls[x.promptId].key == KeyOf(home, x.promptId)
    && !s.calls[x.promptId].phase.Preparing?
    && (x.settled <==> !s.calls[x.promptId].phase.InFlight?)
  }

  ghost predicate TableOk(s: State) {
    forall home, x :: home in s.sessions && x in s.sessions[home].submissions ==> Entitled(s, home, x)
  }

  ghost predicate TablesDistinct(s: State) {
    forall home :: home in s.sessions ==> S.DistinctSubmissions(s.sessions[home].submissions)
  }

  ghost predicate InTable(s: State, p: PromptId) {
    && p in s.calls
    && HomeOf(s.calls[p].key) in s.sessions
    && p in S.IdsOf(s.sessions[HomeOf(s.calls[p].key)].submissions)
  }

  /** Some reconciliation loop still has a deletion for this prompt on its list. */
  ghost predicate Pending(s: State, key: A.Key) {
    exists i :: 0 <= i < |s.jobs| && ConsumeFor(key) in s.jobs[i]
  }

  /** Prompts whose attachments must still be there: in preparation, or in the table without a known end. */
  ghost predicate MustHold(s: State, p: PromptId) {
    && p in s.calls
    && match s.calls[p].phase
       case Preparing => true
       case InFlight => InTable(s, p)
       case Failing(uncertain) => uncertain && InTable(s, p)
       case Completing => false
       case Done => InTable(s, p)
  }

  ghost predicate Intact(s: State, c: Call) {
    A.ReservedIds(s.records, c.key) == Elements(c.ids) && !Pending(s, c.key)
  }

  ghost predicate Held(s: State) {
    forall p :: MustHold(s, p) ==> Intact(s, s.calls[p])
  }

  ghost predicate JobsOk(s: State) {
    forall key :: Pending(s, key) ==> key in s.absent && key.promptId in s.used
  }

  ghost predicate Inv(s: State) {
    Known(s) && Unlisted(s) && TableOk(s) && TablesDistinct(s) && Held(s) && JobsOk(s)
  }

  lemma InitialInv(s: State)
    requires Initial(s)
    ensures Inv(s)
  {
  }

  // ---------------------------------------------------------------- steps that only touch sessions

  /** Every submission of t was already there with the same settled flag, and nothing new is live. */
  ghost predicate SessionShrinks(before: S.State, after: S.State) {
    && S.LiveBefore(after) <= S.LiveBefore(before)
    && (S.DistinctSubmissions(before.submissions) ==> S.DistinctSubmissions(after.submissions))
    && (forall x :: x in after.submissions ==>
          exists y :: y in before.submissions && y.promptId == x.promptId && y.settled == x.settled)
  }

  ghost predicate SessionsShrink(s: State, t: State) {
    && t == s.(sessions := t.sessions)
    && (forall home :: home in t.sessions ==>
          t.sessions[home] == S.EMPTY || (home in s.sessions && SessionShrinks(s.sessions[home], t.sessions[home])))
  }

  lemma SessionsShrinkKeeps(s: State, t: State)
    requires Inv(s) && SessionsShrink(s, t)
    ensures Inv(t)
  {
    forall home, x | home in t.sessions && x in t.sessions[home].submissions
      ensures Entitled(t, home, x) && x.promptId in S.IdsOf(s.sessions[home].submissions)
    {
      var y :| y in s.sessions[home].submissions && y.promptId == x.promptId && y.settled == x.settled;
      assert Entitled(s, home, y);
    }
    assert S.LiveBefore(S.EMPTY) == {};
    forall p | MustHold(t, p) ensures Intact(t, t.calls[p]) {
      assert MustHold(s, p);
      assert Intact(s, s.calls[p]);
    }
    forall key | Pending(t, key) ensures Pending(s, key) {
    }
  }

  lemma UpdatesShrink(s: S.State)
    ensures SessionShrinks(s, S.Disconnect(s)) && SessionShrinks(s, S.Reconnect(s))
    ensures SessionShrinks(s, S.RequestCancel(s)) && SessionShrinks(s, S.CancelRefused(s))
  {
    forall x | x in S.Disconnect(s).submissions
      ensures exists y :: y in s.submissions && y.promptId == x.promptId && y.settled == x.settled
    {
      var i :| 0 <= i < |s.submissions| && S.Disconnect(s).submissions[i] == x;
      assert s.submissions[i] in s.submissions;
    }
  }

  lemma EventsShrink(s: State, step: Step)
    requires Enabled(s, step)
    requires step.Open? || step.HostExit? || step.HostReconnect? || step.Cancel? || step.CancelFails?
    ensures SessionsShrink(s, Next(s, step))
  {
    var t := Next(s, step);
    forall home | home in t.sessions
      ensures t.sessions[home] == S.EMPTY || (home in s.sessions && SessionShrinks(s.sessions[home], t.sessions[home]))
    {
      if home in s.sessions { UpdatesShrink(s.sessions[home]); }
    }
  }

  lemma SessionStepKeeps(s: State, step: Step)
    requires Inv(s) && Enabled(s, step)
    requires step.Open? || step.HostExit? || step.HostReconnect? || step.Cancel? || step.CancelFails?
    ensures Inv(Next(s, step))
  {
    EventsShrink(s, step);
    SessionsShrinkKeeps(s, Next(s, step));
  }

  // ---------------------------------------------------------------- submitting

  lemma ReservePrompts(rs: seq<A.Record>, key: A.Key, ids: seq<A.AttachmentId>)
    ensures PromptsOf(A.Reserve(rs, key, ids)) <= PromptsOf(rs) + {key.promptId}
  {
    var after := A.Reserve(rs, key, ids);
    forall r | r in after && r.reservation.Some?
      ensures r.reservation.value.promptId in PromptsOf(rs) + {key.promptId}
    {
      var i :| 0 <= i < |after| && after[i] == r;
      assert rs[i] in rs;
    }
  }

  lemma FreshKeyHoldsNothing(rs: seq<A.Record>, key: A.Key)
    requires key.promptId !in PromptsOf(rs)
    ensures A.ReservedIds(rs, key) == {}
  {
  }

  lemma SubmitKeeps(s: State, home: Home, p: PromptId, ids: seq<A.AttachmentId>)
    requires Inv(s) && Enabled(s, Submit(home, p, ids))
    ensures Inv(BeginSubmit(s, home, p, ids))
  {
    var t, key := BeginSubmit(s, home, p, ids), KeyOf(home, p);
    FreshKeyHoldsNothing(s.records, key);
    AP.ReserveMovesDrafts(s.records, key, ids);
    AP.ReservationOpsKeepTheRest(s.records, key, A.Submitting, ids);
    AP.SameIds(s.records, t.records);
    ReservePrompts(s.records, key, ids);
    assert Known(t);
    forall home', x | home' in t.sessions && x in t.sessions[home'].submissions ensures Entitled(t, home', x) {
      assert Entitled(s, home', x);
    }
    forall k ensures Pending(t, k) <==> Pending(s, k) {
    }
    forall q | MustHold(t, q) ensures Intact(t, t.calls[q]) {
      if q != p {
        assert MustHold(s, q);
        assert Intact(s, s.calls[q]);
      }
    }
  }

  lemma ReadyKeeps(s: State, p: PromptId)
    requires Inv(s) && Enabled(s, Ready(p))
    ensures Inv(SubmitReady(s, p))
  {
    var t, home := SubmitReady(s, p), HomeOf(s.calls[p].key);
    assert MustHold(s, p) && Intact(s, s.calls[p]);
    forall x | x in s.sessions[home].submissions ensures x.promptId != p {
      assert Entitled(s, home, x);
    }
    forall h, x | h in t.sessions && x in t.sessions[h].submissions ensures Entitled(t, h, x) {
      if x in s.sessions[h].submissions {
        assert Entitled(s, h, x);
      }
    }
    assert forall h :: h in t.sessions ==> S.LiveBefore(t.sessions[h]) == S.LiveBefore(s.sessions[h]);
    forall k ensures Pending(t, k) <==> Pending(s, k) {
    }
    forall q | MustHold(t, q) ensures Intact(t, t.calls[q]) {
      if q != p {
        assert InTable(t, q) ==> InTable(s, q) by {
          if InTable(t, q) {
            var x :| x in t.sessions[HomeOf(t.calls[q].key)].submissions && x.promptId == q;
          }
        }
        assert MustHold(s, q);
        assert Intact(s, s.calls[q]);
      }
    }
  }

  lemma UnreserveIsRelease(rs: seq<A.Record>, key: A.Key, ids: seq<A.AttachmentId>)
    requires A.DistinctIds(rs) && A.ReservedIds(rs, key) == Elements(ids)
    ensures A.Unreserve(rs, ids) == A.Release(rs, key)
  {
    forall i | 0 <= i < |rs| ensures rs[i].attachmentId in ids <==> A.ReservedFor(rs[i], key) {
      assert rs[i] in rs;
      assert A.ReservedFor(rs[i], key) ==> rs[i].attachmentId in A.ReservedIds(rs, key);
      assert rs[i].attachmentId in A.ReservedIds(rs, key) ==> rs[i].attachmentId in ids;
      if rs[i].attachmentId in ids {
        assert rs[i].attachmentId in Elements(ids);
        var r :| r in rs && A.ReservedFor(r, key) && r.attachmentId == rs[i].attachmentId;
        AP.MembersById(rs, r, rs[i]);
      }
    }
  }

  lemma ReleasePrompts(rs: seq<A.Record>, key: A.Key)
    ensures PromptsOf(A.Release(rs, key)) <= PromptsOf(rs)
  {
    var after := A.Release(rs, key);
    forall r | r in after && r.reservation.Some? ensures r.reservation.value.promptId in PromptsOf(rs) {
      var i :| 0 <= i < |after| && after[i] == r;
      assert rs[i] in rs;
    }
  }

  // ---------------------------------------------------------------- giving back and deleting

  /** Giving back the attachments of a key nobody must hold any more. */
  lemma ReturnKeeps(s: State, key: A.Key)
    requires Inv(s) && key.promptId in s.used
    requires forall p :: MustHold(s, p) ==> s.calls[p].key != key
    ensures Inv(ReturnFor(s, key))
  {
    var t := ReturnFor(s, key);
    AP.ReleaseReturnsDrafts(s.records, key);
    AP.ReservationOpsKeepTheRest(s.records, key, A.Submitting, []);
    AP.SameIds(s.records, t.records);
    ReleasePrompts(s.records, key);
    SameTables(s, t);
  }

  lemma ConsumePrompts(rs: seq<A.Record>, key: A.Key)
    requires A.DistinctIds(rs)
    ensures PromptsOf(A.Consume(rs, key)) <= PromptsOf(rs)
  {
    AP.ConsumeDeletesExactly(rs, key);
  }

  /** Deleting the attachments of a key nobody must hold any more. */
  lemma DeleteKeeps(s: State, key: A.Key)
    requires Inv(s) && key.promptId in s.used
    requires forall p :: MustHold(s, p) ==> s.calls[p].key != key
    ensures Inv(DeleteFor(s, key))
  {
    var t := DeleteFor(s, key);
    AP.ConsumeDeletesExactly(s.records, key);
    AP.RemovalKeepsDistinct(s.records, A.ReservedIds(s.records, key));
    ConsumePrompts(s.records, key);
    SameTables(s, t);
  }

  /** Only records changed, and every other key kept its reservations. */
  lemma SameTables(s: State, t: State)
    requires Inv(s)
    requires t == s.(records := t.records)
    requires forall p :: MustHold(s, p) ==> A.ReservedIds(t.records, s.calls[p].key) == A.ReservedIds(s.records, s.calls[p].key)
    ensures Unlisted(t) && TableOk(t) && TablesDistinct(t) && Held(t) && JobsOk(t)
  {
    forall home, x | home in t.sessions && x in t.sessions[home].submissions ensures Entitled(t, home, x) {
      assert Entitled(s, home, x);
    }
    assert forall home :: home in t.sessions ==> NonePreparing(t, S.LiveBefore(s.sessions[home]));
    forall k ensures Pending(t, k) <==> Pending(s, k) {
    }
    forall p | MustHold(t, p) ensures Intact(t, t.calls[p]) {
      assert MustHold(s, p);
      assert Intact(s, s.calls[p]);
    }
  }

  // ---------------------------------------------------------------- phases and tables

  /** Only the phase of p and the session of p change, and p has nothing to hold afterwards, or held it before. */
  ghost predicate Progress(s: State, t: State, p: PromptId) {
    && p in s.calls && p in t.calls && !t.calls[p].phase.Preparing?
    && t == s.(calls := s.calls[p := s.calls[p].(phase := t.calls[p].phase)], sessions := t.sessions)
    && t.sessions.Keys == s.sessions.Keys
    && (forall home :: home in s.sessions ==>
          && S.LiveBefore(t.sessions[home]) <= S.LiveBefore(s.sessions[home])
          && S.DistinctSubmissions(t.sessions[home].submissions)
          && (forall x :: x in t.sessions[home].submissions && x.promptId == p ==> x.settled && !t.calls[p].phase.InFlight?)
          && (forall x :: x in t.sessions[home].submissions ==>
                exists y :: y in s.sessions[home].submissions && y.promptId == x.promptId
                         && (x.promptId != p ==> y.settled == x.settled)))
    && (MustHold(t, p) ==> MustHold(s, p))
  }

  lemma ProgressKeeps(s: State, t: State, p: PromptId)
    requires Inv(s) && Progress(s, t, p)
    ensures Inv(t)
  {
    forall home, x | home in t.sessions && x in t.sessions[home].submissions ensures Entitled(t, home, x) {
      var y :| y in s.sessions[home].submissions && y.promptId == x.promptId
            && (x.promptId != p ==> y.settled == x.settled);
      assert Entitled(s, home, y);
    }
    forall k ensures Pending(t, k) <==> Pending(s, k) {
    }
    forall q | MustHold(t, q) ensures Intact(t, t.calls[q]) {
      if q != p {
        ProgressElsewhere(s, t, p, q);
      }
      assert Intact(s, s.calls[q]);
    }
    assert forall home :: home in t.sessions ==> NonePreparing(s, S.LiveBefore(s.sessions[home]));
    assert Unlisted(t);
  }

  lemma ProgressElsewhere(s: State, t: State, p: PromptId, q: PromptId)
    requires Progress(s, t, p) && q != p && MustHold(t, q)
    ensures MustHold(s, q)
  {
    if InTable(t, q) {
      var x :| x in t.sessions[HomeOf(t.calls[q].key)].submissions && x.promptId == q;
      assert InTable(s, q);
    }
  }

  /** A submission update of one session, seen from the whole state. */
  lemma SessionProgress(s: State, p: PromptId, phase: Phase, after: S.State)
    requires Inv(s) && p in s.calls && HomeOf(s.calls[p].key) in s.sessions
    requires !phase.Preparing? && !phase.InFlight?
    requires var before := s.sessions[HomeOf(s.calls[p].key)];
             && S.LiveBefore(after) <= S.LiveBefore(before)
             && S.DistinctSubmissions(after.submissions)
             && (forall x :: x in after.submissions && x.promptId == p ==> x.settled)
             && (forall x :: x in after.submissions ==>
                   exists y :: y in before.submissions && y.promptId == x.promptId
                            && (x.promptId != p ==> y.settled == x.settled))
    requires MustHold(Put(SetPhase(s, p, phase), HomeOf(s.calls[p].key), after), p) ==> MustHold(s, p)
    ensures Inv(Put(SetPhase(s, p, phase), HomeOf(s.calls[p].key), after))
  {
    var home := HomeOf(s.calls[p].key);
    var t := Put(SetPhase(s, p, phase), home, after);
    forall h, x | h in s.sessions && h != home && x in t.sessions[h].submissions ensures x.promptId != p {
      assert Entitled(s, h, x);
    }
    ProgressKeeps(s, t, p);
  }

  /** An outcome for a prompt that is no longer in its table changes nothing but the phase of the call. */
  lemma LateOutcomeKeeps(s: State, p: PromptId)
    requires Inv(s) && InPhase(s, p, InFlight) && !Unsettled(s, p)
    ensures Inv(SetPhase(s, p, Done))
  {
    forall home, x | home in s.sessions && x in s.sessions[home].submissions ensures x.promptId != p {
      assert Entitled(s, home, x);
    }
    ProgressKeeps(s, SetPhase(s, p, Done), p);
  }

  lemma MarkedSubmissions(s: S.State, p: PromptId)
    ensures forall x :: x in S.BeginComplete(s, p).submissions && x.promptId == p ==> x.settled
    ensures forall x :: x in S.BeginFail(s, p).submissions && x.promptId == p ==> x.settled
    ensures forall x :: x in S.BeginComplete(s, p).submissions ==>
              exists y :: y in s.submissions && y.promptId == x.promptId && (x.promptId != p ==> y.settled == x.settled)
    ensures forall x :: x in S.BeginFail(s, p).submissions ==>
              exists y :: y in s.submissions && y.promptId == x.promptId && (x.promptId != p ==> y.settled == x.settled)
  {
    forall x | x in S.BeginComplete(s, p).submissions
      ensures x.promptId == p ==> x.settled
      ensures exists y :: y in s.submissions && y.promptId == x.promptId && (x.promptId != p ==> y.settled == x.settled)
    {
      var i :| 0 <= i < |s.submissions| && S.BeginComplete(s, p).submissions[i] == x;
      assert s.submissions[i] in s.submissions;
    }
    forall x | x in S.BeginFail(s, p).submissions
      ensures x.promptId == p ==> x.settled
      ensures exists y :: y in s.submissions && y.promptId == x.promptId && (x.promptId != p ==> y.settled == x.settled)
    {
      var i :| 0 <= i < |s.submissions| && S.BeginFail(s, p).submissions[i] == x;
      assert s.submissions[i] in s.submissions;
    }
  }

  /** Two prompts never share a key, so a key in hand belongs to its own prompt only. */
  lemma KeyIsOwn(s: State, p: PromptId)
    requires Known(s) && p in s.calls && !MustHold(s, p)
    ensures forall q :: MustHold(s, q) ==> s.calls[q].key != s.calls[p].key
  {
  }

  lemma CompletesKeeps(s: State, p: PromptId)
    requires Inv(s) && Enabled(s, Completes(p))
    ensures Inv(HostCompletes(s, p))
  {
    if Unsettled(s, p) {
      var key := s.calls[p].key;
      var before := s.sessions[HomeOf(key)];
      MarkedSubmissions(before, p);
      var t := Put(SetPhase(s, p, Completing), HomeOf(key), S.BeginComplete(before, p));
      SessionProgress(s, p, Completing, S.BeginComplete(before, p));
      KeyIsOwn(t, p);
      DeleteKeeps(t, key);
    } else {
      LateOutcomeKeeps(s, p);
    }
  }

  lemma CompleteEndsKeeps(s: State, p: PromptId)
    requires Inv(s) && Enabled(s, CompleteEnds(p))
    ensures Inv(CompletionEnds(s, p))
  {
    var home := HomeOf(s.calls[p].key);
    SessionProgress(s, p, Done, S.FinishComplete(s.sessions[home], p));
  }

  lemma FailsKeeps(s: State, p: PromptId, uncertain: bool)
    requires Inv(s) && Enabled(s, Fails(p, uncertain))
    ensures Inv(HostFails(s, p, uncertain))
  {
    if Unsettled(s, p) {
      var key := s.calls[p].key;
      var before := s.sessions[HomeOf(key)];
      MarkedSubmissions(before, p);
      var t := Put(SetPhase(s, p, Failing(uncertain)), HomeOf(key), S.BeginFail(before, p));
      SessionProgress(s, p, Failing(uncertain), S.BeginFail(before, p));
      if uncertain {
        MarkKeeps(t, key, A.Unknown);
      } else {
        KeyIsOwn(t, p);
        ReturnKeeps(t, key);
      }
    } else {
      LateOutcomeKeeps(s, p);
    }
  }

  lemma MarkKeeps(s: State, key: A.Key, status: A.ReservationStatus)
    requires Inv(s)
    ensures Inv(s.(records := A.SetReservationStatus(s.records, key, status)))
  {
    var t := s.(records := A.SetReservationStatus(s.records, key, status));
    AP.MarkKeepsReservations(s.records, key, status);
    AP.ReservationOpsKeepTheRest(s.records, key, status, []);
    AP.SameIds(s.records, t.records);
    MarkPrompts(s.records, t.records);
    SameTables(s, t);
  }

  lemma MarkPrompts(a: seq<A.Record>, b: seq<A.Record>)
    requires |a| == |b|
    requires forall i :: 0 <= i < |a| && b[i].reservation.Some? ==>
      a[i].reservation.Some? && a[i].reservation.value.promptId == b[i].reservation.value.promptId
    ensures PromptsOf(b) <= PromptsOf(a)
  {
    forall r | r in b && r.reservation.Some? ensures r.reservation.value.promptId in PromptsOf(a) {
      var i :| 0 <= i < |b| && b[i] == r;
      assert a[i] in a;
    }
  }

  lemma FinishedSubmissions(s: S.State, p: PromptId, uncertain: bool)
    requires forall x :: x in s.submissions && x.promptId == p ==> x.settled
    ensures forall x :: x in S.FinishFail(s, p, uncertain).submissions && x.promptId == p ==> x.settled && uncertain
    ensures forall x :: x in S.FinishFail(s, p, uncertain).submissions ==>
              exists y :: y in s.submissions && y.promptId == x.promptId && y.settled == x.settled
  {
    var after := S.FinishFail(s, p, uncertain);
    if uncertain {
      forall x | x in after.submissions
        ensures x.promptId == p ==> x.settled
        ensures exists y :: y in s.submissions && y.promptId == x.promptId && y.settled == x.settled
      {
        var i :| 0 <= i < |s.submissions| && after.submissions[i] == x;
        assert s.submissions[i] in s.submissions;
      }
    }
  }

  lemma FailEndsKeeps(s: State, p: PromptId)
    requires Inv(s) && Enabled(s, FailEnds(p))
    ensures Inv(FailureEnds(s, p))
  {
    var home, uncertain := HomeOf(s.calls[p].key), s.calls[p].phase.uncertain;
    var before := s.sessions[home];
    forall x | x in before.submissions && x.promptId == p ensures x.settled {
      assert Entitled(s, home, x);
    }
    FinishedSubmissions(before, p, uncertain);
    SessionProgress(s, p, Done, S.FinishFail(before, p, uncertain));
  }

  // ---------------------------------------------------------------- snapshots

  lemma {:induction false} PlanConsumesOnlyRemoved(
      rs: seq<A.Record>, home: Home, live: set<PromptId>, removed: set<PromptId>, seen: set<PromptId>, key: A.Key)
    requires ConsumeFor(key) in Plan(rs, home, live, removed, seen)
    ensures key.promptId in removed && key == KeyOf(home, key.promptId)
    ensures key.promptId in PromptsOf(rs)
  {
    if ReservedAt(rs[0], home) && rs[0].reservation.value.promptId !in seen {
      var r := rs[0].reservation.value;
      if ConsumeFor(key) !in ActionFor(r, KeyOf(home, r.promptId), live, removed) {
        PlanConsumesOnlyRemoved(rs[1..], home, live, removed, seen + {r.promptId}, key);
      }
    } else {
      PlanConsumesOnlyRemoved(rs[1..], home, live, removed, seen, key);
    }
  }

  lemma MarkAllKeepsReservations(rs: seq<A.Record>, home: Home, accepted: set<PromptId>)
    ensures forall k :: A.ReservedIds(MarkAllAccepted(rs, home, accepted), k) == A.ReservedIds(rs, k)
    ensures AP.SameButReservations(rs, MarkAllAccepted(rs, home, accepted))
    ensures PromptsOf(MarkAllAccepted(rs, home, accepted)) <= PromptsOf(rs)
  {
    AP.SameShape(rs, MarkAllAccepted(rs, home, accepted));
    MarkPrompts(rs, MarkAllAccepted(rs, home, accepted));
  }

  /** What an applied snapshot removes was live or unknown, is not in the table, and was not being prepared. */
  lemma RemovedIsGone(s: State, home: Home, next: QueueSnapshot.Snapshot, p: PromptId)
    requires Inv(s) && Enabled(s, Snapshot(home, next))
    requires next.queueRevision > s.sessions[home].revision
    requires p in S.RemovedBy(s.sessions[home], next)
    ensures p !in S.IdsOf(S.ApplySnapshot(s.sessions[home], next).submissions)
    ensures !InPhase(s, p, Preparing) && p in s.used
  {
    var before, v := s.sessions[home], S.SightOf(s.sessions[home], next);
    LiveMeansListed(next, p, v);
    if p in S.Reconciled(before.submissions, v) {
      var z :| z in before.submissions && S.Settle(z, v).None? && z.promptId == p;
      assert Entitled(s, home, z);
      ReconciledIsGone(before, v, z);
    } else {
      forall y | y in S.ApplySnapshot(before, next).submissions ensures y.promptId != p {
        SP.SettleAllMembers(before.submissions, v, y);
        var x :| x in before.submissions && S.Settle(x, v) == Some(y);
        assert Entitled(s, home, x);
      }
    }
  }

  lemma ReconciledIsGone(before: S.State, v: S.Sight, z: S.Submission)
    requires S.DistinctSubmissions(before.submissions) && z in before.submissions && S.Settle(z, v).None?
    ensures z.promptId !in S.IdsOf(S.SettleAll(before.submissions, v))
  {
    forall y | y in S.SettleAll(before.submissions, v) ensures y.promptId != z.promptId {
      SP.SettleAllMembers(before.submissions, v, y);
      var x :| x in before.submissions && S.Settle(x, v) == Some(y);
      var i :| 0 <= i < |before.submissions| && before.submissions[i] == x;
      var k :| 0 <= k < |before.submissions| && before.submissions[k] == z;
      assert i != k;
    }
  }

  lemma LiveMeansListed(next: QueueSnapshot.Snapshot, p: PromptId, v: S.Sight)
    requires v.listed == Elements(S.EntryIds(next.entries)) && v.running == next.running
    ensures S.LiveIn(p, v) <==> p in Elements(S.LiveIds(next))
  {
    ElementsAppend(S.EntryIds(next.entries), if next.running.Some? then [next.running.value] else []);
  }

  lemma SettledFromBefore(before: S.State, next: QueueSnapshot.Snapshot)
    requires S.DistinctSubmissions(before.submissions)
    ensures S.DistinctSubmissions(S.ApplySnapshot(before, next).submissions)
    ensures forall x :: x in S.ApplySnapshot(before, next).submissions ==>
              exists y :: y in before.submissions && y.promptId == x.promptId && y.settled == x.settled
  {
    var v := S.SightOf(before, next);
    SP.SettleAllDistinct(before.submissions, v);
    forall x | x in S.ApplySnapshot(before, next).submissions
      ensures exists y :: y in before.submissions && y.promptId == x.promptId && y.settled == x.settled
    {
      SP.SettleAllMembers(before.submissions, v, x);
    }
  }

  lemma LiveAfter(before: S.State, next: QueueSnapshot.Snapshot)
    ensures S.LiveBefore(S.ApplySnapshot(before, next)) <= S.LiveBefore(before) + Elements(S.LiveIds(next))
  {
    if next.queueRevision > before.revision {
      SP.ListedAfter(before, next);
      ElementsAppend(S.EntryIds(next.entries), if next.running.Some? then [next.running.value] else []);
    }
  }

  lemma SnapshotTables(s: State, home: Home, next: QueueSnapshot.Snapshot)
    requires Inv(s) && Enabled(s, Snapshot(home, next))
    ensures var t := SnapshotArrives(s, home, next); Unlisted(t) && TableOk(t) && TablesDistinct(t)
  {
    var t, before := SnapshotArrives(s, home, next), s.sessions[home];
    SettledFromBefore(before, next);
    LiveAfter(before, next);
    forall h, x | h in t.sessions && x in t.sessions[h].submissions ensures Entitled(t, h, x) {
      if h == home {
        var y :| y in before.submissions && y.promptId == x.promptId && y.settled == x.settled;
        assert Entitled(s, home, y);
      } else {
        assert Entitled(s, h, x);
      }
    }
    assert forall h :: h in s.sessions ==> NonePreparing(s, S.LiveBefore(s.sessions[h]));
    assert forall h :: h in t.sessions ==> NonePreparing(t, S.LiveBefore(t.sessions[h]));
  }

  lemma SnapshotKnown(s: State, home: Home, next: QueueSnapshot.Snapshot)
    requires Inv(s) && Enabled(s, Snapshot(home, next))
    ensures var t := SnapshotArrives(s, home, next); Known(t)
  {
    var t, before := SnapshotArrives(s, home, next), s.sessions[home];
    LiveAfter(before, next);
    if next.queueRevision > before.revision {
      MarkAllKeepsReservations(s.records, home, S.Accepted(before.submissions, S.SightOf(before, next)));
      AP.SameIds(s.records, t.records);
    }
  }

  /** The new reconciliation loop deletes only for prompts the snapshot removed. */
  lemma SnapshotPending(s: State, home: Home, next: QueueSnapshot.Snapshot, key: A.Key)
    requires Inv(s) && Enabled(s, Snapshot(home, next)) && Pending(SnapshotArrives(s, home, next), key)
    ensures Pending(s, key) || (next.queueRevision > s.sessions[home].revision && HomeOf(key) == home
                                && key.promptId in S.RemovedBy(s.sessions[home], next))
  {
    var t, before := SnapshotArrives(s, home, next), s.sessions[home];
    var i :| 0 <= i < |t.jobs| && ConsumeFor(key) in t.jobs[i];
    if i < |s.jobs| {
      assert ConsumeFor(key) in s.jobs[i];
    } else {
      PlanConsumesOnlyRemoved(t.records, home, Elements(S.LiveIds(next)), S.RemovedBy(before, next), {}, key);
    }
  }

  lemma SnapshotHeld(s: State, home: Home, next: QueueSnapshot.Snapshot)
    requires Inv(s) && Enabled(s, Snapshot(home, next))
    ensures var t := SnapshotArrives(s, home, next); Held(t) && JobsOk(t)
  {
    var t, before := SnapshotArrives(s, home, next), s.sessions[home];
    SettledFromBefore(before, next);
    MarkAllKeepsReservations(s.records, home, S.Accepted(before.submissions, S.SightOf(before, next)));
    forall p | MustHold(t, p) ensures Intact(t, t.calls[p]) {
      if InTable(t, p) {
        var x :| x in t.sessions[HomeOf(t.calls[p].key)].submissions && x.promptId == p;
        assert InTable(s, p);
      }
      assert MustHold(s, p) && Intact(s, s.calls[p]);
      if Pending(t, t.calls[p].key) {
        SnapshotPending(s, home, next, t.calls[p].key);
        RemovedIsGone(s, home, next, p);
        assert false;
      }
    }
    forall key | Pending(t, key) ensures key in t.absent && key.promptId in t.used {
      SnapshotPending(s, home, next, key);
      if !Pending(s, key) {
        RemovedIsGone(s, home, next, key.promptId);
        assert key == KeyOf(home, key.promptId);
      }
    }
  }

  // ---------------------------------------------------------------- reconciliation loops

  /** Dropping actions from the work lists. */
  lemma FewerJobsKeeps(s: State, i: nat, rest: seq<Action>)
    requires Inv(s) && i < |s.jobs|
    requires forall a :: a in rest ==> a in s.jobs[i]
    ensures Inv(s.(jobs := s.jobs[i := rest]))
    ensures forall p :: MustHold(s.(jobs := s.jobs[i := rest]), p) ==> MustHold(s, p)
  {
    var t := s.(jobs := s.jobs[i := rest]);
    forall key | Pending(t, key) ensures Pending(s, key) {
      var j :| 0 <= j < |t.jobs| && ConsumeFor(key) in t.jobs[j];
      assert ConsumeFor(key) in s.jobs[j];
    }
    forall home, x | home in t.sessions && x in t.sessions[home].submissions ensures Entitled(t, home, x) {
      assert Entitled(s, home, x);
    }
    forall p | MustHold(t, p) ensures MustHold(s, p) && Intact(t, t.calls[p]) {
      assert MustHold(s, p);
      assert Intact(s, s.calls[p]);
    }
    assert forall home :: home in t.sessions ==> NonePreparing(t, S.LiveBefore(s.sessions[home]));
  }

  lemma JobKeeps(s: State, i: nat)
    requires Inv(s) && Enabled(s, Job(i))
    ensures Inv(RunJob(s, i))
  {
    var action, rest := s.jobs[i][0], s.jobs[i][1..];
    var t := s.(jobs := s.jobs[i := rest]);
    FewerJobsKeeps(s, i, rest);
    match action
    case MarkAccepted(key) => MarkKeeps(t, key, A.Accepted);
    case MarkUnknown(key) => MarkKeeps(t, key, A.Unknown);
    case ConsumeFor(key) =>
      assert ConsumeFor(key) in s.jobs[i];
      assert Pending(s, key);
      forall p | MustHold(t, p) ensures t.calls[p].key != key {
        assert MustHold(s, p);
        assert Intact(s, s.calls[p]);
      }
      DeleteKeeps(t, key);
  }

  // ---------------------------------------------------------------- the other steps

  lemma AbortedKeeps(s: State, p: PromptId)
    requires Inv(s) && Enabled(s, Aborted(p))
    ensures Inv(SubmitAborted(s, p))
  {
    var c := s.calls[p];
    var t := SetPhase(s, p, Done);
    assert MustHold(s, p) && Intact(s, c);
    forall home, x | home in s.sessions && x in s.sessions[home].submissions ensures x.promptId != p {
      assert Entitled(s, home, x);
    }
    ProgressKeeps(s, t, p);
    KeyIsOwn(t, p);
    UnreserveIsRelease(s.records, c.key, c.ids);
    ReturnKeeps(t, c.key);
  }

  lemma ClearedKeeps(s: State)
    requires Inv(s) && Enabled(s, AccountCleared)
    ensures Inv(Next(s, AccountCleared))
  {
    var t := Next(s, AccountCleared);
    forall key | Pending(t, key) ensures Pending(s, key) {
    }
  }

  lemma StagingKeeps(s: State, op: A.Op)
    requires Inv(s) && Enabled(s, Staging(op))
    ensures Inv(Next(s, Staging(op)))
  {
    var t := Next(s, Staging(op));
    AP.OperationKeepsBound(s.records, op);
    AP.StagingKeepsReserved(s.records, op);
    SameTables(s, t);
  }

  lemma StepKeepsInv(s: State, step: Step)
    requires Inv(s) && Enabled(s, step)
    ensures Inv(Next(s, step))
  {
    match step
    case Submit(home, p, ids) => SubmitKeeps(s, home, p, ids);
    case Ready(p) => ReadyKeeps(s, p);
    case Aborted(p) => AbortedKeeps(s, p);
    case Completes(p) => CompletesKeeps(s, p);
    case CompleteEnds(p) => CompleteEndsKeeps(s, p);
    case Fails(p, uncertain) => FailsKeeps(s, p, uncertain);
    case FailEnds(p) => FailEndsKeeps(s, p);
    case Snapshot(home, next) =>
      SnapshotTables(s, home, next);
      SnapshotKnown(s, home, next);
      SnapshotHeld(s, home, next);
    case Job(i) => JobKeeps(s, i);
    case JobFails(i) => FewerJobsKeeps(s, i, []);
    case Staging(op) => StagingKeeps(s, op);
    case AccountCleared => ClearedKeeps(s);
    case _ => SessionStepKeeps(s, step);
  }

  lemma {:induction false} RunKeepsInv(states: seq<State>, steps: seq<Step>, i: nat)
    requires IsRun(states, steps) && i < |states|
    ensures Inv(states[i])
  {
    if i == 0 {
      InitialInv(states[0]);
    } else {
      RunKeepsInv(states, steps, i - 1);
      StepKeepsInv(states[i - 1], steps[i - 1]);
    }
  }
}
