/**
 The queue part of `AgentConversationController` as it runs: fields updated in place by loops.
 Each method does exactly the step of module `Session` it is named after.
 */
module ConversationQueue {
  import opened Common
  import opened Session
  import QueueSnapshot

  class ConversationQueue {
    var queueRevision: int
    var queueEntries: seq<QueueEntry>
    var queueRunningPromptId: Option<PromptId>
    var queuePublicIds: map<PromptId, nat>
    var queuePrivateIds: map<nat, PromptId>
    var queuePublicCounter: nat
    var submissions: seq<Submission>
    var cancelRequested: bool
    var cancelTargetPromptId: Option<PromptId>
    var active: bool

    function IdNames(): Names
      reads this
    {
      Names(queuePublicIds, queuePrivateIds, queuePublicCounter)
    }

    function View(): State
      reads this
    {
      State(queueRevision, queueEntries, queueRunningPromptId, IdNames(), submissions,
            cancelRequested, cancelTargetPromptId, active)
    }

    constructor ()
      ensures View() == EMPTY
    {
      queueRevision, queueEntries, queueRunningPromptId := -1, [], None;
      queuePublicIds, queuePrivateIds, queuePublicCounter := map[], map[], 0;
      submissions, cancelRequested, cancelTargetPromptId, active := [], false, None, false;
    }

    method EnsurePublicQueueId(p: PromptId) returns (publicId: nat)
      modifies this`queuePublicIds, this`queuePrivateIds, this`queuePublicCounter
      ensures IdNames() == EnsureName(old(IdNames()), p)
      ensures p in queuePublicIds && publicId == queuePublicIds[p]
      ensures if p in old(queuePublicIds) then IdNames() == old(IdNames()) && publicId == old(queuePublicIds)[p]
              else queuePublicIds == old(queuePublicIds)[p := publicId] && publicId == old(queuePublicCounter) + 1
    {
      if p in queuePublicIds {
        return queuePublicIds[p];
      }
      queuePublicCounter := queuePublicCounter + 1;
      publicId := queuePublicCounter;
      queuePublicIds := queuePublicIds[p := publicId];
      queuePrivateIds := queuePrivateIds[publicId := p];
    }

    method EnsurePublicQueueIds(ps: seq<PromptId>)
      modifies this`queuePublicIds, this`queuePrivateIds, this`queuePublicCounter
      ensures IdNames() == EnsureNames(old(IdNames()), ps)
    {
      for i := 0 to |ps|
        invariant IdNames() == EnsureNames(old(IdNames()), ps[..i])
      {
        assert ps[..i + 1][..i] == ps[..i];
        var _ := EnsurePublicQueueId(ps[i]);
      }
      assert ps[..|ps|] == ps;
    }

    /** Forgets the ids of prompts that are neither live nor still in the submission table. */
    method DropDeadNames(live: set<PromptId>)
      modifies this`queuePublicIds, this`queuePrivateIds
      ensures IdNames() == DropNames(old(IdNames()), old(queuePublicIds).Keys - live - IdsOf(submissions))
    {
      ghost var before := IdNames();
      var kept := live + (set x | x in submissions :: x.promptId);
      assert kept == live + IdsOf(submissions);
      var todo := queuePublicIds.Keys;
      ghost var dead: set<PromptId> := {};
      while todo != {}
        invariant todo <= before.publicIds.Keys
        invariant dead == before.publicIds.Keys - todo - kept
        invariant queuePublicIds == before.publicIds - dead
        invariant queuePrivateIds == before.privateIds - (set p | p in dead && p in before.publicIds :: before.publicIds[p])
        decreases todo
      {
        var p :| p in todo;
        todo := todo - {p};
        if p !in kept {
          dead := dead + {p};
          var publicId := queuePublicIds[p];
          queuePublicIds := queuePublicIds - {p};
          queuePrivateIds := queuePrivateIds - {publicId};
        }
      }
    }

    /** The loop over all submissions, deleting reconciled ones while it goes. */
    method SettleSubmissions(v: Sight) returns (accepted: set<PromptId>, reconciled: set<PromptId>)
      modifies this`submissions
      ensures submissions == SettleAll(old(submissions), v)
      ensures accepted == Accepted(old(submissions), v)
      ensures reconciled == Reconciled(old(submissions), v)
    {
      var all := submissions;
      var remaining: seq<Submission> := [];
      accepted, reconciled := {}, {};
      for i := 0 to |all|
        invariant remaining == SettleAll(all[..i], v)
        invariant accepted == Accepted(all[..i], v)
        invariant reconciled == Reconciled(all[..i], v)
      {
        var x := all[i];
        assert all[..i + 1][..i] == all[..i];
        assert all[..i + 1] == all[..i] + [x];
        LoopGrows(all[..i], x, v);
        if LiveIn(x.promptId, v) {
          remaining := remaining + [x.(status := if v.running == Some(x.promptId) then Running else Queued)];
          accepted := accepted + {x.promptId};
        } else if x.status.Unknown? || x.promptId in v.before {
          reconciled := reconciled + {x.promptId};
        } else {
          remaining := remaining + [x];
        }
      }
      assert all[..|all|] == all;
      submissions := remaining;
    }

    /** Public ids for everything live, none for what is gone. */
    method UpdateNames(next: QueueSnapshot.Snapshot)
      modifies this`queuePublicIds, this`queuePrivateIds, this`queuePublicCounter
      ensures IdNames() == NamesAfter(old(View()), next)
    {
      EnsurePublicQueueIds(LiveIds(next));
      DropDeadNames(Elements(LiveIds(next)));
    }

    method EndCancelOnSnapshot(next: QueueSnapshot.Snapshot)
      modifies this`cancelRequested, this`cancelTargetPromptId
      ensures cancelRequested == (old(cancelRequested) && !SnapshotEndsCancel(old(View()), next))
      ensures cancelTargetPromptId == if SnapshotEndsCancel(old(View()), next) then None else old(cancelTargetPromptId)
    {
      if cancelRequested && (next.running.None? || (cancelTargetPromptId.Some? && next.running != cancelTargetPromptId)) {
        cancelRequested, cancelTargetPromptId := false, None;
      }
    }

    /** The synchronous part of `#handleQueueChanged` for a snapshot that passed its checks. */
    method HandleQueueChanged(next: QueueSnapshot.Snapshot)
      returns (applied: bool, accepted: set<PromptId>, removed: set<PromptId>)
      modifies this
      ensures View() == ApplySnapshot(old(View()), next)
      ensures applied == (next.queueRevision > old(queueRevision))
      ensures applied ==> accepted == Accepted(old(submissions), SightOf(old(View()), next))
      ensures applied ==> removed == RemovedBy(old(View()), next)
    {
      accepted, removed := {}, {};
      applied := next.queueRevision > queueRevision;
      if !applied {
        return;
      }
      var v := SightOf(View(), next);
      NamesCoverLive(View(), next);
      UpdateNames(next);
      EndCancelOnSnapshot(next);
      var reconciled;
      accepted, reconciled := SettleSubmissions(v);
      removed := v.before - Elements(LiveIds(next)) + reconciled;
      ShowQueue(next);
    }

    /** The queue itself, once its prompts have names. */
    method ShowQueue(next: QueueSnapshot.Snapshot)
      requires forall e :: e in next.entries ==> e.id in queuePublicIds
      modifies this`queueRevision, this`queueEntries, this`queueRunningPromptId, this`active
      ensures queueRevision == next.queueRevision && queueRunningPromptId == next.running && active == next.running.Some?
      ensures queueEntries == PublicEntries(next.entries, queuePublicIds)
    {
      queueRevision := next.queueRevision;
      queueEntries := PublicEntries(next.entries, queuePublicIds);
      queueRunningPromptId := next.running;
      active := next.running.Some?;
    }

    method CancelCurrentTask()
      modifies this`cancelRequested, this`cancelTargetPromptId
      ensures View() == RequestCancel(old(View()))
    {
      if cancelRequested || (queueRunningPromptId.None? && !active) {
        return;
      }
      cancelRequested := true;
      if queueRunningPromptId.Some? {
        cancelTargetPromptId := queueRunningPromptId;
        return;
      }
      cancelTargetPromptId := FindFirst({Running});
      if cancelTargetPromptId.None? {
        cancelTargetPromptId := FindFirst({Submitting, Unknown});
      }
    }

    method FindFirst(statuses: set<Status>) returns (p: Option<PromptId>)
      ensures p == FirstWith(submissions, statuses)
    {
      var i := 0;
      while i < |submissions|
        invariant 0 <= i <= |submissions|
        invariant FirstWith(submissions, statuses) == FirstWith(submissions[i..], statuses)
      {
        assert submissions[i..][1..] == submissions[i + 1..];
        if submissions[i].status in statuses {
          return Some(submissions[i].promptId);
        }
        i := i + 1;
      }
      p := None;
    }

    method MarkDisconnected()
      modifies this`cancelRequested, this`cancelTargetPromptId, this`submissions
      ensures View() == Disconnect(old(View()))
    {
      cancelRequested, cancelTargetPromptId := false, None;
      var i := 0;
      while i < |submissions|
        invariant 0 <= i <= |submissions| == |old(submissions)|
        invariant !cancelRequested && cancelTargetPromptId.None?
        invariant forall k :: 0 <= k < |submissions| ==>
          submissions[k] == if k < i then Disconnect(old(View())).submissions[k] else old(submissions)[k]
      {
        if submissions[i].status.Submitting? {
          submissions := submissions[i := submissions[i].(status := Unknown)];
        }
        i := i + 1;
      }
      assert submissions == Disconnect(old(View())).submissions;
    }

    /** Deletes the entry of p from the submission table. */
    method DeleteSubmission(p: PromptId)
      modifies this`submissions
      ensures submissions == Without(old(submissions), p)
    {
      submissions := Rest(submissions, p);
    }

    /** Sets the status of the submission object of p, wherever it is in the table. */
    method MarkUnknown(p: PromptId)
      modifies this`submissions
      ensures submissions == SetStatus(old(submissions), p, Unknown)
    {
      var i := 0;
      while i < |submissions|
        invariant 0 <= i <= |submissions| == |old(submissions)|
        invariant forall k :: 0 <= k < |submissions| ==>
          submissions[k] == if k < i then SetStatus(old(submissions), p, Unknown)[k] else old(submissions)[k]
      {
        if submissions[i].promptId == p {
          submissions := submissions[i := submissions[i].(status := Unknown)];
        }
        i := i + 1;
      }
      assert submissions == SetStatus(old(submissions), p, Unknown);
    }

    /** The last stretch of `#completeSubmission`; `CompletionForgetsPrompt` says what it comes to. */
    method CompletionEnds(p: PromptId)
      modifies this
      ensures View() == FinishComplete(old(View()), p)
    {
      DeleteSubmission(p);
      if cancelRequested && (cancelTargetPromptId.None? || cancelTargetPromptId == Some(p)) {
        cancelRequested, cancelTargetPromptId := false, None;
      }
      if queueRevision < 0 {
        queueRunningPromptId, active := None, false;
      }
    }

    /** The last stretch of `#failSubmission`; `FailureSettlesPrompt` says what it comes to. */
    method FailureEnds(p: PromptId, uncertain: bool)
      modifies this
      ensures View() == FinishFail(old(View()), p, uncertain)
    {
      if uncertain {
        MarkUnknown(p);
      }
      if cancelRequested && (cancelTargetPromptId.None? || cancelTargetPromptId == Some(p)) {
        cancelRequested, cancelTargetPromptId := false, None;
      }
      if !uncertain {
        DeleteSubmission(p);
      }
      if queueRevision < 0 {
        active := false;
      }
    }
  }

  method Rest(subs: seq<Submission>, p: PromptId) returns (rest: seq<Submission>)
    ensures rest == Without(subs, p)
  {
    rest := [];
    for i := 0 to |subs|
      invariant rest == Without(subs[..i], p)
    {
      WithoutNext(subs, i, p);
      if subs[i].promptId != p {
        rest := rest + [subs[i]];
      }
    }
    assert subs[..|subs|] == subs;
  }

  lemma WithoutNext(subs: seq<Submission>, i: nat, p: PromptId)
    requires i < |subs|
    ensures Without(subs[..i + 1], p) == Without(subs[..i], p) + if subs[i].promptId == p then [] else [subs[i]]
  {
    assert subs[..i + 1][..i] == subs[..i];
  }

  lemma LoopGrows(init: seq<Submission>, x: Submission, v: Sight)
    ensures Accepted(init + [x], v) == Accepted(init, v) + (if LiveIn(x.promptId, v) then {x.promptId} else {})
    ensures Reconciled(init + [x], v) == Reconciled(init, v) + (if Settle(x, v).None? then {x.promptId} else {})
  {
    var all := init + [x];
    assert x in all;
    assert forall y :: y in all <==> y in init || y == x;
    forall p ensures p in Accepted(all, v) <==> p in Accepted(init, v) + (if LiveIn(x.promptId, v) then {x.promptId} else {}) {
    }
    forall p ensures p in Reconciled(all, v) <==> p in Reconciled(init, v) + (if Settle(x, v).None? then {x.promptId} else {}) {
    }
  }
}
