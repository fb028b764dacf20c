/**
 What the reconciliation loop that follows an applied snapshot decides for each reserved prompt of the
 session (desktop/src/conversation-controller.js): exactly one fate, told by the snapshot.
 */
module ReconciliationPlan {
  import opened Common
  import opened Protocol
  import S = Session
  import A = AttachmentStore
  import QueueSnapshot

  ghost predicate Reserved(rs: seq<A.Record>, key: A.Key) {
    exists r :: r in rs && A.ReservedFor(r, key)
  }

  /** Every reservation of the key still waits for the Host to take the prompt. */
  ghost predicate AllSubmitting(rs: seq<A.Record>, key: A.Key) {
    forall r :: r in rs && A.ReservedFor(r, key) ==> r.reservation.value.status.Submitting?
  }

  ghost predicate SomeSubmitting(rs: seq<A.Record>, key: A.Key) {
    exists r :: r in rs && A.ReservedFor(r, key) && r.reservation.value.status.Submitting?
  }

  lemma ReservedCons(rs: seq<A.Record>, key: A.Key)
    requires rs != []
    ensures Reserved(rs, key) <==> A.ReservedFor(rs[0], key) || Reserved(rs[1..], key)
    ensures AllSubmitting(rs, key) ==> AllSubmitting(rs[1..], key)
    ensures SomeSubmitting(rs[1..], key) ==> SomeSubmitting(rs, key)
  {
    assert rs == [rs[0]] + rs[1..];
  }

  /** The work list names a prompt's key under exactly the branch that the loop takes for it. */
  lemma {:induction false} PlanDecides(
      rs: seq<A.Record>, home: Home, live: set<PromptId>, removed: set<PromptId>, seen: set<PromptId>, key: A.Key)
    requires HomeOf(key) == home
    ensures var p, plan, open := key.promptId, Plan(rs, home, live, removed, seen), key.promptId !in seen && Reserved(rs, key);
      && (MarkAccepted(key) in plan <==> open && p in live)
      && (ConsumeFor(key) in plan <==> open && p !in live && p in removed)
      && (MarkUnknown(key) in plan ==> open && p !in live && p !in removed)
      && (open && p !in live && p !in removed && AllSubmitting(rs, key) ==> MarkUnknown(key) in plan)
      && (MarkUnknown(key) in plan ==> SomeSubmitting(rs, key))
  {
    if rs != [] {
      ReservedCons(rs, key);
      if ReservedAt(rs[0], home) && rs[0].reservation.value.promptId !in seen {
        PlanDecides(rs[1..], home, live, removed, seen + {rs[0].reservation.value.promptId}, key);
      } else {
        PlanDecides(rs[1..], home, live, removed, seen, key);
      }
    }
  }

  /** No two entries of a work list are for the same prompt, and all are for this session. */
  lemma {:induction false} PlanNamesEachOnce(
      rs: seq<A.Record>, home: Home, live: set<PromptId>, removed: set<PromptId>, seen: set<PromptId>)
    ensures EachOnce(Plan(rs, home, live, removed, seen))
    ensures forall a :: a in Plan(rs, home, live, removed, seen) ==> a.key.promptId !in seen && HomeOf(a.key) == home
  {
    if rs != [] {
      if ReservedAt(rs[0], home) && rs[0].reservation.value.promptId !in seen {
        var r := rs[0].reservation.value;
        var rest := Plan(rs[1..], home, live, removed, seen + {r.promptId});
        PlanNamesEachOnce(rs[1..], home, live, removed, seen + {r.promptId});
        assert forall i :: 0 <= i < |rest| ==> rest[i] in rest;
      } else {
        PlanNamesEachOnce(rs[1..], home, live, removed, seen);
      }
    }
  }

  predicate EachOnce(plan: seq<Action>) {
    forall i, j :: 0 <= i < j < |plan| ==> plan[i].key != plan[j].key
  }

  lemma MarkedReservations(rs: seq<A.Record>, home: Home, accepted: set<PromptId>, key: A.Key)
    requires HomeOf(key) == home
    ensures var t := MarkAllAccepted(rs, home, accepted);
      && (Reserved(t, key) <==> Reserved(rs, key))
      && (key.promptId in accepted ==> forall r :: r in t && A.ReservedFor(r, key) ==> r.reservation.value.status.Accepted?)
      && (key.promptId !in accepted ==> forall r :: A.ReservedFor(r, key) ==> (r in t <==> r in rs))
  {
    var t := MarkAllAccepted(rs, home, accepted);
    forall r | r in t && A.ReservedFor(r, key)
      ensures Reserved(rs, key) && (key.promptId in accepted ==> r.reservation.value.status.Accepted?)
      ensures key.promptId !in accepted ==> r in rs
    {
      var i :| 0 <= i < |t| && t[i] == r;
      assert rs[i] in rs && A.ReservedFor(rs[i], key);
    }
    forall r | r in rs && A.ReservedFor(r, key)
      ensures Reserved(t, key) && (key.promptId !in accepted ==> r in t)
    {
      var i :| 0 <= i < |rs| && rs[i] == r;
      assert t[i] in t && A.ReservedFor(t[i], key);
    }
  }

  /**
   After an applied snapshot every reserved prompt of the session has one fate: accepted if it is live,
   deleted if the snapshot removed it, marked unknown if the Host had not taken it yet, else left alone.
   */
  lemma SnapshotDecidesEveryReservation(s: State, home: Home, next: QueueSnapshot.Snapshot, key: A.Key)
    requires home in s.sessions && next.queueRevision > s.sessions[home].revision && HomeOf(key) == home
    ensures var before, t := s.sessions[home], SnapshotArrives(s, home, next);
      var p, job, live := key.promptId, t.jobs[|t.jobs| - 1], key.promptId in Elements(S.LiveIds(next));
      var held := Reserved(s.records, key);
      && (MarkAccepted(key) in job <==> held && live)
      && (ConsumeFor(key) in job <==> held && !live && p in S.RemovedBy(before, next))
      && (MarkUnknown(key) in job ==> held && !live && p !in S.RemovedBy(before, next))
      && (held && !live && p !in S.RemovedBy(before, next) && AllSubmitting(t.records, key) ==> MarkUnknown(key) in job)
      && (MarkUnknown(key) in job ==> SomeSubmitting(t.records, key))
      && EachOnce(job)
  {
    var before := s.sessions[home];
    var accepted := S.Accepted(before.submissions, S.SightOf(before, next));
    MarkedReservations(s.records, home, accepted, key);
    PlanDecides(MarkAllAccepted(s.records, home, accepted), home, Elements(S.LiveIds(next)), S.RemovedBy(before, next), {}, key);
    PlanNamesEachOnce(MarkAllAccepted(s.records, home, accepted), home, Elements(S.LiveIds(next)), S.RemovedBy(before, next), {});
  }

  /** And a prompt of this client that the snapshot shows live has its reservations accepted at once. */
  lemma SnapshotAcceptsLivePrompts(s: State, home: Home, next: QueueSnapshot.Snapshot, key: A.Key, r: A.Record)
    requires home in s.sessions && next.queueRevision > s.sessions[home].revision && HomeOf(key) == home
    requires r in SnapshotArrives(s, home, next).records && A.ReservedFor(r, key)
    requires key.promptId in S.Accepted(s.sessions[home].submissions, S.SightOf(s.sessions[home], next))
    ensures r.reservation.value.status.Accepted?
  {
    var before := s.sessions[home];
    MarkedReservations(s.records, home, S.Accepted(before.submissions, S.SightOf(before, next)), key);
  }
}
