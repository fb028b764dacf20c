/**
 What each step of the protocol does to the attachments, told record by record: which ones are deleted, and
 what becomes of the reservation of the others (desktop/src/conversation-controller.js).
 */
module ProtocolEffects {
  import opened Common
  import opened Protocol
  import opened ProtocolInvariant
  import opened ProtocolTheorems
  import opened ReconciliationPlan
  import S = Session
  import A = AttachmentStore
  import AP = AttachmentProofs
  import QueueSnapshot

  // ---------------------------------------------------------------- one step, one record

  /** What becomes of a record: deleted, or kept with some reservation. */
  datatype Fate = Gone | Kept(reservation: Option<A.Reservation>)

  function Status(r: A.Record, status: A.ReservationStatus): Fate {
    Kept(if r.reservation.Some? then Some(r.reservation.value.(status := status)) else None)
  }

  function FateOf(s: State, step: Step, r: A.Record): Fate
    requires Enabled(s, step)
  {
    match step
    case Submit(home, p, ids) =>
      Kept(if r.attachmentId in ids then Some(A.Reservation(home.sessionId, p, A.Submitting)) else r.reservation)
    case Aborted(p) => if A.ReservedFor(r, s.calls[p].key) then Kept(None) else Kept(r.reservation)
    case Completes(p) => if Unsettled(s, p) && A.ReservedFor(r, s.calls[p].key) then Gone else Kept(r.reservation)
    case Fails(p, uncertain) =>
      if !Unsettled(s, p) || !A.ReservedFor(r, s.calls[p].key) then Kept(r.reservation)
      else if uncertain then Status(r, A.Unknown)
      else Kept(None)
    case Snapshot(home, next) =>
      if AcceptedAtOnce(s, home, next, r) then Status(r, A.Accepted) else Kept(r.reservation)
    case Job(i) =>
      var action := s.jobs[i][0];
      if !A.ReservedFor(r, action.key) then Kept(r.reservation)
      else if action.MarkAccepted? then Status(r, A.Accepted)
      else if action.MarkUnknown? then Status(r, A.Unknown)
      else Gone
    case AccountCleared => Gone
    case _ => Kept(r.reservation)
  }

  /** An applied snapshot lists or runs the prompt, and this client has a submission of it. */
  predicate AcceptedAtOnce(s: State, home: Home, next: QueueSnapshot.Snapshot, r: A.Record)
    requires home in s.sessions
  {
    && next.queueRevision > s.sessions[home].revision && ReservedAt(r, home)
    && r.reservation.value.promptId in S.LiveIds(next)
    && r.reservation.value.promptId in S.IdsOf(s.sessions[home].submissions)
  }

  /** The records that are kept, in order, each with the reservation it is left with. */
  function Survivors(s: State, step: Step, rs: seq<A.Record>): seq<A.Record>
    requires Enabled(s, step)
  {
    if rs == [] then []
    else
      var front, last := Survivors(s, step, rs[..|rs| - 1]), rs[|rs| - 1];
      match FateOf(s, step, last)
      case Gone => front
      case Kept(reservation) => front + [last.(reservation := reservation)]
  }

  lemma {:induction false} AllSurvive(s: State, step: Step, rs: seq<A.Record>, after: seq<A.Record>)
    requires Enabled(s, step) && |after| == |rs|
    requires forall i :: 0 <= i < |rs| ==>
      var fate := FateOf(s, step, rs[i]); fate.Kept? && after[i] == rs[i].(reservation := fate.reservation)
    ensures Survivors(s, step, rs) == after
  {
    if rs != [] {
      var n := |rs| - 1;
      AllSurvive(s, step, rs[..n], after[..n]);
      assert after == after[..n] + [after[n]];
    }
  }

  lemma {:induction false} OthersSurvive(s: State, step: Step, rs: seq<A.Record>, ids: set<A.AttachmentId>)
    requires Enabled(s, step)
    requires forall r :: r in rs ==>
      FateOf(s, step, r) == if r.attachmentId in ids then Gone else Kept(r.reservation)
    ensures Survivors(s, step, rs) == A.RemoveIds(rs, ids)
  {
    if rs != [] {
      var front, last := rs[..|rs| - 1], rs[|rs| - 1];
      assert last in rs && forall r :: r in front ==> r in rs;
      OthersSurvive(s, step, front, ids);
      assert last == last.(reservation := last.reservation);
    }
  }

  lemma {:induction false} NoneSurvives(s: State, step: Step, rs: seq<A.Record>)
    requires Enabled(s, step) && forall r :: r in rs ==> FateOf(s, step, r).Gone?
    ensures Survivors(s, step, rs) == []
  {
    if rs != [] {
      assert rs[|rs| - 1] in rs;
      NoneSurvives(s, step, rs[..|rs| - 1]);
    }
  }

  /** With distinct ids, the records whose id is reserved for a key are those reserved for it. */
  lemma ReservedById(rs: seq<A.Record>, key: A.Key)
    requires A.DistinctIds(rs)
    ensures forall r :: r in rs ==> (r.attachmentId in A.ReservedIds(rs, key) <==> A.ReservedFor(r, key))
  {
    forall r | r in rs && r.attachmentId in A.ReservedIds(rs, key) ensures A.ReservedFor(r, key) {
      var x :| x in rs && A.ReservedFor(x, key) && x.attachmentId == r.attachmentId;
      AP.MembersById(rs, r, x);
    }
  }

  lemma CompletionEffect(s: State, p: PromptId)
    requires Inv(s) && Enabled(s, Completes(p))
    ensures Next(s, Completes(p)).records == Survivors(s, Completes(p), s.records)
  {
    if Unsettled(s, p) {
      ReservedById(s.records, s.calls[p].key);
      OthersSurvive(s, Completes(p), s.records, A.ReservedIds(s.records, s.calls[p].key));
    } else {
      AllSurvive(s, Completes(p), s.records, s.records);
    }
  }

  lemma FailureEffect(s: State, p: PromptId, uncertain: bool)
    requires Enabled(s, Fails(p, uncertain))
    ensures Next(s, Fails(p, uncertain)).records == Survivors(s, Fails(p, uncertain), s.records)
  {
    AllSurvive(s, Fails(p, uncertain), s.records, Next(s, Fails(p, uncertain)).records);
  }

  lemma AbortEffect(s: State, p: PromptId)
    requires Inv(s) && Enabled(s, Aborted(p))
    ensures Next(s, Aborted(p)).records == Survivors(s, Aborted(p), s.records)
  {
    assert MustHold(s, p) && Intact(s, s.calls[p]);
    UnreserveIsRelease(s.records, s.calls[p].key, s.calls[p].ids);
    AllSurvive(s, Aborted(p), s.records, A.Release(s.records, s.calls[p].key));
  }

  lemma JobEffect(s: State, i: nat)
    requires Inv(s) && Enabled(s, Job(i))
    ensures Next(s, Job(i)).records == Survivors(s, Job(i), s.records)
  {
    var action := s.jobs[i][0];
    if action.ConsumeFor? {
      ReservedById(s.records, action.key);
      OthersSurvive(s, Job(i), s.records, A.ReservedIds(s.records, action.key));
    } else {
      AllSurvive(s, Job(i), s.records, Next(s, Job(i)).records);
    }
  }

  lemma SnapshotEffect(s: State, home: Home, next: QueueSnapshot.Snapshot)
    requires Inv(s) && Enabled(s, Snapshot(home, next))
    ensures Next(s, Snapshot(home, next)).records == Survivors(s, Snapshot(home, next), s.records)
  {
    var before := s.sessions[home];
    var v := S.SightOf(before, next);
    forall p ensures p in S.Accepted(before.submissions, v) <==> p in S.LiveIds(next) && p in S.IdsOf(before.submissions) {
      LiveMeansListed(next, p, v);
    }
    AllSurvive(s, Snapshot(home, next), s.records, Next(s, Snapshot(home, next)).records);
  }

  /**
   What a step leaves of the attachments is what each single record's fate says, in the same order; staging and
   discarding do to them what they do in the store, and nothing else.
   */
  lemma StepEffect(s: State, step: Step)
    requires Inv(s) && Enabled(s, step)
    ensures if step.Staging? then Next(s, step) == s.(records := A.Perform(s.records, step.op))
            else Next(s, step).records == Survivors(s, step, s.records)
  {
    if step.Completes? {
      CompletionEffect(s, step.p);
    } else if step.Fails? {
      FailureEffect(s, step.p, step.uncertain);
    } else if step.Aborted? {
      AbortEffect(s, step.p);
    } else if step.Snapshot? {
      SnapshotEffect(s, step.home, step.next);
    } else if step.Job? {
      JobEffect(s, step.i);
    } else if step.AccountCleared? {
      NoneSurvives(s, step, s.records);
    } else if !step.Staging? {
      AllSurvive(s, step, s.records, Next(s, step).records);
    }
  }

  lemma {:induction false} SurvivorsAre(s: State, step: Step, rs: seq<A.Record>, x: A.Record)
    requires Enabled(s, step)
    ensures x in Survivors(s, step, rs) <==>
      exists r :: r in rs && FateOf(s, step, r).Kept? && x == r.(reservation := FateOf(s, step, r).reservation)
  {
    if rs != [] {
      var front, last := rs[..|rs| - 1], rs[|rs| - 1];
      assert rs == front + [last];
      SurvivorsAre(s, step, front, x);
    }
  }

  // ---------------------------------------------------------------- completion

  /**
   A completed prompt consumes its attachments: none of their ids is left in the store, and the records left
   are exactly those that were not reserved for the prompt, unchanged. A completion that comes late changes nothing.
   */
  lemma CompletionDeletesAll(states: seq<State>, steps: seq<Step>, i: nat, p: PromptId)
    requires IsRun(states, steps) && i < |steps| && steps[i] == Completes(p)
    ensures var c, after := states[i].calls[p], states[i + 1].records;
      if Unsettled(states[i], p) then
        && (forall id :: id in c.ids ==> id !in A.Ids(after))
        && (forall r :: r in after <==> r in states[i].records && !A.ReservedFor(r, c.key))
      else after == states[i].records
  {
    var s := states[i];
    RunKeepsInv(states, steps, i);
    assert states[i + 1] == Next(s, steps[i]);
    CompletionEffect(s, p);
    if Unsettled(s, p) {
      UnsettledMustHold(s, p);
      ReservedById(s.records, s.calls[p].key);
      forall r ensures r in states[i + 1].records <==> r in s.records && !A.ReservedFor(r, s.calls[p].key) {
        SurvivorsAre(s, steps[i], s.records, r);
      }
      assert forall id :: id in s.calls[p].ids ==> id in Elements(s.calls[p].ids);
    } else {
      AllSurvive(s, steps[i], s.records, s.records);
    }
  }

  // ---------------------------------------------------------------- carrying out the work list

  /** The effect of one entry of the work list on the records of a key. */
  ghost predicate Done(action: Action, before: seq<A.Record>, after: seq<A.Record>) {
    match action
    case MarkAccepted(key) => HasStatus(before, key, A.Accepted, after)
    case MarkUnknown(key) => HasStatus(before, key, A.Unknown, after)
    case ConsumeFor(key) => forall id :: id in A.ReservedIds(before, key) ==> id !in A.Ids(after)
  }

  /** The same attachments are reserved for the key, all of them with this status. */
  ghost predicate HasStatus(before: seq<A.Record>, key: A.Key, status: A.ReservationStatus, after: seq<A.Record>) {
    && A.ReservedIds(after, key) == A.ReservedIds(before, key)
    && forall r :: r in after && A.ReservedFor(r, key) ==> r.reservation.value.status == status
  }

  /** Records that are not reserved for the key are there before and after alike. */
  ghost predicate OthersStay(key: A.Key, before: seq<A.Record>, after: seq<A.Record>) {
    forall r :: !A.ReservedFor(r, key) ==> (r in after <==> r in before)
  }

  function RunOn(rs: seq<A.Record>, action: Action): seq<A.Record> {
    match action
    case MarkAccepted(key) => A.SetReservationStatus(rs, key, A.Accepted)
    case MarkUnknown(key) => A.SetReservationStatus(rs, key, A.Unknown)
    case ConsumeFor(key) => A.Consume(rs, key)
  }

  lemma MarkDoes(rs: seq<A.Record>, key: A.Key, status: A.ReservationStatus)
    ensures HasStatus(rs, key, status, A.SetReservationStatus(rs, key, status))
    ensures OthersStay(key, rs, A.SetReservationStatus(rs, key, status))
    ensures A.DistinctIds(rs) ==> A.DistinctIds(A.SetReservationStatus(rs, key, status))
    ensures A.Ids(A.SetReservationStatus(rs, key, status)) == A.Ids(rs)
  {
    var after := A.SetReservationStatus(rs, key, status);
    AP.MarkKeepsReservations(rs, key, status);
    AP.ReservationOpsKeepTheRest(rs, key, status, []);
    AP.SameIds(rs, after);
    forall r | !A.ReservedFor(r, key) ensures r in after <==> r in rs {
      if r in rs {
        var i :| 0 <= i < |rs| && rs[i] == r;
        assert after[i] == r;
      }
    }
  }

  lemma ActionDoes(rs: seq<A.Record>, action: Action)
    requires A.DistinctIds(rs)
    ensures Done(action, rs, RunOn(rs, action)) && OthersStay(action.key, rs, RunOn(rs, action))
    ensures A.DistinctIds(RunOn(rs, action)) && A.Ids(RunOn(rs, action)) <= A.Ids(rs)
  {
    match action
    case MarkAccepted(key) => MarkDoes(rs, key, A.Accepted);
    case MarkUnknown(key) => MarkDoes(rs, key, A.Unknown);
    case ConsumeFor(key) =>
      AP.ConsumeDeletesExactly(rs, key);
      AP.RemovalKeepsDistinct(rs, A.ReservedIds(rs, key));
  }

  /** Whenever a reconciliation loop goes on, what it does is the next entry of its list, to that prompt alone. */
  lemma JobDoesItsAction(states: seq<State>, steps: seq<Step>, n: nat, i: nat)
    requires IsRun(states, steps) && n < |steps| && steps[n] == Job(i)
    ensures var action := states[n].jobs[i][0];
      && Done(action, states[n].records, states[n + 1].records)
      && OthersStay(action.key, states[n].records, states[n + 1].records)
      && states[n + 1].jobs == states[n].jobs[i := states[n].jobs[i][1..]]
  {
    RunKeepsInv(states, steps, n);
    assert states[n + 1] == Next(states[n], steps[n]);
    ActionDoes(states[n].records, states[n].jobs[i][0]);
  }

  /** The records reserved for the key are the same ones. */
  ghost predicate SameFor(key: A.Key, before: seq<A.Record>, after: seq<A.Record>) {
    forall r :: A.ReservedFor(r, key) ==> (r in before <==> r in after)
  }

  /**
   Between i and m the loop that carries out list k is not given up, and what else happens leaves the attachments
   of the prompt alone.
   */
  ghost predicate Undisturbed(states: seq<State>, steps: seq<Step>, i: nat, m: nat, k: nat, key: A.Key)
    requires IsRun(states, steps) && i <= m <= |steps|
  {
    forall n :: i <= n < m ==> GoesOn(states, steps, n, k, key)
  }

  ghost predicate GoesOn(states: seq<State>, steps: seq<Step>, n: nat, k: nat, key: A.Key)
    requires IsRun(states, steps) && n < |steps|
  {
    steps[n] == Job(k) || (steps[n] != JobFails(k) && SameFor(key, states[n].records, states[n + 1].records))
  }

  /** Entry a of list k was carried out between i and m, on the attachments as they were at i, and nothing came after. */
  ghost predicate CarriedOut(states: seq<State>, steps: seq<Step>, i: nat, m: nat, k: nat, a: Action)
    requires IsRun(states, steps) && i <= m <= |steps|
  {
    exists q :: i <= q < m && RunsEntry(states, steps, q, k, a)
      && SameFor(a.key, states[i].records, states[q].records) && SameFor(a.key, states[q + 1].records, states[m].records)
  }

  ghost predicate RunsEntry(states: seq<State>, steps: seq<Step>, q: nat, k: nat, a: Action)
    requires IsRun(states, steps)
  {
    q < |steps| && steps[q] == Job(k) && k < |states[q].jobs| && states[q].jobs[k] != [] && states[q].jobs[k][0] == a
  }

  lemma ListSplits(plan: seq<Action>, g: nat)
    requires g < |plan|
    ensures plan[g..][0] == plan[g] && plan[g..][1..] == plan[g + 1..] && plan[..g + 1] == plan[..g] + [plan[g]]
    ensures EachOnce(plan) ==> Unnamed(plan[..g], plan[g].key)
  {
  }

  lemma JobsStay(s: State, step: Step, k: nat)
    requires Enabled(s, step) && k < |s.jobs| && step != Job(k) && step != JobFails(k)
    ensures k < |Next(s, step).jobs| && Next(s, step).jobs[k] == s.jobs[k]
  {
  }

  /** At n, the first g entries of list k are gone and have been carried out, as far as they are for this key. */
  ghost predicate ListAt(states: seq<State>, steps: seq<Step>, i: nat, n: nat, k: nat, key: A.Key, g: nat)
    requires IsRun(states, steps) && i <= n <= |steps| && k < |states[i].jobs|
  {
    && g <= |states[i].jobs[k]| && k < |states[n].jobs| && states[n].jobs[k] == states[i].jobs[k][g..]
    && CarriedSoFar(states, steps, i, n, k, key, states[i].jobs[k][..g])
  }

  ghost predicate CarriedSoFar(
      states: seq<State>, steps: seq<Step>, i: nat, n: nat, k: nat, key: A.Key, done: seq<Action>)
    requires IsRun(states, steps) && i <= n <= |steps|
  {
    && (Unnamed(done, key) ==> SameFor(key, states[i].records, states[n].records))
    && forall a :: a in done && a.key == key ==> CarriedOut(states, steps, i, n, k, a)
  }

  predicate Unnamed(plan: seq<Action>, key: A.Key) {
    forall a :: a in plan ==> a.key != key
  }

  lemma ListStarts(states: seq<State>, steps: seq<Step>, i: nat, k: nat, key: A.Key)
    requires IsRun(states, steps) && i <= |steps| && k < |states[i].jobs|
    ensures ListAt(states, steps, i, i, k, key, 0)
  {
  }

  lemma ListWaits(states: seq<State>, steps: seq<Step>, i: nat, j: nat, k: nat, key: A.Key, g: nat)
    requires IsRun(states, steps) && i <= j < |steps| && k < |states[i].jobs| && ListAt(states, steps, i, j, k, key, g)
    requires steps[j] != Job(k) && steps[j] != JobFails(k)
    requires SameFor(key, states[j].records, states[j + 1].records)
    ensures ListAt(states, steps, i, j + 1, k, key, g)
  {
    assert states[j + 1] == Next(states[j], steps[j]);
    JobsStay(states[j], steps[j], k);
    StaysCarried(states, steps, i, j, k, key, states[i].jobs[k][..g]);
  }

  lemma ListMoves(states: seq<State>, steps: seq<Step>, i: nat, j: nat, k: nat, key: A.Key, g: nat)
    requires IsRun(states, steps) && i <= j < |steps| && k < |states[i].jobs| && ListAt(states, steps, i, j, k, key, g)
    requires steps[j] == Job(k) && EachOnce(states[i].jobs[k])
    ensures ListAt(states, steps, i, j + 1, k, key, g + 1)
  {
    var plan := states[i].jobs[k];
    JobDoesItsAction(states, steps, j, k);
    ListSplits(plan, g);
    if plan[g].key == key {
      assert RunsEntry(states, steps, j, k, plan[g]);
    } else {
      assert SameFor(key, states[j].records, states[j + 1].records);
      StaysCarried(states, steps, i, j, k, key, plan[..g]);
    }
  }

  lemma ListNext(states: seq<State>, steps: seq<Step>, i: nat, j: nat, k: nat, key: A.Key, g: nat) returns (g': nat)
    requires IsRun(states, steps) && i <= j < |steps| && k < |states[i].jobs| && ListAt(states, steps, i, j, k, key, g)
    requires EachOnce(states[i].jobs[k]) && GoesOn(states, steps, j, k, key)
    ensures ListAt(states, steps, i, j + 1, k, key, g')
  {
    if steps[j] == Job(k) {
      ListMoves(states, steps, i, j, k, key, g);
      g' := g + 1;
    } else {
      ListWaits(states, steps, i, j, k, key, g);
      g' := g;
    }
  }

  lemma {:induction false} ListGoesOn(states: seq<State>, steps: seq<Step>, i: nat, n: nat, k: nat, key: A.Key)
      returns (g: nat)
    requires IsRun(states, steps) && i <= n <= |steps| && Undisturbed(states, steps, i, n, k, key)
    requires k < |states[i].jobs| && EachOnce(states[i].jobs[k])
    ensures ListAt(states, steps, i, n, k, key, g)
  {
    ListStarts(states, steps, i, k, key);
    g := 0;
    for j := i to n
      invariant ListAt(states, steps, i, j, k, key, g)
    {
      assert GoesOn(states, steps, j, k, key);
      g := ListNext(states, steps, i, j, k, key, g);
    }
  }

  lemma StaysCarried(states: seq<State>, steps: seq<Step>, i: nat, j: nat, k: nat, key: A.Key, done: seq<Action>)
    requires IsRun(states, steps) && i <= j < |steps| && SameFor(key, states[j].records, states[j + 1].records)
    requires CarriedSoFar(states, steps, i, j, k, key, done)
    ensures CarriedSoFar(states, steps, i, j + 1, k, key, done)
  {
    forall a | a in done && a.key == key ensures CarriedOut(states, steps, i, j + 1, k, a) {
      var q :| i <= q < j && RunsEntry(states, steps, q, k, a)
        && SameFor(a.key, states[i].records, states[q].records) && SameFor(a.key, states[q + 1].records, states[j].records);
      assert RunsEntry(states, steps, q, k, a);
    }
  }

  lemma SameForIds(key: A.Key, before: seq<A.Record>, after: seq<A.Record>)
    requires SameFor(key, before, after)
    ensures A.ReservedIds(before, key) == A.ReservedIds(after, key)
  {
    forall id ensures id in A.ReservedIds(before, key) <==> id in A.ReservedIds(after, key) {
      if id in A.ReservedIds(before, key) {
        var r :| r in before && A.ReservedFor(r, key) && r.attachmentId == id;
        assert r in after;
      }
      if id in A.ReservedIds(after, key) {
        var r :| r in after && A.ReservedFor(r, key) && r.attachmentId == id;
        assert r in before;
      }
    }
  }

  /** What an entry of the list has done by the time the list has been carried out. */
  lemma CarriedOutDoes(states: seq<State>, steps: seq<Step>, i: nat, m: nat, k: nat, a: Action)
    requires IsRun(states, steps) && i <= m <= |steps| && CarriedOut(states, steps, i, m, k, a)
    ensures a.MarkAccepted? ==> HasStatus(states[i].records, a.key, A.Accepted, states[m].records)
    ensures a.MarkUnknown? ==> HasStatus(states[i].records, a.key, A.Unknown, states[m].records)
    ensures a.ConsumeFor? ==> DeletedBetween(states, i, m, a.key)
  {
    var q :| i <= q < m && RunsEntry(states, steps, q, k, a)
      && SameFor(a.key, states[i].records, states[q].records) && SameFor(a.key, states[q + 1].records, states[m].records);
    JobDoesItsAction(states, steps, q, k);
    SameForIds(a.key, states[i].records, states[q].records);
    SameForIds(a.key, states[q + 1].records, states[m].records);
    if a.ConsumeFor? {
      assert DeletesAll(states, i, q, a.key);
      assert A.ReservedIds(states[q + 1].records, a.key) <= A.Ids(states[q + 1].records);
      RunKeepsInv(states, steps, q);
      AP.ConsumeDeletesExactly(states[q].records, a.key);
      assert states[q + 1] == Next(states[q], steps[q]);
    }
  }

  /** One step between i and m deleted everything that was reserved for the key, and nothing is reserved for it at m. */
  ghost predicate DeletedBetween(states: seq<State>, i: nat, m: nat, key: A.Key)
    requires i <= m < |states|
  {
    && A.ReservedIds(states[m].records, key) == {}
    && exists q :: i <= q < m && DeletesAll(states, i, q, key)
  }

  ghost predicate DeletesAll(states: seq<State>, i: nat, q: nat, key: A.Key)
    requires i < |states| && q + 1 < |states|
  {
    forall id :: id in A.ReservedIds(states[i].records, key) ==> Deleted(states, q, id, key)
  }

  lemma SnapshotLeavesReserved(s: State, home: Home, next: QueueSnapshot.Snapshot, key: A.Key)
    requires home in s.sessions && next.queueRevision > s.sessions[home].revision && HomeOf(key) == home
    ensures A.ReservedIds(SnapshotArrives(s, home, next).records, key) == A.ReservedIds(s.records, key)
    ensures key.promptId !in S.LiveIds(next) ==> SameFor(key, s.records, SnapshotArrives(s, home, next).records)
  {
    var before := s.sessions[home];
    var v := S.SightOf(before, next);
    MarkAllKeepsReservations(s.records, home, S.Accepted(before.submissions, v));
    LiveMeansListed(next, key.promptId, v);
    MarkedReservations(s.records, home, S.Accepted(before.submissions, v), key);
  }

  /** Step i applied a snapshot to the session of the key. */
  ghost predicate Applied(states: seq<State>, steps: seq<Step>, i: nat, key: A.Key)
    requires IsRun(states, steps)
  {
    && i < |steps| && steps[i].Snapshot? && steps[i].home == HomeOf(key)
    && steps[i].next.queueRevision > states[i].sessions[HomeOf(key)].revision
  }

  predicate LiveAt(states: seq<State>, steps: seq<Step>, i: nat, key: A.Key)
    requires i < |steps| && steps[i].Snapshot?
  {
    key.promptId in S.LiveIds(steps[i].next)
  }

  predicate RemovedAt(states: seq<State>, steps: seq<Step>, i: nat, key: A.Key)
    requires i < |steps| && i < |states| && steps[i].Snapshot? && HomeOf(key) in states[i].sessions
  {
    !LiveAt(states, steps, i, key) && key.promptId in S.RemovedBy(states[i].sessions[HomeOf(key)], steps[i].next)
  }

  /** What the new list has for a reserved prompt, told by the attachments before the snapshot. */
  lemma NewList(states: seq<State>, steps: seq<Step>, i: nat, key: A.Key)
    requires IsRun(states, steps) && Applied(states, steps, i, key) && Reserved(states[i].records, key)
    ensures |states[i].jobs| < |states[i + 1].jobs|
    ensures var plan, rs := states[i + 1].jobs[|states[i].jobs|], states[i].records;
      var live, removed := LiveAt(states, steps, i, key), RemovedAt(states, steps, i, key);
      && EachOnce(plan)
      && (live ==> MarkAccepted(key) in plan)
      && (removed ==> ConsumeFor(key) in plan)
      && (!live && !removed && AllSubmitting(rs, key) ==> MarkUnknown(key) in plan)
      && (!live && !removed && !SomeSubmitting(rs, key) ==> Unnamed(plan, key))
      && A.ReservedIds(states[i + 1].records, key) == A.ReservedIds(rs, key)
      && (!live ==> SameFor(key, rs, states[i + 1].records))
  {
    assert states[i + 1] == SnapshotArrives(states[i], HomeOf(key), steps[i].next);
    SnapshotDecidesEveryReservation(states[i], HomeOf(key), steps[i].next, key);
    SnapshotLeavesReserved(states[i], HomeOf(key), steps[i].next, key);
  }

  /** The list is empty at m: every entry for the prompt was carried out, or there was none. */
  lemma EmptiedList(states: seq<State>, steps: seq<Step>, i: nat, m: nat, k: nat, key: A.Key)
    requires IsRun(states, steps) && i <= m <= |steps| && Undisturbed(states, steps, i, m, k, key)
    requires k < |states[i].jobs| && EachOnce(states[i].jobs[k]) && k < |states[m].jobs| && states[m].jobs[k] == []
    ensures forall a :: a in states[i].jobs[k] && a.key == key ==> CarriedOut(states, steps, i, m, k, a)
    ensures Unnamed(states[i].jobs[k], key) ==> SameFor(key, states[i].records, states[m].records)
  {
    var g := ListGoesOn(states, steps, i, m, k, key);
    assert states[i].jobs[k][..g] == states[i].jobs[k];
  }

  /**
   Once the list of an applied snapshot has been carried out, the attachments of every prompt that was reserved
   meet the end the snapshot tells: accepted if the prompt is live, deleted if the snapshot removed it, unknown if
   the Host had not taken it, and left alone otherwise. Whatever else happens meanwhile, as long as it leaves those
   attachments alone.
   */
  lemma SnapshotIsCarriedOut(states: seq<State>, steps: seq<Step>, i: nat, m: nat, key: A.Key)
    requires IsRun(states, steps) && Applied(states, steps, i, key) && Reserved(states[i].records, key)
    requires i < m <= |steps| && Undisturbed(states, steps, i + 1, m, |states[i].jobs|, key)
    requires |states[i].jobs| < |states[m].jobs| && states[m].jobs[|states[i].jobs|] == []
    ensures var before, after := states[i].records, states[m].records;
      var live, removed := LiveAt(states, steps, i, key), RemovedAt(states, steps, i, key);
      && (live ==> HasStatus(before, key, A.Accepted, after))
      && (removed ==> DeletedBetween(states, i, m, key))
      && (!live && !removed && AllSubmitting(before, key) ==> HasStatus(before, key, A.Unknown, after))
      && (!live && !removed && !SomeSubmitting(before, key) ==> SameFor(key, before, after))
  {
    var k := |states[i].jobs|;
    NewList(states, steps, i, key);
    EmptiedList(states, steps, i + 1, m, k, key);
    if LiveAt(states, steps, i, key) {
      CarriedOutDoes(states, steps, i + 1, m, k, MarkAccepted(key));
    } else if RemovedAt(states, steps, i, key) {
      CarriedOutDoes(states, steps, i + 1, m, k, ConsumeFor(key));
      var q :| i + 1 <= q < m && DeletesAll(states, i + 1, q, key);
      assert DeletesAll(states, i, q, key);
    } else if AllSubmitting(states[i].records, key) {
      CarriedOutDoes(states, steps, i + 1, m, k, MarkUnknown(key));
    }
  }
}
