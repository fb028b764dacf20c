/**
 The queue, submission and cancellation state of one conversation session, and every step that
 changes it, as functions on values (desktop/src/conversation-controller.js).
 A JavaScript `Map` is kept as the sequence of its values in insertion order.
 */
module Session {
  import opened Common
  import QueueSnapshot

  type AttachmentId = nat

  /** The states a submission has while it is in the table; `failed` and `reconciled` ones are not. */
  datatype Status = Submitting | Queued | Running | Unknown | Completed

  datatype Submission = Submission(
    promptId: PromptId, status: Status, settled: bool, attachmentIds: seq<AttachmentId>)

  datatype QueueEntry = QueueEntry(
    privateId: PromptId, queueId: nat, version: nat, owner: Option<nat>, text: string, position: nat)

  /** `queuePublicIds`, `queuePrivateIds` and `queuePublicCounter`; the public id `queue-n` is n. */
  datatype Names = Names(publicIds: map<PromptId, nat>, privateIds: map<nat, PromptId>, counter: nat)

  datatype State = State(
    revision: int,
    entries: seq<QueueEntry>,
    running: Option<PromptId>,
    names: Names,
    submissions: seq<Submission>,
    cancelRequested: bool,
    cancelTarget: Option<PromptId>,
    /** whether `runningSessionIds` has this session */
    active: bool)

  const EMPTY := State(-1, [], None, Names(map[], map[], 0), [], false, None, false)

  // ---------------------------------------------------------------- the submission table

  function IdsOf(subs: seq<Submission>): set<PromptId> {
    set x | x in subs :: x.promptId
  }

  predicate DistinctSubmissions(subs: seq<Submission>) {
    forall i, j :: 0 <= i < j < |subs| ==> subs[i].promptId != subs[j].promptId
  }

  function Without(subs: seq<Submission>, p: PromptId): (r: seq<Submission>)
    ensures forall x :: x in r <==> x in subs && x.promptId != p
    ensures DistinctSubmissions(subs) ==> DistinctSubmissions(r)
  {
    if subs == [] then []
    else
      var last := subs[|subs| - 1];
      var rest := Without(subs[..|subs| - 1], p);
      assert subs == subs[..|subs| - 1] + [last];
      if last.promptId == p then rest else rest + [last]
  }

  function SetSettled(subs: seq<Submission>, p: PromptId): seq<Submission> {
    seq(|subs|, i requires 0 <= i < |subs| =>
      if subs[i].promptId == p then subs[i].(settled := true) else subs[i])
  }

  function SetStatus(subs: seq<Submission>, p: PromptId, status: Status): seq<Submission> {
    seq(|subs|, i requires 0 <= i < |subs| =>
      if subs[i].promptId == p then subs[i].(status := status) else subs[i])
  }

  // ---------------------------------------------------------------- public queue ids

  function EnsureName(names: Names, p: PromptId): Names {
    if p in names.publicIds then names
    else Names(names.publicIds[p := names.counter + 1], names.privateIds[names.counter + 1 := p], names.counter + 1)
  }

  function EnsureNames(names: Names, ps: seq<PromptId>): Names {
    if ps == [] then names else EnsureName(EnsureNames(names, ps[..|ps| - 1]), ps[|ps| - 1])
  }

  function DropNames(names: Names, dead: set<PromptId>): Names {
    Names(
      names.publicIds - dead,
      names.privateIds - (set p | p in dead && p in names.publicIds :: names.publicIds[p]),
      names.counter)
  }

  // ---------------------------------------------------------------- applying a snapshot

  function EntryIds(entries: seq<QueueSnapshot.Entry>): seq<PromptId> {
    seq(|entries|, i requires 0 <= i < |entries| => entries[i].id)
  }

  /** Listed prompts in order, then the running one: the iteration order of `livePrivateIds`. */
  function LiveIds(next: QueueSnapshot.Snapshot): seq<PromptId> {
    EntryIds(next.entries) + (if next.running.Some? then [next.running.value] else [])
  }

  function Listed(entries: seq<QueueEntry>): set<PromptId> {
    set e | e in entries :: e.privateId
  }

  function LiveBefore(s: State): set<PromptId> {
    Listed(s.entries) + (if s.running.Some? then {s.running.value} else {})
  }

  /** What the submission loop looks at: the new queue, the new running prompt, and what was live before. */
  datatype Sight = Sight(listed: set<PromptId>, running: Option<PromptId>, before: set<PromptId>)

  function SightOf(s: State, next: QueueSnapshot.Snapshot): Sight {
    Sight(Elements(EntryIds(next.entries)), next.running, LiveBefore(s))
  }

  predicate LiveIn(p: PromptId, v: Sight) {
    p in v.listed || v.running == Some(p)
  }

  /** The fate of one submission: an update, or None when it is reconciled away. */
  function Settle(x: Submission, v: Sight): Option<Submission> {
    if LiveIn(x.promptId, v) then
      Some(x.(status := if v.running == Some(x.promptId) then Running else Queued))
    else if x.status.Unknown? || x.promptId in v.before then None
    else Some(x)
  }

  function SettleAll(subs: seq<Submission>, v: Sight): seq<Submission> {
    if subs == [] then []
    else
      var rest := SettleAll(subs[..|subs| - 1], v);
      match Settle(subs[|subs| - 1], v)
      case None => rest
      case Some(x) => rest + [x]
  }

  /** The prompt ids the loop removes: `reconciledPromptIds`. */
  function Reconciled(subs: seq<Submission>, v: Sight): set<PromptId> {
    set x | x in subs && Settle(x, v).None? :: x.promptId
  }

  /** The prompt ids the loop finds live: `acceptedPromptIds`. */
  function Accepted(subs: seq<Submission>, v: Sight): set<PromptId> {
    set x | x in subs && LiveIn(x.promptId, v) :: x.promptId
  }

  function PublicEntries(entries: seq<QueueSnapshot.Entry>, publicIds: map<PromptId, nat>): seq<QueueEntry>
    requires forall e :: e in entries ==> e.id in publicIds
  {
    seq(|entries|, i requires 0 <= i < |entries| =>
      var e := entries[i];
      QueueEntry(e.id, publicIds[e.id], e.version, e.owner, e.text, e.position))
  }

  /** The names after the two id loops of a snapshot. */
  function NamesAfter(s: State, next: QueueSnapshot.Snapshot): Names {
    var names := EnsureNames(s.names, LiveIds(next));
    DropNames(names, names.publicIds.Keys - Elements(LiveIds(next)) - IdsOf(s.submissions))
  }

  /** A pending cancellation ends when nothing runs, or when something other than its target runs. */
  predicate SnapshotEndsCancel(s: State, next: QueueSnapshot.Snapshot) {
    s.cancelRequested && (next.running.None? || (s.cancelTarget.Some? && next.running != s.cancelTarget))
  }

  function ApplySnapshot(s: State, next: QueueSnapshot.Snapshot): State {
    if next.queueRevision <= s.revision then s
    else
      NamesCoverLive(s, next);
      State(
        next.queueRevision,
        PublicEntries(next.entries, NamesAfter(s, next).publicIds),
        next.running,
        NamesAfter(s, next),
        SettleAll(s.submissions, SightOf(s, next)),
        s.cancelRequested && !SnapshotEndsCancel(s, next),
        if SnapshotEndsCancel(s, next) then None else s.cancelTarget,
        next.running.Some?)
  }

  lemma EnsureNamesCovers(names: Names, ps: seq<PromptId>)
    ensures EnsureNames(names, ps).publicIds.Keys == names.publicIds.Keys + Elements(ps)
  {
    if ps != [] {
      EnsureNamesCovers(names, ps[..|ps| - 1]);
      assert ps == ps[..|ps| - 1] + [ps[|ps| - 1]];
    }
  }

  lemma NamesCoverLive(s: State, next: QueueSnapshot.Snapshot)
    ensures Elements(LiveIds(next)) <= NamesAfter(s, next).publicIds.Keys
    ensures forall e :: e in next.entries ==> e.id in NamesAfter(s, next).publicIds
  {
    EnsureNamesCovers(s.names, LiveIds(next));
    forall e | e in next.entries ensures e.id in Elements(LiveIds(next)) {
      var i :| 0 <= i < |next.entries| && next.entries[i] == e;
      assert LiveIds(next)[i] == e.id;
    }
  }

  /** Prompts whose attachments are no longer needed: live before and gone now, or reconciled away. */
  function RemovedBy(s: State, next: QueueSnapshot.Snapshot): set<PromptId> {
    LiveBefore(s) - Elements(LiveIds(next)) + Reconciled(s.submissions, SightOf(s, next))
  }

  // ---------------------------------------------------------------- the other steps

  /** The end of `#submit`: the prompt is handed to the Host. */
  function AddSubmission(s: State, p: PromptId, ids: seq<AttachmentId>): State {
    s.(submissions := s.submissions + [Submission(p, Submitting, false, ids)], active := true)
  }

  /** `#completeSubmission` up to its first await. */
  function BeginComplete(s: State, p: PromptId): State {
    s.(submissions := SetStatus(SetSettled(s.submissions, p), p, Completed))
  }

  /** A cancellation without a target, or with target p, ends together with p. */
  function EndCancelOf(s: State, p: PromptId): State {
    if s.cancelRequested && (s.cancelTarget.None? || s.cancelTarget == Some(p))
    then s.(cancelRequested := false, cancelTarget := None)
    else s
  }

  /** `#completeSubmission` after the attachments are consumed. */
  function FinishComplete(s: State, p: PromptId): State {
    var t := EndCancelOf(s.(submissions := Without(s.submissions, p)), p);
    if t.revision < 0 then t.(running := None, active := false) else t
  }

  /** `#failSubmission` up to its first await. */
  function BeginFail(s: State, p: PromptId): State {
    s.(submissions := SetSettled(s.submissions, p))
  }

  /** `#failSubmission` after its attachment operation. */
  function FinishFail(s: State, p: PromptId, uncertain: bool): State {
    var subs := if uncertain then SetStatus(s.submissions, p, Unknown) else Without(s.submissions, p);
    var t := EndCancelOf(s.(submissions := subs), p);
    if t.revision < 0 then t.(active := false) else t
  }

  function Disconnect(s: State): State {
    s.(cancelRequested := false, cancelTarget := None,
       submissions := seq(|s.submissions|, i requires 0 <= i < |s.submissions| =>
         var x := s.submissions[i];
         if x.status.Submitting? then x.(status := Unknown) else x))
  }

  function Reconnect(s: State): State {
    Disconnect(s.(revision := -1))
  }

  /** The first submission, in insertion order, whose status is one of the given ones. */
  function FirstWith(subs: seq<Submission>, statuses: set<Status>): Option<PromptId> {
    if subs == [] then None
    else if subs[0].status in statuses then Some(subs[0].promptId)
    else FirstWith(subs[1..], statuses)
  }

  function CancelTargetOf(s: State): Option<PromptId> {
    if s.running.Some? then s.running
    else if FirstWith(s.submissions, {Running}).Some? then FirstWith(s.submissions, {Running})
    else FirstWith(s.submissions, {Submitting, Unknown})
  }

  /** `cancelCurrentTask` up to its await; without anything to stop it throws and changes nothing. */
  function RequestCancel(s: State): State {
    if s.cancelRequested || (s.running.None? && !s.active) then s
    else s.(cancelRequested := true, cancelTarget := CancelTargetOf(s))
  }

  /** The Host refused the cancellation while this session was still loaded. */
  function CancelRefused(s: State): State {
    s.(cancelRequested := false, cancelTarget := None)
  }

  /** `#submit` refuses new prompts while the outcome of an earlier one is unknown. */
  predicate GateOpen(s: State) {
    forall x :: x in s.submissions ==> !x.status.Unknown?
  }

  // ---------------------------------------------------------------- steps and runs

  datatype Step =
    | Add(p: PromptId, ids: seq<AttachmentId>)
    | CompleteBegins(p: PromptId)
    | CompleteEnds(p: PromptId)
    | FailBegins(p: PromptId)
    | FailEnds(p: PromptId, uncertain: bool)
    | Snapshot(next: QueueSnapshot.Snapshot)
    | HostExit
    | HostReconnect
    | Cancel
    | CancelFails

  /** Snapshots have passed `projectQueueChanged`; a new prompt id is not in the table. */
  predicate Enabled(s: State, step: Step) {
    match step
    case Add(p, _) => p !in IdsOf(s.submissions)
    case Snapshot(next) => QueueSnapshot.WellFormed(next)
    case _ => true
  }

  function Apply(s: State, step: Step): State {
    match step
    case Add(p, ids) => AddSubmission(s, p, ids)
    case CompleteBegins(p) => BeginComplete(s, p)
    case CompleteEnds(p) => FinishComplete(s, p)
    case FailBegins(p) => BeginFail(s, p)
    case FailEnds(p, uncertain) => FinishFail(s, p, uncertain)
    case Snapshot(next) => ApplySnapshot(s, next)
    case HostExit => Disconnect(s)
    case HostReconnect => Reconnect(s)
    case Cancel => RequestCancel(s)
    case CancelFails => CancelRefused(s)
  }

  predicate IsRun(states: seq<State>, steps: seq<Step>) {
    && |states| == |steps| + 1
    && states[0] == EMPTY
    && (forall i :: 0 <= i < |steps| ==> Enabled(states[i], steps[i]) && states[i + 1] == Apply(states[i], steps[i]))
  }

  /** The snapshot of step i was newer than what the session had. */
  predicate AppliesSnapshot(s: State, step: Step) {
    step.Snapshot? && step.next.queueRevision > s.revision
  }
}
