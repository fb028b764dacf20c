/**
 The prompt protocol: sessions, Host calls and the attachment store together. Every stretch of code
 between two awaits is one step, and steps of different prompts, sessions, snapshots and
 reconciliation loops interleave freely.
 */
module Protocol {
  import opened Common
  import S = Session
  import A = AttachmentStore
  import QueueSnapshot

  /** The authority of a session record: an Agent scope and the private session id. */
  datatype Home = Home(scope: A.Scope, sessionId: nat)

  function KeyOf(home: Home, p: PromptId): A.Key {
    A.Key(home.scope, home.sessionId, p)
  }

  function HomeOf(key: A.Key): Home {
    Home(key.scope, key.sessionId)
  }

  /** How far `#submit` and the handlers of its Host call have come. */
  datatype Phase = Preparing | InFlight | Completing | Failing(uncertain: bool) | Done

  datatype Call = Call(key: A.Key, ids: seq<A.AttachmentId>, phase: Phase)

  /** One awaited store operation of `#reconcileRestoredReservations`. */
  datatype Action = MarkAccepted(key: A.Key) | MarkUnknown(key: A.Key) | ConsumeFor(key: A.Key)

  datatype State = State(
    sessions: map<Home, S.State>,
    calls: map<PromptId, Call>,
    records: seq<A.Record>,
    jobs: seq<seq<Action>>,
    /** every prompt id drawn here, restored from disk, or listed by the Host */
    used: set<PromptId>,
    /** history: the prompts an applied snapshot showed absent after they were live or unknown */
    absent: set<A.Key>)

  function PromptsOf(rs: seq<A.Record>): set<PromptId> {
    set r | r in rs && r.reservation.Some? :: r.reservation.value.promptId
  }

  /** A fresh process: no session is open, and the store holds whatever the manifest restored. */
  predicate Initial(s: State) {
    && s.sessions == map[] && s.calls == map[] && s.jobs == []
    && A.DistinctIds(s.records) && PromptsOf(s.records) <= s.used
    && s.absent == {}
  }

  function Put(s: State, home: Home, t: S.State): State {
    s.(sessions := s.sessions[home := t])
  }

  function SetPhase(s: State, p: PromptId, phase: Phase): State
    requires p in s.calls
  {
    s.(calls := s.calls[p := s.calls[p].(phase := phase)])
  }

  /** The submission of p is in its session's table and no outcome has been taken for it yet. */
  predicate Unsettled(s: State, p: PromptId) {
    && p in s.calls
    && HomeOf(s.calls[p].key) in s.sessions
    && exists x :: x in s.sessions[HomeOf(s.calls[p].key)].submissions && x.promptId == p && !x.settled
  }

  // ---------------------------------------------------------------- submitting

  function BeginSubmit(s: State, home: Home, p: PromptId, ids: seq<A.AttachmentId>): State {
    s.(records := A.Reserve(s.records, KeyOf(home, p), ids),
       calls := s.calls[p := Call(KeyOf(home, p), ids, Preparing)],
       used := s.used + {p})
  }

  function SubmitReady(s: State, p: PromptId): State
    requires p in s.calls && HomeOf(s.calls[p].key) in s.sessions
  {
    var home := HomeOf(s.calls[p].key);
    Put(SetPhase(s, p, InFlight), home, S.AddSubmission(s.sessions[home], p, s.calls[p].ids))
  }

  /** `reservePrompt` could not build the prompt: its reservations are taken back. */
  function SubmitAborted(s: State, p: PromptId): State
    requires p in s.calls
  {
    SetPhase(s, p, Done).(records := A.Unreserve(s.records, s.calls[p].ids))
  }

  // ---------------------------------------------------------------- outcomes of the Host call

  function DeleteFor(s: State, key: A.Key): State {
    s.(records := A.Consume(s.records, key))
  }

  function ReturnFor(s: State, key: A.Key): State {
    s.(records := A.Release(s.records, key))
  }

  function HostCompletes(s: State, p: PromptId): State
    requires p in s.calls
  {
    var key := s.calls[p].key;
    if !Unsettled(s, p) then SetPhase(s, p, Done)
    else
      DeleteFor(Put(SetPhase(s, p, Completing), HomeOf(key), S.BeginComplete(s.sessions[HomeOf(key)], p)), key)
  }

  function CompletionEnds(s: State, p: PromptId): State
    requires p in s.calls && HomeOf(s.calls[p].key) in s.sessions
  {
    var home := HomeOf(s.calls[p].key);
    Put(SetPhase(s, p, Done), home, S.FinishComplete(s.sessions[home], p))
  }

  function HostFails(s: State, p: PromptId, uncertain: bool): State
    requires p in s.calls
  {
    var key := s.calls[p].key;
    if !Unsettled(s, p) then SetPhase(s, p, Done)
    else
      var t := Put(SetPhase(s, p, Failing(uncertain)), HomeOf(key), S.BeginFail(s.sessions[HomeOf(key)], p));
      if uncertain then t.(records := A.SetReservationStatus(t.records, key, A.Unknown)) else ReturnFor(t, key)
  }

  function FailureEnds(s: State, p: PromptId): State
    requires p in s.calls && s.calls[p].phase.Failing? && HomeOf(s.calls[p].key) in s.sessions
  {
    var home := HomeOf(s.calls[p].key);
    Put(SetPhase(s, p, Done), home, S.FinishFail(s.sessions[home], p, s.calls[p].phase.uncertain))
  }

  // ---------------------------------------------------------------- queue snapshots

  predicate ReservedAt(r: A.Record, home: Home) {
    r.scope == home.scope && r.reservation.Some? && r.reservation.value.sessionId == home.sessionId
  }

  function MarkAllAccepted(rs: seq<A.Record>, home: Home, accepted: set<PromptId>): seq<A.Record> {
    seq(|rs|, i requires 0 <= i < |rs| =>
      if ReservedAt(rs[i], home) && rs[i].reservation.value.promptId in accepted
      then rs[i].(reservation := Some(rs[i].reservation.value.(status := A.Accepted)))
      else rs[i])
  }

  /** What the reconciliation loop decided for one reservation when it was listed. */
  function ActionFor(r: A.Reservation, key: A.Key, live: set<PromptId>, removed: set<PromptId>): seq<Action> {
    if r.promptId in live then [MarkAccepted(key)]
    else if r.promptId in removed then [ConsumeFor(key)]
    else if r.status.Submitting? then [MarkUnknown(key)]
    else []
  }

  /** The loop's work list: one entry for each reserved prompt of the session, in record order. */
  function Plan(rs: seq<A.Record>, home: Home, live: set<PromptId>, removed: set<PromptId>, seen: set<PromptId>): seq<Action> {
    if rs == [] then []
    else if ReservedAt(rs[0], home) && rs[0].reservation.value.promptId !in seen then
      var r := rs[0].reservation.value;
      ActionFor(r, KeyOf(home, r.promptId), live, removed) + Plan(rs[1..], home, live, removed, seen + {r.promptId})
    else Plan(rs[1..], home, live, removed, seen)
  }

  function SnapshotArrives(s: State, home: Home, next: QueueSnapshot.Snapshot): State
    requires home in s.sessions
  {
    var before := s.sessions[home];
    var t := Put(s, home, S.ApplySnapshot(before, next)).(used := s.used + Elements(S.LiveIds(next)));
    if next.queueRevision <= before.revision then t
    else
      var removed := S.RemovedBy(before, next);
      var records := MarkAllAccepted(s.records, home, S.Accepted(before.submissions, S.SightOf(before, next)));
      t.(records := records,
         jobs := s.jobs + [Plan(records, home, Elements(S.LiveIds(next)), removed, {})],
         absent := s.absent + (set p | p in removed :: KeyOf(home, p)))
  }

  function RunAction(s: State, action: Action): State {
    match action
    case MarkAccepted(key) => s.(records := A.SetReservationStatus(s.records, key, A.Accepted))
    case MarkUnknown(key) => s.(records := A.SetReservationStatus(s.records, key, A.Unknown))
    case ConsumeFor(key) => DeleteFor(s, key)
  }

  function RunJob(s: State, i: nat): State
    requires i < |s.jobs| && s.jobs[i] != []
  {
    RunAction(s.(jobs := s.jobs[i := s.jobs[i][1..]]), s.jobs[i][0])
  }

  // ---------------------------------------------------------------- steps and runs

  datatype Step =
    | Open(home: Home)
    | Submit(home: Home, p: PromptId, ids: seq<A.AttachmentId>)
    | Ready(p: PromptId)
    | Aborted(p: PromptId)
    | Completes(p: PromptId)
    | CompleteEnds(p: PromptId)
    | Fails(p: PromptId, uncertain: bool)
    | FailEnds(p: PromptId)
    | Snapshot(home: Home, next: QueueSnapshot.Snapshot)
    | Job(i: nat)
    | JobFails(i: nat)
    | HostExit
    | HostReconnect
    | Cancel(home: Home)
    | CancelFails(home: Home)
    | Staging(op: A.Op)
    | AccountCleared

  predicate InPhase(s: State, p: PromptId, phase: Phase) {
    p in s.calls && s.calls[p].phase == phase
  }

  /**
   When a step can happen. `#submit` requires an open gate and draws a new prompt id; the Host cannot
   name a prompt it has not been given; the account is not cleared while a prompt is being prepared.
   */
  predicate Enabled(s: State, step: Step) {
    match step
    case Open(home) => home !in s.sessions
    case Submit(home, p, ids) =>
      home in s.sessions && S.GateOpen(s.sessions[home]) && p !in s.used && A.CanReserve(s.records, home.scope, ids)
    case Ready(p) => InPhase(s, p, Preparing) && HomeOf(s.calls[p].key) in s.sessions
    case Aborted(p) => InPhase(s, p, Preparing)
    case Completes(p) => InPhase(s, p, InFlight)
    case CompleteEnds(p) => InPhase(s, p, Completing) && HomeOf(s.calls[p].key) in s.sessions
    case Fails(p, _) => InPhase(s, p, InFlight)
    case FailEnds(p) => p in s.calls && s.calls[p].phase.Failing? && HomeOf(s.calls[p].key) in s.sessions
    case Snapshot(home, next) =>
      && home in s.sessions && QueueSnapshot.WellFormed(next)
      && (forall p :: p in Elements(S.LiveIds(next)) ==> !InPhase(s, p, Preparing))
    case Job(i) => i < |s.jobs| && s.jobs[i] != []
    case JobFails(i) => i < |s.jobs|
    case Cancel(home) => home in s.sessions
    case CancelFails(home) => home in s.sessions
    case Staging(op) => (op.OpStage? || op.OpLink? || op.OpDiscard?) && A.OpEnabled(s.records, op)
    case AccountCleared => forall p :: p in s.calls ==> !s.calls[p].phase.Preparing?
    case _ => true
  }

  function Next(s: State, step: Step): State
    requires Enabled(s, step)
  {
    match step
    case Open(home) => Put(s, home, S.EMPTY)
    case Submit(home, p, ids) => BeginSubmit(s, home, p, ids)
    case Ready(p) => SubmitReady(s, p)
    case Aborted(p) => SubmitAborted(s, p)
    case Completes(p) => HostCompletes(s, p)
    case CompleteEnds(p) => CompletionEnds(s, p)
    case Fails(p, uncertain) => HostFails(s, p, uncertain)
    case FailEnds(p) => FailureEnds(s, p)
    case Snapshot(home, next) => SnapshotArrives(s, home, next)
    case Job(i) => RunJob(s, i)
    case JobFails(i) => s.(jobs := s.jobs[i := []])
    case HostExit => s.(sessions := map h | h in s.sessions :: S.Disconnect(s.sessions[h]))
    case HostReconnect => s.(sessions := map h | h in s.sessions :: S.Reconnect(s.sessions[h]))
    case Cancel(home) => Put(s, home, S.RequestCancel(s.sessions[home]))
    case CancelFails(home) => Put(s, home, S.CancelRefused(s.sessions[home]))
    case Staging(op) => s.(records := A.Perform(s.records, op))
    case AccountCleared =>
      s.(sessions := map[], records := [], calls := map p | p in s.calls :: s.calls[p].(phase := Done))
  }

  predicate IsRun(states: seq<State>, steps: seq<Step>) {
    && |states| == |steps| + 1
    && Initial(states[0])
    && (forall i :: 0 <= i < |steps| ==> Enabled(states[i], steps[i]) && states[i + 1] == Next(states[i], steps[i]))
  }
}
