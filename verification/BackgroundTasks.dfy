/**
 The bounded list of background tasks of a session and its index by private id
 (desktop/src/conversation-controller.js). List and index share the same task objects.
 */
module BackgroundTasks {
  import opened Common

  const MAX_PUBLIC_BACKGROUND_TASKS := 50

  datatype Kind = Command | Monitor
  datatype Status = Running | Completed | Failed | Stopped

  /** A task as a value; the public id `background-n` is n. */
  datatype Task = Task(privateId: string, publicId: nat, kind: Kind, status: Status, restoredFromReplay: bool)

  datatype State = State(tasks: seq<Task>, counter: nat)

  predicate Terminal(t: Task) {
    !t.status.Running?
  }

  // ---------------------------------------------------------------- the steps, as functions

  function IndexOf(ts: seq<Task>, id: string): (i: nat)
    ensures i <= |ts|
    ensures i < |ts| ==> ts[i].privateId == id
    ensures forall k :: 0 <= k < i ==> ts[k].privateId != id
  {
    if ts == [] then 0 else if ts[0].privateId == id then 0 else 1 + IndexOf(ts[1..], id)
  }

  function FirstTerminal(ts: seq<Task>): (i: nat)
    ensures i <= |ts|
    ensures i < |ts| ==> Terminal(ts[i])
    ensures forall k :: 0 <= k < i ==> !Terminal(ts[k])
  {
    if ts == [] then 0 else if Terminal(ts[0]) then 0 else 1 + FirstTerminal(ts[1..])
  }

  /** The index evicted from a list that is too long: the first terminal task, or the oldest. */
  function Victim(ts: seq<Task>): (i: nat)
    requires ts != []
    ensures i < |ts|
  {
    if FirstTerminal(ts) < |ts| then FirstTerminal(ts) else 0
  }

  function Evict(ts: seq<Task>): seq<Task>
    decreases |ts|
  {
    if |ts| > MAX_PUBLIC_BACKGROUND_TASKS then Evict(ts[..Victim(ts)] + ts[Victim(ts) + 1..]) else ts
  }

  function Append(s: State, id: string, kind: Kind, status: Status, restored: bool): State {
    State(Evict(s.tasks + [Task(id, s.counter + 1, kind, status, restored)]), s.counter + 1)
  }

  /** `#recordBackgroundTask`: a new running task, or a running one learns that it is a monitor. */
  function Record(s: State, id: string, kind: Kind, restored: bool): State {
    var i := IndexOf(s.tasks, id);
    if i == |s.tasks| then Append(s, id, kind, Running, restored)
    else if Terminal(s.tasks[i]) || kind.Command? then s
    else s.(tasks := s.tasks[i := s.tasks[i].(kind := Monitor)])
  }

  /** `#recordBackgroundTaskCompletion` for a snapshot whose outcome could be told. */
  function Complete(s: State, id: string, isMonitor: bool, status: Status): State
    requires !status.Running?
  {
    var i := IndexOf(s.tasks, id);
    if i == |s.tasks| || Terminal(s.tasks[i]) then s
    else s.(tasks := s.tasks[i := s.tasks[i].(kind := if isMonitor then Monitor else s.tasks[i].kind, status := status)])
  }

  /** One activity of the Host's own list. */
  datatype Activity = Activity(id: string, kind: Kind, status: Status)

  predicate DistinctActivities(acts: seq<Activity>) {
    forall i, j :: 0 <= i < j < |acts| ==> acts[i].id != acts[j].id
  }

  function ActivityOf(acts: seq<Activity>, id: string): Option<Activity> {
    if acts == [] then None else if acts[0].id == id then Some(acts[0]) else ActivityOf(acts[1..], id)
  }

  /** What the reconciliation makes of one task that is already listed. */
  function Reconciled(t: Task, acts: seq<Activity>): Task {
    match ActivityOf(acts, t.privateId)
    case None => if t.restoredFromReplay && t.status.Running? then t.(status := Stopped) else t
    case Some(a) => if Terminal(t) then t else t.(kind := a.kind, status := a.status, restoredFromReplay := false)
  }

  function AppendAll(s: State, acts: seq<Activity>, known: set<string>): State
    decreases |acts|
  {
    if acts == [] then s
    else if acts[0].id in known then AppendAll(s, acts[1..], known)
    else AppendAll(Append(s, acts[0].id, acts[0].kind, acts[0].status, false), acts[1..], known)
  }

  function Ids(ts: seq<Task>): set<string> {
    set t | t in ts :: t.privateId
  }

  function ReconciledList(ts: seq<Task>, acts: seq<Activity>): seq<Task> {
    seq(|ts|, i requires 0 <= i < |ts| => Reconciled(ts[i], acts))
  }

  /** `#reconcileBackgroundTasks` for a list that passed its checks. */
  function Reconcile(s: State, acts: seq<Activity>): State {
    AppendAll(s.(tasks := ReconciledList(s.tasks, acts)), acts, Ids(s.tasks))
  }

  /** `#clearBackgroundTasks` keeps the counter. */
  function Clear(s: State): State {
    s.(tasks := [])
  }

  datatype Step =
    | Recorded(id: string, kind: Kind, restored: bool)
    | Finished(id: string, isMonitor: bool, status: Status)
    | Listed(acts: seq<Activity>)
    | Cleared

  predicate Enabled(step: Step) {
    match step
    case Finished(_, _, status) => !status.Running?
    case Listed(acts) => |acts| <= MAX_PUBLIC_BACKGROUND_TASKS && DistinctActivities(acts)
    case _ => true
  }

  function Next(s: State, step: Step): State
    requires Enabled(step)
  {
    match step
    case Recorded(id, kind, restored) => Record(s, id, kind, restored)
    case Finished(id, isMonitor, status) => Complete(s, id, isMonitor, status)
    case Listed(acts) => Reconcile(s, acts)
    case Cleared => Clear(s)
  }

  ghost predicate IsRun(states: seq<State>, steps: seq<Step>) {
    && |states| == |steps| + 1 && states[0] == State([], 0)
    && (forall i :: 0 <= i < |steps| ==> Enabled(steps[i]) && states[i + 1] == Next(states[i], steps[i]))
  }

  // ---------------------------------------------------------------- what every step keeps

  ghost predicate Valid(s: State) {
    && |s.tasks| <= MAX_PUBLIC_BACKGROUND_TASKS
    && Shape(s.tasks, s.counter)
  }

  /** Private ids are distinct, and public ids strictly increase along the list up to the counter. */
  ghost predicate Shape(ts: seq<Task>, counter: nat) {
    && (forall i, j :: 0 <= i < j < |ts| ==> ts[i].privateId != ts[j].privateId)
    && (forall i, j :: 0 <= i < j < |ts| ==> ts[i].publicId < ts[j].publicId)
    && (forall i :: 0 <= i < |ts| ==> ts[i].publicId <= counter)
  }

  /** u is what became of t: the same task, and unchanged if t was terminal. */
  predicate Continues(t: Task, u: Task) {
    t.privateId == u.privateId && t.publicId == u.publicId && (Terminal(t) ==> u == t)
  }

  /** Every listed task that is not newer than the earlier list continues one of its tasks. */
  ghost predicate Evolves(a: State, b: State) {
    && a.counter <= b.counter
    && (forall u :: u in b.tasks && u.publicId <= a.counter ==> exists t :: t in a.tasks && Continues(t, u))
  }

  lemma RemoveKeepsShape(ts: seq<Task>, counter: nat, i: nat)
    requires Shape(ts, counter) && i < |ts|
    ensures Shape(ts[..i] + ts[i + 1..], counter)
    ensures forall t :: t in ts[..i] + ts[i + 1..] ==> t in ts
  {
    var r := ts[..i] + ts[i + 1..];
    assert forall k :: 0 <= k < |r| ==> r[k] == ts[if k < i then k else k + 1];
  }

  lemma {:induction false} EvictKeeps(ts: seq<Task>, counter: nat)
    requires Shape(ts, counter)
    ensures Shape(Evict(ts), counter) && |Evict(ts)| <= MAX_PUBLIC_BACKGROUND_TASKS
    ensures forall t :: t in Evict(ts) ==> t in ts
    decreases |ts|
  {
    if |ts| > MAX_PUBLIC_BACKGROUND_TASKS {
      RemoveKeepsShape(ts, counter, Victim(ts));
      EvictKeeps(ts[..Victim(ts)] + ts[Victim(ts) + 1..], counter);
    }
  }

  /** The task that leaves is running only if all are. */
  lemma RunningVictim(ts: seq<Task>, t: Task)
    requires t in ts && t.status.Running? && t !in ts[..Victim(ts)] + ts[Victim(ts) + 1..]
    ensures forall u :: u in ts[..Victim(ts)] + ts[Victim(ts) + 1..] ==> u.status.Running?
  {
    var i := Victim(ts);
    var rest := ts[..i] + ts[i + 1..];
    assert ts == ts[..i] + [ts[i]] + ts[i + 1..];
    assert t == ts[i];
    assert FirstTerminal(ts) == |ts|;
    assert forall m :: 0 <= m < |rest| ==> rest[m] == ts[if m < i then m else m + 1];
  }

  /** A running task is evicted only from a list without any terminal task. */
  lemma {:induction false} RunningEvictedLast(ts: seq<Task>, t: Task)
    requires t in ts && t !in Evict(ts) && t.status.Running?
    ensures forall u :: u in Evict(ts) ==> u.status.Running?
    decreases |ts|
  {
    var rest := ts[..Victim(ts)] + ts[Victim(ts) + 1..];
    if t in rest {
      RunningEvictedLast(rest, t);
    } else {
      RunningVictim(ts, t);
      EvictIsSubset(rest);
    }
  }

  lemma {:induction false} EvictIsSubset(ts: seq<Task>)
    ensures forall t :: t in Evict(ts) ==> t in ts
    decreases |ts|
  {
    if |ts| > MAX_PUBLIC_BACKGROUND_TASKS {
      EvictIsSubset(ts[..Victim(ts)] + ts[Victim(ts) + 1..]);
    }
  }

  lemma AppendKeepsShape(ts: seq<Task>, counter: nat, t: Task)
    requires Shape(ts, counter) && t.publicId == counter + 1 && t.privateId !in Ids(ts)
    ensures Shape(ts + [t], counter + 1)
  {
    assert forall i :: 0 <= i < |ts| ==> ts[i].privateId in Ids(ts);
  }

  lemma ListedBeforeEvolves(s: State, ts: seq<Task>, added: Task)
    requires added.publicId == s.counter + 1 && forall u :: u in ts ==> u == added || u in s.tasks
    ensures Evolves(s, State(ts, s.counter + 1)) && Ids(ts) <= Ids(s.tasks) + {added.privateId}
  {
    forall u | u in ts && u.publicId <= s.counter ensures exists t :: t in s.tasks && Continues(t, u) {
      assert Continues(u, u);
    }
  }

  lemma AppendKeeps(s: State, id: string, kind: Kind, status: Status, restored: bool)
    requires Shape(s.tasks, s.counter) && id !in Ids(s.tasks)
    ensures var t := Append(s, id, kind, status, restored);
            Valid(t) && Evolves(s, t) && Ids(t.tasks) <= Ids(s.tasks) + {id}
  {
    var added := Task(id, s.counter + 1, kind, status, restored);
    var all := s.tasks + [added];
    AppendKeepsShape(s.tasks, s.counter, added);
    EvictKeeps(all, s.counter + 1);
    assert forall u :: u in all ==> u == added || u in s.tasks;
    ListedBeforeEvolves(s, Evict(all), added);
  }

  lemma UpdateKeeps(s: State, i: nat, t: Task)
    requires Valid(s) && i < |s.tasks| && Continues(s.tasks[i], t)
    ensures Valid(s.(tasks := s.tasks[i := t])) && Evolves(s, s.(tasks := s.tasks[i := t]))
  {
    var r := s.tasks[i := t];
    forall u | u in r ensures exists x :: x in s.tasks && Continues(x, u) {
      var k :| 0 <= k < |r| && r[k] == u;
      assert s.tasks[k] in s.tasks && Continues(s.tasks[k], u);
    }
  }

  lemma EvolvesTransitive(a: State, b: State, c: State)
    requires Evolves(a, b) && Evolves(b, c)
    ensures Evolves(a, c)
  {
    forall u | u in c.tasks && u.publicId <= a.counter ensures exists t :: t in a.tasks && Continues(t, u) {
      var m :| m in b.tasks && Continues(m, u);
      var t :| t in a.tasks && Continues(t, m);
      assert Continues(t, u);
    }
  }

  lemma ReconciledListKeeps(s: State, acts: seq<Activity>)
    requires Valid(s)
    ensures var t := s.(tasks := ReconciledList(s.tasks, acts)); Valid(t) && Evolves(s, t) && Ids(t.tasks) <= Ids(s.tasks)
  {
    var r := ReconciledList(s.tasks, acts);
    assert forall i :: 0 <= i < |r| ==> Continues(s.tasks[i], r[i]);
    forall u | u in r ensures u.privateId in Ids(s.tasks) && exists t :: t in s.tasks && Continues(t, u) {
      var i :| 0 <= i < |r| && r[i] == u;
      assert s.tasks[i] in s.tasks && Continues(s.tasks[i], u);
    }
  }

  lemma NothingChanges(s: State)
    ensures Evolves(s, s)
  {
    assert forall u :: u in s.tasks ==> Continues(u, u);
  }

  lemma {:induction false} AppendAllKeeps(s: State, acts: seq<Activity>, known: set<string>)
    requires Valid(s) && DistinctActivities(acts)
    requires forall i :: 0 <= i < |acts| ==> acts[i].id in known || acts[i].id !in Ids(s.tasks)
    ensures Valid(AppendAll(s, acts, known)) && Evolves(s, AppendAll(s, acts, known))
    decreases |acts|
  {
    if acts == [] {
      NothingChanges(s);
    } else if acts[0].id in known {
      AppendAllKeeps(s, acts[1..], known);
    } else {
      var t := Append(s, acts[0].id, acts[0].kind, acts[0].status, false);
      AppendKeeps(s, acts[0].id, acts[0].kind, acts[0].status, false);
      AppendAllKeeps(t, acts[1..], known);
      EvolvesTransitive(s, t, AppendAll(s, acts, known));
    }
  }

  lemma RecordKeeps(s: State, id: string, kind: Kind, restored: bool)
    requires Valid(s)
    ensures Valid(Record(s, id, kind, restored)) && Evolves(s, Record(s, id, kind, restored))
  {
    var i := IndexOf(s.tasks, id);
    if i == |s.tasks| {
      AppendKeeps(s, id, kind, Running, restored);
    } else if !Terminal(s.tasks[i]) && kind.Monitor? {
      UpdateKeeps(s, i, s.tasks[i].(kind := Monitor));
    } else {
      NothingChanges(s);
    }
  }

  lemma CompleteKeeps(s: State, id: string, isMonitor: bool, status: Status)
    requires Valid(s) && !status.Running?
    ensures Valid(Complete(s, id, isMonitor, status)) && Evolves(s, Complete(s, id, isMonitor, status))
  {
    var i := IndexOf(s.tasks, id);
    if i < |s.tasks| && !Terminal(s.tasks[i]) {
      UpdateKeeps(s, i, s.tasks[i].(kind := if isMonitor then Monitor else s.tasks[i].kind, status := status));
    } else {
      NothingChanges(s);
    }
  }

  lemma ReconcileKeeps(s: State, acts: seq<Activity>)
    requires Valid(s) && DistinctActivities(acts)
    ensures Valid(Reconcile(s, acts)) && Evolves(s, Reconcile(s, acts))
  {
    var t := s.(tasks := ReconciledList(s.tasks, acts));
    ReconciledListKeeps(s, acts);
    AppendAllKeeps(t, acts, Ids(s.tasks));
    EvolvesTransitive(s, t, Reconcile(s, acts));
  }

  lemma StepKeeps(s: State, step: Step)
    requires Valid(s) && Enabled(step)
    ensures Valid(Next(s, step)) && Evolves(s, Next(s, step))
  {
    match step
    case Recorded(id, kind, restored) => RecordKeeps(s, id, kind, restored);
    case Finished(id, isMonitor, status) => CompleteKeeps(s, id, isMonitor, status);
    case Listed(acts) => ReconcileKeeps(s, acts);
    case Cleared =>
  }

  /**
   In every reachable state at most 50 tasks are listed, with distinct private ids and increasing public
   ids, and every later list only continues these tasks or adds newer ones.
   */
  lemma {:induction false} RunKeeps(states: seq<State>, steps: seq<Step>, i: nat, j: nat)
    requires IsRun(states, steps) && i <= j < |states|
    ensures Valid(states[i]) && Valid(states[j]) && Evolves(states[i], states[j])
    decreases j
  {
    if j > 0 {
      if i < j {
        RunKeeps(states, steps, i, j - 1);
        StepKeeps(states[j - 1], steps[j - 1]);
        EvolvesTransitive(states[i], states[j - 1], states[j]);
      } else {
        RunKeeps(states, steps, j - 1, j - 1);
        StepKeeps(states[j - 1], steps[j - 1]);
        NothingChanges(states[j]);
      }
    }
  }

  /** A terminal task never changes, for as long as it is listed. */
  lemma TerminalTasksNeverChange(states: seq<State>, steps: seq<Step>, i: nat, j: nat, t: Task, u: Task)
    requires IsRun(states, steps) && i <= j < |states|
    requires t in states[i].tasks && u in states[j].tasks && t.publicId == u.publicId
    ensures Continues(t, u)
  {
    RunKeeps(states, steps, i, j);
    var x :| x in states[i].tasks && Continues(x, u);
    var k :| 0 <= k < |states[i].tasks| && states[i].tasks[k] == x;
    var m :| 0 <= m < |states[i].tasks| && states[i].tasks[m] == t;
    assert k == m;
  }
}
