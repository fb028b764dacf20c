/** What becomes of each background task in a step, which tasks are new, and which leave (desktop/src/conversation-controller.js). */
module BackgroundEffects {
  import opened Common
  import opened BackgroundTasks

  // ---------------------------------------------------------------- one task

  /** A running task takes the kind and the status that are told for it; a terminal one takes nothing. */
  ghost predicate Becomes(t: Task, step: Step, u: Task) {
    match step
    case Recorded(id, kind, _) =>
      u == if t.privateId == id && t.status.Running? && kind.Monitor? then t.(kind := Monitor) else t
    case Finished(id, isMonitor, status) =>
      if t.privateId == id && t.status.Running?
      then u == t.(status := status, kind := if isMonitor then Monitor else t.kind) else u == t
    case Listed(acts) =>
      if !t.status.Running? then u == t
      else if exists a :: a in acts && a.id == t.privateId
      then exists a :: a in acts && a.id == t.privateId && u == t.(kind := a.kind, status := a.status, restoredFromReplay := false)
      else u == if t.restoredFromReplay then t.(status := Stopped) else t
    case Cleared => false
  }

  lemma {:induction false} ActivityIsFound(acts: seq<Activity>, id: string)
    ensures match ActivityOf(acts, id)
      case None => forall a :: a in acts ==> a.id != id
      case Some(a) => a in acts && a.id == id
  {
    if acts != [] && acts[0].id != id {
      ActivityIsFound(acts[1..], id);
      assert acts == [acts[0]] + acts[1..];
    }
  }

  lemma ReconciledBecomes(t: Task, acts: seq<Activity>)
    ensures Becomes(t, Listed(acts), Reconciled(t, acts))
  {
    ActivityIsFound(acts, t.privateId);
  }

  // ---------------------------------------------------------------- which tasks are new

  /** The tasks appended for activities with ids not known yet, in order, with the next public ids. */
  function NewTasks(acts: seq<Activity>, known: set<string>, counter: nat): seq<Task> {
    if acts == [] then []
    else if acts[0].id in known then NewTasks(acts[1..], known, counter)
    else [Task(acts[0].id, counter + 1, acts[0].kind, acts[0].status, false)] + NewTasks(acts[1..], known, counter + 1)
  }

  function Added(s: State, step: Step): seq<Task> {
    match step
    case Recorded(id, kind, restored) => if id in Ids(s.tasks) then [] else [Task(id, s.counter + 1, kind, Running, restored)]
    case Listed(acts) => NewTasks(acts, Ids(s.tasks), s.counter)
    case _ => []
  }

  // ---------------------------------------------------------------- which tasks leave

  function Limit(n: nat): nat {
    if n <= MAX_PUBLIC_BACKGROUND_TASKS then n else MAX_PUBLIC_BACKGROUND_TASKS
  }

  /** One task too many: the oldest terminal one leaves, or the oldest if all run; the others stay in order. */
  lemma OneTooManyLeaves(ts: seq<Task>)
    requires |ts| == MAX_PUBLIC_BACKGROUND_TASKS + 1
    ensures exists i :: 0 <= i < |ts| && Evict(ts) == ts[..i] + ts[i + 1..] && LeavesFirst(ts, i)
  {
    var i := Victim(ts);
    assert |ts[..i] + ts[i + 1..]| == MAX_PUBLIC_BACKGROUND_TASKS;
    assert Evict(ts[..i] + ts[i + 1..]) == ts[..i] + ts[i + 1..];
    assert LeavesFirst(ts, i);
  }

  ghost predicate LeavesFirst(ts: seq<Task>, i: nat)
    requires i < |ts|
  {
    if ts[i].status.Running? then i == 0 && (forall t :: t in ts ==> t.status.Running?)
    else forall j :: 0 <= j < i ==> ts[j].status.Running?
  }

  lemma {:induction false} EvictToLimit(ts: seq<Task>)
    ensures |Evict(ts)| == Limit(|ts|) && (|ts| <= MAX_PUBLIC_BACKGROUND_TASKS ==> Evict(ts) == ts)
    decreases |ts|
  {
    if |ts| > MAX_PUBLIC_BACKGROUND_TASKS {
      EvictToLimit(ts[..Victim(ts)] + ts[Victim(ts) + 1..]);
    }
  }

  // ---------------------------------------------------------------- the list after a step

  /** The list holds only these, as many as there is room for, and all of them in order if there is room for all. */
  ghost predicate ListIs(ts: seq<Task>, all: seq<Task>) {
    && (forall t :: t in ts ==> t in all)
    && |ts| == Limit(|all|)
    && (|all| <= MAX_PUBLIC_BACKGROUND_TASKS ==> ts == all)
  }

  lemma AppendGives(s: State, added: Task)
    requires |s.tasks| <= MAX_PUBLIC_BACKGROUND_TASKS
    ensures var ts := Evict(s.tasks + [added]);
      && (forall t :: t in ts ==> t in s.tasks || t == added)
      && |ts| == Limit(|s.tasks| + 1)
      && (|s.tasks| < MAX_PUBLIC_BACKGROUND_TASKS ==> ts == s.tasks + [added])
  {
    EvictToLimit(s.tasks + [added]);
    EvictIsSubset(s.tasks + [added]);
  }

  lemma {:induction false} AppendAllGives(s: State, acts: seq<Activity>, known: set<string>)
    requires |s.tasks| <= MAX_PUBLIC_BACKGROUND_TASKS
    ensures var t, more := AppendAll(s, acts, known), NewTasks(acts, known, s.counter);
      ListIs(t.tasks, s.tasks + more) && t.counter == s.counter + |more|
    decreases |acts|
  {
    if acts == [] {
      assert s.tasks + [] == s.tasks;
    } else if acts[0].id in known {
      AppendAllGives(s, acts[1..], known);
    } else {
      var added := Task(acts[0].id, s.counter + 1, acts[0].kind, acts[0].status, false);
      var t := Append(s, acts[0].id, acts[0].kind, acts[0].status, false);
      AppendGives(s, added);
      AppendAllGives(t, acts[1..], known);
      var rest := NewTasks(acts[1..], known, s.counter + 1);
      assert s.tasks + ([added] + rest) == (s.tasks + [added]) + rest;
    }
  }

  /** Task by task what the earlier list becomes, in the same order. */
  ghost predicate BecomeAll(ts: seq<Task>, step: Step, us: seq<Task>) {
    |us| == |ts| && forall i :: 0 <= i < |ts| ==> Becomes(ts[i], step, us[i])
  }

  lemma IndexMeansListed(ts: seq<Task>, id: string)
    ensures IndexOf(ts, id) == |ts| <==> id !in Ids(ts)
  {
    var i := IndexOf(ts, id);
    if i < |ts| { assert ts[i] in ts; }
  }

  lemma RecordedGives(s: State, step: Step) returns (us: seq<Task>)
    requires Valid(s) && step.Recorded?
    ensures BecomeAll(s.tasks, step, us) && ListIs(Next(s, step).tasks, us + Added(s, step))
    ensures Next(s, step).counter == s.counter + |Added(s, step)|
  {
    var i := IndexOf(s.tasks, step.id);
    IndexMeansListed(s.tasks, step.id);
    if i == |s.tasks| {
      us := s.tasks;
      assert forall k :: 0 <= k < |s.tasks| ==> s.tasks[k] in s.tasks;
      AppendGives(s, Added(s, step)[0]);
    } else {
      us := Next(s, step).tasks;
      assert us + [] == us;
    }
  }

  lemma FinishedGives(s: State, step: Step) returns (us: seq<Task>)
    requires Valid(s) && step.Finished? && Enabled(step)
    ensures BecomeAll(s.tasks, step, us) && ListIs(Next(s, step).tasks, us + Added(s, step))
    ensures Next(s, step).counter == s.counter
  {
    us := Next(s, step).tasks;
    assert us + [] == us;
  }

  lemma ListedGives(s: State, step: Step) returns (us: seq<Task>)
    requires Valid(s) && step.Listed?
    ensures BecomeAll(s.tasks, step, us) && ListIs(Reconcile(s, step.acts).tasks, us + Added(s, step))
    ensures Reconcile(s, step.acts).counter == s.counter + |Added(s, step)|
  {
    us := ReconciledList(s.tasks, step.acts);
    forall i | 0 <= i < |us| ensures Becomes(s.tasks[i], step, us[i]) {
      ReconciledBecomes(s.tasks[i], step.acts);
    }
    AppendAllGives(s.(tasks := us), step.acts, Ids(s.tasks));
  }

  /**
   A step makes of every listed task what is told for it, appends what is new, and lets tasks leave only for want of
   room: the list is as long as it can be.
   */
  lemma StepEffect(s: State, step: Step) returns (us: seq<Task>)
    requires Valid(s) && Enabled(step) && !step.Cleared?
    ensures BecomeAll(s.tasks, step, us) && ListIs(Next(s, step).tasks, us + Added(s, step))
    ensures Next(s, step).counter == s.counter + |Added(s, step)|
    ensures Next(s, Cleared).tasks == [] && Next(s, Cleared).counter == s.counter
  {
    match step
    case Recorded(_, _, _) => us := RecordedGives(s, step);
    case Finished(_, _, _) => us := FinishedGives(s, step);
    case Listed(_) => us := ListedGives(s, step);
  }
}
