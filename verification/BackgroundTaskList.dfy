/**
 The background task list as it runs: task objects shared by a list and an id map, changed through
 either (desktop/src/conversation-controller.js).
 */
module BackgroundTaskList {
  import opened Common
  import B = BackgroundTasks

  class TaskObject {
    const privateId: string
    const publicId: nat
    var kind: B.Kind
    var status: B.Status
    var restoredFromReplay: bool

    constructor (privateId: string, publicId: nat, kind: B.Kind, status: B.Status, restored: bool)
      ensures Value() == B.Task(privateId, publicId, kind, status, restored)
    {
      this.privateId, this.publicId := privateId, publicId;
      this.kind, this.status, this.restoredFromReplay := kind, status, restored;
    }

    function Value(): B.Task
      reads this
    {
      B.Task(privateId, publicId, kind, status, restoredFromReplay)
    }
  }

  function Values(ts: seq<TaskObject>): seq<B.Task>
    reads ts
  {
    seq(|ts|, i requires 0 <= i < |ts| reads ts => ts[i].Value())
  }

  /** The id map holds exactly the tasks of the list. Private ids are constants, so this does not depend on the heap. */
  ghost predicate Indexed(ts: seq<TaskObject>, byId: map<string, TaskObject>) {
    && (forall i, j :: 0 <= i < j < |ts| ==> ts[i].privateId != ts[j].privateId)
    && (forall i :: 0 <= i < |ts| ==> ts[i].privateId in byId && byId[ts[i].privateId] == ts[i])
    && (forall id :: id in byId ==> byId[id].privateId == id && byId[id] in ts)
  }

  lemma ValuesWithout(ts: seq<TaskObject>, i: nat)
    requires i < |ts|
    ensures Values(ts[..i] + ts[i + 1..]) == Values(ts)[..i] + Values(ts)[i + 1..]
  {
    assert |Values(ts)| == |ts|;
    assert |Values(ts[..i] + ts[i + 1..])| == |ts| - 1;
  }

  lemma IndexedRemove(ts: seq<TaskObject>, byId: map<string, TaskObject>, i: nat)
    requires Indexed(ts, byId) && i < |ts|
    ensures Indexed(ts[..i] + ts[i + 1..], byId - {ts[i].privateId})
  {
    var rest := ts[..i] + ts[i + 1..];
    assert forall k :: 0 <= k < |rest| ==> rest[k] == ts[if k < i then k else k + 1];
    forall x | x in ts && x != ts[i] ensures x in rest {
      var k :| 0 <= k < |ts| && ts[k] == x;
      assert rest[if k < i then k else k - 1] == x;
    }
  }

  lemma IndexedAppend(ts: seq<TaskObject>, byId: map<string, TaskObject>, t: TaskObject)
    requires Indexed(ts, byId) && t.privateId !in byId
    ensures Indexed(ts + [t], byId[t.privateId := t])
  {
  }

  class BackgroundTaskList {
    var tasks: seq<TaskObject>
    var byPrivateId: map<string, TaskObject>
    var counter: nat

    ghost predicate Valid()
      reads this
    {
      Indexed(tasks, byPrivateId)
    }

    function View(): B.State
      reads this, tasks
    {
      B.State(Values(tasks), counter)
    }

    constructor ()
      ensures Valid() && View() == B.State([], 0)
    {
      tasks, byPrivateId, counter := [], map[], 0;
    }

    /** Where a task found through the id map stands in the list. */
    lemma IndexOfTask(id: string)
      requires Valid()
      ensures id !in byPrivateId ==> B.IndexOf(View().tasks, id) == |tasks|
      ensures id in byPrivateId ==>
        var i := B.IndexOf(View().tasks, id); i < |tasks| && tasks[i] == byPrivateId[id]
    {
      var i := B.IndexOf(View().tasks, id);
      assert i < |tasks| ==> View().tasks[i].privateId == tasks[i].privateId;
      if id in byPrivateId {
        var k :| 0 <= k < |tasks| && tasks[k] == byPrivateId[id];
        assert View().tasks[k].privateId == id;
      }
    }

    /** Removes entry i from list and map. */
    method RemoveAt(i: nat)
      requires Valid() && i < |tasks|
      modifies this
      ensures Valid() && tasks == old(tasks[..i] + tasks[i + 1..]) && counter == old(counter)
      ensures byPrivateId.Keys <= old(byPrivateId.Keys)
    {
      IndexedRemove(tasks, byPrivateId, i);
      byPrivateId := byPrivateId - {tasks[i].privateId};
      tasks := tasks[..i] + tasks[i + 1..];
    }

    method FindTerminal() returns (i: nat)
      ensures i == B.FirstTerminal(Values(tasks))
    {
      i := 0;
      while i < |tasks| && tasks[i].status.Running?
        invariant i <= |tasks|
        invariant forall k :: 0 <= k < i ==> !B.Terminal(Values(tasks)[k])
      {
        i := i + 1;
      }
      assert i < |tasks| ==> B.Terminal(Values(tasks)[i]);
    }

    /** One round of the eviction loop. */
    method EvictOne()
      requires Valid() && |tasks| > B.MAX_PUBLIC_BACKGROUND_TASKS
      modifies this
      ensures Valid() && counter == old(counter)
      ensures B.Evict(Values(tasks)) == B.Evict(old(Values(tasks)))
      ensures |tasks| == old(|tasks|) - 1 && forall t :: t in tasks ==> t in old(tasks)
      ensures byPrivateId.Keys <= old(byPrivateId.Keys)
    {
      var terminalIndex := FindTerminal();
      var i := if terminalIndex < |tasks| then terminalIndex else 0;
      assert i == B.Victim(Values(tasks));
      ValuesWithout(tasks, i);
      RemoveAt(i);
    }

    /** The eviction loop. */
    method EvictExcess()
      requires Valid()
      modifies this
      ensures Valid() && counter == old(counter) && Values(tasks) == B.Evict(old(Values(tasks)))
      ensures forall t :: t in tasks ==> t in old(tasks)
      ensures byPrivateId.Keys <= old(byPrivateId.Keys)
    {
      while |tasks| > B.MAX_PUBLIC_BACKGROUND_TASKS
        invariant Valid() && counter == old(counter)
        invariant B.Evict(Values(tasks)) == B.Evict(old(Values(tasks)))
        invariant forall t :: t in tasks ==> t in old(tasks)
        invariant byPrivateId.Keys <= old(byPrivateId.Keys)
        decreases |tasks|
      {
        EvictOne();
      }
    }

    method AddTask(id: string, kind: B.Kind, status: B.Status, restored: bool)
      requires Valid() && id !in byPrivateId
      modifies this
      ensures Valid() && counter == old(counter) + 1
      ensures Values(tasks) == old(Values(tasks)) + [B.Task(id, counter, kind, status, restored)]
      ensures forall t :: t in tasks ==> t in old(tasks) || fresh(t)
      ensures byPrivateId.Keys == old(byPrivateId.Keys) + {id}
    {
      counter := counter + 1;
      var task := new TaskObject(id, counter, kind, status, restored);
      IndexedAppend(tasks, byPrivateId, task);
      tasks := tasks + [task];
      byPrivateId := byPrivateId[id := task];
    }

    method AppendBackgroundTask(id: string, kind: B.Kind, status: B.Status, restored: bool)
      requires Valid() && id !in byPrivateId
      modifies this
      ensures Valid() && View() == B.Append(old(View()), id, kind, status, restored)
      ensures forall t :: t in tasks ==> t in old(tasks) || fresh(t)
      ensures byPrivateId.Keys <= old(byPrivateId.Keys) + {id}
    {
      AddTask(id, kind, status, restored);
      EvictExcess();
    }

    /** Changes one listed task in place; list and map see the same object. */
    method Update(task: TaskObject, kind: B.Kind, status: B.Status, restored: bool, ghost i: nat)
      requires Valid() && i < |tasks| && tasks[i] == task
      modifies task
      ensures Values(tasks) == old(Values(tasks))[i :=
        old(Values(tasks)[i]).(kind := kind, status := status, restoredFromReplay := restored)]
    {
      task.kind, task.status, task.restoredFromReplay := kind, status, restored;
      assert forall k :: 0 <= k < |tasks| && k != i ==> tasks[k] != task;
    }

    method RecordBackgroundTask(id: string, kind: B.Kind, restored: bool) returns (changed: bool)
      requires Valid()
      modifies this, tasks
      ensures Valid() && View() == B.Record(old(View()), id, kind, restored)
      ensures changed <==> View() != old(View())
      ensures forall t :: t in tasks ==> t in old(tasks) || fresh(t)
    {
      IndexOfTask(id);
      if id in byPrivateId {
        var task := byPrivateId[id];
        ghost var i := B.IndexOf(View().tasks, id);
        assert View().tasks[i] == task.Value();
        if task.status.Running? && kind.Monitor? && !task.kind.Monitor? {
          Update(task, B.Monitor, task.status, task.restoredFromReplay, i);
          assert View().tasks[i].kind != old(View().tasks[i].kind);
          return true;
        }
        assert old(View()).tasks[i := old(View()).tasks[i]] == old(View()).tasks;
        return false;
      }
      AppendBackgroundTask(id, kind, B.Running, restored);
      changed := true;
    }

    method RecordBackgroundTaskCompletion(id: string, isMonitor: bool, status: B.Status) returns (changed: bool)
      requires Valid() && !status.Running?
      modifies this, tasks
      ensures Valid() && View() == B.Complete(old(View()), id, isMonitor, status)
      ensures changed <==> View() != old(View())
      ensures forall t :: t in tasks ==> t in old(tasks) || fresh(t)
    {
      IndexOfTask(id);
      if id !in byPrivateId || !byPrivateId[id].status.Running? {
        return false;
      }
      var task := byPrivateId[id];
      ghost var i := B.IndexOf(View().tasks, id);
      assert View().tasks[i] == task.Value();
      Update(task, if isMonitor then B.Monitor else task.kind, status, task.restoredFromReplay, i);
      assert View().tasks[i].status != old(View().tasks[i].status);
      changed := true;
    }

    /** What the loop of `#reconcileBackgroundTasks` does to the task at k. */
    method ReconcileAt(k: nat, acts: seq<B.Activity>)
      requires Valid() && k < |tasks|
      modifies tasks[k]
      ensures Values(tasks) == old(Values(tasks))[k := B.Reconciled(old(Values(tasks)[k]), acts)]
    {
      var task := tasks[k];
      var authoritative := B.ActivityOf(acts, task.privateId);
      if authoritative.None? {
        if task.restoredFromReplay && task.status.Running? {
          Update(task, task.kind, B.Stopped, task.restoredFromReplay, k);
        }
      } else if task.status.Running? {
        Update(task, authoritative.value.kind, authoritative.value.status, false, k);
      }
    }

    /** The loop over the listed tasks of `#reconcileBackgroundTasks`. */
    method ReconcileListed(acts: seq<B.Activity>)
      requires Valid()
      modifies tasks
      ensures Values(tasks) == B.ReconciledList(old(Values(tasks)), acts)
    {
      ghost var before := Values(tasks);
      for k := 0 to |tasks|
        invariant Values(tasks) == B.ReconciledList(before[..k], acts) + before[k..]
      {
        ReconciledStep(before, acts, k);
        ReconcileAt(k, acts);
      }
    }

    method ReconcileBackgroundTasks(acts: seq<B.Activity>)
      requires Valid() && |acts| <= B.MAX_PUBLIC_BACKGROUND_TASKS && B.DistinctActivities(acts)
      modifies this, tasks
      ensures Valid() && View() == B.Reconcile(old(View()), acts)
      ensures forall t :: t in tasks ==> t in old(tasks) || fresh(t)
    {
      ghost var s := View();
      var known := byPrivateId.Keys;
      KnownIds();
      ReconcileListed(acts);
      ghost var listed := View();
      for k := 0 to |acts|
        invariant Valid() && B.AppendAll(View(), acts[k..], known) == B.AppendAll(listed, acts, known)
        invariant forall t :: t in tasks ==> t in old(tasks) || fresh(t)
        invariant forall j :: k <= j < |acts| ==> acts[j].id in known || acts[j].id !in byPrivateId
      {
        assert acts[k..][1..] == acts[k + 1..];
        if acts[k].id !in known {
          AppendBackgroundTask(acts[k].id, acts[k].kind, acts[k].status, false);
        }
      }
    }

    lemma KnownIds()
      requires Valid()
      ensures byPrivateId.Keys == B.Ids(View().tasks)
    {
      forall id ensures id in byPrivateId.Keys <==> id in B.Ids(View().tasks) {
        if id in byPrivateId {
          var k :| 0 <= k < |tasks| && tasks[k] == byPrivateId[id];
          assert View().tasks[k] in View().tasks && View().tasks[k].privateId == id;
        }
        if id in B.Ids(View().tasks) {
          var k :| 0 <= k < |tasks| && View().tasks[k].privateId == id;
          assert tasks[k].privateId == id;
        }
      }
    }

    method ClearBackgroundTasks()
      requires Valid()
      modifies this
      ensures Valid() && View() == B.Clear(old(View()))
    {
      tasks, byPrivateId := [], map[];
    }

    method Perform(step: B.Step)
      requires Valid() && B.Enabled(step)
      modifies this, tasks
      ensures Valid() && View() == B.Next(old(View()), step)
      ensures forall t :: t in tasks ==> t in old(tasks) || fresh(t)
    {
      match step {
        case Recorded(id, kind, restored) => var changed := RecordBackgroundTask(id, kind, restored);
        case Finished(id, isMonitor, status) => var changed := RecordBackgroundTaskCompletion(id, isMonitor, status);
        case Listed(acts) => ReconcileBackgroundTasks(acts);
        case Cleared => ClearBackgroundTasks();
      }
    }
  }

  lemma ReconciledStep(before: seq<B.Task>, acts: seq<B.Activity>, k: nat)
    requires k < |before|
    ensures (B.ReconciledList(before[..k], acts) + before[k..])[k] == before[k]
    ensures (B.ReconciledList(before[..k], acts) + before[k..])[k := B.Reconciled(before[k], acts)] ==
            B.ReconciledList(before[..k + 1], acts) + before[k + 1..]
  {
  }
}
