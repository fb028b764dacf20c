/**
 The live fields of the controller, and how they are stored into and loaded from session records
 (desktop/src/conversation-controller.js). Arrays, maps and sets are shared by reference between the
 live fields and the record of the loaded session; the class is proved to behave like SessionWorld,
 where every session has a state of its own.
 */
module SessionRecords {
  import opened Common
  import W = SessionWorld

  /** A JavaScript array, map, set or object. `owner` and `slot` record for which field it was made. */
  class Container {
    ghost const owner: Option<W.Key>
    ghost const slot: W.Field
    var items: seq<string>

    constructor (ghost owner: Option<W.Key>, ghost slot: W.Field, items: seq<string>)
      ensures this.owner == owner && this.slot == slot && this.items == items
    {
      this.owner, this.slot, this.items := owner, slot, items;
    }
  }

  datatype Value = Plain(scalar: W.Scalar) | Ref(container: Container)

  type Fields = map<W.Field, Value>

  ghost function Containers(m: Fields): set<Container> {
    set f | f in m && m[f].Ref? :: m[f].container
  }

  function ReadValue(v: Value): W.Content
    reads if v.Ref? then {v.container} else {}
  {
    match v
    case Plain(scalar) => W.Plain(scalar)
    case Ref(container) => W.Holds(container.items)
  }

  function Read(m: Fields): W.Contents
    reads Containers(m)
  {
    map f | f in m :: ReadValue(m[f])
  }

  ghost predicate Full(m: Fields) {
    forall f: W.Field :: f in m
  }

  /** Every container of the fields was made for that field of session `key`. */
  ghost predicate Owned(m: Fields, key: W.Key, containers: set<Container>) {
    forall f :: f in m && m[f].Ref? ==>
      m[f].container in containers && m[f].container.owner == Some(key) && m[f].container.slot == f
  }

  const SESSION_STATE_FIELDS: seq<W.Field> := [
    W.Messages, W.MessageCounter, W.SeenInterjectionIds, W.TranscriptTruncated, W.Activities, W.ActivityByToolCallId,
    W.ActivityCounter, W.BackgroundTasks, W.BackgroundTaskByPrivateId, W.BackgroundTaskCounter, W.BackgroundStatus,
    W.PlanEntries, W.PlanStatus, W.PlanRefreshGeneration, W.PlanRefreshPromise, W.PlanRefreshQueued, W.Artifacts,
    W.ArtifactStatus, W.Project, W.ProjectStatus, W.PermissionInteraction, W.QueueRevision, W.QueueEntries,
    W.QueueRunningPromptId, W.QueuePublicIds, W.QueuePrivateIds, W.QueuePublicCounter, W.Submissions, W.QueueMutation,
    W.CancelRequested, W.CancelTargetPromptId]

  /** The list names every per-session field, so that copying along it copies the whole state. */
  lemma FieldListIsComplete(f: W.Field)
    ensures f in SESSION_STATE_FIELDS
  {
    var names := SESSION_STATE_FIELDS;
    assert |names| == 31;
    match f
    case Messages => assert names[0] == f;
    case MessageCounter => assert names[1] == f;
    case SeenInterjectionIds => assert names[2] == f;
    case TranscriptTruncated => assert names[3] == f;
    case Activities => assert names[4] == f;
    case ActivityByToolCallId => assert names[5] == f;
    case ActivityCounter => assert names[6] == f;
    case BackgroundTasks => assert names[7] == f;
    case BackgroundTaskByPrivateId => assert names[8] == f;
    case BackgroundTaskCounter => assert names[9] == f;
    case BackgroundStatus => assert names[10] == f;
    case PlanEntries => assert names[11] == f;
    case PlanStatus => assert names[12] == f;
    case PlanRefreshGeneration => assert names[13] == f;
    case PlanRefreshPromise => assert names[14] == f;
    case PlanRefreshQueued => assert names[15] == f;
    case Artifacts => assert names[16] == f;
    case ArtifactStatus => assert names[17] == f;
    case Project => assert names[18] == f;
    case ProjectStatus => assert names[19] == f;
    case PermissionInteraction => assert names[20] == f;
    case QueueRevision => assert names[21] == f;
    case QueueEntries => assert names[22] == f;
    case QueueRunningPromptId => assert names[23] == f;
    case QueuePublicIds => assert names[24] == f;
    case QueuePrivateIds => assert names[25] == f;
    case QueuePublicCounter => assert names[26] == f;
    case Submissions => assert names[27] == f;
    case QueueMutation => assert names[28] == f;
    case CancelRequested => assert names[29] == f;
    case CancelTargetPromptId => assert names[30] == f;
  }

  /** The copying loop of capture and restore. */
  method CopyFields(from: Fields, into: Fields) returns (m: Fields)
    requires Full(from) && Full(into)
    ensures m == from
  {
    m := into;
    for k := 0 to |SESSION_STATE_FIELDS|
      invariant Full(m)
      invariant forall j :: 0 <= j < k ==> m[SESSION_STATE_FIELDS[j]] == from[SESSION_STATE_FIELDS[j]]
    {
      m := m[SESSION_STATE_FIELDS[k] := from[SESSION_STATE_FIELDS[k]]];
    }
    forall f: W.Field ensures m[f] == from[f] {
      FieldListIsComplete(f);
    }
  }

  /** `createPrivateSessionState`: every container is new. */
  method CreateState(ghost owner: Option<W.Key>) returns (m: Fields, ghost made: set<Container>)
    ensures Full(m) && Read(m) == W.FRESH && fresh(made)
    ensures forall f :: f in m && m[f].Ref? ==>
      m[f].container in made && m[f].container.owner == owner && m[f].container.slot == f
  {
    m, made := map[], {};
    for k := 0 to |SESSION_STATE_FIELDS|
      invariant fresh(made)
      invariant forall j :: 0 <= j < k ==> SESSION_STATE_FIELDS[j] in m
      invariant forall f :: f in m ==> ReadValue(m[f]) == W.Initial(f)
      invariant forall f :: f in m && m[f].Ref? ==>
        m[f].container in made && m[f].container.owner == owner && m[f].container.slot == f
    {
      var f := SESSION_STATE_FIELDS[k];
      match W.Initial(f) {
        case Plain(scalar) => m := m[f := Plain(scalar)];
        case Holds(items) =>
          var container := new Container(owner, f, items);
          made := made + {container};
          m := m[f := Ref(container)];
      }
    }
    forall f: W.Field ensures f in m {
      FieldListIsComplete(f);
    }
  }

  class SessionRecord {
    const key: W.Key
    var state: Fields
    var snapshot: W.Snapshot

    constructor (key: W.Key, state: Fields, snapshot: W.Snapshot)
      ensures this.key == key && this.state == state && this.snapshot == snapshot
    {
      this.key, this.state, this.snapshot := key, state, snapshot;
    }
  }

  class Controller {
    var live: Fields
    var current: SessionRecord?
    var authority: Option<W.Key>
    var sessionsByKey: map<W.Key, SessionRecord>
    var activeKey: Option<W.Key>
    var snapshot: W.Snapshot
    ghost var containers: set<Container>

    ghost predicate Valid()
      reads this, sessionsByKey.Values
    {
      && Full(live)
      && (forall k :: k in sessionsByKey ==>
            && sessionsByKey[k].key == k
            && Full(sessionsByKey[k].state)
            && Owned(sessionsByKey[k].state, k, containers))
      && authority == Loaded()
      && (current != null ==>
            && current.key in sessionsByKey && sessionsByKey[current.key] == current
            && Owned(live, current.key, containers))
    }

    ghost function Loaded(): Option<W.Key>
      reads this
    {
      if current == null then None else Some(current.key)
    }

    /** Where the state of a session is: in the live fields when it is loaded, else in its record. */
    ghost function FieldsOf(k: W.Key): Fields
      requires k in sessionsByKey
      reads this, sessionsByKey.Values
    {
      if current == sessionsByKey[k] then live else sessionsByKey[k].state
    }

    ghost function SessionOf(k: W.Key): W.Session
      requires k in sessionsByKey
      reads this, sessionsByKey.Values, Containers(FieldsOf(k))
    {
      W.Session(Read(FieldsOf(k)), sessionsByKey[k].snapshot)
    }

    ghost function View(): W.World
      requires Valid()
      reads this, sessionsByKey.Values, containers
    {
      W.World(map k | k in sessionsByKey :: SessionOf(k), activeKey, snapshot)
    }

    lemma FieldsAreOwned(k: W.Key)
      requires Valid() && k in sessionsByKey
      ensures Full(FieldsOf(k)) && Owned(FieldsOf(k), k, containers)
    {
    }

    /** No container is reachable from two sessions, nor from two fields of one session. */
    lemma NothingIsShared(k: W.Key, f: W.Field, l: W.Key, g: W.Field)
      requires Valid() && k in sessionsByKey && l in sessionsByKey
      requires f in FieldsOf(k) && g in FieldsOf(l) && FieldsOf(k)[f].Ref? && FieldsOf(k)[f] == FieldsOf(l)[g]
      ensures k == l && f == g
    {
      FieldsAreOwned(k);
      FieldsAreOwned(l);
    }

    method Capture()
      requires Valid() && current != null
      modifies current`state
      ensures Valid() && current.state == live
      ensures View() == old(View())
    {
      var copy := CopyFields(live, current.state);
      current.state := copy;
      forall k | k in sessionsByKey ensures SessionOf(k) == old(SessionOf(k)) {
        assert FieldsOf(k) == old(FieldsOf(k));
      }
    }

    method Restore(record: SessionRecord)
      requires Valid() && record.key in sessionsByKey && sessionsByKey[record.key] == record
      requires current != null ==> current.state == live
      modifies this`live, this`current, this`authority
      ensures Valid() && current == record && live == record.state
      ensures View() == old(View())
    {
      var copy := CopyFields(record.state, live);
      live := copy;
      current := record;
      authority := Some(record.key);
      forall k | k in sessionsByKey ensures SessionOf(k) == old(SessionOf(k)) {
        assert FieldsOf(k) == old(FieldsOf(k));
      }
    }

    /** The view after a change of one session. */
    twostate lemma ViewAfter(key: W.Key)
      requires old(Valid()) && Valid() && sessionsByKey == old(sessionsByKey) && key in sessionsByKey
      requires forall k :: k in sessionsByKey && k != key ==> SessionOf(k) == old(SessionOf(k))
      ensures View() == W.World(old(View()).sessions[key := SessionOf(key)], activeKey, snapshot)
    {
    }

    /** Changing a container in place changes one field of the loaded session and nothing else. */
    method Mutate(f: W.Field, items: seq<string>)
      requires Valid() && current != null && live[f].Ref?
      modifies live[f].container
      ensures Valid() && View() == W.SetField(old(View()), current.key, f, W.Holds(items))
    {
      var container := live[f].container;
      container.items := items;
      MutateFrame(f);
      forall k | k in sessionsByKey && k != current.key ensures SessionOf(k) == old(SessionOf(k)) {
        FieldsAreOwned(k);
        assert container !in Containers(FieldsOf(k));
      }
      ViewAfter(current.key);
    }

    twostate lemma MutateFrame(f: W.Field)
      requires old(Valid()) && Valid() && current != null && unchanged(this) && unchanged(sessionsByKey.Values)
      requires f in live && live[f].Ref?
      requires forall c :: c in containers && c != live[f].container ==> unchanged(c)
      ensures Read(live) == old(Read(live))[f := W.Holds(live[f].container.items)]
    {
      forall g | g in live && g != f ensures ReadValue(live[g]) == old(ReadValue(live[g])) {
      }
    }

    /** Gives a live field a new value: a scalar, or a container made for this field of the loaded session. */
    method SetLive(f: W.Field, value: Value)
      requires Valid() && current != null
      requires Owned(map[f := value], current.key, containers)
      modifies this`live
      ensures Valid() && View() == W.SetField(old(View()), current.key, f, ReadValue(value))
    {
      live := live[f := value];
      assert map[f := value][f] == value;
      assert Read(live) == old(Read(live))[f := ReadValue(value)];
      forall k | k in sessionsByKey && k != current.key ensures SessionOf(k) == old(SessionOf(k)) {
        assert FieldsOf(k) == old(FieldsOf(k));
      }
      ViewAfter(current.key);
    }

    method NewContainer(f: W.Field, items: seq<string>) returns (container: Container)
      requires Valid() && current != null
      modifies this`containers
      ensures Valid() && View() == old(View())
      ensures fresh(container) && containers == old(containers) + {container}
      ensures container.owner == Some(current.key) && container.slot == f && container.items == items
    {
      container := new Container(Some(current.key), f, items);
      containers := containers + {container};
      forall k | k in sessionsByKey ensures SessionOf(k) == old(SessionOf(k)) {
        assert FieldsOf(k) == old(FieldsOf(k));
      }
    }

    method AnnounceOnRecord(projected: W.Snapshot)
      requires Valid() && current != null
      modifies current`snapshot
      ensures Valid() && View() == W.PublishOn(old(View()), current.key, projected).(shown := snapshot)
    {
      current.snapshot := projected;
      forall k | k in sessionsByKey && k != current.key ensures SessionOf(k) == old(SessionOf(k)) {
        assert FieldsOf(k) == old(FieldsOf(k));
      }
      assert FieldsOf(current.key) == old(FieldsOf(current.key));
      assert SessionOf(current.key) == old(SessionOf(current.key)).(snapshot := projected);
      ViewAfter(current.key);
      assert View().sessions == W.PublishOn(old(View()), current.key, projected).sessions;
    }

    method Publish(projected: W.Snapshot)
      requires Valid() && current != null
      modifies this`snapshot, this`activeKey, current
      ensures Valid() && View() == W.PublishOn(old(View()), current.key, projected)
    {
      AnnounceOnRecord(projected);
      Capture();
      if activeKey == Some(current.key) {
        SetScreen(activeKey, projected);
      }
    }

    ghost predicate Ready()
      reads this, sessionsByKey.Values
    {
      Valid() && current != null
    }

    /** The loaded session is still loaded and the view changed as the work says. */
    twostate predicate Did(work: W.Work, threw: bool)
      requires old(Ready())
      reads this, sessionsByKey.Values, containers
    {
      && Valid() && current == old(current) && sessionsByKey == old(sessionsByKey) && activeKey == old(activeKey)
      && old(containers) <= containers && fresh(containers - old(containers))
      && W.Outcome(View(), threw) == W.Apply(work, old(current.key), old(View()))
    }

    lemma LoadedContents()
      requires Ready()
      ensures View().sessions[current.key].contents == Read(live)
    {
      assert FieldsOf(current.key) == live;
    }

    lemma LoadedField(f: W.Field)
      requires Ready()
      ensures f in live && W.Held(Read(live), f).Plain? == live[f].Plain?
    {
    }

    method DoMutate(f: W.Field, change: W.Contents -> seq<string>) returns (threw: bool)
      requires Ready()
      modifies containers
      ensures Did(W.Mutate(f, change), threw)
    {
      LoadedContents();
      LoadedField(f);
      threw := live[f].Plain?;
      if !threw {
        Mutate(f, change(Read(live)));
      }
    }

    method DoReplace(f: W.Field, make: W.Contents -> seq<string>)
      requires Ready()
      modifies this`live, this`containers
      ensures Did(W.Replace(f, make), false)
    {
      LoadedContents();
      var container := NewContainer(f, make(Read(live)));
      SetLive(f, Ref(container));
    }

    method DoAssign(f: W.Field, value: W.Contents -> W.Scalar)
      requires Ready()
      modifies this`live
      ensures Did(W.Assign(f, value), false)
    {
      LoadedContents();
      SetLive(f, Plain(value(Read(live))));
    }

    method DoPublish(project: (W.Contents, W.Snapshot) -> W.Snapshot)
      requires Ready()
      modifies this`snapshot, this`activeKey, current
      ensures Did(W.Publish(project), false)
    {
      LoadedContents();
      Publish(project(Read(live), snapshot));
    }

    method DoThen(work: W.Work) returns (threw: bool)
      requires Ready() && work.Then?
      modifies this, sessionsByKey.Values, containers
      ensures Did(work, threw)
      decreases work, 0
    {
      threw := Do(work.first);
      if !threw {
        threw := Do(work.second);
      }
    }

    method DoIf(work: W.Work) returns (threw: bool)
      requires Ready() && work.If?
      modifies this, sessionsByKey.Values, containers
      ensures Did(work, threw)
      decreases work, 0
    {
      LoadedContents();
      if work.condition(Read(live)) {
        threw := Do(work.yes);
      } else {
        threw := Do(work.no);
      }
    }

    method DoWithin(work: W.Work) returns (threw: bool)
      requires Ready() && work.Within?
      modifies this, sessionsByKey.Values, containers
      ensures Did(work, threw)
      decreases work, 0
    {
      threw := false;
      if work.key in sessionsByKey {
        threw := WithSessionRecord(sessionsByKey[work.key], work.body);
      }
    }

    /** Does a piece of work on the loaded session. */
    method Do(work: W.Work) returns (threw: bool)
      requires Ready()
      modifies this, sessionsByKey.Values, containers
      ensures Did(work, threw)
      decreases work, 1
    {
      threw := false;
      match work {
        case Mutate(f, change) => threw := DoMutate(f, change);
        case Replace(f, make) => DoReplace(f, make);
        case Assign(f, value) => DoAssign(f, value);
        case Publish(project) => DoPublish(project);
        case Within(_, _) => threw := DoWithin(work);
        case Then(_, _) => threw := DoThen(work);
        case If(_, _, _) => threw := DoIf(work);
        case Attempt(body) => var ignored := Do(body);
        case Throw => threw := true;
      }
    }

    /** Stores what is loaded, then loads `record` with its own snapshot. */
    method Load(record: SessionRecord)
      requires Valid() && record.key in sessionsByKey && sessionsByKey[record.key] == record
      modifies this, sessionsByKey.Values
      ensures Valid() && current == record && sessionsByKey == old(sessionsByKey) && activeKey == old(activeKey)
      ensures containers == old(containers) && record.snapshot == old(record.snapshot)
      ensures View() == old(View()).(shown := record.snapshot)
    {
      if current != null {
        Capture();
      }
      Restore(record);
      SetScreen(activeKey, record.snapshot);
    }

    /** Stores what is loaded, then loads what was loaded before. */
    method GiveBack(previous: SessionRecord?, previousSnapshot: W.Snapshot)
      requires Valid() && current != null
      requires previous != null ==> previous.key in sessionsByKey && sessionsByKey[previous.key] == previous
      modifies this, sessionsByKey.Values
      ensures Valid() && current == previous && sessionsByKey == old(sessionsByKey) && activeKey == old(activeKey)
      ensures containers == old(containers) && View() == old(View()).(shown := previousSnapshot)
    {
      Capture();
      if previous != null {
        Restore(previous);
      } else {
        Unload();
      }
      SetScreen(activeKey, previousSnapshot);
    }

    method LoadAndDo(record: SessionRecord, operation: W.Work) returns (threw: bool)
      requires Valid() && record.key in sessionsByKey && sessionsByKey[record.key] == record
      modifies this, sessionsByKey.Values, containers
      ensures Valid() && current == record && sessionsByKey == old(sessionsByKey) && activeKey == old(activeKey)
      ensures old(containers) <= containers && fresh(containers - old(containers))
      ensures W.Outcome(View(), threw) == W.Apply(operation, record.key, old(View()).(shown := old(record.snapshot)))
      decreases operation, 2
    {
      Load(record);
      threw := Do(operation);
    }

    /** The work on a record that is not the loaded one: load it, do the work, give back what was loaded before. */
    method WorkElsewhere(record: SessionRecord, operation: W.Work) returns (threw: bool)
      requires Valid() && record.key in sessionsByKey && sessionsByKey[record.key] == record && current != record
      modifies this, sessionsByKey.Values, containers
      ensures Valid() && current == old(current) && sessionsByKey == old(sessionsByKey) && activeKey == old(activeKey)
      ensures old(containers) <= containers && fresh(containers - old(containers))
      ensures var r := W.Apply(operation, record.key, old(View()).(shown := old(record.snapshot)));
        View() == r.world.(shown := old(snapshot)) && threw == r.threw
      decreases operation, 3
    {
      var previousRecord, previousSnapshot := current, snapshot;
      threw := LoadAndDo(record, operation);
      GiveBack(previousRecord, previousSnapshot);
    }

    /**
     `#withSessionRecord`: the work is done on the record's own state, and whatever was loaded before is loaded
     again with its snapshot, also after an exception.
     */
    method WithSessionRecord(record: SessionRecord, operation: W.Work) returns (threw: bool)
      requires Valid() && record.key in sessionsByKey && sessionsByKey[record.key] == record
      modifies this, sessionsByKey.Values, containers
      ensures Valid() && current == old(current) && authority == old(authority)
      ensures sessionsByKey == old(sessionsByKey) && activeKey == old(activeKey)
      ensures old(containers) <= containers && fresh(containers - old(containers))
      ensures W.Outcome(View(), threw) == W.Switched(operation, record.key, old(Loaded()), old(View()))
      decreases operation, 4
    {
      if current == record {
        threw := Do(operation);
      } else {
        threw := WorkElsewhere(record, operation);
      }
    }

    method SetScreen(active: Option<W.Key>, s: W.Snapshot)
      requires Valid()
      modifies this`activeKey, this`snapshot
      ensures Valid() && View() == old(View()).(active := active, shown := s)
    {
      activeKey, snapshot := active, s;
      SameSessions();
    }

    method Unload()
      requires Valid() && current != null && current.state == live
      modifies this`current, this`authority
      ensures Valid() && current == null && View() == old(View())
    {
      current := null;
      authority := None;
      forall k | k in sessionsByKey ensures SessionOf(k) == old(SessionOf(k)) {
        assert FieldsOf(k) == old(FieldsOf(k));
      }
    }

    twostate lemma SameSessions()
      requires old(Valid()) && Valid() && sessionsByKey == old(sessionsByKey) && live == old(live) && current == old(current)
      requires unchanged(sessionsByKey.Values) && unchanged(old(containers))
      ensures View().sessions == old(View()).sessions
    {
      forall k | k in sessionsByKey ensures SessionOf(k) == old(SessionOf(k)) {
        assert FieldsOf(k) == old(FieldsOf(k));
      }
    }

    constructor (idle: W.Snapshot)
      ensures Valid() && W.State(View(), Loaded()) == W.State(W.World(map[], None, idle), None)
    {
      var state, made := CreateState(None);
      live, current, authority := state, null, None;
      sessionsByKey, activeKey, snapshot := map[], None, idle;
      containers := {};
    }

    /** The first half of opening an Agent. */
    method Leave(loading: W.Snapshot)
      requires Valid()
      modifies this, sessionsByKey.Values
      ensures Valid() && sessionsByKey == old(sessionsByKey) && containers == old(containers)
      ensures W.State(View(), Loaded()) == W.Next(W.State(old(View()), old(Loaded())), W.Leave(loading))
    {
      if current != null {
        Capture();
        Unload();
      }
      SetScreen(None, loading);
    }

    twostate lemma ViewWith(key: W.Key)
      requires old(Valid()) && Valid() && sessionsByKey.Keys == old(sessionsByKey.Keys) + {key}
      requires key !in old(sessionsByKey) && activeKey == old(activeKey) && snapshot == old(snapshot)
      requires forall k :: k in old(sessionsByKey) ==> SessionOf(k) == old(SessionOf(k))
      ensures View() == old(View()).(sessions := old(View()).sessions[key := SessionOf(key)])
    {
      assert View().sessions == old(View()).sessions[key := SessionOf(key)];
    }

    method AddRecord(record: SessionRecord, ghost made: set<Container>)
      requires Valid() && current == null && record.key !in sessionsByKey && containers <= made
      requires Full(record.state) && Owned(record.state, record.key, made) && Read(record.state) == W.FRESH
      modifies this`sessionsByKey, this`containers
      ensures Valid() && containers == made && sessionsByKey == old(sessionsByKey)[record.key := record]
      ensures View() == old(View()).(sessions := old(View()).sessions[record.key := W.Session(W.FRESH, record.snapshot)])
    {
      containers := made;
      sessionsByKey := sessionsByKey[record.key := record];
      forall k | k in old(sessionsByKey) ensures SessionOf(k) == old(SessionOf(k)) {
        assert FieldsOf(k) == old(FieldsOf(k));
      }
      assert FieldsOf(record.key) == record.state;
      assert SessionOf(record.key) == W.Session(W.FRESH, record.snapshot);
      ViewWith(record.key);
    }

    /** `#createSessionRecord` for a session that has no record yet. */
    method CreateSessionRecord(key: W.Key, loading: W.Snapshot) returns (record: SessionRecord)
      requires Valid() && current == null && key !in sessionsByKey
      modifies this`sessionsByKey, this`containers
      ensures Valid() && fresh(record) && sessionsByKey == old(sessionsByKey)[key := record] && record.key == key
      ensures old(containers) <= containers && fresh(containers - old(containers))
      ensures View() == old(View()).(sessions := old(View()).sessions[key := W.Session(W.FRESH, loading)])
    {
      var state, made := CreateState(Some(key));
      record := new SessionRecord(key, state, loading);
      AddRecord(record, containers + made);
    }

    /** The second half of opening an Agent; `openPromise` admits one opening at a time, so nothing is loaded. */
    method Enter(key: W.Key, loading: W.Snapshot)
      requires Valid() && current == null
      modifies this
      ensures Valid()
      ensures fresh(sessionsByKey.Values - old(sessionsByKey.Values))
      ensures old(containers) <= containers && fresh(containers - old(containers))
      ensures W.State(View(), Loaded()) == W.Next(W.State(old(View()), None), W.Enter(key, loading))
    {
      var record;
      if key in sessionsByKey {
        record := sessionsByKey[key];
      } else {
        record := CreateSessionRecord(key, loading);
        assert sessionsByKey.Values <= old(sessionsByKey.Values) + {record};
        assert forall r :: r in old(sessionsByKey.Values) ==> old(sessionsByKey)[r.key] == r;
      }
      SetScreen(Some(key), snapshot);
      Restore(record);
    }

    method Reset(idle: W.Snapshot)
      requires Valid()
      modifies this
      ensures Valid() && sessionsByKey == map[] && containers == {}
      ensures W.State(View(), Loaded()) == W.Next(W.State(old(View()), old(Loaded())), W.Reset(idle))
    {
      sessionsByKey, authority, current, activeKey := map[], None, null, None;
      var empty, made := CreateState(None);
      var copy := CopyFields(empty, live);
      live := copy;
      snapshot := idle;
      containers := {};
    }

    method Perform(step: W.Step)
      requires Valid()
      modifies this, sessionsByKey.Values, containers
      ensures Valid() && fresh(sessionsByKey.Values - old(sessionsByKey.Values)) && fresh(containers - old(containers))
      ensures W.State(View(), Loaded()) == W.Next(W.State(old(View()), old(Loaded())), step)
    {
      match step {
        case Notify(key, work) =>
          if key in sessionsByKey {
            var threw := WithSessionRecord(sessionsByKey[key], work);
          }
        case OnLoaded(work) =>
          if current != null {
            var threw := Do(work);
          }
        case Leave(loading) => Leave(loading);
        case Enter(key, loading) =>
          if current == null {
            Enter(key, loading);
          }
        case Reset(idle) => Reset(idle);
      }
    }

    /** Over any run of steps the shared live fields behave as if every session had a state of its own. */
    method PerformAll(steps: seq<W.Step>)
      requires Valid()
      modifies this, sessionsByKey.Values, containers
      ensures Valid()
      ensures W.State(View(), Loaded()) == W.Run(W.State(old(View()), old(Loaded())), steps)
    {
      ghost var start := W.State(View(), Loaded());
      for k := 0 to |steps|
        invariant Valid()
        invariant fresh(sessionsByKey.Values - old(sessionsByKey.Values)) && fresh(containers - old(containers))
        invariant W.Run(W.State(View(), Loaded()), steps[k..]) == W.Run(start, steps)
      {
        assert steps[k..][1..] == steps[k + 1..];
        Perform(steps[k]);
      }
    }
  }
}
