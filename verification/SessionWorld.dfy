/**
 What `#withSessionRecord` stands for: every session has its own state, and a piece of work names the
 session it is done on (desktop/src/conversation-controller.js). No loading, storing or sharing here;
 module SessionRecords proves that the swapping of live fields comes to exactly this.
 */
module SessionWorld {
  import opened Common

  type Key = nat
  type Snapshot = string

  /** The fields of the controller that belong to the loaded session. */
  datatype Field =
    | Messages | MessageCounter | SeenInterjectionIds | TranscriptTruncated | Activities | ActivityByToolCallId
    | ActivityCounter | BackgroundTasks | BackgroundTaskByPrivateId | BackgroundTaskCounter | BackgroundStatus
    | PlanEntries | PlanStatus | PlanRefreshGeneration | PlanRefreshPromise | PlanRefreshQueued | Artifacts
    | ArtifactStatus | Project | ProjectStatus | PermissionInteraction | QueueRevision | QueueEntries
    | QueueRunningPromptId | QueuePublicIds | QueuePrivateIds | QueuePublicCounter | Submissions | QueueMutation
    | CancelRequested | CancelTargetPromptId

  datatype Scalar = Null | Flag(flag: bool) | Number(n: int) | Text(text: string)

  /** What a field says: a scalar, or the contents of the array, map, set or object it refers to. */
  datatype Content = Plain(scalar: Scalar) | Holds(items: seq<string>)

  type Contents = map<Field, Content>

  /** The state a new session starts with. */
  function Initial(f: Field): Content {
    match f
    case MessageCounter | ActivityCounter | BackgroundTaskCounter | PlanRefreshGeneration | QueuePublicCounter =>
      Plain(Number(0))
    case TranscriptTruncated | PlanRefreshQueued | CancelRequested => Plain(Flag(false))
    case BackgroundStatus | PlanStatus | ArtifactStatus | ProjectStatus => Plain(Text("ready"))
    case PlanRefreshPromise | Project | PermissionInteraction | QueueRunningPromptId | QueueMutation
         | CancelTargetPromptId => Plain(Null)
    case QueueRevision => Plain(Number(-1))
    case _ => Holds([])
  }

  datatype Session = Session(contents: Contents, snapshot: Snapshot)

  /** `active` is the session on screen and `shown` the snapshot on screen. */
  datatype World = World(sessions: map<Key, Session>, active: Option<Key>, shown: Snapshot)

  /** A field nobody has set reads as nothing. */
  function Held(c: Contents, f: Field): Content {
    if f in c then c[f] else Plain(Null)
  }

  /**
   The code run on a session between two awaits. Functions in it read whatever the session holds.
   `Mutate` changes a container where it is, `Replace` puts a new one, `Within` is `#withSessionRecord`
   and `Throw` any exception.
   */
  datatype Work =
    | Mutate(field: Field, change: Contents -> seq<string>)
    | Replace(field: Field, make: Contents -> seq<string>)
    | Assign(field: Field, value: Contents -> Scalar)
    | Publish(project: (Contents, Snapshot) -> Snapshot)
    | Within(key: Key, body: Work)
    | Then(first: Work, second: Work)
    | If(condition: Contents -> bool, yes: Work, no: Work)
    | Attempt(body: Work)
    | Throw

  datatype Outcome = Outcome(world: World, threw: bool)

  function SetField(w: World, key: Key, f: Field, c: Content): World
    requires key in w.sessions
  {
    w.(sessions := w.sessions[key := w.sessions[key].(contents := w.sessions[key].contents[f := c])])
  }

  function PublishOn(w: World, key: Key, s: Snapshot): World
    requires key in w.sessions
  {
    w.(sessions := w.sessions[key := w.sessions[key].(snapshot := s)],
       shown := if w.active == Some(key) then s else w.shown)
  }

  /** The meaning of work done while session `key` is loaded. */
  function Apply(work: Work, key: Key, w: World): (r: Outcome)
    requires key in w.sessions
    ensures r.world.sessions.Keys == w.sessions.Keys && r.world.active == w.active
    decreases work, 0
  {
    match work
    case Mutate(f, change) =>
      var held := w.sessions[key].contents;
      if Held(held, f).Plain? then Outcome(w, true) else Outcome(SetField(w, key, f, Holds(change(held))), false)
    case Replace(f, make) => Outcome(SetField(w, key, f, Holds(make(w.sessions[key].contents))), false)
    case Assign(f, value) => Outcome(SetField(w, key, f, Plain(value(w.sessions[key].contents))), false)
    case Publish(project) => Outcome(PublishOn(w, key, project(w.sessions[key].contents, w.shown)), false)
    case Within(k, body) => if k !in w.sessions then Outcome(w, false) else Switched(body, k, Some(key), w)
    case Then(first, second) =>
      var r := Apply(first, key, w);
      if r.threw then r else Apply(second, key, r.world)
    case If(condition, yes, no) =>
      if condition(w.sessions[key].contents) then Apply(yes, key, w) else Apply(no, key, w)
    case Attempt(body) => Apply(body, key, w).(threw := false)
    case Throw => Outcome(w, true)
  }

  /** Work on `key` while `loaded` is loaded: the snapshot on screen is put back afterwards. */
  function Switched(work: Work, key: Key, loaded: Option<Key>, w: World): (r: Outcome)
    requires key in w.sessions
    ensures r.world.sessions.Keys == w.sessions.Keys && r.world.active == w.active
    decreases work, 1
  {
    if loaded == Some(key) then Apply(work, key, w)
    else
      var r := Apply(work, key, w.(shown := w.sessions[key].snapshot));
      r.(world := r.world.(shown := w.shown))
  }

  /** The sessions that a piece of work started on `key` can reach. */
  function Reach(work: Work, key: Key): set<Key> {
    match work
    case Within(k, body) => Reach(body, k)
    case Then(first, second) => Reach(first, key) + Reach(second, key)
    case If(_, yes, no) => Reach(yes, key) + Reach(no, key)
    case Attempt(body) => Reach(body, key)
    case Throw => {}
    case _ => {key}
  }

  /** Work changes no session it does not name. */
  lemma {:induction false} OnlyReachedChange(work: Work, key: Key, w: World, other: Key)
    requires key in w.sessions && other in w.sessions && other !in Reach(work, key)
    ensures Apply(work, key, w).world.sessions[other] == w.sessions[other]
    decreases work
  {
    match work
    case Within(k, body) =>
      if k in w.sessions {
        OnlyReachedChange(body, k, if k == key then w else w.(shown := w.sessions[k].snapshot), other);
      }
    case Then(first, second) =>
      OnlyReachedChange(first, key, w, other);
      var r := Apply(first, key, w);
      if !r.threw { OnlyReachedChange(second, key, r.world, other); }
    case If(condition, yes, no) =>
      if condition(w.sessions[key].contents) {
        OnlyReachedChange(yes, key, w, other);
      } else {
        OnlyReachedChange(no, key, w, other);
      }
    case Attempt(body) => OnlyReachedChange(body, key, w, other);
    case _ =>
  }

  /** Work that reaches only a session in the background leaves the screen alone. */
  lemma {:induction false} BackgroundWorkIsNotShown(work: Work, key: Key, w: World)
    requires key in w.sessions && (w.active.Some? ==> w.active.value !in Reach(work, key))
    ensures Apply(work, key, w).world.shown == w.shown
    decreases work
  {
    match work
    case Within(k, body) =>
      if k in w.sessions && k == key { BackgroundWorkIsNotShown(body, key, w); }
    case Then(first, second) =>
      BackgroundWorkIsNotShown(first, key, w);
      var r := Apply(first, key, w);
      if !r.threw { BackgroundWorkIsNotShown(second, key, r.world); }
    case If(condition, yes, no) =>
      if condition(w.sessions[key].contents) {
        BackgroundWorkIsNotShown(yes, key, w);
      } else {
        BackgroundWorkIsNotShown(no, key, w);
      }
    case Attempt(body) => BackgroundWorkIsNotShown(body, key, w);
    case _ =>
  }

  /** Only the snapshot of this session changes, and the screen shows it if and only if the session is on screen. */
  ghost predicate ShowsFor(w: World, key: Key, snapshot: Snapshot, t: World)
    requires key in w.sessions
  {
    && t.sessions.Keys == w.sessions.Keys && t.active == w.active
    && t.sessions[key] == w.sessions[key].(snapshot := snapshot)
    && (forall k :: k in w.sessions && k != key ==> t.sessions[k] == w.sessions[k])
    && t.shown == (if w.active == Some(key) then snapshot else w.shown)
  }

  lemma PublishOnShows(w: World, key: Key, snapshot: Snapshot)
    requires key in w.sessions
    ensures ShowsFor(w, key, snapshot, PublishOn(w, key, snapshot))
  {
  }

  /** Publishing keeps the projection of what the session holds with that session. */
  lemma PublishShows(work: Work, key: Key, w: World)
    requires key in w.sessions && work.Publish?
    ensures ShowsFor(w, key, work.project(w.sessions[key].contents, w.shown), Apply(work, key, w).world)
  {
    PublishOnShows(w, key, work.project(w.sessions[key].contents, w.shown));
    match work
    case Publish(_) =>
  }

  /** Only this field of this session changes, and this is what it holds then. */
  ghost predicate StoresIn(w: World, key: Key, f: Field, c: Content, t: World)
    requires key in w.sessions
  {
    && t == w.(sessions := t.sessions) && t.sessions.Keys == w.sessions.Keys
    && (forall k :: k in w.sessions && k != key ==> t.sessions[k] == w.sessions[k])
    && t.sessions[key].snapshot == w.sessions[key].snapshot
    && (forall g :: g != f ==> Held(t.sessions[key].contents, g) == Held(w.sessions[key].contents, g))
    && Held(t.sessions[key].contents, f) == c
  }

  lemma SetFieldStores(w: World, key: Key, f: Field, c: Content)
    requires key in w.sessions
    ensures StoresIn(w, key, f, c, SetField(w, key, f, c))
  {
  }

  /** A change in place needs a container, and stores what it makes of the contents; the others store what they make. */
  lemma WorkStores(work: Work, key: Key, w: World)
    requires key in w.sessions && (work.Mutate? || work.Replace? || work.Assign?)
    ensures var held, r := w.sessions[key].contents, Apply(work, key, w);
      if work.Mutate? && Held(held, work.field).Plain? then r == Outcome(w, true)
      else
        && !r.threw
        && (work.Mutate? ==> StoresIn(w, key, work.field, Holds(work.change(held)), r.world))
        && (work.Replace? ==> StoresIn(w, key, work.field, Holds(work.make(held)), r.world))
        && (work.Assign? ==> StoresIn(w, key, work.field, Plain(work.value(held)), r.world))
  {
    var held := w.sessions[key].contents;
    match work
    case Mutate(f, change) => SetFieldStores(w, key, f, Holds(change(held)));
    case Replace(f, make) => SetFieldStores(w, key, f, Holds(make(held)));
    case Assign(f, value) => SetFieldStores(w, key, f, Plain(value(held)));
  }

  /** The screen shows what the session on screen published last. */
  predicate ScreenIsTrue(w: World) {
    w.active.Some? && w.active.value in w.sessions ==> w.shown == w.sessions[w.active.value].snapshot
  }

  /** No session that the work enters from `key` leads back to `key`. */
  predicate NeverComesBack(work: Work, key: Key) {
    match work
    case Within(k, body) => if k == key then NeverComesBack(body, key) else key !in Reach(body, k)
    case Then(first, second) => NeverComesBack(first, key) && NeverComesBack(second, key)
    case If(_, yes, no) => NeverComesBack(yes, key) && NeverComesBack(no, key)
    case Attempt(body) => NeverComesBack(body, key)
    case _ => true
  }

  /** Work on the session on screen keeps the screen true, as long as it does not come back to it from another session. */
  lemma {:induction false} ScreenStaysTrue(work: Work, key: Key, w: World)
    requires key in w.sessions && w.active == Some(key) && ScreenIsTrue(w) && NeverComesBack(work, key)
    ensures ScreenIsTrue(Apply(work, key, w).world)
    decreases work
  {
    match work
    case Within(k, body) =>
      if k == key {
        ScreenStaysTrue(body, key, w);
      } else if k in w.sessions {
        OnlyReachedChange(body, k, w.(shown := w.sessions[k].snapshot), key);
      }
    case Then(first, second) =>
      ScreenStaysTrue(first, key, w);
      var r := Apply(first, key, w);
      if !r.threw { ScreenStaysTrue(second, key, r.world); }
    case If(condition, yes, no) =>
      if condition(w.sessions[key].contents) {
        ScreenStaysTrue(yes, key, w);
      } else {
        ScreenStaysTrue(no, key, w);
      }
    case Attempt(body) => ScreenStaysTrue(body, key, w);
    case _ =>
  }

  // ---------------------------------------------------------------- whole runs

  /** The loaded session as well; `Notify` is work for a session named by a message from the Host. */
  datatype State = State(world: World, loaded: Option<Key>)

  datatype Step =
    | Notify(key: Key, work: Work)
    | OnLoaded(work: Work)
    | Leave(loading: Snapshot)
    | Enter(key: Key, loading: Snapshot)
    | Reset(idle: Snapshot)

  const FRESH: Contents := map f: Field | true :: Initial(f)

  predicate Consistent(s: State) {
    s.loaded.Some? ==> s.loaded.value in s.world.sessions
  }

  function Next(s: State, step: Step): (r: State)
    requires Consistent(s)
    ensures Consistent(r)
  {
    match step
    case Notify(key, work) =>
      if key !in s.world.sessions then s else s.(world := Switched(work, key, s.loaded, s.world).world)
    case OnLoaded(work) => if s.loaded.None? then s else s.(world := Apply(work, s.loaded.value, s.world).world)
    case Leave(loading) => State(s.world.(active := None, shown := loading), None)
    case Enter(key, loading) =>
      if s.loaded.Some? then s
      else if key in s.world.sessions then State(s.world.(active := Some(key)), Some(key))
      else
        State(s.world.(active := Some(key), sessions := s.world.sessions[key := Session(FRESH, loading)]), Some(key))
    case Reset(idle) => State(World(map[], None, idle), None)
  }

  function Run(s: State, steps: seq<Step>): (r: State)
    requires Consistent(s)
    ensures Consistent(r)
    decreases |steps|
  {
    if steps == [] then s else Run(Next(s, steps[0]), steps[1..])
  }

  /** Whether a step may touch session `key` when `loaded` is loaded. */
  predicate Touches(step: Step, loaded: Option<Key>, key: Key) {
    match step
    case Notify(k, work) => key in Reach(work, k)
    case OnLoaded(work) => loaded.Some? && key in Reach(work, loaded.value)
    case Reset(_) => true
    case _ => false
  }

  predicate Untouched(s: State, steps: seq<Step>, key: Key)
    requires Consistent(s)
    decreases |steps|
  {
    steps == [] || (!Touches(steps[0], s.loaded, key) && Untouched(Next(s, steps[0]), steps[1..], key))
  }

  /** A session keeps its whole state over any run that does not touch it, however often others are loaded. */
  lemma {:induction false} UntouchedSessionsKeepTheirState(s: State, steps: seq<Step>, key: Key)
    requires Consistent(s) && key in s.world.sessions && Untouched(s, steps, key)
    ensures key in Run(s, steps).world.sessions
    ensures Run(s, steps).world.sessions[key] == s.world.sessions[key]
    decreases |steps|
  {
    if steps != [] {
      var w := s.world;
      match steps[0] {
        case Notify(k, work) =>
          if k in w.sessions {
            OnlyReachedChange(work, k, if s.loaded == Some(k) then w else w.(shown := w.sessions[k].snapshot), key);
          }
        case OnLoaded(work) =>
          if s.loaded.Some? { OnlyReachedChange(work, s.loaded.value, w, key); }
        case _ =>
      }
      UntouchedSessionsKeepTheirState(Next(s, steps[0]), steps[1..], key);
    }
  }
}
