/**
 `wait_stable`: waiting until the grid has been unchanged for a window, bounded by a deadline
 (crates/codegen/ptyctl/src/wait.rs). Time, bumps of the generation and the polls of `select!` interleave
 freely; when both of its branches are ready, `select!` may take either.
 */
module StableWait {

  /** `Looping`: about to mark the generation seen. `Waiting`: in `select!`. */
  datatype Phase = Looping | Waiting | Matched | TimedOut(ended: bool)

  datatype State = State(
    window: nat,
    deadline: nat,
    now: nat,
    generation: nat,
    senderAlive: bool,
    phase: Phase,
    seen: nat,
    windowEnd: nat,
    senderGone: bool,
    // History: when the generation was last bumped and last marked, and how often it was marked.
    bumpedAt: nat,
    markedAt: nat,
    rounds: nat)

  predicate Initial(s: State) {
    s == State(s.window, s.deadline, s.now, s.generation, s.senderAlive, Looping, s.generation, 0, false, s.now, s.now, 0)
  }

  datatype Step = Tick(time: nat) | Bump | SenderDrops | Mark | ChangedFires | ClosedFires | SleepFires

  function WakeUp(s: State): nat {
    if s.windowEnd < s.deadline then s.windowEnd else s.deadline
  }

  predicate ChangedReady(s: State) {
    !s.senderGone && s.generation != s.seen
  }

  predicate Enabled(s: State, step: Step) {
    match step
    case Tick(_) => true
    case Bump => s.senderAlive
    case SenderDrops => s.senderAlive
    case Mark => s.phase.Looping?
    case ChangedFires => s.phase.Waiting? && ChangedReady(s)
    case ClosedFires => s.phase.Waiting? && !s.senderGone && s.generation == s.seen && !s.senderAlive
    case SleepFires => s.phase.Waiting? && s.now >= WakeUp(s)
  }

  /** Activity restarts the window unless the wait is out of time. */
  function Restart(s: State): State {
    s.(phase := if s.now >= s.deadline then TimedOut(s.senderGone) else Looping)
  }

  function Next(s: State, step: Step): State {
    match step
    case Tick(time) => s.(now := s.now + time)
    case Bump => s.(generation := s.generation + 1, bumpedAt := s.now)
    case SenderDrops => s.(senderAlive := false)
    case Mark =>
      s.(seen := s.generation, windowEnd := s.now + s.window, markedAt := s.now, phase := Waiting, rounds := s.rounds + 1)
    case ChangedFires => Restart(s.(seen := s.generation))
    case ClosedFires => Restart(s.(senderGone := true))
    case SleepFires => s.(phase := if s.windowEnd <= s.deadline then Matched else TimedOut(s.senderGone))
  }

  ghost predicate IsPath(states: seq<State>, steps: seq<Step>) {
    && |states| == |steps| + 1
    && (forall i :: 0 <= i < |steps| ==> Enabled(states[i], steps[i]) && states[i + 1] == Next(states[i], steps[i]))
  }

  ghost predicate IsRun(states: seq<State>, steps: seq<Step>) {
    IsPath(states, steps) && Initial(states[0])
  }

  ghost predicate Inv(s: State, first: State) {
    && s.window == first.window && s.deadline == first.deadline
    && s.markedAt <= s.now && s.bumpedAt <= s.now && first.generation <= s.seen <= s.generation
    && (s.phase.Waiting? ==> s.windowEnd == s.markedAt + s.window)
    // The version in `seen` was marked in this round: equal means no bump since, different means a bump since.
    && (s.phase.Waiting? && s.generation == s.seen ==> s.bumpedAt <= s.markedAt)
    && (s.generation != s.seen ==> s.bumpedAt >= s.markedAt)
    && (s.senderGone ==> !s.senderAlive)
    && (s.senderGone && s.phase.Waiting? ==> s.generation == s.seen)
    && (s.phase.TimedOut? ==> s.deadline <= s.now && (s.phase.ended ==> !s.senderAlive))
    && s.rounds <= s.seen - first.generation + (if s.senderGone then 1 else 0) + (if s.phase.Looping? then 0 else 1)
  }

  lemma StepKeepsInv(s: State, step: Step, first: State)
    requires Inv(s, first) && Enabled(s, step)
    ensures Inv(Next(s, step), first)
  {
  }

  lemma {:induction false} RunKeepsInv(states: seq<State>, steps: seq<Step>, i: nat)
    requires IsRun(states, steps) && i < |states|
    ensures Inv(states[i], states[0])
  {
    if i > 0 {
      RunKeepsInv(states, steps, i - 1);
      StepKeepsInv(states[i - 1], steps[i - 1], states[0]);
    }
  }

  /** Step i of a path announces a match. */
  ghost predicate Matches(states: seq<State>, steps: seq<Step>, i: nat) {
    IsPath(states, steps) && i < |steps| && steps[i].SleepFires? && states[i + 1].phase.Matched?
  }

  /** What a match announces: the generation was not bumped for a whole window. */
  predicate Quiet(s: State) {
    s.bumpedAt + s.window <= s.now
  }

  /** A match is announced a full window after the last mark, and that window ends within the deadline. */
  lemma MatchComesAfterWindow(states: seq<State>, steps: seq<Step>, i: nat)
    requires IsRun(states, steps) && Matches(states, steps, i)
    ensures states[i].markedAt + states[0].window <= states[i].now
    ensures states[i].markedAt + states[0].window <= states[0].deadline
  {
    RunKeepsInv(states, steps, i);
  }

  // ---------------------------------------------------------------- timers polled on time

  /** The clock does not run past the moment at which a waiting `select!` is due. */
  predicate PolledOnTime(s: State, step: Step) {
    step.Tick? && s.phase.Waiting? && s.now <= WakeUp(s) ==> s.now + step.time <= WakeUp(s)
  }

  lemma {:induction false} NotOverdue(states: seq<State>, steps: seq<Step>, i: nat)
    requires IsRun(states, steps) && i < |states|
    requires forall k :: 0 <= k < i ==> PolledOnTime(states[k], steps[k])
    ensures states[i].phase.Waiting? && states[i].windowEnd <= states[i].deadline ==> states[i].now <= states[i].windowEnd
  {
    if i > 0 {
      NotOverdue(states, steps, i - 1);
      RunKeepsInv(states, steps, i - 1);
    }
  }

  /** With timers polled on time a match comes exactly when its window ends, and so within the deadline. */
  lemma OnTimeMatchIsWithinDeadline(states: seq<State>, steps: seq<Step>, i: nat)
    requires IsRun(states, steps) && Matches(states, steps, i)
    requires forall k :: 0 <= k < i ==> PolledOnTime(states[k], steps[k])
    ensures states[i].now == states[i].markedAt + states[0].window <= states[0].deadline
  {
    RunKeepsInv(states, steps, i);
    NotOverdue(states, steps, i);
  }

  // ---------------------------------------------------------------- when a match can be untrue

  /** If `select!` never takes the timer while a change is ready, every match is true. */
  lemma PoliteMatchesAreTrue(states: seq<State>, steps: seq<Step>, i: nat)
    requires IsRun(states, steps) && Matches(states, steps, i)
    requires !ChangedReady(states[i])
    ensures Quiet(states[i])
  {
    RunKeepsInv(states, steps, i);
  }

  /**
   The states from which an untrue match is still possible: the window is not empty, can end within the
   deadline, and either the feeder is alive to bump late, or an unseen bump is too recent for the timer.
   */
  predicate CanMislead(s: State) {
    && s.window > 0
    && match s.phase
       case Looping => s.senderAlive && s.now + s.window <= s.deadline
       case Waiting =>
         && s.windowEnd <= s.deadline
         && (s.senderAlive || (ChangedReady(s) && s.bumpedAt + s.window > s.now && s.bumpedAt + s.window > s.windowEnd))
       case _ => false
  }

  lemma StepsDoNotCreateDoubt(s: State, step: Step, first: State)
    requires Inv(s, first) && Enabled(s, step) && !CanMislead(s)
    ensures !CanMislead(Next(s, step))
    ensures Next(s, step).phase.Matched? && step.SleepFires? ==> Quiet(s)
  {
  }

  lemma {:induction false} NoDoubtArises(states: seq<State>, steps: seq<Step>, first: State, i: nat)
    requires IsPath(states, steps) && i < |states| && Inv(states[0], first) && !CanMislead(states[0])
    ensures Inv(states[i], first) && !CanMislead(states[i])
  {
    if i > 0 {
      NoDoubtArises(states, steps, first, i - 1);
      StepKeepsInv(states[i - 1], steps[i - 1], first);
      StepsDoNotCreateDoubt(states[i - 1], steps[i - 1], first);
    }
  }

  /** Some continuation from s announces a match although the generation was bumped within the window. */
  ghost predicate UntrueMatchFrom(s: State) {
    exists states: seq<State>, steps: seq<Step>, i: nat ::
      states != [] && states[0] == s && Matches(states, steps, i) && !Quiet(states[i])
  }

  function WhenDue(s: State): nat {
    if s.now >= s.windowEnd then 0 else s.windowEnd - s.now
  }

  lemma WaitingCanMislead(s: State)
    requires s.phase.Waiting? && CanMislead(s)
    ensures UntrueMatchFrom(s)
  {
    var s1 := Next(s, Tick(WhenDue(s)));
    if s.senderAlive {
      var s2 := Next(s1, Bump);
      var states, steps := [s, s1, s2, Next(s2, SleepFires)], [Tick(WhenDue(s)), Bump, SleepFires];
      assert Matches(states, steps, 2) && !Quiet(states[2]);
    } else {
      var states, steps := [s, s1, Next(s1, SleepFires)], [Tick(WhenDue(s)), SleepFires];
      assert Matches(states, steps, 1) && !Quiet(states[1]);
    }
  }

  lemma LoopingCanMislead(s: State)
    requires s.phase.Looping? && CanMislead(s)
    ensures UntrueMatchFrom(s)
  {
    var s1 := Next(s, Mark);
    var s2 := Next(s1, Tick(s.window));
    var s3 := Next(s2, Bump);
    var states, steps := [s, s1, s2, s3, Next(s3, SleepFires)], [Mark, Tick(s.window), Bump, SleepFires];
    assert Matches(states, steps, 3) && !Quiet(states[3]);
  }

  /** From a reachable state a later match can be untrue if and only if `CanMislead` holds there. */
  lemma UntrueMatchIff(states: seq<State>, steps: seq<Step>, i: nat)
    requires IsRun(states, steps) && i < |states|
    ensures UntrueMatchFrom(states[i]) <==> CanMislead(states[i])
  {
    var s := states[i];
    RunKeepsInv(states, steps, i);
    if CanMislead(s) {
      if s.phase.Waiting? { WaitingCanMislead(s); } else { LoopingCanMislead(s); }
    }
    if UntrueMatchFrom(s) && !CanMislead(s) {
      var later, more, k: nat :| later != [] && later[0] == s && Matches(later, more, k) && !Quiet(later[k]);
      NoDoubtArises(later, more, states[0], k);
      StepsDoNotCreateDoubt(later[k], more[k], states[0]);
    }
  }

  /** A timeout is never early, and `ended` is only reported once the feeder is gone. */
  lemma TimeoutIsDue(states: seq<State>, steps: seq<Step>, i: nat)
    requires IsRun(states, steps) && i < |states| && states[i].phase.TimedOut?
    ensures states[0].deadline <= states[i].now
    ensures states[i].phase.ended ==> !states[i].senderAlive
  {
    RunKeepsInv(states, steps, i);
  }

  /** Once the deadline has passed, the next branch that `select!` takes ends the wait. */
  lemma DeadlineEndsTheWait(s: State, step: Step)
    requires s.phase.Waiting? && s.now >= s.deadline && Enabled(s, step)
    requires step.ChangedFires? || step.ClosedFires? || step.SleepFires?
    ensures Next(s, step).phase.Matched? || Next(s, step).phase.TimedOut?
    ensures Next(s, step).phase.Matched? <==> step.SleepFires? && s.windowEnd <= s.deadline
  {
  }

  /** Some branch can always be taken then: a wait does not outlive its deadline. */
  lemma DeadlineLetsTheWaitEnd(s: State)
    requires s.phase.Waiting? && s.now >= s.deadline
    ensures Enabled(s, SleepFires)
  {
  }

  /** Every further round is paid for by a bump or by the one closure: without activity the loop does not spin. */
  lemma RoundsAreBounded(states: seq<State>, steps: seq<Step>, i: nat)
    requires IsRun(states, steps) && i < |states|
    ensures states[i].rounds <= states[i].generation - states[0].generation + 2
  {
    RunKeepsInv(states, steps, i);
  }

  /** Every wait with a window that can end in time is exposed: a late bump can be overlooked at once. */
  lemma LateBumpIsOverlooked(s: State)
    requires Initial(s) && s.senderAlive && 0 < s.window && s.now + s.window <= s.deadline
    ensures UntrueMatchFrom(s)
  {
    LoopingCanMislead(s);
  }
}
