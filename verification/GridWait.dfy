/**
 Waiting on the terminal grid: the feeder task, resizes and one waiter, interleaved step by step
 (crates/codegen/ptyctl/src/wait.rs and session.rs). The terminal mutex is held by a resize from its
 grid change to its end; feeding and checking take it for one step. A watch channel reports an
 unseen version before it reports closure.
 */
module GridWait {
  import opened Common

  /** `Fed`: the grid is written, the generation is not yet bumped. `Gone`: the feeder dropped its sender. */
  datatype Feeder = FeederIdle | Fed | Gone

  /** `Resized`: grid written under the lock. `Upgraded`: also holds a sender. `Bumped`: generation bumped. */
  datatype Resizer = ResizerIdle | Resized | Upgraded | Bumped

  /** `Start`: about to mark the generation seen. `Marked`: about to check. `Parked`: in `select!`. */
  datatype Waiter = Start | Marked | Parked | Matched | Ended | TimedOut

  datatype State = State(
    screen: string,
    generation: nat,
    feeder: Feeder,
    resizer: Resizer,
    waiter: Waiter,
    seen: nat,
    // History: chunks fed, resizes, and what the last check saw.
    fed: nat,
    resized: nat,
    checkedScreen: string,
    checkedFed: nat,
    checkedResized: nat)

  predicate Initial(s: State) {
    s == State(s.screen, s.generation, FeederIdle, ResizerIdle, Start, s.generation, 0, 0, s.screen, 0, 0)
  }

  predicate LockFree(s: State) {
    s.resizer.ResizerIdle?
  }

  predicate SenderAlive(s: State) {
    !s.feeder.Gone? || s.resizer.Upgraded? || s.resizer.Bumped?
  }

  datatype Step =
    | Feed(screen: string)
    | FeedBump
    | FeederExits
    | Resize(screen: string)
    | Upgrade
    | ResizeBump
    | ResizeEnds
    | Mark
    | Check
    | Changed
    | Closed
    | Timeout

  predicate Enabled(s: State, step: Step) {
    match step
    case Feed(_) => s.feeder.FeederIdle? && LockFree(s)
    case FeedBump => s.feeder.Fed?
    case FeederExits => s.feeder.FeederIdle?
    case Resize(_) => LockFree(s)
    case Upgrade => s.resizer.Resized?
    case ResizeBump => s.resizer.Upgraded?
    case ResizeEnds => s.resizer.Bumped?
    case Mark => s.waiter.Start?
    case Check => s.waiter.Marked? && LockFree(s)
    case Changed => s.waiter.Parked? && s.generation != s.seen
    case Closed => s.waiter.Parked? && s.generation == s.seen && !SenderAlive(s)
    case Timeout => s.waiter.Parked?
  }

  function Next(s: State, step: Step, met: string -> bool): State {
    match step
    case Feed(screen) => s.(screen := screen, feeder := Fed, fed := s.fed + 1)
    case FeedBump => s.(generation := s.generation + 1, feeder := FeederIdle)
    case FeederExits => s.(feeder := Gone)
    case Resize(screen) => s.(screen := screen, resizer := Resized, resized := s.resized + 1)
    case Upgrade => s.(resizer := if SenderAlive(s) then Upgraded else ResizerIdle)
    case ResizeBump => s.(generation := s.generation + 1, resizer := Bumped)
    case ResizeEnds => s.(resizer := ResizerIdle)
    case Mark => s.(seen := s.generation, waiter := Marked)
    case Check =>
      s.(checkedScreen := s.screen, checkedFed := s.fed, checkedResized := s.resized, waiter := if met(s.screen) then Matched else Parked)
    case Changed => s.(seen := s.generation, waiter := Start)
    case Closed => s.(waiter := Ended)
    case Timeout => s.(waiter := TimedOut)
  }

  predicate IsPath(states: seq<State>, steps: seq<Step>, met: string -> bool) {
    && |states| == |steps| + 1
    && (forall i :: 0 <= i < |steps| ==> Enabled(states[i], steps[i]) && states[i + 1] == Next(states[i], steps[i], met))
  }

  predicate IsRun(states: seq<State>, steps: seq<Step>, met: string -> bool) {
    IsPath(states, steps, met) && Initial(states[0])
  }

  // ---------------------------------------------------------------- no wakeup is lost

  /** Some write to the grid has not been announced by a bump yet. */
  predicate BumpPending(s: State) {
    s.feeder.Fed? || s.resizer.Resized? || s.resizer.Upgraded?
  }

  ghost predicate Inv(s: State, met: string -> bool) {
    && s.seen <= s.generation && s.checkedResized <= s.resized
    && (s.waiter.Parked? ==> !met(s.checkedScreen))
    && (s.waiter.Matched? ==> met(s.checkedScreen))
    // A change since the check is announced, about to be announced, or a resize made after the feeder was gone.
    && (s.waiter.Parked? ==>
          s.screen == s.checkedScreen || s.generation > s.seen || BumpPending(s)
          || (s.feeder.Gone? && s.resized > s.checkedResized))
    && (s.waiter.Parked? ==> s.fed == s.checkedFed || s.generation > s.seen || s.feeder.Fed?)
    && (s.waiter.Parked? && !LockFree(s) ==> s.resized > s.checkedResized)
    && (s.waiter.Ended? ==> s.feeder.Gone? && s.fed == s.checkedFed && !met(s.checkedScreen))
  }

  lemma StepKeepsInv(s: State, step: Step, met: string -> bool)
    requires Inv(s, met) && Enabled(s, step)
    ensures Inv(Next(s, step, met), met)
  {
  }

  lemma {:induction false} RunKeepsInv(states: seq<State>, steps: seq<Step>, met: string -> bool, i: nat)
    requires IsRun(states, steps, met) && i < |states|
    ensures Inv(states[i], met)
  {
    if i > 0 {
      RunKeepsInv(states, steps, met, i - 1);
      StepKeepsInv(states[i - 1], steps[i - 1], met);
    }
  }

  /**
   While the feeder lives, a waiter stays parked with nothing left to wake it only if its condition
   is false on the grid as it is now.
   */
  lemma NoLostWakeup(states: seq<State>, steps: seq<Step>, met: string -> bool, i: nat)
    requires IsRun(states, steps, met) && i < |states|
    requires states[i].waiter.Parked? && !states[i].feeder.Gone?
    requires states[i].generation == states[i].seen && !BumpPending(states[i])
    ensures !met(states[i].screen)
  {
    RunKeepsInv(states, steps, met, i);
  }

  /** `ended` is only reported after a check that saw every chunk ever fed, and that found the condition unmet. */
  lemma EndedSawEverything(states: seq<State>, steps: seq<Step>, met: string -> bool, i: nat)
    requires IsRun(states, steps, met) && i < |states| && states[i].waiter.Ended?
    ensures states[i].feeder.Gone? && states[i].checkedFed == states[i].fed && !met(states[i].checkedScreen)
  {
    RunKeepsInv(states, steps, met, i);
  }

  /** If no resize came since the last check, `ended` is decided on the very screen that was checked. */
  lemma EndedOnFinalGrid(states: seq<State>, steps: seq<Step>, met: string -> bool, i: nat)
    requires IsRun(states, steps, met) && i < |steps| && steps[i].Closed?
    requires states[i].resized == states[i].checkedResized
    ensures states[i].screen == states[i].checkedScreen && !met(states[i].screen)
  {
    RunKeepsInv(states, steps, met, i);
  }

  /** A waiter that has checked and has nothing left to wake it, on a session whose feeder is gone. */
  predicate WaitsForTheEnd(s: State) {
    s.waiter.Parked? && s.feeder.Gone? && s.generation == s.seen && LockFree(s)
  }

  /** From s, `ended` can be reported while the condition holds on the grid. */
  ghost predicate CanEndWhileMet(s: State, met: string -> bool) {
    exists states: seq<State>, steps: seq<Step> ::
      && IsPath(states, steps, met) && states[0] == s && steps != [] && steps[|steps| - 1].Closed?
      && states[|steps|].waiter.Ended? && met(states[|steps|].screen)
  }

  /** And the condition is needed: from every such state a resize to any screen that meets it is not announced. */
  lemma LateResizeIsNotAnnounced(s: State, met: string -> bool, after: string)
    requires WaitsForTheEnd(s) && met(after)
    ensures CanEndWhileMet(s, met)
  {
    var s1 := Next(s, Resize(after), met);
    var s2 := Next(s1, Upgrade, met);
    assert IsPath([s, s1, s2, Next(s2, Closed, met)], [Resize(after), Upgrade, Closed], met);
  }

  /** Without resizes from there on, `ended` is never reported on a grid that meets the condition. */
  lemma {:induction false} QuietEndIsTrue(states: seq<State>, steps: seq<Step>, met: string -> bool, i: nat)
    requires IsPath(states, steps, met) && i < |states| && Inv(states[0], met) && WaitsForTheEnd(states[0])
    requires states[0].screen == states[0].checkedScreen && forall k :: 0 <= k < |steps| ==> !steps[k].Resize?
    ensures Inv(states[i], met) && states[i].screen == states[0].screen && !met(states[i].screen)
    ensures states[i].feeder.Gone?
  {
    if i > 0 {
      QuietEndIsTrue(states, steps, met, i - 1);
      StepKeepsInv(states[i - 1], steps[i - 1], met);
    }
  }

  /** Such states are reached: a wait on a condition that is unmet, and the feeder goes. */
  lemma WaitForTheEndIsReached(met: string -> bool, before: string)
    requires !met(before)
    ensures exists states: seq<State>, steps: seq<Step> ::
      IsRun(states, steps, met) && WaitsForTheEnd(states[|steps|]) && states[|steps|].screen == before
  {
    var s0 := State(before, 0, FeederIdle, ResizerIdle, Start, 0, 0, 0, before, 0, 0);
    var s1 := Next(s0, Mark, met);
    var s2 := Next(s1, Check, met);
    assert IsRun([s0, s1, s2, Next(s2, FeederExits, met)], [Mark, Check, FeederExits], met);
  }

  // ---------------------------------------------------------------- a match is true, and comes

  /** A check decides by the grid as it is: a match if the condition holds, and else the waiter parks. */
  lemma CheckDecides(states: seq<State>, steps: seq<Step>, met: string -> bool, i: nat)
    requires IsRun(states, steps, met) && i < |steps| && steps[i].Check?
    ensures states[i + 1].waiter == if met(states[i].screen) then Matched else Parked
    ensures states[i + 1].screen == states[i].screen == states[i + 1].checkedScreen
  {
  }

  /** A match is reported only after a check that found the condition true on the grid at that moment. */
  lemma {:induction false} MatchWasSeen(states: seq<State>, steps: seq<Step>, met: string -> bool, i: nat)
    requires IsRun(states, steps, met) && i < |states| && states[i].waiter.Matched?
    ensures exists k :: 0 <= k < i && steps[k].Check? && met(states[k].screen)
  {
    if i > 0 {
      assert states[i] == Next(states[i - 1], steps[i - 1], met);
      if states[i - 1].waiter.Matched? {
        MatchWasSeen(states, steps, met, i - 1);
      } else {
        assert steps[i - 1].Check? && met(states[i - 1].screen);
      }
    }
  }

  /** A waiter that an unseen change wakes checks again, and matches if the grid then meets the condition. */
  lemma WokenWaiterSees(s: State, met: string -> bool)
    requires s.waiter.Parked? && s.generation != s.seen && LockFree(s)
    ensures exists states: seq<State>, steps: seq<Step> ::
      && IsPath(states, steps, met) && states[0] == s && steps == [Changed, Mark, Check]
      && states[3].screen == s.screen && states[3].waiter == (if met(s.screen) then Matched else Parked)
  {
    var a := Next(s, Changed, met);
    var b := Next(a, Mark, met);
    assert IsPath([s, a, b, Next(b, Check, met)], [Changed, Mark, Check], met);
  }

  // ---------------------------------------------------------------- the raw tail kept for diagnostics

  const RAW_TAIL_CAP := 2048

  function LastOf(s: seq<int>, n: nat): seq<int> {
    if |s| <= n then s else s[|s| - n..]
  }

  class RawTail {
    var tail: seq<int>

    constructor ()
      ensures tail == []
    {
      tail := [];
    }

    /** `push_raw_tail`: the tail is always the last bytes of everything pushed. */
    method Push(bytes: seq<int>, ghost pushed: seq<int>)
      requires tail == LastOf(pushed, RAW_TAIL_CAP)
      modifies this
      ensures tail == LastOf(pushed + bytes, RAW_TAIL_CAP)
    {
      if |bytes| >= RAW_TAIL_CAP {
        tail := bytes[|bytes| - RAW_TAIL_CAP..];
        return;
      }
      var k := 0;
      while |tail| + |bytes| > RAW_TAIL_CAP
        invariant 0 <= k <= |old(tail)| && tail == old(tail)[k..]
        invariant k > 0 ==> |tail| + |bytes| >= RAW_TAIL_CAP
      {
        tail := tail[1..];
        k := k + 1;
      }
      tail := tail + bytes;
    }
  }
}
