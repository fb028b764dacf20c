/**
 How exactly the sessions of the protocol show what the Host said: the statuses after an applied snapshot,
 over every run in which prompts, sessions, snapshots and reconnects interleave.
 */
module ProtocolSnapshots {
  import opened Common
  import opened Protocol
  import opened ProtocolInvariant
  import opened ProtocolTheorems
  import S = Session
  import A = AttachmentStore
  import SP = SessionProofs
  import QueueSnapshot

  /** In this step the session loses track of a running prompt. */
  ghost predicate ForgetsIn(s: State, step: Step, home: Home)
    requires Enabled(s, step)
  {
    && home in s.sessions && SessionStep(s, step, home).Some?
    && SP.ForgetsRunning(s.sessions[home], SessionStep(s, step, home).value)
  }

  /** Before step i of the run, no step made this session lose track of a running prompt. */
  ghost predicate NeverForgot(states: seq<State>, steps: seq<Step>, i: nat, home: Home)
    requires IsRun(states, steps) && i <= |steps|
  {
    forall k :: 0 <= k < i ==> !ForgetsIn(states[k], steps[k], home)
  }

  lemma {:induction false} SessionsStayFaithful(states: seq<State>, steps: seq<Step>, i: nat, home: Home)
    requires IsRun(states, steps) && i < |states| && home in states[i].sessions
    requires NeverForgot(states, steps, i, home)
    ensures SP.Faithful(states[i].sessions[home])
  {
    if i > 0 {
      assert states[i] == Next(states[i - 1], steps[i - 1]);
      if home in states[i - 1].sessions {
        SessionsStayFaithful(states, steps, i - 1, home);
        RunKeepsInv(states, steps, i - 1);
        SessionsFollow(states[i - 1], steps[i - 1], home);
        var step := SessionStep(states[i - 1], steps[i - 1], home);
        if step.Some? {
          assert !ForgetsIn(states[i - 1], steps[i - 1], home);
          SP.FaithfulStepIff(states[i - 1].sessions[home], step.value);
        }
      }
    }
  }

  /** The step applies a snapshot to the session. */
  predicate AppliesTo(s: State, step: Step, home: Home) {
    && step.Snapshot? && step.home == home && home in s.sessions
    && step.next.queueRevision > s.sessions[home].revision
  }

  /**
   Over every run of the protocol each applied snapshot opens the gate of its session; and as long as no step made
   that session lose track of a running prompt, it shows every submission exactly as the Host does.
   */
  lemma SnapshotsAreExact(states: seq<State>, steps: seq<Step>, i: nat, home: Home)
    requires IsRun(states, steps) && i < |steps| && AppliesTo(states[i], steps[i], home)
    ensures home in states[i + 1].sessions && S.GateOpen(states[i + 1].sessions[home])
    ensures NeverForgot(states, steps, i, home) ==> SP.Exact(states[i + 1].sessions[home])
  {
    assert states[i + 1] == Next(states[i], steps[i]);
    SP.SnapshotOpensGate(states[i].sessions[home], steps[i].next);
    if NeverForgot(states, steps, i, home) {
      SessionsStayFaithful(states, steps, i, home);
      SP.FaithfulSnapshotIsExact(states[i].sessions[home], steps[i].next);
    }
  }

  // ---------------------------------------------------------------- a run that forgets

  ghost predicate Reached(s: State) {
    exists states, steps :: IsRun(states, steps) && states[|steps|] == s
  }

  lemma ReachedNext(s: State, step: Step)
    requires Reached(s) && Enabled(s, step)
    ensures Reached(Next(s, step))
  {
    var states, steps :| IsRun(states, steps) && states[|steps|] == s;
    var states', steps' := states + [Next(s, step)], steps + [step];
    forall i | 0 <= i < |steps'| ensures Enabled(states'[i], steps'[i]) && states'[i + 1] == Next(states'[i], steps'[i]) {
      if i < |steps| { assert states'[i + 1] == states[i + 1] && states'[i] == states[i] && steps'[i] == steps[i]; }
    }
    assert IsRun(states', steps') && states'[|steps'|] == Next(s, step);
  }

  const HOME := Home(0, 0)

  function CallOf(p: PromptId, phase: Phase): Call {
    Call(KeyOf(HOME, p), [], phase)
  }

  /** One session in the state x, no attachments, and these calls for these prompts. */
  ghost predicate Alone(s: State, x: S.State, calls: map<PromptId, Call>, used: set<PromptId>) {
    Reached(s) && s.records == [] && s.sessions == map[HOME := x] && s.calls == calls && s.used == used
  }

  lemma OpenAlone() returns (s: State)
    ensures Alone(s, S.EMPTY, map[], {})
  {
    var start := State(map[], map[], [], [], {}, {});
    assert IsRun([start], []);
    assert Reached(start);
    ReachedNext(start, Open(HOME));
    s := Next(start, Open(HOME));
  }

  lemma SubmitAlone(s: State, x: S.State, calls: map<PromptId, Call>, used: set<PromptId>, p: PromptId)
      returns (t: State)
    requires Alone(s, x, calls, used) && S.GateOpen(x) && p !in used && p !in calls
    ensures Alone(t, S.Apply(x, S.Add(p, [])), calls[p := CallOf(p, InFlight)], used + {p})
  {
    var r := Next(s, Submit(HOME, p, []));
    ReachedNext(s, Submit(HOME, p, []));
    t := Next(r, Ready(p));
    ReachedNext(r, Ready(p));
    assert r.sessions[HOME] == x;
  }

  lemma SnapshotAlone(s: State, x: S.State, calls: map<PromptId, Call>, used: set<PromptId>, next: QueueSnapshot.Snapshot)
      returns (t: State)
    requires Alone(s, x, calls, used) && QueueSnapshot.WellFormed(next) && Elements(S.LiveIds(next)) <= used
    requires forall p :: p in calls ==> !calls[p].phase.Preparing?
    ensures Enabled(s, Snapshot(HOME, next)) && t == Next(s, Snapshot(HOME, next))
    ensures Alone(t, S.Apply(x, S.Snapshot(next)), calls, used)
  {
    t := Next(s, Snapshot(HOME, next));
    ReachedNext(s, Snapshot(HOME, next));
  }

  lemma ReconnectAlone(s: State, x: S.State, calls: map<PromptId, Call>, used: set<PromptId>) returns (t: State)
    requires Alone(s, x, calls, used)
    ensures Alone(t, S.Apply(x, S.HostReconnect), calls, used)
  {
    t := Next(s, HostReconnect);
    ReachedNext(s, HostReconnect);
  }

  lemma CompleteAlone(s: State, x: S.State, calls: map<PromptId, Call>, used: set<PromptId>, p: PromptId)
      returns (t: State)
    requires Alone(s, x, calls, used) && p in calls && calls[p] == CallOf(p, InFlight)
    requires exists y :: y in x.submissions && y.promptId == p && !y.settled
    ensures Alone(t, S.Apply(S.Apply(x, S.CompleteBegins(p)), S.CompleteEnds(p)), calls[p := CallOf(p, Done)], used)
  {
    assert Unsettled(s, p);
    var r := Next(s, Completes(p));
    ReachedNext(s, Completes(p));
    assert r.calls[p] == CallOf(p, Completing) && r.sessions[HOME] == S.Apply(x, S.CompleteBegins(p));
    t := Next(r, CompleteEnds(p));
    ReachedNext(r, CompleteEnds(p));
  }

  const RUNS_1 := QueueSnapshot.Snapshot(1, [], Some(1))

  /** The session states of the run in `SessionProofs`, step by step. */
  lemma ForgettingSteps(xs: seq<S.State>)
    requires SP.ForgettingRun(xs)
    ensures xs[0] == S.EMPTY && xs[1] == S.Apply(xs[0], S.Add(1, [])) && xs[2] == S.Apply(xs[1], S.Snapshot(RUNS_1))
    ensures xs[3] == S.Apply(xs[2], S.Add(2, [])) && xs[4] == S.Apply(xs[3], S.HostReconnect)
    ensures xs[6] == S.Apply(S.Apply(xs[4], S.CompleteBegins(2)), S.CompleteEnds(2))
    ensures xs[7] == S.Apply(xs[6], S.Snapshot(SP.EMPTY_QUEUE))
  {
    assert SP.FORGETTING_STEPS[1] == S.Snapshot(RUNS_1);
    assert forall i :: 0 <= i < 7 ==> xs[i + 1] == S.Apply(xs[i], SP.FORGETTING_STEPS[i]);
    assert xs[1] == S.Apply(xs[0], SP.FORGETTING_STEPS[0]) && xs[2] == S.Apply(xs[1], SP.FORGETTING_STEPS[1]);
    assert xs[3] == S.Apply(xs[2], SP.FORGETTING_STEPS[2]) && xs[4] == S.Apply(xs[3], SP.FORGETTING_STEPS[3]);
    assert xs[5] == S.Apply(xs[4], SP.FORGETTING_STEPS[4]) && xs[6] == S.Apply(xs[5], SP.FORGETTING_STEPS[5]);
    assert xs[7] == S.Apply(xs[6], SP.FORGETTING_STEPS[6]);
  }

  lemma OnePromptRuns(x1: S.State, x2: S.State) returns (s: State)
    requires x1 == S.Apply(S.EMPTY, S.Add(1, [])) && x2 == S.Apply(x1, S.Snapshot(RUNS_1))
    ensures Alone(s, x2, map[1 := CallOf(1, InFlight)], {1})
  {
    var a := OpenAlone();
    var b := SubmitAlone(a, S.EMPTY, map[], {}, 1);
    assert map[][1 := CallOf(1, InFlight)] == map[1 := CallOf(1, InFlight)] && {} + {1} == {1};
    s := SnapshotAlone(b, x1, map[1 := CallOf(1, InFlight)], {1}, RUNS_1);
  }

  /** A second prompt is submitted, the connection is renewed, and the reply to the second prompt arrives. */
  lemma SecondIsReplied(s: State, x2: S.State, x3: S.State, x4: S.State, x6: S.State) returns (t: State)
    requires Alone(s, x2, map[1 := CallOf(1, InFlight)], {1}) && S.GateOpen(x2)
    requires x3 == S.Apply(x2, S.Add(2, [])) && x4 == S.Apply(x3, S.HostReconnect)
    requires exists y :: y in x4.submissions && y.promptId == 2 && !y.settled
    requires x6 == S.Apply(S.Apply(x4, S.CompleteBegins(2)), S.CompleteEnds(2))
    ensures Alone(t, x6, map[1 := CallOf(1, InFlight), 2 := CallOf(2, Done)], {1} + {2})
  {
    var calls := map[1 := CallOf(1, InFlight)];
    var a := SubmitAlone(s, x2, calls, {1}, 2);
    calls := calls[2 := CallOf(2, InFlight)];
    var b := ReconnectAlone(a, x3, calls, {1} + {2});
    t := CompleteAlone(b, x4, calls, {1} + {2}, 2);
    assert calls[2 := CallOf(2, Done)] == map[1 := CallOf(1, InFlight), 2 := CallOf(2, Done)];
  }

  /**
   The exception happens in the protocol: two prompts are submitted, the first runs, the connection is renewed, and
   the reply to the second one arrives before the next snapshot.
   */
  lemma SomeRunForgetsRunning()
    ensures exists s, step :: Reached(s) && Enabled(s, step) && AppliesTo(s, step, HOME)
              && !SP.Exact(Next(s, step).sessions[HOME])
  {
    var xs := SP.ForgettingStates();
    ForgettingSteps(xs);
    SP.ForgettingRunMiddle(xs);
    SP.ForgettingRunReply(xs);
    SP.ForgettingRunEnds(xs);
    var s := OnePromptRuns(xs[1], xs[2]);
    assert xs[4].submissions[1].promptId == 2;
    var t := SecondIsReplied(s, xs[2], xs[3], xs[4], xs[6]);
    LastSnapshot(t, xs[6], xs[7]);
  }

  lemma LastSnapshot(s: State, x6: S.State, x7: S.State)
    requires Alone(s, x6, map[1 := CallOf(1, InFlight), 2 := CallOf(2, Done)], {1} + {2})
    requires x6.revision < 0 && x7 == S.Apply(x6, S.Snapshot(SP.EMPTY_QUEUE)) && !SP.Exact(x7)
    ensures exists s, step :: Reached(s) && Enabled(s, step) && AppliesTo(s, step, HOME)
              && !SP.Exact(Next(s, step).sessions[HOME])
  {
    var calls := map[1 := CallOf(1, InFlight), 2 := CallOf(2, Done)];
    var t := SnapshotAlone(s, x6, calls, {1} + {2}, SP.EMPTY_QUEUE);
    assert AppliesTo(s, Snapshot(HOME, SP.EMPTY_QUEUE), HOME);
  }
}
