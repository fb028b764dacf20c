/** The JSON-RPC client as it runs (desktop/src/host/acp-client.js), proved to take the steps of HostClient. */
module AcpHostClient {
  import opened Common
  import H = HostClient

  const PERSISTENT_START_ATTEMPTS := 2

  class AcpHostClient {
    var child: Option<H.ChildId>
    var pending: seq<nat>
    var incomingPermissions: seq<H.Entry>
    var nextId: nat
    var settled: seq<H.Settlement>
    var closed: seq<H.Closing>
    var sent: seq<H.Wire>
    var events: seq<H.Event>
    var admitted: nat
    var spawned: nat

    function View(): H.State
      reads this
    {
      H.State(child, pending, incomingPermissions, nextId, settled, closed, sent, events, admitted, spawned)
    }

    ghost predicate Valid()
      reads this
    {
      H.Books(View()) && H.Linked(View())
    }

    constructor ()
      ensures Valid() && View() == H.START
    {
      child, pending, incomingPermissions, nextId := None, [], [], 1;
      settled, closed, sent, events, admitted, spawned := [], [], [], [], 0, 0;
    }

    /** The position of x in the pending table, or its size. */
    method FindPending(x: int) returns (k: nat)
      ensures k == H.Find(pending, x)
    {
      k := 0;
      while k < |pending| && pending[k] != x
        invariant k <= |pending|
        invariant forall j :: 0 <= j < k ==> pending[j] != x
      {
        k := k + 1;
      }
    }

    method FindPermission(requestId: H.RequestId) returns (k: nat)
      ensures k == H.FindEntry(incomingPermissions, requestId)
    {
      k := 0;
      while k < |incomingPermissions| && incomingPermissions[k].requestId != requestId
        invariant k <= |incomingPermissions|
        invariant forall j :: 0 <= j < k ==> incomingPermissions[j].requestId != requestId
      {
        k := k + 1;
      }
    }

    method SettleFound(id: int, outcome: H.Outcome)
      modifies this
      ensures View() == H.SettleFound(old(View()), id, outcome)
    {
      var k := FindPending(id);
      if k < |pending| {
        settled := settled + [H.Settlement(pending[k], outcome)];
        pending := pending[..k] + pending[k + 1..];
      }
    }

    method RejectPending(reason: H.Failure)
      modifies this
      ensures View() == H.RejectPending(old(View()), reason)
    {
      for k := 0 to |pending|
        invariant View() == old(View()).(settled := old(settled) + H.Rejections(old(pending)[..k], reason))
      {
        settled := settled + [H.Settlement(pending[k], H.Rejected(reason))];
        assert H.Rejections(old(pending)[..k + 1], reason) ==
               H.Rejections(old(pending)[..k], reason) + [H.Settlement(pending[k], H.Rejected(reason))];
      }
      assert old(pending)[..|pending|] == old(pending);
      pending := [];
    }

    method ResolvePermission(requestId: H.RequestId, option: Option<H.OptionId>, unselected: H.How, writes: bool)
      returns (threw: bool)
      modifies this
      ensures View() == H.ResolvePermission(old(View()), requestId, option, unselected, writes)
      ensures threw <==> sent == old(sent)
    {
      var k := FindPermission(requestId);
      if k == |incomingPermissions| {
        return true;
      }
      var entry := incomingPermissions[k];
      if option.Some? && option.value !in entry.options {
        return true;
      }
      incomingPermissions := incomingPermissions[..k] + incomingPermissions[k + 1..];
      if !writes {
        closed := closed + [H.Closing(entry, H.Unsent)];
        return true;
      }
      sent := sent + [H.Answer(entry.serial, requestId, option)];
      closed := closed + [H.Closing(entry, if option.Some? then H.Selected(option.value) else unselected)];
      var outcome := if option.Some? then H.AsSelected else H.AsUnselected(unselected);
      events := events + [H.Event(entry.serial, requestId, outcome)];
      threw := false;
    }

    method DropIncomingPermission(requestId: H.RequestId)
      modifies this
      ensures var k := H.FindEntry(old(incomingPermissions), requestId);
        View() == if k < |old(incomingPermissions)| then H.Drop(old(View()), k) else old(View())
    {
      var k := FindPermission(requestId);
      if k < |incomingPermissions| {
        var entry := incomingPermissions[k];
        closed := closed + [H.Closing(entry, H.Dropped)];
        events := events + [H.Event(entry.serial, entry.requestId, H.TransportClosed)];
        incomingPermissions := incomingPermissions[..k] + incomingPermissions[k + 1..];
      }
    }

    method Keys() returns (keys: seq<H.RequestId>)
      ensures |keys| == |incomingPermissions|
      ensures forall i :: 0 <= i < |keys| ==> keys[i] == incomingPermissions[i].requestId
    {
      keys := seq(|incomingPermissions|, i requires 0 <= i < |incomingPermissions| reads this =>
        incomingPermissions[i].requestId);
    }

    method ClearIncomingPermissions()
      modifies this
      ensures View() == H.ClearPermissions(old(View()))
    {
      var keys := Keys();
      for k := 0 to |keys|
        invariant incomingPermissions == old(incomingPermissions)[k..]
        invariant H.ClearPermissions(View()) == H.ClearPermissions(old(View()))
      {
        H.ClearAfterDrop(View());
        assert keys[k] == incomingPermissions[0].requestId && H.FindEntry(incomingPermissions, keys[k]) == 0;
        DropIncomingPermission(keys[k]);
        assert incomingPermissions == old(incomingPermissions)[k + 1..];
      }
      H.ClearNothing(View());
    }

    method CancelIncomingPermissions(broken: set<H.RequestId>)
      requires Valid()
      modifies this
      ensures View() == H.CancelPermissions(old(View()), broken)
    {
      var keys := Keys();
      for k := 0 to |keys|
        invariant incomingPermissions == old(incomingPermissions)[k..]
        invariant H.CancelPermissions(View(), broken) == H.CancelPermissions(old(View()), broken)
      {
        assert incomingPermissions[0] == old(incomingPermissions)[k];
        assert H.FindEntry(incomingPermissions, keys[k]) == 0;
        var threw := ResolvePermission(keys[k], None, H.Cancelled, keys[k] !in broken);
        assert incomingPermissions == old(incomingPermissions)[k + 1..];
        if threw {
          assert H.FindEntry(incomingPermissions, keys[k]) == |incomingPermissions|;
          DropIncomingPermission(keys[k]);
        }
      }
    }

    method Request(writable: bool, writes: bool)
      modifies this
      ensures View() == H.IssueRequest(old(View()), writable, writes)
    {
      if child.None? || !writable {
        return;
      }
      var id := nextId;
      nextId := nextId + 1;
      pending := pending + [id];
      if writes {
        sent := sent + [H.Request(id)];
      } else {
        pending := pending[..|pending| - 1];
        settled := settled + [H.Settlement(id, H.Rejected(H.HostUnavailable))];
      }
    }

    method EmitPermissionRequest(requestId: H.RequestId, reaction: H.Reaction, writes: bool)
      modifies this
      ensures View() == H.Announce(old(View()), requestId, reaction, writes)
    {
      match reaction {
        case Nobody => var threw := ResolvePermission(requestId, None, H.Cancelled, writes);
        case Reacts(answer, throws) =>
          if answer.Some? {
            var threw := ResolvePermission(requestId, answer.value, H.Cancelled, writes);
          }
          if throws {
            var k := FindPermission(requestId);
            if k < |incomingPermissions| {
              var threw := ResolvePermission(requestId, None, H.Cancelled, writes);
            }
          }
      }
    }

    method Admit(requestId: H.RequestId, options: seq<H.OptionId>)
      modifies this
      ensures View() == H.Admit(old(View()), requestId, options)
    {
      incomingPermissions := incomingPermissions + [H.Entry(admitted, requestId, options)];
      admitted := admitted + 1;
    }

    method HandlePermissionRequest(m: H.Message, writes: bool)
      requires m.PermissionRequest?
      modifies this
      ensures View() == H.HandlePermissionRequest(old(View()), m, writes)
    {
      var k := FindPermission(m.requestId);
      assert H.Has(View(), m.requestId) <==> k < |incomingPermissions|;
      if !m.wellFormed || m.options == [] || k < |incomingPermissions| {
        if writes {
          sent := sent + [H.Refusal(m.requestId)];
        }
      } else {
        Admit(m.requestId, m.options);
        assert View() == H.Admit(old(View()), m.requestId, m.options);
        EmitPermissionRequest(m.requestId, m.reaction, writes);
      }
    }

    method HandleLine(m: H.Message, writes: bool)
      modifies this
      ensures View() == H.HandleLine(old(View()), m, writes)
    {
      match m {
        case Response(id, outcome) => SettleFound(id, outcome);
        case PermissionRequest(_, _, _, _) => HandlePermissionRequest(m, writes);
        case OtherRequest(requestId) =>
          if writes {
            sent := sent + [H.Refusal(requestId)];
          }
        case Other =>
      }
    }

    /** `#handleExit`, and the same work in the failure branch of `#spawnAndInitialize`. */
    method HandleExit(gone: H.ChildId, reason: H.Failure)
      modifies this
      ensures View() == H.Next(old(View()), H.Exit(gone, reason))
    {
      if child != Some(gone) {
        return;
      }
      child := None;
      ClearIncomingPermissions();
      RejectPending(reason);
    }

    method Stop(broken: set<H.RequestId>)
      requires Valid()
      modifies this
      ensures View() == H.Next(old(View()), H.Stop(broken))
    {
      CancelIncomingPermissions(broken);
      child := None;
      RejectPending(H.HostStopped);
    }

    /** Any of the steps. */
    method Perform(step: H.Step)
      requires Valid()
      modifies this
      ensures Valid() && View() == H.Next(old(View()), step)
    {
      H.StepKeepsBooks(View(), step);
      H.StepKeepsLinked(View(), step);
      Take(step);
    }

    method Take(step: H.Step)
      requires Valid()
      modifies this
      ensures View() == H.Next(old(View()), step)
    {
      match step {
        case Spawn(writable, writes) =>
          child, spawned := Some(spawned), spawned + 1;
          Request(writable, writes);
        case StartFailed(c, reason) => HandleExit(c, reason);
        case Issue(writable, writes) => Request(writable, writes);
        case Line(c, m, writes) =>
          if child == Some(c) {
            HandleLine(m, writes);
          }
        case Exit(c, reason) => HandleExit(c, reason);
        case Stop(broken) => Stop(broken);
        case RequestTimer(id) => SettleFound(id, H.Rejected(H.HostTimeout));
        case PermissionTimer(requestId, writes) =>
          var threw := ResolvePermission(requestId, None, H.Expired, writes);
        case Respond(requestId, option, writes) =>
          var threw := ResolvePermission(requestId, option, H.Cancelled, writes);
      }
    }
  }

  /** What an attempt to start would come to: `None` is success. */
  type Attempt = Option<H.Failure>

  /**
   `#startWithBoundedRetry`: with `outcomes[k]` the outcome of attempt k, at most the allowed number of
   attempts is made, another one only after the Host exited, and the last one decides.
   */
  method StartWithBoundedRetry(persistent: bool, outcomes: seq<Attempt>) returns (made: nat, result: Attempt)
    requires |outcomes| == if persistent then PERSISTENT_START_ATTEMPTS else 1
    ensures 1 <= made <= |outcomes| && result == outcomes[made - 1]
    ensures forall k :: 0 <= k < made - 1 ==> outcomes[k] == Some(H.HostExited)
    ensures result == Some(H.HostExited) ==> made == |outcomes|
  {
    var attempts := if persistent then PERSISTENT_START_ATTEMPTS else 1;
    for attempt := 1 to attempts + 1
      invariant forall k :: 0 <= k < attempt - 1 ==> outcomes[k] == Some(H.HostExited)
      invariant attempt <= attempts
    {
      var outcome := outcomes[attempt - 1];
      if outcome.None? {
        return attempt, None;
      }
      if attempt >= attempts || outcome.value != H.HostExited {
        return attempt, outcome;
      }
    }
  }
}
