/**
 The JSON-RPC client of the Agent Host (desktop/src/host/acp-client.js): its tables, and every
 uninterrupted stretch of its code as a function on values. Promise settlements, lines written to the
 child and finished permission requests are kept as growing lists.
 */
module HostClient {
  import opened Common

  /** A JSON-RPC id chosen by the Host; only equality is used. */
  type RequestId = string
  type OptionId = string
  /** Children are numbered in the order they are spawned. */
  type ChildId = nat

  datatype Failure = HostStopped | HostExited | HostUnavailable | HostTimeout | RequestFailed | BadStart
  datatype Outcome = Resolved(value: string) | Rejected(reason: Failure)
  datatype Settlement = Settlement(id: nat, outcome: Outcome)

  /** A permission request of the Host; `serial` counts the admitted ones. */
  datatype Entry = Entry(serial: nat, requestId: RequestId, options: seq<OptionId>)

  /** How a permission request left the table. `Unsent`: its answer could not be written. `Dropped`: no answer was tried. */
  datatype How = Selected(option: OptionId) | Cancelled | Expired | Unsent | Dropped
  datatype Closing = Closing(entry: Entry, how: How)

  /** A line written to the child; `serial` only tells which admitted request an answer belongs to. */
  datatype Wire =
    | Request(id: nat)
    | Answer(serial: nat, requestId: RequestId, option: Option<OptionId>)
    | Refusal(requestId: RequestId)

  /** A `permission-resolved` event, with the admitted request it speaks of. */
  datatype Resolution = AsSelected | AsCancelled | AsExpired | TransportClosed
  datatype Event = Event(serial: nat, requestId: RequestId, outcome: Resolution)

  datatype State = State(
    child: Option<ChildId>,
    pending: seq<nat>,
    permissions: seq<Entry>,
    nextId: nat,
    settled: seq<Settlement>,
    closed: seq<Closing>,
    sent: seq<Wire>,
    events: seq<Event>,
    admitted: nat,
    spawned: nat)

  const START := State(None, [], [], 1, [], [], [], [], 0, 0)

  // ---------------------------------------------------------------- the tables

  /** The position of x, or the length. */
  function Find(ids: seq<nat>, x: int): (k: nat)
    ensures k <= |ids|
    ensures k < |ids| ==> ids[k] == x
    ensures forall j :: 0 <= j < k ==> ids[j] != x
  {
    if ids == [] then 0 else if ids[0] == x then 0 else 1 + Find(ids[1..], x)
  }

  function FindEntry(entries: seq<Entry>, requestId: RequestId): (k: nat)
    ensures k <= |entries|
    ensures k < |entries| ==> entries[k].requestId == requestId
    ensures forall j :: 0 <= j < k ==> entries[j].requestId != requestId
  {
    if entries == [] then 0 else if entries[0].requestId == requestId then 0 else 1 + FindEntry(entries[1..], requestId)
  }

  predicate Has(s: State, requestId: RequestId) {
    FindEntry(s.permissions, requestId) < |s.permissions|
  }

  function Without<T>(xs: seq<T>, k: nat): seq<T>
    requires k < |xs|
  {
    xs[..k] + xs[k + 1..]
  }

  function Rejections(ids: seq<nat>, reason: Failure): seq<Settlement> {
    seq(|ids|, i requires 0 <= i < |ids| => Settlement(ids[i], Rejected(reason)))
  }

  function Drops(entries: seq<Entry>): seq<Closing> {
    seq(|entries|, i requires 0 <= i < |entries| => Closing(entries[i], Dropped))
  }

  function DropEvents(entries: seq<Entry>): seq<Event> {
    seq(|entries|, i requires 0 <= i < |entries| => Event(entries[i].serial, entries[i].requestId, TransportClosed))
  }

  // ---------------------------------------------------------------- the parts of the steps

  function Settle(s: State, k: nat, outcome: Outcome): State
    requires k < |s.pending|
  {
    s.(pending := Without(s.pending, k), settled := s.settled + [Settlement(s.pending[k], outcome)])
  }

  /** A response or a timer for request `id`; one that is not pending is ignored. */
  function SettleFound(s: State, id: int, outcome: Outcome): State {
    if Find(s.pending, id) < |s.pending| then Settle(s, Find(s.pending, id), outcome) else s
  }

  /** `#rejectPending` */
  function RejectPending(s: State, reason: Failure): State {
    s.(pending := [], settled := s.settled + Rejections(s.pending, reason))
  }

  function Close(s: State, k: nat, how: How): State
    requires k < |s.permissions|
  {
    s.(permissions := Without(s.permissions, k), closed := s.closed + [Closing(s.permissions[k], how)])
  }

  /** `#resolvePermission`; `writes` says whether the line could be written. A refused call changes nothing. */
  function ResolvePermission(s: State, requestId: RequestId, option: Option<OptionId>, unselected: How, writes: bool): State {
    var k := FindEntry(s.permissions, requestId);
    if k == |s.permissions| || (option.Some? && option.value !in s.permissions[k].options) then s
    else if !writes then Close(s, k, Unsent)
    else
      var serial := s.permissions[k].serial;
      Close(s, k, if option.Some? then Selected(option.value) else unselected)
        .(sent := s.sent + [Answer(serial, requestId, option)],
          events := s.events + [Event(serial, requestId, if option.Some? then AsSelected else AsUnselected(unselected))])
  }

  function AsUnselected(how: How): Resolution {
    if how.Expired? then AsExpired else AsCancelled
  }

  /** `#dropIncomingPermission` */
  function Drop(s: State, k: nat): State
    requires k < |s.permissions|
  {
    Close(s, k, Dropped)
      .(events := s.events + [Event(s.permissions[k].serial, s.permissions[k].requestId, TransportClosed)])
  }

  /** `#clearIncomingPermissions` */
  function ClearPermissions(s: State): State {
    s.(permissions := [], closed := s.closed + Drops(s.permissions), events := s.events + DropEvents(s.permissions))
  }

  /** `#cancelIncomingPermissions`; the answers in `broken` cannot be written. */
  function CancelPermissions(s: State, broken: set<RequestId>): State
    decreases |s.permissions|
  {
    if s.permissions == [] then s
    else
      var requestId := s.permissions[0].requestId;
      CancelPermissions(ResolvePermission(s, requestId, None, Cancelled, requestId !in broken), broken)
  }

  /** `#request`; without a writable child it is refused and no id is used. */
  function IssueRequest(s: State, writable: bool, writes: bool): State {
    if s.child.None? || !writable then s
    else
      var t := s.(nextId := s.nextId + 1);
      if writes then t.(pending := s.pending + [s.nextId], sent := s.sent + [Request(s.nextId)])
      else t.(settled := s.settled + [Settlement(s.nextId, Rejected(HostUnavailable))])
  }

  function Forget(s: State, reason: Failure): State {
    RejectPending(s.(child := None), reason)
  }

  /** The end of a connection: the child is forgotten and everything open on it is finished. */
  function Disconnect(s: State, reason: Failure): State {
    Forget(ClearPermissions(s), reason)
  }

  // ---------------------------------------------------------------- the steps

  /** What the listeners of `permission-request` do while the event is emitted. */
  datatype Reaction = Nobody | Reacts(answer: Option<Option<OptionId>>, throws: bool)

  datatype Message =
    | Response(id: int, outcome: Outcome)
    | PermissionRequest(requestId: RequestId, wellFormed: bool, options: seq<OptionId>, reaction: Reaction)
    | OtherRequest(requestId: RequestId)
    | Other

  function Admit(s: State, requestId: RequestId, options: seq<OptionId>): State {
    s.(permissions := s.permissions + [Entry(s.admitted, requestId, options)], admitted := s.admitted + 1)
  }

  /** `permission-request` is emitted: with no listener, or a failing one, the request is cancelled. */
  function Announce(s: State, requestId: RequestId, reaction: Reaction, writes: bool): State {
    match reaction
    case Nobody => ResolvePermission(s, requestId, None, Cancelled, writes)
    case Reacts(answer, throws) =>
      var t := if answer.Some? then ResolvePermission(s, requestId, answer.value, Cancelled, writes) else s;
      if throws then ResolvePermission(t, requestId, None, Cancelled, writes) else t
  }

  /** `#handlePermissionRequest`; the id of an open request is refused. */
  function HandlePermissionRequest(s: State, m: Message, writes: bool): State
    requires m.PermissionRequest?
  {
    if !m.wellFormed || m.options == [] || Has(s, m.requestId) then
      if writes then s.(sent := s.sent + [Refusal(m.requestId)]) else s
    else
      Announce(Admit(s, m.requestId, m.options), m.requestId, m.reaction, writes)
  }

  /** `#handleLine` */
  function HandleLine(s: State, m: Message, writes: bool): State {
    match m
    case Response(id, outcome) => SettleFound(s, id, outcome)
    case PermissionRequest(_, _, _, _) => HandlePermissionRequest(s, m, writes)
    case OtherRequest(requestId) => if writes then s.(sent := s.sent + [Refusal(requestId)]) else s
    case Other => s
  }

  datatype Step =
    | Spawn(writable: bool, writes: bool)
    | StartFailed(child: ChildId, reason: Failure)
    | Issue(writable: bool, writes: bool)
    | Line(child: ChildId, message: Message, writes: bool)
    | Exit(child: ChildId, reason: Failure)
    | Stop(broken: set<RequestId>)
    | RequestTimer(id: nat)
    | PermissionTimer(requestId: RequestId, writes: bool)
    | Respond(requestId: RequestId, option: Option<OptionId>, writes: bool)

  /** A timer is cleared when its entry leaves the table, so a timer without an entry does nothing. */
  function Next(s: State, step: Step): State {
    match step
    case Spawn(writable, writes) =>
      IssueRequest(s.(child := Some(s.spawned), spawned := s.spawned + 1), writable, writes)
    case StartFailed(c, reason) => if s.child == Some(c) then Disconnect(s, reason) else s
    case Issue(writable, writes) => IssueRequest(s, writable, writes)
    case Line(c, m, writes) => if s.child == Some(c) then HandleLine(s, m, writes) else s
    case Exit(c, reason) => if s.child == Some(c) then Disconnect(s, reason) else s
    case Stop(broken) => Forget(CancelPermissions(s, broken), HostStopped)
    case RequestTimer(id) => SettleFound(s, id, Rejected(HostTimeout))
    case PermissionTimer(requestId, writes) => ResolvePermission(s, requestId, None, Expired, writes)
    case Respond(requestId, option, writes) => ResolvePermission(s, requestId, option, Cancelled, writes)
  }

  function Run(s: State, steps: seq<Step>): State
    decreases |steps|
  {
    if steps == [] then s else Run(Next(s, steps[0]), steps[1..])
  }

  // ---------------------------------------------------------------- numbered tickets

  /** Tickets lo..next-1 were issued in order; each is open, or done once, and never both. */
  ghost predicate Ledger(open: seq<nat>, done: seq<nat>, lo: nat, next: nat) {
    && lo <= next
    && (forall i, j :: 0 <= i < j < |open| ==> open[i] < open[j])
    && (forall i, j :: 0 <= i < j < |done| ==> done[i] != done[j])
    && (forall t :: t in open ==> t !in done)
    && (forall t: nat :: lo <= t < next <==> t in open || t in done)
  }

  lemma LedgerIssue(open: seq<nat>, done: seq<nat>, lo: nat, next: nat)
    requires Ledger(open, done, lo, next)
    ensures Ledger(open + [next], done, lo, next + 1) && Ledger(open, done + [next], lo, next + 1)
  {
    assert forall i :: 0 <= i < |open| ==> open[i] in open;
    assert forall i :: 0 <= i < |done| ==> done[i] in done;
    forall t: nat ensures lo <= t < next + 1 <==> t in open + [next] || t in done {
    }
    forall t: nat ensures lo <= t < next + 1 <==> t in open || t in done + [next] {
    }
  }

  lemma LedgerFinish(open: seq<nat>, done: seq<nat>, lo: nat, next: nat, k: nat)
    requires Ledger(open, done, lo, next) && k < |open|
    ensures Ledger(Without(open, k), done + [open[k]], lo, next)
  {
    var rest := Without(open, k);
    assert open[k] in open;
    assert forall i :: 0 <= i < |done| ==> done[i] in done;
    forall t: nat ensures t in rest <==> t in open && t != open[k] {
      if t in open && t != open[k] {
        var i :| 0 <= i < |open| && open[i] == t;
        assert rest[if i < k then i else i - 1] == t;
      }
    }
  }

  lemma LedgerFinishAll(open: seq<nat>, done: seq<nat>, lo: nat, next: nat)
    requires Ledger(open, done, lo, next)
    ensures Ledger([], done + open, lo, next)
  {
    forall t: nat ensures t in done + open <==> t in open || t in done {
    }
    assert forall i :: 0 <= i < |open| ==> open[i] in open;
    assert forall i :: 0 <= i < |done| ==> done[i] in done;
  }

  // ---------------------------------------------------------------- the invariant

  function Ids(settled: seq<Settlement>): seq<nat> {
    seq(|settled|, i requires 0 <= i < |settled| => settled[i].id)
  }

  function Serials(entries: seq<Entry>): seq<nat> {
    seq(|entries|, i requires 0 <= i < |entries| => entries[i].serial)
  }

  function ClosedSerials(closed: seq<Closing>): seq<nat> {
    seq(|closed|, i requires 0 <= i < |closed| => closed[i].entry.serial)
  }

  /** The result lines among what was written. */
  function Answers(sent: seq<Wire>): seq<Wire> {
    if sent == [] then []
    else
      var last := sent[|sent| - 1];
      Answers(sent[..|sent| - 1]) + if last.Answer? then [last] else []
  }

  /** The result lines that the closings stand for, in order. */
  function AnswersOf(closed: seq<Closing>): seq<Wire> {
    if closed == [] then []
    else AnswersOf(closed[..|closed| - 1]) + AnswerOf(closed[|closed| - 1])
  }

  function AnswerOf(c: Closing): seq<Wire> {
    match c.how
    case Selected(option) => [Answer(c.entry.serial, c.entry.requestId, Some(option))]
    case Cancelled | Expired => [Answer(c.entry.serial, c.entry.requestId, None)]
    case Unsent | Dropped => []
  }

  /** The `permission-resolved` events that the closings stand for, in order. */
  function EventsOf(closed: seq<Closing>): seq<Event> {
    if closed == [] then []
    else EventsOf(closed[..|closed| - 1]) + EventOf(closed[|closed| - 1])
  }

  function EventOf(c: Closing): seq<Event> {
    match c.how
    case Selected(_) => [Event(c.entry.serial, c.entry.requestId, AsSelected)]
    case Cancelled => [Event(c.entry.serial, c.entry.requestId, AsCancelled)]
    case Expired => [Event(c.entry.serial, c.entry.requestId, AsExpired)]
    case Dropped => [Event(c.entry.serial, c.entry.requestId, TransportClosed)]
    case Unsent => []
  }

  ghost predicate RequestsOnce(sent: seq<Wire>, next: nat) {
    && (forall i :: 0 <= i < |sent| && sent[i].Request? ==> sent[i].id < next)
    && (forall i, j :: 0 <= i < j < |sent| && sent[i].Request? && sent[j].Request? ==> sent[i].id < sent[j].id)
  }

  /** Both tables are in order, and the results written and events emitted are exactly those of the closings. */
  ghost predicate Books(s: State) {
    && Ledger(s.pending, Ids(s.settled), 1, s.nextId)
    && Ledger(Serials(s.permissions), ClosedSerials(s.closed), 0, s.admitted)
    && (forall i, j :: 0 <= i < j < |s.permissions| ==> s.permissions[i].requestId != s.permissions[j].requestId)
    && (forall c :: c in s.closed && c.how.Selected? ==> c.how.option in c.entry.options)
    && Answers(s.sent) == AnswersOf(s.closed)
    && s.events == EventsOf(s.closed)
    && RequestsOnce(s.sent, s.nextId)
  }

  /** Without a child nothing is open. */
  ghost predicate Linked(s: State) {
    && (s.child.None? ==> s.pending == [] && s.permissions == [])
    && (s.child.Some? ==> s.child.value < s.spawned)
  }

  lemma SettleKeepsBooks(s: State, k: nat, outcome: Outcome)
    requires Books(s) && k < |s.pending|
    ensures Books(Settle(s, k, outcome))
  {
    LedgerFinish(s.pending, Ids(s.settled), 1, s.nextId, k);
    assert Ids(Settle(s, k, outcome).settled) == Ids(s.settled) + [s.pending[k]];
  }

  lemma SettleFoundKeepsBooks(s: State, id: int, outcome: Outcome)
    requires Books(s)
    ensures Books(SettleFound(s, id, outcome))
  {
    var k := Find(s.pending, id);
    if k < |s.pending| { SettleKeepsBooks(s, k, outcome); }
  }

  lemma RejectPendingKeepsBooks(s: State, reason: Failure)
    requires Books(s)
    ensures Books(RejectPending(s, reason))
  {
    LedgerFinishAll(s.pending, Ids(s.settled), 1, s.nextId);
    assert Ids(s.settled + Rejections(s.pending, reason)) == Ids(s.settled) + s.pending;
  }

  lemma IssueKeepsBooks(s: State, writable: bool, writes: bool)
    requires Books(s)
    ensures Books(IssueRequest(s, writable, writes))
  {
    LedgerIssue(s.pending, Ids(s.settled), 1, s.nextId);
    assert Ids(s.settled + [Settlement(s.nextId, Rejected(HostUnavailable))]) == Ids(s.settled) + [s.nextId];
    assert (s.sent + [Request(s.nextId)])[..|s.sent|] == s.sent;
  }

  lemma AnswersAppend(sent: seq<Wire>, w: Wire)
    ensures Answers(sent + [w]) == Answers(sent) + if w.Answer? then [w] else []
  {
    assert (sent + [w])[..|sent|] == sent;
  }

  lemma AnswersOfAppend(closed: seq<Closing>, c: Closing)
    ensures AnswersOf(closed + [c]) == AnswersOf(closed) + AnswerOf(c)
  {
    assert (closed + [c])[..|closed|] == closed;
  }

  lemma EventsOfAppend(closed: seq<Closing>, c: Closing)
    ensures EventsOf(closed + [c]) == EventsOf(closed) + EventOf(c)
  {
    assert (closed + [c])[..|closed|] == closed;
  }

  lemma CloseKeepsLedger(s: State, k: nat, how: How)
    requires Books(s) && k < |s.permissions| && (how.Selected? ==> how.option in s.permissions[k].options)
    ensures var t := Close(s, k, how);
      && Ledger(Serials(t.permissions), ClosedSerials(t.closed), 0, t.admitted)
      && (forall i, j :: 0 <= i < j < |t.permissions| ==> t.permissions[i].requestId != t.permissions[j].requestId)
      && (forall c :: c in t.closed && c.how.Selected? ==> c.how.option in c.entry.options)
      && AnswersOf(t.closed) == AnswersOf(s.closed) + AnswerOf(Closing(s.permissions[k], how))
      && EventsOf(t.closed) == EventsOf(s.closed) + EventOf(Closing(s.permissions[k], how))
  {
    var t := Close(s, k, how);
    LedgerFinish(Serials(s.permissions), ClosedSerials(s.closed), 0, s.admitted, k);
    assert Serials(t.permissions) == Without(Serials(s.permissions), k);
    assert ClosedSerials(t.closed) == ClosedSerials(s.closed) + [s.permissions[k].serial];
    AnswersOfAppend(s.closed, Closing(s.permissions[k], how));
    EventsOfAppend(s.closed, Closing(s.permissions[k], how));
  }

  /** A request leaves with its result and its event, or with none. */
  lemma CloseKeepsBooks(s: State, k: nat, how: How)
    requires Books(s) && k < |s.permissions| && (how.Selected? ==> how.option in s.permissions[k].options)
    ensures var c := Closing(s.permissions[k], how);
      Books(Close(s, k, how).(sent := s.sent + AnswerOf(c), events := s.events + EventOf(c)))
  {
    CloseKeepsLedger(s, k, how);
    var answer := AnswerOf(Closing(s.permissions[k], how));
    if answer == [] {
      assert s.sent + answer == s.sent;
    } else {
      assert answer == [answer[0]];
      AnswersAppend(s.sent, answer[0]);
    }
  }

  /** A call that is not refused closes the entry with the line and the event of the closing. */
  lemma ResolveCloses(s: State, k: nat, option: Option<OptionId>, unselected: How, writes: bool, how: How)
    requires k < |s.permissions| && k == FindEntry(s.permissions, s.permissions[k].requestId)
    requires option.Some? ==> option.value in s.permissions[k].options
    requires unselected.Cancelled? || unselected.Expired?
    requires how == if !writes then Unsent else if option.Some? then Selected(option.value) else unselected
    ensures var c := Closing(s.permissions[k], how);
      ResolvePermission(s, s.permissions[k].requestId, option, unselected, writes) ==
      Close(s, k, how).(sent := s.sent + AnswerOf(c), events := s.events + EventOf(c))
  {
    assert s.sent + [] == s.sent && s.events + [] == s.events;
  }

  lemma ResolveKeepsBooks(s: State, requestId: RequestId, option: Option<OptionId>, unselected: How, writes: bool)
    requires Books(s) && (unselected.Cancelled? || unselected.Expired?)
    ensures Books(ResolvePermission(s, requestId, option, unselected, writes))
  {
    var k := FindEntry(s.permissions, requestId);
    if k < |s.permissions| && (option.Some? ==> option.value in s.permissions[k].options) {
      var how := if !writes then Unsent else if option.Some? then Selected(option.value) else unselected;
      CloseKeepsBooks(s, k, how);
      ResolveCloses(s, k, option, unselected, writes, how);
    }
  }

  lemma {:induction false} CancelKeepsBooks(s: State, broken: set<RequestId>)
    requires Books(s)
    ensures Books(CancelPermissions(s, broken)) && CancelPermissions(s, broken).permissions == []
    ensures CancelPermissions(s, broken).spawned == s.spawned
    decreases |s.permissions|
  {
    if s.permissions != [] {
      var requestId := s.permissions[0].requestId;
      ResolveKeepsBooks(s, requestId, None, Cancelled, requestId !in broken);
      CancelKeepsBooks(ResolvePermission(s, requestId, None, Cancelled, requestId !in broken), broken);
    }
  }

  lemma ClearAfterDrop(s: State)
    requires s.permissions != []
    ensures ClearPermissions(Drop(s, 0)) == ClearPermissions(s)
  {
    var first, rest := s.permissions[0], Without(s.permissions, 0);
    assert Drops(s.permissions) == [Closing(first, Dropped)] + Drops(rest);
    assert DropEvents(s.permissions) == [Event(first.serial, first.requestId, TransportClosed)] + DropEvents(rest);
  }

  lemma ClearNothing(s: State)
    ensures s.permissions == [] ==> ClearPermissions(s) == s
  {
    assert s.permissions == [] ==> s.closed + Drops(s.permissions) == s.closed;
    assert s.permissions == [] ==> s.events + DropEvents(s.permissions) == s.events;
  }

  lemma DropsNext(closed: seq<Closing>, entries: seq<Entry>, entry: Entry)
    ensures closed + Drops(entries + [entry]) == closed + Drops(entries) + [Closing(entry, Dropped)]
  {
    assert Drops(entries + [entry]) == Drops(entries) + [Closing(entry, Dropped)];
  }

  lemma {:induction false} DropsAnswerNothing(closed: seq<Closing>, entries: seq<Entry>)
    ensures AnswersOf(closed + Drops(entries)) == AnswersOf(closed)
    decreases |entries|
  {
    if entries == [] {
      assert closed + Drops(entries) == closed;
    } else {
      var front, entry := entries[..|entries| - 1], entries[|entries| - 1];
      assert entries == front + [entry];
      DropsAnswerNothing(closed, front);
      DropsNext(closed, front, entry);
      AnswersOfAppend(closed + Drops(front), Closing(entry, Dropped));
    }
  }

  lemma DropEventsNext(events: seq<Event>, entries: seq<Entry>, entry: Entry)
    ensures events + DropEvents(entries + [entry]) ==
            events + DropEvents(entries) + EventOf(Closing(entry, Dropped))
  {
    assert DropEvents(entries + [entry]) == DropEvents(entries) + EventOf(Closing(entry, Dropped));
  }

  lemma {:induction false} DropsAreAnnounced(closed: seq<Closing>, entries: seq<Entry>)
    ensures EventsOf(closed + Drops(entries)) == EventsOf(closed) + DropEvents(entries)
    decreases |entries|
  {
    if entries == [] {
      NoDrops(closed, entries);
    } else {
      var front, entry := entries[..|entries| - 1], entries[|entries| - 1];
      assert entries == front + [entry];
      DropsAreAnnounced(closed, front);
      DropsNext(closed, front, entry);
      DropEventsNext(EventsOf(closed), front, entry);
      EventsOfAppend(closed + Drops(front), Closing(entry, Dropped));
    }
  }

  lemma NoDrops(closed: seq<Closing>, entries: seq<Entry>)
    requires entries == []
    ensures closed + Drops(entries) == closed && EventsOf(closed) + DropEvents(entries) == EventsOf(closed)
  {
  }

  lemma ClearKeepsBooks(s: State)
    requires Books(s)
    ensures Books(ClearPermissions(s))
  {
    LedgerFinishAll(Serials(s.permissions), ClosedSerials(s.closed), 0, s.admitted);
    assert ClosedSerials(s.closed + Drops(s.permissions)) == ClosedSerials(s.closed) + Serials(s.permissions);
    DropsAnswerNothing(s.closed, s.permissions);
    DropsAreAnnounced(s.closed, s.permissions);
  }

  lemma ForgetKeepsBooks(s: State, reason: Failure)
    requires Books(s)
    ensures Books(Forget(s, reason))
  {
    RejectPendingKeepsBooks(s.(child := None), reason);
  }

  lemma DisconnectKeepsBooks(s: State, reason: Failure)
    requires Books(s)
    ensures Books(Disconnect(s, reason))
  {
    ClearKeepsBooks(s);
    ForgetKeepsBooks(ClearPermissions(s), reason);
  }

  lemma RefusalKeepsBooks(s: State, requestId: RequestId)
    requires Books(s)
    ensures Books(s.(sent := s.sent + [Refusal(requestId)]))
  {
    AnswersAppend(s.sent, Refusal(requestId));
  }

  lemma AdmitKeepsBooks(s: State, requestId: RequestId, options: seq<OptionId>)
    requires Books(s) && !Has(s, requestId)
    ensures Books(Admit(s, requestId, options))
  {
    LedgerIssue(Serials(s.permissions), ClosedSerials(s.closed), 0, s.admitted);
    assert Serials(s.permissions + [Entry(s.admitted, requestId, options)]) == Serials(s.permissions) + [s.admitted];
  }

  lemma AnnounceKeepsBooks(s: State, requestId: RequestId, reaction: Reaction, writes: bool)
    requires Books(s)
    ensures Books(Announce(s, requestId, reaction, writes))
  {
    match reaction
    case Nobody => ResolveKeepsBooks(s, requestId, None, Cancelled, writes);
    case Reacts(answer, throws) =>
      var t := if answer.Some? then ResolvePermission(s, requestId, answer.value, Cancelled, writes) else s;
      if answer.Some? { ResolveKeepsBooks(s, requestId, answer.value, Cancelled, writes); }
      ResolveKeepsBooks(t, requestId, None, Cancelled, writes);
  }

  lemma PermissionRequestKeepsBooks(s: State, m: Message, writes: bool)
    requires Books(s) && m.PermissionRequest?
    ensures Books(HandlePermissionRequest(s, m, writes))
  {
    RefusalKeepsBooks(s, m.requestId);
    if m.wellFormed && m.options != [] && !Has(s, m.requestId) {
      AdmitKeepsBooks(s, m.requestId, m.options);
      AnnounceKeepsBooks(Admit(s, m.requestId, m.options), m.requestId, m.reaction, writes);
    }
  }

  lemma LineKeepsBooks(s: State, m: Message, writes: bool)
    requires Books(s)
    ensures Books(HandleLine(s, m, writes))
  {
    match m
    case Response(id, outcome) => SettleFoundKeepsBooks(s, id, outcome);
    case PermissionRequest(_, _, _, _) => PermissionRequestKeepsBooks(s, m, writes);
    case OtherRequest(requestId) => RefusalKeepsBooks(s, requestId);
    case Other =>
  }

  lemma SpawnKeepsBooks(s: State, writable: bool, writes: bool)
    requires Books(s)
    ensures Books(Next(s, Spawn(writable, writes)))
  {
    var t := s.(child := Some(s.spawned), spawned := s.spawned + 1);
    assert Books(t);
    IssueKeepsBooks(t, writable, writes);
  }

  lemma StopKeepsBooks(s: State, broken: set<RequestId>, t: State)
    requires Books(s) && t == CancelPermissions(s, broken)
    ensures Books(Forget(t, HostStopped))
  {
    CancelKeepsBooks(s, broken);
    ForgetKeepsBooks(t, HostStopped);
  }

  lemma StepKeepsBooks(s: State, step: Step)
    requires Books(s)
    ensures Books(Next(s, step))
  {
    match step
    case Spawn(writable, writes) => SpawnKeepsBooks(s, writable, writes);
    case StartFailed(c, reason) => DisconnectKeepsBooks(s, reason);
    case Issue(writable, writes) => IssueKeepsBooks(s, writable, writes);
    case Line(c, m, writes) => LineKeepsBooks(s, m, writes);
    case Exit(c, reason) => DisconnectKeepsBooks(s, reason);
    case Stop(broken) => StopKeepsBooks(s, broken, CancelPermissions(s, broken));
    case RequestTimer(id) => SettleFoundKeepsBooks(s, id, Rejected(HostTimeout));
    case PermissionTimer(requestId, writes) => ResolveKeepsBooks(s, requestId, None, Expired, writes);
    case Respond(requestId, option, writes) => ResolveKeepsBooks(s, requestId, option, Cancelled, writes);
  }

  lemma LineKeepsChild(s: State, m: Message, writes: bool)
    ensures HandleLine(s, m, writes).child == s.child && HandleLine(s, m, writes).spawned == s.spawned
  {
    if m.PermissionRequest? {
      AnnounceExtends(Admit(s, m.requestId, m.options), m.requestId, m.reaction, writes);
    }
  }

  lemma StepKeepsLinked(s: State, step: Step)
    requires Books(s) && Linked(s)
    ensures Linked(Next(s, step))
    ensures s.spawned <= Next(s, step).spawned
    ensures Next(s, step).child == s.child || Next(s, step).child.None? || Next(s, step).child == Some(s.spawned)
  {
    match step
    case Stop(broken) => CancelKeepsBooks(s, broken);
    case Line(_, m, writes) => LineKeepsChild(s, m, writes);
    case _ =>
  }

  // ---------------------------------------------------------------- whole runs

  lemma {:induction false} RunKeepsBooks(s: State, steps: seq<Step>)
    requires Books(s) && Linked(s)
    ensures Books(Run(s, steps)) && Linked(Run(s, steps))
    decreases |steps|
  {
    if steps != [] {
      StepKeepsBooks(s, steps[0]);
      StepKeepsLinked(s, steps[0]);
      RunKeepsBooks(Next(s, steps[0]), steps[1..]);
    }
  }

  /** s is what some run of the client leads to. */
  ghost predicate Reachable(s: State) {
    exists steps :: s == Run(START, steps)
  }

  lemma ReachableKeepsBooks(s: State)
    requires Reachable(s)
    ensures Books(s) && Linked(s)
  {
    var steps :| s == Run(START, steps);
    RunKeepsBooks(START, steps);
  }

  /** Every id ever issued is waiting or was settled, never both, and settled only once. */
  lemma RequestsSettleOnce(s: State, id: nat)
    requires Reachable(s)
    ensures 1 <= id < s.nextId <==> (id in s.pending) != (id in Ids(s.settled))
    ensures forall i, j :: 0 <= i < |s.settled| && 0 <= j < |s.settled| && s.settled[i].id == s.settled[j].id ==> i == j
  {
    ReachableKeepsBooks(s);
    assert forall i :: 0 <= i < |s.settled| ==> Ids(s.settled)[i] == s.settled[i].id;
  }

  predicate Ends(s: State, step: Step) {
    step.Stop? || (step.Exit? && s.child == Some(step.child)) || (step.StartFailed? && s.child == Some(step.child))
  }

  /** After an exit, a stop or a failed start nothing is open: every request was settled, every permission finished. */
  lemma NothingOpenAfterTheEnd(s: State, last: Step)
    requires Reachable(s) && Ends(s, last)
    ensures var t := Next(s, last);
      && t.child == None && t.pending == [] && t.permissions == []
      && (forall id: nat :: 1 <= id < t.nextId ==> id in Ids(t.settled))
      && (forall serial: nat :: serial < t.admitted ==> serial in ClosedSerials(t.closed))
  {
    ReachableKeepsBooks(s);
    StepKeepsBooks(s, last);
    StepKeepsLinked(s, last);
  }

  /** A child that was dropped never comes back, and nothing it still sends or does has any effect. */
  lemma {:induction false} DroppedChildHasNoEffect(
      s: State, c: ChildId, steps: seq<Step>, m: Message, writes: bool, reason: Failure)
    requires Books(s) && Linked(s) && c < s.spawned && s.child != Some(c)
    ensures var t := Run(s, steps);
      && t.child != Some(c) && Next(t, Line(c, m, writes)) == t
      && Next(t, Exit(c, reason)) == t && Next(t, StartFailed(c, reason)) == t
    decreases |steps|
  {
    if steps != [] {
      StepKeepsBooks(s, steps[0]);
      StepKeepsLinked(s, steps[0]);
      DroppedChildHasNoEffect(Next(s, steps[0]), c, steps[1..], m, writes, reason);
    }
  }

  /** A response to a request that was settled, timed out or never made changes nothing. */
  lemma LateResponseChangesNothing(s: State, child: ChildId, id: int, outcome: Outcome, writes: bool)
    requires Reachable(s) && (1 <= id < s.nextId ==> id in Ids(s.settled))
    ensures Next(s, Line(child, Response(id, outcome), writes)) == s
  {
    ReachableKeepsBooks(s);
    SettledIsIgnored(s, id, outcome);
  }

  lemma SettledIsIgnored(s: State, id: int, outcome: Outcome)
    requires Books(s) && (1 <= id < s.nextId ==> id in Ids(s.settled))
    ensures SettleFound(s, id, outcome) == s
  {
    assert forall i :: 0 <= i < |s.pending| ==> s.pending[i] in s.pending;
    MissingIsNotFound(s.pending, id);
  }

  lemma MissingIsNotFound(ids: seq<nat>, x: int)
    requires forall i :: 0 <= i < |ids| ==> ids[i] != x
    ensures Find(ids, x) == |ids|
  {
  }

  /** What was settled, finished or written stays so. */
  predicate Extends(s: State, t: State) {
    && s.settled <= t.settled && s.closed <= t.closed && s.sent <= t.sent && s.events <= t.events
    && s.nextId <= t.nextId && s.admitted <= t.admitted
  }

  lemma ResolveExtends(s: State, requestId: RequestId, option: Option<OptionId>, unselected: How, writes: bool)
    ensures var t := ResolvePermission(s, requestId, option, unselected, writes);
      Extends(s, t) && t.child == s.child && t.spawned == s.spawned
  {
  }

  lemma {:induction false} CancelExtends(s: State, broken: set<RequestId>)
    ensures Extends(s, CancelPermissions(s, broken))
    decreases |s.permissions|
  {
    if s.permissions != [] {
      var requestId := s.permissions[0].requestId;
      ResolveExtends(s, requestId, None, Cancelled, requestId !in broken);
      CancelExtends(ResolvePermission(s, requestId, None, Cancelled, requestId !in broken), broken);
    }
  }

  lemma AnnounceExtends(s: State, requestId: RequestId, reaction: Reaction, writes: bool)
    ensures var t := Announce(s, requestId, reaction, writes);
      Extends(s, t) && t.child == s.child && t.spawned == s.spawned
  {
    match reaction
    case Nobody => ResolveExtends(s, requestId, None, Cancelled, writes);
    case Reacts(answer, throws) =>
      var t := if answer.Some? then ResolvePermission(s, requestId, answer.value, Cancelled, writes) else s;
      if answer.Some? { ResolveExtends(s, requestId, answer.value, Cancelled, writes); }
      ResolveExtends(t, requestId, None, Cancelled, writes);
  }

  lemma StepExtends(s: State, step: Step)
    ensures Extends(s, Next(s, step))
  {
    match step
    case Stop(broken) => CancelExtends(s, broken);
    case Line(_, m, writes) =>
      if m.PermissionRequest? {
        AnnounceExtends(Admit(s, m.requestId, m.options), m.requestId, m.reaction, writes);
      }
    case PermissionTimer(requestId, writes) => ResolveExtends(s, requestId, None, Expired, writes);
    case Respond(requestId, option, writes) => ResolveExtends(s, requestId, option, Cancelled, writes);
    case _ =>
  }

  lemma {:induction false} HistoryIsNeverRewritten(s: State, steps: seq<Step>)
    ensures Extends(s, Run(s, steps))
    decreases |steps|
  {
    if steps != [] {
      StepExtends(s, steps[0]);
      HistoryIsNeverRewritten(Next(s, steps[0]), steps[1..]);
    }
  }

  /** No request line carries the id of an earlier one. */
  lemma IdsAreNeverReused(s: State, i: nat, j: nat)
    requires Reachable(s) && i < j < |s.sent| && s.sent[i].Request? && s.sent[j].Request?
    ensures s.sent[i].id < s.sent[j].id < s.nextId
  {
    ReachableKeepsBooks(s);
  }

  function CountAnswers(sent: seq<Wire>, requestId: RequestId): nat {
    if sent == [] then 0
    else
      var last := sent[|sent| - 1];
      CountAnswers(sent[..|sent| - 1], requestId) + if last.Answer? && last.requestId == requestId then 1 else 0
  }

  function CountClosed(closed: seq<Closing>, requestId: RequestId): nat {
    if closed == [] then 0
    else
      CountClosed(closed[..|closed| - 1], requestId)
        + if closed[|closed| - 1].entry.requestId == requestId then 1 else 0
  }

  lemma CountNext(sent: seq<Wire>, w: Wire, requestId: RequestId)
    ensures CountAnswers(sent + [w], requestId) ==
            CountAnswers(sent, requestId) + if w.Answer? && w.requestId == requestId then 1 else 0
  {
    assert (sent + [w])[..|sent|] == sent;
  }

  lemma {:induction false} AnswersCountAlike(sent: seq<Wire>, requestId: RequestId)
    ensures CountAnswers(Answers(sent), requestId) == CountAnswers(sent, requestId)
  {
    if sent != [] {
      var front, last := sent[..|sent| - 1], sent[|sent| - 1];
      AnswersCountAlike(front, requestId);
      CountNext(Answers(front), last, requestId);
      assert Answers(front) + [] == Answers(front);
    }
  }

  lemma {:induction false} ClosingsAnswerOnce(closed: seq<Closing>, requestId: RequestId)
    ensures CountAnswers(AnswersOf(closed), requestId) <= CountClosed(closed, requestId)
  {
    if closed != [] {
      var front, last := closed[..|closed| - 1], closed[|closed| - 1];
      ClosingsAnswerOnce(front, requestId);
      var answer := AnswerOf(last);
      if answer == [] {
        assert AnswersOf(front) + answer == AnswersOf(front);
      } else {
        assert answer == [answer[0]];
        CountNext(AnswersOf(front), answer[0], requestId);
      }
    }
  }

  /**
   A permission request is open or finished once; for one id no more results are written than requests
   with that id were finished; and a selected option was one of those offered.
   */
  lemma PermissionsAreAnsweredOnce(s: State, requestId: RequestId, serial: nat)
    requires Reachable(s)
    ensures serial < s.admitted <==> (serial in Serials(s.permissions)) != (serial in ClosedSerials(s.closed))
    ensures forall i, j :: 0 <= i < j < |s.closed| ==> s.closed[i].entry.serial != s.closed[j].entry.serial
    ensures CountAnswers(s.sent, requestId) <= CountClosed(s.closed, requestId)
    ensures forall c :: c in s.closed && c.how.Selected? ==> c.how.option in c.entry.options
  {
    ReachableKeepsBooks(s);
    assert forall i :: 0 <= i < |s.closed| ==> ClosedSerials(s.closed)[i] == s.closed[i].entry.serial;
    AnswersCountAlike(s.sent, requestId);
    ClosingsAnswerOnce(s.closed, requestId);
  }
}
