/**
 The attachment store of the desktop client (desktop/src/conversation-attachment-store.js):
 staged attachments, the reservations prompts hold on them, and the manifest that survives a
 restart. `records` is the insertion-ordered `Map` of the source as a sequence of its values.
 Operations are complete store operations, run one at a time.
 */
module AttachmentStore {
  import opened Common

  type AttachmentId = nat
  /** An account and one of its Agents. */
  type Scope = nat

  const MAX_ATTACHMENTS := 10
  const MAX_ATTACHMENT_BYTES := 20 * 1024 * 1024
  const MAX_TOTAL_ATTACHMENT_BYTES := 50 * 1024 * 1024
  const MAX_MANIFEST_RECORDS := 1000

  datatype Kind = Image | File | Link
  datatype Encoding = Utf8 | Base64
  datatype ReservationStatus = Submitting | Accepted | Unknown
  datatype Reservation = Reservation(sessionId: nat, promptId: PromptId, status: ReservationStatus)

  datatype Record = Record(
    attachmentId: AttachmentId, scope: Scope, kind: Kind, name: string, mimeType: string, sizeBytes: nat,
    url: Option<string>, stagedFile: Option<AttachmentId>, digest: Option<string>, encoding: Option<Encoding>,
    reservation: Option<Reservation>)

  /** A prompt of one session, as reservations name it. */
  datatype Key = Key(scope: Scope, sessionId: nat, promptId: PromptId)

  // ---------------------------------------------------------------- looking at the records

  function Ids(rs: seq<Record>): set<AttachmentId> {
    set r | r in rs :: r.attachmentId
  }

  predicate DistinctIds(rs: seq<Record>) {
    forall i, j :: 0 <= i < j < |rs| ==> rs[i].attachmentId != rs[j].attachmentId
  }

  predicate ReservedFor(r: Record, key: Key) {
    && r.scope == key.scope
    && r.reservation.Some?
    && r.reservation.value.sessionId == key.sessionId
    && r.reservation.value.promptId == key.promptId
  }

  predicate IsDraft(r: Record, scope: Scope) {
    r.scope == scope && r.reservation.None?
  }

  function ReservedIds(rs: seq<Record>, key: Key): set<AttachmentId> {
    set r | r in rs && ReservedFor(r, key) :: r.attachmentId
  }

  function DraftIds(rs: seq<Record>, scope: Scope): set<AttachmentId> {
    set r | r in rs && IsDraft(r, scope) :: r.attachmentId
  }

  function TotalBytes(rs: seq<Record>, scope: Scope): nat {
    if rs == [] then 0
    else TotalBytes(rs[..|rs| - 1], scope) + (if rs[|rs| - 1].scope == scope then rs[|rs| - 1].sizeBytes else 0)
  }

  /** Bytes of staged files and images; links are left out. */
  function FileBytes(rs: seq<Record>, scope: Scope): nat {
    if rs == [] then 0
    else
      var last := rs[|rs| - 1];
      FileBytes(rs[..|rs| - 1], scope) + (if last.scope == scope && !last.kind.Link? then last.sizeBytes else 0)
  }

  function DraftCount(rs: seq<Record>, scope: Scope): nat {
    if rs == [] then 0
    else DraftCount(rs[..|rs| - 1], scope) + (if IsDraft(rs[|rs| - 1], scope) then 1 else 0)
  }

  // ---------------------------------------------------------------- reservations

  function Stripped(r: Record): Record {
    r.(reservation := None)
  }

  /** `reservePrompt`: every id must be a draft of the scope. */
  predicate CanReserve(rs: seq<Record>, scope: Scope, ids: seq<AttachmentId>) {
    && |ids| <= MAX_ATTACHMENTS
    && (forall i, j :: 0 <= i < j < |ids| ==> ids[i] != ids[j])
    && Elements(ids) <= DraftIds(rs, scope)
  }

  function Reserve(rs: seq<Record>, key: Key, ids: seq<AttachmentId>): seq<Record> {
    seq(|rs|, i requires 0 <= i < |rs| =>
      if rs[i].attachmentId in ids
      then rs[i].(reservation := Some(Reservation(key.sessionId, key.promptId, Submitting)))
      else rs[i])
  }

  function SetReservationStatus(rs: seq<Record>, key: Key, status: ReservationStatus): seq<Record> {
    seq(|rs|, i requires 0 <= i < |rs| =>
      if ReservedFor(rs[i], key)
      then rs[i].(reservation := Some(rs[i].reservation.value.(status := status)))
      else rs[i])
  }

  function Release(rs: seq<Record>, key: Key): seq<Record> {
    seq(|rs|, i requires 0 <= i < |rs| => if ReservedFor(rs[i], key) then Stripped(rs[i]) else rs[i])
  }

  function RemoveIds(rs: seq<Record>, ids: set<AttachmentId>): (r: seq<Record>)
    ensures forall x :: x in r <==> x in rs && x.attachmentId !in ids
  {
    if rs == [] then []
    else
      var last, rest := rs[|rs| - 1], RemoveIds(rs[..|rs| - 1], ids);
      assert rs == rs[..|rs| - 1] + [last];
      if last.attachmentId in ids then rest else rest + [last]
  }

  function Consume(rs: seq<Record>, key: Key): seq<Record> {
    RemoveIds(rs, ReservedIds(rs, key))
  }

  // ---------------------------------------------------------------- staging

  /** The outcome of the name, type and content checks of `#stageBytes`, and the digest of the bytes. */
  datatype Content = Content(kind: Kind, name: string, mimeType: string, digest: string, encoding: Encoding)

  datatype Item = Item(bytes: string, content: Option<Content>)

  predicate SizeOk(size: int) {
    1 <= size <= MAX_ATTACHMENT_BYTES
  }

  predicate HasCapacity(rs: seq<Record>, scope: Scope, addedBytes: nat) {
    DraftCount(rs, scope) < MAX_ATTACHMENTS && TotalBytes(rs, scope) + addedBytes <= MAX_TOTAL_ATTACHMENT_BYTES
  }

  predicate SameContent(r: Record, scope: Scope, c: Content) {
    IsDraft(r, scope) && r.digest == Some(c.digest) && r.name == c.name
  }

  function NewRecord(id: AttachmentId, scope: Scope, item: Item): Record
    requires item.content.Some?
  {
    var c := item.content.value;
    Record(id, scope, c.kind, c.name, c.mimeType, |item.bytes|, None, Some(id), Some(c.digest), Some(c.encoding), None)
  }

  predicate ItemAcceptable(item: Item) {
    item.content.Some? && !item.content.value.kind.Link? && SizeOk(|item.bytes|)
  }

  /** `#stageBytes`: a duplicate draft is reused, otherwise a record with the given fresh id is added. */
  function StageOne(rs: seq<Record>, scope: Scope, item: Item, id: AttachmentId): Result<seq<Record>> {
    if !ItemAcceptable(item) then Err
    else if exists r :: r in rs && SameContent(r, scope, item.content.value) then Ok(rs)
    else if !HasCapacity(rs, scope, |item.bytes|) then Err
    else Ok(rs + [NewRecord(id, scope, item)])
  }

  /** `stageBytes` without its rollback: the first failing item ends the batch. */
  function StageItems(rs: seq<Record>, scope: Scope, items: seq<Item>, ids: seq<AttachmentId>): Result<seq<Record>>
    requires |ids| == |items|
  {
    if items == [] then Ok(rs)
    else
      var n := |items| - 1;
      var before := StageItems(rs, scope, items[..n], ids[..n]);
      if before.Err? then Err else StageOne(before.value, scope, items[n], ids[n])
  }

  function StageBatch(rs: seq<Record>, scope: Scope, items: seq<Item>, ids: seq<AttachmentId>): Result<seq<Record>>
    requires |ids| == |items|
  {
    if 1 <= |items| <= MAX_ATTACHMENTS then StageItems(rs, scope, items, ids) else Err
  }

  function LinkRecord(id: AttachmentId, scope: Scope, host: string, url: string): Record {
    Record(id, scope, Link, host, "text/uri-list", |url|, Some(url), None, None, None, None)
  }

  /** `stageLink` for a url that passed normalisation: a draft with the same url is reused. */
  function StageLink(rs: seq<Record>, scope: Scope, id: AttachmentId, host: string, url: string): Result<seq<Record>> {
    if exists r :: r in rs && IsDraft(r, scope) && r.kind.Link? && r.url == Some(url) then Ok(rs)
    else if !HasCapacity(rs, scope, 0) then Err
    else Ok(rs + [LinkRecord(id, scope, host, url)])
  }

  /** `discard`: only a draft of the scope can be removed. */
  function Discard(rs: seq<Record>, scope: Scope, id: AttachmentId): Result<seq<Record>> {
    if id in DraftIds(rs, scope) then Ok(RemoveIds(rs, {id})) else Err
  }

  // ---------------------------------------------------------------- runs of store operations

  datatype Op =
    | OpStage(scope: Scope, items: seq<Item>, ids: seq<AttachmentId>)
    | OpLink(scope: Scope, id: AttachmentId, host: string, url: string)
    | OpDiscard(scope: Scope, id: AttachmentId)
    | OpReserve(key: Key, ids: seq<AttachmentId>, promptBuilds: bool)
    | OpMark(key: Key, status: ReservationStatus)
    | OpRelease(key: Key)
    | OpConsume(key: Key)

  /** Attachment ids are random: the ones a staging operation draws are new and distinct. */
  predicate OpEnabled(rs: seq<Record>, op: Op) {
    match op
    case OpStage(_, items, ids) =>
      && |ids| == |items| && Elements(ids) !! Ids(rs)
      && (forall i, j :: 0 <= i < j < |ids| ==> ids[i] != ids[j])
    case OpLink(_, id, _, _) => id !in Ids(rs)
    case _ => true
  }

  /** A failed operation leaves the records as they were: `stageBytes` removes what it had created. */
  function Perform(rs: seq<Record>, op: Op): seq<Record>
    requires OpEnabled(rs, op)
  {
    match op
    case OpStage(scope, items, ids) => OrElse(StageBatch(rs, scope, items, ids), rs)
    case OpLink(scope, id, host, url) => OrElse(StageLink(rs, scope, id, host, url), rs)
    case OpDiscard(scope, id) => OrElse(Discard(rs, scope, id), rs)
    case OpReserve(key, ids, builds) =>
      if !CanReserve(rs, key.scope, ids) then rs
      else if builds then Reserve(rs, key, ids)
      else Unreserve(Reserve(rs, key, ids), ids)
    case OpMark(key, status) => SetReservationStatus(rs, key, status)
    case OpRelease(key) => Release(rs, key)
    case OpConsume(key) => Consume(rs, key)
  }

  function OrElse<T>(r: Result<T>, otherwise: T): T {
    if r.Ok? then r.value else otherwise
  }

  /** The rollback of `reservePrompt` when the prompt cannot be built. */
  function Unreserve(rs: seq<Record>, ids: seq<AttachmentId>): seq<Record> {
    seq(|rs|, i requires 0 <= i < |rs| => if rs[i].attachmentId in ids then Stripped(rs[i]) else rs[i])
  }

  predicate IsRun(states: seq<seq<Record>>, ops: seq<Op>) {
    && |states| == |ops| + 1
    && states[0] == []
    && (forall i :: 0 <= i < |ops| ==> OpEnabled(states[i], ops[i]) && states[i + 1] == Perform(states[i], ops[i]))
  }
}
