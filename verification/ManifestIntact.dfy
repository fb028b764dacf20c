/**
 What a restart finds after any run of store operations (desktop/src/conversation-attachment-store.js):
 files and images always restore, links only when normalising their text and name again changes nothing.
 */
module ManifestIntact {
  import opened Common
  import opened AttachmentStore
  import opened AttachmentManifest

  const MAX_LINK_CHARS := 2048

  function StagedIds(rs: seq<Record>): set<AttachmentId> {
    set r | r in rs && r.stagedFile.Some? :: r.attachmentId
  }

  /** The staging directory across one operation: files of kept records keep their bytes, new files hold their item. */
  ghost predicate FilesFollow(
      rs: seq<Record>, files: map<AttachmentId, string>, op: Op, after: map<AttachmentId, string>)
    requires OpEnabled(rs, op)
  {
    && after.Keys == StagedIds(Perform(rs, op))
    && (forall id :: id in files && id in after ==> after[id] == files[id])
    && (op.OpStage? ==> forall i :: 0 <= i < |op.ids| && op.ids[i] in after ==> after[op.ids[i]] == op.items[i].bytes)
  }

  ghost predicate ItemChecked(item: Item, c: Checks) {
    item.content.Some? ==>
      var d := item.content.value;
      && c.sanitizeName(d.name) == Some(d.name)
      && c.normalizeMime(d.mimeType) == d.mimeType
      && c.digestOf(item.bytes) == d.digest
      && (d.kind.Image? ==> c.imageOk(item.bytes, d.mimeType))
  }

  /**
   What the validators of the source give for an operation that is carried out: sanitised names and
   normalised types do not change when checked again, and the digest is that of the bytes. For the
   name and the text of a link no such thing is said.
   */
  ghost predicate Checked(op: Op, c: Checks) {
    match op
    case OpStage(scope, items, _) => c.scopeOk(scope) && forall i :: 0 <= i < |items| ==> ItemChecked(items[i], c)
    case OpLink(scope, _, _, url) => c.scopeOk(scope) && SizeOk(|url|) && c.normalizeMime("text/uri-list") == "text/uri-list"
    case OpReserve(key, _, _) => c.reservationOk(Reservation(key.sessionId, key.promptId, Submitting))
    case OpMark(key, status) => c.reservationOk(Reservation(key.sessionId, key.promptId, status))
    case _ => true
  }

  /** Everything a restart asks of a record, save that its link passes normalisation unchanged. */
  ghost predicate Sound(r: Record, c: Checks, files: map<AttachmentId, string>) {
    if r.kind.Link? then
      && c.scopeOk(r.scope) && SizeOk(r.sizeBytes) && c.normalizeMime(r.mimeType) == r.mimeType
      && (r.reservation.Some? ==> c.reservationOk(r.reservation.value))
      && r.url.Some? && r.sizeBytes == |r.url.value|
      && r.stagedFile.None? && r.digest.None? && r.encoding.None?
    else
      RecordIntact(r, c.(files := files))
  }

  predicate LinkSurvives(r: Record, c: Checks) {
    r.kind.Link? && r.url.Some? && c.sanitizeName(r.name) == Some(r.name) && c.normalizeLink(r.url.value) == r.url
  }

  ghost predicate AllSound(rs: seq<Record>, c: Checks, files: map<AttachmentId, string>) {
    forall r :: r in rs ==> Sound(r, c, files)
  }

  /** The records of a batch are old ones or come from its items. */
  lemma {:induction false} StagedFrom(rs: seq<Record>, scope: Scope, items: seq<Item>, ids: seq<AttachmentId>, r: Record)
    requires |ids| == |items| && StageItems(rs, scope, items, ids).Ok? && r in StageItems(rs, scope, items, ids).value
    ensures r in rs || exists i :: 0 <= i < |items| && ItemAcceptable(items[i]) && r == NewRecord(ids[i], scope, items[i])
  {
    if items != [] {
      var n := |items| - 1;
      var before := StageItems(rs, scope, items[..n], ids[..n]).value;
      if r in before {
        StagedFrom(rs, scope, items[..n], ids[..n], r);
        if r !in rs {
          var i :| 0 <= i < n && ItemAcceptable(items[..n][i]) && r == NewRecord(ids[..n][i], scope, items[..n][i]);
          assert items[..n][i] == items[i] && ids[..n][i] == ids[i];
        }
      } else {
        assert r == NewRecord(ids[n], scope, items[n]);
      }
    }
  }

  /** A record that stays, whatever happens to its reservation, stays sound. */
  lemma KeptIsSound(
      r: Record, c: Checks, files: map<AttachmentId, string>, kept: Record, after: map<AttachmentId, string>)
    requires Sound(r, c, files) && Stripped(kept) == Stripped(r)
    requires kept.reservation.Some? ==> c.reservationOk(kept.reservation.value)
    requires r.stagedFile.Some? ==> r.attachmentId in after
    requires forall id :: id in files && id in after ==> after[id] == files[id]
    ensures Sound(kept, c, after)
  {
    assert r == Stripped(r).(reservation := r.reservation);
    assert kept == r.(reservation := kept.reservation);
  }

  lemma StepKeepsSound(
      rs: seq<Record>, c: Checks, files: map<AttachmentId, string>, op: Op, after: map<AttachmentId, string>)
    requires AllSound(rs, c, files) && OpEnabled(rs, op) && Checked(op, c) && FilesFollow(rs, files, op, after)
    ensures AllSound(Perform(rs, op), c, after)
  {
    var next := Perform(rs, op);
    forall r | r in next ensures Sound(r, c, after) {
      assert r.stagedFile.Some? ==> r.attachmentId in StagedIds(next);
      if r in rs {
        KeptIsSound(r, c, files, r, after);
      } else if op.OpStage? {
        StagedFrom(rs, op.scope, op.items, op.ids, r);
        var i :| 0 <= i < |op.items| && ItemAcceptable(op.items[i]) && r == NewRecord(op.ids[i], op.scope, op.items[i]);
        assert ItemChecked(op.items[i], c) && after[op.ids[i]] == op.items[i].bytes;
      } else if op.OpLink? {
        assert r == LinkRecord(op.id, op.scope, op.host, op.url);
      } else {
        var before := ReservationChange(rs, op, c, r);
        KeptIsSound(before, c, files, r, after);
      }
    }
  }

  /** A record that only an operation on reservations can have changed. */
  lemma ReservationChange(rs: seq<Record>, op: Op, c: Checks, r: Record) returns (before: Record)
    requires OpEnabled(rs, op) && Checked(op, c) && !op.OpStage? && !op.OpLink?
    requires r in Perform(rs, op) && r !in rs
    ensures before in rs && Stripped(r) == Stripped(before)
    ensures r.reservation.Some? ==> c.reservationOk(r.reservation.value)
  {
    var next := Perform(rs, op);
    var i :| 0 <= i < |next| && next[i] == r;
    before := rs[i];
  }

  /** Runs of operations together with the staging directory. */
  ghost predicate IsStagingRun(states: seq<seq<Record>>, files: seq<map<AttachmentId, string>>, ops: seq<Op>, c: Checks) {
    && IsRun(states, ops)
    && |files| == |states| && files[0] == map[]
    && (forall i :: 0 <= i < |ops| ==> Checked(ops[i], c) && FilesFollow(states[i], files[i], ops[i], files[i + 1]))
  }

  lemma {:induction false} RunKeepsSound(
      states: seq<seq<Record>>, files: seq<map<AttachmentId, string>>, ops: seq<Op>, c: Checks, n: nat)
    requires IsStagingRun(states, files, ops, c) && n <= |ops|
    ensures AllSound(states[n], c, files[n])
  {
    if n > 0 {
      RunKeepsSound(states, files, ops, c, n - 1);
      StepKeepsSound(states[n - 1], c, files[n - 1], ops[n - 1], files[n]);
    }
  }

  /**
   A restart after any run: the manifest written last gives back every record and reservation if and only if
   the store fits the limits and every link in it passes the checks once more without changing.
   */
  method RestartAfterRun(
      ghost states: seq<seq<Record>>, ghost files: seq<map<AttachmentId, string>>, ghost ops: seq<Op>,
      last: seq<Record>, c: Checks)
    returns (r: Option<seq<Record>>)
    requires IsStagingRun(states, files, ops, c.(files := map[])) && last == states[|ops|] && c.files == files[|ops|]
    ensures r == Some(last) <==> Fits(last) && forall x :: x in last && x.kind.Link? ==> LinkSurvives(x, c)
  {
    var none := c.(files := map[]);
    RunKeepsSound(states, files, ops, none, |ops|);
    forall x | x in last ensures RecordIntact(x, c) <==> (x.kind.Link? ==> LinkSurvives(x, c)) {
      assert Sound(x, none, c.files) && none.(files := c.files) == c;
    }
    r := ManifestRoundTrip(last, c);
  }

  /**
   Normalising can lengthen the text of a link, and only the text before it was measured. Such a link is staged,
   and the manifest that holds it is refused by every check that has the limit of the source.
   */
  lemma LengthenedLinkIsRefused(rs: seq<Record>, op: Op, c: Checks)
    requires op.OpLink? && OpEnabled(rs, op) && StageLink(rs, op.scope, op.id, op.host, op.url).Ok?
    requires forall text :: |text| > MAX_LINK_CHARS ==> c.normalizeLink(text).None?
    ensures |op.url| > MAX_LINK_CHARS ==> exists r :: r in Perform(rs, op) && RestoreRecord(ManifestRecord(r), c).None?
  {
    if exists r :: r in rs && IsDraft(r, op.scope) && r.kind.Link? && r.url == Some(op.url) {
      var r :| r in rs && IsDraft(r, op.scope) && r.kind.Link? && r.url == Some(op.url);
      assert r in Perform(rs, op);
    } else {
      assert LinkRecord(op.id, op.scope, op.host, op.url) in Perform(rs, op);
    }
  }
}
