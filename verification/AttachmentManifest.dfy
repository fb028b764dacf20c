/**
 The manifest: what `#persistManifest` writes and `#restoreManifest` accepts
 (desktop/src/conversation-attachment-store.js).
 */
module AttachmentManifest {
  import opened Common
  import opened AttachmentStore

  /** A record as JSON keeps it: the path of the staged file is left out. */
  datatype Stored = Stored(
    attachmentId: AttachmentId, scope: Scope, kind: Kind, name: string, mimeType: string, sizeBytes: nat,
    url: Option<string>, digest: Option<string>, encoding: Option<Encoding>, reservation: Option<Reservation>)

  /** The validators of the source, as functions on values, and the files in the staging directory. */
  datatype Checks = Checks(
    scopeOk: Scope -> bool,
    reservationOk: Reservation -> bool,
    sanitizeName: string -> Option<string>,
    normalizeMime: string -> string,
    normalizeLink: string -> Option<string>,
    imageOk: (string, string) -> bool,
    digestOf: string -> string,
    files: map<AttachmentId, string>)

  function ManifestRecord(r: Record): Stored {
    Stored(r.attachmentId, r.scope, r.kind, r.name, r.mimeType, r.sizeBytes, r.url, r.digest, r.encoding, r.reservation)
  }

  function ManifestOf(rs: seq<Record>): seq<Stored> {
    seq(|rs|, i requires 0 <= i < |rs| => ManifestRecord(rs[i]))
  }

  /** `#restoreRecord`: None where the source throws. */
  function RestoreRecord(v: Stored, c: Checks): Option<Record> {
    var name := c.sanitizeName(v.name);
    var mimeType := c.normalizeMime(v.mimeType);
    if !c.scopeOk(v.scope) || name.None? || !SizeOk(v.sizeBytes) then None
    else if v.reservation.Some? && !c.reservationOk(v.reservation.value) then None
    else if v.kind.Link? then
      if v.url.None? || c.normalizeLink(v.url.value).None? then None
      else
        var url := c.normalizeLink(v.url.value).value;
        if v.sizeBytes != |url| then None
        else
          Some(Record(
            v.attachmentId, v.scope, Link, name.value, mimeType, v.sizeBytes, Some(url), None, None, None, v.reservation))
    else if v.digest.None? || v.encoding.None? || v.attachmentId !in c.files then None
    else
      var bytes := c.files[v.attachmentId];
      if !SizeOk(|bytes|) || |bytes| != v.sizeBytes || c.digestOf(bytes) != v.digest.value then None
      else if v.kind.Image? && !c.imageOk(bytes, mimeType) then None
      else Some(Record(v.attachmentId, v.scope, v.kind, name.value, mimeType, v.sizeBytes,
                       None, Some(v.attachmentId), v.digest, v.encoding, v.reservation))
  }

  /** A record whose stored fields pass their own validators and whose staged bytes are intact. */
  ghost predicate RecordIntact(r: Record, c: Checks) {
    && c.scopeOk(r.scope)
    && c.sanitizeName(r.name) == Some(r.name)
    && c.normalizeMime(r.mimeType) == r.mimeType
    && SizeOk(r.sizeBytes)
    && (r.reservation.Some? ==> c.reservationOk(r.reservation.value))
    && if r.kind.Link? then
         && r.url.Some? && c.normalizeLink(r.url.value) == r.url && r.sizeBytes == |r.url.value|
         && r.stagedFile.None? && r.digest.None? && r.encoding.None?
       else
         && r.url.None? && r.stagedFile == Some(r.attachmentId) && r.digest.Some? && r.encoding.Some?
         && r.attachmentId in c.files && |c.files[r.attachmentId]| == r.sizeBytes
         && r.digest == Some(c.digestOf(c.files[r.attachmentId]))
         && (r.kind.Image? ==> c.imageOk(c.files[r.attachmentId], r.mimeType))
  }

  /** The limits checked on a restored manifest as a whole. */
  ghost predicate Fits(rs: seq<Record>) {
    && |rs| <= MAX_MANIFEST_RECORDS
    && DistinctIds(rs)
    && ScopesWithin(rs)
  }

  lemma RecordRoundTrip(r: Record, c: Checks)
    ensures RestoreRecord(ManifestRecord(r), c) == Some(r) <==> RecordIntact(r, c)
  {
  }

  /** The running totals of the restore loop agree with the totals of the records seen so far. */
  ghost predicate TotalsFor(rs: seq<Record>, totals: map<Scope, nat>, drafts: map<Scope, nat>) {
    && (forall scope :: TotalBytes(rs, scope) == if scope in totals then totals[scope] else 0)
    && (forall scope :: DraftCount(rs, scope) == if scope in drafts then drafts[scope] else 0)
  }

  lemma TotalsGrow(rs: seq<Record>, totals: map<Scope, nat>, drafts: map<Scope, nat>, r: Record)
    requires TotalsFor(rs, totals, drafts)
    ensures var totals' := totals[r.scope := (if r.scope in totals then totals[r.scope] else 0) + r.sizeBytes];
            var drafts' := if r.reservation.None?
                           then drafts[r.scope := (if r.scope in drafts then drafts[r.scope] else 0) + 1] else drafts;
            TotalsFor(rs + [r], totals', drafts')
  {
    assert (rs + [r])[..|rs|] == rs;
  }

  /** The record loop: every stored record must restore, with an id not seen before. */
  method RestoreRecords(stored: seq<Stored>, c: Checks) returns (r: Option<seq<Record>>)
    ensures r.Some? ==> |r.value| == |stored| && DistinctIds(r.value)
    ensures r.Some? ==> forall i :: 0 <= i < |stored| ==> RestoreRecord(stored[i], c) == Some(r.value[i])
    ensures r.None? ==>
      (|| (exists i :: 0 <= i < |stored| && RestoreRecord(stored[i], c).None?)
       || (exists i, j :: 0 <= i < j < |stored| && stored[i].attachmentId == stored[j].attachmentId))
  {
    var restored: seq<Record>, seen: set<AttachmentId> := [], {};
    for i := 0 to |stored|
      invariant |restored| == i && DistinctIds(restored)
      invariant forall k :: 0 <= k < i ==> RestoreRecord(stored[k], c) == Some(restored[k])
      invariant forall k :: 0 <= k < i ==> restored[k].attachmentId == stored[k].attachmentId
      invariant forall x :: x in seen <==> exists k :: 0 <= k < i && restored[k].attachmentId == x
    {
      var record := RestoreRecord(stored[i], c);
      if record.None? {
        return None;
      }
      if record.value.attachmentId in seen {
        return None;
      }
      restored, seen := restored + [record.value], seen + {record.value.attachmentId};
    }
    r := Some(restored);
  }

  /** No scope is over its limits. */
  ghost predicate ScopesWithin(rs: seq<Record>) {
    forall scope :: TotalBytes(rs, scope) <= MAX_TOTAL_ATTACHMENT_BYTES && DraftCount(rs, scope) <= MAX_ATTACHMENTS
  }

  predicate AllAtMost(m: map<Scope, nat>, limit: nat) {
    forall scope :: scope in m ==> m[scope] <= limit
  }

  lemma ScopesInMaps(rs: seq<Record>, totals: map<Scope, nat>, drafts: map<Scope, nat>)
    requires TotalsFor(rs, totals, drafts)
    ensures ScopesWithin(rs) <==> AllAtMost(totals, MAX_TOTAL_ATTACHMENT_BYTES) && AllAtMost(drafts, MAX_ATTACHMENTS)
  {
    if ScopesWithin(rs) {
      forall scope | scope in totals ensures totals[scope] <= MAX_TOTAL_ATTACHMENT_BYTES {
        assert TotalBytes(rs, scope) == totals[scope];
      }
      forall scope | scope in drafts ensures drafts[scope] <= MAX_ATTACHMENTS {
        assert DraftCount(rs, scope) == drafts[scope];
      }
    }
  }

  method ScopesFit(rs: seq<Record>) returns (ok: bool)
    ensures ok <==> ScopesWithin(rs)
  {
    var totals: map<Scope, nat>, drafts: map<Scope, nat> := map[], map[];
    for i := 0 to |rs|
      invariant TotalsFor(rs[..i], totals, drafts)
    {
      var r := rs[i];
      TotalsGrow(rs[..i], totals, drafts, r);
      assert rs[..i + 1] == rs[..i] + [r];
      totals := totals[r.scope := (if r.scope in totals then totals[r.scope] else 0) + r.sizeBytes];
      if r.reservation.None? {
        drafts := drafts[r.scope := (if r.scope in drafts then drafts[r.scope] else 0) + 1];
      }
    }
    assert rs[..|rs|] == rs;
    ok := AllAtMost(totals, MAX_TOTAL_ATTACHMENT_BYTES) && AllAtMost(drafts, MAX_ATTACHMENTS);
    ScopesInMaps(rs, totals, drafts);
  }

  /** `#restoreManifest` for a manifest that exists and parses: None means the whole store starts empty. */
  method RestoreManifest(stored: seq<Stored>, c: Checks) returns (r: Option<seq<Record>>)
    ensures r.Some? ==>
      && Fits(r.value) && |r.value| == |stored|
      && (forall i :: 0 <= i < |stored| ==> RestoreRecord(stored[i], c) == Some(r.value[i]))
    ensures forall rs ::
      |rs| == |stored| && Fits(rs) && (forall i :: 0 <= i < |stored| ==> RestoreRecord(stored[i], c) == Some(rs[i]))
      ==> r == Some(rs)
  {
    if |stored| > MAX_MANIFEST_RECORDS {
      return None;
    }
    var restored := RestoreRecords(stored, c);
    if restored.None? {
      return None;
    }
    var fit := ScopesFit(restored.value);
    forall rs | |rs| == |stored| && (forall i :: 0 <= i < |stored| ==> RestoreRecord(stored[i], c) == Some(rs[i]))
      ensures rs == restored.value
    {
    }
    r := if fit then restored else None;
  }

  /**
   Writing the manifest and reading it back gives the same records and reservations in the same order
   if and only if every record is intact and the store fits the limits of a manifest.
   */
  method ManifestRoundTrip(rs: seq<Record>, c: Checks) returns (r: Option<seq<Record>>)
    ensures r == Some(rs) <==> Fits(rs) && forall x :: x in rs ==> RecordIntact(x, c)
  {
    r := RestoreManifest(ManifestOf(rs), c);
    forall i | 0 <= i < |rs| ensures RestoreRecord(ManifestOf(rs)[i], c) == Some(rs[i]) <==> RecordIntact(rs[i], c) {
      RecordRoundTrip(rs[i], c);
    }
  }

  // ---------------------------------------------------------------- when a release makes the manifest unreadable

  function ReservedCount(rs: seq<Record>, key: Key): nat {
    if rs == [] then 0
    else ReservedCount(rs[..|rs| - 1], key) + (if ReservedFor(rs[|rs| - 1], key) then 1 else 0)
  }

  lemma {:induction false} ReleaseCounts(rs: seq<Record>, key: Key, scope: Scope)
    ensures DraftCount(Release(rs, key), scope) ==
            DraftCount(rs, scope) + (if scope == key.scope then ReservedCount(rs, key) else 0)
    ensures TotalBytes(Release(rs, key), scope) == TotalBytes(rs, scope)
  {
    if rs != [] {
      var n := |rs| - 1;
      ReleaseCounts(rs[..n], key, scope);
      assert Release(rs, key)[..n] == Release(rs[..n], key);
    }
  }

  lemma ReleaseKeepsDistinct(rs: seq<Record>, key: Key)
    ensures DistinctIds(Release(rs, key)) <==> DistinctIds(rs)
  {
    var after := Release(rs, key);
    assert forall i :: 0 <= i < |rs| ==> after[i].attachmentId == rs[i].attachmentId;
    if DistinctIds(after) {
      assert forall i, j :: 0 <= i < j < |rs| ==> after[i].attachmentId != after[j].attachmentId;
    }
  }

  /**
   Releasing a reservation does not look at the draft limit. A store that fits keeps fitting if and only
   if the drafts of the scope and the released attachments together stay within ten.
   */
  lemma ReleaseFitsIff(rs: seq<Record>, key: Key)
    requires Fits(rs)
    ensures Fits(Release(rs, key)) <==> DraftCount(rs, key.scope) + ReservedCount(rs, key) <= MAX_ATTACHMENTS
  {
    var after := Release(rs, key);
    ReleaseKeepsDistinct(rs, key);
    forall scope ensures
      && DraftCount(after, scope) == DraftCount(rs, scope) + (if scope == key.scope then ReservedCount(rs, key) else 0)
      && TotalBytes(after, scope) == TotalBytes(rs, scope)
    {
      ReleaseCounts(rs, key, scope);
    }
    assert DraftCount(after, key.scope) == DraftCount(rs, key.scope) + ReservedCount(rs, key);
  }
}
