/** What staging and discarding do to the records (desktop/src/conversation-attachment-store.js). */
module AttachmentEffects {
  import opened Common
  import opened AttachmentStore
  import AP = AttachmentProofs

  /** Why an item cannot be staged: it fails its own checks, or it is new and there is no room. */
  predicate Refused(rs: seq<Record>, scope: Scope, item: Item) {
    || item.content.None? || item.content.value.kind.Link? || |item.bytes| < 1 || |item.bytes| > MAX_ATTACHMENT_BYTES
    || (!IsStaged(rs, scope, item.content.value)
        && (DraftCount(rs, scope) >= MAX_ATTACHMENTS || TotalBytes(rs, scope) + |item.bytes| > MAX_TOTAL_ATTACHMENT_BYTES))
  }

  /** Some draft of the scope has this name and digest. */
  predicate IsStaged(rs: seq<Record>, scope: Scope, c: Content) {
    exists r :: r in rs && IsDraft(r, scope) && r.name == c.name && r.digest == Some(c.digest)
  }

  /** A draft that holds exactly this item. */
  predicate Holds(r: Record, id: AttachmentId, scope: Scope, item: Item) {
    && item.content.Some?
    && r.attachmentId == id && r.scope == scope && r.reservation.None?
    && r.kind == item.content.value.kind && r.name == item.content.value.name && r.mimeType == item.content.value.mimeType
    && r.sizeBytes == |item.bytes| && r.digest == Some(item.content.value.digest)
    && r.encoding == Some(item.content.value.encoding) && r.stagedFile == Some(id) && r.url.None?
  }

  /** An item is refused, found among the drafts, or appended as a new draft that holds it. */
  lemma StagingOne(rs: seq<Record>, scope: Scope, item: Item, id: AttachmentId)
    ensures var after := StageOne(rs, scope, item, id);
      if Refused(rs, scope, item) then after.Err?
      else if IsStaged(rs, scope, item.content.value) then after == Ok(rs)
      else after.Ok? && |after.value| == |rs| + 1 && after.value[..|rs|] == rs && Holds(after.value[|rs|], id, scope, item)
  {
    if item.content.Some? {
      assert forall r :: SameContent(r, scope, item.content.value) <==>
        IsDraft(r, scope) && r.name == item.content.value.name && r.digest == Some(item.content.value.digest);
    }
  }

  /** The record holds one of the items, under the id drawn for it. */
  predicate HoldsOneOf(r: Record, ids: seq<AttachmentId>, scope: Scope, items: seq<Item>)
    requires |ids| == |items|
  {
    exists i :: 0 <= i < |items| && Holds(r, ids[i], scope, items[i])
  }

  predicate AllStaged(rs: seq<Record>, scope: Scope, items: seq<Item>) {
    forall i :: 0 <= i < |items| ==> items[i].content.Some? && IsStaged(rs, scope, items[i].content.value)
  }

  lemma HoldsOneOfMore(r: Record, ids: seq<AttachmentId>, scope: Scope, items: seq<Item>)
    requires |ids| == |items| > 0 && HoldsOneOf(r, ids[..|items| - 1], scope, items[..|items| - 1])
    ensures HoldsOneOf(r, ids, scope, items)
  {
    var n := |items| - 1;
    var i :| 0 <= i < n && Holds(r, ids[..n][i], scope, items[..n][i]);
    assert Holds(r, ids[i], scope, items[i]);
  }

  lemma AllStagedMore(before: seq<Record>, after: seq<Record>, scope: Scope, items: seq<Item>)
    requires before <= after && items != [] && AllStaged(before, scope, items[..|items| - 1])
    requires items[|items| - 1].content.Some? && IsStaged(after, scope, items[|items| - 1].content.value)
    ensures AllStaged(after, scope, items)
  {
    var n := |items| - 1;
    forall i | 0 <= i < n ensures items[i].content.Some? && IsStaged(after, scope, items[i].content.value) {
      assert items[..n][i] == items[i];
      StagedStays(before, after, scope, items[i].content.value);
    }
  }

  /** A batch that is staged appends new drafts only, each holding one of its items, and finds every item afterwards. */
  lemma {:induction false} StagingBatch(rs: seq<Record>, scope: Scope, items: seq<Item>, ids: seq<AttachmentId>)
    requires |ids| == |items| && StageItems(rs, scope, items, ids).Ok?
    ensures var after := StageItems(rs, scope, items, ids).value;
      && rs <= after && AllStaged(after, scope, items)
      && forall k :: |rs| <= k < |after| ==> HoldsOneOf(after[k], ids, scope, items)
  {
    if items != [] {
      var n := |items| - 1;
      var before, after := StageItems(rs, scope, items[..n], ids[..n]).value, StageItems(rs, scope, items, ids).value;
      StagingBatch(rs, scope, items[..n], ids[..n]);
      LastOfBatch(before, scope, items[n], ids[n], after);
      AllStagedMore(before, after, scope, items);
      forall k | |rs| <= k < |after| ensures HoldsOneOf(after[k], ids, scope, items) {
        if k < |before| {
          assert after[k] == before[k];
          HoldsOneOfMore(after[k], ids, scope, items);
        } else {
          assert Holds(after[k], ids[n], scope, items[n]);
        }
      }
    }
  }

  lemma LastOfBatch(before: seq<Record>, scope: Scope, item: Item, id: AttachmentId, after: seq<Record>)
    requires StageOne(before, scope, item, id) == Ok(after)
    ensures item.content.Some? && before <= after && IsStaged(after, scope, item.content.value)
    ensures forall k :: |before| <= k < |after| ==> Holds(after[k], id, scope, item)
  {
    StagingOne(before, scope, item, id);
    if |after| > |before| { assert after[|before|] in after; }
  }

  lemma StagedStays(before: seq<Record>, after: seq<Record>, scope: Scope, c: Content)
    requires before <= after && IsStaged(before, scope, c)
    ensures IsStaged(after, scope, c)
  {
    var r :| r in before && IsDraft(r, scope) && r.name == c.name && r.digest == Some(c.digest);
    var k :| 0 <= k < |before| && before[k] == r;
    assert after[k] == r;
  }

  /** A link is found among the drafts, refused for want of room, or appended under its host name with its text. */
  lemma StagingLink(rs: seq<Record>, scope: Scope, id: AttachmentId, host: string, url: string)
    ensures var after := StageLink(rs, scope, id, host, url);
      if exists r :: r in rs && IsDraft(r, scope) && r.kind.Link? && r.url == Some(url) then after == Ok(rs)
      else if DraftCount(rs, scope) >= MAX_ATTACHMENTS || TotalBytes(rs, scope) > MAX_TOTAL_ATTACHMENT_BYTES then after.Err?
      else after.Ok? && |after.value| == |rs| + 1 && after.value[..|rs|] == rs
           && var r := after.value[|rs|];
              && r.attachmentId == id && r.scope == scope && r.kind == Link && r.name == host
              && r.mimeType == "text/uri-list" && r.sizeBytes == |url| && r.url == Some(url) && r.reservation.None?
              && r.stagedFile.None? && r.digest.None? && r.encoding.None?
  {
  }

  /** Discarding takes exactly the named draft of the scope away, and is refused for anything else. */
  lemma DiscardingOne(rs: seq<Record>, scope: Scope, id: AttachmentId)
    ensures var after := Discard(rs, scope, id);
      if exists r :: r in rs && r.attachmentId == id && r.scope == scope && r.reservation.None?
      then after.Ok? && forall r :: r in after.value <==> r in rs && r.attachmentId != id
      else after.Err?
  {
  }

  /** The ids are at most ten different drafts of the scope. */
  predicate AreDrafts(rs: seq<Record>, scope: Scope, ids: seq<AttachmentId>) {
    && |ids| <= 10
    && (forall i, j :: 0 <= i < j < |ids| ==> ids[i] != ids[j])
    && (forall i :: 0 <= i < |ids| ==> IsDraftId(rs, scope, ids[i]))
  }

  predicate IsDraftId(rs: seq<Record>, scope: Scope, id: AttachmentId) {
    exists r :: r in rs && r.attachmentId == id && r.scope == scope && r.reservation.None?
  }

  lemma DraftIdsAre(rs: seq<Record>, scope: Scope, id: AttachmentId)
    ensures IsDraftId(rs, scope, id) <==> id in DraftIds(rs, scope)
  {
    if IsDraftId(rs, scope, id) {
      var r :| r in rs && r.attachmentId == id && r.scope == scope && r.reservation.None?;
      assert IsDraft(r, scope);
    }
  }

  lemma DraftsCanBeReserved(rs: seq<Record>, scope: Scope, ids: seq<AttachmentId>)
    ensures AreDrafts(rs, scope, ids) <==> CanReserve(rs, scope, ids)
  {
    forall id ensures IsDraftId(rs, scope, id) <==> id in DraftIds(rs, scope) {
      DraftIdsAre(rs, scope, id);
    }
    assert forall i :: 0 <= i < |ids| ==> ids[i] in Elements(ids);
  }

  /** Reserving waits for the Host on exactly the named drafts, or changes nothing: when refused, or when the prompt cannot be built. */
  lemma Reserving(rs: seq<Record>, key: Key, ids: seq<AttachmentId>, builds: bool)
    requires DistinctIds(rs)
    ensures var after := Perform(rs, OpReserve(key, ids, builds));
      if AreDrafts(rs, key.scope, ids) && builds then
        |after| == |rs| && forall i :: 0 <= i < |rs| ==>
          after[i] == if rs[i].attachmentId in ids
                      then rs[i].(reservation := Some(Reservation(key.sessionId, key.promptId, Submitting))) else rs[i]
      else after == rs
  {
    DraftsCanBeReserved(rs, key.scope, ids);
    if CanReserve(rs, key.scope, ids) && !builds { AP.UnreserveUndoes(rs, key, ids); }
  }
}
