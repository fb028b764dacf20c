/** What store operations keep: bytes per scope, distinct ids, and everything outside their target. */
module AttachmentProofs {
  import opened Common
  import opened AttachmentStore

  // ---------------------------------------------------------------- operations that only touch reservations

  /** Same records in the same order, apart from their reservations. */
  ghost predicate SameButReservations(a: seq<Record>, b: seq<Record>) {
    |a| == |b| && forall i :: 0 <= i < |a| ==> Stripped(a[i]) == Stripped(b[i])
  }

  lemma {:induction false} SameFileBytes(a: seq<Record>, b: seq<Record>, scope: Scope)
    requires SameButReservations(a, b)
    ensures FileBytes(a, scope) == FileBytes(b, scope) && TotalBytes(a, scope) == TotalBytes(b, scope)
  {
    if a != [] {
      var n := |a| - 1;
      assert Stripped(a[n]) == Stripped(b[n]);
      assert a[n].scope == b[n].scope && a[n].kind == b[n].kind && a[n].sizeBytes == b[n].sizeBytes;
      SameFileBytes(a[..n], b[..n], scope);
    }
  }

  lemma SameIds(a: seq<Record>, b: seq<Record>)
    requires SameButReservations(a, b)
    ensures Ids(a) == Ids(b)
    ensures DistinctIds(a) ==> DistinctIds(b)
  {
    assert forall i :: 0 <= i < |a| ==> Stripped(a[i]).attachmentId == a[i].attachmentId;
    assert forall i :: 0 <= i < |a| ==> Stripped(b[i]).attachmentId == b[i].attachmentId;
    forall x ensures x in Ids(a) <==> x in Ids(b) {
      if x in Ids(a) {
        var i :| 0 <= i < |a| && a[i].attachmentId == x;
        assert b[i].attachmentId == x && b[i] in b;
      }
      if x in Ids(b) {
        var i :| 0 <= i < |b| && b[i].attachmentId == x;
        assert a[i].attachmentId == x && a[i] in a;
      }
    }
  }

  lemma ReservationOpsKeepTheRest(rs: seq<Record>, key: Key, status: ReservationStatus, ids: seq<AttachmentId>)
    ensures SameButReservations(rs, SetReservationStatus(rs, key, status))
    ensures SameButReservations(rs, Release(rs, key))
    ensures SameButReservations(rs, Reserve(rs, key, ids))
    ensures SameButReservations(rs, Unreserve(rs, ids))
  {
  }

  // ---------------------------------------------------------------- removal

  lemma AppendBytes(rs: seq<Record>, r: Record, scope: Scope)
    ensures FileBytes(rs + [r], scope) ==
            FileBytes(rs, scope) + (if r.scope == scope && !r.kind.Link? then r.sizeBytes else 0)
    ensures TotalBytes(rs + [r], scope) == TotalBytes(rs, scope) + (if r.scope == scope then r.sizeBytes else 0)
  {
    assert (rs + [r])[..|rs|] == rs;
  }

  lemma {:induction false} RemovalShrinks(rs: seq<Record>, ids: set<AttachmentId>, scope: Scope)
    ensures FileBytes(RemoveIds(rs, ids), scope) <= FileBytes(rs, scope)
    ensures TotalBytes(RemoveIds(rs, ids), scope) <= TotalBytes(rs, scope)
  {
    if rs != [] {
      var front, last := rs[..|rs| - 1], rs[|rs| - 1];
      RemovalShrinks(front, ids, scope);
      AppendBytes(RemoveIds(front, ids), last, scope);
      AppendBytes(front, last, scope);
      assert rs == front + [last];
    }
  }

  lemma {:induction false} RemovalKeepsDistinct(rs: seq<Record>, ids: set<AttachmentId>)
    requires DistinctIds(rs)
    ensures DistinctIds(RemoveIds(rs, ids))
  {
    if rs != [] {
      RemovalKeepsDistinct(rs[..|rs| - 1], ids);
      var rest := RemoveIds(rs[..|rs| - 1], ids);
      forall i | 0 <= i < |rest| ensures rest[i].attachmentId != rs[|rs| - 1].attachmentId {
        assert rest[i] in rs[..|rs| - 1];
      }
    }
  }

  // ---------------------------------------------------------------- bytes per scope

  lemma {:induction false} FilesWithinTotal(rs: seq<Record>, scope: Scope)
    ensures FileBytes(rs, scope) <= TotalBytes(rs, scope)
  {
    if rs != [] {
      FilesWithinTotal(rs[..|rs| - 1], scope);
    }
  }

  ghost predicate BytesBounded(rs: seq<Record>) {
    forall scope :: FileBytes(rs, scope) <= MAX_TOTAL_ATTACHMENT_BYTES
  }

  lemma StageOneKeeps(rs: seq<Record>, scope: Scope, item: Item, id: AttachmentId)
    requires DistinctIds(rs) && id !in Ids(rs)
    requires StageOne(rs, scope, item, id).Ok?
    ensures BytesBounded(rs) ==> BytesBounded(StageOne(rs, scope, item, id).value)
    ensures DistinctIds(StageOne(rs, scope, item, id).value)
    ensures Ids(StageOne(rs, scope, item, id).value) <= Ids(rs) + {id}
  {
    var after := StageOne(rs, scope, item, id).value;
    if after != rs {
      var r := NewRecord(id, scope, item);
      assert after == rs + [r];
      forall s ensures BytesBounded(rs) ==> FileBytes(after, s) <= MAX_TOTAL_ATTACHMENT_BYTES {
        AppendBytes(rs, r, s);
        FilesWithinTotal(rs, s);
      }
      assert forall i :: 0 <= i < |rs| ==> rs[i] in rs;
    }
  }

  lemma {:induction false} StageItemsKeeps(rs: seq<Record>, scope: Scope, items: seq<Item>, ids: seq<AttachmentId>)
    requires |ids| == |items| && DistinctIds(rs)
    requires Elements(ids) !! Ids(rs)
    requires forall i, j :: 0 <= i < j < |ids| ==> ids[i] != ids[j]
    requires StageItems(rs, scope, items, ids).Ok?
    ensures BytesBounded(rs) ==> BytesBounded(StageItems(rs, scope, items, ids).value)
    ensures DistinctIds(StageItems(rs, scope, items, ids).value)
    ensures Ids(StageItems(rs, scope, items, ids).value) <= Ids(rs) + Elements(ids)
  {
    if items != [] {
      var n := |items| - 1;
      assert Elements(ids) == Elements(ids[..n]) + {ids[n]} by {
        assert ids == ids[..n] + [ids[n]];
      }
      StageItemsKeeps(rs, scope, items[..n], ids[..n]);
      StageOneKeeps(StageItems(rs, scope, items[..n], ids[..n]).value, scope, items[n], ids[n]);
    }
  }

  lemma StageLinkKeeps(rs: seq<Record>, scope: Scope, id: AttachmentId, host: string, url: string)
    requires DistinctIds(rs) && id !in Ids(rs)
    requires StageLink(rs, scope, id, host, url).Ok?
    ensures BytesBounded(rs) ==> BytesBounded(StageLink(rs, scope, id, host, url).value)
    ensures DistinctIds(StageLink(rs, scope, id, host, url).value)
  {
    forall s ensures BytesBounded(rs) ==> FileBytes(StageLink(rs, scope, id, host, url).value, s) <= MAX_TOTAL_ATTACHMENT_BYTES {
      AppendBytes(rs, LinkRecord(id, scope, host, url), s);
    }
    assert forall i :: 0 <= i < |rs| ==> rs[i] in rs;
  }

  lemma SameStaysBounded(a: seq<Record>, b: seq<Record>)
    requires SameButReservations(a, b) && DistinctIds(a)
    ensures (BytesBounded(a) ==> BytesBounded(b)) && DistinctIds(b)
  {
    SameIds(a, b);
    forall s ensures BytesBounded(a) ==> FileBytes(b, s) <= MAX_TOTAL_ATTACHMENT_BYTES {
      SameFileBytes(a, b, s);
    }
  }

  lemma RemovalStaysBounded(rs: seq<Record>, ids: set<AttachmentId>)
    requires DistinctIds(rs)
    ensures (BytesBounded(rs) ==> BytesBounded(RemoveIds(rs, ids))) && DistinctIds(RemoveIds(rs, ids))
  {
    RemovalKeepsDistinct(rs, ids);
    forall s ensures BytesBounded(rs) ==> FileBytes(RemoveIds(rs, ids), s) <= MAX_TOTAL_ATTACHMENT_BYTES {
      RemovalShrinks(rs, ids, s);
    }
  }

  lemma OperationKeepsBound(rs: seq<Record>, op: Op)
    requires DistinctIds(rs) && OpEnabled(rs, op)
    ensures (BytesBounded(rs) ==> BytesBounded(Perform(rs, op))) && DistinctIds(Perform(rs, op))
  {
    match op
    case OpStage(scope, items, ids) =>
      if StageBatch(rs, scope, items, ids).Ok? {
        StageItemsKeeps(rs, scope, items, ids);
      }
    case OpLink(scope, id, host, url) =>
      if StageLink(rs, scope, id, host, url).Ok? {
        StageLinkKeeps(rs, scope, id, host, url);
      }
    case OpDiscard(scope, id) => RemovalStaysBounded(rs, {id});
    case OpReserve(key, ids, builds) =>
      ReservationOpsKeepTheRest(rs, key, Submitting, ids);
      SameStaysBounded(rs, Reserve(rs, key, ids));
      ReservationOpsKeepTheRest(Reserve(rs, key, ids), key, Submitting, ids);
      SameStaysBounded(Reserve(rs, key, ids), Unreserve(Reserve(rs, key, ids), ids));
    case OpMark(key, status) =>
      ReservationOpsKeepTheRest(rs, key, status, []);
      SameStaysBounded(rs, SetReservationStatus(rs, key, status));
    case OpRelease(key) =>
      ReservationOpsKeepTheRest(rs, key, Submitting, []);
      SameStaysBounded(rs, Release(rs, key));
    case OpConsume(key) => RemovalStaysBounded(rs, ReservedIds(rs, key));
  }

  /** Over any run of complete operations, files and images of a scope never exceed 50 MiB. */
  lemma {:induction false} RunKeepsBound(states: seq<seq<Record>>, ops: seq<Op>, i: nat)
    requires IsRun(states, ops) && i < |states|
    ensures BytesBounded(states[i]) && DistinctIds(states[i])
  {
    if i > 0 {
      RunKeepsBound(states, ops, i - 1);
      OperationKeepsBound(states[i - 1], ops[i - 1]);
    }
  }

  // ---------------------------------------------------------------- frames of the reservation operations

  lemma MembersById(rs: seq<Record>, r: Record, x: Record)
    requires DistinctIds(rs) && r in rs && x in rs && r.attachmentId == x.attachmentId
    ensures r == x
  {
  }

  lemma UnreserveUndoes(rs: seq<Record>, key: Key, ids: seq<AttachmentId>)
    requires DistinctIds(rs) && CanReserve(rs, key.scope, ids)
    ensures Unreserve(Reserve(rs, key, ids), ids) == rs
  {
    forall i | 0 <= i < |rs| && rs[i].attachmentId in ids ensures rs[i].reservation.None? {
      assert rs[i].attachmentId in DraftIds(rs, key.scope);
      var r :| r in rs && IsDraft(r, key.scope) && r.attachmentId == rs[i].attachmentId;
      MembersById(rs, r, rs[i]);
    }
  }

  /** Reserving moves exactly the given drafts to the new key; a failed prompt puts them back exactly. */
  lemma ReserveMovesDrafts(rs: seq<Record>, key: Key, ids: seq<AttachmentId>)
    requires DistinctIds(rs) && CanReserve(rs, key.scope, ids) && ReservedIds(rs, key) == {}
    ensures ReservedIds(Reserve(rs, key, ids), key) == Elements(ids)
    ensures DraftIds(Reserve(rs, key, ids), key.scope) == DraftIds(rs, key.scope) - Elements(ids)
    ensures forall k :: k != key ==> ReservedIds(Reserve(rs, key, ids), k) == ReservedIds(rs, k)
    ensures Unreserve(Reserve(rs, key, ids), ids) == rs
  {
    var after := Reserve(rs, key, ids);
    forall i | 0 <= i < |rs| && rs[i].attachmentId in ids ensures IsDraft(rs[i], key.scope) {
      assert rs[i].attachmentId in Elements(ids);
      var r :| r in rs && IsDraft(r, key.scope) && r.attachmentId == rs[i].attachmentId;
      MembersById(rs, r, rs[i]);
    }
    forall x ensures x in ReservedIds(after, key) <==> x in Elements(ids) {
      if x in Elements(ids) {
        assert x in DraftIds(rs, key.scope);
        var i :| 0 <= i < |rs| && rs[i].attachmentId == x;
        assert after[i] in after && ReservedFor(after[i], key);
      }
      if x in ReservedIds(after, key) {
        var i :| 0 <= i < |after| && ReservedFor(after[i], key) && after[i].attachmentId == x;
        assert rs[i] in rs && (ReservedFor(rs[i], key) ==> rs[i].attachmentId in ReservedIds(rs, key));
      }
    }
    ReserveFrame(rs, key, ids);
    assert Unreserve(after, ids) == rs;
  }

  lemma ReserveFrame(rs: seq<Record>, key: Key, ids: seq<AttachmentId>)
    requires forall i :: 0 <= i < |rs| && rs[i].attachmentId in ids ==> IsDraft(rs[i], key.scope)
    requires DistinctIds(rs)
    ensures DraftIds(Reserve(rs, key, ids), key.scope) == DraftIds(rs, key.scope) - Elements(ids)
    ensures forall k :: k != key ==> ReservedIds(Reserve(rs, key, ids), k) == ReservedIds(rs, k)
  {
    var after := Reserve(rs, key, ids);
    forall x ensures x in DraftIds(after, key.scope) <==> x in DraftIds(rs, key.scope) - Elements(ids) {
      if x in DraftIds(after, key.scope) {
        var i :| 0 <= i < |after| && IsDraft(after[i], key.scope) && after[i].attachmentId == x;
        assert rs[i] in rs;
      }
      if x in DraftIds(rs, key.scope) - Elements(ids) {
        var i :| 0 <= i < |rs| && IsDraft(rs[i], key.scope) && rs[i].attachmentId == x;
        assert after[i] == rs[i] && after[i] in after;
      }
    }
    forall k | k != key ensures ReservedIds(after, k) == ReservedIds(rs, k) {
      forall x ensures x in ReservedIds(after, k) <==> x in ReservedIds(rs, k) {
        if x in ReservedIds(after, k) {
          var i :| 0 <= i < |after| && ReservedFor(after[i], k) && after[i].attachmentId == x;
          assert rs[i] in rs;
        }
        if x in ReservedIds(rs, k) {
          var i :| 0 <= i < |rs| && ReservedFor(rs[i], k) && rs[i].attachmentId == x;
          assert after[i] == rs[i] && after[i] in after;
        }
      }
    }
  }

  lemma MarkKeepsReservations(rs: seq<Record>, key: Key, status: ReservationStatus)
    ensures forall k :: ReservedIds(SetReservationStatus(rs, key, status), k) == ReservedIds(rs, k)
    ensures forall s :: DraftIds(SetReservationStatus(rs, key, status), s) == DraftIds(rs, s)
  {
    var after := SetReservationStatus(rs, key, status);
    SameShape(rs, after);
  }

  lemma SameShape(a: seq<Record>, b: seq<Record>)
    requires |a| == |b|
    requires forall i :: 0 <= i < |a| ==>
      && a[i].attachmentId == b[i].attachmentId && a[i].scope == b[i].scope
      && (a[i].reservation.None? <==> b[i].reservation.None?)
      && (a[i].reservation.Some? ==>
            && a[i].reservation.value.sessionId == b[i].reservation.value.sessionId
            && a[i].reservation.value.promptId == b[i].reservation.value.promptId)
    ensures forall k :: ReservedIds(a, k) == ReservedIds(b, k)
    ensures forall s :: DraftIds(a, s) == DraftIds(b, s)
  {
    forall k ensures ReservedIds(a, k) == ReservedIds(b, k) {
      ShapeSubset(a, b, k, 0);
      ShapeSubset(b, a, k, 0);
    }
    forall s ensures DraftIds(a, s) == DraftIds(b, s) {
      ShapeSubset(a, b, Key(0, 0, 0), s);
      ShapeSubset(b, a, Key(0, 0, 0), s);
    }
  }

  lemma ShapeSubset(a: seq<Record>, b: seq<Record>, k: Key, s: Scope)
    requires |a| == |b|
    requires forall i :: 0 <= i < |a| ==>
      && a[i].attachmentId == b[i].attachmentId
      && (ReservedFor(a[i], k) ==> ReservedFor(b[i], k))
      && (IsDraft(a[i], s) ==> IsDraft(b[i], s))
    ensures ReservedIds(a, k) <= ReservedIds(b, k) && DraftIds(a, s) <= DraftIds(b, s)
  {
    forall x | x in ReservedIds(a, k) ensures x in ReservedIds(b, k) {
      var i :| 0 <= i < |a| && ReservedFor(a[i], k) && a[i].attachmentId == x;
      assert b[i] in b;
    }
    forall x | x in DraftIds(a, s) ensures x in DraftIds(b, s) {
      var i :| 0 <= i < |a| && IsDraft(a[i], s) && a[i].attachmentId == x;
      assert b[i] in b;
    }
  }

  /** Releasing turns exactly the records of that key into drafts with the same ids. */
  lemma ReleaseReturnsDrafts(rs: seq<Record>, key: Key)
    ensures ReservedIds(Release(rs, key), key) == {}
    ensures DraftIds(Release(rs, key), key.scope) == DraftIds(rs, key.scope) + ReservedIds(rs, key)
    ensures forall k :: k != key ==> ReservedIds(Release(rs, key), k) == ReservedIds(rs, k)
    ensures forall s :: s != key.scope ==> DraftIds(Release(rs, key), s) == DraftIds(rs, s)
  {
    var after := Release(rs, key);
    forall k | k != key ensures ReservedIds(after, k) == ReservedIds(rs, k) {
      ShapeSubset(rs, after, k, key.scope);
      forall x | x in ReservedIds(after, k) ensures x in ReservedIds(rs, k) {
        var i :| 0 <= i < |after| && ReservedFor(after[i], k) && after[i].attachmentId == x;
        assert rs[i] in rs;
      }
    }
    forall s | s != key.scope ensures DraftIds(after, s) == DraftIds(rs, s) {
      forall x ensures x in DraftIds(after, s) <==> x in DraftIds(rs, s) {
        if x in DraftIds(after, s) {
          var i :| 0 <= i < |after| && IsDraft(after[i], s) && after[i].attachmentId == x;
          assert rs[i] in rs;
        }
        if x in DraftIds(rs, s) {
          var i :| 0 <= i < |rs| && IsDraft(rs[i], s) && rs[i].attachmentId == x;
          assert after[i] in after;
        }
      }
    }
    ReleaseDrafts(rs, key);
  }

  lemma ReleaseDrafts(rs: seq<Record>, key: Key)
    ensures DraftIds(Release(rs, key), key.scope) == DraftIds(rs, key.scope) + ReservedIds(rs, key)
  {
    var after := Release(rs, key);
    forall x ensures x in DraftIds(after, key.scope) <==> x in DraftIds(rs, key.scope) + ReservedIds(rs, key) {
      if x in DraftIds(after, key.scope) {
        var i :| 0 <= i < |after| && IsDraft(after[i], key.scope) && after[i].attachmentId == x;
        assert rs[i] in rs;
      }
      if x in DraftIds(rs, key.scope) {
        var i :| 0 <= i < |rs| && IsDraft(rs[i], key.scope) && rs[i].attachmentId == x;
        assert after[i] in after;
      }
      if x in ReservedIds(rs, key) {
        var i :| 0 <= i < |rs| && ReservedFor(rs[i], key) && rs[i].attachmentId == x;
        assert after[i] in after;
      }
    }
  }

  /** Consuming deletes exactly the records of that key. */
  lemma ConsumeDeletesExactly(rs: seq<Record>, key: Key)
    requires DistinctIds(rs)
    ensures forall x :: x in Consume(rs, key) <==> x in rs && !ReservedFor(x, key)
    ensures ReservedIds(Consume(rs, key), key) == {}
    ensures Ids(Consume(rs, key)) == Ids(rs) - ReservedIds(rs, key)
    ensures forall k :: k != key ==> ReservedIds(Consume(rs, key), k) == ReservedIds(rs, k)
  {
    forall x | x in rs ensures x.attachmentId in ReservedIds(rs, key) <==> ReservedFor(x, key) {
      if x.attachmentId in ReservedIds(rs, key) {
        var r :| r in rs && ReservedFor(r, key) && r.attachmentId == x.attachmentId;
        MembersById(rs, r, x);
      }
    }
  }

  // ---------------------------------------------------------------- staging leaves reservations alone

  /** The reserved records are the same records before and after. */
  ghost predicate SameReserved(a: seq<Record>, b: seq<Record>) {
    forall r: Record :: r.reservation.Some? ==> (r in a <==> r in b)
  }

  lemma {:induction false} StageItemsKeepsReserved(rs: seq<Record>, scope: Scope, items: seq<Item>, ids: seq<AttachmentId>)
    requires |ids| == |items| && StageItems(rs, scope, items, ids).Ok?
    ensures SameReserved(rs, StageItems(rs, scope, items, ids).value)
  {
    if items != [] {
      var n := |items| - 1;
      StageItemsKeepsReserved(rs, scope, items[..n], ids[..n]);
    }
  }

  lemma StagingKeepsReserved(rs: seq<Record>, op: Op)
    requires DistinctIds(rs) && OpEnabled(rs, op) && (op.OpStage? || op.OpLink? || op.OpDiscard?)
    ensures SameReserved(rs, Perform(rs, op))
  {
    match op
    case OpStage(scope, items, ids) =>
      if StageBatch(rs, scope, items, ids).Ok? {
        StageItemsKeepsReserved(rs, scope, items, ids);
      }
    case OpDiscard(scope, id) =>
      forall r: Record | r in rs && r.attachmentId == id && id in DraftIds(rs, scope) ensures r.reservation.None? {
        var d :| d in rs && IsDraft(d, scope) && d.attachmentId == id;
        MembersById(rs, r, d);
      }
    case _ =>
  }
}
