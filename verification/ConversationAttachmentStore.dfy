/**
 `ConversationAttachmentStore` as it runs: the record list and the staging directory, changed in
 place by loops. Each method does exactly the operation of module `AttachmentStore`.
 */
module ConversationAttachmentStore {
  import opened Common
  import opened AttachmentStore
  import AP = AttachmentProofs

  class ConversationAttachmentStore {
    var records: seq<Record>
    /** the staged files, by the attachment id in their name */
    var files: map<AttachmentId, string>

    /** Ids are distinct, and the directory holds exactly the staged files of the records. */
    ghost predicate Valid()
      reads this
    {
      DistinctIds(records) && FilesMatch(records, files)
    }

    constructor ()
      ensures Valid() && records == []
    {
      records, files := [], map[];
    }

    method RemoveRecord(id: AttachmentId)
      requires Valid()
      modifies this
      ensures Valid()
      ensures records == RemoveIds(old(records), {id}) && files == old(files) - {id}
    {
      AP.RemovalKeepsDistinct(records, {id});
      FilesAfterRemoval(records, files, id);
      records := RemoveIds(records, {id});
      files := files - {id};
    }

    /** `#removeRecords`: records and their files, one id after the other. */
    method RemoveRecords(ids: seq<AttachmentId>)
      requires Valid()
      modifies this
      ensures Valid()
      ensures records == RemoveIds(old(records), Elements(ids)) && files == old(files) - Elements(ids)
    {
      NothingToRemove(old(records));
      assert Elements(ids[..0]) == {};
      for i := 0 to |ids|
        invariant Valid() && records == RemoveIds(old(records), Elements(ids[..i]))
        invariant files == old(files) - Elements(ids[..i])
      {
        ElementsStep(ids, i);
        RemoveOneMore(old(records), Elements(ids[..i]), ids[i]);
        MinusStep(old(files), Elements(ids[..i]), ids[i]);
        RemoveRecord(ids[i]);
      }
      assert ids[..|ids|] == ids;
    }

    /** `#stageBytes`: reuses a duplicate draft, or writes the file and appends the record. */
    method StageItem(scope: Scope, item: Item, id: AttachmentId) returns (ok: bool, created: bool)
      requires Valid() && id !in Ids(records)
      modifies this
      ensures Valid()
      ensures ok <==> StageOne(old(records), scope, item, id).Ok?
      ensures records == OrElse(StageOne(old(records), scope, item, id), old(records))
      ensures created <==> records != old(records)
      ensures files == if created then old(files)[id := item.bytes] else old(files)
      ensures id !in old(files)
    {
      ok, created := true, false;
      if !ItemAcceptable(item) {
        return false, false;
      }
      for i := 0 to |records|
        invariant forall k :: 0 <= k < i ==> !SameContent(records[k], scope, item.content.value)
      {
        if SameContent(records[i], scope, item.content.value) {
          return;
        }
      }
      if !HasCapacity(records, scope, |item.bytes|) {
        return false, false;
      }
      NewRecordKeepsFiles(records, files, NewRecord(id, scope, item), item.bytes);
      files := files[id := item.bytes];
      records := records + [NewRecord(id, scope, item)];
      created := true;
    }

    /** One item of the batch; `start` and `startFiles` are what there was before the batch. */
    method StageNext(scope: Scope, item: Item, id: AttachmentId, created: seq<AttachmentId>, ghost added: seq<Record>,
                     ghost start: seq<Record>, ghost startFiles: map<AttachmentId, string>)
      returns (ok: bool, nowCreated: seq<AttachmentId>, ghost nowAdded: seq<Record>)
      requires Valid() && id !in Ids(records) && Grown(start, startFiles, records, files, created, added)
      modifies this
      ensures Valid() && Grown(start, startFiles, records, files, nowCreated, nowAdded)
      ensures ok <==> StageOne(old(records), scope, item, id).Ok?
      ensures records == OrElse(StageOne(old(records), scope, item, id), old(records))
      ensures id !in old(files) && (files == old(files) || files == old(files)[id := item.bytes])
    {
      ghost var before, filesBefore := records, files;
      nowCreated, nowAdded := created, added;
      var isNew;
      ok, isNew := StageItem(scope, item, id);
      if isNew {
        assert files - {id} == filesBefore;
        GrownStep(start, startFiles, before, filesBefore, created, added, NewRecord(id, scope, item), files);
        nowCreated, nowAdded := created + [id], added + [NewRecord(id, scope, item)];
      }
    }

    /** The item loop of `stageBytes`, up to the first item that fails. */
    method StageUntilFailure(scope: Scope, items: seq<Item>, ids: seq<AttachmentId>)
      returns (ok: bool, created: seq<AttachmentId>, ghost added: seq<Record>)
      requires Valid() && OpEnabled(records, OpStage(scope, items, ids))
      modifies this
      ensures Valid()
      ensures ok <==> StageItems(old(records), scope, items, ids).Ok?
      ensures ok ==> records == StageItems(old(records), scope, items, ids).value
      ensures Grown(old(records), old(files), records, files, created, added)
      ensures forall k :: 0 <= k < |ids| && ids[k] in files ==> files[ids[k]] == items[k].bytes
    {
      created, added := [], [];
      assert forall id :: id in files ==> id in Ids(records);
      assert forall k :: 0 <= k < |ids| ==> ids[k] in Elements(ids);
      for i := 0 to |items|
        invariant Valid() && StageItems(old(records), scope, items[..i], ids[..i]) == Ok(records)
        invariant Grown(old(records), old(files), records, files, created, added)
        invariant forall k :: 0 <= k < |ids| && ids[k] in files ==> k < i && files[ids[k]] == items[k].bytes
      {
        StageItemsNext(old(records), scope, items, ids, i);
        NextIdIsNew(old(records), scope, items, ids, i);
        ok, created, added := StageNext(scope, items[i], ids[i], created, added, old(records), old(files));
        if !ok {
          FailureSpreads(old(records), scope, items, ids, i);
          return;
        }
      }
      assert items[..|items|] == items && ids[..|ids|] == ids;
      ok := true;
    }

    /** `stageBytes`: all items or none; a failed batch leaves records and files as they were. */
    method StageBytes(scope: Scope, items: seq<Item>, ids: seq<AttachmentId>) returns (ok: bool)
      requires Valid() && OpEnabled(records, OpStage(scope, items, ids))
      modifies this
      ensures Valid()
      ensures ok <==> StageBatch(old(records), scope, items, ids).Ok?
      ensures records == Perform(old(records), OpStage(scope, items, ids))
      ensures !ok ==> files == old(files)
      ensures forall id :: id in old(files) ==> id in files && files[id] == old(files)[id]
      ensures ok ==> forall k :: 0 <= k < |ids| && ids[k] in files ==> files[ids[k]] == items[k].bytes
    {
      if !(1 <= |items| <= MAX_ATTACHMENTS) {
        return false;
      }
      var created;
      ghost var added;
      ok, created, added := StageUntilFailure(scope, items, ids);
      if !ok {
        AddedIdsAreNew(old(records), added);
        RemoveRecords(created);
      }
    }

    method SetStatus(key: Key, status: ReservationStatus)
      requires Valid()
      modifies this`records
      ensures Valid() && records == SetReservationStatus(old(records), key, status)
    {
      var i := 0;
      while i < |records|
        invariant 0 <= i <= |records| == |old(records)|
        invariant forall k :: 0 <= k < |records| ==>
          records[k] == if k < i then SetReservationStatus(old(records), key, status)[k] else old(records)[k]
      {
        if ReservedFor(records[i], key) {
          records := records[i := records[i].(reservation := Some(records[i].reservation.value.(status := status)))];
        }
        i := i + 1;
      }
      assert records == SetReservationStatus(old(records), key, status);
      AP.ReservationOpsKeepTheRest(old(records), key, status, []);
      SameFiles(old(records), records, files);
    }

    method ReleaseReservation(key: Key)
      requires Valid()
      modifies this`records
      ensures Valid() && records == Release(old(records), key)
    {
      var i := 0;
      while i < |records|
        invariant 0 <= i <= |records| == |old(records)|
        invariant forall k :: 0 <= k < |records| ==>
          records[k] == if k < i then Release(old(records), key)[k] else old(records)[k]
      {
        if ReservedFor(records[i], key) {
          records := records[i := Stripped(records[i])];
        }
        i := i + 1;
      }
      assert records == Release(old(records), key);
      AP.ReservationOpsKeepTheRest(old(records), key, Unknown, []);
      SameFiles(old(records), records, files);
    }

    method ConsumeReservation(key: Key)
      requires Valid()
      modifies this
      ensures Valid() && records == Consume(old(records), key)
      ensures files == old(files) - ReservedIds(old(records), key)
    {
      var ids: seq<AttachmentId> := [];
      for i := 0 to |records|
        invariant records == old(records) && files == old(files)
        invariant Elements(ids) == ReservedIds(records[..i], key)
      {
        ReservedAppend(records[..i], records[i], key);
        assert records[..i + 1] == records[..i] + [records[i]];
        if ReservedFor(records[i], key) {
          ElementsAppend(ids, [records[i].attachmentId]);
          ids := ids + [records[i].attachmentId];
        }
      }
      assert records[..|records|] == records;
      RemoveRecords(ids);
    }
  }

  // ---------------------------------------------------------------- files and records

  ghost predicate FilesMatch(rs: seq<Record>, files: map<AttachmentId, string>) {
    && (forall r :: r in rs && r.stagedFile.Some? ==>
          r.stagedFile == Some(r.attachmentId) && r.attachmentId in files && |files[r.attachmentId]| == r.sizeBytes)
    && (forall id :: id in files ==> exists r :: r in rs && r.attachmentId == id && r.stagedFile.Some?)
  }

  lemma FilesAfterRemoval(rs: seq<Record>, files: map<AttachmentId, string>, id: AttachmentId)
    requires FilesMatch(rs, files)
    ensures FilesMatch(RemoveIds(rs, {id}), files - {id})
  {
    forall x | x in files - {id} ensures exists r :: r in RemoveIds(rs, {id}) && r.attachmentId == x && r.stagedFile.Some? {
      var r :| r in rs && r.attachmentId == x && r.stagedFile.Some?;
      assert r in RemoveIds(rs, {id});
    }
  }

  lemma NewRecordKeepsFiles(rs: seq<Record>, files: map<AttachmentId, string>, r: Record, bytes: string)
    requires FilesMatch(rs, files) && DistinctIds(rs) && r.attachmentId !in Ids(rs)
    requires r.stagedFile == Some(r.attachmentId) && r.sizeBytes == |bytes|
    ensures FilesMatch(rs + [r], files[r.attachmentId := bytes]) && DistinctIds(rs + [r])
  {
    assert forall x :: x in rs ==> x.attachmentId in Ids(rs);
    assert forall i :: 0 <= i < |rs| ==> rs[i] in rs;
    forall x | x in files ensures exists y :: y in rs + [r] && y.attachmentId == x && y.stagedFile.Some? {
      var y :| y in rs && y.attachmentId == x && y.stagedFile.Some?;
      assert y in rs + [r];
    }
    assert r in rs + [r];
  }

  lemma SameFiles(a: seq<Record>, b: seq<Record>, files: map<AttachmentId, string>)
    requires AP.SameButReservations(a, b) && FilesMatch(a, files) && DistinctIds(a)
    ensures FilesMatch(b, files) && DistinctIds(b)
  {
    AP.SameIds(a, b);
    forall i | 0 <= i < |a|
      ensures a[i].attachmentId == b[i].attachmentId && a[i].stagedFile == b[i].stagedFile
      ensures a[i].sizeBytes == b[i].sizeBytes
    {
      assert Stripped(a[i]) == Stripped(b[i]);
    }
    forall r | r in b && r.stagedFile.Some?
      ensures r.stagedFile == Some(r.attachmentId) && r.attachmentId in files && |files[r.attachmentId]| == r.sizeBytes
    {
      var i :| 0 <= i < |b| && b[i] == r;
      assert a[i] in a;
    }
    forall id | id in files ensures exists r :: r in b && r.attachmentId == id && r.stagedFile.Some? {
      var r :| r in a && r.attachmentId == id && r.stagedFile.Some?;
      var i :| 0 <= i < |a| && a[i] == r;
      assert b[i] in b;
    }
  }

  // ---------------------------------------------------------------- removal and rollback

  lemma {:induction false} NothingToRemove(rs: seq<Record>)
    ensures RemoveIds(rs, {}) == rs
  {
    if rs != [] {
      NothingToRemove(rs[..|rs| - 1]);
    }
  }

  lemma {:induction false} RemoveOneMore(rs: seq<Record>, ids: set<AttachmentId>, id: AttachmentId)
    ensures RemoveIds(RemoveIds(rs, ids), {id}) == RemoveIds(rs, ids + {id})
  {
    if rs != [] {
      var init, last := rs[..|rs| - 1], rs[|rs| - 1];
      RemoveOneMore(init, ids, id);
      var rest := RemoveIds(init, ids);
      assert (rest + [last])[..|rest|] == rest;
    }
  }

  lemma IdsAppend(rs: seq<Record>, r: Record)
    ensures Ids(rs + [r]) == Ids(rs) + {r.attachmentId}
  {
    assert r in rs + [r];
    assert forall x :: x in rs + [r] <==> x in rs || x == r;
    forall x ensures x in Ids(rs + [r]) <==> x in Ids(rs) + {r.attachmentId} {
    }
  }

  lemma StageItemsNext(rs: seq<Record>, scope: Scope, items: seq<Item>, ids: seq<AttachmentId>, i: nat)
    requires |ids| == |items| && i < |items|
    ensures StageItems(rs, scope, items[..i + 1], ids[..i + 1]) ==
      match StageItems(rs, scope, items[..i], ids[..i]) {
        case Err => Err
        case Ok(before) => StageOne(before, scope, items[i], ids[i])
      }
  {
    assert items[..i + 1][..i] == items[..i] && ids[..i + 1][..i] == ids[..i];
  }

  lemma {:induction false} RemoveNone(rs: seq<Record>, ids: set<AttachmentId>)
    requires forall r :: r in rs ==> r.attachmentId !in ids
    ensures RemoveIds(rs, ids) == rs
  {
    if rs != [] {
      var front, last := rs[..|rs| - 1], rs[|rs| - 1];
      assert rs == front + [last];
      RemoveNone(front, ids);
    }
  }

  lemma {:induction false} RemoveSuffix(before: seq<Record>, added: seq<Record>, ids: set<AttachmentId>)
    requires forall r :: r in before ==> r.attachmentId !in ids
    requires forall r :: r in added ==> r.attachmentId in ids
    ensures RemoveIds(before + added, ids) == before
    decreases |added|
  {
    var all := before + added;
    if added == [] {
      assert all == before;
      RemoveNone(before, ids);
    } else {
      var front, last := added[..|added| - 1], added[|added| - 1];
      assert all[..|all| - 1] == before + front && all[|all| - 1] == last;
      RemoveSuffix(before, front, ids);
    }
  }

  lemma AddedIdsAreNew(before: seq<Record>, added: seq<Record>)
    requires DistinctIds(before + added)
    ensures RemoveIds(before + added, Ids(added)) == before
  {
    var all := before + added;
    forall x | x in Ids(before) ensures x !in Ids(added) {
      var i :| 0 <= i < |before| && before[i].attachmentId == x;
      forall j | 0 <= j < |added| ensures added[j].attachmentId != x {
        assert all[i] == before[i] && all[|before| + j] == added[j];
      }
    }
    RemoveSuffix(before, added, Ids(added));
  }

  lemma ReservedAppend(rs: seq<Record>, r: Record, key: Key)
    ensures ReservedIds(rs + [r], key) == ReservedIds(rs, key) + (if ReservedFor(r, key) then {r.attachmentId} else {})
  {
    assert r in rs + [r];
    assert forall x :: x in rs + [r] <==> x in rs || x == r;
    forall x ensures x in ReservedIds(rs + [r], key) <==>
                     x in ReservedIds(rs, key) + (if ReservedFor(r, key) then {r.attachmentId} else {}) {
    }
  }

  /** Once an item fails, the whole batch fails. */
  lemma {:induction false} FailureSpreads(rs: seq<Record>, scope: Scope, items: seq<Item>, ids: seq<AttachmentId>, i: nat)
    requires |ids| == |items| && i < |items|
    requires StageItems(rs, scope, items[..i + 1], ids[..i + 1]).Err?
    ensures StageItems(rs, scope, items, ids).Err?
    decreases |items| - i
  {
    if i + 1 < |items| {
      assert items[..i + 2][..i + 1] == items[..i + 1] && ids[..i + 2][..i + 1] == ids[..i + 1];
      FailureSpreads(rs, scope, items, ids, i + 1);
    } else {
      assert items[..i + 1] == items && ids[..i + 1] == ids;
    }
  }

  /** The id drawn for item i is in use neither before the batch nor by its earlier items. */
  lemma NextIdIsNew(rs: seq<Record>, scope: Scope, items: seq<Item>, ids: seq<AttachmentId>, i: nat)
    requires DistinctIds(rs) && OpEnabled(rs, OpStage(scope, items, ids)) && i < |items|
    requires StageItems(rs, scope, items[..i], ids[..i]).Ok?
    ensures ids[i] !in Ids(StageItems(rs, scope, items[..i], ids[..i]).value)
  {
    assert Elements(ids[..i]) <= Elements(ids);
    AP.StageItemsKeeps(rs, scope, items[..i], ids[..i]);
    assert ids[i] in Elements(ids) && ids[i] !in Elements(ids[..i]);
  }

  lemma ElementsStep(ids: seq<AttachmentId>, i: nat)
    requires i < |ids|
    ensures Elements(ids[..i + 1]) == Elements(ids[..i]) + {ids[i]}
  {
    assert ids[..i + 1] == ids[..i] + [ids[i]];
  }

  /** What a batch has added so far: new records at the end, their ids, and their files. */
  ghost predicate Grown(rs0: seq<Record>, files0: map<AttachmentId, string>, rs: seq<Record>,
                        files: map<AttachmentId, string>, created: seq<AttachmentId>, added: seq<Record>) {
    rs == rs0 + added && Elements(created) == Ids(added) && files - Elements(created) == files0
  }

  lemma GrownStep(rs0: seq<Record>, files0: map<AttachmentId, string>, rs: seq<Record>, files: map<AttachmentId, string>,
                  created: seq<AttachmentId>, added: seq<Record>, r: Record, filesAfter: map<AttachmentId, string>)
    requires Grown(rs0, files0, rs, files, created, added)
    requires filesAfter - {r.attachmentId} == files
    ensures Grown(rs0, files0, rs + [r], filesAfter, created + [r.attachmentId], added + [r])
  {
    ElementsAppend(created, [r.attachmentId]);
    IdsAppend(added, r);
    assert Elements([r.attachmentId]) == {r.attachmentId};
    assert filesAfter - (Elements(created) + {r.attachmentId}) == (filesAfter - {r.attachmentId}) - Elements(created);
    assert rs0 + (added + [r]) == (rs0 + added) + [r];
  }

  lemma MinusStep(files: map<AttachmentId, string>, ids: set<AttachmentId>, id: AttachmentId)
    ensures files - ids - {id} == files - (ids + {id})
  {
  }
}
