/**
 Which store operations leave a store that the next start can restore
 (desktop/src/conversation-attachment-store.js). The limits are checked when a manifest is restored, and
 only some of them when the store is changed.
 */
module ManifestLimits {
  import opened Common
  import opened AttachmentStore
  import opened AttachmentManifest
  import AP = AttachmentProofs

  // ---------------------------------------------------------------- what staging adds

  /** Content of this name and digest is a draft already, or comes earlier in the batch. */
  predicate Known(rs: seq<Record>, scope: Scope, items: seq<Item>, c: Content) {
    || (exists r :: r in rs && SameContent(r, scope, c))
    || (exists i :: 0 <= i < |items| && items[i].content.Some?
          && items[i].content.value.digest == c.digest && items[i].content.value.name == c.name)
  }

  /** How many items of a batch are new: one record each. */
  function NewCount(rs: seq<Record>, scope: Scope, items: seq<Item>): nat {
    if items == [] then 0
    else
      var front, last := items[..|items| - 1], items[|items| - 1];
      NewCount(rs, scope, front) + if last.content.Some? && !Known(rs, scope, front, last.content.value) then 1 else 0
  }

  /** What a caller can check beforehand: whether an operation leaves the store within the manifest limits. */
  predicate Guard(rs: seq<Record>, op: Op)
    requires OpEnabled(rs, op)
  {
    match op
    case OpStage(scope, items, ids) =>
      StageBatch(rs, scope, items, ids).Ok? ==> |rs| + NewCount(rs, scope, items) <= MAX_MANIFEST_RECORDS
    case OpLink(scope, _, _, url) =>
      LinkAdds(rs, scope, url) ==>
        |rs| < MAX_MANIFEST_RECORDS && TotalBytes(rs, scope) + |url| <= MAX_TOTAL_ATTACHMENT_BYTES
    case OpRelease(key) => DraftCount(rs, key.scope) + ReservedCount(rs, key) <= MAX_ATTACHMENTS
    case _ => true
  }

  /** `stageLink` adds a record: no draft has this text, and a link of no size would be accepted. */
  predicate LinkAdds(rs: seq<Record>, scope: Scope, url: string) {
    !(exists r :: r in rs && IsDraft(r, scope) && r.kind.Link? && r.url == Some(url)) && HasCapacity(rs, scope, 0)
  }

  lemma AppendCounts(rs: seq<Record>, r: Record, scope: Scope)
    ensures TotalBytes(rs + [r], scope) == TotalBytes(rs, scope) + if r.scope == scope then r.sizeBytes else 0
    ensures DraftCount(rs + [r], scope) == DraftCount(rs, scope) + if IsDraft(r, scope) then 1 else 0
  {
    assert (rs + [r])[..|rs|] == rs;
  }

  lemma AppendFitsIff(rs: seq<Record>, r: Record)
    requires Fits(rs) && r.attachmentId !in Ids(rs) && r.reservation.None?
    ensures Fits(rs + [r]) <==>
      && |rs| < MAX_MANIFEST_RECORDS && TotalBytes(rs, r.scope) + r.sizeBytes <= MAX_TOTAL_ATTACHMENT_BYTES
      && DraftCount(rs, r.scope) < MAX_ATTACHMENTS
  {
    assert forall i :: 0 <= i < |rs| ==> rs[i].attachmentId in Ids(rs);
    forall scope ensures
      && TotalBytes(rs + [r], scope) == TotalBytes(rs, scope) + (if r.scope == scope then r.sizeBytes else 0)
      && DraftCount(rs + [r], scope) == DraftCount(rs, scope) + (if r.scope == scope then 1 else 0)
    {
      AppendCounts(rs, r, scope);
    }
    if Fits(rs + [r]) {
      AppendCounts(rs, r, r.scope);
    }
  }

  lemma StageLinkFitsIff(rs: seq<Record>, scope: Scope, id: AttachmentId, host: string, url: string)
    requires Fits(rs) && OpEnabled(rs, OpLink(scope, id, host, url))
    ensures Fits(Perform(rs, OpLink(scope, id, host, url))) <==> Guard(rs, OpLink(scope, id, host, url))
  {
    AppendFitsIff(rs, LinkRecord(id, scope, host, url));
  }

  /** What a successful batch holds: everything before, and what its items brought. */
  lemma {:induction false} StagedIsKnown(
      rs: seq<Record>, scope: Scope, items: seq<Item>, ids: seq<AttachmentId>, c: Content)
    requires |ids| == |items| && StageItems(rs, scope, items, ids).Ok?
    ensures (exists r :: r in StageItems(rs, scope, items, ids).value && SameContent(r, scope, c)) <==>
            Known(rs, scope, items, c)
  {
    if items != [] {
      var n := |items| - 1;
      var front, last := items[..n], items[n];
      var before, after := StageItems(rs, scope, front, ids[..n]).value, StageItems(rs, scope, items, ids).value;
      StagedIsKnown(rs, scope, front, ids[..n], c);
      StagedIsKnown(rs, scope, front, ids[..n], last.content.value);
      KnownNext(rs, scope, front, last, c);
      assert items == front + [last];
      OneMoreIsKnown(before, scope, last, ids[n], c);
      assert StageOne(before, scope, last, ids[n]) == Ok(after);
    }
  }

  lemma KnownNext(rs: seq<Record>, scope: Scope, front: seq<Item>, last: Item, c: Content)
    ensures Known(rs, scope, front + [last], c) <==>
      || Known(rs, scope, front, c)
      || (last.content.Some? && last.content.value.digest == c.digest && last.content.value.name == c.name)
  {
    var items := front + [last];
    assert items[|front|] == last;
    if Known(rs, scope, front, c) && !(exists r :: r in rs && SameContent(r, scope, c)) {
      var i :| 0 <= i < |front| && front[i].content.Some?
        && front[i].content.value.digest == c.digest && front[i].content.value.name == c.name;
      assert items[i] == front[i];
    }
  }

  lemma OneMoreIsKnown(rs: seq<Record>, scope: Scope, item: Item, id: AttachmentId, c: Content)
    requires StageOne(rs, scope, item, id).Ok?
    ensures (exists r :: r in StageOne(rs, scope, item, id).value && SameContent(r, scope, c)) <==>
      || (exists r :: r in rs && SameContent(r, scope, c))
      || (item.content.value.digest == c.digest && item.content.value.name == c.name)
  {
    var d := item.content.value;
    var after := StageOne(rs, scope, item, id).value;
    if exists r :: r in rs && SameContent(r, scope, d) {
      var r :| r in rs && SameContent(r, scope, d);
      assert d.digest == c.digest && d.name == c.name ==> SameContent(r, scope, c);
    } else {
      var added := NewRecord(id, scope, item);
      assert added in after && (SameContent(added, scope, c) <==> d.digest == c.digest && d.name == c.name);
      assert forall r :: r in after <==> r in rs || r == added;
    }
  }

  /** A successful batch keeps every scope within its limits and adds as many records as it has new items. */
  lemma {:induction false} StagedWithin(rs: seq<Record>, scope: Scope, items: seq<Item>, ids: seq<AttachmentId>)
    requires |ids| == |items| && StageItems(rs, scope, items, ids).Ok? && ScopesWithin(rs)
    ensures ScopesWithin(StageItems(rs, scope, items, ids).value)
    ensures |StageItems(rs, scope, items, ids).value| == |rs| + NewCount(rs, scope, items)
  {
    if items != [] {
      var n := |items| - 1;
      var before := StageItems(rs, scope, items[..n], ids[..n]).value;
      StagedWithin(rs, scope, items[..n], ids[..n]);
      StagedIsKnown(rs, scope, items[..n], ids[..n], items[n].content.value);
      OneMoreWithin(before, scope, items[n], ids[n]);
    }
  }

  lemma OneMoreWithin(rs: seq<Record>, scope: Scope, item: Item, id: AttachmentId)
    requires StageOne(rs, scope, item, id).Ok? && ScopesWithin(rs)
    ensures ScopesWithin(StageOne(rs, scope, item, id).value)
  {
    var after := StageOne(rs, scope, item, id).value;
    if after != rs {
      forall s ensures TotalBytes(after, s) <= MAX_TOTAL_ATTACHMENT_BYTES && DraftCount(after, s) <= MAX_ATTACHMENTS {
        AppendCounts(rs, NewRecord(id, scope, item), s);
      }
    }
  }

  lemma StageFitsIff(rs: seq<Record>, scope: Scope, items: seq<Item>, ids: seq<AttachmentId>)
    requires Fits(rs) && OpEnabled(rs, OpStage(scope, items, ids))
    ensures Fits(Perform(rs, OpStage(scope, items, ids))) <==> Guard(rs, OpStage(scope, items, ids))
  {
    if StageBatch(rs, scope, items, ids).Ok? {
      StagedWithin(rs, scope, items, ids);
      AP.StageItemsKeeps(rs, scope, items, ids);
    }
  }

  // ---------------------------------------------------------------- the other operations

  /** Same sizes, and no more drafts. */
  lemma {:induction false} FewerDrafts(a: seq<Record>, b: seq<Record>, scope: Scope)
    requires |a| == |b|
    requires forall i :: 0 <= i < |a| ==>
      a[i].scope == b[i].scope && a[i].sizeBytes == b[i].sizeBytes && (b[i].reservation.None? ==> a[i].reservation.None?)
    ensures TotalBytes(b, scope) == TotalBytes(a, scope) && DraftCount(b, scope) <= DraftCount(a, scope)
  {
    if a != [] {
      FewerDrafts(a[..|a| - 1], b[..|b| - 1], scope);
    }
  }

  lemma FewerDraftsFit(a: seq<Record>, b: seq<Record>)
    requires Fits(a) && |a| == |b|
    requires forall i :: 0 <= i < |a| ==>
      && a[i].attachmentId == b[i].attachmentId && a[i].scope == b[i].scope && a[i].sizeBytes == b[i].sizeBytes
      && (b[i].reservation.None? ==> a[i].reservation.None?)
    ensures Fits(b)
  {
    forall scope ensures TotalBytes(b, scope) <= MAX_TOTAL_ATTACHMENT_BYTES && DraftCount(b, scope) <= MAX_ATTACHMENTS {
      FewerDrafts(a, b, scope);
    }
  }

  lemma {:induction false} RemovalCounts(rs: seq<Record>, ids: set<AttachmentId>, scope: Scope)
    ensures TotalBytes(RemoveIds(rs, ids), scope) <= TotalBytes(rs, scope)
    ensures DraftCount(RemoveIds(rs, ids), scope) <= DraftCount(rs, scope) && |RemoveIds(rs, ids)| <= |rs|
  {
    if rs != [] {
      var front, last := rs[..|rs| - 1], rs[|rs| - 1];
      RemovalCounts(front, ids, scope);
      AppendCounts(RemoveIds(front, ids), last, scope);
      RemovalUnfolds(rs, ids);
    }
  }

  lemma RemovalUnfolds(rs: seq<Record>, ids: set<AttachmentId>)
    requires rs != []
    ensures
      var front, last := rs[..|rs| - 1], rs[|rs| - 1];
      RemoveIds(rs, ids) == if last.attachmentId in ids then RemoveIds(front, ids) else RemoveIds(front, ids) + [last]
  {
  }

  lemma RemovalFits(rs: seq<Record>, ids: set<AttachmentId>)
    requires Fits(rs)
    ensures Fits(RemoveIds(rs, ids))
  {
    RemovalCounts(rs, ids, 0);
    AP.RemovalKeepsDistinct(rs, ids);
    forall scope ensures TotalBytes(RemoveIds(rs, ids), scope) <= MAX_TOTAL_ATTACHMENT_BYTES
                      && DraftCount(RemoveIds(rs, ids), scope) <= MAX_ATTACHMENTS {
      RemovalCounts(rs, ids, scope);
    }
  }

  lemma ReserveFits(rs: seq<Record>, key: Key, ids: seq<AttachmentId>, builds: bool)
    requires Fits(rs)
    ensures Fits(Perform(rs, OpReserve(key, ids, builds)))
  {
    if CanReserve(rs, key.scope, ids) {
      FewerDraftsFit(rs, Reserve(rs, key, ids));
      if !builds { AP.UnreserveUndoes(rs, key, ids); }
    }
  }

  /**
   The exact condition, for every operation: a store that could be restored can be restored after the operation
   if and only if the operation passes its guard.
   */
  lemma OperationFitsIff(rs: seq<Record>, op: Op)
    requires Fits(rs) && OpEnabled(rs, op)
    ensures Fits(Perform(rs, op)) <==> Guard(rs, op)
  {
    match op
    case OpStage(scope, items, ids) => StageFitsIff(rs, scope, items, ids);
    case OpLink(scope, id, host, url) => StageLinkFitsIff(rs, scope, id, host, url);
    case OpDiscard(_, id) => RemovalFits(rs, {id});
    case OpReserve(key, ids, builds) => ReserveFits(rs, key, ids, builds);
    case OpMark(key, status) => FewerDraftsFit(rs, SetReservationStatus(rs, key, status));
    case OpRelease(key) => ReleaseFitsIff(rs, key);
    case OpConsume(key) => RemovalFits(rs, ReservedIds(rs, key));
  }

  /** Over any run from the empty store: every store on the way can be restored if and only if every operation passed its guard. */
  lemma {:induction false} RunFitsIff(states: seq<seq<Record>>, ops: seq<Op>, n: nat)
    requires IsRun(states, ops) && n <= |ops|
    ensures (forall i :: 0 <= i <= n ==> Fits(states[i])) <==> (forall k :: 0 <= k < n ==> Guard(states[k], ops[k]))
  {
    if n == 0 {
      assert states[0] == [];
      EmptyFits();
    } else {
      RunFitsIff(states, ops, n - 1);
      assert states[n] == Perform(states[n - 1], ops[n - 1]);
      if Fits(states[n - 1]) {
        OperationFitsIff(states[n - 1], ops[n - 1]);
        assert Fits(states[n]) <==> Guard(states[n - 1], ops[n - 1]);
      }
      if forall k :: 0 <= k < n ==> Guard(states[k], ops[k]) {
        assert forall i :: 0 <= i <= n - 1 ==> Fits(states[i]);
        forall i | 0 <= i <= n ensures Fits(states[i]) {
          if i == n { assert Fits(states[n - 1]); }
        }
      }
      if forall i :: 0 <= i <= n ==> Fits(states[i]) {
        assert Fits(states[n]) && Fits(states[n - 1]);
        assert forall k :: 0 <= k < n - 1 ==> Guard(states[k], ops[k]);
      }
    }
  }

  lemma EmptyFits()
    ensures Fits([])
  {
  }

  // ---------------------------------------------------------------- runs that break each limit

  /** The store after some run, all of whose stores could be restored. */
  ghost predicate FitRun(rs: seq<Record>) {
    exists states, ops :: IsRun(states, ops) && states[|ops|] == rs && forall i :: 0 <= i < |states| ==> Fits(states[i])
  }

  /** After such a run this operation, which the source carries out, leaves a store that cannot be restored. */
  ghost predicate LosesStore(rs: seq<Record>, op: Op) {
    FitRun(rs) && OpEnabled(rs, op) && !Fits(Perform(rs, op))
  }

  lemma StartFits()
    ensures FitRun([])
  {
    EmptyFits();
    assert IsRun([[]], []);
  }

  lemma GuardedStep(rs: seq<Record>, op: Op)
    requires FitRun(rs) && OpEnabled(rs, op)
    ensures if Guard(rs, op) then FitRun(Perform(rs, op)) else LosesStore(rs, op)
  {
    var states, ops :| IsRun(states, ops) && states[|ops|] == rs && forall i :: 0 <= i < |states| ==> Fits(states[i]);
    OperationFitsIff(rs, op);
    if Guard(rs, op) { Extend(states, ops, op, Perform(rs, op)); }
  }

  lemma Extend(states: seq<seq<Record>>, ops: seq<Op>, op: Op, next: seq<Record>)
    requires IsRun(states, ops) && (forall i :: 0 <= i < |states| ==> Fits(states[i]))
    requires OpEnabled(states[|ops|], op) && next == Perform(states[|ops|], op) && Fits(next)
    ensures FitRun(next)
  {
    var states', ops' := states + [next], ops + [op];
    forall i | 0 <= i < |ops'| ensures OpEnabled(states'[i], ops'[i]) && states'[i + 1] == Perform(states'[i], ops'[i]) {
      if i < |ops| { assert states'[i + 1] == states[i + 1]; }
    }
    assert IsRun(states', ops') && states'[|ops'|] == next;
  }

  const HOST := "example.com"
  const KEY := Key(0, 0, 0)

  /** A link that normalisation leaves as it is. */
  function Url(n: nat): (u: string)
    ensures |u| == 20 + n
  {
    "https://example.com/" + seq(n, _ => 'u')
  }

  /** Staging a link that no draft has. */
  lemma StageNewLink(rs: seq<Record>, scope: Scope, id: AttachmentId, n: nat)
    requires FitRun(rs) && id !in Ids(rs) && HasCapacity(rs, scope, 0)
    requires forall r :: r in rs && r.scope == scope ==> r.url != Some(Url(n))
    ensures
      var link := LinkRecord(id, scope, HOST, Url(n));
      && OpEnabled(rs, OpLink(scope, id, HOST, Url(n)))
      && DraftCount(rs + [link], scope) == DraftCount(rs, scope) + 1
      && TotalBytes(rs + [link], scope) == TotalBytes(rs, scope) + 20 + n
      && if |rs| < MAX_MANIFEST_RECORDS && TotalBytes(rs, scope) + 20 + n <= MAX_TOTAL_ATTACHMENT_BYTES
         then FitRun(rs + [link]) else LosesStore(rs, OpLink(scope, id, HOST, Url(n)))
  {
    var link := LinkRecord(id, scope, HOST, Url(n));
    assert Perform(rs, OpLink(scope, id, HOST, Url(n))) == rs + [link];
    GuardedStep(rs, OpLink(scope, id, HOST, Url(n)));
    AppendCounts(rs, link, scope);
  }

  /** `n` links in one scope. */
  function Links(n: nat): (rs: seq<Record>)
    ensures |rs| == n && forall i :: 0 <= i < n ==> rs[i] == LinkRecord(i, 0, HOST, Url(i))
  {
    seq(n, (i: nat) => LinkRecord(i, 0, HOST, Url(i)))
  }

  lemma LinksNext(n: nat)
    ensures Links(n + 1) == Links(n) + [LinkRecord(n, 0, HOST, Url(n))]
    ensures n !in Ids(Links(n)) && forall r :: r in Links(n) ==> r.url != Some(Url(n))
  {
    forall r | r in Links(n) ensures r.attachmentId < n && r.url.Some? && |r.url.value| < 20 + n {
      var i :| 0 <= i < n && Links(n)[i] == r;
    }
  }

  lemma {:induction false} LinksAreStaged(n: nat)
    requires n <= MAX_ATTACHMENTS
    ensures DraftCount(Links(n), 0) == n && TotalBytes(Links(n), 0) <= 30 * n && FitRun(Links(n))
  {
    if n == 0 {
      StartFits();
    } else {
      LinksAreStaged(n - 1);
      LinksNext(n - 1);
      StageNewLink(Links(n - 1), 0, n - 1, n - 1);
    }
  }

  lemma {:induction false} AllReserved(rs: seq<Record>, key: Key)
    requires forall r :: r in rs ==> ReservedFor(r, key)
    ensures ReservedCount(rs, key) == |rs| && DraftCount(rs, key.scope) == 0
  {
    if rs != [] { AllReserved(rs[..|rs| - 1], key); }
  }

  function FirstIds(n: nat): (ids: seq<AttachmentId>)
    ensures |ids| == n && forall i :: 0 <= i < n ==> ids[i] == i
  {
    seq(n, (i: nat) => i)
  }

  lemma LinksCanBeReserved(n: nat)
    requires n <= MAX_ATTACHMENTS
    ensures CanReserve(Links(n), 0, FirstIds(n))
  {
    forall id | id in FirstIds(n) ensures id in DraftIds(Links(n), 0) {
      assert Links(n)[id] in Links(n);
    }
  }

  /** Links that one prompt has taken. */
  lemma ReserveLinks(n: nat) returns (rs: seq<Record>)
    requires n <= MAX_ATTACHMENTS
    ensures FitRun(rs) && |rs| == n && ReservedCount(rs, KEY) == n && DraftCount(rs, 0) == 0 && TotalBytes(rs, 0) <= 30 * n
    ensures forall i :: 0 <= i < n ==> rs[i].attachmentId == i && rs[i].url == Some(Url(i))
  {
    LinksAreStaged(n);
    LinksCanBeReserved(n);
    rs := Reserve(Links(n), KEY, FirstIds(n));
    forall i | 0 <= i < n ensures rs[i].attachmentId == i && rs[i].url == Some(Url(i)) && ReservedFor(rs[i], KEY) {
      assert FirstIds(n)[i] == i;
    }
    GuardedStep(Links(n), OpReserve(KEY, FirstIds(n), true));
    AllReserved(rs, KEY);
    FewerDrafts(Links(n), rs, 0);
  }

  /** Ten attachments of a prompt and an eleventh draft: the release after a failed prompt loses the store. */
  lemma TenReservedAndOneMoreOverflow()
    ensures exists rs :: LosesStore(rs, OpRelease(KEY))
  {
    var reserved := ReserveLinks(MAX_ATTACHMENTS);
    var rs := reserved + [LinkRecord(10, 0, HOST, Url(10))];
    StageNewLink(reserved, 0, 10, 10);
    assert rs[..10] == reserved;
    GuardedStep(rs, OpRelease(KEY));
  }

  /** A text file of this many bytes; its name tells it from other content. */
  function FileItem(n: nat, name: string): Item {
    Item(seq(n, _ => 'x'), Some(Content(File, name, "text/plain", name, Utf8)))
  }

  lemma StageFile(rs: seq<Record>, n: nat, name: string, id: AttachmentId) returns (after: seq<Record>)
    requires FitRun(rs) && SizeOk(n) && id !in Ids(rs) && |rs| < MAX_ATTACHMENTS && HasCapacity(rs, 0, n)
    requires forall r :: r in rs ==> r.name != name
    ensures after == rs + [NewRecord(id, 0, FileItem(n, name))] && FitRun(after)
    ensures TotalBytes(after, 0) == TotalBytes(rs, 0) + n && DraftCount(after, 0) == DraftCount(rs, 0) + 1
  {
    var item := FileItem(n, name);
    after := rs + [NewRecord(id, 0, item)];
    assert [item][..0] == [] && [id][..0] == [];
    assert StageItems(rs, 0, [item], [id]) == StageOne(rs, 0, item, id);
    assert NewCount(rs, 0, []) == 0;
    GuardedStep(rs, OpStage(0, [item], [id]));
    AppendCounts(rs, NewRecord(id, 0, item), 0);
  }

  /** 20, 20 and 10 MiB of files are exactly the limit; one more link loses the store. */
  lemma FullOfFilesAndOneLinkOverflow()
    ensures exists rs :: LosesStore(rs, OpLink(0, 3, HOST, Url(0)))
  {
    StartFits();
    var a := StageFile([], MAX_ATTACHMENT_BYTES, "a", 0);
    var b := StageFile(a, MAX_ATTACHMENT_BYTES, "b", 1);
    var c := StageFile(b, MAX_ATTACHMENT_BYTES / 2, "c", 2);
    StageNewLink(c, 0, 3, 0);
  }

  /** One link in each of `n` scopes. */
  function Spread(n: nat): (rs: seq<Record>)
    ensures |rs| == n && forall i :: 0 <= i < n ==> rs[i] == LinkRecord(i, i, HOST, Url(0))
  {
    seq(n, (i: nat) => LinkRecord(i, i, HOST, Url(0)))
  }

  lemma SpreadNext(n: nat)
    ensures Spread(n + 1) == Spread(n) + [LinkRecord(n, n, HOST, Url(0))]
    ensures n !in Ids(Spread(n)) && forall r :: r in Spread(n) ==> r.scope != n
  {
    forall r | r in Spread(n) ensures r.attachmentId < n && r.scope < n {
      var i :| 0 <= i < n && Spread(n)[i] == r;
    }
  }

  lemma {:induction false} NothingElsewhere(n: nat, scope: Scope)
    requires n <= scope
    ensures DraftCount(Spread(n), scope) == 0 && TotalBytes(Spread(n), scope) == 0
  {
    if n > 0 {
      NothingElsewhere(n - 1, scope);
      AppendCounts(Spread(n - 1), LinkRecord(n - 1, n - 1, HOST, Url(0)), scope);
      SpreadNext(n - 1);
    }
  }

  lemma {:induction false} SpreadIsStaged(n: nat)
    requires n <= MAX_MANIFEST_RECORDS
    ensures FitRun(Spread(n))
  {
    if n == 0 {
      StartFits();
    } else {
      SpreadIsStaged(n - 1);
      NothingElsewhere(n - 1, n - 1);
      SpreadNext(n - 1);
      StageNewLink(Spread(n - 1), n - 1, n - 1, 0);
    }
  }

  /** A thousand links in as many scopes are exactly the limit; one more anywhere loses the store. */
  lemma ManyScopesAndOneLinkOverflow(n: nat)
    requires n == MAX_MANIFEST_RECORDS
    ensures exists rs :: LosesStore(rs, OpLink(n, n, HOST, Url(0)))
  {
    SpreadIsStaged(n);
    NothingElsewhere(n, n);
    SpreadNext(n);
    StageNewLink(Spread(n), n, n, 0);
  }
}
