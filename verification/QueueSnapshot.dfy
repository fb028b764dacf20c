/**
 The queue snapshot a Host notification carries, and `projectQueueChanged`, which accepts or
 rejects it (desktop/src/conversation-controller.js).
 */
module QueueSnapshot {
  import opened Common

  const MAX_PUBLIC_QUEUE_ENTRIES := 50

  /** One entry as received. `fieldsValid` is the outcome of the character checks on id, text and clients. */
  datatype RawEntry = RawEntry(
    id: PromptId, version: int, position: int, owner: Option<nat>, text: string, fieldsValid: bool)

  datatype RawSnapshot = RawSnapshot(
    queueRevision: int, entries: seq<RawEntry>, running: Option<PromptId>, runningValid: bool)

  datatype Entry = Entry(id: PromptId, version: nat, owner: Option<nat>, text: string, position: nat)

  datatype Snapshot = Snapshot(queueRevision: nat, entries: seq<Entry>, running: Option<PromptId>)

  predicate HeaderAcceptable(value: RawSnapshot) {
    && 0 <= value.queueRevision <= MAX_SAFE_INTEGER
    && |value.entries| <= MAX_PUBLIC_QUEUE_ENTRIES
    && (value.running.Some? ==> value.runningValid)
  }

  /** The checks on one entry that do not look at its neighbours. */
  predicate EntryAcceptable(e: RawEntry, count: nat) {
    && e.fieldsValid
    && 0 <= e.version <= MAX_SAFE_INTEGER
    && 0 <= e.position < count
  }

  predicate PairwiseDistinct(entries: seq<RawEntry>) {
    forall i, j :: 0 <= i < j < |entries| ==>
      entries[i].id != entries[j].id && entries[i].position != entries[j].position
  }

  /** Which received values are snapshots at all. */
  predicate Acceptable(value: RawSnapshot) {
    && HeaderAcceptable(value)
    && (forall i :: 0 <= i < |value.entries| ==> EntryAcceptable(value.entries[i], |value.entries|))
    && PairwiseDistinct(value.entries)
  }

  function Project(e: RawEntry): Entry
    requires e.version >= 0 && e.position >= 0
  {
    Entry(e.id, e.version, e.owner, e.text, e.position)
  }

  predicate DistinctIds(entries: seq<Entry>) {
    forall i, j :: 0 <= i < j < |entries| ==> entries[i].id != entries[j].id
  }

  predicate SortedByPosition(entries: seq<Entry>) {
    forall i, j :: 0 <= i < j < |entries| ==> entries[i].position < entries[j].position
  }

  predicate DistinctPositions(entries: seq<Entry>) {
    forall i, j :: 0 <= i < j < |entries| ==> entries[i].position != entries[j].position
  }

  /** What every later step relies on: distinct ids, and position i at index i. */
  predicate WellFormed(s: Snapshot) {
    && DistinctIds(s.entries)
    && (forall i :: 0 <= i < |s.entries| ==> s.entries[i].position == i)
  }

  /** Strictly increasing numbers grow at least as fast as their indices. */
  lemma {:induction false} StrictGrowth(entries: seq<Entry>, i: nat, j: nat)
    requires SortedByPosition(entries)
    requires i <= j < |entries|
    ensures entries[j].position - entries[i].position >= j - i
    decreases j - i
  {
    if i < j {
      StrictGrowth(entries, i, j - 1);
      assert entries[j - 1].position < entries[j].position;
    }
  }

  /** Pigeonhole: n distinct positions below n, in order, are exactly 0 .. n-1. */
  lemma SortedDistinctPositionsAreIndices(entries: seq<Entry>)
    requires SortedByPosition(entries)
    requires forall i :: 0 <= i < |entries| ==> entries[i].position < |entries|
    ensures forall i :: 0 <= i < |entries| ==> entries[i].position == i
  {
    forall i | 0 <= i < |entries| ensures entries[i].position == i {
      StrictGrowth(entries, 0, i);
      StrictGrowth(entries, i, |entries| - 1);
    }
  }

  /** Two accepted orderings of the same entries are the same ordering. */
  lemma {:induction false} OrderIsForced(a: Snapshot, b: Snapshot)
    requires WellFormed(a) && WellFormed(b)
    requires multiset(a.entries) == multiset(b.entries)
    ensures a.entries == b.entries
  {
    assert |a.entries| == |multiset(a.entries)| == |multiset(b.entries)| == |b.entries|;
    forall i | 0 <= i < |a.entries| ensures a.entries[i] == b.entries[i] {
      assert a.entries[i] in multiset(b.entries);
      var j :| 0 <= j < |b.entries| && b.entries[j] == a.entries[i];
    }
  }

  /** Splitting a sequence at an index does not change its contents. */
  lemma SplitKeepsContents(s: seq<Entry>, i: nat, e: Entry)
    requires i <= |s|
    ensures multiset(s[..i] + [e] + s[i..]) == multiset(s) + multiset{e}
  {
    assert s == s[..i] + s[i..];
  }

  /** Entry e shares neither id nor position with any entry of s. */
  predicate Apart(s: seq<Entry>, e: Entry) {
    forall k :: 0 <= k < |s| ==> s[k].id != e.id && s[k].position != e.position
  }

  lemma InsertKeepsOrder(s: seq<Entry>, i: nat, e: Entry)
    requires i <= |s| && SortedByPosition(s) && Apart(s, e)
    requires forall k :: i <= k < |s| ==> s[k].position > e.position
    requires i > 0 ==> s[i - 1].position <= e.position
    ensures SortedByPosition(s[..i] + [e] + s[i..])
  {
    var r := s[..i] + [e] + s[i..];
    forall j, k | 0 <= j < k < |r| ensures r[j].position < r[k].position {
      var j', k' := if j < i then j else j - 1, if k < i then k else k - 1;
      assert j != i ==> r[j] == s[j'];
      assert k != i ==> r[k] == s[k'];
    }
  }

  lemma InsertKeepsIdsDistinct(s: seq<Entry>, i: nat, e: Entry)
    requires i <= |s| && DistinctIds(s) && Apart(s, e)
    ensures DistinctIds(s[..i] + [e] + s[i..])
  {
    var r := s[..i] + [e] + s[i..];
    forall j, k | 0 <= j < k < |r| ensures r[j].id != r[k].id {
      var j', k' := if j < i then j else j - 1, if k < i then k else k - 1;
      assert j != i ==> r[j] == s[j'];
      assert k != i ==> r[k] == s[k'];
    }
  }

  /** One insertion step of the sort: entries with a greater position move up. */
  method InsertByPosition(s: seq<Entry>, e: Entry) returns (r: seq<Entry>)
    requires SortedByPosition(s) && DistinctIds(s) && Apart(s, e)
    ensures SortedByPosition(r) && DistinctIds(r)
    ensures multiset(r) == multiset(s) + multiset{e}
  {
    var i := |s|;
    while i > 0 && s[i - 1].position > e.position
      invariant 0 <= i <= |s|
      invariant forall k :: i <= k < |s| ==> s[k].position > e.position
    {
      i := i - 1;
    }
    InsertKeepsOrder(s, i, e);
    InsertKeepsIdsDistinct(s, i, e);
    SplitKeepsContents(s, i, e);
    r := s[..i] + [e] + s[i..];
  }

  lemma ApartIsAboutContents(s: seq<Entry>, t: seq<Entry>, e: Entry)
    requires multiset(s) == multiset(t) && Apart(t, e)
    ensures Apart(s, e)
  {
    forall k | 0 <= k < |s| ensures s[k].id != e.id && s[k].position != e.position {
      assert s[k] in multiset(t);
    }
  }

  method SortByPosition(entries: seq<Entry>) returns (r: seq<Entry>)
    requires DistinctIds(entries) && DistinctPositions(entries)
    ensures SortedByPosition(r) && DistinctIds(r)
    ensures multiset(r) == multiset(entries)
  {
    r := [];
    for i := 0 to |entries|
      invariant SortedByPosition(r) && DistinctIds(r)
      invariant multiset(r) == multiset(entries[..i])
    {
      assert entries[..i + 1] == entries[..i] + [entries[i]];
      ApartIsAboutContents(r, entries[..i], entries[i]);
      r := InsertByPosition(r, entries[i]);
    }
    assert entries[..|entries|] == entries;
  }

  /** The received entries, in received order, with unused fields dropped. */
  function Projected(entries: seq<RawEntry>): (r: seq<Entry>)
    requires forall e :: e in entries ==> e.version >= 0 && e.position >= 0
    ensures |r| == |entries|
    ensures forall i :: 0 <= i < |r| ==> r[i] == Project(entries[i])
  {
    seq(|entries|, i requires 0 <= i < |entries| => assert entries[i] in entries; Project(entries[i]))
  }

  /** The entry loop: collects ids and positions, and stops at the first entry it cannot accept. */
  method CollectEntries(raw: seq<RawEntry>) returns (r: Result<seq<Entry>>)
    ensures r.Ok? <==> (forall i :: 0 <= i < |raw| ==> EntryAcceptable(raw[i], |raw|)) && PairwiseDistinct(raw)
    ensures r.Ok? ==> |r.value| == |raw|
    ensures r.Ok? ==> forall i :: 0 <= i < |raw| ==>
      raw[i].version >= 0 && raw[i].position >= 0 && r.value[i] == Project(raw[i])
  {
    var n := |raw|;
    var ids: set<PromptId>, positions: set<int>, entries: seq<Entry> := {}, {}, [];
    for i := 0 to n
      invariant |entries| == i
      invariant forall k :: 0 <= k < i ==> EntryAcceptable(raw[k], n) && entries[k] == Project(raw[k])
      invariant forall x :: x in ids <==> exists k :: 0 <= k < i && raw[k].id == x
      invariant forall x :: x in positions <==> exists k :: 0 <= k < i && raw[k].position == x
      invariant forall j, k :: 0 <= j < k < i ==> raw[j].id != raw[k].id && raw[j].position != raw[k].position
    {
      var e := raw[i];
      if !EntryAcceptable(e, n) || e.id in ids || e.position in positions {
        return Err;
      }
      ids, positions, entries := ids + {e.id}, positions + {e.position}, entries + [Project(e)];
    }
    r := Ok(entries);
  }

  /** Entry k of the snapshot is what was received: same id, version, owner and text. */
  predicate ShowsAs(raw: RawEntry, entries: seq<Entry>, k: int) {
    && 0 <= k < |entries| && entries[k].position == k
    && entries[k].id == raw.id && entries[k].version == raw.version
    && entries[k].owner == raw.owner && entries[k].text == raw.text
  }

  lemma EachShownAtItsPosition(raw: seq<RawEntry>, sorted: seq<Entry>)
    requires forall e :: e in raw ==> e.version >= 0 && e.position >= 0
    requires multiset(sorted) == multiset(Projected(raw)) && forall i :: 0 <= i < |sorted| ==> sorted[i].position == i
    ensures forall i :: 0 <= i < |raw| ==> ShowsAs(raw[i], sorted, raw[i].position)
  {
    forall i | 0 <= i < |raw| ensures ShowsAs(raw[i], sorted, raw[i].position) {
      assert Projected(raw)[i] in multiset(sorted);
      var k :| 0 <= k < |sorted| && sorted[k] == Projected(raw)[i];
    }
  }

  method ProjectQueueChanged(value: RawSnapshot) returns (r: Result<Snapshot>)
    ensures r.Ok? <==> Acceptable(value)
    ensures r.Ok? ==> WellFormed(r.value)
    ensures r.Ok? ==> r.value.queueRevision == value.queueRevision && r.value.running == value.running
    ensures r.Ok? ==> multiset(r.value.entries) == multiset(Projected(value.entries))
    ensures r.Ok? ==> |r.value.entries| == |value.entries|
    ensures r.Ok? ==> forall i :: 0 <= i < |value.entries| ==>
      ShowsAs(value.entries[i], r.value.entries, value.entries[i].position)
  {
    if !HeaderAcceptable(value) {
      return Err;
    }
    var collected := CollectEntries(value.entries);
    if collected.Err? {
      return Err;
    }
    var entries := collected.value;
    assert entries == Projected(value.entries);
    var sorted := SortByPosition(entries);
    SameContentsSameBound(sorted, entries);
    SortedDistinctPositionsAreIndices(sorted);
    EachShownAtItsPosition(value.entries, sorted);
    r := Ok(Snapshot(value.queueRevision, sorted, value.running));
  }

  lemma SameContentsSameBound(sorted: seq<Entry>, entries: seq<Entry>)
    requires multiset(sorted) == multiset(entries)
    requires forall i :: 0 <= i < |entries| ==> entries[i].position < |entries|
    ensures |sorted| == |entries|
    ensures forall i :: 0 <= i < |sorted| ==> sorted[i].position < |sorted|
  {
    assert |sorted| == |multiset(sorted)| == |multiset(entries)| == |entries|;
    forall i | 0 <= i < |sorted| ensures sorted[i].position < |sorted| {
      assert sorted[i] in multiset(entries);
    }
  }
}
