/**
 The whole of `LineBufferedRead`: the reader task, its channel, and `poll_read`, under any schedule
 of task steps and reads (crates/codegen/xai-acp-lib/src/line_reader.rs).
 */
module LinePipe {
  import opened Common
  import opened LineReader

  class Channel {
    var items: seq<Item>
    var closed: bool

    constructor ()
      ensures items == [] && !closed
    {
      items, closed := [], false;
    }
  }

  function AsSeq(pending: Option<Item>): seq<Item> {
    if pending.Some? then [pending.value] else []
  }

  /** What the reader task will still send, given what it holds and what its source still has. */
  function Upcoming(pending: Option<Item>, done: bool, rest: seq<byte>, end: End): seq<Item> {
    if done then []
    else if pending.Some? && !pending.value.Line? then [pending.value]
    else AsSeq(pending) + Items(rest, end)
  }

  /** The spawned task: it reads one line, sends it once there is room, and stops at the end or an error. */
  class ReaderTask {
    const src: Source
    const chan: Channel
    var pending: Option<Item>
    var done: bool

    constructor (src: Source, chan: Channel)
      ensures this.src == src && this.chan == chan && pending.None? && !done
    {
      this.src, this.chan, pending, done := src, chan, None, false;
    }

    ghost predicate Valid()
      reads this, src, chan
    {
      && src.Valid() && chan.closed == done
      && (done ==> pending.None?) && (pending.Some? ==> !pending.value.EndOfInput?)
    }

    ghost function ToSend(): seq<Item>
      reads this, src
    {
      Upcoming(pending, done, src.Data(), src.end)
    }

    /** A bound on the steps that still change something. */
    ghost function Work(): nat
      reads this, src
    {
      if done then 0 else 2 * |ToSend()| + if pending.None? then 1 else 0
    }

    method ReadNext()
      requires Valid() && !done && pending.None?
      modifies this, src, chan
      ensures Valid() && chan.items == old(chan.items) && ToSend() == old(ToSend()) && Work() < old(Work())
    {
      var item, buf := ReadLineCapped(src);
      if item.EndOfInput? {
        done, chan.closed := true, true;
      } else {
        pending := Some(item);
      }
    }

    method SendPending()
      requires Valid() && pending.Some?
      modifies this, chan
      ensures Valid() && chan.items + ToSend() == old(chan.items + ToSend()) && Work() < old(Work())
    {
      chan.items := chan.items + [pending.value];
      if !pending.value.Line? {
        done, chan.closed := true, true;
      }
      pending := None;
    }

    /** One step of the reader task; whatever moves, what is queued and still to come stays the same. */
    method Step()
      requires Valid()
      modifies this, src, chan
      ensures Valid() && chan.items + ToSend() == old(chan.items + ToSend())
      ensures if old(done) || (old(pending).Some? && |old(chan.items)| >= CHANNEL_CAPACITY)
              then Work() == old(Work()) && chan.items == old(chan.items) && done == old(done) else Work() < old(Work())
      ensures |old(chan.items)| <= |chan.items|
    {
      if !done && pending.None? {
        ReadNext();
      } else if !done && |chan.items| < CHANNEL_CAPACITY {
        SendPending();
      }
    }
  }

  datatype Poll = Ready(n: nat) | Failed | Pending

  function Min(a: nat, b: nat): nat {
    if a < b then a else b
  }

  class LineBufferedRead {
    const rx: Channel
    var buf: seq<byte>
    var pos: nat

    constructor (rx: Channel)
      ensures this.rx == rx && Valid() && Rest() == []
    {
      this.rx, buf, pos := rx, [], 0;
    }

    ghost predicate Valid()
      reads this
    {
      pos <= |buf| && (pos == |buf| ==> buf == [])
    }

    /** What is left of the line being served. */
    function Rest(): seq<byte>
      requires pos <= |buf|
      reads this
    {
      buf[pos..]
    }

    /** Copies the first bytes of a line into the caller's slice. */
    method CopyTo(line: seq<byte>, dest: array<byte>) returns (n: nat)
      modifies dest
      ensures n == Min(|line|, dest.Length) && dest[..n] == line[..n]
    {
      n := Min(|line|, dest.Length);
      for i := 0 to n
        invariant dest[..i] == line[..i]
      {
        dest[i] := line[i];
      }
    }

    method PollRead(dest: array<byte>) returns (poll: Poll)
      requires Valid()
      modifies this, rx, dest
      ensures Valid() && rx.closed == old(rx.closed)
      ensures old(Rest()) != [] ==>
        && rx.items == old(rx.items)
        && poll == Ready(Min(|old(Rest())|, dest.Length))
        && dest[..poll.n] + Rest() == old(Rest())
      ensures old(Rest()) == [] && old(rx.items) != [] ==>
        && rx.items == old(rx.items)[1..]
        && (old(rx.items)[0].Line? ==>
              && poll == Ready(Min(|old(rx.items)[0].bytes|, dest.Length))
              && dest[..poll.n] + Rest() == old(rx.items)[0].bytes)
        && (!old(rx.items)[0].Line? ==> poll == Failed && Rest() == [])
      ensures old(Rest()) == [] && old(rx.items) == [] ==>
        && rx.items == [] && Rest() == []
        && poll == if rx.closed then Ready(0) else Pending
    {
      if pos < |buf| {
        var n := CopyTo(buf[pos..], dest);
        pos := pos + n;
        if pos >= |buf| {
          buf, pos := [], 0;
        }
        return Ready(n);
      }
      if rx.items == [] {
        return if rx.closed then Ready(0) else Pending;
      }
      var item := rx.items[0];
      rx.items := rx.items[1..];
      if !item.Line? {
        return Failed;
      }
      var n := CopyTo(item.bytes, dest);
      if n < |item.bytes| {
        buf, pos := item.bytes, n;
      }
      return Ready(n);
    }
  }

  // ---------------------------------------------------------------- every schedule

  /** What one event of a schedule does: the reader task runs, or the consumer reads into a slice of some size. */
  datatype Event = TaskRuns | Reads(room: nat)

  /** What the consumer observed. */
  datatype Entry = Got(bytes: seq<byte>, room: nat) | GotError | GotPending

  function Delivered(log: seq<Entry>): seq<byte> {
    if log == [] then []
    else Delivered(log[..|log| - 1]) + (if log[|log| - 1].Got? then log[|log| - 1].bytes else [])
  }

  /** Bytes of a single line: a newline can only be the last one. */
  ghost predicate WithinLine(bytes: seq<byte>) {
    forall i :: 0 <= i < |bytes| - 1 ==> bytes[i] != NEWLINE
  }

  /** What one observation promises, given what was delivered before it. */
  ghost predicate EntryOk(before: seq<byte>, entry: Entry, all: seq<Item>) {
    match entry
    case Got(bytes, room) =>
      && |bytes| <= room && WithinLine(bytes)
      && before + bytes <= BytesOf(all)
      && (bytes == [] && room > 0 ==> before == BytesOf(all))
    case GotPending => exists k :: 0 <= k <= |all| && before == BytesOf(all[..k])
    case GotError => before == BytesOf(all) && all != [] && !all[|all| - 1].Line?
  }

  ghost predicate LogOk(log: seq<Entry>, all: seq<Item>) {
    forall i :: 0 <= i < |log| ==> EntryOk(Delivered(log[..i]), log[i], all)
  }

  /** The reader has taken the first items and still holds the end of the last one. */
  ghost predicate ReaderOk(delivered: seq<byte>, held: seq<byte>, all: seq<Item>, taken: nat) {
    taken <= |all| && delivered + held == BytesOf(all[..taken]) && WithinLine(held)
  }

  lemma {:induction false} BytesOfPrefix(all: seq<Item>, k: nat)
    requires k <= |all|
    ensures BytesOf(all[..k]) <= BytesOf(all)
  {
    if k < |all| {
      assert all[..|all| - 1][..k] == all[..k];
      BytesOfPrefix(all[..|all| - 1], k);
    } else {
      assert all[..k] == all;
    }
  }

  lemma FirstLineIsOneLine(data: seq<byte>, end: End)
    requires FirstItem(data, end).Line?
    ensures FirstItem(data, end).bytes != [] && WithinLine(FirstItem(data, end).bytes)
  {
    NoNewlineBefore(data);
  }

  lemma {:induction false} NoNewlineBefore(data: seq<byte>)
    ensures forall i :: 0 <= i < LineLength(data) - 1 ==> data[i] != NEWLINE
    ensures data != [] && data[LineLength(data) - 1] != NEWLINE ==> LineLength(data) == |data|
  {
    if data != [] && data[0] != NEWLINE {
      NoNewlineBefore(data[1..]);
      forall i | 0 <= i < LineLength(data) - 1 ensures data[i] != NEWLINE {
        assert i > 0 ==> data[i] == data[1..][i - 1];
      }
    }
  }

  /** Every line sent is non-empty and a single line, and an error is the last thing sent. */
  lemma {:induction false} ItemsShape(data: seq<byte>, end: End, i: nat)
    requires i < |Items(data, end)|
    ensures var item := Items(data, end)[i];
            && (item.Line? ==> item.bytes != [] && WithinLine(item.bytes))
            && (!item.Line? ==> i == |Items(data, end)| - 1)
    decreases |data|
  {
    var first := FirstItem(data, end);
    if first.Line? {
      FirstLineIsOneLine(data, end);
      if i > 0 {
        ItemsShape(data[|first.bytes|..], end, i - 1);
      }
    }
  }

  /** Serving n bytes of what is held, or of the next line. */
  lemma ServeOk(log: seq<Entry>, all: seq<Item>, taken: nat, served: seq<byte>, held: seq<byte>, room: nat)
    requires LogOk(log, all) && taken <= |all|
    requires Delivered(log) + (served + held) == BytesOf(all[..taken])
    requires WithinLine(served + held) && |served| <= room && (room > 0 ==> served != [])
    ensures var log' := log + [Got(served, room)];
            LogOk(log', all) && ReaderOk(Delivered(log'), held, all, taken)
  {
    var log' := log + [Got(served, room)];
    assert log'[..|log|] == log;
    BytesOfPrefix(all, taken);
    assert forall i :: 0 <= i < |served| ==> served[i] == (served + held)[i];
    assert forall i :: 0 <= i < |held| ==> held[i] == (served + held)[|served| + i];
    assert Delivered(log') + held == Delivered(log) + (served + held);
    assert Delivered(log) + served <= BytesOf(all[..taken]);
    LogGrows(log, Got(served, room), all);
  }

  lemma LogGrows(log: seq<Entry>, entry: Entry, all: seq<Item>)
    requires LogOk(log, all) && EntryOk(Delivered(log), entry, all)
    ensures LogOk(log + [entry], all)
  {
    var log' := log + [entry];
    forall i | 0 <= i < |log'| ensures EntryOk(Delivered(log'[..i]), log'[i], all) {
      assert log'[..i] == log[..i];
      assert i == |log| ==> log[..i] == log;
    }
  }

  /** What the reader sees of the channel: the items not taken yet, or the end. */
  lemma NextItem(all: seq<Item>, taken: nat, queue: seq<Item>, upcoming: seq<Item>)
    requires taken <= |all| && all[taken..] == queue + upcoming && queue != []
    ensures taken < |all| && all[taken] == queue[0]
    ensures all[taken + 1..] == queue[1..] + upcoming
    ensures BytesOf(all[..taken + 1]) == BytesOf(all[..taken]) + (if queue[0].Line? then queue[0].bytes else [])
  {
    assert all[taken] == (queue + upcoming)[0];
    assert all[..taken + 1][..taken] == all[..taken];
  }

  /** The shape that `ItemsShape` gives the items of any source. */
  ghost predicate WellShaped(all: seq<Item>) {
    && (forall i :: 0 <= i < |all| && all[i].Line? ==> all[i].bytes != [] && WithinLine(all[i].bytes))
    && (forall i :: 0 <= i < |all| - 1 ==> all[i].Line?)
  }

  predicate EndsInError(all: seq<Item>) {
    all != [] && !all[|all| - 1].Line?
  }

  /** An error that was taken was reported. */
  ghost predicate Reported(log: seq<Entry>, all: seq<Item>, taken: nat) {
    taken == |all| && EndsInError(all) ==> GotError in log
  }

  /** The answers that tell the consumer that nothing more will come. */
  predicate IsEnd(entry: Entry) {
    entry.GotError? || (entry.Got? && entry.bytes == [] && entry.room > 0)
  }

  /** What `poll_read` does, in terms of the bytes held, the queue, and what the consumer sees. */
  ghost predicate PollOk(held: seq<byte>, queue: seq<Item>, closed: bool, room: nat,
                         entry: Entry, held': seq<byte>, queue': seq<Item>) {
    if held != [] then queue' == queue && Serves(held, room, entry, held')
    else if queue != [] then
      && queue' == queue[1..]
      && if queue[0].Line? then Serves(queue[0].bytes, room, entry, held') else entry == GotError && held' == []
    else queue' == [] && held' == [] && entry == if closed then Got([], room) else GotPending
  }

  ghost predicate Serves(line: seq<byte>, room: nat, entry: Entry, held: seq<byte>) {
    entry.Got? && entry.room == room && |entry.bytes| == Min(|line|, room) && entry.bytes + held == line
  }

  /** Where the consumer is: the log so far, what the reader holds, and the items not taken yet. */
  ghost predicate At(log: seq<Entry>, all: seq<Item>, taken: nat, held: seq<byte>, queue: seq<Item>, upcoming: seq<Item>) {
    && LogOk(log, all) && ReaderOk(Delivered(log), held, all, taken)
    && all[taken..] == queue + upcoming && Reported(log, all, taken)
  }

  /** One read by the consumer. */
  method ReadOnce(reader: LineBufferedRead, room: nat) returns (entry: Entry)
    requires reader.Valid()
    modifies reader, reader.rx
    ensures reader.Valid() && reader.rx.closed == old(reader.rx.closed)
    ensures PollOk(old(reader.Rest()), old(reader.rx.items), reader.rx.closed, room, entry, reader.Rest(), reader.rx.items)
  {
    var dest := new byte[room];
    var poll := reader.PollRead(dest);
    entry := match poll case Ready(n) => Got(dest[..n], room) case Failed => GotError case Pending => GotPending;
  }

  /** The observation is right, and the consumer is where it should be. */
  lemma Observe(log: seq<Entry>, all: seq<Item>, taken: nat, held: seq<byte>, queue: seq<Item>, upcoming: seq<Item>,
                closed: bool, room: nat, entry: Entry, held': seq<byte>, queue': seq<Item>)
    returns (taken': nat)
    requires At(log, all, taken, held, queue, upcoming) && WellShaped(all) && (closed ==> upcoming == [])
    requires PollOk(held, queue, closed, room, entry, held', queue')
    ensures At(log + [entry], all, taken', held', queue', upcoming)
    ensures (entry.GotPending? ==> queue == [] && !closed) && (entry.Got? ==> entry.room == room)
    ensures IsEnd(entry) ==> taken' == |all| && Delivered(log + [entry]) == BytesOf(all)
  {
    taken' := if held == [] && queue != [] then taken + 1 else taken;
    if held != [] {
      Served(log, all, taken, held, entry, held');
      ReportedStays(log, entry, all, taken);
    } else if queue != [] {
      ObserveItem(log, all, taken, queue, upcoming, room, entry, held');
    } else if entry.GotPending? {
      PendingOk(log, all, taken);
      ReportedStays(log, entry, all, taken);
    } else {
      EndOk(log, all, taken, room);
      ReportedStays(log, entry, all, taken);
    }
  }

  lemma ObserveItem(log: seq<Entry>, all: seq<Item>, taken: nat, queue: seq<Item>, upcoming: seq<Item>,
                    room: nat, entry: Entry, held: seq<byte>)
    requires At(log, all, taken, [], queue, upcoming) && WellShaped(all) && queue != []
    requires if queue[0].Line? then Serves(queue[0].bytes, room, entry, held) else entry == GotError && held == []
    ensures At(log + [entry], all, taken + 1, held, queue[1..], upcoming)
    ensures IsEnd(entry) ==> taken + 1 == |all| && Delivered(log + [entry]) == BytesOf(all)
  {
    NextItem(all, taken, queue, upcoming);
    if queue[0].Line? {
      assert Delivered(log) + [] == Delivered(log);
      Served(log, all, taken + 1, queue[0].bytes, entry, held);
    } else {
      ErrorOk(log, all, taken);
    }
  }

  /** Some bytes of a line went to the consumer, and the reader holds the others. */
  lemma Served(log: seq<Entry>, all: seq<Item>, taken: nat, line: seq<byte>, entry: Entry, held: seq<byte>)
    requires LogOk(log, all) && taken <= |all| && line != [] && WithinLine(line)
    requires Delivered(log) + line == BytesOf(all[..taken])
    requires entry.Got? && entry.bytes + held == line && |entry.bytes| == Min(|line|, entry.room)
    ensures LogOk(log + [entry], all) && ReaderOk(Delivered(log + [entry]), held, all, taken) && !IsEnd(entry)
  {
    ServeOk(log, all, taken, entry.bytes, held, entry.room);
  }

  lemma PendingOk(log: seq<Entry>, all: seq<Item>, taken: nat)
    requires LogOk(log, all) && ReaderOk(Delivered(log), [], all, taken)
    ensures LogOk(log + [GotPending], all) && ReaderOk(Delivered(log + [GotPending]), [], all, taken)
  {
    assert Delivered(log) + [] == Delivered(log);
    LogGrows(log, GotPending, all);
    DeliveredGrows(log, GotPending);
  }

  lemma ReportedStays(log: seq<Entry>, entry: Entry, all: seq<Item>, taken: nat)
    requires Reported(log, all, taken)
    ensures Reported(log + [entry], all, taken)
  {
  }

  /** The error item is the last one, and is told. */
  lemma ErrorOk(log: seq<Entry>, all: seq<Item>, taken: nat)
    requires LogOk(log, all) && ReaderOk(Delivered(log), [], all, taken) && WellShaped(all)
    requires taken < |all| && !all[taken].Line?
    ensures taken + 1 == |all| && LogOk(log + [GotError], all) && Delivered(log + [GotError]) == BytesOf(all)
    ensures ReaderOk(BytesOf(all), [], all, |all|)
  {
    assert all[..taken + 1] == all;
    assert Delivered(log) + [] == Delivered(log);
    LogGrows(log, GotError, all);
    DeliveredGrows(log, GotError);
  }

  /** Nothing is left, and a read of nothing tells so. */
  lemma EndOk(log: seq<Entry>, all: seq<Item>, taken: nat, room: nat)
    requires LogOk(log, all) && ReaderOk(Delivered(log), [], all, taken) && all[taken..] == []
    ensures taken == |all| && LogOk(log + [Got([], room)], all) && Delivered(log + [Got([], room)]) == BytesOf(all)
    ensures Delivered(log) == BytesOf(all)
  {
    assert all[..taken] == all;
    assert Delivered(log) + [] == Delivered(log);
    LogGrows(log, Got([], room), all);
    DeliveredGrows(log, Got([], room));
  }

  lemma DeliveredGrows(log: seq<Entry>, entry: Entry)
    ensures Delivered(log + [entry]) == Delivered(log) + (if entry.Got? then entry.bytes else [])
  {
    assert (log + [entry])[..|log|] == log;
  }

  /** Reader task, channel and reader in the middle of a run. */
  class Pipe {
    const task: ReaderTask
    const reader: LineBufferedRead
    ghost const all: seq<Item>
    var log: seq<Entry>
    ghost var taken: nat

    ghost predicate Valid()
      reads this, task, task.src, task.chan, reader
    {
      && task.Valid() && reader.Valid() && task.chan == reader.rx
      && WellShaped(all) && At(log, all, taken, reader.Rest(), task.chan.items, task.ToSend())
    }

    constructor (pieces: seq<seq<byte>>, end: End, capacity: nat)
      requires forall i :: 0 <= i < |pieces| ==> 0 < |pieces[i]| <= capacity
      ensures Valid() && all == Items(Flatten(pieces), end) && log == []
      ensures fresh(task) && fresh(task.src) && fresh(task.chan) && fresh(reader)
    {
      var src := new Source(pieces, end, capacity);
      var chan := new Channel();
      task := new ReaderTask(src, chan);
      reader := new LineBufferedRead(chan);
      all, log, taken := Items(Flatten(pieces), end), [], 0;
      new;
      forall i | 0 <= i < |all| ensures (all[i].Line? ==> all[i].bytes != [] && WithinLine(all[i].bytes))
                                     && (!all[i].Line? ==> i == |all| - 1) {
        ItemsShape(Flatten(pieces), end, i);
      }
      assert all[..0] == [];
    }

    /** Any schedule keeps every observation right. */
    method Follow(schedule: seq<Event>)
      requires Valid()
      modifies this, task, task.src, task.chan, reader
      ensures Valid()
    {
      for i := 0 to |schedule|
        invariant Valid()
      {
        if schedule[i].TaskRuns? {
          task.Step();
        } else {
          var entry := Read(schedule[i].room);
        }
      }
    }

    method Read(room: nat) returns (entry: Entry)
      requires Valid()
      modifies this, reader, task.chan
      ensures Valid() && task.chan.closed == old(task.chan.closed) && log == old(log) + [entry]
      ensures entry.GotPending? ==> old(task.chan.items) == [] && !task.chan.closed
      ensures IsEnd(entry) ==> taken == |all| && Delivered(log) == BytesOf(all)
      ensures entry.Got? ==> entry.room == room
    {
      ghost var held, queue, upcoming := reader.Rest(), task.chan.items, task.ToSend();
      entry := ReadOnce(reader, room);
      taken := Observe(log, all, taken, held, queue, upcoming, task.done, room, entry, reader.Rest(), task.chan.items);
      log := log + [entry];
    }

    /** What the rounds below use up: bytes to deliver and steps of the task. */
    ghost function Left(): int
      reads this, task, task.src
    {
      |BytesOf(all)| - |Delivered(log)| + task.Work()
    }

    lemma LeftIsBounded()
      requires Valid()
      ensures 0 <= Left() <= |BytesOf(all)| + 2 * |all| + 1
    {
      BytesOfPrefix(all, taken);
    }

    /** The task runs and then the consumer reads: either the end is told, or less is left. */
    method Round(room: nat) returns (over: bool)
      requires Valid() && room > 0
      modifies this, task, task.src, task.chan, reader
      ensures Valid() && |log| > 0 && over == IsEnd(log[|log| - 1])
      ensures over ==> taken == |all| && Delivered(log) == BytesOf(all)
      ensures !over ==> Left() < old(Left())
    {
      ghost var before := log;
      task.Step();
      var entry := Read(room);
      DeliveredGrows(before, entry);
      over := IsEnd(entry);
    }
  }

  /**
   Any pieces, any end, any interleaving of task steps and reads of any size: what is delivered is always
   a prefix of the deliverable lines, no read spans two lines, the consumer only waits between lines, and
   a read of 0 bytes into a non-empty slice means that everything deliverable was delivered.
   */
  method Drive(pieces: seq<seq<byte>>, end: End, capacity: nat, schedule: seq<Event>) returns (log: seq<Entry>)
    requires forall i :: 0 <= i < |pieces| ==> 0 < |pieces[i]| <= capacity
    ensures LogOk(log, Items(Flatten(pieces), end))
  {
    var pipe := new Pipe(pieces, end, capacity);
    pipe.Follow(schedule);
    log := pipe.log;
  }

  /**
   Progress: after any schedule whatever, alternating the task and reads into slices of any sizes above zero tells
   the consumer the end within a bounded number of rounds; everything deliverable was delivered then, and an error
   of the source was reported.
   */
  method DriveToEnd(pieces: seq<seq<byte>>, end: End, capacity: nat, schedule: seq<Event>, rooms: seq<nat>)
    returns (log: seq<Entry>)
    requires forall i :: 0 <= i < |pieces| ==> 0 < |pieces[i]| <= capacity
    requires forall i :: 0 <= i < |rooms| ==> rooms[i] > 0
    requires var all := Items(Flatten(pieces), end); |rooms| > |BytesOf(all)| + 2 * |all| + 1
    ensures var all := Items(Flatten(pieces), end);
      && LogOk(log, all) && log != [] && IsEnd(log[|log| - 1])
      && Delivered(log) == BytesOf(all)
      && (GotError in log <==> EndsInError(all))
  {
    var pipe := new Pipe(pieces, end, capacity);
    pipe.Follow(schedule);
    pipe.LeftIsBounded();
    ghost var start := pipe.Left();
    var over := false;
    var k := 0;
    while !over
      invariant over || k + pipe.Left() <= start
      invariant pipe.Valid() && k <= |rooms| && pipe.all == Items(Flatten(pieces), end)
      invariant over ==> pipe.log != [] && IsEnd(pipe.log[|pipe.log| - 1])
      invariant over ==> pipe.taken == |pipe.all| && Delivered(pipe.log) == BytesOf(pipe.all)
      decreases |rooms| - k
    {
      pipe.LeftIsBounded();
      over := pipe.Round(rooms[k]);
      k := k + 1;
    }
    log := pipe.log;
  }

  // ---------------------------------------------------------------- what is deliverable

  /** Whether every line, the unfinished last one included, is within the cap. */
  ghost predicate NoLongLine(data: seq<byte>)
    decreases |data|
  {
    data == [] || (LineLength(data) <= MAX_LINE_SIZE && NoLongLine(data[LineLength(data)..]))
  }

  lemma {:induction false} BytesOfCons(item: Item, items: seq<Item>)
    ensures BytesOf([item] + items) == (if item.Line? then item.bytes else []) + BytesOf(items)
  {
    var all := [item] + items;
    if items == [] {
      assert all == [item] && all[..0] == [];
    } else {
      assert all[..|all| - 1] == [item] + items[..|items| - 1];
      BytesOfCons(item, items[..|items| - 1]);
    }
  }

  lemma {:induction false} DeliverableIsPrefix(data: seq<byte>, end: End)
    ensures BytesOf(Items(data, end)) <= data
    decreases |data|
  {
    var first := FirstItem(data, end);
    if first.Line? {
      DeliverableIsPrefix(data[|first.bytes|..], end);
      BytesOfCons(first, Items(data[|first.bytes|..], end));
      assert data == first.bytes + data[|first.bytes|..];
    } else if !first.EndOfInput? {
      assert Items(data, end) == [first] && [first][..0] == [];
    }
  }

  /** Whether the source ends properly or right after a newline. */
  predicate EndsWell(data: seq<byte>, end: End) {
    end.Eof? || data == [] || data[|data| - 1] == NEWLINE
  }

  lemma FrontCancels(front: seq<byte>, a: seq<byte>, b: seq<byte>)
    ensures front + a == front + b <==> a == b
  {
    assert (front + a)[|front|..] == a && (front + b)[|front|..] == b;
  }

  lemma EndsWellAfterLine(data: seq<byte>, n: nat, end: End)
    requires 0 < n <= |data| && (n == |data| ==> EndsWell(data, end))
    ensures EndsWell(data, end) <==> EndsWell(data[n..], end)
  {
  }

  lemma LineThenRest(data: seq<byte>, end: End)
    requires FirstItem(data, end).Line?
    ensures var n := |FirstItem(data, end).bytes|;
      && 0 < n == LineLength(data) <= MAX_LINE_SIZE
      && BytesOf(Items(data, end)) == data[..n] + BytesOf(Items(data[n..], end))
      && (n == |data| ==> EndsWell(data, end))
  {
    var first := FirstItem(data, end);
    NoNewlineBefore(data);
    BytesOfCons(first, Items(data[|first.bytes|..], end));
  }

  /**
   The deliverable bytes are exactly the source bytes if and only if no line exceeds the cap and the
   source ends properly or right after a newline: an unfinished line before a failure is dropped.
   */
  lemma {:induction false} DeliversEverythingIff(data: seq<byte>, end: End)
    ensures BytesOf(Items(data, end)) == data <==> NoLongLine(data) && EndsWell(data, end)
    decreases |data|
  {
    var first := FirstItem(data, end);
    if first.Line? {
      var n := |first.bytes|;
      DeliversEverythingIff(data[n..], end);
      LineThenRest(data, end);
      EndsWellAfterLine(data, n, end);
      assert data == data[..n] + data[n..];
      FrontCancels(data[..n], BytesOf(Items(data[n..], end)), data[n..]);
    } else {
      NoNewlineBefore(data);
      assert !first.EndOfInput? ==> Items(data, end) == [first] && [first][..0] == [];
    }
  }
}
