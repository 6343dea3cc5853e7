/**
 One telemetry stream: its ring buffer, its cold table, and a ledger of where every sample has gone. Each
 operation is a function on the stream; the invariant below is what all of them keep.
 */
module StreamStore {
  import opened Basics

  type TagId = string

  /** A stream key: the source driver's name, with a suffix for alarm-tier streams. */
  type Key = string

  datatype Sample = Sample(tagId: TagId, timestamp: int, content: int)

  /** A row of the cold store; `id` is its autoincrement key. */
  datatype Row = Row(id: nat, sample: Sample)

  datatype Buffer = Buffer(maxDepth: nat, isAlarm: bool, items: seq<Sample>)

  /**
   Where samples went. `pushed` and `removed` are in order of time; `evicted` splits into `suppressed` and the
   rows in `spilled`; drained samples end up `sent` or `failed`; spilled rows end up `purged` or `replayed`.
   */
  datatype Ledger = Ledger(
    pushed: seq<Sample>, removed: seq<Sample>,
    evicted: multiset<Sample>, suppressed: multiset<Sample>, sent: multiset<Sample>, failed: multiset<Sample>,
    backlog: seq<Row>, spilled: seq<Row>, purged: set<Row>, replayed: seq<Row>)

  /** `live` holds the samples drained into a live batch that is still being published. */
  datatype Stream = Stream(buffer: Option<Buffer>, hasTable: bool, rows: seq<Row>, nextId: nat, live: seq<Sample>, ledger: Ledger)

  /** A stream nobody has pushed to, with the rows an earlier process left in the cold store. */
  function Restored(rows: seq<Row>, nextId: nat): Stream {
    Stream(None, rows != [], rows, nextId, [],
           Ledger([], [], multiset{}, multiset{}, multiset{}, multiset{}, rows, rows, {}, []))
  }

  function Items(st: Stream): seq<Sample> {
    if st.buffer.Some? then st.buffer.value.items else []
  }

  function Samples(rows: seq<Row>): seq<Sample> {
    seq(|rows|, i requires 0 <= i < |rows| => rows[i].sample)
  }

  // ---------- ring buffer ----------

  /** The buffer a push meets: the stream's own, or a new one whose tier the first push decides. */
  function Opened(st: Stream, maxDepth: nat, isAlarm: bool): Buffer {
    if st.buffer.Some? then st.buffer.value else Buffer(maxDepth, isAlarm, [])
  }

  predicate Full(b: Buffer) {
    |b.items| >= b.maxDepth
  }

  /** What a push into a buffer comes to. */
  datatype Pushed = Stored | Evicted(sample: Sample) | Backpressure

  /**
   A full alarm buffer refuses, any other full buffer evicts its oldest sample. (A depth of zero, where there is no
   oldest, raises in the source; every depth below is at least one.)
   */
  function Decide(b: Buffer): Pushed {
    if !Full(b) then Stored else if b.isAlarm || b.items == [] then Backpressure else Evicted(b.items[0])
  }

  predicate Refused(st: Stream, maxDepth: nat, isAlarm: bool) {
    Decide(Opened(st, maxDepth, isAlarm)) == Backpressure
  }

  /** Eviction hands the sample to the cold store unless its tag is suppressed. */
  function Spill(st: Stream, sample: Sample, hushed: set<TagId>): Stream {
    var l := st.ledger.(evicted := st.ledger.evicted + multiset{sample}, removed := st.ledger.removed + [sample]);
    if sample.tagId in hushed then st.(ledger := l.(suppressed := l.suppressed + multiset{sample}))
    else
      var row := Row(st.nextId, sample);
      st.(hasTable := true, rows := st.rows + [row], nextId := st.nextId + 1, ledger := l.(spilled := l.spilled + [row]))
  }

  /** `RingBufferManager.push`. */
  function Push(st: Stream, maxDepth: nat, sample: Sample, isAlarm: bool, hushed: set<TagId>): Stream {
    var b := Opened(st, maxDepth, isAlarm);
    match Decide(b)
    case Stored => Insert(st, b, sample)
    case Backpressure => st
    case Evicted(oldest) => Insert(Spill(st, oldest, hushed), b.(items := b.items[1..]), sample)
  }

  function Insert(st: Stream, b: Buffer, sample: Sample): Stream {
    st.(buffer := Some(b.(items := b.items + [sample])), ledger := st.ledger.(pushed := st.ledger.pushed + [sample]))
  }

  /** The stream's share of `drain_all`. */
  function Drain(st: Stream): Stream {
    if st.buffer.None? then st
    else
      st.(buffer := Some(st.buffer.value.(items := [])), live := st.live + Items(st),
          ledger := st.ledger.(removed := st.ledger.removed + Items(st)))
  }

  /** The live batch came back, delivered or not; either way it is not put back. */
  function Land(st: Stream, delivered: bool): Stream {
    if delivered then st.(live := [], ledger := st.ledger.(sent := st.ledger.sent + multiset(st.live)))
    else st.(live := [], ledger := st.ledger.(failed := st.ledger.failed + multiset(st.live)))
  }

  // ---------- cold store ----------

  function Peek(st: Stream, maxItems: nat): seq<Row> {
    if |st.rows| <= maxItems then st.rows else st.rows[..maxItems]
  }

  function Without(rows: seq<Row>, ids: set<nat>): seq<Row> {
    Filter(rows, (r: Row) => r.id !in ids)
  }

  function Ids(rows: seq<Row>): set<nat> {
    set r | r in rows :: r.id
  }

  function Purge(st: Stream, cutoff: int): Stream {
    st.(hasTable := true, rows := Filter(st.rows, (r: Row) => r.sample.timestamp >= cutoff),
        ledger := st.ledger.(purged := st.ledger.purged + set r | r in st.rows && r.sample.timestamp < cutoff))
  }

  /** A replayed batch was published: delete its ids. */
  function Confirm(st: Stream, batch: seq<Row>): Stream {
    st.(rows := Without(st.rows, Ids(batch)), ledger := st.ledger.(replayed := st.ledger.replayed + batch))
  }

  // ---------- the invariant ----------

  ghost predicate Increasing(rows: seq<Row>) {
    forall i, j | 0 <= i < j < |rows| :: rows[i].id < rows[j].id
  }

  ghost predicate Before(a: seq<Row>, b: seq<Row>) {
    forall i, j | 0 <= i < |a| && 0 <= j < |b| :: a[i].id < b[j].id
  }

  ghost predicate Bounded(st: Stream) {
    st.buffer.Some? ==>
      var b := st.buffer.value;
      b.maxDepth >= 1 && |b.items| <= b.maxDepth && (b.isAlarm ==> st.ledger.evicted == multiset{})
  }

  /** Samples leave the buffer in the order they entered, and each one that left is accounted for. */
  ghost predicate Conserved(st: Stream) {
    var l := st.ledger;
    && l.pushed == l.removed + Items(st)
    && multiset(l.removed) == l.evicted + multiset(st.live) + l.sent + l.failed
    && l.evicted + multiset(Samples(l.backlog)) == l.suppressed + multiset(Samples(l.spilled))
    && (st.buffer.None? ==> l.evicted == multiset{})
  }

  /** Every spilled row is still there, purged, or was published; a row still there is neither. */
  ghost predicate Fates(st: Stream) {
    var l := st.ledger;
    && Increasing(l.spilled)
    && (forall r | r in l.spilled :: r.id < st.nextId && (r in st.rows || r in l.purged || r in l.replayed))
    && (forall r | r in st.rows :: r in l.spilled && r !in l.purged && r !in l.replayed)
    && (forall r | r in l.purged || r in l.replayed :: r in l.spilled)
  }

  /** Rows are published in row order, each at most once. */
  ghost predicate InOrder(st: Stream) {
    Increasing(st.rows) && Increasing(st.ledger.replayed) && Before(st.ledger.replayed, st.rows)
  }

  /** A stream with rows is one the cold store lists. */
  predicate Listed(st: Stream) {
    st.rows != [] ==> st.hasTable
  }

  ghost predicate Sound(st: Stream) {
    Bounded(st) && Conserved(st) && Fates(st) && InOrder(st) && Listed(st)
  }

  /** A batch being published: rows in order, after everything already published and before all other rows. */
  ghost predicate Flying(st: Stream, batch: seq<Row>) {
    && Increasing(batch) && Before(st.ledger.replayed, batch)
    && (forall r | r in batch :: r in st.ledger.spilled)
    && (forall r | r in st.rows :: r in batch || forall i | 0 <= i < |batch| :: batch[i].id < r.id)
  }

  lemma RestoredSound(rows: seq<Row>, nextId: nat)
    requires Increasing(rows) && forall r | r in rows :: r.id < nextId
    ensures Sound(Restored(rows, nextId))
  {
  }

  // ---------- kept by the ring buffer ----------

  lemma SamplesSnoc(rows: seq<Row>, r: Row)
    ensures Samples(rows + [r]) == Samples(rows) + [r.sample]
  {
  }

  lemma SpillConserves(st: Stream, sample: Sample, hushed: set<TagId>)
    ensures
      var l, m := st.ledger, Spill(st, sample, hushed).ledger;
      && m.removed == l.removed + [sample] && m.evicted == l.evicted + multiset{sample}
      && multiset(m.removed) == multiset(l.removed) + multiset{sample}
      && (l.evicted + multiset(Samples(l.backlog)) == l.suppressed + multiset(Samples(l.spilled)) ==>
            m.evicted + multiset(Samples(m.backlog)) == m.suppressed + multiset(Samples(m.spilled)))
  {
    var l := st.ledger;
    SamplesSnoc(l.spilled, Row(st.nextId, sample));
    assert multiset(Samples(l.spilled + [Row(st.nextId, sample)])) == multiset(Samples(l.spilled)) + multiset{sample};
    AddBothSides(l.evicted, multiset(Samples(l.backlog)), l.suppressed, multiset(Samples(l.spilled)), sample);
  }

  lemma AddBothSides(a: multiset<Sample>, b: multiset<Sample>, c: multiset<Sample>, d: multiset<Sample>, x: Sample)
    ensures a + b == c + d ==> (a + multiset{x}) + b == (c + multiset{x}) + d == c + (d + multiset{x})
  {
    if a + b == c + d {
      assert (a + multiset{x}) + b == (a + b) + multiset{x};
      assert (c + multiset{x}) + d == (c + d) + multiset{x};
      assert c + (d + multiset{x}) == (c + d) + multiset{x};
    }
  }

  lemma SpillFates(st: Stream, sample: Sample, hushed: set<TagId>)
    requires Fates(st) && InOrder(st)
    ensures var after := Spill(st, sample, hushed); Fates(after) && InOrder(after)
  {
    if sample.tagId !in hushed {
      AppendFates(st, Row(st.nextId, sample), Spill(st, sample, hushed));
    }
  }

  lemma AppendFates(st: Stream, row: Row, after: Stream)
    requires Fates(st) && InOrder(st) && row.id == st.nextId
    requires after.rows == st.rows + [row] && after.nextId == st.nextId + 1 && after.ledger.spilled == st.ledger.spilled + [row]
    requires after.ledger.purged == st.ledger.purged && after.ledger.replayed == st.ledger.replayed
    ensures Fates(after) && InOrder(after)
  {
    assert forall r | r in st.ledger.spilled :: r.id < row.id;
    InOrderBelow(st, row);
    AppendIncreasing(st.ledger.spilled, row);
    assert forall r :: r in after.ledger.spilled <==> r in st.ledger.spilled || r == row;
    assert forall r :: r in after.rows <==> r in st.rows || r == row;
  }

  lemma InOrderBelow(st: Stream, row: Row)
    requires Fates(st) && InOrder(st) && row.id == st.nextId
    ensures Increasing(st.rows + [row]) && Before(st.ledger.replayed, st.rows + [row])
  {
    assert forall r | r in st.rows :: r.id < row.id;
    AppendIncreasing(st.rows, row);
    forall i | 0 <= i < |st.ledger.replayed|
      ensures st.ledger.replayed[i].id < row.id
    {
      assert st.ledger.replayed[i] in st.ledger.replayed;
    }
  }

  lemma AppendIncreasing(rows: seq<Row>, row: Row)
    requires Increasing(rows) && forall r | r in rows :: r.id < row.id
    ensures Increasing(rows + [row])
  {
    assert forall i | 0 <= i < |rows| :: rows[i] in rows;
  }

  lemma SpillFlying(st: Stream, sample: Sample, hushed: set<TagId>, batch: seq<Row>)
    requires Fates(st) && Flying(st, batch)
    ensures Flying(Spill(st, sample, hushed), batch)
  {
    forall i | 0 <= i < |batch|
      ensures batch[i].id < st.nextId
    {
      assert batch[i] in batch;
    }
  }

  lemma PushSound(st: Stream, maxDepth: nat, sample: Sample, isAlarm: bool, hushed: set<TagId>)
    requires Sound(st) && maxDepth >= 1
    ensures Sound(Push(st, maxDepth, sample, isAlarm, hushed))
  {
    var b := Opened(st, maxDepth, isAlarm);
    match Decide(b)
    case Stored => InsertSound(st, b, sample);
    case Backpressure =>
    case Evicted(_) =>
      EvictSound(st, b, hushed);
      EvictedRoom(st, b, sample, hushed);
  }

  /** After the eviction there is room for the new sample. */
  lemma EvictedRoom(st: Stream, b: Buffer, sample: Sample, hushed: set<TagId>)
    requires b.items != [] && |b.items| <= b.maxDepth
    requires Sound(Spill(st, b.items[0], hushed).(buffer := Some(b.(items := b.items[1..]))))
    ensures Sound(Insert(Spill(st, b.items[0], hushed), b.(items := b.items[1..]), sample))
  {
    var room := b.(items := b.items[1..]);
    InsertSound(Spill(st, b.items[0], hushed).(buffer := Some(room)), room, sample);
  }

  lemma EvictSound(st: Stream, b: Buffer, hushed: set<TagId>)
    requires Sound(st) && st.buffer == Some(b) && !b.isAlarm && b.items != []
    ensures Sound(Spill(st, b.items[0], hushed).(buffer := Some(b.(items := b.items[1..]))))
  {
    var x := b.items[0];
    assert b.items == [x] + b.items[1..];
    SpillFates(st, x, hushed);
    SpillConserves(st, x, hushed);
    SpillConserved(st, x, b.items[1..], Spill(st, x, hushed).(buffer := Some(b.(items := b.items[1..]))));
  }

  lemma SpillConserved(st: Stream, x: Sample, rest: seq<Sample>, spilt: Stream)
    requires Conserved(st) && Items(st) == [x] + rest && Items(spilt) == rest && spilt.live == st.live
    requires spilt.buffer.Some?
    requires
      var l, m := st.ledger, spilt.ledger;
      && m.pushed == l.pushed && m.removed == l.removed + [x] && m.evicted == l.evicted + multiset{x}
      && m.sent == l.sent && m.failed == l.failed
      && m.evicted + multiset(Samples(m.backlog)) == m.suppressed + multiset(Samples(m.spilled))
    ensures Conserved(spilt)
  {
    var l, m := st.ledger, spilt.ledger;
    assert l.removed + ([x] + rest) == (l.removed + [x]) + rest;
    assert multiset(m.removed) == multiset(l.removed) + multiset{x};
    assert l.evicted + multiset{x} + multiset(st.live) + l.sent + l.failed
        == (l.evicted + multiset(st.live) + l.sent + l.failed) + multiset{x};
  }

  lemma InsertSound(st: Stream, b: Buffer, sample: Sample)
    requires Sound(st) && !Full(b) && (st.buffer == Some(b) || (st.buffer == None && b.items == []))
    ensures Sound(Insert(st, b, sample))
  {
    assert st.ledger.removed + (b.items + [sample]) == (st.ledger.removed + b.items) + [sample];
  }

  lemma PushFlying(st: Stream, maxDepth: nat, sample: Sample, isAlarm: bool, hushed: set<TagId>, batch: seq<Row>)
    requires Sound(st) && maxDepth >= 1 && Flying(st, batch)
    ensures Flying(Push(st, maxDepth, sample, isAlarm, hushed), batch)
  {
    var b := Opened(st, maxDepth, isAlarm);
    if Full(b) && !b.isAlarm && b.items != [] {
      SpillFlying(st, b.items[0], hushed, batch);
    }
  }

  /** The stream has a buffer with no room left. */
  predicate AtLimit(st: Stream) {
    st.buffer.Some? && |st.buffer.value.items| == st.buffer.value.maxDepth
  }

  /** A push is refused exactly by a full alarm-tier buffer, whatever tier it asks for itself, and then changes nothing. */
  lemma RefusedIff(st: Stream, maxDepth: nat, x: Sample, isAlarm: bool, hushed: set<TagId>)
    requires Bounded(st) && maxDepth >= 1
    ensures Refused(st, maxDepth, isAlarm) <==> AtLimit(st) && st.buffer.value.isAlarm
    ensures Refused(st, maxDepth, isAlarm) ==> Push(st, maxDepth, x, isAlarm, hushed) == st
  {
  }

  /**
   Any other push makes the sample the newest in the buffer. A full buffer first gives up its oldest sample, which
   becomes the newest row of the cold store unless its tag is suppressed; nothing else ever becomes a row.
   */
  lemma PushEffect(st: Stream, maxDepth: nat, x: Sample, isAlarm: bool, hushed: set<TagId>)
    requires Bounded(st) && maxDepth >= 1 && !(AtLimit(st) && st.buffer.value.isAlarm)
    ensures
      var after, full := Push(st, maxDepth, x, isAlarm, hushed), AtLimit(st);
      && Items(after) == (if full then Items(st)[1..] else Items(st)) + [x]
      && after.buffer.value.(items := []) == (if st.buffer.Some? then st.buffer.value.(items := []) else Buffer(maxDepth, isAlarm, []))
      && after.rows == st.rows + (if full && Items(st)[0].tagId !in hushed then [Row(st.nextId, Items(st)[0])] else [])
      && after.ledger.evicted == st.ledger.evicted + (if full then multiset{Items(st)[0]} else multiset{})
  {
    assert st.rows + [] == st.rows;
  }

  lemma PushLive(st: Stream, maxDepth: nat, sample: Sample, isAlarm: bool, hushed: set<TagId>)
    ensures Push(st, maxDepth, sample, isAlarm, hushed).live == st.live
  {
  }

  lemma DrainSound(st: Stream)
    requires Sound(st)
    ensures Sound(Drain(st)) && Items(Drain(st)) == [] && Drain(st).live == st.live + Items(st)
  {
    if st.buffer.Some? {
      var l := st.ledger;
      assert multiset(l.removed + Items(st)) == multiset(l.removed) + multiset(Items(st));
      assert multiset(st.live + Items(st)) == multiset(st.live) + multiset(Items(st));
      assert l.evicted + (multiset(st.live) + multiset(Items(st))) + l.sent + l.failed
          == (l.evicted + multiset(st.live) + l.sent + l.failed) + multiset(Items(st));
    }
  }

  lemma LandSound(st: Stream, delivered: bool)
    requires Sound(st)
    ensures Sound(Land(st, delivered))
  {
    var l := st.ledger;
    var none: multiset<Sample> := multiset([]);
    assert l.evicted + none + (l.sent + multiset(st.live)) + l.failed == l.evicted + multiset(st.live) + l.sent + l.failed;
    assert l.evicted + none + l.sent + (l.failed + multiset(st.live)) == l.evicted + multiset(st.live) + l.sent + l.failed;
  }

  // ---------- kept by the cold store ----------

  lemma {:induction false} FilterIncreasing(rows: seq<Row>, p: Row -> bool)
    requires Increasing(rows)
    ensures Increasing(Filter(rows, p))
  {
    if rows != [] {
      var front, last := rows[..|rows| - 1], rows[|rows| - 1];
      FilterIncreasing(front, p);
      FilterMembers(front, p);
      assert forall r | r in front :: r.id < last.id;
      assert forall i | 0 <= i < |Filter(front, p)| :: Filter(front, p)[i] in Filter(front, p);
    }
  }

  /** Dropping rows keeps the rest in order; the dropped ones must be accounted for by the caller. */
  lemma KeepInOrder(st: Stream, p: Row -> bool)
    requires InOrder(st)
    ensures
      var kept := Filter(st.rows, p);
      Increasing(kept) && Before(st.ledger.replayed, kept) && forall r :: r in kept <==> r in st.rows && p(r)
  {
    FilterIncreasing(st.rows, p);
    FilterMembers(st.rows, p);
    var kept := Filter(st.rows, p);
    forall i, j | 0 <= i < |st.ledger.replayed| && 0 <= j < |kept|
      ensures st.ledger.replayed[i].id < kept[j].id
    {
      assert kept[j] in kept;
      var k :| 0 <= k < |st.rows| && st.rows[k] == kept[j];
    }
  }

  lemma PurgeSound(st: Stream, cutoff: int)
    requires Sound(st)
    ensures Sound(Purge(st, cutoff))
  {
    KeepInOrder(st, (r: Row) => r.sample.timestamp >= cutoff);
  }

  /** Exactly the rows from before the cutoff are gone, and counted as purged. */
  lemma PurgeIff(st: Stream, cutoff: int, r: Row)
    ensures r in Purge(st, cutoff).rows <==> r in st.rows && r.sample.timestamp >= cutoff
    ensures r in Purge(st, cutoff).ledger.purged <==> r in st.ledger.purged || (r in st.rows && r.sample.timestamp < cutoff)
  {
    FilterMembers(st.rows, (r: Row) => r.sample.timestamp >= cutoff);
  }

  lemma PurgeFlying(st: Stream, cutoff: int, batch: seq<Row>)
    requires Flying(st, batch)
    ensures Flying(Purge(st, cutoff), batch)
  {
    FilterMembers(st.rows, (r: Row) => r.sample.timestamp >= cutoff);
  }

  /** The oldest rows, up to the batch size, are ready to fly; at least one if there is any. */
  lemma PeekFlying(st: Stream, maxItems: nat)
    requires Sound(st) && maxItems >= 1
    ensures Flying(st, Peek(st, maxItems)) && Peek(st, maxItems) <= st.rows
    ensures |Peek(st, maxItems)| < maxItems ==> Peek(st, maxItems) == st.rows
    ensures |Peek(st, maxItems)| <= maxItems && (Peek(st, maxItems) == [] <==> st.rows == [])
  {
    var n := if |st.rows| <= maxItems then |st.rows| else maxItems;
    var batch := Peek(st, maxItems);
    assert batch == st.rows[..n];
    PrefixOldest(st.rows, n);
    assert Before(st.ledger.replayed, st.rows[..n]);
  }

  lemma PrefixOldest(rows: seq<Row>, n: nat)
    requires Increasing(rows) && n <= |rows|
    ensures Increasing(rows[..n])
    ensures forall r | r in rows[..n] :: r in rows
    ensures forall r | r in rows :: r in rows[..n] || forall i | 0 <= i < n :: rows[..n][i].id < r.id
  {
    forall r | r in rows
      ensures r in rows[..n] || forall i | 0 <= i < n :: rows[..n][i].id < r.id
    {
      var k :| 0 <= k < |rows| && rows[k] == r;
      if k < n {
        assert rows[..n][k] == r;
      }
    }
  }

  lemma ConfirmSound(st: Stream, batch: seq<Row>)
    requires Sound(st) && Flying(st, batch)
    ensures Sound(Confirm(st, batch))
  {
    var ids := Ids(batch);
    KeepInOrder(st, (r: Row) => r.id !in ids);
    ConfirmOrder(st, batch);
    ConfirmFates(st, batch);
  }

  lemma ConfirmOrder(st: Stream, batch: seq<Row>)
    requires InOrder(st) && Flying(st, batch)
    ensures InOrder(Confirm(st, batch))
  {
    var ids := Ids(batch);
    KeepInOrder(st, (r: Row) => r.id !in ids);
    var kept := Without(st.rows, ids);
    forall i, j | 0 <= i < |batch| && 0 <= j < |kept|
      ensures batch[i].id < kept[j].id
    {
      assert kept[j] in kept && kept[j] in st.rows;
      assert kept[j] !in batch;
    }
  }

  /** Ids are never reused, so deleting by id deletes exactly the batch's rows that are still there. */
  lemma SameId(st: Stream, a: Row, b: Row)
    requires Increasing(st.ledger.spilled) && a in st.ledger.spilled && b in st.ledger.spilled && a.id == b.id
    ensures a == b
  {
    var i :| 0 <= i < |st.ledger.spilled| && st.ledger.spilled[i] == a;
    var j :| 0 <= j < |st.ledger.spilled| && st.ledger.spilled[j] == b;
    assert !(i < j) && !(j < i);
  }

  lemma ConfirmFates(st: Stream, batch: seq<Row>)
    requires Fates(st) && Flying(st, batch)
    ensures Fates(Confirm(st, batch))
  {
    var ids, l := Ids(batch), Confirm(st, batch).ledger;
    FilterMembers(st.rows, (r: Row) => r.id !in ids);
    var kept := Without(st.rows, ids);
    forall r | r in st.rows
      ensures r in kept || r in batch
    {
      if r.id in ids {
        var b :| b in batch && b.id == r.id;
        SameId(st, r, b);
      }
    }
    assert forall r | r in batch :: r.id in ids;
    assert forall r :: r in l.replayed <==> r in st.ledger.replayed || r in batch;
  }

  // ---------- what the invariant promises ----------

  lemma Totals(st: Stream)
    requires Conserved(st)
    ensures
      var l := st.ledger;
      multiset(l.pushed) + multiset(Samples(l.backlog))
        == multiset(Items(st)) + multiset(st.live) + l.sent + l.failed + l.suppressed + multiset(Samples(l.spilled))
  {
    var l := st.ledger;
    assert multiset(l.pushed) == multiset(l.removed) + multiset(Items(st));
    Regroup(multiset(Items(st)), multiset(st.live), l.sent, l.failed, l.evicted, multiset(Samples(l.backlog)),
            l.suppressed, multiset(Samples(l.spilled)));
  }

  lemma Regroup(i: multiset<Sample>, v: multiset<Sample>, s: multiset<Sample>, f: multiset<Sample>,
                e: multiset<Sample>, b: multiset<Sample>, h: multiset<Sample>, p: multiset<Sample>)
    requires e + b == h + p
    ensures (e + v + s + f) + i + b == i + v + s + f + h + p
  {
    assert (e + v + s + f) + i + b == (i + v + s + f) + (e + b);
    assert i + v + s + f + h + p == (i + v + s + f) + (h + p);
  }
}
