/** What every run of store and forward promises about single streams: order, replay safety, exact accounting. */
module StoreForwardLaws {
  import opened Basics
  import opened StreamStore
  import opened StoreForward

  // ---------- replay ----------

  /** What a step does to one stream. */
  ghost function Effect(s: State, a: Action, k: Key): Stream
    requires Enabled(s, a) && (s.phase.InFlight? ==> s.phase.todo != [])
  {
    var st := Get(s, k);
    match a
    case PushSample(j, x, isAlarm) =>
      if j == k && !Refused(st, s.maxDepth, isAlarm) then Push(st, s.maxDepth, x, isAlarm, s.hushed) else st
    case PurgeStream(j, cutoff) => if j == k then Purge(st, cutoff) else st
    case Gather => Drain(st)
    case Answer(outcome) =>
      if s.phase.Sending? then Land(st, outcome == Delivered)
      else if outcome == Delivered && s.phase.todo[0] == k then Confirm(st, s.phase.batch)
      else st
    case _ => st
  }

  lemma StepEffect(s: State, a: Action, k: Key)
    requires Enabled(s, a) && (s.phase.InFlight? ==> s.phase.todo != [])
    ensures Get(Step(s, a), k) == Effect(s, a, k)
  {
    if a.Answer? {
      AnswerEffect(s, a.outcome, k);
    } else if a.PushSample? || a.PurgeStream? {
      PutEffect(s, a.key, Effect(s, a, a.key), k);
    }
  }

  lemma AnswerEffect(s: State, outcome: Outcome, k: Key)
    requires Enabled(s, Answer(outcome)) && (s.phase.InFlight? ==> s.phase.todo != [])
    ensures Get(Step(s, Answer(outcome)), k) == Effect(s, Answer(outcome), k)
  {
    if s.phase.Sending? && k !in s.streams {
      assert Land(Restored([], 1), outcome == Delivered) == Restored([], 1);
    }
  }

  lemma PutEffect(s: State, j: Key, st: Stream, k: Key)
    ensures Get(Put(s, j, st), k) == if j == k then st else Get(s, k)
  {
  }

  /** A row leaves the cold store only when it is purged, or after a successful publish that contained it. */
  lemma RowsLeaveOnly(s: State, a: Action, k: Key, r: Row)
    requires Inv(s) && Enabled(s, a)
    ensures r in Get(s, k).rows && r !in Get(Step(s, a), k).rows ==>
              || (a.PurgeStream? && a.key == k && r.sample.timestamp < a.cutoff)
              || (a == Answer(Delivered) && s.phase.InFlight? && s.phase.todo[0] == k && r in s.phase.batch)
  {
    StepEffect(s, a, k);
    GetSound(s, k);
    EffectOnRows(s, a, k, r);
  }

  lemma EffectOnRows(s: State, a: Action, k: Key, r: Row)
    requires Enabled(s, a) && Flight(s) && Fates(Get(s, k))
    ensures r in Get(s, k).rows && r !in Effect(s, a, k).rows ==>
              || (a.PurgeStream? && a.key == k && r.sample.timestamp < a.cutoff)
              || (a == Answer(Delivered) && s.phase.InFlight? && s.phase.todo[0] == k && r in s.phase.batch)
  {
    var st := Get(s, k);
    if a.PushSample? {
      PushKeepsRows(st, s.maxDepth, a.sample, a.isAlarm, s.hushed, r);
    } else if a.PurgeStream? {
      FilterMembers(st.rows, (r: Row) => r.sample.timestamp >= a.cutoff);
    } else if a.Answer? && s.phase.InFlight? && s.phase.todo[0] == k {
      DeletedWasPublished(st, s.phase.batch, r);
    }
  }

  lemma PushKeepsRows(st: Stream, maxDepth: nat, x: Sample, isAlarm: bool, hushed: set<TagId>, r: Row)
    ensures r in st.rows ==> r in Push(st, maxDepth, x, isAlarm, hushed).rows
  {
  }

  lemma DeletedWasPublished(st: Stream, batch: seq<Row>, r: Row)
    requires Flying(st, batch) && Fates(st)
    ensures r in st.rows && r !in Confirm(st, batch).rows ==> r in batch
  {
    var ids := Ids(batch);
    FilterMembers(st.rows, (r: Row) => r.id !in ids);
    if r in st.rows && r.id in ids {
      var b :| b in batch && b.id == r.id;
      SameId(st, r, b);
    }
  }

  /** In every run rows are published in row order, each at most once, and none is lost. */
  lemma ReplayedInOrder(s: State, actions: seq<Action>, k: Key)
    requires Initial(s) && (InitialInv(s); Possible(s, actions))
    ensures
      (InitialInv(s);
       var st := Get(After(s, actions), k);
       && Increasing(st.ledger.replayed)
       && (forall r | r in st.ledger.spilled :: r in st.rows || r in st.ledger.purged || r in st.ledger.replayed)
       && (forall r | r in st.rows :: r !in st.ledger.purged && r !in st.ledger.replayed))
  {
    InitialInv(s);
    GetSound(After(s, actions), k);
  }

  /** What newly became suppressed is a suppressed tag's sample, and what was newly spilled is not. */
  ghost predicate Respects(hushed: set<TagId>, before: Ledger, after: Ledger) {
    && (after.suppressed == before.suppressed ||
        exists x: Sample :: x.tagId in hushed && after.suppressed == before.suppressed + multiset{x})
    && (after.spilled == before.spilled ||
        exists r: Row :: r.sample.tagId !in hushed && after.spilled == before.spilled + [r])
  }

  /** Only tags the asset configuration suppresses are kept out of the cold store, and they always are. */
  lemma SpillFollowsFilter(s: State, a: Action, k: Key)
    requires Enabled(s, a) && Flight(s)
    ensures Respects(s.hushed, Get(s, k).ledger, Get(Step(s, a), k).ledger)
  {
    StepEffect(s, a, k);
    EffectRespects(s, a, k);
  }

  lemma EffectRespects(s: State, a: Action, k: Key)
    requires Enabled(s, a) && (s.phase.InFlight? ==> s.phase.todo != [])
    ensures Respects(s.hushed, Get(s, k).ledger, Effect(s, a, k).ledger)
  {
    if a.PushSample? {
      PushRespects(Get(s, k), s.maxDepth, a.sample, a.isAlarm, s.hushed);
    } else {
      OthersRespect(s, a, k);
    }
  }

  lemma OthersRespect(s: State, a: Action, k: Key)
    requires Enabled(s, a) && (s.phase.InFlight? ==> s.phase.todo != []) && !a.PushSample?
    ensures Effect(s, a, k).ledger.suppressed == Get(s, k).ledger.suppressed
    ensures Effect(s, a, k).ledger.spilled == Get(s, k).ledger.spilled
  {
  }

  lemma PushRespects(st: Stream, maxDepth: nat, x: Sample, isAlarm: bool, hushed: set<TagId>)
    ensures Respects(hushed, st.ledger, Push(st, maxDepth, x, isAlarm, hushed).ledger)
  {
    var b := Opened(st, maxDepth, isAlarm);
    if Full(b) && !b.isAlarm && b.items != [] {
      assert b.items[0].tagId !in hushed ==> Row(st.nextId, b.items[0]).sample.tagId !in hushed;
    }
  }

  /** The dispatcher has lost its connection and knows it, or has ended. */
  predicate Lapsed(p: Phase) {
    p == Down || p == Up(false) || p == Sending(false) || p == Dead
  }

  lemma LapseStep(s: State, a: Action)
    requires Enabled(s, a) && Flight(s)
    ensures a == Answer(Failed) ==> Lapsed(Step(s, a).phase)
    ensures Lapsed(s.phase) && !a.Connect? ==> Lapsed(Step(s, a).phase)
    ensures a.Connect? ==> Step(s, a).phase == Replaying(a.keys)
  {
  }

  // ---------- pushes ----------

  /** The samples of stream `k` that a run's pushes put into its buffer: those not refused with backpressure. */
  ghost function Accepted(s: State, actions: seq<Action>, k: Key): seq<Sample>
    requires Inv(s) && Possible(s, actions)
    decreases |actions|
  {
    if actions == [] then []
    else
      StepKeeps(s, actions[0]);
      Taken(s, actions[0], k) + Accepted(Step(s, actions[0]), actions[1..], k)
  }

  function Taken(s: State, a: Action, k: Key): seq<Sample> {
    if a.PushSample? && a.key == k && !Refused(Get(s, k), s.maxDepth, a.isAlarm) then [a.sample] else []
  }

  /**
   The buffer's history is exactly the accepted pushes in order: a refused push leaves no trace, so retrying it
   until it is accepted inserts the sample once.
   */
  lemma {:induction false} PushedIsAccepted(s: State, actions: seq<Action>, k: Key)
    requires Inv(s) && Possible(s, actions)
    ensures Get(After(s, actions), k).ledger.pushed == Get(s, k).ledger.pushed + Accepted(s, actions, k)
    decreases |actions|
  {
    if actions == [] {
      assert Accepted(s, actions, k) == [];
    } else {
      var a, rest := actions[0], actions[1..];
      StepKeeps(s, a);
      var t := Step(s, a);
      StepPushed(s, a, k);
      PushedIsAccepted(t, rest, k);
      Chain(Get(s, k).ledger.pushed, Taken(s, a, k), Get(t, k).ledger.pushed, Accepted(t, rest, k));
      assert After(s, actions) == After(t, rest);
      assert Accepted(s, actions, k) == Taken(s, a, k) + Accepted(t, rest, k);
    }
  }

  lemma Chain(p: seq<Sample>, x: seq<Sample>, y: seq<Sample>, z: seq<Sample>)
    requires y == p + x
    ensures y + z == p + (x + z)
  {
  }

  lemma StepPushed(s: State, a: Action, k: Key)
    requires Inv(s) && Enabled(s, a)
    ensures Get(Step(s, a), k).ledger.pushed == Get(s, k).ledger.pushed + Taken(s, a, k)
  {
    StepEffect(s, a, k);
    GetSound(s, k);
    EffectOnPushed(s, a, k);
  }

  lemma EffectOnPushed(s: State, a: Action, k: Key)
    requires Enabled(s, a) && Flight(s) && s.maxDepth >= 1 && Bounded(Get(s, k))
    ensures Effect(s, a, k).ledger.pushed == Get(s, k).ledger.pushed + Taken(s, a, k)
  {
    if a.PushSample? && a.key == k && !Refused(Get(s, k), s.maxDepth, a.isAlarm) {
      PushPushed(Get(s, k), s.maxDepth, a.sample, a.isAlarm, s.hushed);
    } else {
      assert Effect(s, a, k).ledger.pushed == Get(s, k).ledger.pushed;
    }
  }

  lemma PushPushed(st: Stream, maxDepth: nat, x: Sample, isAlarm: bool, hushed: set<TagId>)
    requires Bounded(st) && maxDepth >= 1 && !Refused(st, maxDepth, isAlarm)
    ensures Push(st, maxDepth, x, isAlarm, hushed).ledger.pushed == st.ledger.pushed + [x]
  {
  }

  // ---------- rows in exactly one place ----------

  predicate Overlap(st: Stream) {
    exists r | r in st.ledger.purged :: r in st.ledger.replayed
  }

  /** A delivered replay batch held a row that is no longer in the cold store. */
  ghost predicate Lost(s: State, a: Action, k: Key) {
    && a == Answer(Delivered) && s.phase.InFlight? && s.phase.todo != [] && s.phase.todo[0] == k
    && exists r | r in s.phase.batch :: r !in Get(s, k).rows
  }

  ghost predicate EverLost(s: State, actions: seq<Action>, k: Key)
    requires Inv(s) && Possible(s, actions)
    decreases |actions|
  {
    actions != [] &&
    (Lost(s, actions[0], k) || (StepKeeps(s, actions[0]); EverLost(Step(s, actions[0]), actions[1..], k)))
  }

  lemma ConfirmOverlap(st: Stream, batch: seq<Row>)
    requires Sound(st) && Flying(st, batch)
    ensures Overlap(Confirm(st, batch)) <==> Overlap(st) || exists r | r in batch :: r !in st.rows
  {
    if r :| r in batch && r !in st.rows {
      var i :| 0 <= i < |batch| && batch[i] == r;
      assert r !in st.ledger.replayed;
      assert r in st.ledger.purged && r in st.ledger.replayed + batch;
    }
    if Overlap(st) {
      var r :| r in st.ledger.purged && r in st.ledger.replayed;
      assert r in st.ledger.replayed + batch;
    }
  }

  lemma PurgeOverlap(st: Stream, cutoff: int)
    requires Fates(st)
    ensures Overlap(Purge(st, cutoff)) <==> Overlap(st)
  {
    if Overlap(st) {
      var r :| r in st.ledger.purged && r in st.ledger.replayed;
      assert r in Purge(st, cutoff).ledger.purged;
    }
  }

  lemma PushOverlap(st: Stream, maxDepth: nat, x: Sample, isAlarm: bool, hushed: set<TagId>)
    ensures Overlap(Push(st, maxDepth, x, isAlarm, hushed)) <==> Overlap(st)
  {
  }

  lemma EffectOverlap(s: State, a: Action, k: Key)
    requires Enabled(s, a) && Flight(s) && Sound(Get(s, k))
    ensures Overlap(Effect(s, a, k)) <==> Overlap(Get(s, k)) || Lost(s, a, k)
  {
    var st := Get(s, k);
    if a.PushSample? {
      PushOverlap(st, s.maxDepth, a.sample, a.isAlarm, s.hushed);
    } else if a.PurgeStream? {
      PurgeOverlap(st, a.cutoff);
    } else if a == Answer(Delivered) && s.phase.InFlight? && s.phase.todo[0] == k {
      ConfirmOverlap(st, s.phase.batch);
    }
  }

  lemma {:induction false} OverlapIffLost(s: State, actions: seq<Action>, k: Key)
    requires Inv(s) && Possible(s, actions)
    ensures Overlap(Get(After(s, actions), k)) <==> Overlap(Get(s, k)) || EverLost(s, actions, k)
    decreases |actions|
  {
    if actions != [] {
      var a := actions[0];
      StepKeeps(s, a);
      StepEffect(s, a, k);
      GetSound(s, k);
      EffectOverlap(s, a, k);
      OverlapIffLost(Step(s, a), actions[1..], k);
    }
  }

  function Places(st: Stream, r: Row): nat {
    (if r in st.rows then 1 else 0) + (if r in st.ledger.purged then 1 else 0) + (if r in st.ledger.replayed then 1 else 0)
  }

  lemma PlacesOverlap(st: Stream)
    requires Fates(st)
    ensures (forall r | r in st.ledger.spilled :: Places(st, r) == 1) <==> !Overlap(st)
  {
    if Overlap(st) {
      var r :| r in st.ledger.purged && r in st.ledger.replayed;
      assert Places(st, r) == 2;
    }
  }

  /** The rows of the batch in flight are all still in the cold store. */
  ghost predicate Intact(s: State, k: Key) {
    s.phase.InFlight? && s.phase.todo != [] && s.phase.todo[0] == k ==> forall r | r in s.phase.batch :: r in Get(s, k).rows
  }

  /** A purge of the stream being replayed, with a cutoff past a row of the batch in flight. */
  ghost predicate Hit(s: State, a: Action, k: Key) {
    && s.phase.InFlight? && s.phase.todo != [] && s.phase.todo[0] == k && a.PurgeStream? && a.key == k
    && exists r | r in s.phase.batch :: r.sample.timestamp < a.cutoff
  }

  /** Only such a purge can take a row from under a batch in flight, and it always does. */
  lemma IntactUntilHit(s: State, a: Action, k: Key)
    requires Inv(s) && Enabled(s, a) && Intact(s, k)
    ensures Intact(Step(s, a), k) <==> !Hit(s, a, k)
  {
    StepEffect(s, a, k);
    if a.PurgeStream? {
      FilterMembers(Get(s, k).rows, (r: Row) => r.sample.timestamp >= a.cutoff);
    } else {
      OthersIntact(s, a, k);
    }
  }

  lemma OthersIntact(s: State, a: Action, k: Key)
    requires Enabled(s, a) && Intact(s, k) && !a.PurgeStream? && (s.phase.InFlight? ==> s.phase.todo != [])
    ensures Intact(Step(s, a), k)
  {
    StepEffect(s, a, k);
    if a.PushSample? && s.phase.InFlight? {
      forall r | r in s.phase.batch
        ensures r in Get(s, k).rows ==> r in Effect(s, a, k).rows
      {
        PushKeepsRows(Get(s, k), s.maxDepth, a.sample, a.isAlarm, s.hushed, r);
      }
    }
  }

  /** Such runs exist, for every row: it is read for replay, purged while being published, then confirmed. */
  lemma PurgedWhilePublished(k: Key, row: Row, batchSize: nat) returns (s: State, actions: seq<Action>)
    requires batchSize >= 1
    ensures Initial(s) && (InitialInv(s); Possible(s, actions) && Places(Get(After(s, actions), k), row) == 2)
  {
    s := State(1, batchSize, map[k := Restored([row], row.id + 1)], {}, Down);
    InitialInv(s);
    ReadForReplay(k, row, batchSize);
    var cutoff := row.sample.timestamp + 1;
    var read, purged := [Connect([k]), Look], [PurgeStream(k, cutoff), Answer(Delivered)];
    PurgedThenConfirmed(After(s, read), k, row, cutoff);
    Appended(s, read, purged);
    actions := read + purged;
  }

  lemma ReadForReplay(k: Key, row: Row, batchSize: nat)
    requires batchSize >= 1
    ensures
      var s := State(1, batchSize, map[k := Restored([row], row.id + 1)], {}, Down);
      && Initial(s) && (InitialInv(s); Possible(s, [Connect([k]), Look])
      && After(s, [Connect([k]), Look]) == s.(phase := InFlight([k], [row])))
  {
    var s := State(1, batchSize, map[k := Restored([row], row.id + 1)], {}, Down);
    InitialInv(s);
    ReadSteps(s, k, row);
    Two(s, Connect([k]), Look);
  }

  lemma ReadSteps(s: State, k: Key, row: Row)
    requires s == State(1, s.batchSize, map[k := Restored([row], row.id + 1)], {}, Down) && s.batchSize >= 1
    ensures Enabled(s, Connect([k])) && Enabled(Step(s, Connect([k])), Look)
    ensures Step(Step(s, Connect([k])), Look) == s.(phase := InFlight([k], [row]))
  {
  }

  lemma ConfirmSteps(s: State, k: Key, row: Row, cutoff: int)
    requires s.phase == InFlight([k], [row]) && k in s.streams && s.streams[k] == Restored([row], row.id + 1)
    ensures
      var purge := PurgeStream(k, cutoff);
      && Enabled(s, purge) && Enabled(Step(s, purge), Answer(Delivered))
      && Get(Step(Step(s, purge), Answer(Delivered)), k) == Confirm(Purge(Restored([row], row.id + 1), cutoff), [row])
  {
  }

  lemma PurgedThenConfirmed(s: State, k: Key, row: Row, cutoff: int)
    requires Inv(s) && row.sample.timestamp < cutoff
    requires s.phase == InFlight([k], [row]) && k in s.streams && s.streams[k] == Restored([row], row.id + 1)
    ensures
      var actions := [PurgeStream(k, cutoff), Answer(Delivered)];
      Possible(s, actions) && Places(Get(After(s, actions), k), row) == 2
  {
    TwicePlaced(row, cutoff);
    ConfirmSteps(s, k, row, cutoff);
    Two(s, PurgeStream(k, cutoff), Answer(Delivered));
  }

  lemma TwicePlaced(row: Row, cutoff: int)
    requires row.sample.timestamp < cutoff
    ensures Places(Confirm(Purge(Restored([row], row.id + 1), cutoff), [row]), row) == 2
  {
    var st := Purge(Restored([row], row.id + 1), cutoff);
    var ids := Ids([row]);
    FilterMembers([row], (r: Row) => r.sample.timestamp >= cutoff);
    FilterMembers(st.rows, (r: Row) => r.id !in ids);
  }

  lemma Two(s: State, a: Action, b: Action)
    requires Inv(s) && Enabled(s, a) && Enabled(Step(s, a), b)
    ensures Possible(s, [a, b]) && After(s, [a, b]) == Step(Step(s, a), b)
  {
    StepKeeps(s, a);
    One(Step(s, a), b);
    assert [a, b][1..] == [b];
  }

  lemma One(s: State, a: Action)
    requires Inv(s) && Enabled(s, a)
    ensures Possible(s, [a]) && After(s, [a]) == Step(s, a)
  {
    StepKeeps(s, a);
    assert [a][1..] == [];
  }

  lemma {:induction false} Appended(s: State, p: seq<Action>, q: seq<Action>)
    requires Inv(s) && Possible(s, p) && Possible(After(s, p), q)
    ensures Possible(s, p + q) && After(s, p + q) == After(After(s, p), q)
    decreases |p|
  {
    if p == [] {
      assert p + q == q;
    } else {
      assert (p + q)[1..] == p[1..] + q && (p + q)[0] == p[0];
      StepKeeps(s, p[0]);
      Appended(Step(s, p[0]), p[1..], q);
    }
  }
}
