/**
 Store and forward as a state machine: the pipeline pushing, the purge loop, the asset filter being refreshed
 and the northbound dispatcher, interleaved at the dispatcher's awaits. Everything stated here holds in every
 run.
 */
module StoreForward {
  import opened Basics
  import opened StreamStore

  datatype Outcome = Delivered | Failed | Raised

  /** What the dispatcher task is doing between two of its steps. */
  datatype Phase =
    | Down
    | Replaying(todo: seq<Key>)
    | InFlight(todo: seq<Key>, batch: seq<Row>)
    | Up(connected: bool)
    | Sending(connected: bool)
    | Dead

  datatype State = State(maxDepth: nat, batchSize: nat, streams: map<Key, Stream>, hushed: set<TagId>, phase: Phase)

  datatype Action =
    | PushSample(key: Key, sample: Sample, isAlarm: bool)
    | PurgeStream(key: Key, cutoff: int)
    | Refresh(hushed: set<TagId>)
    | Connect(keys: seq<Key>)
    | Look
    | Gather
    | Answer(outcome: Outcome)

  function Get(s: State, k: Key): Stream {
    if k in s.streams then s.streams[k] else Restored([], 1)
  }

  function Put(s: State, k: Key, st: Stream): State {
    s.(streams := s.streams[k := st])
  }

  /** The cold store's stream keys, each once. */
  ghost predicate Enumerates(s: State, keys: seq<Key>) {
    && (forall i, j | 0 <= i < j < |keys| :: keys[i] != keys[j])
    && forall k :: k in keys <==> k in s.streams && s.streams[k].hasTable
  }

  ghost predicate Enabled(s: State, a: Action) {
    match a
    case PushSample(_, _, _) => true
    case PurgeStream(_, _) => true
    case Refresh(_) => true
    case Connect(keys) => s.phase.Down? && Enumerates(s, keys)
    case Look => s.phase.Replaying?
    case Gather => s.phase.Up?
    case Answer(_) => s.phase.InFlight? || s.phase.Sending?
  }

  /** `_replay_cold_store`, up to the next publish. */
  function LookStep(s: State): State
    requires s.phase.Replaying?
  {
    var todo := s.phase.todo;
    if todo == [] then s.(phase := Up(true))
    else
      var batch := Peek(Get(s, todo[0]), s.batchSize);
      s.(phase := if batch == [] then Replaying(todo[1..]) else InFlight(todo, batch))
  }

  /** `run`: drain every ring buffer into one live batch; nothing is published when it is empty. */
  function GatherStep(s: State): State
    requires s.phase.Up?
  {
    var idle := forall k | k in s.streams :: Items(s.streams[k]) == [];
    s.(streams := map k | k in s.streams :: Drain(s.streams[k]),
       phase := if !idle then Sending(s.phase.connected) else if s.phase.connected then Up(true) else Down)
  }

  /**
   The connector's answer. A failed replay leaves the connection marked down yet still gathers live data; an
   exception there leaves it marked up. A failed live batch is not put back, and an exception ends the task.
   */
  function AnswerStep(s: State, outcome: Outcome): State
    requires s.phase.InFlight? || s.phase.Sending?
  {
    match s.phase
    case InFlight(todo, batch) => (
      if todo == [] then s
      else match outcome
        case Delivered => Put(s, todo[0], Confirm(Get(s, todo[0]), batch)).(phase := Replaying(todo))
        case Failed => s.(phase := Up(false))
        case Raised => s.(phase := Up(true)))
    case Sending(connected) =>
      s.(streams := map k | k in s.streams :: Land(s.streams[k], outcome == Delivered),
         phase := if outcome == Raised then Dead else if outcome == Delivered && connected then Up(true) else Down)
    case _ => s
  }

  ghost function Step(s: State, a: Action): State
    requires Enabled(s, a)
  {
    match a
    case PushSample(k, x, isAlarm) =>
      if Refused(Get(s, k), s.maxDepth, isAlarm) then s
      else Put(s, k, Push(Get(s, k), s.maxDepth, x, isAlarm, s.hushed))
    case PurgeStream(k, cutoff) => Put(s, k, Purge(Get(s, k), cutoff))
    case Refresh(hushed) => s.(hushed := hushed)
    case Connect(keys) => s.(phase := Replaying(keys))
    case Look => LookStep(s)
    case Gather => GatherStep(s)
    case Answer(outcome) => AnswerStep(s, outcome)
  }

  // ---------- the invariant ----------

  ghost predicate Flight(s: State) {
    s.phase.InFlight? ==> s.phase.todo != [] && Flying(Get(s, s.phase.todo[0]), s.phase.batch)
  }

  ghost predicate AllSound(streams: map<Key, Stream>) {
    forall k | k in streams :: Sound(streams[k])
  }

  /** Live samples are only out while a live batch is being published. */
  ghost predicate Calm(s: State) {
    s.phase.Sending? || forall k | k in s.streams :: s.streams[k].live == []
  }

  ghost predicate Inv(s: State) {
    s.maxDepth >= 1 && s.batchSize >= 1 && AllSound(s.streams) && Calm(s) && Flight(s)
  }

  lemma GetSound(s: State, k: Key)
    requires AllSound(s.streams)
    ensures Sound(Get(s, k))
  {
    RestoredSound([], 1);
  }

  /** Replacing one stream, the rest of the state and the phase unchanged. */
  lemma PutKeeps(s: State, k: Key, st: Stream)
    requires Inv(s) && Sound(st) && st.live == Get(s, k).live
    requires s.phase.InFlight? && s.phase.todo[0] == k ==> Flying(st, s.phase.batch)
    ensures Inv(Put(s, k, st))
  {
    PutSound(s.streams, k, st);
    PutFlight(s, k, st);
  }

  lemma PutSound(streams: map<Key, Stream>, k: Key, st: Stream)
    requires AllSound(streams) && Sound(st)
    ensures AllSound(streams[k := st])
  {
  }

  lemma PutFlight(s: State, k: Key, st: Stream)
    requires Flight(s) && Calm(s) && st.live == Get(s, k).live
    requires s.phase.InFlight? && s.phase.todo[0] == k ==> Flying(st, s.phase.batch)
    ensures Flight(Put(s, k, st)) && Calm(Put(s, k, st))
  {
  }

  lemma PushKeeps(s: State, k: Key, x: Sample, isAlarm: bool)
    requires Inv(s)
    ensures Inv(Put(s, k, Push(Get(s, k), s.maxDepth, x, isAlarm, s.hushed)))
  {
    var st := Get(s, k);
    GetSound(s, k);
    PushStream(st, s.maxDepth, x, isAlarm, s.hushed, if s.phase.InFlight? then s.phase.batch else []);
    PutKeeps(s, k, Push(st, s.maxDepth, x, isAlarm, s.hushed));
  }

  lemma PushStream(st: Stream, maxDepth: nat, x: Sample, isAlarm: bool, hushed: set<TagId>, batch: seq<Row>)
    requires Sound(st) && maxDepth >= 1
    ensures
      var after := Push(st, maxDepth, x, isAlarm, hushed);
      Sound(after) && after.live == st.live && (Flying(st, batch) ==> Flying(after, batch))
  {
    PushSound(st, maxDepth, x, isAlarm, hushed);
    PushLive(st, maxDepth, x, isAlarm, hushed);
    if Flying(st, batch) {
      PushFlying(st, maxDepth, x, isAlarm, hushed, batch);
    }
  }

  lemma PurgeKeeps(s: State, k: Key, cutoff: int)
    requires Inv(s)
    ensures Inv(Put(s, k, Purge(Get(s, k), cutoff)))
  {
    GetSound(s, k);
    PurgeSound(Get(s, k), cutoff);
    if s.phase.InFlight? && s.phase.todo[0] == k {
      PurgeFlying(Get(s, k), cutoff, s.phase.batch);
    }
    PutKeeps(s, k, Purge(Get(s, k), cutoff));
  }

  lemma LookKeeps(s: State)
    requires Inv(s) && s.phase.Replaying?
    ensures Inv(LookStep(s))
  {
    if s.phase.todo != [] {
      GetSound(s, s.phase.todo[0]);
      PeekFlying(Get(s, s.phase.todo[0]), s.batchSize);
    }
  }

  lemma GatherKeeps(s: State)
    requires Inv(s) && s.phase.Up?
    ensures Inv(GatherStep(s))
  {
    DrainAllSound(s.streams);
  }

  lemma DrainAllSound(streams: map<Key, Stream>)
    requires AllSound(streams)
    ensures AllSound(map k | k in streams :: Drain(streams[k]))
  {
    forall k | k in streams
      ensures Sound(Drain(streams[k]))
    {
      DrainSound(streams[k]);
    }
  }

  lemma LandAllSound(streams: map<Key, Stream>, delivered: bool)
    requires AllSound(streams)
    ensures AllSound(map k | k in streams :: Land(streams[k], delivered))
  {
    forall k | k in streams
      ensures Sound(Land(streams[k], delivered))
    {
      LandSound(streams[k], delivered);
    }
  }

  lemma ReplayAnswerKeeps(s: State, outcome: Outcome)
    requires Inv(s) && s.phase.InFlight?
    ensures Inv(AnswerStep(s, outcome))
  {
    if outcome == Delivered {
      ConfirmKeeps(s, s.phase.todo[0], s.phase.batch);
    }
  }

  lemma ConfirmKeeps(s: State, k: Key, batch: seq<Row>)
    requires AllSound(s.streams) && Flying(Get(s, k), batch) && (forall k | k in s.streams :: s.streams[k].live == [])
    ensures
      var t := Put(s, k, Confirm(Get(s, k), batch));
      AllSound(t.streams) && forall k | k in t.streams :: t.streams[k].live == []
  {
    GetSound(s, k);
    ConfirmSound(Get(s, k), batch);
    PutSound(s.streams, k, Confirm(Get(s, k), batch));
  }

  lemma LiveAnswerKeeps(s: State, outcome: Outcome)
    requires Inv(s) && s.phase.Sending?
    ensures Inv(AnswerStep(s, outcome))
  {
    LandAllSound(s.streams, outcome == Delivered);
  }

  lemma StepKeeps(s: State, a: Action)
    requires Inv(s) && Enabled(s, a)
    ensures Inv(Step(s, a))
  {
    match a
    case PushSample(k, x, isAlarm) => PushKeeps(s, k, x, isAlarm);
    case PurgeStream(k, cutoff) => PurgeKeeps(s, k, cutoff);
    case Refresh(_) =>
    case Connect(_) =>
    case Look => LookKeeps(s);
    case Gather => GatherKeeps(s);
    case Answer(outcome) => if s.phase.InFlight? { ReplayAnswerKeeps(s, outcome); } else { LiveAnswerKeeps(s, outcome); }
  }

  // ---------- every run ----------

  /** The cold tables an earlier process left behind, and nothing else. */
  ghost predicate Initial(s: State) {
    && s.maxDepth >= 1 && s.batchSize >= 1 && s.phase == Down
    && forall k | k in s.streams :: Leftover(s.streams[k])
  }

  ghost predicate Leftover(st: Stream) {
    && st == Restored(st.rows, st.nextId) && Increasing(st.rows)
    && forall i | 0 <= i < |st.rows| :: st.rows[i].id < st.nextId
  }

  lemma InitialInv(s: State)
    requires Initial(s)
    ensures Inv(s)
  {
    forall k | k in s.streams
      ensures Sound(s.streams[k]) && s.streams[k].live == []
    {
      RestoredSound(s.streams[k].rows, s.streams[k].nextId);
    }
  }

  ghost predicate Possible(s: State, actions: seq<Action>)
    requires Inv(s)
    decreases |actions|
  {
    actions == [] || (Enabled(s, actions[0]) && (StepKeeps(s, actions[0]); Possible(Step(s, actions[0]), actions[1..])))
  }

  ghost function After(s: State, actions: seq<Action>): (t: State)
    requires Inv(s) && Possible(s, actions)
    ensures Inv(t)
    decreases |actions|
  {
    if actions == [] then s else StepKeeps(s, actions[0]); After(Step(s, actions[0]), actions[1..])
  }

  /**
   Conservation. In every reachable state a stream's samples left its buffer in order, and each one is in the
   buffer, in the live batch being published, sent, in a failed live batch, suppressed at the spill boundary,
   or a spilled row. What an alarm
   stream removed was all drained for publishing: it never evicts.
   */
  lemma EverySampleAccounted(s: State, actions: seq<Action>, k: Key)
    requires Initial(s) && (InitialInv(s); Possible(s, actions))
    ensures
      (InitialInv(s);
       var st := Get(After(s, actions), k);
       var l := st.ledger;
       && l.pushed == l.removed + Items(st)
       && multiset(l.pushed) + multiset(Samples(l.backlog))
          == multiset(Items(st)) + multiset(st.live) + l.sent + l.failed + l.suppressed + multiset(Samples(l.spilled))
       && (st.buffer.Some? && st.buffer.value.isAlarm ==> multiset(l.removed) == multiset(st.live) + l.sent + l.failed))
  {
    InitialInv(s);
    var t := After(s, actions);
    GetSound(t, k);
    Totals(Get(t, k));
  }
}
