/**
 When the dispatcher is connected, what a replay has covered, and what follows a failure, over whole runs of store and
 forward. Each law follows from what single steps do to the dispatcher's phase.
 */
module StoreForwardPhases {
  import opened Basics
  import opened StreamStore
  import opened StoreForward
  import opened StoreForwardLaws
  import opened StoreForwardRuns

  /** A run with all its states: `h[t]` is the state before action `t`. */
  ghost predicate Trace(h: seq<State>, actions: seq<Action>) {
    && |h| == |actions| + 1 && (forall t | 0 <= t <= |actions| :: Inv(h[t]))
    && forall t | 0 <= t < |actions| :: Goes(h[t], actions[t], h[t + 1])
  }

  ghost predicate Goes(s: State, a: Action, t: State) {
    Enabled(s, a) && t == Step(s, a)
  }

  ghost function States(s: State, actions: seq<Action>): (h: seq<State>)
    requires Inv(s) && Possible(s, actions)
    ensures |h| == |actions| + 1 && forall t: nat | t <= |actions| :: h[t] == At(s, actions, t)
  {
    seq(|actions| + 1, t requires 0 <= t <= |actions| => At(s, actions, t))
  }

  lemma GoesAt(s: State, actions: seq<Action>, t: nat)
    requires Inv(s) && Possible(s, actions) && t < |actions|
    ensures Goes(At(s, actions, t), actions[t], At(s, actions, t + 1))
  {
    AtNext(s, actions, t);
  }

  /** Every run has its trace. */
  lemma TraceOf(s: State, actions: seq<Action>)
    requires Inv(s) && Possible(s, actions)
    ensures Trace(States(s, actions), actions)
  {
    var h := States(s, actions);
    forall t | 0 <= t < |actions|
      ensures Goes(h[t], actions[t], h[t + 1])
    {
      GoesAt(s, actions, t);
    }
  }

  function Phases(h: seq<State>): (ps: seq<Phase>)
    ensures |ps| == |h| && forall t | 0 <= t < |h| :: ps[t] == h[t].phase
  {
    seq(|h|, t requires 0 <= t < |h| => h[t].phase)
  }

  // ---------- being connected ----------

  predicate Connected(p: Phase) {
    p.Replaying? || p.InFlight? || p == Up(true) || p == Sending(true)
  }

  /** A failed publish breaks the connection, and an exception from a live publish ends the dispatcher. */
  predicate Fails(p: Phase, a: Action) {
    a == Answer(Failed) || (a == Answer(Raised) && p.Sending?)
  }

  predicate Switches(p: Phase, a: Action, q: Phase) {
    Connected(q) <==> a.Connect? || (Connected(p) && !Fails(p, a))
  }

  lemma StepSwitches(s: State, a: Action)
    requires Enabled(s, a) && (s.phase.InFlight? ==> s.phase.todo != [])
    ensures Switches(s.phase, a, Step(s, a).phase)
  {
  }

  /** The dispatcher connected in action `i`, and nothing has failed since. */
  predicate UpSince(ps: seq<Phase>, actions: seq<Action>, i: nat, n: nat)
    requires n <= |actions| < |ps|
  {
    i < n && actions[i].Connect? && forall t | i < t < n :: !Fails(ps[t], actions[t])
  }

  lemma {:induction false} SwitchedOn(ps: seq<Phase>, actions: seq<Action>, n: nat)
    requires n <= |actions| < |ps| && !Connected(ps[0])
    requires forall t | 0 <= t < n :: Switches(ps[t], actions[t], ps[t + 1])
    ensures Connected(ps[n]) <==> exists i: nat :: UpSince(ps, actions, i, n)
    decreases n
  {
    if n > 0 {
      var last := n - 1;
      SwitchedOn(ps, actions, last);
      assert Switches(ps[last], actions[last], ps[last + 1]);
      if i: nat :| UpSince(ps, actions, i, last) {
        assert !Fails(ps[last], actions[last]) ==> UpSince(ps, actions, i, n);
      }
      if i: nat :| UpSince(ps, actions, i, n) {
        assert i < last ==> UpSince(ps, actions, i, last);
      }
      assert actions[last].Connect? ==> UpSince(ps, actions, last, n);
    }
  }

  /** In every run, the dispatcher is connected exactly if it has connected and nothing has failed since. */
  lemma ConnectedIff(h: seq<State>, actions: seq<Action>, n: nat)
    requires Trace(h, actions) && Initial(h[0]) && n <= |actions|
    ensures Connected(h[n].phase) <==> exists i: nat :: UpSince(Phases(h), actions, i, n)
  {
    var ps := Phases(h);
    forall t | 0 <= t < n
      ensures Switches(ps[t], actions[t], ps[t + 1])
    {
      assert Goes(h[t], actions[t], h[t + 1]);
      StepSwitches(h[t], actions[t]);
    }
    SwitchedOn(ps, actions, n);
  }

  // ---------- what a replay covers ----------

  /** The stream whose turn it is in a replay, if nothing of it is left to publish. */
  function Finished(s: State): Option<Key> {
    if s.phase.Replaying? && s.phase.todo != [] && Get(s, s.phase.todo[0]).rows == [] then Some(s.phase.todo[0]) else None
  }

  /** An action of the replay itself, or of somebody else: no gather, and no answer but a delivery. */
  predicate Undisturbed(a: Action) {
    !a.Connect? && !a.Gather? && (a.Answer? ==> a == Answer(Delivered))
  }

  /** A replay of `keys` has the streams from number `m` on still to do. */
  predicate Progress(p: Phase, keys: seq<Key>, m: nat) {
    && m <= |keys|
    && match p
       case Replaying(todo) => todo == keys[m..]
       case InFlight(todo, _) => todo == keys[m..]
       case Up(connected) => connected && m == |keys|
       case _ => false
  }

  /** An undisturbed replay keeps its streams to do, or takes the first off because it is finished. */
  ghost predicate Advances(p: Phase, found: Option<Key>, a: Action, q: Phase) {
    forall keys, m: nat | Progress(p, keys, m) ::
      Progress(q, keys, m) || (m < |keys| && a == Look && found == Some(keys[m]) && Progress(q, keys, m + 1))
  }

  lemma StepAdvances(s: State, a: Action)
    requires Inv(s) && Enabled(s, a) && Undisturbed(a)
    ensures Advances(s.phase, Finished(s), a, Step(s, a).phase)
  {
    forall keys, m: nat | Progress(s.phase, keys, m)
      ensures
        var q := Step(s, a).phase;
        Progress(q, keys, m) || (m < |keys| && a == Look && Finished(s) == Some(keys[m]) && Progress(q, keys, m + 1))
    {
      if a == Look && s.phase.todo != [] {
        GetSound(s, s.phase.todo[0]);
        PeekFlying(Get(s, s.phase.todo[0]), s.batchSize);
        assert keys[m..][1..] == keys[m + 1..] && keys[m..][0] == keys[m];
      }
    }
  }

  /** Between actions `i` and `n` the dispatcher looked at stream `k` in its turn and found nothing left. */
  predicate Seen(found: seq<Option<Key>>, actions: seq<Action>, i: nat, n: nat, k: Key)
    requires n <= |actions| < |found|
  {
    exists t | i < t < n :: actions[t] == Look && found[t] == Some(k)
  }

  lemma {:induction false} ProgressAt(ps: seq<Phase>, found: seq<Option<Key>>, actions: seq<Action>, keys: seq<Key>, i: nat, n: nat)
    returns (m: nat)
    requires i < n <= |actions| < |ps| == |found| && ps[i + 1] == Replaying(keys)
    requires forall t | i < t < n :: Advances(ps[t], found[t], actions[t], ps[t + 1])
    ensures Progress(ps[n], keys, m)
    ensures forall q | 0 <= q < m :: Seen(found, actions, i, n, keys[q])
    decreases n
  {
    if n == i + 1 {
      m := 0;
      assert keys[0..] == keys;
    } else {
      var last := n - 1;
      m := ProgressAt(ps, found, actions, keys, i, last);
      assert Advances(ps[last], found[last], actions[last], ps[last + 1]);
      assert forall q | 0 <= q < m :: Seen(found, actions, i, n, keys[q]);
      if !Progress(ps[n], keys, m) {
        assert Seen(found, actions, i, n, keys[m]);
        m := m + 1;
      }
    }
  }

  function FinishedAll(h: seq<State>): (found: seq<Option<Key>>)
    ensures |found| == |h| && forall t | 0 <= t < |h| :: found[t] == Finished(h[t])
  {
    seq(|h|, t requires 0 <= t < |h| => Finished(h[t]))
  }

  /**
   A replay without failures ends only after every stream that had rows, or a cold table at all, when it connected was
   looked at in its turn and found to have nothing left.
   */
  lemma ReplayCovers(h: seq<State>, actions: seq<Action>, i: nat, n: nat, k: Key)
    requires Trace(h, actions) && i < n <= |actions| && actions[i].Connect? && h[n].phase.Up?
    requires forall t | i < t < n :: Undisturbed(actions[t])
    requires Get(h[i], k).rows != [] || (k in h[i].streams && h[i].streams[k].hasTable)
    ensures Seen(FinishedAll(h), actions, i, n, k)
  {
    AllAdvance(h, actions, i, n);
    assert Goes(h[i], actions[i], h[i + 1]) && Inv(h[i]);
    ConnectLists(h[i], actions[i].keys, k);
    var m := ProgressAt(Phases(h), FinishedAll(h), actions, actions[i].keys, i, n);
  }

  lemma AllAdvance(h: seq<State>, actions: seq<Action>, i: nat, n: nat)
    requires Trace(h, actions) && i < n <= |actions| && forall t | i < t < n :: Undisturbed(actions[t])
    ensures forall t | i < t < n :: Advances(Phases(h)[t], FinishedAll(h)[t], actions[t], Phases(h)[t + 1])
  {
    var ps, found := Phases(h), FinishedAll(h);
    forall t | i < t < n
      ensures Advances(ps[t], found[t], actions[t], ps[t + 1])
    {
      assert Goes(h[t], actions[t], h[t + 1]) && Inv(h[t]);
      StepAdvances(h[t], actions[t]);
    }
  }

  /** A connecting dispatcher is told of every stream that has rows or a table. */
  lemma ConnectLists(s: State, keys: seq<Key>, k: Key)
    requires Inv(s) && Enabled(s, Connect(keys))
    requires Get(s, k).rows != [] || (k in s.streams && s.streams[k].hasTable)
    ensures k in keys && Step(s, Connect(keys)).phase == Replaying(keys)
  {
    GetSound(s, k);
  }

  // ---------- after a failure ----------

  /** Something the dispatcher does. */
  predicate ByDispatcher(a: Action) {
    a.Connect? || a.Look? || a.Gather? || a.Answer?
  }

  /** Nobody else changes the phase; without a connection only a gather follows; a dead dispatcher does nothing. */
  predicate Rests(p: Phase, a: Action, q: Phase) {
    && (!ByDispatcher(a) ==> q == p) && (p == Dead ==> !ByDispatcher(a)) && (p == Up(false) && ByDispatcher(a) ==> a == Gather)
    && (p.InFlight? && a == Answer(Failed) ==> q == Up(false)) && (p.Sending? && a == Answer(Raised) ==> q == Dead)
  }

  lemma StepRests(s: State, a: Action)
    requires Enabled(s, a) && (s.phase.InFlight? ==> s.phase.todo != [])
    ensures Rests(s.phase, a, Step(s, a).phase)
  {
  }

  lemma AllRest(h: seq<State>, actions: seq<Action>)
    requires Trace(h, actions)
    ensures forall t | 0 <= t < |actions| :: Rests(Phases(h)[t], actions[t], Phases(h)[t + 1])
  {
    var ps := Phases(h);
    forall t | 0 <= t < |actions|
      ensures Rests(ps[t], actions[t], ps[t + 1])
    {
      assert Goes(h[t], actions[t], h[t + 1]) && Inv(h[t]);
      StepRests(h[t], actions[t]);
    }
  }

  lemma {:induction false} PhaseRests(ps: seq<Phase>, actions: seq<Action>, i: nat, n: nat)
    requires i <= n <= |actions| < |ps| && forall t | 0 <= t < |actions| :: Rests(ps[t], actions[t], ps[t + 1])
    requires ps[i] == Dead || forall t | i <= t < n :: !ByDispatcher(actions[t])
    ensures ps[n] == ps[i]
    decreases n
  {
    if i < n {
      PhaseRests(ps, actions, i, n - 1);
      assert Rests(ps[n - 1], actions[n - 1], ps[n - 1 + 1]);
    }
  }

  /** After a replay's publish has failed, the dispatcher gathers live data before anything else it does. */
  lemma FailedReplayGathers(h: seq<State>, actions: seq<Action>, i: nat, n: nat)
    requires Trace(h, actions) && i < n < |actions| && h[i].phase.InFlight? && actions[i] == Answer(Failed)
    requires ByDispatcher(actions[n]) && forall t | i < t < n :: !ByDispatcher(actions[t])
    ensures actions[n] == Gather
  {
    var ps := Phases(h);
    AllRest(h, actions);
    assert Rests(ps[i], actions[i], ps[i + 1]);
    PhaseRests(ps, actions, i + 1, n);
    assert Rests(ps[n], actions[n], ps[n + 1]);
  }

  /** After an exception from a live publish it never does anything again. */
  lemma RaisedEndsDispatcher(h: seq<State>, actions: seq<Action>, i: nat, n: nat)
    requires Trace(h, actions) && i < n < |actions| && h[i].phase.Sending? && actions[i] == Answer(Raised)
    ensures !ByDispatcher(actions[n])
  {
    var ps := Phases(h);
    AllRest(h, actions);
    assert Rests(ps[i], actions[i], ps[i + 1]);
    PhaseRests(ps, actions, i + 1, n);
    assert Rests(ps[n], actions[n], ps[n + 1]);
  }

  // ---------- what is published ----------

  /** Some stream has samples out. */
  ghost predicate SomethingLive(s: State) {
    exists k | k in s.streams :: s.streams[k].live != []
  }

  ghost predicate SomethingBuffered(s: State) {
    exists k | k in s.streams :: Items(s.streams[k]) != []
  }

  /** What is being published has something in it, before and so after. */
  ghost predicate Full(s: State) {
    s.phase.Sending? ==> SomethingLive(s)
  }

  lemma FullNext(s: State, a: Action)
    requires Inv(s) && Enabled(s, a) && Full(s)
    ensures Full(Step(s, a))
  {
    if a.Gather? {
      GatherPublishes(s);
    } else if s.phase.Sending? && !a.Answer? {
      var k :| k in s.streams && s.streams[k].live != [];
      LiveRests(s, a, k);
      KeepsStream(s, a, k);
    }
  }

  lemma KeepsStream(s: State, a: Action, k: Key)
    requires Enabled(s, a) && k in s.streams
    ensures k in Step(s, a).streams
  {
  }

  lemma GatherPublishes(s: State)
    requires Inv(s) && Enabled(s, Gather)
    ensures Step(s, Gather).phase.Sending? <==> SomethingBuffered(s)
    ensures Full(Step(s, Gather))
  {
    if k :| k in s.streams && Items(s.streams[k]) != [] {
      GatherEmpties(s, k);
      KeepsStream(s, Gather, k);
    }
  }

  lemma {:induction false} AlwaysFull(h: seq<State>, actions: seq<Action>, n: nat)
    requires Trace(h, actions) && !h[0].phase.Sending? && n <= |actions|
    ensures Full(h[n])
    decreases n
  {
    if n > 0 {
      AlwaysFull(h, actions, n - 1);
      assert Goes(h[n - 1], actions[n - 1], h[n - 1 + 1]) && Inv(h[n - 1]);
      FullNext(h[n - 1], actions[n - 1]);
    }
  }

  /** In every run, no empty live batch is published, and a gather that finds anything publishes it. */
  lemma PublishesSomething(h: seq<State>, actions: seq<Action>, n: nat)
    requires Trace(h, actions) && Initial(h[0]) && n < |actions|
    ensures h[n].phase.Sending? ==> SomethingLive(h[n])
    ensures actions[n] == Gather ==> (h[n + 1].phase.Sending? <==> SomethingBuffered(h[n]))
  {
    AlwaysFull(h, actions, n);
    if actions[n] == Gather {
      assert Goes(h[n], actions[n], h[n + 1]) && Inv(h[n]);
      GatherPublishes(h[n]);
    }
  }
}
