/** Laws of whole runs of store and forward, stated over the actions of the run. */
module StoreForwardRuns {
  import opened Basics
  import opened StreamStore
  import opened StoreForward
  import opened StoreForwardLaws

  /** The state before the `i`-th action of a run. */
  ghost function At(s: State, actions: seq<Action>, i: nat): (t: State)
    requires Inv(s) && Possible(s, actions) && i <= |actions|
    ensures Inv(t) && (i < |actions| ==> Enabled(t, actions[i]))
    decreases i
  {
    if i == 0 then s else StepKeeps(s, actions[0]); At(Step(s, actions[0]), actions[1..], i - 1)
  }

  lemma {:induction false} AtNext(s: State, actions: seq<Action>, i: nat)
    requires Inv(s) && Possible(s, actions) && i < |actions|
    ensures At(s, actions, i + 1) == Step(At(s, actions, i), actions[i])
    decreases i
  {
    StepKeeps(s, actions[0]);
    if i > 0 {
      AtNext(Step(s, actions[0]), actions[1..], i - 1);
    }
  }

  // ---------- rows in exactly one place ----------

  /** A row once gone from under a batch in flight does not come back. */
  lemma GoneStaysGone(s: State, a: Action, k: Key)
    requires Inv(s) && Enabled(s, a) && !a.Answer? && !Intact(s, k)
    ensures !Intact(Step(s, a), k)
  {
    var r :| r in s.phase.batch && r !in Get(s, k).rows;
    StepEffect(s, a, k);
    GetSound(s, k);
    NotBack(s, a, k, r);
  }

  lemma NotBack(s: State, a: Action, k: Key, r: Row)
    requires Enabled(s, a) && s.phase.InFlight? && s.phase.todo != [] && !a.Answer?
    requires Fates(Get(s, k)) && r in Get(s, k).ledger.spilled && r !in Get(s, k).rows
    ensures r !in Effect(s, a, k).rows
  {
    if a.PushSample? {
      PushAddsNew(Get(s, k), s.maxDepth, a.sample, a.isAlarm, s.hushed, r);
    } else if a.PurgeStream? {
      FilterMembers(Get(s, k).rows, (r: Row) => r.sample.timestamp >= a.cutoff);
    }
  }

  lemma PushAddsNew(st: Stream, maxDepth: nat, x: Sample, isAlarm: bool, hushed: set<TagId>, r: Row)
    requires r.id < st.nextId && r !in st.rows
    ensures r !in Push(st, maxDepth, x, isAlarm, hushed).rows
  {
  }

  lemma IntactNext(s: State, a: Action, k: Key)
    requires Inv(s) && Enabled(s, a)
    ensures !Intact(Step(s, a), k) <==> !a.Answer? && (!Intact(s, k) || Hit(s, a, k))
  {
    if a.Answer? {
      assert !Step(s, a).phase.InFlight?;
    } else if Intact(s, k) {
      IntactUntilHit(s, a, k);
    } else {
      GoneStaysGone(s, a, k);
    }
  }

  /** Action `j` delivers the batch in flight at the start: it is the first answer. */
  predicate FirstDelivered(actions: seq<Action>, j: nat) {
    j < |actions| && actions[j] == Answer(Delivered) && forall t | 0 <= t < j :: !actions[t].Answer?
  }

  /**
   Action `i` purges stream `k` while a batch of it is in flight, with a cutoff past one of the batch's rows, and
   action `j` delivers that batch: it is the next answer.
   */
  ghost predicate Struck(s: State, actions: seq<Action>, k: Key, i: nat, j: nat)
    requires Inv(s) && Possible(s, actions)
  {
    && i < j < |actions| && Hit(At(s, actions, i), actions[i], k)
    && actions[j] == Answer(Delivered) && forall t | i < t < j :: !actions[t].Answer?
  }

  ghost predicate EverStruck(s: State, actions: seq<Action>, k: Key)
    requires Inv(s) && Possible(s, actions)
  {
    exists i: nat, j: nat :: Struck(s, actions, k, i, j)
  }

  lemma StruckNow(s: State, actions: seq<Action>, k: Key, j: nat)
    requires Inv(s) && Possible(s, actions) && actions != []
    ensures Struck(s, actions, k, 0, j + 1) <==> Hit(s, actions[0], k) && FirstDelivered(actions[1..], j)
  {
    var rest := actions[1..];
    if FirstDelivered(rest, j) {
      assert actions[j + 1] == rest[j];
      forall t | 0 < t < j + 1
        ensures !actions[t].Answer?
      {
        assert actions[t] == rest[t - 1];
      }
    }
    if Struck(s, actions, k, 0, j + 1) {
      assert rest[j] == actions[j + 1];
      assert forall t | 0 <= t < j :: rest[t] == actions[t + 1];
    }
  }

  lemma StruckLater(s: State, actions: seq<Action>, k: Key, i: nat, j: nat)
    requires Inv(s) && Possible(s, actions) && actions != []
    ensures
      (StepKeeps(s, actions[0]);
       Struck(s, actions, k, i + 1, j + 1) <==> Struck(Step(s, actions[0]), actions[1..], k, i, j))
  {
    StepKeeps(s, actions[0]);
    var rest := actions[1..];
    if i < j < |rest| {
      assert rest[i] == actions[i + 1] && rest[j] == actions[j + 1];
      assert At(s, actions, i + 1) == At(Step(s, actions[0]), rest, i);
      if forall t | i + 1 < t < j + 1 :: !actions[t].Answer? {
        assert forall t | i < t < j :: rest[t] == actions[t + 1];
      }
      if forall t | i < t < j :: !rest[t].Answer? {
        assert forall t | i + 1 < t < j + 1 :: actions[t] == rest[t - 1];
      }
    }
  }

  /** A batch is struck in a run if the first action strikes it, or if it happens in the rest of the run. */
  lemma EverStruckStep(s: State, actions: seq<Action>, k: Key)
    requires Inv(s) && Possible(s, actions) && actions != []
    ensures
      (StepKeeps(s, actions[0]);
       EverStruck(s, actions, k) <==>
         || (Hit(s, actions[0], k) && exists j: nat :: FirstDelivered(actions[1..], j))
         || EverStruck(Step(s, actions[0]), actions[1..], k))
  {
    StepKeeps(s, actions[0]);
    if EverStruck(s, actions, k) {
      var i: nat, j: nat :| Struck(s, actions, k, i, j);
      StruckSplits(s, actions, k, i, j);
    }
    if Hit(s, actions[0], k) && exists j: nat :: FirstDelivered(actions[1..], j) {
      var j: nat :| FirstDelivered(actions[1..], j);
      StruckNow(s, actions, k, j);
    }
    if EverStruck(Step(s, actions[0]), actions[1..], k) {
      var i: nat, j: nat :| Struck(Step(s, actions[0]), actions[1..], k, i, j);
      StruckLater(s, actions, k, i, j);
    }
  }

  lemma StruckSplits(s: State, actions: seq<Action>, k: Key, i: nat, j: nat)
    requires Inv(s) && Possible(s, actions) && actions != [] && Struck(s, actions, k, i, j)
    ensures i == 0 ==> Hit(s, actions[0], k) && FirstDelivered(actions[1..], j - 1)
    ensures i > 0 ==> (StepKeeps(s, actions[0]); Struck(Step(s, actions[0]), actions[1..], k, i - 1, j - 1))
  {
    if i == 0 {
      StruckNow(s, actions, k, j - 1);
    } else {
      StruckLater(s, actions, k, i - 1, j - 1);
    }
  }

  lemma FirstDeliveredStep(actions: seq<Action>)
    requires actions != []
    ensures (exists j: nat :: FirstDelivered(actions, j)) <==>
              actions[0] == Answer(Delivered) || (!actions[0].Answer? && exists j: nat :: FirstDelivered(actions[1..], j))
  {
    var rest := actions[1..];
    if j: nat :| FirstDelivered(actions, j) {
      if j > 0 {
        assert rest[j - 1] == actions[j] && forall t | 0 <= t < j - 1 :: rest[t] == actions[t + 1];
        assert FirstDelivered(rest, j - 1);
      }
    }
    if actions[0] == Answer(Delivered) {
      assert FirstDelivered(actions, 0);
    }
    if !actions[0].Answer? && exists j: nat :: FirstDelivered(rest, j) {
      var j: nat :| FirstDelivered(rest, j);
      assert actions[j + 1] == rest[j] && forall t | 0 < t < j + 1 :: actions[t] == rest[t - 1];
      assert FirstDelivered(actions, j + 1);
    }
  }

  /** A delivered batch ever holds a row that is gone exactly when one is in flight now, or a purge strikes one later. */
  lemma {:induction false} LostIffStruck(s: State, actions: seq<Action>, k: Key)
    requires Inv(s) && Possible(s, actions)
    ensures EverLost(s, actions, k) <==>
              (!Intact(s, k) && exists j: nat :: FirstDelivered(actions, j)) || EverStruck(s, actions, k)
    decreases |actions|
  {
    if actions != [] {
      var a, rest := actions[0], actions[1..];
      StepKeeps(s, a);
      IntactNext(s, a, k);
      EverStruckStep(s, actions, k);
      FirstDeliveredStep(actions);
      LostIffStruck(Step(s, a), rest, k);
      LostNow(s, a, k);
    }
  }

  lemma LostNow(s: State, a: Action, k: Key)
    ensures Lost(s, a, k) <==> a == Answer(Delivered) && !Intact(s, k)
  {
  }

  /**
   Every spilled row is in exactly one of cold store, purged and published, if and only if no batch of the stream is
   delivered after a purge that came while it was in flight, with a cutoff past one of its rows.
   */
  lemma ExactlyOneIff(s: State, actions: seq<Action>, k: Key)
    requires Initial(s) && (InitialInv(s); Possible(s, actions))
    ensures
      (InitialInv(s);
       var st := Get(After(s, actions), k);
       (forall r | r in st.ledger.spilled :: Places(st, r) == 1) <==> !EverStruck(s, actions, k))
  {
    InitialInv(s);
    OverlapIffLost(s, actions, k);
    LostIffStruck(s, actions, k);
    GetSound(After(s, actions), k);
    PlacesOverlap(Get(After(s, actions), k));
  }

  // ---------- reconnecting ----------

  lemma LapseAt(s: State, actions: seq<Action>, t: nat)
    requires Inv(s) && Possible(s, actions) && t < |actions|
    ensures actions[t] == Answer(Failed) ==> Lapsed(At(s, actions, t + 1).phase)
    ensures Lapsed(At(s, actions, t).phase) && !actions[t].Connect? ==> Lapsed(At(s, actions, t + 1).phase)
    ensures actions[t].Connect? ==> At(s, actions, t + 1).phase == Replaying(actions[t].keys)
  {
    AtNext(s, actions, t);
    LapseStep(At(s, actions, t), actions[t]);
  }

  /**
   After a failed publish, live or replayed, the dispatcher replays, publishes or waits connected again only once it
   has connected again, which always begins with a replay.
   */
  lemma {:induction false} ReconnectsFirst(s: State, actions: seq<Action>, i: nat, j: nat) returns (t: nat)
    requires Inv(s) && Possible(s, actions) && i < j <= |actions|
    requires actions[i] == Answer(Failed) && !Lapsed(At(s, actions, j).phase)
    ensures i < t < j && actions[t].Connect? && At(s, actions, t + 1).phase == Replaying(actions[t].keys)
    decreases j
  {
    t := j - 1;
    LapseAt(s, actions, t);
    if !actions[t].Connect? {
      t := ReconnectsFirst(s, actions, i, t);
    }
  }

  // ---------- live batches ----------

  /** Nothing live was gathered or answered in between. */
  predicate SameLive(st: Stream, now: Stream) {
    now.live == st.live && now.ledger.sent == st.ledger.sent && now.ledger.failed == st.ledger.failed
  }

  /** What the buffer held is now live, and not yet answered. */
  predicate OutFrom(st: Stream, now: Stream) {
    now.live == Items(st) && now.ledger.sent == st.ledger.sent && now.ledger.failed == st.ledger.failed
  }

  /** The live samples have been added to the sent or to the failed ones. */
  predicate Landed(st: Stream, after: Stream, gone: seq<Sample>, delivered: bool) {
    && after.live == []
    && after.ledger.sent == st.ledger.sent + (if delivered then multiset(gone) else multiset{})
    && after.ledger.failed == st.ledger.failed + (if delivered then multiset{} else multiset(gone))
  }

  lemma CalmLive(s: State, k: Key)
    requires Calm(s) && !s.phase.Sending?
    ensures Get(s, k).live == []
  {
  }

  /** A gather empties every buffer into the live batch, which held nothing. */
  lemma GatherEmpties(s: State, k: Key)
    requires Calm(s) && Enabled(s, Gather)
    ensures Items(Get(Step(s, Gather), k)) == [] && OutFrom(Get(s, k), Get(Step(s, Gather), k))
  {
    StepEffect(s, Gather, k);
    CalmLive(s, k);
  }

  /** Only gathers and answers move live samples. */
  lemma LiveRests(s: State, a: Action, k: Key)
    requires Enabled(s, a) && (s.phase.InFlight? ==> s.phase.todo != []) && !a.Gather? && !a.Answer?
    ensures SameLive(Get(s, k), Get(Step(s, a), k))
  {
    StepEffect(s, a, k);
    if a.PushSample? {
      PushSameLive(Get(s, k), s.maxDepth, a.sample, a.isAlarm, s.hushed);
    }
  }

  lemma PushSameLive(st: Stream, maxDepth: nat, x: Sample, isAlarm: bool, hushed: set<TagId>)
    ensures SameLive(st, Push(st, maxDepth, x, isAlarm, hushed))
  {
  }

  lemma LiveLands(s: State, outcome: Outcome, k: Key)
    requires Calm(s) && Enabled(s, Answer(outcome)) && (s.phase.InFlight? ==> s.phase.todo != [])
    ensures Landed(Get(s, k), Get(Step(s, Answer(outcome)), k), Get(s, k).live, outcome == Delivered)
  {
    StepEffect(s, Answer(outcome), k);
    if s.phase.InFlight? {
      CalmLive(s, k);
    }
  }

  lemma NextRests(s: State, actions: seq<Action>, t: nat, k: Key)
    requires Inv(s) && Possible(s, actions) && t < |actions| && !actions[t].Gather? && !actions[t].Answer?
    ensures SameLive(Get(At(s, actions, t), k), Get(At(s, actions, t + 1), k))
  {
    AtNext(s, actions, t);
    LiveRests(At(s, actions, t), actions[t], k);
  }

  /** One stream before each action of a run, and at its end. */
  ghost function History(s: State, actions: seq<Action>, k: Key): (h: seq<Stream>)
    requires Inv(s) && Possible(s, actions)
    ensures |h| == |actions| + 1 && forall t: nat | t <= |actions| :: h[t] == Get(At(s, actions, t), k)
  {
    seq(|actions| + 1, t requires 0 <= t <= |actions| => Get(At(s, actions, t), k))
  }

  lemma {:induction false} StaysOut(h: seq<Stream>, i: nat, j: nat)
    requires i < j < |h| && OutFrom(h[i], h[i + 1])
    requires forall t | i < t < j :: SameLive(h[t], h[t + 1])
    ensures OutFrom(h[i], h[j])
    decreases j
  {
    if j > i + 1 {
      StaysOut(h, i, j - 1);
      assert SameLive(h[j - 1], h[j - 1 + 1]);
    }
  }

  lemma LiveAt(s: State, actions: seq<Action>, i: nat, j: nat, k: Key)
    requires Inv(s) && Possible(s, actions) && i < j <= |actions| && actions[i] == Gather
    requires forall t | i < t < j :: !actions[t].Gather? && !actions[t].Answer?
    ensures OutFrom(Get(At(s, actions, i), k), Get(At(s, actions, j), k))
  {
    var h := History(s, actions, k);
    AtNext(s, actions, i);
    GatherEmpties(At(s, actions, i), k);
    forall t | i < t < j
      ensures SameLive(h[t], h[t + 1])
    {
      NextRests(s, actions, t, k);
    }
    StaysOut(h, i, j);
  }

  /**
   In every run, what a stream's buffer held at a gather is, with the next answer, added to the sent samples if that
   answer says delivered, and to the failed ones otherwise, each as often as it was there.
   */
  lemma GatheredThenAnswered(s: State, actions: seq<Action>, i: nat, j: nat, k: Key)
    requires Inv(s) && Possible(s, actions) && i < j < |actions| && actions[i] == Gather && actions[j].Answer?
    requires forall t | i < t < j :: !actions[t].Gather? && !actions[t].Answer?
    ensures Items(Get(At(s, actions, i + 1), k)) == []
    ensures
      var st := Get(At(s, actions, i), k);
      Landed(st, Get(At(s, actions, j + 1), k), Items(st), actions[j] == Answer(Delivered))
  {
    AtNext(s, actions, i);
    GatherEmpties(At(s, actions, i), k);
    LiveAt(s, actions, i, j, k);
    AtNext(s, actions, j);
    LiveLands(At(s, actions, j), actions[j].outcome, k);
  }
}
