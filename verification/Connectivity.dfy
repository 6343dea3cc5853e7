/**
 The connectivity tracker: a consecutive-result state machine with asymmetric hysteresis. Its state
 is shown to be a function of the whole result history, stated without counters: the device is down
 while some long enough failure run has not been followed by a long enough success run.
 */
module Connectivity {
  import opened Basics

  datatype State = Unknown | Connected | Degraded | NotConnected

  // ---------- the declarative meaning of a history (true is a success) ----------

  /** The `length` results before position `end` are all `kind`. */
  predicate RunBefore(h: seq<bool>, kind: bool, length: nat, end: nat) {
    length <= end <= |h| && forall k | end - length <= k < end :: h[k] == kind
  }

  predicate NoRecoveryAfter(h: seq<bool>, recovery: nat, j: nat) {
    forall k | j < k <= |h| :: !RunBefore(h, true, recovery, k)
  }

  /** Some run of `failure` failures is followed by no run of `recovery` successes. */
  predicate Down(h: seq<bool>, failure: nat, recovery: nat) {
    exists j | 0 <= j <= |h| :: RunBefore(h, false, failure, j) && NoRecoveryAfter(h, recovery, j)
  }

  function Meaning(h: seq<bool>, failure: nat, recovery: nat): State {
    if h == [] then Unknown
    else if Down(h, failure, recovery) then NotConnected
    else if h[|h| - 1] then Connected
    else Degraded
  }

  /** How many results at the end of the history are `kind`. */
  function Streak(h: seq<bool>, kind: bool): (n: nat)
    ensures n <= |h|
  {
    if h == [] || h[|h| - 1] != kind then 0 else 1 + Streak(h[..|h| - 1], kind)
  }

  lemma {:induction false} StreakIsRun(h: seq<bool>, kind: bool, length: nat)
    ensures RunBefore(h, kind, length, |h|) <==> length <= Streak(h, kind)
  {
    if length > 0 && h != [] && h[|h| - 1] == kind {
      var front := h[..|h| - 1];
      StreakIsRun(front, kind, length - 1);
      assert forall k | 0 <= k < |front| :: front[k] == h[k];
    }
  }

  lemma RunsKept(h: seq<bool>, x: bool, kind: bool, length: nat, j: nat)
    requires j <= |h|
    ensures RunBefore(h + [x], kind, length, j) <==> RunBefore(h, kind, length, j)
  {
    if RunBefore(h + [x], kind, length, j) {
      assert forall k | j - length <= k < j :: h[k] == (h + [x])[k];
    }
  }

  lemma NoRecoveryExtended(h: seq<bool>, x: bool, recovery: nat, j: nat)
    requires j <= |h|
    ensures NoRecoveryAfter(h + [x], recovery, j)
       <==> NoRecoveryAfter(h, recovery, j) && Streak(h + [x], true) < recovery
  {
    var h' := h + [x];
    StreakIsRun(h', true, recovery);
    forall k | j < k <= |h|
      ensures RunBefore(h', true, recovery, k) <==> RunBefore(h, true, recovery, k)
    {
      RunsKept(h, x, true, recovery, k);
    }
    if NoRecoveryAfter(h', recovery, j) {
      forall k | j < k <= |h|
        ensures !RunBefore(h, true, recovery, k)
      {
        assert !RunBefore(h', true, recovery, k);
      }
      assert !RunBefore(h', true, recovery, |h'|);
    }
  }

  /** A success ends an outage exactly when it completes a recovery run. */
  lemma DownAfterSuccess(h: seq<bool>, failure: nat, recovery: nat)
    requires failure >= 1
    ensures Down(h + [true], failure, recovery) <==> Down(h, failure, recovery) && Streak(h + [true], true) < recovery
  {
    var h' := h + [true];
    forall j | 0 <= j <= |h|
      ensures RunBefore(h', false, failure, j) <==> RunBefore(h, false, failure, j)
      ensures NoRecoveryAfter(h', recovery, j) <==> NoRecoveryAfter(h, recovery, j) && Streak(h', true) < recovery
    {
      RunsKept(h, true, false, failure, j);
      NoRecoveryExtended(h, true, recovery, j);
    }
    assert !RunBefore(h', false, failure, |h'|) by {
      assert h'[|h'| - 1];
    }
    if Down(h', failure, recovery) {
      var j :| 0 <= j <= |h'| && RunBefore(h', false, failure, j) && NoRecoveryAfter(h', recovery, j);
      assert j <= |h|;
    }
  }

  /** A failure starts an outage exactly when it completes a failure run; it never ends one. */
  lemma DownAfterFailure(h: seq<bool>, failure: nat, recovery: nat)
    requires recovery >= 1
    ensures Down(h + [false], failure, recovery)
       <==> Down(h, failure, recovery) || failure <= Streak(h + [false], false)
  {
    var h' := h + [false];
    StreakIsRun(h', false, failure);
    assert Streak(h', true) == 0;
    forall j | 0 <= j <= |h|
      ensures RunBefore(h', false, failure, j) <==> RunBefore(h, false, failure, j)
      ensures NoRecoveryAfter(h', recovery, j) <==> NoRecoveryAfter(h, recovery, j)
    {
      RunsKept(h, false, false, failure, j);
      NoRecoveryExtended(h, false, recovery, j);
    }
    assert NoRecoveryAfter(h', recovery, |h'|);
    if Down(h, failure, recovery) {
      var j :| 0 <= j <= |h| && RunBefore(h, false, failure, j) && NoRecoveryAfter(h, recovery, j);
      assert RunBefore(h', false, failure, j) && NoRecoveryAfter(h', recovery, j);
    }
    if Down(h', failure, recovery) {
      var j :| 0 <= j <= |h'| && RunBefore(h', false, failure, j) && NoRecoveryAfter(h', recovery, j);
    }
  }

  /** The documented transition table follows from the meaning of histories. */
  lemma TransitionTable(h: seq<bool>, failure: nat, recovery: nat)
    requires failure >= 1 && recovery >= 1
    ensures Meaning(h + [true], failure, recovery)
         == if Meaning(h, failure, recovery) == NotConnected && Streak(h, true) + 1 < recovery then NotConnected
            else Connected
    ensures Meaning(h + [false], failure, recovery)
         == if Meaning(h, failure, recovery) == NotConnected || Streak(h, false) + 1 >= failure then NotConnected
            else Degraded
  {
    DownAfterSuccess(h, failure, recovery);
    DownAfterFailure(h, failure, recovery);
    assert (h + [true])[..|h|] == h && (h + [false])[..|h|] == h;
    assert h == [] ==> !Down(h, failure, recovery);
  }

  // ---------- the tracker ----------

  datatype Tracked = Tracked(state: State, failures: nat, successes: nat)

  function Succeed(t: Tracked, recovery: nat): Tracked {
    var still := t.state == NotConnected && t.successes + 1 < recovery;
    Tracked(if still then NotConnected else Connected, 0, t.successes + 1)
  }

  function Fail(t: Tracked, failure: nat): Tracked {
    var down := t.state == NotConnected || t.failures + 1 >= failure;
    Tracked(if down then NotConnected else Degraded, t.failures + 1, 0)
  }

  /** The tracker's fields after a history of results. */
  function Track(h: seq<bool>, failure: nat, recovery: nat): Tracked {
    if h == [] then Tracked(Unknown, 0, 0)
    else
      var before := Track(h[..|h| - 1], failure, recovery);
      if h[|h| - 1] then Succeed(before, recovery) else Fail(before, failure)
  }

  /** The tracked state is the meaning of the history; the counters are its final streaks. */
  lemma {:induction false} TrackedMeaning(h: seq<bool>, failure: nat, recovery: nat)
    requires failure >= 1 && recovery >= 1
    ensures Track(h, failure, recovery) == Tracked(Meaning(h, failure, recovery), Streak(h, false), Streak(h, true))
  {
    if h != [] {
      var front := h[..|h| - 1];
      TrackedMeaning(front, failure, recovery);
      TransitionTable(front, failure, recovery);
      assert h == front + [h[|h| - 1]];
    }
  }

  class ConnectivityTracker {
    const failureThreshold: nat
    const recoveryThreshold: nat
    var state: State
    var consecutiveFailures: nat
    var consecutiveSuccesses: nat
    var lastFailureReason: Option<string>
    var changedAt: int
    /** Every result recorded so far. */
    ghost var history: seq<bool>

    /** The fields follow from the recorded history. */
    ghost predicate Valid()
      reads this
    {
      Tracked(state, consecutiveFailures, consecutiveSuccesses) == Track(history, failureThreshold, recoveryThreshold)
    }

    constructor (failureThreshold: nat, recoveryThreshold: nat, now: int)
      requires failureThreshold >= 1 && recoveryThreshold >= 1
      ensures Valid() && history == [] && changedAt == now && lastFailureReason == None
      ensures this.failureThreshold == failureThreshold && this.recoveryThreshold == recoveryThreshold
    {
      this.failureThreshold, this.recoveryThreshold := failureThreshold, recoveryThreshold;
      state, consecutiveFailures, consecutiveSuccesses := Unknown, 0, 0;
      lastFailureReason, changedAt := None, now;
      history := [];
    }

    method RecordSuccess(now: int) returns (s: State)
      requires Valid()
      modifies this
      ensures Valid() && history == old(history) + [true] && s == state
      ensures changedAt == if state == old(state) then old(changedAt) else now
      ensures lastFailureReason == old(lastFailureReason)
    {
      consecutiveFailures := 0;
      consecutiveSuccesses := consecutiveSuccesses + 1;
      history := history + [true];
      assert history[..|history| - 1] == old(history);
      if state == Unknown || state == Degraded {
        Transition(Connected, now);
      } else if state == NotConnected {
        if consecutiveSuccesses >= recoveryThreshold {
          Transition(Connected, now);
        }
      }
      s := state;
    }

    method RecordFailure(now: int, reason: Option<string>) returns (s: State)
      requires Valid()
      modifies this
      ensures Valid() && history == old(history) + [false] && s == state
      ensures changedAt == if state == old(state) then old(changedAt) else now
      ensures lastFailureReason == reason
    {
      consecutiveSuccesses := 0;
      consecutiveFailures := consecutiveFailures + 1;
      lastFailureReason := reason;
      history := history + [false];
      assert history[..|history| - 1] == old(history);
      if state == NotConnected {
        return state;
      }
      if consecutiveFailures >= failureThreshold {
        Transition(NotConnected, now);
      } else {
        Transition(Degraded, now);
      }
      s := state;
    }

    method Transition(newState: State, now: int)
      modifies this`state, this`changedAt
      ensures state == newState
      ensures changedAt == if newState == old(state) then old(changedAt) else now
    {
      if newState != state {
        state, changedAt := newState, now;
      }
    }
  }

  /** What an operator reads off a tracker is a property of everything it has ever been told. */
  lemma StateIsMeaning(tracker: ConnectivityTracker)
    requires tracker.Valid() && tracker.failureThreshold >= 1 && tracker.recoveryThreshold >= 1
    ensures tracker.state == Meaning(tracker.history, tracker.failureThreshold, tracker.recoveryThreshold)
    ensures tracker.state == NotConnected
       <==> Down(tracker.history, tracker.failureThreshold, tracker.recoveryThreshold)
  {
    TrackedMeaning(tracker.history, tracker.failureThreshold, tracker.recoveryThreshold);
    assert tracker.history == [] ==> !Down(tracker.history, tracker.failureThreshold, tracker.recoveryThreshold);
  }

  datatype ThresholdError = FailureThresholdTooSmall | RecoveryThresholdTooSmall

  /** Construction as configuration reaches it: thresholds below one are refused. */
  method MakeTracker(failureThreshold: int, recoveryThreshold: int, now: int)
    returns (r: Result<ConnectivityTracker, ThresholdError>)
    ensures r.Ok? <==> failureThreshold >= 1 && recoveryThreshold >= 1
    ensures r.Ok? ==> fresh(r.value) && r.value.Valid() && r.value.state == Unknown
    ensures r.Ok? ==> r.value.failureThreshold == failureThreshold && r.value.recoveryThreshold == recoveryThreshold
  {
    if failureThreshold < 1 {
      return Err(FailureThresholdTooSmall);
    }
    if recoveryThreshold < 1 {
      return Err(RecoveryThresholdTooSmall);
    }
    var tracker := new ConnectivityTracker(failureThreshold, recoveryThreshold, now);
    r := Ok(tracker);
  }
}
