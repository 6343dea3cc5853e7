/** The fixed-period poll loop: the deadline of every cycle in closed form. */
module PollTiming {

  /** The loop's deadline update: one interval on, or now if that moment has already passed. */
  function NextDue(due: int, now: int, interval: int): int {
    if now >= due + interval then now else due + interval
  }

  /** The deadline of cycle `k` when cycle j was finished at `finished[j]`. */
  function Due(t0: int, finished: seq<int>, interval: int, k: nat): int
    requires k <= |finished|
  {
    if k == 0 then t0 else NextDue(Due(t0, finished, interval, k - 1), finished[k - 1], interval)
  }

  /** The deadline of cycle `k` if the loop had last been late in cycle `j - 1` (or never, for j = 0). */
  function Candidate(t0: int, finished: seq<int>, interval: int, k: nat, j: nat): int
    requires j <= k <= |finished|
  {
    (if j == 0 then t0 else finished[j - 1]) + (k - j) * interval
  }

  /**
   Every deadline is the latest of these candidates: an overrun is forgiven at once and never
   accumulates, and a deadline never comes early.
   */
  lemma {:induction false} DueClosedForm(t0: int, finished: seq<int>, interval: int, k: nat)
    requires k <= |finished|
    ensures forall j | 0 <= j <= k :: Candidate(t0, finished, interval, k, j) <= Due(t0, finished, interval, k)
    ensures exists j | 0 <= j <= k :: Candidate(t0, finished, interval, k, j) == Due(t0, finished, interval, k)
  {
    if k == 0 {
      assert Candidate(t0, finished, interval, 0, 0) == t0;
    } else {
      DueClosedForm(t0, finished, interval, k - 1);
      forall j | 0 <= j < k
        ensures Candidate(t0, finished, interval, k, j) == Candidate(t0, finished, interval, k - 1, j) + interval
      {
        assert (k - j) * interval == (k - 1 - j) * interval + interval;
      }
      assert Candidate(t0, finished, interval, k, k) == finished[k - 1];
      var i :| 0 <= i <= k - 1 && Candidate(t0, finished, interval, k - 1, i) == Due(t0, finished, interval, k - 1);
      assert Candidate(t0, finished, interval, k, i) == Due(t0, finished, interval, k - 1) + interval;
    }
  }

  /** In particular the k-th deadline is never before t0 + k * interval ... */
  lemma NeverEarly(t0: int, finished: seq<int>, interval: int, k: nat)
    requires k <= |finished|
    ensures Due(t0, finished, interval, k) >= t0 + k * interval
  {
    DueClosedForm(t0, finished, interval, k);
    assert Candidate(t0, finished, interval, k, 0) == t0 + k * interval;
  }

  /** ... and is exactly that if and only if no earlier cycle finished after its share of the schedule. */
  lemma OnScheduleIff(t0: int, finished: seq<int>, interval: int, k: nat)
    requires k <= |finished|
    ensures Due(t0, finished, interval, k) == t0 + k * interval
       <==> forall j | 0 <= j < k :: finished[j] <= t0 + (j + 1) * interval
  {
    DueClosedForm(t0, finished, interval, k);
    assert Candidate(t0, finished, interval, k, 0) == t0 + k * interval;
    forall j | 0 <= j < k
      ensures Candidate(t0, finished, interval, k, j + 1) <= t0 + k * interval <==> finished[j] <= t0 + (j + 1) * interval
    {
      assert (k - (j + 1)) * interval + (j + 1) * interval == k * interval;
    }
    if forall j | 0 <= j < k :: finished[j] <= t0 + (j + 1) * interval {
      forall j | 0 <= j <= k
        ensures Candidate(t0, finished, interval, k, j) <= t0 + k * interval
      {
        if j > 0 {
          assert finished[j - 1] <= t0 + (j - 1 + 1) * interval;
        }
      }
    } else {
      var j :| 0 <= j < k && finished[j] > t0 + (j + 1) * interval;
      assert Candidate(t0, finished, interval, k, j + 1) > t0 + k * interval;
    }
  }

  lemma {:induction false} DueOfPrefix(t0: int, finished: seq<int>, last: int, interval: int, k: nat)
    requires k <= |finished|
    ensures Due(t0, finished + [last], interval, k) == Due(t0, finished, interval, k)
  {
    if k > 0 {
      DueOfPrefix(t0, finished, last, interval, k - 1);
    }
  }

  /** How late cycle k's sleep ended; the first cycle does not sleep. */
  function Late(delays: seq<nat>, k: nat): nat
    requires k <= |delays|
  {
    if k == 0 then 0 else delays[k - 1]
  }

  /** Cycle k starts at its deadline, but for the lateness of its sleep, after its predecessor, and takes its duration. */
  predicate OnTime(t0: int, starts: seq<int>, finished: seq<int>, interval: int, durations: seq<nat>, delays: seq<nat>, k: nat)
    requires k < |starts| == |finished| <= |durations| == |delays|
  {
    && starts[k] == Due(t0, finished, interval, k) + Late(delays, k)
    && finished[k] == starts[k] + durations[k]
    && (k > 0 ==> starts[k] >= finished[k - 1])
  }

  predicate Schedule(t0: int, starts: seq<int>, finished: seq<int>, interval: int, durations: seq<nat>, delays: seq<nat>) {
    && |starts| == |finished| <= |durations| == |delays|
    && forall k | 0 <= k < |starts| :: OnTime(t0, starts, finished, interval, durations, delays, k)
  }

  lemma ScheduleSnoc(t0: int, starts: seq<int>, finished: seq<int>, interval: int, durations: seq<nat>, delays: seq<nat>,
                     start: int)
    requires Schedule(t0, starts, finished, interval, durations, delays) && |starts| < |durations|
    requires start == Due(t0, finished, interval, |starts|) + Late(delays, |starts|)
    requires starts != [] ==> start >= finished[|starts| - 1]
    ensures Schedule(t0, starts + [start], finished + [start + durations[|starts|]], interval, durations, delays)
    ensures Due(t0, finished + [start + durations[|starts|]], interval, |starts| + 1)
         == NextDue(Due(t0, finished, interval, |starts|), start + durations[|starts|], interval)
  {
    var end := start + durations[|starts|];
    var starts', finished' := starts + [start], finished + [end];
    forall k | 0 <= k < |starts'|
      ensures OnTime(t0, starts', finished', interval, durations, delays, k)
    {
      DueOfPrefix(t0, finished, end, interval, k);
      if k < |starts| {
        assert OnTime(t0, starts, finished, interval, durations, delays, k);
      }
    }
    DueOfPrefix(t0, finished, end, interval, |starts|);
  }

  /**
   The loop, over a clock that reading and sleeping move forward: cycle k takes `durations[k]`, and a
   sleep ends `delays[k]` late. Every cycle starts exactly at its deadline, plus that lateness.
   */
  method PollContinuously(t0: int, interval: int, durations: seq<nat>, delays: seq<nat>)
    returns (starts: seq<int>, finished: seq<int>)
    requires |durations| == |delays|
    ensures |starts| == |durations| && Schedule(t0, starts, finished, interval, durations, delays)
  {
    starts, finished := [], [];
    var clock, nextDue := t0, t0;
    for k := 0 to |durations|
      invariant |starts| == k && Schedule(t0, starts, finished, interval, durations, delays)
      invariant nextDue == Due(t0, finished, interval, k) && clock == nextDue + Late(delays, k)
      invariant k > 0 ==> clock >= finished[k - 1]
    {
      ScheduleSnoc(t0, starts, finished, interval, durations, delays, clock);
      starts := starts + [clock];
      clock := clock + durations[k];
      finished := finished + [clock];
      nextDue := nextDue + interval;
      var now := clock;
      if now >= nextDue {
        nextDue := now;
        clock := clock + delays[k];
      } else {
        clock := clock + (nextDue - now) + delays[k];
      }
    }
  }
}
