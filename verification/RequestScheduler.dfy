/**
 The write-priority request scheduler: one queue, one consumer. Every interleaving of submitting,
 taking, finishing, cancelling and stopping is covered by an invariant over the trace of events, and
 the ordering promises are read off that invariant.
 */
module RequestScheduler {
  import opened Basics

  /** The priority of writes; reads use ten, and a lower number goes first. */
  const WRITE := 0

  datatype Request = Request(priority: int, number: nat)

  /** What the trace records: a request queued, started or finished, or the consumer task ended. */
  datatype Event = Submit(r: Request) | Start(r: Request) | Finish(r: Request) | Halt

  datatype Future = Pending | Cancelled | Result | Exception | SchedulerStopped

  /** Queue order: priority band first, submission order within it. */
  predicate Less(x: Request, y: Request) {
    x.priority < y.priority || (x.priority == y.priority && x.number < y.number)
  }

  // ---------- the invariant over every run ----------

  /** The request in flight after a trace, if any. */
  function InFlight(trace: seq<Event>): Option<Request> {
    if trace == [] then None
    else match trace[|trace| - 1]
      case Submit(_) => InFlight(trace[..|trace| - 1])
      case Start(r) => Some(r)
      case Finish(_) => None
      case Halt => None
  }

  /** Submissions are numbered in order, below `counter`. */
  ghost predicate Numbered(trace: seq<Event>, counter: nat) {
    && (forall i | 0 <= i < |trace| && trace[i].Submit? :: trace[i].r.number < counter)
    && forall i, j | 0 <= i < j < |trace| && trace[i].Submit? && trace[j].Submit? :: trace[i].r.number < trace[j].r.number
  }

  /** Whatever starts while `r` waits comes before it in queue order. */
  ghost predicate Overtaken(trace: seq<Event>, r: Request) {
    forall i, k | 0 <= i < k < |trace| && trace[i] == Submit(r) && trace[k].Start? :: Less(trace[k].r, r)
  }

  ghost predicate Submitted(trace: seq<Event>, r: Request) {
    exists i | 0 <= i < |trace| :: trace[i] == Submit(r)
  }

  ghost predicate Started(trace: seq<Event>, r: Request) {
    exists i | 0 <= i < |trace| :: trace[i] == Start(r)
  }

  /** At its start a request was queued, not yet started, nothing was in flight, and it was not overtaken. */
  ghost predicate GoodStart(trace: seq<Event>, j: nat)
    requires j < |trace| && trace[j].Start?
  {
    var before, r := trace[..j], trace[j].r;
    InFlight(before) == None && Submitted(before, r) && !Started(before, r) && Overtaken(before, r)
  }

  ghost predicate GoodTrace(trace: seq<Event>, counter: nat) {
    Numbered(trace, counter) && forall j | 0 <= j < |trace| && trace[j].Start? :: GoodStart(trace, j)
  }

  /** The queue holds submitted requests that have not started and that nothing has overtaken. */
  ghost predicate GoodQueue(queue: seq<Request>, trace: seq<Event>) {
    forall i | 0 <= i < |queue| :: Submitted(trace, queue[i]) && !Started(trace, queue[i]) && Overtaken(trace, queue[i])
  }

  ghost predicate Inv(queue: seq<Request>, counter: nat, flying: Option<Request>, trace: seq<Event>) {
    && GoodTrace(trace, counter) && GoodQueue(queue, trace) && flying == InFlight(trace)
    && forall i, j | 0 <= i < j < |queue| :: queue[i] != queue[j]
  }

  // ---------- what every step keeps ----------

  lemma GoodStartsKept(trace: seq<Event>, e: Event, j: nat)
    requires j < |trace| && trace[j].Start?
    ensures GoodStart(trace + [e], j) <==> GoodStart(trace, j)
  {
    assert (trace + [e])[..j] == trace[..j];
  }

  lemma OvertakenSnoc(trace: seq<Event>, e: Event, r: Request)
    requires Overtaken(trace, r) && (e.Start? ==> Less(e.r, r))
    ensures Overtaken(trace + [e], r)
  {
  }

  lemma NotOvertakenYet(trace: seq<Event>, counter: nat, r: Request)
    requires Numbered(trace, counter) && r.number >= counter
    ensures !Submitted(trace, r) && Overtaken(trace + [Submit(r)], r)
  {
  }

  lemma GoodTraceSnoc(trace: seq<Event>, counter: nat, e: Event)
    requires GoodTrace(trace, counter) && !e.Submit?
    requires e.Start? ==> InFlight(trace) == None && Submitted(trace, e.r) && !Started(trace, e.r) && Overtaken(trace, e.r)
    ensures GoodTrace(trace + [e], counter)
  {
    var t := trace + [e];
    forall j | 0 <= j < |t| && t[j].Start?
      ensures GoodStart(t, j)
    {
      if j < |trace| {
        GoodStartsKept(trace, e, j);
      } else {
        assert t[..j] == trace;
      }
    }
  }

  lemma SubmitKeeps(queue: seq<Request>, counter: nat, flying: Option<Request>, trace: seq<Event>, r: Request)
    requires Inv(queue, counter, flying, trace) && r.number == counter
    ensures Inv(queue + [r], counter + 1, flying, trace + [Submit(r)])
  {
    var t := trace + [Submit(r)];
    assert t[..|trace|] == trace;
    NotOvertakenYet(trace, counter, r);
    forall j | 0 <= j < |t| && t[j].Start?
      ensures GoodStart(t, j)
    {
      GoodStartsKept(trace, Submit(r), j);
    }
    forall i | 0 <= i < |queue|
      ensures Submitted(t, queue[i]) && !Started(t, queue[i]) && Overtaken(t, queue[i]) && queue[i] != r
    {
      var k :| 0 <= k < |trace| && trace[k] == Submit(queue[i]);
      assert t[k] == Submit(queue[i]);
      OvertakenSnoc(trace, Submit(r), queue[i]);
    }
    assert t[|trace|] == Submit(r);
    StartedWasSubmitted(trace, counter, r);
  }

  lemma StartedWasSubmitted(trace: seq<Event>, counter: nat, r: Request)
    requires GoodTrace(trace, counter)
    ensures Started(trace, r) ==> Submitted(trace, r)
  {
    if Started(trace, r) {
      var j :| 0 <= j < |trace| && trace[j] == Start(r);
      assert GoodStart(trace, j);
      var k :| 0 <= k < j && trace[..j][k] == Submit(r);
      assert trace[k] == Submit(r);
    }
  }

  /** Taking the least queued request keeps the invariant: nothing it overtakes was ahead of it. */
  lemma TakeKeeps(queue: seq<Request>, counter: nat, trace: seq<Event>, k: nat)
    requires Inv(queue, counter, None, trace) && k < |queue|
    requires forall i | 0 <= i < |queue| :: !Less(queue[i], queue[k])
    ensures Inv(queue[..k] + queue[k + 1..], counter, Some(queue[k]), trace + [Start(queue[k])])
  {
    var r, rest, e := queue[k], queue[..k] + queue[k + 1..], Start(queue[k]);
    GoodTraceSnoc(trace, counter, e);
    forall i | 0 <= i < |rest|
      ensures Submitted(trace + [e], rest[i]) && !Started(trace + [e], rest[i]) && Overtaken(trace + [e], rest[i])
    {
      var q := if i < k then i else i + 1;
      assert rest[i] == queue[q];
      Ordered(trace, counter, r, rest[i]);
      QueuedKept(trace, e, rest[i]);
    }
  }

  lemma QueuedKept(trace: seq<Event>, e: Event, r: Request)
    requires Submitted(trace, r) && !Started(trace, r) && Overtaken(trace, r)
    requires e.Start? ==> Less(e.r, r)
    ensures Submitted(trace + [e], r) && !Started(trace + [e], r) && Overtaken(trace + [e], r)
  {
    var k :| 0 <= k < |trace| && trace[k] == Submit(r);
    assert (trace + [e])[k] == Submit(r);
    OvertakenSnoc(trace, e, r);
  }

  /** Two different submitted requests are always ordered, by number if not by priority. */
  lemma Ordered(trace: seq<Event>, counter: nat, x: Request, y: Request)
    requires Numbered(trace, counter) && Submitted(trace, x) && Submitted(trace, y) && x != y
    ensures Less(x, y) || Less(y, x)
  {
    var i :| 0 <= i < |trace| && trace[i] == Submit(x);
    var j :| 0 <= j < |trace| && trace[j] == Submit(y);
    assert i < j || j < i;
  }

  lemma DropKeeps(queue: seq<Request>, counter: nat, flying: Option<Request>, trace: seq<Event>, k: nat)
    requires Inv(queue, counter, flying, trace) && k < |queue|
    ensures Inv(queue[..k] + queue[k + 1..], counter, flying, trace)
  {
    var rest := queue[..k] + queue[k + 1..];
    forall i | 0 <= i < |rest|
      ensures rest[i] == queue[if i < k then i else i + 1]
    {
    }
  }

  /** Finishing, or losing the consumer task, empties the connection. */
  lemma LandKeeps(queue: seq<Request>, counter: nat, flying: Option<Request>, trace: seq<Event>, e: Event)
    requires Inv(queue, counter, flying, trace) && (e.Finish? || e.Halt?)
    ensures Inv(queue, counter, None, trace + [e])
  {
    GoodTraceSnoc(trace, counter, e);
    forall i | 0 <= i < |queue|
      ensures Submitted(trace + [e], queue[i]) && !Started(trace + [e], queue[i]) && Overtaken(trace + [e], queue[i])
    {
      QueuedKept(trace, e, queue[i]);
    }
  }

  // ---------- what the invariant promises ----------

  /** No request is started twice. */
  lemma StartsOnce(trace: seq<Event>, counter: nat, i: nat, j: nat)
    requires GoodTrace(trace, counter) && i < j < |trace| && trace[i].Start? && trace[j].Start?
    ensures trace[i].r != trace[j].r
  {
    assert GoodStart(trace, j);
    assert trace[..j][i] == trace[i];
  }

  /** Between two starts the first request finished, or the consumer task ended. */
  lemma OneInFlight(trace: seq<Event>, counter: nat, i: nat, j: nat)
    requires GoodTrace(trace, counter) && i < j < |trace| && trace[i].Start? && trace[j].Start?
    ensures exists k | i < k < j :: trace[k].Finish? || trace[k].Halt?
  {
    assert GoodStart(trace, j);
    var before := trace[..j];
    assert before[i].Start?;
    var k := Landed(before, i);
    assert before[k] == trace[k];
  }

  lemma {:induction false} Landed(trace: seq<Event>, i: nat) returns (k: nat)
    requires i < |trace| && trace[i].Start? && InFlight(trace) == None
    ensures i < k < |trace| && (trace[k].Finish? || trace[k].Halt?)
  {
    k := |trace| - 1;
    if trace[k].Submit? {
      k := Landed(trace[..k], i);
    }
  }

  /**
   Nothing overtakes: whatever starts between a request's submission and its own start comes before it in
   queue order. For a write this leaves only earlier-submitted writes.
   */
  lemma NothingOvertakes(trace: seq<Event>, counter: nat, i: nat, k: nat, j: nat)
    requires GoodTrace(trace, counter) && i < k < j < |trace|
    requires trace[i].Submit? && trace[k].Start? && trace[j] == Start(trace[i].r)
    ensures Less(trace[k].r, trace[i].r)
    ensures trace[i].r.priority == WRITE && trace[k].r.priority >= WRITE ==>
              trace[k].r.priority == WRITE && trace[k].r.number < trace[i].r.number
  {
    assert GoodStart(trace, j);
    var before := trace[..j];
    assert before[i] == Submit(trace[i].r) && before[k].Start?;
  }

  /** Requests of one priority start in the order they were submitted. */
  lemma SamePriorityInOrder(trace: seq<Event>, counter: nat, x: nat, y: nat)
    requires GoodTrace(trace, counter) && x < |trace| && y < |trace| && trace[x].Start? && trace[y].Start?
    requires trace[x].r.priority == trace[y].r.priority && trace[x].r.number < trace[y].r.number
    ensures x < y
  {
    if y < x {
      var i := SubmittedAt(trace, counter, x);
      var k := SubmittedAt(trace, counter, y);
      assert i < k;
      NothingOvertakes(trace, counter, i, y, x);
    }
  }

  lemma SubmittedAt(trace: seq<Event>, counter: nat, j: nat) returns (k: nat)
    requires GoodTrace(trace, counter) && j < |trace| && trace[j].Start?
    ensures k < j && trace[k] == Submit(trace[j].r)
  {
    assert GoodStart(trace, j);
    k :| k < j && trace[..j][k] == Submit(trace[j].r);
  }

  // ---------- the scheduler ----------

  datatype Consumer = Absent | Running | Dead

  predicate Waiting(queue: seq<Request>, n: nat) {
    exists i | 0 <= i < |queue| :: queue[i].number == n
  }

  /** A caller still waits only for a queued request, the one in flight, or one abandoned in flight. */
  ghost predicate Accounted(queue: seq<Request>, flying: Option<Request>, abandoned: set<nat>, futures: map<nat, Future>) {
    forall n | n in futures && futures[n] == Pending ::
      Waiting(queue, n) || (flying.Some? && flying.value.number == n) || n in abandoned
  }

  /** The queue, the connection and the abandoned requests have no request in common. */
  ghost predicate Apart(queue: seq<Request>, flying: Option<Request>, abandoned: set<nat>) {
    && (forall n | n in abandoned :: !Waiting(queue, n) && (flying.Some? ==> flying.value.number != n))
    && (flying.Some? ==> !Waiting(queue, flying.value.number))
  }

  /** Every submission has a future, and every pending future has exactly one place where its request is. */
  ghost predicate Books(queue: seq<Request>, counter: nat, flying: Option<Request>, abandoned: set<nat>, futures: map<nat, Future>) {
    && (forall n: nat :: n in futures <==> n < counter)
    && (forall n: nat | Waiting(queue, n) || n in abandoned :: n < counter)
    && (flying.Some? ==> flying.value.number < counter)
    && Accounted(queue, flying, abandoned, futures) && Apart(queue, flying, abandoned)
  }

  lemma DropWaiting(queue: seq<Request>, k: nat, n: nat)
    requires k < |queue| && queue[k].number != n
    ensures Waiting(queue[..k] + queue[k + 1..], n) <==> Waiting(queue, n)
  {
    var rest := queue[..k] + queue[k + 1..];
    if i :| 0 <= i < |queue| && queue[i].number == n {
      assert rest[if i < k then i else i - 1] == queue[i];
    }
    if i :| 0 <= i < |rest| && rest[i].number == n {
      assert rest[i] == queue[if i < k then i else i + 1];
    }
  }

  lemma AddWaiting(queue: seq<Request>, r: Request, n: nat)
    ensures Waiting(queue + [r], n) <==> Waiting(queue, n) || r.number == n
  {
    var more := queue + [r];
    assert more[|queue|] == r;
    if i :| 0 <= i < |queue| && queue[i].number == n {
      assert more[i].number == n;
    }
    if i :| 0 <= i < |more| && more[i].number == n {
      assert i == |queue| || queue[i] == more[i];
    }
  }

  lemma BooksSubmit(queue: seq<Request>, counter: nat, flying: Option<Request>, abandoned: set<nat>, futures: map<nat, Future>, r: Request)
    requires Books(queue, counter, flying, abandoned, futures) && r.number == counter
    ensures Books(queue + [r], counter + 1, flying, abandoned, futures[r.number := Pending])
  {
    forall n: nat
      ensures Waiting(queue + [r], n) <==> Waiting(queue, n) || r.number == n
    {
      AddWaiting(queue, r, n);
    }
  }

  /** The dequeued number is queued nowhere else. */
  lemma TakenOnce(queue: seq<Request>, counter: nat, flying: Option<Request>, trace: seq<Event>, k: nat)
    requires Inv(queue, counter, flying, trace) && k < |queue|
    ensures !Waiting(queue[..k] + queue[k + 1..], queue[k].number)
  {
    var rest := queue[..k] + queue[k + 1..];
    forall i | 0 <= i < |rest|
      ensures rest[i].number != queue[k].number
    {
      var q := if i < k then i else i + 1;
      assert rest[i] == queue[q];
      SameNumber(trace, counter, queue[q], queue[k]);
    }
  }

  lemma SameNumber(trace: seq<Event>, counter: nat, x: Request, y: Request)
    requires Numbered(trace, counter) && Submitted(trace, x) && Submitted(trace, y)
    ensures x.number == y.number ==> x == y
  {
    var i :| 0 <= i < |trace| && trace[i] == Submit(x);
    var j :| 0 <= j < |trace| && trace[j] == Submit(y);
    assert i < j || j < i || i == j;
  }

  /** Taking a request off the queue: it flies if `fly`, and otherwise its caller has given up. */
  lemma BooksTake(queue: seq<Request>, counter: nat, abandoned: set<nat>, futures: map<nat, Future>, k: nat, fly: bool)
    requires Books(queue, counter, None, abandoned, futures) && k < |queue|
    requires !Waiting(queue[..k] + queue[k + 1..], queue[k].number)
    requires !fly ==> queue[k].number in futures && futures[queue[k].number] != Pending
    ensures Books(queue[..k] + queue[k + 1..], counter, if fly then Some(queue[k]) else None, abandoned, futures)
  {
    var rest := queue[..k] + queue[k + 1..];
    assert Waiting(queue, queue[k].number);
    forall n: nat | n != queue[k].number
      ensures Waiting(rest, n) <==> Waiting(queue, n)
    {
      DropWaiting(queue, k, n);
    }
  }

  lemma BooksResolved(queue: seq<Request>, counter: nat, r: Request, abandoned: set<nat>, futures: map<nat, Future>, f: Future)
    requires Books(queue, counter, Some(r), abandoned, futures) && f != Pending
    ensures Books(queue, counter, None, abandoned, futures[r.number := f])
  {
  }

  /** The request in flight is abandoned, its future as it is. */
  lemma BooksAbandoned(queue: seq<Request>, counter: nat, r: Request, abandoned: set<nat>, futures: map<nat, Future>)
    requires Books(queue, counter, Some(r), abandoned, futures)
    ensures Books(queue, counter, None, abandoned + {r.number}, futures)
  {
  }

  /** The futures once every request in the queue is failed: those already resolved or cancelled stay as they are. */
  function Failed(queue: seq<Request>, futures: map<nat, Future>): map<nat, Future> {
    map n | n in futures :: if Waiting(queue, n) && futures[n] == Pending then SchedulerStopped else futures[n]
  }

  function FailedAt(futures: map<nat, Future>, n: nat): map<nat, Future>
    requires n in futures
  {
    futures[n := if futures[n] == Pending then SchedulerStopped else futures[n]]
  }

  lemma FailedStep(queue: seq<Request>, k: nat, futures: map<nat, Future>)
    requires k < |queue| && queue[k].number in futures
    ensures Failed(queue[..k] + queue[k + 1..], FailedAt(futures, queue[k].number)) == Failed(queue, futures)
  {
    forall n: nat | n != queue[k].number
      ensures Waiting(queue[..k] + queue[k + 1..], n) <==> Waiting(queue, n)
    {
      DropWaiting(queue, k, n);
    }
    assert Waiting(queue, queue[k].number);
  }

  /** With everything in flight abandoned and the queue failed, exactly the abandoned ones can still be pending. */
  lemma PendingAfterStop(queue: seq<Request>, counter: nat, flying: Option<Request>, abandoned: set<nat>, futures: map<nat, Future>, n: nat)
    requires Books(queue, counter, flying, abandoned, futures) && n < counter
    ensures Failed(queue, futures)[n] == Pending <==>
              futures[n] == Pending && (n in abandoned || (flying.Some? && flying.value.number == n))
  {
  }

  /** The position of the request that comes first in queue order. */
  method Least(queue: seq<Request>) returns (k: nat)
    requires queue != []
    ensures k < |queue| && forall i | 0 <= i < |queue| :: !Less(queue[i], queue[k])
  {
    k := 0;
    for j := 1 to |queue|
      invariant k < |queue| && forall i | 0 <= i < j :: !Less(queue[i], queue[k])
    {
      if Less(queue[j], queue[k]) {
        k := j;
      }
    }
  }

  class Scheduler {
    var queue: seq<Request>
    var counter: nat
    var consumer: Consumer
    var flying: Option<Request>
    var futures: map<nat, Future>
    ghost var trace: seq<Event>
    ghost var abandoned: set<nat>

    ghost predicate Valid()
      reads this
    {
      && Inv(queue, counter, flying, trace) && Books(queue, counter, flying, abandoned, futures)
      && (flying.Some? ==> consumer == Running)
    }

    constructor ()
      ensures Valid() && trace == [] && queue == [] && consumer == Absent && counter == 0 && abandoned == {} && flying == None
    {
      queue, counter, consumer, flying, futures := [], 0, Absent, None, map[];
      trace, abandoned := [], {};
    }

    method StartConsumer()
      requires Valid()
      modifies this`consumer
      ensures Valid() && consumer == if old(consumer) == Absent then Running else old(consumer)
    {
      if consumer == Absent {
        consumer := Running;
      }
    }

    method Submit(priority: int) returns (r: Request)
      requires Valid()
      modifies this`queue, this`counter, this`futures, this`trace
      ensures Valid() && r == Request(priority, old(counter)) && queue == old(queue) + [r]
      ensures counter == old(counter) + 1 && futures == old(futures)[r.number := Pending]
      ensures trace == old(trace) + [Event.Submit(r)]
    {
      r := Request(priority, counter);
      SubmitKeeps(queue, counter, flying, trace, r);
      BooksSubmit(queue, counter, flying, abandoned, futures, r);
      queue, counter, futures, trace := queue + [r], counter + 1, futures[r.number := Pending], trace + [Event.Submit(r)];
    }

    /** The caller gives up waiting; the request itself stays where it is. */
    method Cancel(n: nat)
      requires Valid() && n < counter
      modifies this`futures
      ensures Valid() && futures == old(futures)[n := if old(futures)[n] == Pending then Cancelled else old(futures)[n]]
    {
      if futures[n] == Pending {
        futures := futures[n := Cancelled];
      }
    }

    /** One turn of the consumer loop up to the point where the request is awaited. */
    method Take()
      requires Valid() && consumer == Running && flying == None && queue != []
      modifies this`queue, this`flying, this`trace
      ensures Valid()
      ensures exists k | 0 <= k < |old(queue)| ::
                && (forall i | 0 <= i < |old(queue)| :: !Less(old(queue)[i], old(queue)[k]))
                && queue == old(queue)[..k] + old(queue)[k + 1..]
                && (if futures[old(queue)[k].number] == Cancelled then flying == None && trace == old(trace)
                    else flying == Some(old(queue)[k]) && trace == old(trace) + [Start(old(queue)[k])])
    {
      var k := Least(queue);
      var r := queue[k];
      assert Waiting(queue, r.number);
      TakenOnce(queue, counter, flying, trace, k);
      BooksTake(queue, counter, abandoned, futures, k, futures[r.number] != Cancelled);
      if futures[r.number] == Cancelled {
        DropKeeps(queue, counter, flying, trace, k);
        queue := queue[..k] + queue[k + 1..];
      } else {
        TakeKeeps(queue, counter, trace, k);
        queue, flying, trace := queue[..k] + queue[k + 1..], Some(r), trace + [Start(r)];
      }
    }

    /** The awaited request returned a result or raised an exception. */
    method Finish(outcome: Future)
      requires Valid() && flying.Some? && (outcome == Result || outcome == Exception)
      modifies this`flying, this`futures, this`trace
      ensures Valid() && flying == None && trace == old(trace) + [Event.Finish(old(flying).value)]
      ensures var n := old(flying).value.number;
              futures == old(futures)[n := if old(futures)[n] == Pending then outcome else old(futures)[n]]
    {
      var r := flying.value;
      var f := if futures[r.number] == Pending then outcome else futures[r.number];
      LandKeeps(queue, counter, flying, trace, Event.Finish(r));
      BooksResolved(queue, counter, r, abandoned, futures, f);
      futures, flying, trace := futures[r.number := f], None, trace + [Event.Finish(r)];
    }

    /** A cancellation raised inside the awaited request ends the consumer task; nobody resolves the future. */
    method Die()
      requires Valid() && flying.Some?
      modifies this`flying, this`consumer, this`trace, this`abandoned
      ensures Valid() && consumer == Dead && flying == None && trace == old(trace) + [Halt]
      ensures abandoned == old(abandoned) + {old(flying).value.number}
    {
      CancelConsumer();
      consumer := Dead;
    }

    method CancelConsumer()
      requires Valid()
      modifies this`consumer, this`flying, this`trace, this`abandoned
      ensures Valid() && flying == None && consumer == Absent && trace == old(trace) + [Halt]
      ensures abandoned == old(abandoned) + if old(flying).Some? then {old(flying).value.number} else {}
    {
      LandKeeps(queue, counter, flying, trace, Halt);
      if flying.Some? {
        BooksAbandoned(queue, counter, flying.value, abandoned, futures);
        abandoned := abandoned + {flying.value.number};
      }
      flying, consumer, trace := None, Absent, trace + [Halt];
    }

    /**
     Every queued request is resolved and none is left. A caller still waits afterwards if and only if it waited
     before and its request was in flight, or had been abandoned in flight earlier.
     */
    method Stop()
      requires Valid()
      modifies this`queue, this`consumer, this`flying, this`futures, this`trace, this`abandoned
      ensures Valid() && queue == [] && flying == None && consumer == Absent && trace == old(trace) + [Halt]
      ensures futures == Failed(old(queue), old(futures))
      ensures abandoned == old(abandoned) + if old(flying).Some? then {old(flying).value.number} else {}
      ensures forall n: nat | n < counter :: futures[n] == Pending <==>
                old(futures)[n] == Pending && (n in old(abandoned) || (old(flying).Some? && old(flying).value.number == n))
    {
      forall n: nat | n < counter
        ensures Failed(queue, futures)[n] == Pending <==>
                  futures[n] == Pending && (n in abandoned || (flying.Some? && flying.value.number == n))
      {
        PendingAfterStop(queue, counter, flying, abandoned, futures, n);
      }
      CancelConsumer();
      FailQueued();
    }

    method FailQueued()
      requires Valid() && flying == None
      modifies this`queue, this`futures
      ensures Valid() && queue == [] && futures == Failed(old(queue), old(futures))
    {
      while queue != []
        invariant Valid() && Failed(queue, futures) == Failed(old(queue), old(futures))
        decreases |queue|
      {
        FailNext();
      }
      assert futures == Failed([], futures);
    }

    method FailNext()
      requires Valid() && queue != [] && flying == None
      modifies this`queue, this`futures
      ensures Valid() && |queue| < |old(queue)| && Failed(queue, futures) == Failed(old(queue), old(futures))
    {
      var k := Least(queue);
      var n := queue[k].number;
      assert Waiting(queue, n);
      DropKeeps(queue, counter, flying, trace, k);
      TakenOnce(queue, counter, flying, trace, k);
      FailedStep(queue, k, futures);
      BooksFail(queue, counter, abandoned, futures, k);
      futures := FailedAt(futures, n);
      queue := queue[..k] + queue[k + 1..];
    }
  }

  lemma BooksFail(queue: seq<Request>, counter: nat, abandoned: set<nat>, futures: map<nat, Future>, k: nat)
    requires Books(queue, counter, None, abandoned, futures) && k < |queue| && queue[k].number in futures
    requires !Waiting(queue[..k] + queue[k + 1..], queue[k].number)
    ensures Books(queue[..k] + queue[k + 1..], counter, None, abandoned, FailedAt(futures, queue[k].number))
  {
    var failed := FailedAt(futures, queue[k].number);
    assert Books(queue, counter, None, abandoned, failed);
    BooksTake(queue, counter, abandoned, failed, k, false);
  }

  // ---------- whole lives of a scheduler ----------

  datatype Call = DoStart | DoSubmit(priority: int) | DoCancel(n: nat) | DoTake | DoFinish(ok: bool) | DoDie | DoStop

  /** All that happened from `before` to `after` is that requests were queued. */
  predicate OnlySubmits(before: seq<Event>, after: seq<Event>) {
    |before| <= |after| && after[..|before|] == before && forall i | |before| <= i < |after| :: after[i].Submit?
  }

  /** Abandoned futures are as they were, but for those in `cancelled`; numbers are never reused. */
  twostate predicate Stranded(s: Scheduler, cancelled: set<nat>)
    reads s
  {
    && old(s.counter) <= s.counter && old(s.abandoned) <= s.abandoned
    && forall n: nat | n in old(s.abandoned) && n !in cancelled && n in old(s.futures) :: n in s.futures && s.futures[n] == old(s.futures)[n]
  }

  /** A dead consumer is still dead, and all that happened is that requests were queued. */
  twostate predicate Starved(s: Scheduler)
    reads s
  {
    old(s.consumer) == Dead ==> s.consumer == Dead && OnlySubmits(old(s.trace), s.trace) && old(s.queue) <= s.queue
  }

  /** A call from outside, other than a stop. */
  method PerformCall(s: Scheduler, c: Call)
    requires s.Valid() && (c.DoStart? || c.DoSubmit? || c.DoCancel?)
    modifies s
    ensures s.Valid() && Stranded(s, if c.DoCancel? then {c.n} else {}) && Starved(s)
  {
    match c
    case DoStart => s.StartConsumer();
    case DoSubmit(priority) => PerformSubmit(s, priority);
    case DoCancel(n) =>
      if n < s.counter {
        s.Cancel(n);
      }
    case _ =>
  }

  method PerformSubmit(s: Scheduler, priority: int)
    requires s.Valid()
    modifies s
    ensures s.Valid() && Stranded(s, {}) && Starved(s)
  {
    ghost var trace, queue, futures, n := s.trace, s.queue, s.futures, s.counter;
    OneSubmit(trace, queue, Request(priority, n));
    assert n !in futures;
    var r := s.Submit(priority);
  }

  lemma OneSubmit(trace: seq<Event>, queue: seq<Request>, r: Request)
    ensures OnlySubmits(trace, trace + [Submit(r)]) && queue <= queue + [r]
  {
  }

  /** The consumer's next move, if it is possible. */
  method PerformMove(s: Scheduler, c: Call)
    requires s.Valid() && (c.DoTake? || c.DoFinish? || c.DoDie?)
    modifies s
    ensures s.Valid() && Stranded(s, {}) && Starved(s)
  {
    if c.DoTake? && s.consumer == Running && s.flying == None && s.queue != [] {
      s.Take();
    } else if c.DoFinish? && s.flying.Some? {
      s.Finish(if c.ok then Result else Exception);
    } else if c.DoDie? && s.flying.Some? {
      s.Die();
    }
  }

  /** One call, or one move of the consumer. */
  method Perform(s: Scheduler, c: Call)
    requires s.Valid()
    modifies s
    ensures s.Valid() && Stranded(s, if c.DoCancel? then {c.n} else {}) && (c != DoStop ==> Starved(s))
  {
    if c == DoStop {
      s.Stop();
    } else if c.DoStart? || c.DoSubmit? || c.DoCancel? {
      PerformCall(s, c);
    } else {
      PerformMove(s, c);
    }
  }

  /**
   Over any run of calls: a future whose request was abandoned in flight stays as it is unless its caller cancels
   it, so a caller who waits for it waits forever; and once the consumer task has died nothing is started or
   taken off the queue any more, however often it is started again, until a stop.
   */
  method Drive(s: Scheduler, calls: seq<Call>)
    requires s.Valid()
    modifies s
    ensures s.Valid() && Stranded(s, CancelledIn(calls)) && (DoStop !in calls ==> Starved(s))
  {
    for i := 0 to |calls|
      invariant s.Valid() && Stranded(s, CancelledIn(calls)) && (DoStop !in calls ==> Starved(s))
    {
      assert calls[i] in calls;
      Perform(s, calls[i]);
    }
  }

  function CancelledIn(calls: seq<Call>): set<nat> {
    set c | c in calls && c.DoCancel? :: c.n
  }

  method FirstQueued(priority: int) returns (s: Scheduler)
    ensures fresh(s) && s.Valid() && s.consumer == Running && s.flying == None && s.queue == [Request(priority, 0)]
    ensures s.counter == 1 && s.futures[0] == Pending
  {
    s := new Scheduler();
    s.StartConsumer();
    var r := s.Submit(priority);
  }

  method FirstInFlight(priority: int) returns (s: Scheduler)
    ensures fresh(s) && s.Valid() && s.flying == Some(Request(priority, 0)) && s.counter == 1 && s.futures[0] == Pending
  {
    s := FirstQueued(priority);
    s.Take();
  }

  /** A scheduler stopped with its first request in flight. */
  method StopInFlight(priority: int) returns (s: Scheduler)
    ensures fresh(s) && s.Valid() && 0 in s.abandoned && s.counter == 1 && s.futures[0] == Pending
  {
    s := FirstInFlight(priority);
    s.Stop();
  }

  /** Stopping while a request is in flight leaves its caller waiting, whatever happens afterwards. */
  method StopStrandsCaller(priority: int, calls: seq<Call>) returns (s: Scheduler)
    requires DoCancel(0) !in calls
    ensures s.Valid() && s.counter >= 1 && s.futures[0] == Pending
  {
    s := StopInFlight(priority);
    Drive(s, calls);
    assert 0 !in CancelledIn(calls);
  }
}
