/** What the driver's error counter and its connectivity tracker see of a block read. */
module PollingCounters {
  import opened Basics
  import opened ModbusCodec
  import opened ReadPlanner
  import opened Polling

  /** How many transactions were refused. */
  function Refusals(outcomes: seq<bool>): nat {
    if outcomes == [] then 0 else Refusals(outcomes[..|outcomes| - 1]) + if outcomes[|outcomes| - 1] then 0 else 1
  }

  lemma RefusalsSnoc(o: seq<bool>, ok: bool)
    ensures Refusals(o + [ok]) == Refusals(o) + if ok then 0 else 1
  {
    assert (o + [ok])[..|o|] == o;
  }

  lemma {:induction false} RefusalsCons(o: seq<bool>, ok: bool)
    ensures Refusals([ok] + o) == Refusals(o) + if ok then 0 else 1
  {
    if o == [] {
      assert [ok] + o == [] + [ok];
      RefusalsSnoc([], ok);
    } else {
      var front, last := o[..|o| - 1], o[|o| - 1];
      RefusalsCons(front, ok);
      assert [ok] + o == ([ok] + front) + [last];
      RefusalsSnoc([ok] + front, last);
    }
  }

  lemma {:induction false} SingleErrorsSplit(d: Device, f: ReadFunction, tags: seq<PlannedTag>, cost: nat)
    ensures SingleErrors(d, f, tags, cost) == SingleErrors(d, f, tags, 0) + cost * Refusals(SingleOutcomes(d, f, tags))
  {
    if tags != [] {
      var front, last := tags[..|tags| - 1], tags[|tags| - 1];
      SingleErrorsSplit(d, f, front, cost);
      RefusalsSnoc(SingleOutcomes(d, f, front), d.Reads(f, last.tag.address, last.span));
      OneMore(cost, Refusals(SingleOutcomes(d, f, front)));
    }
  }

  lemma OneMore(cost: nat, n: nat)
    ensures cost * (n + 1) == cost * n + cost && cost * 0 == 0
  {
  }

  /** Errors are one for every bad update, and the retries of every refused transaction on top. */
  lemma RetriesCounted(d: Device, b: ReadBlock, cost: nat)
    requires WellFormed(b)
    ensures Errors(d, b, cost) == |b.tags| - CountGood(Updates(d, b)) + cost * Refusals(Outcomes(d, b))
  {
    CountersMatchUpdates(d, b);
    ErrorsSplit(d, b, cost);
  }

  lemma ErrorsSplit(d: Device, b: ReadBlock, cost: nat)
    requires WellFormed(b)
    ensures Errors(d, b, cost) == Errors(d, b, 0) + cost * Refusals(Outcomes(d, b))
  {
    var ok := d.Reads(b.readFunction, b.address, b.quantity);
    OneMore(cost, 0);
    if ok || |b.tags| == 1 {
      RefusalsSnoc([], ok);
      assert [] + [ok] == [ok];
    } else {
      SingleErrorsSplit(d, b.readFunction, b.tags, cost);
      RefusalsCons(SingleOutcomes(d, b.readFunction, b.tags), false);
      OneMore(cost, Refusals(SingleOutcomes(d, b.readFunction, b.tags)));
    }
  }

  lemma {:induction false} SingleOutcomesAt(d: Device, f: ReadFunction, tags: seq<PlannedTag>, i: nat)
    requires i < |tags|
    ensures SingleOutcomes(d, f, tags)[i] == d.Reads(f, tags[i].tag.address, tags[i].span)
  {
    if i < |tags| - 1 {
      SingleOutcomesAt(d, f, tags[..|tags| - 1], i);
    }
  }

  /** The transactions of a block read: the block, and if it is refused and holds several tags, then each of them. */
  lemma TransactionsOf(d: Device, b: ReadBlock)
    requires WellFormed(b)
    ensures
      var o, ok := Outcomes(d, b), d.Reads(b.readFunction, b.address, b.quantity);
      && |o| == (if ok || |b.tags| == 1 then 1 else 1 + |b.tags|) && o[0] == ok
      && forall i | 0 <= i < |o| - 1 :: o[i + 1] == (AloneAll(d, b.tags)[i].quality == Good)
  {
    if !d.Reads(b.readFunction, b.address, b.quantity) && |b.tags| > 1 {
      forall i | 0 <= i < |b.tags|
        ensures Outcomes(d, b)[i + 1] == (AloneAll(d, b.tags)[i].quality == Good)
      {
        assert Placed(b.tags[i], b);
        SingleOutcomesAt(d, b.readFunction, b.tags, i);
        AloneAt(d, b.tags, i);
      }
    }
  }
}
