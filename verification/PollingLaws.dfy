/** Batched reading of a whole tag group means the same as the naive loop over its tags. */
module PollingLaws {
  import opened Basics
  import opened ModbusCodec
  import opened ReadPlanner
  import opened ReadPlanLaws
  import opened Polling

  /** The naive loop: every tag of the group read alone, in configuration order. */
  function Naive(d: Device, tags: seq<Tag>): seq<TagUpdate>
    requires AllKnown(tags)
  {
    if tags == [] then [] else Naive(d, tags[..|tags| - 1]) + [Alone(d, tags[|tags| - 1])]
  }

  // ---------- entries and the tags they stand for ----------

  /** An entry that says of its tag what the planner computed for it. */
  predicate Faithful(e: Entry) {
    e.readFunction == e.tag.readFunction && e.address == e.tag.address && TagSpan(e.tag) == Ok(e.span)
  }

  predicate AllFaithful(es: seq<Entry>) {
    forall i | 0 <= i < |es| :: Faithful(es[i])
  }

  function NaiveEntries(d: Device, es: seq<Entry>): (us: seq<TagUpdate>)
    requires AllFaithful(es)
    ensures |us| == |es|
  {
    if es == [] then []
    else
      assert Faithful(es[|es| - 1]);
      NaiveEntries(d, es[..|es| - 1]) + [Alone(d, es[|es| - 1].tag)]
  }

  lemma {:induction false} EntriesFaithful(d: Device, tags: seq<Tag>)
    requires AllKnown(tags)
    ensures AllFaithful(Entries(tags)) && NaiveEntries(d, Entries(tags)) == Naive(d, tags)
  {
    if tags != [] {
      EntriesFaithful(d, tags[..|tags| - 1]);
      var es := Entries(tags);
      assert es[..|es| - 1] == Entries(tags[..|tags| - 1]);
    }
  }

  lemma NaiveSnoc(d: Device, es: seq<Entry>, e: Entry)
    requires AllFaithful(es) && Faithful(e)
    ensures AllFaithful(es + [e]) && NaiveEntries(d, es + [e]) == NaiveEntries(d, es) + [Alone(d, e.tag)]
  {
    assert (es + [e])[..|es|] == es;
  }

  lemma {:induction false} NaiveAppend(d: Device, a: seq<Entry>, b: seq<Entry>)
    requires AllFaithful(a) && AllFaithful(b)
    ensures AllFaithful(a + b) && NaiveEntries(d, a + b) == NaiveEntries(d, a) + NaiveEntries(d, b)
    decreases |b|
  {
    if b == [] {
      assert a + b == a;
    } else {
      var front, last := b[..|b| - 1], b[|b| - 1];
      assert Faithful(b[|b| - 1]);
      NaiveAppend(d, a, front);
      NaiveSnoc(d, a + front, last);
      assert a + b == (a + front) + [last];
    }
  }

  lemma CancelOne<T>(a: multiset<T>, b: multiset<T>, x: T)
    requires a + multiset{x} == b + multiset{x}
    ensures a == b
  {
    assert a == a + multiset{x} - multiset{x};
    assert b == b + multiset{x} - multiset{x};
  }

  lemma RemoveMatching<T>(front: seq<T>, left: seq<T>, x: T, right: seq<T>)
    ensures multiset(front + [x]) == multiset(left + [x] + right) <==> multiset(front) == multiset(left + right)
  {
    assert multiset(front + [x]) == multiset(front) + multiset{x};
    assert multiset(left + [x] + right) == multiset(left + right) + multiset{x};
    if multiset(front + [x]) == multiset(left + [x] + right) {
      CancelOne(multiset(front), multiset(left + right), x);
    }
  }

  lemma NaiveMiddle(d: Device, left: seq<Entry>, e: Entry, right: seq<Entry>)
    requires AllFaithful(left) && Faithful(e) && AllFaithful(right)
    ensures AllFaithful(left + right) && AllFaithful(left + [e] + right)
    ensures NaiveEntries(d, left + right) == NaiveEntries(d, left) + NaiveEntries(d, right)
    ensures NaiveEntries(d, left + [e] + right) == NaiveEntries(d, left) + [Alone(d, e.tag)] + NaiveEntries(d, right)
  {
    NaiveAppend(d, left, right);
    NaiveSnoc(d, left, e);
    NaiveAppend(d, left + [e], right);
  }

  lemma PermutedStep(d: Device, front: seq<Entry>, left: seq<Entry>, e: Entry, right: seq<Entry>)
    requires AllFaithful(front) && AllFaithful(left) && Faithful(e) && AllFaithful(right)
    ensures AllFaithful(front + [e]) && AllFaithful(left + right) && AllFaithful(left + [e] + right)
    ensures multiset(NaiveEntries(d, front)) == multiset(NaiveEntries(d, left + right))
        ==> multiset(NaiveEntries(d, front + [e])) == multiset(NaiveEntries(d, left + [e] + right))
  {
    NaiveMiddle(d, left, e, right);
    NaiveSnoc(d, front, e);
    RemoveMatching(NaiveEntries(d, front), NaiveEntries(d, left), Alone(d, e.tag), NaiveEntries(d, right));
  }

  /** Reading the same tags in another order gives the same updates in another order. */
  lemma {:induction false} NaivePermuted(d: Device, a: seq<Entry>, b: seq<Entry>)
    requires AllFaithful(a) && AllFaithful(b) && multiset(a) == multiset(b)
    ensures multiset(NaiveEntries(d, a)) == multiset(NaiveEntries(d, b))
    decreases |a|
  {
    SameElements(a, b);
    if a != [] {
      var front, last := a[..|a| - 1], a[|a| - 1];
      assert a == front + [last] && last in b;
      var j :| 0 <= j < |b| && b[j] == last;
      var left, right := b[..j], b[j + 1..];
      assert b == left + [last] + right;
      assert Faithful(b[j]);
      RemoveMatching(front, left, last, right);
      PermutedStep(d, front, left, last, right);
      NaivePermuted(d, front, left + right);
    }
  }

  // ---------- planned blocks ----------

  lemma {:induction false} PlannedAt(start: int, es: seq<Entry>, i: nat)
    requires i < |es|
    ensures |Planned(start, es)| == |es|
    ensures Planned(start, es)[i] == PlannedTag(es[i].tag, es[i].address - start, es[i].span)
  {
    if i > 0 {
      PlannedAt(start, es[1..], i - 1);
    } else if |es| > 1 {
      PlannedAt(start, es[1..], 0);
    }
  }

  lemma {:induction false} PlannedAlone(d: Device, start: int, es: seq<Entry>)
    requires AllFaithful(es)
    ensures |Planned(start, es)| == |es|
    ensures forall i | 0 <= i < |es| :: TagSpan(Planned(start, es)[i].tag).Ok?
    ensures AloneAll(d, Planned(start, es)) == NaiveEntries(d, es)
  {
    var ps := Planned(start, es);
    if es != [] {
      PlannedAt(start, es, 0);
    }
    forall i | 0 <= i < |es|
      ensures TagSpan(ps[i].tag).Ok?
    {
      PlannedAt(start, es, i);
      assert Faithful(es[i]);
    }
    forall i | 0 <= i < |es|
      ensures AloneAll(d, ps)[i] == NaiveEntries(d, es)[i]
    {
      PlannedAt(start, es, i);
      AloneAt(d, ps, i);
      NaiveAt(d, es, i);
    }
  }

  lemma {:induction false} NaiveAt(d: Device, es: seq<Entry>, i: nat)
    requires AllFaithful(es) && i < |es| && Faithful(es[i])
    ensures NaiveEntries(d, es)[i] == Alone(d, es[i].tag)
  {
    if i < |es| - 1 {
      NaiveAt(d, es[..|es| - 1], i);
    }
  }

  /** A planned block holds each of its tags at the recorded offset. */
  lemma BlockWellFormed(entries: seq<Entry>, limits: Limits, a: nat)
    requires a < |Plan(entries, limits)| && AllFaithful(entries)
    ensures AllFaithful(Plan(entries, limits)[a]) && WellFormed(BlockOf(Plan(entries, limits)[a]))
  {
    PlanFromSound(entries, FUNCTIONS, limits);
    BlockQuantity(entries, limits, a);
    var g := Plan(entries, limits)[a];
    GroupWellFormed(g, limits);
  }

  lemma GroupWellFormed(g: Group, limits: Limits)
    requires ValidBlock(g, limits) && Lowest(g[0], g) && AllFaithful(g)
    ensures WellFormed(BlockOf(g))
  {
    var b := BlockOf(g);
    MaxEndIsMax(g);
    PlannedAt(g[0].address, g, 0);
    forall i | 0 <= i < |b.tags|
      ensures Placed(b.tags[i], b)
    {
      PlannedAt(g[0].address, g, i);
      assert Faithful(g[i]) && g[i] in g && g[0] in g;
    }
  }

  predicate GroupReadsAsAlone(d: Device, g: Group) {
    AllFaithful(g) && WellFormed(BlockOf(g)) && Updates(d, BlockOf(g)) == NaiveEntries(d, g)
  }

  lemma UpdatesOfGroup(d: Device, g: Group, limits: Limits)
    requires ValidBlock(g, limits) && Lowest(g[0], g) && AllFaithful(g) && d.ReadsSubranges()
    ensures GroupReadsAsAlone(d, g)
  {
    var b := BlockOf(g);
    GroupWellFormed(g, limits);
    PlannedAlone(d, g[0].address, g);
    BlockMeansAloneIff(d, b);
    if d.Reads(b.readFunction, b.address, b.quantity) {
      forall i | 0 <= i < |b.tags|
        ensures d.Reads(b.tags[i].tag.readFunction, b.tags[i].tag.address, b.tags[i].span)
      {
        assert Placed(b.tags[i], b);
      }
    }
  }

  lemma BlocksSnoc(front: seq<Group>, last: Group)
    ensures Blocks(front + [last]) == Blocks(front) + [BlockOf(last)]
  {
    BlocksAppend(front, [last]);
    assert Blocks([last]) == [BlockOf(last)] + Blocks([]);
  }

  lemma FlattenSnoc(front: seq<Group>, last: Group)
    ensures Flatten(front + [last]) == Flatten(front) + last
  {
    FlattenAppend(front, [last]);
    assert Flatten([last]) == last + Flatten([]) == last;
  }

  lemma UpdatesSnoc(d: Device, blocks: seq<ReadBlock>, b: ReadBlock)
    requires AllWellFormed(blocks) && WellFormed(b)
    ensures AllWellFormed(blocks + [b]) && UpdatesAll(d, blocks + [b]) == UpdatesAll(d, blocks) + Updates(d, b)
  {
    assert (blocks + [b])[..|blocks|] == blocks;
  }

  /** Reading the groups as blocks gives the updates of their tags read alone, in group order. */
  predicate ReadsAsAlone(d: Device, groups: seq<Group>) {
    && AllWellFormed(Blocks(groups)) && AllFaithful(Flatten(groups))
    && UpdatesAll(d, Blocks(groups)) == NaiveEntries(d, Flatten(groups))
  }

  lemma ReadsAsAloneSnoc(d: Device, front: seq<Group>, last: Group)
    requires ReadsAsAlone(d, front) && GroupReadsAsAlone(d, last)
    ensures ReadsAsAlone(d, front + [last])
  {
    BlocksSnoc(front, last);
    UpdatesSnoc(d, Blocks(front), BlockOf(last));
    FlattenSnoc(front, last);
    NaiveAppend(d, Flatten(front), last);
  }

  lemma {:induction false} UpdatesOfGroups(d: Device, groups: seq<Group>)
    requires forall i | 0 <= i < |groups| :: GroupReadsAsAlone(d, groups[i])
    ensures ReadsAsAlone(d, groups)
  {
    if groups != [] {
      var front, last := groups[..|groups| - 1], groups[|groups| - 1];
      assert groups == front + [last];
      UpdatesOfGroups(d, front);
      ReadsAsAloneSnoc(d, front, last);
    }
  }

  /**
   For a device that reads every sub-range of a range it reads, one batched scan of a tag group emits
   exactly the updates of the naive loop, each configured tag once, with the same value and quality.
   */
  lemma BatchedMeansNaive(d: Device, tags: seq<Tag>, limits: Limits)
    requires AllKnown(tags) && d.ReadsSubranges()
    ensures AllWellFormed(Blocks(Plan(Entries(tags), limits)))
    ensures multiset(UpdatesAll(d, Blocks(Plan(Entries(tags), limits)))) == multiset(Naive(d, tags))
  {
    var entries := Entries(tags);
    var plan := Plan(entries, limits);
    EntriesFaithful(d, tags);
    PlanFromSound(entries, FUNCTIONS, limits);
    forall a | 0 <= a < |plan|
      ensures GroupReadsAsAlone(d, plan[a])
    {
      BlockWellFormed(entries, limits, a);
      UpdatesOfGroup(d, plan[a], limits);
    }
    UpdatesOfGroups(d, plan);
    PlanIsValid(entries, limits);
    NaivePermuted(d, Flatten(plan), entries);
  }
}
