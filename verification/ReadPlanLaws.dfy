/**
 What the read plan guarantees: it is a valid partition of the tags, it is a smallest one exactly
 when no tag wider than the limit breaks up a block, and all its blocks are encodable exactly when
 every tag lies in the 16-bit address space.
 */
module ReadPlanLaws {
  import opened Basics
  import opened ModbusCodec
  import opened ReadPlanner
  import Types = ModbusDatatypes

  // ---------- what makes a block acceptable, independent of any order ----------

  predicate SameFunction(b: seq<Entry>) {
    forall s, t | s in b && t in b :: s.readFunction == t.readFunction
  }

  /**
   A request may ask for this much: what the protocol allows, and no more than the configured size, but a single
   register or bit always.
   */
  predicate Allowed(f: ReadFunction, quantity: int, limits: Limits) {
    && quantity <= (if f.ReadCoils? || f.ReadDiscreteInputs? then 2000 else 125)
    && (limits.maxBlockSize.Some? ==> quantity <= limits.maxBlockSize.value || quantity <= 1)
  }

  lemma AllowedIff(f: ReadFunction, quantity: int, limits: Limits)
    ensures Allowed(f, quantity, limits) <==> quantity <= Limit(f, limits)
  {
  }

  predicate WithinLimit(b: seq<Entry>, limits: Limits) {
    forall s, t | s in b && t in b :: Allowed(t.readFunction, t.End() - s.address, limits)
  }

  predicate Reaches(u: Entry, t: Entry, gap: nat) {
    u.address < t.address && t.address - u.End() <= gap
  }

  predicate Lowest(t: Entry, b: seq<Entry>) {
    forall s | s in b :: t.address <= s.address
  }

  predicate NoWideGap(b: seq<Entry>, gap: nat) {
    forall t | t in b :: Lowest(t, b) || exists u | u in b :: Reaches(u, t, gap)
  }

  /** A block is one tag, or tags of one function code within the size limit and without a wide gap. */
  predicate ValidBlock(b: seq<Entry>, limits: Limits) {
    |b| == 1 || (|b| > 1 && SameFunction(b) && WithinLimit(b, limits) && NoWideGap(b, limits.maxBlockGap))
  }

  predicate ValidPartition(p: seq<seq<Entry>>, entries: seq<Entry>, limits: Limits) {
    && multiset(Flatten(p)) == multiset(entries)
    && forall i | 0 <= i < |p| :: ValidBlock(p[i], limits)
  }

  predicate Wide(t: Entry, limits: Limits) {
    t.span > Limit(t.readFunction, limits)
  }

  // ---------- the shape of a greedy split ----------

  predicate Chained(g: Group, limit: nat, gap: nat) {
    forall k | 0 < k < |g| :: Fits(g[..k], g[k], limit, gap)
  }

  predicate LeadersFirst(groups: seq<Group>) {
    forall i, k, u | 0 <= i <= k < |groups| && u in groups[k] :: groups[i][0].address <= u.address
  }

  predicate Breaks(groups: seq<Group>, limit: nat, gap: nat) {
    forall i | 0 <= i < |groups| - 1 :: !Fits(groups[i], groups[i + 1][0], limit, gap)
  }

  predicate AllChained(groups: seq<Group>, limit: nat, gap: nat) {
    forall i | 0 <= i < |groups| :: Chained(groups[i], limit, gap)
  }

  lemma ChainedSnoc(g: Group, t: Entry, limit: nat, gap: nat)
    requires Chained(g, limit, gap) && Fits(g, t, limit, gap)
    ensures Chained(g + [t], limit, gap)
  {
    forall k | 0 < k < |g + [t]|
      ensures Fits((g + [t])[..k], (g + [t])[k], limit, gap)
    {
      assert (g + [t])[..k] == if k < |g| then g[..k] else g;
    }
  }

  lemma {:induction false} SplitShape(current: Group, rest: seq<Entry>, limit: nat, gap: nat)
    requires Chained(current, limit, gap)
    ensures var s := Split(current, rest, limit, gap);
            AllChained(s, limit, gap) && Breaks(s, limit, gap) && s[0][0] == current[0]
    decreases |rest|
  {
    if rest != [] {
      if Fits(current, rest[0], limit, gap) {
        ChainedSnoc(current, rest[0], limit, gap);
        SplitShape(current + [rest[0]], rest[1..], limit, gap);
      } else {
        SplitShape([rest[0]], rest[1..], limit, gap);
      }
    }
  }

  lemma {:induction false} SplitFlatten(current: Group, rest: seq<Entry>, limit: nat, gap: nat)
    ensures Flatten(Split(current, rest, limit, gap)) == current + rest
    decreases |rest|
  {
    if rest == [] {
      assert Flatten([current]) == current + Flatten([]);
    } else if Fits(current, rest[0], limit, gap) {
      SplitFlatten(current + [rest[0]], rest[1..], limit, gap);
    } else {
      SplitFlatten([rest[0]], rest[1..], limit, gap);
      assert ([current] + Split([rest[0]], rest[1..], limit, gap))[1..] == Split([rest[0]], rest[1..], limit, gap);
    }
  }

  lemma {:induction false} SplitLeaders(current: Group, rest: seq<Entry>, limit: nat, gap: nat)
    requires Sorted(current + rest)
    ensures LeadersFirst(Split(current, rest, limit, gap))
    decreases |rest|
  {
    if rest == [] {
      assert current + rest == current;
    } else if Fits(current, rest[0], limit, gap) {
      assert (current + [rest[0]]) + rest[1..] == current + rest;
      SplitLeaders(current + [rest[0]], rest[1..], limit, gap);
    } else {
      assert [rest[0]] + rest[1..] == rest && rest == (current + rest)[|current|..];
      SplitLeaders([rest[0]], rest[1..], limit, gap);
      SplitFlatten([rest[0]], rest[1..], limit, gap);
      LeadersCons(current, rest, Split([rest[0]], rest[1..], limit, gap));
    }
  }

  lemma LeadersCons(current: Group, rest: seq<Entry>, later: seq<Group>)
    requires Sorted(current + rest) && LeadersFirst(later) && Flatten(later) == rest
    ensures LeadersFirst([current] + later)
  {
    var s := [current] + later;
    forall i, k, u | 0 <= i <= k < |s| && u in s[k]
      ensures s[i][0].address <= u.address
    {
      if i > 0 {
        assert s[i] == later[i - 1] && s[k] == later[k - 1];
      } else if k > 0 {
        assert s[k] == later[k - 1];
        FlattenContains(later, k - 1, u);
        LeadsSorted(current, rest, u);
      } else {
        LeadsSorted(current, rest, u);
      }
    }
  }

  lemma LeadsSorted(current: Group, rest: seq<Entry>, u: Entry)
    requires Sorted(current + rest) && (u in current || u in rest)
    ensures current[0].address <= u.address
  {
    var all := current + rest;
    assert all[0] == current[0] && u in all;
    var i :| 0 <= i < |all| && all[i] == u;
    assert i > 0 ==> Before(all[0], all[i]);
  }

  // ---------- groups cover what they should ----------

  lemma {:induction false} MaxEndIsMax(g: Group)
    ensures forall t | t in g :: t.End() <= MaxEnd(g)
    ensures exists t | t in g :: t.End() == MaxEnd(g)
  {
    if |g| == 1 {
      assert g[0] in g;
    } else {
      var front, last := g[..|g| - 1], g[|g| - 1];
      MaxEndIsMax(front);
      assert g == front + [last];
      if MaxEnd(g) == last.End() {
        assert last in g;
      } else {
        var t :| t in front && t.End() == MaxEnd(front);
        assert t in g;
      }
    }
  }

  /** A coalesced group never exceeds the limit; a lone tag does only if it is itself too wide. */
  lemma GroupExtent(g: Group, limit: nat, gap: nat)
    requires Chained(g, limit, gap)
    ensures |g| > 1 || g[0].span <= limit ==> MaxEnd(g) - g[0].address <= limit
  {
    if |g| > 1 {
      assert Fits(g[..|g| - 1], g[|g| - 1], limit, gap);
    }
  }

  lemma ChainedGroupValid(g: Group, f: ReadFunction, limits: Limits)
    requires Chained(g, Limit(f, limits), limits.maxBlockGap) && Sorted(g)
    requires forall t | t in g :: t.readFunction == f
    ensures ValidBlock(g, limits)
  {
    if |g| > 1 {
      GroupExtent(g, Limit(f, limits), limits.maxBlockGap);
      MaxEndIsMax(g);
      forall t | t in g
        ensures g[0].address <= t.address
      {
      }
      forall t | t in g
        ensures Lowest(t, g) || exists u | u in g :: Reaches(u, t, limits.maxBlockGap)
      {
        var k :| 0 <= k < |g| && g[k] == t;
        GroupConnected(g, k, Limit(f, limits), limits.maxBlockGap);
      }
    }
  }

  /** Every tag of a group starts at its low end or is reached from a tag that starts lower. */
  lemma {:induction false} GroupConnected(g: Group, k: nat, limit: nat, gap: nat)
    requires Chained(g, limit, gap) && Sorted(g) && k < |g|
    ensures g[k].address == g[0].address || exists u | u in g :: Reaches(u, g[k], gap)
  {
    if k > 0 && g[k - 1].address == g[k].address {
      GroupConnected(g, k - 1, limit, gap);
      if g[k].address != g[0].address {
        var u :| u in g && Reaches(u, g[k - 1], gap);
        assert Reaches(u, g[k], gap);
      }
    } else if k > 0 {
      assert Fits(g[..k], g[k], limit, gap);
      MaxEndIsMax(g[..k]);
      var u :| u in g[..k] && u.End() == MaxEnd(g[..k]);
      var j :| 0 <= j < k && g[j] == u;
      assert Before(g[j], g[k - 1]) || j == k - 1;
      assert Before(g[k - 1], g[k]);
      assert Reaches(u, g[k], gap);
    }
  }

  // ---------- leaders cannot share a block ----------

  /** A tag that starts a new block ends beyond everything in the block before it. */
  lemma BreakGrows(g: Group, t: Entry, limit: nat, gap: nat)
    requires Chained(g, limit, gap) && g[0].span <= limit && !Fits(g, t, limit, gap)
    ensures MaxEnd(g) < t.End()
    ensures t.End() - g[0].address > limit || t.address - MaxEnd(g) > gap
  {
    GroupExtent(g, limit, gap);
  }

  /** The groups of one function code, reduced to their leaders and ends, when no tag is too wide. */
  predicate Spaced(groups: seq<Group>, ends: seq<int>, limit: nat, gap: nat) {
    && |ends| == |groups|
    && LeadersFirst(groups)
    && (forall k, u | 0 <= k < |groups| && u in groups[k] :: u.End() <= ends[k])
    && (forall i, j | 0 <= i < j < |groups| :: ends[i] < groups[j][0].End())
    && forall i | 0 <= i < |groups| - 1 :: Apart(groups[i][0], ends[i], groups[i + 1][0], limit, gap)
  }

  predicate Apart(leader: Entry, end: int, next: Entry, limit: nat, gap: nat) {
    next.End() - leader.address > limit || next.address - end > gap
  }

  lemma {:induction false} Rising(ends: seq<int>, leads: seq<int>, i: nat, j: nat)
    requires |ends| == |leads| && i < j < |ends|
    requires forall k | 0 <= k < |ends| :: leads[k] <= ends[k]
    requires forall k | 0 <= k < |ends| - 1 :: ends[k] < leads[k + 1]
    ensures ends[i] < leads[j]
    decreases j
  {
    assert ends[j - 1] < leads[j];
    if i < j - 1 {
      Rising(ends, leads, i, j - 1);
    }
  }

  lemma GreedyIsSpaced(groups: seq<Group>, limit: nat, gap: nat) returns (ends: seq<int>)
    requires AllChained(groups, limit, gap) && Breaks(groups, limit, gap) && LeadersFirst(groups)
    requires forall i | 0 <= i < |groups| :: groups[i][0].span <= limit
    ensures Spaced(groups, ends, limit, gap)
  {
    ends := seq(|groups|, i requires 0 <= i < |groups| => MaxEnd(groups[i]));
    var leads := seq(|groups|, i requires 0 <= i < |groups| => groups[i][0].End());
    forall k, u | 0 <= k < |groups| && u in groups[k]
      ensures u.End() <= ends[k]
    {
      MaxEndIsMax(groups[k]);
    }
    forall k | 0 <= k < |groups|
      ensures leads[k] <= ends[k]
    {
      assert groups[k][0] in groups[k];
    }
    forall k | 0 <= k < |groups| - 1
      ensures ends[k] < leads[k + 1] && Apart(groups[k][0], ends[k], groups[k + 1][0], limit, gap)
    {
      BreakGrows(groups[k], groups[k + 1][0], limit, gap);
    }
    forall i, j | 0 <= i < j < |groups|
      ensures ends[i] < groups[j][0].End()
    {
      Rising(ends, leads, i, j);
    }
  }

  /** An element of a non-empty selection with the lowest address. */
  lemma {:induction false} LowestAbove(b: seq<Entry>, a: int) returns (t: Entry)
    requires exists x | x in b :: x.address >= a
    ensures t in b && t.address >= a
    ensures forall x | x in b && x.address >= a :: t.address <= x.address
  {
    var rest := b[1..];
    assert b == [b[0]] + rest;
    if exists x | x in rest :: x.address >= a {
      t := LowestAbove(rest, a);
      if b[0].address >= a && b[0].address < t.address {
        t := b[0];
      }
    } else {
      t := b[0];
    }
  }

  predicate InSome(x: Entry, groups: seq<Group>) {
    exists k | 0 <= k < |groups| :: x in groups[k]
  }

  /** Below leader `i + 1`, nothing ends beyond `ends[i]`. */
  lemma EndsBelow(groups: seq<Group>, ends: seq<int>, i: nat, u: Entry, limit: nat, gap: nat)
    requires Spaced(groups, ends, limit, gap) && i + 1 < |groups|
    requires InSome(u, groups) && u.address < groups[i + 1][0].address
    ensures u.End() <= ends[i]
  {
    var k :| 0 <= k < |groups| && u in groups[k];
    assert k <= i;
    assert groups[i][0] in groups[i];
    assert k < i ==> ends[k] < groups[i][0].End();
  }

  /** Across a wide gap, no block without wide gaps holds tags from both sides. */
  lemma GapSeparates(groups: seq<Group>, ends: seq<int>, i: nat, j: nat, b: seq<Entry>, limit: nat, gap: nat)
    requires Spaced(groups, ends, limit, gap) && i < j < |groups|
    requires groups[i + 1][0].address - ends[i] > gap
    requires groups[i][0] in b && groups[j][0] in b
    requires forall x | x in b :: InSome(x, groups)
    ensures !NoWideGap(b, gap)
  {
    var a, first := groups[i + 1][0].address, groups[i][0];
    assert groups[j][0] in groups[j];
    var t := LowestAbove(b, a);
    assert first in groups[i];
    assert first.End() <= ends[i];
    forall u | u in b
      ensures !Reaches(u, t, gap)
    {
      if u.address < t.address {
        EndsBelow(groups, ends, i, u, limit, gap);
      }
    }
  }

  /** No valid block holds two leaders of one function code. */
  lemma LeadersApart(groups: seq<Group>, ends: seq<int>, i: nat, j: nat, b: seq<Entry>, f: ReadFunction, limits: Limits)
    requires Spaced(groups, ends, Limit(f, limits), limits.maxBlockGap) && i < j < |groups|
    requires groups[j][0].readFunction == f
    requires ValidBlock(b, limits)
    requires forall x | x in b :: InSome(x, groups)
    ensures !(groups[i][0] in b && groups[j][0] in b)
  {
    var first, next, last := groups[i][0], groups[i + 1][0], groups[j][0];
    assert first in groups[i] && next in groups[i + 1];
    assert first.End() <= ends[i] < last.End();
    assert next.End() <= last.End() by {
      assert i + 1 < j ==> next.End() <= ends[i + 1] < last.End();
    }
    assert Apart(first, ends[i], next, Limit(f, limits), limits.maxBlockGap);
    if first in b && last in b {
      if next.address - ends[i] > limits.maxBlockGap {
        GapSeparates(groups, ends, i, j, b, Limit(f, limits), limits.maxBlockGap);
      }
    }
  }

  // ---------- the plan of one function code ----------

  lemma {:induction false} GroupsSorted(groups: seq<Group>, i: nat)
    requires Sorted(Flatten(groups)) && i < |groups|
    ensures Sorted(groups[i])
  {
    var all := Flatten(groups);
    assert all == groups[0] + Flatten(groups[1..]);
    if i == 0 {
      assert groups[0] == all[..|groups[0]|];
    } else {
      assert Flatten(groups[1..]) == all[|groups[0]|..];
      GroupsSorted(groups[1..], i - 1);
    }
  }

  lemma PlanForShape(entries: seq<Entry>, f: ReadFunction, limits: Limits)
    ensures var gs := PlanFor(entries, f, limits);
            && AllChained(gs, Limit(f, limits), limits.maxBlockGap)
            && Breaks(gs, Limit(f, limits), limits.maxBlockGap)
            && LeadersFirst(gs)
            && Flatten(gs) == SortEntries(OfFunction(entries, f))
  {
    var spans, limit, gap := SortEntries(OfFunction(entries, f)), Limit(f, limits), limits.maxBlockGap;
    if spans != [] {
      SortEntriesSorted(OfFunction(entries, f));
      assert [spans[0]] + spans[1..] == spans;
      SplitShape([spans[0]], spans[1..], limit, gap);
      SplitFlatten([spans[0]], spans[1..], limit, gap);
      SplitLeaders([spans[0]], spans[1..], limit, gap);
    }
  }

  lemma PlanForMembers(entries: seq<Entry>, f: ReadFunction, limits: Limits)
    ensures var gs := PlanFor(entries, f, limits);
            && (forall i, x | 0 <= i < |gs| && x in gs[i] :: x in entries && x.readFunction == f)
            && forall x | x in entries && x.readFunction == f :: InSome(x, gs)
  {
    var gs := PlanFor(entries, f, limits);
    PlanForShape(entries, f, limits);
    OfFunctionMembers(entries, f);
    SameElements(Flatten(gs), OfFunction(entries, f));
    forall i, x | 0 <= i < |gs| && x in gs[i]
      ensures x in entries && x.readFunction == f
    {
      FlattenContains(gs, i, x);
    }
    forall x | x in entries && x.readFunction == f
      ensures InSome(x, gs)
    {
      InFlatten(gs, x);
    }
  }

  lemma PlanForValid(entries: seq<Entry>, f: ReadFunction, limits: Limits, i: nat)
    requires i < |PlanFor(entries, f, limits)|
    ensures ValidBlock(PlanFor(entries, f, limits)[i], limits)
  {
    PlanForShape(entries, f, limits);
    PlanForMembers(entries, f, limits);
    SortEntriesSorted(OfFunction(entries, f));
    GroupsSorted(PlanFor(entries, f, limits), i);
    ChainedGroupValid(PlanFor(entries, f, limits)[i], f, limits);
  }

  lemma BlockStaysInFunction(entries: seq<Entry>, f: ReadFunction, limits: Limits, b: seq<Entry>, leader: Entry)
    requires ValidBlock(b, limits) && leader in b && leader.readFunction == f
    requires forall x | x in b :: x in entries
    ensures forall x | x in b :: InSome(x, PlanFor(entries, f, limits))
  {
    PlanForMembers(entries, f, limits);
    forall x | x in b
      ensures x.readFunction == f
    {
      assert |b| == 1 ==> b[0] == leader == x;
    }
  }

  predicate Within(b: seq<Entry>, entries: seq<Entry>) {
    forall x | x in b :: x in entries
  }

  /** No valid block of the given tags holds the first tags of two groups. */
  ghost predicate PairwiseApart(groups: seq<Group>, entries: seq<Entry>, limits: Limits) {
    forall i, j, b | 0 <= i < j < |groups| && ValidBlock(b, limits) && Within(b, entries) ::
      !(groups[i][0] in b && groups[j][0] in b)
  }

  lemma PlanForApart(entries: seq<Entry>, f: ReadFunction, limits: Limits)
    requires forall t | t in entries :: !Wide(t, limits)
    ensures PairwiseApart(PlanFor(entries, f, limits), entries, limits)
  {
    var gs := PlanFor(entries, f, limits);
    PlanForShape(entries, f, limits);
    PlanForMembers(entries, f, limits);
    forall k | 0 <= k < |gs|
      ensures gs[k][0].readFunction == f && gs[k][0].span <= Limit(f, limits)
    {
      assert gs[k][0] in gs[k];
    }
    var ends := GreedyIsSpaced(gs, Limit(f, limits), limits.maxBlockGap);
    forall i, j, b | 0 <= i < j < |gs| && ValidBlock(b, limits) && Within(b, entries)
      ensures !(gs[i][0] in b && gs[j][0] in b)
    {
      if gs[j][0] in b {
        BlockStaysInFunction(entries, f, limits, b, gs[j][0]);
        LeadersApart(gs, ends, i, j, b, f, limits);
      }
    }
  }

  // ---------- the whole plan ----------

  predicate Distinct(fs: seq<ReadFunction>) {
    forall i, j | 0 <= i < j < |fs| :: fs[i] != fs[j]
  }

  /** Every group is a valid block of the given tags, led by its lowest tag, of one of the function codes. */
  predicate Sound(groups: seq<Group>, entries: seq<Entry>, fs: seq<ReadFunction>, limits: Limits) {
    forall a | 0 <= a < |groups| ::
      && Within(groups[a], entries) && groups[a][0].readFunction in fs
      && Lowest(groups[a][0], groups[a]) && ValidBlock(groups[a], limits)
  }

  lemma PlanForSound(entries: seq<Entry>, f: ReadFunction, limits: Limits)
    ensures Sound(PlanFor(entries, f, limits), entries, [f], limits)
  {
    var gs := PlanFor(entries, f, limits);
    PlanForMembers(entries, f, limits);
    PlanForShape(entries, f, limits);
    forall a | 0 <= a < |gs|
      ensures Within(gs[a], entries) && gs[a][0].readFunction in [f] && Lowest(gs[a][0], gs[a])
      ensures ValidBlock(gs[a], limits)
    {
      assert gs[a][0] in gs[a];
      PlanForValid(entries, f, limits, a);
    }
  }

  lemma SoundConcat(head: seq<Group>, tail: seq<Group>, entries: seq<Entry>, fs: seq<ReadFunction>, limits: Limits)
    requires fs != [] && Sound(head, entries, [fs[0]], limits) && Sound(tail, entries, fs[1..], limits)
    ensures Sound(head + tail, entries, fs, limits)
  {
  }

  lemma {:induction false} PlanFromSound(entries: seq<Entry>, fs: seq<ReadFunction>, limits: Limits)
    ensures Sound(PlanFrom(entries, fs, limits), entries, fs, limits)
  {
    if fs != [] {
      PlanForSound(entries, fs[0], limits);
      PlanFromSound(entries, fs[1..], limits);
      SoundConcat(PlanFor(entries, fs[0], limits), PlanFrom(entries, fs[1..], limits), entries, fs, limits);
    }
  }

  lemma FunctionsApart(x: Entry, y: Entry, b: seq<Entry>, limits: Limits)
    requires ValidBlock(b, limits) && x.readFunction != y.readFunction
    ensures !(x in b && y in b)
  {
  }

  lemma ApartConcat(head: seq<Group>, tail: seq<Group>, entries: seq<Entry>, fs: seq<ReadFunction>, limits: Limits)
    requires fs != [] && Distinct(fs) && Sound(head, entries, [fs[0]], limits) && Sound(tail, entries, fs[1..], limits)
    requires PairwiseApart(head, entries, limits) && PairwiseApart(tail, entries, limits)
    ensures PairwiseApart(head + tail, entries, limits)
  {
    var all := head + tail;
    forall i, j, b | 0 <= i < j < |all| && ValidBlock(b, limits) && Within(b, entries)
      ensures !(all[i][0] in b && all[j][0] in b)
    {
      if i < |head| <= j {
        FunctionsApart(head[i][0], tail[j - |head|][0], b, limits);
      }
    }
  }

  /** No valid block of the given tags holds the first tags of two planned blocks. */
  lemma {:induction false} PlanLeadersApart(entries: seq<Entry>, fs: seq<ReadFunction>, limits: Limits)
    requires Distinct(fs) && forall t | t in entries :: !Wide(t, limits)
    ensures PairwiseApart(PlanFrom(entries, fs, limits), entries, limits)
    decreases |fs|
  {
    if fs != [] {
      PlanForApart(entries, fs[0], limits);
      PlanLeadersApart(entries, fs[1..], limits);
      PlanForSound(entries, fs[0], limits);
      PlanFromSound(entries, fs[1..], limits);
      ApartConcat(PlanFor(entries, fs[0], limits), PlanFrom(entries, fs[1..], limits), entries, fs, limits);
    }
  }

  lemma {:induction false} PlanCount(entries: seq<Entry>, fs: seq<ReadFunction>, limits: Limits, x: Entry)
    requires Distinct(fs)
    ensures multiset(Flatten(PlanFrom(entries, fs, limits)))[x] == if x.readFunction in fs then multiset(entries)[x] else 0
    decreases |fs|
  {
    if fs != [] {
      var head, tail := PlanFor(entries, fs[0], limits), PlanFrom(entries, fs[1..], limits);
      PlanForCount(entries, fs[0], limits, x);
      PlanCount(entries, fs[1..], limits, x);
      FlattenAppend(head, tail);
    }
  }

  lemma PlanForCount(entries: seq<Entry>, f: ReadFunction, limits: Limits, x: Entry)
    ensures multiset(Flatten(PlanFor(entries, f, limits)))[x] == if x.readFunction == f then multiset(entries)[x] else 0
  {
    PlanForShape(entries, f, limits);
    FilterCount(entries, (t: Entry) => t.readFunction == f, x);
  }

  lemma AllFunctions(f: ReadFunction)
    ensures f in FUNCTIONS
  {
    match f
    case ReadCoils => assert FUNCTIONS[0] == f;
    case ReadDiscreteInputs => assert FUNCTIONS[1] == f;
    case ReadHoldingRegisters => assert FUNCTIONS[2] == f;
    case ReadInputRegisters => assert FUNCTIONS[3] == f;
  }

  /** The plan is a valid partition of the tags. */
  lemma PlanIsValid(entries: seq<Entry>, limits: Limits)
    ensures ValidPartition(Plan(entries, limits), entries, limits)
  {
    assert Distinct(FUNCTIONS);
    EveryFunction();
    SameTagsFrom(entries, FUNCTIONS, limits);
    PlanFromSound(entries, FUNCTIONS, limits);
  }

  lemma EveryFunction()
    ensures forall f: ReadFunction :: f in FUNCTIONS
  {
    forall f: ReadFunction
      ensures f in FUNCTIONS
    {
      AllFunctions(f);
    }
  }

  lemma SameTagsFrom(entries: seq<Entry>, fs: seq<ReadFunction>, limits: Limits)
    requires Distinct(fs) && forall f: ReadFunction :: f in fs
    ensures multiset(Flatten(PlanFrom(entries, fs, limits))) == multiset(entries)
  {
    var planned := multiset(Flatten(PlanFrom(entries, fs, limits)));
    forall x: Entry
      ensures planned[x] == multiset(entries)[x]
    {
      PlanCount(entries, fs, limits, x);
    }
  }

  // ---------- the lower bound ----------

  ghost function Slot(p: seq<seq<Entry>>, x: Entry): (i: nat)
    requires exists i | 0 <= i < |p| :: x in p[i]
    ensures i < |p| && x in p[i]
  {
    var i :| 0 <= i < |p| && x in p[i];
    i
  }

  /** Groups whose leaders are pairwise apart: no cover by valid blocks is smaller. */
  lemma CoverNeedsSlots(groups: seq<Group>, p: seq<seq<Entry>>, entries: seq<Entry>, limits: Limits)
    requires PairwiseApart(groups, entries, limits)
    requires forall a | 0 <= a < |groups| :: Within(groups[a], entries)
    requires forall i | 0 <= i < |p| :: ValidBlock(p[i], limits) && Within(p[i], entries)
    requires forall x | x in entries :: exists i | 0 <= i < |p| :: x in p[i]
    ensures |groups| <= |p|
  {
    forall a | 0 <= a < |groups|
      ensures groups[a][0] in entries
    {
      assert groups[a][0] in groups[a];
    }
    var slots: seq<nat> := seq(|groups|, a requires 0 <= a < |groups| => Slot(p, groups[a][0]));
    Pigeonhole(slots, |p|);
  }

  /** Tags that fit the limit cannot be covered by fewer valid blocks than the plan has. */
  lemma NarrowLowerBound(p: seq<seq<Entry>>, entries: seq<Entry>, limits: Limits)
    requires forall t | t in entries :: !Wide(t, limits)
    requires forall i | 0 <= i < |p| :: ValidBlock(p[i], limits) && Within(p[i], entries)
    requires forall x | x in entries :: exists i | 0 <= i < |p| :: x in p[i]
    ensures |Plan(entries, limits)| <= |p|
  {
    PlanLeadersApart(entries, FUNCTIONS, limits);
    PlanFromSound(entries, FUNCTIONS, limits);
    CoverNeedsSlots(Plan(entries, limits), p, entries, limits);
  }

  // ---------- when the plan is a smallest one ----------

  function WideTags(entries: seq<Entry>, limits: Limits): seq<Entry> {
    Filter(entries, (t: Entry) => Wide(t, limits))
  }

  function NarrowTags(entries: seq<Entry>, limits: Limits): seq<Entry> {
    Filter(entries, (t: Entry) => !Wide(t, limits))
  }

  predicate HoldsWide(b: seq<Entry>, limits: Limits) {
    exists t | t in b :: Wide(t, limits)
  }

  function WideBlocks(p: seq<seq<Entry>>, limits: Limits): seq<seq<Entry>> {
    Filter(p, (b: seq<Entry>) => HoldsWide(b, limits))
  }

  function NarrowBlocks(p: seq<seq<Entry>>, limits: Limits): seq<seq<Entry>> {
    Filter(p, (b: seq<Entry>) => !HoldsWide(b, limits))
  }

  lemma WideStandsAlone(b: seq<Entry>, limits: Limits)
    requires ValidBlock(b, limits) && HoldsWide(b, limits)
    ensures |b| == 1 && forall t | t in b :: Wide(t, limits)
  {
    var t :| t in b && Wide(t, limits);
    if |b| > 1 {
      assert Allowed(t.readFunction, t.End() - t.address, limits);
      AllowedIff(t.readFunction, t.span, limits);
    }
  }

  /** A tag wider than the limit has every valid block to itself. */
  lemma WideTagsOf(b: seq<Entry>, limits: Limits)
    requires ValidBlock(b, limits)
    ensures |WideTags(b, limits)| == if HoldsWide(b, limits) then 1 else 0
  {
    if HoldsWide(b, limits) {
      WideStandsAlone(b, limits);
      FilterAll(b, (t: Entry) => Wide(t, limits));
    } else {
      FilterNone(b, (t: Entry) => Wide(t, limits));
    }
  }

  lemma WideTagsSnoc(front: seq<seq<Entry>>, last: seq<Entry>, limits: Limits)
    ensures |WideTags(Flatten(front + [last]), limits)|
         == |WideTags(Flatten(front), limits)| + |WideTags(last, limits)|
  {
    FlattenAppend(front, [last]);
    assert Flatten([last]) == last + Flatten([]) == last;
    FilterAppend(Flatten(front), last, (t: Entry) => Wide(t, limits));
  }

  lemma WideBlocksSnoc(front: seq<seq<Entry>>, last: seq<Entry>, limits: Limits)
    ensures |WideBlocks(front + [last], limits)|
         == |WideBlocks(front, limits)| + if HoldsWide(last, limits) then 1 else 0
  {
    FilterSnoc(front, last, (b: seq<Entry>) => HoldsWide(b, limits));
  }

  lemma {:induction false} WideBlockCount(p: seq<seq<Entry>>, limits: Limits)
    requires forall i | 0 <= i < |p| :: ValidBlock(p[i], limits)
    ensures |WideBlocks(p, limits)| == |WideTags(Flatten(p), limits)|
  {
    if p != [] {
      var front, last := p[..|p| - 1], p[|p| - 1];
      WideBlockCount(front, limits);
      WideTagsSnoc(front, last, limits);
      WideBlocksSnoc(front, last, limits);
      WideTagsOf(last, limits);
      assert p == front + [last];
    }
  }

  lemma NarrowBlocksCover(p: seq<seq<Entry>>, entries: seq<Entry>, limits: Limits)
    requires ValidPartition(p, entries, limits)
    ensures var pn, n := NarrowBlocks(p, limits), NarrowTags(entries, limits);
            && (forall i | 0 <= i < |pn| :: ValidBlock(pn[i], limits) && Within(pn[i], n))
            && forall x | x in n :: exists i | 0 <= i < |pn| :: x in pn[i]
  {
    var pn, n := NarrowBlocks(p, limits), NarrowTags(entries, limits);
    SameElements(Flatten(p), entries);
    FilterMembers(entries, (t: Entry) => !Wide(t, limits));
    FilterMembers(p, (b: seq<Entry>) => !HoldsWide(b, limits));
    forall i | 0 <= i < |pn|
      ensures ValidBlock(pn[i], limits) && Within(pn[i], n)
    {
      assert pn[i] in pn;
      var k :| 0 <= k < |p| && p[k] == pn[i];
      forall x | x in pn[i]
        ensures x in n
      {
        FlattenContains(p, k, x);
      }
    }
    forall x | x in n
      ensures exists i | 0 <= i < |pn| :: x in pn[i]
    {
      InFlatten(p, x);
      var k :| 0 <= k < |p| && x in p[k];
      NarrowTagNarrowBlock(p[k], x, limits);
      assert p[k] in pn;
    }
  }

  lemma NarrowTagNarrowBlock(b: seq<Entry>, x: Entry, limits: Limits)
    requires ValidBlock(b, limits) && x in b && !Wide(x, limits)
    ensures !HoldsWide(b, limits)
  {
  }

  lemma WideTagsPermuted(a: seq<Entry>, b: seq<Entry>, limits: Limits)
    requires multiset(a) == multiset(b)
    ensures |WideTags(a, limits)| == |WideTags(b, limits)|
  {
    forall x: Entry
      ensures multiset(WideTags(a, limits))[x] == multiset(WideTags(b, limits))[x]
    {
      FilterCount(a, (t: Entry) => Wide(t, limits), x);
      FilterCount(b, (t: Entry) => Wide(t, limits), x);
    }
    SameElements(WideTags(a, limits), WideTags(b, limits));
  }

  /** Every valid partition needs a block for each wide tag and as many as the plan of the narrow tags. */
  lemma LowerBound(p: seq<seq<Entry>>, entries: seq<Entry>, limits: Limits)
    requires ValidPartition(p, entries, limits)
    ensures |p| >= |WideTags(entries, limits)| + |Plan(NarrowTags(entries, limits), limits)|
  {
    FilterSplit(p, (b: seq<Entry>) => HoldsWide(b, limits), (b: seq<Entry>) => !HoldsWide(b, limits));
    WideBlockCount(p, limits);
    WideTagsPermuted(Flatten(p), entries, limits);
    NarrowBlocksCover(p, entries, limits);
    FilterMembers(entries, (t: Entry) => !Wide(t, limits));
    NarrowLowerBound(NarrowBlocks(p, limits), NarrowTags(entries, limits), limits);
  }

  function Singles(ts: seq<Entry>): (p: seq<seq<Entry>>)
    ensures |p| == |ts| && forall i | 0 <= i < |ts| :: p[i] == [ts[i]]
  {
    if ts == [] then [] else [[ts[0]]] + Singles(ts[1..])
  }

  lemma {:induction false} FlattenSingles(ts: seq<Entry>)
    ensures Flatten(Singles(ts)) == ts
  {
    if ts != [] {
      FlattenSingles(ts[1..]);
      assert Singles(ts)[1..] == Singles(ts[1..]);
    }
  }

  lemma SinglesValid(ts: seq<Entry>, limits: Limits)
    ensures ValidPartition(Singles(ts), ts, limits)
  {
    FlattenSingles(ts);
  }

  lemma PartitionConcat(p: seq<seq<Entry>>, q: seq<seq<Entry>>, a: seq<Entry>, b: seq<Entry>, all: seq<Entry>, limits: Limits)
    requires ValidPartition(p, a, limits) && ValidPartition(q, b, limits)
    requires multiset(a) + multiset(b) == multiset(all)
    ensures ValidPartition(p + q, all, limits)
  {
    FlattenAppend(p, q);
  }

  lemma WideAndNarrow(entries: seq<Entry>, limits: Limits)
    ensures multiset(WideTags(entries, limits)) + multiset(NarrowTags(entries, limits)) == multiset(entries)
  {
    forall x: Entry
      ensures multiset(WideTags(entries, limits))[x] + multiset(NarrowTags(entries, limits))[x] == multiset(entries)[x]
    {
      FilterCount(entries, (t: Entry) => Wide(t, limits), x);
      FilterCount(entries, (t: Entry) => !Wide(t, limits), x);
    }
  }

  /** The bound is reached: wide tags one by one, then the plan of the rest. */
  lemma BoundReached(entries: seq<Entry>, limits: Limits)
    ensures ValidPartition(Singles(WideTags(entries, limits)) + Plan(NarrowTags(entries, limits), limits), entries, limits)
  {
    var w, n := WideTags(entries, limits), NarrowTags(entries, limits);
    SinglesValid(w, limits);
    PlanIsValid(n, limits);
    WideAndNarrow(entries, limits);
    PartitionConcat(Singles(w), Plan(n, limits), w, n, entries, limits);
  }

  ghost predicate Optimal(entries: seq<Entry>, limits: Limits) {
    forall p | ValidPartition(p, entries, limits) :: |Plan(entries, limits)| <= |p|
  }

  /** The size of a smallest valid partition, in terms of the tags alone: the plan is optimal when it has this size. */
  lemma OptimalSize(entries: seq<Entry>, limits: Limits)
    ensures Optimal(entries, limits)
       <==> |Plan(entries, limits)| == |WideTags(entries, limits)| + |Plan(NarrowTags(entries, limits), limits)|
  {
    var best := Singles(WideTags(entries, limits)) + Plan(NarrowTags(entries, limits), limits);
    BoundReached(entries, limits);
    PlanIsValid(entries, limits);
    LowerBound(Plan(entries, limits), entries, limits);
    assert Optimal(entries, limits) ==> |Plan(entries, limits)| <= |best|;
    forall p | ValidPartition(p, entries, limits)
      ensures |best| <= |p|
    {
      LowerBound(p, entries, limits);
    }
  }

  /** In particular the plan is a smallest one whenever every tag fits the limit. */
  lemma NarrowOptimal(entries: seq<Entry>, limits: Limits)
    requires forall t | t in entries :: !Wide(t, limits)
    ensures Optimal(entries, limits)
  {
    OptimalSize(entries, limits);
    FilterAll(entries, (t: Entry) => !Wide(t, limits));
    FilterSplit(entries, (t: Entry) => Wide(t, limits), (t: Entry) => !Wide(t, limits));
  }

  lemma {:induction false} SortOfSorted(ts: seq<Entry>)
    requires Sorted(ts)
    ensures SortEntries(ts) == ts
  {
    if ts != [] {
      SortOfSorted(ts[1..]);
      assert |ts| > 1 ==> Before(ts[0], ts[1]);
    }
  }

  lemma ThreeGroups(a: Entry, b: Entry, c: Entry, limit: nat, gap: nat)
    requires !Fits([a], b, limit, gap) && !Fits([b], c, limit, gap)
    ensures Groups([a, b, c], limit, gap) == [[a], [b], [c]]
  {
    assert [a, b, c][1..] == [b, c] && [b, c][1..] == [c] && [c][1..] == [];
    assert Split([c], [], limit, gap) == [[c]];
    assert Split([b], [c], limit, gap) == [[b]] + [[c]];
  }

  lemma FourFunctions(entries: seq<Entry>, limits: Limits)
    ensures |Plan(entries, limits)|
         == |PlanFor(entries, ReadCoils, limits)| + |PlanFor(entries, ReadDiscreteInputs, limits)|
            + |PlanFor(entries, ReadHoldingRegisters, limits)| + |PlanFor(entries, ReadInputRegisters, limits)|
  {
    var f2, f3, f4 := FUNCTIONS[1..], FUNCTIONS[2..], FUNCTIONS[3..];
    assert f2[1..] == f3 && f3[1..] == f4 && f4[1..] == [];
    assert |PlanFrom(entries, f4, limits)| == |PlanFor(entries, ReadInputRegisters, limits)|;
    assert |PlanFrom(entries, f3, limits)| == |PlanFor(entries, ReadHoldingRegisters, limits)| + |PlanFrom(entries, f4, limits)|;
    assert |PlanFrom(entries, f2, limits)| == |PlanFor(entries, ReadDiscreteInputs, limits)| + |PlanFrom(entries, f3, limits)|;
  }

  lemma UnusedFunction(entries: seq<Entry>, f: ReadFunction, limits: Limits)
    requires forall t | t in entries :: t.readFunction != f
    ensures PlanFor(entries, f, limits) == []
  {
    FilterNone(entries, (t: Entry) => t.readFunction == f);
  }

  /** Three tags whose plan is three blocks although two would do. */
  predicate Interrupted(a: Entry, b: Entry, c: Entry) {
    && a.readFunction == b.readFunction == c.readFunction == ReadHoldingRegisters
    && a.address == b.address == 0 && c.address == 1
    && a.span == c.span == 1 && b.span == 4
  }

  lemma HoldingRegistersOnly(entries: seq<Entry>, limits: Limits)
    requires Sorted(entries) && forall t | t in entries :: t.readFunction == ReadHoldingRegisters
    ensures |Plan(entries, limits)| == |Groups(entries, Limit(ReadHoldingRegisters, limits), limits.maxBlockGap)|
  {
    FourFunctions(entries, limits);
    UnusedFunction(entries, ReadCoils, limits);
    UnusedFunction(entries, ReadDiscreteInputs, limits);
    UnusedFunction(entries, ReadInputRegisters, limits);
    FilterAll(entries, (t: Entry) => t.readFunction == ReadHoldingRegisters);
    SortOfSorted(entries);
  }

  lemma InterruptedPlan(a: Entry, b: Entry, c: Entry, limits: Limits)
    requires Interrupted(a, b, c) && limits.maxBlockSize == Some(2)
    ensures |Plan([a, b, c], limits)| == 3
  {
    HoldingRegistersOnly([a, b, c], limits);
    ThreeGroups(a, b, c, 2, limits.maxBlockGap);
  }

  lemma TwoBlocksSuffice(a: Entry, b: Entry, c: Entry, limits: Limits)
    requires Interrupted(a, b, c) && limits.maxBlockSize == Some(2)
    ensures ValidPartition([[a, c], [b]], [a, b, c], limits)
  {
    assert [[a, c], [b]][1..] == [[b]] && [[b]][1..] == [];
    assert Flatten([[b]]) == [b] + Flatten([]) == [b];
    assert Flatten([[a, c], [b]]) == [a, c] + [b];
    assert Reaches(a, c, limits.maxBlockGap);
    assert a in [a, c];
  }

  /** With a limit of 2, a four-register tag between two adjacent ones costs the plan a third block. */
  lemma WideTagCounterexample(a: Entry, b: Entry, c: Entry, limits: Limits)
    requires Interrupted(a, b, c) && limits.maxBlockSize == Some(2)
    ensures !Optimal([a, b, c], limits)
  {
    InterruptedPlan(a, b, c, limits);
    TwoBlocksSuffice(a, b, c, limits);
  }

  // ---------- every planned block can be requested ----------

  predicate InAddressSpace(t: Entry) {
    0 <= t.address && t.End() <= 0x10000
  }

  predicate Requestable(g: Group) {
    EncodeReadRequest(g[0].readFunction, g[0].address, MaxEnd(g) - g[0].address).Ok?
  }

  /** A block asks for at most the configured limit, unless it is a single tag. */
  lemma BlockQuantity(entries: seq<Entry>, limits: Limits, a: nat)
    requires a < |Plan(entries, limits)|
    ensures var g := Plan(entries, limits)[a];
            && 1 <= MaxEnd(g) - g[0].address
            && if |g| == 1 then MaxEnd(g) - g[0].address == g[0].span
               else Allowed(g[0].readFunction, MaxEnd(g) - g[0].address, limits)
  {
    PlanFromSound(entries, FUNCTIONS, limits);
    var g := Plan(entries, limits)[a];
    MaxEndIsMax(g);
    assert g[0] in g;
    if |g| > 1 {
      var t :| t in g && t.End() == MaxEnd(g);
      assert Allowed(t.readFunction, t.End() - g[0].address, limits);
    }
  }

  lemma RequestableIff(entries: seq<Entry>, limits: Limits, a: nat)
    requires a < |Plan(entries, limits)| && forall t | t in entries :: t.span <= 4
    ensures var g := Plan(entries, limits)[a]; Requestable(g) <==> forall t | t in g :: InAddressSpace(t)
  {
    PlanFromSound(entries, FUNCTIONS, limits);
    BlockQuantity(entries, limits, a);
    var g := Plan(entries, limits)[a];
    MaxEndIsMax(g);
    assert g[0] in g && g[0] in entries;
    var t :| t in g && t.End() == MaxEnd(g);
    if Requestable(g) {
      forall x | x in g
        ensures InAddressSpace(x)
      {
      }
    } else {
      assert !(0 <= g[0].address && t.End() <= 0x10000);
      assert !(InAddressSpace(g[0]) && InAddressSpace(t));
    }
  }

  /** No request of the plan is refused by the encoder exactly when every tag lies in the 16-bit address space. */
  lemma PlanRequestableIff(entries: seq<Entry>, limits: Limits)
    requires forall t | t in entries :: t.span <= 4
    ensures (forall a | 0 <= a < |Plan(entries, limits)| :: Requestable(Plan(entries, limits)[a]))
       <==> forall t | t in entries :: InAddressSpace(t)
  {
    var plan := Plan(entries, limits);
    PlanIsValid(entries, limits);
    SameElements(Flatten(plan), entries);
    forall a | 0 <= a < |plan|
      ensures Requestable(plan[a]) <==> forall t | t in plan[a] :: InAddressSpace(t)
    {
      RequestableIff(entries, limits, a);
    }
    forall a, t | 0 <= a < |plan| && t in plan[a]
      ensures t in entries
    {
      FlattenContains(plan, a, t);
    }
    forall t | t in entries
      ensures InSome(t, plan)
    {
      InFlatten(plan, t);
    }
    if forall a | 0 <= a < |plan| :: Requestable(plan[a]) {
      forall t | t in entries
        ensures InAddressSpace(t)
      {
        assert InSome(t, plan);
      }
    }
  }
}
