/**
 When the read plan is a smallest one, in terms of where the tags wider than the limit sort: each of them cuts the
 sequence of the other tags, and the plan is optimal exactly when none of the cuts costs a block.
 */
module ReadPlanOptimal {
  import opened Basics
  import opened ModbusCodec
  import opened ReadPlanner
  import opened ReadPlanLaws

  // ---------- wide tags cut the split ----------

  predicate Fitting(t: Entry, limit: nat) {
    t.span <= limit
  }

  /** The stretches of tags within the limit, before, between and after the wider ones. */
  function Stretches(ts: seq<Entry>, limit: nat): (ss: seq<seq<Entry>>)
    ensures ss != []
  {
    if ts == [] then [[]]
    else
      var rest := Stretches(ts[1..], limit);
      if Fitting(ts[0], limit) then [[ts[0]] + rest[0]] + rest[1..] else [[]] + rest
  }

  function WideCount(ts: seq<Entry>, limit: nat): nat {
    if ts == [] then 0 else WideCount(ts[1..], limit) + if Fitting(ts[0], limit) then 0 else 1
  }

  /** Blocks spent on the stretches, each split by itself. */
  function StretchBlocks(ss: seq<seq<Entry>>, limit: nat, gap: nat): nat {
    if ss == [] then 0 else |Groups(ss[0], limit, gap)| + StretchBlocks(ss[1..], limit, gap)
  }

  /** No tag of `rest` starts below the block under construction. */
  predicate StartsAfter(current: Group, rest: seq<Entry>) {
    forall t | t in rest :: current[0].address <= t.address
  }

  lemma {:induction false} StretchesOfSplit(current: Group, rest: seq<Entry>, limit: nat, gap: nat)
    requires Sorted(rest) && StartsAfter(current, rest)
    ensures
      var ss := Stretches(rest, limit);
      |Split(current, rest, limit, gap)| ==
        WideCount(rest, limit) + |Split(current, ss[0], limit, gap)| + StretchBlocks(ss[1..], limit, gap)
    decreases |rest|, 0
  {
    if rest != [] {
      var t, tail := rest[0], rest[1..];
      assert t in rest && forall u | u in tail :: u in rest;
      var ss := Stretches(tail, limit);
      if Fitting(t, limit) {
        assert ([t] + ss[0])[1..] == ss[0] && ([[t] + ss[0]] + ss[1..])[1..] == ss[1..];
        if Fits(current, t, limit, gap) {
          StretchesOfSplit(current + [t], tail, limit, gap);
        } else {
          SortedHead(rest);
          StretchesOfSplit([t], tail, limit, gap);
        }
      } else {
        WideDoesNotFit(current, t, limit, gap);
        assert ([[]] + ss)[1..] == ss;
        AfterWide(t, tail, limit, gap);
      }
    }
  }

  lemma SortedHead(ts: seq<Entry>)
    requires Sorted(ts) && ts != []
    ensures Sorted(ts[1..]) && StartsAfter([ts[0]], ts[1..])
  {
    forall t | t in ts[1..]
      ensures ts[0].address <= t.address
    {
      var i :| 0 <= i < |ts[1..]| && ts[1..][i] == t;
      assert Before(ts[0], ts[i + 1]);
    }
  }

  lemma WideDoesNotFit(g: Group, t: Entry, limit: nat, gap: nat)
    requires !Fitting(t, limit) && g[0].address <= t.address
    ensures !Fits(g, t, limit, gap)
  {
  }

  /** Nothing joins a wide tag's block, so what follows it starts afresh. */
  lemma {:induction false} AfterWide(w: Entry, rest: seq<Entry>, limit: nat, gap: nat)
    requires !Fitting(w, limit) && Sorted(rest)
    ensures |Split([w], rest, limit, gap)| == 1 + WideCount(rest, limit) + StretchBlocks(Stretches(rest, limit), limit, gap)
    decreases |rest|, 1
  {
    if rest == [] {
      assert Stretches(rest, limit)[1..] == [];
    } else {
      assert !Fits([w], rest[0], limit, gap);
      StretchesOfGroups(rest, limit, gap);
    }
  }

  /** The greedy split spends one block on each wide tag, and on the others what their stretches need one by one. */
  lemma {:induction false} StretchesOfGroups(ts: seq<Entry>, limit: nat, gap: nat)
    requires Sorted(ts)
    ensures |Groups(ts, limit, gap)| == WideCount(ts, limit) + StretchBlocks(Stretches(ts, limit), limit, gap)
    decreases |ts|, 0
  {
    if ts == [] {
      assert Stretches(ts, limit)[1..] == [];
    } else {
      var t, tail := ts[0], ts[1..];
      SortedHead(ts);
      var ss := Stretches(tail, limit);
      if Fitting(t, limit) {
        StretchesOfSplit([t], tail, limit, gap);
        assert ([t] + ss[0])[1..] == ss[0] && ([[t] + ss[0]] + ss[1..])[1..] == ss[1..];
      } else {
        AfterWide(t, tail, limit, gap);
        assert ([[]] + ss)[1..] == ss;
      }
    }
  }

  // ---------- the stretches are the tags within the limit, in order ----------

  function Kept(ts: seq<Entry>, limit: nat): seq<Entry> {
    if ts == [] then [] else if Fitting(ts[0], limit) then [ts[0]] + Kept(ts[1..], limit) else Kept(ts[1..], limit)
  }

  lemma {:induction false} FlattenStretches(ts: seq<Entry>, limit: nat)
    ensures Flatten(Stretches(ts, limit)) == Kept(ts, limit)
  {
    var ss := Stretches(ts, limit);
    if ts == [] {
      assert ss[1..] == [];
    } else {
      var rest := Stretches(ts[1..], limit);
      FlattenStretches(ts[1..], limit);
      if Fitting(ts[0], limit) {
        assert ss[0] == [ts[0]] + rest[0] && ss[1..] == rest[1..];
      } else {
        assert ss[0] == [] && ss[1..] == rest;
      }
    }
  }

  lemma {:induction false} KeptSize(ts: seq<Entry>, limit: nat)
    ensures WideCount(ts, limit) + |Kept(ts, limit)| == |ts|
  {
    if ts != [] {
      KeptSize(ts[1..], limit);
    }
  }

  lemma {:induction false} KeptFrom(ts: seq<Entry>, limit: nat)
    ensures forall t | t in Kept(ts, limit) :: t in ts
  {
    if ts != [] {
      KeptFrom(ts[1..], limit);
    }
  }

  lemma {:induction false} KeptSnoc(ts: seq<Entry>, t: Entry, limit: nat)
    ensures Kept(ts + [t], limit) == Kept(ts, limit) + if Fitting(t, limit) then [t] else []
  {
    if ts == [] {
      assert ts + [t] == [t] && [t][1..] == [];
    } else {
      assert (ts + [t])[0] == ts[0] && (ts + [t])[1..] == ts[1..] + [t];
      KeptSnoc(ts[1..], t, limit);
      ConcatAssocLeft([ts[0]], Kept(ts[1..], limit), if Fitting(t, limit) then [t] else []);
    }
  }

  lemma InsertFirst(t: Entry, ts: seq<Entry>)
    requires ts == [] || Before(t, ts[0])
    ensures Insert(t, ts) == [t] + ts
  {
  }

  lemma InsertLater(t: Entry, head: Entry, ts: seq<Entry>)
    requires !Before(t, head)
    ensures Insert(t, [head] + ts) == [head] + Insert(t, ts)
  {
    assert ([head] + ts)[1..] == ts;
  }

  lemma {:induction false} InsertKept(t: Entry, ts: seq<Entry>, limit: nat)
    requires Sorted(ts)
    ensures Kept(Insert(t, ts), limit) == if Fitting(t, limit) then Insert(t, Kept(ts, limit)) else Kept(ts, limit)
  {
    if ts == [] || Before(t, ts[0]) {
      InsertFirst(t, ts);
      KeptFirst(t, ts, limit);
      InsertBeforeKept(t, ts, limit);
    } else {
      SortedHead(ts);
      InsertKept(t, ts[1..], limit);
      InsertKeptLater(t, ts[0], ts[1..], limit);
      assert ts == [ts[0]] + ts[1..];
    }
  }

  lemma InsertKeptLater(t: Entry, head: Entry, ts: seq<Entry>, limit: nat)
    requires !Before(t, head)
    requires Kept(Insert(t, ts), limit) == if Fitting(t, limit) then Insert(t, Kept(ts, limit)) else Kept(ts, limit)
    ensures Kept(Insert(t, [head] + ts), limit) == if Fitting(t, limit) then Insert(t, Kept([head] + ts, limit)) else Kept([head] + ts, limit)
  {
    InsertLater(t, head, ts);
    KeptFirst(head, Insert(t, ts), limit);
    KeptFirst(head, ts, limit);
    InsertLater(t, head, Kept(ts, limit));
  }

  lemma KeptFirst(t: Entry, ts: seq<Entry>, limit: nat)
    ensures Kept([t] + ts, limit) == if Fitting(t, limit) then [t] + Kept(ts, limit) else Kept(ts, limit)
  {
    assert ([t] + ts)[1..] == ts;
  }

  lemma InsertBeforeKept(t: Entry, ts: seq<Entry>, limit: nat)
    requires Sorted(ts) && (ts == [] || Before(t, ts[0]))
    ensures Insert(t, Kept(ts, limit)) == [t] + Kept(ts, limit)
  {
    KeptFrom(ts, limit);
    if Kept(ts, limit) != [] {
      var x := Kept(ts, limit)[0];
      assert x in Kept(ts, limit);
      var i :| 0 <= i < |ts| && ts[i] == x;
      assert i > 0 ==> Before(ts[0], ts[i]);
    }
    InsertFirst(t, Kept(ts, limit));
  }

  lemma SortFirst(t: Entry, ts: seq<Entry>)
    ensures SortEntries([t] + ts) == Insert(t, SortEntries(ts))
  {
    assert ([t] + ts)[1..] == ts;
  }

  /** Sorting the tags within the limit is sorting all of them and leaving out the wide ones. */
  lemma {:induction false} SortKept(ts: seq<Entry>, limit: nat)
    ensures SortEntries(Kept(ts, limit)) == Kept(SortEntries(ts), limit)
  {
    if ts != [] {
      SortKept(ts[1..], limit);
      SortEntriesSorted(ts[1..]);
      InsertKept(ts[0], SortEntries(ts[1..]), limit);
      SortFirst(ts[0], Kept(ts[1..], limit));
    }
  }

  lemma {:induction false} NarrowOfFunction(entries: seq<Entry>, f: ReadFunction, limits: Limits)
    ensures OfFunction(NarrowTags(entries, limits), f) == Kept(OfFunction(entries, f), Limit(f, limits))
  {
    if entries != [] {
      var front, last := entries[..|entries| - 1], entries[|entries| - 1];
      assert entries == front + [last];
      NarrowOfFunction(front, f, limits);
      FilterSnoc(front, last, (t: Entry) => !Wide(t, limits));
      FilterSnoc(front, last, (t: Entry) => t.readFunction == f);
      FilterSnoc(NarrowTags(front, limits), last, (t: Entry) => t.readFunction == f);
      KeptSnoc(OfFunction(front, f), last, Limit(f, limits));
      assert OfFunction(front, f) + [] == OfFunction(front, f) && NarrowTags(front, limits) + [] == NarrowTags(front, limits);
    }
  }

  /** The sorted tags of one function code. */
  function Ordered(entries: seq<Entry>, f: ReadFunction): seq<Entry> {
    SortEntries(OfFunction(entries, f))
  }

  lemma OrderedNarrow(entries: seq<Entry>, f: ReadFunction, limits: Limits)
    ensures Ordered(NarrowTags(entries, limits), f) == Kept(Ordered(entries, f), Limit(f, limits))
  {
    NarrowOfFunction(entries, f, limits);
    SortKept(OfFunction(entries, f), Limit(f, limits));
  }

  // ---------- counting over the function codes ----------

  lemma {:induction false} FunctionSizes(entries: seq<Entry>)
    ensures |entries| == |OfFunction(entries, ReadCoils)| + |OfFunction(entries, ReadDiscreteInputs)|
                         + |OfFunction(entries, ReadHoldingRegisters)| + |OfFunction(entries, ReadInputRegisters)|
  {
    if entries != [] {
      FunctionSizes(entries[..|entries| - 1]);
    }
  }

  lemma OrderedSize(entries: seq<Entry>, f: ReadFunction)
    ensures |Ordered(entries, f)| == |OfFunction(entries, f)|
  {
    SameElements(Ordered(entries, f), OfFunction(entries, f));
  }

  function WideOf(entries: seq<Entry>, f: ReadFunction, limits: Limits): nat {
    WideCount(Ordered(entries, f), Limit(f, limits))
  }

  /** Blocks the stretches of one function code need, cut by the wide tags ... */
  function CutBlocks(entries: seq<Entry>, f: ReadFunction, limits: Limits): nat {
    StretchBlocks(Stretches(Ordered(entries, f), Limit(f, limits)), Limit(f, limits), limits.maxBlockGap)
  }

  /** ... and the blocks the same tags need in one piece. */
  function WholeBlocks(entries: seq<Entry>, f: ReadFunction, limits: Limits): nat {
    |Groups(Flatten(Stretches(Ordered(entries, f), Limit(f, limits))), Limit(f, limits), limits.maxBlockGap)|
  }

  lemma FunctionCounts(entries: seq<Entry>, f: ReadFunction, limits: Limits)
    ensures |PlanFor(entries, f, limits)| == WideOf(entries, f, limits) + CutBlocks(entries, f, limits)
    ensures |PlanFor(NarrowTags(entries, limits), f, limits)| == WholeBlocks(entries, f, limits)
    ensures |OfFunction(entries, f)| == WideOf(entries, f, limits) + |OfFunction(NarrowTags(entries, limits), f)|
  {
    SortEntriesSorted(OfFunction(entries, f));
    StretchesOfGroups(Ordered(entries, f), Limit(f, limits), limits.maxBlockGap);
    FlattenStretches(Ordered(entries, f), Limit(f, limits));
    OrderedNarrow(entries, f, limits);
    KeptSize(Ordered(entries, f), Limit(f, limits));
    OrderedSize(entries, f);
    OrderedSize(NarrowTags(entries, limits), f);
  }

  /** The plan's size and the smallest size, function code by function code. */
  lemma Sizes(entries: seq<Entry>, limits: Limits)
    ensures
      var w := WideOf(entries, ReadCoils, limits) + WideOf(entries, ReadDiscreteInputs, limits)
               + WideOf(entries, ReadHoldingRegisters, limits) + WideOf(entries, ReadInputRegisters, limits);
      && |WideTags(entries, limits)| == w
      && |Plan(entries, limits)| == w + CutBlocks(entries, ReadCoils, limits) + CutBlocks(entries, ReadDiscreteInputs, limits)
                                    + CutBlocks(entries, ReadHoldingRegisters, limits) + CutBlocks(entries, ReadInputRegisters, limits)
      && |Plan(NarrowTags(entries, limits), limits)|
         == WholeBlocks(entries, ReadCoils, limits) + WholeBlocks(entries, ReadDiscreteInputs, limits)
            + WholeBlocks(entries, ReadHoldingRegisters, limits) + WholeBlocks(entries, ReadInputRegisters, limits)
  {
    FourFunctions(entries, limits);
    FourFunctions(NarrowTags(entries, limits), limits);
    FunctionCounts(entries, ReadCoils, limits);
    FunctionCounts(entries, ReadDiscreteInputs, limits);
    FunctionCounts(entries, ReadHoldingRegisters, limits);
    FunctionCounts(entries, ReadInputRegisters, limits);
    FunctionSizes(entries);
    FunctionSizes(NarrowTags(entries, limits));
    FilterSplit(entries, (t: Entry) => Wide(t, limits), (t: Entry) => !Wide(t, limits));
  }

  // ---------- a cut never saves a block ----------

  lemma OfFunctionAgain(entries: seq<Entry>, f: ReadFunction, g: ReadFunction)
    ensures OfFunction(OfFunction(entries, f), g) == if f == g then OfFunction(entries, f) else []
  {
    FilterMembers(entries, (t: Entry) => t.readFunction == f);
    if f == g {
      FilterAll(OfFunction(entries, f), (t: Entry) => t.readFunction == g);
    } else {
      FilterNone(OfFunction(entries, f), (t: Entry) => t.readFunction == g);
    }
  }

  /** For the tags of one function code alone, the other codes need nothing. */
  lemma Alone(entries: seq<Entry>, f: ReadFunction, limits: Limits, g: ReadFunction)
    ensures
      var of := OfFunction(entries, f);
      && (f == g ==> CutBlocks(of, g, limits) == CutBlocks(entries, f, limits) && WholeBlocks(of, g, limits) == WholeBlocks(entries, f, limits))
      && (f != g ==> CutBlocks(of, g, limits) == 0 == WholeBlocks(of, g, limits))
  {
    OfFunctionAgain(entries, f, g);
    if f != g {
      NothingToRead([], Limit(g, limits), limits.maxBlockGap);
    }
  }

  lemma NothingToRead(ts: seq<Entry>, limit: nat, gap: nat)
    requires ts == []
    ensures SortEntries(ts) == [] && StretchBlocks(Stretches(ts, limit), limit, gap) == 0
    ensures Groups(Flatten(Stretches(ts, limit)), limit, gap) == []
  {
    var ss := Stretches(ts, limit);
    assert ss == [[]] && ss[1..] == [];
    assert Flatten(ss) == ss[0] + Flatten(ss[1..]) == [];
  }

  lemma CutsCost(entries: seq<Entry>, f: ReadFunction, limits: Limits)
    ensures CutBlocks(entries, f, limits) >= WholeBlocks(entries, f, limits)
  {
    var of := OfFunction(entries, f);
    PlanIsValid(of, limits);
    LowerBound(Plan(of, limits), of, limits);
    Sizes(of, limits);
    Alone(entries, f, limits, ReadCoils);
    Alone(entries, f, limits, ReadDiscreteInputs);
    Alone(entries, f, limits, ReadHoldingRegisters);
    Alone(entries, f, limits, ReadInputRegisters);
  }

  /**
   The plan is a smallest valid partition if and only if, for every function code, cutting the sorted tags that fit
   the limit wherever a wider tag sorts among them costs no block.
   */
  lemma OptimalIff(entries: seq<Entry>, limits: Limits)
    ensures Optimal(entries, limits) <==> forall f: ReadFunction :: CutBlocks(entries, f, limits) == WholeBlocks(entries, f, limits)
  {
    OptimalSize(entries, limits);
    Sizes(entries, limits);
    CutsCost(entries, ReadCoils, limits);
    CutsCost(entries, ReadDiscreteInputs, limits);
    CutsCost(entries, ReadHoldingRegisters, limits);
    CutsCost(entries, ReadInputRegisters, limits);
    if Optimal(entries, limits) {
      forall f: ReadFunction
        ensures CutBlocks(entries, f, limits) == WholeBlocks(entries, f, limits)
      {
        match f
        case ReadCoils =>
        case ReadDiscreteInputs =>
        case ReadHoldingRegisters =>
        case ReadInputRegisters =>
      }
    }
  }

  // ---------- cuts between blocks cost nothing ----------

  /** Position `n` of the split sequence lies between two of its groups, or at an end. */
  predicate Between(groups: seq<Group>, n: int) {
    n == 0 || (groups != [] && Between(groups[1..], n - |groups[0]|))
  }

  lemma {:induction false} NotBelow(groups: seq<Group>, n: int)
    requires n < 0
    ensures !Between(groups, n)
  {
    if groups != [] {
      NotBelow(groups[1..], n - |groups[0]|);
    }
  }

  lemma {:induction false} SplitExtends(current: Group, rest: seq<Entry>, limit: nat, gap: nat)
    ensures |Split(current, rest, limit, gap)[0]| >= |current|
    decreases |rest|
  {
    if rest != [] && Fits(current, rest[0], limit, gap) {
      SplitExtends(current + [rest[0]], rest[1..], limit, gap);
    }
  }

  /** Where one group ends, the split goes on as if it started there. */
  lemma {:induction false} SplitBetween(current: Group, a: seq<Entry>, b: seq<Entry>, limit: nat, gap: nat)
    requires Between(Split(current, a + b, limit, gap), |current| + |a|)
    ensures Split(current, a + b, limit, gap) == Split(current, a, limit, gap) + Groups(b, limit, gap)
    decreases |a|
  {
    var groups := Split(current, a + b, limit, gap);
    if a == [] {
      assert a + b == b;
      if b != [] && Fits(current, b[0], limit, gap) {
        SplitExtends(current + [b[0]], b[1..], limit, gap);
        NotBelow(groups[1..], |current| - |groups[0]|);
        assert false;
      }
    } else {
      assert (a + b)[0] == a[0] && (a + b)[1..] == a[1..] + b;
      if Fits(current, a[0], limit, gap) {
        SplitBetween(current + [a[0]], a[1..], b, limit, gap);
      } else {
        var later := Split([a[0]], a[1..] + b, limit, gap);
        assert groups == [current] + later && groups[1..] == later;
        SplitBetween([a[0]], a[1..], b, limit, gap);
        ConcatAssocLeft([current], Split([a[0]], a[1..], limit, gap), Groups(b, limit, gap));
      }
    }
  }

  lemma GroupsBetween(whole: seq<Entry>, a: seq<Entry>, b: seq<Entry>, limit: nat, gap: nat)
    requires whole != [] && a != [] && whole[0] == a[0] && whole[1..] == a[1..] + b
    requires Between(Groups(whole, limit, gap), 1 + |a[1..]|)
    ensures Groups(whole, limit, gap) == Groups(a, limit, gap) + Groups(b, limit, gap)
  {
    SplitBetween([a[0]], a[1..], b, limit, gap);
  }

  lemma HeadAndTail(whole: seq<Entry>, a: seq<Entry>, b: seq<Entry>)
    requires whole == a + b && a != []
    ensures whole != [] && whole[0] == a[0] && whole[1..] == a[1..] + b && |a[1..]| == |a| - 1
  {
  }

  lemma {:induction false} BetweenSuffix(x: seq<Group>, y: seq<Group>, n: int)
    requires Between(x + y, |Flatten(x)| + n) && n >= 0
    ensures Between(y, n)
  {
    if x == [] {
      assert x + y == y;
    } else {
      assert (x + y)[0] == x[0] && (x + y)[1..] == x[1..] + y;
      BetweenSuffix(x[1..], y, n);
    }
  }

  lemma GroupsFlatten(ts: seq<Entry>, limit: nat, gap: nat)
    ensures Flatten(Groups(ts, limit, gap)) == ts
  {
    if ts != [] {
      SplitFlatten([ts[0]], ts[1..], limit, gap);
    }
  }

  /** Every cut lies between two groups of the uncut split. */
  predicate CutsBetween(ss: seq<seq<Entry>>, limit: nat, gap: nat) {
    forall i | 0 <= i <= |ss| :: Between(Groups(Flatten(ss), limit, gap), |Flatten(ss[..i])|)
  }

  lemma {:induction false} CutsBetweenCostNothing(ss: seq<seq<Entry>>, limit: nat, gap: nat)
    requires CutsBetween(ss, limit, gap)
    ensures StretchBlocks(ss, limit, gap) == |Groups(Flatten(ss), limit, gap)|
  {
    if ss != [] {
      FirstCut(ss, limit, gap);
      LaterCuts(ss, limit, gap);
      CutsBetweenCostNothing(ss[1..], limit, gap);
    }
  }

  lemma FirstCut(ss: seq<seq<Entry>>, limit: nat, gap: nat)
    requires CutsBetween(ss, limit, gap) && ss != []
    ensures Groups(Flatten(ss), limit, gap) == Groups(ss[0], limit, gap) + Groups(Flatten(ss[1..]), limit, gap)
  {
    var a, b := ss[0], Flatten(ss[1..]);
    FlattenOne(ss, 1);
    assert ss[1..][..0] == [];
    assert Between(Groups(a + b, limit, gap), |a|);
    if a == [] {
      assert a + b == b;
      assert Groups(a, limit, gap) + Groups(b, limit, gap) == Groups(b, limit, gap);
    } else {
      HeadAndTail(a + b, a, b);
      GroupsBetween(a + b, a, b, limit, gap);
    }
  }

  lemma LaterCuts(ss: seq<seq<Entry>>, limit: nat, gap: nat)
    requires CutsBetween(ss, limit, gap) && ss != []
    requires Groups(Flatten(ss), limit, gap) == Groups(ss[0], limit, gap) + Groups(Flatten(ss[1..]), limit, gap)
    ensures CutsBetween(ss[1..], limit, gap)
  {
    var ga, gb := Groups(ss[0], limit, gap), Groups(Flatten(ss[1..]), limit, gap);
    GroupsFlatten(ss[0], limit, gap);
    forall i | 0 <= i <= |ss[1..]|
      ensures Between(gb, |Flatten(ss[1..][..i])|)
    {
      LaterCut(ga, gb, ss, i);
    }
  }

  lemma LaterCut(ga: seq<Group>, gb: seq<Group>, ss: seq<seq<Entry>>, i: nat)
    requires ss != [] && i < |ss| && Flatten(ga) == ss[0] && Between(ga + gb, |Flatten(ss[..i + 1])|)
    ensures Between(gb, |Flatten(ss[1..][..i])|)
  {
    FlattenOne(ss, i + 1);
    BetweenSuffix(ga, gb, |Flatten(ss[1..][..i])|);
  }

  lemma FlattenOne(ss: seq<seq<Entry>>, n: nat)
    requires 1 <= n <= |ss|
    ensures Flatten(ss[..n]) == ss[0] + Flatten(ss[1..][..n - 1])
  {
    assert ss[..n][0] == ss[0] && ss[..n][1..] == ss[1..][..n - 1];
  }

  /** In particular the plan is optimal when no wide tag sorts strictly inside a block of the plan without the wide tags. */
  lemma BetweenBlocksOptimal(entries: seq<Entry>, limits: Limits)
    requires forall f: ReadFunction ::
               CutsBetween(Stretches(Ordered(entries, f), Limit(f, limits)), Limit(f, limits), limits.maxBlockGap)
    ensures Optimal(entries, limits)
  {
    OptimalIff(entries, limits);
    forall f: ReadFunction
      ensures CutBlocks(entries, f, limits) == WholeBlocks(entries, f, limits)
    {
      CutsBetweenCostNothing(Stretches(Ordered(entries, f), Limit(f, limits)), Limit(f, limits), limits.maxBlockGap);
    }
  }
}
