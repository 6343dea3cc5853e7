/** The order in which a plan reads the tags. */
module ReadPlanOrder {
  import opened Basics
  import opened ModbusCodec
  import opened ReadPlanner
  import opened ReadPlanLaws

  /** Tags by function code, then by address, then by span. */
  predicate InOrder(ts: seq<Entry>) {
    forall i, j | 0 <= i < j < |ts| :: Precedes(ts[i], ts[j])
  }

  predicate Precedes(s: Entry, t: Entry) {
    || s.readFunction.Code() < t.readFunction.Code()
    || (s.readFunction == t.readFunction && s.address < t.address)
    || (s.readFunction == t.readFunction && s.address == t.address && s.span <= t.span)
  }

  predicate Ascending(fs: seq<ReadFunction>) {
    forall i, j | 0 <= i < j < |fs| :: fs[i].Code() < fs[j].Code()
  }

  /** Read in plan order, the tags of all blocks come by function code, then by address. */
  lemma PlanInOrder(entries: seq<Entry>, limits: Limits)
    ensures InOrder(Flatten(Plan(entries, limits)))
  {
    OrderedFrom(entries, FUNCTIONS, limits);
  }

  lemma {:induction false} OrderedFrom(entries: seq<Entry>, fs: seq<ReadFunction>, limits: Limits)
    requires Ascending(fs)
    ensures InOrder(Flatten(PlanFrom(entries, fs, limits)))
    ensures forall x | x in Flatten(PlanFrom(entries, fs, limits)) :: x.readFunction in fs
  {
    if fs != [] {
      var rest := fs[1..];
      assert Ascending(rest) && forall f | f in rest :: fs[0].Code() < f.Code();
      OrderedFrom(entries, rest, limits);
      OneFunction(entries, fs[0], limits);
      FlattenAppend(PlanFor(entries, fs[0], limits), PlanFrom(entries, rest, limits));
      OrderedAppend(Flatten(PlanFor(entries, fs[0], limits)), Flatten(PlanFrom(entries, rest, limits)), fs[0]);
    }
  }

  lemma OneFunction(entries: seq<Entry>, f: ReadFunction, limits: Limits)
    ensures
      var ts := Flatten(PlanFor(entries, f, limits));
      Sorted(ts) && forall x | x in ts :: x.readFunction == f
  {
    PlanForShape(entries, f, limits);
    SortEntriesSorted(OfFunction(entries, f));
    SameElements(SortEntries(OfFunction(entries, f)), OfFunction(entries, f));
    OfFunctionMembers(entries, f);
  }

  lemma OrderedAppend(a: seq<Entry>, b: seq<Entry>, f: ReadFunction)
    requires Sorted(a) && (forall x | x in a :: x.readFunction == f)
    requires InOrder(b) && forall x | x in b :: f.Code() < x.readFunction.Code()
    ensures InOrder(a + b)
  {
    var ts := a + b;
    forall i, j | 0 <= i < j < |ts|
      ensures Precedes(ts[i], ts[j])
    {
      if j < |a| {
        assert ts[i] == a[i] && ts[j] == a[j] && a[i] in a && a[j] in a;
      } else if i < |a| {
        assert ts[i] == a[i] && ts[j] == b[j - |a|] && a[i] in a && b[j - |a|] in b;
      } else {
        assert ts[i] == b[i - |a|] && ts[j] == b[j - |a|];
      }
    }
  }
}
