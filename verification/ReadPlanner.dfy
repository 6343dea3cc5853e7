/**
 The read-request planner: tags of one function code, sorted by address, are coalesced greedily into
 block reads. The loop is tied to a recursive split of the sorted tags; what the plan guarantees is
 proved in the module ReadPlanLaws.
 */
module ReadPlanner {
  import opened Basics
  import opened ModbusCodec
  import Types = ModbusDatatypes

  datatype Tag = Tag(
    id: string,
    readFunction: ReadFunction,
    address: int,
    dataType: Types.DataType,
    wordOrder: Types.Order,
    byteOrder: Types.Order)

  datatype PlannedTag = PlannedTag(tag: Tag, offset: int, span: nat)
  datatype ReadBlock = ReadBlock(readFunction: ReadFunction, address: int, quantity: int, tags: seq<PlannedTag>)

  /** Limits of one tag group; the gap tolerance is non-negative by the configuration schema. */
  datatype Limits = Limits(maxBlockSize: Option<int>, maxBlockGap: nat)

  type Positive = n: int | n >= 1 witness 1

  /** A tag with its place on the wire: what the planner sorts and coalesces. */
  datatype Entry = Entry(readFunction: ReadFunction, address: int, span: Positive, tag: Tag) {
    function End(): int {
      address + span
    }
  }

  type Group = g: seq<Entry> | g != []
    witness [Entry(ReadCoils, 0, 1, Tag("", ReadCoils, 0, Types.UInt16, Types.Big, Types.Big))]

  function Max(a: int, b: int): int {
    if a >= b then a else b
  }

  function Min(a: int, b: int): int {
    if a <= b then a else b
  }

  /** Registers or bits a tag occupies; a bit tag's data type is ignored. */
  function TagSpan(tag: Tag): Result<Positive, Types.Error> {
    if tag.readFunction.IsBit() then Ok(1)
    else match Types.RegisterCount(tag.dataType)
      case Ok(n) => Ok(n)
      case Err(e) => Err(e)
  }

  /** The largest quantity a coalesced block of this function code may ask for. */
  function Limit(f: ReadFunction, limits: Limits): (n: nat)
    ensures 1 <= n <= f.MaxQuantity()
  {
    match limits.maxBlockSize
    case None => f.MaxQuantity()
    case Some(size) => Min(f.MaxQuantity(), Max(1, size))
  }

  // ---------- sorting ----------

  predicate Before(s: Entry, t: Entry) {
    s.address < t.address || (s.address == t.address && s.span <= t.span)
  }

  predicate Sorted(ts: seq<Entry>) {
    forall i, j | 0 <= i < j < |ts| :: Before(ts[i], ts[j])
  }

  function Insert(t: Entry, ts: seq<Entry>): (r: seq<Entry>)
    ensures multiset(r) == multiset([t]) + multiset(ts)
  {
    if ts == [] then [t]
    else if Before(t, ts[0]) then [t] + ts
    else
      assert ts == [ts[0]] + ts[1..];
      [ts[0]] + Insert(t, ts[1..])
  }

  /** Stable sort by (address, span). */
  function SortEntries(ts: seq<Entry>): (r: seq<Entry>)
    ensures multiset(r) == multiset(ts)
  {
    if ts == [] then []
    else
      assert ts == [ts[0]] + ts[1..];
      Insert(ts[0], SortEntries(ts[1..]))
  }

  lemma {:induction false} InsertSorted(t: Entry, ts: seq<Entry>)
    requires Sorted(ts)
    ensures Sorted(Insert(t, ts))
  {
    if ts != [] && !Before(t, ts[0]) {
      var rest := Insert(t, ts[1..]);
      InsertSorted(t, ts[1..]);
      SameElements(rest, [t] + ts[1..]);
      forall x | x in rest
        ensures Before(ts[0], x)
      {
      }
    }
  }

  lemma {:induction false} SortEntriesSorted(ts: seq<Entry>)
    ensures Sorted(SortEntries(ts))
  {
    if ts != [] {
      SortEntriesSorted(ts[1..]);
      InsertSorted(ts[0], SortEntries(ts[1..]));
    }
  }

  // ---------- greedy coalescing ----------

  /** One past the last address a group covers. */
  function MaxEnd(g: Group): int {
    if |g| == 1 then g[0].End() else Max(MaxEnd(g[..|g| - 1]), g[|g| - 1].End())
  }

  /** The loop's test: may `t` join the block `g` under construction? */
  predicate Fits(g: Group, t: Entry, limit: nat, gap: nat) {
    Max(MaxEnd(g), t.End()) - g[0].address <= limit && t.address - MaxEnd(g) <= gap
  }

  function Split(current: Group, rest: seq<Entry>, limit: nat, gap: nat): (groups: seq<Group>)
    ensures groups != []
    decreases |rest|
  {
    if rest == [] then [current]
    else if Fits(current, rest[0], limit, gap) then Split(current + [rest[0]], rest[1..], limit, gap)
    else [current] + Split([rest[0]], rest[1..], limit, gap)
  }

  function Groups(spans: seq<Entry>, limit: nat, gap: nat): seq<Group> {
    if spans == [] then [] else Split([spans[0]], spans[1..], limit, gap)
  }

  function Planned(start: int, entries: seq<Entry>): seq<PlannedTag> {
    if entries == [] then []
    else [PlannedTag(entries[0].tag, entries[0].address - start, entries[0].span)] + Planned(start, entries[1..])
  }

  function BuildBlock(f: ReadFunction, start: int, end: int, entries: seq<Entry>): ReadBlock {
    ReadBlock(f, start, end - start, Planned(start, entries))
  }

  /** The request a group of tags stands for. */
  function BlockOf(g: Group): ReadBlock {
    BuildBlock(g[0].readFunction, g[0].address, MaxEnd(g), g)
  }

  function Blocks(groups: seq<Group>): seq<ReadBlock> {
    if groups == [] then [] else [BlockOf(groups[0])] + Blocks(groups[1..])
  }

  /** The requests still to come while `current` is open (or nothing is) and `rest` is unread. */
  function Remaining(current: seq<Entry>, rest: seq<Entry>, limit: nat, gap: nat): seq<ReadBlock>
    requires current != [] || rest != []
  {
    Blocks(if current == [] then Groups(rest, limit, gap) else Split(current, rest, limit, gap))
  }

  lemma MaxEndSnoc(g: Group, t: Entry)
    ensures MaxEnd(g + [t]) == Max(MaxEnd(g), t.End())
  {
    assert (g + [t])[..|g|] == g;
  }

  /** `t` opens the first block or joins the open one. */
  lemma RemainingJoin(current: seq<Entry>, t: Entry, rest: seq<Entry>, limit: nat, gap: nat)
    requires current == [] || Fits(current, t, limit, gap)
    ensures Remaining(current, [t] + rest, limit, gap) == Remaining(current + [t], rest, limit, gap)
  {
    assert [] + [t] == [t] && ([t] + rest)[1..] == rest;
  }

  /** `t` closes the open block and opens the next. */
  lemma RemainingClose(done: seq<ReadBlock>, current: Group, t: Entry, rest: seq<Entry>, limit: nat, gap: nat)
    requires !Fits(current, t, limit, gap)
    ensures done + Remaining(current, [t] + rest, limit, gap)
         == (done + [BlockOf(current)]) + Remaining([t], rest, limit, gap)
  {
    assert ([t] + rest)[1..] == rest;
    assert Split(current, [t] + rest, limit, gap) == [current] + Split([t], rest, limit, gap);
  }

  /** The coalescing loop over the sorted tags of one function code. */
  method Coalesce(spans: seq<Entry>, f: ReadFunction, limit: nat, gap: nat) returns (blocks: seq<ReadBlock>)
    requires spans != []
    requires forall i | 0 <= i < |spans| :: spans[i].readFunction == f
    ensures blocks == Blocks(Groups(spans, limit, gap))
  {
    ghost var goal := Remaining([], spans, limit, gap);
    blocks := [];
    var start := spans[0].address;
    var end := start;
    var current: seq<Entry> := [];
    for i := 0 to |spans|
      invariant current == [] <==> i == 0
      invariant current == [] ==> end == start == spans[0].address
      invariant current != [] ==> current[0].readFunction == f && start == current[0].address && end == MaxEnd(current)
      invariant blocks + Remaining(current, spans[i..], limit, gap) == goal
    {
      var t := spans[i];
      var candidateEnd := Max(end, t.address + t.span);
      var fits := candidateEnd - start <= limit && (current == [] || t.address - end <= gap);
      assert spans[i..] == [t] + spans[i + 1..];
      if current != [] && !fits {
        RemainingClose(blocks, current, t, spans[i + 1..], limit, gap);
        blocks := blocks + [BuildBlock(f, start, end, current)];
        start, end, current := t.address, t.address + t.span, [t];
      } else {
        RemainingJoin(current, t, spans[i + 1..], limit, gap);
        end := candidateEnd;
        if current == [] {
          start := t.address;
        } else {
          MaxEndSnoc(current, t);
        }
        current := current + [t];
      }
    }
    assert Split(current, [], limit, gap) == [current] && Blocks([current]) == [BlockOf(current)];
    blocks := blocks + [BuildBlock(f, start, end, current)];
  }

  method PlanOneFunctionCode(tags: seq<Entry>, f: ReadFunction, limit: nat, gap: nat) returns (blocks: seq<ReadBlock>)
    requires tags != []
    requires forall t | t in tags :: t.readFunction == f
    ensures blocks == Blocks(Groups(SortEntries(tags), limit, gap))
  {
    SameElements(SortEntries(tags), tags);
    blocks := Coalesce(SortEntries(tags), f, limit, gap);
  }

  // ---------- all function codes ----------

  const FUNCTIONS: seq<ReadFunction> := [ReadCoils, ReadDiscreteInputs, ReadHoldingRegisters, ReadInputRegisters]

  predicate AllKnown(tags: seq<Tag>) {
    forall i | 0 <= i < |tags| :: TagSpan(tags[i]).Ok?
  }

  function Entries(tags: seq<Tag>): (es: seq<Entry>)
    requires AllKnown(tags)
  {
    if tags == [] then []
    else
      var last := tags[|tags| - 1];
      Entries(tags[..|tags| - 1]) + [Entry(last.readFunction, last.address, TagSpan(last).value, last)]
  }

  function OfFunction(entries: seq<Entry>, f: ReadFunction): seq<Entry> {
    Filter(entries, (t: Entry) => t.readFunction == f)
  }

  function PlanFor(entries: seq<Entry>, f: ReadFunction, limits: Limits): seq<Group> {
    Groups(SortEntries(OfFunction(entries, f)), Limit(f, limits), limits.maxBlockGap)
  }

  function PlanFrom(entries: seq<Entry>, fs: seq<ReadFunction>, limits: Limits): seq<Group> {
    if fs == [] then [] else PlanFor(entries, fs[0], limits) + PlanFrom(entries, fs[1..], limits)
  }

  /** The plan as groups of tags, function codes in ascending order. */
  function Plan(entries: seq<Entry>, limits: Limits): seq<Group> {
    PlanFrom(entries, FUNCTIONS, limits)
  }

  lemma ConcatAssocLeft<T>(a: seq<T>, b: seq<T>, c: seq<T>)
    ensures (a + b) + c == a + (b + c)
  {
  }

  lemma {:induction false} BlocksAppend(a: seq<Group>, b: seq<Group>)
    ensures Blocks(a + b) == Blocks(a) + Blocks(b)
  {
    if a == [] {
      assert a + b == b;
    } else {
      BlocksAppend(a[1..], b);
      assert (a + b)[1..] == a[1..] + b && (a + b)[0] == a[0];
      ConcatAssocLeft([BlockOf(a[0])], Blocks(a[1..]), Blocks(b));
    }
  }

  /** The tags read so far, by function code. */
  ghost predicate Partitioned(byFunction: map<ReadFunction, seq<Entry>>, entries: seq<Entry>) {
    forall f: ReadFunction ::
      && (f in byFunction ==> byFunction[f] != [] && byFunction[f] == OfFunction(entries, f))
      && (f !in byFunction ==> OfFunction(entries, f) == [])
  }

  /** The first loop: collect the tags of each function code, in configuration order. */
  method GroupByFunction(tags: seq<Tag>) returns (r: Result<map<ReadFunction, seq<Entry>>, Types.Error>)
    ensures r.Ok? <==> AllKnown(tags)
    ensures r.Ok? ==> Partitioned(r.value, Entries(tags))
  {
    var byFunction: map<ReadFunction, seq<Entry>> := map[];
    for i := 0 to |tags|
      invariant AllKnown(tags[..i]) && Partitioned(byFunction, Entries(tags[..i]))
    {
      var tag := tags[i];
      var f := tag.readFunction;
      match TagSpan(tag) {
        case Err(e) => return Err(e);
        case Ok(span) =>
          var entry := Entry(f, tag.address, span, tag);
          assert tags[..i + 1][..i] == tags[..i];
          PartitionedSnoc(byFunction, Entries(tags[..i]), entry);
          byFunction := byFunction[f := (if f in byFunction then byFunction[f] else []) + [entry]];
      }
    }
    assert tags[..|tags|] == tags;
    r := Ok(byFunction);
  }

  lemma PlanStep(done: seq<ReadBlock>, entries: seq<Entry>, fs: seq<ReadFunction>, limits: Limits)
    requires fs != []
    ensures done + Blocks(PlanFrom(entries, fs, limits))
         == (done + Blocks(PlanFor(entries, fs[0], limits))) + Blocks(PlanFrom(entries, fs[1..], limits))
  {
    BlocksAppend(PlanFor(entries, fs[0], limits), PlanFrom(entries, fs[1..], limits));
    ConcatAssocLeft(done, Blocks(PlanFor(entries, fs[0], limits)), Blocks(PlanFrom(entries, fs[1..], limits)));
  }

  lemma OfFunctionMembers(entries: seq<Entry>, f: ReadFunction)
    ensures forall t :: t in OfFunction(entries, f) <==> t in entries && t.readFunction == f
  {
    FilterMembers(entries, (t: Entry) => t.readFunction == f);
  }

  /** The blocks of one function code: none when no tag uses it. */
  method PlanFunction(byFunction: map<ReadFunction, seq<Entry>>, ghost entries: seq<Entry>, f: ReadFunction, limits: Limits)
    returns (blocks: seq<ReadBlock>)
    requires Partitioned(byFunction, entries)
    ensures blocks == Blocks(PlanFor(entries, f, limits))
  {
    if f in byFunction {
      OfFunctionMembers(entries, f);
      blocks := PlanOneFunctionCode(byFunction[f], f, Limit(f, limits), limits.maxBlockGap);
    } else {
      assert PlanFor(entries, f, limits) == [];
      blocks := [];
    }
  }

  /** The second loop: plan the function codes that occur, in the given order. */
  method PlanEach(byFunction: map<ReadFunction, seq<Entry>>, ghost entries: seq<Entry>, fs: seq<ReadFunction>, limits: Limits)
    returns (blocks: seq<ReadBlock>)
    requires Partitioned(byFunction, entries)
    ensures blocks == Blocks(PlanFrom(entries, fs, limits))
  {
    ghost var goal := Blocks(PlanFrom(entries, fs, limits));
    blocks := [];
    var pending := fs;
    while pending != []
      invariant blocks + Blocks(PlanFrom(entries, pending, limits)) == goal
      decreases |pending|
    {
      PlanStep(blocks, entries, pending, limits);
      var more := PlanFunction(byFunction, entries, pending[0], limits);
      blocks := blocks + more;
      pending := pending[1..];
    }
  }

  method PlanReadBlocks(tags: seq<Tag>, limits: Limits) returns (r: Result<seq<ReadBlock>, Types.Error>)
    ensures r.Ok? <==> AllKnown(tags)
    ensures r.Ok? ==> r.value == Blocks(Plan(Entries(tags), limits))
  {
    var grouped := GroupByFunction(tags);
    if grouped.Err? {
      return Err(grouped.error);
    }
    var blocks := PlanEach(grouped.value, Entries(tags), FUNCTIONS, limits);
    r := Ok(blocks);
  }

  lemma PartitionedSnoc(byFunction: map<ReadFunction, seq<Entry>>, entries: seq<Entry>, entry: Entry)
    requires Partitioned(byFunction, entries)
    ensures var f := entry.readFunction;
            Partitioned(byFunction[f := (if f in byFunction then byFunction[f] else []) + [entry]], entries + [entry])
  {
    forall f: ReadFunction
      ensures OfFunction(entries + [entry], f) == OfFunction(entries, f) + if entry.readFunction == f then [entry] else []
    {
      FilterSnoc(entries, entry, (t: Entry) => t.readFunction == f);
    }
  }
}
