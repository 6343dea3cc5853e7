/**
 The Modbus polling driver: planned blocks are read, sliced and decoded per tag, and a refused block
 is re-read tag by tag. Batched reading is shown to mean the same as reading every tag alone.
 */
module Polling {
  import opened Basics
  import opened ModbusCodec
  import opened ReadPlanner
  import opened Connectivity
  import Types = ModbusDatatypes

  datatype Reading = Bit(on: bool) | Number(value: Types.Value)

  /** What the driver emits for one tag; timestamps, latency and batching metadata are left out. */
  datatype TagUpdate = TagUpdate(tag: Tag, reading: Reading, quality: Quality, exceptionCode: Option<Byte>)

  /** A device whose memory stays fixed during a cycle, and the ranges it refuses to read. */
  datatype Device = Device(memory: (ReadFunction, int) -> int, refusal: (ReadFunction, int, nat) -> Option<Byte>) {
    function Contents(f: ReadFunction, address: int, quantity: nat): (values: seq<int>)
      ensures |values| == quantity
    {
      seq(quantity, i requires 0 <= i < quantity => memory(f, address + i))
    }

    function Answer(f: ReadFunction, address: int, quantity: nat): Result<seq<int>, Byte> {
      match refusal(f, address, quantity)
      case Some(code) => Err(code)
      case None => Ok(Contents(f, address, quantity))
    }

    predicate Reads(f: ReadFunction, address: int, quantity: nat) {
      refusal(f, address, quantity).None?
    }

    /** Reads every sub-range of a range it reads. */
    ghost predicate ReadsSubranges() {
      forall f, a, q, b, r: nat | Reads(f, a, q) && a <= b && b + r <= a + q :: Reads(f, b, r)
    }
  }

  // ---------- reading one tag alone: the reference ----------

  function Decoded(tag: Tag, values: seq<int>): Reading
    requires TagSpan(tag).Ok? && |values| == TagSpan(tag).value
  {
    if tag.readFunction.IsBit() then Bit(values[0] != 0)
    else Number(Types.Decode(values, tag.dataType, tag.wordOrder, tag.byteOrder).value)
  }

  function GoodUpdate(tag: Tag, values: seq<int>): TagUpdate
    requires TagSpan(tag).Ok? && |values| == TagSpan(tag).value
  {
    TagUpdate(tag, Decoded(tag, values), Good, None)
  }

  function BadUpdate(tag: Tag, code: Byte): TagUpdate {
    var placeholder := if tag.readFunction.IsBit() then Bit(false) else Number(Types.Placeholder(tag.dataType));
    TagUpdate(tag, placeholder, Bad, Some(code))
  }

  function Alone(d: Device, tag: Tag): TagUpdate
    requires TagSpan(tag).Ok?
  {
    match d.Answer(tag.readFunction, tag.address, TagSpan(tag).value)
    case Ok(values) => GoodUpdate(tag, values)
    case Err(code) => BadUpdate(tag, code)
  }

  // ---------- reading a block ----------

  /** A tag's place inside a block: the offset and span the planner recorded for it. */
  predicate Placed(p: PlannedTag, b: ReadBlock) {
    && p.tag.readFunction == b.readFunction
    && TagSpan(p.tag) == Ok(p.span)
    && p.offset == p.tag.address - b.address
    && 0 <= p.offset && p.offset + p.span <= b.quantity
  }

  /** Every tag lies inside the block, and a block of one tag is exactly that tag's range. */
  predicate WellFormed(b: ReadBlock) {
    && b.tags != [] && 0 <= b.quantity
    && (forall i | 0 <= i < |b.tags| :: Placed(b.tags[i], b))
    && (|b.tags| == 1 ==> b.quantity == b.tags[0].span)
  }

  function Slices(tags: seq<PlannedTag>, b: ReadBlock, values: seq<int>): (us: seq<TagUpdate>)
    requires |values| == b.quantity && forall i | 0 <= i < |tags| :: Placed(tags[i], b)
    ensures |us| == |tags|
  {
    if tags == [] then []
    else
      var p := tags[|tags| - 1];
      assert Placed(tags[|tags| - 1], b);
      Slices(tags[..|tags| - 1], b, values) + [GoodUpdate(p.tag, values[p.offset..p.offset + p.span])]
  }

  function Single(p: PlannedTag, f: ReadFunction): ReadBlock {
    ReadBlock(f, p.tag.address, p.span, [PlannedTag(p.tag, 0, p.span)])
  }

  function AloneAll(d: Device, tags: seq<PlannedTag>): (us: seq<TagUpdate>)
    requires forall i | 0 <= i < |tags| :: TagSpan(tags[i].tag).Ok?
    ensures |us| == |tags|
  {
    if tags == [] then [] else AloneAll(d, tags[..|tags| - 1]) + [Alone(d, tags[|tags| - 1].tag)]
  }

  /** The updates of one block: sliced when the device reads it, tag by tag when it refuses. */
  function Updates(d: Device, b: ReadBlock): (us: seq<TagUpdate>)
    requires WellFormed(b)
    ensures |us| == |b.tags|
  {
    match d.Answer(b.readFunction, b.address, b.quantity)
    case Ok(values) => Slices(b.tags, b, values)
    case Err(code) => if |b.tags| > 1 then AloneAll(d, b.tags) else [BadUpdate(b.tags[0].tag, code)]
  }

  lemma SliceOfContents(d: Device, f: ReadFunction, address: int, quantity: nat, offset: nat, span: nat)
    requires offset + span <= quantity
    ensures d.Contents(f, address, quantity)[offset..offset + span] == d.Contents(f, address + offset, span)
  {
    var slice, direct := d.Contents(f, address, quantity)[offset..offset + span], d.Contents(f, address + offset, span);
    forall i | 0 <= i < span
      ensures slice[i] == direct[i]
    {
      assert address + (offset + i) == (address + offset) + i;
    }
  }

  /** A tag sliced out of a block has the value it has alone; it differs only if it is refused alone. */
  lemma SliceMeansAlone(d: Device, b: ReadBlock, p: PlannedTag)
    requires Placed(p, b) && 0 <= b.quantity
    ensures var sliced := GoodUpdate(p.tag, d.Contents(b.readFunction, b.address, b.quantity)[p.offset..p.offset + p.span]);
            sliced == Alone(d, p.tag) <==> d.Reads(b.readFunction, p.tag.address, p.span)
  {
    SliceOfContents(d, b.readFunction, b.address, b.quantity, p.offset, p.span);
  }

  /** A bit tag reads as whether the device's cell at the tag's own address is nonzero. */
  lemma BitAlone(d: Device, tag: Tag)
    requires tag.readFunction.IsBit() && d.Reads(tag.readFunction, tag.address, 1)
    ensures Alone(d, tag) == TagUpdate(tag, Bit(d.memory(tag.readFunction, tag.address) != 0), Good, None)
  {
    assert d.Contents(tag.readFunction, tag.address, 1)[0] == d.memory(tag.readFunction, tag.address + 0);
  }

  /** Zero, in the form the tag's values have. */
  function Zero(tag: Tag): Reading {
    if tag.readFunction.IsBit() then Bit(false)
    else if tag.dataType.Float32? then Number(Types.Ieee([0, 0, 0, 0]))
    else if tag.dataType.Float64? then Number(Types.Ieee([0, 0, 0, 0, 0, 0, 0, 0]))
    else Number(Types.Integer(0))
  }

  /** A tag is good exactly if the device reads it; otherwise it is zero, bad, with the device's exception code. */
  lemma GoodIffRead(d: Device, tag: Tag)
    requires TagSpan(tag).Ok?
    ensures
      var ok := d.Reads(tag.readFunction, tag.address, TagSpan(tag).value);
      && (Alone(d, tag).quality == Good <==> ok)
      && (!ok ==> Alone(d, tag) == TagUpdate(tag, Zero(tag), Bad, d.refusal(tag.readFunction, tag.address, TagSpan(tag).value)))
  {
    ZeroPlaceholder(tag.dataType);
  }

  lemma ZeroPlaceholder(dataType: Types.DataType)
    ensures dataType.Float32? ==> Types.Placeholder(dataType) == Types.Ieee([0, 0, 0, 0])
    ensures dataType.Float64? ==> Types.Placeholder(dataType) == Types.Ieee([0, 0, 0, 0, 0, 0, 0, 0])
    ensures !dataType.Float32? && !dataType.Float64? ==> Types.Placeholder(dataType) == Types.Integer(0)
  {
    if dataType.Float32? {
      assert Types.Placeholder(dataType).raw == [0, 0, 0, 0];
    } else if dataType.Float64? {
      assert Types.Placeholder(dataType).raw == [0, 0, 0, 0, 0, 0, 0, 0];
    }
  }

  /** So it does in a block, at whatever offset. */
  lemma BitInBlock(d: Device, b: ReadBlock, i: nat)
    requires WellFormed(b) && b.readFunction.IsBit() && d.Reads(b.readFunction, b.address, b.quantity) && i < |b.tags|
    ensures
      var tag := b.tags[i].tag;
      Updates(d, b)[i] == TagUpdate(tag, Bit(d.memory(b.readFunction, tag.address) != 0), Good, None)
  {
    var p, values := b.tags[i], d.Contents(b.readFunction, b.address, b.quantity);
    assert Placed(b.tags[i], b);
    SlicesAt(b.tags, b, values, i);
    assert values[p.offset] == d.memory(b.readFunction, b.address + p.offset);
  }

  /** Every tag of the block is read alone, too. */
  predicate EachReads(d: Device, tags: seq<PlannedTag>) {
    forall i | 0 <= i < |tags| :: d.Reads(tags[i].tag.readFunction, tags[i].tag.address, tags[i].span)
  }

  lemma {:induction false} SlicesAt(tags: seq<PlannedTag>, b: ReadBlock, values: seq<int>, i: nat)
    requires |values| == b.quantity && forall k | 0 <= k < |tags| :: Placed(tags[k], b)
    requires i < |tags| && Placed(tags[i], b)
    ensures Slices(tags, b, values)[i] == GoodUpdate(tags[i].tag, values[tags[i].offset..tags[i].offset + tags[i].span])
  {
    var front := tags[..|tags| - 1];
    if i < |front| {
      SlicesFront(tags, b, values, i);
      SlicesAt(front, b, values, i);
    }
  }

  lemma SlicesFront(tags: seq<PlannedTag>, b: ReadBlock, values: seq<int>, i: nat)
    requires |values| == b.quantity && forall k | 0 <= k < |tags| :: Placed(tags[k], b)
    requires i < |tags| - 1
    ensures var front := tags[..|tags| - 1]; front[i] == tags[i] && Slices(tags, b, values)[i] == Slices(front, b, values)[i]
  {
  }

  lemma {:induction false} AloneAt(d: Device, tags: seq<PlannedTag>, i: nat)
    requires i < |tags| && forall k | 0 <= k < |tags| :: TagSpan(tags[k].tag).Ok?
    ensures AloneAll(d, tags)[i] == Alone(d, tags[i].tag)
  {
    if i < |tags| - 1 {
      AloneAt(d, tags[..|tags| - 1], i);
    }
  }

  lemma SlicesMeanAlone(d: Device, b: ReadBlock)
    requires WellFormed(b)
    ensures Slices(b.tags, b, d.Contents(b.readFunction, b.address, b.quantity)) == AloneAll(d, b.tags) <==> EachReads(d, b.tags)
  {
    var values := d.Contents(b.readFunction, b.address, b.quantity);
    var s, a := Slices(b.tags, b, values), AloneAll(d, b.tags);
    forall i | 0 <= i < |b.tags|
      ensures s[i] == a[i] <==> d.Reads(b.tags[i].tag.readFunction, b.tags[i].tag.address, b.tags[i].span)
    {
      assert Placed(b.tags[i], b);
      SlicesAt(b.tags, b, values, i);
      AloneAt(d, b.tags, i);
      SliceMeansAlone(d, b, b.tags[i]);
    }
  }

  /**
   Reading a block means the same as reading each of its tags alone exactly when the device does not
   read the whole block while refusing one of its tags.
   */
  lemma BlockMeansAloneIff(d: Device, b: ReadBlock)
    requires WellFormed(b)
    ensures Updates(d, b) == AloneAll(d, b.tags)
       <==> (d.Reads(b.readFunction, b.address, b.quantity) ==> EachReads(d, b.tags))
  {
    SlicesMeanAlone(d, b);
    assert Placed(b.tags[0], b);
    assert |b.tags| == 1 ==> AloneAll(d, b.tags) == [Alone(d, b.tags[0].tag)];
  }

  // ---------- the driver ----------

  /** The wire transactions of one block read, as the connectivity tracker sees them. */
  function Outcomes(d: Device, b: ReadBlock): seq<bool> {
    if 0 <= b.quantity && d.Reads(b.readFunction, b.address, b.quantity) then [true]
    else if |b.tags| > 1 then [false] + SingleOutcomes(d, b.readFunction, b.tags)
    else [false]
  }

  function SingleOutcomes(d: Device, f: ReadFunction, tags: seq<PlannedTag>): (o: seq<bool>)
    ensures |o| == |tags|
  {
    if tags == [] then []
    else SingleOutcomes(d, f, tags[..|tags| - 1]) + [d.Reads(f, tags[|tags| - 1].tag.address, tags[|tags| - 1].span)]
  }

  lemma SingleWellFormed(p: PlannedTag, b: ReadBlock)
    requires Placed(p, b)
    ensures WellFormed(Single(p, b.readFunction))
  {
    assert Placed(PlannedTag(p.tag, 0, p.span), Single(p, b.readFunction));
  }

  lemma SingleUpdates(d: Device, p: PlannedTag, b: ReadBlock)
    requires Placed(p, b)
    ensures WellFormed(Single(p, b.readFunction)) && Updates(d, Single(p, b.readFunction)) == [Alone(d, p.tag)]
  {
    var single := Single(p, b.readFunction);
    SingleWellFormed(p, b);
    BlockMeansAloneIff(d, single);
    assert AloneAll(d, single.tags) == AloneAll(d, single.tags[..0]) + [Alone(d, p.tag)];
  }

  /** How many tags of a block are counted as read. */
  function TagsRead(d: Device, b: ReadBlock): nat {
    if 0 <= b.quantity && d.Reads(b.readFunction, b.address, b.quantity) then |b.tags|
    else if |b.tags| > 1 then SinglesRead(d, b.readFunction, b.tags)
    else 0
  }

  function SinglesRead(d: Device, f: ReadFunction, tags: seq<PlannedTag>): nat {
    if tags == [] then 0
    else
      var last := tags[|tags| - 1];
      SinglesRead(d, f, tags[..|tags| - 1]) + if d.Reads(f, last.tag.address, last.span) then 1 else 0
  }

  /** How many errors a block read is counted as, at `cost` for the retries of each refused transaction. */
  function Errors(d: Device, b: ReadBlock, cost: nat): nat {
    if 0 <= b.quantity && d.Reads(b.readFunction, b.address, b.quantity) then 0
    else if |b.tags| > 1 then cost + SingleErrors(d, b.readFunction, b.tags, cost)
    else cost + 1
  }

  function SingleErrors(d: Device, f: ReadFunction, tags: seq<PlannedTag>, cost: nat): nat {
    if tags == [] then 0
    else
      var last := tags[|tags| - 1];
      SingleErrors(d, f, tags[..|tags| - 1], cost) + if d.Reads(f, last.tag.address, last.span) then 0 else cost + 1
  }

  function CountGood(us: seq<TagUpdate>): nat {
    if us == [] then 0 else CountGood(us[..|us| - 1]) + if us[|us| - 1].quality == Good then 1 else 0
  }

  lemma {:induction false} SlicesAllGood(tags: seq<PlannedTag>, b: ReadBlock, values: seq<int>)
    requires |values| == b.quantity && forall i | 0 <= i < |tags| :: Placed(tags[i], b)
    ensures CountGood(Slices(tags, b, values)) == |tags|
  {
    if tags != [] {
      SlicesAllGood(tags[..|tags| - 1], b, values);
      var us := Slices(tags, b, values);
      assert us[..|us| - 1] == Slices(tags[..|tags| - 1], b, values);
    }
  }

  lemma {:induction false} SinglesReadAreGood(d: Device, b: ReadBlock, tags: seq<PlannedTag>)
    requires forall i | 0 <= i < |tags| :: Placed(tags[i], b) && TagSpan(tags[i].tag).Ok?
    ensures SinglesRead(d, b.readFunction, tags) == CountGood(AloneAll(d, tags))
    ensures SingleErrors(d, b.readFunction, tags, 0) == |tags| - CountGood(AloneAll(d, tags))
  {
    if tags != [] {
      var front, last := tags[..|tags| - 1], tags[|tags| - 1];
      assert Placed(tags[|tags| - 1], b);
      SinglesReadAreGood(d, b, front);
      assert AloneAll(d, tags)[..|tags| - 1] == AloneAll(d, front);
    }
  }

  /** The counters agree with the updates: one read per good update, one error (before retries) per bad one. */
  lemma CountersMatchUpdates(d: Device, b: ReadBlock)
    requires WellFormed(b)
    ensures TagsRead(d, b) == CountGood(Updates(d, b))
    ensures Errors(d, b, 0) == |b.tags| - CountGood(Updates(d, b))
  {
    if d.Reads(b.readFunction, b.address, b.quantity) {
      SlicesAllGood(b.tags, b, d.Contents(b.readFunction, b.address, b.quantity));
    } else if |b.tags| > 1 {
      assert forall i | 0 <= i < |b.tags| :: Placed(b.tags[i], b);
      SinglesReadAreGood(d, b, b.tags);
    } else {
      assert Updates(d, b)[..0] == [];
    }
  }

  /** What one round of the tag-by-tag fallback adds. */
  lemma FallbackStep(d: Device, b: ReadBlock, i: nat, cost: nat)
    requires WellFormed(b) && i < |b.tags|
    ensures var single := Single(b.tags[i], b.readFunction);
            && WellFormed(single)
            && AloneAll(d, b.tags[..i + 1]) == AloneAll(d, b.tags[..i]) + Updates(d, single)
            && SingleOutcomes(d, b.readFunction, b.tags[..i + 1]) == SingleOutcomes(d, b.readFunction, b.tags[..i]) + Outcomes(d, single)
            && SinglesRead(d, b.readFunction, b.tags[..i + 1]) == SinglesRead(d, b.readFunction, b.tags[..i]) + TagsRead(d, single)
            && SingleErrors(d, b.readFunction, b.tags[..i + 1], cost)
            == SingleErrors(d, b.readFunction, b.tags[..i], cost) + Errors(d, single, cost)
  {
    assert Placed(b.tags[i], b);
    SingleUpdates(d, b.tags[i], b);
    assert b.tags[..i + 1][..i] == b.tags[..i];
  }

  predicate AllWellFormed(blocks: seq<ReadBlock>) {
    forall i | 0 <= i < |blocks| :: WellFormed(blocks[i])
  }

  /** One scan of a tag group: the updates of its blocks in plan order. */
  function UpdatesAll(d: Device, blocks: seq<ReadBlock>): seq<TagUpdate>
    requires AllWellFormed(blocks)
  {
    if blocks == [] then [] else UpdatesAll(d, blocks[..|blocks| - 1]) + Updates(d, blocks[|blocks| - 1])
  }

  /** One attempt to read a block: values, a Modbus exception, or a message lost on the way. */
  datatype Attempt = Answer(values: seq<int>) | Refused(code: Byte) | Lost

  class PollingDriver {
    const device: Device
    const retryCount: nat
    const retryOnException: bool
    const connectivity: ConnectivityTracker
    var errorCount: nat
    var tagReadCount: nat

    constructor (device: Device, retryCount: nat, retryOnException: bool, tracker: ConnectivityTracker)
      ensures this.device == device && this.connectivity == tracker
      ensures this.retryCount == retryCount && this.retryOnException == retryOnException
      ensures errorCount == 0 && tagReadCount == 0
    {
      this.device, this.retryCount, this.retryOnException, this.connectivity := device, retryCount, retryOnException, tracker;
      errorCount, tagReadCount := 0, 0;
    }

    /** Errors counted for one refused transaction before it is given up. */
    function RetryCost(): nat {
      if retryOnException then retryCount else 0
    }

    /** Whether a failed attempt is worth another: a lost message always, a considered refusal only when configured. */
    predicate Retried(a: Attempt) {
      a.Lost? || (a.Refused? && retryOnException)
    }

    /**
     The retry loop against whatever the line does, attempt by attempt: it stops at the first attempt that is
     answered or not worth another, or when the retries are used up, and counts one error per retry.
     */
    method ReadBlockWithRetries(line: nat -> Attempt) returns (r: Attempt, n: nat)
      modifies this`errorCount
      ensures r == line(n) && n <= retryCount && errorCount == old(errorCount) + n
      ensures forall i: nat | i < n :: Retried(line(i))
      ensures Retried(r) ==> n == retryCount
    {
      n := 0;
      while true
        invariant n <= retryCount && errorCount == old(errorCount) + n
        invariant forall i: nat | i < n :: Retried(line(i))
        decreases retryCount - n
      {
        r := line(n);
        if !Retried(r) || n >= retryCount {
          return;
        }
        n := n + 1;
        errorCount := errorCount + 1;
      }
    }

    /** On a device whose answer stays the same, every retry of a refusal is in vain. */
    method Ask(b: ReadBlock) returns (r: Result<seq<int>, Byte>)
      requires 0 <= b.quantity
      modifies this`errorCount
      ensures r == device.Answer(b.readFunction, b.address, b.quantity)
      ensures errorCount == old(errorCount) + if r.Err? then RetryCost() else 0
    {
      r := device.Answer(b.readFunction, b.address, b.quantity);
      var same := if r.Ok? then Answer(r.value) else Attempt.Refused(r.error);
      var line := (_: nat) => same;
      var a, n := ReadBlockWithRetries(line);
      assert a == same && (n > 0 ==> Retried(line(0)));
    }

    /** The success path: the tracker and the counters see one good transaction. */
    method Accept(b: ReadBlock, values: seq<int>, now: int) returns (us: seq<TagUpdate>)
      requires WellFormed(b) && |values| == b.quantity && connectivity.Valid()
      modifies this`tagReadCount, connectivity
      ensures us == Slices(b.tags, b, values)
      ensures connectivity.Valid() && connectivity.history == old(connectivity.history) + [true]
      ensures tagReadCount == old(tagReadCount) + |b.tags|
    {
      var _ := connectivity.RecordSuccess(now);
      tagReadCount := tagReadCount + |b.tags|;
      us := Slices(b.tags, b, values);
    }

    /** Read one block and decode every tag it covers; a refused batch falls back to single reads. */
    method ReadOneBlock(b: ReadBlock, now: int) returns (us: seq<TagUpdate>)
      requires WellFormed(b) && connectivity.Valid()
      modifies this, connectivity
      ensures us == Updates(device, b)
      ensures connectivity.Valid() && connectivity.history == old(connectivity.history) + Outcomes(device, b)
      ensures tagReadCount == old(tagReadCount) + TagsRead(device, b)
      ensures errorCount == old(errorCount) + Errors(device, b, RetryCost())
      decreases if |b.tags| > 1 then 1 else 0, 2
    {
      var answer := Ask(b);
      if answer.Ok? {
        us := Accept(b, answer.value, now);
        return;
      }
      var _ := connectivity.RecordFailure(now, None);
      if |b.tags| > 1 {
        us := ReadBlockTagByTag(b, now);
        return;
      }
      errorCount := errorCount + 1;
      us := [BadUpdate(b.tags[0].tag, answer.error)];
    }

    /** The tags so far were read one by one: what was emitted, and what tracker and counters saw since then. */
    ghost predicate FellBack(f: ReadFunction, tags: seq<PlannedTag>, us: seq<TagUpdate>, history: seq<bool>, read: nat, errors: nat)
      reads this, connectivity
    {
      && (forall i | 0 <= i < |tags| :: TagSpan(tags[i].tag).Ok?) && us == AloneAll(device, tags)
      && connectivity.history == history + SingleOutcomes(device, f, tags)
      && tagReadCount == read + SinglesRead(device, f, tags)
      && errorCount == errors + SingleErrors(device, f, tags, RetryCost())
    }

    method ReadBlockTagByTag(b: ReadBlock, now: int) returns (us: seq<TagUpdate>)
      requires WellFormed(b) && |b.tags| > 1 && connectivity.Valid()
      modifies this, connectivity
      ensures us == AloneAll(device, b.tags)
      ensures connectivity.Valid()
      ensures connectivity.history == old(connectivity.history) + SingleOutcomes(device, b.readFunction, b.tags)
      ensures tagReadCount == old(tagReadCount) + SinglesRead(device, b.readFunction, b.tags)
      ensures errorCount == old(errorCount) + SingleErrors(device, b.readFunction, b.tags, RetryCost())
      decreases if |b.tags| > 1 then 1 else 0, 1
    {
      us := [];
      ghost var history, read, errors := connectivity.history, tagReadCount, errorCount;
      for i := 0 to |b.tags|
        invariant connectivity.Valid() && FellBack(b.readFunction, b.tags[..i], us, history, read, errors)
      {
        us := ReadNextTag(b, i, us, history, read, errors, now);
      }
      assert b.tags[..|b.tags|] == b.tags;
    }

    method ReadNextTag(b: ReadBlock, i: nat, us: seq<TagUpdate>, ghost history: seq<bool>, ghost read: nat, ghost errors: nat, now: int)
      returns (more: seq<TagUpdate>)
      requires WellFormed(b) && |b.tags| > 1 && i < |b.tags| && connectivity.Valid()
      requires FellBack(b.readFunction, b.tags[..i], us, history, read, errors)
      modifies this, connectivity
      ensures connectivity.Valid() && FellBack(b.readFunction, b.tags[..i + 1], more, history, read, errors)
      decreases if |b.tags| > 1 then 1 else 0, 0
    {
      FallbackStep(device, b, i, RetryCost());
      var next := ReadOneBlock(Single(b.tags[i], b.readFunction), now);
      more := us + next;
    }

    method ReadAndPublish(blocks: seq<ReadBlock>, now: int) returns (us: seq<TagUpdate>)
      requires AllWellFormed(blocks) && connectivity.Valid()
      modifies this, connectivity
      ensures us == UpdatesAll(device, blocks)
      ensures connectivity.Valid()
    {
      us := [];
      for i := 0 to |blocks|
        invariant connectivity.Valid() && us == UpdatesAll(device, blocks[..i])
      {
        UpdatesNext(device, blocks, i);
        var more := ReadOneBlock(blocks[i], now);
        us := us + more;
      }
      assert blocks[..|blocks|] == blocks;
    }
  }

  lemma UpdatesNext(d: Device, blocks: seq<ReadBlock>, i: nat)
    requires AllWellFormed(blocks) && i < |blocks|
    ensures AllWellFormed(blocks[..i]) && AllWellFormed(blocks[..i + 1]) && WellFormed(blocks[i])
    ensures UpdatesAll(d, blocks[..i + 1]) == UpdatesAll(d, blocks[..i]) + Updates(d, blocks[i])
  {
    assert blocks[..i + 1][..i] == blocks[..i];
  }
}
