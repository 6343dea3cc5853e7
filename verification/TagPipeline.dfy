/**
 The deadband filter, and what it guarantees about the published stream: nothing significant is swallowed, and
 the last published value is always close to the newest one. Numbers are reals; NaN does not occur.
 */
module TagPipeline {
  import opened Basics

  datatype TagId = TagId(name: string)

  datatype Value = Bool(b: bool) | Int(i: int) | Float(f: real) | Text(s: string) | Raw(bytes: seq<Byte>)

  datatype Tag = Tag(id: TagId, timestamp: real, value: Value, quality: Quality, isAlarm: bool)

  datatype Deadband = Absolute(value: real) | Percentage(value: real)

  /** What the filter remembers of a tag's last published sample. */
  datatype Last = Last(value: Value, mark: Mark)

  /** The part of a sample whose change is always significant. */
  datatype Mark = Mark(quality: Quality, isAlarm: bool)

  predicate IsNumeric(v: Value) {
    v.Int? || v.Float?
  }

  /** The number a value compares as; booleans compare as 0 and 1. */
  function Number(v: Value): Option<real> {
    match v
    case Bool(b) => Some(if b then 1.0 else 0.0)
    case Int(i) => Some(i as real)
    case Float(f) => Some(f)
    case Text(_) => None
    case Raw(_) => None
  }

  /** Equality of values across types. */
  predicate SameValue(a: Value, b: Value) {
    if Number(a).Some? || Number(b).Some? then Number(a) == Number(b) else a == b
  }

  /** Numbers compare by value, a boolean as 0 or 1, texts and byte strings only with their own kind. */
  lemma SameValueMeans(a: bool, b: bool, i: int, j: int, f: real, s: string, v: Value)
    ensures SameValue(Bool(a), Bool(b)) <==> a == b
    ensures SameValue(Bool(a), Int(i)) <==> i == (if a then 1 else 0)
    ensures SameValue(Int(i), Int(j)) <==> i == j
    ensures SameValue(Int(i), Float(f)) <==> f == i as real
    ensures SameValue(Text(s), v) <==> v == Text(s)
    ensures v.Raw? ==> !SameValue(v, Text(s)) && !SameValue(v, Int(i))
    ensures SameValue(v, v)
  {
  }

  function MarkOf(t: Tag): Mark {
    Mark(t.quality, t.isAlarm)
  }

  /** `_should_publish`. */
  predicate ShouldPublish(t: Tag, prior: Option<Last>, deadband: Option<Deadband>) {
    if prior.None? then true
    else if prior.value.mark != MarkOf(t) then true
    else if deadband.None? || !IsNumeric(t.value) || !IsNumeric(prior.value.value) then !SameValue(t.value, prior.value.value)
    else
      var diff := Abs(Number(t.value).value - Number(prior.value.value).value);
      var span := Abs(Number(prior.value.value).value);
      match deadband.value
      case Absolute(limit) => diff >= limit
      case Percentage(limit) => if span == 0.0 then diff != 0.0 else (diff / span) * 100.0 >= limit
  }

  /** The promise about a suppressed sample: equal, or within the deadband of the last published value. */
  predicate Close(last: Value, v: Value, deadband: Option<Deadband>) {
    || SameValue(v, last)
    || (deadband.Some? && IsNumeric(last) && IsNumeric(v) &&
        var diff, span := Abs(Number(v).value - Number(last).value), Abs(Number(last).value);
        match deadband.value
        case Absolute(limit) => diff < limit
        case Percentage(limit) => diff * 100.0 < limit * span)
  }

  lemma PercentageMeans(diff: real, span: real, limit: real)
    requires span > 0.0
    ensures (diff / span) * 100.0 >= limit <==> diff * 100.0 >= limit * span
  {
    var q := diff / span;
    assert diff == q * span;
    if q * 100.0 >= limit {
      Scaled(limit, q * 100.0, span);
    } else {
      Scaled(q * 100.0, limit, span);
    }
    assert (q * 100.0) * span == diff * 100.0;
  }

  lemma Scaled(a: real, b: real, k: real)
    requires k > 0.0
    ensures a <= b ==> a * k <= b * k
    ensures a < b ==> a * k < b * k
  {
  }

  /** A limit of zero or less suppresses no number, except one equal to a zero under a percentage. */
  predicate Unlimited(last: Value, v: Value, deadband: Option<Deadband>) {
    && deadband.Some? && deadband.value.value <= 0.0 && IsNumeric(last) && IsNumeric(v)
    && (deadband.value.Absolute? || Number(last) != Some(0.0))
  }

  /** A sample after a published one is published exactly if its mark differs, its value is not close, or nothing is limited. */
  lemma PublishIff(t: Tag, last: Last, deadband: Option<Deadband>)
    ensures ShouldPublish(t, Some(last), deadband) <==>
              last.mark != MarkOf(t) || !Close(last.value, t.value, deadband) || Unlimited(last.value, t.value, deadband)
  {
    if deadband.Some? && IsNumeric(t.value) && IsNumeric(last.value) {
      var diff, span := Abs(Number(t.value).value - Number(last.value).value), Abs(Number(last.value).value);
      if span != 0.0 {
        PercentageIff(diff, span, deadband.value.value);
      }
    }
  }

  lemma PercentageIff(diff: real, span: real, limit: real)
    requires diff >= 0.0 && span > 0.0
    ensures (diff / span) * 100.0 >= limit <==> !(diff == 0.0 || diff * 100.0 < limit * span) || limit <= 0.0
  {
    PercentageMeans(diff, span, limit);
    ProductSign(limit, span);
  }

  lemma ProductSign(a: real, b: real)
    requires b > 0.0
    ensures a * b > 0.0 <==> a > 0.0
  {
  }

  lemma SuppressedIsClose(t: Tag, last: Last, deadband: Option<Deadband>)
    requires !ShouldPublish(t, Some(last), deadband)
    ensures last.mark == MarkOf(t) && Close(last.value, t.value, deadband)
  {
    PublishIff(t, last, deadband);
  }

  // ---------- streams ----------

  /** The marks of one tag, in order. */
  function Marks(s: seq<Tag>, id: TagId): seq<Mark> {
    if s == [] then []
    else Marks(s[..|s| - 1], id) + if s[|s| - 1].id == id then [MarkOf(s[|s| - 1])] else []
  }

  /** Consecutive repetitions removed. */
  function Destutter(m: seq<Mark>): seq<Mark> {
    if |m| <= 1 then m
    else Destutter(m[..|m| - 1]) + if m[|m| - 1] == m[|m| - 2] then [] else [m[|m| - 1]]
  }

  function LastOf(s: seq<Tag>, id: TagId): Option<Last> {
    if s == [] then None
    else if s[|s| - 1].id == id then Some(Last(s[|s| - 1].value, MarkOf(s[|s| - 1])))
    else LastOf(s[..|s| - 1], id)
  }

  lemma MarksSnoc(s: seq<Tag>, t: Tag, id: TagId)
    ensures Marks(s + [t], id) == Marks(s, id) + if t.id == id then [MarkOf(t)] else []
    ensures LastOf(s + [t], id) == if t.id == id then Some(Last(t.value, MarkOf(t))) else LastOf(s, id)
  {
    assert (s + [t])[..|s|] == s;
  }

  lemma {:induction false} LastMark(s: seq<Tag>, id: TagId)
    ensures LastOf(s, id).None? <==> Marks(s, id) == []
    ensures LastOf(s, id).Some? ==> LastOf(s, id).value.mark == Marks(s, id)[|Marks(s, id)| - 1]
  {
    if s != [] {
      LastMark(s[..|s| - 1], id);
    }
  }

  lemma DestutterSnoc(m: seq<Mark>, x: Mark)
    ensures Destutter(m + [x]) == if m != [] && m[|m| - 1] == x then Destutter(m) else Destutter(m) + [x]
  {
    assert (m + [x])[..|m|] == m;
  }

  /** Two sequences of marks tell the same story and end at the same mark. */
  ghost predicate Alike(e: seq<Mark>, p: seq<Mark>) {
    Destutter(e) == Destutter(p) && (e == [] <==> p == []) && (e != [] && p != [] ==> e[|e| - 1] == p[|p| - 1])
  }

  lemma AlikeBoth(e: seq<Mark>, p: seq<Mark>, x: Mark)
    requires Alike(e, p)
    ensures Alike(e + [x], p + [x])
  {
    DestutterSnoc(e, x);
    DestutterSnoc(p, x);
  }

  lemma AlikeSuppressed(e: seq<Mark>, p: seq<Mark>, x: Mark)
    requires Alike(e, p) && p != [] && p[|p| - 1] == x
    ensures Alike(e + [x], p)
  {
    DestutterSnoc(e, x);
  }

  /** One tag: the published stream tells the evaluated one's story, and the filter remembers its last sample. */
  ghost predicate CoherentAt(evaluated: seq<Tag>, published: seq<Tag>, last: map<TagId, Last>, id: TagId) {
    Alike(Marks(evaluated, id), Marks(published, id)) && Remembered(last, id) == LastOf(published, id)
  }

  function Remembered(last: map<TagId, Last>, id: TagId): Option<Last> {
    if id in last then Some(last[id]) else None
  }

  lemma PublishedCoherent(evaluated: seq<Tag>, published: seq<Tag>, last: map<TagId, Last>, t: Tag, id: TagId)
    requires CoherentAt(evaluated, published, last, id)
    ensures CoherentAt(evaluated + [t], published + [t], last[t.id := Last(t.value, MarkOf(t))], id)
  {
    MarksSnoc(evaluated, t, id);
    MarksSnoc(published, t, id);
    if t.id == id {
      AlikeBoth(Marks(evaluated, id), Marks(published, id), MarkOf(t));
    } else {
      assert Marks(evaluated, id) + [] == Marks(evaluated, id) && Marks(published, id) + [] == Marks(published, id);
    }
  }

  lemma SuppressedCoherent(evaluated: seq<Tag>, published: seq<Tag>, last: map<TagId, Last>, t: Tag, id: TagId)
    requires CoherentAt(evaluated, published, last, id) && t.id in last && last[t.id].mark == MarkOf(t)
    ensures CoherentAt(evaluated + [t], published, last, id)
  {
    MarksSnoc(evaluated, t, id);
    LastMark(published, id);
    if t.id == id {
      AlikeSuppressed(Marks(evaluated, id), Marks(published, id), MarkOf(t));
    } else {
      assert Marks(evaluated, id) + [] == Marks(evaluated, id);
    }
  }

  // ---------- the filter ----------

  class DeadbandFilter {
    var lastPublished: map<TagId, Last>
    ghost var evaluated: seq<Tag>
    ghost var published: seq<Tag>

    ghost predicate Valid()
      reads this
    {
      forall id :: CoherentAt(evaluated, published, lastPublished, id)
    }

    constructor ()
      ensures Valid() && evaluated == [] && published == []
    {
      lastPublished, evaluated, published := map[], [], [];
    }

    /** After every sample the last published value is close to it, with the same quality and alarm flag. */
    method Filter(t: Tag, deadband: Option<Deadband>) returns (publish: bool)
      requires Valid()
      modifies this
      ensures Valid() && evaluated == old(evaluated) + [t] && published == old(published) + if publish then [t] else []
      ensures publish <==> ShouldPublish(t, LastOf(old(published), t.id), deadband)
      ensures publish <==> Significant(LastOf(old(published), t.id), t, deadband)
      ensures FollowedBy(LastOf(published, t.id), t, deadband)
    {
      assert CoherentAt(evaluated, published, lastPublished, t.id);
      publish := ShouldPublish(t, Remembered(lastPublished, t.id), deadband);
      SignificantIff(Remembered(lastPublished, t.id), t, deadband);
      if publish {
        Publish(t);
        assert SameValue(t.value, t.value);
        MarksSnoc(old(published), t, t.id);
      } else {
        SuppressedIsClose(t, lastPublished[t.id], deadband);
        Suppress(t);
        assert CoherentAt(evaluated, published, lastPublished, t.id);
      }
    }

    method Publish(t: Tag)
      requires Valid()
      modifies this
      ensures Valid() && evaluated == old(evaluated) + [t] && published == old(published) + [t]
    {
      var last := lastPublished[t.id := Last(t.value, MarkOf(t))];
      ghost var e, p := evaluated + [t], published + [t];
      forall id
        ensures CoherentAt(e, p, last, id)
      {
        PublishedCoherent(evaluated, published, lastPublished, t, id);
      }
      lastPublished, evaluated, published := last, e, p;
    }

    ghost method Suppress(t: Tag)
      requires Valid() && t.id in lastPublished && lastPublished[t.id].mark == MarkOf(t)
      modifies this`evaluated
      ensures Valid() && evaluated == old(evaluated) + [t]
    {
      var e := evaluated + [t];
      forall id
        ensures CoherentAt(e, published, lastPublished, id)
      {
        SuppressedCoherent(evaluated, published, lastPublished, t, id);
      }
      evaluated := e;
    }
  }

  /** What has to be published: a first sample, a new mark, a value not close to the last published one. */
  predicate Significant(last: Option<Last>, t: Tag, deadband: Option<Deadband>) {
    || last.None? || last.value.mark != MarkOf(t)
    || !Close(last.value.value, t.value, deadband) || Unlimited(last.value.value, t.value, deadband)
  }

  lemma SignificantIff(last: Option<Last>, t: Tag, deadband: Option<Deadband>)
    ensures ShouldPublish(t, last, deadband) <==> Significant(last, t, deadband)
  {
    if last.Some? {
      PublishIff(t, last.value, deadband);
    }
  }

  /** The last published sample has the mark of `t`, and a value close to its. */
  predicate FollowedBy(last: Option<Last>, t: Tag, deadband: Option<Deadband>) {
    last.Some? && last.value.mark == MarkOf(t) && Close(last.value.value, t.value, deadband)
  }
}
