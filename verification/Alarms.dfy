/**
 The alarm engine. What it flags is specified over the whole history of events: a sample is flagged exactly when
 its rule's condition holds, given the previous numeric sample of the tag, and the tag is not shelved.
 */
module Alarms {
  import opened Basics
  import opened TagPipeline

  datatype Rule = Rule(high: Option<real>, highHigh: Option<real>, low: Option<real>, lowLow: Option<real>, rate: Option<real>)

  datatype Condition = HighHigh | LowLow | High | Low | RateOfChange

  datatype AlarmState = Normal | Active | Acked

  datatype Reading = Reading(value: real, at: real)

  datatype Status = Status(state: AlarmState, condition: Option<Condition>, activeSince: Option<real>,
                           acknowledgedBy: Option<string>, shelvedUntil: Option<real>)

  datatype Event = Update(tag: Tag) | Acknowledge(id: TagId, actor: string) | Shelve(id: TagId, until: real) | Unshelve(id: TagId)

  // ---------- the specification ----------

  /** The previous numeric sample of a tag. */
  function Prior(history: seq<Event>, id: TagId): Option<Reading> {
    if history == [] then None
    else
      var last := history[|history| - 1];
      if last.Update? && last.tag.id == id && IsNumeric(last.tag.value)
      then Some(Reading(Number(last.tag.value).value, last.tag.timestamp))
      else Prior(history[..|history| - 1], id)
  }

  function ShelvedUntil(history: seq<Event>, id: TagId): Option<real> {
    if history == [] then None
    else
      match history[|history| - 1]
      case Shelve(j, until) => if j == id then Some(until) else ShelvedUntil(history[..|history| - 1], id)
      case Unshelve(j) => if j == id then None else ShelvedUntil(history[..|history| - 1], id)
      case _ => ShelvedUntil(history[..|history| - 1], id)
  }

  function RateCondition(limit: real, prior: Option<Reading>, now: Reading): Option<Condition> {
    if prior.None? || now.at - prior.value.at <= 0.0 then None
    else if Abs(now.value - prior.value.value) / (now.at - prior.value.at) > limit then Some(RateOfChange)
    else None
  }

  /** The worst condition a sample meets; values that are not numbers meet none. */
  function Check(rule: Rule, prior: Option<Reading>, t: Tag): Option<Condition> {
    if !IsNumeric(t.value) then None
    else
      var v := Number(t.value).value;
      if rule.highHigh.Some? && v >= rule.highHigh.value then Some(HighHigh)
      else if rule.lowLow.Some? && v <= rule.lowLow.value then Some(LowLow)
      else if rule.high.Some? && v >= rule.high.value then Some(High)
      else if rule.low.Some? && v <= rule.low.value then Some(Low)
      else if rule.rate.Some? then RateCondition(rule.rate.value, prior, Reading(v, t.timestamp))
      else None
  }

  /** A numeric sample meets no condition exactly when it is strictly inside every limit and not changing too fast. */
  lemma QuietIff(rule: Rule, prior: Option<Reading>, t: Tag)
    requires IsNumeric(t.value)
    ensures
      var v := Number(t.value).value;
      Check(rule, prior, t).None? <==>
        && (rule.high.Some? ==> v < rule.high.value) && (rule.highHigh.Some? ==> v < rule.highHigh.value)
        && (rule.low.Some? ==> v > rule.low.value) && (rule.lowLow.Some? ==> v > rule.lowLow.value)
        && (rule.rate.Some? && prior.Some? && t.timestamp > prior.value.at ==>
              Abs(v - prior.value.value) <= rule.rate.value * (t.timestamp - prior.value.at))
  {
    if rule.rate.Some? && prior.Some? && t.timestamp > prior.value.at {
      RateMeans(Abs(Number(t.value).value - prior.value.value), t.timestamp - prior.value.at, rule.rate.value);
    }
  }

  lemma RateMeans(change: real, elapsed: real, limit: real)
    requires elapsed > 0.0
    ensures change / elapsed > limit <==> change > limit * elapsed
  {
    var rate := change / elapsed;
    assert change == rate * elapsed;
    Scaled(limit, rate, elapsed);
    Scaled(rate, limit, elapsed);
  }

  /** The order in which conditions are reported: the worst first, and a threshold before the rate of change. */
  function Rank(c: Condition): nat {
    match c
    case HighHigh => 0
    case LowLow => 1
    case High => 2
    case Low => 3
    case RateOfChange => 4
  }

  predicate Meets(rule: Rule, prior: Option<Reading>, t: Tag, c: Condition) {
    IsNumeric(t.value) &&
    var v := Number(t.value).value;
    match c
    case HighHigh => rule.highHigh.Some? && v >= rule.highHigh.value
    case LowLow => rule.lowLow.Some? && v <= rule.lowLow.value
    case High => rule.high.Some? && v >= rule.high.value
    case Low => rule.low.Some? && v <= rule.low.value
    case RateOfChange =>
      && rule.rate.Some? && prior.Some? && t.timestamp > prior.value.at
      && Abs(v - prior.value.value) > rule.rate.value * (t.timestamp - prior.value.at)
  }

  /** The condition reported is the worst of those the sample meets. */
  lemma WorstIff(rule: Rule, prior: Option<Reading>, t: Tag, c: Condition)
    ensures Check(rule, prior, t) == Some(c) <==>
              Meets(rule, prior, t, c) && forall d | Rank(d) < Rank(c) :: !Meets(rule, prior, t, d)
  {
    if IsNumeric(t.value) && rule.rate.Some? && prior.Some? && t.timestamp > prior.value.at {
      RateMeans(Abs(Number(t.value).value - prior.value.value), t.timestamp - prior.value.at, rule.rate.value);
    }
    assert Rank(HighHigh) < Rank(LowLow) < Rank(High) < Rank(Low) < Rank(RateOfChange);
  }

  predicate Shelved(history: seq<Event>, t: Tag) {
    ShelvedUntil(history, t.id).Some? && t.timestamp < ShelvedUntil(history, t.id).value
  }

  /** The flag a sample gets after a history of events. */
  predicate Flagged(rules: map<TagId, Rule>, history: seq<Event>, t: Tag) {
    if t.id in rules then Check(rules[t.id], Prior(history, t.id), t).Some? && !Shelved(history, t) else t.isAlarm
  }

  /** The condition the tag's newest sample met. */
  function LastCondition(rules: map<TagId, Rule>, history: seq<Event>, id: TagId): Option<Condition> {
    if history == [] then None
    else
      var front, last := history[..|history| - 1], history[|history| - 1];
      if last.Update? && last.tag.id == id then
        if id in rules then Check(rules[id], Prior(front, id), last.tag) else None
      else LastCondition(rules, front, id)
  }

  /** The time of the sample that began the present alarm. */
  function ActiveSince(rules: map<TagId, Rule>, history: seq<Event>, id: TagId): Option<real> {
    if history == [] || LastCondition(rules, history, id).None? then None
    else
      var front, last := history[..|history| - 1], history[|history| - 1];
      if last.Update? && last.tag.id == id && LastCondition(rules, front, id).None? then Some(last.tag.timestamp)
      else ActiveSince(rules, front, id)
  }

  /** Whether an acknowledgement arrived since the tag last was normal. */
  predicate AckedSince(rules: map<TagId, Rule>, history: seq<Event>, id: TagId) {
    if history == [] then false
    else
      var front, last := history[..|history| - 1], history[|history| - 1];
      LastCondition(rules, history, id).Some? &&
      (AckedSince(rules, front, id) || (last.Acknowledge? && last.id == id))
  }

  /** Who acknowledged the present alarm first. */
  function AckedBy(rules: map<TagId, Rule>, history: seq<Event>, id: TagId): Option<string> {
    if history == [] || !AckedSince(rules, history, id) then None
    else
      var front, last := history[..|history| - 1], history[|history| - 1];
      if !AckedSince(rules, front, id) && last.Acknowledge? then Some(last.actor) else AckedBy(rules, front, id)
  }

  function StateAfter(rules: map<TagId, Rule>, history: seq<Event>, id: TagId): AlarmState {
    if LastCondition(rules, history, id).None? then Normal else if AckedSince(rules, history, id) then Acked else Active
  }

  // ---------- acknowledging is invisible in the flags ----------

  function WithoutAcks(history: seq<Event>): seq<Event> {
    if history == [] then []
    else WithoutAcks(history[..|history| - 1]) + if history[|history| - 1].Acknowledge? then [] else [history[|history| - 1]]
  }

  lemma {:induction false} PriorIgnoresAcks(history: seq<Event>, id: TagId)
    ensures Prior(WithoutAcks(history), id) == Prior(history, id) && ShelvedUntil(WithoutAcks(history), id) == ShelvedUntil(history, id)
  {
    if history != [] {
      var front, last := history[..|history| - 1], history[|history| - 1];
      PriorIgnoresAcks(front, id);
      if !last.Acknowledge? {
        assert (WithoutAcks(front) + [last])[..|WithoutAcks(front)|] == WithoutAcks(front);
      } else {
        assert WithoutAcks(front) + [] == WithoutAcks(front);
      }
    }
  }

  /** Every sample gets the same flag whether or not any acknowledgement ever happened. */
  lemma AcksInvisible(rules: map<TagId, Rule>, history: seq<Event>, t: Tag)
    ensures Flagged(rules, WithoutAcks(history), t) == Flagged(rules, history, t)
  {
    PriorIgnoresAcks(history, t.id);
  }

  // ---------- the engine ----------

  function StateOf(status: map<TagId, Status>, id: TagId): AlarmState {
    if id in status then status[id].state else Normal
  }

  function ShelfOf(status: map<TagId, Status>, id: TagId): Option<real> {
    if id in status then status[id].shelvedUntil else None
  }

  function SampleOf(samples: map<TagId, Reading>, id: TagId): Option<Reading> {
    if id in samples then Some(samples[id]) else None
  }

  function ConditionOf(status: map<TagId, Status>, id: TagId): Option<Condition> {
    if id in status then status[id].condition else None
  }

  function SinceOf(status: map<TagId, Status>, id: TagId): Option<real> {
    if id in status then status[id].activeSince else None
  }

  function AckerOf(status: map<TagId, Status>, id: TagId): Option<string> {
    if id in status then status[id].acknowledgedBy else None
  }

  /** The engine's record of one tag is what the history says; who acknowledged an alarm is kept until the next one. */
  ghost predicate TracksAt(rules: map<TagId, Rule>, history: seq<Event>, status: map<TagId, Status>, samples: map<TagId, Reading>, id: TagId) {
    && StateOf(status, id) == StateAfter(rules, history, id)
    && ConditionOf(status, id) == LastCondition(rules, history, id) && SinceOf(status, id) == ActiveSince(rules, history, id)
    && ShelfOf(status, id) == ShelvedUntil(history, id)
    && (StateOf(status, id) != Normal ==> AckerOf(status, id) == AckedBy(rules, history, id))
    && (id in rules && rules[id].rate.Some? ==> SampleOf(samples, id) == Prior(history, id))
  }

  const FRESH := Status(Normal, None, None, None, None)

  function Found(status: map<TagId, Status>, id: TagId): Status {
    if id in status then status[id] else FRESH
  }

  /** The status `evaluate` leaves behind. */
  function Evaluated(s: Status, condition: Option<Condition>, at: real): Status {
    if condition.None? then s.(state := Normal, condition := None, activeSince := None)
    else if s.state == Normal then s.(state := Active, condition := condition, activeSince := Some(at), acknowledgedBy := None)
    else s.(condition := condition)
  }

  lemma HistorySnoc(rules: map<TagId, Rule>, history: seq<Event>, e: Event, id: TagId)
    ensures Prior(history + [e], id) ==
              if e.Update? && e.tag.id == id && IsNumeric(e.tag.value) then Some(Reading(Number(e.tag.value).value, e.tag.timestamp))
              else Prior(history, id)
    ensures ShelvedUntil(history + [e], id) ==
              if e.Shelve? && e.id == id then Some(e.until) else if e.Unshelve? && e.id == id then None else ShelvedUntil(history, id)
  {
    assert (history + [e])[..|history|] == history;
  }

  lemma ConditionSnoc(rules: map<TagId, Rule>, history: seq<Event>, e: Event, id: TagId)
    ensures LastCondition(rules, history + [e], id) ==
              if e.Update? && e.tag.id == id then (if id in rules then Check(rules[id], Prior(history, id), e.tag) else None)
              else LastCondition(rules, history, id)
    ensures AckedSince(rules, history + [e], id) <==>
              LastCondition(rules, history + [e], id).Some? && (AckedSince(rules, history, id) || (e.Acknowledge? && e.id == id))
  {
    assert (history + [e])[..|history|] == history;
  }

  lemma SinceSnoc(rules: map<TagId, Rule>, history: seq<Event>, e: Event, id: TagId)
    ensures ActiveSince(rules, history + [e], id) ==
              if LastCondition(rules, history + [e], id).None? then None
              else if e.Update? && e.tag.id == id && LastCondition(rules, history, id).None? then Some(e.tag.timestamp)
              else ActiveSince(rules, history, id)
  {
    assert (history + [e])[..|history|] == history;
  }

  lemma AckedBySnoc(rules: map<TagId, Rule>, history: seq<Event>, e: Event, id: TagId)
    ensures AckedBy(rules, history + [e], id) ==
              if !AckedSince(rules, history + [e], id) then None
              else if !AckedSince(rules, history, id) && e.Acknowledge? then Some(e.actor)
              else AckedBy(rules, history, id)
  {
    assert (history + [e])[..|history|] == history;
  }

  lemma AckedByNone(rules: map<TagId, Rule>, history: seq<Event>, id: TagId)
    ensures !AckedSince(rules, history, id) ==> AckedBy(rules, history, id).None?
  {
  }

  lemma {:induction false} AckedOnlyActive(rules: map<TagId, Rule>, history: seq<Event>, id: TagId)
    ensures AckedSince(rules, history, id) ==> LastCondition(rules, history, id).Some?
  {
  }

  lemma SinceWhileActive(rules: map<TagId, Rule>, history: seq<Event>, id: TagId)
    ensures LastCondition(rules, history, id).None? ==> ActiveSince(rules, history, id).None?
  {
  }

  /** The state after one more event, event by event. */
  lemma StateSnoc(rules: map<TagId, Rule>, history: seq<Event>, e: Event, id: TagId)
    ensures StateAfter(rules, history + [e], id) ==
              var s := StateAfter(rules, history, id);
              match e
              case Update(t) =>
                if t.id != id then s
                else if id !in rules || Check(rules[id], Prior(history, id), t).None? then Normal
                else if s == Normal then Active else s
              case Acknowledge(j, _) => if j == id && s == Active then Acked else s
              case _ => s
  {
    ConditionSnoc(rules, history, e, id);
    AckedOnlyActive(rules, history, id);
  }

  /** The samples `evaluate` leaves behind: only tags with a rate limit are remembered, and only numbers. */
  function Sampled(samples: map<TagId, Reading>, rule: Rule, t: Tag): map<TagId, Reading> {
    if rule.rate.Some? && IsNumeric(t.value) then samples[t.id := Reading(Number(t.value).value, t.timestamp)] else samples
  }

  lemma UpdateTracks(rules: map<TagId, Rule>, history: seq<Event>, status: map<TagId, Status>, samples: map<TagId, Reading>, t: Tag, id: TagId)
    requires TracksAt(rules, history, status, samples, id) && t.id in rules
    ensures
      var condition := Check(rules[t.id], Prior(history, t.id), t);
      var next := status[t.id := Evaluated(Found(status, t.id), condition, t.timestamp)];
      TracksAt(rules, history + [Update(t)], next, Sampled(samples, rules[t.id], t), id)
  {
    HistorySnoc(rules, history, Update(t), id);
    StateSnoc(rules, history, Update(t), id);
    ConditionSnoc(rules, history, Update(t), id);
    SinceSnoc(rules, history, Update(t), id);
    AckedBySnoc(rules, history, Update(t), id);
    AckedByNone(rules, history, id);
  }

  /** Any event that changes only the status of `j`, in the way the history says. */
  lemma StatusTracks(rules: map<TagId, Rule>, history: seq<Event>, status: map<TagId, Status>, samples: map<TagId, Reading>,
                     e: Event, j: TagId, s: Status, id: TagId)
    requires TracksAt(rules, history, status, samples, id) && !e.Update? && e.id == j
    requires s.state == (if e.Acknowledge? && StateOf(status, j) == Active then Acked else StateOf(status, j))
    requires s.shelvedUntil == (if e.Shelve? then Some(e.until) else if e.Unshelve? then None else ShelfOf(status, j))
    requires s.condition == ConditionOf(status, j) && s.activeSince == SinceOf(status, j)
    requires s.acknowledgedBy == (if e.Acknowledge? && StateOf(status, j) == Active then Some(e.actor) else AckerOf(status, j))
    ensures TracksAt(rules, history + [e], status[j := s], samples, id)
  {
    HistorySnoc(rules, history, e, id);
    StateSnoc(rules, history, e, id);
    ConditionSnoc(rules, history, e, id);
    SinceSnoc(rules, history, e, id);
    SinceWhileActive(rules, history, id);
    AckedBySnoc(rules, history, e, id);
    AckedByNone(rules, history, id);
  }

  /** An event that leaves everything as it was. */
  lemma NothingTracks(rules: map<TagId, Rule>, history: seq<Event>, status: map<TagId, Status>, samples: map<TagId, Reading>, e: Event, id: TagId)
    requires TracksAt(rules, history, status, samples, id)
    requires match e
             case Update(t) => t.id !in rules
             case Acknowledge(j, _) => StateOf(status, j) != Active
             case Unshelve(j) => ShelfOf(status, j).None?
             case Shelve(_, _) => false
    ensures TracksAt(rules, history + [e], status, samples, id)
  {
    HistorySnoc(rules, history, e, id);
    StateSnoc(rules, history, e, id);
    ConditionSnoc(rules, history, e, id);
    SinceSnoc(rules, history, e, id);
    SinceWhileActive(rules, history, id);
    AckedBySnoc(rules, history, e, id);
    AckedByNone(rules, history, id);
    NoRuleNormal(rules, history, id);
  }

  lemma {:induction false} NoRuleNormal(rules: map<TagId, Rule>, history: seq<Event>, id: TagId)
    ensures id !in rules ==> LastCondition(rules, history, id).None?
  {
    if history != [] {
      NoRuleNormal(rules, history[..|history| - 1], id);
    }
  }

  class AlarmEngine {
    const rules: map<TagId, Rule>
    var status: map<TagId, Status>
    var lastSample: map<TagId, Reading>
    ghost var history: seq<Event>

    ghost predicate Valid()
      reads this
    {
      forall id :: TracksAt(rules, history, status, lastSample, id)
    }

    constructor (rules: map<TagId, Rule>)
      ensures Valid() && history == [] && this.rules == rules
    {
      this.rules, status, lastSample, history := rules, map[], map[], [];
    }

    /** The rate half of the check; it also remembers the sample. */
    method CheckRateOfChange(limit: real, t: Tag) returns (condition: Option<Condition>)
      modifies this`lastSample
      ensures lastSample == if IsNumeric(t.value) then old(lastSample)[t.id := Reading(Number(t.value).value, t.timestamp)] else old(lastSample)
      ensures condition == if IsNumeric(t.value)
                           then RateCondition(limit, SampleOf(old(lastSample), t.id), Reading(Number(t.value).value, t.timestamp)) else None
    {
      condition := None;
      if !IsNumeric(t.value) {
        return;
      }
      var now, prior := Reading(Number(t.value).value, t.timestamp), SampleOf(lastSample, t.id);
      lastSample := lastSample[t.id := now];
      if prior.None? {
        return;
      }
      var elapsed := now.at - prior.value.at;
      if elapsed <= 0.0 {
        return;
      }
      var rate := Abs(now.value - prior.value.value) / elapsed;
      if rate > limit {
        condition := Some(RateOfChange);
      }
    }

    method CheckConditions(rule: Rule, t: Tag) returns (condition: Option<Condition>)
      modifies this`lastSample
      ensures lastSample == Sampled(old(lastSample), rule, t)
      ensures condition == Check(rule, SampleOf(old(lastSample), t.id), t)
    {
      condition := None;
      if rule.rate.Some? {
        condition := CheckRateOfChange(rule.rate.value, t);
      }
      if !IsNumeric(t.value) {
        return;
      }
      var v := Number(t.value).value;
      if rule.highHigh.Some? && v >= rule.highHigh.value {
        condition := Some(HighHigh);
      } else if rule.lowLow.Some? && v <= rule.lowLow.value {
        condition := Some(LowLow);
      } else if rule.high.Some? && v >= rule.high.value {
        condition := Some(High);
      } else if rule.low.Some? && v <= rule.low.value {
        condition := Some(Low);
      }
    }

    /** The sample comes back flagged exactly as the history up to now says. */
    method Evaluate(t: Tag) returns (r: Tag)
      requires Valid()
      modifies this
      ensures Valid() && history == old(history) + [Update(t)]
      ensures r == t.(isAlarm := Flagged(rules, old(history), t))
    {
      ghost var before, samples := status, lastSample;
      if t.id !in rules {
        NothingAll(Update(t));
        history := history + [Update(t)];
        return t;
      }
      assert TracksAt(rules, history, status, lastSample, t.id);
      var condition := CheckConditions(rules[t.id], t);
      CheckPrior(rules[t.id], SampleOf(samples, t.id), Prior(history, t.id), t);
      var s := Evaluated(Found(status, t.id), condition, t.timestamp);
      assert condition == Check(rules[t.id], Prior(history, t.id), t);
      UpdateAll(rules, history, before, samples, t, status[t.id := s], lastSample);
      status, history := status[t.id := s], history + [Update(t)];
      var shelved := s.shelvedUntil.Some? && t.timestamp < s.shelvedUntil.value;
      r := t.(isAlarm := s.state != Normal && !shelved);
    }

    lemma NothingAll(e: Event)
      requires Valid()
      requires match e
               case Update(t) => t.id !in rules
               case Acknowledge(j, _) => StateOf(status, j) != Active
               case Unshelve(j) => ShelfOf(status, j).None?
               case Shelve(_, _) => false
      ensures forall id :: TracksAt(rules, history + [e], status, lastSample, id)
    {
      var h := history + [e];
      forall id
        ensures TracksAt(rules, h, status, lastSample, id)
      {
        assert TracksAt(rules, history, status, lastSample, id);
        NothingTracks(rules, history, status, lastSample, e, id);
      }
    }

    lemma StatusAll(e: Event, s: Status)
      requires Valid() && !e.Update?
      requires s.state == (if e.Acknowledge? && StateOf(status, e.id) == Active then Acked else StateOf(status, e.id))
      requires s.shelvedUntil == (if e.Shelve? then Some(e.until) else if e.Unshelve? then None else ShelfOf(status, e.id))
      requires s.condition == ConditionOf(status, e.id) && s.activeSince == SinceOf(status, e.id)
      requires s.acknowledgedBy == (if e.Acknowledge? && StateOf(status, e.id) == Active then Some(e.actor) else AckerOf(status, e.id))
      ensures var h, next := history + [e], status[e.id := s]; forall id :: TracksAt(rules, h, next, lastSample, id)
    {
      var h, next := history + [e], status[e.id := s];
      forall id
        ensures TracksAt(rules, h, next, lastSample, id)
      {
        assert TracksAt(rules, history, status, lastSample, id);
        StatusTracks(rules, history, status, lastSample, e, e.id, s, id);
      }
    }

    /** True exactly when the tag is active and not yet acknowledged. */
    method Ack(id: TagId, actor: string) returns (done: bool)
      requires Valid()
      modifies this`status, this`history
      ensures Valid() && history == old(history) + [Acknowledge(id, actor)]
      ensures done <==> LastCondition(rules, old(history), id).Some? && !AckedSince(rules, old(history), id)
    {
      assert TracksAt(rules, history, status, lastSample, id);
      done := id in status && status[id].state == Active;
      if done {
        var s := status[id].(state := Acked, acknowledgedBy := Some(actor));
        StatusAll(Acknowledge(id, actor), s);
        status := status[id := s];
      } else {
        NothingAll(Acknowledge(id, actor));
      }
      history := history + [Acknowledge(id, actor)];
    }

    method ShelveTag(id: TagId, now: real, duration: real)
      requires Valid()
      modifies this`status, this`history
      ensures Valid() && history == old(history) + [Shelve(id, now + duration)]
    {
      var s := Found(status, id).(shelvedUntil := Some(now + duration));
      StatusAll(Shelve(id, now + duration), s);
      status, history := status[id := s], history + [Shelve(id, now + duration)];
    }

    /** True exactly when the tag was shelved. */
    method UnshelveTag(id: TagId) returns (done: bool)
      requires Valid()
      modifies this`status, this`history
      ensures Valid() && history == old(history) + [Unshelve(id)]
      ensures done <==> ShelvedUntil(old(history), id).Some?
    {
      assert TracksAt(rules, history, status, lastSample, id);
      done := id in status && status[id].shelvedUntil.Some?;
      if done {
        var s := status[id].(shelvedUntil := None);
        StatusAll(Unshelve(id), s);
        status := status[id := s];
      } else {
        NothingAll(Unshelve(id));
      }
      history := history + [Unshelve(id)];
    }
  }

  /** The previous sample matters only under a rate limit. */
  lemma CheckPrior(rule: Rule, p: Option<Reading>, q: Option<Reading>, t: Tag)
    requires rule.rate.Some? ==> p == q
    ensures Check(rule, p, t) == Check(rule, q, t)
  {
  }

  lemma UpdateAll(rules: map<TagId, Rule>, history: seq<Event>, status: map<TagId, Status>, samples: map<TagId, Reading>, t: Tag,
                  next: map<TagId, Status>, more: map<TagId, Reading>)
    requires t.id in rules && forall id :: TracksAt(rules, history, status, samples, id)
    requires next == status[t.id := Evaluated(Found(status, t.id), Check(rules[t.id], Prior(history, t.id), t), t.timestamp)]
    requires more == Sampled(samples, rules[t.id], t)
    ensures forall id :: TracksAt(rules, history + [Update(t)], next, more, id)
  {
    var h := history + [Update(t)];
    forall id
      ensures TracksAt(rules, h, next, more, id)
    {
      assert TracksAt(rules, history, status, samples, id);
      UpdateTracks(rules, history, status, samples, t, id);
    }
  }
}
