/** From updates to the published stream: alarm evaluation, then the deadband filter, over any run of events. */
module PublishedStream {
  import opened Basics
  import opened TagPipeline
  import opened Alarms

  function Band(bands: map<TagId, Deadband>, id: TagId): Option<Deadband> {
    if id in bands then Some(bands[id]) else None
  }

  /** The samples of a run, flagged. */
  function FlaggedStream(rules: map<TagId, Rule>, events: seq<Event>): seq<Tag> {
    if events == [] then []
    else
      var front, last := events[..|events| - 1], events[|events| - 1];
      FlaggedStream(rules, front) + if last.Update? then [last.tag.(isAlarm := Flagged(rules, front, last.tag))] else []
  }

  /** The samples that survive the filter. */
  function Published(bands: map<TagId, Deadband>, s: seq<Tag>): seq<Tag> {
    if s == [] then []
    else
      var front, t := Published(bands, s[..|s| - 1]), s[|s| - 1];
      front + if ShouldPublish(t, LastOf(front, t.id), Band(bands, t.id)) then [t] else []
  }

  /** Every tag's quality and alarm changes survive the filter, in order and without extra ones. */
  lemma {:induction false} StoryPreserved(bands: map<TagId, Deadband>, s: seq<Tag>, id: TagId)
    ensures Alike(Marks(s, id), Marks(Published(bands, s), id))
  {
    if s != [] {
      var front, t := s[..|s| - 1], s[|s| - 1];
      assert s == front + [t];
      StoryPreserved(bands, front, id);
      OneMore(front, Published(bands, front), t, Band(bands, t.id), id);
    }
  }

  lemma OneMore(e: seq<Tag>, p: seq<Tag>, t: Tag, band: Option<Deadband>, id: TagId)
    requires Alike(Marks(e, id), Marks(p, id))
    ensures Alike(Marks(e + [t], id), Marks(p + if ShouldPublish(t, LastOf(p, t.id), band) then [t] else [], id))
  {
    if ShouldPublish(t, LastOf(p, t.id), band) {
      AlikePublished(e, p, t, id);
    } else {
      assert p + [] == p;
      AlikeHeld(e, p, t, id);
    }
  }

  lemma AlikePublished(e: seq<Tag>, p: seq<Tag>, t: Tag, id: TagId)
    requires Alike(Marks(e, id), Marks(p, id))
    ensures Alike(Marks(e + [t], id), Marks(p + [t], id))
  {
    MarksSnoc(e, t, id);
    MarksSnoc(p, t, id);
    if t.id == id {
      AlikeBoth(Marks(e, id), Marks(p, id), MarkOf(t));
    } else {
      assert Marks(e, id) + [] == Marks(e, id) && Marks(p, id) + [] == Marks(p, id);
    }
  }

  lemma AlikeHeld(e: seq<Tag>, p: seq<Tag>, t: Tag, id: TagId)
    requires Alike(Marks(e, id), Marks(p, id)) && LastOf(p, t.id).Some? && LastOf(p, t.id).value.mark == MarkOf(t)
    ensures Alike(Marks(e + [t], id), Marks(p, id))
  {
    MarksSnoc(e, t, id);
    if t.id == id {
      LastMark(p, id);
      AlikeSuppressed(Marks(e, id), Marks(p, id), MarkOf(t));
    } else {
      assert Marks(e, id) + [] == Marks(e, id);
    }
  }

  /** After every sample the last published one has its mark, and its value equals it or is within the deadband. */
  lemma NewestFollowed(bands: map<TagId, Deadband>, s: seq<Tag>, t: Tag)
    ensures FollowedBy(LastOf(Published(bands, s + [t]), t.id), t, Band(bands, t.id))
  {
    assert (s + [t])[..|s|] == s;
    var p := Published(bands, s);
    MarksSnoc(p, t, t.id);
    if ShouldPublish(t, LastOf(p, t.id), Band(bands, t.id)) {
      assert SameValue(t.value, t.value);
    } else {
      assert p + [] == p;
      SuppressedIsClose(t, LastOf(p, t.id).value, Band(bands, t.id));
    }
  }

  lemma {:induction false} LastOfAt(s: seq<Tag>, id: TagId, i: nat)
    requires i < |s| && s[i].id == id && forall k | i < k < |s| :: s[k].id != id
    ensures LastOf(s, id) == Some(Last(s[i].value, MarkOf(s[i])))
  {
    if i < |s| - 1 {
      LastOfAt(s[..|s| - 1], id, i);
    }
  }

  /** Samples `i` and `j` of a stream are of one tag, with one mark, and no sample of that tag is between them. */
  predicate Successive(p: seq<Tag>, i: nat, j: nat) {
    && i < j < |p| && p[i].id == p[j].id && MarkOf(p[i]) == MarkOf(p[j])
    && forall k | i < k < j :: p[k].id != p[i].id
  }

  /** Two numbers differ by the deadband or more. */
  predicate AtLeast(deadband: Deadband, last: real, next: real) {
    match deadband
    case Absolute(limit) => Abs(next - last) >= limit
    case Percentage(limit) => Abs(next - last) * 100.0 >= limit * Abs(last)
  }

  lemma SuccessiveFront(p: seq<Tag>, q: seq<Tag>, i: nat, j: nat)
    requires p <= q && j < |p| && Successive(q, i, j)
    ensures Successive(p, i, j)
  {
    assert forall k | 0 <= k < |p| :: p[k] == q[k];
  }

  lemma SuccessiveLast(p: seq<Tag>, t: Tag, i: nat)
    requires Successive(p + [t], i, |p|)
    ensures p[i].id == t.id && MarkOf(p[i]) == MarkOf(t) && forall k | i < k < |p| :: p[k].id != t.id
  {
    assert forall k | 0 <= k < |p| :: p[k] == (p + [t])[k];
  }

  /**
   Nothing is published without need: of two successive published samples of a tag with one quality and alarm flag, the
   second is not close to the first, that is, it differs from it by the deadband or more (or by anything, without one).
   */
  lemma {:induction false} PublishedApart(bands: map<TagId, Deadband>, s: seq<Tag>, i: nat, j: nat)
    requires Successive(Published(bands, s), i, j)
    ensures
      var p := Published(bands, s);
      var band := Band(bands, p[i].id);
      !Close(p[i].value, p[j].value, band) || Unlimited(p[i].value, p[j].value, band)
    ensures
      var p := Published(bands, s);
      p[i].id in bands && bands[p[i].id].value > 0.0 && p[i].value.Float? && p[j].value.Float? ==>
        AtLeast(bands[p[i].id], p[i].value.f, p[j].value.f)
  {
    var front, t := s[..|s| - 1], s[|s| - 1];
    var p := Published(bands, front);
    if j < |p| {
      SuccessiveFront(p, Published(bands, s), i, j);
      PublishedApart(bands, front, i, j);
    } else {
      assert Published(bands, s) == p + [t];
      SuccessiveLast(p, t, i);
      LastOfAt(p, t.id, i);
      PublishIff(t, LastOf(p, t.id).value, Band(bands, t.id));
    }
  }

  /** Acknowledging alarms changes nothing in what is published. */
  lemma {:induction false} AcksLeaveNoTrace(rules: map<TagId, Rule>, events: seq<Event>)
    ensures FlaggedStream(rules, WithoutAcks(events)) == FlaggedStream(rules, events)
  {
    if events != [] {
      var front, last := events[..|events| - 1], events[|events| - 1];
      AcksLeaveNoTrace(rules, front);
      if last.Acknowledge? {
        assert WithoutAcks(front) + [] == WithoutAcks(front);
      } else {
        assert (WithoutAcks(front) + [last])[..|WithoutAcks(front)|] == WithoutAcks(front);
        if last.Update? {
          AcksInvisible(rules, front, last.tag);
        }
      }
    }
  }

  /** What one event adds to the published stream. */
  function Emitted(rules: map<TagId, Rule>, bands: map<TagId, Deadband>, history: seq<Event>, published: seq<Tag>, e: Event): seq<Tag> {
    if !e.Update? then []
    else
      var t := e.tag.(isAlarm := Flagged(rules, history, e.tag));
      if ShouldPublish(t, LastOf(published, t.id), Band(bands, t.id)) then [t] else []
  }

  lemma EmittedNext(rules: map<TagId, Rule>, bands: map<TagId, Deadband>, events: seq<Event>, e: Event)
    ensures
      var published := Published(bands, FlaggedStream(rules, events));
      Published(bands, FlaggedStream(rules, events + [e])) == published + Emitted(rules, bands, events, published, e)
  {
    assert (events + [e])[..|events|] == events;
    var stream := FlaggedStream(rules, events);
    if e.Update? {
      var t := e.tag.(isAlarm := Flagged(rules, events, e.tag));
      assert (stream + [t])[..|stream|] == stream;
    } else {
      assert stream + [] == stream;
    }
  }

  /** One event on the real engine and filter. */
  method Process(engine: AlarmEngine, filter: DeadbandFilter, bands: map<TagId, Deadband>, e: Event) returns (out: seq<Tag>)
    requires engine.Valid() && filter.Valid()
    modifies engine, filter
    ensures engine.Valid() && filter.Valid() && engine.history == old(engine.history) + [e]
    ensures filter.published == old(filter.published) + out
    ensures out == Emitted(engine.rules, bands, old(engine.history), old(filter.published), e)
  {
    out := [];
    match e
    case Update(t) =>
      var tag := engine.Evaluate(t);
      var publish := filter.Filter(tag, Band(bands, tag.id));
      if publish {
        out := [tag];
      }
    case Acknowledge(id, actor) =>
      var done := engine.Ack(id, actor);
    case Shelve(id, until) =>
      engine.ShelveTag(id, until, 0.0);
    case Unshelve(id) =>
      var done := engine.UnshelveTag(id);
  }

  /** The pipeline publishes exactly that stream. */
  method Run(rules: map<TagId, Rule>, bands: map<TagId, Deadband>, events: seq<Event>) returns (published: seq<Tag>)
    ensures published == Published(bands, FlaggedStream(rules, events))
  {
    var engine := new AlarmEngine(rules);
    var filter := new DeadbandFilter();
    published := [];
    for i := 0 to |events|
      invariant engine.Valid() && filter.Valid() && engine.history == events[..i]
      invariant filter.published == published && published == Published(bands, FlaggedStream(rules, events[..i]))
    {
      assert events[..i + 1] == events[..i] + [events[i]];
      EmittedNext(rules, bands, events[..i], events[i]);
      var out := Process(engine, filter, bands, events[i]);
      published := published + out;
    }
    assert events[..|events|] == events;
  }
}
