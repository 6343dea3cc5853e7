/** What reconciliation promises, for any supervisor state that agrees with the tracking map. */
module ReconcileLaws {
  import opened Basics
  import opened DriverConfig
  import opened HotReload
  import opened Reconcile

  ghost predicate DistinctIds(drivers: seq<Entry>) {
    forall i, j | 0 <= i < j < |drivers| :: drivers[i].id != drivers[j].id
  }

  /** A task runs the tracked entry of exactly the instances tracked as enabled. */
  ghost predicate Agreement(current: map<InstanceId, Entry>, m: Image) {
    forall id :: Agrees(Lookup(current, id), View(m, id))
  }

  lemma ChangeWellFormed(drivers: seq<Entry>, current: Option<Entry>, valid: Entry -> bool, id: InstanceId)
    ensures var c := ChangeOf(drivers, current, valid, id); WellFormed(c) && (DistinctIds(drivers) ==> !ListedTwice(c))
  {
    var c := ChangeOf(drivers, current, valid, id);
    if c.enabled.Some? {
      ByIdEntries(drivers, true, id);
    }
    if c.disabled.Some? {
      ByIdEntries(drivers, false, id);
    }
    if ListedTwice(c) {
      var i :| 0 <= i < |drivers| && drivers[i] == c.enabled.value;
      var j :| 0 <= j < |drivers| && drivers[j] == c.disabled.value;
      assert drivers[i].id == drivers[j].id && i != j;
    }
  }

  /** For distinct ids the start that finds a running task cannot happen. */
  lemma NeverRaises(drivers: seq<Entry>, current: map<InstanceId, Entry>, valid: Entry -> bool, m: Image, id: InstanceId)
    requires DistinctIds(drivers) && Agreement(current, m)
    ensures !RaisesAt(drivers, current, valid, m, id)
  {
    ChangeWellFormed(drivers, Lookup(current, id), valid, id);
    assert Agrees(Lookup(current, id), View(m, id));
    AgreementKept(ChangeOf(drivers, Lookup(current, id), valid, id), View(m, id));
  }

  /** For distinct ids the returned map agrees with the supervisor again. */
  lemma AgreementRestored(drivers: seq<Entry>, current: map<InstanceId, Entry>, valid: Entry -> bool, m: Image, p: Image,
                          tracked: map<InstanceId, Entry>)
    requires DistinctIds(drivers) && Agreement(current, m)
    requires forall id :: ReconciledAt(drivers, current, valid, m, p, tracked, id)
    ensures Agreement(tracked, p)
  {
    forall id
      ensures Agrees(Lookup(tracked, id), View(p, id))
    {
      ChangeWellFormed(drivers, Lookup(current, id), valid, id);
      assert Agrees(Lookup(current, id), View(m, id)) && ReconciledAt(drivers, current, valid, m, p, tracked, id);
      AgreementKept(ChangeOf(drivers, Lookup(current, id), valid, id), View(m, id));
    }
  }

  /**
   An id listed both enabled and disabled: tracking and supervisor still agree if and only if the enabled entry is
   the one tracked before, or it is refused and nothing was running under this id.
   */
  lemma TwiceListedIff(drivers: seq<Entry>, current: map<InstanceId, Entry>, valid: Entry -> bool, m: Image, p: Image,
                       tracked: map<InstanceId, Entry>, id: InstanceId)
    requires Agreement(current, m) && ReconciledAt(drivers, current, valid, m, p, tracked, id)
    requires id in ById(drivers, true) && id in ById(drivers, false)
    ensures Agrees(Lookup(tracked, id), View(p, id)) <==>
              Lookup(current, id) == Some(ById(drivers, true)[id]) || (id in Refused(drivers, valid) && id !in m.tasks)
  {
    ChangeWellFormed(drivers, Lookup(current, id), valid, id);
    assert Agrees(Lookup(current, id), View(m, id));
    AgreementIff(ChangeOf(drivers, Lookup(current, id), valid, id), View(m, id));
  }

  /** Listed enabled and then disabled, a new id is started and yet tracked as disabled. */
  lemma TwiceListedDisagrees(e: Entry, valid: Entry -> bool)
    requires e.enabled && !e.sharesPort && valid(e)
    ensures
      var c := ChangeOf([e, e.(enabled := false)], None, valid, e.id);
      var v := Reconciled(c, Instance(None, None, []));
      v.task == Some(e) && Tracked(c) == Some(e.(enabled := false)) && !Agrees(Tracked(c), v)
  {
    var drivers := [e, e.(enabled := false)];
    assert drivers[..1] == [e];
    ByIdOne(e, true);
    ByIdOne(e, false);
    ConflictIff(drivers, e.id);
  }

  lemma ByIdOne(e: Entry, enabled: bool)
    ensures ById([e], enabled) == if e.enabled == enabled then map[e.id := e] else map[]
  {
    var none := [e][..0];
    assert none == [] && ById(none, enabled) == map[];
  }

  /** An instance whose entry is unchanged is left alone: no call is made for it. */
  lemma UnchangedLeftAlone(drivers: seq<Entry>, current: map<InstanceId, Entry>, valid: Entry -> bool, m: Image, p: Image,
                           tracked: map<InstanceId, Entry>, i: nat)
    requires DistinctIds(drivers) && i < |drivers| && Lookup(current, drivers[i].id) == Some(drivers[i])
    requires ReconciledAt(drivers, current, valid, m, p, tracked, drivers[i].id)
    ensures View(p, drivers[i].id) == View(m, drivers[i].id) && Lookup(tracked, drivers[i].id) == Some(drivers[i])
  {
    var id := drivers[i].id;
    ChangeWellFormed(drivers, Lookup(current, id), valid, id);
    ListedAs(drivers, drivers[i].enabled, i);
    UnchangedUndisturbed(ChangeOf(drivers, Lookup(current, id), valid, id), View(m, id));
  }

  lemma {:induction false} ListedAs(drivers: seq<Entry>, enabled: bool, i: nat)
    requires DistinctIds(drivers) && i < |drivers| && drivers[i].enabled == enabled
    ensures Lookup(ById(drivers, enabled), drivers[i].id) == Some(drivers[i])
  {
    var n := |drivers| - 1;
    if i < n {
      assert drivers[..n][i] == drivers[i];
      ListedAs(drivers[..n], enabled, i);
    }
  }

  /** Applying the same list to the result of the first time calls nothing and tracks the same. */
  lemma SecondApplicationIdle(drivers: seq<Entry>, current: map<InstanceId, Entry>, valid: Entry -> bool, m: Image, p: Image,
                              tracked: map<InstanceId, Entry>, q: Image, again: map<InstanceId, Entry>, id: InstanceId)
    requires DistinctIds(drivers)
    requires ReconciledAt(drivers, current, valid, m, p, tracked, id) && ReconciledAt(drivers, tracked, valid, p, q, again, id)
    ensures View(q, id) == View(p, id) && Lookup(again, id) == Lookup(tracked, id)
  {
    ChangeWellFormed(drivers, Lookup(current, id), valid, id);
    SecondTimeNothing(ChangeOf(drivers, Lookup(current, id), valid, id), View(p, id));
  }

  /** Whatever is started is valid and collides with no other entry of the new list. */
  lemma StartedAlone(drivers: seq<Entry>, current: map<InstanceId, Entry>, valid: Entry -> bool, id: InstanceId)
    requires Starts(ChangeOf(drivers, Lookup(current, id), valid, id))
    ensures exists i | 0 <= i < |drivers| ::
              && drivers[i] == ById(drivers, true)[id] && valid(drivers[i])
              && forall j | 0 <= j < |drivers| && j != i :: !Collide(drivers[i], drivers[j])
  {
    ByIdEntries(drivers, true, id);
    ConflictIff(drivers, id);
    var i :| 0 <= i < |drivers| && drivers[i] == ById(drivers, true)[id];
    assert forall j | 0 <= j < |drivers| && j != i :: !Collide(drivers[i], drivers[j]);
  }

  // ---------- what a reload achieves ----------

  /** Valid, and alone on its slave among the entries of the list. */
  predicate Acceptable(drivers: seq<Entry>, valid: Entry -> bool, i: nat)
    requires i < |drivers|
  {
    valid(drivers[i]) && forall j | 0 <= j < |drivers| && j != i :: !Collide(drivers[i], drivers[j])
  }

  lemma AcceptableIff(drivers: seq<Entry>, valid: Entry -> bool, i: nat)
    requires DistinctIds(drivers) && i < |drivers|
    ensures Acceptable(drivers, valid, i) <==> valid(drivers[i]) && !Conflicting(drivers, drivers[i].id)
  {
    ConflictIff(drivers, drivers[i].id);
    if k, j :| 0 <= k < |drivers| && 0 <= j < |drivers| && k != j && drivers[k].id == drivers[i].id && Collide(drivers[k], drivers[j]) {
      assert k == i;
    }
    if valid(drivers[i]) && !Acceptable(drivers, valid, i) {
      var j :| 0 <= j < |drivers| && j != i && Collide(drivers[i], drivers[j]);
      assert drivers[i].id == drivers[i].id && Collide(drivers[i], drivers[j]);
    }
  }

  /**
   What becomes of every listed entry: a disabled one does not run; an enabled one runs if it was tracked already or is
   acceptable; any other leaves its instance as it was. The tracking map says so.
   */
  lemma ListedOutcome(drivers: seq<Entry>, current: map<InstanceId, Entry>, valid: Entry -> bool, m: Image, p: Image,
                      tracked: map<InstanceId, Entry>, i: nat)
    requires DistinctIds(drivers) && Agreement(current, m) && i < |drivers|
    requires ReconciledAt(drivers, current, valid, m, p, tracked, drivers[i].id)
    ensures
      var e := drivers[i];
      var task, track := View(p, e.id).task, Lookup(tracked, e.id);
      if !e.enabled then task == None && track == Some(e)
      else if Lookup(current, e.id) == Some(e) || Acceptable(drivers, valid, i) then task == Some(e) && track == Some(e)
      else task == View(m, e.id).task && track == Lookup(current, e.id)
  {
    var e := drivers[i];
    ChangeWellFormed(drivers, Lookup(current, e.id), valid, e.id);
    ListedAs(drivers, e.enabled, i);
    AcceptableIff(drivers, valid, i);
    assert Agrees(Lookup(current, e.id), View(m, e.id));
    AgreementKept(ChangeOf(drivers, Lookup(current, e.id), valid, e.id), View(m, e.id));
  }

  /** The status of a listed instance: starting if it was started, disabled if it newly is, otherwise as before. */
  lemma ListedStatus(drivers: seq<Entry>, current: map<InstanceId, Entry>, valid: Entry -> bool, m: Image, p: Image,
                     tracked: map<InstanceId, Entry>, i: nat)
    requires DistinctIds(drivers) && Agreement(current, m) && i < |drivers|
    requires ReconciledAt(drivers, current, valid, m, p, tracked, drivers[i].id)
    ensures
      var e, was := drivers[i], View(m, drivers[i].id).status;
      View(p, e.id).status ==
        if Lookup(current, e.id) == Some(e) then was
        else if !e.enabled then (if was.Some? then Some(DriverState.Disabled) else None)
        else if Acceptable(drivers, valid, i) then Some(Starting)
        else was
  {
    var e := drivers[i];
    ChangeWellFormed(drivers, Lookup(current, e.id), valid, e.id);
    ListedAs(drivers, e.enabled, i);
    AcceptableIff(drivers, valid, i);
  }

  /** An instance that is no longer listed does not run and is not tracked. */
  lemma UnlistedGone(drivers: seq<Entry>, current: map<InstanceId, Entry>, valid: Entry -> bool, m: Image, p: Image,
                     tracked: map<InstanceId, Entry>, id: InstanceId)
    requires Agreement(current, m) && ReconciledAt(drivers, current, valid, m, p, tracked, id)
    requires forall i | 0 <= i < |drivers| :: drivers[i].id != id
    ensures View(p, id).task == None && Lookup(tracked, id) == None
    ensures View(p, id).status == if View(m, id).task.Some? && View(m, id).status.Some? then Some(Stopped) else View(m, id).status
  {
    if id in ById(drivers, true) {
      ByIdEntries(drivers, true, id);
    }
    if id in ById(drivers, false) {
      ByIdEntries(drivers, false, id);
    }
    assert Agrees(Lookup(current, id), View(m, id));
  }

  // ---------- any sequence of reloads ----------

  /** One instance through a sequence of configurations: what is tracked for it, and what the supervisor has. */
  ghost function Through(lists: seq<seq<Entry>>, valid: Entry -> bool, id: InstanceId, current: Option<Entry>, v: Instance)
    : (Option<Entry>, Instance)
    decreases |lists|
  {
    if lists == [] then (current, v)
    else
      var c := ChangeOf(lists[0], current, valid, id);
      Through(lists[1..], valid, id, Tracked(c), Reconciled(c, v))
  }

  /** Along any sequence of lists with distinct ids, tracking and supervisor never stop agreeing. */
  lemma {:induction false} AlwaysAgrees(lists: seq<seq<Entry>>, valid: Entry -> bool, id: InstanceId, current: Option<Entry>, v: Instance)
    requires (forall k | 0 <= k < |lists| :: DistinctIds(lists[k])) && Agrees(current, v)
    ensures var (tracked, w) := Through(lists, valid, id, current, v); Agrees(tracked, w)
    decreases |lists|
  {
    if lists != [] {
      var c := ChangeOf(lists[0], current, valid, id);
      ChangeWellFormed(lists[0], current, valid, id);
      AgreementKept(c, v);
      AlwaysAgrees(lists[1..], valid, id, Tracked(c), Reconciled(c, v));
    }
  }

  // ---------- collisions on the bus ----------

  /** Two running instances claim one slave. */
  predicate CollideIn(m: Image, a: InstanceId, b: InstanceId) {
    a in m.tasks && b in m.tasks && Collide(m.tasks[a], m.tasks[b])
  }

  /** A listed instance that the reload leaves running what it runs: its entry is unchanged, or refused. */
  ghost predicate Stays(drivers: seq<Entry>, current: map<InstanceId, Entry>, valid: Entry -> bool, id: InstanceId) {
    id in current && id in ById(drivers, true) && !Starts(ChangeOf(drivers, Lookup(current, id), valid, id))
  }

  /** The refused instance `a` stays on its earlier entry, and `b` is started on the slave of that entry. */
  ghost predicate StartedOnto(drivers: seq<Entry>, current: map<InstanceId, Entry>, valid: Entry -> bool, a: InstanceId, b: InstanceId) {
    && a in current && a in Refused(drivers, valid) && current[a] != ById(drivers, true)[a]
    && Starts(ChangeOf(drivers, Lookup(current, b), valid, b)) && Collide(current[a], ById(drivers, true)[b])
  }

  /** What an instance runs after a reload: its listed entry if it was started, its earlier one if it stays. */
  lemma RunsAfter(drivers: seq<Entry>, current: map<InstanceId, Entry>, valid: Entry -> bool, m: Image, p: Image,
                  tracked: map<InstanceId, Entry>, id: InstanceId)
    requires DistinctIds(drivers) && Agreement(current, m) && ReconciledAt(drivers, current, valid, m, p, tracked, id)
    ensures
      var starts := Starts(ChangeOf(drivers, Lookup(current, id), valid, id));
      && (id in p.tasks <==> starts || (Stays(drivers, current, valid, id) && current[id].enabled))
      && (id in p.tasks ==> p.tasks[id] == if starts then ById(drivers, true)[id] else current[id])
      && (id in m.tasks <==> id in current && current[id].enabled) && (id in m.tasks ==> m.tasks[id] == current[id])
  {
    ChangeWellFormed(drivers, Lookup(current, id), valid, id);
    assert Agrees(Lookup(current, id), View(m, id));
    AgreementKept(ChangeOf(drivers, Lookup(current, id), valid, id), View(m, id));
  }

  /** A started entry collides with no entry of the list under another id. */
  lemma StartedCollidesNot(drivers: seq<Entry>, current: map<InstanceId, Entry>, valid: Entry -> bool, a: InstanceId, b: InstanceId)
    requires a != b && Starts(ChangeOf(drivers, Lookup(current, a), valid, a)) && b in ById(drivers, true)
    ensures !Collide(ById(drivers, true)[a], ById(drivers, true)[b])
  {
    ByIdEntries(drivers, true, a);
    ByIdEntries(drivers, true, b);
    ConflictIff(drivers, a);
    var i :| 0 <= i < |drivers| && drivers[i] == ById(drivers, true)[a];
    var j :| 0 <= j < |drivers| && drivers[j] == ById(drivers, true)[b];
    assert i != j && drivers[i].id == a;
  }

  /**
   Exactly when two instances run on one slave after a reload: one of them was refused and the other is started
   onto the entry it keeps, or both stay and did so before.
   */
  lemma CollisionIff(drivers: seq<Entry>, current: map<InstanceId, Entry>, valid: Entry -> bool, m: Image, p: Image,
                     tracked: map<InstanceId, Entry>, a: InstanceId, b: InstanceId)
    requires DistinctIds(drivers) && Agreement(current, m) && a != b
    requires ReconciledAt(drivers, current, valid, m, p, tracked, a) && ReconciledAt(drivers, current, valid, m, p, tracked, b)
    ensures CollideIn(p, a, b) <==>
              || StartedOnto(drivers, current, valid, a, b) || StartedOnto(drivers, current, valid, b, a)
              || (CollideIn(m, a, b) && Stays(drivers, current, valid, a) && Stays(drivers, current, valid, b))
  {
    RunsAfter(drivers, current, valid, m, p, tracked, a);
    RunsAfter(drivers, current, valid, m, p, tracked, b);
    if a in ById(drivers, true) && b in ById(drivers, true) {
      if Starts(ChangeOf(drivers, Lookup(current, a), valid, a)) {
        StartedCollidesNot(drivers, current, valid, a, b);
      }
      if Starts(ChangeOf(drivers, Lookup(current, b), valid, b)) {
        StartedCollidesNot(drivers, current, valid, b, a);
      }
    }
  }

  /** No two running instances claim one slave. */
  ghost predicate Separate(m: Image) {
    forall a, b | a in m.tasks && b in m.tasks && a != b :: !Collide(m.tasks[a], m.tasks[b])
  }

  /** A reload keeps a bus free of collisions if and only if it starts no instance onto a slave that a refused one keeps. */
  lemma SeparateIff(drivers: seq<Entry>, current: map<InstanceId, Entry>, valid: Entry -> bool, m: Image, p: Image,
                    tracked: map<InstanceId, Entry>)
    requires DistinctIds(drivers) && Agreement(current, m) && Separate(m)
    requires forall id :: ReconciledAt(drivers, current, valid, m, p, tracked, id)
    ensures Separate(p) <==> forall a, b | a != b :: !StartedOnto(drivers, current, valid, a, b)
  {
    forall a, b | a != b
      ensures CollideIn(p, a, b) <==> StartedOnto(drivers, current, valid, a, b) || StartedOnto(drivers, current, valid, b, a)
    {
      assert ReconciledAt(drivers, current, valid, m, p, tracked, a) && ReconciledAt(drivers, current, valid, m, p, tracked, b);
      CollisionIff(drivers, current, valid, m, p, tracked, a, b);
    }
    if Separate(p) {
      forall a, b | a != b
        ensures !StartedOnto(drivers, current, valid, a, b)
      {
        assert !CollideIn(p, a, b);
      }
    } else {
      var a, b :| a in p.tasks && b in p.tasks && a != b && Collide(p.tasks[a], p.tasks[b]);
      assert CollideIn(p, a, b);
    }
  }

  /**
   And it does happen: an instance on unit 1 is told to move to unit 2, which another entry claims too, so it stays
   on unit 1; a third entry, colliding with nothing in the new list, is started on unit 1 next to it.
   */
  lemma RefusalCanCollide(a: InstanceId, b: InstanceId, c: InstanceId, port: string, valid: Entry -> bool)
    requires a != b && b != c && a != c && forall e :: valid(e)
    ensures
      var was, next := Entry(a, true, true, Some(port), Some(1), 0), Entry(c, true, true, Some(port), Some(1), 0);
      var drivers := [was.(unitId := Some(2)), Entry(b, true, true, Some(port), Some(2), 0), next];
      && DistinctIds(drivers) && Collide(was, next)
      && Reconciled(ChangeOf(drivers, Some(was), valid, a), Instance(Some(was), Some(Running), [])).task == Some(was)
      && Reconciled(ChangeOf(drivers, None, valid, c), Instance(None, None, [])).task == Some(next)
  {
    var was, next := Entry(a, true, true, Some(port), Some(1), 0), Entry(c, true, true, Some(port), Some(1), 0);
    var drivers := [was.(unitId := Some(2)), Entry(b, true, true, Some(port), Some(2), 0), next];
    ConflictIff(drivers, a);
    ConflictIff(drivers, c);
    assert Collide(drivers[0], drivers[1]) && drivers[0].id == a;
    ListedAs(drivers, true, 0);
    ListedAs(drivers, true, 2);
    NoneDisabled(drivers);
  }

  lemma {:induction false} NoneDisabled(drivers: seq<Entry>)
    requires forall i | 0 <= i < |drivers| :: drivers[i].enabled
    ensures ById(drivers, false) == map[]
  {
    if drivers != [] {
      NoneDisabled(drivers[..|drivers| - 1]);
    }
  }
}
