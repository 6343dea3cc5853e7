/** `apply_driver_changes` and what it promises over any sequence of configurations. */
module Reconcile {
  import opened Basics
  import opened DriverConfig
  import opened HotReload

  /** Everything reconciliation looks at for one instance. */
  ghost function ChangeOf(drivers: seq<Entry>, current: Option<Entry>, valid: Entry -> bool, id: InstanceId): Change {
    var enabled := Lookup(ById(drivers, true), id);
    Change(current, enabled, Lookup(ById(drivers, false), id),
           Conflicting(drivers, id) || (enabled.Some? && !valid(enabled.value)))
  }

  method Index(drivers: seq<Entry>, enabled: bool) returns (m: map<InstanceId, Entry>)
    ensures m == ById(drivers, enabled)
  {
    m := map[];
    for i := 0 to |drivers|
      invariant m == ById(drivers[..i], enabled)
    {
      assert drivers[..i + 1][..i] == drivers[..i];
      if drivers[i].enabled == enabled {
        m := m[drivers[i].id := drivers[i]];
      }
    }
    assert drivers[..|drivers|] == drivers;
  }

  /** The keys of a dictionary, each once, in some order. */
  method Enumerate(keys: set<InstanceId>) returns (order: seq<InstanceId>)
    ensures forall id :: id in order <==> id in keys
    ensures forall i, j | 0 <= i < j < |order| :: order[i] != order[j]
  {
    order := [];
    var rest := keys;
    while rest != {}
      invariant rest <= keys
      invariant forall id :: id in order <==> id in keys && id !in rest
      invariant forall i, j | 0 <= i < j < |order| :: order[i] != order[j]
      decreases |rest|
    {
      var id :| id in rest;
      order, rest := order + [id], rest - {id};
    }
  }

  /** The ids in `done` have been dealt with as `f` says; every other instance is as it was. */
  ghost predicate Dealt(m: Image, n: Image, done: set<InstanceId>, f: (InstanceId, Instance) -> Instance) {
    forall id :: View(n, id) == if id in done then f(id, View(m, id)) else View(m, id)
  }

  function Members(ids: seq<InstanceId>): set<InstanceId> {
    set id | id in ids
  }

  lemma MembersNext(order: seq<InstanceId>, i: nat)
    requires i < |order| && forall i, j | 0 <= i < j < |order| :: order[i] != order[j]
    ensures Members(order[..i + 1]) == Members(order[..i]) + {order[i]} && order[i] !in Members(order[..i]) && order[i] in order
  {
    assert order[..i + 1] == order[..i] + [order[i]];
  }

  lemma DealtStep(m: Image, n: Image, next: Image, done: set<InstanceId>, f: (InstanceId, Instance) -> Instance, id: InstanceId)
    requires id !in done && Dealt(m, n, done, f) && Only(n, next, id, f(id, View(n, id)))
    ensures Dealt(m, next, done + {id}, f)
  {
  }

  lemma DealtSkip(m: Image, n: Image, done: set<InstanceId>, f: (InstanceId, Instance) -> Instance, id: InstanceId)
    requires id !in done && Dealt(m, n, done, f) && f(id, View(n, id)) == View(n, id)
    ensures Dealt(m, n, done + {id}, f)
  {
  }

  // ---------- the three passes ----------

  function RemovedBy(present: set<InstanceId>): (InstanceId, Instance) -> Instance {
    (id: InstanceId, v: Instance) => if id in present then v else StopEffect(v)
  }

  /** Instances no longer listed at all are stopped. */
  method StopRemoved(sup: Supervisor, current: map<InstanceId, Entry>, present: set<InstanceId>)
    modifies sup
    ensures Dealt(old(sup.Now()), sup.Now(), current.Keys, RemovedBy(present))
  {
    var order := Enumerate(current.Keys);
    for i := 0 to |order|
      invariant Dealt(old(sup.Now()), sup.Now(), Members(order[..i]), RemovedBy(present))
    {
      var id, done := order[i], Members(order[..i]);
      MembersNext(order, i);
      if id in present {
        DealtSkip(old(sup.Now()), sup.Now(), done, RemovedBy(present), id);
      } else {
        ghost var before := sup.Now();
        sup.Stop(id);
        DealtStep(old(sup.Now()), before, sup.Now(), done, RemovedBy(present), id);
      }
    }
    assert order[..|order|] == order && Members(order) == current.Keys;
  }

  function SwitchedBy(current: map<InstanceId, Entry>, disabled: map<InstanceId, Entry>): (InstanceId, Instance) -> Instance {
    (id: InstanceId, v: Instance) => if Lookup(current, id) == Lookup(disabled, id) then v else DisableEffect(v)
  }

  /** Instances listed disabled are disabled, unless they are tracked with this very entry. */
  method DisableListed(sup: Supervisor, current: map<InstanceId, Entry>, disabled: map<InstanceId, Entry>)
    modifies sup
    ensures Dealt(old(sup.Now()), sup.Now(), disabled.Keys, SwitchedBy(current, disabled))
  {
    var order := Enumerate(disabled.Keys);
    for i := 0 to |order|
      invariant Dealt(old(sup.Now()), sup.Now(), Members(order[..i]), SwitchedBy(current, disabled))
    {
      var id, done := order[i], Members(order[..i]);
      MembersNext(order, i);
      if Lookup(current, id) == Some(disabled[id]) {
        DealtSkip(old(sup.Now()), sup.Now(), done, SwitchedBy(current, disabled), id);
      } else {
        ghost var before := sup.Now();
        sup.Disable(id);
        DealtStep(old(sup.Now()), before, sup.Now(), done, SwitchedBy(current, disabled), id);
      }
    }
    assert order[..|order|] == order && Members(order) == disabled.Keys;
  }

  function ClearedView(current: map<InstanceId, Entry>, id: InstanceId, v: Instance): Instance {
    if id in current then StopEffect(v) else v
  }

  function StartedBy(current: map<InstanceId, Entry>, enabled: map<InstanceId, Entry>, refused: set<InstanceId>)
    : (InstanceId, Instance) -> Instance
  {
    (id: InstanceId, v: Instance) =>
      if id !in enabled || id in refused || Lookup(current, id) == Some(enabled[id]) then v
      else StartEffect(ClearedView(current, id, v), enabled[id])
  }

  /** An instance the last pass has to start although it still has a task. */
  predicate Stuck(m: Image, current: map<InstanceId, Entry>, enabled: map<InstanceId, Entry>, refused: set<InstanceId>, id: InstanceId) {
    && id in enabled && id !in refused && Lookup(current, id) != Some(enabled[id])
    && ClearedView(current, id, View(m, id)).task.Some?
  }

  method Restart(sup: Supervisor, current: map<InstanceId, Entry>, e: Entry) returns (started: bool)
    modifies sup
    ensures
      var cleared := ClearedView(current, e.id, View(old(sup.Now()), e.id));
      (started <==> cleared.task.None?) && (started ==> Only(old(sup.Now()), sup.Now(), e.id, StartEffect(cleared, e)))
  {
    if e.id in current {
      sup.Stop(e.id);
    }
    started := sup.Start(e);
  }

  /** What is tracked once the last pass is through: a refused change keeps the entry tracked before. */
  function Kept(current: map<InstanceId, Entry>, enabled: map<InstanceId, Entry>, refused: set<InstanceId>,
                listed: Option<Entry>, id: InstanceId): Option<Entry> {
    if id in enabled && id in refused && Lookup(current, id) != Some(enabled[id]) then Lookup(current, id) else listed
  }

  ghost predicate TrackedSoFar(current: map<InstanceId, Entry>, enabled: map<InstanceId, Entry>, refused: set<InstanceId>,
                               done: set<InstanceId>, listed: map<InstanceId, Entry>, tracked: map<InstanceId, Entry>) {
    forall id :: Lookup(tracked, id) ==
                 if id in done then Kept(current, enabled, refused, Lookup(listed, id), id) else Lookup(listed, id)
  }

  function Retracked(current: map<InstanceId, Entry>, tracked: map<InstanceId, Entry>, id: InstanceId): map<InstanceId, Entry> {
    if id in current then tracked[id := current[id]] else tracked - {id}
  }

  lemma RetrackedStep(current: map<InstanceId, Entry>, enabled: map<InstanceId, Entry>, refused: set<InstanceId>,
                      done: set<InstanceId>, listed: map<InstanceId, Entry>, tracked: map<InstanceId, Entry>, id: InstanceId)
    requires id !in done && id in enabled && TrackedSoFar(current, enabled, refused, done, listed, tracked)
    ensures
      var next := if id in refused && Lookup(current, id) != Some(enabled[id]) then Retracked(current, tracked, id) else tracked;
      TrackedSoFar(current, enabled, refused, done + {id}, listed, next)
  {
    assert forall j :: Lookup(Retracked(current, tracked, id), j) == if j == id then Lookup(current, id) else Lookup(tracked, j);
  }

  /** One instance of the last pass. */
  method StartOne(sup: Supervisor, current: map<InstanceId, Entry>, enabled: map<InstanceId, Entry>, refused: set<InstanceId>,
                  tracked0: map<InstanceId, Entry>, id: InstanceId)
    returns (ok: bool, tracked: map<InstanceId, Entry>)
    requires id in enabled && enabled[id].id == id
    modifies sup
    ensures ok <==> !Stuck(old(sup.Now()), current, enabled, refused, id)
    ensures ok ==> Only(old(sup.Now()), sup.Now(), id, StartedBy(current, enabled, refused)(id, View(old(sup.Now()), id)))
    ensures tracked == if id in refused && Lookup(current, id) != Some(enabled[id]) then Retracked(current, tracked0, id) else tracked0
  {
    ok, tracked := true, tracked0;
    if Lookup(current, id) == Some(enabled[id]) {
    } else if id in refused {
      tracked := Retracked(current, tracked, id);
    } else {
      ok := Restart(sup, current, enabled[id]);
    }
  }

  /** Instances listed enabled are restarted unless unchanged or refused; a start that is refused ends the pass. */
  method StartListed(sup: Supervisor, current: map<InstanceId, Entry>, enabled: map<InstanceId, Entry>,
                     refused: set<InstanceId>, listed: map<InstanceId, Entry>)
    returns (ok: bool, tracked: map<InstanceId, Entry>)
    requires forall id | id in enabled :: enabled[id].id == id
    modifies sup
    ensures ok <==> forall id :: !Stuck(old(sup.Now()), current, enabled, refused, id)
    ensures ok ==> Dealt(old(sup.Now()), sup.Now(), enabled.Keys, StartedBy(current, enabled, refused))
    ensures ok ==> forall id :: Lookup(tracked, id) == Kept(current, enabled, refused, Lookup(listed, id), id)
  {
    tracked, ok := listed, true;
    var order := Enumerate(enabled.Keys);
    for i := 0 to |order|
      invariant ok
      invariant forall id | id in order[..i] :: !Stuck(old(sup.Now()), current, enabled, refused, id)
      invariant Dealt(old(sup.Now()), sup.Now(), Members(order[..i]), StartedBy(current, enabled, refused))
      invariant TrackedSoFar(current, enabled, refused, Members(order[..i]), listed, tracked)
    {
      var id, done := order[i], Members(order[..i]);
      MembersNext(order, i);
      ghost var before := sup.Now();
      RetrackedStep(current, enabled, refused, done, listed, tracked, id);
      ok, tracked := StartOne(sup, current, enabled, refused, tracked, id);
      assert Stuck(before, current, enabled, refused, id) == Stuck(old(sup.Now()), current, enabled, refused, id);
      if !ok {
        return;
      }
      DealtStep(old(sup.Now()), before, sup.Now(), done, StartedBy(current, enabled, refused), id);
    }
    assert order[..|order|] == order && Members(order) == enabled.Keys;
  }

  // ---------- the whole reconciliation ----------

  lemma {:induction false} ByIdEntries(drivers: seq<Entry>, enabled: bool, id: InstanceId)
    requires id in ById(drivers, enabled)
    ensures var e := ById(drivers, enabled)[id]; e.id == id && e.enabled == enabled && e in drivers
  {
    var front, last := drivers[..|drivers| - 1], drivers[|drivers| - 1];
    assert drivers == front + [last];
    if !(last.enabled == enabled && last.id == id) {
      ByIdEntries(front, enabled, id);
    }
  }

  ghost function Refused(drivers: seq<Entry>, valid: Entry -> bool): set<InstanceId> {
    var enabled := ById(drivers, true);
    set id | id in enabled && (Conflicting(drivers, id) || !valid(enabled[id]))
  }

  lemma FirstPass(drivers: seq<Entry>, current: map<InstanceId, Entry>, valid: Entry -> bool, m: Image, n: Image, id: InstanceId)
    requires Dealt(m, n, current.Keys, RemovedBy(ById(drivers, true).Keys + ById(drivers, false).Keys))
    ensures View(n, id) == Removed(ChangeOf(drivers, Lookup(current, id), valid, id), View(m, id))
  {
  }

  lemma SecondPass(drivers: seq<Entry>, current: map<InstanceId, Entry>, valid: Entry -> bool, n: Image, o: Image, id: InstanceId)
    requires Dealt(n, o, ById(drivers, false).Keys, SwitchedBy(current, ById(drivers, false)))
    ensures View(o, id) == Switched(ChangeOf(drivers, Lookup(current, id), valid, id), View(n, id))
  {
  }

  lemma Passes(drivers: seq<Entry>, current: map<InstanceId, Entry>, valid: Entry -> bool, m: Image, n: Image, o: Image, id: InstanceId)
    requires Dealt(m, n, current.Keys, RemovedBy(ById(drivers, true).Keys + ById(drivers, false).Keys))
    requires Dealt(n, o, ById(drivers, false).Keys, SwitchedBy(current, ById(drivers, false)))
    ensures
      var c := ChangeOf(drivers, Lookup(current, id), valid, id);
      && View(o, id) == Switched(c, Removed(c, View(m, id)))
      && (Stuck(o, current, ById(drivers, true), Refused(drivers, valid), id) <==> Raises(c, View(m, id)))
  {
    FirstPass(drivers, current, valid, m, n, id);
    SecondPass(drivers, current, valid, n, o, id);
  }

  lemma LastPass(drivers: seq<Entry>, current: map<InstanceId, Entry>, valid: Entry -> bool, v: Instance, id: InstanceId)
    ensures
      var enabled, disabled, refused := ById(drivers, true), ById(drivers, false), Refused(drivers, valid);
      var c := ChangeOf(drivers, Lookup(current, id), valid, id);
      && (if id in enabled then StartedBy(current, enabled, refused)(id, v) else v) == Restarted(c, v)
      && Kept(current, enabled, refused, Lookup(enabled + disabled, id), id) == Tracked(c)
  {
  }

  /** Instance `id` went from its state in `m` to its state in `p` as reconciliation prescribes, and so did its tracking. */
  ghost predicate ReconciledAt(drivers: seq<Entry>, current: map<InstanceId, Entry>, valid: Entry -> bool, m: Image, p: Image,
                               tracked: map<InstanceId, Entry>, id: InstanceId) {
    var c := ChangeOf(drivers, Lookup(current, id), valid, id);
    View(p, id) == Reconciled(c, View(m, id)) && Lookup(tracked, id) == Tracked(c)
  }

  ghost predicate RaisesAt(drivers: seq<Entry>, current: map<InstanceId, Entry>, valid: Entry -> bool, m: Image, id: InstanceId) {
    Raises(ChangeOf(drivers, Lookup(current, id), valid, id), View(m, id))
  }

  lemma AllRaises(drivers: seq<Entry>, current: map<InstanceId, Entry>, valid: Entry -> bool, m: Image, n: Image, o: Image)
    requires Dealt(m, n, current.Keys, RemovedBy(ById(drivers, true).Keys + ById(drivers, false).Keys))
    requires Dealt(n, o, ById(drivers, false).Keys, SwitchedBy(current, ById(drivers, false)))
    ensures forall id :: Stuck(o, current, ById(drivers, true), Refused(drivers, valid), id) <==> RaisesAt(drivers, current, valid, m, id)
  {
    forall id
      ensures Stuck(o, current, ById(drivers, true), Refused(drivers, valid), id) <==> RaisesAt(drivers, current, valid, m, id)
    {
      Passes(drivers, current, valid, m, n, o, id);
    }
  }

  lemma AllReconciled(drivers: seq<Entry>, current: map<InstanceId, Entry>, valid: Entry -> bool, m: Image, n: Image, o: Image,
                      p: Image, tracked: map<InstanceId, Entry>)
    requires Dealt(m, n, current.Keys, RemovedBy(ById(drivers, true).Keys + ById(drivers, false).Keys))
    requires Dealt(n, o, ById(drivers, false).Keys, SwitchedBy(current, ById(drivers, false)))
    requires Dealt(o, p, ById(drivers, true).Keys, StartedBy(current, ById(drivers, true), Refused(drivers, valid)))
    requires forall id :: Lookup(tracked, id) ==
                          Kept(current, ById(drivers, true), Refused(drivers, valid), Lookup(ById(drivers, true) + ById(drivers, false), id), id)
    ensures forall id :: ReconciledAt(drivers, current, valid, m, p, tracked, id)
  {
    forall id
      ensures ReconciledAt(drivers, current, valid, m, p, tracked, id)
    {
      Passes(drivers, current, valid, m, n, o, id);
      LastPass(drivers, current, valid, View(o, id), id);
    }
  }

  lemma ByIdKeys(drivers: seq<Entry>)
    ensures forall id | id in ById(drivers, true) :: ById(drivers, true)[id].id == id
  {
    forall id | id in ById(drivers, true)
      ensures ById(drivers, true)[id].id == id
    {
      ByIdEntries(drivers, true, id);
    }
  }

  /**
   `apply_driver_changes`: what it does to every instance, and what it tracks afterwards; it fails exactly when
   some start meets a running task.
   */
  method ApplyDriverChanges(drivers: seq<Entry>, current: map<InstanceId, Entry>, sup: Supervisor, valid: Entry -> bool)
    returns (ok: bool, tracked: map<InstanceId, Entry>)
    modifies sup
    ensures ok <==> forall id :: !RaisesAt(drivers, current, valid, old(sup.Now()), id)
    ensures ok ==> forall id :: ReconciledAt(drivers, current, valid, old(sup.Now()), sup.Now(), tracked, id)
  {
    ghost var m := sup.Now();
    var enabled := Index(drivers, true);
    var disabled := Index(drivers, false);
    var conflicting := ConflictingSerialInstanceIds(drivers);
    var refused := set id | id in enabled && (id in conflicting || !valid(enabled[id]));
    assert refused == Refused(drivers, valid);
    StopRemoved(sup, current, enabled.Keys + disabled.Keys);
    ghost var n := sup.Now();
    DisableListed(sup, current, disabled);
    ghost var o := sup.Now();
    ByIdKeys(drivers);
    ok, tracked := StartListed(sup, current, enabled, refused, enabled + disabled);
    AllRaises(drivers, current, valid, m, n, o);
    if ok {
      AllReconciled(drivers, current, valid, m, n, o, sup.Now(), tracked);
    }
  }
}
