/**
 Hot reload: reconciling the running driver instances with a new `drivers` list. The method works on the
 supervisor in place; its effect on each instance is a function of that instance alone, and the promises are
 proved about that function.
 */
module HotReload {
  import opened Basics
  import opened DriverConfig

  datatype DriverState = Starting | Running | Backoff | Failed | Stopped | Disabled

  datatype Call = StartCall(entry: Entry) | StopCall | DisableCall

  /** What the supervisor knows of one instance: the entry its task runs, its status, and the calls made for it. */
  datatype Instance = Instance(task: Option<Entry>, status: Option<DriverState>, calls: seq<Call>)

  function Halted(v: Instance, state: DriverState): Instance {
    v.(task := None, status := if v.status.Some? then Some(state) else None)
  }

  function StopEffect(v: Instance): Instance {
    (if v.task.None? then v else Halted(v, Stopped)).(calls := v.calls + [StopCall])
  }

  /** Unlike a stop, disabling marks the status even when nothing was running. */
  function DisableEffect(v: Instance): Instance {
    Halted(v, Disabled).(calls := v.calls + [DisableCall])
  }

  function StartEffect(v: Instance, e: Entry): Instance {
    Instance(Some(e), Some(Starting), v.calls + [StartCall(e)])
  }

  function Lookup(m: map<InstanceId, Entry>, id: InstanceId): Option<Entry> {
    if id in m then Some(m[id]) else None
  }

  /** The `drivers` list as a dictionary of its enabled, or its disabled, entries; a later entry replaces an earlier one. */
  function ById(drivers: seq<Entry>, enabled: bool): map<InstanceId, Entry> {
    if drivers == [] then map[]
    else
      var last, m := drivers[|drivers| - 1], ById(drivers[..|drivers| - 1], enabled);
      if last.enabled == enabled then m[last.id := last] else m
  }

  // ---------- the effect on one instance ----------

  /** What is known of an instance when reconciliation reaches it. */
  datatype Change = Change(current: Option<Entry>, enabled: Option<Entry>, disabled: Option<Entry>, refused: bool)

  function Removed(c: Change, v: Instance): Instance {
    if c.current.Some? && c.enabled.None? && c.disabled.None? then StopEffect(v) else v
  }

  function Switched(c: Change, v: Instance): Instance {
    if c.disabled.Some? && c.current != c.disabled then DisableEffect(v) else v
  }

  predicate Starts(c: Change) {
    c.enabled.Some? && c.current != c.enabled && !c.refused
  }

  function Cleared(c: Change, v: Instance): Instance {
    if c.current.Some? then StopEffect(v) else v
  }

  function Restarted(c: Change, v: Instance): Instance {
    if Starts(c) then StartEffect(Cleared(c, v), c.enabled.value) else v
  }

  /** Starting an instance that still has a task raises. */
  predicate Raises(c: Change, v: Instance) {
    Starts(c) && Cleared(c, Switched(c, Removed(c, v))).task.Some?
  }

  function Reconciled(c: Change, v: Instance): Instance {
    Restarted(c, Switched(c, Removed(c, v)))
  }

  function Tracked(c: Change): Option<Entry> {
    if c.enabled.Some? && c.current != c.enabled && c.refused then c.current
    else if c.disabled.Some? then c.disabled
    else c.enabled
  }

  /** The tracking map and the supervisor agree: a task runs the tracked entry exactly when that is enabled. */
  predicate Agrees(tracked: Option<Entry>, v: Instance) {
    v.task == if tracked.Some? && tracked.value.enabled then tracked else None
  }

  predicate WellFormed(c: Change) {
    (c.enabled.Some? ==> c.enabled.value.enabled) && (c.disabled.Some? ==> !c.disabled.value.enabled)
  }

  /** An id listed both enabled and disabled. */
  predicate ListedTwice(c: Change) {
    c.enabled.Some? && c.disabled.Some?
  }

  lemma AgreementKept(c: Change, v: Instance)
    requires WellFormed(c) && Agrees(c.current, v) && !ListedTwice(c)
    ensures Agrees(Tracked(c), Reconciled(c, v)) && !Raises(c, v)
  {
  }

  /** With an id listed twice, exactly these two cases still agree, and starting still never raises. */
  lemma AgreementIff(c: Change, v: Instance)
    requires WellFormed(c) && Agrees(c.current, v) && ListedTwice(c)
    ensures Agrees(Tracked(c), Reconciled(c, v)) <==>
              c.current == c.enabled || (c.refused && !(c.current.Some? && c.current.value.enabled))
    ensures !Raises(c, v)
  {
  }

  /** An unchanged instance is never stopped, disabled or started. */
  lemma UnchangedUndisturbed(c: Change, v: Instance)
    requires WellFormed(c) && !ListedTwice(c) && c.current.Some? && (c.enabled == c.current || c.disabled == c.current)
    ensures Reconciled(c, v) == v && Tracked(c) == c.current
  {
  }

  /** Applying the same list again, from what the first time tracked, does nothing. */
  lemma SecondTimeNothing(c: Change, v: Instance)
    requires WellFormed(c) && !ListedTwice(c)
    ensures var again := c.(current := Tracked(c)); Reconciled(again, v) == v && Tracked(again) == Tracked(c)
  {
  }

  // ---------- the supervisor ----------

  /** The supervisor's dictionaries, and the calls made so far for each instance. */
  datatype Image = Image(tasks: map<InstanceId, Entry>, status: map<InstanceId, DriverState>, calls: map<InstanceId, seq<Call>>)

  function View(m: Image, id: InstanceId): Instance {
    Instance(if id in m.tasks then Some(m.tasks[id]) else None, if id in m.status then Some(m.status[id]) else None,
             if id in m.calls then m.calls[id] else [])
  }

  /** From `m` to `n`, instance `id` became `v` and no other changed. */
  ghost predicate Only(m: Image, n: Image, id: InstanceId, v: Instance) {
    View(n, id) == v && forall j | j != id :: View(n, j) == View(m, j)
  }

  class Supervisor {
    var tasks: map<InstanceId, Entry>
    var status: map<InstanceId, DriverState>
    ghost var calls: map<InstanceId, seq<Call>>

    ghost function Now(): Image
      reads this
    {
      Image(tasks, status, calls)
    }

    constructor ()
      ensures Now() == Image(map[], map[], map[])
    {
      tasks, status, calls := map[], map[], map[];
    }

    ghost method Note(id: InstanceId, c: Call)
      modifies this`calls
      ensures Only(old(Now()), Now(), id, View(old(Now()), id).(calls := View(old(Now()), id).calls + [c]))
    {
      calls := calls[id := (if id in calls then calls[id] else []) + [c]];
    }

    /** Refused when the instance already has a task. */
    method Start(e: Entry) returns (started: bool)
      modifies this
      ensures started <==> View(old(Now()), e.id).task.None?
      ensures if started then Only(old(Now()), Now(), e.id, StartEffect(View(old(Now()), e.id), e)) else Now() == old(Now())
    {
      if e.id in tasks {
        return false;
      }
      Note(e.id, StartCall(e));
      status := status[e.id := Starting];
      tasks := tasks[e.id := e];
      return true;
    }

    method Halt(id: InstanceId)
      modifies this`tasks, this`status
      ensures
        var was := View(old(Now()), id);
        Only(old(Now()), Now(), id, if was.task.None? then was else Halted(was, Stopped))
    {
      if id !in tasks {
        return;
      }
      tasks := tasks - {id};
      if id in status {
        status := status[id := Stopped];
      }
    }

    method Stop(id: InstanceId)
      modifies this
      ensures Only(old(Now()), Now(), id, StopEffect(View(old(Now()), id)))
    {
      Note(id, StopCall);
      Halt(id);
    }

    method Disable(id: InstanceId)
      modifies this
      ensures Only(old(Now()), Now(), id, DisableEffect(View(old(Now()), id)))
    {
      Note(id, DisableCall);
      Halt(id);
      if id in status {
        status := status[id := DriverState.Disabled];
      }
    }
  }
}
