/** The whole fleet: many devices, each with its own link to the manager, and operators of many tenants. */
module Fleet {
  import opened Basics
  import opened FleetProtocol

  type DeviceId = string
  type Tenant = string

  datatype Member = Member(tenant: Tenant, link: Link)

  datatype FleetAction =
    | Register(id: DeviceId, tenant: Tenant)
    | Push(id: DeviceId, tenant: Tenant, config: Config)
    | Device(id: DeviceId, action: Action)

  ghost predicate FleetEnabled(f: map<DeviceId, Member>, a: FleetAction) {
    a.Device? ==> a.id in f && !a.action.Queue? && Enabled(f[a.id].link, a.action)
  }

  /** Registering again changes no delivery state; another tenant's device can be neither claimed nor pushed to. */
  function FleetStep(f: map<DeviceId, Member>, valid: Config -> bool, a: FleetAction): map<DeviceId, Member>
    requires a.Device? ==> a.id in f && Enabled(f[a.id].link, a.action)
  {
    match a
    case Register(id, tenant) => if id in f then f else f[id := Member(tenant, Fresh())]
    case Push(id, tenant, config) =>
      if id !in f || f[id].tenant != tenant then f
      else f[id := f[id].(link := Step(f[id].link, valid, Queue(config)))]
    case Device(id, action) => f[id := f[id].(link := Step(f[id].link, valid, action))]
  }

  ghost predicate FleetInv(f: map<DeviceId, Member>, valid: Config -> bool) {
    forall id | id in f :: Inv(f[id].link, valid)
  }

  lemma FleetStepKeeps(f: map<DeviceId, Member>, valid: Config -> bool, a: FleetAction)
    requires FleetInv(f, valid) && FleetEnabled(f, a)
    ensures FleetInv(FleetStep(f, valid, a), valid)
  {
    if a.Device? {
      StepKeeps(f[a.id].link, valid, a.action);
    } else if a.Push? && a.id in f {
      StepKeeps(f[a.id].link, valid, Queue(a.config));
    }
  }

  ghost predicate Possible(f: map<DeviceId, Member>, valid: Config -> bool, actions: seq<FleetAction>)
    decreases |actions|
  {
    actions == [] || (FleetEnabled(f, actions[0]) && Possible(FleetStep(f, valid, actions[0]), valid, actions[1..]))
  }

  ghost function After(f: map<DeviceId, Member>, valid: Config -> bool, actions: seq<FleetAction>): map<DeviceId, Member>
    requires Possible(f, valid, actions)
    decreases |actions|
  {
    if actions == [] then f else After(FleetStep(f, valid, actions[0]), valid, actions[1..])
  }

  lemma {:induction false} RunKeeps(f: map<DeviceId, Member>, valid: Config -> bool, actions: seq<FleetAction>)
    requires FleetInv(f, valid) && Possible(f, valid, actions)
    ensures FleetInv(After(f, valid, actions), valid)
    decreases |actions|
  {
    if actions != [] {
      var g := FleetStep(f, valid, actions[0]);
      FleetStepKeeps(f, valid, actions[0]);
      RunKeeps(g, valid, actions[1..]);
      assert After(f, valid, actions) == After(g, valid, actions[1..]);
    }
  }

  ghost predicate SameTenants(f: map<DeviceId, Member>, g: map<DeviceId, Member>) {
    forall id | id in f :: id in g && g[id].tenant == f[id].tenant
  }

  /** No run moves a device to another tenant, or forgets it. */
  lemma {:induction false} TenantsFixed(f: map<DeviceId, Member>, valid: Config -> bool, actions: seq<FleetAction>)
    requires Possible(f, valid, actions)
    ensures SameTenants(f, After(f, valid, actions))
    decreases |actions|
  {
    if actions != [] {
      var g := FleetStep(f, valid, actions[0]);
      assert SameTenants(f, g);
      TenantsFixed(g, valid, actions[1..]);
      assert After(f, valid, actions) == After(g, valid, actions[1..]);
    }
  }

  /**
   What every run from an empty registry promises, for every device. History versions are exactly 1..version. A
   verdict is only ever the validator's verdict on the row's own config. Versions are handed out in increasing
   order, each at most once, and the newest one is waiting to be exactly until it is; the agent handles versions in
   increasing order, across crashes too, and only ones handed out. No report is dropped while the agent lives: it is
   still pending, or its row carries it.
   */
  lemma DeliveryLaws(valid: Config -> bool, actions: seq<FleetAction>, id: DeviceId)
    requires Possible(map[], valid, actions) && id in After(map[], valid, actions)
    ensures
      var l := After(map[], valid, actions)[id].link;
      var history := l.device.history;
      && |history| == l.device.version
      && (forall i | 0 <= i < |history| :: history[i].version == i + 1)
      && (forall i | 0 <= i < |history| && history[i].verdict.Some? :: history[i].verdict.value == valid(history[i].config))
      && (forall i, j | 0 <= i < j < |l.takes| :: l.takes[i] < l.takes[j])
      && (l.device.pending == if history == [] || |history| in l.takes then None else Some(history[|history| - 1].config))
      && (forall i, j | 0 <= i < j < |l.agent.handled| :: l.agent.handled[i] < l.agent.handled[j])
      && (forall i | 0 <= i < |l.agent.handled| :: l.agent.handled[i] in l.takes)
      && (forall i | 0 <= i < |l.agent.made| ::
            l.agent.report == Some(l.agent.made[i]) || Filed(history, Some(l.agent.made[i])))
      && (l.agent.file.Some? ==> valid(l.agent.file.value))
  {
    RunKeeps(map[], valid, actions);
  }
}
