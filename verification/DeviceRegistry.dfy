/** The manager's device registry: rows updated in place, one method per transaction. */
module DeviceRegistry {
  import opened Basics
  import opened FleetProtocol
  import opened Fleet

  datatype RegistryError = TenantConflict | NoSuchDevice | MultipleRows

  datatype DeviceRow = DeviceRow(tenant: Tenant, token: nat, registeredAt: int, delivery: Device)

  /** The history row of a version, as `scalar_one_or_none` finds it: more than one match is an error. */
  method FindRow(history: seq<HistoryRow>, version: int) returns (r: Result<Option<nat>, RegistryError>)
    ensures r.Ok? && r.value.None? ==> forall i | 0 <= i < |history| :: history[i].version != version
    ensures r.Ok? && r.value.Some? ==>
              && r.value.value < |history| && history[r.value.value].version == version
              && forall i | 0 <= i < |history| && i != r.value.value :: history[i].version != version
    ensures r.Err? ==> exists i, j | 0 <= i < j < |history| :: history[i].version == version == history[j].version
  {
    var found: Option<nat> := None;
    for k := 0 to |history|
      invariant found.None? ==> forall i | 0 <= i < k :: history[i].version != version
      invariant found.Some? ==>
        && found.value < k && history[found.value].version == version
        && forall i | 0 <= i < k && i != found.value :: history[i].version != version
    {
      if history[k].version == version {
        if found.Some? {
          return Err(MultipleRows);
        }
        found := Some(k);
      }
    }
    return Ok(found);
  }

  class Registry {
    var devices: map<DeviceId, DeviceRow>

    /** Every device's history holds exactly the versions 1..version, in order. */
    ghost predicate Valid()
      reads this
    {
      forall id | id in devices ::
        Numbered(devices[id].delivery.history) && |devices[id].delivery.history| == devices[id].delivery.version
    }

    constructor ()
      ensures Valid() && devices == map[]
    {
      devices := map[];
    }

    /**
     Another tenant's device cannot be taken over. Afterwards the token opens the device for this tenant, and
     nothing an earlier registration or push established is lost, here or for any other device.
     */
    method Register(tenant: Tenant, id: DeviceId, token: nat, now: int) returns (r: Result<nat, RegistryError>)
      requires Valid()
      modifies this
      ensures Valid()
      ensures r.Err? <==> id in old(devices) && old(devices)[id].tenant != tenant
      ensures r.Err? ==> r.error == TenantConflict && devices == old(devices)
      ensures r.Ok? ==> r.value == token && id in devices && devices[id].token == token && devices[id].tenant == tenant
      ensures r.Ok? && id !in old(devices) ==> devices[id].registeredAt == now && devices[id].delivery == Fresh().device
      ensures forall j | j in old(devices) ::
                && j in devices && devices[j].tenant == old(devices)[j].tenant
                && devices[j].registeredAt == old(devices)[j].registeredAt && devices[j].delivery == old(devices)[j].delivery
                && (j != id ==> devices[j] == old(devices)[j])
      ensures forall j | j in devices :: j in old(devices) || j == id
    {
      if id in devices && devices[id].tenant != tenant {
        return Err(TenantConflict);
      }
      devices := devices[id := if id in devices then devices[id].(token := token) else DeviceRow(tenant, token, now, Fresh().device)];
      return Ok(token);
    }

    /** The report lands on the row of its own version and on no other; the lookup never finds two. */
    method Heartbeat(id: DeviceId, report: Option<Report>)
      requires Valid()
      modifies this
      ensures Valid()
      ensures devices == if id !in old(devices) then old(devices)
                         else old(devices)[id := old(devices)[id].(delivery := RecordHeartbeat(old(devices)[id].delivery, report))]
    {
      if id in devices && report.Some? {
        var d := devices[id].delivery;
        var row := FindRow(d.history, report.value.version);
        assert row.Ok?;
        var history := d.history;
        if row.value.Some? {
          var i := row.value.value;
          history := history[i := history[i].(verdict := Some(report.value.success))];
        }
        assert history == Marked(d.history, report.value);
        devices := devices[id := devices[id].(delivery := d.(lastApply := report, history := history))];
      }
    }

    /** The new version is one past every version in the history. */
    method QueueConfig(tenant: Tenant, id: DeviceId, config: Config) returns (r: Result<nat, RegistryError>)
      requires Valid()
      modifies this
      ensures Valid()
      ensures r.Err? <==> id !in old(devices) || old(devices)[id].tenant != tenant
      ensures r.Err? ==> devices == old(devices) && r.error == NoSuchDevice
      ensures r.Ok? ==>
                && r.value == |old(devices)[id].delivery.history| + 1
                && devices == old(devices)[id := old(devices)[id].(delivery := FleetProtocol.QueueConfig(old(devices)[id].delivery, config))]
    {
      if id !in devices || devices[id].tenant != tenant {
        return Err(NoSuchDevice);
      }
      var d := devices[id].delivery;
      var version := d.version + 1;
      d := d.(pending := Some(config), version := version, history := d.history + [HistoryRow(version, config, None)]);
      devices := devices[id := devices[id].(delivery := d)];
      return Ok(version);
    }

    /** Fetching clears, so asking again before the next push yields nothing. */
    method TakePendingConfig(id: DeviceId) returns (r: Option<Delivery>)
      requires Valid()
      modifies this
      ensures Valid() && (id in devices ==> devices[id].delivery.pending == None)
      ensures id !in old(devices) ==> r == None && devices == old(devices)
      ensures id in old(devices) ==>
                var (after, delivery) := TakePending(old(devices)[id].delivery);
                r == delivery && devices == old(devices)[id := old(devices)[id].(delivery := after)]
    {
      if id !in devices || devices[id].delivery.pending.None? {
        return None;
      }
      var d := devices[id].delivery;
      devices := devices[id := devices[id].(delivery := d.(pending := None))];
      return Some(Delivery(d.pending.value, d.version));
    }
  }
}
