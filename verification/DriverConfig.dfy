/** Driver entries of the configuration, and slave-id collisions between serial instances. */
module DriverConfig {
  import opened Basics

  datatype InstanceId = InstanceId(name: string)

  /**
   One entry of the `drivers` list. `sharesPort` tells a serial type; port and unit may be missing; `rest` stands
   for everything else, so that two entries are equal exactly when nothing in them differs.
   */
  datatype Entry = Entry(id: InstanceId, enabled: bool, sharesPort: bool, port: Option<string>, unitId: Option<int>, rest: int)

  datatype Slave = Slave(port: string, unitId: int)

  /** The bus address an entry claims, if it is specific enough to compare. */
  function Claim(e: Entry): Option<Slave> {
    if e.sharesPort && e.enabled && e.port.Some? && e.unitId.Some? then Some(Slave(e.port.value, e.unitId.value)) else None
  }

  /** The instances claiming a slave, in list order. */
  function Claimants(drivers: seq<Entry>, s: Slave): seq<InstanceId> {
    if drivers == [] then []
    else
      var last := drivers[|drivers| - 1];
      Claimants(drivers[..|drivers| - 1], s) + if Claim(last) == Some(s) then [last.id] else []
  }

  /** Groups the claimants of every slave; what is kept are the slaves claimed more than once. */
  method FindDuplicateSerialSlaveIds(drivers: seq<Entry>) returns (r: map<Slave, seq<InstanceId>>)
    ensures forall s :: s in r <==> |Claimants(drivers, s)| > 1
    ensures forall s | s in r :: r[s] == Claimants(drivers, s)
  {
    var bySlave: map<Slave, seq<InstanceId>> := map[];
    for i := 0 to |drivers|
      invariant forall s :: s in bySlave <==> Claimants(drivers[..i], s) != []
      invariant forall s | s in bySlave :: bySlave[s] == Claimants(drivers[..i], s)
    {
      assert drivers[..i + 1][..i] == drivers[..i];
      var claim := Claim(drivers[i]);
      if claim.Some? {
        var s := claim.value;
        bySlave := bySlave[s := (if s in bySlave then bySlave[s] else []) + [drivers[i].id]];
      }
    }
    assert drivers[..|drivers|] == drivers;
    r := map s | s in bySlave && |bySlave[s]| > 1 :: bySlave[s];
  }

  ghost predicate Conflicting(drivers: seq<Entry>, id: InstanceId) {
    exists s :: |Claimants(drivers, s)| > 1 && id in Claimants(drivers, s)
  }

  method ConflictingSerialInstanceIds(drivers: seq<Entry>) returns (ids: set<InstanceId>)
    ensures forall id :: id in ids <==> Conflicting(drivers, id)
  {
    var duplicates := FindDuplicateSerialSlaveIds(drivers);
    ids := set s, id | s in duplicates && id in duplicates[s] :: id;
  }

  /** Two enabled entries of serial types name the same port and the same unit. */
  predicate Collide(a: Entry, b: Entry) {
    && a.enabled && b.enabled && a.sharesPort && b.sharesPort
    && a.port.Some? && a.port == b.port && a.unitId.Some? && a.unitId == b.unitId
  }

  lemma CollideIff(a: Entry, b: Entry)
    ensures Collide(a, b) <==> Claim(a).Some? && Claim(a) == Claim(b)
  {
  }

  lemma {:induction false} ClaimantIndex(drivers: seq<Entry>, s: Slave, id: InstanceId)
    ensures id in Claimants(drivers, s) <==> exists i | 0 <= i < |drivers| :: drivers[i].id == id && Claim(drivers[i]) == Some(s)
  {
    if drivers != [] {
      var front, last := drivers[..|drivers| - 1], drivers[|drivers| - 1];
      assert drivers == front + [last];
      ClaimantIndex(front, s, id);
      if i :| 0 <= i < |front| && front[i].id == id && Claim(front[i]) == Some(s) {
        assert drivers[i] == front[i];
      }
    }
  }

  /** A second claimant is a second entry. */
  lemma {:induction false} TwoClaimants(drivers: seq<Entry>, s: Slave, i: nat)
    requires i < |drivers| && Claim(drivers[i]) == Some(s)
    ensures |Claimants(drivers, s)| >= 1
    ensures |Claimants(drivers, s)| > 1 <==> exists j | 0 <= j < |drivers| && j != i :: Claim(drivers[j]) == Some(s)
  {
    var n := |drivers| - 1;
    var front, last := drivers[..n], drivers[n];
    assert drivers == front + [last];
    if i < n {
      TwoClaimants(front, s, i);
      assert front[i] == drivers[i];
      if j :| 0 <= j < |front| && j != i && Claim(front[j]) == Some(s) {
        assert drivers[j] == front[j];
      }
      if j :| 0 <= j < |drivers| && j != i && Claim(drivers[j]) == Some(s) {
        assert j == n || front[j] == drivers[j];
      }
    } else {
      SomeClaimant(front, s);
      if j :| 0 <= j < |front| && Claim(front[j]) == Some(s) {
        assert drivers[j] == front[j];
      }
      if j :| 0 <= j < |drivers| && j != i && Claim(drivers[j]) == Some(s) {
        assert front[j] == drivers[j];
      }
    }
  }

  lemma {:induction false} SomeClaimant(drivers: seq<Entry>, s: Slave)
    ensures Claimants(drivers, s) != [] <==> exists j | 0 <= j < |drivers| :: Claim(drivers[j]) == Some(s)
  {
    if drivers != [] {
      var front, last := drivers[..|drivers| - 1], drivers[|drivers| - 1];
      assert drivers == front + [last];
      SomeClaimant(front, s);
      if j :| 0 <= j < |front| && Claim(front[j]) == Some(s) {
        assert drivers[j] == front[j];
      }
    }
  }

  /** An instance conflicts exactly when one of its entries collides with another entry of the list. */
  lemma ConflictIff(drivers: seq<Entry>, id: InstanceId)
    ensures Conflicting(drivers, id) <==>
              exists i, j | 0 <= i < |drivers| && 0 <= j < |drivers| && i != j :: drivers[i].id == id && Collide(drivers[i], drivers[j])
  {
    if Conflicting(drivers, id) {
      var s :| |Claimants(drivers, s)| > 1 && id in Claimants(drivers, s);
      ClaimantIndex(drivers, s, id);
      var i :| 0 <= i < |drivers| && drivers[i].id == id && Claim(drivers[i]) == Some(s);
      TwoClaimants(drivers, s, i);
      var j :| 0 <= j < |drivers| && j != i && Claim(drivers[j]) == Some(s);
      CollideIff(drivers[i], drivers[j]);
    }
    if i, j :| 0 <= i < |drivers| && 0 <= j < |drivers| && i != j && drivers[i].id == id && Collide(drivers[i], drivers[j]) {
      CollideIff(drivers[i], drivers[j]);
      var s := Claim(drivers[i]).value;
      ClaimantIndex(drivers, s, id);
      TwoClaimants(drivers, s, i);
      assert |Claimants(drivers, s)| > 1;
    }
  }
}
