/** Which tags the asset configuration keeps out of the cold store. */
module AssetFilter {
  import opened StreamStore

  datatype Parameter = Parameter(tagRef: TagId, store: bool)

  datatype Asset = Asset(parameters: seq<Parameter>)

  /** Some parameter of the assets refers to the tag with this store flag. */
  predicate Refers(assets: seq<Asset>, id: TagId, store: bool) {
    exists i | 0 <= i < |assets| :: InAsset(assets[i], id, store)
  }

  predicate InAsset(a: Asset, id: TagId, store: bool) {
    exists j | 0 <= j < |a.parameters| :: a.parameters[j] == Parameter(id, store)
  }

  /** A tag is suppressed when some parameter declines to store it and none asks to. */
  method ComputeSuppressedTagIds(assets: seq<Asset>) returns (suppressed: set<TagId>)
    ensures forall id :: id in suppressed <==> Refers(assets, id, false) && !Refers(assets, id, true)
  {
    var candidates: set<TagId>, wanted: set<TagId> := {}, {};
    for i := 0 to |assets|
      invariant forall id :: id in candidates <==> Refers(assets[..i], id, false)
      invariant forall id :: id in wanted <==> Refers(assets[..i], id, true)
    {
      var declined, asked := Split(assets[i]);
      ReferSnoc(assets, i);
      candidates, wanted := candidates + declined, wanted + asked;
    }
    assert assets[..|assets|] == assets;
    suppressed := candidates - wanted;
  }

  lemma ReferSnoc(assets: seq<Asset>, i: nat)
    requires i < |assets|
    ensures forall id, store :: Refers(assets[..i + 1], id, store) <==> Refers(assets[..i], id, store) || InAsset(assets[i], id, store)
  {
    forall id, store
      ensures Refers(assets[..i + 1], id, store) <==> Refers(assets[..i], id, store) || InAsset(assets[i], id, store)
    {
      if Refers(assets[..i], id, store) {
        var k :| 0 <= k < i && InAsset(assets[..i][k], id, store);
        assert assets[..i + 1][k] == assets[..i][k];
      }
      assert assets[..i + 1][i] == assets[i];
      if Refers(assets[..i + 1], id, store) {
        var k :| 0 <= k < i + 1 && InAsset(assets[..i + 1][k], id, store);
        assert k < i ==> assets[..i][k] == assets[..i + 1][k];
      }
    }
  }

  method Split(a: Asset) returns (declined: set<TagId>, asked: set<TagId>)
    ensures forall id :: id in declined <==> InAsset(a, id, false)
    ensures forall id :: id in asked <==> InAsset(a, id, true)
  {
    declined, asked := {}, {};
    for j := 0 to |a.parameters|
      invariant forall id :: id in declined <==> exists k | 0 <= k < j :: a.parameters[k] == Parameter(id, false)
      invariant forall id :: id in asked <==> exists k | 0 <= k < j :: a.parameters[k] == Parameter(id, true)
    {
      var p := a.parameters[j];
      assert p == Parameter(p.tagRef, p.store);
      if p.store {
        asked := asked + {p.tagRef};
      } else {
        declined := declined + {p.tagRef};
      }
    }
  }
}
