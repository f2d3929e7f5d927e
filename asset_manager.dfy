/** `Asset` and `AssetManager`: reference-counted assets whose loading and
    unloading are queued by grabs and drops and carried out by a refresh. */
module Assets {
  import opened Wrappers
  import opened IgnoreCase

  /** An asset. `loaded` is what `IsLoaded()` reports; `Load` and `UnLoad`
      set and clear it. */
  class Asset {
    var Name: string
    var RefCount: int
    var Manager: AssetManager?
    var loaded: bool

    constructor ()
      ensures Name == "" && RefCount == 0 && Manager == null && !loaded
    {
      Name := "";
      RefCount := 0;
      Manager := null;
      loaded := false;
    }

    /** `Grab()`: a deferred grab through the owning manager. */
    method Grab()
      requires Manager != null && Manager.Valid()
      modifies Manager, this
      ensures Manager == old(Manager) && Manager.Grabbed(this, false, old(RefCount), old(loaded), old(Manager.ToLoad), old(Manager.ToUnLoad))
      ensures Manager.AssetMap == old(Manager.AssetMap) && Name == old(Name)
    {
      Manager.GrabAsset(this, false);
    }

    /** `Drop()`: a drop through the owning manager. */
    method Drop()
      requires Manager != null && Manager.Valid()
      modifies Manager, this
      ensures Manager == old(Manager) && Manager.Dropped(this, old(RefCount), old(loaded), old(Manager.ToLoad), old(Manager.ToUnLoad))
      ensures Manager.AssetMap == old(Manager.AssetMap) && Name == old(Name)
    {
      Manager.DropAsset(this);
    }

    /** `CompareTo(other)`: by name, ignoring case. */
    function CompareTo(other: Asset): (r: int)
      reads this, other
      ensures r == 0 <==> EqualsIgnoreCase(Name, other.Name)
      ensures r == -Compare(other.Name, Name)
    {
      CompareZeroIffEqual(Name, other.Name);
      CompareAntisymmetric(Name, other.Name);
      Compare(Name, other.Name)
    }
  }

  class AssetManager {
    /** The registered assets, filed under their upper-cased names. */
    var AssetMap: map<string, Asset>
    var ToLoad: set<Asset>
    var ToUnLoad: set<Asset>

    /** No asset waits to be loaded and unloaded at once. */
    ghost predicate Valid()
      reads this
    {
      ToLoad !! ToUnLoad
    }

    constructor ()
      ensures Valid() && AssetMap == map[] && ToLoad == {} && ToUnLoad == {}
    {
      AssetMap := map[];
      ToLoad := {};
      ToUnLoad := {};
    }

    predicate HasAsset(name: string)
      reads this
    {
      FoldString(name) in AssetMap
    }

    /** `GetAsset(name)`: `None` (null) for an unknown name. */
    function GetAsset(name: string): (r: Option<Asset>)
      reads this
      ensures r.Some? <==> HasAsset(name)
      ensures r.Some? ==> r.value in AllAssets()
    {
      if FoldString(name) in AssetMap then Some(AssetMap[FoldString(name)]) else None
    }

    /** The lookup goes by the name ignoring case, as the dictionary's
        `OrdinalIgnoreCase` comparer does. */
    lemma GetAssetIgnoresCase(name: string, other: string)
      requires EqualsIgnoreCase(name, other)
      ensures GetAsset(name) == GetAsset(other)
    {
      FoldStringIsKey(name, other);
    }

    function AllAssets(): set<Asset>
      reads this
    {
      AssetMap.Values
    }

    /** `AddAsset(name, asset)`: fails when the name is taken, ignoring
        case; otherwise registers the asset under it with no references. */
    method AddAsset(name: string, asset: Asset) returns (r: Result<()>)
      requires Valid()
      modifies this, asset
      ensures Valid() && ToLoad == old(ToLoad) && ToUnLoad == old(ToUnLoad)
      ensures old(HasAsset(name)) ==> r == Failure("asset '" + name + "' already exists.") && AssetMap == old(AssetMap) && unchanged(asset)
      ensures !old(HasAsset(name)) ==> r.Success? && AssetMap == old(AssetMap)[FoldString(name) := asset]
      ensures !old(HasAsset(name)) ==> asset.Manager == this && asset.Name == name && asset.RefCount == 0 && asset.loaded == old(asset.loaded)
      ensures !old(HasAsset(name)) ==> GetAsset(name) == Some(asset)
    {
      if HasAsset(name) {
        r := Failure("asset '" + name + "' already exists.");
      } else {
        asset.Manager := this;
        asset.Name := name;
        asset.RefCount := 0;
        AssetMap := AssetMap[FoldString(name) := asset];
        r := Success(());
      }
    }

    /** `RemoveAsset(name)`: an unknown name fails at the dictionary's
        indexer; otherwise the asset is unloaded if it is referenced, then
        unregistered and detached from this manager. Its queue entries
        stay. */
    method RemoveAsset(name: string) returns (r: Result<()>)
      requires Valid()
      modifies this, AssetMap.Values
      ensures Valid() && ToLoad == old(ToLoad) && ToUnLoad == old(ToUnLoad)
      ensures !old(HasAsset(name)) ==> r == Failure("The given key was not present in the dictionary.") && AssetMap == old(AssetMap)
      ensures !old(HasAsset(name)) ==> forall a :: a in old(AssetMap.Values) ==> unchanged(a)
      ensures old(HasAsset(name)) ==>
                var asset := old(AssetMap[FoldString(name)]);
                && r.Success? && AssetMap == old(AssetMap) - {FoldString(name)}
                && asset.RefCount == 0 && asset.Manager == null && asset.Name == old(asset.Name)
                && asset.loaded == (old(asset.loaded) && old(asset.RefCount) <= 0)
                && forall a :: a in old(AssetMap.Values) && a != asset ==> unchanged(a)
      ensures GetAsset(name).None?
    {
      if !HasAsset(name) {
        r := Failure("The given key was not present in the dictionary.");
        return;
      }
      var asset := AssetMap[FoldString(name)];
      if asset.RefCount > 0 {
        asset.loaded := false;
      }
      AssetMap := AssetMap - {FoldString(name)};
      asset.RefCount := 0;
      asset.Manager := null;
      r := Success(());
    }

    /** The new state after `GrabAsset(asset, immediate)` from the given old
        reference count, load state and queues. */
    ghost predicate Grabbed(asset: Asset, immediate: bool, refCount: int, loaded: bool, toLoad: set<Asset>, toUnLoad: set<Asset>)
      reads this, asset
    {
      && asset.RefCount == refCount + 1
      && (if immediate && !loaded then
            asset.loaded && ToLoad == toLoad - {asset} && ToUnLoad == toUnLoad - {asset}
          else
            && asset.loaded == loaded
            && (refCount == 0 && asset in toUnLoad ==> ToUnLoad == toUnLoad - {asset} && ToLoad == toLoad)
            && (refCount == 0 && asset !in toUnLoad ==> ToLoad == toLoad + {asset} && ToUnLoad == toUnLoad)
            && (refCount != 0 ==> ToLoad == toLoad && ToUnLoad == toUnLoad))
    }

    /** The new state after `DropAsset(asset)`. */
    ghost predicate Dropped(asset: Asset, refCount: int, loaded: bool, toLoad: set<Asset>, toUnLoad: set<Asset>)
      reads this, asset
    {
      && asset.RefCount == refCount - 1 && asset.loaded == loaded
      && (refCount == 1 && asset in toLoad ==> ToLoad == toLoad - {asset} && ToUnLoad == toUnLoad)
      && (refCount == 1 && asset !in toLoad ==> ToUnLoad == toUnLoad + {asset} && ToLoad == toLoad)
      && (refCount != 1 ==> ToLoad == toLoad && ToUnLoad == toUnLoad)
    }

    /** `GrabAsset(asset, immediate)`: one more reference. An immediate grab
        of an unloaded asset loads it now; otherwise the first reference
        cancels a pending unload or queues a load. */
    method GrabAsset(asset: Asset, immediate: bool)
      requires Valid()
      modifies this, asset
      ensures Valid() && AssetMap == old(AssetMap)
      ensures Grabbed(asset, immediate, old(asset.RefCount), old(asset.loaded), old(ToLoad), old(ToUnLoad))
      ensures asset.Name == old(asset.Name) && asset.Manager == old(asset.Manager)
    {
      if immediate && !asset.loaded {
        asset.loaded := true;
        if asset in ToLoad {
          ToLoad := ToLoad - {asset};
        }
        if asset in ToUnLoad {
          ToUnLoad := ToUnLoad - {asset};
        }
      } else if asset.RefCount == 0 {
        if asset in ToUnLoad {
          ToUnLoad := ToUnLoad - {asset};
        } else {
          ToLoad := ToLoad + {asset};
        }
      }
      asset.RefCount := asset.RefCount + 1;
    }

    /** `GrabAsset(name, immediate)`: an unknown name fails on the null
        asset. */
    method GrabAssetNamed(name: string, immediate: bool) returns (r: Result<Asset>)
      requires Valid()
      modifies this, AssetMap.Values
      ensures Valid() && AssetMap == old(AssetMap)
      ensures !old(HasAsset(name)) ==> r.Failure? && ToLoad == old(ToLoad) && ToUnLoad == old(ToUnLoad)
      ensures !old(HasAsset(name)) ==> forall a :: a in old(AssetMap.Values) ==> unchanged(a)
      ensures old(HasAsset(name)) ==> var asset := old(AssetMap[FoldString(name)]);
              && r == Success(asset) && Grabbed(asset, immediate, old(asset.RefCount), old(asset.loaded), old(ToLoad), old(ToUnLoad))
              && asset.Name == old(asset.Name) && asset.Manager == old(asset.Manager)
              && forall a :: a in old(AssetMap.Values) && a != asset ==> unchanged(a)
    {
      var asset := GetAsset(name);
      if asset.None? {
        r := Failure("Object reference not set to an instance of an object.");
        return;
      }
      GrabAsset(asset.value, immediate);
      r := Success(asset.value);
    }

    /** `DropAsset(asset)`: one reference fewer, with no lower bound.
        Dropping the last reference cancels a pending load or queues an
        unload. */
    method DropAsset(asset: Asset)
      requires Valid()
      modifies this, asset
      ensures Valid() && AssetMap == old(AssetMap)
      ensures Dropped(asset, old(asset.RefCount), old(asset.loaded), old(ToLoad), old(ToUnLoad))
      ensures asset.Name == old(asset.Name) && asset.Manager == old(asset.Manager)
    {
      if asset.RefCount == 1 {
        if asset in ToLoad {
          ToLoad := ToLoad - {asset};
        } else {
          ToUnLoad := ToUnLoad + {asset};
        }
      }
      asset.RefCount := asset.RefCount - 1;
    }

    method DropAssetNamed(name: string) returns (r: Result<()>)
      requires Valid()
      modifies this, AssetMap.Values
      ensures Valid() && AssetMap == old(AssetMap)
      ensures !old(HasAsset(name)) ==> r.Failure? && ToLoad == old(ToLoad) && ToUnLoad == old(ToUnLoad)
      ensures !old(HasAsset(name)) ==> forall a :: a in old(AssetMap.Values) ==> unchanged(a)
      ensures old(HasAsset(name)) ==> var asset := old(AssetMap[FoldString(name)]);
              && r.Success? && Dropped(asset, old(asset.RefCount), old(asset.loaded), old(ToLoad), old(ToUnLoad))
              && asset.Name == old(asset.Name) && asset.Manager == old(asset.Manager)
              && forall a :: a in old(AssetMap.Values) && a != asset ==> unchanged(a)
    {
      var asset := GetAsset(name);
      if asset.None? {
        r := Failure("Object reference not set to an instance of an object.");
        return;
      }
      DropAsset(asset.value);
      r := Success(());
    }

    /** `RefreshAssets()`: unloads the queued unloads that are loaded and
        unreferenced, loads the queued loads that are unloaded and
        referenced, and empties both queues. Nothing else changes. */
    method RefreshAssets()
      requires Valid()
      modifies this`ToLoad, this`ToUnLoad, ToLoad`loaded, ToUnLoad`loaded
      ensures Valid() && ToLoad == {} && ToUnLoad == {}
      ensures forall a :: a in old(ToUnLoad) ==> a.loaded == (old(a.loaded) && a.RefCount != 0)
      ensures forall a :: a in old(ToLoad) ==> a.loaded == (old(a.loaded) || a.RefCount > 0)
    {
      UnloadQueued();
      ToUnLoad := {};
      LoadQueued();
      ToLoad := {};
    }

    method UnloadQueued()
      requires Valid()
      modifies ToUnLoad`loaded
      ensures forall a :: a in ToUnLoad ==> a.loaded == (old(a.loaded) && a.RefCount != 0)
    {
      var pending := ToUnLoad;
      while pending != {}
        invariant pending <= ToUnLoad
        invariant forall a :: a in ToUnLoad - pending ==> a.loaded == (old(a.loaded) && a.RefCount != 0)
        invariant forall a :: a in pending ==> a.loaded == old(a.loaded)
        decreases |pending|
      {
        var asset :| asset in pending;
        if asset.RefCount == 0 && asset.loaded {
          asset.loaded := false;
        }
        pending := pending - {asset};
      }
    }

    method LoadQueued()
      modifies ToLoad`loaded
      ensures forall a :: a in ToLoad ==> a.loaded == (old(a.loaded) || a.RefCount > 0)
    {
      var pending := ToLoad;
      while pending != {}
        invariant pending <= ToLoad
        invariant forall a :: a in ToLoad - pending ==> a.loaded == (old(a.loaded) || a.RefCount > 0)
        invariant forall a :: a in pending ==> a.loaded == old(a.loaded)
        decreases |pending|
      {
        var asset :| asset in pending;
        if asset.RefCount > 0 && !asset.loaded {
          asset.loaded := true;
        }
        pending := pending - {asset};
      }
    }
  }

  /** The first half of the asset manager's unit test: a grabbed asset
      becomes active only at the next refresh, and a dropped one stays
      active until the refresh after its last drop. */
  method GrabDropLifecycle() returns (activeAfterGrab: bool, activeAfterRefresh: bool, activeAfterLastDrop: bool, activeAfterUnloadRefresh: bool)
    ensures !activeAfterGrab && activeAfterRefresh && activeAfterLastDrop && !activeAfterUnloadRefresh
  {
    var d1 := new Asset();
    var manager := new AssetManager();
    var _ := manager.AddAsset("d1", d1);
    d1.Grab();
    activeAfterGrab := d1.loaded;
    manager.RefreshAssets();
    activeAfterRefresh := d1.loaded;
    assert manager.ToLoad == {} && manager.ToUnLoad == {} && d1.RefCount == 1;
    d1.Grab();
    manager.RefreshAssets();
    d1.Drop();
    manager.RefreshAssets();
    assert manager.ToLoad == {} && manager.ToUnLoad == {} && d1.RefCount == 1 && d1.loaded;
    d1.Drop();
    activeAfterLastDrop := d1.loaded;
    manager.RefreshAssets();
    activeAfterUnloadRefresh := d1.loaded;
  }

  /** Handing the only reference from one asset to another swaps which
      one is loaded, at the next refresh. */
  method SwapReference() returns (d1Active: bool, d2Active: bool)
    ensures d1Active && !d2Active
  {
    var d1 := new Asset();
    var d2 := new Asset();
    var manager := new AssetManager();
    var _ := manager.AddAsset("d1", d1);
    assert FoldString("d1") != FoldString("d2") by {
      assert FoldString("d1")[1] == '1' && FoldString("d2")[1] == '2';
    }
    var _ := manager.AddAsset("d2", d2);
    d2.Grab();
    manager.RefreshAssets();
    assert d2.loaded && !d1.loaded && manager.ToLoad == {} && manager.ToUnLoad == {};
    d2.Drop();
    d1.Grab();
    assert manager.ToUnLoad == {d2} && manager.ToLoad == {d1};
    manager.RefreshAssets();
    d1Active, d2Active := d1.loaded, d2.loaded;
  }

  /** Removing a referenced, loaded asset unloads it, resets its count,
      detaches it and unregisters its name. */
  method RemoveReferenced() returns (active: bool, refCount: int, detached: bool, registered: bool)
    ensures !active && refCount == 0 && detached && !registered
  {
    var d1 := new Asset();
    var manager := new AssetManager();
    var _ := manager.AddAsset("d1", d1);
    d1.Grab();
    manager.RefreshAssets();
    assert d1.loaded && d1.RefCount == 1;
    var _ := manager.RemoveAsset("d1");
    active, refCount, detached, registered := d1.loaded, d1.RefCount, d1.Manager == null, manager.HasAsset("d1");
  }
}
