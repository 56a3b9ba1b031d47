/**
 * The populator: keeps the volume cache in step with the volume informer's
 * add, update and delete events.  A volume it has not seen enters the cache
 * only when its provisioned-by annotation names this provisioner.
 */
module Populator {
  import opened Wrappers
  import opened Api
  import opened Strings
  import opened Cache

  /** The provisioner's name: the node name alone, or the node name followed by the node UID. */
  function ProvisionerName(node: Node, useNodeNameOnly: bool): (name: string)
    ensures HasPrefix(name, "local-volume-provisioner-" + node.name)
    ensures useNodeNameOnly <==> |name| == |"local-volume-provisioner-" + node.name|
    ensures !useNodeNameOnly ==> name[|"local-volume-provisioner-" + node.name|..] == "-" + node.uid
  {
    if useNodeNameOnly then "local-volume-provisioner-" + node.name
    else "local-volume-provisioner-" + node.name + "-" + node.uid
  }

  /** The provenance check for a volume the cache does not hold yet. */
  predicate ProvisionedBy(pv: PersistentVolume, name: string, useNodeNameOnly: bool) {
    && pv.annotations.Some?
    && AnnProvisionedBy in pv.annotations.value
    && var provisioner := pv.annotations.value[AnnProvisionedBy];
       provisioner == name || (useNodeNameOnly && HasPrefix(provisioner, name))
  }

  /** The cache after an add or update event for `pv`. */
  function AfterUpdate(pvs: map<string, PersistentVolume>, pv: PersistentVolume, name: string, useNodeNameOnly: bool)
    : map<string, PersistentVolume>
  {
    if pv.name in pvs || ProvisionedBy(pv, name, useNodeNameOnly) then pvs[pv.name := pv] else pvs
  }

  /** The cache after a delete event for a volume called `pvName`. */
  function AfterDelete(pvs: map<string, PersistentVolume>, pvName: string): map<string, PersistentVolume> {
    if pvName in pvs then pvs - {pvName} else pvs
  }

  /** A cached volume is replaced by the new copy, whatever its annotations say. */
  lemma UpdateReplacesCached(pvs: map<string, PersistentVolume>, pv: PersistentVolume, name: string, useNodeNameOnly: bool)
    requires pv.name in pvs
    ensures pv.name in AfterUpdate(pvs, pv, name, useNodeNameOnly)
    ensures AfterUpdate(pvs, pv, name, useNodeNameOnly)[pv.name] == pv
    ensures AfterUpdate(pvs, pv, name, useNodeNameOnly).Keys == pvs.Keys
  {
  }

  /**
   * A volume the cache does not hold enters it iff its provisioned-by
   * annotation is this provisioner's name, or starts with it when only the
   * node name is used; without annotations it never enters.
   */
  lemma UncachedEntersIffProvisioned(pvs: map<string, PersistentVolume>, pv: PersistentVolume, name: string, useNodeNameOnly: bool)
    requires pv.name !in pvs
    ensures pv.name in AfterUpdate(pvs, pv, name, useNodeNameOnly) <==>
      && pv.annotations.Some? && AnnProvisionedBy in pv.annotations.value
      && (pv.annotations.value[AnnProvisionedBy] == name
          || (useNodeNameOnly && HasPrefix(pv.annotations.value[AnnProvisionedBy], name)))
    ensures pv.annotations.None? ==> AfterUpdate(pvs, pv, name, useNodeNameOnly) == pvs
  {
  }

  /** An add or update event changes at most the entry of that volume. */
  lemma UpdateTouchesOnlyItsName(pvs: map<string, PersistentVolume>, pv: PersistentVolume, name: string, useNodeNameOnly: bool, other: string)
    requires other != pv.name
    ensures other in AfterUpdate(pvs, pv, name, useNodeNameOnly) <==> other in pvs
    ensures other in pvs ==> AfterUpdate(pvs, pv, name, useNodeNameOnly)[other] == pvs[other]
  {
  }

  /** Delete removes exactly that name; an absent name is a no-op and nothing is ever added. */
  lemma DeleteRemovesExactly(pvs: map<string, PersistentVolume>, pvName: string)
    ensures AfterDelete(pvs, pvName).Keys == pvs.Keys - {pvName}
    ensures forall k :: k in AfterDelete(pvs, pvName) ==> AfterDelete(pvs, pvName)[k] == pvs[k]
    ensures pvName !in pvs ==> AfterDelete(pvs, pvName) == pvs
  {
  }

  /**
   * After switching to node-name-only naming, volumes provisioned under the
   * old node-and-UID name are still admitted.
   */
  lemma OldStyleNameAdmitted(node: Node, pv: PersistentVolume)
    requires pv.annotations.Some? && AnnProvisionedBy in pv.annotations.value
    requires pv.annotations.value[AnnProvisionedBy] == ProvisionerName(node, false)
    ensures ProvisionedBy(pv, ProvisionerName(node, true), true)
  {
    var long := ProvisionerName(node, false);
    var short := ProvisionerName(node, true);
    assert long == short + "-" + node.uid;
    assert long[..|short|] == short;
  }

  /**
   * The prefix test is on raw strings: with node-name-only naming, the
   * provisioner of node `node-1` also admits volumes provisioned by node `node-10`.
   */
  lemma PrefixAdmitsLongerNodeName(pv: PersistentVolume, n1: Node, n10: Node)
    requires n1.name == "node-1" && n10.name == "node-10"
    requires pv.annotations == Some(map[AnnProvisionedBy := ProvisionerName(n10, true)])
    ensures ProvisionedBy(pv, ProvisionerName(n1, true), true)
    ensures ProvisionerName(n10, true) != ProvisionerName(n1, true)
  {
    assert ProvisionerName(n10, true) == ProvisionerName(n1, true) + "0";
  }

  /** What an informer hands to an event handler: a volume, a deleted-object tombstone, or anything else. */
  datatype WatchObject =
    | PVObject(pv: PersistentVolume)
    | Tombstone(key: string, last: PersistentVolume)
    | OtherObject

  class Populator {
    const cache: VolumeCache
    const name: string
    const useNodeNameOnly: bool

    constructor (cache: VolumeCache, name: string, useNodeNameOnly: bool)
      ensures this.cache == cache && this.name == name && this.useNodeNameOnly == useNodeNameOnly
    {
      this.cache := cache;
      this.name := name;
      this.useNodeNameOnly := useNodeNameOnly;
    }

    method HandlePVUpdate(pv: PersistentVolume)
      modifies cache
      ensures cache.pvs == AfterUpdate(old(cache.pvs), pv, name, useNodeNameOnly)
    {
      var cached := cache.GetPV(pv.name);
      if cached.Some? {
        cache.UpdatePV(pv);
      } else if pv.annotations.Some? {
        if AnnProvisionedBy !in pv.annotations.value {
          return;
        }
        var provisioner := pv.annotations.value[AnnProvisionedBy];
        if provisioner == name || (useNodeNameOnly && HasPrefix(provisioner, name)) {
          cache.AddPV(pv);
        }
      }
    }

    method HandlePVDelete(pv: PersistentVolume)
      modifies cache
      ensures cache.pvs == AfterDelete(old(cache.pvs), pv.name)
    {
      var cached := cache.GetPV(pv.name);
      if cached.Some? {
        cache.DeletePV(pv.name);
      }
    }

    /** Add handler: only a volume object is handled. */
    method OnAdd(obj: WatchObject)
      modifies cache
      ensures cache.pvs == if obj.PVObject? then AfterUpdate(old(cache.pvs), obj.pv, name, useNodeNameOnly) else old(cache.pvs)
    {
      if obj.PVObject? {
        HandlePVUpdate(obj.pv);
      }
    }

    /** Update handler: the new object is handled when it is a volume; the old one is not looked at. */
    method OnUpdate(oldObj: WatchObject, newObj: WatchObject)
      modifies cache
      ensures cache.pvs == if newObj.PVObject? then AfterUpdate(old(cache.pvs), newObj.pv, name, useNodeNameOnly) else old(cache.pvs)
    {
      if newObj.PVObject? {
        HandlePVUpdate(newObj.pv);
      }
    }

    /** Delete handler: a tombstone is not unwrapped, so it leaves the cache as it was. */
    method OnDelete(obj: WatchObject)
      modifies cache
      ensures cache.pvs == if obj.PVObject? then AfterDelete(old(cache.pvs), obj.pv.name) else old(cache.pvs)
    {
      if obj.PVObject? {
        HandlePVDelete(obj.pv);
      }
    }
  }
}
