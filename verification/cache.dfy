/**
 * The provisioner's volume cache: the local volumes this node's provisioner
 * knows about, keyed by volume name.  Its own source is not part of this
 * model; it is defined by how discovery and the populator use it.
 */
module Cache {
  import opened Wrappers
  import opened Api

  class VolumeCache {
    var pvs: map<string, PersistentVolume>

    constructor ()
      ensures pvs == map[]
    {
      pvs := map[];
    }

    /** The cached copy of a volume, if any. */
    function GetPV(name: string): (r: Option<PersistentVolume>)
      reads this
      ensures r.Some? <==> name in pvs
      ensures r.Some? ==> r.value == pvs[name]
    {
      if name in pvs then Some(pvs[name]) else None
    }

    /** The names of the cached volumes whose host path is `path`, in no particular order. */
    function LookupPVsByPath(path: string): (names: set<string>)
      reads this
      ensures forall n :: n in names <==> n in pvs && pvs[n].hostPath == path
    {
      set n | n in pvs && pvs[n].hostPath == path
    }

    method AddPV(pv: PersistentVolume)
      modifies this
      ensures pvs == old(pvs)[pv.name := pv]
    {
      pvs := pvs[pv.name := pv];
    }

    method UpdatePV(pv: PersistentVolume)
      modifies this
      ensures pvs == old(pvs)[pv.name := pv]
    {
      pvs := pvs[pv.name := pv];
    }

    method DeletePV(name: string)
      modifies this
      ensures pvs == old(pvs) - {name}
    {
      pvs := pvs - {name};
    }
  }
}
