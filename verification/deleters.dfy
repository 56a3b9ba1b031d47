/**
 * The stale-volume deleter of the node-cleanup controller: a periodic pass
 * over all volumes that deletes the local volumes of the configured classes
 * whose node is gone, when they are Available, or Released with reclaim
 * policy Delete.
 */
module NodeCleanupDeleter {
  import opened Wrappers
  import opened Api
  import opened Common

  /**
   * What a deleter pass reads: the volume listing, whether listing fails,
   * the node lister, and the API server's answer to deleting each volume name.
   */
  datatype DeleterView = DeleterView(
    pvs: seq<PersistentVolume>,
    pvListFails: bool,
    nodes: NodeLister,
    deleteResponse: string -> ApiResponse)

  /**
   * `referencesNonExistentNode`: an error when the affinity does not resolve
   * to a single node or the node lookup fails; otherwise whether the node is gone.
   */
  function ReferencesNonExistentNode(nodes: NodeLister, pv: PersistentVolume): (r: Result<bool>)
    ensures r == Ok(true) <==>
      NodeAttachedToLocalPV(Some(pv)).Some? && NodeExists(nodes, NodeAttachedToLocalPV(Some(pv)).value) == Ok(false)
    ensures r.Err? <==> NodeAttachedToLocalPV(Some(pv)).None? || nodes.listFails
  {
    match NodeAttachedToLocalPV(Some(pv))
    case None => Err("error retrieving node")
    case Some(nodeName) =>
      match NodeExists(nodes, nodeName)
      case Err(msg) => Err(msg)
      case Ok(nodeExists) => Ok(!nodeExists)
  }

  /** The phases in which a stale volume may be deleted. */
  predicate DeletablePhase(pv: PersistentVolume) {
    (pv.phase == Released && pv.reclaimPolicy == Delete) || pv.phase == Available
  }

  /** `deletePV`: an error unless the API server deletes the volume or reports it already gone. */
  function DeletePV(view: DeleterView, pvName: string): (err: Option<string>)
    ensures err.None? <==> view.deleteResponse(pvName) != Rejected
  {
    match view.deleteResponse(pvName)
    case Succeeded => None
    case NotFound => None
    case Rejected => Some("error deleting PV " + pvName)
  }

  /** Whether a pass issues a delete call for `pv`. */
  predicate ShouldDelete(nodes: NodeLister, classNames: seq<string>, pv: PersistentVolume) {
    && IsLocalPVWithStorageClass(pv, classNames)
    && ReferencesNonExistentNode(nodes, pv) == Ok(true)
    && DeletablePhase(pv)
  }

  /** The names a pass over `pvs` issues delete calls for, in listing order. */
  function DeleteCalls(nodes: NodeLister, classNames: seq<string>, pvs: seq<PersistentVolume>): seq<string>
    decreases |pvs|
  {
    if pvs == [] then []
    else
      var rest := DeleteCalls(nodes, classNames, pvs[..|pvs| - 1]);
      if ShouldDelete(nodes, classNames, pvs[|pvs| - 1]) then rest + [pvs[|pvs| - 1].name] else rest
  }

  /** The delete calls that fail, in order. */
  function FailedDeletes(deleteResponse: string -> ApiResponse, calls: seq<string>): seq<string>
    decreases |calls|
  {
    if calls == [] then []
    else
      var rest := FailedDeletes(deleteResponse, calls[..|calls| - 1]);
      if deleteResponse(calls[|calls| - 1]) == Rejected then rest + [calls[|calls| - 1]] else rest
  }

  /** One more listed volume: the delete calls grow by that volume's name iff it should be deleted. */
  lemma DeleteCallsStep(nodes: NodeLister, classNames: seq<string>, pvs: seq<PersistentVolume>, i: nat)
    requires i < |pvs|
    ensures DeleteCalls(nodes, classNames, pvs[..i + 1]) ==
      if ShouldDelete(nodes, classNames, pvs[i]) then DeleteCalls(nodes, classNames, pvs[..i]) + [pvs[i].name]
      else DeleteCalls(nodes, classNames, pvs[..i])
  {
    assert pvs[..i + 1][..i] == pvs[..i];
  }

  /** One more delete call: the failures grow by that name iff its delete fails. */
  lemma FailedDeletesStep(deleteResponse: string -> ApiResponse, calls: seq<string>, name: string)
    ensures FailedDeletes(deleteResponse, calls + [name]) ==
      if deleteResponse(name) == Rejected then FailedDeletes(deleteResponse, calls) + [name]
      else FailedDeletes(deleteResponse, calls)
  {
    assert (calls + [name])[..|calls|] == calls;
  }

  /**
   * A name gets a delete call iff some listed volume of that name is local,
   * of an allowed class, pinned to a single node that is gone, and Available
   * or Released with reclaim policy Delete.
   */
  lemma {:induction false} DeleteCallsMeaning(nodes: NodeLister, classNames: seq<string>, pvs: seq<PersistentVolume>)
    ensures forall n :: n in DeleteCalls(nodes, classNames, pvs) <==>
      exists pv :: pv in pvs && pv.name == n
        && pv.isLocal && pv.storageClass in classNames
        && NodeAttachedToLocalPV(Some(pv)).Some?
        && NodeExists(nodes, NodeAttachedToLocalPV(Some(pv)).value) == Ok(false)
        && ((pv.phase == Released && pv.reclaimPolicy == Delete) || pv.phase == Available)
    ensures |DeleteCalls(nodes, classNames, pvs)| <= |pvs|
    decreases |pvs|
  {
    if pvs != [] {
      var prefix := pvs[..|pvs| - 1];
      DeleteCallsMeaning(nodes, classNames, prefix);
      assert pvs == prefix + [pvs[|pvs| - 1]];
    }
  }

  /** Each listed volume gets at most one delete call: distinct names in the listing give distinct calls. */
  lemma {:induction false} DeleteCallsDistinct(nodes: NodeLister, classNames: seq<string>, pvs: seq<PersistentVolume>)
    requires forall i, j :: 0 <= i < j < |pvs| ==> pvs[i].name != pvs[j].name
    ensures var calls := DeleteCalls(nodes, classNames, pvs);
      forall i, j :: 0 <= i < j < |calls| ==> calls[i] != calls[j]
    decreases |pvs|
  {
    if pvs != [] {
      var prefix := pvs[..|pvs| - 1];
      DeleteCallsDistinct(nodes, classNames, prefix);
      DeleteCallsMeaning(nodes, classNames, prefix);
      var last := pvs[|pvs| - 1];
      forall pv | pv in prefix ensures pv.name != last.name {
        var k :| 0 <= k < |prefix| && prefix[k] == pv;
        assert pvs[k] == pv;
      }
      var prev := DeleteCalls(nodes, classNames, prefix);
      if ShouldDelete(nodes, classNames, last) {
        assert last.name !in prev;
        assert DeleteCalls(nodes, classNames, pvs) == prev + [last.name];
      }
    }
  }

  /** The failures are exactly the delete calls the API server rejects. */
  lemma {:induction false} FailedDeletesMeaning(deleteResponse: string -> ApiResponse, calls: seq<string>)
    ensures forall n :: n in FailedDeletes(deleteResponse, calls) <==> n in calls && deleteResponse(n) == Rejected
    decreases |calls|
  {
    if calls != [] {
      var prefix := calls[..|calls| - 1];
      FailedDeletesMeaning(deleteResponse, prefix);
      assert calls == prefix + [calls[|calls| - 1]];
    }
  }

  /** A volume whose node still exists, or whose node cannot be resolved, is never deleted. */
  lemma LiveOrUnresolvedNeverDeleted(nodes: NodeLister, classNames: seq<string>, pv: PersistentVolume)
    requires NodeAttachedToLocalPV(Some(pv)).None? || NodeExists(nodes, NodeAttachedToLocalPV(Some(pv)).value) == Ok(true)
    ensures !ShouldDelete(nodes, classNames, pv)
  {
  }

  /** With its node gone, a local volume of an allowed class is deleted iff it is Available, or Released with policy Delete. */
  lemma StaleDeletedIffPhase(nodes: NodeLister, classNames: seq<string>, pv: PersistentVolume, nodeName: string)
    requires pv.isLocal && pv.storageClass in classNames
    requires NodeAttachedToLocalPV(Some(pv)) == Some(nodeName) && NodeExists(nodes, nodeName) == Ok(false)
    ensures ShouldDelete(nodes, classNames, pv) <==>
      pv.phase == Available || (pv.phase == Released && pv.reclaimPolicy == Delete)
  {
  }

  class Deleter {
    /** The classes whose volumes may be deleted. */
    const storageClassNames: seq<string>

    constructor (storageClassNames: seq<string>)
      ensures this.storageClassNames == storageClassNames
    {
      this.storageClassNames := storageClassNames;
    }

    /**
     * `DeletePVs`: one pass.  A listing error makes no call; otherwise the
     * calls are the stale deletable volumes in listing order, whatever the
     * earlier calls answered, and the failures are the calls that failed.
     */
    method DeletePVs(view: DeleterView) returns (calls: seq<string>, failures: seq<string>)
      ensures view.pvListFails ==> calls == [] && failures == []
      ensures !view.pvListFails ==> calls == DeleteCalls(view.nodes, storageClassNames, view.pvs)
      ensures failures == FailedDeletes(view.deleteResponse, calls)
    {
      if view.pvListFails {
        return [], [];
      }
      calls, failures := [], [];
      for i := 0 to |view.pvs|
        invariant calls == DeleteCalls(view.nodes, storageClassNames, view.pvs[..i])
        invariant failures == FailedDeletes(view.deleteResponse, calls)
      {
        var pv := view.pvs[i];
        DeleteCallsStep(view.nodes, storageClassNames, view.pvs, i);
        if !IsLocalPVWithStorageClass(pv, storageClassNames) {
          continue;
        }
        var referencesDeletedNode := ReferencesNonExistentNode(view.nodes, pv);
        if referencesDeletedNode.Err? || !referencesDeletedNode.value {
          continue;
        }
        var isReleasedWithDeleteReclaim := pv.phase == Released && pv.reclaimPolicy == Delete;
        var isAvailable := pv.phase == Available;
        if isReleasedWithDeleteReclaim || isAvailable {
          FailedDeletesStep(view.deleteResponse, calls, pv.name);
          calls := calls + [pv.name];
          var err := DeletePV(view, pv.name);
          if err.Some? {
            failures := failures + [pv.name];
          }
        }
      }
      assert view.pvs[..|view.pvs|] == view.pvs;
    }
  }
}

/**
 * The older stale-volume deleter of the cleanup command: the same pass,
 * restricted to a single storage class compared by equality.
 */
module CleanupDeleter {
  import opened Wrappers
  import opened Api
  import opened Common
  import opened NodeCleanupDeleter

  /** The single-class filter: a local volume whose class is exactly `className`. */
  predicate IsLocalPVWithStorageClassName(pv: PersistentVolume, className: string) {
    pv.isLocal && pv.storageClass == className
  }

  /** The single-class filter is the allow-list filter with a one-element list. */
  lemma SingleClassIsOneElementList(pv: PersistentVolume, className: string)
    ensures IsLocalPVWithStorageClassName(pv, className) <==> IsLocalPVWithStorageClass(pv, [className])
  {
  }

  class Deleter {
    /** The one class whose volumes may be deleted. */
    const storageClassName: string

    constructor (storageClassName: string)
      ensures this.storageClassName == storageClassName
    {
      this.storageClassName := storageClassName;
    }

    /**
     * `DeletePVs`: one pass of the single-class deleter.  It makes exactly
     * the calls of the allow-list deleter configured with that one class.
     */
    method DeletePVs(view: DeleterView) returns (calls: seq<string>, failures: seq<string>)
      ensures view.pvListFails ==> calls == [] && failures == []
      ensures !view.pvListFails ==> calls == DeleteCalls(view.nodes, [storageClassName], view.pvs)
      ensures failures == FailedDeletes(view.deleteResponse, calls)
    {
      if view.pvListFails {
        return [], [];
      }
      calls, failures := [], [];
      for i := 0 to |view.pvs|
        invariant calls == DeleteCalls(view.nodes, [storageClassName], view.pvs[..i])
        invariant failures == FailedDeletes(view.deleteResponse, calls)
      {
        var pv := view.pvs[i];
        DeleteCallsStep(view.nodes, [storageClassName], view.pvs, i);
        SingleClassIsOneElementList(pv, storageClassName);
        if !IsLocalPVWithStorageClassName(pv, storageClassName) {
          continue;
        }
        var referencesDeletedNode := ReferencesNonExistentNode(view.nodes, pv);
        if referencesDeletedNode.Err? || !referencesDeletedNode.value {
          continue;
        }
        var isReleasedWithDeleteReclaim := pv.phase == Released && pv.reclaimPolicy == Delete;
        var isAvailable := pv.phase == Available;
        if isReleasedWithDeleteReclaim || isAvailable {
          FailedDeletesStep(view.deleteResponse, calls, pv.name);
          calls := calls + [pv.name];
          var err := DeletePV(view, pv.name);
          if err.Some? {
            failures := failures + [pv.name];
          }
        }
      }
      assert view.pvs[..|view.pvs|] == view.pvs;
    }
  }
}
