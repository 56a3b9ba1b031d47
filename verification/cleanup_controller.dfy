/**
 * The claim cleanup controller: when a node is deleted, the claims bound to
 * local volumes pinned to that node are deleted after a delay, unless the
 * node comes back.  Volume names wait in a work queue; the timers behind the
 * delays are not modelled, only which keys wait and with what delay.
 */
module CleanupController {
  import opened Wrappers
  import opened Api
  import opened VolumeUtil
  import opened Common

  /** The outcome of a lister lookup by name. */
  datatype Lookup<T> = Found(value: T) | Missing | LookupError(msg: string)

  /**
   * What the controller reads from the cluster: the volume lister (its
   * listing, whether listing fails, and the names whose lookup fails for a
   * reason other than absence), the claim lister, the node lister, and the
   * API server's answer to deleting a claim.
   */
  datatype ClusterView = ClusterView(
    pvs: seq<PersistentVolume>,
    pvListFails: bool,
    pvGetFails: set<string>,
    claims: seq<Claim>,
    claimGetFails: set<ObjectRef>,
    nodes: NodeLister,
    claimDeleteResponse: ObjectRef -> ApiResponse)

  /** The first volume called `name` in a listing. */
  function FindPV(pvs: seq<PersistentVolume>, name: string): (r: Option<PersistentVolume>)
    ensures r.Some? ==> r.value in pvs && r.value.name == name
    ensures r.None? <==> forall pv :: pv in pvs ==> pv.name != name
  {
    if pvs == [] then None
    else if pvs[0].name == name then Some(pvs[0])
    else FindPV(pvs[1..], name)
  }

  /** The first claim at `ref` in a listing. */
  function FindClaim(claims: seq<Claim>, ref: ObjectRef): (r: Option<Claim>)
    ensures r.Some? ==> r.value in claims && r.value.namespace == ref.namespace && r.value.name == ref.name
    ensures r.None? <==> forall c :: c in claims ==> c.namespace != ref.namespace || c.name != ref.name
  {
    if claims == [] then None
    else if claims[0].namespace == ref.namespace && claims[0].name == ref.name then Some(claims[0])
    else FindClaim(claims[1..], ref)
  }

  /** The volume lister's `Get`. */
  function GetPV(view: ClusterView, name: string): Lookup<PersistentVolume> {
    if name in view.pvGetFails then LookupError("error getting PV " + name)
    else match FindPV(view.pvs, name)
      case Some(pv) => Found(pv)
      case None => Missing
  }

  /** The claim lister's `Get`. */
  function GetClaim(view: ClusterView, ref: ObjectRef): Lookup<Claim> {
    if ref in view.claimGetFails then LookupError("error getting PVC " + ref.name)
    else match FindClaim(view.claims, ref)
      case Some(claim) => Found(claim)
      case None => Missing
  }

  /** `deletePVC`: an error unless the API server deletes the claim or reports it already gone. */
  function DeletePVC(view: ClusterView, claim: Claim): (err: Option<string>)
    ensures err.None? <==> view.claimDeleteResponse(ObjectRef(claim.namespace, claim.name)) != Rejected
  {
    match view.claimDeleteResponse(ObjectRef(claim.namespace, claim.name))
    case Succeeded => None
    case NotFound => None
    case Rejected => Some("failed to delete PVC " + claim.name)
  }

  /** What one sync of a volume name did: the claim it deleted (if a delete call was made) and the error returned. */
  datatype SyncOutcome = SyncOutcome(deleted: Option<ObjectRef>, err: Option<string>)

  /** `syncHandler`: re-check everything, then delete the claim bound to the volume. */
  function SyncHandler(view: ClusterView, pvName: string): SyncOutcome {
    match GetPV(view, pvName)
    case Missing => SyncOutcome(None, None)
    case LookupError(msg) => SyncOutcome(None, Some(msg))
    case Found(pv) =>
      var nodeName := NodeAttachedToLocalPV(Some(pv));
      if nodeName.None? then SyncOutcome(None, None)
      else match NodeExists(view.nodes, nodeName.value)
        case Err(msg) => SyncOutcome(None, Some(msg))
        case Ok(nodeExists) =>
          if nodeExists || pv.claimRef.None? then SyncOutcome(None, None)
          else match GetClaim(view, pv.claimRef.value)
            case Missing => SyncOutcome(None, None)
            case LookupError(msg) => SyncOutcome(None, Some(msg))
            case Found(claim) =>
              if claim.volumeName != pv.name then SyncOutcome(None, None)
              else SyncOutcome(Some(ObjectRef(claim.namespace, claim.name)), DeletePVC(view, claim))
  }

  /**
   * A claim is deleted only when the volume still exists, resolves to a
   * single node, that node is still absent, the volume has a claim reference,
   * the claim exists and still names the volume; the claim deleted is the one referenced.
   */
  lemma SyncDeletesIff(view: ClusterView, pvName: string)
    ensures SyncHandler(view, pvName).deleted.Some? <==>
      && GetPV(view, pvName).Found?
      && var pv := GetPV(view, pvName).value;
         && NodeAttachedToLocalPV(Some(pv)).Some?
         && NodeExists(view.nodes, NodeAttachedToLocalPV(Some(pv)).value) == Ok(false)
         && pv.claimRef.Some?
         && GetClaim(view, pv.claimRef.value).Found?
         && GetClaim(view, pv.claimRef.value).value.volumeName == pv.name
    ensures SyncHandler(view, pvName).deleted.Some? ==>
      SyncHandler(view, pvName).deleted == GetPV(view, pvName).value.claimRef
  {
  }

  /** If the node is back when the name is processed, nothing is deleted and nothing is retried. */
  lemma NodeBackNoDelete(view: ClusterView, pvName: string, pv: PersistentVolume, nodeName: string)
    requires GetPV(view, pvName) == Found(pv)
    requires NodeAttachedToLocalPV(Some(pv)) == Some(nodeName)
    requires NodeExists(view.nodes, nodeName) == Ok(true)
    ensures SyncHandler(view, pvName) == SyncOutcome(None, None)
  {
  }

  /**
   * A sync returns an error iff the volume lookup, the node lookup, the claim
   * lookup or the claim delete fails for a reason other than absence.
   */
  lemma SyncErrorIff(view: ClusterView, pvName: string)
    ensures SyncHandler(view, pvName).err.Some? <==>
      || GetPV(view, pvName).LookupError?
      || (&& GetPV(view, pvName).Found?
          && var pv := GetPV(view, pvName).value;
             && NodeAttachedToLocalPV(Some(pv)).Some?
             && (|| view.nodes.listFails
                 || (&& NodeExists(view.nodes, NodeAttachedToLocalPV(Some(pv)).value) == Ok(false)
                     && pv.claimRef.Some?
                     && (|| GetClaim(view, pv.claimRef.value).LookupError?
                         || (&& GetClaim(view, pv.claimRef.value).Found?
                             && GetClaim(view, pv.claimRef.value).value.volumeName == pv.name
                             && view.claimDeleteResponse(pv.claimRef.value) == Rejected)))))
  {
    if GetPV(view, pvName).Found? {
      var pv := GetPV(view, pvName).value;
      if pv.claimRef.Some? && GetClaim(view, pv.claimRef.value).Found? {
        var claim := GetClaim(view, pv.claimRef.value).value;
        assert ObjectRef(claim.namespace, claim.name) == pv.claimRef.value;
      }
    }
  }

  /** Absence is success: a vanished volume, a vanished claim or an unresolvable affinity end the sync quietly. */
  lemma AbsenceIsSuccess(view: ClusterView, pvName: string)
    ensures GetPV(view, pvName).Missing? ==> SyncHandler(view, pvName) == SyncOutcome(None, None)
    ensures GetPV(view, pvName).Found? && NodeAttachedToLocalPV(Some(GetPV(view, pvName).value)).None? ==>
      SyncHandler(view, pvName) == SyncOutcome(None, None)
    ensures GetPV(view, pvName).Found? && GetPV(view, pvName).value.claimRef.Some? &&
            GetClaim(view, GetPV(view, pvName).value.claimRef.value).Missing? && !view.nodes.listFails ==>
      SyncHandler(view, pvName) == SyncOutcome(None, None)
  {
  }

  /**
   * `shouldEnqueueEntry`: only a local volume of an allowed class with a claim
   * reference is considered, and then it is enqueued iff its node is gone;
   * a node lookup error is returned.
   */
  function ShouldEnqueueEntry(view: ClusterView, classNames: seq<string>, pv: PersistentVolume, nodeName: string): (r: Result<bool>)
    ensures r == Ok(true) <==>
      pv.isLocal && pv.storageClass in classNames && pv.claimRef.Some? && NodeExists(view.nodes, nodeName) == Ok(false)
    ensures r.Err? <==> pv.isLocal && pv.storageClass in classNames && pv.claimRef.Some? && view.nodes.listFails
  {
    if !IsLocalPVWithStorageClass(pv, classNames) || pv.claimRef.None? then Ok(false)
    else match NodeExists(view.nodes, nodeName)
      case Err(msg) => Err(msg)
      case Ok(nodeExists) => Ok(!nodeExists)
  }

  /** A volume a timer pass enqueues: it resolves to one node and passes `shouldEnqueueEntry`. */
  predicate Enqueues(view: ClusterView, classNames: seq<string>, pv: PersistentVolume) {
    && NodeAttachedToLocalPV(Some(pv)).Some?
    && ShouldEnqueueEntry(view, classNames, pv, NodeAttachedToLocalPV(Some(pv)).value) == Ok(true)
  }

  /** The volumes of a listing that a timer pass enqueues, in listing order. */
  function ToEnqueue(view: ClusterView, classNames: seq<string>, pvs: seq<PersistentVolume>): seq<PersistentVolume>
    decreases |pvs|
  {
    if pvs == [] then []
    else
      var rest := ToEnqueue(view, classNames, pvs[..|pvs| - 1]);
      if Enqueues(view, classNames, pvs[|pvs| - 1]) then rest + [pvs[|pvs| - 1]] else rest
  }

  /**
   * A volume is enqueued iff it is listed, local, of an allowed class, bound
   * to a claim, and pinned to a single node that no longer exists.
   */
  lemma {:induction false} ToEnqueueMeaning(view: ClusterView, classNames: seq<string>, pvs: seq<PersistentVolume>)
    ensures forall pv :: pv in ToEnqueue(view, classNames, pvs) <==>
      && pv in pvs
      && pv.isLocal && pv.storageClass in classNames && pv.claimRef.Some?
      && NodeAttachedToLocalPV(Some(pv)).Some?
      && NodeExists(view.nodes, NodeAttachedToLocalPV(Some(pv)).value) == Ok(false)
    ensures |ToEnqueue(view, classNames, pvs)| <= |pvs|
    decreases |pvs|
  {
    if pvs != [] {
      var prefix := pvs[..|pvs| - 1];
      ToEnqueueMeaning(view, classNames, prefix);
      assert pvs == prefix + [pvs[|pvs| - 1]];
    }
  }

  /** A key of the work queue: a volume name, or any other object that got into it. */
  datatype QueueKey = PVName(name: string) | OtherKey(id: int)

  /** A key waiting for its delay to pass before it enters the queue. */
  datatype Delayed = Delayed(key: QueueKey, delay: int)

  /** The warning event a timer pass records on the claim of each volume it enqueues. */
  datatype Event = Event(involved: Option<ObjectRef>, eventType: string, reason: string)

  /** The delayed adds a timer pass makes, one per volume. */
  function DelayedAdds(pvs: seq<PersistentVolume>, delay: int): (adds: seq<Delayed>)
    ensures |adds| == |pvs|
  {
    if pvs == [] then []
    else DelayedAdds(pvs[..|pvs| - 1], delay) + [Delayed(PVName(pvs[|pvs| - 1].name), delay)]
  }

  /** The events a timer pass records, one per volume, in order. */
  function Warnings(pvs: seq<PersistentVolume>): (events: seq<Event>)
    ensures |events| == |pvs|
  {
    if pvs == [] then []
    else Warnings(pvs[..|pvs| - 1]) + [Event(pvs[|pvs| - 1].claimRef, "Warning", "ReferencedNodeDeleted")]
  }

  /** The `i`-th delayed add is the `i`-th volume's name with the given delay, and its event is a warning on that volume's claim. */
  lemma {:induction false} TimerEffectsMeaning(pvs: seq<PersistentVolume>, delay: int)
    ensures forall i :: 0 <= i < |pvs| ==> DelayedAdds(pvs, delay)[i] == Delayed(PVName(pvs[i].name), delay)
    ensures forall i :: 0 <= i < |pvs| ==> Warnings(pvs)[i] == Event(pvs[i].claimRef, "Warning", "ReferencedNodeDeleted")
    decreases |pvs|
  {
    if pvs != [] {
      var prefix := pvs[..|pvs| - 1];
      TimerEffectsMeaning(prefix, delay);
      forall i | 0 <= i < |prefix| ensures pvs[i] == prefix[i] {
      }
    }
  }

  /** One more listed volume: what a timer pass enqueues, waits for and records grows by at most that volume. */
  lemma TimerStep(view: ClusterView, classNames: seq<string>, pvs: seq<PersistentVolume>, i: nat, delay: int)
    requires i < |pvs|
    ensures var before := ToEnqueue(view, classNames, pvs[..i]);
            var after := ToEnqueue(view, classNames, pvs[..i + 1]);
      && (Enqueues(view, classNames, pvs[i]) ==>
            && after == before + [pvs[i]]
            && DelayedAdds(after, delay) == DelayedAdds(before, delay) + [Delayed(PVName(pvs[i].name), delay)]
            && Warnings(after) == Warnings(before) + [Event(pvs[i].claimRef, "Warning", "ReferencedNodeDeleted")])
      && (!Enqueues(view, classNames, pvs[i]) ==> after == before)
  {
    assert pvs[..i + 1][..i] == pvs[..i];
    var before := ToEnqueue(view, classNames, pvs[..i]);
    assert (before + [pvs[i]])[..|before|] == before;
  }

  /** How many times a key has failed since it was last forgotten. */
  function Failures(failures: map<QueueKey, nat>, key: QueueKey): nat {
    if key in failures then failures[key] else 0
  }

  /**
   * The rate-limited delaying work queue: the keys ready to be handed out,
   * the keys waiting for a delay, the keys waiting for a retry, the failure
   * count per key, the keys being processed, and the shutdown flag.
   */
  class WorkQueue {
    var queue: seq<QueueKey>
    var waiting: seq<Delayed>
    var retrying: multiset<QueueKey>
    var failures: map<QueueKey, nat>
    var processing: set<QueueKey>
    var shuttingDown: bool

    constructor ()
      ensures queue == [] && waiting == [] && retrying == multiset{}
      ensures failures == map[] && processing == {} && !shuttingDown
    {
      queue := [];
      waiting := [];
      retrying := multiset{};
      failures := map[];
      processing := {};
      shuttingDown := false;
    }

    /** `AddAfter`: the key waits `delay` before entering the queue. */
    method AddAfter(key: QueueKey, delay: int)
      modifies this
      ensures waiting == old(waiting) + [Delayed(key, delay)]
      ensures queue == old(queue) && retrying == old(retrying) && failures == old(failures)
      ensures processing == old(processing) && shuttingDown == old(shuttingDown)
    {
      waiting := waiting + [Delayed(key, delay)];
    }

    /** `AddRateLimited`: the key waits for a retry and its failure count goes up. */
    method AddRateLimited(key: QueueKey)
      modifies this
      ensures retrying == old(retrying) + multiset{key}
      ensures failures == old(failures)[key := Failures(old(failures), key) + 1]
      ensures queue == old(queue) && waiting == old(waiting)
      ensures processing == old(processing) && shuttingDown == old(shuttingDown)
    {
      retrying := retrying + multiset{key};
      failures := failures[key := Failures(failures, key) + 1];
    }

    /** `Forget`: the key's failure count is cleared. */
    method Forget(key: QueueKey)
      modifies this
      ensures failures == old(failures) - {key}
      ensures queue == old(queue) && waiting == old(waiting) && retrying == old(retrying)
      ensures processing == old(processing) && shuttingDown == old(shuttingDown)
    {
      failures := failures - {key};
    }

    /** `Done`: the key is no longer being processed. */
    method Done(key: QueueKey)
      modifies this
      ensures processing == old(processing) - {key}
      ensures queue == old(queue) && waiting == old(waiting) && retrying == old(retrying)
      ensures failures == old(failures) && shuttingDown == old(shuttingDown)
    {
      processing := processing - {key};
    }

    /**
     * `Get`: the first ready key, now being processed; nothing once the
     * queue is empty and shut down.  It blocks otherwise, which is not modelled.
     */
    method Get() returns (key: Option<QueueKey>)
      requires queue != [] || shuttingDown
      modifies this
      ensures old(queue) == [] ==> key.None? && queue == [] && processing == old(processing)
      ensures old(queue) != [] ==>
        key == Some(old(queue)[0]) && queue == old(queue)[1..] && processing == old(processing) + {old(queue)[0]}
      ensures waiting == old(waiting) && retrying == old(retrying)
      ensures failures == old(failures) && shuttingDown == old(shuttingDown)
    {
      if queue == [] {
        return None;
      }
      key := Some(queue[0]);
      processing := processing + {queue[0]};
      queue := queue[1..];
    }

    /** The delay of the `i`-th waiting key has passed: it moves to the end of the queue. */
    method DelayElapsed(i: nat)
      requires i < |waiting|
      modifies this
      ensures waiting == old(waiting)[..i] + old(waiting)[i + 1..] && queue == old(queue) + [old(waiting)[i].key]
      ensures retrying == old(retrying) && failures == old(failures)
      ensures processing == old(processing) && shuttingDown == old(shuttingDown)
    {
      queue := queue + [waiting[i].key];
      waiting := waiting[..i] + waiting[i + 1..];
    }

    /** A key's backoff has passed: it moves from retrying to the end of the queue. */
    method RetryDue(key: QueueKey)
      requires key in retrying
      modifies this
      ensures retrying == old(retrying) - multiset{key} && queue == old(queue) + [key]
      ensures waiting == old(waiting) && failures == old(failures)
      ensures processing == old(processing) && shuttingDown == old(shuttingDown)
    {
      retrying := retrying - multiset{key};
      queue := queue + [key];
    }

    method ShutDown()
      modifies this
      ensures shuttingDown
      ensures queue == old(queue) && waiting == old(waiting) && retrying == old(retrying)
      ensures failures == old(failures) && processing == old(processing)
    {
      shuttingDown := true;
    }
  }

  class CleanupController {
    /** The classes whose volumes and claims may be cleaned up. */
    const storageClassNames: seq<string>
    /** How long to wait after a node's deletion before deleting claims. */
    const pvcDeletionDelay: int
    const pvQueue: WorkQueue
    /** The events recorded so far. */
    var events: seq<Event>

    constructor (storageClassNames: seq<string>, pvcDeletionDelay: int)
      ensures this.storageClassNames == storageClassNames && this.pvcDeletionDelay == pvcDeletionDelay
      ensures fresh(pvQueue) && pvQueue.queue == [] && pvQueue.waiting == [] && pvQueue.retrying == multiset{}
      ensures pvQueue.failures == map[] && pvQueue.processing == {} && !pvQueue.shuttingDown
      ensures events == []
    {
      this.storageClassNames := storageClassNames;
      this.pvcDeletionDelay := pvcDeletionDelay;
      pvQueue := new WorkQueue();
      events := [];
    }

    /**
     * `processNextWorkItem`: take one key; a non-name key is forgotten, a
     * name is synced and then forgotten on success or re-added rate-limited
     * on error; every key taken is marked done.  False only on shutdown.
     */
    method ProcessNextWorkItem(view: ClusterView) returns (more: bool, deleted: Option<ObjectRef>)
      requires pvQueue.queue != [] || pvQueue.shuttingDown
      modifies pvQueue
      ensures !more <==> old(pvQueue.queue) == []
      ensures !more ==> deleted.None? && pvQueue.failures == old(pvQueue.failures) && pvQueue.retrying == old(pvQueue.retrying)
      ensures !more ==> pvQueue.queue == [] && pvQueue.processing == old(pvQueue.processing)
      ensures more ==>
        var key := old(pvQueue.queue)[0];
        var retry := key.PVName? && SyncHandler(view, key.name).err.Some?;
        && pvQueue.queue == old(pvQueue.queue)[1..]
        && pvQueue.processing == old(pvQueue.processing) - {key}
        && deleted == (if key.PVName? then SyncHandler(view, key.name).deleted else None)
        && (retry ==> pvQueue.retrying == old(pvQueue.retrying) + multiset{key}
                      && pvQueue.failures == old(pvQueue.failures)[key := Failures(old(pvQueue.failures), key) + 1])
        && (!retry ==> pvQueue.retrying == old(pvQueue.retrying) && pvQueue.failures == old(pvQueue.failures) - {key})
      ensures pvQueue.waiting == old(pvQueue.waiting) && pvQueue.shuttingDown == old(pvQueue.shuttingDown)
    {
      var key := pvQueue.Get();
      if key.None? {
        return false, None;
      }
      var k := key.value;
      if k.OtherKey? {
        pvQueue.Forget(k);
        pvQueue.Done(k);
        return true, None;
      }
      var outcome := SyncHandler(view, k.name);
      deleted := outcome.deleted;
      if outcome.err.Some? {
        pvQueue.AddRateLimited(k);
        pvQueue.Done(k);
        return true, deleted;
      }
      pvQueue.Forget(k);
      pvQueue.Done(k);
      return true, deleted;
    }

    /**
     * `startCleanupTimersIfNeeded`: on a listing error nothing happens;
     * otherwise every volume that should be enqueued waits the deletion
     * delay, and a warning is recorded on its claim.
     */
    method StartCleanupTimersIfNeeded(view: ClusterView)
      modifies this, pvQueue
      ensures view.pvListFails ==> events == old(events) && pvQueue.waiting == old(pvQueue.waiting)
      ensures !view.pvListFails ==>
        var enqueued := ToEnqueue(view, storageClassNames, view.pvs);
        && pvQueue.waiting == old(pvQueue.waiting) + DelayedAdds(enqueued, pvcDeletionDelay)
        && events == old(events) + Warnings(enqueued)
      ensures pvQueue.queue == old(pvQueue.queue) && pvQueue.retrying == old(pvQueue.retrying)
      ensures pvQueue.failures == old(pvQueue.failures) && pvQueue.processing == old(pvQueue.processing)
      ensures pvQueue.shuttingDown == old(pvQueue.shuttingDown)
    {
      if view.pvListFails {
        return;
      }
      var pvs := view.pvs;
      for i := 0 to |pvs|
        invariant pvQueue.waiting == old(pvQueue.waiting) + DelayedAdds(ToEnqueue(view, storageClassNames, pvs[..i]), pvcDeletionDelay)
        invariant events == old(events) + Warnings(ToEnqueue(view, storageClassNames, pvs[..i]))
        invariant pvQueue.queue == old(pvQueue.queue) && pvQueue.retrying == old(pvQueue.retrying)
        invariant pvQueue.failures == old(pvQueue.failures) && pvQueue.processing == old(pvQueue.processing)
        invariant pvQueue.shuttingDown == old(pvQueue.shuttingDown)
      {
        var pv := pvs[i];
        TimerStep(view, storageClassNames, pvs, i, pvcDeletionDelay);
        ghost var before := ToEnqueue(view, storageClassNames, pvs[..i]);
        var nodeName := NodeAttachedToLocalPV(Some(pv));
        if nodeName.None? {
          continue;
        }
        var shouldEnqueue := ShouldEnqueueEntry(view, storageClassNames, pv, nodeName.value);
        if shouldEnqueue.Err? {
          continue;
        }
        if shouldEnqueue.value {
          events := events + [Event(pv.claimRef, "Warning", "ReferencedNodeDeleted")];
          pvQueue.AddAfter(PVName(pv.name), pvcDeletionDelay);
        }
      }
      assert pvs[..|pvs|] == pvs;
    }
  }

  /**
   * A volume whose affinity does not resolve to a single node is never
   * deleted and never retried: its sync ends without an error, so the key is forgotten.
   */
  lemma UnresolvableNeverRetried(view: ClusterView, pvName: string, pv: PersistentVolume)
    requires GetPV(view, pvName) == Found(pv)
    requires NodeAttachedToLocalPV(Some(pv)).None?
    ensures SyncHandler(view, pvName) == SyncOutcome(None, None)
    ensures forall classNames :: !Enqueues(view, classNames, pv)
  {
  }
}
