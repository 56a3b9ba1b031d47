# Local static provisioner: a Dafny model of its core

The local static provisioner runs on each Kubernetes node. It turns the disks
and mount points it finds under configured discovery directories into local
PersistentVolumes (PVs) pinned to that node, and it cleans up after nodes that
have gone away. This project models, in Dafny, the parts of it that make
decisions:

- **Discovery** (`discovery.dfy`). It builds the discoverer: the label merge,
  the owner reference and the node affinity. It then runs the per-class pass
  over the directory entries. Each entry goes through the gate chain: name
  pattern, volume mode, cached name, host path in use, cleanup in progress,
  status removal, mount options, block or filesystem capacity and mount
  point. Surviving entries get a create call. The model also covers the
  readiness flag the pass sets, the FNV-1a based volume name, and the "pretty"
  capacity rounding.
- **Volume cache and populator** (`cache.dfy`, `populator.dfy`). The
  informer handlers keep the cache in step with the PVs this provisioner
  created. This includes the provisioner's own name.
- **PVC cleanup controller** (`cleanup_controller.dfy`). When a node is
  deleted, claims bound to its local volumes are put on a work queue after a
  delay. Processing a queued name deletes the claim only if the node is still
  gone.
- **Stale PV deleters** (`deleters.dfy`). The node-cleanup and cleanup
  deleters delete Available or Released local PVs whose node is gone.
- **Node taint remover** (`node_taint.dfy`). It removes the "provisioner not
  ready" taint from the node once, retrying up to three times.
- **Node names of a local PV** (`volume_util.dfy`). This is the union over
  selector terms of the intersection of their `hostname In` expressions.
- **The fake host** (`fake_volume_util.dfy`). This is the in-memory volume
  utility the provisioner's unit tests run against. It is the host model the
  discovery pass reads.
- **Collaborators** (`common.dfy`, `api.dfy`, `strings.dfy`, `wrappers.dfy`).
  These hold the object shapes, the helpers of the `common` package, and
  string, path and ordering utilities.

Go semantics are written out where they matter:

- `int64` division truncates toward zero (`Discovery.Quo`).
- The FNV hash multiplies modulo 2^32 (`bv32`).
- Go strings are hashed as their UTF-8 bytes (`Strings.Utf8`).
- Iteration over a Go map has no fixed order: the model iterates with `:|`,
  and every contract holds whichever order is picked.

The API server, listers, clock, random backoff and mount table are
parameters:

- a `ClusterView` or `DeleterView` of listed objects and of the answer each
  call would get;
- an `Attempt` oracle that gives the node read and the update outcome of each
  try;
- a `PassEnv` that holds the storage classes, the cleanup tracker, the mount
  table, the glob matcher and the create calls that fail.

## Model

| member | source | states |
|---|---|---|
| Cache.VolumeCache.constructor | pkg/populator/populator.go:28-31 | A new cache holds no volumes. |
| Cache.VolumeCache.GetPV | pkg/populator/populator.go:67 | A lookup finds a volume iff its name is cached, and returns the cached object. |
| Cache.VolumeCache.LookupPVsByPath | pkg/discovery/discovery.go:314-320 | Returns exactly the cached names whose host path equals the given path. |
| Cache.VolumeCache.AddPV | pkg/populator/populator.go:84 | The volume is stored under its name; every other entry is unchanged. |
| Cache.VolumeCache.UpdatePV | pkg/populator/populator.go:69 | The cached entry for the name is replaced by the new object; no other entry changes. |
| Cache.VolumeCache.DeletePV | pkg/populator/populator.go:94 | The name is removed and nothing else changes. |
| Populator.ProvisionerName | pkg/controller/controller.go:49-54 | The name always starts with "local-volume-provisioner-" plus the node name. It is exactly that long iff only the node name is used; otherwise the rest is "-" followed by the node UID. |
| Populator.UpdateReplacesCached | pkg/populator/populator.go:66-69 | An update of a cached name replaces the entry and keeps the key set. |
| Populator.UncachedEntersIffProvisioned | pkg/populator/populator.go:70-86 | An uncached volume enters the cache iff it has annotations naming this provisioner: by equality, or by prefix when only the node name is used. With no annotations the cache is unchanged. |
| Populator.UpdateTouchesOnlyItsName | pkg/populator/populator.go:66-88 | An update never adds, removes or changes any other name. |
| Populator.DeleteRemovesExactly | pkg/populator/populator.go:90-96 | A delete removes exactly that name; deleting an uncached name changes nothing. |
| Populator.OldStyleNameAdmitted | pkg/populator/populator.go:76-85 | With only the node name in use, volumes created under the older name-plus-UID form are still admitted. |
| Populator.PrefixAdmitsLongerNodeName | pkg/populator/populator.go:82 | The prefix test also admits a volume of another node whose name extends this node's name (node "n1" admits volumes of "n10"). |
| Populator.Populator.constructor | pkg/populator/populator.go:34-35 | The populator holds the given cache, provisioner name and flag. |
| Populator.Populator.HandlePVUpdate | pkg/populator/populator.go:66-88 | The cache becomes the update of the old cache by the volume, as described by the lemmas above. |
| Populator.Populator.HandlePVDelete | pkg/populator/populator.go:90-96 | The cache loses exactly the volume's name. |
| Populator.Populator.OnAdd | pkg/populator/populator.go:38-45 | A volume object is handled as an update; any other object leaves the cache unchanged. |
| Populator.Populator.OnUpdate | pkg/populator/populator.go:46-53 | The new object, if a volume, is handled as an update; otherwise nothing changes. |
| Populator.Populator.OnDelete | pkg/populator/populator.go:54-61 | A volume object is removed by name; any other object changes nothing. |
| VolumeUtil.TermNodesMeaning | pkg/util/volume_util.go:103-112 | A term yields a node set iff it has a `hostname In` expression. That set is exactly the names listed in every such expression. |
| VolumeUtil.TermsNodesMeaning | pkg/util/volume_util.go:102-114 | A name is in the result iff some term contributes it. |
| VolumeUtil.NodeNamesComeFromHostnameIn | pkg/util/volume_util.go:102-114 | Every resulting name is listed in a `hostname In` expression of some term. |
| VolumeUtil.GetLocalPersistentVolumeNodeNames | pkg/util/volume_util.go:96-117 | The result is nil iff the volume, its affinity or its required part is nil. Otherwise it is strictly sorted, with no duplicates, and holds exactly the union of the terms' intersections. |
| FakeVolumeUtil.FirstIndex | pkg/util/fake_volume_util.go:71-79 | Returns the first entry with the name, or -1 when there is none. |
| FakeVolumeUtil.EntryNames | pkg/util/fake_volume_util.go:107-109 | The names of the entries, in order. |
| FakeVolumeUtil.JoinedAddOne | pkg/util/fake_volume_util.go:153-154 | Joining one more directory adds exactly its joined path. |
| FakeVolumeUtil.AppendOneMore | pkg/util/fake_volume_util.go:153-161 | One loop step appends the directory's files to its joined path and keeps the invariant over the directories done. |
| FakeVolumeUtil.FakeVolumeUtil.constructor | pkg/util/fake_volume_util.go:55-61 | The fake holds the given listing and delete-failure flag. |
| FakeVolumeUtil.FakeVolumeUtil.IsDir | pkg/util/fake_volume_util.go:63-81 | Succeeds, with true, iff the parent directory is listed and the first entry of that name is a file. Never a plain false. |
| FakeVolumeUtil.FakeVolumeUtil.IsBlock | pkg/util/fake_volume_util.go:84-98 | Succeeds iff the parent directory lists the name. The answer is whether the first such entry is a block entry. |
| FakeVolumeUtil.FakeVolumeUtil.ReadDir | pkg/util/fake_volume_util.go:101-111 | Succeeds iff the path is listed, and returns the entry names in order. |
| FakeVolumeUtil.FakeVolumeUtil.GetDirEntryCapacity | pkg/util/fake_volume_util.go:122-148 | Succeeds iff the first entry of that name exists and has the requested type, and returns its capacity. |
| FakeVolumeUtil.FakeVolumeUtil.IsLikelyMountPoint | pkg/util/fake_volume_util.go:165-171 | True iff the mount path is in the mount table; an error otherwise. |
| FakeVolumeUtil.FakeVolumeUtil.DeleteContents | pkg/util/fake_volume_util.go:114-119 | Fails iff the fake was built to fail deletes. |
| FakeVolumeUtil.FakeVolumeUtil.AddNewDirEntries | pkg/util/fake_volume_util.go:152-162 | Each given directory's files are appended to the listing under the mount-joined path; all other listings are unchanged. |
| Common.NodeAttachedToLocalPV | pkg/common/common_test.go:525-570 | Names a node iff the volume's node-name set is a single name, and then names that one. |
| Common.AttachedIffSingleton | pkg/common/common_test.go:525-570 | The volume is attached to `n` iff its node names are exactly `{n}`. |
| Common.NodeAttachedExamples | pkg/common/common_test.go:525-570 | The test cases: one name; no name; two names; a wrong label key. |
| Common.IsLocalPVWithStorageClassExamples | pkg/common/common_test.go:571-642 | The test cases of the local-and-class check. |
| Common.NodeExists | pkg/common/common_test.go:480-524 | Errs iff listing fails. Otherwise true iff some node carries the hostname label with that value. |
| Common.NodeExistsExamples | pkg/common/common_test.go:480-524 | The two test cases: a labelled node is found; an empty store finds nothing. |
| Common.GetVolumeMode | pkg/common/common_test.go:431-479 | Filesystem iff the path is a directory. Block iff it is not but is a block device. An error otherwise. |
| Common.VolumeModeOfEntry | pkg/common/common_test.go:431-479 | Against the fake host: a file entry gives filesystem, a block entry gives block, and anything else is an error. |
| Common.GetVolumeModeFileExample | pkg/common/common_test.go:431-479 | Test case: a file entry is a filesystem volume. |
| Common.GetVolumeModeBlockExample | pkg/common/common_test.go:431-479 | Test case: a block entry is a block volume. |
| Common.GetVolumeModeMissingExample | pkg/common/common_test.go:431-479 | Test case: a missing entry is an error. |
| Strings.LeReflexive | pkg/util/volume_util.go:116 | The ordering that `sets.List` sorts by is reflexive. |
| Strings.LeTotal | pkg/util/volume_util.go:116 | The ordering is total. |
| Strings.LeAntisymmetric | pkg/util/volume_util.go:116 | The ordering is antisymmetric. |
| Strings.LeTransitive | pkg/util/volume_util.go:116 | The ordering is transitive. |
| Strings.LeastExists | pkg/util/volume_util.go:116 | Every non-empty set of names has a least element. |
| Strings.StrictlySortedUnique | pkg/util/volume_util.go:116 | Two strictly sorted lists with the same elements are equal, so the sorted listing of a set is unique. |
| Strings.SortedList | pkg/util/volume_util.go:116 | Returns a strictly sorted list holding exactly the set's elements. |
| Strings.LastIndexOf | pkg/util/fake_volume_util.go:64 | The last position of the character, or -1 when it does not occur. |
| Strings.JoinSplitRoundTrip | pkg/util/fake_volume_util.go:64-65 | Splitting a joined directory and slash-free name gives back the directory and the name. |
| Strings.JoinInjective | pkg/discovery/discovery.go:314 | Distinct slash-free names joined to one directory give distinct paths. |
| Strings.Utf8Char | pkg/discovery/discovery.go:394-396 | A character encodes to one to four bytes. |
| Strings.Utf8Append | pkg/discovery/discovery.go:394-396 | Encoding distributes over concatenation. |
| Discovery.FnvWriteAppend | pkg/discovery/discovery.go:393-397 | Writing `a` and then `b` into the hash equals writing `a + b`. |
| Discovery.Hex | pkg/discovery/discovery.go:398 | The `%x` rendering has at least one digit. |
| Discovery.ParseHexRoundTrip | pkg/discovery/discovery.go:398 | The `%x` rendering is injective: parsing it gives back the number. |
| Discovery.PVNameOfConcatenation | pkg/discovery/discovery.go:392-399 | The name is "local-pv-" plus the hex hash of `file + node + class`, and the hash can be read back from the name. |
| Discovery.PVNamesCollideIffHashesDo | pkg/discovery/discovery.go:392-399 | Two entries get the same name iff their concatenations hash alike, so equal concatenations always collide. |
| Discovery.RoundDownCapacityPretty | pkg/discovery/discovery.go:447-461 | The loop over [GiB, MiB] returns the pretty capacity: the first unit that leaves at least 10 whole units, with truncating division, else the input. |
| Discovery.PrettyCapacityGiB | pkg/discovery/discovery.go:453-458 | At or above 10 GiB, the result is a multiple of GiB within one GiB below the input. |
| Discovery.PrettyCapacityMiB | pkg/discovery/discovery.go:453-458 | From 10 MiB up to 10 GiB, the result is a multiple of MiB within one MiB below the input. |
| Discovery.PrettyCapacitySmall | pkg/discovery/discovery.go:460 | Below 10 MiB, the capacity is unchanged. |
| Discovery.PrettyCapacityBounds | pkg/discovery/discovery.go:447-461 | The result never exceeds the input and is non-negative for non-negative input, with the three ranges above. |
| Discovery.PrettyCapacityExamples | pkg/discovery/discovery_test.go:695-721 | Fourteen worked cases of the rounding. |
| Discovery.GenerateOwnerReference | pkg/discovery/discovery.go:146-161 | Errs iff the node has no name or no UID. Otherwise a v1 Node reference with that name and UID. |
| Discovery.GenerateNodeAffinity | pkg/discovery/discovery.go:163-187 | Errs iff the node has no hostname label. Otherwise one required term: `hostname In [label]`. |
| Discovery.GenerateVolumeNodeAffinity | pkg/discovery/discovery.go:189-213 | The same, in the volume-affinity form. |
| Discovery.GeneratedAffinityPinsNode | pkg/discovery/discovery.go:189-213 | A volume carrying the generated affinity is attached to exactly the node's hostname. |
| Discovery.MergedLabelsUnique | pkg/discovery/discovery.go:90-101 | The description of the merged labels fixes the map uniquely. |
| Discovery.MergeLabels | pkg/discovery/discovery.go:90-101 | The map holds the listed node labels the node has, overlaid by the configured extra labels. |
| Discovery.NewDiscoverer | pkg/discovery/discovery.go:80-143 | Fails iff the owner reference or the chosen affinity cannot be built. On success the discoverer carries the merged labels, that owner reference and the alpha or volume affinity, and is not yet ready. |
| Discovery.AdvanceCleanIff | pkg/discovery/discovery.go:279-383 | One loop step leaves no error iff there was none and the outcome records none. |
| Discovery.Record | pkg/discovery/discovery.go:295-382 | The bookkeeping of one entry: errors are appended, and a successful create adds its volume. |
| Discovery.AdvanceCreated | pkg/discovery/discovery.go:379-382 | A step adds a volume only for a create outcome whose call succeeds. |
| Discovery.Discoverer.constructor | pkg/discovery/discovery.go:135-143 | The discoverer holds the given settings and is not ready. |
| Discovery.Discoverer.AbortedStays | pkg/discovery/discovery.go:282-286 | Once the pattern is malformed the pass is stopped, and later entries change nothing. |
| Discovery.Discoverer.ScanEntriesSnoc | pkg/discovery/discovery.go:281-383 | The pass over one more entry is one step after the pass over the prefix. |
| Discovery.Discoverer.ScanFiles | pkg/discovery/discovery.go:279-383 | The loop over the entries ends in the state the per-entry specification gives, including the early return on a bad pattern. |
| Discovery.Discoverer.DiscoverVolumesAtPath | pkg/discovery/discovery.go:250-390 | Returns the class pass: policy, directory and mount-table failures first, then the entry loop, then an error iff some entry recorded one. |
| Discovery.Discoverer.Passes | pkg/discovery/discovery.go:216-224 | One pass result per configured class, and each class's result is that class's own pass. |
| Discovery.Discoverer.PassOverClasses | pkg/discovery/discovery.go:216-224 | In any map order: ready iff every class's pass returned no error, and the volumes created are exactly those of all passes. |
| Discovery.Discoverer.DiscoverLocalVolumes | pkg/discovery/discovery.go:216-228 | The readiness flag becomes true iff every class's pass succeeded; the created volumes are those of all passes. |
| Discovery.Discoverer.CachedNameNeverCreates | pkg/discovery/discovery.go:299-310 | An entry whose name is cached is never created. It is an error only when its mode is unreadable or a cached block volume is now a filesystem. |
| Discovery.Discoverer.PathInUseSkipped | pkg/discovery/discovery.go:312-320 | A new name whose host path a cached volume uses is skipped without error. |
| Discovery.Discoverer.CleaningSkipped | pkg/discovery/discovery.go:322-329 | A volume still being cleaned is skipped. The tracker is asked about the job for block devices when jobs clean, and about the process otherwise. |
| Discovery.Discoverer.CreateOnlyWhenGatesPass | pkg/discovery/discovery.go:282-336 | A create happens only when: the pattern matches; the generated name is uncached; the host path is unused; cleaning is not in progress; the old status was removed. |
| Discovery.Discoverer.CreateCarriesSettings | pkg/discovery/discovery.go:401-431 | The create carries the class, policy, mount options, provisioner name, labels, volume mode, owner reference, owner-ref flag and affinity. It sets an fs type iff one is configured. |
| Discovery.Discoverer.CreatedBlockCapacity | pkg/discovery/discovery.go:344-357 | A block volume's capacity is the device's capacity, rounded down prettily. |
| Discovery.Discoverer.CreatedFsCapacity | pkg/discovery/discovery.go:358-373 | A filesystem volume needs a class not in block mode and an actual mount point. Its capacity is the filesystem's, rounded down. |
| Discovery.Discoverer.FsGateFailureRecorded | pkg/discovery/discovery.go:358-367 | A directory that passed the earlier gates records an error, and is not created, when the class asks for block volumes or the path is not an actual mount point. |
| Discovery.Discoverer.ScanCreatesOnlyFromEntries | pkg/discovery/discovery.go:281-383 | Every created volume comes from an entry's create outcome whose API call succeeded. |
| Discovery.Discoverer.ScanCleanIff | pkg/discovery/discovery.go:279-389 | The loop ends without error iff every entry's outcome is clean. |
| Discovery.Discoverer.ClassScanSucceedsIff | pkg/discovery/discovery.go:250-389 | A class pass succeeds iff: the class is known with Retain or Delete; the directory and mount table can be read; every entry is clean. |
| Discovery.Discoverer.ClassScanCreatesOnlyNew | pkg/discovery/discovery.go:299-382 | Every created volume has an uncached name, an unused host path, the pass's class and a create call that succeeded. |
| CleanupController.FindPV | pkg/cleanup/controller/controller.go:183 | Finds a listed volume of that name, or reports that none exists. |
| CleanupController.FindClaim | pkg/cleanup/controller/controller.go:215 | Finds the claim with that namespace and name, or reports that none exists. |
| CleanupController.DeletePVC | pkg/cleanup/controller/controller.go:289-297 | Succeeds unless the API server rejects the delete; an already-deleted claim counts as success. |
| CleanupController.SyncDeletesIff | pkg/cleanup/controller/controller.go:182-238 | A claim is deleted iff: the volume exists; it resolves to one node; that node is gone; it has a claim reference; the claim exists and still names the volume. The deleted claim is the referenced one. |
| CleanupController.NodeBackNoDelete | pkg/cleanup/controller/controller.go:201-208 | If the node is back, nothing is deleted and nothing is retried. |
| CleanupController.SyncErrorIff | pkg/cleanup/controller/controller.go:182-238 | Errs iff the volume lookup, the node list, the claim lookup or the claim delete fails, other than by absence. |
| CleanupController.AbsenceIsSuccess | pkg/cleanup/controller/controller.go:183-223 | A vanished volume, an unresolvable affinity or a vanished claim ends the sync without error. |
| CleanupController.ShouldEnqueueEntry | pkg/cleanup/controller/controller.go:278-285 | True iff the volume is local, of a listed class, has a claim, and its node is gone. An error iff it gets that far and the node list fails. |
| CleanupController.ToEnqueueMeaning | pkg/cleanup/controller/controller.go:253-272 | A listed volume is enqueued iff it resolves to a node and the enqueue check says yes. Never more than were listed. |
| CleanupController.DelayedAdds | pkg/cleanup/controller/controller.go:270 | One delayed add per enqueued volume. |
| CleanupController.Warnings | pkg/cleanup/controller/controller.go:268 | One warning event per enqueued volume. |
| CleanupController.TimerEffectsMeaning | pkg/cleanup/controller/controller.go:266-271 | The i-th enqueued volume gets a ReferencedNodeDeleted warning on its claim and an add of its name after the delay. |
| CleanupController.TimerStep | pkg/cleanup/controller/controller.go:253-272 | One loop step extends the enqueued prefix by the volume iff it is enqueued. |
| CleanupController.WorkQueue.constructor | pkg/cleanup/controller/controller.go:74 | A new queue is empty and not shutting down. |
| CleanupController.WorkQueue.AddAfter | pkg/cleanup/controller/controller.go:270 | A delayed add is recorded; nothing else changes. |
| CleanupController.WorkQueue.AddRateLimited | pkg/cleanup/controller/controller.go:171 | The key is scheduled for retry and its failure count grows by one. |
| CleanupController.WorkQueue.Forget | pkg/cleanup/controller/controller.go:159-176 | The key's failure count is cleared. |
| CleanupController.WorkQueue.Done | pkg/cleanup/controller/controller.go:157 | The key is no longer in processing. |
| CleanupController.WorkQueue.Get | pkg/cleanup/controller/controller.go:153-156 | Takes the head of the queue into processing, or reports shutdown when the queue is empty. |
| CleanupController.WorkQueue.DelayElapsed | pkg/cleanup/controller/controller.go:270 | A delayed add whose time has come moves to the queue's tail. |
| CleanupController.WorkQueue.RetryDue | pkg/cleanup/controller/controller.go:171 | A retry whose backoff has passed moves to the queue's tail. |
| CleanupController.WorkQueue.ShutDown | pkg/cleanup/controller/controller.go:153-156 | Marks the queue as shutting down. |
| CleanupController.CleanupController.constructor | pkg/cleanup/controller/controller.go:74 | A controller with the given classes and delay, an empty fresh queue and no events. |
| CleanupController.CleanupController.ProcessNextWorkItem | pkg/cleanup/controller/controller.go:152-178 | Returns false iff the queue was empty at shutdown, and then the queue stays empty and nothing else changes. Otherwise: the head is synced; it is re-added rate-limited iff the sync erred, else forgotten; it is marked done; the deleted claim is reported. |
| CleanupController.CleanupController.StartCleanupTimersIfNeeded | pkg/cleanup/controller/controller.go:246-273 | Does nothing if listing fails. Otherwise each volume to enqueue, in listing order, gets one warning and one delayed add. |
| CleanupController.UnresolvableNeverRetried | pkg/cleanup/controller/controller.go:193-258 | A volume whose affinity does not resolve to one node is neither enqueued nor retried. |
| NodeCleanupDeleter.ReferencesNonExistentNode | pkg/node-cleanup/deleter/deleter.go:125-133 | Errs iff the affinity does not resolve or the node list fails. Otherwise true iff the node is gone. |
| NodeCleanupDeleter.DeletePV | pkg/node-cleanup/deleter/deleter.go:135-143 | Succeeds unless the API server rejects the delete; not-found is success. |
| NodeCleanupDeleter.DeleteCallsStep | pkg/node-cleanup/deleter/deleter.go:80-110 | One loop step appends the volume's name iff it should be deleted. |
| NodeCleanupDeleter.FailedDeletesStep | pkg/node-cleanup/deleter/deleter.go:104-108 | One delete call adds a failure iff the server rejects it. |
| NodeCleanupDeleter.DeleteCallsMeaning | pkg/node-cleanup/deleter/deleter.go:80-110 | A name gets a delete call iff a listed volume of that name is local, of a listed class, pinned to one node that is gone, and Available or Released with policy Delete. |
| NodeCleanupDeleter.DeleteCallsDistinct | pkg/node-cleanup/deleter/deleter.go:80-110 | Distinct listed names give distinct delete calls. |
| NodeCleanupDeleter.FailedDeletesMeaning | pkg/node-cleanup/deleter/deleter.go:104-108 | The failures are exactly the calls the server rejects. |
| NodeCleanupDeleter.LiveOrUnresolvedNeverDeleted | pkg/node-cleanup/deleter/deleter.go:86-94 | A volume whose node exists or cannot be resolved is never deleted. |
| NodeCleanupDeleter.StaleDeletedIffPhase | pkg/node-cleanup/deleter/deleter.go:96-102 | With its node gone, a local volume of a listed class is deleted iff it is Available, or Released with policy Delete. |
| NodeCleanupDeleter.Deleter.constructor | pkg/node-cleanup/deleter/deleter.go:48 | The deleter holds the given classes. |
| NodeCleanupDeleter.Deleter.DeletePVs | pkg/node-cleanup/deleter/deleter.go:73-111 | No calls if listing fails. Otherwise the calls are exactly the spec's delete calls in listing order, and the failures exactly the rejected ones. |
| CleanupDeleter.SingleClassIsOneElementList | pkg/cleanup/deleter/deleter.go:49 | The single-class check equals the list check on a one-element list. |
| CleanupDeleter.Deleter.constructor | pkg/cleanup/deleter/deleter.go:30-37 | The deleter holds the given class. |
| CleanupDeleter.Deleter.DeletePVs | pkg/cleanup/deleter/deleter.go:41-108 | The same delete calls and failures as the node-cleanup deleter, for the one class. |
| NodeTaint.WithoutKeyAppend | pkg/node-taint/node_taint.go:63-69 | The filter works piecewise over concatenation, so order is kept. |
| NodeTaint.WithoutKeyMembers | pkg/node-taint/node_taint.go:63-69 | A taint remains iff it was present and does not have the key. |
| NodeTaint.WithoutKeyShrinksIff | pkg/node-taint/node_taint.go:63-69 | The list never grows, and shrinks iff some taint has the key. |
| NodeTaint.WithoutKeyIdempotent | pkg/node-taint/node_taint.go:63-69 | Filtering twice equals filtering once. |
| NodeTaint.WithoutKeyKeepsKeyless | pkg/node-taint/node_taint.go:63-74 | With no taint of that key, the list is unchanged. |
| NodeTaint.BackoffFailedStep | pkg/node-taint/node_taint.go:97-107 | A failed try is followed by the run from the next try. |
| NodeTaint.BackoffLastStep | pkg/node-taint/node_taint.go:97-101 | A successful try ends the run. |
| NodeTaint.BackoffAfterFailures | pkg/node-taint/node_taint.go:94-111 | After k failed tries, the whole run is those tries followed by the run from try k. |
| NodeTaint.BackoffBounded | pkg/node-taint/node_taint.go:31-112 | At most three tries and at least one. Every try before the last failed, and the last succeeded if fewer than three were made. The taint is removed iff the last read had it and its update succeeded. |
| NodeTaint.Remover.constructor | pkg/node-taint/node_taint.go:43-48 | A new remover has not removed the taint and has sent no update. |
| NodeTaint.Remover.RemoveNodeTaint | pkg/node-taint/node_taint.go:52-91 | Disabled or already done: nothing happens. No taint with the key: no update, no error. Otherwise the node without that taint is sent; removal is recorded iff the update succeeds, and an error is returned iff it fails. |
| NodeTaint.Remover.RemoveTaintWithBackoff | pkg/node-taint/node_taint.go:89-112 | Disabled or done: no tries. Otherwise the tries, updates and final flag are those of the bounded backoff run above. |

## Left out

- The metrics (discovered capacities, discovery counters and durations,
  delete-failure and API request counters) are left out; they do not affect
  decisions.
- Events the discoverer records through its Recorder are left out. This
  includes the volume-mode mismatch warning; its error is recorded.
- Logging is left out.
- The alpha-annotation conversion (`StorageNodeAffinityToAlphaAnnotation`,
  `GetStorageNodeAffinityFromAnnotation`, a JSON encoding) is left out. The
  alpha affinity is kept as its NodeAffinity value, so the conversion's own
  error path is not modelled.
- Go's `filepath.Join`, `Split` and `Clean` are modelled only for a directory
  without a trailing slash and a slash-free name, by `Strings.Join` and
  `Strings.SplitClean`.
- `filepath.Match` is a parameter of the pass.
- The mount options lookup after the class lookup is modelled as the class's
  options. Its error path cannot be taken once the first lookup succeeded in
  the same pass.
- `GetVolumeMode`'s source is not part of this model. It is defined by its
  tests; its remaining branches are not reachable with the fake host.
- The cleanup tracker's `RemoveStatus` is modelled only by whether it
  reports an error. What it removes is not modelled.
- The sources of the volume cache, the cleanup status tracker and the API
  utility are not part of this model. Their behaviour is taken from their
  call sites.
- The discovery pass calls the fake's `GetFsCapacityByte` with the file path
  for both of its path parameters.
- `GetNode`'s three retries with one-second sleeps and its fatal exit are
  left out. The node each try reads is a parameter (`Attempt.node`).
- `RemoveTaintWithBackoff`'s randomized sleep between tries is left out;
  time is not modelled.
- The readiness mutex and the readyz HTTP handler are left out. The flag is
  a field written once per pass.
- Informer tombstones (`DeletedFinalStateUnknown`) are treated like any other
  non-volume object, as the handlers do.
- The informer, lister and clientset wiring is left out.
- The `Run` and `runWorker` loops, worker concurrency and the node-deletion
  handler are left out.
- The work queue is modelled by its visible effects: FIFO order, a delayed
  add list, a retry multiset, failure counts and processing. Deduplication of
  keys already queued and the rate limiter's backoff durations are left out.
- `WorkQueue.Get` does not block: it is called only when the queue is
  non-empty or shutting down.
- `NodeTaint.Remover.ShouldRemoveTaint` is a predicate without a contract of
  its own. Its meaning is stated in the contracts of `RemoveNodeTaint` and
  `RemoveTaintWithBackoff`.
- Both deleters return the names of the deletes that failed. The Go code
  only logs them; the node-cleanup deleter also counts them in a metric.
- No volume name is evaluated for a fixed input, as a literal FNV test
  vector would be. The names are modelled by the hash's definition and the
  lemmas above.
