/**
 * The helpers of the provisioner's `common` package that the modelled code
 * calls.  Their own source is not part of this model: each is defined here
 * by what its unit tests in pkg/common/common_test.go pin down, and each
 * carries those test cases as lemmas.
 */
module Common {
  import opened Wrappers
  import opened Api
  import opened Strings
  import opened VolumeUtil
  import FakeVolumeUtil

  /** A finite set of size one has exactly one element. */
  lemma SingletonHasOneElement(s: set<string>)
    requires |s| == 1
    ensures exists x :: s == {x}
    ensures forall a, b | a in s && b in s :: a == b
  {
    var x :| x in s;
    assert |s - {x}| == 0;
    assert s == {x};
  }

  /**
   * The single node a local volume is pinned to: present iff the node-name
   * list of its affinity has exactly one entry.
   */
  function NodeAttachedToLocalPV(pv: Option<PersistentVolume>): (r: Option<string>)
    ensures r.Some? ==> LocalPVNodeNames(pv) == Some({r.value})
    ensures r.None? ==> LocalPVNodeNames(pv).None? || |LocalPVNodeNames(pv).value| != 1
  {
    var names := LocalPVNodeNames(pv);
    if names.None? || |names.value| != 1 then None
    else
      SingletonHasOneElement(names.value);
      var n :| n in names.value;
      Some(n)
  }

  /** A volume is attached to `n` exactly when its affinity resolves to the one-element set `{n}`. */
  lemma AttachedIffSingleton(pv: Option<PersistentVolume>, n: string)
    ensures NodeAttachedToLocalPV(pv) == Some(n) <==> LocalPVNodeNames(pv) == Some({n})
  {
    if LocalPVNodeNames(pv) == Some({n}) {
      assert |LocalPVNodeNames(pv).value| == 1;
      var r := NodeAttachedToLocalPV(pv);
      assert r.Some? && {r.value} == {n};
      assert r.value in {n};
    }
  }

  /** The affinity the tests build: one term, one `In` expression on `key` listing `names`. */
  function SingleTermAffinity(names: seq<string>, key: string): PersistentVolume {
    PersistentVolume("", None, map[], false, "", "", Delete, None, None,
                     Some(VolumeNodeAffinity(Some([NodeSelectorTerm([NodeSelectorRequirement(key, In, names)])]))), Pending)
  }

  /** The four cases of TestNodeAttachedToLocalPV: one name, no name, two names, a wrong label key. */
  lemma NodeAttachedExamples()
    ensures NodeAttachedToLocalPV(Some(SingleTermAffinity(["testNodeName"], LabelHostname))) == Some("testNodeName")
    ensures NodeAttachedToLocalPV(Some(SingleTermAffinity([], LabelHostname))).None?
    ensures NodeAttachedToLocalPV(Some(SingleTermAffinity(["testNodeName", "newNode"], LabelHostname))).None?
    ensures NodeAttachedToLocalPV(Some(SingleTermAffinity(["testNodeName"], "wrongLabel"))).None?
  {
    var one := [NodeSelectorRequirement(LabelHostname, In, ["testNodeName"])];
    assert one[..0] == [];
    assert ValueSet(["testNodeName"]) == {"testNodeName"};
    AttachedIffSingleton(Some(SingleTermAffinity(["testNodeName"], LabelHostname)), "testNodeName");
    var two := ["testNodeName", "newNode"];
    assert "testNodeName" in ValueSet(two) && "newNode" in ValueSet(two);
    assert |ValueSet(two)| == 2 by {
      assert ValueSet(two) == {"testNodeName", "newNode"};
    }
    var wrong := [NodeSelectorRequirement("wrongLabel", In, ["testNodeName"])];
    assert wrong[..0] == [];
    assert !IsHostnameIn(wrong[0]);
  }

  /** A local volume whose storage class is one of `classNames`. */
  predicate IsLocalPVWithStorageClass(pv: PersistentVolume, classNames: seq<string>) {
    pv.isLocal && pv.storageClass in classNames
  }

  /** The five cases of TestIsLocalPVWithStorageClass. */
  lemma IsLocalPVWithStorageClassExamples(pv: PersistentVolume)
    requires pv.storageClass == "testStorageClassName"
    ensures pv.isLocal ==> IsLocalPVWithStorageClass(pv, ["testStorageClassName"])
    ensures pv.isLocal ==> IsLocalPVWithStorageClass(pv, ["testStorageClassName", "alternative"])
    ensures !IsLocalPVWithStorageClass(pv.(storageClass := "wrongName"), ["testStorageClassName"])
    ensures !IsLocalPVWithStorageClass(pv, [])
    ensures !pv.isLocal ==> !IsLocalPVWithStorageClass(pv, ["testStorageClassName"])
  {
  }

  /** The node informer's lister: the cached nodes, and whether listing them fails. */
  datatype NodeLister = NodeLister(nodes: seq<Node>, listFails: bool)

  /** The value of a node's hostname label, if it has one. */
  function HostnameLabel(node: Node): Option<string> {
    if node.labels.Some? && LabelHostname in node.labels.value then Some(node.labels.value[LabelHostname])
    else None
  }

  /**
   * Whether some cached node carries the hostname label `nodeName`; the
   * lookup selects by label, not by object name.
   */
  function NodeExists(lister: NodeLister, nodeName: string): (r: Result<bool>)
    ensures r.Err? <==> lister.listFails
    ensures r.Ok? ==> (r.value <==> exists node :: node in lister.nodes && HostnameLabel(node) == Some(nodeName))
  {
    if lister.listFails then Err("listing nodes failed")
    else Ok(exists i :: 0 <= i < |lister.nodes| && HostnameLabel(lister.nodes[i]) == Some(nodeName))
  }

  /** The two cases of TestNodeExists: a node carrying the label is found; an empty store finds nothing. */
  lemma NodeExistsExamples(node: Node)
    requires node.labels == Some(map[LabelHostname := "test-node"])
    ensures NodeExists(NodeLister([node], false), "test-node") == Ok(true)
    ensures NodeExists(NodeLister([], false), "test-node") == Ok(false)
  {
    assert HostnameLabel(node) == Some("test-node");
  }

  /**
   * The volume mode of a discovered path: a directory is a filesystem volume,
   * otherwise a block device is a block volume, otherwise the directory
   * check's error (the fake's directory check never answers a plain "no").
   */
  function GetVolumeMode(util: FakeVolumeUtil.FakeVolumeUtil, fullPath: string): (r: Result<VolumeMode>)
    reads util
    ensures r.Ok? ==> r.value == Filesystem || r.value == Block
    ensures r == Ok(Filesystem) <==> util.IsDir(fullPath) == Ok(true)
    ensures r == Ok(Block) <==> util.IsDir(fullPath) != Ok(true) && util.IsBlock(fullPath) == Ok(true)
  {
    var isDir := util.IsDir(fullPath);
    if isDir.Ok? then Ok(Filesystem)
    else if util.IsBlock(fullPath) == Ok(true) then Ok(Block)
    else Err("directory check failed: " + isDir.msg)
  }

  /**
   * Against the fake host, the mode is decided by the first entry of that
   * name: a file entry is a filesystem volume, a block entry a block volume,
   * and anything else (an unknown entry, a missing entry or directory) an error.
   */
  lemma VolumeModeOfEntry(util: FakeVolumeUtil.FakeVolumeUtil, fullPath: string)
    ensures
      var (dir, file) := SplitClean(fullPath);
      var found := dir in util.directoryFiles && FakeVolumeUtil.FirstIndex(util.directoryFiles[dir], file) >= 0;
      var kind := if found then util.directoryFiles[dir][FakeVolumeUtil.FirstIndex(util.directoryFiles[dir], file)].volumeType else "";
      && (GetVolumeMode(util, fullPath) == Ok(Filesystem) <==> found && kind == FakeVolumeUtil.FakeEntryFile)
      && (GetVolumeMode(util, fullPath) == Ok(Block) <==> found && kind == FakeVolumeUtil.FakeEntryBlock)
      && (GetVolumeMode(util, fullPath).Err? <==> !found || (kind != FakeVolumeUtil.FakeEntryFile && kind != FakeVolumeUtil.FakeEntryBlock))
  {
  }

  /** The fake host of TestGetVolumeMode: one `disks` entry of each kind. */
  predicate VolumeModeTestHost(util: FakeVolumeUtil.FakeVolumeUtil)
    reads util
  {
    util.directoryFiles == map[
      "/file" := [FakeVolumeUtil.FakeDirEntry("disks", FakeVolumeUtil.FakeEntryFile, 0, 64)],
      "/block" := [FakeVolumeUtil.FakeDirEntry("disks", FakeVolumeUtil.FakeEntryBlock, 0, 64)]]
  }

  /** TestGetVolumeMode, first case: a file entry is a filesystem volume. */
  lemma GetVolumeModeFileExample(util: FakeVolumeUtil.FakeVolumeUtil)
    requires VolumeModeTestHost(util)
    ensures GetVolumeMode(util, "/file/disks") == Ok(Filesystem)
  {
    JoinSplitRoundTrip("/file", "disks");
    assert Join("/file", "disks") == "/file/disks";
    assert FakeVolumeUtil.FirstIndex(util.directoryFiles["/file"], "disks") == 0;
    VolumeModeOfEntry(util, "/file/disks");
  }

  /** TestGetVolumeMode, second case: a block entry is a block volume. */
  lemma GetVolumeModeBlockExample(util: FakeVolumeUtil.FakeVolumeUtil)
    requires VolumeModeTestHost(util)
    ensures GetVolumeMode(util, "/block/disks") == Ok(Block)
  {
    JoinSplitRoundTrip("/block", "disks");
    assert Join("/block", "disks") == "/block/disks";
    assert FakeVolumeUtil.FirstIndex(util.directoryFiles["/block"], "disks") == 0;
    VolumeModeOfEntry(util, "/block/disks");
  }

  /** TestGetVolumeMode, third case: a name with no entry is an error. */
  lemma GetVolumeModeMissingExample(util: FakeVolumeUtil.FakeVolumeUtil)
    requires VolumeModeTestHost(util)
    ensures GetVolumeMode(util, "/file/disk").Err?
  {
    JoinSplitRoundTrip("/file", "disk");
    var files := util.directoryFiles["/file"];
    assert files[0].name != "disk" && files[1..] == [];
    assert FakeVolumeUtil.FirstIndex(files, "disk") < 0;
    VolumeModeOfEntry(util, "/file/disk");
  }
}
