/**
 * The discovery pass: for every configured storage class, list the entries
 * under its discovery directory and create a local volume for every new
 * entry that passes the gate chain; the pass is ready when every class scan
 * succeeded.  Also the pure builders it relies on: the volume name, the
 * rounded capacity, the owner reference, the node affinity and the labels.
 */
module Discovery {
  import opened Wrappers
  import opened Api
  import opened Strings
  import opened VolumeUtil
  import opened Common
  import opened Cache
  import FakeVolumeUtil

  // ---------------------------------------------------------------- names

  /** FNV-1a, 32 bits: offset basis and prime. */
  const FnvOffset: bv32 := 0x811c9dc5
  const FnvPrime: bv32 := 0x0100_0193

  /** One FNV-1a round: xor in the byte, then multiply by the prime (mod 2^32). */
  function FnvStep(h: bv32, b: bv8): bv32 {
    (h ^ (b as bv32)) * FnvPrime
  }

  /** Feeds `data` into an FNV-1a state `h`, one byte at a time. */
  function FnvWrite(h: bv32, data: seq<bv8>): bv32
    decreases |data|
  {
    if data == [] then h else FnvWrite(FnvStep(h, data[0]), data[1..])
  }

  /** Two writes in a row are one write of the concatenated bytes. */
  lemma {:induction false} FnvWriteAppend(h: bv32, a: seq<bv8>, b: seq<bv8>)
    ensures FnvWrite(h, a + b) == FnvWrite(FnvWrite(h, a), b)
    decreases |a|
  {
    if a == [] {
      assert a + b == b;
    } else {
      assert (a + b)[0] == a[0] && (a + b)[1..] == a[1..] + b;
      FnvWriteAppend(FnvStep(h, a[0]), a[1..], b);
    }
  }

  /** A lower-case hexadecimal digit. */
  function HexDigit(d: nat): char
    requires d < 16
  {
    "0123456789abcdef"[d]
  }

  /** The value of a lower-case hexadecimal digit. */
  function DigitValue(c: char): nat {
    if '0' <= c <= '9' then (c - '0') as nat
    else if 'a' <= c <= 'f' then (c - 'a') as nat + 10
    else 0
  }

  /** `%x`: lower-case hexadecimal, no leading zeros, "0" for zero. */
  function Hex(n: nat): (s: string)
    ensures 1 <= |s|
    decreases n
  {
    if n < 16 then [HexDigit(n)] else Hex(n / 16) + [HexDigit(n % 16)]
  }

  /** Reads a hexadecimal string back. */
  function ParseHex(s: string): nat
    decreases |s|
  {
    if s == [] then 0 else ParseHex(s[..|s| - 1]) * 16 + DigitValue(s[|s| - 1])
  }

  /** Hex formatting loses nothing: the number reads back. */
  lemma {:induction false} ParseHexRoundTrip(n: nat)
    ensures ParseHex(Hex(n)) == n
    decreases n
  {
    var s := Hex(n);
    if n < 16 {
      assert s[..0] == [];
      assert DigitValue(HexDigit(n)) == n;
    } else {
      ParseHexRoundTrip(n / 16);
      assert s[..|s| - 1] == Hex(n / 16);
      assert DigitValue(HexDigit(n % 16)) == n % 16;
    }
  }

  const PVNamePrefix: string := "local-pv-"

  /**
   * `generatePVName`: the FNV-1a hash of the UTF-8 bytes of the file name,
   * the node name and the class name, written one after the other.
   */
  function GeneratePVName(file: string, node: string, className: string): string {
    var h := FnvWrite(FnvWrite(FnvWrite(FnvOffset, Utf8(file)), Utf8(node)), Utf8(className));
    PVNamePrefix + Hex(h as nat)
  }

  /** The hash behind a volume name. */
  function PVNameHash(file: string, node: string, className: string): bv32 {
    FnvWrite(FnvOffset, Utf8(file + node + className))
  }

  /**
   * The name is "local-pv-" followed by the hash, in hexadecimal, of the
   * concatenation `file ++ node ++ class` alone; the hash reads back from the name.
   */
  lemma PVNameOfConcatenation(file: string, node: string, className: string)
    ensures GeneratePVName(file, node, className) == PVNamePrefix + Hex(PVNameHash(file, node, className) as nat)
    ensures HasPrefix(GeneratePVName(file, node, className), PVNamePrefix)
    ensures ParseHex(GeneratePVName(file, node, className)[|PVNamePrefix|..]) == PVNameHash(file, node, className) as nat
  {
    Utf8Append(file, node);
    Utf8Append(file + node, className);
    FnvWriteAppend(FnvOffset, Utf8(file), Utf8(node));
    FnvWriteAppend(FnvOffset, Utf8(file) + Utf8(node), Utf8(className));
    var name := GeneratePVName(file, node, className);
    assert name[|PVNamePrefix|..] == Hex(PVNameHash(file, node, className) as nat);
    ParseHexRoundTrip(PVNameHash(file, node, className) as nat);
  }

  lemma Bv32Injective(x: bv32, y: bv32)
    requires x as nat == y as nat
    ensures x == y
  {
    assert x == (x as nat) as bv32;
    assert y == (y as nat) as bv32;
  }

  /** Two entries get the same name iff their concatenations hash alike; equal concatenations always do. */
  lemma PVNamesCollideIffHashesDo(f1: string, n1: string, c1: string, f2: string, n2: string, c2: string)
    ensures GeneratePVName(f1, n1, c1) == GeneratePVName(f2, n2, c2) <==> PVNameHash(f1, n1, c1) == PVNameHash(f2, n2, c2)
    ensures f1 + n1 + c1 == f2 + n2 + c2 ==> GeneratePVName(f1, n1, c1) == GeneratePVName(f2, n2, c2)
  {
    PVNameOfConcatenation(f1, n1, c1);
    PVNameOfConcatenation(f2, n2, c2);
    var a, b := GeneratePVName(f1, n1, c1), GeneratePVName(f2, n2, c2);
    var h1, h2 := PVNameHash(f1, n1, c1), PVNameHash(f2, n2, c2);
    if a == b {
      assert a[|PVNamePrefix|..] == b[|PVNamePrefix|..];
      Bv32Injective(h1, h2);
    }
    if h1 == h2 {
      assert a == PVNamePrefix + Hex(h1 as nat) == b;
    }
  }

  // ------------------------------------------------------------- capacity

  const KiB: int := 1024
  const MiB: int := 1024 * KiB
  const GiB: int := 1024 * MiB
  const TiB: int := 1024 * GiB

  /** Go's integer division on int64, which truncates toward zero. */
  function Quo(a: int, b: int): int
    requires b > 0
  {
    if a >= 0 then a / b else -((-a) / b)
  }

  /**
   * The capacity a new volume advertises: rounded down to whole GiB when that
   * leaves at least 10 of them, else to whole MiB when that leaves at least
   * 10, else unchanged.
   */
  function PrettyCapacity(n: int): int {
    if Quo(n, GiB) >= 10 then Quo(n, GiB) * GiB
    else if Quo(n, MiB) >= 10 then Quo(n, MiB) * MiB
    else n
  }

  /** `roundDownCapacityPretty`: tries the units largest first and returns at the first that fits. */
  method RoundDownCapacityPretty(capacityBytes: int) returns (r: int)
    ensures r == PrettyCapacity(capacityBytes)
  {
    var units := [GiB, MiB];
    for i := 0 to |units|
      invariant forall j :: 0 <= j < i ==> Quo(capacityBytes, units[j]) < 10
    {
      var size := Quo(capacityBytes, units[i]);
      if size >= 10 {
        if i == 0 {
          assert units[i] == GiB;
        } else {
          assert units[i] == MiB && units[0] == GiB;
          assert Quo(capacityBytes, GiB) < 10;
        }
        return size * units[i];
      }
    }
    assert units[0] == GiB && units[1] == MiB;
    assert Quo(capacityBytes, GiB) < 10 && Quo(capacityBytes, MiB) < 10;
    return capacityBytes;
  }

  /** At least 10 GiB: rounded down to whole GiB, losing less than one. */
  lemma PrettyCapacityGiB(n: int)
    requires n >= 10 * GiB
    ensures n - GiB < PrettyCapacity(n) <= n && PrettyCapacity(n) % GiB == 0
  {
    assert Quo(n, GiB) == n / GiB;
    assert n / GiB >= 10;
  }

  /** Between 10 MiB and 10 GiB: rounded down to whole MiB, losing less than one. */
  lemma PrettyCapacityMiB(n: int)
    requires 10 * MiB <= n < 10 * GiB
    ensures n - MiB < PrettyCapacity(n) <= n && PrettyCapacity(n) % MiB == 0
  {
    assert Quo(n, GiB) == n / GiB < 10;
    assert Quo(n, MiB) == n / MiB >= 10;
  }

  /** Below 10 MiB, negative sizes included: unchanged. */
  lemma PrettyCapacitySmall(n: int)
    requires n < 10 * MiB
    ensures PrettyCapacity(n) == n
  {
    if n >= 0 {
      assert Quo(n, GiB) == n / GiB < 10;
      assert Quo(n, MiB) == n / MiB < 10;
    } else {
      assert Quo(n, GiB) <= 0 && Quo(n, MiB) <= 0;
    }
  }

  /**
   * Rounding never increases the capacity, keeps a non-negative capacity
   * non-negative, and loses less than one unit of the size it rounds to.
   */
  lemma PrettyCapacityBounds(n: int)
    ensures PrettyCapacity(n) <= n
    ensures n >= 0 ==> 0 <= PrettyCapacity(n)
    ensures n >= 10 * GiB ==> n - GiB < PrettyCapacity(n) && PrettyCapacity(n) % GiB == 0
    ensures 10 * MiB <= n < 10 * GiB ==> n - MiB < PrettyCapacity(n) && PrettyCapacity(n) % MiB == 0
    ensures n < 10 * MiB ==> PrettyCapacity(n) == n
  {
    if n >= 10 * GiB {
      PrettyCapacityGiB(n);
    } else if n >= 10 * MiB {
      PrettyCapacityMiB(n);
    } else {
      PrettyCapacitySmall(n);
    }
  }

  /** The table of TestRoundDownCapacityPretty. */
  lemma PrettyCapacityExamples()
    ensures PrettyCapacity(100 * KiB) == 100 * KiB
    ensures PrettyCapacity(10 * MiB) == 10 * MiB
    ensures PrettyCapacity(100 * MiB) == 100 * MiB
    ensures PrettyCapacity(10 * GiB) == 10 * GiB
    ensures PrettyCapacity(10 * TiB) == 10 * TiB
    ensures PrettyCapacity(9 * GiB + 999 * MiB) == 9 * GiB + 999 * MiB
    ensures PrettyCapacity(10 * GiB + 5) == 10 * GiB
    ensures PrettyCapacity(10 * MiB + 5) == 10 * MiB
    ensures PrettyCapacity(10000 * MiB - 1) == 9999 * MiB
    ensures PrettyCapacity(13 * GiB - 1) == 12 * GiB
    ensures PrettyCapacity(63 * MiB - 10) == 62 * MiB
    ensures PrettyCapacity(12345) == 12345
    ensures PrettyCapacity(10000 * GiB - 1) == 9999 * GiB
    ensures PrettyCapacity(3 * TiB + 2 * GiB + 1 * MiB) == 3 * TiB + 2 * GiB
  {
  }

  // ------------------------------------------------------------- builders

  /** `generateOwnerReference`: the node as the owner of the volumes it hosts; it needs a name and a UID. */
  function GenerateOwnerReference(node: Node): (r: Result<OwnerReference>)
    ensures r.Err? <==> node.name == "" || node.uid == ""
    ensures r.Ok? ==> r.value.kind == "Node" && r.value.apiVersion == "v1"
    ensures r.Ok? ==> r.value.name == node.name && r.value.uid == node.uid
  {
    if node.name == "" then Err("node does not have name")
    else if node.uid == "" then Err("node does not have UID")
    else Ok(OwnerReference("Node", "v1", node.name, node.uid))
  }

  /** The selector of both affinity builders: one term, one `In` expression on the hostname label. */
  function HostnameSelector(value: string): seq<NodeSelectorTerm> {
    [NodeSelectorTerm([NodeSelectorRequirement(LabelHostname, In, [value])])]
  }

  /** `generateNodeAffinity` (alpha API): needs the node's hostname label. */
  function GenerateNodeAffinity(node: Node): (r: Result<NodeAffinity>)
    ensures r.Err? <==> HostnameLabel(node).None?
    ensures r.Ok? ==> r.value.requiredDuringScheduling == Some(HostnameSelector(HostnameLabel(node).value))
  {
    if node.labels.None? then Err("node does not have labels")
    else if LabelHostname !in node.labels.value then Err("node does not have expected label")
    else Ok(NodeAffinity(Some(HostnameSelector(node.labels.value[LabelHostname]))))
  }

  /** `generateVolumeNodeAffinity`: needs the node's hostname label. */
  function GenerateVolumeNodeAffinity(node: Node): (r: Result<VolumeNodeAffinity>)
    ensures r.Err? <==> HostnameLabel(node).None?
    ensures r.Ok? ==> r.value.required == Some(HostnameSelector(HostnameLabel(node).value))
  {
    if node.labels.None? then Err("node does not have labels")
    else if LabelHostname !in node.labels.value then Err("node does not have expected label")
    else Ok(VolumeNodeAffinity(Some(HostnameSelector(node.labels.value[LabelHostname]))))
  }

  /**
   * A volume carrying the generated affinity is attached, for the cleanup
   * controller and the deleters, to exactly the node's hostname label value.
   */
  lemma GeneratedAffinityPinsNode(node: Node, pv: PersistentVolume)
    requires GenerateVolumeNodeAffinity(node).Ok?
    requires pv.nodeAffinity == Some(GenerateVolumeNodeAffinity(node).value)
    ensures NodeAttachedToLocalPV(Some(pv)) == HostnameLabel(node)
  {
    var value := HostnameLabel(node).value;
    var exprs := [NodeSelectorRequirement(LabelHostname, In, [value])];
    assert exprs[..0] == [];
    assert ValueSet([value]) == {value};
    assert TermNodes(exprs) == Some({value});
    var terms := HostnameSelector(value);
    assert terms[..0] == [];
    assert TermsNodes(terms) == {value};
    AttachedIffSingleton(Some(pv), value);
  }

  /**
   * The labels every volume of this node gets: each label named in
   * `nodeLabelsForPV` that the node has, overlaid by the configured extra labels.
   */
  ghost predicate MergedLabels(labelMap: map<string, string>, nodeLabels: Option<map<string, string>>,
                               nodeLabelsForPV: seq<string>, labelsForPV: map<string, string>)
  {
    && (forall k :: k in labelMap <==> k in labelsForPV || (k in nodeLabelsForPV && nodeLabels.Some? && k in nodeLabels.value))
    && (forall k :: k in labelsForPV ==> k in labelMap && labelMap[k] == labelsForPV[k])
    && (forall k :: k in labelMap && k !in labelsForPV ==> nodeLabels.Some? && k in nodeLabels.value && labelMap[k] == nodeLabels.value[k])
  }

  /** The description above leaves no freedom: it fixes the label map. */
  lemma MergedLabelsUnique(m1: map<string, string>, m2: map<string, string>, nodeLabels: Option<map<string, string>>,
                           nodeLabelsForPV: seq<string>, labelsForPV: map<string, string>)
    requires MergedLabels(m1, nodeLabels, nodeLabelsForPV, labelsForPV)
    requires MergedLabels(m2, nodeLabels, nodeLabelsForPV, labelsForPV)
    ensures m1 == m2
  {
    assert m1.Keys == m2.Keys;
    forall k | k in m1 ensures m1[k] == m2[k] {
      if k !in labelsForPV {
        assert m1[k] == nodeLabels.value[k] == m2[k];
      }
    }
  }

  /** The label merge of `NewDiscoverer`: copy the listed node labels, then the extra labels. */
  method MergeLabels(nodeLabels: Option<map<string, string>>, nodeLabelsForPV: seq<string>, labelsForPV: map<string, string>)
    returns (labelMap: map<string, string>)
    ensures MergedLabels(labelMap, nodeLabels, nodeLabelsForPV, labelsForPV)
  {
    labelMap := map[];
    for i := 0 to |nodeLabelsForPV|
      invariant forall k :: k in labelMap <==> k in nodeLabelsForPV[..i] && nodeLabels.Some? && k in nodeLabels.value
      invariant forall k :: k in labelMap ==> nodeLabels.Some? && k in nodeLabels.value && labelMap[k] == nodeLabels.value[k]
    {
      var labelName := nodeLabelsForPV[i];
      assert nodeLabelsForPV[..i + 1] == nodeLabelsForPV[..i] + [labelName];
      if nodeLabels.Some? && labelName in nodeLabels.value {
        labelMap := labelMap[labelName := nodeLabels.value[labelName]];
      }
    }
    assert nodeLabelsForPV[..|nodeLabelsForPV|] == nodeLabelsForPV;
    var rest := labelsForPV.Keys;
    while rest != {}
      invariant rest <= labelsForPV.Keys
      invariant forall k :: k in labelMap <==> (k in labelsForPV && k !in rest) || (k in nodeLabelsForPV && nodeLabels.Some? && k in nodeLabels.value)
      invariant forall k :: k in labelsForPV && k !in rest ==> k in labelMap && labelMap[k] == labelsForPV[k]
      invariant forall k :: k in labelMap && (k !in labelsForPV || k in rest) ==> nodeLabels.Some? && k in nodeLabels.value && labelMap[k] == nodeLabels.value[k]
      decreases |rest|
    {
      var labelName :| labelName in rest;
      labelMap := labelMap[labelName := labelsForPV[labelName]];
      rest := rest - {labelName};
    }
  }

  // ------------------------------------------------------------- a discovery pass

  /** One discovery directory: where it is on the host, where the provisioner sees it, and what it yields. */
  datatype MountConfig = MountConfig(hostDir: string, mountDir: string, namePattern: string, volumeMode: VolumeMode, fsType: string)

  /** What the storage-class lister yields for a class. */
  datatype StorageClass = StorageClass(reclaimPolicy: Option<ReclaimPolicy>, mountOptions: seq<string>)

  /**
   * The cleanup status tracker as discovery sees it: the volumes whose
   * cleaning process or cleaning job is still running, and those whose
   * finished status cannot be removed.  Its own source is not part of this model.
   */
  datatype CleanupStatusTracker = CleanupStatusTracker(runningProcs: set<string>, runningJobs: set<string>, removeFails: set<string>)

  predicate InProgress(tracker: CleanupStatusTracker, pvName: string, useJob: bool) {
    if useJob then pvName in tracker.runningJobs else pvName in tracker.runningProcs
  }

  /**
   * What one pass reads besides the cache and the host: the storage classes,
   * the cleanup tracker, the mount table, the glob matcher (pattern, name) and
   * the volume names whose create call the API server rejects.
   */
  datatype PassEnv = PassEnv(
    classes: map<string, StorageClass>,
    tracker: CleanupStatusTracker,
    mountPoints: Result<seq<string>>,
    matchPattern: (string, string) -> Result<bool>,
    createFails: set<string>)

  /** How the node affinity is carried: as the volume's field, or (alpha API) as an annotation. */
  datatype AffinitySetting = VolumeAffinity(volume: VolumeNodeAffinity) | AlphaAnnotation(alpha: NodeAffinity)

  /** The description of a volume to create, before it becomes a volume object. */
  datatype LocalPVConfig = LocalPVConfig(
    name: string,
    hostPath: string,
    capacity: int,
    storageClass: string,
    reclaimPolicy: ReclaimPolicy,
    provisionerName: string,
    volumeMode: VolumeMode,
    labels: map<string, string>,
    mountOptions: seq<string>,
    setPVOwnerRef: bool,
    ownerReference: OwnerReference,
    affinity: AffinitySetting,
    fsType: Option<string>)

  /** Why an entry was passed over without an error. */
  datatype SkipReason = AlreadyCached | PathInUse | CleaningInProgress | StatusNotRemoved

  /** What the loop body does with one directory entry. */
  datatype EntryOutcome =
    | NotMatched                   // the name does not match the pattern
    | PatternError(msg: string)    // the pattern is malformed: the whole pass stops
    | Skipped(reason: SkipReason)
    | EntryFailed(msg: string)     // recorded, and the pass goes on
    | Create(config: LocalPVConfig)

  /** The loop's state: the volumes created, the errors recorded, and the error that stopped it. */
  datatype ScanState = ScanState(created: seq<LocalPVConfig>, errors: seq<string>, aborted: Option<string>)

  /** The result of a pass over one class: the volumes created and the error returned. */
  datatype ScanResult = ScanResult(created: seq<LocalPVConfig>, err: Option<string>)

  /** The loop's bookkeeping for one entry, including the outcome of the create call. */
  function Advance(st: ScanState, outcome: EntryOutcome, createFails: set<string>): ScanState {
    match outcome
    case NotMatched => st
    case Skipped(_) => st
    case PatternError(msg) => st.(aborted := Some(msg))
    case EntryFailed(msg) => st.(errors := st.errors + [msg])
    case Create(c) =>
      if c.name in createFails then st.(errors := st.errors + ["error creating PV " + c.name])
      else st.(created := st.created + [c])
  }

  /** An outcome that leaves no error behind. */
  predicate Clean(outcome: EntryOutcome, createFails: set<string>) {
    outcome.NotMatched? || outcome.Skipped? || (outcome.Create? && outcome.config.name !in createFails)
  }

  /** The mount table as a set of paths. */
  function MountPointSet(mounts: seq<string>): set<string> {
    set p | p in mounts
  }

  /** One step of the loop leaves no error behind iff there was none before and the outcome is clean. */
  lemma AdvanceCleanIff(st: ScanState, outcome: EntryOutcome, createFails: set<string>)
    requires st.aborted.None?
    ensures var next := Advance(st, outcome, createFails);
      next.errors == [] && next.aborted.None? <==> st.errors == [] && Clean(outcome, createFails)
  {
  }

  /**
   * The loop body's bookkeeping for an entry that does not stop the pass:
   * failures are recorded, and a create call that succeeds adds its volume.
   * This is the in-place appending of the Go loop (`discoErrors = append(...)`);
   * `Advance` is its specification, and the lemmas about the pass are stated
   * over `Advance`.
   */
  method Record(created: seq<LocalPVConfig>, discoErrors: seq<string>, outcome: EntryOutcome, createFails: set<string>)
      returns (created': seq<LocalPVConfig>, discoErrors': seq<string>)
    requires !outcome.PatternError?
    ensures ScanState(created', discoErrors', None) == Advance(ScanState(created, discoErrors, None), outcome, createFails)
  {
    created', discoErrors' := created, discoErrors;
    match outcome {
      case NotMatched =>
      case Skipped(_) =>
      case EntryFailed(msg) =>
        discoErrors' := discoErrors + [msg];
      case Create(c) =>
        if c.name in createFails {
          discoErrors' := discoErrors + ["error creating PV " + c.name];
        } else {
          created' := created + [c];
        }
    }
  }

  /** A step of the loop adds a volume only for a create outcome whose call succeeds. */
  lemma AdvanceCreated(st: ScanState, outcome: EntryOutcome, createFails: set<string>)
    ensures forall x :: x in Advance(st, outcome, createFails).created ==>
      x in st.created || (outcome == Create(x) && x.name !in createFails)
  {
  }

  /** The reclaim policy of a known class: an unset policy means Delete. */
  function ClassReclaimPolicy(sc: StorageClass): ReclaimPolicy {
    if sc.reclaimPolicy.Some? then sc.reclaimPolicy.value else Delete
  }

  class Discoverer {
    const node: Node
    const provisionerName: string
    const discoveryMap: map<string, MountConfig>
    const useJobForCleaning: bool
    const setPVOwnerRef: bool
    const labels: map<string, string>
    const ownerReference: OwnerReference
    const affinity: AffinitySetting
    const cache: VolumeCache
    const util: FakeVolumeUtil.FakeVolumeUtil
    /** The readiness check's flag: whether the last pass found no error. */
    var ready: bool

    constructor (node: Node, provisionerName: string, discoveryMap: map<string, MountConfig>, useJobForCleaning: bool,
                 setPVOwnerRef: bool, labels: map<string, string>, ownerReference: OwnerReference,
                 affinity: AffinitySetting, cache: VolumeCache, util: FakeVolumeUtil.FakeVolumeUtil)
      ensures this.node == node && this.provisionerName == provisionerName && this.discoveryMap == discoveryMap
      ensures this.useJobForCleaning == useJobForCleaning && this.setPVOwnerRef == setPVOwnerRef
      ensures this.labels == labels && this.ownerReference == ownerReference && this.affinity == affinity
      ensures this.cache == cache && this.util == util && !ready
    {
      this.node := node;
      this.provisionerName := provisionerName;
      this.discoveryMap := discoveryMap;
      this.useJobForCleaning := useJobForCleaning;
      this.setPVOwnerRef := setPVOwnerRef;
      this.labels := labels;
      this.ownerReference := ownerReference;
      this.affinity := affinity;
      this.cache := cache;
      this.util := util;
      this.ready := false;
    }

    /** `createPV`'s assembly of the volume description. */
    function PVConfig(file: string, className: string, reclaimPolicy: ReclaimPolicy, mountOptions: seq<string>,
                      config: MountConfig, capacityByte: int): LocalPVConfig
    {
      LocalPVConfig(
        GeneratePVName(file, node.name, className), Join(config.hostDir, file), PrettyCapacity(capacityByte),
        className, reclaimPolicy, provisionerName, config.volumeMode, labels, mountOptions,
        setPVOwnerRef, ownerReference, affinity, if config.fsType == "" then None else Some(config.fsType))
    }

    /** The loop body of `discoverVolumesAtPath` for the entry `file`, gate by gate. */
    function EntryStep(className: string, config: MountConfig, reclaimPolicy: ReclaimPolicy, mountOptions: seq<string>,
                       mountPoints: set<string>, env: PassEnv, file: string): EntryOutcome
      reads cache, util
    {
      var matched := if config.namePattern == "" then Ok(true) else env.matchPattern(config.namePattern, file);
      if matched.Err? then PatternError(matched.msg)
      else if !matched.value then NotMatched
      else
        var filePath := Join(config.mountDir, file);
        var volMode := GetVolumeMode(util, filePath);
        if volMode.Err? then EntryFailed(volMode.msg)
        else
          var pvName := GeneratePVName(file, node.name, className);
          var cached := cache.GetPV(pvName);
          if cached.Some? then
            if cached.value.volumeMode == Some(Block) && volMode.value == Filesystem then
              EntryFailed("incorrect volume mode: PV " + pvName + " requires block mode")
            else Skipped(AlreadyCached)
          else if cache.LookupPVsByPath(Join(config.hostDir, file)) != {} then Skipped(PathInUse)
          else
            var useJob := volMode.value == Block && useJobForCleaning;
            if InProgress(env.tracker, pvName, useJob) then Skipped(CleaningInProgress)
            else if pvName in env.tracker.removeFails then Skipped(StatusNotRemoved)
            else if volMode.value == Block then
              var capacity := util.GetBlockCapacityByte(filePath);
              if capacity.Err? then EntryFailed("path " + filePath + " block stats error: " + capacity.msg)
              else Create(PVConfig(file, className, reclaimPolicy, mountOptions, config, capacity.value))
            else if config.volumeMode == Block then
              EntryFailed("path " + filePath + " of filesystem mode cannot be used to create block volume")
            else if filePath !in mountPoints then EntryFailed("path " + filePath + " is not an actual mountpoint")
            else
              var capacity := util.GetFsCapacityByte(filePath, filePath);
              if capacity.Err? then EntryFailed("path " + filePath + " fs stats error: " + capacity.msg)
              else Create(PVConfig(file, className, reclaimPolicy, mountOptions, config, capacity.value))
    }

    /** The loop over the entries, up to the end or to the first malformed-pattern error. */
    function ScanEntries(className: string, config: MountConfig, reclaimPolicy: ReclaimPolicy, mountOptions: seq<string>,
                         mountPoints: set<string>, env: PassEnv, files: seq<string>): ScanState
      reads cache, util
      decreases |files|
    {
      if files == [] then ScanState([], [], None)
      else
        var prev := ScanEntries(className, config, reclaimPolicy, mountOptions, mountPoints, env, files[..|files| - 1]);
        if prev.aborted.Some? then prev
        else Advance(prev, EntryStep(className, config, reclaimPolicy, mountOptions, mountPoints, env, files[|files| - 1]), env.createFails)
    }

    /** `discoverVolumesAtPath` for one class, as a value: the preliminary lookups, then the loop. */
    function ClassScan(className: string, config: MountConfig, env: PassEnv): ScanResult
      reads cache, util
    {
      if className !in env.classes then ScanResult([], Some("failed to get ReclaimPolicy from storage class " + className))
      else
        var reclaimPolicy := ClassReclaimPolicy(env.classes[className]);
        if reclaimPolicy != Retain && reclaimPolicy != Delete then
          ScanResult([], Some("unsupported ReclaimPolicy from storage class " + className))
        else
          var files := util.ReadDir(config.mountDir);
          if files.Err? then ScanResult([], Some("error reading directory: " + files.msg))
          else if env.mountPoints.Err? then ScanResult([], Some("error retrieving mountpoints: " + env.mountPoints.msg))
          else
            var mountPoints := MountPointSet(env.mountPoints.value);
            var st := ScanEntries(className, config, reclaimPolicy, env.classes[className].mountOptions, mountPoints, env, files.value);
            if st.aborted.Some? then ScanResult(st.created, st.aborted)
            else if st.errors == [] then ScanResult(st.created, None)
            else ScanResult(st.created, Some("error(s) while discovering volumes"))
    }

    /** A pass that has stopped on a malformed pattern looks at no further entry. */
    lemma {:induction false} AbortedStays(className: string, config: MountConfig, reclaimPolicy: ReclaimPolicy,
                                          mountOptions: seq<string>, mountPoints: set<string>, env: PassEnv,
                                          files: seq<string>, k: nat)
      requires k <= |files|
      requires ScanEntries(className, config, reclaimPolicy, mountOptions, mountPoints, env, files[..k]).aborted.Some?
      ensures ScanEntries(className, config, reclaimPolicy, mountOptions, mountPoints, env, files)
           == ScanEntries(className, config, reclaimPolicy, mountOptions, mountPoints, env, files[..k])
      decreases |files|
    {
      if k == |files| {
        assert files[..k] == files;
      } else {
        var prefix := files[..|files| - 1];
        assert prefix[..k] == files[..k];
        AbortedStays(className, config, reclaimPolicy, mountOptions, mountPoints, env, prefix, k);
      }
    }

    /** One more entry: the loop's state after `files[..i + 1]` follows from its state after `files[..i]`. */
    lemma ScanEntriesSnoc(className: string, config: MountConfig, reclaimPolicy: ReclaimPolicy,
                          mountOptions: seq<string>, mountPoints: set<string>, env: PassEnv, files: seq<string>, i: nat)
      requires i < |files|
      ensures var prev := ScanEntries(className, config, reclaimPolicy, mountOptions, mountPoints, env, files[..i]);
        ScanEntries(className, config, reclaimPolicy, mountOptions, mountPoints, env, files[..i + 1]) ==
        if prev.aborted.Some? then prev
        else Advance(prev, EntryStep(className, config, reclaimPolicy, mountOptions, mountPoints, env, files[i]), env.createFails)
    {
      assert files[..i + 1][..i] == files[..i];
    }

    /**
     * The entry loop of `discoverVolumesAtPath`: a malformed pattern stops
     * it, any other failure is recorded and the loop goes on.
     */
    method ScanFiles(className: string, config: MountConfig, reclaimPolicy: ReclaimPolicy, mountOptions: seq<string>,
                     mountPointMap: set<string>, env: PassEnv, files: seq<string>) returns (st: ScanState)
      ensures st == ScanEntries(className, config, reclaimPolicy, mountOptions, mountPointMap, env, files)
    {
      var created: seq<LocalPVConfig> := [];
      var discoErrors: seq<string> := [];
      for i := 0 to |files|
        invariant ScanEntries(className, config, reclaimPolicy, mountOptions, mountPointMap, env, files[..i])
               == ScanState(created, discoErrors, None)
      {
        ScanEntriesSnoc(className, config, reclaimPolicy, mountOptions, mountPointMap, env, files, i);
        var outcome := EntryStep(className, config, reclaimPolicy, mountOptions, mountPointMap, env, files[i]);
        if outcome.PatternError? {
          AbortedStays(className, config, reclaimPolicy, mountOptions, mountPointMap, env, files, i + 1);
          return ScanState(created, discoErrors, Some(outcome.msg));
        }
        created, discoErrors := Record(created, discoErrors, outcome, env.createFails);
      }
      assert files[..|files|] == files;
      return ScanState(created, discoErrors, None);
    }

    /**
     * `discoverVolumesAtPath`: look up the class's reclaim policy, list the
     * directory and the mount table, then walk the entries in order.
     */
    method DiscoverVolumesAtPath(className: string, config: MountConfig, env: PassEnv) returns (result: ScanResult)
      ensures result == ClassScan(className, config, env)
    {
      if className !in env.classes {
        return ScanResult([], Some("failed to get ReclaimPolicy from storage class " + className));
      }
      var reclaimPolicy := ClassReclaimPolicy(env.classes[className]);
      if reclaimPolicy != Retain && reclaimPolicy != Delete {
        return ScanResult([], Some("unsupported ReclaimPolicy from storage class " + className));
      }
      var files := util.ReadDir(config.mountDir);
      if files.Err? {
        return ScanResult([], Some("error reading directory: " + files.msg));
      }
      if env.mountPoints.Err? {
        return ScanResult([], Some("error retrieving mountpoints: " + env.mountPoints.msg));
      }
      var mounts := env.mountPoints.value;
      var mountPointMap: set<string> := {};
      for j := 0 to |mounts|
        invariant forall p :: p in mountPointMap <==> p in mounts[..j]
      {
        assert mounts[..j + 1] == mounts[..j] + [mounts[j]];
        mountPointMap := mountPointMap + {mounts[j]};
      }
      assert mounts[..|mounts|] == mounts;
      assert mountPointMap == MountPointSet(mounts);
      var st := ScanFiles(className, config, reclaimPolicy, env.classes[className].mountOptions, mountPointMap, env, files.value);
      if st.aborted.Some? {
        return ScanResult(st.created, st.aborted);
      }
      if st.errors == [] {
        return ScanResult(st.created, None);
      }
      return ScanResult(st.created, Some("error(s) while discovering volumes"));
    }

    /** The result of each configured class's pass. */
    function Passes(env: PassEnv): (r: map<string, ScanResult>)
      reads cache, util
      ensures r.Keys == discoveryMap.Keys
      ensures forall c :: c in discoveryMap ==> r[c] == ClassScan(c, discoveryMap[c], env)
    {
      map c | c in discoveryMap :: ClassScan(c, discoveryMap[c], env)
    }

    /**
     * The loop of `DiscoverLocalVolumes`: one pass over every configured
     * class, in any order.  The pass is error-free iff no class's pass
     * returned an error, and the volumes created are exactly those the
     * classes' passes created.
     */
    method PassOverClasses(env: PassEnv) returns (readyz: bool, created: seq<LocalPVConfig>)
      ensures readyz <==> forall c :: c in discoveryMap ==> Passes(env)[c].err.None?
      ensures forall x :: x in created <==> exists c :: c in discoveryMap && x in Passes(env)[c].created
    {
      readyz := true;
      created := [];
      var todo := discoveryMap.Keys;
      while todo != {}
        invariant todo <= discoveryMap.Keys
        invariant readyz <==> forall c :: c in discoveryMap && c !in todo ==> Passes(env)[c].err.None?
        invariant forall x :: x in created <==> exists c :: c in discoveryMap && c !in todo && x in Passes(env)[c].created
        decreases |todo|
      {
        var className :| className in todo;
        var result := DiscoverVolumesAtPath(className, discoveryMap[className], env);
        if result.err.Some? {
          readyz := false;
        }
        created := created + result.created;
        todo := todo - {className};
      }
    }

    /** `DiscoverLocalVolumes`: the readiness flag records whether the whole pass was error-free. */
    method DiscoverLocalVolumes(env: PassEnv) returns (created: seq<LocalPVConfig>)
      modifies this`ready
      ensures ready <==> forall c :: c in discoveryMap ==> old(Passes(env))[c].err.None?
      ensures forall x :: x in created <==> exists c :: c in discoveryMap && x in old(Passes(env))[c].created
    {
      ghost var passes := Passes(env);
      var readyz;
      readyz, created := PassOverClasses(env);
      ready := readyz;
      assert passes == old(Passes(env));
    }

    /**
     * An entry whose generated name is already cached is never created again;
     * it is an error only when its mode cannot be read or the cached volume
     * is a block volume while the path is now a filesystem.
     */
    lemma CachedNameNeverCreates(className: string, config: MountConfig, reclaimPolicy: ReclaimPolicy,
                                 mountOptions: seq<string>, mountPoints: set<string>, env: PassEnv, file: string)
      requires GeneratePVName(file, node.name, className) in cache.pvs
      ensures var o := EntryStep(className, config, reclaimPolicy, mountOptions, mountPoints, env, file);
        && !o.Create?
        && (o.Skipped? ==> o.reason == AlreadyCached)
        && (o.EntryFailed? ==>
              || GetVolumeMode(util, Join(config.mountDir, file)).Err?
              || (cache.pvs[GeneratePVName(file, node.name, className)].volumeMode == Some(Block)
                  && GetVolumeMode(util, Join(config.mountDir, file)) == Ok(Filesystem)))
    {
    }

    /** A new name whose host path some cached volume already uses is skipped, without an error. */
    lemma PathInUseSkipped(className: string, config: MountConfig, reclaimPolicy: ReclaimPolicy,
                           mountOptions: seq<string>, mountPoints: set<string>, env: PassEnv, file: string, other: string)
      requires config.namePattern == "" || env.matchPattern(config.namePattern, file) == Ok(true)
      requires GetVolumeMode(util, Join(config.mountDir, file)).Ok?
      requires GeneratePVName(file, node.name, className) !in cache.pvs
      requires other in cache.pvs && cache.pvs[other].hostPath == Join(config.hostDir, file)
      ensures EntryStep(className, config, reclaimPolicy, mountOptions, mountPoints, env, file) == Skipped(PathInUse)
    {
      assert other in cache.LookupPVsByPath(Join(config.hostDir, file));
    }

    /**
     * A volume still being cleaned is not recreated: the tracker is asked
     * about the job when the path is a block device and jobs clean, about the
     * process otherwise.
     */
    lemma CleaningSkipped(className: string, config: MountConfig, reclaimPolicy: ReclaimPolicy,
                          mountOptions: seq<string>, mountPoints: set<string>, env: PassEnv, file: string)
      requires config.namePattern == "" || env.matchPattern(config.namePattern, file) == Ok(true)
      requires GetVolumeMode(util, Join(config.mountDir, file)).Ok?
      requires GeneratePVName(file, node.name, className) !in cache.pvs
      requires cache.LookupPVsByPath(Join(config.hostDir, file)) == {}
      requires InProgress(env.tracker, GeneratePVName(file, node.name, className),
                          GetVolumeMode(util, Join(config.mountDir, file)) == Ok(Block) && useJobForCleaning)
      ensures EntryStep(className, config, reclaimPolicy, mountOptions, mountPoints, env, file) == Skipped(CleaningInProgress)
    {
    }

    /**
     * A create call is made only when every gate has passed, and it
     * describes the entry: its generated name and its host path.
     */
    lemma CreateOnlyWhenGatesPass(className: string, config: MountConfig, reclaimPolicy: ReclaimPolicy,
                                  mountOptions: seq<string>, mountPoints: set<string>, env: PassEnv, file: string, c: LocalPVConfig)
      requires EntryStep(className, config, reclaimPolicy, mountOptions, mountPoints, env, file) == Create(c)
      ensures config.namePattern == "" || env.matchPattern(config.namePattern, file) == Ok(true)
      ensures c.name == GeneratePVName(file, node.name, className) && c.name !in cache.pvs
      ensures c.hostPath == Join(config.hostDir, file) && cache.LookupPVsByPath(c.hostPath) == {}
      ensures c.name !in env.tracker.removeFails
      ensures !InProgress(env.tracker, c.name, GetVolumeMode(util, Join(config.mountDir, file)) == Ok(Block) && useJobForCleaning)
    {
    }

    /** A create call carries the pass's class, policy and the discoverer's settings. */
    lemma CreateCarriesSettings(className: string, config: MountConfig, reclaimPolicy: ReclaimPolicy,
                                mountOptions: seq<string>, mountPoints: set<string>, env: PassEnv, file: string, c: LocalPVConfig)
      requires EntryStep(className, config, reclaimPolicy, mountOptions, mountPoints, env, file) == Create(c)
      ensures c.storageClass == className && c.reclaimPolicy == reclaimPolicy && c.mountOptions == mountOptions
      ensures c.provisionerName == provisionerName && c.labels == labels && c.volumeMode == config.volumeMode
      ensures c.ownerReference == ownerReference && c.setPVOwnerRef == setPVOwnerRef && c.affinity == affinity
      ensures c.fsType.Some? <==> config.fsType != ""
    {
      CreateOnlyWhenGatesPass(className, config, reclaimPolicy, mountOptions, mountPoints, env, file, c);
      var filePath := Join(config.mountDir, file);
      if GetVolumeMode(util, filePath) == Ok(Block) {
        assert c == PVConfig(file, className, reclaimPolicy, mountOptions, config, util.GetBlockCapacityByte(filePath).value);
      } else {
        assert c == PVConfig(file, className, reclaimPolicy, mountOptions, config, util.GetFsCapacityByte(filePath, filePath).value);
      }
    }

    /** A volume created from a block device has the device's size, rounded down. */
    lemma CreatedBlockCapacity(className: string, config: MountConfig, reclaimPolicy: ReclaimPolicy,
                               mountOptions: seq<string>, mountPoints: set<string>, env: PassEnv, file: string, c: LocalPVConfig)
      requires EntryStep(className, config, reclaimPolicy, mountOptions, mountPoints, env, file) == Create(c)
      requires GetVolumeMode(util, Join(config.mountDir, file)) == Ok(Block)
      ensures var capacity := util.GetBlockCapacityByte(Join(config.mountDir, file));
        capacity.Ok? && c.capacity == PrettyCapacity(capacity.value) && c.capacity <= capacity.value
    {
      PrettyCapacityBounds(util.GetBlockCapacityByte(Join(config.mountDir, file)).value);
    }

    /**
     * A volume created from a directory needs a class not in block mode and
     * an actual mount point, and has the filesystem's capacity, rounded down.
     */
    lemma CreatedFsCapacity(className: string, config: MountConfig, reclaimPolicy: ReclaimPolicy,
                            mountOptions: seq<string>, mountPoints: set<string>, env: PassEnv, file: string, c: LocalPVConfig)
      requires EntryStep(className, config, reclaimPolicy, mountOptions, mountPoints, env, file) == Create(c)
      requires GetVolumeMode(util, Join(config.mountDir, file)) == Ok(Filesystem)
      ensures var capacity := util.GetFsCapacityByte(Join(config.mountDir, file), Join(config.mountDir, file));
        && config.volumeMode != Block
        && Join(config.mountDir, file) in mountPoints
        && capacity.Ok? && c.capacity == PrettyCapacity(capacity.value) && c.capacity <= capacity.value
    {
      var filePath := Join(config.mountDir, file);
      PrettyCapacityBounds(util.GetFsCapacityByte(filePath, filePath).value);
    }

    /**
     * A directory that passes the earlier gates is not created, and an error
     * is recorded, when the class asks for block volumes or the path is not
     * an actual mount point.
     */
    lemma FsGateFailureRecorded(className: string, config: MountConfig, reclaimPolicy: ReclaimPolicy,
                                mountOptions: seq<string>, mountPoints: set<string>, env: PassEnv, file: string)
      requires config.namePattern == "" || env.matchPattern(config.namePattern, file) == Ok(true)
      requires GetVolumeMode(util, Join(config.mountDir, file)) == Ok(Filesystem)
      requires GeneratePVName(file, node.name, className) !in cache.pvs
      requires cache.LookupPVsByPath(Join(config.hostDir, file)) == {}
      requires !InProgress(env.tracker, GeneratePVName(file, node.name, className), false)
      requires GeneratePVName(file, node.name, className) !in env.tracker.removeFails
      requires config.volumeMode == Block || Join(config.mountDir, file) !in mountPoints
      ensures EntryStep(className, config, reclaimPolicy, mountOptions, mountPoints, env, file).EntryFailed?
    {
    }

    /** Every volume a pass creates comes from a create outcome of one of its entries whose call succeeded. */
    lemma {:induction false} ScanCreatesOnlyFromEntries(className: string, config: MountConfig, reclaimPolicy: ReclaimPolicy,
                                                        mountOptions: seq<string>, mountPoints: set<string>, env: PassEnv,
                                                        files: seq<string>)
      ensures forall x :: x in ScanEntries(className, config, reclaimPolicy, mountOptions, mountPoints, env, files).created ==>
        x.name !in env.createFails &&
        exists i :: 0 <= i < |files| && EntryStep(className, config, reclaimPolicy, mountOptions, mountPoints, env, files[i]) == Create(x)
      decreases |files|
    {
      if files != [] {
        var prefix := files[..|files| - 1];
        ScanCreatesOnlyFromEntries(className, config, reclaimPolicy, mountOptions, mountPoints, env, prefix);
        var before := ScanEntries(className, config, reclaimPolicy, mountOptions, mountPoints, env, prefix);
        var outcome := EntryStep(className, config, reclaimPolicy, mountOptions, mountPoints, env, files[|files| - 1]);
        AdvanceCreated(before, outcome, env.createFails);
        forall x | x in ScanEntries(className, config, reclaimPolicy, mountOptions, mountPoints, env, files).created
          ensures x.name !in env.createFails
          ensures exists i :: 0 <= i < |files| && EntryStep(className, config, reclaimPolicy, mountOptions, mountPoints, env, files[i]) == Create(x)
        {
          if x in before.created {
            var i :| 0 <= i < |prefix| && EntryStep(className, config, reclaimPolicy, mountOptions, mountPoints, env, prefix[i]) == Create(x);
            assert files[i] == prefix[i];
          } else {
            assert outcome == Create(x);
          }
        }
      }
    }

    /** A pass ends with no error recorded and no abort iff every entry's outcome is clean. */
    lemma {:induction false} ScanCleanIff(className: string, config: MountConfig, reclaimPolicy: ReclaimPolicy,
                                          mountOptions: seq<string>, mountPoints: set<string>, env: PassEnv, files: seq<string>)
      ensures var st := ScanEntries(className, config, reclaimPolicy, mountOptions, mountPoints, env, files);
        st.errors == [] && st.aborted.None? <==>
        forall i :: 0 <= i < |files| ==> Clean(EntryStep(className, config, reclaimPolicy, mountOptions, mountPoints, env, files[i]), env.createFails)
      decreases |files|
    {
      if files != [] {
        var last := |files| - 1;
        var prefix := files[..last];
        ScanCleanIff(className, config, reclaimPolicy, mountOptions, mountPoints, env, prefix);
        ScanEntriesSnoc(className, config, reclaimPolicy, mountOptions, mountPoints, env, files, last);
        assert files[..last + 1] == files;
        forall i | 0 <= i < last ensures files[i] == prefix[i] {
        }
        var before := ScanEntries(className, config, reclaimPolicy, mountOptions, mountPoints, env, prefix);
        if before.aborted.None? {
          AdvanceCleanIff(before, EntryStep(className, config, reclaimPolicy, mountOptions, mountPoints, env, files[last]), env.createFails);
        }
      }
    }

    /**
     * A class's pass returns no error iff the class is known with a Retain or
     * Delete policy, its directory and the mount table can be listed, and
     * every entry's outcome is clean.
     */
    lemma ClassScanSucceedsIff(className: string, config: MountConfig, env: PassEnv)
      ensures ClassScan(className, config, env).err.None? <==>
        && className in env.classes
        && ClassReclaimPolicy(env.classes[className]) in {Retain, Delete}
        && util.ReadDir(config.mountDir).Ok?
        && env.mountPoints.Ok?
        && var files := util.ReadDir(config.mountDir).value;
           forall i :: 0 <= i < |files| ==>
             Clean(EntryStep(className, config, ClassReclaimPolicy(env.classes[className]), env.classes[className].mountOptions,
                             MountPointSet(env.mountPoints.value), env, files[i]), env.createFails)
    {
      if className in env.classes && util.ReadDir(config.mountDir).Ok? && env.mountPoints.Ok? {
        ScanCleanIff(className, config, ClassReclaimPolicy(env.classes[className]), env.classes[className].mountOptions,
                     MountPointSet(env.mountPoints.value), env, util.ReadDir(config.mountDir).value);
      }
    }

    /**
     * Every volume a class's pass creates has a name the cache did not hold,
     * a host path no cached volume uses, a volume of that class, and a create
     * call that succeeded.
     */
    lemma ClassScanCreatesOnlyNew(className: string, config: MountConfig, env: PassEnv)
      ensures forall x :: x in ClassScan(className, config, env).created ==>
        && x.name !in cache.pvs
        && cache.LookupPVsByPath(x.hostPath) == {}
        && x.storageClass == className
        && x.name !in env.createFails
    {
      if className in env.classes && util.ReadDir(config.mountDir).Ok? && env.mountPoints.Ok? {
        var reclaimPolicy := ClassReclaimPolicy(env.classes[className]);
        var mountOptions := env.classes[className].mountOptions;
        var mountPoints := MountPointSet(env.mountPoints.value);
        var files := util.ReadDir(config.mountDir).value;
        ScanCreatesOnlyFromEntries(className, config, reclaimPolicy, mountOptions, mountPoints, env, files);
        forall x | x in ScanEntries(className, config, reclaimPolicy, mountOptions, mountPoints, env, files).created
          ensures x.name !in cache.pvs && cache.LookupPVsByPath(x.hostPath) == {} && x.storageClass == className
        {
          var i :| 0 <= i < |files| && EntryStep(className, config, reclaimPolicy, mountOptions, mountPoints, env, files[i]) == Create(x);
          CreateOnlyWhenGatesPass(className, config, reclaimPolicy, mountOptions, mountPoints, env, files[i], x);
          CreateCarriesSettings(className, config, reclaimPolicy, mountOptions, mountPoints, env, files[i], x);
        }
      }
    }
  }

  /** The options `NewDiscoverer` reads from the provisioner's runtime configuration. */
  datatype DiscovererConfig = DiscovererConfig(
    node: Node,
    name: string,
    discoveryMap: map<string, MountConfig>,
    nodeLabelsForPV: seq<string>,
    labelsForPV: map<string, string>,
    useAlphaAPI: bool,
    setPVOwnerRef: bool,
    useJobForCleaning: bool)

  /**
   * `NewDiscoverer`: merge the labels, then build the owner reference and the
   * node affinity; it fails iff the node lacks a name, a UID or a hostname label.
   */
  method NewDiscoverer(config: DiscovererConfig, cache: VolumeCache, util: FakeVolumeUtil.FakeVolumeUtil)
    returns (r: Result<Discoverer>)
    ensures r.Err? <==> GenerateOwnerReference(config.node).Err? || HostnameLabel(config.node).None?
    ensures r.Ok? ==> fresh(r.value) && !r.value.ready
    ensures r.Ok? ==> MergedLabels(r.value.labels, config.node.labels, config.nodeLabelsForPV, config.labelsForPV)
    ensures r.Ok? ==> r.value.ownerReference == GenerateOwnerReference(config.node).value
    ensures r.Ok? && config.useAlphaAPI ==> r.value.affinity == AlphaAnnotation(GenerateNodeAffinity(config.node).value)
    ensures r.Ok? && !config.useAlphaAPI ==> r.value.affinity == VolumeAffinity(GenerateVolumeNodeAffinity(config.node).value)
    ensures r.Ok? ==> && r.value.node == config.node && r.value.provisionerName == config.name
                      && r.value.discoveryMap == config.discoveryMap && r.value.useJobForCleaning == config.useJobForCleaning
                      && r.value.setPVOwnerRef == config.setPVOwnerRef && r.value.cache == cache && r.value.util == util
  {
    var labelMap := MergeLabels(config.node.labels, config.nodeLabelsForPV, config.labelsForPV);
    var ownerRef := GenerateOwnerReference(config.node);
    if ownerRef.Err? {
      return Err("failed to generate owner reference: " + ownerRef.msg);
    }
    var affinity: AffinitySetting;
    if config.useAlphaAPI {
      var nodeAffinity := GenerateNodeAffinity(config.node);
      if nodeAffinity.Err? {
        return Err("failed to generate node affinity: " + nodeAffinity.msg);
      }
      affinity := AlphaAnnotation(nodeAffinity.value);
    } else {
      var volumeNodeAffinity := GenerateVolumeNodeAffinity(config.node);
      if volumeNodeAffinity.Err? {
        return Err("failed to generate volume node affinity: " + volumeNodeAffinity.msg);
      }
      affinity := VolumeAffinity(volumeNodeAffinity.value);
    }
    var d := new Discoverer(config.node, config.name, config.discoveryMap, config.useJobForCleaning, config.setPVOwnerRef,
                            labelMap, ownerRef.value, affinity, cache, util);
    return Ok(d);
  }
}
