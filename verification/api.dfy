/**
 * The cluster objects the provisioner reads and writes, reduced to the fields
 * the modelled code looks at.  Pointers that may be nil are `Option`s.
 */
module Api {
  import opened Wrappers

  /** `v1.LabelHostname`, which is also the provisioner's `common.NodeLabelKey`. */
  const LabelHostname: string := "kubernetes.io/hostname"
  /** `common.AnnProvisionedBy`: the annotation recording which provisioner created a volume. */
  const AnnProvisionedBy: string := "pv.kubernetes.io/provisioned-by"

  datatype Phase = Pending | Available | Bound | Released | Failed

  /** Reclaim policies are Go strings; anything other than the three named ones is kept verbatim. */
  datatype ReclaimPolicy = Retain | Delete | Recycle | OtherPolicy(policy: string)

  /** `v1.PersistentVolumeMode`; the configured mode of a class is free text, hence `OtherMode`. */
  datatype VolumeMode = Filesystem | Block | OtherMode(mode: string)

  datatype Operator = In | NotIn | Exists | DoesNotExist | Gt | Lt

  datatype NodeSelectorRequirement = NodeSelectorRequirement(key: string, op: Operator, values: seq<string>)

  datatype NodeSelectorTerm = NodeSelectorTerm(matchExpressions: seq<NodeSelectorRequirement>)

  /** `v1.VolumeNodeAffinity`: `required` is nil or a node selector given by its terms. */
  datatype VolumeNodeAffinity = VolumeNodeAffinity(required: Option<seq<NodeSelectorTerm>>)

  /** `v1.NodeAffinity` as used by the alpha API: only the required selector is modelled. */
  datatype NodeAffinity = NodeAffinity(requiredDuringScheduling: Option<seq<NodeSelectorTerm>>)

  /** The claim reference of a volume, a namespace and a name. */
  datatype ObjectRef = ObjectRef(namespace: string, name: string)

  datatype PersistentVolume = PersistentVolume(
    name: string,
    annotations: Option<map<string, string>>,
    labels: map<string, string>,
    isLocal: bool,            // Spec.PersistentVolumeSource.Local != nil
    hostPath: string,         // Spec.Local.Path
    storageClass: string,
    reclaimPolicy: ReclaimPolicy,
    volumeMode: Option<VolumeMode>,
    claimRef: Option<ObjectRef>,
    nodeAffinity: Option<VolumeNodeAffinity>,
    phase: Phase)

  datatype Taint = Taint(key: string, value: string, effect: string)

  datatype Node = Node(name: string, uid: string, labels: Option<map<string, string>>, taints: seq<Taint>)

  datatype Claim = Claim(namespace: string, name: string, volumeName: string)

  datatype OwnerReference = OwnerReference(kind: string, apiVersion: string, name: string, uid: string)

  /** The answer of the API server to a delete call: done, already gone, or refused. */
  datatype ApiResponse = Succeeded | NotFound | Rejected
}
