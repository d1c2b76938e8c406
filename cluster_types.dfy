/** The Cluster aggregate of pkg/model/cluster.go and the records it owns.

    String constants of the `constant` package that the file compares against
    are modelled as datatype constructors, so they are distinct by
    construction; their actual spelling plays no part in the model. */
module ClusterTypes {

  datatype Option<+T> = None | Some(value: T)

  /** A node's role: constant.NodeRoleNameMaster, constant.NodeRoleNameWorker,
      or any other role string. A role string is read once into this type,
      so OtherRole stands only for strings other than the two constants'
      spellings. */
  datatype Role = Master | Worker | OtherRole(name: string)

  /** A status string: Unset is the empty string, Running and Waiting are
      constant.ClusterRunning and constant.ClusterWaiting, OtherPhase is any
      other value (a provisioning or failed state, say). As with Role, the
      string is read once into this type, so OtherPhase never holds "" or
      the spelling of either constant. */
  datatype Phase = Unset | Running | Waiting | OtherPhase(name: string)

  /** ClusterSpec: the seven fields GetKobeVars reads; an empty field means
      "no override". */
  datatype ClusterSpec = ClusterSpec(
    id: string,
    networkType: string,
    runtimeType: string,
    dockerStorageDir: string,
    containerdStorageDir: string,
    lbKubeApiserverIp: string,
    kubePodSubnet: string,
    kubeServiceSubnet: string)

  datatype ClusterStatus = ClusterStatus(id: string, phase: Phase)

  /** ClusterSecret: the credential columns are opaque here. */
  datatype ClusterSecret = ClusterSecret(id: string, credentials: string)

  /** A host record; `clusterId` is its owning-cluster column, "" when unowned. */
  datatype Host = Host(id: string, name: string, clusterId: string)

  /** ClusterNode: a member of a cluster, referring to its host by `hostId`
      and carrying the loaded host record in `host`. */
  datatype ClusterNode = ClusterNode(
    id: string,
    name: string,
    clusterId: string,
    role: Role,
    status: Phase,
    hostId: string,
    host: Host)

  datatype ClusterTool = ClusterTool(
    name: string,
    version: string,
    describe: string,
    status: Phase,
    logo: string,
    clusterId: string)

  /** The Cluster root with its eagerly loaded parts. */
  datatype Cluster = Cluster(
    id: string,
    name: string,
    source: string,
    specId: string,
    secretId: string,
    statusId: string,
    spec: ClusterSpec,
    secret: ClusterSecret,
    status: ClusterStatus,
    nodes: seq<ClusterNode>)
}
