# Cluster aggregate of KubeOperator, modelled in Dafny

This project models `pkg/model/cluster.go` of KubeOperator. That file holds the `Cluster` aggregate and the logic defined on it:

- `ParseInventory` derives the provisioning inventory (hosts and the seven fixed groups) from the cluster's nodes.
- `GetKobeVars` projects the cluster specification onto the sparse variable map of the provisioning engine.
- `PrepareTools` returns the fixed catalog of the four companion tools.
- `BeforeCreate` and `BeforeDelete` are the two persistence hooks. They write or remove the cluster's spec, status, secret, nodes, hosts and tools.

The hooks run against an abstract transactional store instead of the ORM:

- `Store` stands for the global handle. It holds the committed tables, and a write through it takes effect at once.
- `Tx` stands for a transaction. It stages writes; `Commit` applies them and `Rollback` discards them.
- The store counts its calls. `fault` names the one call that returns an error, or none. A hook stops at its first failing call, so this choice covers every way one hook call can end.

Each hook is a method. Its postcondition equates what it leaves (committed tables, error and call count, and for `BeforeCreate` also the updated receiver) with a pure outcome function (`CreateOutcome`, `DeleteOutcome`). Lemmas state what those outcomes mean: success iff no call fails, the created aggregate, the asymmetric rollback of the delete.

Files:

- `cluster_types.dfy`: the entities (`ClusterTypes`).
- `tool_catalog.dfy`: the catalog (`ToolCatalog`).
- `kobe_vars.dfy`: the projection (`KobeVars`).
- `inventory.dfy`: the inventory (`InventoryBuilder`).
- `store.dfy`: the store and transaction (`AggregateStore`).
- `lifecycle.dfy`: the two hooks (`Lifecycle`).

## Model

| member | source | states |
|---|---|---|
| ToolCatalog.PrepareTools | pkg/model/cluster.go:117-148 | exactly four tools, named prometheus, dashboard, chartmuseum, registry in that order; each at version v1.0.0, with an empty description, waiting, owned by no cluster |
| KobeVars.GetKobeVars | pkg/model/cluster.go:150-174 | no value of the map is empty, every key is one of the seven fact names, there are at most seven entries, and an all-empty specification gives the empty map |
| KobeVars.KobeVarsExact | pkg/model/cluster.go:150-174 | with distinct fact names, the i-th fact name is present iff the i-th specification field is non-empty, and then it maps to that field |
| KobeVars.LbAddressUnderPortKey | pkg/model/cluster.go:164-166 | a set load-balancer API-server address is published under the fact name of the port, as the code writes it |
| KobeVars.OnlyNetworkPluginSet | pkg/model/cluster.go:151-154 | a specification with only its network type set projects to the single network-plugin entry |
| KobeVars.ProjectBounds | pkg/model/cluster.go:151-172 | the if-chain adds no empty value and no foreign key, at most one entry per field, and nothing when every field is empty |
| KobeVars.ProjectExact | pkg/model/cluster.go:151-172 | with distinct new keys, each key ends present iff its field is non-empty, holding that field |
| KobeVars.ProjectKeeps | pkg/model/cluster.go:151-172 | a key written by no later step keeps its earlier presence and value |
| InventoryBuilder.CollectNodes | pkg/model/cluster.go:177-193 | one host descriptor per node, in node order, whatever its role or status; the master and worker lists are exactly the counted nodes' names of that role, in node order |
| InventoryBuilder.ParseInventory | pkg/model/cluster.go:176-243 | hosts are one per node in order; seven groups in the fixed name order, with empty vars; kube-master and kube-worker hold the counted masters and workers; etcd equals kube-master; chrony is empty or the first master; new-worker, lb and del-worker are empty; kube-worker and etcd have child kube-master; new-worker leaves its children unset, the others give an empty list |
| InventoryBuilder.NamesWithRole | pkg/model/cluster.go:183-192 | the names of a role's counted nodes (unset or running status), in node order, are never more than the nodes |
| InventoryBuilder.NamesWithRoleMembership | pkg/model/cluster.go:183-192 | a name is listed for a role iff some node of that role with unset or running status carries it |
| InventoryBuilder.NamesWithRoleAppend | pkg/model/cluster.go:181-192 | the lists are built in encounter order: splitting the nodes splits the list at the same place |
| InventoryBuilder.NamesWithRoleSkips | pkg/model/cluster.go:183-192 | a node of another role or status contributes nothing: removing it leaves the list unchanged |
| InventoryBuilder.MastersAndWorkersShareNoNode | pkg/model/cluster.go:183-192 | the master and worker lists together are never longer than the node list |
| InventoryBuilder.RunningNodesOnly | pkg/model/cluster.go:185-190 | a waiting master is left out while running masters and workers are listed |
| InventoryBuilder.RunningNodesInventory | pkg/model/cluster.go:176-243 | for a running master, a waiting master and a running worker, the inventory lists all three hosts; kube-master, etcd and chrony hold only the running master, kube-worker only the worker, and new-worker, lb and del-worker are empty |
| AggregateStore.ApplyWrite | pkg/model/cluster.go:35-107 | each write changes only its own table; no write changes the cluster rows; a host is never removed and keeps its name; tools are only appended |
| AggregateStore.ApplyAllAppend | pkg/model/cluster.go:71 | committing a log applies its writes first to last: two logs in turn are their concatenation |
| AggregateStore.Store.Exec | pkg/model/cluster.go:87 | a write through the global handle is one call that, unless it fails, changes the committed tables at once |
| AggregateStore.Store.LoadCluster | pkg/model/cluster.go:78-84 | loading by id is one call; a missing row is NotFound; otherwise it yields the row and the ids of the cluster's nodes |
| AggregateStore.Store.Begin | pkg/model/cluster.go:34 | a new transaction on this store, with nothing staged (also opened at line 85) |
| AggregateStore.Tx.Exec | pkg/model/cluster.go:35 | a write in the transaction is one call that, unless it fails, is staged and not yet committed |
| AggregateStore.Tx.Commit | pkg/model/cluster.go:71 | the staged log is applied to what is committed at that time |
| AggregateStore.Tx.Rollback | pkg/model/cluster.go:36 | the staged log is discarded; the committed tables are untouched |
| Lifecycle.CreateRecords | pkg/model/cluster.go:35-46 | the spec, status and secret are staged in that order, stopping at the first failing call |
| Lifecycle.BindNode | pkg/model/cluster.go:51-61 | one node: its cluster id is set and its row staged, then its host's cluster id is set and the host's owner staged; the receiver is stamped one field at a time between the calls |
| Lifecycle.BindNodes | pkg/model/cluster.go:50-62 | every node's two writes are staged in node order; on failure the receiver holds exactly the updates made before the failing call |
| Lifecycle.AddTools | pkg/model/cluster.go:63-70 | each catalog tool, owned by the new cluster, is staged in catalog order, stopping at the first failing call |
| Lifecycle.StageCreate | pkg/model/cluster.go:34-70 | the whole create log is staged when no call fails; otherwise the run stops at the first failure with the receiver as updated up to it |
| Lifecycle.BeforeCreate | pkg/model/cluster.go:32-73 | committed tables, error, receiver and call count are exactly CreateOutcome of the tables before, the new id and the first call |
| Lifecycle.CreateOutcome | pkg/model/cluster.go:32-73 | the receiver always has the new id; a failing call leaves the committed tables unchanged, because everything ran in the rolled-back transaction |
| Lifecycle.CreateOutcomeStopped | pkg/model/cluster.go:32-73 | a run that stops at its first failing call ends exactly as CreateOutcome says |
| Lifecycle.CreateSucceeds | pkg/model/cluster.go:32-73 | a create succeeds iff none of its 3 + 2·nodes + 4 calls fails; on success the aggregate is committed, the receiver records the spec, status and secret ids, and every node and its host carry the new cluster id |
| Lifecycle.CreateAddsCatalogTools | pkg/model/cluster.go:63-71 | on success exactly four tools are added after the existing ones: the catalog's, in order, each owned by the new cluster and waiting |
| Lifecycle.CreateWritesBuildAggregate | pkg/model/cluster.go:35-71 | committing the create log stores the spec, status and secret under their ids, stores every node's row with the new cluster id (the last node of an id wins), binds every host, appends the owned catalog tools and leaves the cluster rows unchanged |
| Lifecycle.NodeWritesEffect | pkg/model/cluster.go:50-62 | the node writes bind every node row and host to the cluster and leave every other table, node row and host as it was |
| Lifecycle.NodeWritesNodes | pkg/model/cluster.go:51-53 | the node keys gain exactly the given nodes' ids; each id holds the row of the last node carrying it, with the cluster id set; other rows are unchanged |
| Lifecycle.NodeWritesHosts | pkg/model/cluster.go:56-57 | the hosts gain exactly the nodes' hosts, each owned by the cluster, keeping their names; other hosts are unchanged |
| Lifecycle.NodeWritesKeep | pkg/model/cluster.go:50-62 | the node writes touch only the node and host tables |
| Lifecycle.NodeStepEffect | pkg/model/cluster.go:51-58 | one node's writes: its row is stored with the cluster id, its host becomes owned by the cluster, other hosts and host names are kept |
| Lifecycle.ToolWritesEffect | pkg/model/cluster.go:63-70 | creating tools appends them, in order, to the tool table and touches nothing else |
| Lifecycle.ReceiverStep | pkg/model/cluster.go:51-56 | the in-place updates of node i are its cluster id, then its host's cluster id |
| Lifecycle.DeleteRecords | pkg/model/cluster.go:85-103 | each recorded id alone issues its delete: spec and secret through the global handle, status staged in the transaction; the outcome is RecordsOutcome |
| Lifecycle.DeleteNodes | pkg/model/cluster.go:104-112 | every preloaded node's delete is staged, stopping at the first failing call; the staged log then removes exactly those nodes |
| Lifecycle.BeforeDelete | pkg/model/cluster.go:75-115 | committed tables, error and call count are exactly DeleteOutcome of the tables before, the id and the first call |
| Lifecycle.RecordsOutcome | pkg/model/cluster.go:85-103 | the record deletes never touch statuses, nodes, hosts, tools or cluster rows in the committed tables |
| Lifecycle.DeleteOutcome | pkg/model/cluster.go:75-115 | tools, hosts and cluster rows are never changed; a failure leaves statuses and nodes as they were; a failed load or a missing cluster leaves everything unchanged and returns an error after one call; a failing call is the last call issued |
| Lifecycle.DeleteSucceeds | pkg/model/cluster.go:75-115 | a delete succeeds iff the cluster exists and none of its calls fails; it then removes exactly the recorded spec, status and secret and every node of the cluster, in one call for the load, one per recorded id and one per node |
| Lifecycle.SpecDeleteSurvivesFailure | pkg/model/cluster.go:86-96 | after the spec delete succeeds (global handle), any later failure leaves the spec deleted while statuses and nodes stay |
| Lifecycle.SecretDeleteSurvivesNodeFailure | pkg/model/cluster.go:98-110 | a failing node delete leaves the secret deleted (global handle) while the status and every node stay (rolled back) |

## Left out

- The ORM itself is not modelled: hook invocation, `Preload`, `TableName`, JSON tags, `Plan`/`PlanID` and the base-model timestamps. The cluster row's own insert and delete happen outside the hooks, so the cluster table is never changed here.
- `uuid.NewV4()` is not modelled: the new cluster id is the parameter `newId`.
- The global handle `db.DB` is not global state here: the store is passed explicitly.
- Errors of `tx.Commit()` and `tx.Rollback()` are discarded by the code, so commit always succeeds here.
- Store failures are one failing call per store (`fault`). Each hook stops at its first failing call, so every single hook call is covered. Several failures across successive hooks on one store are not.
- The unique name of a cluster is enforced by the database. It is not modelled beyond the fact that any store call may fail.
- `tx.Save(&Host{ID, ClusterID})` would overwrite the host's other columns. It is modelled as setting only the host's owning cluster, and inserting a nameless host when none exists.
- The ids of the spec, status, secret and nodes are assigned by their own hooks, which are not part of this file. They are taken as they arrive in the cluster value.
- `node.ToKobeHost()` and the kobe `api` types are not part of this model. The host descriptor is an opaque function parameter `toHost`.
- The fact names of the `facts` package are not part of this model. They are the seven-string parameter `FactNames`, and the exactness lemmas assume the names are distinct.
- Go distinguishes a nil slice from an empty one. That difference is kept only where the code writes it, in the unset children of `new-worker`. The host lists are plain sequences.
- The preloaded nodes of `BeforeDelete` are modelled as a set of ids, deleted in an arbitrary order. Every node delete is staged in the same transaction, so the order does not change the outcome.
- BeforeDelete is modelled for a cluster id that is not blank. With a blank id, the ORM's `First` would load the table's first row.
- BeforeDelete is modelled for node ids that are not blank. With a blank id, the ORM's `Where(ClusterNode{ID: ""})` would match every node row.
- The node create may also save the node's loaded host as an association. That is ORM configuration that is not shown, and it is not modelled.
- Concurrency and the database's locking are out of scope.
- `BeforeCreate` mutates its receiver through a pointer. The model returns the updated receiver as `c'` instead.
