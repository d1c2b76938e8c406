/** An abstract transactional store standing in for the database handle
    db.DB: committed tables, transactions that stage writes, and a failure
    oracle that decides which store call returns an error. */
module AggregateStore {
  import opened ClusterTypes

  /** A node as its table row holds it: the loaded host is not a column. */
  datatype NodeRow = NodeRow(
    id: string,
    name: string,
    clusterId: string,
    role: Role,
    status: Phase,
    hostId: string)

  function RowOf(n: ClusterNode): NodeRow {
    NodeRow(n.id, n.name, n.clusterId, n.role, n.status, n.hostId)
  }

  /** A cluster as its table row holds it. */
  datatype ClusterRow = ClusterRow(
    id: string,
    name: string,
    specId: string,
    statusId: string,
    secretId: string)

  /** The committed contents of the store. Tools have no key of their own in
      this model: their table is the sequence of rows in insertion order. */
  datatype Tables = Tables(
    specs: map<string, ClusterSpec>,
    statuses: map<string, ClusterStatus>,
    secrets: map<string, ClusterSecret>,
    nodes: map<string, NodeRow>,
    hosts: map<string, Host>,
    tools: seq<ClusterTool>,
    clusters: map<string, ClusterRow>)

  /** The writes the lifecycle issues. */
  datatype Write =
    | CreateSpec(spec: ClusterSpec)
    | CreateStatus(status: ClusterStatus)
    | CreateSecret(secret: ClusterSecret)
    | CreateNode(node: NodeRow)
    | SaveHostOwner(hostId: string, clusterId: string)
    | CreateTool(tool: ClusterTool)
    | DeleteSpec(id: string)
    | DeleteStatus(id: string)
    | DeleteSecret(id: string)
    | DeleteNode(id: string)

  /** The effect of one write. Saving a host's owner changes only its
      owning-cluster column; a host that is not there is inserted. Each
      write touches only its own table, no write touches the cluster rows,
      a host is never removed nor renamed, and tools are only appended. */
  function ApplyWrite(t: Tables, w: Write): (r: Tables)
    ensures r.specs != t.specs ==> w.CreateSpec? || w.DeleteSpec?
    ensures r.statuses != t.statuses ==> w.CreateStatus? || w.DeleteStatus?
    ensures r.secrets != t.secrets ==> w.CreateSecret? || w.DeleteSecret?
    ensures r.nodes != t.nodes ==> w.CreateNode? || w.DeleteNode?
    ensures r.hosts != t.hosts ==> w.SaveHostOwner?
    ensures r.tools != t.tools ==> w.CreateTool?
    ensures r.clusters == t.clusters
    ensures forall h :: h in t.hosts ==> h in r.hosts && r.hosts[h].name == t.hosts[h].name
    ensures t.tools <= r.tools
  {
    match w
    case CreateSpec(spec) => t.(specs := t.specs[spec.id := spec])
    case CreateStatus(status) => t.(statuses := t.statuses[status.id := status])
    case CreateSecret(secret) => t.(secrets := t.secrets[secret.id := secret])
    case CreateNode(node) => t.(nodes := t.nodes[node.id := node])
    case SaveHostOwner(hostId, clusterId) =>
      var host := if hostId in t.hosts then t.hosts[hostId].(clusterId := clusterId)
                  else Host(hostId, "", clusterId);
      t.(hosts := t.hosts[hostId := host])
    case CreateTool(tool) => t.(tools := t.tools + [tool])
    case DeleteSpec(id) => t.(specs := t.specs - {id})
    case DeleteStatus(id) => t.(statuses := t.statuses - {id})
    case DeleteSecret(id) => t.(secrets := t.secrets - {id})
    case DeleteNode(id) => t.(nodes := t.nodes - {id})
  }

  /** The effect of a log of writes, first to last. */
  function ApplyAll(t: Tables, ws: seq<Write>): Tables
    decreases |ws|
  {
    if ws == [] then t else ApplyAll(ApplyWrite(t, ws[0]), ws[1..])
  }

  /** Applying two logs one after the other is applying their concatenation. */
  lemma {:induction false} ApplyAllAppend(t: Tables, a: seq<Write>, b: seq<Write>)
    ensures ApplyAll(t, a + b) == ApplyAll(ApplyAll(t, a), b)
    decreases |a|
  {
    if a == [] {
      assert a + b == b;
    } else {
      assert (a + b)[0] == a[0];
      assert (a + b)[1..] == a[1..] + b;
      ApplyAllAppend(ApplyWrite(t, a[0]), a[1..], b);
    }
  }

  /** Appending one write to a log applies it last. */
  lemma ApplyAllSnoc(t: Tables, ws: seq<Write>, w: Write)
    ensures ApplyAll(t, ws + [w]) == ApplyWrite(ApplyAll(t, ws), w)
  {
    ApplyAllAppend(t, ws, [w]);
    assert [w][1..] == [];
  }

  /** A log of one write is that write. */
  lemma ApplyOne(t: Tables, w: Write)
    ensures ApplyAll(t, [w]) == ApplyWrite(t, w)
  {
  }

  /** Staging the next write of a log extends the staged prefix. */
  lemma LogStep(p0: seq<Write>, log: seq<Write>, j: nat)
    requires j < |log|
    ensures p0 + log[..j] + [log[j]] == p0 + log[..j + 1]
  {
  }

  /** The whole prefix is the whole log. */
  lemma LogWhole(p0: seq<Write>, log: seq<Write>)
    ensures p0 + log[..|log|] == p0 + log
  {
  }

  /** The ids of the node rows that belong to a cluster (what preloading
      the cluster's nodes finds). */
  function OwnedNodes(t: Tables, clusterId: string): set<string> {
    set k | k in t.nodes && t.nodes[k].clusterId == clusterId
  }

  /** The errors a store call can return. */
  datatype StoreError = NotFound | CallFailed(call: nat)

  /** The failure oracle: `fault` is the store call (counted from the
      store's first) that returns an error, if any. Every operation here
      stops at its first failing call, so one failing call per store covers
      every way a single operation can end. */
  predicate Fails(fault: Option<nat>, k: nat) {
    fault == Some(k)
  }

  /** The failing call lies among calls lo .. hi - 1. */
  predicate FailsWithin(fault: Option<nat>, lo: nat, hi: nat) {
    fault.Some? && lo <= fault.value < hi
  }

  /** A run of store calls that starts at call lo, would issue n calls, and
      stops at the first that fails: `calls` is the call count afterwards,
      `err` the error of the failing call, if any. */
  predicate Stopped(fault: Option<nat>, lo: nat, n: nat, calls: nat, err: Option<StoreError>) {
    if FailsWithin(fault, lo, lo + n) then err == Some(CallFailed(fault.value)) && calls == fault.value + 1
    else err == None && calls == lo + n
  }

  /** The global database handle. Writes through it take effect at once. */
  class Store {
    var committed: Tables
    const fault: Option<nat>
    var calls: nat

    constructor (initial: Tables, fault: Option<nat>)
      ensures committed == initial && this.fault == fault && calls == 0
    {
      committed := initial;
      this.fault := fault;
      calls := 0;
    }

    /** Issues one store call and reports whether the oracle fails it. */
    method Issue() returns (err: Option<StoreError>)
      modifies this`calls
      ensures calls == old(calls) + 1
      ensures err == if Fails(fault, old(calls)) then Some(CallFailed(old(calls))) else None
    {
      err := if Fails(fault, calls) then Some(CallFailed(calls)) else None;
      calls := calls + 1;
    }

    /** A write through db.DB, outside any transaction. */
    method Exec(w: Write) returns (err: Option<StoreError>)
      modifies this
      ensures calls == old(calls) + 1
      ensures err == if Fails(fault, old(calls)) then Some(CallFailed(old(calls))) else None
      ensures committed == if err.None? then ApplyWrite(old(committed), w) else old(committed)
    {
      err := Issue();
      if err.None? {
        committed := ApplyWrite(committed, w);
      }
    }

    /** Loads a cluster row by id together with the ids of its nodes; a
        missing row is NotFound. */
    method LoadCluster(id: string) returns (row: ClusterRow, nodeIds: set<string>, err: Option<StoreError>)
      modifies this`calls
      ensures calls == old(calls) + 1
      ensures err == if Fails(fault, old(calls)) then Some(CallFailed(old(calls)))
                     else if id !in committed.clusters then Some(NotFound)
                     else None
      ensures err.None? ==> row == committed.clusters[id] && nodeIds == OwnedNodes(committed, id)
    {
      err := Issue();
      row, nodeIds := ClusterRow(id, "", "", "", ""), {};
      if err.None? {
        if id !in committed.clusters {
          err := Some(NotFound);
        } else {
          row, nodeIds := committed.clusters[id], OwnedNodes(committed, id);
        }
      }
    }

    /** Opens a transaction on this store. */
    method Begin() returns (tx: Tx)
      ensures fresh(tx) && tx.db == this && tx.pending == []
    {
      tx := new Tx(this);
    }
  }

  /** A transaction: its writes are staged until Commit applies them to the
      tables as committed at that time; Rollback discards them. */
  class Tx {
    const db: Store
    var pending: seq<Write>

    constructor (db: Store)
      ensures this.db == db && pending == []
    {
      this.db := db;
      pending := [];
    }

    /** A write through the transaction: staged, not yet visible. */
    method Exec(w: Write) returns (err: Option<StoreError>)
      modifies this, db`calls
      ensures db.calls == old(db.calls) + 1
      ensures err == if Fails(db.fault, old(db.calls)) then Some(CallFailed(old(db.calls))) else None
      ensures pending == if err.None? then old(pending) + [w] else old(pending)
    {
      err := db.Issue();
      if err.None? {
        pending := pending + [w];
      }
    }

    /** Applies the staged writes. The source ignores the error a commit can
        return; here a commit always succeeds. */
    method Commit()
      modifies this, db`committed
      ensures db.committed == ApplyAll(old(db.committed), old(pending))
      ensures pending == []
    {
      db.committed := ApplyAll(db.committed, pending);
      pending := [];
    }

    /** Discards the staged writes; the committed tables stay as they are. */
    method Rollback()
      modifies this`pending
      ensures pending == []
    {
      pending := [];
    }
  }
}
