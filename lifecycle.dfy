/** Creation and deletion of the Cluster aggregate against the store
    (BeforeCreate, BeforeDelete). */
module Lifecycle {
  import opened ClusterTypes
  import opened AggregateStore
  import opened ToolCatalog

  // ---------------------------------------------------------------------
  // Create
  // ---------------------------------------------------------------------

  /** A node once it and its host are bound to cluster `id`. */
  function Stamp(n: ClusterNode, id: string): ClusterNode {
    n.(clusterId := id, host := n.host.(clusterId := id))
  }

  /** The catalog entries as owned by cluster `id`. */
  function StampTools(tools: seq<ClusterTool>, id: string): seq<ClusterTool> {
    seq(|tools|, i requires 0 <= i < |tools| => tools[i].(clusterId := id))
  }

  /** Per node: create its row bound to `id`, then save its host's owner. */
  function NodeWrites(nodes: seq<ClusterNode>, id: string): (ws: seq<Write>)
    ensures |ws| == 2 * |nodes|
  {
    if nodes == [] then []
    else [CreateNode(RowOf(nodes[0].(clusterId := id))), SaveHostOwner(nodes[0].hostId, id)]
         + NodeWrites(nodes[1..], id)
  }

  function ToolWrites(tools: seq<ClusterTool>): seq<Write> {
    seq(|tools|, i requires 0 <= i < |tools| => CreateTool(tools[i]))
  }

  /** The log BeforeCreate stages, one write per store call: spec, status,
      secret, two writes per node, one per catalog tool. */
  function CreateWrites(c: Cluster, id: string): seq<Write> {
    [CreateSpec(c.spec), CreateStatus(c.status), CreateSecret(c.secret)]
    + NodeWrites(c.nodes, id)
    + ToolWrites(StampTools(PrepareTools(), id))
  }

  /** The number of store calls of a create that fails none. */
  function CreateCalls(c: Cluster): nat {
    3 + 2 * |c.nodes| + |PrepareTools()|
  }

  function NodeIds(nodes: seq<ClusterNode>): set<string> {
    set n | n in nodes :: n.id
  }

  function HostIds(nodes: seq<ClusterNode>): set<string> {
    set n | n in nodes :: n.hostId
  }

  /** The receiver with its new id and the ids of its spec, status and secret. */
  function WithIds(c: Cluster, id: string): Cluster {
    c.(id := id, specId := c.spec.id, statusId := c.status.id, secretId := c.secret.id)
  }

  /** Node i of the receiver after the first p updates BeforeCreate makes to
      it: update 2 + 2i sets the node's cluster id, update 3 + 2i its host's. */
  function NodeAfter(n: ClusterNode, id: string, i: nat, p: nat): ClusterNode {
    if p >= 3 + 2 * i then Stamp(n, id)
    else if p == 2 + 2 * i then n.(clusterId := id)
    else n
  }

  /** The receiver after its new id and the first p further updates of
      BeforeCreate: update 1 records the ids of its spec, status and secret,
      the node updates follow. */
  function Receiver(c: Cluster, id: string, p: nat): Cluster {
    var r := if p >= 1 then WithIds(c, id) else c.(id := id);
    r.(nodes := seq(|c.nodes|, i requires 0 <= i < |c.nodes| => NodeAfter(c.nodes[i], id, i, p)))
  }

  /** The receiver BeforeCreate leaves when store call k (counted from its
      first) fails, and with k = CreateCalls(c) when none fails. Calls 0 to 2
      come before every update but the id; call k >= 3 comes right after
      update k - 1. */
  function ReceiverAt(c: Cluster, id: string, k: nat): Cluster {
    Receiver(c, id, if k < 3 then 0 else k - 1)
  }

  /** The first two receivers. */
  lemma ReceiverStart(c: Cluster, id: string)
    ensures Receiver(c, id, 0) == c.(id := id)
    ensures Receiver(c, id, 1) == WithIds(c, id)
  {
  }

  /** The two updates of node i, as the node loop makes them. */
  lemma ReceiverStep(c: Cluster, id: string, i: nat)
    requires i < |c.nodes|
    ensures var r := Receiver(c, id, 1 + 2 * i);
      Receiver(c, id, 2 + 2 * i) == r.(nodes := r.nodes[i := r.nodes[i].(clusterId := id)])
    ensures var r := Receiver(c, id, 2 + 2 * i);
      Receiver(c, id, 3 + 2 * i) == r.(nodes := r.nodes[i := r.nodes[i].(host := r.nodes[i].host.(clusterId := id))])
  {
  }

  /** One iteration of the node loop extends the staged log by the node's
      two writes. */
  lemma NodeWritesStep(p0: seq<Write>, nodes: seq<ClusterNode>, i: nat, id: string)
    requires i < |nodes|
    ensures p0 + NodeWrites(nodes[..i], id) + [CreateNode(RowOf(nodes[i].(clusterId := id)))]
              + [SaveHostOwner(nodes[i].hostId, id)]
         == p0 + NodeWrites(nodes[..i + 1], id)
  {
    assert nodes[..i + 1] == nodes[..i] + [nodes[i]];
    NodeWritesSnoc(nodes[..i], nodes[i], id);
  }

  /** The staged log of BeforeCreate, write by write, is the create log. */
  lemma CreateLog(p0: seq<Write>, c: Cluster, id: string)
    ensures p0 + [CreateSpec(c.spec)] + [CreateStatus(c.status)] + [CreateSecret(c.secret)]
              + NodeWrites(c.nodes, id) + ToolWrites(StampTools(PrepareTools(), id))
         == p0 + CreateWrites(c, id)
  {
  }

  /** Once every node is bound, the receiver changes no more. */
  lemma ReceiverSettled(c: Cluster, id: string, p: nat)
    requires p >= 1 + 2 * |c.nodes|
    ensures Receiver(c, id, p) == Receiver(c, id, 1 + 2 * |c.nodes|)
  {
  }

  /** No node after position i has the id of node i. */
  predicate LastOfId(nodes: seq<ClusterNode>, i: nat)
    requires i < |nodes|
  {
    forall j :: i < j < |nodes| ==> nodes[j].id != nodes[i].id
  }

  /** Every id of `nodes` holds the row of the last node that carries it,
      owned by cluster `id`. */
  ghost predicate RowsBound(after: map<string, NodeRow>, nodes: seq<ClusterNode>, id: string) {
    forall i :: 0 <= i < |nodes| && LastOfId(nodes, i) ==>
      nodes[i].id in after && after[nodes[i].id] == RowOf(nodes[i].(clusterId := id))
  }

  /** The node rows of `nodes` are bound to cluster `id`, each id holding
      the row of the last node that carries it; every other node row is as
      it was. */
  ghost predicate NodesBound(before: map<string, NodeRow>, after: map<string, NodeRow>, nodes: seq<ClusterNode>, id: string) {
    && after.Keys == before.Keys + NodeIds(nodes)
    && (forall k :: k in NodeIds(nodes) ==> k in after && after[k].clusterId == id)
    && RowsBound(after, nodes, id)
    && (forall k :: k in before && k !in NodeIds(nodes) ==> k in after && after[k] == before[k])
  }

  /** The hosts of `nodes` are owned by cluster `id`; every other host is as
      it was, and a host keeps its name. */
  ghost predicate HostsBound(before: map<string, Host>, after: map<string, Host>, nodes: seq<ClusterNode>, id: string) {
    && after.Keys == before.Keys + HostIds(nodes)
    && (forall h :: h in HostIds(nodes) ==> h in after && after[h].clusterId == id)
    && (forall h :: h in before && h !in HostIds(nodes) ==> h in after && after[h] == before[h])
    && (forall h :: h in before ==> h in after && after[h].name == before[h].name)
  }

  ghost predicate Bound(before: Tables, after: Tables, nodes: seq<ClusterNode>, id: string) {
    NodesBound(before.nodes, after.nodes, nodes, id) && HostsBound(before.hosts, after.hosts, nodes, id)
  }

  /** The committed tables after a successful create: the spec, status and
      secret stored under their ids, every node and its host bound to the
      cluster, the four catalog tools added for it, nothing else changed. */
  ghost predicate Created(before: Tables, after: Tables, c: Cluster, id: string) {
    && after.specs == before.specs[c.spec.id := c.spec]
    && after.statuses == before.statuses[c.status.id := c.status]
    && after.secrets == before.secrets[c.secret.id := c.secret]
    && after.clusters == before.clusters
    && after.tools == before.tools + StampTools(PrepareTools(), id)
    && Bound(before, after, c.nodes, id)
  }

  /** The two writes of one node. */
  function NodeStep(t: Tables, n: ClusterNode, id: string): Tables {
    ApplyWrite(ApplyWrite(t, CreateNode(RowOf(n.(clusterId := id)))), SaveHostOwner(n.hostId, id))
  }

  /** One node's writes bind its row and its host and leave the rest. */
  lemma NodeStepEffect(t: Tables, n: ClusterNode, id: string)
    ensures var t2 := NodeStep(t, n, id);
      && t2.nodes == t.nodes[n.id := RowOf(n.(clusterId := id))]
      && t2.hosts.Keys == t.hosts.Keys + {n.hostId}
      && t2.hosts[n.hostId].clusterId == id
      && (forall h :: h in t.hosts && h != n.hostId ==> t2.hosts[h] == t.hosts[h])
      && (forall h :: h in t.hosts ==> t2.hosts[h].name == t.hosts[h].name)
  {
  }

  /** The node writes of a non-empty list: the first node's two writes, then
      the rest's. */
  lemma NodeWritesCons(t: Tables, nodes: seq<ClusterNode>, id: string)
    requires nodes != []
    ensures ApplyAll(t, NodeWrites(nodes, id)) == ApplyAll(NodeStep(t, nodes[0], id), NodeWrites(nodes[1..], id))
    ensures NodeIds(nodes) == {nodes[0].id} + NodeIds(nodes[1..])
    ensures HostIds(nodes) == {nodes[0].hostId} + HostIds(nodes[1..])
  {
  }

  /** The node writes touch only the node and host tables. */
  lemma {:induction false} NodeWritesKeep(t: Tables, nodes: seq<ClusterNode>, id: string)
    ensures var r := ApplyAll(t, NodeWrites(nodes, id));
      r == t.(nodes := r.nodes, hosts := r.hosts)
    decreases |nodes|
  {
    if nodes != [] {
      NodeWritesCons(t, nodes, id);
      NodeWritesKeep(NodeStep(t, nodes[0], id), nodes[1..], id);
    }
  }

  /** The node writes bind every node row and leave the others. */
  lemma {:induction false} NodeWritesNodes(t: Tables, nodes: seq<ClusterNode>, id: string)
    ensures NodesBound(t.nodes, ApplyAll(t, NodeWrites(nodes, id)).nodes, nodes, id)
    decreases |nodes|
  {
    if nodes == [] {
      assert NodeIds(nodes) == {};
    } else {
      var t1 := NodeStep(t, nodes[0], id);
      NodeWritesCons(t, nodes, id);
      NodeStepEffect(t, nodes[0], id);
      NodeWritesNodes(t1, nodes[1..], id);
      NodesCons(t, t1, ApplyAll(t, NodeWrites(nodes, id)), nodes, id);
    }
  }

  /** Binding the first node, then the rest, binds them all. */
  lemma NodesCons(t: Tables, t1: Tables, r: Tables, nodes: seq<ClusterNode>, id: string)
    requires nodes != []
    requires t1.nodes == t.nodes[nodes[0].id := RowOf(nodes[0].(clusterId := id))]
    requires NodeIds(nodes) == {nodes[0].id} + NodeIds(nodes[1..])
    requires NodesBound(t1.nodes, r.nodes, nodes[1..], id)
    ensures NodesBound(t.nodes, r.nodes, nodes, id)
  {
    RowsCons(t1, r, nodes, id);
  }

  /** The row of the first node survives the writes of the rest unless a
      later node carries its id. */
  lemma RowsCons(t1: Tables, r: Tables, nodes: seq<ClusterNode>, id: string)
    requires nodes != []
    requires nodes[0].id in t1.nodes && t1.nodes[nodes[0].id] == RowOf(nodes[0].(clusterId := id))
    requires NodesBound(t1.nodes, r.nodes, nodes[1..], id)
    ensures RowsBound(r.nodes, nodes, id)
  {
    var rest := nodes[1..];
    forall i | 0 <= i < |nodes| && LastOfId(nodes, i)
      ensures nodes[i].id in r.nodes && r.nodes[nodes[i].id] == RowOf(nodes[i].(clusterId := id))
    {
      if i > 0 {
        assert rest[i - 1] == nodes[i];
        assert LastOfId(rest, i - 1) by {
          forall j | i - 1 < j < |rest|
            ensures rest[j].id != rest[i - 1].id
          {
            assert rest[j] == nodes[j + 1];
          }
        }
      }
    }
  }

  /** The node writes give every node's host to the cluster and leave the
      other hosts. */
  lemma {:induction false} NodeWritesHosts(t: Tables, nodes: seq<ClusterNode>, id: string)
    ensures HostsBound(t.hosts, ApplyAll(t, NodeWrites(nodes, id)).hosts, nodes, id)
    decreases |nodes|
  {
    if nodes == [] {
      assert HostIds(nodes) == {};
    } else {
      var t1 := NodeStep(t, nodes[0], id);
      NodeWritesCons(t, nodes, id);
      NodeStepEffect(t, nodes[0], id);
      NodeWritesHosts(t1, nodes[1..], id);
      HostsCons(t.hosts, t1.hosts, ApplyAll(t, NodeWrites(nodes, id)).hosts, nodes, id);
    }
  }

  /** Owning the first node's host, then the rest's, owns them all. */
  lemma HostsCons(before: map<string, Host>, mid: map<string, Host>, after: map<string, Host>,
                  nodes: seq<ClusterNode>, id: string)
    requires nodes != []
    requires mid.Keys == before.Keys + {nodes[0].hostId}
    requires mid[nodes[0].hostId].clusterId == id
    requires forall h :: h in before && h != nodes[0].hostId ==> mid[h] == before[h]
    requires forall h :: h in before ==> mid[h].name == before[h].name
    requires HostIds(nodes) == {nodes[0].hostId} + HostIds(nodes[1..])
    requires HostsBound(mid, after, nodes[1..], id)
    ensures HostsBound(before, after, nodes, id)
  {
  }

  /** The node writes bind every node and host, and touch no other table. */
  lemma NodeWritesEffect(t: Tables, nodes: seq<ClusterNode>, id: string)
    ensures var r := ApplyAll(t, NodeWrites(nodes, id));
      && r.specs == t.specs && r.statuses == t.statuses && r.secrets == t.secrets
      && r.tools == t.tools && r.clusters == t.clusters
      && Bound(t, r, nodes, id)
  {
    NodeWritesKeep(t, nodes, id);
    NodeWritesNodes(t, nodes, id);
    NodeWritesHosts(t, nodes, id);
  }

  /** Creating tools appends them to the tool table and touches nothing else. */
  lemma {:induction false} ToolWritesEffect(t: Tables, tools: seq<ClusterTool>)
    ensures ApplyAll(t, ToolWrites(tools)) == t.(tools := t.tools + tools)
    decreases |tools|
  {
    if tools == [] {
      assert ToolWrites(tools) == [];
      assert t.tools + tools == t.tools;
    } else {
      assert ToolWrites(tools) == [CreateTool(tools[0])] + ToolWrites(tools[1..]);
      var t1 := ApplyWrite(t, CreateTool(tools[0]));
      ToolWritesEffect(t1, tools[1..]);
      assert t.tools + [tools[0]] + tools[1..] == t.tools + tools;
    }
  }

  /** Committing the whole create log yields the created aggregate. */
  lemma CreateWritesBuildAggregate(t: Tables, c: Cluster, id: string)
    ensures Created(t, ApplyAll(t, CreateWrites(c, id)), c, id)
  {
    var head := [CreateSpec(c.spec), CreateStatus(c.status), CreateSecret(c.secret)];
    var nodes := NodeWrites(c.nodes, id);
    var tools := ToolWrites(StampTools(PrepareTools(), id));
    ApplyAllAppend(t, head + nodes, tools);
    ApplyAllAppend(t, head, nodes);
    var t1 := ApplyWrite(t, CreateSpec(c.spec));
    var t2 := ApplyWrite(t1, CreateStatus(c.status));
    var t3 := ApplyWrite(t2, CreateSecret(c.secret));
    assert head[1..] == [CreateStatus(c.status), CreateSecret(c.secret)];
    assert head[1..][1..] == [CreateSecret(c.secret)];
    assert head[1..][1..][1..] == [];
    assert ApplyAll(t, head) == ApplyAll(t1, head[1..]);
    assert ApplyAll(t1, head[1..]) == ApplyAll(t2, head[1..][1..]);
    assert ApplyAll(t2, head[1..][1..]) == ApplyAll(t3, []) == t3;
    NodeWritesEffect(t3, c.nodes, id);
    var t4 := ApplyAll(t3, nodes);
    ToolWritesEffect(t4, StampTools(PrepareTools(), id));
  }

  /** Appending a node appends its two writes. */
  lemma {:induction false} NodeWritesSnoc(nodes: seq<ClusterNode>, n: ClusterNode, id: string)
    ensures NodeWrites(nodes + [n], id)
         == NodeWrites(nodes, id) + [CreateNode(RowOf(n.(clusterId := id))), SaveHostOwner(n.hostId, id)]
    decreases |nodes|
  {
    if nodes == [] {
      assert nodes + [n] == [n] && [n][1..] == [];
    } else {
      assert (nodes + [n])[0] == nodes[0];
      assert (nodes + [n])[1..] == nodes[1..] + [n];
      NodeWritesSnoc(nodes[1..], n, id);
    }
  }

  /** One iteration of the node loop of BeforeCreate on node i: set its
      cluster id and create it, then set its host's cluster id and save the
      host, in the transaction. `cur` is the receiver before, and call s the
      first of the create. */
  method BindNode(c: Cluster, newId: string, tx: Tx, cur: Cluster, i: nat, ghost s: nat)
    returns (c': Cluster, err: Option<StoreError>)
    requires i < |c.nodes| && cur == Receiver(c, newId, 1 + 2 * i) && tx.db.calls == s + 3 + 2 * i
    modifies tx, tx.db`calls
    ensures Stopped(tx.db.fault, old(tx.db.calls), 2, tx.db.calls, err)
    ensures err.None? ==> tx.pending == old(tx.pending) + [CreateNode(RowOf(c.nodes[i].(clusterId := newId)))]
                                      + [SaveHostOwner(c.nodes[i].hostId, newId)]
    ensures err.None? ==> c' == Receiver(c, newId, 3 + 2 * i)
    ensures err.Some? ==> c' == ReceiverAt(c, newId, tx.db.calls - 1 - s)
  {
    ReceiverStep(c, newId, i);
    c' := cur.(nodes := cur.nodes[i := cur.nodes[i].(clusterId := newId)]);
    err := tx.Exec(CreateNode(RowOf(c.nodes[i].(clusterId := newId))));
    if err.Some? {
      return;
    }
    c' := c'.(nodes := c'.nodes[i := c'.nodes[i].(host := c'.nodes[i].host.(clusterId := newId))]);
    err := tx.Exec(SaveHostOwner(c.nodes[i].hostId, newId));
  }

  /** The node loop of BeforeCreate, one BindNode per node. The first
      failing call stops the loop. `c0` is the receiver as it enters the
      loop, and call s the first of the create, three calls before the loop. */
  method BindNodes(c: Cluster, newId: string, tx: Tx, c0: Cluster, ghost s: nat) returns (c': Cluster, err: Option<StoreError>)
    requires c0 == Receiver(c, newId, 1) && tx.db.calls == s + 3
    modifies tx, tx.db`calls
    ensures Stopped(tx.db.fault, old(tx.db.calls), 2 * |c.nodes|, tx.db.calls, err)
    ensures err.None? ==> tx.pending == old(tx.pending) + NodeWrites(c.nodes, newId)
    ensures err.None? ==> c' == Receiver(c, newId, 1 + 2 * |c.nodes|)
    ensures err.Some? ==> c' == ReceiverAt(c, newId, tx.db.calls - 1 - s)
  {
    ghost var start := tx.db.calls;
    ghost var p0 := tx.pending;
    c' := c0;
    err := None;
    var i := 0;
    while i < |c.nodes|
      invariant 0 <= i <= |c.nodes|
      invariant tx.db.calls == start + 2 * i
      invariant !FailsWithin(tx.db.fault, start, tx.db.calls)
      invariant tx.pending == p0 + NodeWrites(c.nodes[..i], newId)
      invariant err == None
      invariant c' == Receiver(c, newId, 1 + 2 * i)
    {
      c', err := BindNode(c, newId, tx, c', i, s);
      if err.Some? {
        return;
      }
      NodeWritesStep(p0, c.nodes, i, newId);
      i := i + 1;
    }
    assert c.nodes[..|c.nodes|] == c.nodes;
  }

  /** The tool loop of BeforeCreate over the catalog `tools`: each tool,
      given the cluster's id, is created in the transaction. The first
      failing call stops it. */
  method AddTools(newId: string, tools: seq<ClusterTool>, tx: Tx) returns (err: Option<StoreError>)
    modifies tx, tx.db`calls
    ensures Stopped(tx.db.fault, old(tx.db.calls), |tools|, tx.db.calls, err)
    ensures err.None? ==> tx.pending == old(tx.pending) + ToolWrites(StampTools(tools, newId))
  {
    ghost var start := tx.db.calls;
    ghost var p0 := tx.pending;
    ghost var log := ToolWrites(StampTools(tools, newId));
    err := None;
    for j := 0 to |tools|
      invariant tx.db.calls == start + j
      invariant !FailsWithin(tx.db.fault, start, tx.db.calls)
      invariant tx.pending == p0 + log[..j]
      invariant err == None
    {
      var tool := tools[j].(clusterId := newId);
      err := tx.Exec(CreateTool(tool));
      if err.Some? {
        return;
      }
      LogStep(p0, log, j);
    }
    LogWhole(p0, log);
  }

  /** What BeforeCreate leaves when its first store call is call s: the
      committed tables, the returned error, the receiver and the store's call
      count. A failed call rolls the transaction back, so nothing is
      committed. */
  function CreateOutcome(t: Tables, c: Cluster, id: string, fault: Option<nat>, s: nat)
    : (out: (Tables, Option<StoreError>, Cluster, nat))
    ensures out.2.id == id
    ensures out.1.Some? ==> out.0 == t
  {
    if FailsWithin(fault, s, s + CreateCalls(c)) then
      (t, Some(CallFailed(fault.value)), ReceiverAt(c, id, fault.value - s), fault.value + 1)
    else (ApplyAll(t, CreateWrites(c, id)), None, ReceiverAt(c, id, CreateCalls(c)), s + CreateCalls(c))
  }

  /** A create succeeds exactly when none of its store calls fails; it then
      commits the created aggregate, and the receiver records the ids of its
      spec, status and secret and has every node and host bound. */
  lemma CreateSucceeds(t: Tables, c: Cluster, id: string, fault: Option<nat>, s: nat)
    ensures CreateOutcome(t, c, id, fault, s).1.None? <==> !FailsWithin(fault, s, s + CreateCalls(c))
    ensures CreateOutcome(t, c, id, fault, s).1.None? ==>
      var out := CreateOutcome(t, c, id, fault, s);
      && Created(t, out.0, c, id)
      && out.2.specId == c.spec.id && out.2.statusId == c.status.id && out.2.secretId == c.secret.id
      && |out.2.nodes| == |c.nodes|
      && (forall i :: 0 <= i < |c.nodes| ==> out.2.nodes[i] == Stamp(c.nodes[i], id))
  {
    if !FailsWithin(fault, s, s + CreateCalls(c)) {
      CreateWritesBuildAggregate(t, c, id);
    }
  }

  /** A successful create commits exactly the four catalog tools after the
      existing ones, each owned by the new cluster and waiting. */
  lemma CreateAddsCatalogTools(t: Tables, c: Cluster, id: string, fault: Option<nat>, s: nat)
    requires CreateOutcome(t, c, id, fault, s).1.None?
    ensures var r := CreateOutcome(t, c, id, fault, s).0;
      && |r.tools| == |t.tools| + 4
      && r.tools[..|t.tools|] == t.tools
      && forall i :: 0 <= i < 4 ==>
           && r.tools[|t.tools| + i].name == TOOL_NAMES[i]
           && r.tools[|t.tools| + i].clusterId == id
           && r.tools[|t.tools| + i].status == Waiting
  {
    CreateSucceeds(t, c, id, fault, s);
    var r := CreateOutcome(t, c, id, fault, s).0;
    assert r.tools == t.tools + StampTools(PrepareTools(), id);
    forall i | 0 <= i < 4
      ensures r.tools[|t.tools| + i] == PrepareTools()[i].(clusterId := id)
    {
    }
  }

  /** A run of the create's calls that stops at the first failure ends
      with the outcome CreateOutcome describes. */
  lemma CreateOutcomeStopped(t: Tables, c: Cluster, id: string, fault: Option<nat>, s: nat, calls: nat, err: Option<StoreError>)
    requires Stopped(fault, s, CreateCalls(c), calls, err)
    ensures CreateOutcome(t, c, id, fault, s)
         == (if err.Some? then t else ApplyAll(t, CreateWrites(c, id)), err,
             ReceiverAt(c, id, if err.Some? then calls - 1 - s else CreateCalls(c)), calls)
  {
  }

  /** The first three calls of BeforeCreate: its spec, status and secret are
      created in the transaction. The first failing call stops it. */
  method CreateRecords(c: Cluster, tx: Tx) returns (err: Option<StoreError>)
    modifies tx, tx.db`calls
    ensures Stopped(tx.db.fault, old(tx.db.calls), 3, tx.db.calls, err)
    ensures err.None? ==>
      tx.pending == old(tx.pending) + [CreateSpec(c.spec)] + [CreateStatus(c.status)] + [CreateSecret(c.secret)]
  {
    err := tx.Exec(CreateSpec(c.spec));
    if err.Some? {
      return;
    }
    err := tx.Exec(CreateStatus(c.status));
    if err.Some? {
      return;
    }
    err := tx.Exec(CreateSecret(c.secret));
    if err.Some? {
      return;
    }
  }

  /** The staging part of BeforeCreate, from the receiver `c0` that has
      its new id. The first failing call stops it; otherwise the whole create
      log is staged. */
  method StageCreate(c: Cluster, newId: string, tx: Tx, c0: Cluster) returns (c': Cluster, err: Option<StoreError>)
    requires c0 == Receiver(c, newId, 0)
    modifies tx, tx.db`calls
    ensures Stopped(tx.db.fault, old(tx.db.calls), CreateCalls(c), tx.db.calls, err)
    ensures c' == ReceiverAt(c, newId, if err.Some? then tx.db.calls - 1 - old(tx.db.calls) else CreateCalls(c))
    ensures err.None? ==> tx.pending == old(tx.pending) + CreateWrites(c, newId)
  {
    ghost var s := tx.db.calls;
    ghost var p0 := tx.pending;
    ReceiverStart(c, newId);
    c' := c0;
    err := CreateRecords(c', tx);
    if err.None? {
      c' := c'.(specId := c'.spec.id, statusId := c'.status.id, secretId := c'.secret.id);
      c', err := BindNodes(c, newId, tx, c', s);
      if err.None? {
        err := AddTools(newId, PrepareTools(), tx);
        if err.Some? {
          ReceiverSettled(c, newId, tx.db.calls - 2 - s);
        } else {
          ReceiverSettled(c, newId, CreateCalls(c) - 1);
          CreateLog(p0, c, newId);
        }
      }
    }
  }

  /** BeforeCreate: gives the cluster the id `newId`, then creates its spec,
      status and secret, each node and its host's ownership, and the catalog
      tools, all in one transaction. The first store call that fails rolls
      the transaction back and its error is returned; otherwise the log is
      committed. The receiver's updates are returned in `c'`. */
  method BeforeCreate(c: Cluster, newId: string, db: Store) returns (c': Cluster, err: Option<StoreError>)
    modifies db
    ensures (db.committed, err, c', db.calls) == CreateOutcome(old(db.committed), c, newId, db.fault, old(db.calls))
  {
    c' := c.(id := newId);
    ReceiverStart(c, newId);
    var tx := db.Begin();
    c', err := StageCreate(c, newId, tx, c');
    CreateOutcomeStopped(old(db.committed), c, newId, db.fault, old(db.calls), db.calls, err);
    if err.Some? {
      tx.Rollback();
    } else {
      assert tx.pending == CreateWrites(c, newId);
      tx.Commit();
    }
  }

  // ---------------------------------------------------------------------
  // Delete
  // ---------------------------------------------------------------------

  function Bit(b: bool): nat {
    if b then 1 else 0
  }

  /** Removes a recorded id, unless it is empty (the `if id != ""` guards). */
  function DropIfSet<V>(m: map<string, V>, id: string): map<string, V> {
    if id == "" then m else m - {id}
  }

  /** The number of store calls of a delete that fails none: the load, one
      per recorded id, one per node. */
  function DeleteCalls(row: ClusterRow, owned: set<string>): nat {
    1 + Bit(row.specId != "") + Bit(row.statusId != "") + Bit(row.secretId != "") + |owned|
  }


  /** What the spec, status and secret deletes of BeforeDelete leave for
      the cluster row `row` when the first of them is call s: the committed
      tables, the error of the failing call, if any, and the call count
      afterwards. An id that is not recorded issues no call. */
  function RecordsOutcome(t: Tables, row: ClusterRow, fault: Option<nat>, s: nat): (out: (Tables, Option<StoreError>, nat))
    ensures out.0.tools == t.tools && out.0.hosts == t.hosts && out.0.clusters == t.clusters
    ensures out.0.statuses == t.statuses && out.0.nodes == t.nodes
    ensures s <= out.2
  {
    var statusCall := s + Bit(row.specId != "");
    var secretCall := statusCall + Bit(row.statusId != "");
    if row.specId != "" && Fails(fault, s) then (t, Some(CallFailed(s)), s + 1)
    else
      var t1 := t.(specs := DropIfSet(t.specs, row.specId));
      if row.statusId != "" && Fails(fault, statusCall) then (t1, Some(CallFailed(statusCall)), statusCall + 1)
      else if row.secretId != "" && Fails(fault, secretCall) then (t1, Some(CallFailed(secretCall)), secretCall + 1)
      else (t1.(secrets := DropIfSet(t1.secrets, row.secretId)), None, secretCall + Bit(row.secretId != ""))
  }

  /** What BeforeDelete leaves: the committed tables, the returned error and
      the call count afterwards, when its first store call is call s. The
      spec and secret deletes go through the global handle and stay applied
      whatever happens later; the status and node deletes are staged in the
      transaction and applied only by its commit. A failing call is the last
      one issued. */
  function DeleteOutcome(t: Tables, id: string, fault: Option<nat>, s: nat): (out: (Tables, Option<StoreError>, nat))
    ensures out.0.tools == t.tools && out.0.hosts == t.hosts && out.0.clusters == t.clusters
    ensures out.1.Some? ==> out.0.statuses == t.statuses && out.0.nodes == t.nodes
    ensures Fails(fault, s) || id !in t.clusters ==> out.0 == t && out.1.Some? && out.2 == s + 1
    ensures out.1.Some? && out.1.value.CallFailed? ==> out.2 == out.1.value.call + 1
    ensures s < out.2
  {
    if Fails(fault, s) then (t, Some(CallFailed(s)), s + 1)
    else if id !in t.clusters then (t, Some(NotFound), s + 1)
    else
      var row := t.clusters[id];
      var owned := OwnedNodes(t, id);
      var records := RecordsOutcome(t, row, fault, s + 1);
      var t2, nodeCall := records.0, records.2;
      if records.1.Some? then records
      else if FailsWithin(fault, nodeCall, nodeCall + |owned|) then (t2, Some(CallFailed(fault.value)), fault.value + 1)
      else (t2.(statuses := DropIfSet(t2.statuses, row.statusId), nodes := t2.nodes - owned), None, nodeCall + |owned|)
  }

  /** A delete succeeds exactly when the cluster exists and none of its
      store calls fails; it then removes the recorded spec, status and
      secret and every node of the cluster, and nothing else. */
  lemma DeleteSucceeds(t: Tables, id: string, fault: Option<nat>, s: nat)
    ensures DeleteOutcome(t, id, fault, s).1.None? <==>
      id in t.clusters && !FailsWithin(fault, s, s + DeleteCalls(t.clusters[id], OwnedNodes(t, id)))
    ensures DeleteOutcome(t, id, fault, s).1.None? ==>
      var row, r := t.clusters[id], DeleteOutcome(t, id, fault, s).0;
      && r.specs == DropIfSet(t.specs, row.specId)
      && r.statuses == DropIfSet(t.statuses, row.statusId)
      && r.secrets == DropIfSet(t.secrets, row.secretId)
      && r.nodes == t.nodes - OwnedNodes(t, id)
      && (forall k :: k in r.nodes ==> r.nodes[k].clusterId != id)
      && DeleteOutcome(t, id, fault, s).2 == s + DeleteCalls(row, OwnedNodes(t, id))
  {
  }

  /** A failure after the spec delete leaves the spec deleted, because that
      delete went through the global handle; the status and node deletes,
      staged in the transaction, are undone. */
  lemma SpecDeleteSurvivesFailure(t: Tables, id: string, fault: Option<nat>, s: nat)
    requires id in t.clusters && t.clusters[id].specId != ""
    requires !Fails(fault, s) && !Fails(fault, s + 1)
    requires DeleteOutcome(t, id, fault, s).1.Some?
    ensures t.clusters[id].specId !in DeleteOutcome(t, id, fault, s).0.specs
    ensures DeleteOutcome(t, id, fault, s).0.statuses == t.statuses
    ensures DeleteOutcome(t, id, fault, s).0.nodes == t.nodes
  {
  }

  /** A failing node delete leaves the secret deleted (global handle) while
      the status and every node stay (transaction rolled back). */
  lemma SecretDeleteSurvivesNodeFailure(t: Tables, id: string, fault: Option<nat>, s: nat)
    requires id in t.clusters && t.clusters[id].secretId != ""
    requires !FailsWithin(fault, s, s + DeleteCalls(t.clusters[id], OwnedNodes(t, id)) - |OwnedNodes(t, id)|)
    requires DeleteOutcome(t, id, fault, s).1.Some?
    ensures t.clusters[id].secretId !in DeleteOutcome(t, id, fault, s).0.secrets
    ensures DeleteOutcome(t, id, fault, s).0.statuses == t.statuses
    ensures DeleteOutcome(t, id, fault, s).0.nodes == t.nodes
  {
  }

  /** The node loop of BeforeDelete: the delete of each preloaded node is
      staged in the transaction. The first failing call stops it. Applied
      to `base`, the staged log then removes exactly those nodes beyond what
      it did before. */
  method DeleteNodes(owned: set<string>, tx: Tx, ghost base: Tables) returns (err: Option<StoreError>)
    modifies tx, tx.db`calls
    ensures Stopped(tx.db.fault, old(tx.db.calls), |owned|, tx.db.calls, err)
    ensures err.None? ==>
      var b0 := ApplyAll(base, old(tx.pending));
      ApplyAll(base, tx.pending) == b0.(nodes := b0.nodes - owned)
  {
    ghost var start := tx.db.calls;
    ghost var b0 := ApplyAll(base, tx.pending);
    assert b0.nodes - {} == b0.nodes;
    err := None;
    var rest := owned;
    while rest != {}
      invariant rest <= owned
      invariant tx.db.calls == start + |owned| - |rest|
      invariant !FailsWithin(tx.db.fault, start, tx.db.calls)
      invariant err == None
      invariant ApplyAll(base, tx.pending) == b0.(nodes := b0.nodes - (owned - rest))
      decreases |rest|
    {
      var nodeId :| nodeId in rest;
      ghost var before := tx.pending;
      err := tx.Exec(DeleteNode(nodeId));
      if err.Some? {
        return;
      }
      ApplyAllSnoc(base, before, DeleteNode(nodeId));
      DeleteNodeStep(b0, owned - rest, nodeId);
      assert (owned - rest) + {nodeId} == owned - (rest - {nodeId});
      rest := rest - {nodeId};
    }
  }

  /** Deleting one more node row from tables that have lost `gone`. */
  lemma DeleteNodeStep(b0: Tables, gone: set<string>, k: string)
    ensures ApplyWrite(b0.(nodes := b0.nodes - gone), DeleteNode(k)) == b0.(nodes := b0.nodes - (gone + {k}))
  {
    assert b0.nodes - gone - {k} == b0.nodes - (gone + {k});
  }

  /** The spec, status and secret deletes of BeforeDelete: the spec and
      secret through the global handle, the status in the transaction. The
      first failing call stops them. */
  method DeleteRecords(row: ClusterRow, db: Store, tx: Tx) returns (err: Option<StoreError>)
    requires tx.db == db && tx.pending == []
    modifies db, tx
    ensures (db.committed, err, db.calls) == RecordsOutcome(old(db.committed), row, db.fault, old(db.calls))
    ensures err.None? ==> tx.pending == if row.statusId != "" then [DeleteStatus(row.statusId)] else []
  {
    err := None;
    if row.specId != "" {
      err := db.Exec(DeleteSpec(row.specId));
      if err.Some? {
        return;
      }
    }
    if row.statusId != "" {
      err := tx.Exec(DeleteStatus(row.statusId));
      if err.Some? {
        return;
      }
    }
    if row.secretId != "" {
      err := db.Exec(DeleteSecret(row.secretId));
    }
  }

  /** BeforeDelete: loads the cluster with its nodes, then deletes its spec
      (global handle), status (transaction), secret (global handle) and each
      node (transaction), and commits. The first failing call rolls the
      transaction back and its error is returned. Tools are never deleted. */
  method BeforeDelete(id: string, db: Store) returns (err: Option<StoreError>)
    modifies db
    ensures (db.committed, err, db.calls) == DeleteOutcome(old(db.committed), id, db.fault, old(db.calls))
  {
    var row, owned;
    row, owned, err := db.LoadCluster(id);
    if err.Some? {
      return;
    }
    var tx := db.Begin();
    err := DeleteRecords(row, db, tx);
    if err.None? {
      assert ApplyAll(db.committed, tx.pending)
          == db.committed.(statuses := DropIfSet(db.committed.statuses, row.statusId)) by {
        if row.statusId != "" {
          ApplyOne(db.committed, DeleteStatus(row.statusId));
        }
      }
      err := DeleteNodes(owned, tx, db.committed);
    }
    if err.Some? {
      tx.Rollback();
    } else {
      tx.Commit();
    }
  }
}
