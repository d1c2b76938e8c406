/** The provisioning inventory derived from a cluster's nodes (ParseInventory). */
module InventoryBuilder {
  import opened ClusterTypes

  /** One inventory group. `children` is None where the source leaves the
      list unset and Some([]) where it gives an explicit empty list. */
  datatype Group = Group(
    name: string,
    hosts: seq<string>,
    children: Option<seq<string>>,
    vars: map<string, string>)

  /** The inventory; H is the host descriptor produced for each node. */
  datatype Inventory<H> = Inventory(hosts: seq<H>, groups: seq<Group>)

  const GROUP_NAMES: seq<string> :=
    ["kube-master", "kube-worker", "new-worker", "lb", "etcd", "chrony", "del-worker"]

  /** A node takes part in its role's group only when its status is unset
      or running. */
  predicate Counted(n: ClusterNode, role: Role) {
    n.role == role && (n.status == Unset || n.status == Running)
  }

  /** The names of the counted nodes of a role, in node order. */
  function NamesWithRole(nodes: seq<ClusterNode>, role: Role): (names: seq<string>)
    ensures |names| <= |nodes|
  {
    if nodes == [] then []
    else (if Counted(nodes[0], role) then [nodes[0].name] else []) + NamesWithRole(nodes[1..], role)
  }

  /** Splitting the node list splits the name list at the same place: the
      names keep the order in which their nodes are met. */
  lemma {:induction false} NamesWithRoleAppend(a: seq<ClusterNode>, b: seq<ClusterNode>, role: Role)
    ensures NamesWithRole(a + b, role) == NamesWithRole(a, role) + NamesWithRole(b, role)
  {
    if a == [] {
      assert a + b == b;
    } else {
      var head := if Counted(a[0], role) then [a[0].name] else [];
      assert (a + b)[0] == a[0];
      assert (a + b)[1..] == a[1..] + b;
      assert NamesWithRole(a + b, role) == head + NamesWithRole(a[1..] + b, role);
      NamesWithRoleAppend(a[1..], b, role);
      assert head + (NamesWithRole(a[1..], role) + NamesWithRole(b, role))
          == (head + NamesWithRole(a[1..], role)) + NamesWithRole(b, role);
    }
  }

  /** A name is listed exactly when some counted node of the role has it. */
  lemma {:induction false} NamesWithRoleMembership(nodes: seq<ClusterNode>, role: Role, x: string)
    ensures x in NamesWithRole(nodes, role) <==>
      exists i :: 0 <= i < |nodes| && Counted(nodes[i], role) && nodes[i].name == x
  {
    if nodes != [] {
      NamesWithRoleMembership(nodes[1..], role, x);
      if exists i :: 0 <= i < |nodes[1..]| && Counted(nodes[1..][i], role) && nodes[1..][i].name == x {
        var i :| 0 <= i < |nodes[1..]| && Counted(nodes[1..][i], role) && nodes[1..][i].name == x;
        assert nodes[i + 1] == nodes[1..][i];
      }
      if exists i :: 0 <= i < |nodes| && Counted(nodes[i], role) && nodes[i].name == x {
        var i :| 0 <= i < |nodes| && Counted(nodes[i], role) && nodes[i].name == x;
        if i > 0 { assert nodes[1..][i - 1] == nodes[i]; }
      }
    }
  }

  /** A node that is not counted for a role contributes nothing to it: the
      list is the same with that node removed. */
  lemma NamesWithRoleSkips(nodes: seq<ClusterNode>, role: Role, i: nat)
    requires i < |nodes| && !Counted(nodes[i], role)
    ensures NamesWithRole(nodes, role) == NamesWithRole(nodes[..i] + nodes[i + 1..], role)
  {
    assert nodes == nodes[..i] + ([nodes[i]] + nodes[i + 1..]);
    NamesWithRoleAppend(nodes[..i], [nodes[i]] + nodes[i + 1..], role);
    NamesWithRoleAppend([nodes[i]], nodes[i + 1..], role);
    NamesWithRoleAppend(nodes[..i], nodes[i + 1..], role);
  }

  /** No node is counted as both master and worker. */
  lemma {:induction false} MastersAndWorkersShareNoNode(nodes: seq<ClusterNode>)
    ensures |NamesWithRole(nodes, Master)| + |NamesWithRole(nodes, Worker)| <= |nodes|
  {
    if nodes != [] {
      MastersAndWorkersShareNoNode(nodes[1..]);
    }
  }

  /** The node loop of ParseInventory: a host descriptor per node, and the
      names of the counted masters and workers, in node order. */
  method CollectNodes<H>(nodes: seq<ClusterNode>, toHost: ClusterNode -> H)
    returns (hosts: seq<H>, masters: seq<string>, workers: seq<string>)
    ensures |hosts| == |nodes|
    ensures forall i :: 0 <= i < |nodes| ==> hosts[i] == toHost(nodes[i])
    ensures masters == NamesWithRole(nodes, Master)
    ensures workers == NamesWithRole(nodes, Worker)
  {
    hosts, masters, workers := [], [], [];
    for i := 0 to |nodes|
      invariant |hosts| == i
      invariant forall j :: 0 <= j < i ==> hosts[j] == toHost(nodes[j])
      invariant masters == NamesWithRole(nodes[..i], Master)
      invariant workers == NamesWithRole(nodes[..i], Worker)
    {
      var node := nodes[i];
      hosts := hosts + [toHost(node)];
      match node.role {
        case Master =>
          if node.status == Unset || node.status == Running {
            masters := masters + [node.name];
          }
        case Worker =>
          if node.status == Unset || node.status == Running {
            workers := workers + [node.name];
          }
        case OtherRole(_) =>
      }
      assert nodes[..i + 1] == nodes[..i] + [node];
      NamesWithRoleAppend(nodes[..i], [node], Master);
      NamesWithRoleAppend(nodes[..i], [node], Worker);
    }
    assert nodes[..|nodes|] == nodes;
  }

  /** ParseInventory: one host descriptor per node, the counted masters and
      workers, at most one chrony host, and the seven fixed groups. */
  method ParseInventory<H>(c: Cluster, toHost: ClusterNode -> H) returns (inv: Inventory<H>)
    ensures |inv.hosts| == |c.nodes|
    ensures forall i :: 0 <= i < |c.nodes| ==> inv.hosts[i] == toHost(c.nodes[i])
    ensures |inv.groups| == |GROUP_NAMES|
    ensures forall g :: 0 <= g < |inv.groups| ==> inv.groups[g].name == GROUP_NAMES[g]
    ensures forall g :: 0 <= g < |inv.groups| ==> inv.groups[g].vars == map[]
    ensures inv.groups[0].hosts == NamesWithRole(c.nodes, Master)
    ensures inv.groups[1].hosts == NamesWithRole(c.nodes, Worker)
    ensures inv.groups[2].hosts == [] && inv.groups[3].hosts == [] && inv.groups[6].hosts == []
    ensures inv.groups[4].hosts == inv.groups[0].hosts
    ensures |inv.groups[5].hosts| <= 1
    ensures inv.groups[5].hosts == if inv.groups[0].hosts == [] then [] else [inv.groups[0].hosts[0]]
    ensures inv.groups[1].children == Some(["kube-master"]) && inv.groups[4].children == Some(["kube-master"])
    ensures inv.groups[2].children == None
    ensures inv.groups[0].children == inv.groups[3].children == inv.groups[5].children
         == inv.groups[6].children == Some([])
  {
    var hosts, masters, workers := CollectNodes(c.nodes, toHost);
    var chrony: seq<string> := [];
    if |masters| > 0 {
      chrony := chrony + [masters[0]];
    }
    inv := Inventory(hosts, [
      Group("kube-master", masters, Some([]), map[]),
      Group("kube-worker", workers, Some(["kube-master"]), map[]),
      Group("new-worker", [], None, map[]),
      Group("lb", [], Some([]), map[]),
      Group("etcd", masters, Some(["kube-master"]), map[]),
      Group("chrony", chrony, Some([]), map[]),
      Group("del-worker", [], Some([]), map[])
    ]);
  }

  /** The example of a running master, a waiting master and a running
      worker: only the running nodes are grouped. */
  lemma RunningNodesOnly(m1: ClusterNode, m2: ClusterNode, w1: ClusterNode)
    requires m1.role == Master && m1.status == Running
    requires m2.role == Master && m2.status == Waiting
    requires w1.role == Worker && w1.status == Running
    ensures NamesWithRole([m1, m2, w1], Master) == [m1.name]
    ensures NamesWithRole([m1, m2, w1], Worker) == [w1.name]
  {
    assert [m1, m2, w1][1..] == [m2, w1];
    assert [m2, w1][1..] == [w1];
    assert [w1][1..] == [];
    assert NamesWithRole([w1], Master) == [] && NamesWithRole([w1], Worker) == [w1.name];
    assert NamesWithRole([m2, w1], Master) == [] && NamesWithRole([m2, w1], Worker) == [w1.name];
  }

  /** The same example through ParseInventory: the running master alone is
      in kube-master, etcd and chrony, the running worker alone in
      kube-worker, and the other groups stay empty. */
  method RunningNodesInventory<H>(c: Cluster, toHost: ClusterNode -> H, m1: ClusterNode, m2: ClusterNode, w1: ClusterNode)
    returns (inv: Inventory<H>)
    requires m1.role == Master && m1.status == Running
    requires m2.role == Master && m2.status == Waiting
    requires w1.role == Worker && w1.status == Running
    requires c.nodes == [m1, m2, w1]
    ensures inv.hosts == [toHost(m1), toHost(m2), toHost(w1)]
    ensures |inv.groups| == 7
    ensures inv.groups[0].hosts == [m1.name] && inv.groups[4].hosts == [m1.name]
    ensures inv.groups[5].hosts == [m1.name]
    ensures inv.groups[1].hosts == [w1.name]
    ensures inv.groups[2].hosts == [] && inv.groups[3].hosts == [] && inv.groups[6].hosts == []
  {
    inv := ParseInventory(c, toHost);
    RunningNodesOnly(m1, m2, w1);
  }
}
