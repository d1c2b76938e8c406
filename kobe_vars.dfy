/** The projection of a cluster's specification onto provisioning variables. */
module KobeVars {
  import opened ClusterTypes

  /** The seven fact-name keys of the provisioning engine (the `facts`
      package). Their spelling is opaque; GetKobeVars takes them as given. */
  datatype FactNames = FactNames(
    networkPlugin: string,
    containerRuntime: string,
    dockerStorageDir: string,
    containerdStorageDir: string,
    lbKubeApiserverPort: string,
    kubePodSubnet: string,
    kubeServiceSubnet: string)
  {
    /** The keys in the order GetKobeVars writes them. */
    function Keys(): seq<string> {
      [networkPlugin, containerRuntime, dockerStorageDir, containerdStorageDir,
       lbKubeApiserverPort, kubePodSubnet, kubeServiceSubnet]
    }

    predicate Distinct() {
      forall i, j :: 0 <= i < j < |Keys()| ==> Keys()[i] != Keys()[j]
    }
  }

  /** The specification fields GetKobeVars reads, paired position by position
      with FactNames.Keys(). Position 4 pairs the load balancer's API-server
      address with the key named for its port, as the source does. */
  function SpecValues(spec: ClusterSpec): seq<string> {
    [spec.networkType, spec.runtimeType, spec.dockerStorageDir, spec.containerdStorageDir,
     spec.lbKubeApiserverIp, spec.kubePodSubnet, spec.kubeServiceSubnet]
  }

  /** One `if field != "" { result[key] = field }` step. */
  function PutIfSet(m: map<string, string>, key: string, value: string): map<string, string> {
    if value == "" then m else m[key := value]
  }

  /** The if-chain of GetKobeVars as a left fold: each (key, field) pair in
      turn, a later key overwriting an earlier equal one. */
  function Project(m: map<string, string>, keys: seq<string>, values: seq<string>): (r: map<string, string>)
    requires |keys| == |values|
    decreases |keys|
  {
    if keys == [] then m
    else Project(PutIfSet(m, keys[0], values[0]), keys[1..], values[1..])
  }

  /** GetKobeVars: the sparse variable map of the cluster's specification.
      It stores no empty value, no key outside the seven fact names, at most
      seven entries, and nothing at all for an empty specification. */
  function GetKobeVars(c: Cluster, facts: FactNames): (vars: map<string, string>)
    ensures forall k :: k in vars ==> vars[k] != ""
    ensures forall k :: k in vars ==> k in facts.Keys()
    ensures |vars| <= 7
    ensures (forall i :: 0 <= i < |SpecValues(c.spec)| ==> SpecValues(c.spec)[i] == "") ==> vars == map[]
  {
    ProjectBounds(map[], facts.Keys(), SpecValues(c.spec));
    Project(map[], facts.Keys(), SpecValues(c.spec))
  }

  /** Project never adds an empty value, uses no key outside the given
      ones, adds at most one entry per pair, and changes nothing when every
      field is empty. */
  lemma {:induction false} ProjectBounds(m: map<string, string>, keys: seq<string>, values: seq<string>)
    requires |keys| == |values|
    ensures (forall k :: k in m ==> m[k] != "") ==>
      forall k :: k in Project(m, keys, values) ==> Project(m, keys, values)[k] != ""
    ensures forall k :: k in Project(m, keys, values) ==> k in m || k in keys
    ensures |Project(m, keys, values)| <= |m| + |keys|
    ensures (forall i :: 0 <= i < |values| ==> values[i] == "") ==> Project(m, keys, values) == m
    decreases |keys|
  {
    if keys != [] {
      var m' := PutIfSet(m, keys[0], values[0]);
      ProjectBounds(m', keys[1..], values[1..]);
      assert forall k :: k in keys[1..] ==> k in keys;
      if forall i :: 0 <= i < |values| ==> values[i] == "" {
        assert values[0] == "";
        assert forall i :: 0 <= i < |values[1..]| ==> values[1..][i] == values[i + 1];
      }
    }
  }

  /** With distinct keys that are not yet in the map, key i ends up present
      exactly when field i is non-empty, and then holds that field. */
  lemma {:induction false} ProjectExact(m: map<string, string>, keys: seq<string>, values: seq<string>, i: nat)
    requires |keys| == |values| && i < |keys|
    requires forall a, b :: 0 <= a < b < |keys| ==> keys[a] != keys[b]
    requires keys[i] !in m
    ensures keys[i] in Project(m, keys, values) <==> values[i] != ""
    ensures keys[i] in Project(m, keys, values) ==> Project(m, keys, values)[keys[i]] == values[i]
    decreases |keys|
  {
    var m' := PutIfSet(m, keys[0], values[0]);
    if i == 0 {
      ProjectKeeps(m', keys[1..], values[1..], keys[0]);
    } else {
      assert keys[1..][i - 1] == keys[i];
      ProjectExact(m', keys[1..], values[1..], i - 1);
    }
  }

  /** A key outside the remaining pairs keeps whatever the map already had. */
  lemma {:induction false} ProjectKeeps(m: map<string, string>, keys: seq<string>, values: seq<string>, k: string)
    requires |keys| == |values|
    requires k !in keys
    ensures (k in Project(m, keys, values)) == (k in m)
    ensures k in m ==> Project(m, keys, values)[k] == m[k]
    decreases |keys|
  {
    if keys != [] {
      assert k !in keys[1..];
      ProjectKeeps(PutIfSet(m, keys[0], values[0]), keys[1..], values[1..], k);
    }
  }

  /** With distinct keys, each key is present exactly when its field is
      non-empty, and then holds that field's value. */
  lemma KobeVarsExact(c: Cluster, facts: FactNames, i: nat)
    requires facts.Distinct()
    requires i < |facts.Keys()|
    ensures facts.Keys()[i] in GetKobeVars(c, facts) <==> SpecValues(c.spec)[i] != ""
    ensures facts.Keys()[i] in GetKobeVars(c, facts) ==>
      GetKobeVars(c, facts)[facts.Keys()[i]] == SpecValues(c.spec)[i]
  {
    ProjectExact(map[], facts.Keys(), SpecValues(c.spec), i);
  }

  /** The address of the load balancer's API server is published under the
      port's fact name. */
  lemma LbAddressUnderPortKey(c: Cluster, facts: FactNames)
    requires facts.Distinct()
    requires c.spec.lbKubeApiserverIp != ""
    ensures facts.lbKubeApiserverPort in GetKobeVars(c, facts)
    ensures GetKobeVars(c, facts)[facts.lbKubeApiserverPort] == c.spec.lbKubeApiserverIp
  {
    KobeVarsExact(c, facts, 4);
  }

  /** A specification that sets only its network plugin projects to that
      single entry. */
  lemma OnlyNetworkPluginSet(c: Cluster, facts: FactNames)
    requires facts.Distinct()
    requires c.spec.networkType != ""
    requires forall i :: 1 <= i < |SpecValues(c.spec)| ==> SpecValues(c.spec)[i] == ""
    ensures GetKobeVars(c, facts) == map[facts.networkPlugin := c.spec.networkType]
  {
    var keys, values := facts.Keys(), SpecValues(c.spec);
    var first := map[facts.networkPlugin := c.spec.networkType];
    assert Project(map[], keys, values) == Project(first, keys[1..], values[1..]);
    ProjectBounds(first, keys[1..], values[1..]);
  }
}
