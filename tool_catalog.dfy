/** The fixed table of companion tools every new cluster receives. */
module ToolCatalog {
  import opened ClusterTypes

  const TOOL_NAMES: seq<string> := ["prometheus", "dashboard", "chartmuseum", "registry"]

  /** PrepareTools: four tools, in catalog order, all at version v1.0.0,
      without description, waiting, and not yet owned by any cluster. */
  function PrepareTools(): (tools: seq<ClusterTool>)
    ensures |tools| == |TOOL_NAMES| == 4
    ensures forall i :: 0 <= i < |tools| ==> tools[i].name == TOOL_NAMES[i]
    ensures forall t :: t in tools ==>
      t.version == "v1.0.0" && t.describe == "" && t.status == Waiting && t.clusterId == ""
  {
    [ ClusterTool("prometheus", "v1.0.0", "", Waiting, "prometheus.png", ""),
      ClusterTool("dashboard", "v1.0.0", "", Waiting, "kubernetes.png", ""),
      ClusterTool("chartmuseum", "v1.0.0", "", Waiting, "chartmuseum.png", ""),
      ClusterTool("registry", "v1.0.0", "", Waiting, "registry.png", "") ]
  }
}
