/** `getStatusColor` of src/lib/utils.ts: the badge colour for a status string. */
module StatusColor {

  /** The colour table, keyed by the status strings the fixtures use. */
  const Colors: map<string, string> := map[
    "draft" := "gray",
    "pending" := "gray",
    "in_progress" := "blue",
    "running" := "blue",
    "analyzing" := "blue",
    "completed" := "green",
    "analyzed" := "green",
    "deployed" := "green",
    "passed" := "green",
    "error" := "red",
    "failed" := "red",
    "unhealthy" := "red",
    "warning" := "yellow",
    "degraded" := "yellow",
    "unknown" := "gray"
  ]

  const Palette: set<string> := {"gray", "blue", "green", "red", "yellow"}

  /**
   * `colors[status] || 'gray'`: the table's colour for a listed status, and
   * gray for a status the table does not list (or lists with an empty colour).
   */
  function GetStatusColor(status: string): (color: string)
    ensures color in Palette
    ensures color == "green" <==> status in {"completed", "analyzed", "deployed", "passed"}
    ensures color == "red" <==> status in {"error", "failed", "unhealthy"}
    ensures color == "yellow" <==> status in {"warning", "degraded"}
    ensures color == "blue" <==> status in {"in_progress", "running", "analyzing"}
    ensures color == "gray" <==> status !in Colors || status in {"draft", "pending", "unknown"}
  {
    if status in Colors && Colors[status] != "" then Colors[status] else "gray"
  }
}
