/** What every optimizer hands back. */
module Results {
  import opened Domain
  import opened Evaluation

  datatype AlgorithmResult = AlgorithmResult(
    name: string,
    groups: seq<Group>,
    metrics: Metrics,
    error: string,
    dominated: bool,
    dominatedBy: string)

  method Evaluated(app: Application, name: string, groups: seq<Group>) returns (r: AlgorithmResult)
    ensures r == AlgorithmResult(name, groups, MetricsOf(app, groups), "", false, "")
  {
    var m := CalculateMetrics(app, groups);
    r := AlgorithmResult(name, groups, m, "", false, "");
  }

  function Failed(name: string, metrics: Metrics, error: string): AlgorithmResult {
    AlgorithmResult(name, [], metrics, error, false, "")
  }
}
