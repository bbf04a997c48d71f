/**
 * The headline totals of the repository analysis page
 * (src/pages/RepositoriesPage.tsx): files, Mule flows and configuration files
 * summed over all repositories, a repository without metrics counting as 0.
 */
module RepositoriesPage {
  import opened Types
  import opened Folds

  /** The accumulator object `{ files, flows, configs }`. */
  datatype Totals = Totals(files: int, flows: int, configs: int)

  /** `repo.metrics?.total_files || 0` */
  function FilesOf(repo: Repository): (n: int)
    ensures repo.metrics.None? ==> n == 0
    ensures repo.metrics.Some? ==> n == repo.metrics.value.totalFiles
  {
    if repo.metrics.Some? then repo.metrics.value.totalFiles else 0
  }

  /** `repo.metrics?.mule_flows || 0` */
  function FlowsOf(repo: Repository): (n: int)
    ensures repo.metrics.None? ==> n == 0
    ensures repo.metrics.Some? ==> n == repo.metrics.value.muleFlows
  {
    if repo.metrics.Some? then repo.metrics.value.muleFlows else 0
  }

  /** `repo.metrics?.config_files || 0` */
  function ConfigsOf(repo: Repository): (n: int)
    ensures repo.metrics.None? ==> n == 0
    ensures repo.metrics.Some? ==> n == repo.metrics.value.configFiles
  {
    if repo.metrics.Some? then repo.metrics.value.configFiles else 0
  }

  /**
   * The page's reduce: starting from all zeros, each repository in turn
   * produces a fresh accumulator with its three metrics added.
   */
  function TotalMetrics(repos: seq<Repository>): (t: Totals)
    ensures repos == [] ==> t == Totals(0, 0, 0)
    ensures t.files == SumOf(repos, FilesOf)
    ensures t.flows == SumOf(repos, FlowsOf)
    ensures t.configs == SumOf(repos, ConfigsOf)
  {
    if repos == [] then Totals(0, 0, 0)
    else
      var acc := TotalMetrics(repos[..|repos| - 1]);
      var repo := repos[|repos| - 1];
      Totals(acc.files + FilesOf(repo), acc.flows + FlowsOf(repo), acc.configs + ConfigsOf(repo))
  }

  /** Appending a repository adds its metrics to each total. */
  lemma TotalsStep(repos: seq<Repository>, repo: Repository)
    ensures TotalMetrics(repos + [repo]) ==
            Totals(TotalMetrics(repos).files + FilesOf(repo),
                   TotalMetrics(repos).flows + FlowsOf(repo),
                   TotalMetrics(repos).configs + ConfigsOf(repo))
  {
    assert (repos + [repo])[..|repos|] == repos;
  }

  /** The totals of a concatenation are the sums of the totals of its parts. */
  lemma TotalsAppend(xs: seq<Repository>, ys: seq<Repository>)
    ensures TotalMetrics(xs + ys) ==
            Totals(TotalMetrics(xs).files + TotalMetrics(ys).files,
                   TotalMetrics(xs).flows + TotalMetrics(ys).flows,
                   TotalMetrics(xs).configs + TotalMetrics(ys).configs)
  {
    SumOfAppend(xs, ys, FilesOf);
    SumOfAppend(xs, ys, FlowsOf);
    SumOfAppend(xs, ys, ConfigsOf);
  }

  /** A repository without `metrics`, wherever it stands, contributes nothing. */
  lemma UnanalysedRepositoryAddsNothing(xs: seq<Repository>, repo: Repository, ys: seq<Repository>)
    requires repo.metrics.None?
    ensures TotalMetrics(xs + [repo] + ys) == TotalMetrics(xs + ys)
  {
    TotalsAppend(xs + [repo], ys);
    TotalsStep(xs, repo);
    TotalsAppend(xs, ys);
  }

  /** The totals do not depend on the order of the repositories. */
  lemma TotalsReorder(xs: seq<Repository>, ys: seq<Repository>)
    requires multiset(xs) == multiset(ys)
    ensures TotalMetrics(xs) == TotalMetrics(ys)
  {
    SumOfPermutation(xs, ys, FilesOf);
    SumOfPermutation(xs, ys, FlowsOf);
    SumOfPermutation(xs, ys, ConfigsOf);
  }
}
