# MS2WM dashboard core in Dafny

MS2WM is a read-only React dashboard that follows one Mule-to-webMethods
migration project through six pipeline stages (repository analysis,
inventory, target architecture, asset manifest, runtime configuration and
cut-over). Every page reads static JSON fixture documents and derives a
few figures from them. This project models those derivations and proves
what the pages rely on:

- the stage-unlock rules of the project dashboard: each stage's status,
  whether its card can be opened, its progress figure and the route a click
  navigates to (`project_dashboard.dfy`);
- the stage-number-to-document switch of the data loader
  (`data_loader.dfy`);
- the status-to-badge-colour table (`status_color.dfy`);
- on the asset-manifest page: the group-by-type dictionary (a loop that
  updates a map, as the source's reduce mutates its accumulator), the
  per-type counts, the type filter, the `CHANGE_ME` placeholder warnings,
  the fields listed on each asset card and the underscore-to-space captions
  (`stage3_manifest.dfy`);
- the assertion sums and the runbook completion count of the cut-over page
  (`stage5_cutover.dfy`);
- the metric totals of the repository page, where a repository without
  metrics counts as zero (`repositories_page.dfy`);
- the rounded mean progress on the project list (`projects_page.dfy`).

Shared pieces: `types.dfy` (the records of `src/types/index.ts` that these
pages read), `wrappers.dfy` (`Option` for `undefined`/`null`), `text.dfy`
(decimal rendering of integers for template strings, and `includes`),
`folds.dfy` (the left-fold sum `reduce((acc, x) => acc + f(x), 0)`) and
`sequences.dfy` (`filter`, subsequences).

JavaScript's `Math.round(x)` is `floor(x + 1/2)`; for a mean of six integer
percentages that is the integer quotient `(2 * sum + 6) / 12`, which
`ProjectsPage.GetOverallProgress` computes and characterises as the nearest
integer with halves rounded up.

## Model

| member | source | states |
|---|---|---|
| ProjectDashboard.GetStageStatus | src/pages/ProjectDashboard.tsx:69-73 | completed iff the stage number is below the current stage, in progress iff equal, pending iff above |
| ProjectDashboard.IsStageAccessible | src/pages/ProjectDashboard.tsx:81-83 | a stage can be opened exactly when its status is not pending |
| ProjectDashboard.StageKeyOfStage | src/pages/ProjectDashboard.tsx:77 | for stages 0..5 the key `stage<id>` is the name of that stage's progress field |
| ProjectDashboard.StageKey | src/pages/ProjectDashboard.tsx:77 | the key is `stage` followed by the decimal stage number |
| ProjectDashboard.StageKeyInjective | src/pages/ProjectDashboard.tsx:77 | different stage numbers give different keys |
| Types.Progress.Get | src/pages/ProjectDashboard.tsx:78 | `progress[key]` finds a value exactly for the six keys `stage0`..`stage5`, and that value is one of the record's percentages |
| Types.Progress.Values | src/pages/ProjectsPage.tsx:22 | `Object.values(progress)` has six entries, one per stage field in declaration order (StageProgressLookup ties the i-th to the key `stage<i>`) |
| ProjectDashboard.GetStageProgress | src/pages/ProjectDashboard.tsx:75-79 | 0 without a progress record; the stage's own percentage for stages 0..5; 0 for any other stage number |
| ProjectDashboard.StageProgressLookup | src/pages/ProjectDashboard.tsx:77-78 | the key `stage<id>` finds a progress field exactly for ids 0..5, and that field is the id-th value |
| ProjectDashboard.HandleStageClick | src/pages/ProjectDashboard.tsx:85-89 | a click yields a route exactly when the stage is accessible, and the route is `/projects/<projectId>/<path>` |
| ProjectDashboard.StageTableShape | src/pages/ProjectDashboard.tsx:19-62 | six stages numbered 0..5 in order, path `repositories` for stage 0 and `stage<id>` for the others |
| ProjectDashboard.StatusPartition | src/pages/ProjectDashboard.tsx:119-122 | for any current stage the table's stages split into completed (below), in progress (equal) and pending (above) |
| ProjectDashboard.StatusMembership | src/pages/ProjectDashboard.tsx:119-120 | a stage number is listed under a status exactly when it is in the table and has that status |
| ProjectDashboard.AccessibilityDownwardClosed | src/pages/ProjectDashboard.tsx:81-83 | if a stage can be opened, so can every earlier one |
| ProjectDashboard.ClickOpensStagePage | src/pages/ProjectDashboard.tsx:85-89 | clicking the i-th card navigates iff i is at most the current stage, to that stage's page, for which the loader has a document |
| ProjectDashboard.StageStatusColors | src/lib/utils.ts:28-32 | the completed, in-progress and pending badges are green, blue and gray |
| ProjectDashboard.DashboardExample | src/pages/ProjectDashboard.tsx:69-89 | at current stage 3 with progress 100,100,100,75,30,0: stage 2 done at 100, stage 3 in progress at 75, stage 4 locked at 30 |
| DataLoader.LoadProjectMetadata | src/lib/dataLoader.ts:11 | takes no input and returns the same fixture document on every call; LoadersDistinct shows it differs from the other eight |
| DataLoader.LoadRepos | src/lib/dataLoader.ts:12 | takes no input and returns the same fixture document on every call; LoadersDistinct shows it differs from the other eight |
| DataLoader.LoadStage1Data | src/lib/dataLoader.ts:13 | takes no input and returns the same fixture document on every call; LoadersDistinct shows it differs from the other eight |
| DataLoader.LoadStage2Data | src/lib/dataLoader.ts:14 | takes no input and returns the same fixture document on every call; LoadersDistinct shows it differs from the other eight |
| DataLoader.LoadStage3Data | src/lib/dataLoader.ts:15 | takes no input and returns the same fixture document on every call; LoadersDistinct shows it differs from the other eight |
| DataLoader.LoadStage4Data | src/lib/dataLoader.ts:16 | takes no input and returns the same fixture document on every call; LoadersDistinct shows it differs from the other eight |
| DataLoader.LoadStage5Data | src/lib/dataLoader.ts:17 | takes no input and returns the same fixture document on every call; LoadersDistinct shows it differs from the other eight |
| DataLoader.LoadEnvironments | src/lib/dataLoader.ts:18 | takes no input and returns the same fixture document on every call; LoadersDistinct shows it differs from the other eight |
| DataLoader.LoadPipelineHistory | src/lib/dataLoader.ts:19 | takes no input and returns the same fixture document on every call; LoadersDistinct shows it differs from the other eight |
| DataLoader.LoadersDistinct | src/lib/dataLoader.ts:1-19 | the nine loaders serve nine different documents |
| DataLoader.LoadStageData | src/lib/dataLoader.ts:21-38 | a document exactly for stage numbers 0..5: the repositories document for 0 and the stage's own document for 1..5; nothing otherwise |
| DataLoader.StageDataDistinct | src/lib/dataLoader.ts:11-19 | the six stages are served six different documents |
| StatusColor.GetStatusColor | src/lib/utils.ts:25-44 | always one of the five colours; green, red, yellow and blue exactly for their listed statuses; gray for draft, pending, unknown and every unlisted status |
| Stage3Manifest.OfType | src/pages/Stage3ManifestPage.tsx:57-81 | the per-type `filter` never yields more assets than there are |
| Stage3Manifest.OfTypeMembers | src/pages/Stage3ManifestPage.tsx:57-81 | the per-type filter holds exactly the assets of that type, in input order |
| Stage3Manifest.OfTypeSnoc | src/pages/Stage3ManifestPage.tsx:57 | one more asset extends the filtered list of its own type only |
| Stage3Manifest.TypesInOrder | src/pages/Stage3ManifestPage.tsx:98 | the dictionary keys list no type twice |
| Stage3Manifest.TypesInOrderSnoc | src/pages/Stage3ManifestPage.tsx:15 | a type is added as a key only the first time it is seen |
| Stage3Manifest.TypesInOrderMembers | src/pages/Stage3ManifestPage.tsx:14-18 | a type is a key exactly when some asset has that type |
| Stage3Manifest.GroupingStep | src/pages/Stage3ManifestPage.tsx:15-17 | one reduce step keeps keys in first-occurrence order and each bucket equal to the filtered list of its type |
| Stage3Manifest.KeysStep | src/pages/Stage3ManifestPage.tsx:15 | an unseen type is appended to the keys, a seen one leaves them as they are, and the keys stay the distinct types in first-occurrence order |
| Stage3Manifest.BucketsStep | src/pages/Stage3ManifestPage.tsx:16 | after the push, every type's bucket is the filtered list of that type over the assets seen so far |
| Stage3Manifest.PushStep | src/pages/Stage3ManifestPage.tsx:15-16 | opening an empty bucket for an unseen type and then pushing the asset, as the reduce does, keeps the grouping |
| Stage3Manifest.OpenThenPush | src/pages/Stage3ManifestPage.tsx:15-16 | opening then pushing sets the type's bucket to its previous contents plus the asset and changes no other bucket |
| Stage3Manifest.GroupByType | src/pages/Stage3ManifestPage.tsx:14-18 | the keys are the distinct types in first-occurrence order, and every type's bucket holds exactly the assets of that type in input order |
| Stage3Manifest.BucketSizesSnoc | src/pages/Stage3ManifestPage.tsx:16 | one more asset grows its type's bucket by one and no other |
| Stage3Manifest.BucketSizesTotal | src/pages/Stage3ManifestPage.tsx:96-108 | the bucket sizes shown on the type buttons add up to the count on the "All Assets" button |
| Stage3Manifest.NewTypeBucket | src/pages/Stage3ManifestPage.tsx:15-16 | the first asset of a type adds a bucket of size one to the sum of bucket sizes |
| Stage3Manifest.BucketSizesAtMost | src/pages/Stage3ManifestPage.tsx:57-81 | the counts of any distinct types add up to at most the number of assets |
| Stage3Manifest.CardCountsWithinTotal | src/pages/Stage3ManifestPage.tsx:55-84 | the five metric cards together count at most all the assets |
| Stage3Manifest.SelectedAssets | src/pages/Stage3ManifestPage.tsx:114 | all assets for `all`; otherwise exactly the assets of the selected type, empty when it has no bucket |
| Stage3Manifest.HasWarning | src/pages/Stage3ManifestPage.tsx:116 | a card is flagged exactly when `CHANGE_ME` occurs at some position of the asset's serialisation |
| Stage3Manifest.HasConfigWarnings | src/pages/Stage3ManifestPage.tsx:20-22 | the banner shows exactly when some asset's card is flagged |
| Stage3Manifest.ConfigWarningsIffPlaceholder | src/pages/Stage3ManifestPage.tsx:20-22 | the banner shows exactly when `CHANGE_ME` occurs at some position of some asset's serialisation |
| Stage3Manifest.FlaggedCardImpliesBanner | src/pages/Stage3ManifestPage.tsx:114-116 | whatever type is selected, a listed card flagged "Config needed" implies the banner |
| Stage3Manifest.ShownFields | src/pages/Stage3ManifestPage.tsx:142-148 | the first six eligible entries: a prefix of the filtered entries of length min(6, number eligible); each shown entry belongs to the asset, is not keyed type/name/description and is not object-valued; they keep the asset's order; an eligible entry is left out only when six are already shown |
| Stage3Manifest.ShownCandidates | src/pages/Stage3ManifestPage.tsx:143-147 | the filter keeps exactly the eligible entries |
| Stage3Manifest.ReplaceUnderscores | src/pages/Stage3ManifestPage.tsx:108 | same length, no underscore left, every other character unchanged |
| Stage5Cutover.PassedWithinTotal | src/pages/Stage5CutoverPage.tsx:14-21 | if no suite passes more assertions than it has, passed tests are at most total tests |
| Stage5Cutover.TotalTests | src/pages/Stage5CutoverPage.tsx:14-17 | no suites give 0 assertions |
| Stage5Cutover.PassedTests | src/pages/Stage5CutoverPage.tsx:18-21 | no suites give 0 passed assertions |
| Stage5Cutover.TestSumsStep | src/pages/Stage5CutoverPage.tsx:14-21 | a further suite adds its own assertion counts to both sums |
| Stage5Cutover.TestSumsAppend | src/pages/Stage5CutoverPage.tsx:14-21 | both sums are additive over concatenation of the suite list |
| Stage5Cutover.TestSumsReorder | src/pages/Stage5CutoverPage.tsx:14-21 | both sums are unchanged by reordering the suites |
| Stage5Cutover.CompletedSteps | src/pages/Stage5CutoverPage.tsx:23 | the completed count never exceeds the runbook length |
| Stage5Cutover.TotalSteps | src/pages/Stage5CutoverPage.tsx:24 | the runbook length, which the completed count never exceeds |
| Stage5Cutover.RunbookFinished | src/pages/Stage5CutoverPage.tsx:23-24 | completed steps equal total steps exactly when every step is completed |
| Stage5Cutover.RunbookNotStarted | src/pages/Stage5CutoverPage.tsx:23 | the completed count is 0 exactly when no step is completed |
| Stage5Cutover.CompletedStepsAppend | src/pages/Stage5CutoverPage.tsx:23 | the completed count is additive over concatenation of the runbook |
| RepositoriesPage.FilesOf | src/pages/RepositoriesPage.tsx:16 | a repository's `total_files`, or 0 when it has no metrics |
| RepositoriesPage.FlowsOf | src/pages/RepositoriesPage.tsx:17 | a repository's `mule_flows`, or 0 when it has no metrics |
| RepositoriesPage.ConfigsOf | src/pages/RepositoriesPage.tsx:18 | a repository's `config_files`, or 0 when it has no metrics |
| RepositoriesPage.TotalMetrics | src/pages/RepositoriesPage.tsx:14-21 | all zeros for no repositories; each total is the sum over the repositories of that metric, 0 for a repository without metrics |
| RepositoriesPage.TotalsStep | src/pages/RepositoriesPage.tsx:15-19 | appending a repository adds its three metrics to the three totals |
| RepositoriesPage.TotalsAppend | src/pages/RepositoriesPage.tsx:14-21 | the totals of a concatenation are the sums of the parts' totals |
| RepositoriesPage.UnanalysedRepositoryAddsNothing | src/pages/RepositoriesPage.tsx:16-18 | a repository without metrics, at any position, leaves all three totals unchanged |
| RepositoriesPage.TotalsReorder | src/pages/RepositoriesPage.tsx:14-21 | the totals do not depend on the order of the repositories |
| ProjectsPage.GetOverallProgress | src/pages/ProjectsPage.tsx:20-24 | 0 without progress; otherwise the integer nearest to the mean of the six percentages, halves rounded up |
| ProjectsPage.OverallProgressWithinRange | src/pages/ProjectsPage.tsx:22-23 | the overall figure lies between the smallest and the largest stage percentage |
| ProjectsPage.OverallProgressIsPercent | src/pages/ProjectsPage.tsx:22-23 | percentages in 0..100 give an overall figure in 0..100 |
| ProjectsPage.OverallProgressUniform | src/pages/ProjectsPage.tsx:22-23 | six equal percentages give that percentage |
| Text.IntToString | src/pages/ProjectDashboard.tsx:77 | the decimal text of a stage number: a leading minus exactly for negatives, one digit exactly for 0..9 |
| Text.NatToStringRoundTrip | src/pages/ProjectDashboard.tsx:77 | reading the digits back gives the number |
| Text.NatToStringInjective | src/pages/ProjectDashboard.tsx:77 | different non-negative numbers have different digit strings |
| Text.IntToStringInjective | src/pages/ProjectDashboard.tsx:77 | different stage numbers give different keys |
| Text.Includes | src/pages/Stage3ManifestPage.tsx:21 | `includes` finds the empty string everywhere and never a string longer than the text; IncludesIffOccurs characterises it fully |
| Text.IncludesIffOccurs | src/pages/Stage3ManifestPage.tsx:21 | `includes` holds exactly when the substring occurs at some position |
| Folds.SumOf | src/pages/Stage5CutoverPage.tsx:14-17 | the `reduce((acc, x) => acc + f(x), 0)` sum: 0 for no elements; the snoc, append, permutation, monotonicity and bounds lemmas characterise it |
| Folds.SumOfSnoc | src/pages/Stage5CutoverPage.tsx:14-17 | one more reduce step adds the element's value to the sum |
| Folds.SumOfAppend | src/pages/Stage5CutoverPage.tsx:14-17 | a reduce sum over a concatenation is the sum of the parts' sums |
| Folds.SumOfPermutation | src/pages/RepositoriesPage.tsx:14-21 | a reduce sum does not depend on the order of its elements |
| Folds.SumOfMonotone | src/pages/Stage5CutoverPage.tsx:14-21 | summing a pointwise smaller quantity gives a smaller sum |
| Folds.SumOfBounds | src/pages/ProjectsPage.tsx:23 | a sum of n values between lo and hi lies between n*lo and n*hi |
| Sequences.Filter | src/pages/Stage5CutoverPage.tsx:23 | `filter` never yields more elements than it is given; FilterMembers and FilterIsSubsequence give its contents and order |
| Sequences.FilterMembers | src/pages/Stage5CutoverPage.tsx:23 | `filter` keeps exactly the elements that pass the test |
| Sequences.FilterAppend | src/pages/Stage3ManifestPage.tsx:57 | filtering a concatenation filters each part |
| Sequences.FilterIsSubsequence | src/pages/Stage3ManifestPage.tsx:143-147 | `filter` keeps the input order |
| Sequences.SubsequencePrefix | src/pages/Stage3ManifestPage.tsx:148 | `slice(0, k)` of an order-preserving selection is still one |
| Sequences.FilterLengthFull | src/pages/Stage5CutoverPage.tsx:23-24 | `filter(...).length` equals the length exactly when every element passes |
| Sequences.FilterEmpty | src/pages/Stage5CutoverPage.tsx:23 | `filter` yields nothing exactly when no element passes |

## Left out

- Rendering: all JSX, CSS classes, icons, `src/App.tsx`, `Layout`, `MetricCard` and `StatusBadge` (which only combines `getStatusColor` with the underscore replacement modelled here).
- The Stage 1, Stage 2, Stage 4 and environments pages: field-by-field rendering and `useState` accordion toggles; the Stage 2 minutes sum is the same fold as the Stage 5 sums.
- `ProgressBar` and the Stage 5 pass-rate and runbook percentages: floating-point divisions with no zero guard, which can yield NaN.
- `formatDate`, `formatDateTime` and `cn`: locale-dependent date formatting and a class-name library wrapper.
- React hooks and routing: `useParams`, `useNavigate` and `useState`; navigation is a returned optional route, the selected type a parameter, and `projectId` a given string (never `undefined`).
- `JSON.stringify` is a function parameter of the warning checks; only the `CHANGE_ME` containment test on its result is modelled.
- The per-field highlight of values containing `CHANGE_ME` (src/pages/Stage3ManifestPage.tsx:154), which needs `String(value)` of arbitrary JSON.
- The fixture documents are opaque: each loader returns a constant document identified by its file name, which also makes every loader return the same value on every call.
- Object-prototype keys: `colors[status]` and `acc[asset.type]` are modelled as finite maps, so statuses or types such as `constructor` or `__proto__` behave as ordinary absent keys; `Object.keys` is modelled in insertion order, which JavaScript does not follow for integer-like keys.
- Numbers are unbounded integers: fractional or NaN stage numbers, percentages and metrics are outside the model, and `x || 0` is the identity on them; `Math.round(sum / 6)` assumes the double division is exact enough for halves to land on halves, which holds for integer sums of realistic size.
- `Types.Asset` keeps the `type` the page reads (src/pages/Stage3ManifestPage.tsx:15) separately from the asset's entries; the interface's `asset_type` field name (src/types/index.ts:116) is not followed, and the model does not tie `assetType` to a `type` entry.
- Seeding or backing-store initialisation: no such code exists in the dashboard's source files, so none is modelled.
