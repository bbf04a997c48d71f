/**
 * The records the dashboard reads from its fixture documents (src/types/index.ts).
 * Only the fields that the modelled pages use are kept; timestamps and free text
 * are plain strings.
 */
module Types {
  import opened Wrappers

  datatype ProjectStatus = Draft | InProgress | Completed | Error

  /** The `progress` record of a project: one percentage per pipeline stage. */
  datatype Progress = Progress(stage0: int, stage1: int, stage2: int, stage3: int, stage4: int, stage5: int)
  {
    /** `progress[key]`: the field called `key`, or `undefined` for any other key. */
    function Get(key: string): (field: Option<int>)
      ensures field.Some? <==> key in ["stage0", "stage1", "stage2", "stage3", "stage4", "stage5"]
      ensures field.Some? ==> field.value in Values()
    {
      if key == "stage0" then Some(stage0)
      else if key == "stage1" then Some(stage1)
      else if key == "stage2" then Some(stage2)
      else if key == "stage3" then Some(stage3)
      else if key == "stage4" then Some(stage4)
      else if key == "stage5" then Some(stage5)
      else None
    }

    /** `Object.values(progress)`: the six percentages in declaration order. */
    function Values(): (values: seq<int>)
      ensures |values| == 6
    {
      [stage0, stage1, stage2, stage3, stage4, stage5]
    }
  }

  datatype Project = Project(
    id: string,
    name: string,
    description: string,
    status: ProjectStatus,
    currentStage: int,
    createdAt: string,
    updatedAt: string,
    progress: Option<Progress>)

  datatype Metrics = Metrics(totalFiles: int, muleFlows: int, configFiles: int)

  datatype AnalysisStatus = AnalysisPending | Analyzing | Analyzed | AnalysisError

  datatype Repository = Repository(
    id: string,
    name: string,
    url: string,
    branch: string,
    analysisStatus: AnalysisStatus,
    lastScanned: Option<string>,
    metrics: Option<Metrics>)

  datatype TestStatus = Passed | TestFailed | Skipped

  datatype TestResult = TestResult(
    testSuiteName: string,
    testType: string,
    status: TestStatus,
    executionTimeMs: int,
    assertionsPassed: int,
    assertionsTotal: int)

  datatype StepStatus = StepPending | StepInProgress | StepCompleted | StepBlocked

  datatype CutOverStep = CutOverStep(
    stepNumber: int,
    title: string,
    description: string,
    responsible: string,
    estimatedDurationMinutes: int,
    dependencies: Option<seq<int>>,
    status: StepStatus)

  /** A JSON value as it appears in a fixture document. */
  datatype Json =
    | JNull
    | JBool(b: bool)
    | JNumber(n: int)
    | JString(s: string)
    | JArray(items: seq<Json>)
    | JObject(members: seq<(string, Json)>)

  /**
   * An entry of the asset manifest, as the manifest page reads it: the `type`
   * property it groups by, and all of the asset's own properties in their
   * order (`Object.entries(asset)`), `type`, `name` and `description` among them.
   */
  datatype Asset = Asset(assetType: string, entries: seq<(string, Json)>)
}
