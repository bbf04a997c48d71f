/**
 * The progressive stage-unlock model of the project dashboard
 * (src/pages/ProjectDashboard.tsx): a fixed table of six pipeline stages, and,
 * for a project, each stage's status, progress and accessibility, and where a
 * click on a stage card leads.
 */
module ProjectDashboard {
  import opened Wrappers
  import Types
  import Text
  import DataLoader
  import StatusColor

  /** A stage card: its number, its texts and the route fragment of its page. */
  datatype Stage = Stage(id: int, title: string, description: string, path: string)

  const Stages: seq<Stage> := [
    Stage(0, "Repository Analysis", "Analyze Git repositories and discover Mule flows", "repositories"),
    Stage(1, "Inventory", "Comprehensive inventory of all Mule assets", "stage1"),
    Stage(2, "Target Architecture", "webMethods services and consolidation strategy", "stage2"),
    Stage(3, "Asset Manifest", "webMethods implementation artifacts", "stage3"),
    Stage(4, "Runtime Configuration", "Environment settings and deployment configs", "stage4"),
    Stage(5, "Cut-Over & Validation", "Testing, deployment, and go-live procedures", "stage5")
  ]

  datatype StageStatus = Completed | InProgress | Pending

  /** The status string the page passes on to the badge. */
  function StatusName(status: StageStatus): string {
    match status
    case Completed => "completed"
    case InProgress => "in_progress"
    case Pending => "pending"
  }

  /** The prefix `stage` followed by the stage number. */
  function StageKey(stageId: int): (key: string)
    ensures |key| > 5 && key[..5] == "stage"
  {
    "stage" + Text.IntToString(stageId)
  }

  /** Different stage numbers are looked up under different keys. */
  lemma StageKeyInjective(i: int, j: int)
    requires StageKey(i) == StageKey(j)
    ensures i == j
  {
    assert Text.IntToString(i) == StageKey(i)[5..] == StageKey(j)[5..] == Text.IntToString(j);
    Text.IntToStringInjective(i, j);
  }

  /** Stages before the current one are completed, the current one is in progress, later ones are pending. */
  function GetStageStatus(project: Types.Project, stageId: int): (status: StageStatus)
    ensures status == Completed <==> stageId < project.currentStage
    ensures status == InProgress <==> stageId == project.currentStage
    ensures status == Pending <==> stageId > project.currentStage
  {
    if stageId < project.currentStage then Completed
    else if stageId == project.currentStage then InProgress
    else Pending
  }

  /** A stage can be opened once the project has reached it, that is, exactly when it is not pending. */
  function IsStageAccessible(project: Types.Project, stageId: int): (accessible: bool)
    ensures accessible <==> GetStageStatus(project, stageId) != Pending
  {
    stageId <= project.currentStage
  }

  /** The progress key of each of the six stages, in stage order. */
  const ProgressKeys: seq<string> := ["stage0", "stage1", "stage2", "stage3", "stage4", "stage5"]

  lemma StageKeyOfStage(stageId: int)
    requires 0 <= stageId <= 5
    ensures StageKey(stageId) == ProgressKeys[stageId]
  {
    assert Text.IntToString(stageId) == [Text.DigitChar(stageId)];
    var c := Text.DigitChar(stageId);
    assert c == "012345"[stageId];
  }

  /**
   * The percentage the card shows: the field `stage<id>` of the project's
   * progress record, or 0 when the project has no progress record or the
   * record has no such field.
   */
  function GetStageProgress(project: Types.Project, stageId: int): (percent: int)
    ensures project.progress.None? ==> percent == 0
    ensures project.progress.Some? && 0 <= stageId <= 5 ==> percent == project.progress.value.Values()[stageId]
    ensures !(0 <= stageId <= 5) ==> percent == 0
  {
    if project.progress.None? then 0
    else
      StageProgressLookup(project.progress.value, stageId);
      // Among integers only 0 is falsy, so `|| 0` changes a present value not at all.
      match project.progress.value.Get(StageKey(stageId))
      case Some(v) => v
      case None => 0
  }

  /** The key `stage<id>` names a field of the progress record exactly for the six stage numbers. */
  lemma StageProgressLookup(progress: Types.Progress, stageId: int)
    ensures 0 <= stageId <= 5 ==> progress.Get(StageKey(stageId)) == Some(progress.Values()[stageId])
    ensures !(0 <= stageId <= 5) ==> progress.Get(StageKey(stageId)).None?
  {
    if 0 <= stageId <= 5 {
      StageKeyOfStage(stageId);
    } else {
      forall k | 0 <= k <= 5 ensures StageKey(stageId) != ProgressKeys[k] {
        StageKeyOfStage(k);
        if StageKey(stageId) == StageKey(k) {
          assert Text.IntToString(stageId) == StageKey(stageId)[5..];
          assert Text.IntToString(k) == StageKey(k)[5..];
          Text.IntToStringInjective(stageId, k);
        }
      }
      var key := StageKey(stageId);
      assert key != ProgressKeys[0] && key != ProgressKeys[1] && key != ProgressKeys[2];
      assert key != ProgressKeys[3] && key != ProgressKeys[4] && key != ProgressKeys[5];
    }
  }

  /** The route a click on a stage card navigates to, or None when the click has no effect. */
  function HandleStageClick(project: Types.Project, projectId: string, stageId: int, path: string): (route: Option<string>)
    ensures route.Some? <==> IsStageAccessible(project, stageId)
    ensures route.Some? ==> route.value == "/projects/" + projectId + "/" + path
  {
    if IsStageAccessible(project, stageId) then Some("/projects/" + projectId + "/" + path) else None
  }

  /**
   * The stage table lists stages 0 to 5 in order (so their numbers are
   * distinct); stage 0 opens the repositories page and stage n, for n from 1
   * to 5, the page named by its progress key `stage<n>`.
   */
  lemma StageTableShape()
    ensures |Stages| == 6
    ensures forall i :: 0 <= i < |Stages| ==> Stages[i].id == i
    ensures Stages[0].path == "repositories"
    ensures forall i :: 1 <= i < |Stages| ==> Stages[i].path == StageKey(i)
  {
    forall i | 1 <= i < |Stages| ensures Stages[i].path == StageKey(i) {
      StageKeyOfStage(i);
    }
  }

  /** The numbers of the table's stages that have the given status. */
  function StageIdsWithStatus(project: Types.Project, status: StageStatus): set<int> {
    set j | 0 <= j < |Stages| && GetStageStatus(project, Stages[j].id) == status :: Stages[j].id
  }

  /**
   * For any current stage k, the statuses split the stages 0 to 5 into the
   * completed ones below k, the one in progress at k (if k is a stage number)
   * and the pending ones above k.
   */
  lemma StatusPartition(project: Types.Project)
    ensures forall i :: i in StageIdsWithStatus(project, Completed) <==> 0 <= i <= 5 && i < project.currentStage
    ensures forall i :: i in StageIdsWithStatus(project, InProgress) <==> 0 <= i <= 5 && i == project.currentStage
    ensures forall i :: i in StageIdsWithStatus(project, Pending) <==> 0 <= i <= 5 && project.currentStage < i
  {
    StageTableShape();
    forall i ensures i in StageIdsWithStatus(project, Completed) <==> 0 <= i <= 5 && i < project.currentStage {
      StatusMembership(project, Completed, i);
    }
    forall i ensures i in StageIdsWithStatus(project, InProgress) <==> 0 <= i <= 5 && i == project.currentStage {
      StatusMembership(project, InProgress, i);
    }
    forall i ensures i in StageIdsWithStatus(project, Pending) <==> 0 <= i <= 5 && project.currentStage < i {
      StatusMembership(project, Pending, i);
    }
  }

  lemma StatusMembership(project: Types.Project, status: StageStatus, i: int)
    ensures i in StageIdsWithStatus(project, status) <==> 0 <= i <= 5 && GetStageStatus(project, i) == status
  {
    StageTableShape();
    if 0 <= i <= 5 && GetStageStatus(project, i) == status {
      assert Stages[i].id == i;
    }
  }

  /** Opening a stage unlocks every earlier stage as well. */
  lemma AccessibilityDownwardClosed(project: Types.Project, i: int, j: int)
    requires i <= j && IsStageAccessible(project, j)
    ensures IsStageAccessible(project, i)
  {
  }

  /**
   * A click on a stage card opens `/projects/<projectId>/<path>` when the
   * project has reached the stage and does nothing otherwise; a page it opens
   * always has a stage document to show.
   */
  lemma ClickOpensStagePage(project: Types.Project, projectId: string, i: int)
    requires 0 <= i < |Stages|
    ensures HandleStageClick(project, projectId, Stages[i].id, Stages[i].path).Some? <==> i <= project.currentStage
    ensures HandleStageClick(project, projectId, Stages[i].id, Stages[i].path).Some? ==>
              HandleStageClick(project, projectId, Stages[i].id, Stages[i].path).value == "/projects/" + projectId + "/" + Stages[i].path
              && DataLoader.LoadStageData(Stages[i].id).Some?
  {
    StageTableShape();
  }

  /** The three stage statuses are shown green, blue and gray. */
  lemma StageStatusColors()
    ensures StatusColor.GetStatusColor(StatusName(Completed)) == "green"
    ensures StatusColor.GetStatusColor(StatusName(InProgress)) == "blue"
    ensures StatusColor.GetStatusColor(StatusName(Pending)) == "gray"
  {
  }

  /**
   * A project at stage 3 with progress 100, 100, 100, 75, 30, 0: stage 2 is
   * completed, open and at 100%; stage 3 is in progress, open and at 75%;
   * stage 4 is pending, locked, and shows 30%.
   */
  lemma DashboardExample(project: Types.Project)
    requires project.currentStage == 3
    requires project.progress == Some(Types.Progress(100, 100, 100, 75, 30, 0))
    ensures GetStageStatus(project, 2) == Completed && IsStageAccessible(project, 2) && GetStageProgress(project, 2) == 100
    ensures GetStageStatus(project, 3) == InProgress && IsStageAccessible(project, 3) && GetStageProgress(project, 3) == 75
    ensures GetStageStatus(project, 4) == Pending && !IsStageAccessible(project, 4) && GetStageProgress(project, 4) == 30
  {
  }
}
