/**
 * The fixture accessors of src/lib/dataLoader.ts. Each fixture is a JSON
 * document bundled with the application; the model knows it only by the file
 * it is imported from, not by its contents.
 */
module DataLoader {
  import opened Wrappers

  datatype Document = Document(file: string)

  // One loader per imported fixture. Each takes no input and always returns
  // the same document.
  function LoadProjectMetadata(): Document { Document("project-metadata.json") }
  function LoadRepos(): Document { Document("repos.json") }
  function LoadStage1Data(): Document { Document("stage1-inventory.json") }
  function LoadStage2Data(): Document { Document("stage2-target-architecture.json") }
  function LoadStage3Data(): Document { Document("stage3-asset-manifest.json") }
  function LoadStage4Data(): Document { Document("stage4-runtime-configs.json") }
  function LoadStage5Data(): Document { Document("stage5-cutover.json") }
  function LoadEnvironments(): Document { Document("environments.json") }
  function LoadPipelineHistory(): Document { Document("pipeline-history.json") }

  /** The document of each pipeline stage, indexed by stage number. */
  function StageDocuments(): seq<Document> {
    [LoadRepos(), LoadStage1Data(), LoadStage2Data(), LoadStage3Data(), LoadStage4Data(), LoadStage5Data()]
  }

  /**
   * `loadStageData(stageNumber)`: the stage's document for stage numbers 0 to
   * 5, and `null` (here None) for every other number.
   */
  function LoadStageData(stageNumber: int): (r: Option<Document>)
    ensures r.Some? <==> 0 <= stageNumber <= 5
    ensures 0 <= stageNumber <= 5 ==> r.value == StageDocuments()[stageNumber]
  {
    match stageNumber
    case 0 => Some(LoadRepos())
    case 1 => Some(LoadStage1Data())
    case 2 => Some(LoadStage2Data())
    case 3 => Some(LoadStage3Data())
    case 4 => Some(LoadStage4Data())
    case 5 => Some(LoadStage5Data())
    case _ => None
  }

  /** The documents of all nine loaders, in the order the module imports them. */
  function AllDocuments(): seq<Document> {
    [LoadProjectMetadata(), LoadRepos(), LoadStage1Data(), LoadStage2Data(), LoadStage3Data(),
     LoadStage4Data(), LoadStage5Data(), LoadEnvironments(), LoadPipelineHistory()]
  }

  /** The position among AllDocuments of a document, recovered from its file name. */
  function IndexOf(d: Document): nat {
    if d.file == "project-metadata.json" then 0
    else if d.file == "repos.json" then 1
    else if d.file == "stage1-inventory.json" then 2
    else if d.file == "stage2-target-architecture.json" then 3
    else if d.file == "stage3-asset-manifest.json" then 4
    else if d.file == "stage4-runtime-configs.json" then 5
    else if d.file == "stage5-cutover.json" then 6
    else if d.file == "environments.json" then 7
    else 8
  }

  /** The nine loaders serve nine different documents. */
  lemma LoadersDistinct()
    ensures forall i, j :: 0 <= i < j < |AllDocuments()| ==> AllDocuments()[i] != AllDocuments()[j]
  {
    var docs := AllDocuments();
    assert forall k :: 0 <= k < 9 ==> IndexOf(docs[k]) == k by {
      assert IndexOf(docs[0]) == 0 && IndexOf(docs[1]) == 1 && IndexOf(docs[2]) == 2;
      assert IndexOf(docs[3]) == 3 && IndexOf(docs[4]) == 4 && IndexOf(docs[5]) == 5;
      assert IndexOf(docs[6]) == 6 && IndexOf(docs[7]) == 7 && IndexOf(docs[8]) == 8;
    }
  }

  /** Different stages are served different documents. */
  lemma StageDataDistinct(i: int, j: int)
    requires 0 <= i <= 5 && 0 <= j <= 5 && i != j
    ensures LoadStageData(i) != LoadStageData(j)
  {
    // The file names already differ in their sixth character: '.', '1', ..., '5'.
    assert StageDocuments()[i].file[5] != StageDocuments()[j].file[5];
  }
}
