/** The plain records of the classifier pipeline (models/models.py): the
    dataset the prompt builder and the YAML store work on, and the
    classification request and result. */
module Models {
  import opened Wrappers

  datatype Task = Task(id: int, name: string, duration: string, tags: seq<string>, notes: string)

  /** The status is free text here; "ongoing" is the default. */
  datatype Project = Project(id: int, name: string, status: string, tags: seq<string>, tasks: seq<Task>)

  /** No field has a default. */
  datatype DatasetContent = DatasetContent(projects: seq<Project>, inboxTasks: seq<string>)

  /** `confidence` is a Python float, modelled as a real. */
  datatype ClassificationResult = ClassificationResult(
    task: string,
    suggestedProject: string,
    confidence: real,
    extractedTags: seq<string>,
    estimatedDuration: Option<string>,
    reasoning: string,
    alternativeProjects: seq<string>)

  datatype ClassificationRequest = ClassificationRequest(dataset: DatasetContent, promptVariant: string)

  datatype ClassificationResponse = ClassificationResponse(
    results: seq<ClassificationResult>,
    promptUsed: string,
    rawResponse: string)

  /** `Task(id=id, name=name)`. */
  function NewTask(id: int, name: string): (t: Task)
    ensures t.id == id && t.name == name
    ensures t.duration == "unknown" && t.tags == [] && t.notes == ""
  {
    Task(id, name, "unknown", [], "")
  }

  /** `Project(id=id, name=name)`. */
  function NewProject(id: int, name: string): (p: Project)
    ensures p.id == id && p.name == name
    ensures p.status == "ongoing" && p.tags == [] && p.tasks == []
  {
    Project(id, name, "ongoing", [], [])
  }

  /** `ClassificationResult(task, suggested_project, confidence)`. */
  function NewClassificationResult(task: string, project: string, confidence: real): (r: ClassificationResult)
    ensures r.task == task && r.suggestedProject == project && r.confidence == confidence
    ensures r.extractedTags == [] && r.estimatedDuration.None? && r.reasoning == "" && r.alternativeProjects == []
  {
    ClassificationResult(task, project, confidence, [], None, "", [])
  }

  /** `ClassificationRequest(dataset)`. */
  function NewClassificationRequest(dataset: DatasetContent): (r: ClassificationRequest)
    ensures r.dataset == dataset && r.promptVariant == "basic"
  {
    ClassificationRequest(dataset, "basic")
  }
}
