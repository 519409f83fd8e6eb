/** The domain records of the GTD aggregate (models/entities.py): projects
    with tasks, resources and reference items, goals, and the root
    `DatasetContent` holding them with the ordered inbox. */
module Entities {
  import opened Wrappers

  /** SystemConfig.DEFAULT_TAGS. */
  const DefaultTags: seq<string> := ["physical", "digital", "out", "need-material", "need-tools", "buy"]

  datatype ProjectStatus = Active | OnHold | Completed {
    /** The string value of the `str` enum member. */
    function Code(): string {
      match this
      case Active => "active"
      case OnHold => "on_hold"
      case Completed => "completed"
    }
  }

  /** `ProjectStatus(code)`: the member whose value is `code`; None where
      Python raises ValueError. */
  function StatusFromCode(code: string): (r: Option<ProjectStatus>)
    ensures r.Some? ==> r.value.Code() == code
    ensures r.None? ==> forall s: ProjectStatus :: s.Code() != code
  {
    if code == "active" then Some(Active)
    else if code == "on_hold" then Some(OnHold)
    else if code == "completed" then Some(Completed)
    else None
  }

  /** The three codes are the only ones, and each names its own member. */
  lemma StatusCodes(s: ProjectStatus)
    ensures StatusFromCode(s.Code()) == Some(s)
    ensures s.Code() in {"active", "on_hold", "completed"}
  {
  }

  datatype ResourceType = ToBuy | ToGather {
    function Code(): string {
      match this
      case ToBuy => "to_buy"
      case ToGather => "to_gather"
    }
  }

  /** `ResourceType(code)`. */
  function ResourceTypeFromCode(code: string): (r: Option<ResourceType>)
    ensures r.Some? ==> r.value.Code() == code
    ensures r.None? ==> forall t: ResourceType :: t.Code() != code
  {
    if code == "to_buy" then Some(ToBuy)
    else if code == "to_gather" then Some(ToGather)
    else None
  }

  lemma ResourceTypeCodes(t: ResourceType)
    ensures ResourceTypeFromCode(t.Code()) == Some(t)
    ensures t.Code() in {"to_buy", "to_gather"}
  {
  }

  /** A calendar date, only carried around. */
  datatype Date = Date(year: int, month: int, day: int)

  datatype ProjectResource = ProjectResource(
    id: string,
    name: string,
    link: Option<string>,
    kind: ResourceType,
    isAcquired: bool,
    store: string)

  datatype ReferenceItem = ReferenceItem(id: string, name: string, description: string)

  /** On the repository path task ids are integers (they are computed as
      max + 1); the record's own default is a uuid string. */
  datatype Task = Task(
    name: string,
    id: int,
    isCompleted: bool,
    tags: seq<string>,
    deadline: Option<Date>,
    duration: string,
    notes: string)

  datatype Project = Project(
    id: int,
    name: string,
    description: string,
    goalId: Option<string>,
    status: ProjectStatus,
    tags: seq<string>,
    tasks: seq<Task>,
    resources: seq<ProjectResource>,
    referenceItems: seq<ReferenceItem>)

  datatype Goal = Goal(id: string, name: string, description: string, status: string)

  /** The root aggregate. */
  datatype DatasetContent = DatasetContent(projects: seq<Project>, inboxTasks: seq<string>, goals: seq<Goal>)

  /** `ProjectResource(id=uuid, name=..., ...)` with the record's defaults
      for the fields not given; `uuid` stands for the uuid default. */
  function NewResource(uuid: string, name: string, kind: ResourceType, store: string): (r: ProjectResource)
    ensures r.id == uuid && r.name == name && r.kind == kind && r.store == store
    ensures !r.isAcquired && r.link.None?
  {
    ProjectResource(uuid, name, None, kind, false, store)
  }

  /** `ProjectResource()`: every default. */
  function DefaultResource(uuid: string): (r: ProjectResource)
    ensures r.kind == ToBuy && !r.isAcquired && r.store == "General" && r.link.None? && r.name == ""
  {
    NewResource(uuid, "", ToBuy, "General")
  }

  function NewReferenceItem(uuid: string, name: string, description: string): ReferenceItem {
    ReferenceItem(uuid, name, description)
  }

  /** `Task(id=id, name=name, tags=tags)`. */
  function NewTask(id: int, name: string, tags: seq<string>): (t: Task)
    ensures t.id == id && t.name == name && t.tags == tags
    ensures !t.isCompleted && t.duration == "unknown" && t.notes == "" && t.deadline.None?
  {
    Task(name, id, false, tags, None, "unknown", "")
  }

  /** `Project(id=id, name=name)`. */
  function NewProject(id: int, name: string): (p: Project)
    ensures p.id == id && p.name == name && p.description == ""
    ensures p.status == Active && p.goalId.None?
    ensures p.tags == [] && p.tasks == [] && p.resources == [] && p.referenceItems == []
  {
    Project(id, name, "", None, Active, [], [], [], [])
  }

  /** `Goal(id=id, name=name, description=description)`. */
  function NewGoal(id: string, name: string, description: string): (g: Goal)
    ensures g.id == id && g.name == name && g.description == description && g.status == "active"
  {
    Goal(id, name, description, "active")
  }

  /** `DatasetContent()`. */
  function EmptyDataset(): (d: DatasetContent)
    ensures d.projects == [] && d.inboxTasks == [] && d.goals == []
  {
    DatasetContent([], [], [])
  }
}
