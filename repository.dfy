/** The in-memory repository and the triage, planning and execution
    services that change it in place (services/repository.py).

    The aggregate is a `DatasetContent` value held in a field of
    `YamlRepository`; every service method reassigns that field and says
    what the new aggregate is, as a function of the old one.  `save()` hands
    the aggregate to the dataset manager; here it is counted in the ghost
    field `saves`, so that "does not save" can be stated. */
module Repository {
  import opened Wrappers
  import opened Entities
  import opened Dicts

  // ---------------------------------------------------------------------
  // Lookups: the `next((x for x in xs if x.id == id), None)` expressions.
  // ---------------------------------------------------------------------

  /** Position of the first project with the given id. */
  function ProjectIndex(ps: seq<Project>, id: int): (r: Option<nat>)
    ensures r.Some? ==> r.value < |ps| && ps[r.value].id == id
    ensures r.Some? ==> forall j :: 0 <= j < r.value ==> ps[j].id != id
    ensures r.None? <==> forall j :: 0 <= j < |ps| ==> ps[j].id != id
  {
    if |ps| == 0 then None
    else if ps[0].id == id then Some(0)
    else match ProjectIndex(ps[1..], id)
      case None => None
      case Some(k) => Some(k + 1)
  }

  /** Position of the first task with the given id. */
  function TaskIndex(ts: seq<Task>, id: int): (r: Option<nat>)
    ensures r.Some? ==> r.value < |ts| && ts[r.value].id == id
    ensures r.Some? ==> forall j :: 0 <= j < r.value ==> ts[j].id != id
    ensures r.None? <==> forall j :: 0 <= j < |ts| ==> ts[j].id != id
  {
    if |ts| == 0 then None
    else if ts[0].id == id then Some(0)
    else match TaskIndex(ts[1..], id)
      case None => None
      case Some(k) => Some(k + 1)
  }

  /** Position of the first resource with the given id. */
  function ResourceIndex(rs: seq<ProjectResource>, id: string): (r: Option<nat>)
    ensures r.Some? ==> r.value < |rs| && rs[r.value].id == id
    ensures r.Some? ==> forall j :: 0 <= j < r.value ==> rs[j].id != id
    ensures r.None? <==> forall j :: 0 <= j < |rs| ==> rs[j].id != id
  {
    if |rs| == 0 then None
    else if rs[0].id == id then Some(0)
    else match ResourceIndex(rs[1..], id)
      case None => None
      case Some(k) => Some(k + 1)
  }

  /** `find_task`: the first project with `projectId`, then its first task
      with `taskId`; a later project with the same id is never searched. */
  function TaskLocation(ps: seq<Project>, projectId: int, taskId: int): (r: Option<(nat, nat)>)
    ensures r.Some? ==> r.value.0 < |ps| && r.value.1 < |ps[r.value.0].tasks|
    ensures r.Some? ==> ProjectIndex(ps, projectId) == Some(r.value.0)
    ensures r.Some? ==> TaskIndex(ps[r.value.0].tasks, taskId) == Some(r.value.1)
    ensures r.None? <==> ProjectIndex(ps, projectId).None? || TaskIndex(ps[ProjectIndex(ps, projectId).value].tasks, taskId).None?
  {
    match ProjectIndex(ps, projectId)
    case None => None
    case Some(i) =>
      match TaskIndex(ps[i].tasks, taskId)
      case None => None
      case Some(j) => Some((i, j))
  }

  /** The scan of `toggle_resource_status`: the first resource with id
      `resourceId`, projects in order and resources in order within each. */
  function ResourceLocation(ps: seq<Project>, resourceId: string): (r: Option<(nat, nat)>)
    ensures r.Some? ==> r.value.0 < |ps| && r.value.1 < |ps[r.value.0].resources|
    ensures r.Some? ==> ps[r.value.0].resources[r.value.1].id == resourceId
    ensures r.Some? ==> forall i, j :: 0 <= i < r.value.0 && 0 <= j < |ps[i].resources| ==> ps[i].resources[j].id != resourceId
    ensures r.Some? ==> forall j :: 0 <= j < r.value.1 ==> ps[r.value.0].resources[j].id != resourceId
    ensures r.None? <==> forall i, j :: 0 <= i < |ps| && 0 <= j < |ps[i].resources| ==> ps[i].resources[j].id != resourceId
  {
    if |ps| == 0 then None
    else match ResourceIndex(ps[0].resources, resourceId)
      case Some(j) => Some((0, j))
      case None =>
        match ResourceLocation(ps[1..], resourceId)
        case None => None
        case Some(loc) => Some((loc.0 + 1, loc.1))
  }

  // ---------------------------------------------------------------------
  // Ids and list helpers.
  // ---------------------------------------------------------------------

  /** `max(ids, default=0)`. */
  function MaxId(ids: seq<int>): (m: int)
    ensures |ids| == 0 ==> m == 0
    ensures forall k :: 0 <= k < |ids| ==> ids[k] <= m
    ensures |ids| > 0 ==> m in ids
  {
    if |ids| == 0 then 0
    else if |ids| == 1 then ids[0]
    else
      var rest := MaxId(ids[1..]);
      if ids[0] >= rest then ids[0] else rest
  }

  function TaskIds(ts: seq<Task>): seq<int> {
    seq(|ts|, k requires 0 <= k < |ts| => ts[k].id)
  }

  function ProjectIds(ps: seq<Project>): seq<int> {
    seq(|ps|, k requires 0 <= k < |ps| => ps[k].id)
  }

  /** Position of the first occurrence of `x` in `s`. */
  function IndexOf<T(==)>(s: seq<T>, x: T): (i: nat)
    requires x in s
    ensures i < |s| && s[i] == x && x !in s[..i]
  {
    if s[0] == x then 0 else 1 + IndexOf(s[1..], x)
  }

  /** `if x in s: s.remove(x)`: the first occurrence goes, the rest keeps
      its order. */
  function RemoveFirst<T(==)>(s: seq<T>, x: T): (r: seq<T>)
    ensures x !in s ==> r == s
    ensures x in s ==> |r| == |s| - 1 && multiset(r) == multiset(s) - multiset{x}
    ensures x in s ==> r == s[..IndexOf(s, x)] + s[IndexOf(s, x) + 1..]
  {
    if x in s then
      var i := IndexOf(s, x);
      assert s == s[..i] + [x] + s[i + 1..];
      s[..i] + s[i + 1..]
    else s
  }

  // ---------------------------------------------------------------------
  // Triage: the aggregate before and after each TriageService operation.
  // ---------------------------------------------------------------------

  /** `move_inbox_item_to_project`; None when no project has the id (the
      method then changes nothing and does not save). */
  function MoveToProject(d: DatasetContent, text: string, projectId: int, tags: seq<string>): Option<DatasetContent>
  {
    match ProjectIndex(d.projects, projectId)
    case None => None
    case Some(k) =>
      var p := d.projects[k];
      var t := NewTask(MaxId(TaskIds(p.tasks)) + 1, text, tags);
      Some(d.(projects := d.projects[k := p.(tasks := p.tasks + [t])],
              inboxTasks := RemoveFirst(d.inboxTasks, text)))
  }

  /** Moving to an existing project appends exactly one task, named after
      the text, with the given tags and an id one above the project's
      largest (1 when it has none), so distinct from every id already
      there; only that project changes, and one inbox occurrence goes. */
  lemma MoveToProjectAppendsTask(d: DatasetContent, text: string, projectId: int, tags: seq<string>)
    requires ProjectIndex(d.projects, projectId).Some?
    ensures var k := ProjectIndex(d.projects, projectId).value;
      var r := MoveToProject(d, text, projectId, tags);
      var old_tasks := d.projects[k].tasks;
      && r.Some?
      && |r.value.projects| == |d.projects|
      && (forall j :: 0 <= j < |d.projects| && j != k ==> r.value.projects[j] == d.projects[j])
      && r.value.projects[k] == d.projects[k].(tasks := r.value.projects[k].tasks)
      && |r.value.projects[k].tasks| == |old_tasks| + 1
      && r.value.projects[k].tasks[..|old_tasks|] == old_tasks
      && (var t := r.value.projects[k].tasks[|old_tasks|];
          && t.name == text && t.tags == tags && !t.isCompleted
          && t.id == (if old_tasks == [] then 1 else MaxId(TaskIds(old_tasks)) + 1)
          && (forall j :: 0 <= j < |old_tasks| ==> old_tasks[j].id < t.id))
      && r.value.inboxTasks == RemoveFirst(d.inboxTasks, text)
      && r.value.goals == d.goals
  {
    var k := ProjectIndex(d.projects, projectId).value;
    var old_tasks := d.projects[k].tasks;
    var ids := TaskIds(old_tasks);
    forall j | 0 <= j < |old_tasks| ensures old_tasks[j].id < MaxId(ids) + 1 {
      assert ids[j] == old_tasks[j].id;
    }
  }

  /** An unknown project id changes neither the projects nor the inbox. */
  lemma MoveToUnknownProject(d: DatasetContent, text: string, projectId: int, tags: seq<string>)
    requires forall j :: 0 <= j < |d.projects| ==> d.projects[j].id != projectId
    ensures MoveToProject(d, text, projectId, tags).None?
  {
  }

  /** `create_project_from_inbox`. */
  function CreateProjectFrom(d: DatasetContent, text: string, name: string): DatasetContent
  {
    var newId := MaxId(ProjectIds(d.projects)) + 1;
    var d1 := d.(projects := d.projects + [NewProject(newId, name)]);
    BelowMaxProjectId(d.projects);
    FreshIdIsLast(d.projects, NewProject(newId, name));
    MoveToProject(d1, text, newId, []).value
  }

  /** A project appended with an id above every existing one is the first
      (and only) project with that id. */
  lemma FreshIdIsLast(ps: seq<Project>, p: Project)
    requires forall j :: 0 <= j < |ps| ==> ps[j].id != p.id
    ensures ProjectIndex(ps + [p], p.id) == Some(|ps|)
  {
    var qs := ps + [p];
    assert forall j :: 0 <= j < |ps| ==> qs[j].id != p.id;
    assert qs[|ps|].id == p.id;
    var r := ProjectIndex(qs, p.id);
    assert r.Some?;
    assert qs[r.value].id == p.id;
  }

  /** Every existing project id lies below the largest plus one. */
  lemma BelowMaxProjectId(ps: seq<Project>)
    ensures forall j :: 0 <= j < |ps| ==> ps[j].id < MaxId(ProjectIds(ps)) + 1
  {
    var ids := ProjectIds(ps);
    forall j | 0 <= j < |ps| ensures ps[j].id < MaxId(ids) + 1 {
      assert ids[j] == ps[j].id;
    }
  }

  /** The new project gets an id above every existing one (1 when there
      are none), holds exactly one untagged task named after the text, with
      id 1, and is appended at the end; one inbox occurrence goes. */
  lemma {:induction false} CreateProjectAppends(d: DatasetContent, text: string, name: string)
    ensures var r := CreateProjectFrom(d, text, name);
      var newId := if d.projects == [] then 1 else MaxId(ProjectIds(d.projects)) + 1;
      && r.projects == d.projects + [NewProject(newId, name).(tasks := [NewTask(1, text, [])])]
      && (forall j :: 0 <= j < |d.projects| ==> d.projects[j].id < newId)
      && r.inboxTasks == RemoveFirst(d.inboxTasks, text)
      && r.goals == d.goals
  {
    var newId := MaxId(ProjectIds(d.projects)) + 1;
    var p := NewProject(newId, name);
    BelowMaxProjectId(d.projects);
    FreshIdIsLast(d.projects, p);
    var d1 := d.(projects := d.projects + [p]);
    assert TaskIds([]) == [];
    var t := NewTask(1, text, []);
    assert p.tasks + [t] == [t];
    assert MoveToProject(d1, text, newId, []) == Some(d1.(projects := d1.projects[|d.projects| := p.(tasks := [t])],
        inboxTasks := RemoveFirst(d.inboxTasks, text)));
    assert (d.projects + [p])[|d.projects| := p.(tasks := [t])] == d.projects + [p.(tasks := [t])];
  }

  /** `skip_inbox_item`: a present text leaves from its first position and
      goes to the tail; an absent one changes nothing. */
  function Skip(inbox: seq<string>, text: string): seq<string> {
    if text in inbox then RemoveFirst(inbox, text) + [text] else inbox
  }

  /** Skipping keeps the length and the multiset of entries. */
  lemma SkipIsPermutation(inbox: seq<string>, text: string)
    ensures |Skip(inbox, text)| == |inbox|
    ensures multiset(Skip(inbox, text)) == multiset(inbox)
  {
    if text in inbox {
      assert text in multiset(inbox);
    }
  }

  /** Skipping the head is a left rotation. */
  lemma SkipHeadRotates(inbox: seq<string>)
    requires |inbox| > 0
    ensures Skip(inbox, inbox[0]) == inbox[1..] + [inbox[0]]
  {
  }

  /** `n` successive skips of whatever is at the head. */
  function SkipHeadTimes(inbox: seq<string>, n: nat): seq<string>
    decreases n
  {
    if n == 0 || |inbox| == 0 then inbox
    else SkipHeadTimes(Skip(inbox, inbox[0]), n - 1)
  }

  /** `n` head skips rotate the inbox left by `n`. */
  lemma {:induction false} SkipHeadTimesRotates(inbox: seq<string>, n: nat)
    requires n <= |inbox|
    ensures SkipHeadTimes(inbox, n) == inbox[n..] + inbox[..n]
    decreases n
  {
    if n == 0 {
      assert inbox[0..] + inbox[..0] == inbox;
    } else {
      SkipHeadTimesRotates(inbox[1..] + [inbox[0]], n - 1);
      SkipHeadTimesUnfold(inbox, n);
      RotateOnce(inbox, n);
    }
  }

  /** The first of `n` head skips. */
  lemma SkipHeadTimesUnfold(inbox: seq<string>, n: nat)
    requires 0 < n <= |inbox|
    ensures SkipHeadTimes(inbox, n) == SkipHeadTimes(inbox[1..] + [inbox[0]], n - 1)
  {
    SkipHeadRotates(inbox);
  }

  /** Rotating the once-rotated inbox by `n - 1` rotates it by `n`. */
  lemma RotateOnce(inbox: seq<string>, n: nat)
    requires 0 < n <= |inbox|
    ensures (inbox[1..] + [inbox[0]])[n - 1..] + (inbox[1..] + [inbox[0]])[..n - 1] == inbox[n..] + inbox[..n]
  {
    var s' := inbox[1..] + [inbox[0]];
    assert s'[n - 1..] == inbox[n..] + [inbox[0]];
    assert s'[..n - 1] == inbox[1..n];
    assert inbox[..n] == [inbox[0]] + inbox[1..n];
    assert (inbox[n..] + [inbox[0]]) + inbox[1..n] == inbox[n..] + ([inbox[0]] + inbox[1..n]);
  }

  /** Skipping the head of an inbox of `n` items `n` times restores it. */
  lemma {:induction false} SkipAllRestores(inbox: seq<string>)
    ensures SkipHeadTimes(inbox, |inbox|) == inbox
  {
    SkipHeadTimesRotates(inbox, |inbox|);
    assert inbox[|inbox|..] + inbox[..|inbox|] == inbox;
  }

  // ---------------------------------------------------------------------
  // Planning queries (list comprehensions).
  // ---------------------------------------------------------------------

  /** `[p for p in projects if p.goal_id == goal_id]`. */
  function ProjectsForGoal(ps: seq<Project>, goalId: string): (r: seq<Project>)
    ensures |r| <= |ps|
    ensures forall p :: p in r <==> p in ps && p.goalId == Some(goalId)
  {
    if |ps| == 0 then []
    else
      var rest := ProjectsForGoal(ps[1..], goalId);
      assert forall p :: p in ps <==> p == ps[0] || p in ps[1..];
      if ps[0].goalId == Some(goalId) then [ps[0]] + rest else rest
  }

  /** `[p for p in projects if not p.goal_id]`: no goal, or an empty id. */
  function OrphanedProjects(ps: seq<Project>): (r: seq<Project>)
    ensures |r| <= |ps|
    ensures forall p :: p in r <==> p in ps && (p.goalId == None || p.goalId == Some(""))
  {
    if |ps| == 0 then []
    else
      var rest := OrphanedProjects(ps[1..]);
      assert forall p :: p in ps <==> p == ps[0] || p in ps[1..];
      if ps[0].goalId == None || ps[0].goalId == Some("") then [ps[0]] + rest else rest
  }

  /** `add_reference_item` as services/repository.py writes it:
      `ReferenceItem` is not imported into that module, so when the project exists evaluating
      `ReferenceItem(...)` raises NameError before anything is appended or
      saved; with no such project nothing happens. */
  function AddReferenceItemAsWritten(d: DatasetContent, projectId: int, uuid: string, name: string, description: string): (r: Result<DatasetContent, string>)
    ensures r.Err? <==> exists j :: 0 <= j < |d.projects| && d.projects[j].id == projectId
    ensures r.Ok? ==> r.value == d
  {
    match ProjectIndex(d.projects, projectId)
    case None => Ok(d)
    case Some(_) => Err("NameError: name 'ReferenceItem' is not defined")
  }

  /** `add_reference_item` as evidently intended: append the new reference
      item to the first project with the id. */
  function AddReferenceItem(d: DatasetContent, projectId: int, uuid: string, name: string, description: string): (r: DatasetContent)
    ensures r.inboxTasks == d.inboxTasks && r.goals == d.goals && |r.projects| == |d.projects|
    ensures ProjectIndex(d.projects, projectId).None? ==> r == d
    ensures ProjectIndex(d.projects, projectId).Some? ==>
      var k := ProjectIndex(d.projects, projectId).value;
      && r.projects[k] == d.projects[k].(referenceItems := d.projects[k].referenceItems + [ReferenceItem(uuid, name, description)])
      && (forall j :: 0 <= j < |d.projects| && j != k ==> r.projects[j] == d.projects[j])
  {
    match ProjectIndex(d.projects, projectId)
    case None => d
    case Some(k) =>
      var p := d.projects[k];
      d.(projects := d.projects[k := p.(referenceItems := p.referenceItems + [NewReferenceItem(uuid, name, description)])])
  }

  /** Whenever the project exists, the code as written fails, while the
      intended operation appends exactly one reference item to it. */
  lemma AddReferenceItemDiscrepancy(d: DatasetContent, projectId: int, uuid: string, name: string, description: string)
    requires ProjectIndex(d.projects, projectId).Some?
    ensures AddReferenceItemAsWritten(d, projectId, uuid, name, description).Err?
    ensures var k := ProjectIndex(d.projects, projectId).value;
      var r := AddReferenceItem(d, projectId, uuid, name, description);
      && |r.projects| == |d.projects|
      && r.projects[k].referenceItems == d.projects[k].referenceItems + [ReferenceItem(uuid, name, description)]
      && (forall j :: 0 <= j < |d.projects| && j != k ==> r.projects[j] == d.projects[j])
  {
  }

  /** `add_resource`: append a new TO_BUY-or-TO_GATHER resource, not yet
      acquired, to the first project with the id. */
  function AddResource(d: DatasetContent, projectId: int, uuid: string, name: string, kind: ResourceType, store: string): Option<DatasetContent>
  {
    match ProjectIndex(d.projects, projectId)
    case None => None
    case Some(k) =>
      var p := d.projects[k];
      Some(d.(projects := d.projects[k := p.(resources := p.resources + [NewResource(uuid, name, kind, store)])]))
  }

  // ---------------------------------------------------------------------
  // Execution: next actions, completion flags, shopping list.
  // ---------------------------------------------------------------------

  /** `if context_filter and context_filter not in task.tags: skip`. */
  predicate MatchesContext(t: Task, contextFilter: Option<string>) {
    contextFilter.None? || contextFilter.value == "" || contextFilter.value in t.tags
  }

  /** The tasks of one active project that `get_next_actions` keeps. */
  function TaskActions(ts: seq<Task>, contextFilter: Option<string>): seq<Task>
  {
    if |ts| == 0 then []
    else
      var last := ts[|ts| - 1];
      TaskActions(ts[..|ts| - 1], contextFilter)
        + (if !last.isCompleted && MatchesContext(last, contextFilter) then [last] else [])
  }

  /** `get_next_actions`, projects in order and tasks in order within each. */
  function NextActions(ps: seq<Project>, contextFilter: Option<string>): seq<Task>
  {
    if |ps| == 0 then []
    else
      var last := ps[|ps| - 1];
      NextActions(ps[..|ps| - 1], contextFilter)
        + (if last.status == Active then TaskActions(last.tasks, contextFilter) else [])
  }

  lemma {:induction false} TaskActionsMembers(ts: seq<Task>, contextFilter: Option<string>, t: Task)
    ensures t in TaskActions(ts, contextFilter) <==> t in ts && !t.isCompleted && MatchesContext(t, contextFilter)
  {
    if |ts| > 0 {
      TaskActionsMembers(ts[..|ts| - 1], contextFilter, t);
      assert ts == ts[..|ts| - 1] + [ts[|ts| - 1]];
    }
  }

  /** The next actions are exactly the incomplete tasks of ACTIVE projects
      that carry the context tag (every one of them when there is no
      filter or an empty one). */
  lemma {:induction false} NextActionsMembers(ps: seq<Project>, contextFilter: Option<string>, t: Task)
    ensures t in NextActions(ps, contextFilter) <==>
      !t.isCompleted && MatchesContext(t, contextFilter) && HeldActive(ps, t)
  {
    if |ps| > 0 {
      var n := |ps| - 1;
      NextActionsMembers(ps[..n], contextFilter, t);
      TaskActionsMembers(ps[n].tasks, contextFilter, t);
      InActiveStep(ps, t);
    }
  }

  /** `t` is held by an ACTIVE project of `ps`. */
  ghost predicate HeldActive(ps: seq<Project>, t: Task) {
    exists i :: 0 <= i < |ps| && ps[i].status == Active && t in ps[i].tasks
  }

  lemma InActiveStep(ps: seq<Project>, t: Task)
    requires |ps| > 0
    ensures HeldActive(ps, t) <==>
      HeldActive(ps[..|ps| - 1], t) || (ps[|ps| - 1].status == Active && t in ps[|ps| - 1].tasks)
  {
    var n := |ps| - 1;
    if HeldActive(ps, t) {
      var i :| 0 <= i < |ps| && ps[i].status == Active && t in ps[i].tasks;
      if i < n { assert ps[..n][i] == ps[i]; }
    }
    if HeldActive(ps[..n], t) {
      var i :| 0 <= i < n && ps[..n][i].status == Active && t in ps[..n][i].tasks;
      assert ps[i] == ps[..n][i];
    }
  }

  /** Sets `isCompleted` on the task at `loc`, if any. */
  function WithTaskCompleted(ps: seq<Project>, loc: Option<(nat, nat)>, done: bool): seq<Project>
    requires loc.Some? ==> loc.value.0 < |ps| && loc.value.1 < |ps[loc.value.0].tasks|
  {
    match loc
    case None => ps
    case Some((i, j)) =>
      var p := ps[i];
      ps[i := p.(tasks := p.tasks[j := p.tasks[j].(isCompleted := done)])]
  }

  /** complete_task / undo_complete_task: the first matching task gets the
      flag and nothing else changes; a missing id changes nothing. */
  lemma SetCompletedChangesOneFlag(ps: seq<Project>, projectId: int, taskId: int, done: bool)
    ensures var loc := TaskLocation(ps, projectId, taskId);
      var r := WithTaskCompleted(ps, loc, done);
      && |r| == |ps|
      && (loc.None? ==> r == ps)
      && (loc.Some? ==>
            var (i, j) := loc.value;
            && ps[i].id == projectId && ps[i].tasks[j].id == taskId
            && r[i].tasks[j] == ps[i].tasks[j].(isCompleted := done)
            && |r[i].tasks| == |ps[i].tasks|
            && r[i] == ps[i].(tasks := r[i].tasks)
            && (forall j' :: 0 <= j' < |ps[i].tasks| && j' != j ==> r[i].tasks[j'] == ps[i].tasks[j'])
            && (forall i' :: 0 <= i' < |ps| && i' != i ==> r[i'] == ps[i']))
  {
  }

  /** Sets `isAcquired` on the resource at `loc`, if any. */
  function WithResourceAcquired(ps: seq<Project>, loc: Option<(nat, nat)>, acquired: bool): seq<Project>
    requires loc.Some? ==> loc.value.0 < |ps| && loc.value.1 < |ps[loc.value.0].resources|
  {
    match loc
    case None => ps
    case Some((i, j)) =>
      var p := ps[i];
      ps[i := p.(resources := p.resources[j := p.resources[j].(isAcquired := acquired)])]
  }

  /** toggle_resource_status: the first resource with the id, in project
      order, gets the flag and nothing else changes. */
  lemma ToggleChangesOneFlag(ps: seq<Project>, resourceId: string, acquired: bool)
    ensures var loc := ResourceLocation(ps, resourceId);
      var r := WithResourceAcquired(ps, loc, acquired);
      && |r| == |ps|
      && (loc.None? ==> r == ps)
      && (loc.Some? ==>
            var (i, j) := loc.value;
            && r[i].resources[j] == ps[i].resources[j].(isAcquired := acquired)
            && r[i] == ps[i].(resources := r[i].resources)
            && |r[i].resources| == |ps[i].resources|
            && (forall j' :: 0 <= j' < |ps[i].resources| && j' != j ==> r[i].resources[j'] == ps[i].resources[j'])
            && (forall i' :: 0 <= i' < |ps| && i' != i ==> r[i'] == ps[i']))
  {
  }

  /** TO_BUY and not yet acquired. */
  predicate Pending(r: ProjectResource) {
    r.kind == ToBuy && !r.isAcquired
  }

  /** `item.store if item.store else "General"`. */
  function StoreOf(r: ProjectResource): string {
    if r.store == "" then "General" else r.store
  }

  /** One line of the shopping trip: store, resource, project name. */
  type Purchase = (string, ProjectResource, string)

  /** `[r for r in resources if r.type == TO_BUY and not r.is_acquired]`. */
  function ToBuyList(rs: seq<ProjectResource>): seq<ProjectResource>
  {
    if |rs| == 0 then []
    else ToBuyList(rs[..|rs| - 1]) + (if Pending(rs[|rs| - 1]) then [rs[|rs| - 1]] else [])
  }

  function Tagged(rs: seq<ProjectResource>, projectName: string): seq<Purchase>
  {
    if |rs| == 0 then []
    else Tagged(rs[..|rs| - 1], projectName) + [(StoreOf(rs[|rs| - 1]), rs[|rs| - 1], projectName)]
  }

  /** Every purchase the shopping trip lists, in project then resource
      order: a flat reference list, independent of the grouping. */
  function Purchases(ps: seq<Project>): seq<Purchase>
  {
    if |ps| == 0 then []
    else
      var last := ps[|ps| - 1];
      Purchases(ps[..|ps| - 1])
        + (if last.status == Completed then [] else Tagged(ToBuyList(last.resources), last.name))
  }

  /** The trip: a dict from store to its purchases, the stores in the order
      they first come up. */
  type Trip = Dict<seq<(ProjectResource, string)>>

  /** `shopping_trip[store].append((item, name))` for each purchase in turn;
      a store seen for the first time goes to the end of the dict. */
  function Group(xs: seq<Purchase>): Trip
  {
    if |xs| == 0 then []
    else
      var d := Group(xs[..|xs| - 1]);
      var (s, r, n) := xs[|xs| - 1];
      Put(d, s, Lookup(d, s).GetOr([]) + [(r, n)])
  }

  /** The purchases under one store, in order. */
  function ForStore(xs: seq<Purchase>, store: string): seq<(ProjectResource, string)>
  {
    if |xs| == 0 then []
    else
      var (s, r, n) := xs[|xs| - 1];
      ForStore(xs[..|xs| - 1], store) + (if s == store then [(r, n)] else [])
  }

  /** The stores of the purchases, each once, in the order they first come
      up. */
  function StoresInOrder(xs: seq<Purchase>): seq<string>
  {
    if |xs| == 0 then []
    else
      var rest := StoresInOrder(xs[..|xs| - 1]);
      rest + (if xs[|xs| - 1].0 in rest then [] else [xs[|xs| - 1].0])
  }

  /** Grouping loses and invents nothing: each store maps to exactly its own
      purchases, in order, a store without purchases is absent, and the
      stores come in the order they first come up. */
  lemma {:induction false} GroupIsByStore(xs: seq<Purchase>)
    ensures DistinctKeys(Group(xs))
    ensures forall s :: Lookup(Group(xs), s) == if ForStore(xs, s) == [] then None else Some(ForStore(xs, s))
    ensures Keys(Group(xs)) == StoresInOrder(xs)
  {
    if |xs| > 0 {
      GroupIsByStore(xs[..|xs| - 1]);
      GroupLookupStep(xs, xs[..|xs| - 1]);
      GroupKeysStep(xs);
    }
  }

  /** One more purchase extends its own store's list and no other. */
  lemma GroupLookupStep(xs: seq<Purchase>, init: seq<Purchase>)
    requires |xs| > 0 && init == xs[..|xs| - 1]
    requires DistinctKeys(Group(init))
    requires forall s :: Lookup(Group(init), s) == if ForStore(init, s) == [] then None else Some(ForStore(init, s))
    ensures DistinctKeys(Group(xs))
    ensures forall s :: Lookup(Group(xs), s) == if ForStore(xs, s) == [] then None else Some(ForStore(xs, s))
  {
    var n := |xs| - 1;
    var d := Group(xs[..n]);
    var (s, r, nm) := xs[n];
    var v := Lookup(d, s).GetOr([]) + [(r, nm)];
    PutLaws(d, s, v);
    assert Group(xs) == Put(d, s, v);
    assert v == ForStore(xs[..n], s) + [(r, nm)];
    forall t ensures Lookup(Group(xs), t) == if ForStore(xs, t) == [] then None else Some(ForStore(xs, t)) {
      assert ForStore(xs, t) == ForStore(xs[..n], t) + (if s == t then [(r, nm)] else []);
      if t == s {
        assert ForStore(xs, t) == v;
        assert Lookup(Group(xs), t) == Some(v);
      } else {
        assert Lookup(Group(xs), t) == Lookup(d, t);
        assert ForStore(xs, t) == ForStore(xs[..n], t);
        assert Lookup(d, t) == if ForStore(xs[..n], t) == [] then None else Some(ForStore(xs[..n], t));
      }
    }
  }

  /** One more purchase adds its store at the end the first time it comes
      up. */
  lemma GroupKeysStep(xs: seq<Purchase>)
    requires |xs| > 0
    requires Keys(Group(xs[..|xs| - 1])) == StoresInOrder(xs[..|xs| - 1])
    ensures Keys(Group(xs)) == StoresInOrder(xs)
  {
    var n := |xs| - 1;
    var d := Group(xs[..n]);
    var (s, r, nm) := xs[n];
    var v := Lookup(d, s).GetOr([]) + [(r, nm)];
    PutKeys(d, s, v);
    assert Group(xs) == Put(d, s, v);
    assert s in Keys(d) <==> KeyIndex(d, s).Some?;
  }

  lemma {:induction false} ToBuyMembers(rs: seq<ProjectResource>, r: ProjectResource)
    ensures r in ToBuyList(rs) <==> r in rs && Pending(r)
  {
    if |rs| > 0 {
      ToBuyMembers(rs[..|rs| - 1], r);
      assert rs == rs[..|rs| - 1] + [rs[|rs| - 1]];
    }
  }

  lemma {:induction false} TaggedMembers(rs: seq<ProjectResource>, name: string, x: Purchase)
    ensures x in Tagged(rs, name) <==> x.1 in rs && x.2 == name && x.0 == StoreOf(x.1)
  {
    if |rs| > 0 {
      TaggedMembers(rs[..|rs| - 1], name, x);
      assert rs == rs[..|rs| - 1] + [rs[|rs| - 1]];
    }
  }

  /** `p` is not COMPLETED, owns the resource of `x`, and `x` carries its
      name. */
  predicate BuysFor(p: Project, x: Purchase) {
    p.status != Completed && x.1 in p.resources && x.2 == p.name
  }

  /** Some project of `ps` accounts for `x`. */
  predicate BoughtFor(ps: seq<Project>, x: Purchase) {
    exists i :: 0 <= i < |ps| && BuysFor(ps[i], x)
  }

  lemma BoughtForStep(ps: seq<Project>, x: Purchase)
    requires |ps| > 0
    ensures BoughtFor(ps, x) <==> BoughtFor(ps[..|ps| - 1], x) || BuysFor(ps[|ps| - 1], x)
  {
    var n := |ps| - 1;
    if BoughtFor(ps, x) {
      var i :| 0 <= i < |ps| && BuysFor(ps[i], x);
      if i < n { assert ps[..n][i] == ps[i]; }
    }
    if BoughtFor(ps[..n], x) {
      var i :| 0 <= i < n && BuysFor(ps[..n][i], x);
      assert ps[i] == ps[..n][i];
    }
  }

  lemma PurchasesStep(ps: seq<Project>, x: Purchase)
    requires |ps| > 0
    ensures x in Purchases(ps) <==>
      (x in Purchases(ps[..|ps| - 1])
       || (ps[|ps| - 1].status != Completed && x in Tagged(ToBuyList(ps[|ps| - 1].resources), ps[|ps| - 1].name)))
  {
  }

  /** The purchases of one more project. */
  lemma PurchasesPrefix(ps: seq<Project>, i: nat, project: Project)
    requires i < |ps| && project == ps[i]
    ensures Purchases(ps[..i + 1]) ==
      Purchases(ps[..i]) + (if project.status == Completed then [] else Tagged(ToBuyList(project.resources), project.name))
  {
    assert ps[..i + 1][..i] == ps[..i];
  }

  /** Grouping one more purchase of a project appends it under its store. */
  lemma AddPurchase(pre: seq<Purchase>, rs: seq<ProjectResource>, j: nat, name: string, trip: Trip)
    requires j < |rs| && trip == Group(pre + Tagged(rs[..j], name))
    ensures Group(pre + Tagged(rs[..j + 1], name)) ==
      Put(trip, StoreOf(rs[j]), Lookup(trip, StoreOf(rs[j])).GetOr([]) + [(rs[j], name)])
  {
    var x := (StoreOf(rs[j]), rs[j], name);
    assert pre + Tagged(rs[..j + 1], name) == (pre + Tagged(rs[..j], name)) + [x] by {
      TaggedPrefix(rs, j, name);
    }
    GroupAppend(pre + Tagged(rs[..j], name), x);
  }

  lemma TaggedPrefix(rs: seq<ProjectResource>, j: nat, name: string)
    requires j < |rs|
    ensures Tagged(rs[..j + 1], name) == Tagged(rs[..j], name) + [(StoreOf(rs[j]), rs[j], name)]
  {
    assert rs[..j + 1][..j] == rs[..j];
  }

  lemma GroupAppend(xs: seq<Purchase>, x: Purchase)
    ensures Group(xs + [x]) == Put(Group(xs), x.0, Lookup(Group(xs), x.0).GetOr([]) + [(x.1, x.2)])
  {
    assert (xs + [x])[..|xs|] == xs;
  }

  /** The trip lists exactly the pending resources of the projects that
      are not COMPLETED, each with its project's name, under its store. */
  lemma {:induction false} PurchasesMembers(ps: seq<Project>, x: Purchase)
    ensures x in Purchases(ps) <==> Pending(x.1) && x.0 == StoreOf(x.1) && BoughtFor(ps, x)
  {
    if |ps| > 0 {
      var n := |ps| - 1;
      PurchasesMembers(ps[..n], x);
      ToBuyMembers(ps[n].resources, x.1);
      TaggedMembers(ToBuyList(ps[n].resources), ps[n].name, x);
      PurchasesStep(ps, x);
      BoughtForStep(ps, x);
    }
  }

  // ---------------------------------------------------------------------
  // The repository object and the three services.
  // ---------------------------------------------------------------------

  class YamlRepository {
    const name: string
    var data: DatasetContent
    /** How many times `save()` has handed the aggregate to the dataset
        manager. */
    ghost var saves: nat

    /** `YamlRepository(dm, name)`: `loaded` is what `dm.load_dataset(name)`
        returned. */
    constructor (name: string, loaded: DatasetContent)
      ensures this.name == name && data == loaded && saves == 0
    {
      this.name := name;
      data := loaded;
      saves := 0;
    }

    /** `save()`: the dataset manager writes the aggregate; its result
        dictionary is ignored, so the aggregate itself never changes. */
    method Save()
      modifies this
      ensures data == old(data) && saves == old(saves) + 1
    {
      saves := saves + 1;
    }

    /** `find_project`: the first project with the id, as `next(...)`
        returns it. */
    function FindProject(projectId: int): (r: Option<Project>)
      reads this
      ensures r.None? <==> forall j :: 0 <= j < |data.projects| ==> data.projects[j].id != projectId
      ensures r.Some? ==> r.value in data.projects && r.value.id == projectId
      ensures r.Some? ==>
        ProjectIndex(data.projects, projectId).Some? && r.value == data.projects[ProjectIndex(data.projects, projectId).value]
    {
      match ProjectIndex(data.projects, projectId)
      case None => None
      case Some(k) => Some(data.projects[k])
    }

    /** `find_task`: the first task with `taskId` in the first project with
        `projectId`. */
    function FindTask(projectId: int, taskId: int): (r: Option<Task>)
      reads this
      ensures r.Some? ==> r.value.id == taskId
      ensures r.Some? ==> exists i :: 0 <= i < |data.projects| && data.projects[i].id == projectId && r.value in data.projects[i].tasks
      ensures r.None? <==> TaskLocation(data.projects, projectId, taskId).None?
      ensures r.Some? ==>
        var (i, j) := TaskLocation(data.projects, projectId, taskId).value; r.value == data.projects[i].tasks[j]
    {
      match TaskLocation(data.projects, projectId, taskId)
      case None => None
      case Some((i, j)) => Some(data.projects[i].tasks[j])
    }
  }

  class TriageService {
    const repo: YamlRepository

    constructor (repo: YamlRepository)
      ensures this.repo == repo
    {
      this.repo := repo;
    }

    function GetInboxItems(): seq<string>
      reads this, repo
    {
      repo.data.inboxTasks
    }

    /** `add_to_inbox`: the text goes to the tail; projects and goals are
        untouched; one save. */
    method AddToInbox(text: string)
      modifies repo
      ensures repo.data.inboxTasks == old(repo.data.inboxTasks) + [text]
      ensures repo.data.projects == old(repo.data.projects) && repo.data.goals == old(repo.data.goals)
      ensures repo.saves == old(repo.saves) + 1
    {
      repo.data := repo.data.(inboxTasks := repo.data.inboxTasks + [text]);
      repo.Save();
    }

    /** `move_inbox_item_to_project`: saves only when the project exists. */
    method MoveInboxItemToProject(itemText: string, projectId: int, tags: seq<string>)
      modifies repo
      ensures var r := MoveToProject(old(repo.data), itemText, projectId, tags);
        && repo.data == (if r.Some? then r.value else old(repo.data))
        && repo.saves == old(repo.saves) + (if r.Some? then 1 else 0)
    {
      var k := ProjectIndex(repo.data.projects, projectId);
      if k.Some? {
        var project := repo.data.projects[k.value];
        var newId := MaxId(TaskIds(project.tasks)) + 1;
        var newTask := NewTask(newId, itemText, tags);
        project := project.(tasks := project.tasks + [newTask]);
        repo.data := repo.data.(projects := repo.data.projects[k.value := project]);
        if itemText in repo.data.inboxTasks {
          repo.data := repo.data.(inboxTasks := RemoveFirst(repo.data.inboxTasks, itemText));
        }
        repo.Save();
      }
    }

    /** `create_project_from_inbox`. */
    method CreateProjectFromInbox(itemText: string, newProjectName: string)
      modifies repo
      ensures repo.data == CreateProjectFrom(old(repo.data), itemText, newProjectName)
      ensures repo.saves == old(repo.saves) + 1
    {
      var newId := MaxId(ProjectIds(repo.data.projects)) + 1;
      var newProj := NewProject(newId, newProjectName);
      BelowMaxProjectId(repo.data.projects);
      FreshIdIsLast(repo.data.projects, newProj);
      repo.data := repo.data.(projects := repo.data.projects + [newProj]);
      MoveInboxItemToProject(itemText, newId, []);
    }

    /** `skip_inbox_item`: saves only when the text is present. */
    method SkipInboxItem(itemText: string)
      modifies repo
      ensures repo.data == old(repo.data).(inboxTasks := Skip(old(repo.data.inboxTasks), itemText))
      ensures repo.saves == old(repo.saves) + (if itemText in old(repo.data.inboxTasks) then 1 else 0)
    {
      if itemText in repo.data.inboxTasks {
        repo.data := repo.data.(inboxTasks := RemoveFirst(repo.data.inboxTasks, itemText));
        repo.data := repo.data.(inboxTasks := repo.data.inboxTasks + [itemText]);
        repo.Save();
      }
    }
  }

  class PlanningService {
    const repo: YamlRepository

    constructor (repo: YamlRepository)
      ensures this.repo == repo
    {
      this.repo := repo;
    }

    function GetAllGoals(): seq<Goal>
      reads this, repo
    {
      repo.data.goals
    }

    /** `create_goal`; `uuid` stands for the uuid `create_goal` draws. */
    method CreateGoal(name: string, description: string, uuid: string) returns (g: Goal)
      modifies repo
      ensures g == NewGoal(uuid, name, description) && g.status == "active"
      ensures repo.data == old(repo.data).(goals := old(repo.data.goals) + [g])
      ensures repo.saves == old(repo.saves) + 1
    {
      g := NewGoal(uuid, name, description);
      repo.data := repo.data.(goals := repo.data.goals + [g]);
      repo.Save();
    }

    function GetProjectsForGoal(goalId: string): (r: seq<Project>)
      reads this, repo
      ensures forall p :: p in r <==> p in repo.data.projects && p.goalId == Some(goalId)
    {
      ProjectsForGoal(repo.data.projects, goalId)
    }

    function GetOrphanedProjects(): (r: seq<Project>)
      reads this, repo
      ensures forall p :: p in r <==> p in repo.data.projects && (p.goalId == None || p.goalId == Some(""))
    {
      OrphanedProjects(repo.data.projects)
    }

    /** `add_resource`: saves only when the project exists; the store
        defaults to "General". `uuid` stands for the id the new resource
        draws. */
    method AddResourceTo(projectId: int, name: string, kind: ResourceType, uuid: string, store: string := "General")
      modifies repo
      ensures var r := AddResource(old(repo.data), projectId, uuid, name, kind, store);
        && repo.data == (if r.Some? then r.value else old(repo.data))
        && repo.saves == old(repo.saves) + (if r.Some? then 1 else 0)
    {
      var k := ProjectIndex(repo.data.projects, projectId);
      if k.Some? {
        var project := repo.data.projects[k.value];
        var res := NewResource(uuid, name, kind, store);
        project := project.(resources := project.resources + [res]);
        repo.data := repo.data.(projects := repo.data.projects[k.value := project]);
        repo.Save();
      }
    }

    /** `add_reference_item` as written: fails with NameError when the
        project exists, leaving the aggregate unsaved and unchanged. */
    method AddReferenceItemAsWrittenTo(projectId: int, name: string, description: string, uuid: string) returns (r: Result<(), string>)
      modifies repo
      ensures repo.data == old(repo.data) && repo.saves == old(repo.saves)
      ensures r.Err? <==> ProjectIndex(old(repo.data.projects), projectId).Some?
    {
      var k := ProjectIndex(repo.data.projects, projectId);
      if k.Some? {
        r := Err("NameError: name 'ReferenceItem' is not defined");
      } else {
        r := Ok(());
      }
    }

    /** `add_reference_item` as intended. */
    method AddReferenceItemTo(projectId: int, name: string, description: string, uuid: string)
      modifies repo
      ensures repo.data == AddReferenceItem(old(repo.data), projectId, uuid, name, description)
      ensures repo.saves == old(repo.saves) + (if ProjectIndex(old(repo.data.projects), projectId).Some? then 1 else 0)
    {
      var k := ProjectIndex(repo.data.projects, projectId);
      if k.Some? {
        var project := repo.data.projects[k.value];
        var ref := NewReferenceItem(uuid, name, description);
        project := project.(referenceItems := project.referenceItems + [ref]);
        repo.data := repo.data.(projects := repo.data.projects[k.value := project]);
        repo.Save();
      }
    }
  }

  class ExecutionService {
    const repo: YamlRepository

    constructor (repo: YamlRepository)
      ensures this.repo == repo
    {
      this.repo := repo;
    }

    /** `get_next_actions`; without a filter every open task of an active
        project is listed. */
    method GetNextActions(contextFilter: Option<string> := None) returns (allTasks: seq<Task>)
      ensures allTasks == NextActions(repo.data.projects, contextFilter)
    {
      var ps := repo.data.projects;
      allTasks := [];
      var i := 0;
      while i < |ps|
        invariant 0 <= i <= |ps|
        invariant allTasks == NextActions(ps[..i], contextFilter)
      {
        var project := ps[i];
        assert ps[..i + 1][..i] == ps[..i];
        if project.status != Active {
          i := i + 1;
          continue;
        }
        var j := 0;
        while j < |project.tasks|
          invariant 0 <= j <= |project.tasks|
          invariant allTasks == NextActions(ps[..i], contextFilter) + TaskActions(project.tasks[..j], contextFilter)
        {
          var task := project.tasks[j];
          assert project.tasks[..j + 1][..j] == project.tasks[..j];
          if !task.isCompleted {
            if contextFilter.Some? && contextFilter.value != "" && contextFilter.value !in task.tags {
              j := j + 1;
              continue;
            }
            allTasks := allTasks + [task];
          }
          j := j + 1;
        }
        assert project.tasks[..j] == project.tasks;
        i := i + 1;
      }
      assert ps[..i] == ps;
    }

    /** `complete_task`: saves only when the task is found. */
    method CompleteTask(projectId: int, taskId: int)
      modifies repo
      ensures var loc := TaskLocation(old(repo.data.projects), projectId, taskId);
        && repo.data == old(repo.data).(projects := WithTaskCompleted(old(repo.data.projects), loc, true))
        && repo.saves == old(repo.saves) + (if loc.Some? then 1 else 0)
    {
      SetCompleted(projectId, taskId, true);
    }

    /** `undo_complete_task`: saves only when the task is found. */
    method UndoCompleteTask(projectId: int, taskId: int)
      modifies repo
      ensures var loc := TaskLocation(old(repo.data.projects), projectId, taskId);
        && repo.data == old(repo.data).(projects := WithTaskCompleted(old(repo.data.projects), loc, false))
        && repo.saves == old(repo.saves) + (if loc.Some? then 1 else 0)
    {
      SetCompleted(projectId, taskId, false);
    }

    /** The common body: `task = find_task(...); if task: task.is_completed
        = done; save()`. */
    method SetCompleted(projectId: int, taskId: int, done: bool)
      modifies repo
      ensures var loc := TaskLocation(old(repo.data.projects), projectId, taskId);
        && repo.data == old(repo.data).(projects := WithTaskCompleted(old(repo.data.projects), loc, done))
        && repo.saves == old(repo.saves) + (if loc.Some? then 1 else 0)
    {
      var loc := TaskLocation(repo.data.projects, projectId, taskId);
      if loc.Some? {
        var (i, j) := loc.value;
        var project := repo.data.projects[i];
        var task := project.tasks[j].(isCompleted := done);
        project := project.(tasks := project.tasks[j := task]);
        repo.data := repo.data.(projects := repo.data.projects[i := project]);
        repo.Save();
      }
    }

    /** `get_aggregated_shopping_list`. */
    method GetAggregatedShoppingList() returns (trip: Trip)
      ensures trip == Group(Purchases(repo.data.projects))
    {
      var ps := repo.data.projects;
      trip := [];
      var i := 0;
      while i < |ps|
        invariant 0 <= i <= |ps|
        invariant trip == Group(Purchases(ps[..i]))
      {
        var project := ps[i];
        PurchasesPrefix(ps, i, project);
        if project.status == Completed {
          assert Purchases(ps[..i]) + [] == Purchases(ps[..i]);
          i := i + 1;
          continue;
        }
        var toBuy := ToBuyList(project.resources);
        assert Purchases(ps[..i]) + Tagged(toBuy[..0], project.name) == Purchases(ps[..i]);
        var j := 0;
        while j < |toBuy|
          invariant 0 <= j <= |toBuy|
          invariant trip == Group(Purchases(ps[..i]) + Tagged(toBuy[..j], project.name))
        {
          var item := toBuy[j];
          var storeName := if item.store != "" then item.store else "General";
          AddPurchase(Purchases(ps[..i]), toBuy, j, project.name, trip);
          trip := Put(trip, storeName, Lookup(trip, storeName).GetOr([]) + [(item, project.name)]);
          j := j + 1;
        }
        assert toBuy[..j] == toBuy;
        i := i + 1;
      }
      assert ps[..i] == ps;
    }

    /** `toggle_resource_status`: the scan stops at the first resource with
        the id; saves only then. */
    method ToggleResourceStatus(resourceId: string, isAcquired: bool)
      modifies repo
      ensures var loc := ResourceLocation(old(repo.data.projects), resourceId);
        && repo.data == old(repo.data).(projects := WithResourceAcquired(old(repo.data.projects), loc, isAcquired))
        && repo.saves == old(repo.saves) + (if loc.Some? then 1 else 0)
    {
      var ps := repo.data.projects;
      var i := 0;
      while i < |ps|
        invariant 0 <= i <= |ps|
        invariant forall i', j' :: 0 <= i' < i && 0 <= j' < |ps[i'].resources| ==> ps[i'].resources[j'].id != resourceId
      {
        var project := ps[i];
        var j := 0;
        while j < |project.resources|
          invariant 0 <= j <= |project.resources|
          invariant forall j' :: 0 <= j' < j ==> project.resources[j'].id != resourceId
        {
          if project.resources[j].id == resourceId {
            ResourceLocationFirst(ps, resourceId, i, j);
            var res := project.resources[j].(isAcquired := isAcquired);
            project := project.(resources := project.resources[j := res]);
            repo.data := repo.data.(projects := ps[i := project]);
            repo.Save();
            return;
          }
          j := j + 1;
        }
        i := i + 1;
      }
    }
  }

  /** The first hit of the nested scan is the one `ResourceLocation` names. */
  lemma {:induction false} ResourceLocationFirst(ps: seq<Project>, resourceId: string, i: nat, j: nat)
    requires i < |ps| && j < |ps[i].resources| && ps[i].resources[j].id == resourceId
    requires forall i', j' :: 0 <= i' < i && 0 <= j' < |ps[i'].resources| ==> ps[i'].resources[j'].id != resourceId
    requires forall j' :: 0 <= j' < j ==> ps[i].resources[j'].id != resourceId
    ensures ResourceLocation(ps, resourceId) == Some((i, j))
  {
    var loc := ResourceLocation(ps, resourceId);
    assert loc.Some?;
    var (a, b) := loc.value;
    assert a >= i;
    assert a <= i;
    assert b >= j;
    assert b <= j;
  }
}
