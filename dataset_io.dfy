/** The dataset stores of dataset_io.py. The YAML store is modelled on the
    values `yaml.safe_load` yields for the two keys it uses; a Python dict
    is modelled as in `Dicts`. The
    older flat-file loader reads `projects.txt` and `inbox_tasks.txt`. */
module DatasetIo {
  import opened Wrappers
  import opened Text
  import opened LineFiles
  import opened Models
  import opened Dicts
  import LegacyStore

  /** The mapping stored for one project; an absent key is `None`. */
  datatype ProjectEntry = ProjectEntry(id: Option<int>, name: Option<string>, status: Option<string>, tags: Option<seq<string>>)

  /** A dict from keys to project entries. */
  type Entries = Dict<ProjectEntry>

  /** The value under 'projects': a mapping, as the saver writes it, or a
      list, which a hand-written file may hold. */
  datatype ProjectsNode = Mapping(entries: Entries) | Listing(items: seq<ProjectEntry>)

  /** A loaded document: the values under 'projects' and 'inbox_tasks',
      `None` where the key is absent. */
  datatype YamlDoc = YamlDoc(projects: Option<ProjectsNode>, inboxTasks: Option<seq<string>>)

  /** Why `load` raises: a KeyError for a missing project field, or an
      AttributeError when 'projects' holds a list (it has no `.values()`). */
  datatype LoadError = MissingKey(key: string) | NoValues

  // ---------------------------------------------------------------------
  // The YAML saver.
  // ---------------------------------------------------------------------

  /** A project's key: its name lowercased, spaces turned into '_'. */
  function ProjectKey(name: string): string {
    Replace(Lower(name), ' ', '_')
  }

  /** What the saver stores for a project: id, name, status and tags, and
      not its tasks. */
  function EntryOf(p: Project): ProjectEntry {
    ProjectEntry(Some(p.id), Some(p.name), Some(p.status), Some(p.tags))
  }

  /** The dict `_format_projects` builds. */
  function Formatted(ps: seq<Project>): Entries {
    if |ps| == 0 then []
    else
      var p := ps[|ps| - 1];
      Put(Formatted(ps[..|ps| - 1]), ProjectKey(p.name), EntryOf(p))
  }

  /** `_format_projects`: the loop filling the dict. */
  method FormatProjects(projects: seq<Project>) returns (data: Entries)
    ensures data == Formatted(projects)
  {
    data := [];
    var i := 0;
    while i < |projects|
      invariant 0 <= i <= |projects|
      invariant data == Formatted(projects[..i])
    {
      assert projects[..i + 1][..i] == projects[..i];
      var project := projects[i];
      data := Put(data, ProjectKey(project.name), EntryOf(project));
      i := i + 1;
    }
    assert projects[..i] == projects;
  }

  /** The formatted dict has distinct keys, one per distinct project key,
      and each key holds the entry of the LAST project with that key. */
  lemma {:induction false} FormattedLaws(ps: seq<Project>)
    ensures DistinctKeys(Formatted(ps))
    ensures forall i :: 0 <= i < |Formatted(ps)| ==> exists j :: 0 <= j < |ps| && Formatted(ps)[i].0 == ProjectKey(ps[j].name)
    ensures forall i :: 0 <= i < |ps| && (forall j :: i < j < |ps| ==> ProjectKey(ps[j].name) != ProjectKey(ps[i].name)) ==>
      Lookup(Formatted(ps), ProjectKey(ps[i].name)) == Some(EntryOf(ps[i]))
  {
    if |ps| > 0 {
      var init := ps[..|ps| - 1];
      var p := ps[|ps| - 1];
      var d := Formatted(init);
      FormattedLaws(init);
      PutLaws(d, ProjectKey(p.name), EntryOf(p));
      var r := Formatted(ps);
      forall i | 0 <= i < |r| ensures exists j :: 0 <= j < |ps| && r[i].0 == ProjectKey(ps[j].name) {
        if i < |d| {
          var j :| 0 <= j < |init| && d[i].0 == ProjectKey(init[j].name);
          assert ps[j] == init[j];
        } else {
          assert r[i].0 == ProjectKey(ps[|ps| - 1].name);
        }
      }
      forall i | 0 <= i < |ps| && (forall j :: i < j < |ps| ==> ProjectKey(ps[j].name) != ProjectKey(ps[i].name))
        ensures Lookup(r, ProjectKey(ps[i].name)) == Some(EntryOf(ps[i]))
      {
        if i < |ps| - 1 {
          assert ps[i] == init[i];
          assert forall j :: i < j < |init| ==> init[j] == ps[j];
        }
      }
    }
  }

  /** Every project under its own key, in order. */
  function StoredEntries(ps: seq<Project>): (r: Entries)
    ensures |r| == |ps| && forall i :: 0 <= i < |ps| ==> r[i] == (ProjectKey(ps[i].name), EntryOf(ps[i]))
  {
    seq(|ps|, i requires 0 <= i < |ps| => (ProjectKey(ps[i].name), EntryOf(ps[i])))
  }

  /** With distinct keys, the dict holds every project's entry in order. */
  lemma {:induction false} FormattedDistinct(ps: seq<Project>)
    requires forall i, j :: 0 <= i < j < |ps| ==> ProjectKey(ps[i].name) != ProjectKey(ps[j].name)
    ensures Formatted(ps) == StoredEntries(ps)
  {
    if |ps| > 0 {
      var init := ps[..|ps| - 1];
      var p := ps[|ps| - 1];
      FormattedDistinct(init);
      var d := Formatted(init);
      assert forall j :: 0 <= j < |d| ==> d[j].0 != ProjectKey(p.name);
    }
  }

  // --- yaml.dump sorts mapping keys ----------------------------------------

  /** `e` placed before the first entry whose key is above its own. */
  function InsertEntry(d: Entries, e: (string, ProjectEntry)): Entries {
    if |d| == 0 then [e]
    else if StrLess(e.0, d[0].0) then [e] + d
    else [d[0]] + InsertEntry(d[1..], e)
  }

  /** The items of a mapping as `yaml.dump` writes them (its default
      `sort_keys=True`): in ascending order of their keys. */
  function KeySorted(d: Entries): Entries {
    if |d| == 0 then []
    else InsertEntry(KeySorted(d[..|d| - 1]), d[|d| - 1])
  }

  /** `p` placed before the first project whose key is above its own. */
  function InsertProject(s: seq<Project>, p: Project): seq<Project> {
    if |s| == 0 then [p]
    else if StrLess(ProjectKey(p.name), ProjectKey(s[0].name)) then [p] + s
    else [s[0]] + InsertProject(s[1..], p)
  }

  /** The projects in the order of their keys. */
  function ByKey(ps: seq<Project>): seq<Project> {
    if |ps| == 0 then []
    else InsertProject(ByKey(ps[..|ps| - 1]), ps[|ps| - 1])
  }

  /** No project is followed by one with a smaller key. */
  predicate KeysAscending(ps: seq<Project>) {
    forall i, j :: 0 <= i < j < |ps| ==> !StrLess(ProjectKey(ps[j].name), ProjectKey(ps[i].name))
  }

  lemma {:induction false} InsertProjectPermutes(s: seq<Project>, p: Project)
    ensures multiset(InsertProject(s, p)) == multiset(s) + multiset{p}
  {
    if |s| > 0 && !StrLess(ProjectKey(p.name), ProjectKey(s[0].name)) {
      InsertProjectPermutes(s[1..], p);
      assert s == [s[0]] + s[1..];
    }
  }

  lemma {:induction false} InsertProjectAscending(s: seq<Project>, p: Project)
    requires KeysAscending(s)
    ensures KeysAscending(InsertProject(s, p))
  {
    if |s| == 0 {
    } else if StrLess(ProjectKey(p.name), ProjectKey(s[0].name)) {
      var r := [p] + s;
      forall i, j | 0 <= i < j < |r| ensures !StrLess(ProjectKey(r[j].name), ProjectKey(r[i].name)) {
        if i == 0 && StrLess(ProjectKey(r[j].name), ProjectKey(p.name)) {
          assert r[j] == s[j - 1];
          StrLessTransitive(ProjectKey(r[j].name), ProjectKey(p.name), ProjectKey(s[0].name));
          if j == 1 {
            StrLessIrreflexive(ProjectKey(s[0].name));
          }
        }
      }
    } else {
      var t := s[1..];
      InsertProjectAscending(t, p);
      InsertProjectPermutes(t, p);
      var r := [s[0]] + InsertProject(t, p);
      forall i, j | 0 <= i < j < |r| ensures !StrLess(ProjectKey(r[j].name), ProjectKey(r[i].name)) {
        if i == 0 {
          assert r[j] in multiset(InsertProject(t, p));
          if r[j] != p {
            assert r[j] in t;
            var k :| 0 <= k < |t| && t[k] == r[j];
            assert s[k + 1] == r[j];
          }
        }
      }
    }
  }

  /** Sorting by key: ascending keys and the same projects. */
  lemma ByKeyLaws(ps: seq<Project>)
    ensures KeysAscending(ByKey(ps))
    ensures multiset(ByKey(ps)) == multiset(ps)
  {
    ByKeyAscending(ps);
    ByKeyPermutes(ps);
  }

  lemma {:induction false} ByKeyAscending(ps: seq<Project>)
    ensures KeysAscending(ByKey(ps))
  {
    if |ps| > 0 {
      ByKeyAscending(ps[..|ps| - 1]);
      InsertProjectAscending(ByKey(ps[..|ps| - 1]), ps[|ps| - 1]);
    }
  }

  lemma {:induction false} ByKeyPermutes(ps: seq<Project>)
    ensures multiset(ByKey(ps)) == multiset(ps)
  {
    if |ps| > 0 {
      var init, last := ps[..|ps| - 1], ps[|ps| - 1];
      var sorted := ByKey(init);
      assert ByKey(ps) == InsertProject(sorted, last);
      ByKeyPermutes(init);
      InsertProjectPermutes(sorted, last);
      assert multiset(ps) == multiset(init) + multiset{last} by {
        assert ps == init + [last];
      }
    }
  }

  /** Sorting the entries of projects is sorting the projects. */
  lemma {:induction false} InsertCommutes(s: seq<Project>, p: Project)
    ensures InsertEntry(StoredEntries(s), (ProjectKey(p.name), EntryOf(p))) == StoredEntries(InsertProject(s, p))
  {
    if |s| > 0 {
      assert StoredEntries(s)[1..] == StoredEntries(s[1..]);
      InsertCommutes(s[1..], p);
    }
  }

  lemma {:induction false} KeySortedEntries(ps: seq<Project>)
    ensures KeySorted(StoredEntries(ps)) == StoredEntries(ByKey(ps))
  {
    if |ps| > 0 {
      var init := ps[..|ps| - 1];
      assert StoredEntries(ps)[..|ps| - 1] == StoredEntries(init);
      KeySortedEntries(init);
      InsertCommutes(ByKey(init), ps[|ps| - 1]);
    }
  }

  /** `save`: the document holds the formatted projects, keys sorted, and
      the inbox in its order. */
  function SaveDoc(content: DatasetContent): YamlDoc {
    YamlDoc(Some(Mapping(KeySorted(Formatted(content.projects)))), Some(content.inboxTasks))
  }

  // ---------------------------------------------------------------------
  // The YAML loader.
  // ---------------------------------------------------------------------

  /** One project from its entry: id and name are required, in that order;
      status defaults to 'ongoing' and tags to none; tasks are never read. */
  function ParseEntry(e: ProjectEntry): (r: Result<Project, LoadError>)
    ensures e.id.None? ==> r == Err(MissingKey("id"))
    ensures e.id.Some? && e.name.None? ==> r == Err(MissingKey("name"))
    ensures r.Ok? ==> r.value.id == e.id.value && r.value.name == e.name.value && r.value.tasks == []
    ensures r.Ok? ==> r.value.status == e.status.GetOr("ongoing") && r.value.tags == e.tags.GetOr([])
  {
    if e.id.None? then Err(MissingKey("id"))
    else if e.name.None? then Err(MissingKey("name"))
    else Ok(Project(e.id.value, e.name.value, e.status.GetOr("ongoing"), e.tags.GetOr([]), []))
  }

  /** The projects of the dict's values, in order; the first bad entry
      raises. */
  function Parsed(values: seq<ProjectEntry>): Result<seq<Project>, LoadError> {
    if |values| == 0 then Ok([])
    else match Parsed(values[..|values| - 1])
      case Err(e) => Err(e)
      case Ok(acc) =>
        match ParseEntry(values[|values| - 1])
        case Err(e) => Err(e)
        case Ok(p) => Ok(acc + [p])
  }

  lemma {:induction false} ParsedFailSticks(values: seq<ProjectEntry>, i: nat)
    requires i <= |values| && Parsed(values[..i]).Err?
    ensures Parsed(values) == Parsed(values[..i])
    decreases |values|
  {
    if i < |values| {
      assert values[..|values| - 1][..i] == values[..i];
      ParsedFailSticks(values[..|values| - 1], i);
    } else {
      assert values[..i] == values;
    }
  }

  /** `.values()` of a dict. */
  function Values(d: Entries): (r: seq<ProjectEntry>)
    ensures |r| == |d| && forall i :: 0 <= i < |d| ==> r[i] == d[i].1
  {
    seq(|d|, i requires 0 <= i < |d| => d[i].1)
  }

  /** `_parse_projects`: the loop over the dict's values. */
  method ParseProjects(values: seq<ProjectEntry>) returns (r: Result<seq<Project>, LoadError>)
    ensures r == Parsed(values)
  {
    var projects: seq<Project> := [];
    var i := 0;
    while i < |values|
      invariant 0 <= i <= |values|
      invariant Parsed(values[..i]) == Ok(projects)
    {
      assert values[..i + 1][..i] == values[..i];
      var p := ParseEntry(values[i]);
      if p.Err? {
        ParsedFailSticks(values, i + 1);
        return Err(p.error);
      }
      projects := projects + [p.value];
      i := i + 1;
    }
    assert values[..i] == values;
    return Ok(projects);
  }

  /** `load`: an absent 'projects' reads as an empty dict, an absent
      'inbox_tasks' as an empty list. */
  function LoadDoc(doc: YamlDoc): Result<DatasetContent, LoadError> {
    match doc.projects.GetOr(Mapping([]))
    case Listing(_) => Err(NoValues)
    case Mapping(entries) =>
      match Parsed(Values(entries))
      case Err(e) => Err(e)
      case Ok(ps) => Ok(DatasetContent(ps, doc.inboxTasks.GetOr([])))
  }

  lemma LoadDefaults(inbox: seq<string>)
    ensures LoadDoc(YamlDoc(None, None)) == Ok(DatasetContent([], []))
    ensures LoadDoc(YamlDoc(None, Some(inbox))) == Ok(DatasetContent([], inbox))
  {
  }

  /** A list under 'projects' makes the loader raise. */
  lemma ListedProjectsRaise(items: seq<ProjectEntry>, inbox: Option<seq<string>>)
    ensures LoadDoc(YamlDoc(Some(Listing(items)), inbox)).Err?
  {
  }

  /** A project without its tasks, as the YAML store keeps it. */
  function WithoutTasks(ps: seq<Project>): (r: seq<Project>)
    ensures |r| == |ps| && forall i :: 0 <= i < |ps| ==> r[i] == ps[i].(tasks := [])
  {
    seq(|ps|, i requires 0 <= i < |ps| => ps[i].(tasks := []))
  }

  lemma {:induction false} ParsedStored(ps: seq<Project>)
    ensures Parsed(seq(|ps|, i requires 0 <= i < |ps| => EntryOf(ps[i]))) == Ok(WithoutTasks(ps))
  {
    if |ps| > 0 {
      var init := ps[..|ps| - 1];
      ParsedStored(init);
      var es := seq(|ps|, i requires 0 <= i < |ps| => EntryOf(ps[i]));
      assert es[..|ps| - 1] == seq(|init|, i requires 0 <= i < |init| => EntryOf(init[i]));
      assert WithoutTasks(init) + [ps[|ps| - 1].(tasks := [])] == WithoutTasks(ps);
    }
  }

  /** Saving then loading restores every project's id, name, status and
      tags, and the inbox, when the project keys are distinct; the projects
      come back in the order of their keys, and the tasks are not stored
      and come back empty. */
  lemma SaveThenLoad(content: DatasetContent)
    requires forall i, j :: 0 <= i < j < |content.projects| ==>
      ProjectKey(content.projects[i].name) != ProjectKey(content.projects[j].name)
    ensures LoadDoc(SaveDoc(content)) == Ok(DatasetContent(WithoutTasks(ByKey(content.projects)), content.inboxTasks))
  {
    var ps := content.projects;
    var q := ByKey(ps);
    FormattedDistinct(ps);
    KeySortedEntries(ps);
    assert Values(StoredEntries(q)) == seq(|q|, i requires 0 <= i < |q| => EntryOf(q[i]));
    ParsedStored(q);
  }

  /** A dataset whose projects hold tasks does not survive the YAML store. */
  lemma SaveDropsTasks(content: DatasetContent, i: nat)
    requires i < |content.projects| && content.projects[i].tasks != []
    ensures LoadDoc(SaveDoc(content)) != Ok(content)
  {
    var ps := content.projects;
    match LoadDoc(SaveDoc(content)) {
      case Err(_) =>
      case Ok(c) =>
        var es := KeySorted(Formatted(ps));
        assert Parsed(Values(es)) == Ok(c.projects);
        ParsedHasNoTasks(Values(es), c.projects);
        if i < |c.projects| {
          assert c.projects[i].tasks != ps[i].tasks;
        }
    }
  }

  /** Every project the loader builds has no tasks. */
  lemma {:induction false} ParsedHasNoTasks(values: seq<ProjectEntry>, ps: seq<Project>)
    requires Parsed(values) == Ok(ps)
    ensures forall k :: 0 <= k < |ps| ==> ps[k].tasks == []
  {
    if |values| > 0 {
      var init := values[..|values| - 1];
      match Parsed(init) {
        case Err(_) =>
        case Ok(acc) =>
          ParsedHasNoTasks(init, acc);
      }
    }
  }

  // ---------------------------------------------------------------------
  // The older flat-file loader.
  // ---------------------------------------------------------------------

  /** One line of projects.txt: at least two fields; a non-integer id
      raises; the project is "ongoing", untagged and without tasks. */
  function LegacyProjectLine(raw: string): (r: LineResult<Project>)
    ensures IsBlank(raw) || |Split(Strip(raw), ';')| < 2 ==> r.Skip?
    ensures r.Item? ==> var parts := Split(Strip(raw), ';');
      Some(r.value.id) == ParseInt(Strip(parts[0])) && r.value.name == Strip(parts[1])
    ensures r.Item? ==> r.value.status == "ongoing" && r.value.tags == [] && r.value.tasks == []
    ensures r.Fail? ==> ParseInt(Strip(Split(Strip(raw), ';')[0])).None?
  {
    var line := Strip(raw);
    if line == [] then Skip
    else
      var parts := Split(line, ';');
      if |parts| < 2 then Skip
      else
        match ParseInt(Strip(parts[0]))
        case None => Fail
        case Some(id) => Item(Project(id, Strip(parts[1]), "ongoing", [], []))
  }

  /** `LegacyDatasetLoader._load_projects`. */
  method LegacyLoadProjects(file: Option<string>) returns (r: Option<seq<Project>>)
    ensures r == LoadFile(file, LegacyProjectLine)
  {
    if file.None? {
      return Some([]);
    }
    r := ReadEntries(file.value, LegacyProjectLine);
  }

  /** `LegacyDatasetLoader.load`: `None` when a project line raises. */
  method LegacyLoad(projectsFile: Option<string>, inboxFile: Option<string>) returns (r: Option<DatasetContent>)
    ensures r == match LoadFile(projectsFile, LegacyProjectLine)
      case None => None
      case Some(ps) => Some(DatasetContent(ps, LegacyStore.LoadInboxTasks(inboxFile)))
  {
    var projects := LegacyLoadProjects(projectsFile);
    if projects.None? {
      return None;
    }
    return Some(DatasetContent(projects.value, LegacyStore.LoadInboxTasks(inboxFile)));
  }

  /** Missing files load as an empty dataset. */
  lemma LegacyMissingFiles()
    ensures LoadFile(None, LegacyProjectLine) == Some([])
    ensures LegacyStore.LoadInboxTasks(None) == []
  {
  }
}
