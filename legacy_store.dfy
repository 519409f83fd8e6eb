/** The flat-file dataset store of the older `DatasetManager` (services.py):
    a dataset directory holds either one unified file of `id;name;pid;
    duration;tags` lines, or separate files of reference tasks
    (`id;subject;tags;duration`), projects (`pid;subject`) and inbox lines.
    Files are contents (`None` when the file does not exist); reading them
    is `LineFiles.FileLines`. */
module LegacyStore {
  import opened Wrappers
  import opened Text
  import opened LineFiles

  /** An entry of the flat-file format: a project when `pid` is 0, a task
      of project `pid` when `pid` is positive (-1 marks an inbox entry). */
  datatype UnifiedTask = UnifiedTask(id: int, name: string, pid: int, duration: string, tags: seq<string>)
  {
    predicate IsProject() { pid == 0 }
    predicate IsTask() { pid > 0 }
  }

  /** The older `DatasetContent`. */
  datatype LegacyDataset = LegacyDataset(referenceTasks: seq<UnifiedTask>, projects: seq<UnifiedTask>, inboxTasks: seq<string>)

  /** The files of one dataset directory. */
  datatype DatasetDir = DatasetDir(unified: Option<string>, reference: Option<string>, projects: Option<string>, inbox: Option<string>)

  /** Why `load_dataset` raises. */
  datatype LoadError =
    | DatasetMissing             // FileNotFoundError: no such directory
    | InvalidNumber              // ValueError from int() in a separate-file loader
    | InvalidRelationships(message: string)  // ValueError from the validator

  lemma KindsExclusive(t: UnifiedTask)
    ensures !(t.IsProject() && t.IsTask())
    ensures t.pid == -1 ==> !t.IsProject() && !t.IsTask()
  {
  }

  /** The entries of `ts` that satisfy `keep`, in order. */
  function Where(ts: seq<UnifiedTask>, keep: UnifiedTask -> bool): (r: seq<UnifiedTask>)
    ensures |r| <= |ts|
  {
    if |ts| == 0 then []
    else Where(ts[..|ts| - 1], keep) + (if keep(ts[|ts| - 1]) then [ts[|ts| - 1]] else [])
  }

  lemma {:induction false} WhereMembers(ts: seq<UnifiedTask>, keep: UnifiedTask -> bool)
    ensures forall x :: x in Where(ts, keep) <==> x in ts && keep(x)
  {
    if |ts| > 0 {
      WhereMembers(ts[..|ts| - 1], keep);
      assert ts == ts[..|ts| - 1] + [ts[|ts| - 1]];
    }
  }

  // ---------------------------------------------------------------------
  // The unified format and the relationship validator.
  // ---------------------------------------------------------------------

  /** One line of the unified file. Blank lines, '#' comments, lines of
      fewer than four fields and lines whose id or pid is not an integer are
      skipped (`_load_unified_tasks` prints a warning and continues). */
  function UnifiedLine(raw: string): (r: LineResult<UnifiedTask>)
    ensures !r.Fail?
    ensures IsBlank(raw) || Strip(raw)[0] == '#' || |Split(Strip(raw), ';')| < 4 ==> r.Skip?
    ensures r.Item? ==> var t := r.value;
      IsStripped(t.name) && ';' !in t.name &&
      t.duration != [] && IsStripped(t.duration) && ';' !in t.duration &&
      forall k :: 0 <= k < |t.tags| ==> t.tags[k] != [] && IsStripped(t.tags[k]) && ',' !in t.tags[k] && ';' !in t.tags[k]
  {
    var line := Strip(raw);
    if line == [] || line[0] == '#' then Skip
    else
      var parts := Split(line, ';');
      if |parts| < 4 then Skip
      else
        match (ParseInt(Strip(parts[0])), ParseInt(Strip(parts[2])))
        case (Some(id), Some(pid)) => Item(UnifiedEntry(parts, id, pid))
        case _ => Skip
  }

  /** The entry of a unified line with integer id and pid: the stripped
      name, the stripped duration or "unknown" when it is empty, the tags. */
  function UnifiedEntry(parts: seq<string>, id: int, pid: int): (t: UnifiedTask)
    requires |parts| >= 4 && forall k :: 0 <= k < |parts| ==> ';' !in parts[k]
    ensures t.id == id && t.pid == pid && t.name == Strip(parts[1])
    ensures t.duration == if Strip(parts[3]) == [] then "unknown" else Strip(parts[3])
    ensures t.tags == TagField(parts)
    ensures IsStripped(t.name) && ';' !in t.name
    ensures t.duration != [] && IsStripped(t.duration) && ';' !in t.duration
    ensures forall k :: 0 <= k < |t.tags| ==> t.tags[k] != [] && IsStripped(t.tags[k]) && ',' !in t.tags[k] && ';' !in t.tags[k]
  {
    var name := Strip(parts[1]);
    assert ';' !in name by { StripInherits(parts[1], ';'); }
    var d := Strip(parts[3]);
    var duration := if d == [] then "unknown" else d;
    assert duration != [] && IsStripped(duration) && ';' !in duration by {
      PlainUnknown();
      StripInherits(parts[3], ';');
    }
    UnifiedTask(id, name, pid, duration, TagField(parts))
  }

  lemma PlainUnknown()
    ensures "unknown" != [] && IsStripped("unknown") && ';' !in "unknown"
  {
  }

  /** The tags of a unified line: the fifth field split at ',', stripped,
      empties dropped; none when the line has only four fields. */
  function TagField(parts: seq<string>): (r: seq<string>)
    requires forall k :: 0 <= k < |parts| ==> ';' !in parts[k]
    ensures forall k :: 0 <= k < |r| ==> r[k] != [] && IsStripped(r[k]) && ',' !in r[k] && ';' !in r[k]
  {
    if |parts| > 4 then
      var pieces := Split(parts[4], ',');
      StripInherits(parts[4], ';');
      CleanListAvoids(pieces, ',');
      forall k | 0 <= k < |pieces| ensures ';' !in pieces[k] {
        SplitPieceAvoids(parts[4], ',', ';', k);
      }
      CleanListAvoids(pieces, ';');
      CleanList(pieces)
    else []
  }

  /** A character other than the separator, absent from a string, is absent
      from each of its pieces. */
  lemma SplitPieceAvoids(s: string, sep: char, c: char, k: nat)
    requires c !in s && k < |Split(s, sep)|
    ensures c !in Split(s, sep)[k]
  {
    var ps := Split(s, sep);
    if c in ps[k] {
      JoinContains(ps, sep, k, c);
    }
  }

  /** Joining keeps every character of every piece. */
  lemma {:induction false} JoinContains(ps: seq<string>, sep: char, k: nat, c: char)
    requires k < |ps| && c in ps[k]
    ensures c in Join(ps, sep)
  {
    if |ps| > 1 && k > 0 {
      JoinContains(ps[1..], sep, k - 1, c);
    }
  }

  /** A character absent from every piece is absent from the cleaned list. */
  lemma CleanListAvoids(pieces: seq<string>, c: char)
    requires forall k :: 0 <= k < |pieces| ==> c !in pieces[k]
    ensures forall k :: 0 <= k < |CleanList(pieces)| ==> c !in CleanList(pieces)[k]
  {
    CleanListKeeps(pieces);
    forall k | 0 <= k < |CleanList(pieces)| ensures c !in CleanList(pieces)[k] {
      var x := CleanList(pieces)[k];
      assert x in CleanList(pieces);
      var p :| p in pieces && x == Strip(p);
      StripKeepsChars(p);
    }
  }

  /** The unified file's entries: bad lines never abort the load. */
  function UnifiedTasks(lines: seq<string>): (r: seq<UnifiedTask>)
  {
    CollectNeverFails(lines, UnifiedLine);
    Collect(lines, UnifiedLine).value
  }

  /** The fields of an entry in the unified format. */
  function UnifiedFieldsOf(t: UnifiedTask): seq<string> {
    [ShowInt(t.id), t.name, ShowInt(t.pid), t.duration, Join(t.tags, ',')]
  }

  /** The line format the unified loader reads, as its docstring gives it. */
  function UnifiedRecord(t: UnifiedTask): string {
    Join(UnifiedFieldsOf(t), ';')
  }

  /** A unified entry survives being written as a line and read back when
      its text fields are stripped and separator-free, its duration is not
      empty and its tags are non-empty. */
  lemma UnifiedRecordParses(t: UnifiedTask)
    requires IsStripped(t.name) && ';' !in t.name
    requires t.duration != [] && IsStripped(t.duration) && ';' !in t.duration
    requires forall k :: 0 <= k < |t.tags| ==> t.tags[k] != [] && IsStripped(t.tags[k]) && ',' !in t.tags[k] && ';' !in t.tags[k]
    ensures UnifiedLine(UnifiedRecord(t)) == Item(t)
  {
    var fields := UnifiedFieldsOf(t);
    var line := UnifiedRecord(t);
    UnifiedFieldsPlain(t);
    UnifiedRecordStripped(t);
    SplitJoin(fields, ';');
    assert Split(line, ';') == fields;
    ParseShownInt(t.id);
    ParseShownInt(t.pid);
    assert ParseInt(Strip(fields[0])) == Some(t.id) && ParseInt(Strip(fields[2])) == Some(t.pid);
    UnifiedLineUnfold(line, fields, t.id, t.pid);
    UnifiedEntryOf(fields, t);
  }

  lemma UnifiedFieldsPlain(t: UnifiedTask)
    requires IsStripped(t.name) && ';' !in t.name
    requires t.duration != [] && IsStripped(t.duration) && ';' !in t.duration
    requires forall k :: 0 <= k < |t.tags| ==> t.tags[k] != [] && IsStripped(t.tags[k]) && ',' !in t.tags[k] && ';' !in t.tags[k]
    ensures forall k :: 0 <= k < |UnifiedFieldsOf(t)| ==> ';' !in UnifiedFieldsOf(t)[k]
  {
    ShowIntPlain(t.id);
    ShowIntPlain(t.pid);
    JoinAvoids(t.tags, ',', ';');
  }

  lemma UnifiedRecordStripped(t: UnifiedTask)
    requires IsStripped(t.name) && ';' !in t.name
    requires t.duration != [] && IsStripped(t.duration) && ';' !in t.duration
    requires forall k :: 0 <= k < |t.tags| ==> t.tags[k] != [] && IsStripped(t.tags[k]) && ',' !in t.tags[k] && ';' !in t.tags[k]
    ensures UnifiedRecord(t) != [] && Strip(UnifiedRecord(t)) == UnifiedRecord(t) && UnifiedRecord(t)[0] != '#'
  {
    var fields := UnifiedFieldsOf(t);
    ShowIntPlain(t.id);
    JoinOfLines(t.tags, ',');
    JoinStripped(fields, ';');
    JoinFirstChar(fields, ';');
    StrippedIsFixed(UnifiedRecord(t));
  }

  /** A clean line that is no comment, of five separator-free fields with
      integers first and third, is read as the entry of those fields. */
  lemma UnifiedLineUnfold(line: string, parts: seq<string>, id: int, pid: int)
    requires |parts| == 5 && forall k :: 0 <= k < |parts| ==> ';' !in parts[k]
    requires ParseInt(Strip(parts[0])) == Some(id) && ParseInt(Strip(parts[2])) == Some(pid)
    requires line != [] && Strip(line) == line && line[0] != '#'
    requires Split(line, ';') == parts
    ensures UnifiedLine(line) == Item(UnifiedEntry(parts, id, pid))
  {
  }

  /** The entry rebuilt from the fields of a clean unified record. */
  lemma UnifiedEntryOf(parts: seq<string>, t: UnifiedTask)
    requires |parts| == 5 && forall k :: 0 <= k < |parts| ==> ';' !in parts[k]
    requires parts[1] == t.name && parts[3] == t.duration && parts[4] == Join(t.tags, ',')
    requires IsStripped(t.name) && t.duration != [] && IsStripped(t.duration)
    requires forall k :: 0 <= k < |t.tags| ==> t.tags[k] != [] && IsStripped(t.tags[k]) && ',' !in t.tags[k]
    ensures UnifiedEntry(parts, t.id, t.pid) == t
  {
    var e := UnifiedEntry(parts, t.id, t.pid);
    assert e.name == t.name by { StrippedIsFixed(t.name); }
    assert e.duration == t.duration by { StrippedIsFixed(t.duration); }
    assert e.tags == t.tags by {
      assert TagField(parts) == CleanList(Split(Join(t.tags, ','), ','));
      CleanTags(t.tags);
    }
  }

  /** Cleaning the split of a joined list of clean tags gives the tags back. */
  lemma CleanTags(tags: seq<string>)
    requires forall k :: 0 <= k < |tags| ==> tags[k] != [] && IsStripped(tags[k]) && ',' !in tags[k]
    ensures CleanList(Split(Join(tags, ','), ',')) == tags
  {
    if |tags| == 0 {
      assert CleanList([""]) == CleanList([]) + [];
    } else {
      SplitJoin(tags, ',');
      CleanListOfClean(tags);
    }
  }

  /** `'<name>' (id:<id>) ... (pid:<pid>)`: one validation error. */
  function OrphanMessage(t: UnifiedTask): string {
    "Task '" + t.name + "' (id:" + ShowInt(t.id) + ") references non-existent project (pid:" + ShowInt(t.pid) + ")"
  }

  const RelationshipHeader := "Relationship validation failed:\n"

  /** The ids of the project entries. */
  function ProjectIdSet(ts: seq<UnifiedTask>): set<int> {
    set t | t in ts && t.IsProject() :: t.id
  }

  /** A task entry whose pid is not the id of any project entry. */
  predicate Orphan(t: UnifiedTask, projectIds: set<int>) {
    t.IsTask() && t.pid !in projectIds
  }

  /** One error per orphan of `ts`, in order. */
  function OrphanErrors(ts: seq<UnifiedTask>, projectIds: set<int>): seq<string> {
    if |ts| == 0 then []
    else
      var t := ts[|ts| - 1];
      OrphanErrors(ts[..|ts| - 1], projectIds) + (if Orphan(t, projectIds) then [OrphanMessage(t)] else [])
  }

  /** The error list names every orphan, and only orphans. */
  lemma {:induction false} OrphanErrorsExactly(ts: seq<UnifiedTask>, projectIds: set<int>)
    ensures forall t :: t in ts && Orphan(t, projectIds) ==> OrphanMessage(t) in OrphanErrors(ts, projectIds)
    ensures forall e :: e in OrphanErrors(ts, projectIds) ==> exists t :: t in ts && Orphan(t, projectIds) && e == OrphanMessage(t)
    ensures OrphanErrors(ts, projectIds) == [] <==> forall t :: t in ts ==> !Orphan(t, projectIds)
  {
    if |ts| > 0 {
      var init := ts[..|ts| - 1];
      OrphanErrorsExactly(init, projectIds);
      assert ts == init + [ts[|ts| - 1]];
      forall e | e in OrphanErrors(ts, projectIds)
        ensures exists t :: t in ts && Orphan(t, projectIds) && e == OrphanMessage(t)
      {
        if e in OrphanErrors(init, projectIds) {
          var t :| t in init && Orphan(t, projectIds) && e == OrphanMessage(t);
          assert t in ts;
        } else {
          assert e == OrphanMessage(ts[|ts| - 1]);
        }
      }
      if OrphanErrors(ts, projectIds) == [] {
        assert OrphanErrors(init, projectIds) == [];
      }
    }
  }

  /** What `_validate_task_relationships` raises, if anything. */
  function RelationshipErr(ts: seq<UnifiedTask>): Option<string> {
    var errors := OrphanErrors(ts, ProjectIdSet(ts));
    if errors == [] then None else Some(RelationshipHeader + Join(errors, '\n'))
  }

  /** The validator raises iff some task names a missing project, and then
      its message is the header followed by one line per orphan. */
  lemma RelationshipFailureExactly(ts: seq<UnifiedTask>)
    ensures RelationshipErr(ts).Some? <==> exists t :: t in ts && t.IsTask() && t.pid !in ProjectIdSet(ts)
    ensures RelationshipErr(ts).Some? ==> StartsWith(RelationshipErr(ts).value, RelationshipHeader)
  {
    OrphanErrorsExactly(ts, ProjectIdSet(ts));
  }

  /** `_validate_task_relationships`: the loop collecting one message per
      orphan, then the raise. */
  method ValidateTaskRelationships(tasks: seq<UnifiedTask>) returns (failure: Option<string>)
    ensures failure == RelationshipErr(tasks)
  {
    var projectIds := set t | t in tasks && t.IsProject() :: t.id;
    var errors: seq<string> := [];
    var i := 0;
    while i < |tasks|
      invariant 0 <= i <= |tasks|
      invariant errors == OrphanErrors(tasks[..i], projectIds)
    {
      assert tasks[..i + 1][..i] == tasks[..i];
      var task := tasks[i];
      if task.IsTask() && task.pid !in projectIds {
        errors := errors + [OrphanMessage(task)];
      }
      i := i + 1;
    }
    assert tasks[..i] == tasks;
    if errors != [] {
      return Some(RelationshipHeader + Join(errors, '\n'));
    }
    return None;
  }

  /** `_load_unified_tasks`: a missing file gives no entries; otherwise the
      loaded entries, then the validator. */
  method LoadUnifiedTasks(file: Option<string>) returns (r: Result<seq<UnifiedTask>, string>)
    ensures file.None? ==> r == Ok([])
    ensures file.Some? ==> var ts := UnifiedTasks(FileLines(file.value));
      r == match RelationshipErr(ts) case None => Ok(ts) case Some(m) => Err(m)
  {
    if file.None? {
      return Ok([]);
    }
    var loaded := ReadEntries(file.value, UnifiedLine);
    CollectNeverFails(FileLines(file.value), UnifiedLine);
    var tasks := loaded.value;
    var failure := ValidateTaskRelationships(tasks);
    if failure.Some? {
      return Err(failure.value);
    }
    return Ok(tasks);
  }

  // ---------------------------------------------------------------------
  // The separate files.
  // ---------------------------------------------------------------------

  /** One line of reference_tasks.txt: at least three fields; a non-integer
      id raises, aborting the load; every entry belongs to project 1; the
      duration is the fourth field (possibly empty) or "unknown"; the tags
      are the stripped comma pieces of the third field, empties kept. */
  function ReferenceLine(raw: string): (r: LineResult<UnifiedTask>)
    ensures IsBlank(raw) || |Split(Strip(raw), ';')| < 3 ==> r.Skip?
    ensures r.Item? ==> r.value.pid == 1 && |r.value.tags| >= 1
    ensures r.Fail? ==> ParseInt(Strip(Split(Strip(raw), ';')[0])).None?
  {
    var line := Strip(raw);
    if line == [] then Skip
    else
      var parts := Split(line, ';');
      if |parts| < 3 then Skip
      else
        match ParseInt(Strip(parts[0]))
        case None => Fail
        case Some(id) =>
          Item(UnifiedTask(id, Strip(parts[1]), 1, if |parts| > 3 then Strip(parts[3]) else "unknown", StripAll(Split(parts[2], ','))))
  }

  /** One line of projects.txt: at least two fields; a non-integer id
      raises; the entry is a project (pid 0) of duration "ongoing", untagged. */
  function ProjectLine(raw: string): (r: LineResult<UnifiedTask>)
    ensures IsBlank(raw) || |Split(Strip(raw), ';')| < 2 ==> r.Skip?
    ensures r.Item? ==> r.value.IsProject() && r.value.duration == "ongoing" && r.value.tags == []
    ensures r.Fail? ==> ParseInt(Strip(Split(Strip(raw), ';')[0])).None?
  {
    var line := Strip(raw);
    if line == [] then Skip
    else
      var parts := Split(line, ';');
      if |parts| < 2 then Skip
      else
        match ParseInt(Strip(parts[0]))
        case None => Fail
        case Some(id) => Item(UnifiedTask(id, Strip(parts[1]), 0, "ongoing", []))
  }

  /** `_load_reference_tasks`. */
  method LoadReferenceTasks(file: Option<string>) returns (r: Option<seq<UnifiedTask>>)
    ensures r == LoadFile(file, ReferenceLine)
  {
    if file.None? {
      return Some([]);
    }
    r := ReadEntries(file.value, ReferenceLine);
  }

  /** `_load_projects`. */
  method LoadProjects(file: Option<string>) returns (r: Option<seq<UnifiedTask>>)
    ensures r == LoadFile(file, ProjectLine)
  {
    if file.None? {
      return Some([]);
    }
    r := ReadEntries(file.value, ProjectLine);
  }

  /** `_load_inbox_tasks`. */
  function LoadInboxTasks(file: Option<string>): (r: seq<string>)
    ensures file.None? ==> r == []
    ensures forall k :: 0 <= k < |r| ==> r[k] != [] && IsStripped(r[k])
  {
    if file.None? then [] else CleanList(FileLines(file.value))
  }

  /** A reference task as `_save_reference_tasks` writes it. */
  function ReferenceRecord(t: UnifiedTask): string {
    Join(ReferenceFieldsOf(t), ';')
  }

  /** The fields of a reference task as `_save_reference_tasks` writes them. */
  function ReferenceFieldsOf(t: UnifiedTask): seq<string> {
    [ShowInt(t.id), t.name, Join(t.tags, ','), t.duration]
  }

  /** A project as `_save_projects` writes it. */
  function ProjectRecord(t: UnifiedTask): string {
    Join([ShowInt(t.id), t.name], ';')
  }

  function ReferenceRecords(ts: seq<UnifiedTask>): (r: seq<string>)
    ensures |r| == |ts| && forall k :: 0 <= k < |ts| ==> r[k] == ReferenceRecord(ts[k])
  {
    seq(|ts|, k requires 0 <= k < |ts| => ReferenceRecord(ts[k]))
  }

  function ProjectRecords(ts: seq<UnifiedTask>): (r: seq<string>)
    ensures |r| == |ts| && forall k :: 0 <= k < |ts| ==> r[k] == ProjectRecord(ts[k])
  {
    seq(|ts|, k requires 0 <= k < |ts| => ProjectRecord(ts[k]))
  }

  /** `_save_reference_tasks`: one record line per task. */
  function SaveReferenceTasks(ts: seq<UnifiedTask>): string {
    Unlines(ReferenceRecords(ts))
  }

  /** `_save_projects`: one record line per project. */
  function SaveProjects(ts: seq<UnifiedTask>): string {
    Unlines(ProjectRecords(ts))
  }

  /** `_save_inbox_tasks`: one line per entry. */
  function SaveInboxTasks(ts: seq<string>): string {
    Unlines(ts)
  }

  /** A text field that one line of `;`-separated fields carries
      unchanged. */
  predicate PlainField(s: string) {
    IsStripped(s) && ';' !in s && '\n' !in s
  }

  /** A text field the flat files carry unchanged: a plain field without a
      '\r', which text mode would read as a line end. */
  predicate FileField(s: string) {
    PlainField(s) && '\r' !in s
  }

  /** A reference task whose fields survive the file. */
  predicate StorableReference(t: UnifiedTask) {
    FileField(t.name) && FileField(t.duration) &&
    forall k :: 0 <= k < |t.tags| ==> FileField(t.tags[k]) && ',' !in t.tags[k]
  }

  /** What a stored reference task reads back as: project 1, and an empty
      tag list becomes one empty tag. */
  function ReloadedReference(t: UnifiedTask): UnifiedTask {
    UnifiedTask(t.id, t.name, 1, t.duration, if t.tags == [] then [""] else t.tags)
  }

  /** What a stored project reads back as. */
  function ReloadedProject(t: UnifiedTask): UnifiedTask {
    UnifiedTask(t.id, t.name, 0, "ongoing", [])
  }

  function ReloadedReferences(ts: seq<UnifiedTask>): (r: seq<UnifiedTask>)
    ensures |r| == |ts| && forall k :: 0 <= k < |ts| ==> r[k] == ReloadedReference(ts[k])
  {
    seq(|ts|, k requires 0 <= k < |ts| => ReloadedReference(ts[k]))
  }

  function ReloadedProjects(ts: seq<UnifiedTask>): (r: seq<UnifiedTask>)
    ensures |r| == |ts| && forall k :: 0 <= k < |ts| ==> r[k] == ReloadedProject(ts[k])
  {
    seq(|ts|, k requires 0 <= k < |ts| => ReloadedProject(ts[k]))
  }

  lemma ReferenceRecordParses(t: UnifiedTask)
    requires StorableReference(t)
    ensures '\n' !in ReferenceRecord(t) && '\r' !in ReferenceRecord(t)
    ensures ReferenceLine(ReferenceRecord(t)) == Item(ReloadedReference(t))
  {
    ReferenceRecordFacts(t);
    ParseShownInt(t.id);
    ReferenceLineOfFields(ReferenceRecord(t), ShowInt(t.id), t);
  }

  /** The record of a storable reference task is one clean line that splits
      back into its fields. */
  lemma ReferenceRecordFacts(t: UnifiedTask)
    requires StorableReference(t)
    ensures ReferenceRecord(t) != [] && Strip(ReferenceRecord(t)) == ReferenceRecord(t)
    ensures '\n' !in ReferenceRecord(t) && '\r' !in ReferenceRecord(t)
    ensures Split(ReferenceRecord(t), ';') == [ShowInt(t.id), t.name, Join(t.tags, ','), t.duration]
  {
    ReferenceRecordStripped(t);
    ReferenceRecordSplits(t);
  }

  lemma ReferenceRecordSplits(t: UnifiedTask)
    requires StorableReference(t)
    ensures Split(ReferenceRecord(t), ';') == ReferenceFieldsOf(t)
  {
    ReferenceFieldsPlain(t);
    SplitJoin(ReferenceFieldsOf(t), ';');
  }

  lemma ReferenceFieldsPlain(t: UnifiedTask)
    requires StorableReference(t)
    ensures forall k :: 0 <= k < |ReferenceFieldsOf(t)| ==> ';' !in ReferenceFieldsOf(t)[k] && '\n' !in ReferenceFieldsOf(t)[k]
    ensures forall k :: 0 <= k < |ReferenceFieldsOf(t)| ==> '\r' !in ReferenceFieldsOf(t)[k]
  {
    ShowIntPlain(t.id);
    JoinAvoids(t.tags, ',', ';');
    JoinAvoids(t.tags, ',', '\n');
    JoinAvoids(t.tags, ',', '\r');
  }

  lemma ReferenceRecordStripped(t: UnifiedTask)
    requires StorableReference(t)
    ensures ReferenceRecord(t) != [] && Strip(ReferenceRecord(t)) == ReferenceRecord(t)
    ensures '\n' !in ReferenceRecord(t) && '\r' !in ReferenceRecord(t)
  {
    var fields := ReferenceFieldsOf(t);
    ReferenceFieldsPlain(t);
    ShowIntPlain(t.id);
    JoinAvoids(fields, ';', '\n');
    JoinAvoids(fields, ';', '\r');
    JoinFirstChar(fields, ';');
    JoinStripped(fields, ';');
    StrippedIsFixed(ReferenceRecord(t));
  }

  /** A clean line holding the fields of `t`, its id written as `a`, reads
      back as `t` reloaded. */
  lemma ReferenceLineOfFields(line: string, a: string, t: UnifiedTask)
    requires StorableReference(t) && ParseInt(Strip(a)) == Some(t.id)
    requires line != [] && Strip(line) == line && Split(line, ';') == [a, t.name, Join(t.tags, ','), t.duration]
    ensures ReferenceLine(line) == Item(ReloadedReference(t))
  {
    ReferenceLineUnfold(line, a, t.name, Join(t.tags, ','), t.duration, t.id);
    StrippedIsFixed(t.name);
    StrippedIsFixed(t.duration);
    StripTags(t.tags);
  }

  /** A clean line of four fields with an integer first is read as an
      entry of project 1. */
  lemma ReferenceLineUnfold(line: string, a: string, b: string, c: string, d: string, id: int)
    requires line != [] && Strip(line) == line && Split(line, ';') == [a, b, c, d]
    requires ParseInt(Strip(a)) == Some(id)
    ensures ReferenceLine(line) == Item(UnifiedTask(id, Strip(b), 1, Strip(d), StripAll(Split(c, ','))))
  {
  }

  /** A written integer, stripped and parsed, is the integer. */
  lemma ParseShownInt(n: int)
    ensures ParseInt(Strip(ShowInt(n))) == Some(n)
  {
    ShowIntPlain(n);
    StrippedIsFixed(ShowInt(n));
    ParseShowInt(n);
  }

  /** Stripping the split of a joined list of stripped, comma-free tags. */
  lemma StripTags(tags: seq<string>)
    requires forall k :: 0 <= k < |tags| ==> IsStripped(tags[k]) && ',' !in tags[k]
    ensures tags == [] ==> StripAll(Split(Join(tags, ','), ',')) == [""]
    ensures tags != [] ==> StripAll(Split(Join(tags, ','), ',')) == tags
  {
    if tags == [] {
      StripNoTags(tags);
    } else {
      SplitJoin(tags, ',');
      StripAllStripped(tags);
    }
  }

  /** An empty tag list is saved as an empty field, which reads back as one
      empty tag. */
  lemma StripNoTags(tags: seq<string>)
    requires tags == []
    ensures StripAll(Split(Join(tags, ','), ',')) == [""]
  {
    assert Join(tags, ',') == Join([""], ',');
    SplitJoin([""], ',');
    StripAllStripped([""]);
  }

  lemma StripAllStripped(tags: seq<string>)
    requires forall k :: 0 <= k < |tags| ==> IsStripped(tags[k])
    ensures StripAll(tags) == tags
  {
    forall k | 0 <= k < |tags| ensures Strip(tags[k]) == tags[k] {
      StrippedIsFixed(tags[k]);
    }
  }

  lemma ProjectRecordParses(t: UnifiedTask)
    requires FileField(t.name)
    ensures '\n' !in ProjectRecord(t) && '\r' !in ProjectRecord(t)
    ensures ProjectLine(ProjectRecord(t)) == Item(ReloadedProject(t))
  {
    var fields := [ShowInt(t.id), t.name];
    var line := ProjectRecord(t);
    assert forall k :: 0 <= k < |fields| ==> ';' !in fields[k] && '\n' !in fields[k] && '\r' !in fields[k] by {
      ShowIntPlain(t.id);
    }
    assert '\n' !in line && '\r' !in line by {
      JoinAvoids(fields, ';', '\n');
      JoinAvoids(fields, ';', '\r');
    }
    assert Strip(line) == line by {
      ShowIntPlain(t.id);
      JoinStripped(fields, ';');
      StrippedIsFixed(line);
    }
    assert Split(line, ';') == fields by {
      SplitJoin(fields, ';');
    }
    assert ParseInt(Strip(fields[0])) == Some(t.id) by {
      ShowIntPlain(t.id);
      StrippedIsFixed(fields[0]);
      ParseShowInt(t.id);
    }
    assert Strip(t.name) == t.name by {
      StrippedIsFixed(t.name);
    }
  }

  /** Saving reference tasks and loading them back keeps ids, names, tags
      and durations; every entry comes back under project 1. */
  lemma ReferenceRoundTrip(ts: seq<UnifiedTask>)
    requires forall k :: 0 <= k < |ts| ==> StorableReference(ts[k])
    ensures LoadFile(Some(SaveReferenceTasks(ts)), ReferenceLine) == Some(ReloadedReferences(ts))
  {
    var records := ReferenceRecords(ts);
    forall k | 0 <= k < |ts|
      ensures '\n' !in records[k] && '\r' !in records[k] && ReferenceLine(records[k]) == Item(ReloadedReferences(ts)[k])
    {
      ReferenceRecordParses(ts[k]);
    }
    UnlinesLines(records);
    CollectAllItems(records, ReferenceLine, ReloadedReferences(ts));
    CollectSkipLast(records, "", ReferenceLine);
  }

  /** Saving projects and loading them back keeps ids and names. */
  lemma ProjectsRoundTrip(ts: seq<UnifiedTask>)
    requires forall k :: 0 <= k < |ts| ==> FileField(ts[k].name)
    ensures LoadFile(Some(SaveProjects(ts)), ProjectLine) == Some(ReloadedProjects(ts))
  {
    var records := ProjectRecords(ts);
    forall k | 0 <= k < |ts|
      ensures '\n' !in records[k] && '\r' !in records[k] && ProjectLine(records[k]) == Item(ReloadedProjects(ts)[k])
    {
      ProjectRecordParses(ts[k]);
    }
    UnlinesLines(records);
    CollectAllItems(records, ProjectLine, ReloadedProjects(ts));
    CollectSkipLast(records, "", ProjectLine);
  }

  /** Saving the inbox and loading it back gives the same list when every
      entry is non-empty, stripped and free of line ends. */
  lemma InboxRoundTrip(ts: seq<string>)
    requires forall k :: 0 <= k < |ts| ==> ts[k] != [] && IsStripped(ts[k]) && '\n' !in ts[k] && '\r' !in ts[k]
    ensures LoadInboxTasks(Some(SaveInboxTasks(ts))) == ts
  {
    var lines := FileLines(SaveInboxTasks(ts));
    assert lines == ts + [""] by {
      UnlinesLines(ts);
    }
    assert CleanList(lines) == CleanList(ts) by {
      assert lines[..|ts|] == ts;
    }
    CleanListOfClean(ts);
  }

  /** An entry holding a lone '\r' does not survive the inbox file: text
      mode reads the '\r' as a line end, so it comes back as two entries. */
  lemma CarriageReturnSplitsEntry(a: string, b: string)
    requires a != [] && IsStripped(a) && '\n' !in a && '\r' !in a
    requires b != [] && IsStripped(b) && '\n' !in b && '\r' !in b
    ensures LoadInboxTasks(Some(SaveInboxTasks([a + "\r" + b]))) == [a, b]
  {
    var line := a + "\r" + b;
    var rest := b + "\n";
    var file := SaveInboxTasks([line]);
    assert Unlines([b]) == rest by {
      assert [b][1..] == [];
      assert Unlines([b]) == b + "\n" + Unlines([]);
    }
    assert file == a + "\r" + rest by {
      assert [line][1..] == [];
      assert Unlines([line]) == line + "\n" + Unlines([]);
      assert (a + "\r" + b) + "\n" == (a + "\r") + (b + "\n");
    }
    assert Newlines(file) == Unlines([a, b]) by {
      assert rest[0] == b[0] && b[0] in b;
      NewlinesLoneReturn(a, rest);
      assert [a, b][1..] == [b];
      assert Unlines([a, b]) == a + "\n" + Unlines([b]);
    }
    assert FileLines(file) == [a, b, ""] by {
      UnlinesSplit([a, b]);
    }
    CleanPair(a, b);
  }

  /** Cleaning two clean entries and the empty piece after the last line end
      keeps the two entries. */
  lemma CleanPair(a: string, b: string)
    requires a != [] && IsStripped(a) && b != [] && IsStripped(b)
    ensures CleanList([a, b, ""]) == [a, b]
  {
    var one: seq<string> := [a];
    var two: seq<string> := [a, b];
    var three: seq<string> := [a, b, ""];
    StrippedIsFixed(a);
    StrippedIsFixed(b);
    assert one[..0] == [];
    assert CleanList(one) == [a];
    assert two[..1] == one;
    assert CleanList(two) == [a, b];
    assert three[..2] == two;
    assert Strip("") == [];
  }

  // ---------------------------------------------------------------------
  // The dataset.
  // ---------------------------------------------------------------------

  /** `load_dataset`: the unified file when it exists, split into task and
      project entries; otherwise the separate files. */
  method LoadDataset(dir: Option<DatasetDir>) returns (r: Result<LegacyDataset, LoadError>)
    ensures r == DatasetOf(dir)
  {
    if dir.None? {
      return Err(DatasetMissing);
    }
    var d := dir.value;
    var referenceTasks: seq<UnifiedTask>;
    var projects: seq<UnifiedTask>;
    if d.unified.Some? {
      var all := LoadUnifiedTasks(d.unified);
      if all.Err? {
        return Err(InvalidRelationships(all.error));
      }
      referenceTasks := Where(all.value, IsTaskEntry);
      projects := Where(all.value, IsProjectEntry);
    } else {
      var loaded := LoadReferenceTasks(d.reference);
      if loaded.None? {
        return Err(InvalidNumber);
      }
      referenceTasks := loaded.value;
      loaded := LoadProjects(d.projects);
      if loaded.None? {
        return Err(InvalidNumber);
      }
      projects := loaded.value;
    }
    return Ok(LegacyDataset(referenceTasks, projects, LoadInboxTasks(d.inbox)));
  }

  function IsTaskEntry(t: UnifiedTask): bool { t.IsTask() }
  function IsProjectEntry(t: UnifiedTask): bool { t.IsProject() }

  /** The dataset a directory holds, or why loading it raises. */
  function DatasetOf(dir: Option<DatasetDir>): Result<LegacyDataset, LoadError> {
    if dir.None? then Err(DatasetMissing)
    else
      var d := dir.value;
      var inbox := LoadInboxTasks(d.inbox);
      if d.unified.Some? then
        var all := UnifiedTasks(FileLines(d.unified.value));
        match RelationshipErr(all)
        case Some(m) => Err(InvalidRelationships(m))
        case None => Ok(LegacyDataset(Where(all, IsTaskEntry), Where(all, IsProjectEntry), inbox))
      else
        match (LoadFile(d.reference, ReferenceLine), LoadFile(d.projects, ProjectLine))
        case (Some(rs), Some(ps)) => Ok(LegacyDataset(rs, ps, inbox))
        case _ => Err(InvalidNumber)
  }

  /** `save_dataset`: writes the three separate files and leaves a unified
      file that was already there. */
  function SaveDataset(before: Option<DatasetDir>, content: LegacyDataset): DatasetDir {
    DatasetDir(if before.Some? then before.value.unified else None,
               Some(SaveReferenceTasks(content.referenceTasks)),
               Some(SaveProjects(content.projects)),
               Some(SaveInboxTasks(content.inboxTasks)))
  }

  /** A dataset loaded from a unified file is consistent: its reference
      tasks are exactly the task entries, its projects exactly the project
      entries, and every reference task's pid is one of the projects' ids. */
  lemma UnifiedLoadConsistent(d: DatasetDir, ds: LegacyDataset)
    requires d.unified.Some? && DatasetOf(Some(d)) == Ok(ds)
    ensures forall t :: t in ds.referenceTasks ==> t.IsTask()
    ensures forall t :: t in ds.projects ==> t.IsProject()
    ensures forall t :: t in ds.referenceTasks ==> exists p :: p in ds.projects && p.id == t.pid
  {
    var all := UnifiedTasks(FileLines(d.unified.value));
    WhereMembers(all, IsTaskEntry);
    WhereMembers(all, IsProjectEntry);
    RelationshipFailureExactly(all);
    forall t | t in ds.referenceTasks ensures exists p :: p in ds.projects && p.id == t.pid {
      assert t.pid in ProjectIdSet(all);
      var p :| p in all && p.IsProject() && p.id == t.pid;
      assert p in ds.projects;
    }
  }

  /** Saving into a directory without a unified file and loading it back
      restores the dataset, up to what the separate files drop: reference
      tasks come back under project 1, projects as untagged "ongoing"
      entries. */
  lemma SaveThenLoad(before: Option<DatasetDir>, content: LegacyDataset)
    requires before.None? || before.value.unified.None?
    requires forall k :: 0 <= k < |content.referenceTasks| ==> StorableReference(content.referenceTasks[k])
    requires forall k :: 0 <= k < |content.projects| ==> FileField(content.projects[k].name)
    requires forall k :: 0 <= k < |content.inboxTasks| ==>
      content.inboxTasks[k] != [] && IsStripped(content.inboxTasks[k]) && '\n' !in content.inboxTasks[k] && '\r' !in content.inboxTasks[k]
    ensures DatasetOf(Some(SaveDataset(before, content))) ==
      Ok(LegacyDataset(ReloadedReferences(content.referenceTasks), ReloadedProjects(content.projects), content.inboxTasks))
  {
    ReferenceRoundTrip(content.referenceTasks);
    ProjectsRoundTrip(content.projects);
    InboxRoundTrip(content.inboxTasks);
  }

  /** Saving into a directory that already has a unified file does not
      change what loading it gives, apart from the inbox. */
  lemma SaveBesideUnifiedFile(before: DatasetDir, a: LegacyDataset, b: LegacyDataset)
    requires before.unified.Some? && a.inboxTasks == b.inboxTasks
    ensures DatasetOf(Some(SaveDataset(Some(before), a))) == DatasetOf(Some(SaveDataset(Some(before), b)))
  {
  }
}
