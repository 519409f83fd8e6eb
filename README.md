# GTD inbox classifier: a verified model of its core

The modelled program is a personal "getting things done" assistant. Texts
collected in an inbox are classified by an AI model into projects, and the
result is kept in datasets on disk. This project models, in Dafny, the
logic that runs beneath its user interface, its AI calls and its SQL
layer, and proves what that logic promises:

- **Repository and services** (`repository.dfy`, over `entities.dfy`). The
  aggregate `DatasetContent` holds an ordered inbox, projects with tasks,
  resources and reference items, and goals. `YamlRepository` holds it in a
  field. `TriageService`, `PlanningService` and `ExecutionService` are
  classes whose methods change that field in place, and a ghost counter
  records each `save()`. Each method states its new aggregate as a function
  of the old one. Lemmas then give:
  - the rotation law of skipping;
  - the ids chosen for new tasks and projects;
  - membership of the next actions;
  - the shopping trip grouped by store, stores in the order they first
    come up;
  - the one-flag frame of complete, undo and toggle.
- **The save-dataset pipeline** (`services.dfy`, `dtos.dfy`, `commands.dfy`,
  `projectors.dfy`). It covers the dataset-name check, the request check,
  the mapping of a save attempt to a reply, the save command and the
  projector.
- **Reply parsing** (`response_parser.dfy`). Both versions of the
  line-by-line parser are modelled. The reply is read as blocks of
  "KEY: value" lines between `---` separators, and the 0.6 confidence rule
  decides "unmatched".
- **Flat files and YAML** (`lines.dfy`, `legacy_store.dfy`,
  `dataset_io.dfy`, `dicts.dfy`).
  - Text-mode line reading is modelled, with "\r\n" and a lone '\r' read
    as line ends.
  - So are the `;`-separated loaders and savers of the older dataset
    manager, its parent/child validator, and the YAML project dict, which
    `yaml.dump` writes with sorted keys.
  - Round trips are proved under separator-free fields.
- **The project tree** (`hierarchy.dfy`). This is `build_hierarchy` and the
  small helpers beside it. With distinct ids every item whose parent chain
  reaches a root is listed exactly once, and the items on a cycle or below
  one are not listed. Every prefix is the one its ancestry determines, and
  each level lists the sorted children of the level above.
- **Small computations** (`research.dfy`, `consistency.dfy`,
  `counting.dfy`, `scoring.dfy`). These are the research page's parsers,
  response normalisation and its status thresholds, response counting, and
  the test framework's scores, report, consensus pick and regression rule.
- **Python's `str` operations** (`text.dfy`). `strip`, `split`, `join`,
  `upper`, `lower`, `isalnum`, `replace`, `int` and `str` are modelled as
  the program uses them.

Where the program and its tests disagree, the model follows the program:
- Moving an inbox item to a missing project does nothing
  (services/repository.py:48-49).
- The YAML saver drops tasks (dataset_io.py:55-60).
- `project_for_save` returns its argument (services/projectors.py:14-16).
- The top-level services.py imports a `UnifiedTask` that is defined
  nowhere. Here it is a record whose kind follows the comment at
  services.py:78: a project when pid is 0, a task when pid is positive.

## Model

| member | source | states |
|---|---|---|
| Entities.StatusFromCode | models/entities.py:22-25 | decoding a status code: a hit has exactly that code, a miss means no ProjectStatus carries it |
| Entities.StatusCodes | models/entities.py:22-25 | ProjectStatus has exactly the codes active, on_hold and completed, and each decodes back to its member |
| Entities.ResourceTypeFromCode | models/entities.py:27-29 | decoding a resource type code: a hit has exactly that code, a miss means no ResourceType carries it |
| Entities.ResourceTypeCodes | models/entities.py:27-29 | ResourceType has exactly the codes to_buy and to_gather, and each decodes back to its member |
| Entities.NewResource | models/entities.py:33-41 | a resource built with a name, kind and store keeps them and starts not acquired with no link |
| Entities.DefaultResource | models/entities.py:33-41 | a default ProjectResource is TO_BUY, not acquired, with store "General", empty name and no link |
| Entities.NewTask | models/entities.py:49-57 | a new Task keeps id, name and tags and starts not completed, duration "unknown", notes "" and no deadline |
| Entities.NewProject | models/entities.py:59-69 | a new Project is ACTIVE with no goal and empty description, tags, tasks, resources and reference items |
| Entities.NewGoal | models/entities.py:72-77 | a new Goal keeps its fields and has status "active" |
| Entities.EmptyDataset | models/entities.py:79-84 | a new DatasetContent has no projects, no inbox texts and no goals |
| Models.NewTask | models/models.py:4-10 | a Task defaults to duration "unknown", no tags and notes "" |
| Models.NewProject | models/models.py:12-18 | a Project defaults to status "ongoing", no tags and no tasks |
| Models.NewClassificationResult | models/models.py:25-33 | a ClassificationResult defaults to no tags, no duration, empty reasoning and no alternatives |
| Models.NewClassificationRequest | models/models.py:35-38 | a ClassificationRequest defaults its prompt variant to "basic" |
| Dtos.Validate | models/dtos.py:11-16 | no message exactly when the stripped name is non-empty and the raw name is at most 50 long; blank reports emptiness, else an over-long name reports length |
| Dtos.LengthCountsPadding | models/dtos.py:14-15 | the length limit counts surrounding whitespace: a 49-character name is accepted, the same name padded with two spaces is refused as too long |
| Dtos.BlankCheckedFirst | models/dtos.py:12-15 | a blank name longer than 50 reports "Dataset name cannot be empty", not the length message |
| Dtos.NewResponse | models/dtos.py:18-23 | a SaveDatasetResponse defaults dataset_name and error_type to None |
| Commands.Respond | services/commands.py:26-31 | success is copied; the name is reported only on success; message is "message", else "error", else ""; error_type is the reply's "type" |
| Commands.ExecuteOutcomes | services/commands.py:9-31 | success exactly when both name checks pass and the write goes through; a refused request reports "validation" with its own message; success reports the name and the confirmation |
| Commands.ManagerCatchesBadCharacters | services/commands.py:11-24 | "invalid@name!" passes the request check, but the response carries the manager's character message with type "validation" |
| Commands.ManagerNamesPassRequest | models/dtos.py:11-16 | every name the dataset manager accepts, the request check accepts too |
| Commands.SaveDatasetCommand.constructor | services/commands.py:5-7 | the command keeps the dataset manager it is given |
| Commands.SaveDatasetCommand.Execute | services/commands.py:9-31 | an invalid request returns at once and leaves the manager untouched; a valid one calls save_dataset exactly once, with the request's name and the projected dataset |
| Projectors.ProjectNames | services/projectors.py:10 | the project names, one per project, in dataset order; the prompt's project list (services/services.py:121) is built from the same names |
| Projectors.FromUiState | services/projectors.py:5-12 | keeps the given name, sets source_dataset to "", lists project names in dataset order and shares the dataset's inbox list |
| Projectors.ProjectForSave | services/projectors.py:14-16 | returns its dataset argument unchanged |
| Services.ValidateDatasetName | services/services.py:41-49 | "" exactly for a name of at most 50 ASCII letters, digits, '_' and '-' with at least one letter or digit; otherwise the first failing check's message, in the order blank, length, characters |
| Services.CleanedNameIsAlnum | services/services.py:47 | deleting '_' and '-' leaves a non-empty alphanumeric string exactly when every character is a name character and some character is a letter or digit; such a name is never blank |
| Services.BadCharacterRefused | services/services.py:47-48 | "invalid@name!" is refused for its characters |
| Services.SeparatorsAloneRefused | services/services.py:47-48 | a name made only of '_' and '-' is refused: some letter or digit is needed |
| Services.ReplyKinds | services/services.py:24-39 | success exactly for an accepted name whose write goes through; type "validation" exactly for a refused name; PermissionError maps to "permission", other OSError to "filesystem", anything else to "unknown"; success has a message and no type |
| Services.DatasetManager.constructor | services/services.py:8-12 | a fresh manager has attempted no writes |
| Services.DatasetManager.SaveDataset | services/services.py:24-39 | an invalid name returns the validation reply without calling the saver; a valid one calls the saver once and maps its outcome |
| Services.Bullets | services/services.py:121 | one "  - " line per entry, in order |
| Services.BulletLines | services/services.py:119-127 | joined by newlines, the bullet lines read back line by line as one bullet per entry, when no entry holds a newline |
| Services.InboxBlockLines | services/services.py:123-127 | an empty inbox formats as the single line "  [NO TASKS TO CLASSIFY]"; otherwise the block reads back as one "  - " line per task, in order |
| Services.Guidance | services/services.py:115-117 | the text of the "basic" or "diy_renovation" variant, and the default guidance for any other variant |
| Services.PromptLines | services/services.py:82-113 | read line by line, the dynamic prompt is the guidance, a blank line, the projects heading and block, a blank line, the tasks heading and block, a blank line and the fixed trailer |
| ResponseParser.CaseFold | services.py:263-266 | for a lower-case word, comparing a key upper-cased and comparing it lower-cased are the same test |
| ResponseParser.KeyNamesAgree | services/services.py:160-172 | each key spelling of the current version is the lower-case spelling of the older version upper-cased |
| ResponseParser.FindKeySame | services/services.py:160-172 | two matching tests that agree on every key name find the same key |
| ResponseParser.DialectsAgreeOnKeys | services/services.py:155-172 | the current version (upper-casing the key) and the older one in services.py (lower-casing it) recognise exactly the same keys |
| ResponseParser.ConfidenceFallback | services/services.py:189-197 | a confidence text that does not parse as a number reads as 0.5, in both versions |
| ResponseParser.PercentConfidence | services/services.py:192-193 | the current version reads a text holding '%' as the number without '%' divided by 100; the older one (services.py:295-301) reads the whole text or falls back to 0.5 |
| ResponseParser.IgnoredLines | services/services.py:153-176 | a line without a colon, or with a key that names no field, changes nothing |
| ResponseParser.ValueKeepsColons | services/services.py:154-156 | the key ends at the first colon, so the value keeps every later colon |
| ResponseParser.CreateResult | services/services.py:199-219 | missing fields take their defaults (confidence 0.5, task "", no tags, no duration, reasoning "", no alternatives); the project is "unmatched" exactly when it is missing, names "unmatched" in any case, or confidence is below 0.6, and is kept otherwise |
| ResponseParser.NoConfidenceUnmatched | services/services.py:201-206 | a block without a confidence line is always unmatched |
| ResponseParser.ConfidentKeepsProject | services/services.py:205-206 | a block with confidence at least 0.6 naming a project other than "unmatched" keeps that project |
| ResponseParser.BlankLineSetsNothing | services/services.py:139-141 | a blank line sets no field |
| ResponseParser.Parse | services/services.py:130-187 | the loop over the stripped reply's lines yields exactly one result per block of lines between "---" separators that set some field, in order; a separator with nothing pending emits nothing |
| ResponseParser.ParseLine | services/services.py:139-176 | one iteration: blank lines are skipped, "---" flushes a pending block, other lines set a field |
| ResponseParser.ParseByBlocks | services.py:243-293 | for either version, the line loop emits exactly one result per non-empty block, in block order |
| ResponseParser.Blocks | services/services.py:145-150 | cutting the lines at separators always gives at least one block |
| ResponseParser.AddLine | services/services.py:145-150 | a separator opens a new block and any other line joins the last, so there is always a block |
| ResponseParser.RunIsPerBlock | services/services.py:138-176 | after any prefix of the lines, the loop holds the results of every closed block that set a field and the fields of the open block |
| ResponseParser.StepTracks | services/services.py:139-176 | one more line keeps the loop state in step with the blocks |
| ResponseParser.SeparatorTracks | services/services.py:145-150 | a separator closes the open block and emits it only if it set a field |
| ResponseParser.LineTracks | services/services.py:152-176 | any other line is applied to the open block's fields |
| ResponseParser.ParseIsPerBlock | services/services.py:178-181 | with the final flush, the results are exactly one per block that set a field |
| ResponseParser.AlternativesNoneDiffers | services.py:278-282 | an "ALTERNATIVES: none" block sets nothing and emits no result in the current version (services/services.py:172-174), but sets an explicit [] and emits one result in the older version |
| ResponseParser.FindKeyAt | services/services.py:160-172 | the key found is that of the first name that matches, as the if/elif chain tries them |
| Text.Strip | services.py:66 | `strip()` leaves no whitespace at either end and is empty exactly for a blank text |
| Text.StripIsInfix | services.py:66 | what `strip()` removes is whitespace only, from both ends: the result sits in the text with only whitespace around it |
| Text.StripKeepsChars | services.py:66 | stripping only removes characters |
| Text.StripIdempotent | services.py:66 | stripping twice is stripping once |
| Text.StrippedIsFixed | services.py:66 | a text with no whitespace at its ends is its own `strip()` |
| Text.Split | services.py:71 | `split(c)` gives at least one piece, no piece holds `c`, and joining the pieces with `c` gives the text back |
| Text.SplitNoSep | services.py:71 | a text without the separator splits into itself alone |
| Text.SplitJoin | services.py:163-165 | splitting undoes joining when no piece holds the separator |
| Text.SplitAppend | services/services.py:88-94 | splitting distributes over a separator placed between two texts |
| Text.JoinConcat | services.py:163 | joining two non-empty lists puts one separator between their joins |
| Text.CleanList | services/services.py:167 | `[x.strip() for x in pieces if x.strip()]` is no longer than the pieces, and every kept entry is non-empty and stripped |
| Text.CleanListKeeps | services/services.py:167 | the cleaned list holds the stripped form of every non-blank piece, and nothing else |
| Text.CleanListOfClean | services/services.py:167 | non-empty stripped pieces are kept as they are |
| Text.JoinAvoids | services.py:163 | a character other than the separator that no piece holds is absent from the join |
| Text.JoinOfStrippedPieces | services.py:165 | joining stripped pieces with a non-space separator gives a stripped text |
| Text.JoinOfLines | services.py:165 | joining non-empty stripped pieces gives a stripped text, whatever the separator |
| Text.StripInherits | services.py:77 | a character absent from a text is absent from its stripped form |
| Text.StripAll | services.py:124 | every piece stripped, in order |
| Text.FirstIndex | services/services.py:154 | the index of the first occurrence of a character |
| Text.SplitOnce | services/services.py:154 | `split(c, 1)` cuts at the first `c`: the key holds no `c`, and key, `c` and value make up the text |
| Text.Upper | services/services.py:155 | `upper()` maps each ASCII letter to upper case and keeps the length |
| Text.Lower | services.py:263 | `lower()` maps each ASCII letter to lower case and keeps the length |
| Text.Remove | services/services.py:47 | `replace(c, '')` keeps exactly the characters other than `c` |
| Text.Replace | dataset_io.py:54 | `replace(a, b)` on single characters swaps each `a` for `b` and keeps the length |
| Text.ShowInt | services.py:165 | `str(n)` is non-empty, has no '+' sign and holds only digits and '-' |
| Text.ParseShowInt | services.py:76 | `int(str(n)) == n` |
| Text.ShowIntPlain | services.py:165 | the decimal form of an integer holds no whitespace, ';', ',' or newline |
| Dicts.KeyIndex | dataset_io.py:55 | the position of a key in an insertion-ordered dict, or none when no entry has it |
| Dicts.Put | dataset_io.py:55 | `d[k] = v` overwrites in place or appends one entry |
| Dicts.PutLaws | dataset_io.py:55 | assignment keeps keys distinct, maps `k` to `v`, leaves every other key's value and keeps the key order |
| Dicts.UniqueIndex | dataset_io.py:55 | in a dict with distinct keys, the position of a key is its index |
| Dicts.Keys | dataset_io.py:29 | the keys, in insertion order |
| LineFiles.CollectFailSticks | services.py:112-125 | once a line raises, the whole load raises |
| LineFiles.CollectNeverFails | services.py:157 | a loader whose lines never raise always produces a list |
| LineFiles.CollectSkipLast | services.py:113-115 | a trailing line the loader skips changes nothing |
| LineFiles.CollectAllItems | services.py:112-125 | lines that each parse to an entry give exactly those entries, in order |
| LineFiles.ReadEntries | services.py:111-126 | the loader loop over a file's lines yields the entries in order, and raises as soon as one line does |
| LineFiles.UnlinesSplit | services.py:173-177 | a file written one entry per line reads back as those entries and a final empty piece |
| DatasetIo.FormatProjects | dataset_io.py:51-61 | the loop builds the dict that keys each project by its lowercased name with spaces turned into '_' |
| DatasetIo.FormattedLaws | dataset_io.py:51-61 | the dict has distinct keys, each the key of some project, and each key holds the entry of the last project with that key, so a later project overwrites an earlier one |
| DatasetIo.FormattedDistinct | dataset_io.py:51-61 | with distinct keys, the dict holds every project's entry, in project order |
| DatasetIo.ParseEntry | dataset_io.py:30-35 | a missing 'id', then a missing 'name', raises KeyError; otherwise the project has that id and name, status default 'ongoing', tags default [] and no tasks |
| DatasetIo.ParsedFailSticks | dataset_io.py:29-35 | once an entry raises, the whole parse raises |
| DatasetIo.Values | dataset_io.py:29 | `.values()` of a dict, in key order |
| DatasetIo.ParseProjects | dataset_io.py:27-36 | the loop builds one project per dict value, in order, and raises at the first bad entry |
| DatasetIo.LoadDefaults | dataset_io.py:22-23 | an absent 'projects' gives no projects, and an absent 'inbox_tasks' gives [] |
| DatasetIo.ListedProjectsRaise | dataset_io.py:22 | a list under 'projects' makes the loader raise, since it has no `.values()` |
| DatasetIo.WithoutTasks | dataset_io.py:55-60 | each project with its tasks removed, in order |
| DatasetIo.ParsedStored | dataset_io.py:27-36 | parsing the stored entries gives back the projects without their tasks |
| DatasetIo.SaveThenLoad | dataset_io.py:18-61 | with distinct project keys, loading a saved dataset gives back every project's id, name, status and tags, no tasks, the projects in ascending order of their keys as `yaml.dump` sorts them, and the inbox in its original order |
| DatasetIo.SaveDropsTasks | dataset_io.py:55-60 | a dataset with a project that holds tasks does not survive the YAML store |
| DatasetIo.ParsedHasNoTasks | dataset_io.py:30-35 | every project the loader builds has no tasks |
| DatasetIo.LegacyProjectLine | dataset_io.py:76-87 | a blank line or one with fewer than two fields is skipped; a non-integer id raises; otherwise the project is the int id and stripped name, "ongoing", untagged and without tasks |
| DatasetIo.LegacyLoadProjects | dataset_io.py:69-88 | a missing file gives []; otherwise one project per kept line, in order |
| DatasetIo.LegacyLoad | dataset_io.py:64-67 | the projects of projects.txt and the inbox of inbox_tasks.txt; the load raises when a project line does |
| DatasetIo.LegacyMissingFiles | dataset_io.py:69-95 | missing files load as no projects and an empty inbox |
| LegacyStore.KindsExclusive | services.py:78 | an entry is never both a project (pid 0) and a task (pid > 0), and pid -1 (an inbox entry) is neither |
| LegacyStore.Where | services.py:23-24 | filtering keeps no more entries than it is given |
| LegacyStore.WhereMembers | services.py:23-24 | the filtered list holds exactly the entries that pass the test |
| LegacyStore.UnifiedLine | services.py:65-86 | a unified line never aborts the load; blank, '#', and fewer-than-four-field lines are skipped; a kept entry has a stripped ';'-free name, a non-empty stripped duration and clean tags |
| LegacyStore.UnifiedEntry | services.py:75-81 | the entry has the parsed id and pid, the stripped name, the stripped duration or "unknown" when it is empty, and the fifth field's cleaned tags |
| LegacyStore.TagField | services.py:80 | the tags are the fifth field split at ',', stripped, with empty pieces dropped, and none when the line has four fields |
| LegacyStore.CleanListAvoids | services.py:80 | a character absent from every piece is absent from every cleaned tag |
| LegacyStore.UnifiedRecordParses | services.py:59-81 | an entry written as `id;name;pid;duration;tags` with clean fields reads back as itself |
| LegacyStore.UnifiedEntryOf | services.py:75-81 | the entry rebuilt from the fields of a clean unified record is the entry |
| LegacyStore.CleanTags | services.py:80 | cleaning the split of a comma-joined list of clean tags gives the tags back |
| LegacyStore.OrphanErrorsExactly | services.py:97-100 | the error list names every task whose pid is not a project id, and only those; it is empty exactly when there is none |
| LegacyStore.RelationshipFailureExactly | services.py:92-103 | the validator raises exactly when some task with pid > 0 names a pid that is no project's id, with the "Relationship validation failed" header |
| LegacyStore.ValidateTaskRelationships | services.py:92-103 | the loop collecting one message per orphan raises exactly what the validator's specification says |
| LegacyStore.LoadUnifiedTasks | services.py:58-90 | a missing file gives no entries; otherwise the entries of every good line, in order, unless the validator raises |
| LegacyStore.ReferenceLine | services.py:112-125 | blank lines and lines of fewer than three fields are skipped; a non-integer id raises; an entry belongs to project 1 and has at least one tag piece |
| LegacyStore.ProjectLine | services.py:135-148 | blank lines and lines of fewer than two fields are skipped; a non-integer id raises; an entry is a project with duration "ongoing" and no tags |
| LegacyStore.LoadReferenceTasks | services.py:105-126 | a missing file gives []; otherwise one entry per kept line, in order, and the load raises at the first bad id |
| LegacyStore.LoadProjects | services.py:128-149 | a missing file gives []; otherwise one project per kept line, in order, and the load raises at the first bad id |
| LegacyStore.LoadInboxTasks | services.py:151-157 | a missing file gives []; every loaded line is non-empty and stripped |
| LegacyStore.ReferenceRecords | services.py:162-165 | one record per reference task, in order |
| LegacyStore.ProjectRecords | services.py:170-171 | one record per project, in order |
| LegacyStore.ReloadedReferences | services.py:119-125 | each reference task as it reads back, in order |
| LegacyStore.ReloadedProjects | services.py:142-148 | each project as it reads back, in order |
| LegacyStore.ReferenceRecordParses | services.py:159-165 | a reference task with clean fields is written as one line that reads back with its id, name, tags and duration and pid 1 |
| LegacyStore.ReferenceRecordFacts | services.py:165 | the record of a storable reference task is one clean line that splits into id, name, joined tags and duration |
| LegacyStore.ReferenceLineOfFields | services.py:117-125 | a clean line holding a reference task's fields reads back as the reloaded task |
| LegacyStore.ParseShownInt | services.py:120 | a written integer, stripped and parsed, is the integer |
| LegacyStore.StripTags | services.py:124 | the stripped pieces of a comma-joined tag list are the tags, except that an empty list reads back as [""] |
| LegacyStore.ProjectRecordParses | services.py:167-171 | a project with a clean name is written as one line that reads back with its id and name, pid 0, "ongoing" and no tags |
| LegacyStore.ReferenceRoundTrip | services.py:105-165 | saving reference tasks then loading them keeps ids, names, tags and durations, sets pid to 1, and turns an empty tag list into [""] |
| LegacyStore.ProjectsRoundTrip | services.py:128-171 | saving projects then loading them keeps ids and names, with pid 0, duration "ongoing" and no tags |
| LegacyStore.InboxRoundTrip | services.py:151-177 | saving the inbox then loading it gives the same list when every entry is non-empty, stripped and free of '\n' and '\r' |
| LegacyStore.LoadDataset | services.py:12-36 | a missing directory raises; the unified file is preferred and split into tasks and projects; otherwise the separate files; then the inbox |
| LegacyStore.UnifiedLoadConsistent | services.py:19-103 | a dataset loaded from a unified file has only tasks among its reference tasks, only projects among its projects, and every task's pid names a loaded project |
| LegacyStore.SaveThenLoad | services.py:38-50 | saving into a directory without a unified file and loading it back gives the reloaded reference tasks, the reloaded projects and the same inbox |
| LegacyStore.SaveBesideUnifiedFile | services.py:19-50 | two saves beside an existing unified file with the same inbox load the same dataset, whatever reference tasks and projects they wrote: the loader prefers that file and the saver does not touch it |
| Research.ReferenceTaskLine | research_ai_classify.py:17-26 | a line never aborts the parse; a kept entry has a stripped id and subject, at least one stripped tag piece (empties kept), and a stripped duration when it has one |
| Research.ProjectLine | research_ai_classify.py:33-40 | a line never aborts the parse; a kept project has a stripped pid and subject |
| Research.CollectStep | research_ai_classify.py:16-26 | one more line of a parser that never fails appends its entry, if any, to the entries so far |
| Research.ParseLines | research_ai_classify.py:15-27 | the loop over the lines appends one entry per kept line, in order |
| Research.ParseReferenceTasks | research_ai_classify.py:13-27 | `parse_reference_tasks` returns the entries of the kept lines of the stripped text, in order |
| Research.ParseProjects | research_ai_classify.py:29-41 | `parse_projects` returns the entries of the kept lines of the stripped text, in order |
| Research.ReferenceLineKept | research_ai_classify.py:17-25 | a line is kept exactly when it is non-blank with at least three ';'-fields, and then has no duration exactly when it has three fields |
| Research.ProjectLineKept | research_ai_classify.py:33-40 | a line is kept exactly when it is non-blank with at least two ';'-fields, and fields after the second are ignored |
| Research.CollectBounded | research_ai_classify.py:15-27 | a parser that skips blank lines and never fails yields at most one entry per non-blank line, each from one of the lines |
| Research.ParsersBounded | research_ai_classify.py:13-41 | both parsers yield at most one entry per non-blank line, each the entry of one of the lines |
| Research.ReferenceTexts | research_ai_classify.py:19 | one line per reference task, in order |
| Research.ProjectTexts | research_ai_classify.py:35 | one line per project, in order |
| Research.FieldsLine | research_ai_classify.py:16-19 | plain fields joined at ';' make a non-blank stripped line that splits back into the fields |
| Research.TagText | research_ai_classify.py:24 | a comma-joined list of plain tags reads back as the list |
| Research.ReferenceLineOf | research_ai_classify.py:19-26 | the entry the parser builds from a non-blank line with stripped fields |
| Research.ProjectLineOf | research_ai_classify.py:35-40 | the entry the parser builds from a non-blank line of at least two fields |
| Research.ReferenceTextParses | research_ai_classify.py:17-26 | a reference task with plain fields, written as a line, reads back as itself |
| Research.ReferenceFieldsBack | research_ai_classify.py:22-25 | the entry rebuilt from a reference task's fields is the task |
| Research.ProjectTextParses | research_ai_classify.py:33-40 | a project with plain fields, written as a line, reads back as itself |
| Research.EmptyTextParses | research_ai_classify.py:16-18 | an empty text yields no entries |
| Research.LinesReadBack | research_ai_classify.py:16 | non-empty, stripped, newline-free lines joined at '\n' are read back as they are |
| Research.ReferenceTasksRoundTrip | research_ai_classify.py:13-27 | `parse_reference_tasks` reads back, complete and in order, every list of plain reference tasks written one per line |
| Research.ProjectsRoundTrip | research_ai_classify.py:29-41 | `parse_projects` reads back, complete and in order, every list of plain projects written one per line |
| Consistency.KeptLinesStep | pages/consistency_test.py:26-29 | one more raw line appends its stripped form exactly when that is non-empty and not a '#' line |
| Consistency.CollectKeptLines | pages/consistency_test.py:25-29 | the loop keeps each raw line stripped, dropping the blank ones and the '#' ones, in order |
| Consistency.NormalizeResponseText | pages/consistency_test.py:23-30 | `normalize_response_text` is the kept lines of the stripped text joined by '\n' |
| Consistency.DropCommentsMembers | pages/consistency_test.py:28 | dropping keeps exactly the non-empty, non-'#' lines |
| Consistency.DropNothing | pages/consistency_test.py:28 | nothing is dropped from lines that are all kept |
| Consistency.KeptLinesAsDrop | pages/consistency_test.py:26-29 | keeping line by line is stripping every line, then dropping the blank and '#' ones |
| Consistency.KeptLinesMembers | pages/consistency_test.py:25-30 | the kept lines are exactly the stripped forms of the raw lines that are non-blank and do not start with '#' |
| Consistency.KeptLinesAreKept | pages/consistency_test.py:26-29 | every kept line is stripped, non-empty, free of newlines and does not start with '#' |
| Consistency.KeptLinesOfKept | pages/consistency_test.py:26-29 | lines that are all kept are kept unchanged |
| Consistency.JoinedKeptLines | pages/consistency_test.py:30 | kept lines joined by '\n' split back into the same lines, and no lines join to "" |
| Consistency.NormalizedLines | pages/consistency_test.py:23-30 | every line of the normalised text is stripped, non-empty and not a '#' line, and the lines are exactly the kept lines in input order |
| Consistency.NormalOfKept | pages/consistency_test.py:23-30 | a text made of kept lines is its own normal form |
| Consistency.NormalizeIdempotent | pages/consistency_test.py:23-30 | normalising twice is normalising once |
| Consistency.SimilarityOfNormalized | pages/consistency_test.py:32-38 | comparing a text that is already normalised gives the same score as comparing the original |
| Consistency.StatusOf | pages/consistency_test.py:64 | status is Good exactly from 0.8, Medium exactly from 0.6 to below 0.8, and Poor exactly below 0.6 |
| Consistency.ReviewsSound | pages/consistency_test.py:71 | every review names a paired response, with its own response and similarity, whose similarity is below 0.8 |
| Consistency.ReviewsOrdered | pages/consistency_test.py:71 | the reviews follow the order of the responses, without repeats |
| Consistency.ReviewsComplete | pages/consistency_test.py:71 | every paired response with similarity below 0.8 is under review |
| Consistency.PoorResponsesExactly | pages/consistency_test.py:71 | the diff list holds exactly the responses with similarity below 0.8, in order and once each, over the pairs `zip` makes |
| Consistency.NormalizedAll | pages/consistency_test.py:103 | every response normalised, in order |
| Consistency.ResponseCounts | pages/consistency_test.py:101-104 | the grouping loop counts each response's normal form |
| Consistency.ResponseCountsLaws | pages/consistency_test.py:101-104 | one key per distinct normal form, in order of first occurrence, each mapped to the number of responses with that form; the counts add up to the number of responses |
| Consistency.PerfectConsistency | pages/consistency_test.py:106-107 | there is a single group exactly when all responses normalise to the same text |
| Counting.FirstPos | test_framework/automated_testing.py:20 | the position of the first occurrence of a response |
| Counting.TallyStep | pages/consistency_test.py:102-104 | counting one more element sets its entry to its old count plus one, or to 1 when it is new |
| Counting.TallyLaws | pages/consistency_test.py:101-104 | the counting dict has distinct keys, one per distinct element, each mapped to its number of occurrences |
| Counting.CountsUpdate | pages/consistency_test.py:104 | changing one count changes the sum of counts by the difference |
| Counting.TallySum | pages/consistency_test.py:101-104 | the counts add up to the number of elements counted |
| Counting.TallyKeys | pages/consistency_test.py:101-104 | the keys of the counting dict are the distinct elements in order of first occurrence |
| Counting.DedupOrder | test_framework/automated_testing.py:20-21 | in the distinct elements, one that first occurs earlier comes earlier |
| Counting.DedupMembers | test_framework/test_scenarios.py:102 | the distinct elements are exactly the elements |
| Counting.DedupDistinct | test_framework/test_scenarios.py:102 | the distinct elements hold no repeats |
| Counting.DistinctCard | test_framework/test_scenarios.py:102 | a list without repeats has as many distinct elements as entries |
| Counting.DedupLength | test_framework/test_scenarios.py:102 | there are at most as many distinct elements as entries, and exactly as many when there are no repeats |
| Counting.DistinctCountDedup | test_framework/test_scenarios.py:102 | `len(set(xs))` is the number of distinct elements |
| Counting.DedupSingle | test_framework/test_scenarios.py:102 | a non-empty list has one distinct element exactly when all its entries are equal |
| Counting.TallySingleKey | pages/consistency_test.py:106 | the counting dict has exactly one key when all elements are equal, and only then |
| Counting.MaxIndex | test_framework/automated_testing.py:20-21 | the first entry with the largest count: no entry has more, and every earlier entry has fewer |
| Scoring.Fraction | test_framework/test_scenarios.py:104 | a fraction a/b with a <= b lies in [0, 1], is 0 only for a = 0 and 1 only for a = b |
| Scoring.DistinctBounds | test_framework/test_scenarios.py:102-103 | for responses, the number of distinct ones lies between 1 and their number, is 1 exactly when all are equal, and is their number exactly when none repeats |
| Scoring.ScoreRange | test_framework/test_scenarios.py:98-104 | no responses score 0; otherwise the score lies in [0, 1] |
| Scoring.ScorePerfect | test_framework/test_scenarios.py:102-104 | the score is 1 exactly when there are responses and they are all identical |
| Scoring.ScoreZero | test_framework/test_scenarios.py:104 | with at least two responses the score is 0 exactly when they are pairwise distinct |
| Scoring.RatingOf | test_framework/test_scenarios.py:118 | the status is 'Good' exactly from 0.8, 'Poor' exactly below 0.6 and 'Fair' otherwise |
| Scoring.LowScoresStep | test_framework/test_scenarios.py:122-123 | one more result adds a recommendation exactly when its score is below 0.6 |
| Scoring.GenerateMatrixReport | test_framework/test_scenarios.py:106-125 | the summary has one entry per result, under its key and in order, with the score, its status and its test directory; details are the results; the recommendations are those of the low scores |
| Scoring.LowScoresSound | test_framework/test_scenarios.py:122-123 | every recommendation is for a result scoring below 0.6, with that result's score and test directory |
| Scoring.LowScoresComplete | test_framework/test_scenarios.py:122-123 | every result scoring below 0.6 has a recommendation |
| Scoring.RecommendedExactly | test_framework/test_scenarios.py:114-123 | with distinct keys, a key has a recommendation exactly when its score is below 0.6 |
| Scoring.ConsensusLaws | test_framework/automated_testing.py:18-21 | there is a consensus exactly when there are responses; it is a response, occurs at least as often as any other, and is the first seen among the most frequent |
| Scoring.MissingBaselineNeverRegresses | test_framework/automated_testing.py:60-110 | a missing score file or score reads as 0, and is never a regression |
| Scoring.BaselineLaws | test_framework/automated_testing.py:60-110 | loading the baseline and comparing it with 0 raises exactly for an unreadable file or a stored score that is not a number; otherwise the baseline is the stored number |
| Scoring.RegressionLaws | test_framework/automated_testing.py:110 | a regression is a positive baseline with a drop of more than 0.1; a score at or above the baseline never is one; a lower score is one whenever a higher one is |
| Scoring.OutcomeOf | test_framework/automated_testing.py:104-115 | a combination fails exactly when measuring raises, the score file is unreadable, or its stored score is not a number (the `try` covers loading and the comparison too); otherwise it alerts exactly when the score is a regression against the baseline, and reports the measured and baseline scores |
| Scoring.DetectRegressions | test_framework/automated_testing.py:99-115 | the nested loop yields the outcome of every scenario against every prompt variant, scenario by scenario |
| Scoring.RowLaws | test_framework/automated_testing.py:105-115 | one scenario's outcomes are for that scenario, one per prompt, in prompt order |
| Scoring.RunLength | test_framework/automated_testing.py:104-105 | the run has one outcome per scenario and prompt |
| Scoring.RunSound | test_framework/automated_testing.py:104-115 | every outcome is for a scenario and a prompt of the run, and is that combination's own outcome |
| Scoring.RunComplete | test_framework/automated_testing.py:104-115 | every combination of a scenario and a prompt gets an outcome |
| Hierarchy.FlattenData | views/projects.py:44-62 | the loop's output is the items in order with every page spliced in place one level deep |
| Hierarchy.FlattenedAppend | views/projects.py:53-60 | flattening distributes over concatenation of the input |
| Hierarchy.FlattenedMembers | views/projects.py:53-60 | an item is in the flat list exactly when it is a single element of the input or sits in one of its pages |
| Hierarchy.GetInboxId | views/projects.py:87-95 | the id of the first project flagged as inbox; with none flagged, the id of the first one named inbox or skrzynka odbiorcza in any case; with neither, None |
| Hierarchy.MapTasksToProjects | views/projects.py:149-156 | the loop builds exactly the grouping of the tasks by project id |
| Hierarchy.GroupedLaws | views/projects.py:149-156 | the grouping has distinct keys; a project id maps to the tasks carrying it, in input order, and is absent when there are none |
| Hierarchy.InsertPermutes | views/projects.py:122 | inserting one item into a sorted run adds exactly that item |
| Hierarchy.InsertSorted | views/projects.py:122 | inserting into a run sorted by order keeps it sorted |
| Hierarchy.InsertStable | views/projects.py:122 | insertion puts the new item after every item of the same order already there |
| Hierarchy.SortByOrderLaws | views/projects.py:137-138 | the sort by order (missing order read as 0) is sorted, a permutation of its input, and stable: items of equal order keep their input order |
| Hierarchy.Partition | views/projects.py:111-120 | an item goes to the roots exactly when its parent id is false or names no input item; otherwise it is listed, in input order, under its parent id, and an id with no children has no entry |
| Hierarchy.PartitionMembers | views/projects.py:115-120 | membership of the roots and of each child list, both directions |
| Hierarchy.TreeBuilder.SortedChildren | views/projects.py:137-138 | the child list of an id, missing read as empty, sorted by order |
| Hierarchy.TreeBuilder.Traverse | views/projects.py:125-142 | the traversal appends the item with its depth and prefix, then the subtrees of its sorted children, the last one marked last |
| Hierarchy.TreeBuilder.TraverseAll | views/projects.py:140-142 | the loop over siblings appends their subtrees in order, marking only the final one as last |
| Hierarchy.BuildHierarchy | views/projects.py:97-147 | the organised list is empty for empty input and otherwise the pre-order layout of the sorted roots and their subtrees |
| Hierarchy.TreeBelow | views/projects.py:133-142 | no entry of a subtree lies above the depth it starts at |
| Hierarchy.ForestBelow | views/projects.py:140-142 | no entry of a run of sibling subtrees lies above their depth |
| Hierarchy.TreeTop | views/projects.py:133-142 | the only entry of a subtree at its own depth is its root item |
| Hierarchy.ForestTop | views/projects.py:140-142 | the entries of a run of sibling subtrees at their depth are exactly those siblings, in order |
| Hierarchy.RootsOnTop | views/projects.py:122-145 | the top level of the layout is the roots sorted by order, and an item is at the top exactly when it is a root |
| Hierarchy.TreePrefixes | views/projects.py:126-134 | within a subtree, depth 0 has an empty prefix and every deeper entry's prefix ends in a connector |
| Hierarchy.ForestPrefixes | views/projects.py:126-142 | the same prefix rule holds across a run of sibling subtrees |
| Hierarchy.HierarchyPrefixes | views/projects.py:126-145 | in the whole layout roots have no prefix and every nested entry's prefix ends in the last-child or middle-child connector |
| Hierarchy.TreeMembers | views/projects.py:133-142 | every entry of a subtree is an input item |
| Hierarchy.ForestMembers | views/projects.py:140-142 | every entry of a run of sibling subtrees is an input item |
| Hierarchy.HierarchyMembers | views/projects.py:111-147 | the layout lists only input items |
| Hierarchy.TreeParents | views/projects.py:133-142 | within a subtree every nested entry follows an entry one level up for its parent |
| Hierarchy.ForestParents | views/projects.py:140-142 | the same parent-above rule holds across a run of sibling subtrees |
| Hierarchy.HierarchyParents | views/projects.py:115-147 | pre-order: every entry below the top level comes after an entry one level up whose item is its parent |
| Repository.ProjectIndex | services/repository.py:24-25 | the position of the first project with the id; none exactly when no project carries it |
| Repository.TaskIndex | services/repository.py:30 | the position of the first task with the id; none exactly when no task carries it |
| Repository.ResourceIndex | services/repository.py:156-157 | the position of the first resource with the id; none exactly when no resource carries it |
| Repository.TaskLocation | services/repository.py:27-31 | the task is searched only in the first project with the project id; none when that project or the task is missing |
| Repository.ResourceLocation | services/repository.py:155-160 | the first resource with the id in project-then-resource order: no earlier project and no earlier resource of its project carries the id; none exactly when none does |
| Repository.MaxId | services/repository.py:50 | `max(ids, default=0)`: 0 for no ids, otherwise an element of the ids at least as large as each |
| Repository.RemoveFirst | services/repository.py:54-55 | removing a present text drops exactly its first occurrence and keeps the order of the rest; an absent text changes nothing |
| Repository.MoveToProjectAppendsTask | services/repository.py:47-56 | moving to an existing project appends one task named after the text with the tags, not completed, with id one above the project's largest (1 when empty), changes no other project and removes one inbox occurrence |
| Repository.MoveToUnknownProject | services/repository.py:48-49 | an unknown project id changes nothing |
| Repository.FreshIdIsLast | services/repository.py:59-62 | the project appended with a fresh id is the one `find_project` then finds |
| Repository.BelowMaxProjectId | services/repository.py:59 | every existing project id lies below the new id |
| Repository.CreateProjectAppends | services/repository.py:58-62 | creating from the inbox appends one project with an id above all others (1 for none) holding one untagged task with id 1 named after the text, and removes one inbox occurrence |
| Repository.SkipIsPermutation | services/repository.py:64-67 | skipping keeps the inbox's length and its multiset of entries |
| Repository.SkipHeadRotates | services/repository.py:64-67 | skipping the first entry rotates the inbox left by one |
| Repository.SkipHeadTimesRotates | services/repository.py:64-67 | n successive skips of the head rotate the inbox left by n |
| Repository.SkipAllRestores | services/repository.py:64-67 | skipping the head as many times as there are entries restores the inbox |
| Repository.ProjectsForGoal | services/repository.py:86-87 | a project is listed exactly when it is in the dataset with that goal id |
| Repository.OrphanedProjects | services/repository.py:89-90 | a project is listed exactly when it has no goal id or an empty one |
| Repository.AddReferenceItemAsWritten | services/repository.py:99-104 | as written the call fails exactly when a project has the id, and otherwise leaves the dataset as it was |
| Repository.AddReferenceItem | services/repository.py:99-104 | as intended, the first project with the id gains one reference item at the end and nothing else changes; an unknown id changes nothing |
| Repository.AddReferenceItemDiscrepancy | services/repository.py:99-104 | whenever the project exists the code as written fails while the intended operation appends exactly one reference item |
| Repository.TaskActionsMembers | services/repository.py:116-120 | a task of a project is kept exactly when it is not completed and matches the context filter |
| Repository.NextActionsMembers | services/repository.py:111-121 | a task is a next action exactly when it is not completed, matches the filter (every task when there is none or it is empty) and belongs to an ACTIVE project |
| Repository.SetCompletedChangesOneFlag | services/repository.py:123-133 | completing or reopening sets the flag of the first matching task only, and a missing project or task changes nothing |
| Repository.ToggleChangesOneFlag | services/repository.py:153-160 | toggling sets the flag of the first resource with the id only, and an unknown id changes nothing |
| Repository.GroupIsByStore | services/repository.py:137-151 | the trip maps each store to exactly its purchases in order, has no store without purchases, and lists the stores in the order they first come up |
| Repository.ToBuyMembers | services/repository.py:144-145 | a resource is on the to-buy list exactly when it is TO_BUY and not acquired |
| Repository.TaggedMembers | services/repository.py:147-149 | each listed purchase is a resource of the project with its project's name under its store, "General" for an empty store |
| Repository.PurchasesMembers | services/repository.py:139-149 | the trip lists exactly the pending resources of projects that are not COMPLETED, with their project's name, under their store |
| Repository.YamlRepository.constructor | services/repository.py:15-19 | the repository holds the name and the loaded aggregate, with nothing saved yet |
| Repository.YamlRepository.Save | services/repository.py:21-22 | saving hands the aggregate over once and does not change it |
| Repository.YamlRepository.FindProject | services/repository.py:24-25 | the first project with the id, as `next(...)` returns it, or none exactly when no project has it |
| Repository.YamlRepository.FindTask | services/repository.py:27-31 | the first task with the id inside the first project with the project id (a later project with that id is never searched), or none exactly when that project is missing or lacks the task |
| Repository.TriageService.constructor | services/repository.py:37-38 | the service works on the given repository |
| Repository.TriageService.AddToInbox | services/repository.py:43-45 | the text goes to the end of the inbox, projects and goals stay, and the aggregate is saved once |
| Repository.TriageService.MoveInboxItemToProject | services/repository.py:47-56 | the new aggregate is the move's result, saved once, when the project exists; otherwise nothing changes and nothing is saved |
| Repository.TriageService.CreateProjectFromInbox | services/repository.py:58-62 | the new aggregate is the create-from-inbox result, saved once |
| Repository.TriageService.SkipInboxItem | services/repository.py:64-68 | the inbox becomes the skipped inbox, saved only when the text was present |
| Repository.PlanningService.constructor | services/repository.py:72-73 | the service works on the given repository |
| Repository.PlanningService.CreateGoal | services/repository.py:78-84 | returns a new active goal with the drawn id, appends it to the goals and saves once |
| Repository.PlanningService.GetProjectsForGoal | services/repository.py:86-87 | exactly the projects of the aggregate carrying the goal id |
| Repository.PlanningService.GetOrphanedProjects | services/repository.py:89-90 | exactly the projects of the aggregate without a goal id |
| Repository.PlanningService.AddResourceTo | services/repository.py:92-97 | appends a new resource, store "General" by default, to the first project with the id and saves once; an unknown id changes nothing |
| Repository.PlanningService.AddReferenceItemAsWrittenTo | services/repository.py:99-104 | as written: fails exactly when the project exists, never changes or saves the aggregate |
| Repository.PlanningService.AddReferenceItemTo | services/repository.py:99-104 | as intended: the aggregate becomes the one with the reference item added, saved once when the project exists |
| Repository.ExecutionService.constructor | services/repository.py:108-109 | the service works on the given repository |
| Repository.ExecutionService.GetNextActions | services/repository.py:111-121 | the nested loop returns the next actions in project then task order, with no filter by default |
| Repository.ExecutionService.CompleteTask | services/repository.py:123-127 | the first matching task becomes completed and the aggregate is saved once; a missing task changes nothing |
| Repository.ExecutionService.UndoCompleteTask | services/repository.py:129-133 | the first matching task becomes open again and the aggregate is saved once; a missing task changes nothing |
| Repository.ExecutionService.SetCompleted | services/repository.py:124-127 | the shared body of the two: set the flag of the found task and save, else nothing |
| Repository.ExecutionService.GetAggregatedShoppingList | services/repository.py:135-151 | the nested loop builds the grouping of all purchases by store, stores in first-seen order |
| Repository.ExecutionService.ToggleResourceStatus | services/repository.py:153-160 | the scan sets the flag of the first resource with the id and saves once, then stops; an unknown id changes nothing |
| Repository.ResourceLocationFirst | services/repository.py:155-160 | the first hit of the nested scan is the location ResourceLocation names |
| DatasetIo.StoredEntries | dataset_io.py:51-61 | the i-th stored entry is the i-th project's key and its entry, one per project |
| DatasetIo.InsertProjectPermutes | dataset_io.py:49 | placing a project into a key-ordered run adds exactly that project |
| DatasetIo.InsertProjectAscending | dataset_io.py:49 | placing a project into a key-ordered run keeps it in key order |
| DatasetIo.ByKeyLaws | dataset_io.py:49 | the projects in the order `yaml.dump` writes their keys are in ascending key order and a permutation of the projects |
| DatasetIo.ByKeyAscending | dataset_io.py:49 | the key order of the projects is ascending |
| DatasetIo.ByKeyPermutes | dataset_io.py:49 | the key order of the projects holds exactly the projects |
| DatasetIo.InsertCommutes | dataset_io.py:49-60 | placing a project's entry among sorted entries is storing the projects after placing the project |
| DatasetIo.KeySortedEntries | dataset_io.py:49-60 | the dict that `yaml.dump` writes sorted by key is the stored entries of the projects in key order |
| Dicts.PutKeys | services/repository.py:149 | assigning a new key appends it to the key order; assigning an existing key keeps the order |
| Text.StrLessIrreflexive | dataset_io.py:49 | no string sorts before itself |
| Text.StrLessTransitive | dataset_io.py:49 | the string order is transitive |
| Text.StrLessTotal | dataset_io.py:49 | of two different strings one sorts before the other |
| LineFiles.Newlines | services.py:156 | what text mode reads holds no '\r', and a content without '\r' reads as it is |
| LineFiles.NewlinesLoneReturn | services.py:156 | a lone '\r' between '\r'-free texts reads as a '\n' |
| LineFiles.UnlinesAvoids | services.py:175-177 | a character other than '\n' that no entry holds is not in the written file |
| LineFiles.UnlinesLines | services.py:151-177 | a file written one entry per line, with no entry holding '\n' or '\r', reads back as those entries and a final empty piece |
| LegacyStore.CarriageReturnSplitsEntry | services.py:151-177 | an inbox entry holding a lone '\r' between two clean texts reads back as two entries |
| Services.CleanedAlnumSound | services/services.py:47 | a name whose rest after removing '_' and '-' is alphanumeric has only name characters and at least one alphanumeric one |
| Services.CleanedAlnumComplete | services/services.py:47 | a name of name characters with at least one alphanumeric one passes the alphanumeric test after removing '_' and '-' |
| Hierarchy.ItemWithId | views/projects.py:111 | the item `item_map` holds for an id is an input item with that id; none when no input item has it |
| Hierarchy.ParentItem | views/projects.py:116-118 | an item has a parent item exactly when it is not a root, and that parent is an input item whose id is the item's parent id |
| Hierarchy.ChildAcyclic | views/projects.py:115-118 | a child of an item on no cycle of parent ids is on no cycle |
| Hierarchy.RootAcyclic | views/projects.py:116-120 | a root is on no cycle of parent ids |
| Hierarchy.ChainMeets | views/projects.py:116-118 | a parent chain that comes back to an item puts that item on a cycle |
| Hierarchy.NotBelowOwnChild | views/projects.py:137-142 | an item on no cycle never lies in the subtree of one of its own children |
| Hierarchy.BelowSplit | views/projects.py:137-142 | an item is in the subtree of `y` exactly when it is `y` or in the subtree of one of `y`'s children, one level less deep |
| Hierarchy.TwoChildren | views/projects.py:140-142 | with no cycle above, two different children never share an item in their subtrees |
| Hierarchy.TwoRoots | views/projects.py:144-145 | two different roots never share an item in their subtrees |
| Hierarchy.ChildrenExclusive | views/projects.py:140-142 | among the distinct children of an item on no cycle at most one has a given item in its subtree |
| Hierarchy.RootsExclusive | views/projects.py:144-145 | among distinct roots at most one has a given item in its subtree |
| Hierarchy.TreeOnce | views/projects.py:125-142 | with distinct ids a subtree lists an item exactly once when it lies below its top within the depth cut, and otherwise not at all |
| Hierarchy.ForestOnce | views/projects.py:140-142 | with distinct ids a run of sibling subtrees lists an item exactly once when it lies below one of the siblings, and otherwise not at all |
| Hierarchy.ChainShort | views/projects.py:111-120 | with distinct ids a parent chain that reaches a root visits distinct items, so it is shorter than the input |
| Hierarchy.GroundedOnTop | views/projects.py:122-145 | an input item lies below one of the sorted roots within the depth cut exactly when its parent chain reaches a root |
| Hierarchy.HierarchyOnce | views/projects.py:111-147 | with distinct ids an item is listed exactly once when it is an input item whose parent chain reaches a root, and not at all when it lies on a cycle of parent ids or below one |
| Hierarchy.TreePrefixExact | views/projects.py:125-142 | with distinct ids every entry of a subtree sits under its parent and carries the prefix its ancestry determines |
| Hierarchy.ForestPrefixExact | views/projects.py:140-142 | the exact-prefix rule holds across a run of sibling subtrees |
| Hierarchy.HierarchyPrefixExact | views/projects.py:125-145 | with distinct ids a root's prefix is empty, and a nested entry's prefix is the one its parent hands down followed by the last-child connector exactly when it is the last of its parent's sorted children, and the middle connector otherwise |
| Hierarchy.TreeLevels | views/projects.py:137-142 | within a subtree each level lists, in order, the sorted children of the entries one level up |
| Hierarchy.ForestLevels | views/projects.py:140-142 | the level rule holds across a run of sibling subtrees |
| Hierarchy.HierarchyLevels | views/projects.py:122-145 | each level of the layout lists, in order, the children of the entries on the level above sorted by order, parent by parent |
| Hierarchy.KidsAppend | views/projects.py:137-142 | the children of two runs of entries are the children of the first run followed by those of the second |

## Left out

- The Streamlit user interface is not modelled. This covers app.py, pages/uc011.py, the view modules, and the rendering and script parts of views/projects.py and pages/consistency_test.py. It is presentation and a network client.
- The AI calls are not modelled. This covers `TaskClassifier`, `classify_tasks` in research_ai_classify.py, services/analytics_service.py, and the prompt files `PromptBuilder` reads. They are foreign calls and file reads.
- SQL persistence is not modelled: services/sqlite_repository.py, services/db_models.py and services/snapshot_service.py. Their behaviour lives in SQLAlchemy sessions.
- File-system and YAML I/O are replaced by values:
  - A file is its content, or none when it does not exist.
  - A YAML document is the mapping `yaml.safe_load` returns for the two keys the loader reads.
  - Directory listing, `mkdir` and `load_dataset` of services/services.py are not modelled.
- `float()` is the parameter `num`, and the `difflib` similarity ratio is a parameter as well. Running the classifier and reading the baseline files of the test framework are parameters too.
- uuid4 ids are passed in as parameters (`uuid`). Whether they are fresh is not modelled.
- `save()` of `YamlRepository` is counted in a ghost field. What the dataset manager writes, and its result dictionary, are not modelled.
- The API that only the tests use is not modelled: draft items, the dirty flag, moving projects and `complete_item`. The code that would implement it is not part of the program.
- services/decorators.py, the top-level models.py, models/ai_schemas.py and the package `__init__` files are not modelled. They are declarations or re-exports.
- The program is single-threaded, so there is no concurrency to model.
- Repository.TriageService.GetInboxItems: returns the inbox as a value. In Python the caller gets the repository's own list, and changing it changes the repository without a save.
- Repository.PlanningService.GetAllGoals: the same holds for the goals list.
- Repository.ExecutionService.GetNextActions: the returned tasks are values. In Python they are the repository's task objects, so setting a flag on one changes the aggregate.
- Projectors.FromUiState: in Python the request shares the dataset's inbox list. Here it holds an equal value, and no update can pass through it.
- Repository.MoveToProjectAppendsTask: task ids are integers here. models/entities.py:52 gives a `Task` a uuid string id by default. If a project holds such a task, `max([t.id ...]) + 1` at services/repository.py:50 raises TypeError, and the model cannot express that.
- Services.ValidateDatasetName: `isalnum` is taken to hold for ASCII letters and digits only. Python also accepts every other Unicode letter and digit, so services/services.py:47 accepts a name like "Łazienka" and the model refuses it.
- Services.CleanedNameIsAlnum: it carries the same ASCII restriction on `isalnum`.
- DatasetIo.ProjectKey: `lower()` lowers ASCII letters only. Python gives "Łazienka" and "łazienka" the same key, while here they differ. The same applies to DatasetIo.FormattedLaws, DatasetIo.FormattedDistinct, DatasetIo.SaveThenLoad and DatasetIo.ByKeyLaws.
- Hierarchy.GetInboxId: `lower()` is ASCII-only. In Python the Kelvin sign U+212A lowers to 'k', so that spelling of "skrzynka odbiorcza" is found there and not here.
- ResponseParser.Parse: key names are upper- or lower-cased on ASCII letters only. Python maps 'ſ' to 'S' and 'ı' to 'I' in `upper()`, so a key such as "taſk" matches TASK there and not here.
- ResponseParser.DialectsAgreeOnKeys: the two parsers agree on keys only for the ASCII case mapping. In Python `upper()` and `lower()` disagree on 'ſ' and 'ı'.
- ResponseParser.Parse: `num` returns only finite reals. A confidence that Python reads as nan or inf is not covered. A nan confidence keeps the project in Python, because `nan < 0.6` is false.
- Text.ParseInt: an optional sign followed by ASCII digits, after stripping. Python's `int()` also accepts '_' between digits ("1_000") and non-ASCII decimal digits. The id parsers built on it inherit this: LegacyStore.UnifiedLine, LegacyStore.ReferenceLine, LegacyStore.ProjectLine and DatasetIo.LegacyProjectLine.
- DatasetIo.LoadDefaults: each key of the document is either absent or holds a value. A key that is present but null, such as an empty `projects:`, makes `data.get('projects', {})` return None so that `.values()` raises. The model cannot represent it. The document itself is always a mapping here. An empty file, for which `yaml.safe_load` returns None, and a document that is a list or a scalar make `data.get` raise AttributeError in Python; the model cannot represent those documents either.
- DatasetIo.ParseEntry: a project field is either absent or holds a value of its type. A field that is present but null cannot be represented. In Python, `tags:` with no value makes `get('tags', [])` return None, `status: null` gives status None, and `id: null` gives a project with id None instead of a KeyError. The model gives [], "ongoing" and `MissingKey("id")` for those three.
- Hierarchy.SortByOrderLaws: an item's order is absent or an integer. An item dict holding `'order': None` cannot be represented. Python's sorts at views/projects.py:122 and :138 raise TypeError once such an item is compared with one holding a number, while `OrderOf` would read it as 0.
- Scoring.OutcomeOf: scores are exact reals. A JSON score file may hold NaN, which `json.load` accepts and which compares false with everything, so Python prints the pass line for it. The model has no such value.
- Commands.SaveDatasetCommand.constructor: the projector is not a parameter. The command always uses `Projectors.ProjectForSave`, which returns its dataset. Every caller passes a `DatasetProjector` or a stand-in that returns its dataset, so behaviour is the same; a projector that changes the dataset is not modelled.
- Scoring.GenerateMatrixReport: the summary's `consistency` text `f"{score:.2%}"` is kept as the score itself, and each recommendation sentence is kept as the key, score and test directory it is built from. Float formatting is not modelled.
- Hierarchy.BuildHierarchy: with repeated ids the model and Python part ways.
  - `traverse` can recurse without end in Python, until it raises RecursionError. The model cuts the recursion below |items| levels.
  - Python writes 'depth' and 'tree_prefix' into the shared item dicts, which are the objects' own `__dict__` when there is no `to_dict`. An item visited twice therefore shows its last values in every entry, while the model's entries are separate values.
  - With distinct ids neither difference arises: see Hierarchy.HierarchyOnce.
- Hierarchy.HierarchyLevels: it is stated for levels below |items|. With distinct ids every deeper level is empty, because a parent chain is shorter than the input (Hierarchy.ChainShort).

## Findings

| source | as written | input that shows it | evidently intended | confidence | as-written member | corrected member |
|---|---|---|---|---|---|---|
| services/repository.py:99-104 | `add_reference_item` builds `ReferenceItem(...)`, but line 3 does not import `ReferenceItem`. The call raises NameError whenever the project exists, so nothing is appended or saved. | any dataset with a project of the given id, e.g. project 1 and `add_reference_item(1, "manual", "pdf")` | append a new reference item to that project and save | not executed | Repository.AddReferenceItemAsWritten, Repository.PlanningService.AddReferenceItemAsWrittenTo, Repository.AddReferenceItemDiscrepancy | Repository.AddReferenceItem, Repository.PlanningService.AddReferenceItemTo |
