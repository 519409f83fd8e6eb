/** The `;`-separated parsers of the research page (research_ai_classify.py):
    reference tasks as `id;subject;tag,tag;duration` lines and projects as
    `pid;subject` lines. Fields stay strings; nothing is converted to a
    number. Both parsers strip the whole text, split it at '\n', skip blank
    lines and lines with too few fields, and never raise. */
module Research {
  import opened Wrappers
  import opened Text
  import opened LineFiles
  import LegacyStore

  /** A reference task: `duration` is `None` when the line has no fourth
      field. */
  datatype ReferenceTask = ReferenceTask(id: string, subject: string, tags: seq<string>, duration: Option<string>)

  /** A project of the research page. */
  datatype ProjectRef = ProjectRef(pid: string, subject: string)

  /** The lines the parsers walk: the stripped text split at '\n'. */
  function ContentLines(text: string): seq<string> {
    Split(Strip(text), '\n')
  }

  /** One line of the reference-task text. The line is split as it is; only
      the fields are stripped, and the tag pieces keep their empties. */
  function ReferenceTaskLine(line: string): (r: LineResult<ReferenceTask>)
    ensures !r.Fail?
    ensures r.Item? ==> var t := r.value;
      IsStripped(t.id) && IsStripped(t.subject) && |t.tags| >= 1 &&
      (forall k :: 0 <= k < |t.tags| ==> IsStripped(t.tags[k])) &&
      (t.duration.Some? ==> IsStripped(t.duration.value))
  {
    if IsBlank(line) then Skip
    else
      var parts := Split(line, ';');
      if |parts| >= 3 then
        Item(ReferenceTask(Strip(parts[0]), Strip(parts[1]), StripAll(Split(parts[2], ',')),
                           if |parts| > 3 then Some(Strip(parts[3])) else None))
      else Skip
  }

  /** One line of the project text. */
  function ProjectLine(line: string): (r: LineResult<ProjectRef>)
    ensures !r.Fail?
    ensures r.Item? ==> IsStripped(r.value.pid) && IsStripped(r.value.subject)
  {
    if IsBlank(line) then Skip
    else
      var parts := Split(line, ';');
      if |parts| >= 2 then Item(ProjectRef(Strip(parts[0]), Strip(parts[1]))) else Skip
  }

  /** One more line of a loader that never fails: its entry, if any, is
      appended. */
  lemma CollectStep<T>(lines: seq<string>, i: nat, parse: string -> LineResult<T>, acc: seq<T>)
    requires i < |lines| && Collect(lines[..i], parse) == Some(acc) && !parse(lines[i]).Fail?
    ensures parse(lines[i]).Skip? ==> Collect(lines[..i + 1], parse) == Some(acc)
    ensures parse(lines[i]).Item? ==> Collect(lines[..i + 1], parse) == Some(acc + [parse(lines[i]).value])
  {
    assert lines[..i + 1][..i] == lines[..i];
  }

  /** The loop both parsers run: walk the lines in order and append the
      entry of every line the line parser keeps. */
  method ParseLines<T>(lines: seq<string>, parse: string -> LineResult<T>) returns (entries: seq<T>)
    requires forall k :: 0 <= k < |lines| ==> !parse(lines[k]).Fail?
    ensures Collect(lines, parse) == Some(entries)
  {
    entries := [];
    var i := 0;
    while i < |lines|
      invariant 0 <= i <= |lines|
      invariant Collect(lines[..i], parse) == Some(entries)
    {
      CollectStep(lines, i, parse, entries);
      match parse(lines[i]) {
        case Item(x) =>
          entries := entries + [x];
        case Skip =>
      }
      i := i + 1;
    }
    assert lines[..i] == lines;
  }

  /** `parse_reference_tasks`. */
  method ParseReferenceTasks(text: string) returns (tasks: seq<ReferenceTask>)
    ensures Collect(ContentLines(text), ReferenceTaskLine) == Some(tasks)
  {
    tasks := ParseLines(ContentLines(text), ReferenceTaskLine);
  }

  /** `parse_projects`. */
  method ParseProjects(text: string) returns (projects: seq<ProjectRef>)
    ensures Collect(ContentLines(text), ProjectLine) == Some(projects)
  {
    projects := ParseLines(ContentLines(text), ProjectLine);
  }

  // ---------------------------------------------------------------------
  // Which lines are kept, and in what order.
  // ---------------------------------------------------------------------

  /** A line is kept exactly when it is not blank and has at least three
      fields; it has no duration exactly when it has three fields. */
  lemma ReferenceLineKept(line: string)
    ensures ReferenceTaskLine(line).Item? <==> !IsBlank(line) && |Split(line, ';')| >= 3
    ensures ReferenceTaskLine(line).Item? ==>
      (ReferenceTaskLine(line).value.duration.None? <==> |Split(line, ';')| == 3)
  {
  }

  /** A project line is kept exactly when it is not blank and has at least
      two fields; later fields are ignored. */
  lemma ProjectLineKept(line: string, extra: string)
    ensures ProjectLine(line).Item? <==> !IsBlank(line) && |Split(line, ';')| >= 2
    ensures ProjectLine(line).Item? ==> ProjectLine(line + ";" + extra) == ProjectLine(line)
  {
    if ProjectLine(line).Item? {
      var parts := Split(line, ';');
      SplitAppend(line, extra, ';');
      assert line + ";" + extra == line + [';'] + extra;
      var longer := Split(line + ";" + extra, ';');
      assert longer[0] == parts[0] && longer[1] == parts[1];
      assert !IsBlank(line + ";" + extra) by {
        assert (line + ";" + extra)[|line|] == ';';
      }
    }
  }

  function NonBlankCount(lines: seq<string>): nat {
    if |lines| == 0 then 0
    else NonBlankCount(lines[..|lines| - 1]) + (if IsBlank(lines[|lines| - 1]) then 0 else 1)
  }

  /** A parser that skips blank lines and never fails yields at most one
      entry per non-blank line, each the entry of some input line, in input
      order. */
  lemma {:induction false} CollectBounded<T>(lines: seq<string>, parse: string -> LineResult<T>)
    requires forall k :: 0 <= k < |lines| ==> !parse(lines[k]).Fail?
    requires forall k :: 0 <= k < |lines| && IsBlank(lines[k]) ==> parse(lines[k]).Skip?
    ensures Collect(lines, parse).Some?
    ensures |Collect(lines, parse).value| <= NonBlankCount(lines)
    ensures forall x :: x in Collect(lines, parse).value ==> exists k :: 0 <= k < |lines| && parse(lines[k]) == Item(x)
  {
    if |lines| > 0 {
      var init := lines[..|lines| - 1];
      CollectBounded(init, parse);
      forall x | x in Collect(lines, parse).value
        ensures exists k :: 0 <= k < |lines| && parse(lines[k]) == Item(x)
      {
        if x in Collect(init, parse).value {
          var k :| 0 <= k < |init| && parse(init[k]) == Item(x);
          assert lines[k] == init[k];
        } else {
          assert parse(lines[|lines| - 1]) == Item(x);
        }
      }
    }
  }

  /** Both parsers: at most one entry per non-blank line, each coming from
      one of the lines, in order. */
  lemma ParsersBounded(text: string)
    ensures var r := Collect(ContentLines(text), ReferenceTaskLine);
      r.Some? && |r.value| <= NonBlankCount(ContentLines(text)) &&
      forall t :: t in r.value ==> exists k :: 0 <= k < |ContentLines(text)| && ReferenceTaskLine(ContentLines(text)[k]) == Item(t)
    ensures var r := Collect(ContentLines(text), ProjectLine);
      r.Some? && |r.value| <= NonBlankCount(ContentLines(text)) &&
      forall p :: p in r.value ==> exists k :: 0 <= k < |ContentLines(text)| && ProjectLine(ContentLines(text)[k]) == Item(p)
  {
    CollectBounded(ContentLines(text), ReferenceTaskLine);
    CollectBounded(ContentLines(text), ProjectLine);
  }

  // ---------------------------------------------------------------------
  // Writing the formats and reading them back.
  // ---------------------------------------------------------------------

  /** A reference task as a line of the format the parser reads. */
  function ReferenceText(t: ReferenceTask): string {
    Join(ReferenceFields(t), ';')
  }

  /** The fields of a reference task's line: the duration only when known. */
  function ReferenceFields(t: ReferenceTask): seq<string> {
    [t.id, t.subject, Join(t.tags, ',')] + (if t.duration.Some? then [t.duration.value] else [])
  }

  /** A project as a line of the format the parser reads. */
  function ProjectText(p: ProjectRef): string {
    Join([p.pid, p.subject], ';')
  }

  function ReferenceTexts(ts: seq<ReferenceTask>): (r: seq<string>)
    ensures |r| == |ts| && forall k :: 0 <= k < |ts| ==> r[k] == ReferenceText(ts[k])
  {
    seq(|ts|, k requires 0 <= k < |ts| => ReferenceText(ts[k]))
  }

  function ProjectTexts(ps: seq<ProjectRef>): (r: seq<string>)
    ensures |r| == |ps| && forall k :: 0 <= k < |ps| ==> r[k] == ProjectText(ps[k])
  {
    seq(|ps|, k requires 0 <= k < |ps| => ProjectText(ps[k]))
  }

  /** A reference task the format carries unchanged: plain fields, tags
      free of ',', and at least one tag (an empty tag list is written as an
      empty field, which reads back as one empty tag). */
  predicate WritableReference(t: ReferenceTask) {
    LegacyStore.PlainField(t.id) && LegacyStore.PlainField(t.subject) && |t.tags| >= 1 &&
    (forall k :: 0 <= k < |t.tags| ==> LegacyStore.PlainField(t.tags[k]) && ',' !in t.tags[k]) &&
    (t.duration.Some? ==> LegacyStore.PlainField(t.duration.value))
  }

  /** Plain fields joined at ';' make a non-blank, stripped single line
      that splits back into them. */
  lemma FieldsLine(fields: seq<string>)
    requires |fields| >= 2 && forall f :: f in fields ==> LegacyStore.PlainField(f)
    ensures var line := Join(fields, ';');
      !IsBlank(line) && IsStripped(line) && '\n' !in line && Split(line, ';') == fields
  {
    assert forall k :: 0 <= k < |fields| ==> LegacyStore.PlainField(fields[k]);
    var line := Join(fields, ';');
    assert !IsBlank(line) by {
      assert line == fields[0] + [';'] + Join(fields[1..], ';');
      assert line[|fields[0]|] == ';';
    }
    JoinAvoids(fields, ';', '\n');
    JoinOfStrippedPieces(fields, ';');
    SplitJoin(fields, ';');
  }

  /** The text of a tag list: plain, and read back as the list. */
  lemma TagText(tags: seq<string>)
    requires |tags| >= 1 && forall k :: 0 <= k < |tags| ==> LegacyStore.PlainField(tags[k]) && ',' !in tags[k]
    ensures var text := Join(tags, ',');
      ';' !in text && '\n' !in text && IsStripped(text) && StripAll(Split(text, ',')) == tags
  {
    JoinAvoids(tags, ',', ';');
    JoinAvoids(tags, ',', '\n');
    JoinOfStrippedPieces(tags, ',');
    LegacyStore.StripTags(tags);
  }

  /** What the reference parser makes of a non-blank line whose fields are
      known and stripped. */
  lemma ReferenceLineOf(line: string, parts: seq<string>)
    requires !IsBlank(line) && Split(line, ';') == parts && |parts| >= 3
    requires IsStripped(parts[0]) && IsStripped(parts[1]) && (|parts| > 3 ==> IsStripped(parts[3]))
    ensures ReferenceTaskLine(line) == Item(ReferenceTask(parts[0], parts[1], StripAll(Split(parts[2], ',')),
                                                       if |parts| > 3 then Some(parts[3]) else None))
  {
    StrippedIsFixed(parts[0]);
    StrippedIsFixed(parts[1]);
    if |parts| > 3 {
      StrippedIsFixed(parts[3]);
    }
  }

  lemma ProjectLineOf(line: string, parts: seq<string>)
    requires !IsBlank(line) && Split(line, ';') == parts && |parts| >= 2
    ensures ProjectLine(line) == Item(ProjectRef(Strip(parts[0]), Strip(parts[1])))
  {
  }

  lemma ReferenceTextParses(t: ReferenceTask)
    requires WritableReference(t)
    ensures var line := ReferenceText(t);
      line != [] && IsStripped(line) && '\n' !in line && ReferenceTaskLine(line) == Item(t)
  {
    ReferenceFieldsPlain(t);
    FieldsLine(ReferenceFields(t));
    ReferenceLineOf(ReferenceText(t), ReferenceFields(t));
    ReferenceFieldsBack(t);
  }

  lemma ReferenceFieldsPlain(t: ReferenceTask)
    requires WritableReference(t)
    ensures |ReferenceFields(t)| >= 2 && forall f :: f in ReferenceFields(t) ==> LegacyStore.PlainField(f)
  {
    var tagText := Join(t.tags, ',');
    assert LegacyStore.PlainField(tagText) by {
      JoinAvoids(t.tags, ',', ';');
      JoinAvoids(t.tags, ',', '\n');
      JoinOfStrippedPieces(t.tags, ',');
    }
    if t.duration.Some? {
      assert ReferenceFields(t) == [t.id, t.subject, tagText, t.duration.value];
    } else {
      assert ReferenceFields(t) == [t.id, t.subject, tagText];
    }
  }

  /** The entry the parser builds from the fields of `t` is `t`. */
  lemma ReferenceFieldsBack(t: ReferenceTask)
    requires WritableReference(t)
    ensures var parts := ReferenceFields(t);
      |parts| >= 3 &&
      ReferenceTask(parts[0], parts[1], StripAll(Split(parts[2], ',')), if |parts| > 3 then Some(parts[3]) else None) == t
  {
    TagText(t.tags);
  }

  lemma ProjectTextParses(p: ProjectRef)
    requires LegacyStore.PlainField(p.pid) && LegacyStore.PlainField(p.subject)
    ensures var line := ProjectText(p);
      line != [] && IsStripped(line) && '\n' !in line && ProjectLine(line) == Item(p)
  {
    var fields := [p.pid, p.subject];
    var line := ProjectText(p);
    FieldsLine(fields);
    StrippedIsFixed(p.pid);
    StrippedIsFixed(p.subject);
    ProjectLineOf(line, fields);
  }

  /** A line parser that skips blank lines reads nothing from an empty text. */
  lemma EmptyTextParses<T>(parse: string -> LineResult<T>)
    requires parse("").Skip?
    ensures Collect(ContentLines(Join([], '\n')), parse) == Some([])
  {
    assert ContentLines(Join([], '\n')) == [""];
    assert [""][..0] == [];
  }

  /** Lines joined at '\n' are read back as they are when each is non-empty,
      stripped and on one line. */
  lemma LinesReadBack(lines: seq<string>)
    requires |lines| >= 1
    requires forall k :: 0 <= k < |lines| ==> lines[k] != [] && IsStripped(lines[k]) && '\n' !in lines[k]
    ensures ContentLines(Join(lines, '\n')) == lines
  {
    JoinOfLines(lines, '\n');
    StrippedIsFixed(Join(lines, '\n'));
    SplitJoin(lines, '\n');
  }

  /** The parsers read back, in order and complete, every list written one
      entry per line in their format. */
  lemma ReferenceTasksRoundTrip(ts: seq<ReferenceTask>)
    requires forall k :: 0 <= k < |ts| ==> WritableReference(ts[k])
    ensures Collect(ContentLines(Join(ReferenceTexts(ts), '\n')), ReferenceTaskLine) == Some(ts)
  {
    var lines := ReferenceTexts(ts);
    if |ts| == 0 {
      EmptyTextParses(ReferenceTaskLine);
    } else {
      assert forall k :: 0 <= k < |ts| ==> ReferenceTaskLine(lines[k]) == Item(ts[k]) by {
        forall k | 0 <= k < |ts| ensures ReferenceTaskLine(lines[k]) == Item(ts[k]) {
          ReferenceTextParses(ts[k]);
        }
      }
      assert ContentLines(Join(lines, '\n')) == lines by {
        forall k | 0 <= k < |ts| ensures lines[k] != [] && IsStripped(lines[k]) && '\n' !in lines[k] {
          ReferenceTextParses(ts[k]);
        }
        LinesReadBack(lines);
      }
      CollectAllItems(lines, ReferenceTaskLine, ts);
    }
  }

  lemma ProjectsRoundTrip(ps: seq<ProjectRef>)
    requires forall k :: 0 <= k < |ps| ==> LegacyStore.PlainField(ps[k].pid) && LegacyStore.PlainField(ps[k].subject)
    ensures Collect(ContentLines(Join(ProjectTexts(ps), '\n')), ProjectLine) == Some(ps)
  {
    var lines := ProjectTexts(ps);
    if |ps| == 0 {
      EmptyTextParses(ProjectLine);
    } else {
      assert forall k :: 0 <= k < |ps| ==> ProjectLine(lines[k]) == Item(ps[k]) by {
        forall k | 0 <= k < |ps| ensures ProjectLine(lines[k]) == Item(ps[k]) {
          ProjectTextParses(ps[k]);
        }
      }
      assert ContentLines(Join(lines, '\n')) == lines by {
        forall k | 0 <= k < |ps| ensures lines[k] != [] && IsStripped(lines[k]) && '\n' !in lines[k] {
          ProjectTextParses(ps[k]);
        }
        LinesReadBack(lines);
      }
      CollectAllItems(lines, ProjectLine, ps);
    }
  }
}
