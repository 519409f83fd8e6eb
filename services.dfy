/** The dataset manager and prompt builder of services/services.py: the
    dataset-name check, the mapping of the save attempt to a result record,
    and the text blocks the dynamic prompt is assembled from. */
module Services {
  import opened Wrappers
  import opened Text
  import Models
  import opened Projectors

  // ---------------------------------------------------------------------
  // Dataset names
  // ---------------------------------------------------------------------

  const EmptyNameError: string := "Dataset name cannot be empty"
  const LongNameError: string := "Dataset name too long (max 50 characters)"
  const BadCharsError: string := "Dataset name can only contain letters, numbers, hyphens, and underscores"

  /** A character a dataset name may hold. */
  predicate NameChar(c: char) {
    IsAlnumChar(c) || c == '_' || c == '-'
  }

  /** Every character is a letter, digit, '_' or '-'. */
  predicate AllNameChars(name: string) {
    forall k :: 0 <= k < |name| ==> NameChar(name[k])
  }

  /** Some character is a letter or digit. */
  predicate SomeAlnum(name: string) {
    exists k :: 0 <= k < |name| && IsAlnumChar(name[k])
  }

  /** The accepted names, stated on characters: at most 50 of them, each a
      letter, digit, '_' or '-', and at least one a letter or digit. */
  predicate GoodName(name: string) {
    |name| <= 50 && AllNameChars(name) && SomeAlnum(name)
  }

  /** `_validate_dataset_name`: "" for an accepted name, otherwise the first
      failing check's message, in the order blank, length, characters. */
  function ValidateDatasetName(name: string): (e: string)
    ensures e == "" <==> GoodName(name)
    ensures IsBlank(name) ==> e == EmptyNameError
    ensures !IsBlank(name) && |name| > 50 ==> e == LongNameError
    ensures !IsBlank(name) && |name| <= 50 && !GoodName(name) ==> e == BadCharsError
  {
    CleanedNameIsAlnum(name);
    if name == [] || Strip(name) == [] then EmptyNameError
    else if |name| > 50 then LongNameError
    else if !IsAlnum(Remove(Remove(name, '_'), '-')) then BadCharsError
    else ""
  }

  /** `name.replace('_', '').replace('-', '').isalnum()` holds exactly when
      every character is a name character and some character is a letter
      or digit; such a name is never blank. */
  lemma CleanedNameIsAlnum(name: string)
    ensures IsAlnum(Remove(Remove(name, '_'), '-')) <==> AllNameChars(name) && SomeAlnum(name)
    ensures SomeAlnum(name) ==> !IsBlank(name)
  {
    if IsAlnum(Remove(Remove(name, '_'), '-')) {
      CleanedAlnumSound(name);
    }
    if AllNameChars(name) && SomeAlnum(name) {
      CleanedAlnumComplete(name);
    }
    if SomeAlnum(name) {
      AlnumNotBlank(name);
    }
  }

  lemma CleanedAlnumSound(name: string)
    requires IsAlnum(Remove(Remove(name, '_'), '-'))
    ensures AllNameChars(name) && SomeAlnum(name)
  {
    var r := Remove(Remove(name, '_'), '-');
    forall k | 0 <= k < |name| ensures NameChar(name[k]) {
      var c := name[k];
      if c != '_' && c != '-' {
        assert c in r;
        var j :| 0 <= j < |r| && r[j] == c;
      }
    }
    assert r[0] in name;
    var k :| 0 <= k < |name| && name[k] == r[0];
    assert IsAlnumChar(name[k]);
  }

  lemma CleanedAlnumComplete(name: string)
    requires AllNameChars(name) && SomeAlnum(name)
    ensures IsAlnum(Remove(Remove(name, '_'), '-'))
  {
    var r := Remove(Remove(name, '_'), '-');
    var k :| 0 <= k < |name| && IsAlnumChar(name[k]);
    assert name[k] in r;
    forall j | 0 <= j < |r| ensures IsAlnumChar(r[j]) {
      assert r[j] in name;
      var i :| 0 <= i < |name| && name[i] == r[j];
    }
  }

  lemma AlnumNotBlank(name: string)
    requires SomeAlnum(name)
    ensures !IsBlank(name)
  {
    var k :| 0 <= k < |name| && IsAlnumChar(name[k]);
    assert !IsSpace(name[k]);
  }

  /** A name with a character outside letters, digits, '_' and '-' is
      refused for its characters, even when the request check lets it
      through: "invalid@name!" is one. */
  lemma BadCharacterRefused()
    ensures ValidateDatasetName("invalid@name!") == BadCharsError
  {
    var bad := "invalid@name!";
    assert !NameChar(bad[7]);
    assert !IsSpace(bad[0]);
  }

  /** Underscores and hyphens alone are refused: some letter or digit is
      needed. */
  lemma SeparatorsAloneRefused()
    ensures ValidateDatasetName("_-") == BadCharsError
  {
    var dashes := "_-";
    assert !IsAlnumChar(dashes[0]) && !IsAlnumChar(dashes[1]);
    assert !IsSpace(dashes[0]);
  }

  // ---------------------------------------------------------------------
  // Saving
  // ---------------------------------------------------------------------

  /** What the YAML saver's attempt ends in: done, PermissionError, another
      OSError with its text, or any other exception with its text. */
  datatype SaverOutcome = Written | PermissionFailure | OsFailure(detail: string) | OtherFailure(detail: string)

  /** The result dict of `save_dataset`: `success` is always present, the
      other keys may be missing. */
  datatype SaveReply = SaveReply(success: bool, message: Option<string>, error: Option<string>, kind: Option<string>)

  /** The reply for a name and the outcome the saver has, or would have,
      for it; a refused name never reaches the saver, so there the outcome
      is not looked at. */
  function ReplyFor(name: string, outcome: SaverOutcome): (r: SaveReply)
  {
    var e := ValidateDatasetName(name);
    if e != "" then SaveReply(false, None, Some(e), Some("validation"))
    else match outcome
      case Written => SaveReply(true, Some("Dataset '" + name + "' saved successfully"), None, None)
      case PermissionFailure => SaveReply(false, None, Some("Permission denied - check folder permissions"), Some("permission"))
      case OsFailure(d) => SaveReply(false, None, Some("File system error: " + d), Some("filesystem"))
      case OtherFailure(d) => SaveReply(false, None, Some("Unexpected error: " + d), Some("unknown"))
  }

  /** The kinds a reply can carry, and when: success exactly for an
      accepted name whose write went through, "validation" exactly for a
      refused name, and the failure kinds for the saver's exceptions. */
  lemma ReplyKinds(name: string, outcome: SaverOutcome)
    ensures var r := ReplyFor(name, outcome);
      && (r.success <==> GoodName(name) && outcome == Written)
      && (r.kind == Some("validation") <==> !GoodName(name))
      && (GoodName(name) && outcome == PermissionFailure ==> r.kind == Some("permission"))
      && (GoodName(name) && outcome.OsFailure? ==> r.kind == Some("filesystem"))
      && (GoodName(name) && outcome.OtherFailure? ==> r.kind == Some("unknown"))
      && (r.success <==> r.kind.None?)
      && (r.success <==> r.message.Some? && r.error.None?)
  {
  }

  /** `DatasetManager` with the saver abstracted: `outcomeOf` says how a
      write of a given dataset under a given name ends; `writes` records the
      writes attempted, so that a refused name can be seen not to write. */
  class DatasetManager {
    const outcomeOf: (string, Models.DatasetContent) -> SaverOutcome
    ghost var writes: seq<(string, Models.DatasetContent)>
    /** Every `save_dataset` call, whatever its name. */
    ghost var calls: seq<(string, Models.DatasetContent)>

    constructor (outcomeOf: (string, Models.DatasetContent) -> SaverOutcome)
      ensures this.outcomeOf == outcomeOf && writes == [] && calls == []
    {
      this.outcomeOf := outcomeOf;
      writes := [];
      calls := [];
    }

    /** `save_dataset`: an invalid name gives the validation reply and no
        write; a valid one writes once and maps the outcome. */
    method SaveDataset(name: string, content: Models.DatasetContent) returns (r: SaveReply)
      modifies this
      ensures calls == old(calls) + [(name, content)]
      ensures ValidateDatasetName(name) != "" ==> writes == old(writes) && r == ReplyFor(name, outcomeOf(name, content))
      ensures ValidateDatasetName(name) == "" ==>
        writes == old(writes) + [(name, content)] && r == ReplyFor(name, outcomeOf(name, content))
    {
      calls := calls + [(name, content)];
      var e := ValidateDatasetName(name);
      if e != "" {
        return SaveReply(false, None, Some(e), Some("validation"));
      }
      writes := writes + [(name, content)];
      r := ReplyFor(name, outcomeOf(name, content));
    }
  }

  // ---------------------------------------------------------------------
  // Prompt text
  // ---------------------------------------------------------------------

  const NoTasksLine: string := "  [NO TASKS TO CLASSIFY]"
  const DefaultGuidance: string := "Act as a helpful task organizer."
  const BasicGuidance: string := "Act as my personal advisor and assistant..."
  const RenovationGuidance: string := "Act as an experienced DIY home renovation expert..."

  /** The fixed text after the task list: the tag vocabulary and the
      response format the parser expects. */
  const PromptTrailer: string :=
    "Available tags:\n  physical, digital\n  out - (if physical)\n"
    + "  need-material (if I might have to buy material, ingredients, etc.)\n"
    + "  need-tools (if not bare handed then require tools)\n"
    + "  buy (item goes to buy list)\n\nResponse format:\n\n"
    + "For each task, provide on separate lines:\nTASK: [original task]\n"
    + "PROJECT: [best matching project OR unmatched]\nCONFIDENCE: [0.0-1.0]\n"
    + "TAGS: [comma-separated tags]\nDURATION: [time estimate]\nREASONING: [brief explanation]\n"
    + "ALTERNATIVES: [semicolon-separated list of other potential projects, or 'none']\n---"

  /** One "  - " line per entry, in order. */
  function Bullets(xs: seq<string>): (r: seq<string>)
    ensures |r| == |xs| && forall k :: 0 <= k < |xs| ==> r[k] == "  - " + xs[k]
  {
    seq(|xs|, k requires 0 <= k < |xs| => "  - " + xs[k])
  }

  /** `_format_projects`: the bullet lines joined by newlines; an empty
      list gives the empty text (there is no placeholder here). */
  function FormatProjects(ps: seq<Models.Project>): string {
    Join(Bullets(ProjectNames(ps)), '\n')
  }

  /** `_format_inbox_tasks`: the placeholder line for an empty inbox,
      otherwise the bullet lines joined by newlines. */
  function FormatInboxTasks(tasks: seq<string>): string {
    if tasks == [] then NoTasksLine else Join(Bullets(tasks), '\n')
  }

  /** The lines of a bullet list are the bullets, when no entry holds a
      newline. */
  lemma {:induction false} BulletLines(xs: seq<string>)
    requires |xs| > 0
    requires forall k :: 0 <= k < |xs| ==> '\n' !in xs[k]
    ensures Split(Join(Bullets(xs), '\n'), '\n') == Bullets(xs)
  {
    var bs := Bullets(xs);
    forall k | 0 <= k < |bs| ensures '\n' !in bs[k] {
      assert bs[k] == "  - " + xs[k];
    }
    SplitJoin(bs, '\n');
  }

  /** The inbox block reads back line by line as one bullet per task, or as
      the single placeholder line for an empty inbox. */
  lemma InboxBlockLines(tasks: seq<string>)
    requires forall k :: 0 <= k < |tasks| ==> '\n' !in tasks[k]
    ensures tasks == [] ==> Split(FormatInboxTasks(tasks), '\n') == [NoTasksLine]
    ensures tasks != [] ==> Split(FormatInboxTasks(tasks), '\n') == Bullets(tasks)
  {
    if tasks == [] {
      SplitNoSep(NoTasksLine, '\n');
    } else {
      BulletLines(tasks);
    }
  }

  /** `_get_dynamic_guidance`: the text of a known variant, else the
      default. */
  function Guidance(variant: string): (g: string)
    ensures variant == "basic" ==> g == BasicGuidance
    ensures variant == "diy_renovation" ==> g == RenovationGuidance
    ensures variant != "basic" && variant != "diy_renovation" ==> g == DefaultGuidance
  {
    if variant == "basic" then BasicGuidance
    else if variant == "diy_renovation" then RenovationGuidance
    else DefaultGuidance
  }

  const NL: string := "\n"

  /** `_build_dynamic_prompt`: the guidance, a blank line, the projects
      heading and block, a blank line, the tasks heading and block, a blank
      line and the fixed trailer. */
  function DynamicPrompt(request: Models.ClassificationRequest): string {
    Guidance(request.promptVariant) + NL + NL + "Available projects:" + NL + FormatProjects(request.dataset.projects)
      + NL + NL + "Classify these tasks:" + NL + FormatInboxTasks(request.dataset.inboxTasks)
      + NL + NL + PromptTrailer
  }

  /** Read line by line, the prompt is the guidance's lines, a blank line
      and the projects heading, the project block's lines, a blank line and
      the tasks heading, the task block's lines, a blank line, and the
      trailer's lines. */
  lemma PromptLines(request: Models.ClassificationRequest)
    ensures Split(DynamicPrompt(request), '\n') ==
      Split(Guidance(request.promptVariant), '\n')
      + [""] + Split("Available projects:", '\n') + Split(FormatProjects(request.dataset.projects), '\n')
      + [""] + Split("Classify these tasks:", '\n') + Split(FormatInboxTasks(request.dataset.inboxTasks), '\n')
      + [""] + Split(PromptTrailer, '\n')
  {
    var g := Guidance(request.promptVariant);
    var p := FormatProjects(request.dataset.projects);
    var t := FormatInboxTasks(request.dataset.inboxTasks);
    var h1 := "Available projects:";
    var h2 := "Classify these tasks:";
    var head := g + NL + NL + h1;
    HeadingLines(g, h1);
    var s3 := head + NL + p;
    SplitAppend(head, p, '\n');
    var mid := s3 + NL + NL + h2;
    HeadingLines(s3, h2);
    var s6 := mid + NL + t;
    SplitAppend(mid, t, '\n');
    var s8 := s6 + NL + NL + PromptTrailer;
    HeadingLines(s6, PromptTrailer);
    assert DynamicPrompt(request) == s8;
  }

  /** A blank line then a heading, appended to a text. */
  lemma HeadingLines(a: string, h: string)
    ensures Split(a + NL + NL + h, '\n') == Split(a, '\n') + [""] + Split(h, '\n')
  {
    SplitNoSep("", '\n');
    SplitAppend(a, "", '\n');
    assert a + NL + "" == a + NL;
    SplitAppend(a + NL, h, '\n');
  }
}
