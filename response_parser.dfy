/** `ResponseParser` in its two versions: services/services.py (the
    current one, `Current` here) and the older top-level services.py
    (`Legacy`). Both read the AI's reply line by line into blocks of
    "KEY: value" lines separated by "---" and build one classification
    result per non-empty block. Python's `float` is the parameter `num`. */
module ResponseParser {
  import opened Wrappers
  import opened Text
  import Models

  datatype Dialect = Current | Legacy

  /** The `current_task` dict: a field is present once its key was seen. */
  datatype Fields = Fields(
    task: Option<string>,
    project: Option<string>,
    confidence: Option<real>,
    tags: Option<seq<string>>,
    duration: Option<string>,
    reasoning: Option<string>,
    alternatives: Option<seq<string>>)

  const NoFields: Fields := Fields(None, None, None, None, None, None, None)

  predicate IsEmpty(f: Fields) {
    f == NoFields
  }

  datatype Key = TaskKey | ProjectKey | ConfidenceKey | TagsKey | DurationKey | ReasoningKey | AlternativesKey | OtherKey

  /** A recognised key: its upper-case spelling (the current version's),
      its lower-case spelling (the legacy version's) and the field it sets. */
  datatype KeyName = KeyName(upper: string, lower: string, key: Key)

  const KeyNames: seq<KeyName> := [
    KeyName("TASK", "task", TaskKey),
    KeyName("PROJECT", "project", ProjectKey),
    KeyName("CONFIDENCE", "confidence", ConfidenceKey),
    KeyName("TAGS", "tags", TagsKey),
    KeyName("DURATION", "duration", DurationKey),
    KeyName("REASONING", "reasoning", ReasoningKey),
    KeyName("ALTERNATIVES", "alternatives", AlternativesKey)]

  /** The first name that matches, as the `if`/`elif` chain tries them. */
  function FindKey(names: seq<KeyName>, matches: KeyName -> bool): Key
  {
    if |names| == 0 then OtherKey
    else if matches(names[0]) then names[0].key
    else FindKey(names[1..], matches)
  }

  /** The current version compares the stripped key upper-cased with the
      upper-case names, the legacy one lower-cased with the lower-case
      names. */
  function KeyOf(d: Dialect, rawKey: string): Key {
    var k := Strip(rawKey);
    if d == Current then FindKey(KeyNames, (n: KeyName) => Upper(k) == n.upper)
    else FindKey(KeyNames, (n: KeyName) => Lower(k) == n.lower)
  }

  predicate LowerWord(w: string) {
    forall k :: 0 <= k < |w| ==> 'a' <= w[k] <= 'z'
  }

  /** For a lower-case word, matching upper-cased and matching lower-cased
      are the same test. */
  lemma CaseFold(x: string, w: string)
    requires LowerWord(w)
    ensures Upper(x) == Upper(w) <==> Lower(x) == w
  {
    if |x| == |w| {
      if Lower(x) == w {
        forall k | 0 <= k < |x| ensures Upper(x)[k] == Upper(w)[k] {
          assert LowerChar(x[k]) == w[k];
        }
      }
      if Upper(x) == Upper(w) {
        forall k | 0 <= k < |x| ensures Lower(x)[k] == w[k] {
          assert UpperChar(x[k]) == UpperChar(w[k]);
        }
      }
    }
  }

  /** Each upper-case spelling is the lower-case one upper-cased. */
  lemma KeyNamesAgree()
    ensures forall i :: 0 <= i < |KeyNames| ==> AlikeSpelling(KeyNames[i].lower, KeyNames[i].upper)
  {
    TaskAlike();
    ProjectAlike();
    ConfidenceAlike();
    TagsAlike();
    DurationAlike();
    ReasoningAlike();
    AlternativesAlike();
  }

  /** The seven spellings, one at a time. */
  lemma TaskAlike()
    ensures AlikeSpelling("task", "TASK")
  {
    SpelledAlike("task", "TASK");
  }
  lemma ProjectAlike()
    ensures AlikeSpelling("project", "PROJECT")
  {
    SpelledAlike("project", "PROJECT");
  }
  lemma ConfidenceAlike()
    ensures AlikeSpelling("confidence", "CONFIDENCE")
  {
    SpelledAlike("confidence", "CONFIDENCE");
  }
  lemma TagsAlike()
    ensures AlikeSpelling("tags", "TAGS")
  {
    SpelledAlike("tags", "TAGS");
  }
  lemma DurationAlike()
    ensures AlikeSpelling("duration", "DURATION")
  {
    SpelledAlike("duration", "DURATION");
  }
  lemma ReasoningAlike()
    ensures AlikeSpelling("reasoning", "REASONING")
  {
    SpelledAlike("reasoning", "REASONING");
  }
  lemma AlternativesAlike()
    ensures AlikeSpelling("alternatives", "ALTERNATIVES")
  {
    SpelledAlike("alternatives", "ALTERNATIVES");
  }

  /** `lower` is a lower-case word whose upper-case form is `upper`. */
  predicate AlikeSpelling(lower: string, upper: string) {
    LowerWord(lower) && Upper(lower) == upper
  }

  lemma SpelledAlike(lower: string, upper: string)
    requires |lower| == |upper|
    requires forall k :: 0 <= k < |lower| ==> 'a' <= lower[k] <= 'z' && upper[k] == UpperChar(lower[k])
    ensures AlikeSpelling(lower, upper)
  {
  }

  lemma {:induction false} FindKeySame(names: seq<KeyName>, m1: KeyName -> bool, m2: KeyName -> bool)
    requires forall i :: 0 <= i < |names| ==> m1(names[i]) == m2(names[i])
    ensures FindKey(names, m1) == FindKey(names, m2)
  {
    if |names| > 0 {
      FindKeySame(names[1..], m1, m2);
    }
  }

  /** Both versions recognise exactly the same keys: upper-casing and
      lower-casing classify every (ASCII) key alike. */
  lemma DialectsAgreeOnKeys(rawKey: string)
    ensures KeyOf(Current, rawKey) == KeyOf(Legacy, rawKey)
  {
    var k := Strip(rawKey);
    var m1: KeyName -> bool := (n: KeyName) => Upper(k) == n.upper;
    var m2: KeyName -> bool := (n: KeyName) => Lower(k) == n.lower;
    KeyNamesAgree();
    forall i | 0 <= i < |KeyNames| ensures m1(KeyNames[i]) == m2(KeyNames[i]) {
      CaseFold(k, KeyNames[i].lower);
    }
    FindKeySame(KeyNames, m1, m2);
  }

  /** `_parse_confidence`: the current version reads "85%" as 0.85
      (every '%' removed, then divided by 100); both fall back to 0.5 when
      the text is not a number. */
  function ParseConfidence(d: Dialect, num: string -> Option<real>, value: string): real {
    if d == Current && '%' in value then
      match num(Remove(value, '%'))
      case Some(x) => x / 100.0
      case None => 0.5
    else num(value).GetOr(0.5)
  }

  lemma ConfidenceFallback(d: Dialect, num: string -> Option<real>, value: string)
    requires num(value).None?
    requires d == Legacy || '%' !in value
    ensures ParseConfidence(d, num, value) == 0.5
  {
  }

  lemma PercentConfidence(num: string -> Option<real>, value: string, x: real)
    requires '%' in value && num(Remove(value, '%')) == Some(x)
    ensures ParseConfidence(Current, num, value) == x / 100.0
    ensures ParseConfidence(Legacy, num, value) == num(value).GetOr(0.5)
  {
  }

  /** A recognised key's value stored in the block's fields. */
  function Assign(d: Dialect, num: string -> Option<real>, f: Fields, key: Key, v: string): Fields {
    match key
    case TaskKey => f.(task := Some(v))
    case ProjectKey => f.(project := Some(v))
    case ConfidenceKey => f.(confidence := Some(ParseConfidence(d, num, v)))
    case TagsKey => f.(tags := Some(CleanList(Split(v, ','))))
    case DurationKey => f.(duration := Some(v))
    case ReasoningKey => f.(reasoning := Some(v))
    case AlternativesKey =>
      if Lower(v) != "none" then f.(alternatives := Some(CleanList(Split(v, ';'))))
      else if d == Legacy then f.(alternatives := Some([]))
      else f
    case OtherKey => f
  }

  /** One stripped, non-separator line applied to the block's fields: the
      line is cut at its first colon into a key and a value. */
  function ApplyLine(d: Dialect, num: string -> Option<real>, f: Fields, line: string): Fields {
    if ':' !in line then f
    else
      var parts := SplitOnce(line, ':');
      Assign(d, num, f, KeyOf(d, parts.0), Strip(parts.1))
  }

  /** Lines without a colon and lines with an unknown key change nothing. */
  lemma IgnoredLines(d: Dialect, num: string -> Option<real>, f: Fields, line: string)
    requires ':' !in line || KeyOf(d, SplitOnce(line, ':').0) == OtherKey
    ensures ApplyLine(d, num, f, line) == f
  {
    if ':' in line {
      var parts := SplitOnce(line, ':');
      assert ApplyLine(d, num, f, line) == Assign(d, num, f, OtherKey, Strip(parts.1));
      AssignOther(d, num, f, Strip(parts.1));
    }
  }

  lemma AssignOther(d: Dialect, num: string -> Option<real>, f: Fields, v: string)
    ensures Assign(d, num, f, OtherKey, v) == f
  {
  }

  /** The key ends at the first colon: the value keeps any later colons. */
  lemma ValueKeepsColons(d: Dialect, num: string -> Option<real>, f: Fields, key: string, value: string)
    requires ':' !in key
    ensures ApplyLine(d, num, f, key + ":" + value) == Assign(d, num, f, KeyOf(d, key), Strip(value))
  {
    var line := key + ":" + value;
    assert line[|key|] == ':';
    assert line[..|key|] == key;
    var n := FirstIndex(line, ':');
    assert n == |key|;
    assert SplitOnce(line, ':') == (key, value);
  }

  /** `_create_result`: missing fields take their defaults (project
      "unmatched", confidence 0.5); the project is replaced by "unmatched"
      when it reads so in any case or the confidence is below 0.6. */
  function CreateResult(f: Fields): (r: Models.ClassificationResult)
    ensures r.confidence == f.confidence.GetOr(0.5)
    ensures r.suggestedProject == "unmatched" <==>
      Lower(f.project.GetOr("unmatched")) == "unmatched" || f.confidence.GetOr(0.5) < 0.6 || f.project == Some("unmatched")
    ensures r.suggestedProject != "unmatched" ==> f.project.Some? && r.suggestedProject == f.project.value
    ensures r.task == f.task.GetOr("") && r.reasoning == f.reasoning.GetOr("")
    ensures r.extractedTags == f.tags.GetOr([]) && r.alternativeProjects == f.alternatives.GetOr([])
    ensures r.estimatedDuration == f.duration
  {
    var confidence := f.confidence.GetOr(0.5);
    var project := f.project.GetOr("unmatched");
    var project' := if Lower(project) == "unmatched" || confidence < 0.6 then "unmatched" else project;
    Models.ClassificationResult(f.task.GetOr(""), project', confidence, f.tags.GetOr([]),
      f.duration, f.reasoning.GetOr(""), f.alternatives.GetOr([]))
  }

  /** A block without a confidence line is always unmatched. */
  lemma NoConfidenceUnmatched(f: Fields)
    requires f.confidence.None?
    ensures CreateResult(f).suggestedProject == "unmatched"
  {
  }

  /** A confident block naming a project other than "unmatched" keeps it. */
  lemma ConfidentKeepsProject(f: Fields, p: string, c: real)
    requires f.project == Some(p) && f.confidence == Some(c) && c >= 0.6
    requires Lower(p) != "unmatched"
    ensures CreateResult(f).suggestedProject == p
  {
  }

  // ---------------------------------------------------------------------
  // The loop and its specification
  // ---------------------------------------------------------------------

  datatype ParseState = ParseState(results: seq<Models.ClassificationResult>, current: Fields)

  /** A version's line handling, as a function value. */
  function Applier(d: Dialect, num: string -> Option<real>): (Fields, string) -> Fields {
    (f: Fields, line: string) => ApplyLine(d, num, f, line)
  }

  /** A blank line sets nothing. */
  lemma BlankLineSetsNothing(d: Dialect, num: string -> Option<real>)
    ensures forall f :: Applier(d, num)(f, "") == f
  {
  }

  /** One iteration of the loop over lines. */
  function Step(apply: (Fields, string) -> Fields, st: ParseState, rawLine: string): ParseState {
    var line := Strip(rawLine);
    if line == [] then st
    else if line == "---" then
      if IsEmpty(st.current) then st
      else ParseState(st.results + [CreateResult(st.current)], NoFields)
    else st.(current := apply(st.current, line))
  }

  function Run(apply: (Fields, string) -> Fields, lines: seq<string>): ParseState {
    if |lines| == 0 then ParseState([], NoFields)
    else Step(apply, Run(apply, lines[..|lines| - 1]), lines[|lines| - 1])
  }

  /** After the loop: a pending block is emitted too. */
  function Flush(st: ParseState): seq<Models.ClassificationResult> {
    if IsEmpty(st.current) then st.results else st.results + [CreateResult(st.current)]
  }

  function Lines(raw: string): seq<string> {
    Split(Strip(raw), '\n')
  }

  /** `parse`. */
  method Parse(d: Dialect, num: string -> Option<real>, raw: string) returns (results: seq<Models.ClassificationResult>)
    ensures results == Flush(Run(Applier(d, num), Lines(raw)))
    ensures results == Emit(Applier(d, num), Blocks(Lines(raw)))
  {
    var lines := Lines(raw);
    ghost var apply := Applier(d, num);
    results := [];
    var current := NoFields;
    var i := 0;
    while i < |lines|
      invariant 0 <= i <= |lines|
      invariant ParseState(results, current) == Run(apply, lines[..i])
    {
      results, current := ParseLine(d, num, results, current, lines[i]);
      assert lines[..i + 1][..i] == lines[..i];
      i := i + 1;
    }
    assert lines[..i] == lines;
    if current != NoFields {
      results := results + [CreateResult(current)];
    }
    ParseByBlocks(d, num, lines);
  }

  lemma ParseByBlocks(d: Dialect, num: string -> Option<real>, lines: seq<string>)
    ensures Flush(Run(Applier(d, num), lines)) == Emit(Applier(d, num), Blocks(lines))
  {
    BlankLineSetsNothing(d, num);
    ParseIsPerBlock(Applier(d, num), lines);
  }

  /** The body of the loop in `parse`, for one line. */
  method ParseLine(d: Dialect, num: string -> Option<real>, results: seq<Models.ClassificationResult>, current: Fields, rawLine: string)
    returns (results': seq<Models.ClassificationResult>, current': Fields)
    ensures ParseState(results', current') == Step(Applier(d, num), ParseState(results, current), rawLine)
  {
    results', current' := results, current;
    var line := Strip(rawLine);
    if line == [] {
    } else if line == "---" {
      if current != NoFields {
        results' := results + [CreateResult(current)];
        current' := NoFields;
      }
    } else {
      current' := ApplyLine(d, num, current, line);
    }
  }

  // ---------------------------------------------------------------------
  // Reference: cut into blocks first, then build one result per block
  // ---------------------------------------------------------------------

  predicate IsSeparator(line: string) {
    Strip(line) == "---"
  }

  /** The lines cut at separator lines; always at least one (possibly
      empty) block. */
  function Blocks(lines: seq<string>): (r: seq<seq<string>>)
    ensures |r| >= 1
  {
    if |lines| == 0 then [[]]
    else AddLine(Blocks(lines[..|lines| - 1]), lines[|lines| - 1])
  }

  /** A separator opens a new block; any other line joins the last one. */
  function AddLine(bs: seq<seq<string>>, l: string): (r: seq<seq<string>>)
    requires |bs| >= 1
    ensures |r| >= 1
  {
    if IsSeparator(l) then bs + [[]]
    else bs[..|bs| - 1] + [bs[|bs| - 1] + [l]]
  }

  /** The fields a block's lines set, in order. */
  function FieldsOf(apply: (Fields, string) -> Fields, block: seq<string>): Fields {
    if |block| == 0 then NoFields
    else apply(FieldsOf(apply, block[..|block| - 1]), Strip(block[|block| - 1]))
  }

  /** One result for every block that set some field, in block order. */
  function Emit(apply: (Fields, string) -> Fields, blocks: seq<seq<string>>): seq<Models.ClassificationResult> {
    if |blocks| == 0 then []
    else
      var f := FieldsOf(apply, blocks[|blocks| - 1]);
      Emit(apply, blocks[..|blocks| - 1]) + (if IsEmpty(f) then [] else [CreateResult(f)])
  }

  /** The loop state matches the blocks: the results of every finished
      block, and the fields of the block still open. */
  predicate Tracks(apply: (Fields, string) -> Fields, st: ParseState, bs: seq<seq<string>>)
    requires |bs| >= 1
  {
    st.results == Emit(apply, bs[..|bs| - 1]) && st.current == FieldsOf(apply, bs[|bs| - 1])
  }

  /** The loop state after any prefix of the lines tracks the blocks of
      that prefix. */
  lemma {:induction false} RunIsPerBlock(apply: (Fields, string) -> Fields, lines: seq<string>)
    requires forall f :: apply(f, "") == f
    ensures Tracks(apply, Run(apply, lines), Blocks(lines))
  {
    if |lines| > 0 {
      var init := lines[..|lines| - 1];
      RunIsPerBlock(apply, init);
      StepTracks(apply, Run(apply, init), Blocks(init), lines[|lines| - 1]);
    }
  }

  /** One line keeps the loop state in step with the blocks. */
  lemma StepTracks(apply: (Fields, string) -> Fields, st: ParseState, bs: seq<seq<string>>, l: string)
    requires forall f :: apply(f, "") == f
    requires |bs| >= 1 && Tracks(apply, st, bs)
    ensures Tracks(apply, Step(apply, st, l), AddLine(bs, l))
  {
    if IsSeparator(l) {
      SeparatorTracks(apply, st, bs, l);
    } else {
      LineTracks(apply, st, bs, l);
    }
  }

  /** A separator closes the open block, emitting it if it set a field. */
  lemma SeparatorTracks(apply: (Fields, string) -> Fields, st: ParseState, bs: seq<seq<string>>, l: string)
    requires |bs| >= 1 && Tracks(apply, st, bs) && IsSeparator(l)
    ensures Tracks(apply, Step(apply, st, l), bs + [[]])
  {
    var bs' := bs + [[]];
    assert bs'[..|bs'| - 1] == bs;
    InitLast(bs);
    assert Emit(apply, bs) == st.results + (if IsEmpty(st.current) then [] else [CreateResult(st.current)]);
  }

  lemma InitLast<T>(s: seq<T>)
    requires |s| >= 1
    ensures s[..|s| - 1] + [s[|s| - 1]] == s
  {
  }

  /** Any other line is applied to the open block's fields. */
  lemma LineTracks(apply: (Fields, string) -> Fields, st: ParseState, bs: seq<seq<string>>, l: string)
    requires forall f :: apply(f, "") == f
    requires |bs| >= 1 && Tracks(apply, st, bs) && !IsSeparator(l)
    ensures Tracks(apply, Step(apply, st, l), bs[..|bs| - 1] + [bs[|bs| - 1] + [l]])
  {
    var last := bs[|bs| - 1];
    var bs' := bs[..|bs| - 1] + [last + [l]];
    assert bs'[..|bs'| - 1] == bs[..|bs| - 1];
    assert (last + [l])[..|last|] == last;
    assert FieldsOf(apply, last + [l]) == apply(st.current, Strip(l));
  }

  /** The parser emits exactly one result per block that set a field: a
      "---" with nothing pending emits nothing, and a block whose only
      lines are unknown, colon-less or ignored emits nothing. */
  lemma ParseIsPerBlock(apply: (Fields, string) -> Fields, lines: seq<string>)
    requires forall f :: apply(f, "") == f
    ensures Flush(Run(apply, lines)) == Emit(apply, Blocks(lines))
  {
    RunIsPerBlock(apply, lines);
    var bs := Blocks(lines);
    assert Tracks(apply, Run(apply, lines), bs);
    assert bs[..|bs| - 1] + [bs[|bs| - 1]] == bs;
  }

  /** The two versions part on an "ALTERNATIVES: none" line: the current
      one leaves the field unset, so a block holding only that line yields
      no result; the legacy one stores an empty list and yields one. */
  lemma AlternativesNoneDiffers(num: string -> Option<real>, key: string, value: string)
    requires ':' !in key && KeyOf(Current, key) == AlternativesKey
    requires Lower(Strip(value)) == "none" && IsStripped(key + ":" + value)
    ensures FieldsOf(Applier(Current, num), [key + ":" + value]) == NoFields
    ensures FieldsOf(Applier(Legacy, num), [key + ":" + value]) == NoFields.(alternatives := Some([]))
    ensures Emit(Applier(Current, num), [[key + ":" + value]]) == []
    ensures |Emit(Applier(Legacy, num), [[key + ":" + value]])| == 1
  {
    var line := key + ":" + value;
    StrippedIsFixed(line);
    DialectsAgreeOnKeys(key);
    ValueKeepsColons(Current, num, NoFields, key, value);
    ValueKeepsColons(Legacy, num, NoFields, key, value);
    assert [[line]][..0] == [];
  }

  /** The key found is that of the first matching name. */
  lemma {:induction false} FindKeyAt(names: seq<KeyName>, matches: KeyName -> bool, i: nat)
    requires i < |names| && matches(names[i])
    requires forall j :: 0 <= j < i ==> !matches(names[j])
    ensures FindKey(names, matches) == names[i].key
  {
    if i > 0 {
      FindKeyAt(names[1..], matches, i - 1);
    }
  }
}
