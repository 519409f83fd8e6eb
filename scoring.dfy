/** The scoring rules of the prompt test framework
    (test_framework/test_scenarios.py, test_framework/automated_testing.py):
    the consistency score of repeated runs, the status and recommendations
    of the matrix report, the consensus response that becomes a baseline,
    and the rule that flags a regression against a stored baseline.
    Scores are exact reals; running the classifier and reading the
    baseline files are parameters. */
module Scoring {
  import opened Wrappers
  import opened Dicts
  import opened Counting

  // ---------------------------------------------------------------------
  // The consistency score
  // ---------------------------------------------------------------------

  function MaxInt(a: int, b: int): int {
    if a >= b then a else b
  }

  /** `_calculate_consistency` and `calculate_consistency_score`: one minus
      the share of extra distinct responses; 0 for no responses. */
  function ConsistencyScore(responses: seq<string>): real {
    if |responses| == 0 then 0.0
    else 1.0 - (DistinctCount(responses) - 1) as real / MaxInt(|responses| - 1, 1) as real
  }

  /** A fraction `a / b` with `a <= b` lies in [0, 1], and is 0 or 1 only
      at the ends. */
  lemma Fraction(a: nat, b: nat)
    requires 1 <= b && a <= b
    ensures 0.0 <= a as real / b as real <= 1.0
    ensures a as real / b as real == 0.0 <==> a == 0
    ensures a as real / b as real == 1.0 <==> a == b
  {
    var q := a as real / b as real;
    assert q * b as real == a as real;
    if q == 1.0 {
      assert a as real == b as real;
    }
  }

  /** The number of distinct responses lies between 1 and the number of
      responses, reaching 1 exactly when all are equal and the number of
      responses exactly when all are different. */
  lemma DistinctBounds(responses: seq<string>)
    requires |responses| > 0
    ensures 1 <= DistinctCount(responses) <= |responses|
    ensures DistinctCount(responses) == 1 <==> AllSame(responses)
    ensures DistinctCount(responses) == |responses| <==> Distinct(responses)
  {
    DistinctCountDedup(responses);
    DedupLength(responses);
    DedupSingle(responses);
  }

  /** No responses score 0; otherwise the score lies in [0, 1]. */
  lemma ScoreRange(responses: seq<string>)
    ensures |responses| == 0 ==> ConsistencyScore(responses) == 0.0
    ensures |responses| > 0 ==> 0.0 <= ConsistencyScore(responses) <= 1.0
  {
    if |responses| > 0 {
      DistinctBounds(responses);
      Fraction(DistinctCount(responses) - 1, MaxInt(|responses| - 1, 1));
    }
  }

  /** The score is 1 exactly when there are responses and they are all
      identical. */
  lemma ScorePerfect(responses: seq<string>)
    ensures ConsistencyScore(responses) == 1.0 <==> |responses| > 0 && AllSame(responses)
  {
    if |responses| > 0 {
      DistinctBounds(responses);
      Fraction(DistinctCount(responses) - 1, MaxInt(|responses| - 1, 1));
    }
  }

  /** With at least two responses the score is 0 exactly when they are
      pairwise different. */
  lemma ScoreZero(responses: seq<string>)
    requires |responses| >= 2
    ensures ConsistencyScore(responses) == 0.0 <==> Distinct(responses)
  {
    DistinctBounds(responses);
    Fraction(DistinctCount(responses) - 1, |responses| - 1);
  }

  // ---------------------------------------------------------------------
  // The matrix report
  // ---------------------------------------------------------------------

  /** The status column of the summary. */
  datatype Rating = Good | Fair | Poor

  function RatingOf(score: real): (r: Rating)
    ensures r == Good <==> score >= 0.8
    ensures r == Poor <==> score < 0.6
    ensures r == Fair <==> 0.6 <= score < 0.8
  {
    if score >= 0.8 then Good else if score < 0.6 then Poor else Fair
  }

  /** The result of one prompt/scenario combination: its responses, its
      score and the directory its runs were saved to, if recorded. */
  datatype ScenarioResult = ScenarioResult(responses: seq<string>, score: real, runs: nat, testDir: Option<string>)

  /** `result.get('test_dir', '')`. */
  function TestDirOf(r: ScenarioResult): string {
    r.testDir.GetOr("")
  }

  /** One summary entry: the score, its status and the test directory.
      The report holds the score as the text `f"{score:.2%}"`; here it is
      the number that text shows, since float formatting is not modelled. */
  datatype SummaryEntry = SummaryEntry(consistency: real, status: Rating, testDir: string)

  /** One recommendation: the combination to review, its score and where
      its runs are. The report holds it as the sentence "Review {key} - low
      consistency ({score:.2%}) - check {test_dir}"; here it is the three
      values that sentence is made from. */
  datatype Recommendation = Recommendation(key: string, score: real, testDir: string)

  datatype Report = Report(summary: Dict<SummaryEntry>, details: Dict<ScenarioResult>, recommendations: seq<Recommendation>)

  function EntryOf(r: ScenarioResult): SummaryEntry {
    SummaryEntry(r.score, RatingOf(r.score), TestDirOf(r))
  }

  /** The recommendations for the results in order: one for every result
      scoring below 0.6. */
  function LowScores(results: Dict<ScenarioResult>): seq<Recommendation> {
    if |results| == 0 then []
    else
      var (key, r) := results[|results| - 1];
      LowScores(results[..|results| - 1]) +
      (if r.score < 0.6 then [Recommendation(key, r.score, TestDirOf(r))] else [])
  }

  lemma LowScoresStep(results: Dict<ScenarioResult>, i: nat)
    requires i < |results|
    ensures var (key, r) := results[i];
      LowScores(results[..i + 1]) ==
      LowScores(results[..i]) + (if r.score < 0.6 then [Recommendation(key, r.score, TestDirOf(r))] else [])
  {
    assert results[..i + 1][..i] == results[..i];
  }

  /** `_generate_matrix_report`: the summary has one entry per result, under
      the same key and in the same order, rated by its score; the details
      are the results; the recommendations are the low scores. */
  method GenerateMatrixReport(results: Dict<ScenarioResult>) returns (report: Report)
    requires DistinctKeys(results)
    ensures |report.summary| == |results|
    ensures forall i :: 0 <= i < |results| ==> report.summary[i] == (results[i].0, EntryOf(results[i].1))
    ensures report.details == results
    ensures report.recommendations == LowScores(results)
  {
    var summary: Dict<SummaryEntry> := [];
    var recommendations: seq<Recommendation> := [];
    var i := 0;
    while i < |results|
      invariant 0 <= i <= |results|
      invariant |summary| == i
      invariant forall j :: 0 <= j < i ==> summary[j] == (results[j].0, EntryOf(results[j].1))
      invariant recommendations == LowScores(results[..i])
    {
      var (key, result) := results[i];
      var score := result.score;
      assert KeyIndex(summary, key) == None by {
        assert forall j :: 0 <= j < i ==> summary[j].0 != key;
      }
      summary := Put(summary, key, SummaryEntry(score, RatingOf(score), TestDirOf(result)));
      LowScoresStep(results, i);
      if score < 0.6 {
        recommendations := recommendations + [Recommendation(key, score, TestDirOf(result))];
      }
      i := i + 1;
    }
    assert results[..|results|] == results;
    report := Report(summary, results, recommendations);
  }

  /** `key` has a recommendation in `recs`. */
  predicate Recommended(recs: seq<Recommendation>, key: string) {
    exists k :: 0 <= k < |recs| && recs[k].key == key
  }

  /** `rec` is for some result scoring below 0.6, with that result's
      score and directory. */
  predicate ForLowScore(rec: Recommendation, results: Dict<ScenarioResult>) {
    exists i :: 0 <= i < |results| && results[i].0 == rec.key && results[i].1.score < 0.6 &&
      rec.score == results[i].1.score && rec.testDir == TestDirOf(results[i].1)
  }

  /** Every recommendation is for a result scoring below 0.6, with that
      result's score and directory. */
  lemma {:induction false} LowScoresSound(results: Dict<ScenarioResult>)
    ensures forall k :: 0 <= k < |LowScores(results)| ==> ForLowScore(LowScores(results)[k], results)
  {
    if |results| > 0 {
      var init := results[..|results| - 1];
      LowScoresSound(init);
      var p := LowScores(init);
      var r := LowScores(results);
      forall k | 0 <= k < |r| ensures ForLowScore(r[k], results) {
        if k < |p| {
          assert r[k] == p[k];
          assert ForLowScore(p[k], init);
          var i :| 0 <= i < |init| && init[i].0 == p[k].key && init[i].1.score < 0.6 &&
            p[k].score == init[i].1.score && p[k].testDir == TestDirOf(init[i].1);
          assert results[i] == init[i];
        } else {
          assert results[|results| - 1].0 == r[k].key;
        }
      }
    }
  }

  /** Every result scoring below 0.6 has a recommendation. */
  lemma {:induction false} LowScoresComplete(results: Dict<ScenarioResult>)
    ensures forall i :: 0 <= i < |results| && results[i].1.score < 0.6 ==>
      Recommended(LowScores(results), results[i].0)
  {
    if |results| > 0 {
      var init := results[..|results| - 1];
      LowScoresComplete(init);
      var p := LowScores(init);
      var r := LowScores(results);
      forall i | 0 <= i < |results| && results[i].1.score < 0.6
        ensures Recommended(r, results[i].0)
      {
        if i < |init| {
          assert init[i] == results[i];
          assert Recommended(p, init[i].0);
          var k :| 0 <= k < |p| && p[k].key == init[i].0;
          assert r[k] == p[k];
        } else {
          assert r[|r| - 1].key == results[i].0;
        }
      }
    }
  }

  /** With distinct keys, a key is recommended exactly when its result
      scores below 0.6. */
  lemma RecommendedExactly(results: Dict<ScenarioResult>, i: nat)
    requires DistinctKeys(results) && i < |results|
    ensures Recommended(LowScores(results), results[i].0) <==> results[i].1.score < 0.6
  {
    LowScoresSound(results);
    LowScoresComplete(results);
    if Recommended(LowScores(results), results[i].0) {
      var k :| 0 <= k < |LowScores(results)| && LowScores(results)[k].key == results[i].0;
      assert ForLowScore(LowScores(results)[k], results);
      var j :| 0 <= j < |results| && results[j].0 == LowScores(results)[k].key && results[j].1.score < 0.6;
      assert i == j;
    }
  }

  // ---------------------------------------------------------------------
  // The consensus response
  // ---------------------------------------------------------------------

  /** `find_consensus_response`: the first response, in order of first
      occurrence, among those occurring most often; `None` where
      `most_common(1)[0]` fails on an empty list. */
  function Consensus(responses: seq<string>): Option<string> {
    if |responses| == 0 then None
    else
      var counts := Tally(responses);
      TallyKeys(responses);
      DedupSingle(responses);
      Some(counts[MaxIndex(counts)].0)
  }

  /** The consensus is a response that occurs at least as often as any
      other, and among the responses occurring as often it is the one
      seen first. There is one exactly when there are responses. */
  lemma ConsensusLaws(responses: seq<string>)
    ensures Consensus(responses).None? <==> |responses| == 0
    ensures Consensus(responses).Some? ==>
      var c := Consensus(responses).value;
      c in responses &&
      (forall x :: Count(responses, x) <= Count(responses, c)) &&
      (forall x :: x in responses && Count(responses, x) == Count(responses, c) ==>
        FirstPos(responses, c) <= FirstPos(responses, x))
  {
    if |responses| > 0 {
      var d := Tally(responses);
      TallyKeys(responses);
      DedupSingle(responses);
      TallyLaws(responses);
      var m := MaxIndex(d);
      var c := d[m].0;
      UniqueIndex(d, c, m);
      assert c in responses && d[m].1 == Count(responses, c) by {
        assert Lookup(d, c) == Some(d[m].1);
      }
      forall x ensures Count(responses, x) <= Count(responses, c) {
        if x in responses {
          var j := KeyIndex(d, x).value;
          assert Lookup(d, x) == Some(d[j].1);
        }
      }
      forall x | x in responses && Count(responses, x) == Count(responses, c)
        ensures FirstPos(responses, c) <= FirstPos(responses, x)
      {
        var j := KeyIndex(d, x).value;
        assert Lookup(d, x) == Some(d[j].1);
        if FirstPos(responses, x) < FirstPos(responses, c) {
          DedupOrder(responses, x, c, j, m);
        }
      }
    }
  }

  // ---------------------------------------------------------------------
  // Regressions
  // ---------------------------------------------------------------------

  /** How far below its baseline a score may fall before it is a
      regression. */
  const RegressionThreshold: real := 0.1

  /** The prompt variants the regression run tries. */
  const AvailablePrompts: seq<string> := ["basic", "diy_renovation"]

  /** A value stored under a key of the score file, as the comparison
      `baseline_score > 0` sees it: a number (JSON true and false count as
      1 and 0 there) or anything else (null, a string, a list, an object),
      which that comparison refuses with a TypeError. */
  datatype ScoreValue = Number(value: real) | NotNumber

  /** The baseline score file of one combination: missing, unreadable
      (not JSON, or JSON that is not an object, so `json.load` or `.get`
      raises), or an object. */
  datatype ScoreFile = Absent | Unreadable | Stored(data: Dict<ScoreValue>)

  /** `load_baseline_score` followed by the comparison with 0: the stored
      score, 0 when the file is missing or has no `consistency_score`
      entry, and `None` where loading or comparing raises. */
  function BaselineScore(file: ScoreFile): Option<real> {
    match file
    case Absent => Some(0.0)
    case Unreadable => None
    case Stored(data) =>
      var entry: Option<ScoreValue> := Lookup(data, "consistency_score");
      if entry.None? then Some(0.0)
      else if entry.value.Number? then Some(entry.value.value)
      else None
  }

  /** The baseline raises exactly for an unreadable file or a stored score
      that is not a number, and is otherwise the stored number or 0. */
  lemma BaselineLaws(file: ScoreFile)
    ensures BaselineScore(file).None? <==>
      file.Unreadable? || (file.Stored? && Lookup(file.data, "consistency_score") == Some(NotNumber))
    ensures file.Stored? && Lookup(file.data, "consistency_score").Some? && Lookup(file.data, "consistency_score").value.Number? ==>
      BaselineScore(file) == Some(Lookup(file.data, "consistency_score").value.value)
  {
  }

  /** The condition of `detect_regressions`: a positive baseline and a
      current score more than the threshold below it. */
  predicate IsRegression(current: real, baseline: real) {
    baseline > 0.0 && current < baseline - RegressionThreshold
  }

  /** Without a stored score nothing is ever a regression. */
  lemma MissingBaselineNeverRegresses(current: real, file: ScoreFile)
    requires file.Absent? || (file.Stored? && Lookup(file.data, "consistency_score").None?)
    ensures BaselineScore(file) == Some(0.0)
    ensures !IsRegression(current, BaselineScore(file).value)
  {
  }

  /** A regression is a drop of more than 0.1 from a positive baseline; a
      score no lower than the baseline, or any lower score once the
      baseline has regressed, behaves accordingly. */
  lemma RegressionLaws(current: real, baseline: real, lower: real)
    requires lower <= current
    ensures IsRegression(current, baseline) <==> baseline > 0.0 && baseline - current > 0.1
    ensures current >= baseline ==> !IsRegression(current, baseline)
    ensures IsRegression(current, baseline) ==> IsRegression(lower, baseline)
  {
  }

  /** What one combination prints: an alert, a pass line, or a failure
      when anything inside the `try` raised. */
  datatype Outcome =
    | Alert(prompt: string, scenario: string, current: real, baseline: real)
    | Pass(prompt: string, scenario: string, current: real, baseline: real)
    | Failed(prompt: string, scenario: string)

  /** The outcome for one combination, given the measured score (`None` when
      running the test raised) and the baseline score file. The `try`
      covers measuring, loading the baseline and comparing, so a failure of
      any of them gives the failure line. */
  function OutcomeOf(prompt: string, scenario: string, measured: Option<real>, file: ScoreFile): (o: Outcome)
    ensures o.prompt == prompt && o.scenario == scenario
    ensures o.Failed? <==>
      measured.None? || file.Unreadable? || (file.Stored? && Lookup(file.data, "consistency_score") == Some(NotNumber))
    ensures o.Alert? <==>
      measured.Some? && BaselineScore(file).Some? && IsRegression(measured.value, BaselineScore(file).value)
    ensures !o.Failed? ==> o.current == measured.value && Some(o.baseline) == BaselineScore(file)
  {
    BaselineLaws(file);
    match measured
    case None => Failed(prompt, scenario)
    case Some(current) =>
      match BaselineScore(file)
      case None => Failed(prompt, scenario)
      case Some(baseline) =>
        if IsRegression(current, baseline) then Alert(prompt, scenario, current, baseline)
        else Pass(prompt, scenario, current, baseline)
  }

  /** The outcomes for one scenario, prompt by prompt. */
  function RowOutcomes(scenario: string, prompts: seq<string>,
                       measure: (string, string) -> Option<real>,
                       stored: (string, string) -> ScoreFile): seq<Outcome>
  {
    if |prompts| == 0 then []
    else
      var p := prompts[|prompts| - 1];
      RowOutcomes(scenario, prompts[..|prompts| - 1], measure, stored) +
      [OutcomeOf(p, scenario, measure(p, scenario), stored(p, scenario))]
  }

  /** The outcomes of the whole run, scenario by scenario. */
  function RunOutcomes(scenarios: seq<string>, prompts: seq<string>,
                       measure: (string, string) -> Option<real>,
                       stored: (string, string) -> ScoreFile): seq<Outcome>
  {
    if |scenarios| == 0 then []
    else
      RunOutcomes(scenarios[..|scenarios| - 1], prompts, measure, stored) +
      RowOutcomes(scenarios[|scenarios| - 1], prompts, measure, stored)
  }

  /** `detect_regressions`: every scenario against every prompt variant.
      `measure` runs the consistency test (`None` when it raises) and
      `stored` is what each baseline score file holds. */
  method DetectRegressions(scenarios: seq<string>,
                           measure: (string, string) -> Option<real>,
                           stored: (string, string) -> ScoreFile)
    returns (outcomes: seq<Outcome>)
    ensures outcomes == RunOutcomes(scenarios, AvailablePrompts, measure, stored)
  {
    var prompts := AvailablePrompts;
    outcomes := [];
    var i := 0;
    while i < |scenarios|
      invariant 0 <= i <= |scenarios|
      invariant outcomes == RunOutcomes(scenarios[..i], prompts, measure, stored)
    {
      var scenario := scenarios[i];
      var row: seq<Outcome> := [];
      var j := 0;
      while j < |prompts|
        invariant 0 <= j <= |prompts|
        invariant row == RowOutcomes(scenario, prompts[..j], measure, stored)
      {
        var prompt := prompts[j];
        assert prompts[..j + 1][..j] == prompts[..j];
        var current := measure(prompt, scenario);
        var outcome := OutcomeOf(prompt, scenario, current, stored(prompt, scenario));
        row := row + [outcome];
        j := j + 1;
      }
      assert prompts[..|prompts|] == prompts;
      assert scenarios[..i + 1][..i] == scenarios[..i];
      outcomes := outcomes + row;
      i := i + 1;
    }
    assert scenarios[..|scenarios|] == scenarios;
  }

  /** The outcomes of one row are for that scenario, one per prompt, in
      order, and alert exactly on regressions. */
  lemma {:induction false} RowLaws(scenario: string, prompts: seq<string>,
                                   measure: (string, string) -> Option<real>,
                                   stored: (string, string) -> ScoreFile)
    ensures |RowOutcomes(scenario, prompts, measure, stored)| == |prompts|
    ensures forall j :: 0 <= j < |prompts| ==>
      RowOutcomes(scenario, prompts, measure, stored)[j] ==
      OutcomeOf(prompts[j], scenario, measure(prompts[j], scenario), stored(prompts[j], scenario))
  {
    if |prompts| > 0 {
      RowLaws(scenario, prompts[..|prompts| - 1], measure, stored);
    }
  }

  /** One more row of width `w`. */
  lemma RowWidth(n: nat, w: nat)
    requires n >= 1
    ensures (n - 1) * w + w == n * w
  {
  }

  /** `o` is the outcome of its own combination. */
  predicate OutcomeOfCombination(o: Outcome, measure: (string, string) -> Option<real>,
                                 stored: (string, string) -> ScoreFile)
  {
    o == OutcomeOf(o.prompt, o.scenario, measure(o.prompt, o.scenario), stored(o.prompt, o.scenario))
  }

  /** The combination of `scenario` and `prompt` has an outcome in `os`. */
  predicate Measured(os: seq<Outcome>, scenario: string, prompt: string) {
    exists k :: 0 <= k < |os| && os[k].scenario == scenario && os[k].prompt == prompt
  }

  /** The run has one outcome per scenario and prompt. */
  lemma {:induction false} RunLength(scenarios: seq<string>, prompts: seq<string>,
                                     measure: (string, string) -> Option<real>,
                                     stored: (string, string) -> ScoreFile)
    ensures |RunOutcomes(scenarios, prompts, measure, stored)| == |scenarios| * |prompts|
  {
    if |scenarios| > 0 {
      RunLength(scenarios[..|scenarios| - 1], prompts, measure, stored);
      RowLaws(scenarios[|scenarios| - 1], prompts, measure, stored);
      RowWidth(|scenarios|, |prompts|);
    }
  }

  /** Every outcome is for a scenario and a prompt of the run, and is the
      outcome of that combination: an alert exactly on a regression. */
  lemma {:induction false} RunSound(scenarios: seq<string>, prompts: seq<string>,
                                    measure: (string, string) -> Option<real>,
                                    stored: (string, string) -> ScoreFile)
    ensures forall k :: 0 <= k < |RunOutcomes(scenarios, prompts, measure, stored)| ==>
      RunOutcomes(scenarios, prompts, measure, stored)[k].scenario in scenarios &&
      RunOutcomes(scenarios, prompts, measure, stored)[k].prompt in prompts &&
      OutcomeOfCombination(RunOutcomes(scenarios, prompts, measure, stored)[k], measure, stored)
  {
    if |scenarios| > 0 {
      var init := scenarios[..|scenarios| - 1];
      var last := scenarios[|scenarios| - 1];
      RunSound(init, prompts, measure, stored);
      RowLaws(last, prompts, measure, stored);
      var o := RunOutcomes(scenarios, prompts, measure, stored);
      var p := RunOutcomes(init, prompts, measure, stored);
      var row := RowOutcomes(last, prompts, measure, stored);
      assert o == p + row;
      forall k | 0 <= k < |o|
        ensures o[k].scenario in scenarios && o[k].prompt in prompts && OutcomeOfCombination(o[k], measure, stored)
      {
        if k < |p| {
          assert o[k] == p[k];
          assert p[k].scenario in init;
        } else {
          assert o[k] == row[k - |p|];
          assert prompts[k - |p|] in prompts;
        }
      }
    }
  }

  /** Every combination of a scenario and a prompt gets an outcome. */
  lemma {:induction false} RunComplete(scenarios: seq<string>, prompts: seq<string>,
                                       measure: (string, string) -> Option<real>,
                                       stored: (string, string) -> ScoreFile)
    ensures forall i, j :: 0 <= i < |scenarios| && 0 <= j < |prompts| ==>
      Measured(RunOutcomes(scenarios, prompts, measure, stored), scenarios[i], prompts[j])
  {
    if |scenarios| > 0 {
      var init := scenarios[..|scenarios| - 1];
      var last := scenarios[|scenarios| - 1];
      RunComplete(init, prompts, measure, stored);
      RowLaws(last, prompts, measure, stored);
      var o := RunOutcomes(scenarios, prompts, measure, stored);
      var p := RunOutcomes(init, prompts, measure, stored);
      var row := RowOutcomes(last, prompts, measure, stored);
      assert o == p + row;
      forall i, j | 0 <= i < |scenarios| && 0 <= j < |prompts|
        ensures Measured(o, scenarios[i], prompts[j])
      {
        if i < |init| {
          assert init[i] == scenarios[i];
          assert Measured(p, init[i], prompts[j]);
          var k :| 0 <= k < |p| && p[k].scenario == init[i] && p[k].prompt == prompts[j];
          assert o[k] == p[k];
        } else {
          assert o[|p| + j] == row[j];
        }
      }
    }
  }
}
