/** The computations of the prompt-consistency page
    (pages/consistency_test.py): normalising a response text before it is
    compared, the status of a similarity score, the responses singled out
    for review, and the grouping of responses by their normalised text.
    The similarity ratio itself (difflib) is a parameter. */
module Consistency {
  import opened Wrappers
  import opened Text
  import opened Dicts
  import opened Counting

  // ---------------------------------------------------------------------
  // normalize_response_text
  // ---------------------------------------------------------------------

  /** A line the normaliser keeps: stripped, non-empty, not a '#' comment. */
  predicate KeptLine(l: string) {
    l != [] && IsStripped(l) && '\n' !in l && !StartsWith(l, "#")
  }

  /** A stripped line the normaliser keeps: non-empty, not a '#' comment. */
  predicate Keeps(l: string) {
    l != [] && !StartsWith(l, "#")
  }

  /** The stripped lines without the blank and the comment ones. */
  function DropComments(ls: seq<string>): seq<string> {
    if |ls| == 0 then []
    else
      var l := ls[|ls| - 1];
      DropComments(ls[..|ls| - 1]) + (if Keeps(l) then [l] else [])
  }

  /** The lines kept from `lines`: each one stripped, and the blank ones
      and the ones starting with '#' (after stripping) dropped. */
  function KeptLines(lines: seq<string>): seq<string> {
    if |lines| == 0 then []
    else
      var l := Strip(lines[|lines| - 1]);
      KeptLines(lines[..|lines| - 1]) + (if Keeps(l) then [l] else [])
  }

  /** The lines the normaliser walks: the stripped text split at '\n'. */
  function RawLines(text: string): seq<string> {
    Split(Strip(text), '\n')
  }

  /** What `normalize_response_text` returns. */
  function Normalized(text: string): string {
    Join(KeptLines(RawLines(text)), '\n')
  }

  /** One more raw line: its stripped form is appended when it is kept. */
  lemma KeptLinesStep(lines: seq<string>, i: nat)
    requires i < |lines|
    ensures var l := Strip(lines[i]);
      KeptLines(lines[..i + 1]) == KeptLines(lines[..i]) + (if Keeps(l) then [l] else [])
  {
    assert lines[..i + 1][..i] == lines[..i];
  }

  lemma TakeAll<T>(s: seq<T>)
    ensures s[..|s|] == s
  {
  }

  /** The loop of `normalize_response_text`: each raw line stripped and
      collected unless blank or a comment. */
  method CollectKeptLines(raw: seq<string>) returns (lines: seq<string>)
    ensures lines == KeptLines(raw)
  {
    lines := [];
    var i := 0;
    while i < |raw|
      invariant 0 <= i <= |raw|
      invariant lines == KeptLines(raw[..i])
    {
      KeptLinesStep(raw, i);
      var line := Strip(raw[i]);
      if Keeps(line) {
        lines := lines + [line];
      }
      i := i + 1;
    }
    TakeAll(raw);
  }

  /** `normalize_response_text`: the kept lines joined by '\n'. */
  method NormalizeResponseText(text: string) returns (r: string)
    ensures r == Normalized(text)
  {
    var lines := CollectKeptLines(Split(Strip(text), '\n'));
    r := Join(lines, '\n');
  }

  /** Dropping keeps exactly the lines that are kept, in order. */
  lemma {:induction false} DropCommentsMembers(ls: seq<string>)
    ensures forall x :: x in DropComments(ls) <==> x in ls && Keeps(x)
  {
    if |ls| > 0 {
      DropCommentsMembers(ls[..|ls| - 1]);
      assert ls == ls[..|ls| - 1] + [ls[|ls| - 1]];
    }
  }

  /** Nothing is dropped from lines that are all kept. */
  lemma {:induction false} DropNothing(ls: seq<string>)
    requires forall k :: 0 <= k < |ls| ==> Keeps(ls[k])
    ensures DropComments(ls) == ls
  {
    if |ls| > 0 {
      DropNothing(ls[..|ls| - 1]);
      assert ls[..|ls| - 1] + [ls[|ls| - 1]] == ls;
    }
  }

  /** Keeping line by line is stripping every line, then dropping. */
  lemma {:induction false} KeptLinesAsDrop(lines: seq<string>)
    ensures KeptLines(lines) == DropComments(StripAll(lines))
  {
    if |lines| > 0 {
      var init := lines[..|lines| - 1];
      var l := Strip(lines[|lines| - 1]);
      KeptLinesAsDrop(init);
      var s := StripAll(lines);
      assert s[..|s| - 1] == StripAll(init);
      assert s[|s| - 1] == l;
      calc {
        KeptLines(lines);
        KeptLines(init) + (if Keeps(l) then [l] else []);
        DropComments(StripAll(init)) + (if Keeps(l) then [l] else []);
        DropComments(s);
      }
    }
  }

  /** `x` is what the normaliser keeps of `line`. */
  predicate KeepsAs(line: string, x: string) {
    x == Strip(line) && Keeps(x)
  }

  /** Exactly the blank lines and the '#' lines are dropped: a string is
      kept iff it is the stripped form of some line that is neither. */
  lemma KeptLinesMembers(lines: seq<string>)
    ensures forall x :: x in KeptLines(lines) <==> exists k :: 0 <= k < |lines| && KeepsAs(lines[k], x)
  {
    var s := StripAll(lines);
    KeptLinesAsDrop(lines);
    DropCommentsMembers(s);
    forall x | x in KeptLines(lines)
      ensures exists k :: 0 <= k < |lines| && KeepsAs(lines[k], x)
    {
      var k :| 0 <= k < |s| && s[k] == x;
      assert KeepsAs(lines[k], x);
    }
    forall x | exists k :: 0 <= k < |lines| && KeepsAs(lines[k], x)
      ensures x in KeptLines(lines)
    {
      var k :| 0 <= k < |lines| && KeepsAs(lines[k], x);
      assert s[k] == x;
    }
  }

  /** Every kept line is stripped, non-empty, on one line and not a
      comment, when the raw lines are free of '\n'. */
  lemma {:induction false} KeptLinesAreKept(lines: seq<string>)
    requires forall k :: 0 <= k < |lines| ==> '\n' !in lines[k]
    ensures forall k :: 0 <= k < |KeptLines(lines)| ==> KeptLine(KeptLines(lines)[k])
  {
    if |lines| > 0 {
      KeptLinesAreKept(lines[..|lines| - 1]);
      StripInherits(lines[|lines| - 1], '\n');
    }
  }

  /** Kept lines are kept again unchanged. */
  lemma KeptLinesOfKept(lines: seq<string>)
    requires forall k :: 0 <= k < |lines| ==> KeptLine(lines[k])
    ensures KeptLines(lines) == lines
  {
    var s := StripAll(lines);
    forall k | 0 <= k < |lines| ensures s[k] == lines[k] {
      StrippedIsFixed(lines[k]);
    }
    assert s == lines;
    DropNothing(lines);
    KeptLinesAsDrop(lines);
  }

  /** Kept lines joined by '\n' split back into the same lines. */
  lemma JoinedKeptLines(kept: seq<string>)
    requires forall k :: 0 <= k < |kept| ==> KeptLine(kept[k])
    ensures kept != [] ==> Split(Join(kept, '\n'), '\n') == kept
    ensures kept == [] ==> Join(kept, '\n') == ""
  {
    if kept != [] {
      SplitJoin(kept, '\n');
    }
  }

  /** The lines of a normalised text are exactly the kept lines: every one
      stripped, non-empty and not a comment, in input order. */
  lemma NormalizedLines(text: string)
    ensures forall k :: 0 <= k < |KeptLines(RawLines(text))| ==> KeptLine(KeptLines(RawLines(text))[k])
    ensures KeptLines(RawLines(text)) != [] ==> Split(Normalized(text), '\n') == KeptLines(RawLines(text))
    ensures KeptLines(RawLines(text)) == [] ==> Normalized(text) == ""
  {
    KeptLinesAreKept(RawLines(text));
    JoinedKeptLines(KeptLines(RawLines(text)));
  }

  /** A text made of kept lines is its own normal form. */
  lemma NormalOfKept(kept: seq<string>)
    requires forall k :: 0 <= k < |kept| ==> KeptLine(kept[k])
    ensures Normalized(Join(kept, '\n')) == Join(kept, '\n')
  {
    var n := Join(kept, '\n');
    if kept == [] {
      assert RawLines(n) == [""];
      assert KeptLines([""]) == KeptLines([""][..0]);
    } else {
      assert RawLines(n) == kept by {
        JoinOfLines(kept, '\n');
        StrippedIsFixed(n);
        SplitJoin(kept, '\n');
      }
      KeptLinesOfKept(kept);
    }
  }

  /** Normalising twice is normalising once. */
  lemma NormalizeIdempotent(text: string)
    ensures Normalized(Normalized(text)) == Normalized(text)
  {
    KeptLinesAreKept(RawLines(text));
    NormalOfKept(KeptLines(RawLines(text)));
  }

  /** `calculate_similarity_score`: the ratio of the two normalised texts;
      the ratio itself is a parameter. */
  function SimilarityScore(ratio: (string, string) -> real, expected: string, actual: string): real {
    ratio(Normalized(expected), Normalized(actual))
  }

  /** Comparing an already normalised text gives the same score: the
      score depends on the texts only through their normal forms. */
  lemma SimilarityOfNormalized(ratio: (string, string) -> real, expected: string, actual: string)
    ensures SimilarityScore(ratio, Normalized(expected), actual) == SimilarityScore(ratio, expected, actual)
    ensures SimilarityScore(ratio, expected, Normalized(actual)) == SimilarityScore(ratio, expected, actual)
  {
    NormalizeIdempotent(expected);
    NormalizeIdempotent(actual);
  }

  // ---------------------------------------------------------------------
  // The results table and the responses to review
  // ---------------------------------------------------------------------

  /** The status column: good from 0.8, medium from 0.6, else poor. */
  datatype Status = Good | Medium | Poor

  function StatusOf(similarity: real): (s: Status)
    ensures s == Good <==> similarity >= 0.8
    ensures s == Medium <==> 0.6 <= similarity < 0.8
    ensures s == Poor <==> similarity < 0.6
  {
    if similarity >= 0.8 then Good else if similarity >= 0.6 then Medium else Poor
  }

  /** One response singled out for a detailed diff: its 0-based position,
      the response and its similarity. */
  datatype Review = Review(index: nat, response: string, similarity: real)

  /** The responses paired with their similarities, as `zip` pairs them:
      the shorter list decides how many pairs there are. */
  function Paired(responses: seq<string>, similarities: seq<real>): nat {
    if |responses| <= |similarities| then |responses| else |similarities|
  }

  /** The reviews among the first `n` pairs. */
  function ReviewsUpTo(responses: seq<string>, similarities: seq<real>, n: nat): seq<Review>
    requires n <= |responses| && n <= |similarities|
  {
    if n == 0 then []
    else
      ReviewsUpTo(responses, similarities, n - 1) +
      (if similarities[n - 1] < 0.8 then [Review(n - 1, responses[n - 1], similarities[n - 1])] else [])
  }

  /** `poor_responses`: the pairs whose similarity is below 0.8. */
  function PoorResponses(responses: seq<string>, similarities: seq<real>): seq<Review> {
    ReviewsUpTo(responses, similarities, Paired(responses, similarities))
  }

  /** `r` names one of the first `n` pairs, with its own response and
      similarity, and that similarity's status is not good. */
  predicate IsReviewOf(r: Review, responses: seq<string>, similarities: seq<real>, n: nat) {
    r.index < n && r.index < |responses| && r.index < |similarities| &&
    r.response == responses[r.index] && r.similarity == similarities[r.index] &&
    StatusOf(r.similarity) != Good
  }

  /** Every review names a paired response whose status is not good, with
      its own response and similarity. */
  lemma {:induction false} ReviewsSound(responses: seq<string>, similarities: seq<real>, n: nat)
    requires n <= |responses| && n <= |similarities|
    ensures forall k :: 0 <= k < |ReviewsUpTo(responses, similarities, n)| ==>
      IsReviewOf(ReviewsUpTo(responses, similarities, n)[k], responses, similarities, n)
  {
    if n > 0 {
      ReviewsSound(responses, similarities, n - 1);
      var r := ReviewsUpTo(responses, similarities, n);
      var p := ReviewsUpTo(responses, similarities, n - 1);
      assert r == p + (if similarities[n - 1] < 0.8 then [Review(n - 1, responses[n - 1], similarities[n - 1])] else []);
      forall k | 0 <= k < |r|
        ensures IsReviewOf(r[k], responses, similarities, n)
      {
        if k < |p| {
          assert r[k] == p[k];
        }
      }
    }
  }

  /** The reviews are in the order of the responses, without repeats. */
  lemma {:induction false} ReviewsOrdered(responses: seq<string>, similarities: seq<real>, n: nat)
    requires n <= |responses| && n <= |similarities|
    ensures forall k, l :: 0 <= k < l < |ReviewsUpTo(responses, similarities, n)| ==>
      ReviewsUpTo(responses, similarities, n)[k].index < ReviewsUpTo(responses, similarities, n)[l].index
  {
    if n > 0 {
      ReviewsOrdered(responses, similarities, n - 1);
      ReviewsSound(responses, similarities, n - 1);
      var r := ReviewsUpTo(responses, similarities, n);
      var p := ReviewsUpTo(responses, similarities, n - 1);
      assert r == p + (if similarities[n - 1] < 0.8 then [Review(n - 1, responses[n - 1], similarities[n - 1])] else []);
      forall k, l | 0 <= k < l < |r| ensures r[k].index < r[l].index {
        assert r[k] == p[k];
        if l < |p| {
          assert r[l] == p[l];
        }
      }
    }
  }

  /** Position `i` has a review in `rs`. */
  predicate UnderReview(rs: seq<Review>, i: nat) {
    exists k :: 0 <= k < |rs| && rs[k].index == i
  }

  /** Every paired response whose status is not good is under review. */
  lemma {:induction false} ReviewsComplete(responses: seq<string>, similarities: seq<real>, n: nat)
    requires n <= |responses| && n <= |similarities|
    ensures forall i :: 0 <= i < n && StatusOf(similarities[i]) != Good ==>
      UnderReview(ReviewsUpTo(responses, similarities, n), i)
  {
    if n > 0 {
      ReviewsComplete(responses, similarities, n - 1);
      var r := ReviewsUpTo(responses, similarities, n);
      var p := ReviewsUpTo(responses, similarities, n - 1);
      assert r == p + (if similarities[n - 1] < 0.8 then [Review(n - 1, responses[n - 1], similarities[n - 1])] else []);
      forall i | 0 <= i < n && StatusOf(similarities[i]) != Good
        ensures UnderReview(r, i)
      {
        if i < n - 1 {
          assert UnderReview(p, i);
          var k :| 0 <= k < |p| && p[k].index == i;
          assert r[k] == p[k];
        } else {
          assert r[|r| - 1].index == i;
        }
      }
    }
  }

  /** The review list as the page builds it, for every pair `zip` makes:
      exactly the paired responses whose status is not good, in order. */
  lemma PoorResponsesExactly(responses: seq<string>, similarities: seq<real>)
    ensures Paired(responses, similarities) <= |responses| && Paired(responses, similarities) <= |similarities|
    ensures forall k :: 0 <= k < |PoorResponses(responses, similarities)| ==>
      IsReviewOf(PoorResponses(responses, similarities)[k], responses, similarities, Paired(responses, similarities))
    ensures forall k, l :: 0 <= k < l < |PoorResponses(responses, similarities)| ==>
      PoorResponses(responses, similarities)[k].index < PoorResponses(responses, similarities)[l].index
    ensures forall i :: 0 <= i < Paired(responses, similarities) && StatusOf(similarities[i]) != Good ==>
      UnderReview(PoorResponses(responses, similarities), i)
  {
    var n := Paired(responses, similarities);
    ReviewsSound(responses, similarities, n);
    ReviewsOrdered(responses, similarities, n);
    ReviewsComplete(responses, similarities, n);
  }

  // ---------------------------------------------------------------------
  // response_counts
  // ---------------------------------------------------------------------

  /** Every response normalised. */
  function NormalizedAll(responses: seq<string>): (r: seq<string>)
    ensures |r| == |responses| && forall k :: 0 <= k < |responses| ==> r[k] == Normalized(responses[k])
  {
    seq(|responses|, k requires 0 <= k < |responses| => Normalized(responses[k]))
  }

  /** The grouping loop: each response's normal form is counted. */
  method ResponseCounts(responses: seq<string>) returns (counts: Dict<nat>)
    ensures counts == Tally(NormalizedAll(responses))
  {
    var all := NormalizedAll(responses);
    counts := [];
    var i := 0;
    while i < |responses|
      invariant 0 <= i <= |responses|
      invariant counts == Tally(all[..i])
    {
      var normalized := NormalizeResponseText(responses[i]);
      TallyStep(all, i, counts, normalized);
      counts := Put(counts, normalized, Lookup(counts, normalized).GetOr(0) + 1);
      i := i + 1;
    }
    TakeAll(all);
  }

  /** The groups: one key per distinct normal form, in order of first
      occurrence, each mapped to the number of responses with that form;
      the counts add up to the number of responses. */
  lemma ResponseCountsLaws(responses: seq<string>)
    ensures var counts := Tally(NormalizedAll(responses));
      DistinctKeys(counts) &&
      Keys(counts) == Dedup(NormalizedAll(responses)) &&
      (forall t :: Lookup(counts, t) ==
        if t in NormalizedAll(responses) then Some(Count(NormalizedAll(responses), t)) else None) &&
      CountsFrom(counts) == |responses|
  {
    TallyLaws(NormalizedAll(responses));
    TallyKeys(NormalizedAll(responses));
    TallySum(NormalizedAll(responses));
  }

  /** "Perfect consistency": a single group exactly when all responses
      normalise to the same text. */
  lemma PerfectConsistency(responses: seq<string>)
    requires |responses| > 0
    ensures |Tally(NormalizedAll(responses))| == 1 <==>
      forall i, j :: 0 <= i < |responses| && 0 <= j < |responses| ==> Normalized(responses[i]) == Normalized(responses[j])
  {
    TallySingleKey(NormalizedAll(responses));
    if AllSame(NormalizedAll(responses)) {
      forall i, j | 0 <= i < |responses| && 0 <= j < |responses|
        ensures Normalized(responses[i]) == Normalized(responses[j])
      {
        assert NormalizedAll(responses)[i] == NormalizedAll(responses)[j];
      }
    }
  }
}
