/** Counting occurrences with a dict: the `counts[x] = counts.get(x, 0) + 1`
    loop of the consistency page, and `collections.Counter`, which fills
    its dict the same way. Keys appear in order of first occurrence. */
module Counting {
  import opened Wrappers
  import opened Dicts

  /** How often `x` occurs in `xs`. */
  function Count(xs: seq<string>, x: string): nat {
    multiset(xs)[x]
  }

  /** The position of the first occurrence of `x`. */
  function FirstPos(xs: seq<string>, x: string): (i: nat)
    requires x in xs
    ensures i < |xs| && xs[i] == x && x !in xs[..i]
  {
    if xs[0] == x then 0
    else
      var i := FirstPos(xs[1..], x);
      assert xs[..i + 1] == [xs[0]] + xs[1..][..i];
      i + 1
  }

  /** The dict after counting every element of `xs` in turn. */
  function Tally(xs: seq<string>): Dict<nat> {
    if |xs| == 0 then []
    else
      var d := Tally(xs[..|xs| - 1]);
      var x := xs[|xs| - 1];
      Put(d, x, Lookup(d, x).GetOr(0) + 1)
  }

  /** Counting one more element. */
  lemma TallyStep(xs: seq<string>, i: nat, d: Dict<nat>, x: string)
    requires i < |xs| && d == Tally(xs[..i]) && x == xs[i]
    ensures Tally(xs[..i + 1]) == Put(d, x, Lookup(d, x).GetOr(0) + 1)
  {
    assert xs[..i + 1][..i] == xs[..i];
  }

  /** The counting dict has one key per distinct element, mapped to its
      number of occurrences; elements that do not occur are absent. */
  lemma {:induction false} TallyLaws(xs: seq<string>)
    ensures DistinctKeys(Tally(xs))
    ensures forall x :: Lookup(Tally(xs), x) == if x in xs then Some(Count(xs, x)) else None
  {
    if |xs| > 0 {
      var init := xs[..|xs| - 1];
      var last := xs[|xs| - 1];
      TallyLaws(init);
      PutLaws(Tally(init), last, Lookup(Tally(init), last).GetOr(0) + 1);
      assert xs == init + [last];
      forall x ensures Lookup(Tally(xs), x) == if x in xs then Some(Count(xs, x)) else None {
        if x != last {
          assert x in xs <==> x in init;
        }
      }
    }
  }

  /** The sum of a dict's counts. */
  function CountsFrom(d: Dict<nat>): nat {
    if |d| == 0 then 0 else CountsFrom(d[..|d| - 1]) + d[|d| - 1].1
  }

  /** Changing one value changes the sum by the difference. */
  lemma {:induction false} CountsUpdate(d: Dict<nat>, i: nat, v: nat)
    requires i < |d|
    ensures CountsFrom(d[i := (d[i].0, v)]) + d[i].1 == CountsFrom(d) + v
  {
    var e := d[i := (d[i].0, v)];
    if i < |d| - 1 {
      assert e[..|e| - 1] == d[..|d| - 1][i := (d[i].0, v)];
      CountsUpdate(d[..|d| - 1], i, v);
    } else {
      assert e[..|e| - 1] == d[..|d| - 1];
    }
  }

  /** The counts add up to the number of elements counted. */
  lemma {:induction false} TallySum(xs: seq<string>)
    ensures CountsFrom(Tally(xs)) == |xs|
  {
    if |xs| > 0 {
      var init := xs[..|xs| - 1];
      var last := xs[|xs| - 1];
      var d := Tally(init);
      TallySum(init);
      TallyLaws(init);
      match KeyIndex(d, last) {
        case None =>
          var e := d + [(last, 1)];
          assert e[..|e| - 1] == d;
          assert Lookup(d, last) == None;
        case Some(i) =>
          CountsUpdate(d, i, d[i].1 + 1);
      }
    }
  }

  /** The elements of `xs` without repeats, in order of first occurrence. */
  function Dedup(xs: seq<string>): seq<string> {
    if |xs| == 0 then []
    else
      var init := xs[..|xs| - 1];
      Dedup(init) + (if xs[|xs| - 1] in init then [] else [xs[|xs| - 1]])
  }

  /** The keys of the counting dict are the distinct elements in order of
      first occurrence. */
  lemma {:induction false} TallyKeys(xs: seq<string>)
    ensures Keys(Tally(xs)) == Dedup(xs)
  {
    if |xs| > 0 {
      var init := xs[..|xs| - 1];
      var last := xs[|xs| - 1];
      var d := Tally(init);
      TallyKeys(init);
      TallyLaws(init);
      var e := Put(d, last, Lookup(d, last).GetOr(0) + 1);
      PutLaws(d, last, Lookup(d, last).GetOr(0) + 1);
      if last in init {
        assert |e| == |d|;
      } else {
        assert e == d + [(last, 1)];
      }
    }
  }

  /** In the deduplicated list, an element whose first occurrence comes
      earlier stands earlier. */
  lemma {:induction false} DedupOrder(xs: seq<string>, a: string, b: string, i: nat, j: nat)
    requires a in xs && b in xs && FirstPos(xs, a) < FirstPos(xs, b)
    requires i < |Dedup(xs)| && Dedup(xs)[i] == a && j < |Dedup(xs)| && Dedup(xs)[j] == b
    ensures i < j
  {
    var init := xs[..|xs| - 1];
    var last := xs[|xs| - 1];
    DedupMembers(init);
    DedupDistinct(xs);
    if b in init {
      assert a in init by {
        assert xs[FirstPos(xs, a)] == a;
        assert FirstPos(xs, a) < |init|;
        assert init[FirstPos(xs, a)] == a;
      }
      FirstPosPrefix(xs, a);
      FirstPosPrefix(xs, b);
      DedupDistinct(init);
      if j < |Dedup(init)| {
        DedupOrder(init, a, b, i, j);
      }
    } else {
      assert b == last by {
        assert xs[FirstPos(xs, b)] == b;
      }
      assert j == |Dedup(xs)| - 1;
    }
  }

  /** The first occurrence of an element of a prefix is the same in the
      whole sequence. */
  lemma FirstPosPrefix(xs: seq<string>, x: string)
    requires |xs| > 0 && x in xs[..|xs| - 1]
    ensures FirstPos(xs[..|xs| - 1], x) == FirstPos(xs, x)
  {
    var init := xs[..|xs| - 1];
    var p := FirstPos(init, x);
    assert init[..p] == xs[..p];
  }

  lemma {:induction false} DedupMembers(xs: seq<string>)
    ensures forall x :: x in Dedup(xs) <==> x in xs
  {
    if |xs| > 0 {
      DedupMembers(xs[..|xs| - 1]);
      assert xs == xs[..|xs| - 1] + [xs[|xs| - 1]];
    }
  }

  lemma {:induction false} DedupDistinct(xs: seq<string>)
    ensures forall i, j :: 0 <= i < j < |Dedup(xs)| ==> Dedup(xs)[i] != Dedup(xs)[j]
  {
    if |xs| > 0 {
      DedupDistinct(xs[..|xs| - 1]);
      DedupMembers(xs[..|xs| - 1]);
    }
  }

  predicate Distinct(xs: seq<string>) {
    forall i, j :: 0 <= i < j < |xs| ==> xs[i] != xs[j]
  }

  predicate AllSame(xs: seq<string>) {
    forall i, j :: 0 <= i < |xs| && 0 <= j < |xs| ==> xs[i] == xs[j]
  }

  /** Python's `len(set(xs))`. */
  function DistinctCount(xs: seq<string>): nat {
    |set x | x in xs|
  }

  lemma {:induction false} DistinctCard(xs: seq<string>)
    requires Distinct(xs)
    ensures DistinctCount(xs) == |xs|
  {
    if |xs| > 0 {
      var init := xs[..|xs| - 1];
      var last := xs[|xs| - 1];
      DistinctCard(init);
      assert (set x | x in xs) == (set x | x in init) + {last} by {
        assert xs == init + [last];
      }
      assert last !in (set x | x in init);
    }
  }

  /** Deduplication drops exactly the repeats: nothing is dropped from a
      list without repeats, and something is dropped otherwise. */
  lemma {:induction false} DedupLength(xs: seq<string>)
    ensures |Dedup(xs)| <= |xs|
    ensures |Dedup(xs)| == |xs| <==> Distinct(xs)
  {
    if |xs| > 0 {
      var init := xs[..|xs| - 1];
      var last := xs[|xs| - 1];
      DedupLength(init);
      if Distinct(xs) {
        assert Distinct(init);
        assert last !in init;
      }
      if |Dedup(xs)| == |xs| {
        assert last !in init;
        assert Distinct(init);
        forall i, j | 0 <= i < j < |xs| ensures xs[i] != xs[j] {
          if j < |xs| - 1 {
            assert init[i] == xs[i] && init[j] == xs[j];
          } else {
            assert init[i] == xs[i];
          }
        }
      }
    }
  }

  /** The number of distinct elements is the length of the deduplicated
      list. */
  lemma DistinctCountDedup(xs: seq<string>)
    ensures DistinctCount(xs) == |Dedup(xs)|
  {
    DedupMembers(xs);
    DedupDistinct(xs);
    DistinctCard(Dedup(xs));
    assert (set x | x in xs) == (set x | x in Dedup(xs));
  }

  /** A non-empty list has one distinct element exactly when all its
      elements are equal. */
  lemma DedupSingle(xs: seq<string>)
    requires |xs| > 0
    ensures |Dedup(xs)| >= 1
    ensures |Dedup(xs)| == 1 <==> AllSame(xs)
  {
    DedupMembers(xs);
    DedupDistinct(xs);
    assert xs[0] in Dedup(xs);
    if |Dedup(xs)| == 1 {
      forall i | 0 <= i < |xs| ensures xs[i] == Dedup(xs)[0] {
        assert xs[i] in Dedup(xs);
      }
    }
  }

  /** The counting dict has exactly one key when all elements are equal. */
  lemma TallySingleKey(xs: seq<string>)
    requires |xs| > 0
    ensures |Tally(xs)| == 1 <==> AllSame(xs)
  {
    TallyKeys(xs);
    DedupSingle(xs);
  }

  /** `max(d.items(), key=count)`, as `Counter.most_common(1)` computes it:
      the position of the first entry with the largest count. */
  function MaxIndex(d: Dict<nat>): (m: nat)
    requires |d| > 0
    ensures m < |d|
    ensures forall j :: 0 <= j < |d| ==> d[j].1 <= d[m].1
    ensures forall j :: 0 <= j < m ==> d[j].1 < d[m].1
  {
    if |d| == 1 then 0
    else
      var m := MaxIndex(d[..|d| - 1]);
      if d[|d| - 1].1 > d[m].1 then |d| - 1 else m
  }
}
