/** The string operations of Python's `str` that the program relies on,
    with case and letter classes restricted to ASCII: `strip`, `split`, `join`, `upper`, `lower`,
    `isalnum`, `replace`, `startswith`, and `int`/`str` on integers. */
module Text {
  import opened Wrappers

  /** Python's whitespace (`str.isspace`, what `strip()` removes): '\t'
      '\n' '\v' '\f' '\r', the separators 0x1C-0x1F, the space, NEL, the
      no-break space, the Ogham space mark, the spaces 0x2000-0x200A, the
      line and paragraph separators, the narrow no-break space, the medium
      mathematical space and the ideographic space. */
  predicate IsSpace(c: char) {
    var n := c as int;
    n == 0x20 || 0x09 <= n <= 0x0D || 0x1C <= n <= 0x1F || n == 0x85 || n == 0xA0 || n == 0x1680
    || 0x2000 <= n <= 0x200A || n == 0x2028 || n == 0x2029 || n == 0x202F || n == 0x205F || n == 0x3000
  }

  predicate AllSpace(s: string) {
    forall k :: 0 <= k < |s| ==> IsSpace(s[k])
  }

  predicate IsBlank(s: string) {
    AllSpace(s)
  }

  /** No whitespace at either end: what `strip()` leaves. */
  predicate IsStripped(s: string) {
    s == [] || (!IsSpace(s[0]) && !IsSpace(s[|s| - 1]))
  }

  /** The number of whitespace characters `s` starts with. */
  function LeadingSpaces(s: string): (n: nat)
    ensures n <= |s| && AllSpace(s[..n])
    ensures n < |s| ==> !IsSpace(s[n])
  {
    if |s| > 0 && IsSpace(s[0]) then
      var m := LeadingSpaces(s[1..]);
      assert s[..m + 1] == [s[0]] + s[1..][..m];
      m + 1
    else 0
  }

  function TrimLeft(s: string): (r: string)
    ensures |r| <= |s| && r == s[|s| - |r|..]
    ensures AllSpace(s[..|s| - |r|])
    ensures r == [] || !IsSpace(r[0])
  {
    s[LeadingSpaces(s)..]
  }

  function TrimRight(s: string): (r: string)
    ensures |r| <= |s| && r == s[..|r|]
    ensures AllSpace(s[|r|..])
    ensures r == [] || !IsSpace(r[|r| - 1])
  {
    if |s| > 0 && IsSpace(s[|s| - 1]) then
      var r := TrimRight(s[..|s| - 1]);
      assert s[|r|..] == s[..|s| - 1][|r|..] + [s[|s| - 1]];
      r
    else s
  }

  /** Python's `s.strip()`: the longest infix of `s` with no whitespace at
      either end, obtained by cutting whitespace only. */
  function Strip(s: string): (r: string)
    ensures IsStripped(r)
    ensures r == [] <==> IsBlank(s)
  {
    var l := TrimLeft(s);
    var r := TrimRight(l);
    StripFacts(s, l, r);
    r
  }

  /** `r` sits in `s` at `i` with only whitespace around it. */
  predicate CutAt(s: string, r: string, i: nat) {
    i <= |s| - |r| && r == s[i..i + |r|] && AllSpace(s[..i]) && AllSpace(s[i + |r|..])
  }

  /** What `strip()` removes: whitespace only, from both ends. */
  lemma StripIsInfix(s: string)
    ensures exists i :: CutAt(s, Strip(s), i)
  {
    var l := TrimLeft(s);
    var r := TrimRight(l);
    StripFacts(s, l, r);
    assert Strip(s) == r;
  }

  /** Stripping only removes characters. */
  lemma StripKeepsChars(s: string)
    ensures forall x :: x in Strip(s) ==> x in s
  {
    var l := TrimLeft(s);
    StripFacts(s, l, TrimRight(l));
  }

  lemma StripFacts(s: string, l: string, r: string)
    requires |l| <= |s| && l == s[|s| - |l|..] && AllSpace(s[..|s| - |l|])
    requires |r| <= |l| && r == l[..|r|] && AllSpace(l[|r|..])
    requires IsStripped(r)
    ensures CutAt(s, r, |s| - |l|)
    ensures r == [] <==> IsBlank(s)
    ensures forall x :: x in r ==> x in s
  {
    var i := |s| - |l|;
    assert r == s[i..i + |r|];
    assert s[i + |r|..] == l[|r|..];
    BlankSplit(s, i);
    BlankSplit(l, |r|);
    if r == [] {
      assert l[|r|..] == l;
    } else {
      assert s[i] == r[0];
    }
    forall x | x in r ensures x in s {
      var k :| 0 <= k < |r| && r[k] == x;
      assert s[i + k] == x;
    }
  }

  lemma BlankSplit(s: string, i: nat)
    requires i <= |s|
    ensures AllSpace(s) <==> AllSpace(s[..i]) && AllSpace(s[i..])
  {
    if AllSpace(s[..i]) && AllSpace(s[i..]) {
      forall k | 0 <= k < |s| ensures IsSpace(s[k]) {
        if k < i { assert s[k] == s[..i][k]; } else { assert s[k] == s[i..][k - i]; }
      }
    }
  }

  lemma StrippedIsFixed(s: string)
    requires IsStripped(s)
    ensures Strip(s) == s
  {
  }

  lemma {:induction false} StripIdempotent(s: string)
    ensures Strip(Strip(s)) == Strip(s)
  {
    StrippedIsFixed(Strip(s));
  }

  /** Python's `s.split(c)`: at least one piece; pieces never contain `c`;
      gluing the pieces back with `c` gives `s`. */
  function Split(s: string, c: char): (r: seq<string>)
    ensures |r| >= 1
    ensures forall k :: 0 <= k < |r| ==> c !in r[k]
    ensures Join(r, c) == s
    decreases |s|
  {
    if |s| == 0 then [""]
    else
      var rest := Split(s[1..], c);
      if s[0] == c then
        [""] + rest
      else
        assert [s[0]] + Join(rest, c) == s;
        JoinHead(rest, c, s[0]);
        [[s[0]] + rest[0]] + rest[1..]
  }

  /** Python's `c.join(ps)`. */
  function Join(ps: seq<string>, c: char): string
  {
    if |ps| == 0 then ""
    else if |ps| == 1 then ps[0]
    else ps[0] + [c] + Join(ps[1..], c)
  }

  lemma JoinHead(ps: seq<string>, c: char, x: char)
    requires |ps| >= 1
    ensures Join([[x] + ps[0]] + ps[1..], c) == [x] + Join(ps, c)
  {
    var qs := [[x] + ps[0]] + ps[1..];
    if |ps| > 1 {
      assert qs[1..] == ps[1..];
    }
  }

  lemma {:induction false} SplitNoSep(s: string, c: char)
    requires c !in s
    ensures Split(s, c) == [s]
    decreases |s|
  {
    if |s| > 0 {
      SplitNoSep(s[1..], c);
    }
  }

  lemma {:induction false} SplitPrefix(a: string, b: string, c: char)
    requires c !in a
    ensures Split(a + [c] + b, c) == [a] + Split(b, c)
    decreases |a|
  {
    if |a| == 0 {
      assert a + [c] + b == [c] + b;
      assert ([c] + b)[1..] == b;
    } else {
      assert (a + [c] + b)[1..] == a[1..] + [c] + b;
      SplitPrefix(a[1..], b, c);
      assert [a[0]] + a[1..] == a;
    }
  }

  /** Splitting undoes joining when no piece contains the separator. */
  lemma {:induction false} SplitJoin(ps: seq<string>, c: char)
    requires |ps| >= 1
    requires forall k :: 0 <= k < |ps| ==> c !in ps[k]
    ensures Split(Join(ps, c), c) == ps
    decreases |ps|
  {
    if |ps| == 1 {
      SplitNoSep(ps[0], c);
    } else {
      SplitJoin(ps[1..], c);
      SplitPrefix(ps[0], Join(ps[1..], c), c);
      assert [ps[0]] + ps[1..] == ps;
    }
  }

  /** Joining two non-empty lists puts one separator between their
      joins. */
  lemma {:induction false} JoinConcat(xs: seq<string>, ys: seq<string>, c: char)
    requires |xs| >= 1 && |ys| >= 1
    ensures Join(xs + ys, c) == Join(xs, c) + [c] + Join(ys, c)
    decreases |xs|
  {
    if |xs| > 1 {
      JoinConcat(xs[1..], ys, c);
      assert (xs + ys)[1..] == xs[1..] + ys;
    } else {
      assert (xs + ys)[1..] == ys;
    }
  }

  /** Splitting distributes over a separator placed between two strings. */
  lemma SplitAppend(a: string, b: string, c: char)
    ensures Split(a + [c] + b, c) == Split(a, c) + Split(b, c)
  {
    var ps := Split(a, c) + Split(b, c);
    JoinConcat(Split(a, c), Split(b, c), c);
    SplitJoin(ps, c);
  }

  /** `[x.strip() for x in pieces if x.strip()]`. */
  function CleanList(pieces: seq<string>): (r: seq<string>)
    ensures |r| <= |pieces|
    ensures forall k :: 0 <= k < |r| ==> r[k] != [] && IsStripped(r[k])
  {
    if |pieces| == 0 then []
    else
      var s := Strip(pieces[|pieces| - 1]);
      CleanList(pieces[..|pieces| - 1]) + (if s == [] then [] else [s])
  }

  /** The cleaned list is the stripped pieces, in order, with exactly the
      blank ones dropped. */
  lemma {:induction false} CleanListKeeps(pieces: seq<string>)
    ensures forall p :: p in pieces && !IsBlank(p) ==> Strip(p) in CleanList(pieces)
    ensures forall x :: x in CleanList(pieces) ==> exists p :: p in pieces && x == Strip(p)
  {
    if |pieces| > 0 {
      var init := pieces[..|pieces| - 1];
      CleanListKeeps(init);
      assert pieces == init + [pieces[|pieces| - 1]];
      forall x | x in CleanList(pieces) ensures exists p :: p in pieces && x == Strip(p) {
        if x in CleanList(init) {
          var p :| p in init && x == Strip(p);
          assert p in pieces;
        } else {
          assert x == Strip(pieces[|pieces| - 1]);
        }
      }
    }
  }

  lemma CleanListStep(ps: seq<string>)
    requires |ps| > 0
    ensures CleanList(ps) == CleanList(ps[..|ps| - 1]) + (if Strip(ps[|ps| - 1]) == [] then [] else [Strip(ps[|ps| - 1])])
  {
  }

  /** Non-empty stripped pieces are kept as they are. */
  lemma {:induction false} CleanListOfClean(ps: seq<string>)
    requires forall k :: 0 <= k < |ps| ==> ps[k] != [] && IsStripped(ps[k])
    ensures CleanList(ps) == ps
  {
    if |ps| > 0 {
      var init := ps[..|ps| - 1];
      var last := ps[|ps| - 1];
      assert CleanList(init) == init by {
        assert forall k :: 0 <= k < |init| ==> init[k] == ps[k];
        CleanListOfClean(init);
      }
      assert Strip(last) == last && last != [] by {
        StrippedIsFixed(last);
      }
      CleanListStep(ps);
      assert init + [last] == ps;
    }
  }

  /** A character other than the separator, absent from every piece, is
      absent from the joined text. */
  lemma {:induction false} JoinAvoids(ps: seq<string>, sep: char, c: char)
    requires c != sep && forall k :: 0 <= k < |ps| ==> c !in ps[k]
    ensures c !in Join(ps, sep)
  {
    if |ps| > 1 {
      JoinAvoids(ps[1..], sep, c);
    }
  }

  /** A joined text starts with its first piece. */
  lemma JoinFirstChar(ps: seq<string>, c: char)
    requires |ps| >= 1 && ps[0] != []
    ensures Join(ps, c) != [] && Join(ps, c)[0] == ps[0][0]
  {
  }

  /** A joined text of two or more pieces ends with its last piece, or with
      the separator when the last piece is empty. */
  lemma {:induction false} JoinLastChar(ps: seq<string>, c: char)
    requires |ps| >= 2
    ensures var j := Join(ps, c); var l := ps[|ps| - 1];
      j != [] && j[|j| - 1] == if l == [] then c else l[|l| - 1]
  {
    if |ps| > 2 {
      JoinLastChar(ps[1..], c);
    }
  }

  /** Joining with a non-space separator gives a stripped text when the
      first piece starts and the last piece ends with a non-space. */
  lemma JoinStripped(ps: seq<string>, c: char)
    requires |ps| >= 2 && !IsSpace(c)
    requires ps[0] != [] && !IsSpace(ps[0][0]) && IsStripped(ps[|ps| - 1])
    ensures IsStripped(Join(ps, c))
  {
    JoinFirstChar(ps, c);
    JoinLastChar(ps, c);
  }

  /** Joining stripped pieces with a non-space separator gives a stripped
      text, even when some pieces are empty. */
  lemma JoinOfStrippedPieces(ps: seq<string>, c: char)
    requires !IsSpace(c) && forall k :: 0 <= k < |ps| ==> IsStripped(ps[k])
    ensures IsStripped(Join(ps, c))
  {
    if |ps| >= 2 {
      JoinLastChar(ps, c);
      assert Join(ps, c) == ps[0] + [c] + Join(ps[1..], c);
    }
  }

  /** Joining non-empty stripped lines gives a stripped text, whatever the
      separator. */
  lemma JoinOfLines(ls: seq<string>, c: char)
    requires forall k :: 0 <= k < |ls| ==> ls[k] != [] && IsStripped(ls[k])
    ensures IsStripped(Join(ls, c))
  {
    if |ls| >= 2 {
      JoinFirstChar(ls, c);
      JoinLastChar(ls, c);
    }
  }

  /** A character absent from a string is absent from its stripped form. */
  lemma StripInherits(s: string, c: char)
    requires c !in s
    ensures c !in Strip(s)
  {
    StripKeepsChars(s);
  }

  /** Every piece stripped. */
  function StripAll(ps: seq<string>): (r: seq<string>)
    ensures |r| == |ps| && forall k :: 0 <= k < |ps| ==> r[k] == Strip(ps[k])
  {
    seq(|ps|, k requires 0 <= k < |ps| => Strip(ps[k]))
  }

  /** Index of the first `c` in `s`. */
  function FirstIndex(s: string, c: char): (i: nat)
    requires c in s
    ensures i < |s| && s[i] == c && c !in s[..i]
  {
    if s[0] == c then 0 else 1 + FirstIndex(s[1..], c)
  }

  /** Python's `s.split(c, 1)` on a string that contains `c`: the text
      before the first `c` and everything after it (which may contain `c`). */
  function SplitOnce(s: string, c: char): (r: (string, string))
    requires c in s
    ensures c !in r.0 && r.0 + [c] + r.1 == s
  {
    var i := FirstIndex(s, c);
    assert s == s[..i] + [c] + s[i + 1..];
    (s[..i], s[i + 1..])
  }

  /** Python's `s.startswith(p)`. */
  predicate StartsWith(s: string, p: string) {
    |p| <= |s| && s[..|p|] == p
  }

  function UpperChar(c: char): char {
    if 'a' <= c <= 'z' then (c as int - 32) as char else c
  }

  function LowerChar(c: char): char {
    if 'A' <= c <= 'Z' then (c as int + 32) as char else c
  }

  /** Python's `s.upper()` on ASCII letters. */
  function Upper(s: string): (r: string)
    ensures |r| == |s| && forall k :: 0 <= k < |s| ==> r[k] == UpperChar(s[k])
  {
    seq(|s|, k requires 0 <= k < |s| => UpperChar(s[k]))
  }

  /** Python's `s.lower()` on ASCII letters. */
  function Lower(s: string): (r: string)
    ensures |r| == |s| && forall k :: 0 <= k < |s| ==> r[k] == LowerChar(s[k])
  {
    seq(|s|, k requires 0 <= k < |s| => LowerChar(s[k]))
  }

  predicate IsDigit(c: char) {
    '0' <= c <= '9'
  }

  predicate IsAlnumChar(c: char) {
    IsDigit(c) || 'a' <= c <= 'z' || 'A' <= c <= 'Z'
  }

  /** Python's `s.isalnum()` (ASCII): false on the empty string. */
  predicate IsAlnum(s: string) {
    |s| > 0 && forall k :: 0 <= k < |s| ==> IsAlnumChar(s[k])
  }

  /** Python's `s.replace(c, '')`. */
  function Remove(s: string, c: char): (r: string)
    ensures forall x :: x in r <==> x in s && x != c
    ensures c !in s ==> r == s
  {
    if |s| == 0 then ""
    else if s[0] == c then Remove(s[1..], c)
    else [s[0]] + Remove(s[1..], c)
  }

  /** Python's `s.replace(a, b)` for single characters. */
  function Replace(s: string, a: char, b: char): (r: string)
    ensures |r| == |s|
    ensures forall k :: 0 <= k < |s| ==> r[k] == (if s[k] == a then b else s[k])
  {
    seq(|s|, k requires 0 <= k < |s| => if s[k] == a then b else s[k])
  }

  // ---------------------------------------------------------------------
  // Integers: Python's int(s) on an already stripped string, and str(n).
  // ---------------------------------------------------------------------

  predicate AllDigits(s: string) {
    forall k :: 0 <= k < |s| ==> IsDigit(s[k])
  }

  function DigitsValue(s: string): nat
    requires AllDigits(s)
  {
    if |s| == 0 then 0
    else DigitsValue(s[..|s| - 1]) * 10 + (s[|s| - 1] as int - '0' as int)
  }

  /** Python's `int(s)` for a stripped `s`: an optional sign followed by at
      least one ASCII digit; anything else raises ValueError (None here). */
  function ParseInt(s: string): Option<int> {
    if |s| > 0 && (s[0] == '-' || s[0] == '+') then
      if |s| > 1 && AllDigits(s[1..]) then
        Some(if s[0] == '-' then 0 - DigitsValue(s[1..]) as int else DigitsValue(s[1..]))
      else None
    else if |s| > 0 && AllDigits(s) then Some(DigitsValue(s))
    else None
  }

  function ShowNat(n: nat): (r: string)
    ensures |r| > 0 && AllDigits(r)
    ensures DigitsValue(r) == n
  {
    var d := [('0' as int + n % 10) as char];
    if n < 10 then d
    else
      var p := ShowNat(n / 10);
      assert (p + d)[..|p + d| - 1] == p;
      p + d
  }

  /** Python's `str(n)` for an integer. */
  function ShowInt(n: int): (r: string)
    ensures |r| > 0 && r[0] != '+'
    ensures forall k :: 0 <= k < |r| ==> IsDigit(r[k]) || r[k] == '-'
  {
    if n < 0 then "-" + ShowNat(-n) else ShowNat(n)
  }

  /** `int(str(n)) == n`. */
  lemma {:induction false} ParseShowInt(n: int)
    ensures ParseInt(ShowInt(n)) == Some(n)
  {
    if n < 0 {
      assert ShowInt(n)[1..] == ShowNat(-n);
    }
  }

  /** The decimal form of an integer has no whitespace and none of the
      separators the flat-file formats use. */
  lemma ShowIntPlain(n: int)
    ensures IsStripped(ShowInt(n))
    ensures ';' !in ShowInt(n) && ',' !in ShowInt(n) && '\n' !in ShowInt(n) && '\r' !in ShowInt(n)
  {
  }

  // ---------------------------------------------------------------------
  // Ordering: Python's `<` on str.
  // ---------------------------------------------------------------------

  /** `a < b` on Python strings: the first differing code point decides,
      and a proper prefix comes first. */
  predicate StrLess(a: string, b: string)
    decreases |a|
  {
    if |a| == 0 then |b| > 0
    else if |b| == 0 then false
    else if a[0] != b[0] then a[0] < b[0]
    else StrLess(a[1..], b[1..])
  }

  lemma {:induction false} StrLessIrreflexive(a: string)
    ensures !StrLess(a, a)
    decreases |a|
  {
    if |a| > 0 {
      StrLessIrreflexive(a[1..]);
    }
  }

  lemma {:induction false} StrLessTransitive(a: string, b: string, c: string)
    requires StrLess(a, b) && StrLess(b, c)
    ensures StrLess(a, c)
    decreases |a|
  {
    if |a| > 0 && |b| > 0 && |c| > 0 && a[0] == b[0] && b[0] == c[0] {
      StrLessTransitive(a[1..], b[1..], c[1..]);
    }
  }

  /** Two different strings are ordered one way or the other. */
  lemma {:induction false} StrLessTotal(a: string, b: string)
    requires a != b
    ensures StrLess(a, b) || StrLess(b, a)
    decreases |a|
  {
    if |a| > 0 && |b| > 0 && a[0] == b[0] {
      assert a == [a[0]] + a[1..] && b == [b[0]] + b[1..];
      StrLessTotal(a[1..], b[1..]);
    }
  }
}
