/** Text files read line by line: a file opened in text mode has its line
    ends ("\r\n", a lone '\r' or '\n') read as '\n' (Python's universal
    newlines), its content is split at '\n', and each line is turned into an
    entry, skipped, or (for loaders without error handling) fails the whole
    load; files are written one entry per line. */
module LineFiles {
  import opened Wrappers
  import opened Text

  /** What a loader makes of one line. */
  datatype LineResult<T> = Skip | Item(value: T) | Fail

  /** The entries of the lines, in order; `None` as soon as one line fails
      (the loop raises there). */
  function Collect<T>(lines: seq<string>, parse: string -> LineResult<T>): Option<seq<T>> {
    if |lines| == 0 then Some([])
    else match Collect(lines[..|lines| - 1], parse)
      case None => None
      case Some(acc) =>
        match parse(lines[|lines| - 1])
        case Skip => Some(acc)
        case Item(x) => Some(acc + [x])
        case Fail => None
  }

  /** Once a prefix fails, every longer prefix fails. */
  lemma {:induction false} CollectFailSticks<T>(lines: seq<string>, parse: string -> LineResult<T>, i: nat)
    requires i <= |lines| && Collect(lines[..i], parse).None?
    ensures Collect(lines, parse).None?
    decreases |lines|
  {
    if i < |lines| {
      assert lines[..|lines| - 1][..i] == lines[..i];
      CollectFailSticks(lines[..|lines| - 1], parse, i);
    } else {
      assert lines[..i] == lines;
    }
  }

  /** A loader whose lines never fail always produces a list. */
  lemma {:induction false} CollectNeverFails<T>(lines: seq<string>, parse: string -> LineResult<T>)
    requires forall k :: 0 <= k < |lines| ==> !parse(lines[k]).Fail?
    ensures Collect(lines, parse).Some?
  {
    if |lines| > 0 {
      CollectNeverFails(lines[..|lines| - 1], parse);
    }
  }

  /** A trailing line the loader skips changes nothing. */
  lemma CollectSkipLast<T>(lines: seq<string>, last: string, parse: string -> LineResult<T>)
    requires parse(last) == Skip
    ensures Collect(lines + [last], parse) == Collect(lines, parse)
  {
    assert (lines + [last])[..|lines|] == lines;
  }

  /** Lines that each parse to an entry give exactly those entries. */
  lemma {:induction false} CollectAllItems<T>(lines: seq<string>, parse: string -> LineResult<T>, xs: seq<T>)
    requires |lines| == |xs|
    requires forall k :: 0 <= k < |lines| ==> parse(lines[k]) == Item(xs[k])
    ensures Collect(lines, parse) == Some(xs)
  {
    if |lines| > 0 {
      CollectAllItems(lines[..|lines| - 1], parse, xs[..|xs| - 1]);
      assert xs[..|xs| - 1] + [xs[|xs| - 1]] == xs;
    }
  }

  /** The loader loop: reads the lines of `content` in order, appends each
      entry, skips what the line parser skips and stops at the first line
      that fails. */
  method ReadEntries<T>(content: string, parse: string -> LineResult<T>) returns (r: Option<seq<T>>)
    ensures r == Collect(FileLines(content), parse)
  {
    var lines := FileLines(content);
    var acc: seq<T> := [];
    var i := 0;
    while i < |lines|
      invariant 0 <= i <= |lines|
      invariant Collect(lines[..i], parse) == Some(acc)
    {
      assert lines[..i + 1][..i] == lines[..i];
      match parse(lines[i]) {
        case Skip =>
        case Item(x) =>
          acc := acc + [x];
        case Fail =>
          CollectFailSticks(lines, parse, i + 1);
          return None;
      }
      i := i + 1;
    }
    assert lines[..i] == lines;
    return Some(acc);
  }

  /** The file written one entry per line, each followed by '\n'. */
  function Unlines(ls: seq<string>): string {
    if |ls| == 0 then "" else ls[0] + "\n" + Unlines(ls[1..])
  }

  /** Reading such a file back gives the lines and a final empty piece
      after the last '\n'. */
  lemma {:induction false} UnlinesSplit(ls: seq<string>)
    requires forall k :: 0 <= k < |ls| ==> '\n' !in ls[k]
    ensures Split(Unlines(ls), '\n') == ls + [""]
  {
    if |ls| == 0 {
    } else {
      UnlinesSplit(ls[1..]);
      SplitAppend(ls[0], Unlines(ls[1..]), '\n');
      SplitNoSep(ls[0], '\n');
      assert [ls[0]] + (ls[1..] + [""]) == ls + [""];
    }
  }

  /** A file's content as text mode reads it: "\r\n" and a lone '\r' both
      become '\n'; a content without '\r' reads as it is. */
  function Newlines(s: string): (r: string)
    ensures '\r' !in r
    ensures '\r' !in s ==> r == s
    decreases |s|
  {
    if |s| == 0 then ""
    else if s[0] == '\r' then "\n" + Newlines(if |s| > 1 && s[1] == '\n' then s[2..] else s[1..])
    else [s[0]] + Newlines(s[1..])
  }

  /** A lone '\r' reads as a line end. */
  lemma {:induction false} NewlinesLoneReturn(a: string, b: string)
    requires '\r' !in a && '\r' !in b && (|b| == 0 || b[0] != '\n')
    ensures Newlines(a + "\r" + b) == a + "\n" + b
    decreases |a|
  {
    var s := a + "\r" + b;
    if |a| == 0 {
      assert s == "\r" + b && s[1..] == b;
    } else {
      var t := a[1..];
      assert a[0] != '\r' by { assert a[0] in a; }
      assert '\r' !in t by { assert forall i :: 0 <= i < |t| ==> t[i] == a[i + 1]; }
      assert s[0] == a[0] && s[1..] == t + "\r" + b;
      NewlinesLoneReturn(t, b);
      assert a + "\n" + b == [a[0]] + (t + "\n" + b);
    }
  }

  /** The lines of a file's content. */
  function FileLines(content: string): seq<string> {
    Split(Newlines(content), '\n')
  }

  /** A character other than '\n' that no entry holds is not in the file. */
  lemma {:induction false} UnlinesAvoids(ls: seq<string>, c: char)
    requires c != '\n' && forall k :: 0 <= k < |ls| ==> c !in ls[k]
    ensures c !in Unlines(ls)
  {
    if |ls| > 0 {
      UnlinesAvoids(ls[1..], c);
    }
  }

  /** A file written from entries without line ends reads back as those
      entries and a final empty piece. */
  lemma UnlinesLines(ls: seq<string>)
    requires forall k :: 0 <= k < |ls| ==> '\n' !in ls[k] && '\r' !in ls[k]
    ensures FileLines(Unlines(ls)) == ls + [""]
  {
    UnlinesAvoids(ls, '\r');
    UnlinesSplit(ls);
  }

  /** A file's entries: none when it is missing, `None` when a line raises. */
  function LoadFile<T>(file: Option<string>, parse: string -> LineResult<T>): Option<seq<T>> {
    if file.None? then Some([]) else Collect(FileLines(file.value), parse)
  }
}
