/**
 * Replacing every maximal run of white space with one character: Python's
 * `re.sub(r'\s+', sep, s)` and JavaScript's `s.replace(/\s+/g, sep)`.
 * The character class is a parameter, because Python's `\s` and
 * JavaScript's `\s` are different sets.
 */
module WhitespaceRuns {

  /** `s` without its leading run of white space. */
  function DropRun(s: string, isSpace: char -> bool): (r: string)
    ensures |r| <= |s| && r == s[|s| - |r|..]
    ensures r == [] || !isSpace(r[0])
    ensures forall i :: 0 <= i < |s| - |r| ==> isSpace(s[i])
    ensures s != [] && isSpace(s[0]) ==> |r| < |s|
  {
    if s != [] && isSpace(s[0]) then DropRun(s[1..], isSpace) else s
  }

  /** Every maximal run of white space in `s` becomes one `sep`; everything else is kept. */
  function ReplaceRuns(s: string, isSpace: char -> bool, sep: char): (r: string)
    decreases |s|
  {
    if s == [] then []
    else if isSpace(s[0]) then [sep] + ReplaceRuns(DropRun(s, isSpace), isSpace, sep)
    else [s[0]] + ReplaceRuns(s[1..], isSpace, sep)
  }

  /** The only white space character left is `sep`. */
  predicate OnlySep(s: string, isSpace: char -> bool, sep: char) {
    forall i :: 0 <= i < |s| && isSpace(s[i]) ==> s[i] == sep
  }

  /** No two adjacent characters are both white space. */
  predicate NoAdjacentSpace(s: string, isSpace: char -> bool) {
    forall i :: 0 <= i < |s| - 1 ==> !(isSpace(s[i]) && isSpace(s[i + 1]))
  }

  /** The characters of `s` that are not white space, in order. */
  function Visible(s: string, isSpace: char -> bool): (r: string)
    ensures |r| <= |s|
  {
    if s == [] then []
    else if isSpace(s[0]) then Visible(s[1..], isSpace)
    else [s[0]] + Visible(s[1..], isSpace)
  }

  /** A text that starts with a visible character keeps it first. */
  lemma FirstVisibleKept(s: string, isSpace: char -> bool, sep: char)
    requires s != [] && !isSpace(s[0])
    ensures ReplaceRuns(s, isSpace, sep) != [] && ReplaceRuns(s, isSpace, sep)[0] == s[0]
  {
  }

  /** Every character of the result other than `sep` comes from the input. */
  lemma {:induction false} CharsFromInput(s: string, isSpace: char -> bool, sep: char, c: char)
    requires c != sep && c in ReplaceRuns(s, isSpace, sep)
    ensures c in s
    decreases |s|
  {
    if isSpace(s[0]) {
      var d := DropRun(s, isSpace);
      CharsFromInput(d, isSpace, sep, c);
      assert c in s[|s| - |d|..];
    } else if c != s[0] {
      CharsFromInput(s[1..], isSpace, sep, c);
    }
  }

  /** The result holds no white space but `sep`, and when `sep` is itself white space, no two in a row. */
  lemma {:induction false} ReplaceRunsShape(s: string, isSpace: char -> bool, sep: char)
    ensures OnlySep(ReplaceRuns(s, isSpace, sep), isSpace, sep)
    ensures isSpace(sep) ==> NoAdjacentSpace(ReplaceRuns(s, isSpace, sep), isSpace)
    decreases |s|
  {
    if s != [] {
      var r := ReplaceRuns(s, isSpace, sep);
      if isSpace(s[0]) {
        var d := DropRun(s, isSpace);
        ReplaceRunsShape(d, isSpace, sep);
        if d != [] { FirstVisibleKept(d, isSpace, sep); }
        var rd := ReplaceRuns(d, isSpace, sep);
        assert r == [sep] + rd;
        assert forall i :: 1 <= i < |r| ==> r[i] == rd[i - 1];
      } else {
        ReplaceRunsShape(s[1..], isSpace, sep);
        var rt := ReplaceRuns(s[1..], isSpace, sep);
        assert r == [s[0]] + rt;
        assert forall i :: 1 <= i < |r| ==> r[i] == rt[i - 1];
      }
    }
  }

  lemma {:induction false} DropRunVisible(s: string, isSpace: char -> bool)
    ensures Visible(DropRun(s, isSpace), isSpace) == Visible(s, isSpace)
    decreases |s|
  {
    if s != [] && isSpace(s[0]) { DropRunVisible(s[1..], isSpace); }
  }

  /** When `sep` is white space, the visible characters are exactly those of the input, in order. */
  lemma {:induction false} ReplaceRunsKeepsVisible(s: string, isSpace: char -> bool, sep: char)
    requires isSpace(sep)
    ensures Visible(ReplaceRuns(s, isSpace, sep), isSpace) == Visible(s, isSpace)
    decreases |s|
  {
    if s != [] {
      if isSpace(s[0]) {
        var d := DropRun(s, isSpace);
        ReplaceRunsKeepsVisible(d, isSpace, sep);
        DropRunVisible(s, isSpace);
      } else {
        ReplaceRunsKeepsVisible(s[1..], isSpace, sep);
      }
    }
  }

  /** A text whose white space is already single `sep`s is left unchanged. */
  lemma {:induction false} ReplaceRunsFixed(s: string, isSpace: char -> bool, sep: char)
    requires OnlySep(s, isSpace, sep) && NoAdjacentSpace(s, isSpace)
    ensures ReplaceRuns(s, isSpace, sep) == s
    decreases |s|
  {
    if s != [] {
      assert OnlySep(s[1..], isSpace, sep) && NoAdjacentSpace(s[1..], isSpace) by {
        forall i | 0 <= i < |s| - 1 ensures s[1..][i] == s[i + 1] { }
      }
      ReplaceRunsFixed(s[1..], isSpace, sep);
      if isSpace(s[0]) {
        assert s[1..] == [] || !isSpace(s[1]);
        assert DropRun(s, isSpace) == s[1..];
      }
    }
  }
}
