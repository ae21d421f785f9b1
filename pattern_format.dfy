/**
  The text format of a pattern: a multiline string whose first line is
  discarded and whose remaining lines are rows of digit characters, one
  character per cell. `SplitLines` models the `str.splitlines()` call that
  the engine applies to the text, for texts whose only line break is '\n'.
 */
module PatternFormat {

  /** Position of the first line feed of `s` at or after `i`, or `|s|` when there is none. */
  function LineEnd(s: string, i: nat): (k: nat)
    requires i <= |s|
    ensures i <= k <= |s|
    ensures forall j :: i <= j < k ==> s[j] != '\n'
    ensures k < |s| ==> s[k] == '\n'
    decreases |s| - i
  {
    if i == |s| || s[i] == '\n' then i else LineEnd(s, i + 1)
  }

  /** Length of the first line of `s`: the position of its first line feed, or `|s|`. */
  function LineLength(s: string): (k: nat)
    ensures k <= |s|
    ensures forall i :: 0 <= i < k ==> s[i] != '\n'
    ensures k < |s| ==> s[k] == '\n'
  {
    LineEnd(s, 0)
  }

  /**
    The lines of `s` without their terminators. A final line feed does not
    start an empty last line, and the empty text has no lines at all.
   */
  function SplitLines(s: string): (lines: seq<string>)
    ensures s != [] <==> lines != []
    decreases |s|
  {
    if s == [] then []
    else
      var k := LineLength(s);
      if k == |s| then [s] else [s[..k]] + SplitLines(s[k + 1..])
  }

  /** No line of the split holds a line feed. */
  lemma {:induction false} SplitLinesNoLineFeeds(s: string)
    ensures NoLineFeeds(SplitLines(s))
    decreases |s|
  {
    if s != [] {
      var k := LineLength(s);
      if k < |s| {
        SplitLinesNoLineFeeds(s[k + 1..]);
        var lines := SplitLines(s);
        assert lines == [s[..k]] + SplitLines(s[k + 1..]);
        forall i | 0 <= i < |lines|
          ensures '\n' !in lines[i]
        {
          if i > 0 {
            assert lines[i] == SplitLines(s[k + 1..])[i - 1];
          }
        }
      }
    }
  }

  /** Every line followed by a line feed: a triple-quoted literal whose closing quotes stand on their own line. */
  function Terminated(lines: seq<string>): (text: string)
    ensures lines != [] ==> text != [] && text[|text| - 1] == '\n'
  {
    if lines == [] then [] else lines[0] + "\n" + Terminated(lines[1..])
  }

  predicate NoLineFeeds(lines: seq<string>)
  {
    forall i :: 0 <= i < |lines| ==> '\n' !in lines[i]
  }

  /** Splitting a line-terminated text gives back the lines it was built from. */
  lemma {:induction false} SplitTerminated(lines: seq<string>)
    requires NoLineFeeds(lines)
    ensures SplitLines(Terminated(lines)) == lines
  {
    if lines != [] {
      var l, rest := lines[0], Terminated(lines[1..]);
      var s := l + "\n" + rest;
      assert Terminated(lines) == s;
      var k := LineLength(s);
      assert s[|l|] == '\n';
      assert k == |l|;
      assert s[..k] == l;
      assert s[k + 1..] == rest;
      SplitTerminated(lines[1..]);
    }
  }

  /** A text ending in a line feed has a first line feed before its end. */
  lemma LineEndsBeforeEnd(s: string)
    requires s != [] && s[|s| - 1] == '\n'
    ensures LineLength(s) < |s|
  {
  }

  /** A terminated first line is split off on its own. */
  lemma SplitFirstLine(s: string, k: nat)
    requires k == LineLength(s) && k < |s|
    ensures SplitLines(s) == [s[..k]] + SplitLines(s[k + 1..])
  {
  }

  lemma CutAtLineFeed(s: string, k: nat)
    requires k < |s| && s[k] == '\n'
    ensures s == s[..k] + "\n" + s[k + 1..]
  {
    assert s == s[..k] + [s[k]] + s[k + 1..];
  }

  lemma TerminatedCons(line: string, lines: seq<string>)
    ensures Terminated([line] + lines) == line + "\n" + Terminated(lines)
  {
    assert ([line] + lines)[1..] == lines;
  }

  /** The inductive step of `TerminatedSplit`, on the pieces of the text. */
  lemma TerminatedJoin(s: string, line: string, rest: string)
    requires SplitLines(s) == [line] + SplitLines(rest)
    requires Terminated(SplitLines(rest)) == rest
    requires s == line + "\n" + rest
    ensures Terminated(SplitLines(s)) == s
  {
    TerminatedCons(line, SplitLines(rest));
  }

  /** Conversely, a text that is empty or ends in a line feed is the termination of its own lines. */
  lemma {:induction false} TerminatedSplit(s: string)
    requires s == [] || s[|s| - 1] == '\n'
    ensures Terminated(SplitLines(s)) == s
    decreases |s|
  {
    if s != [] {
      var k := LineLength(s);
      assert k < |s| by {
        LineEndsBeforeEnd(s);
      }
      var line, rest := s[..k], s[k + 1..];
      assert s == line + "\n" + rest by {
        CutAtLineFeed(s, k);
      }
      assert SplitLines(s) == [line] + SplitLines(rest) by {
        SplitFirstLine(s, k);
      }
      TerminatedSplit(rest);
      TerminatedJoin(s, line, rest);
    }
  }

  /** The rows the engine reads from a pattern text: every line but the first (life.py:232). */
  function Rows(text: string): (rows: seq<string>)
    ensures |rows| == if SplitLines(text) == [] then 0 else |SplitLines(text)| - 1
    ensures forall i :: 0 <= i < |rows| ==> rows[i] == SplitLines(text)[i + 1]
  {
    var lines := SplitLines(text);
    if lines == [] then [] else lines[1..]
  }

  predicate IsDigit(ch: char)
  {
    '0' <= ch <= '9'
  }

  /** The value `int(ch)` takes for a decimal digit character. */
  function DigitValue(ch: char): (v: int)
    requires IsDigit(ch)
    ensures 0 <= v <= 9
    ensures v == 0 <==> ch == '0'
  {
    ch as int - '0' as int
  }

  /** Every character of every row is a decimal digit, so `int(col)` cannot fail. */
  predicate DigitsOnly(rows: seq<string>)
  {
    forall i, j :: 0 <= i < |rows| && 0 <= j < |rows[i]| ==> IsDigit(rows[i][j])
  }

  /** Every character is '0' (dead) or '1' (alive), as the catalog's header comment prescribes. */
  predicate Binary(rows: seq<string>)
  {
    forall i, j :: 0 <= i < |rows| && 0 <= j < |rows[i]| ==> rows[i][j] == '0' || rows[i][j] == '1'
  }

  /** `height` rows, each `width` characters long. */
  predicate Rectangular(rows: seq<string>, height: nat, width: nat)
  {
    |rows| == height && forall i :: 0 <= i < |rows| ==> |rows[i]| == width
  }

  lemma BinaryRowsAreDigits(rows: seq<string>)
    requires Binary(rows)
    ensures DigitsOnly(rows)
    ensures NoLineFeeds(rows)
  {
  }
}
