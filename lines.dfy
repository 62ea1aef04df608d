/**
 * Python's `str.splitlines()` (no `keepends`), which gen.py uses to count
 * the segments of an opinion's text.  A segment ends at any of Python's
 * line boundaries; `\r\n` is one boundary; a boundary at the very end of
 * the text does not open an empty last segment; the empty text has no
 * segments.
 */
module Lines {

  /** The characters Python treats as line boundaries. */
  predicate IsLineBreak(ch: char)
  {
    ch == '\n' || ch == '\r' || ch == '\U{0B}' || ch == '\U{0C}'
    || ch == '\U{1C}' || ch == '\U{1D}' || ch == '\U{1E}'
    || ch == '\U{85}' || ch == '\U{2028}' || ch == '\U{2029}'
  }

  predicate NoLineBreak(s: string)
  {
    forall k :: 0 <= k < |s| ==> !IsLineBreak(s[k])
  }

  /** Index of the first line boundary of `s`, or `|s|` when there is none. */
  function FirstBreak(s: string): (j: nat)
    ensures j <= |s|
    ensures NoLineBreak(s[..j])
    ensures j < |s| ==> IsLineBreak(s[j])
  {
    if s == [] then 0
    else if IsLineBreak(s[0]) then 0
    else 1 + FirstBreak(s[1..])
  }

  /** Number of characters of the boundary at `j`: two for `\r\n`, one otherwise. */
  function BreakWidth(s: string, j: nat): nat
    requires j < |s|
  {
    if s[j] == '\r' && j + 1 < |s| && s[j + 1] == '\n' then 2 else 1
  }

  /** The segments `s.splitlines()` returns. */
  function SplitLines(s: string): (r: seq<string>)
    ensures |r| <= |s|
    ensures r == [] <==> s == []
    ensures forall i :: 0 <= i < |r| ==> NoLineBreak(r[i])
    decreases |s|
  {
    if s == [] then []
    else
      var j := FirstBreak(s);
      if j == |s| then [s]
      else [s[..j]] + SplitLines(s[j + BreakWidth(s, j)..])
  }

  /**
   * Position `i` closes a line: it holds a boundary character that is not
   * the `\r` of a `\r\n` pair.
   */
  predicate EndsLineAt(s: string, i: nat)
    requires i < |s|
  {
    IsLineBreak(s[i]) && !(s[i] == '\r' && i + 1 < |s| && s[i + 1] == '\n')
  }

  /** Number of positions of `s` that close a line. */
  function LineEnds(s: string): nat
  {
    if s == [] then 0
    else (if EndsLineAt(s, 0) then 1 else 0) + LineEnds(s[1..])
  }

  /** Text after the last boundary opens one more segment. */
  function Trailing(s: string): nat
  {
    if s != [] && !IsLineBreak(s[|s| - 1]) then 1 else 0
  }

  /** A prefix free of boundaries contributes no line ends. */
  lemma {:induction false} LineEndsSkip(s: string, j: nat)
    requires j <= |s| && NoLineBreak(s[..j])
    ensures LineEnds(s) == LineEnds(s[j..])
    decreases j
  {
    if j > 0 {
      assert !IsLineBreak(s[..j][0]);
      var tail := s[1..j];
      assert s[1..][..j - 1] == tail;
      forall k | 0 <= k < j - 1 ensures !IsLineBreak(tail[k]) {
        assert tail[k] == s[..j][k + 1];
      }
      LineEndsSkip(s[1..], j - 1);
      assert s[1..][j - 1..] == s[j..];
    }
  }

  /** A boundary at the front closes exactly one line, `\r\n` included. */
  lemma LineEndsAtBreak(t: string)
    requires t != [] && IsLineBreak(t[0])
    ensures LineEnds(t) == 1 + LineEnds(t[BreakWidth(t, 0)..])
  {
    if BreakWidth(t, 0) == 2 {
      assert !EndsLineAt(t, 0);
      assert t[1..][0] == '\n' && EndsLineAt(t[1..], 0);
      assert t[1..][1..] == t[2..];
    } else {
      assert EndsLineAt(t, 0);
    }
  }

  /** What follows a boundary decides whether text trails the last one. */
  lemma TrailingAfterBreak(s: string, j: nat)
    requires j < |s| && IsLineBreak(s[j])
    ensures Trailing(s) == Trailing(s[j + BreakWidth(s, j)..])
  {
    var rest := s[j + BreakWidth(s, j)..];
    if rest == [] {
      assert s[|s| - 1] == s[j + BreakWidth(s, j) - 1];
    } else {
      assert rest[|rest| - 1] == s[|s| - 1];
    }
  }

  /** A text without boundaries closes no line, and text trails unless it is empty. */
  lemma NoBreakCount(s: string)
    requires s != [] && NoLineBreak(s)
    ensures LineEnds(s) == 0 && Trailing(s) == 1
  {
    LineEndsSkip(s, |s|);
    assert s[..|s|] == s;
    assert LineEnds(s[|s|..]) == 0;
  }

  /**
   * The number of segments is the number of line-closing positions, plus
   * one when text follows the last boundary: a closed-form count that does
   * not split anything.
   */
  lemma {:induction false} SplitLinesCount(s: string)
    ensures |SplitLines(s)| == LineEnds(s) + Trailing(s)
    decreases |s|
  {
    if s != [] {
      var j := FirstBreak(s);
      if j == |s| {
        assert s[..j] == s;
        NoBreakCount(s);
      } else {
        var w := BreakWidth(s, j);
        SplitLinesCount(s[j + w..]);
        LineEndsSkip(s, j);
        assert BreakWidth(s[j..], 0) == w;
        assert s[j..][w..] == s[j + w..];
        LineEndsAtBreak(s[j..]);
        TrailingAfterBreak(s, j);
      }
    }
  }

  /** A boundary-free line followed by `\n` is split off as one segment. */
  lemma SplitLinesNewline(a: string, rest: string)
    requires NoLineBreak(a)
    ensures SplitLines(a + "\n" + rest) == [a] + SplitLines(rest)
  {
    var s := a + "\n" + rest;
    var j := FirstBreak(s);
    assert s[|a|] == '\n';
    assert s[..j] == a;
    assert s[j + 1..] == rest;
  }

  /** A text with no boundary at all is a single segment. */
  lemma SplitLinesSingle(a: string)
    requires a != [] && NoLineBreak(a)
    ensures SplitLines(a) == [a]
  {
    assert FirstBreak(a) == |a|;
  }

  /** A final boundary opens no segment. */
  lemma TrailingBreakExample()
    ensures SplitLines("a\n") == ["a"]
  {
    assert FirstBreak("a\n") == 1 && "a\n"[..1] == "a";
    assert "a\n"[2..] == [];
  }

  /** `\r\n` is one boundary. */
  lemma CrLfExample()
    ensures SplitLines("a\r\nb") == ["a", "b"]
  {
    assert FirstBreak("a\r\nb") == 1 && "a\r\nb"[..1] == "a";
    assert BreakWidth("a\r\nb", 1) == 2 && "a\r\nb"[3..] == "b";
    SplitLinesSingle("b");
  }

  /** A lone `\r` and the Unicode line separator are boundaries too. */
  lemma OtherBreaksExample()
    ensures SplitLines("a\rb\U{2028}c") == ["a", "b", "c"]
  {
    assert FirstBreak("a\rb\U{2028}c") == 1 && "a\rb\U{2028}c"[..1] == "a";
    assert "a\rb\U{2028}c"[2..] == "b\U{2028}c";
    assert FirstBreak("b\U{2028}c") == 1 && "b\U{2028}c"[..1] == "b";
    assert "b\U{2028}c"[2..] == "c";
    SplitLinesSingle("c");
  }

  /** An empty line between two boundaries is a segment of its own. */
  lemma EmptyLineExample()
    ensures SplitLines("a\n\nb") == ["a", "", "b"]
  {
    assert FirstBreak("a\n\nb") == 1 && "a\n\nb"[..1] == "a";
    assert "a\n\nb"[2..] == "\nb";
    assert FirstBreak("\nb") == 0 && "\nb"[..0] == "";
    assert "\nb"[1..] == "b";
    SplitLinesSingle("b");
  }
}
