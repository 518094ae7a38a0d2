/**
 * `TrimEdgesEmptyLines` and `TrimTrailingEmptyLines` of the chat view model:
 * the text is split into lines at LF (after CRLF became LF), blank lines are
 * dropped from the ends, and the rest is joined with the platform newline.
 */
module LineTrimming {
  import opened Wrappers
  import opened Text

  /** Number of blank lines before the first non-blank one. */
  function FirstNonBlank(lines: seq<string>): (lo: nat)
    ensures lo <= |lines|
    ensures forall i :: 0 <= i < lo ==> AllWhiteSpace(lines[i])
    ensures lo < |lines| ==> !AllWhiteSpace(lines[lo])
  {
    if |lines| == 0 || !AllWhiteSpace(lines[0]) then 0 else 1 + FirstNonBlank(lines[1..])
  }

  /** One past the last non-blank line (0 when every line is blank). */
  function LastNonBlankEnd(lines: seq<string>): (hi: nat)
    ensures hi <= |lines|
    ensures forall i :: hi <= i < |lines| ==> AllWhiteSpace(lines[i])
    ensures hi > 0 ==> !AllWhiteSpace(lines[hi - 1])
  {
    if |lines| == 0 || !AllWhiteSpace(lines[|lines| - 1]) then |lines|
    else LastNonBlankEnd(lines[..|lines| - 1])
  }

  /** The blank lines before `lo` and a non-blank one at `lo` (or none left) fix `FirstNonBlank`. */
  lemma FirstNonBlankIs(lines: seq<string>, lo: nat)
    requires lo <= |lines|
    requires forall i :: 0 <= i < lo ==> AllWhiteSpace(lines[i])
    requires lo < |lines| ==> !AllWhiteSpace(lines[lo])
    ensures FirstNonBlank(lines) == lo
  {
    var first := FirstNonBlank(lines);
    assert first < |lines| ==> !AllWhiteSpace(lines[first]);
  }

  /** Blank lines from `hi` on and a non-blank one before `hi` (or none at all) fix `LastNonBlankEnd`. */
  lemma LastNonBlankEndIs(lines: seq<string>, hi: nat)
    requires hi <= |lines|
    requires forall i :: hi <= i < |lines| ==> AllWhiteSpace(lines[i])
    requires hi > 0 ==> !AllWhiteSpace(lines[hi - 1])
    ensures LastNonBlankEnd(lines) == hi
  {
    var end := LastNonBlankEnd(lines);
    assert end > 0 ==> !AllWhiteSpace(lines[end - 1]);
  }

  /** The lines that survive trimming at both ends. */
  function EdgeTrimmed(lines: seq<string>): (kept: seq<string>)
    ensures kept == [] <==> forall i :: 0 <= i < |lines| ==> AllWhiteSpace(lines[i])
    ensures kept != [] ==> !AllWhiteSpace(kept[0]) && !AllWhiteSpace(kept[|kept| - 1])
    ensures kept != [] ==> kept == lines[FirstNonBlank(lines)..LastNonBlankEnd(lines)]
  {
    var lo, hi := FirstNonBlank(lines), LastNonBlankEnd(lines);
    if lo == |lines| then [] else lines[lo..hi]
  }

  /** The lines that survive trimming at the end. */
  function TailTrimmed(lines: seq<string>): (kept: seq<string>)
    ensures kept == [] <==> forall i :: 0 <= i < |lines| ==> AllWhiteSpace(lines[i])
    ensures kept != [] ==> !AllWhiteSpace(kept[|kept| - 1])
    ensures |kept| <= |lines| && kept == lines[..|kept|]
    ensures forall i :: |kept| <= i < |lines| ==> AllWhiteSpace(lines[i])
  {
    lines[..LastNonBlankEnd(lines)]
  }

  /** The lines of `text` as `TrimEdgesEmptyLines` sees them. */
  function Lines(text: string): seq<string> {
    Split(CrLfToLf(text), '\n')
  }

  /**
   * `TrimEdgesEmptyLines`: null stays null; otherwise leading and trailing blank
   * lines are dropped and the remaining lines, unchanged and in order, are joined
   * with the platform newline ("" when no line is left).
   */
  method TrimEdgesEmptyLines(text: Option<string>, nl: NewLine) returns (r: Option<string>)
    ensures text.None? ==> r.None?
    ensures text.Some? ==> r == Some(Join(nl, EdgeTrimmed(Lines(text.value))))
  {
    if text.None? {
      return None;
    }
    var normalized := CrLfToLf(text.value);
    var parts := Split(normalized, '\n');
    var start := 0;
    var end := |parts| - 1;
    while start <= end && IsBlank(Some(parts[start]))
      invariant 0 <= start <= |parts| && end == |parts| - 1
      invariant forall i :: 0 <= i < start ==> AllWhiteSpace(parts[i])
    {
      start := start + 1;
    }
    FirstNonBlankIs(parts, start);
    while end >= start && IsBlank(Some(parts[end]))
      invariant start - 1 <= end < |parts|
      invariant start < |parts| ==> start <= end
      invariant forall i :: end < i < |parts| ==> AllWhiteSpace(parts[i])
    {
      end := end - 1;
    }
    assert parts == Lines(text.value);
    if start > end {
      assert EdgeTrimmed(parts) == [];
      return Some("");
    }
    LastNonBlankEndIs(parts, end + 1);
    assert EdgeTrimmed(parts) == parts[start..end + 1];
    return Some(Join(nl, parts[start..end + 1]));
  }

  /**
   * `TrimTrailingEmptyLines`: null stays null; otherwise trailing blank lines are
   * dropped and the remaining lines are joined with the platform newline.
   */
  method TrimTrailingEmptyLines(text: Option<string>, nl: NewLine) returns (r: Option<string>)
    ensures text.None? ==> r.None?
    ensures text.Some? ==> r == Some(Join(nl, TailTrimmed(Lines(text.value))))
  {
    if text.None? {
      return None;
    }
    var normalized := CrLfToLf(text.value);
    var parts := Split(normalized, '\n');
    var end := |parts| - 1;
    while end >= 0 && IsBlank(Some(parts[end]))
      invariant -1 <= end < |parts|
      invariant forall i :: end < i < |parts| ==> AllWhiteSpace(parts[i])
    {
      end := end - 1;
    }
    if end < 0 {
      LastNonBlankEndIs(parts, 0);
      return Some("");
    }
    LastNonBlankEndIs(parts, end + 1);
    return Some(Join(nl, parts[..end + 1]));
  }

  // ---------------------------------------------------------------------------
  // Properties
  // ---------------------------------------------------------------------------

  /** A text with a visible character keeps it through trimming, so it stays non-blank. */
  lemma EdgeTrimmedKeepsVisible(text: string, nl: NewLine)
    requires HasVisible(text)
    ensures HasVisible(Join(nl, EdgeTrimmed(Lines(text))))
  {
    CrLfToLfKeepsVisible(text);
    var normalized := CrLfToLf(text);
    var lines := Lines(text);
    var j :| 0 <= j < |normalized| && !IsWhiteSpace(normalized[j]);
    var k, m := SplitKeepsCharAt(normalized, '\n', j);
    assert !IsWhiteSpace(lines[k][m]);
    var at := NonBlankLineKept(lines, k);
    var kept := EdgeTrimmed(lines);
    assert !IsWhiteSpace(kept[at][m]);
    JoinKeepsVisible(nl, kept, at);
  }

  /** A non-blank line survives edge trimming, at position `at` of the kept lines. */
  lemma NonBlankLineKept(lines: seq<string>, k: nat) returns (at: nat)
    requires k < |lines| && !AllWhiteSpace(lines[k])
    ensures at < |EdgeTrimmed(lines)| && EdgeTrimmed(lines)[at] == lines[k]
  {
    var lo, hi := FirstNonBlank(lines), LastNonBlankEnd(lines);
    assert lo <= k;
    assert k < hi;
    at := k - lo;
  }

  /** A text of white space only trims to the empty string. */
  lemma {:induction false} EdgeTrimmedOfBlank(text: string, nl: NewLine)
    requires !HasVisible(text)
    ensures Join(nl, EdgeTrimmed(Lines(text))) == ""
  {
    var lines := Lines(text);
    JoinSplit(CrLfToLf(text), '\n');
    forall i | 0 <= i < |lines|
      ensures AllWhiteSpace(lines[i])
    {
      if !AllWhiteSpace(lines[i]) {
        JoinKeepsVisible("\n", lines, i);
        CrLfToLfOfBlank(text);
        assert false;
      }
    }
  }
}
