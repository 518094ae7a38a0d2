/**
 * The string primitives of .NET that the chat client relies on:
 * `string.IsNullOrWhiteSpace`, `Replace`, `Split(char)` and `string.Join`,
 * and the message newline normalisation built from them.
 */
module Text {
  import opened Wrappers

  /** `char.IsWhiteSpace`: the characters of the Unicode White_Space property. */
  predicate IsWhiteSpace(c: char) {
    ('\U{9}' <= c <= '\U{D}') || c == ' ' || c == '\U{85}' || c == '\U{A0}' || c == '\U{1680}'
    || ('\U{2000}' <= c <= '\U{200A}') || c == '\U{2028}' || c == '\U{2029}'
    || c == '\U{202F}' || c == '\U{205F}' || c == '\U{3000}'
  }

  predicate AllWhiteSpace(s: string) {
    forall i :: 0 <= i < |s| ==> IsWhiteSpace(s[i])
  }

  /** `string.IsNullOrWhiteSpace`. */
  predicate IsBlank(s: Option<string>) {
    s.None? || AllWhiteSpace(s.value)
  }

  /** Holds when `s` has a character that is not white space. */
  predicate HasVisible(s: string) {
    exists i :: 0 <= i < |s| && !IsWhiteSpace(s[i])
  }

  /** An ASCII decimal digit. */
  predicate IsDigit(c: char) {
    '0' <= c <= '9'
  }

  /** The number a string of decimal digits reads as, most significant digit first. */
  function DigitsValue(s: string): int
    decreases |s|
  {
    if s == [] then 0 else 10 * DigitsValue(s[..|s| - 1]) + (s[|s| - 1] as int - '0' as int)
  }

  /** `Environment.NewLine`: CRLF on Windows, LF elsewhere. */
  type NewLine = s: string | s == "\r\n" || s == "\n" witness "\r\n"

  /** `s.Replace("\r\n", "\n")`: occurrences are replaced left to right, without overlap. */
  function CrLfToLf(s: string): string {
    if |s| >= 2 && s[0] == '\r' && s[1] == '\n' then "\n" + CrLfToLf(s[2..])
    else if s == [] then []
    else [s[0]] + CrLfToLf(s[1..])
  }

  /** `s.Replace("\n", nl)`. */
  function LfTo(s: string, nl: string): string {
    if s == [] then []
    else (if s[0] == '\n' then nl else [s[0]]) + LfTo(s[1..], nl)
  }

  /** `s.Replace(from, to)` for single characters. */
  function ReplaceChar(s: string, from: char, to: char): (r: string)
    ensures |r| == |s|
    ensures forall i :: 0 <= i < |s| ==> r[i] == (if s[i] == from then to else s[i])
  {
    if s == [] then [] else [if s[0] == from then to else s[0]] + ReplaceChar(s[1..], from, to)
  }

  /**
   * `NormalizeMessage` (and the identical `NormalizeMessageLocal` of the chat
   * window): CRLF becomes LF, then every LF becomes the platform newline; null stays null.
   */
  function NormalizeMessage(text: Option<string>, nl: NewLine): (r: Option<string>)
    ensures r.None? <==> text.None?
  {
    match text
    case None => None
    case Some(t) => Some(LfTo(CrLfToLf(t), nl))
  }

  /** `s.Split(sep)`: the pieces between separators, one more than there are separators. */
  function Split(s: string, sep: char): (parts: seq<string>)
    ensures |parts| >= 1
  {
    if s == [] then [""]
    else
      var rest := Split(s[1..], sep);
      if s[0] == sep then [""] + rest
      else [[s[0]] + rest[0]] + rest[1..]
  }

  /** `string.Join(sep, parts)`. */
  function Join(sep: string, parts: seq<string>): string {
    if |parts| == 0 then ""
    else if |parts| == 1 then parts[0]
    else parts[0] + sep + Join(sep, parts[1..])
  }

  /** Upper-casing as `OrdinalIgnoreCase` does it for ASCII letters; other characters are kept. */
  function AsciiUpper(c: char): (u: char)
    ensures ('a' <= c <= 'z') ==> u as int == c as int - 32
    ensures !('a' <= c <= 'z') ==> u == c
  {
    if 'a' <= c <= 'z' then (c as int - 32) as char else c
  }

  /** `string.Equals(a, b, StringComparison.OrdinalIgnoreCase)` on two non-null strings. */
  predicate EqualsIgnoreCase(a: string, b: string) {
    |a| == |b| && forall i :: 0 <= i < |a| ==> AsciiUpper(a[i]) == AsciiUpper(b[i])
  }

  // ---------------------------------------------------------------------------
  // Properties
  // ---------------------------------------------------------------------------

  /** Joining the pieces of a split with the separator gives back the string. */
  lemma {:induction false} JoinSplit(s: string, sep: char)
    ensures Join([sep], Split(s, sep)) == s
  {
    if s != [] {
      var rest := Split(s[1..], sep);
      JoinSplit(s[1..], sep);
      if s[0] == sep {
        assert Split(s, sep) == [""] + rest;
        assert Join([sep], [""] + rest) == "" + [sep] + Join([sep], rest);
      } else if |rest| == 1 {
        assert Split(s, sep) == [[s[0]] + rest[0]];
      } else {
        var parts := Split(s, sep);
        assert parts == [[s[0]] + rest[0]] + rest[1..];
        assert parts[1..] == rest[1..];
        assert Join([sep], rest) == rest[0] + [sep] + Join([sep], rest[1..]);
        assert Join([sep], parts) == [s[0]] + rest[0] + [sep] + Join([sep], rest[1..]);
      }
    }
  }

  lemma {:induction false} LfToCrLfNeverStartsWithLf(s: string)
    ensures |LfTo(s, "\r\n")| > 0 ==> LfTo(s, "\r\n")[0] != '\n'
  {
  }

  /** Turning LF into CRLF and back is the identity. */
  lemma {:induction false} CrLfToLfUndoesLfToCrLf(s: string)
    ensures CrLfToLf(LfTo(s, "\r\n")) == s
  {
    if s != [] {
      var rest := LfTo(s[1..], "\r\n");
      CrLfToLfUndoesLfToCrLf(s[1..]);
      if s[0] == '\n' {
        assert LfTo(s, "\r\n") == "\r\n" + rest;
        assert CrLfToLf("\r\n" + rest) == "\n" + CrLfToLf(rest);
      } else {
        LfToCrLfNeverStartsWithLf(s[1..]);
        assert LfTo(s, "\r\n") == [s[0]] + rest;
        assert ([s[0]] + rest)[1..] == rest;
        assert CrLfToLf([s[0]] + rest) == [s[0]] + CrLfToLf(rest);
      }
    }
  }

  /** With a CRLF platform newline (Windows) normalising twice is normalising once. */
  lemma NormalizeMessageIdempotentOnCrLf(text: Option<string>)
    ensures NormalizeMessage(NormalizeMessage(text, "\r\n"), "\r\n") == NormalizeMessage(text, "\r\n")
  {
    if text.Some? {
      CrLfToLfUndoesLfToCrLf(CrLfToLf(text.value));
    }
  }

  /** With an LF platform newline normalisation is not idempotent: "\r\r\n" shrinks twice. */
  lemma NormalizeMessageNotIdempotentOnLf()
    ensures NormalizeMessage(Some("\r\r\n"), "\n") == Some("\r\n")
    ensures NormalizeMessage(Some("\r\n"), "\n") == Some("\n")
  {
    var crlf, lone := "\r\n", "\r\r\n";
    assert crlf[2..] == [] && lone[1..] == crlf;
    assert CrLfToLf(crlf) == "\n";
    assert CrLfToLf(lone) == "\r" + CrLfToLf(crlf);
    var lf := "\n";
    assert lf[1..] == [] && crlf[1..] == lf;
    assert LfTo(lf, "\n") == "\n";
    assert LfTo(crlf, "\n") == "\r" + LfTo(lf, "\n") == crlf;
    assert CrLfToLf(lone) == crlf;
    assert NormalizeMessage(Some(lone), "\n") == Some(LfTo(CrLfToLf(lone), "\n"));
  }

  /** A line without CR or LF (what the transport's line reader delivers) is not altered. */
  lemma {:induction false} NormalizeMessageKeepsSingleLine(s: string, nl: NewLine)
    requires '\r' !in s && '\n' !in s
    ensures NormalizeMessage(Some(s), nl) == Some(s)
  {
    SingleLineUnchanged(s, nl);
  }

  lemma {:induction false} SingleLineUnchanged(s: string, nl: NewLine)
    requires '\r' !in s && '\n' !in s
    ensures CrLfToLf(s) == s && LfTo(s, nl) == s
  {
    if s != [] {
      SingleLineUnchanged(s[1..], nl);
    }
  }

  /** Normalising keeps every visible character, so a non-blank text stays non-blank. */
  lemma {:induction false} NormalizeMessageKeepsVisible(s: string, nl: NewLine)
    requires HasVisible(s)
    ensures HasVisible(LfTo(CrLfToLf(s), nl))
  {
    CrLfToLfKeepsVisible(s);
    LfToKeepsVisible(CrLfToLf(s), nl);
  }

  lemma {:induction false} CrLfToLfKeepsVisible(s: string)
    requires HasVisible(s)
    ensures HasVisible(CrLfToLf(s))
  {
    if |s| >= 2 && s[0] == '\r' && s[1] == '\n' {
      var i :| 0 <= i < |s| && !IsWhiteSpace(s[i]);
      assert !IsWhiteSpace(s[2..][i - 2]);
      CrLfToLfKeepsVisible(s[2..]);
      var j :| 0 <= j < |CrLfToLf(s[2..])| && !IsWhiteSpace(CrLfToLf(s[2..])[j]);
      assert CrLfToLf(s)[j + 1] == CrLfToLf(s[2..])[j];
    } else if !IsWhiteSpace(s[0]) {
      assert CrLfToLf(s)[0] == s[0];
    } else {
      var i :| 0 <= i < |s| && !IsWhiteSpace(s[i]);
      assert !IsWhiteSpace(s[1..][i - 1]);
      CrLfToLfKeepsVisible(s[1..]);
      var j :| 0 <= j < |CrLfToLf(s[1..])| && !IsWhiteSpace(CrLfToLf(s[1..])[j]);
      assert CrLfToLf(s)[j + 1] == CrLfToLf(s[1..])[j];
    }
  }

  lemma {:induction false} LfToKeepsVisible(s: string, nl: NewLine)
    requires HasVisible(s)
    ensures HasVisible(LfTo(s, nl))
  {
    if !IsWhiteSpace(s[0]) {
      assert LfTo(s, nl)[0] == s[0];
    } else {
      var i :| 0 <= i < |s| && !IsWhiteSpace(s[i]);
      assert !IsWhiteSpace(s[1..][i - 1]);
      LfToKeepsVisible(s[1..], nl);
      var head := if s[0] == '\n' then nl else [s[0]];
      var j :| 0 <= j < |LfTo(s[1..], nl)| && !IsWhiteSpace(LfTo(s[1..], nl)[j]);
      assert LfTo(s, nl)[|head| + j] == LfTo(s[1..], nl)[j];
    }
  }

  /** No piece of a split holds the separator. */
  lemma {:induction false} SplitPiecesLackSeparator(s: string, sep: char)
    ensures forall i :: 0 <= i < |Split(s, sep)| ==> sep !in Split(s, sep)[i]
  {
    if s != [] {
      SplitPiecesLackSeparator(s[1..], sep);
      var rest := Split(s[1..], sep);
      if s[0] != sep {
        assert sep !in [s[0]] + rest[0];
      }
    }
  }

  /** A character of the text other than the separator lands in piece `k` at offset `m`. */
  lemma {:induction false} SplitKeepsCharAt(s: string, sep: char, j: nat) returns (k: nat, m: nat)
    requires j < |s| && s[j] != sep
    ensures k < |Split(s, sep)| && m < |Split(s, sep)[k]| && Split(s, sep)[k][m] == s[j]
  {
    var rest := Split(s[1..], sep);
    if j == 0 {
      k, m := 0, 0;
      assert Split(s, sep)[0] == [s[0]] + rest[0];
    } else {
      assert s[1..][j - 1] == s[j];
      var k', m' := SplitKeepsCharAt(s[1..], sep, j - 1);
      if s[0] == sep {
        k, m := k' + 1, m';
        assert Split(s, sep) == [""] + rest;
      } else if k' == 0 {
        k, m := 0, m' + 1;
        assert Split(s, sep)[0] == [s[0]] + rest[0];
      } else {
        k, m := k', m';
        assert Split(s, sep) == [[s[0]] + rest[0]] + rest[1..];
      }
    }
  }

  /** A visible character of the text is a visible character of one of its pieces. */
  lemma SplitKeepsVisible(s: string, sep: char)
    requires HasVisible(s) && IsWhiteSpace(sep)
    ensures exists k :: 0 <= k < |Split(s, sep)| && HasVisible(Split(s, sep)[k])
  {
    var j :| 0 <= j < |s| && !IsWhiteSpace(s[j]);
    var k, m := SplitKeepsCharAt(s, sep, j);
    assert !IsWhiteSpace(Split(s, sep)[k][m]);
  }

  /** A visible character of a piece is a visible character of the joined text. */
  lemma {:induction false} JoinKeepsVisible(sep: string, parts: seq<string>, k: nat)
    requires k < |parts| && HasVisible(parts[k])
    ensures HasVisible(Join(sep, parts))
  {
    if |parts| == 1 {
    } else if k == 0 {
      var j :| 0 <= j < |parts[0]| && !IsWhiteSpace(parts[0][j]);
      assert Join(sep, parts)[j] == parts[0][j];
    } else {
      JoinKeepsVisible(sep, parts[1..], k - 1);
      var rest := Join(sep, parts[1..]);
      var j :| 0 <= j < |rest| && !IsWhiteSpace(rest[j]);
      assert Join(sep, parts)[|parts[0]| + |sep| + j] == rest[j];
    }
  }

  lemma VisibleIsNotBlank(s: string)
    ensures HasVisible(s) <==> !IsBlank(Some(s))
  {
  }

  lemma {:induction false} CrLfToLfOfBlank(s: string)
    requires !HasVisible(s)
    ensures !HasVisible(CrLfToLf(s))
  {
    if |s| >= 2 && s[0] == '\r' && s[1] == '\n' {
      assert forall i :: 0 <= i < |s[2..]| ==> s[2..][i] == s[i + 2];
      CrLfToLfOfBlank(s[2..]);
      var r := CrLfToLf(s[2..]);
      assert CrLfToLf(s) == "\n" + r;
      assert forall i :: 0 < i < |r| + 1 ==> ("\n" + r)[i] == r[i - 1];
    } else if s != [] {
      assert forall i :: 0 <= i < |s[1..]| ==> s[1..][i] == s[i + 1];
      CrLfToLfOfBlank(s[1..]);
      var r := CrLfToLf(s[1..]);
      assert CrLfToLf(s) == [s[0]] + r;
      assert forall i :: 0 < i < |r| + 1 ==> ([s[0]] + r)[i] == r[i - 1];
    }
  }

  lemma {:induction false} LfToOfBlank(s: string, nl: NewLine)
    requires !HasVisible(s)
    ensures !HasVisible(LfTo(s, nl))
  {
    if s != [] {
      assert forall i :: 0 <= i < |s[1..]| ==> s[1..][i] == s[i + 1];
      LfToOfBlank(s[1..], nl);
      var head := if s[0] == '\n' then nl else [s[0]];
      var r := LfTo(s[1..], nl);
      assert LfTo(s, nl) == head + r;
      assert forall i :: |head| <= i < |head| + |r| ==> (head + r)[i] == r[i - |head|];
    }
  }

  /** Normalising a blank text gives a blank text. */
  lemma NormalizeMessageKeepsBlank(s: string, nl: NewLine)
    requires !HasVisible(s)
    ensures !HasVisible(LfTo(CrLfToLf(s), nl))
  {
    CrLfToLfOfBlank(s);
    LfToOfBlank(CrLfToLf(s), nl);
  }

  /** Ignoring case is an equivalence: equal strings match, and matching is symmetric and transitive. */
  lemma EqualsIgnoreCaseIsEquivalence(a: string, b: string, c: string)
    ensures EqualsIgnoreCase(a, a)
    ensures EqualsIgnoreCase(a, b) ==> EqualsIgnoreCase(b, a)
    ensures EqualsIgnoreCase(a, b) && EqualsIgnoreCase(b, c) ==> EqualsIgnoreCase(a, c)
  {
  }

  /**
   * Only the case of ASCII letters is ignored: replacing one character keeps a
   * match exactly when the new character is the old one in either case.
   */
  lemma EqualsIgnoreCaseOneChange(a: string, i: nat, c: char)
    requires i < |a|
    ensures EqualsIgnoreCase(a, a[i := c]) <==> AsciiUpper(a[i]) == AsciiUpper(c)
  {
    if AsciiUpper(a[i]) == AsciiUpper(c) {
      forall k | 0 <= k < |a|
        ensures AsciiUpper(a[k]) == AsciiUpper(a[i := c][k])
      {
      }
    } else {
      assert a[i := c][i] == c;
    }
  }
}
