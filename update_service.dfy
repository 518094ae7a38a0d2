/**
 * The update check (`UpdateService`): comparing a release tag with the running
 * version, and choosing the installer among a release's asset URLs. The HTTP
 * request and the JSON document are not modelled; the asset list is an input.
 */
module UpdateService {
  import opened Wrappers
  import opened Text

  // ---------------------------------------------------------------------------
  // Version strings
  // ---------------------------------------------------------------------------

  predicate IsVersionSuffixMark(c: char) {
    c == '-' || c == '+'
  }

  /** The part before the first '-' or '+' (`Split('-', '+')[0]`). */
  function BeforeSuffix(s: string): (r: string)
    ensures |r| <= |s| && r == s[..|r|]
    ensures forall i :: 0 <= i < |r| ==> !IsVersionSuffixMark(r[i])
    ensures |r| < |s| ==> IsVersionSuffixMark(s[|r|])
  {
    if s == [] || IsVersionSuffixMark(s[0]) then [] else [s[0]] + BeforeSuffix(s[1..])
  }

  /**
   * `NormalizeVersion`: a blank value is returned as it is; otherwise one
   * leading 'v' or 'V' is dropped, then everything from the first '-' or '+'.
   */
  function NormalizeVersion(v: Option<string>): (r: Option<string>)
    ensures IsBlank(v) ==> r == v
    ensures !IsBlank(v) ==>
      var body := if v.value[0] == 'v' || v.value[0] == 'V' then v.value[1..] else v.value;
      r == Some(BeforeSuffix(body))
  {
    if IsBlank(v) then v
    else
      var body := if v.value[0] == 'v' || v.value[0] == 'V' then v.value[1..] else v.value;
      Some(BeforeSuffix(body))
  }

  // ---------------------------------------------------------------------------
  // int.TryParse (NumberStyles.Integer)
  // ---------------------------------------------------------------------------

  /** The white space `NumberStyles.Integer` allows around a number. */
  predicate IsNumberWhite(c: char) {
    c == ' ' || '\t' <= c <= '\r'
  }

  function TrimStart(s: string): (r: string)
    ensures |r| <= |s| && r == s[|s| - |r|..]
    ensures r == [] || !IsNumberWhite(r[0])
    ensures forall i :: 0 <= i < |s| - |r| ==> IsNumberWhite(s[i])
  {
    if s != [] && IsNumberWhite(s[0]) then TrimStart(s[1..]) else s
  }

  function TrimEnd(s: string): (r: string)
    ensures |r| <= |s| && r == s[..|r|]
    ensures r == [] || !IsNumberWhite(r[|r| - 1])
    ensures forall i :: |r| <= i < |s| ==> IsNumberWhite(s[i])
  {
    if s != [] && IsNumberWhite(s[|s| - 1]) then TrimEnd(s[..|s| - 1]) else s
  }

  const Int32Min := -0x8000_0000
  const Int32Max := 0x7FFF_FFFF

  predicate HasSign(t: string) {
    |t| > 0 && (t[0] == '-' || t[0] == '+')
  }

  /** The text after an optional leading sign. */
  function Unsigned(t: string): string {
    if HasSign(t) then t[1..] else t
  }

  /** A character that can appear nowhere in a number. */
  predicate IsForeign(c: char) {
    !IsNumberWhite(c) && !IsDigit(c) && c != '+' && c != '-'
  }

  predicate AllDigits(s: string) {
    forall i :: 0 <= i < |s| ==> IsDigit(s[i])
  }

  /** An optional sign and at least one digit, whose value must fit in 32 bits. */
  function SignedDigits(t: string): (r: Option<int>)
    ensures r.Some? ==> Int32Min <= r.value <= Int32Max
  {
    var digits := Unsigned(t);
    if digits == [] || !AllDigits(digits) then None
    else
      var v := if |t| > 0 && t[0] == '-' then -DigitsValue(digits) else DigitsValue(digits);
      if Int32Min <= v <= Int32Max then Some(v) else None
  }

  /**
   * `int.TryParse`: optional white space, an optional sign, at least one
   * digit, optional white space, and a value that fits in 32 bits.
   */
  function ParseInt32(s: string): (r: Option<int>)
    ensures r.Some? ==> Int32Min <= r.value <= Int32Max
  {
    SignedDigits(TrimEnd(TrimStart(s)))
  }

  /** `TrimStart` removes exactly the white space before the first other character. */
  lemma {:induction false} TrimStartOf(lead: string, rest: string)
    requires forall i :: 0 <= i < |lead| ==> IsNumberWhite(lead[i])
    requires rest == [] || !IsNumberWhite(rest[0])
    ensures TrimStart(lead + rest) == rest
  {
    if lead == [] {
      assert lead + rest == rest;
    } else {
      assert (lead + rest)[1..] == lead[1..] + rest;
      TrimStartOf(lead[1..], rest);
    }
  }

  /** `TrimEnd` removes exactly the white space after the last other character. */
  lemma {:induction false} TrimEndOf(rest: string, trail: string)
    requires forall i :: 0 <= i < |trail| ==> IsNumberWhite(trail[i])
    requires rest == [] || !IsNumberWhite(rest[|rest| - 1])
    ensures TrimEnd(rest + trail) == rest
  {
    if trail == [] {
      assert rest + trail == rest;
    } else {
      var s := rest + trail;
      assert s[..|s| - 1] == rest + trail[..|trail| - 1];
      TrimEndOf(rest, trail[..|trail| - 1]);
    }
  }

  /** White space around a text that starts and ends with something else is trimmed away. */
  lemma Trimmed(lead: string, core: string, trail: string)
    requires forall i :: 0 <= i < |lead| ==> IsNumberWhite(lead[i])
    requires forall i :: 0 <= i < |trail| ==> IsNumberWhite(trail[i])
    requires core != [] && !IsNumberWhite(core[0]) && !IsNumberWhite(core[|core| - 1])
    ensures TrimEnd(TrimStart(lead + core + trail)) == core
  {
    assert lead + core + trail == lead + (core + trail);
    assert (core + trail)[0] == core[0];
    TrimStartOf(lead, core + trail);
    TrimEndOf(core, trail);
  }

  /**
   * White space, an optional sign, digits and white space parse as the signed
   * value of the digits when it fits in 32 bits, and fail otherwise.
   */
  lemma ParseInt32OfNumber(lead: string, sign: string, digits: string, trail: string)
    requires forall i :: 0 <= i < |lead| ==> IsNumberWhite(lead[i])
    requires forall i :: 0 <= i < |trail| ==> IsNumberWhite(trail[i])
    requires sign == "" || sign == "+" || sign == "-"
    requires digits != [] && AllDigits(digits)
    ensures var v := if sign == "-" then -DigitsValue(digits) else DigitsValue(digits);
      ParseInt32(lead + sign + digits + trail) == if Int32Min <= v <= Int32Max then Some(v) else None
  {
    var core := sign + digits;
    assert lead + sign + digits == lead + core;
    assert core[|core| - 1] == digits[|digits| - 1];
    assert core[0] == if sign == "" then digits[0] else sign[0];
    Trimmed(lead, core, trail);
    SignedDigitsOf(sign, digits);
  }

  /** A sign followed by digits reads as their signed value. */
  lemma SignedDigitsOf(sign: string, digits: string)
    requires sign == "" || sign == "+" || sign == "-"
    requires digits != [] && AllDigits(digits)
    ensures var v := if sign == "-" then -DigitsValue(digits) else DigitsValue(digits);
      SignedDigits(sign + digits) == if Int32Min <= v <= Int32Max then Some(v) else None
  {
    var core := sign + digits;
    assert Unsigned(core) == digits;
    assert (|core| > 0 && core[0] == '-') == (sign == "-");
  }

  /**
   * A character that is neither white space, a sign nor a digit makes
   * `int.TryParse` fail, wherever it stands.
   */
  lemma ParseInt32RejectsForeign(s: string, j: nat)
    requires j < |s| && IsForeign(s[j])
    ensures ParseInt32(s) == None
  {
    var ts := TrimStart(s);
    var t := TrimEnd(ts);
    var k := j - (|s| - |ts|);
    assert 0 <= k < |t| && t[k] == s[j];
    var digits := Unsigned(t);
    var at := if HasSign(t) then k - 1 else k;
    assert 0 <= at < |digits| && digits[at] == s[j];
  }

  /** Text without a digit never parses. */
  lemma ParseInt32NeedsDigit(s: string)
    requires forall i :: 0 <= i < |s| ==> !IsDigit(s[i])
    ensures ParseInt32(s) == None
  {
    var ts := TrimStart(s);
    var t := TrimEnd(ts);
    var digits := Unsigned(t);
    if digits != [] {
      var k := if HasSign(t) then 1 else 0;
      assert digits[0] == s[|s| - |ts| + k];
    }
  }

  /** `int.TryParse(part, out var v) ? v : 0`. */
  function PartValue(part: string): int {
    match ParseInt32(part)
    case Some(v) => v
    case None => 0
  }

  /** A component of digits whose value fits in 32 bits counts as that value. */
  lemma PartValueOfDigits(part: string)
    requires part != [] && AllDigits(part) && DigitsValue(part) <= Int32Max
    ensures PartValue(part) == DigitsValue(part)
  {
    DigitsValueNatural(part);
    ParseInt32OfNumber("", "", part, "");
    assert "" + "" + part + "" == part;
  }

  /** A component without digits, or with a character foreign to numbers, counts as 0. */
  lemma PartValueOfNonNumeric(part: string)
    requires (forall i :: 0 <= i < |part| ==> !IsDigit(part[i])) || exists j :: 0 <= j < |part| && IsForeign(part[j])
    ensures PartValue(part) == 0
  {
    if exists j :: 0 <= j < |part| && IsForeign(part[j]) {
      var j :| 0 <= j < |part| && IsForeign(part[j]);
      ParseInt32RejectsForeign(part, j);
    } else {
      ParseInt32NeedsDigit(part);
    }
  }

  lemma {:induction false} DigitsValueNatural(s: string)
    requires AllDigits(s)
    ensures DigitsValue(s) >= 0
  {
    if s != [] {
      assert AllDigits(s[..|s| - 1]) by {
        assert forall i :: 0 <= i < |s| - 1 ==> s[..|s| - 1][i] == s[i];
      }
      DigitsValueNatural(s[..|s| - 1]);
      assert IsDigit(s[|s| - 1]);
    }
  }

  /** The value of each component. */
  function Values(parts: seq<string>): (vs: seq<int>)
    ensures |vs| == |parts|
    ensures forall i :: 0 <= i < |parts| ==> vs[i] == PartValue(parts[i])
  {
    seq(|parts|, i requires 0 <= i < |parts| => PartValue(parts[i]))
  }

  /** Component `i`, 0 when the version has fewer components. */
  function ValueAt(vs: seq<int>, i: nat): int {
    if i < |vs| then vs[i] else 0
  }

  /** The component values of a non-blank version: normalised, split at '.', parsed. */
  function VersionValues(v: string): seq<int> {
    Values(Split(NormalizeVersion(Some(v)).value, '.'))
  }

  /** `a` and `b` agree on every component before `i`, and `a` is greater at `i`. */
  predicate GreaterAt(a: seq<int>, b: seq<int>, i: nat) {
    && ValueAt(a, i) > ValueAt(b, i)
    && forall j: nat :: j < i ==> ValueAt(a, j) == ValueAt(b, j)
  }

  /** Lexicographic comparison of component values, missing components counting as 0. */
  ghost predicate ComponentsGreater(a: seq<int>, b: seq<int>) {
    exists i: nat :: GreaterAt(a, b, i)
  }

  /** What `IsNewer` promises: both versions non-blank, and the latest tag's components greater. */
  ghost predicate Newer(latestTag: Option<string>, currentVersion: Option<string>) {
    && !IsBlank(latestTag) && !IsBlank(currentVersion)
    && ComponentsGreater(VersionValues(latestTag.value), VersionValues(currentVersion.value))
  }

  /** `IsNewer`: walks the components left to right; the first difference decides. */
  method IsNewer(latestTag: Option<string>, currentVersion: Option<string>) returns (newer: bool)
    ensures newer == Newer(latestTag, currentVersion)
  {
    if IsBlank(latestTag) || IsBlank(currentVersion) {
      return false;
    }
    var lt := NormalizeVersion(latestTag);
    var cv := NormalizeVersion(currentVersion);
    var la := Split(lt.value, '.');
    var ca := Split(cv.value, '.');
    ghost var a, b := Values(la), Values(ca);
    var len := if |la| < |ca| then |ca| else |la|;
    var i := 0;
    while i < len
      invariant 0 <= i <= len
      invariant forall j: nat :: j < i ==> ValueAt(a, j) == ValueAt(b, j)
    {
      var li := ComponentOf(la, i);
      var ci := ComponentOf(ca, i);
      if li > ci {
        assert GreaterAt(a, b, i);
        return true;
      }
      if li < ci {
        NotGreaterPast(a, b, i);
        return false;
      }
      AgreeOneMore(a, b, i);
      i := i + 1;
    }
    forall k: nat
      ensures !GreaterAt(a, b, k)
    {
    }
    return false;
  }

  /** `i < parts.Length && int.TryParse(parts[i], out var v) ? v : 0`. */
  method ComponentOf(parts: seq<string>, i: nat) returns (v: int)
    ensures v == ValueAt(Values(parts), i)
  {
    v := if i < |parts| then PartValue(parts[i]) else 0;
  }

  lemma AgreeOneMore(a: seq<int>, b: seq<int>, i: nat)
    requires forall j: nat :: j < i ==> ValueAt(a, j) == ValueAt(b, j)
    requires ValueAt(a, i) == ValueAt(b, i)
    ensures forall j: nat :: j < i + 1 ==> ValueAt(a, j) == ValueAt(b, j)
  {
  }

  /** When `b` is greater at `i` after agreeing before it, `a` is not greater anywhere. */
  lemma NotGreaterPast(a: seq<int>, b: seq<int>, i: nat)
    requires forall j: nat :: j < i ==> ValueAt(a, j) == ValueAt(b, j)
    requires ValueAt(a, i) < ValueAt(b, i)
    ensures !ComponentsGreater(a, b)
  {
    forall k: nat
      ensures !GreaterAt(a, b, k)
    {
      if k > i {
        assert ValueAt(a, i) != ValueAt(b, i);
      }
    }
  }

  // ---------------------------------------------------------------------------
  // Properties of the comparison
  // ---------------------------------------------------------------------------

  /** A version is never newer than itself. */
  lemma NewerIrreflexive(v: Option<string>)
    ensures !Newer(v, v)
  {
  }

  /** Two versions are never each newer than the other. */
  lemma NewerAsymmetric(x: Option<string>, y: Option<string>)
    ensures Newer(x, y) ==> !Newer(y, x)
  {
    if Newer(x, y) {
      var a, b := VersionValues(x.value), VersionValues(y.value);
      var i: nat :| GreaterAt(a, b, i);
      NotGreaterPast(b, a, i);
    }
  }

  /** Newer is transitive, so it orders versions. */
  lemma NewerTransitive(x: Option<string>, y: Option<string>, z: Option<string>)
    requires Newer(x, y) && Newer(y, z)
    ensures Newer(x, z)
  {
    ComponentsGreaterTransitive(VersionValues(x.value), VersionValues(y.value), VersionValues(z.value));
  }

  lemma ComponentsGreaterTransitive(a: seq<int>, b: seq<int>, c: seq<int>)
    requires ComponentsGreater(a, b) && ComponentsGreater(b, c)
    ensures ComponentsGreater(a, c)
  {
    var i: nat :| GreaterAt(a, b, i);
    var k: nat :| GreaterAt(b, c, k);
    assert GreaterAt(a, c, if i < k then i else k);
  }

  /** One more ".0" never changes a comparison: "1.2" and "1.2.0" are the same version. */
  lemma TrailingZeroIgnored(other: Option<string>, v: string)
    requires !IsBlank(Some(v)) && '-' !in v && '+' !in v
    ensures Newer(other, Some(v + ".0")) <==> Newer(other, Some(v))
    ensures Newer(Some(v + ".0"), other) <==> Newer(Some(v), other)
  {
    ZeroPartAppended(v);
    if !IsBlank(other) {
      PaddingWithZero(VersionValues(v), VersionValues(other.value));
    }
  }

  lemma ZeroPartAppended(v: string)
    requires !IsBlank(Some(v)) && '-' !in v && '+' !in v
    ensures !IsBlank(Some(v + ".0")) && VersionValues(v + ".0") == VersionValues(v) + [0]
  {
    ZeroNormalized(v);
    var body := NormalizeVersion(Some(v)).value;
    assert body + ".0" == body + ['.'] + "0";
    SplitAppend(body, '.', "0");
    ZeroValueAppended(Split(body, '.'));
  }

  lemma ZeroNormalized(v: string)
    requires !IsBlank(Some(v)) && '-' !in v && '+' !in v
    ensures !IsBlank(Some(v + ".0"))
    ensures NormalizeVersion(Some(v + ".0")).value == NormalizeVersion(Some(v)).value + ".0"
  {
    var w := v + ".0";
    assert !AllWhiteSpace(w) by {
      var j :| 0 <= j < |v| && !IsWhiteSpace(v[j]);
      assert w[j] == v[j];
    }
    var prefixed := v[0] == 'v' || v[0] == 'V';
    var body := if prefixed then v[1..] else v;
    assert '-' !in body && '+' !in body by {
      assert forall c :: c in body ==> c in v;
    }
    assert w[0] == v[0];
    assert (if prefixed then w[1..] else w) == body + ".0";
    NoMarksKept(body + ".0");
    NoMarksKept(body);
  }

  lemma ZeroValueAppended(parts: seq<string>)
    ensures Values(parts + ["0"]) == Values(parts) + [0]
  {
    var padded, vs := Values(parts + ["0"]), Values(parts);
    forall k | 0 <= k < |parts|
      ensures padded[k] == vs[k]
    {
      assert (parts + ["0"])[k] == parts[k];
    }
    assert padded[|parts|] == 0 by {
      assert (parts + ["0"])[|parts|] == "0";
      ZeroParsesAsZero();
    }
    assert padded == vs + [0];
  }

  lemma ZeroParsesAsZero()
    ensures PartValue("0") == 0
  {
    assert TrimStart("0") == "0";
    assert TrimEnd("0") == "0";
    assert DigitsValue("0") == 0 by {
      assert "0"[..0] == [];
    }
  }

  /** A trailing zero component compares as a missing one. */
  lemma PaddingWithZero(a: seq<int>, b: seq<int>)
    ensures ComponentsGreater(a + [0], b) <==> ComponentsGreater(a, b)
    ensures ComponentsGreater(b, a + [0]) <==> ComponentsGreater(b, a)
  {
    var padded := a + [0];
    assert forall j: nat :: ValueAt(padded, j) == ValueAt(a, j);
    forall i: nat
      ensures GreaterAt(padded, b, i) <==> GreaterAt(a, b, i)
      ensures GreaterAt(b, padded, i) <==> GreaterAt(b, a, i)
    {
    }
  }

  /** A leading 'v' and a suffix after '-' do not matter: "v1.3-beta" compares as "1.3". */
  lemma PrefixAndSuffixIgnored(core: string, suffix: string)
    requires !IsBlank(Some(core)) && core[0] != 'v' && core[0] != 'V' && '-' !in core && '+' !in core
    ensures VersionValues("v" + core + "-" + suffix) == VersionValues(core)
  {
    var tagged := "v" + core + "-" + suffix;
    assert !AllWhiteSpace(tagged) by {
      assert !IsWhiteSpace(tagged[0]);
    }
    assert tagged[1..] == core + ("-" + suffix);
    BeforeSuffixAppend(core, "-" + suffix);
    assert BeforeSuffix("-" + suffix) == [];
    NoMarksKept(core);
  }

  /** A string without '-' and '+' is its own suffix-free part. */
  lemma {:induction false} NoMarksKept(s: string)
    requires '-' !in s && '+' !in s
    ensures BeforeSuffix(s) == s
  {
    if s != [] {
      assert '-' !in s[1..] && '+' !in s[1..] by {
        assert forall c :: c in s[1..] ==> c in s;
      }
      NoMarksKept(s[1..]);
    }
  }

  /** Splitting `s + [sep] + t` gives the parts of `s` and then `t`, when `t` has no separator. */
  lemma {:induction false} SplitAppend(s: string, sep: char, t: string)
    requires sep !in t
    ensures Split(s + [sep] + t, sep) == Split(s, sep) + [t]
  {
    if s == [] {
      assert s + [sep] + t == [sep] + t;
      assert ([sep] + t)[1..] == t;
      SplitWithoutSeparator(t, sep);
    } else {
      assert (s + [sep] + t)[0] == s[0];
      assert (s + [sep] + t)[1..] == s[1..] + [sep] + t;
      SplitAppend(s[1..], sep, t);
    }
  }

  lemma {:induction false} SplitWithoutSeparator(t: string, sep: char)
    requires sep !in t
    ensures Split(t, sep) == [t]
  {
    if t != [] {
      assert sep !in t[1..] by {
        assert forall c :: c in t[1..] ==> c in t;
      }
      SplitWithoutSeparator(t[1..], sep);
      assert [t[0]] + t[1..] == t;
    }
  }

  lemma {:induction false} BeforeSuffixAppend(s: string, t: string)
    requires '-' !in s && '+' !in s
    ensures BeforeSuffix(s + t) == s + BeforeSuffix(t)
  {
    if s != [] {
      assert (s + t)[0] == s[0] && (s + t)[1..] == s[1..] + t;
      assert '-' !in s[1..] && '+' !in s[1..] by {
        assert forall c :: c in s[1..] ==> c in s;
      }
      BeforeSuffixAppend(s[1..], t);
    } else {
      assert s + t == t;
    }
  }

  // ---------------------------------------------------------------------------
  // Installer asset
  // ---------------------------------------------------------------------------

  /** `EndsWith(".exe", StringComparison.OrdinalIgnoreCase)`. */
  predicate EndsWithExe(s: string) {
    && |s| >= 4
    && s[|s| - 4] == '.'
    && (s[|s| - 3] == 'e' || s[|s| - 3] == 'E')
    && (s[|s| - 2] == 'x' || s[|s| - 2] == 'X')
    && (s[|s| - 1] == 'e' || s[|s| - 1] == 'E')
  }

  /** An asset URL the updater accepts: present, not blank, ending in ".exe" in any case. */
  predicate IsInstallerUrl(url: Option<string>) {
    !IsBlank(url) && EndsWithExe(url.value)
  }

  /** The first accepted URL of the list (absent when there is none). */
  function FirstInstaller(urls: seq<Option<string>>): (r: Option<string>)
    ensures r.None? <==> forall i :: 0 <= i < |urls| ==> !IsInstallerUrl(urls[i])
    ensures r.Some? ==>
      exists k :: 0 <= k < |urls| && urls[k] == r && IsInstallerUrl(urls[k]) && forall i :: 0 <= i < k ==> !IsInstallerUrl(urls[i])
  {
    if urls == [] then None
    else if IsInstallerUrl(urls[0]) then urls[0]
    else
      var rest := FirstInstaller(urls[1..]);
      assert forall i :: 1 <= i < |urls| ==> urls[i] == urls[1..][i - 1];
      if rest.Some? then
        var k :| 0 <= k < |urls[1..]| && urls[1..][k] == rest && IsInstallerUrl(urls[1..][k])
          && forall i :: 0 <= i < k ==> !IsInstallerUrl(urls[1..][i]);
        assert urls[k + 1] == rest;
        rest
      else rest
  }

  /**
   * The selection loop of `GetLatestExeAssetUrlAsync`: `assets` is the
   * `browser_download_url` of each element of the release's "assets" array
   * (absent when the element has none or it is JSON null), and is absent
   * itself when there is no such array.
   */
  method SelectInstallerUrl(assets: Option<seq<Option<string>>>) returns (url: Option<string>)
    ensures assets.None? ==> url.None?
    ensures assets.Some? ==> url == FirstInstaller(assets.value)
  {
    if assets.None? {
      return None;
    }
    var urls := assets.value;
    var i := 0;
    while i < |urls|
      invariant 0 <= i <= |urls|
      invariant FirstInstaller(urls) == FirstInstaller(urls[i..])
    {
      assert urls[i..][1..] == urls[i + 1..];
      if IsInstallerUrl(urls[i]) {
        return urls[i];
      }
      i := i + 1;
    }
    return None;
  }
}
