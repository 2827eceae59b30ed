/**
 * The parts of Go's standard library that the scraper's string handling goes
 * through: strings.TrimSpace, strings.ReplaceAll, strconv.Itoa, strconv.ParseInt
 * (base 10, 64 bits), the regular expression `(\d+)$`, path.Base, the path that
 * url.Parse extracts from a link, and url.QueryEscape.
 * Strings are sequences of Unicode code points.
 */
module GoStrings {
  import opened Models

  // ----- strings.TrimSpace -----------------------------------------------------

  /** unicode.IsSpace: the white space that strings.TrimSpace removes. */
  predicate IsSpace(c: char) {
    || c == ' ' || c == '\t' || c == '\n' || c == '\r' || c == '\U{0B}' || c == '\U{0C}'
    || c == '\U{85}' || c == '\U{A0}' || c == '\U{1680}'
    || ('\U{2000}' <= c <= '\U{200A}')
    || c == '\U{2028}' || c == '\U{2029}' || c == '\U{202F}' || c == '\U{205F}' || c == '\U{3000}'
  }

  predicate AllSpace(s: string) {
    forall i :: 0 <= i < |s| ==> IsSpace(s[i])
  }

  lemma AllSpaceConcat(a: string, b: string)
    ensures AllSpace(a + b) <==> AllSpace(a) && AllSpace(b)
  {
    if AllSpace(a) && AllSpace(b) {
      forall i | 0 <= i < |a + b| ensures IsSpace((a + b)[i]) {
        if i >= |a| { assert (a + b)[i] == b[i - |a|]; }
      }
    }
    if AllSpace(a + b) {
      forall i | 0 <= i < |a| ensures IsSpace(a[i]) {
        assert (a + b)[i] == a[i];
      }
      forall i | 0 <= i < |b| ensures IsSpace(b[i]) {
        assert (a + b)[|a| + i] == b[i];
      }
    }
  }

  /**
   * strings.TrimSpace: `s` without the white space at both ends; it is empty
   * exactly when `s` is all white space.
   */
  function TrimSpace(s: string): (r: string)
    ensures r == [] <==> AllSpace(s)
    ensures r != [] ==> !IsSpace(r[0]) && !IsSpace(r[|r| - 1])
    decreases |s|
  {
    if s != [] && IsSpace(s[0]) then
      assert forall i :: 1 <= i < |s| ==> s[i] == s[1..][i - 1];
      TrimSpace(s[1..])
    else if s != [] && IsSpace(s[|s| - 1]) then
      assert forall i :: 0 <= i < |s| - 1 ==> s[i] == s[..|s| - 1][i];
      TrimSpace(s[..|s| - 1])
    else s
  }

  /** The number of white-space characters `s` starts with. */
  function LeadingSpace(s: string): (n: nat)
    ensures n <= |s|
  {
    if s != [] && IsSpace(s[0]) then 1 + LeadingSpace(s[1..]) else 0
  }

  /** `r` sits in `s` at `i` with only white space around it. */
  predicate SpaceAround(s: string, i: nat, r: string) {
    i + |r| <= |s| && s[i..i + |r|] == r && AllSpace(s[..i]) && AllSpace(s[i + |r|..])
  }

  lemma SpaceAroundFront(s: string, i: nat, r: string)
    requires s != [] && IsSpace(s[0]) && SpaceAround(s[1..], i, r)
    ensures SpaceAround(s, i + 1, r)
  {
    var t := s[1..];
    assert s[i + 1..i + 1 + |r|] == t[i..i + |r|];
    assert s[..i + 1] == [s[0]] + t[..i];
    AllSpaceConcat([s[0]], t[..i]);
    assert s[i + 1 + |r|..] == t[i + |r|..];
  }

  lemma SpaceAroundBack(s: string, r: string)
    requires s != [] && IsSpace(s[|s| - 1]) && SpaceAround(s[..|s| - 1], 0, r)
    ensures SpaceAround(s, 0, r)
  {
    var t := s[..|s| - 1];
    assert s[0..|r|] == t[0..|r|];
    assert s[..0] == [];
    assert s[|r|..] == t[|r|..] + [s[|s| - 1]];
    AllSpaceConcat(t[|r|..], [s[|s| - 1]]);
  }

  /**
   * TrimSpace only removes white space: the result is the infix of `s` that
   * starts after its leading white space, with only white space after it.
   */
  lemma {:induction false} TrimSpaceIsInfix(s: string)
    ensures SpaceAround(s, LeadingSpace(s), TrimSpace(s))
    decreases |s|
  {
    var r := TrimSpace(s);
    if s != [] && IsSpace(s[0]) {
      TrimSpaceIsInfix(s[1..]);
      SpaceAroundFront(s, LeadingSpace(s[1..]), r);
    } else if s != [] && IsSpace(s[|s| - 1]) {
      var t := s[..|s| - 1];
      TrimSpaceIsInfix(t);
      assert |t| > 0 ==> t[0] == s[0];
      assert LeadingSpace(t) == 0;
      SpaceAroundBack(s, r);
    } else {
      assert s[0..|r|] == r;
      assert s[..0] == [] && s[|r|..] == [];
    }
  }

  /** Trimming twice is trimming once. */
  lemma TrimSpaceIdempotent(s: string)
    ensures TrimSpace(TrimSpace(s)) == TrimSpace(s)
  {
  }

  // ----- strings.ReplaceAll ----------------------------------------------------

  predicate HasPrefix(s: string, p: string) {
    |p| <= |s| && s[..|p|] == p
  }

  /** strings.Contains */
  predicate Contains(s: string, sub: string) {
    exists i :: 0 <= i <= |s| && HasPrefix(s[i..], sub)
  }

  /** Whatever occurs in `b` occurs in `a + b + c`. */
  lemma ContainsInfix(a: string, b: string, c: string, sub: string)
    requires Contains(b, sub)
    ensures Contains(a + b + c, sub)
  {
    var i :| 0 <= i <= |b| && HasPrefix(b[i..], sub);
    assert (a + b + c)[|a| + i..][..|sub|] == b[i..][..|sub|];
  }

  /** The result of strings.ReplaceAll with an empty pattern: `rep` before, between and after every code point. */
  function Interleave(s: string, rep: string): (r: string)
    ensures |r| >= |rep|
  {
    if s == [] then rep else rep + [s[0]] + Interleave(s[1..], rep)
  }

  /**
   * strings.ReplaceAll: scanning left to right, every non-overlapping
   * occurrence of `pat` is replaced by `rep`.
   */
  function ReplaceAll(s: string, pat: string, rep: string): string
    decreases |s|
  {
    if pat == [] then Interleave(s, rep)
    else if s == [] then []
    else if HasPrefix(s, pat) then rep + ReplaceAll(s[|pat|..], pat, rep)
    else [s[0]] + ReplaceAll(s[1..], pat, rep)
  }

  lemma {:induction false} ContainsTail(s: string, pat: string)
    requires s != [] && Contains(s, pat) && !HasPrefix(s, pat)
    ensures Contains(s[1..], pat)
  {
    var i :| 0 <= i <= |s| && HasPrefix(s[i..], pat);
    assert i != 0;
    assert s[1..][i - 1..] == s[i..];
  }

  /** A string with no occurrence of the pattern comes back unchanged. */
  lemma {:induction false} ReplaceAllNoMatch(s: string, pat: string, rep: string)
    requires pat != [] && !Contains(s, pat)
    ensures ReplaceAll(s, pat, rep) == s
    decreases |s|
  {
    if s != [] {
      assert s[0..] == s;
      forall i | 0 <= i <= |s[1..]| ensures !HasPrefix(s[1..][i..], pat) {
        assert s[1..][i..] == s[i + 1..];
      }
      ReplaceAllNoMatch(s[1..], pat, rep);
    }
  }

  /** Replacing by something no longer never lengthens the string. */
  lemma {:induction false} ReplaceAllNotLonger(s: string, pat: string, rep: string)
    requires pat != [] && |rep| <= |pat|
    ensures |ReplaceAll(s, pat, rep)| <= |s|
    decreases |s|
  {
    if s != [] {
      if HasPrefix(s, pat) {
        ReplaceAllNotLonger(s[|pat|..], pat, rep);
      } else {
        ReplaceAllNotLonger(s[1..], pat, rep);
      }
    }
  }

  /** With a shorter replacement, any occurrence makes the result strictly shorter. */
  lemma {:induction false} ReplaceAllShrinks(s: string, pat: string, rep: string)
    requires pat != [] && |rep| < |pat| && Contains(s, pat)
    ensures |ReplaceAll(s, pat, rep)| < |s|
    decreases |s|
  {
    var i :| 0 <= i <= |s| && HasPrefix(s[i..], pat);
    assert s != [];
    if HasPrefix(s, pat) {
      ReplaceAllNotLonger(s[|pat|..], pat, rep);
    } else {
      ContainsTail(s, pat);
      ReplaceAllShrinks(s[1..], pat, rep);
    }
  }

  /** A replacement shorter than the pattern leaves `s` unchanged exactly when `s` does not contain it. */
  lemma ReplaceAllUnchangedIff(s: string, pat: string, rep: string)
    requires pat != [] && |rep| < |pat|
    ensures ReplaceAll(s, pat, rep) == s <==> !Contains(s, pat)
  {
    if Contains(s, pat) {
      ReplaceAllShrinks(s, pat, rep);
    } else {
      ReplaceAllNoMatch(s, pat, rep);
    }
  }

  /** A prefix in which no occurrence can start is copied through. */
  lemma {:induction false} ReplaceAllSkipsPrefix(a: string, b: string, pat: string, rep: string)
    requires pat != [] && forall i :: 0 <= i < |a| ==> a[i] != pat[0]
    ensures ReplaceAll(a + b, pat, rep) == a + ReplaceAll(b, pat, rep)
    decreases |a|
  {
    var s := a + b;
    if a != [] {
      assert s[0] == a[0] != pat[0];
      assert |pat| <= |s| ==> s[..|pat|][0] == s[0];
      assert !HasPrefix(s, pat);
      assert ReplaceAll(s, pat, rep) == [s[0]] + ReplaceAll(s[1..], pat, rep);
      assert s[1..] == a[1..] + b;
      assert forall i :: 0 <= i < |a[1..]| ==> a[1..][i] == a[i + 1];
      ReplaceAllSkipsPrefix(a[1..], b, pat, rep);
    } else {
      assert a + b == b;
    }
  }

  /** An occurrence at the front is replaced. */
  lemma ReplaceAllAtFront(b: string, pat: string, rep: string)
    requires pat != []
    ensures ReplaceAll(pat + b, pat, rep) == rep + ReplaceAll(b, pat, rep)
  {
    assert (pat + b)[..|pat|] == pat;
    assert (pat + b)[|pat|..] == b;
  }

  // ----- strings.Join ------------------------------------------------------------

  /** strings.Join: the parts in order, with `sep` between neighbours. */
  function Join(parts: seq<string>, sep: string): string {
    if parts == [] then "" else if |parts| == 1 then parts[0] else parts[0] + sep + Join(parts[1..], sep)
  }

  /** Appending a part adds it after one more separator, or alone to an empty list. */
  lemma {:induction false} JoinSnoc(parts: seq<string>, part: string, sep: string)
    ensures Join(parts + [part], sep) == if parts == [] then part else Join(parts, sep) + sep + part
  {
    if |parts| > 1 {
      assert (parts + [part])[1..] == parts[1..] + [part];
      JoinSnoc(parts[1..], part, sep);
    } else if |parts| == 1 {
      assert (parts + [part])[1..] == [part];
    }
  }

  /** Each part occurs in the joined string. */
  lemma {:induction false} JoinContainsPart(parts: seq<string>, sep: string, i: nat)
    requires i < |parts|
    ensures Contains(Join(parts, sep), parts[i])
  {
    if |parts| == 1 {
      assert HasPrefix(Join(parts, sep)[0..], parts[0]);
    } else if i == 0 {
      assert HasPrefix(Join(parts, sep)[0..], parts[0]);
    } else {
      JoinContainsPart(parts[1..], sep, i - 1);
      ContainsInfix(parts[0] + sep, Join(parts[1..], sep), "", parts[i]);
      assert parts[0] + sep + Join(parts[1..], sep) + "" == Join(parts, sep);
    }
  }

  // ----- strconv.Itoa and strconv.ParseInt -------------------------------------

  predicate IsDigit(c: char) {
    '0' <= c <= '9'
  }

  predicate AllDigits(s: string) {
    forall i :: 0 <= i < |s| ==> IsDigit(s[i])
  }

  function DigitChar(d: nat): (c: char)
    requires d < 10
    ensures IsDigit(c)
  {
    (('0' as int) + d) as char
  }

  function DigitValue(c: char): (d: nat)
    requires IsDigit(c)
    ensures d < 10 && DigitChar(d) == c
  {
    (c as int) - ('0' as int)
  }

  /** strconv.Itoa on a non-negative value: its decimal digits, with no leading zero. */
  function Itoa(n: nat): (r: string)
    ensures r != [] && AllDigits(r)
    ensures r[0] == '0' <==> n == 0
    ensures n == 0 ==> r == "0"
  {
    if n < 10 then [DigitChar(n)] else Itoa(n / 10) + [DigitChar(n % 10)]
  }

  /** fmt's %d on a signed value: a minus sign before the digits of a negative one. */
  function FormatInt(n: int): string {
    if n < 0 then "-" + Itoa(-n) else Itoa(n)
  }

  /** The value a string of decimal digits denotes. */
  function DecimalValue(s: string): nat
    requires AllDigits(s)
  {
    if s == [] then 0 else 10 * DecimalValue(s[..|s| - 1]) + DigitValue(s[|s| - 1])
  }

  /** Reading back the digits Itoa writes gives the number. */
  lemma {:induction false} DecimalOfItoa(n: nat)
    ensures DecimalValue(Itoa(n)) == n
  {
    if n >= 10 {
      DecimalOfItoa(n / 10);
      var s := Itoa(n);
      assert s[..|s| - 1] == Itoa(n / 10);
    }
  }

  /** And writing the value of a digit string with no leading zero gives the string back. */
  lemma {:induction false} ItoaOfDecimal(s: string)
    requires s != [] && AllDigits(s) && (s[0] == '0' ==> s == "0")
    ensures Itoa(DecimalValue(s)) == s
  {
    var t := s[..|s| - 1];
    if t != [] {
      assert t[0] == s[0];
      ItoaOfDecimal(t);
      var n := DecimalValue(s);
      assert n / 10 == DecimalValue(t) && n % 10 == DigitValue(s[|s| - 1]);
      assert s == t + [s[|s| - 1]];
    } else {
      assert s == [s[0]];
    }
  }

  const MaxInt64: int := 0x7FFF_FFFF_FFFF_FFFF

  /** What strconv.ParseInt(s, 10, 64) returns: the value and whether err is nil. */
  datatype ParsedInt = ParsedInt(value: int, ok: bool)

  /**
   * strconv.ParseInt(s, 10, 64) for strings without a sign: an empty or
   * non-digit string is a syntax error with value 0, and a value above the
   * int64 range is a range error with value MaxInt64.
   */
  function ParseInt(s: string): (r: ParsedInt)
    ensures 0 <= r.value <= MaxInt64
    ensures r.ok <==> s != [] && AllDigits(s) && DecimalValue(s) <= MaxInt64
    ensures r.ok ==> r.value == DecimalValue(s)
    ensures s == [] ==> r.value == 0
    ensures s != [] && AllDigits(s) && DecimalValue(s) > MaxInt64 ==> r.value == MaxInt64
  {
    if s == [] || !AllDigits(s) then ParsedInt(0, false)
    else if DecimalValue(s) <= MaxInt64 then ParsedInt(DecimalValue(s), true)
    else ParsedInt(MaxInt64, false)
  }

  /** ParseInt reads back what Itoa writes. */
  lemma ParseIntOfItoa(n: nat)
    requires n <= MaxInt64
    ensures ParseInt(Itoa(n)) == ParsedInt(n, true)
  {
    DecimalOfItoa(n);
  }

  // ----- regexp `(\d+)$` -------------------------------------------------------

  /**
   * The submatch of `(\d+)$`: the longest run of ASCII digits ending `s`
   * (empty when `s` does not end in a digit).
   */
  function TrailingDigits(s: string): string
  {
    if s != [] && IsDigit(s[|s| - 1]) then TrailingDigits(s[..|s| - 1]) + [s[|s| - 1]] else []
  }

  /** The submatch is a suffix of digits that no digit precedes. */
  lemma {:induction false} TrailingDigitsIsLongestSuffix(s: string)
    ensures var r := TrailingDigits(s);
      && |r| <= |s| && r == s[|s| - |r|..] && AllDigits(r)
      && (|r| < |s| ==> !IsDigit(s[|s| - |r| - 1]))
    decreases |s|
  {
    if s != [] && IsDigit(s[|s| - 1]) {
      var t := s[..|s| - 1];
      TrailingDigitsIsLongestSuffix(t);
      var r := TrailingDigits(t);
      assert s[|s| - |r| - 1..] == t[|t| - |r|..] + [s[|s| - 1]];
      if |r| + 1 < |s| {
        assert s[|s| - |r| - 2] == t[|t| - |r| - 1];
      }
    }
  }

  /** A word not ending in a digit followed by digits: the digits are the trailing run. */
  lemma {:induction false} TrailingDigitsOfSuffix(word: string, digits: string)
    requires AllDigits(digits)
    requires word != [] ==> !IsDigit(word[|word| - 1])
    ensures TrailingDigits(word + digits) == digits
    decreases |digits|
  {
    var s := word + digits;
    if digits == [] {
      assert s == word;
    } else {
      var d := digits[..|digits| - 1];
      assert s[..|s| - 1] == word + d;
      TrailingDigitsOfSuffix(word, d);
      assert digits == d + [digits[|digits| - 1]];
    }
  }

  // ----- path.Base -------------------------------------------------------------

  function TrimTrailingSlashes(p: string): string
  {
    if p != [] && p[|p| - 1] == '/' then TrimTrailingSlashes(p[..|p| - 1]) else p
  }

  lemma {:induction false} TrimTrailingSlashesIsPrefix(p: string)
    ensures var r := TrimTrailingSlashes(p);
      |r| <= |p| && r == p[..|r|] && (r != [] ==> r[|r| - 1] != '/')
    decreases |p|
  {
    if p != [] && p[|p| - 1] == '/' {
      var t := p[..|p| - 1];
      TrimTrailingSlashesIsPrefix(t);
      assert t[..|TrimTrailingSlashes(t)|] == p[..|TrimTrailingSlashes(t)|];
    }
  }

  /** The part of `p` after its last '/'. */
  function AfterLastSlash(p: string): string
  {
    if p == [] || p[|p| - 1] == '/' then [] else AfterLastSlash(p[..|p| - 1]) + [p[|p| - 1]]
  }

  lemma {:induction false} AfterLastSlashIsSuffix(p: string)
    ensures var r := AfterLastSlash(p);
      && |r| <= |p| && r == p[|p| - |r|..] && '/' !in r
      && (|r| < |p| ==> p[|p| - |r| - 1] == '/')
    decreases |p|
  {
    if p != [] && p[|p| - 1] != '/' {
      var t := p[..|p| - 1];
      AfterLastSlashIsSuffix(t);
      var r := AfterLastSlash(t);
      assert p[|p| - |r| - 1..] == t[|t| - |r|..] + [p[|p| - 1]];
      if |r| + 1 < |p| {
        assert p[|p| - |r| - 2] == t[|t| - |r| - 1];
      }
    }
  }

  /**
   * path.Base: "." for the empty path, "/" for a path of slashes only, and
   * otherwise the last element once trailing slashes are removed.
   */
  function PathBase(p: string): (r: string)
    ensures r != []
  {
    if p == [] then "."
    else
      var q := TrimTrailingSlashes(p);
      if q == [] then "/"
      else
        TrimTrailingSlashesIsPrefix(p);
        AfterLastSlash(q)
  }

  /** The base is "/" or a single element, free of slashes. */
  lemma PathBaseIsElement(p: string)
    ensures PathBase(p) == "/" || '/' !in PathBase(p)
  {
    if p != [] && TrimTrailingSlashes(p) != [] {
      AfterLastSlashIsSuffix(TrimTrailingSlashes(p));
    }
  }

  lemma {:induction false} AfterLastSlashOfSegment(dir: string, seg: string)
    requires '/' !in seg
    ensures AfterLastSlash(dir + "/" + seg) == seg
    decreases |seg|
  {
    var p := dir + "/" + seg;
    if seg != [] {
      var init := seg[..|seg| - 1];
      assert p[..|p| - 1] == dir + "/" + init;
      assert p[|p| - 1] == seg[|seg| - 1];
      AfterLastSlashOfSegment(dir, init);
      assert seg == init + [seg[|seg| - 1]];
    }
  }

  /** The base of `dir + "/" + seg` is `seg` when `seg` is a non-empty element. */
  lemma PathBaseOfSegment(dir: string, seg: string)
    requires seg != [] && '/' !in seg
    ensures PathBase(dir + "/" + seg) == seg
  {
    var p := dir + "/" + seg;
    assert p[|p| - 1] == seg[|seg| - 1];
    assert TrimTrailingSlashes(p) == p;
    AfterLastSlashOfSegment(dir, seg);
  }

  // ----- the path url.Parse extracts ---------------------------------------------

  /** The part of `s` before the first `c` (the first result of strings.Cut). */
  function Before(s: string, c: char): string
  {
    if s == [] || s[0] == c then [] else [s[0]] + Before(s[1..], c)
  }

  /** The result is the longest prefix of `s` without `c`. */
  lemma {:induction false} BeforeIsPrefix(s: string, c: char)
    ensures var r := Before(s, c);
      && |r| <= |s| && r == s[..|r|] && c !in r
      && (|r| < |s| ==> s[|r|] == c)
    decreases |s|
  {
    if s != [] && s[0] != c {
      BeforeIsPrefix(s[1..], c);
    }
  }

  lemma {:induction false} BeforeOfFree(a: string, b: string, c: char)
    requires c !in a && (b == [] || b[0] == c)
    ensures Before(a + b, c) == a
    decreases |a|
  {
    if a != [] {
      var s := a + b;
      assert s[0] == a[0] && s[1..] == a[1..] + b;
      BeforeOfFree(a[1..], b, c);
      assert a == [a[0]] + a[1..];
    } else {
      assert a + b == b;
    }
  }

  predicate IsCtl(c: char) {
    c < ' ' || c == '\U{7F}'
  }

  predicate HasCtl(s: string) {
    exists i :: 0 <= i < |s| && IsCtl(s[i])
  }

  predicate IsAsciiLetter(c: char) {
    'a' <= c <= 'z' || 'A' <= c <= 'Z'
  }

  /** The three outcomes of url's getScheme. */
  datatype SchemeSplit = NoScheme | Scheme(scheme: string, rest: string) | MissingScheme

  /** getScheme, scanning from index `i`. */
  function ScanScheme(s: string, i: nat): SchemeSplit
    requires i <= |s|
    decreases |s| - i
  {
    if i == |s| then NoScheme
    else
      var c := s[i];
      if IsAsciiLetter(c) then ScanScheme(s, i + 1)
      else if IsDigit(c) || c == '+' || c == '-' || c == '.' then
        (if i == 0 then NoScheme else ScanScheme(s, i + 1))
      else if c == ':' then
        (if i == 0 then MissingScheme else Scheme(s[..i], s[i + 1..]))
      else NoScheme
  }

  lemma {:induction false} ScanSchemeOfLetters(scheme: string, rest: string, i: nat)
    requires scheme != [] && i <= |scheme| && forall k :: 0 <= k < |scheme| ==> IsAsciiLetter(scheme[k])
    ensures ScanScheme(scheme + ":" + rest, i) == Scheme(scheme, rest)
    decreases |scheme| - i
  {
    var s := scheme + ":" + rest;
    if i < |scheme| {
      assert s[i] == scheme[i];
      ScanSchemeOfLetters(scheme, rest, i + 1);
    } else {
      assert s[i] == ':';
      assert s[..i] == scheme;
      assert s[i + 1..] == rest;
    }
  }

  /** What url.Parse leaves in Path once the scheme has been split off. */
  function PathOfRest(hasScheme: bool, afterScheme: string): Option<string>
  {
    var rest := Before(afterScheme, '?');
    if !HasPrefix(rest, "/") then
      if hasScheme then Some("")
      else if ':' in Before(rest, '/') then None
      else Some(rest)
    else if (hasScheme || !HasPrefix(rest, "///")) && HasPrefix(rest, "//") then
      var authority := Before(rest[2..], '/');
      BeforeIsPrefix(rest[2..], '/');
      Some(rest[2 + |authority|..])
    else Some(rest)
  }

  /**
   * The Path field of url.Parse(u), or None when url.Parse reports an error
   * (a control character, a colon starting the link, or a colon in the first
   * segment of a scheme-less relative link).
   */
  function UrlPath(u: string): Option<string>
  {
    var raw := Before(u, '#');
    if HasCtl(raw) then None
    else match ScanScheme(raw, 0)
      case MissingScheme => None
      case NoScheme => PathOfRest(false, raw)
      case Scheme(_, rest) => PathOfRest(true, rest)
  }

  lemma NoCtlConcat(a: string, b: string)
    requires !HasCtl(a) && !HasCtl(b)
    ensures !HasCtl(a + b)
  {
    forall i | 0 <= i < |a + b| ensures !IsCtl((a + b)[i]) {
      if i < |a| {
        assert (a + b)[i] == a[i];
      } else {
        assert (a + b)[i] == b[i - |a|];
      }
    }
  }

  lemma PathOfRestAbsolute(host: string, path: string, query: string)
    requires '/' !in host && '?' !in host && '#' !in host
    requires path != [] && path[0] == '/' && '?' !in path && '#' !in path
    requires query == [] || query[0] == '?'
    requires '#' !in query
    ensures PathOfRest(true, "//" + host + path + query) == Some(path)
  {
    var rest := "//" + host + path;
    assert "//" + host + path + query == rest + query;
    BeforeOfFree(rest, query, '?');
    assert HasPrefix(rest, "/") && HasPrefix(rest, "//");
    assert rest[2..] == host + path;
    BeforeOfFree(host, path, '/');
    assert rest[2 + |host|..] == path;
  }

  /** The path of an absolute link `scheme://host/path[?query]`. */
  lemma UrlPathOfAbsolute(scheme: string, host: string, path: string, query: string)
    requires scheme != [] && forall k :: 0 <= k < |scheme| ==> IsAsciiLetter(scheme[k])
    requires '/' !in host && '?' !in host && '#' !in host && !HasCtl(host)
    requires path != [] && path[0] == '/' && '?' !in path && '#' !in path && !HasCtl(path)
    requires query == [] || query[0] == '?'
    requires '#' !in query && !HasCtl(query)
    ensures UrlPath(scheme + "://" + host + path + query) == Some(path)
  {
    var afterScheme := "//" + host + path + query;
    var u := scheme + ":" + afterScheme;
    assert u == scheme + "://" + host + path + query;
    assert '#' !in u;
    BeforeOfFree(u, [], '#');
    assert u + [] == u;
    assert !HasCtl(scheme) by {
      forall i | 0 <= i < |scheme| ensures !IsCtl(scheme[i]) {
        assert IsAsciiLetter(scheme[i]);
      }
    }
    assert !HasCtl(":" + "//");
    NoCtlConcat(scheme, ":" + "//");
    NoCtlConcat(scheme + ":" + "//", host);
    NoCtlConcat(scheme + ":" + "//" + host, path);
    NoCtlConcat(scheme + ":" + "//" + host + path, query);
    assert scheme + ":" + "//" + host + path + query == u;
    ScanSchemeOfLetters(scheme, afterScheme, 0);
    PathOfRestAbsolute(host, path, query);
  }

  // ----- url.QueryEscape ---------------------------------------------------------

  /** The characters url.QueryEscape leaves alone. */
  predicate IsUnreserved(c: char) {
    IsAsciiLetter(c) || IsDigit(c) || c == '-' || c == '_' || c == '.' || c == '~'
  }

  predicate AllUnreserved(s: string) {
    forall i :: 0 <= i < |s| ==> IsUnreserved(s[i])
  }

  /** An escaped query component holds only unreserved characters, '+' and '%'. */
  predicate QuerySafe(s: string) {
    forall i :: 0 <= i < |s| ==> IsUnreserved(s[i]) || s[i] == '+' || s[i] == '%'
  }

  function HexDigit(d: nat): (c: char)
    requires d < 16
    ensures IsUnreserved(c)
  {
    if d < 10 then (('0' as int) + d) as char else (('A' as int) + d - 10) as char
  }

  predicate IsByte(b: int) {
    0 <= b < 256
  }

  /** The UTF-8 encoding of a code point. */
  function Utf8(c: char): (bs: seq<int>)
    ensures 1 <= |bs| <= 4
    ensures forall i :: 0 <= i < |bs| ==> IsByte(bs[i])
  {
    var n := c as int;
    if n < 0x80 then [n]
    else if n < 0x800 then [0xC0 + n / 64, 0x80 + n % 64]
    else if n < 0x10000 then [0xE0 + n / 4096, 0x80 + (n / 64) % 64, 0x80 + n % 64]
    else [0xF0 + n / 262144, 0x80 + (n / 4096) % 64, 0x80 + (n / 64) % 64, 0x80 + n % 64]
  }

  /** "%XX" for every byte, with upper-case hexadecimal digits. */
  function PercentEncode(bs: seq<int>): (r: string)
    requires forall i :: 0 <= i < |bs| ==> IsByte(bs[i])
    ensures |r| == 3 * |bs|
    ensures QuerySafe(r)
  {
    if bs == [] then []
    else
      assert IsByte(bs[0]);
      ['%', HexDigit(bs[0] / 16), HexDigit(bs[0] % 16)] + PercentEncode(bs[1..])
  }

  function EscapeChar(c: char): (r: string)
    ensures QuerySafe(r)
    ensures r == [c] <==> IsUnreserved(c)
  {
    if IsUnreserved(c) then [c]
    else if c == ' ' then "+"
    else PercentEncode(Utf8(c))
  }

  lemma QuerySafeConcat(a: string, b: string)
    requires QuerySafe(a) && QuerySafe(b)
    ensures QuerySafe(a + b)
  {
    forall i | 0 <= i < |a + b| ensures IsUnreserved((a + b)[i]) || (a + b)[i] == '+' || (a + b)[i] == '%' {
      if i >= |a| { assert (a + b)[i] == b[i - |a|]; }
    }
  }

  /** url.QueryEscape: every character outside the unreserved set is escaped; a space becomes '+'. */
  function QueryEscape(s: string): (r: string)
    ensures QuerySafe(r)
  {
    if s == [] then []
    else
      QuerySafeConcat(EscapeChar(s[0]), QueryEscape(s[1..]));
      EscapeChar(s[0]) + QueryEscape(s[1..])
  }

  /** An unreserved string is its own escape, and only an unreserved string is. */
  lemma {:induction false} QueryEscapeIdentityIff(s: string)
    ensures QueryEscape(s) == s <==> AllUnreserved(s)
  {
    if s != [] {
      QueryEscapeIdentityIff(s[1..]);
      QueryEscapeNotShorter(s[1..]);
      var e := EscapeChar(s[0]);
      assert QueryEscape(s) == e + QueryEscape(s[1..]);
      if !IsUnreserved(s[0]) {
        if s[0] == ' ' {
          assert QueryEscape(s)[0] == '+';
        } else {
          assert |QueryEscape(s)| > |s|;
        }
      } else {
        assert e == [s[0]];
        assert QueryEscape(s) == s <==> QueryEscape(s[1..]) == s[1..] by {
          assert s == [s[0]] + s[1..];
        }
        assert AllUnreserved(s) <==> AllUnreserved(s[1..]) by {
          assert forall i :: 0 <= i < |s[1..]| ==> s[1..][i] == s[i + 1];
        }
      }
    }
  }

  lemma {:induction false} QueryEscapeNotShorter(s: string)
    ensures |QueryEscape(s)| >= |s|
  {
    if s != [] {
      QueryEscapeNotShorter(s[1..]);
    }
  }
}
