/**
 * The java.lang.String and java.lang.Integer operations the core relies on,
 * with their exact JDK semantics on `seq<char>`.
 */
module JavaString {
  import opened Wrappers

  // ---------------------------------------------------------------------
  // String.compareTo: lexicographic on characters, shorter prefix first.
  // ---------------------------------------------------------------------

  /** The difference of the first differing characters, else the length difference. */
  function CompareTo(a: string, b: string): (r: int)
    ensures r == 0 <==> a == b
  {
    if a == [] || b == [] then |a| - |b|
    else if a[0] != b[0] then a[0] as int - b[0] as int
    else
      assert a == [a[0]] + a[1..] && b == [b[0]] + b[1..];
      CompareTo(a[1..], b[1..])
  }

  lemma {:induction false} CompareToAntisymmetric(a: string, b: string)
    ensures CompareTo(a, b) == -CompareTo(b, a)
  {
    if a != [] && b != [] && a[0] == b[0] {
      CompareToAntisymmetric(a[1..], b[1..]);
    }
  }

  lemma {:induction false} CompareToTransitive(a: string, b: string, c: string)
    requires CompareTo(a, b) < 0 && CompareTo(b, c) < 0
    ensures CompareTo(a, c) < 0
  {
    if a != [] && b != [] && c != [] && a[0] == b[0] && b[0] == c[0] {
      CompareToTransitive(a[1..], b[1..], c[1..]);
    }
  }

  /** `a.compareTo(b) < 0`. */
  predicate Less(a: string, b: string) {
    CompareTo(a, b) < 0
  }

  /** Less is a strict total order on strings. */
  lemma LessIsStrictTotalOrder(a: string, b: string, c: string)
    ensures !(Less(a, b) && Less(b, a))
    ensures Less(a, b) && Less(b, c) ==> Less(a, c)
    ensures a != b ==> Less(a, b) || Less(b, a)
  {
    CompareToAntisymmetric(a, b);
    if Less(a, b) && Less(b, c) {
      CompareToTransitive(a, b, c);
    }
  }

  // ---------------------------------------------------------------------
  // Searching.
  // ---------------------------------------------------------------------

  /** `s.startsWith(p)`. */
  predicate StartsWith(s: string, p: string) {
    |p| <= |s| && s[..|p|] == p
  }

  /** `s.endsWith(p)`. */
  predicate EndsWith(s: string, p: string) {
    |p| <= |s| && s[|s| - |p|..] == p
  }

  /** `s.contains(t)`: `t` occurs at some offset of `s`. */
  predicate Contains(s: string, t: string)
    decreases |s|
  {
    StartsWith(s, t) || (s != [] && Contains(s[1..], t))
  }

  /** `s.indexOf(c)`: the first index holding `c`, or -1. */
  function IndexOf(s: string, c: char): (r: int)
    ensures -1 <= r < |s|
    ensures r == -1 <==> c !in s
    ensures r >= 0 ==> s[r] == c && c !in s[..r]
  {
    if s == [] then -1
    else if s[0] == c then 0
    else
      var k := IndexOf(s[1..], c);
      assert s == [s[0]] + s[1..];
      if k == -1 then -1
      else
        assert s[..k + 1] == [s[0]] + s[1..][..k];
        k + 1
  }

  /** The first `c` is the one right after a prefix free of `c`. */
  lemma IndexOfAfter(a: string, c: char, b: string)
    requires c !in a
    ensures IndexOf(a + [c] + b, c) == |a|
  {
    var s := a + [c] + b;
    assert s[|a|] == c && s[..|a|] == a;
  }

  /** `s.lastIndexOf(c)`: the last index holding `c`, or -1. */
  function LastIndexOf(s: string, c: char): (r: int)
    ensures -1 <= r < |s|
    ensures r == -1 <==> c !in s
    ensures r >= 0 ==> s[r] == c && c !in s[r + 1..]
  {
    if s == [] then -1
    else if s[|s| - 1] == c then |s| - 1
    else
      assert s == s[..|s| - 1] + [s[|s| - 1]];
      var k := LastIndexOf(s[..|s| - 1], c);
      if k >= 0 then
        assert s[k + 1..] == s[..|s| - 1][k + 1..] + [s[|s| - 1]];
        k
      else k
  }

  /** `s.replace(from, to)` for single characters. */
  function ReplaceChar(s: string, from: char, to: char): (r: string)
    ensures |r| == |s|
    ensures forall i :: 0 <= i < |s| ==> r[i] == (if s[i] == from then to else s[i])
  {
    if s == [] then []
    else [if s[0] == from then to else s[0]] + ReplaceChar(s[1..], from, to)
  }

  /**
   * `s.replace(target, replacement)`: the occurrences of `target`, found left
   * to right without overlapping, replaced (for a non-empty target).
   */
  function Replace(s: string, target: string, replacement: string): string
    requires target != []
    decreases |s|
  {
    if s == [] then []
    else if StartsWith(s, target) then replacement + Replace(s[|target|..], target, replacement)
    else [s[0]] + Replace(s[1..], target, replacement)
  }

  /** Text without the target is left as it is. */
  lemma {:induction false} ReplaceAbsent(s: string, target: string, replacement: string)
    requires target != [] && !Contains(s, target)
    ensures Replace(s, target, replacement) == s
    decreases |s|
  {
    if s != [] {
      ReplaceAbsent(s[1..], target, replacement);
    }
  }

  // ---------------------------------------------------------------------
  // Whitespace.
  // ---------------------------------------------------------------------

  /** The regex class `\s` without UNICODE_CHARACTER_CLASS: [ \t\n\x0B\f\r]. */
  predicate IsRegexSpace(c: char) {
    c == ' ' || c == '\t' || c == '\n' || c == '\r' || c as int == 0x0B || c as int == 0x0C
  }

  /** The characters `String.trim()` removes: code points up to U+0020. */
  predicate IsTrimmable(c: char) {
    c as int <= 0x20
  }

  /** Character.isWhitespace, the characters `String.strip()` removes. */
  predicate IsWhitespace(c: char) {
    var n := c as int;
    || 0x09 <= n <= 0x0D || 0x1C <= n <= 0x20
    || n == 0x1680 || 0x2000 <= n <= 0x2006 || 0x2008 <= n <= 0x200A
    || n == 0x2028 || n == 0x2029 || n == 0x205F || n == 0x3000
  }

  /** The three sets of characters that get trimmed. */
  datatype CharClass = Trimmable | Whitespace | RegexSpace

  predicate InClass(c: char, k: CharClass) {
    match k
    case Trimmable => IsTrimmable(c)
    case Whitespace => IsWhitespace(c)
    case RegexSpace => IsRegexSpace(c)
  }

  /** Drops the longest prefix of characters of class `k`. */
  function TrimStart(s: string, k: CharClass): (r: string)
    ensures |r| <= |s| && r == s[|s| - |r|..]
    ensures r == [] || !InClass(r[0], k)
    ensures forall i :: 0 <= i < |s| - |r| ==> InClass(s[i], k)
  {
    if s == [] || !InClass(s[0], k) then s else TrimStart(s[1..], k)
  }

  /** Drops the longest suffix of characters of class `k`. */
  function TrimEnd(s: string, k: CharClass): (r: string)
    ensures |r| <= |s| && r == s[..|r|]
    ensures r == [] || !InClass(r[|r| - 1], k)
    ensures forall i :: |r| <= i < |s| ==> InClass(s[i], k)
  {
    if s == [] || !InClass(s[|s| - 1], k) then s else TrimEnd(s[..|s| - 1], k)
  }

  /** Drops the characters of class `k` at both ends. */
  function TrimBoth(s: string, k: CharClass): (r: string)
    ensures r == [] || (!InClass(r[0], k) && !InClass(r[|r| - 1], k))
    ensures |r| <= |s|
  {
    var t := TrimStart(s, k);
    var r := TrimEnd(t, k);
    if r == [] then r
    else
      assert r[0] == t[0];
      r
  }

  /** `s.trim()`. */
  function Trim(s: string): string {
    TrimBoth(s, Trimmable)
  }

  /** `s.strip()`. */
  function Strip(s: string): string {
    TrimBoth(s, Whitespace)
  }

  /** `s.isBlank()`. */
  predicate IsBlank(s: string) {
    forall i :: 0 <= i < |s| ==> IsWhitespace(s[i])
  }

  lemma StripEmptyIffBlank(s: string)
    ensures Strip(s) == [] <==> IsBlank(s)
  {
    var t := TrimStart(s, Whitespace);
    if t != [] {
      assert !IsWhitespace(s[|s| - |t|]);
    }
  }

  /** Text already stripped is left as it is. */
  lemma StripStripped(s: string)
    ensures Strip(Strip(s)) == Strip(s)
  {
    var r := Strip(s);
    if r != [] {
      assert TrimStart(r, Whitespace) == r;
      assert TrimEnd(r, Whitespace) == r;
    }
  }

  /** Spring's `trimToNull` idiom: the stripped text, or null when it is null or blank. */
  function TrimToNull(s: Option<string>): (r: Option<string>)
    ensures r.None? <==> s.None? || IsBlank(s.value)
    ensures r.Some? ==> r.value == Strip(s.value) && r.value != []
  {
    if s.None? then None
    else
      var trimmed := Strip(s.value);
      StripEmptyIffBlank(s.value);
      if |trimmed| > 0 then Some(trimmed) else None
  }

  /** Trimming is idempotent: a title already trimmed stays as it is. */
  lemma TrimToNullIdempotent(s: Option<string>)
    ensures TrimToNull(TrimToNull(s)) == TrimToNull(s)
  {
    if TrimToNull(s).Some? {
      StripStripped(s.value);
    }
  }

  /**
   * `Character.toLowerCase` on the letters this model folds: ASCII A-Z and
   * the Latin-1 capitals U+00C0 to U+00DE except the sign U+00D7. Every
   * other character, including letters of other scripts, is left as it is.
   */
  function LowerChar(c: char): char {
    if 'A' <= c <= 'Z' || (0xC0 <= c as int <= 0xDE && c as int != 0xD7) then (c as int + 32) as char
    else c
  }

  /** `toLowerCase()`, one character at a time, for ASCII and Latin-1 letters only. */
  function ToLower(s: string): (r: string)
    ensures |r| == |s|
    ensures forall i :: 0 <= i < |s| ==> r[i] == LowerChar(s[i])
  {
    if s == [] then []
    else [LowerChar(s[0])] + ToLower(s[1..])
  }

  /** `equalsIgnoreCase`: equal after lower-casing, for ASCII and Latin-1 letters only. */
  predicate EqualsIgnoreCase(a: string, b: string) {
    ToLower(a) == ToLower(b)
  }

  /** Two strings are equal ignoring case exactly when they agree at each position after lower-casing. */
  lemma EqualsIgnoreCasePointwise(a: string, b: string)
    ensures EqualsIgnoreCase(a, b) <==> |a| == |b| && forall i :: 0 <= i < |a| ==> LowerChar(a[i]) == LowerChar(b[i])
  {
    if |a| == |b| && forall i :: 0 <= i < |a| ==> LowerChar(a[i]) == LowerChar(b[i]) {
      assert forall i :: 0 <= i < |a| ==> ToLower(a)[i] == ToLower(b)[i];
    }
  }

  // ---------------------------------------------------------------------
  // Splitting.
  // ---------------------------------------------------------------------

  /** Number of occurrences of `c` in `s`. */
  function CountChar(s: string, c: char): nat {
    if s == [] then 0 else (if s[0] == c then 1 else 0) + CountChar(s[1..], c)
  }

  /** Joins parts with `sep` between consecutive parts. */
  function Join(parts: seq<string>, sep: char): string
    requires |parts| >= 1
  {
    if |parts| == 1 then parts[0] else parts[0] + [sep] + Join(parts[1..], sep)
  }

  /** Cuts `s` at every `sep`, keeping empty pieces (no trailing-empty removal yet). */
  function SplitAt(s: string, sep: char): (r: seq<string>)
    ensures |r| == CountChar(s, sep) + 1
    ensures forall i :: 0 <= i < |r| ==> sep !in r[i]
    decreases |s|
  {
    var k := IndexOf(s, sep);
    if k == -1 then
      CountCharAbsent(s, sep);
      [s]
    else
      CountCharSplit(s, sep, k);
      [s[..k]] + SplitAt(s[k + 1..], sep)
  }

  lemma {:induction false} CountCharAbsent(s: string, c: char)
    requires c !in s
    ensures CountChar(s, c) == 0
  {
    if s != [] {
      assert c !in s[1..];
      CountCharAbsent(s[1..], c);
    }
  }

  lemma {:induction false} CountCharSplit(s: string, c: char, k: nat)
    requires k < |s| && s[k] == c && c !in s[..k]
    ensures CountChar(s, c) == 1 + CountChar(s[k + 1..], c)
  {
    if k > 0 {
      assert s[1..][..k - 1] == s[1..k];
      assert c !in s[1..][..k - 1];
      CountCharSplit(s[1..], c, k - 1);
      assert s[1..][k..] == s[k + 1..];
    } else {
      assert s[1..] == s[k + 1..];
    }
  }

  /** Cutting and re-joining gives back the input. */
  lemma {:induction false} JoinSplitAt(s: string, sep: char)
    ensures Join(SplitAt(s, sep), sep) == s
    decreases |s|
  {
    var k := IndexOf(s, sep);
    if k == -1 {
      assert SplitAt(s, sep) == [s];
    } else {
      var rest := SplitAt(s[k + 1..], sep);
      assert SplitAt(s, sep) == [s[..k]] + rest;
      JoinSplitAt(s[k + 1..], sep);
      assert ([s[..k]] + rest)[1..] == rest;
      assert Join([s[..k]] + rest, sep) == s[..k] + [sep] + Join(rest, sep);
      assert s == s[..k] + [sep] + s[k + 1..];
    }
  }

  /** Removes the empty strings at the end, as String.split with limit 0 does. */
  function DropTrailingEmpty(parts: seq<string>): (r: seq<string>)
    ensures |r| <= |parts| && r == parts[..|r|]
    ensures r == [] || r[|r| - 1] != []
    ensures forall i :: |r| <= i < |parts| ==> parts[i] == []
  {
    if parts == [] || parts[|parts| - 1] != [] then parts
    else DropTrailingEmpty(parts[..|parts| - 1])
  }

  /**
   * Trims the regex whitespace next to each cut: the end of every piece but the
   * last and the start of every piece but the first.
   */
  function TrimAroundCuts(parts: seq<string>): (r: seq<string>)
    ensures |r| == |parts|
    ensures forall i :: 0 <= i < |parts| ==>
      var p := if i < |parts| - 1 then TrimEnd(parts[i], RegexSpace) else parts[i];
      r[i] == (if i > 0 then TrimStart(p, RegexSpace) else p)
  {
    seq(|parts|, i requires 0 <= i < |parts| =>
      var p := if i < |parts| - 1 then TrimEnd(parts[i], RegexSpace) else parts[i];
      if i > 0 then TrimStart(p, RegexSpace) else p)
  }

  /**
   * `s.split("\\s*[|]\\s*")`: a leftmost match of the pattern starts at the first
   * of the whitespace characters right before a '|' and ends after those right
   * behind it, so the pieces are the '|'-separated pieces with that whitespace
   * removed; a match at offset 0 keeps the empty leading piece, and trailing
   * empty pieces are dropped.
   */
  function SplitPipes(s: string): (r: seq<string>)
    ensures |r| <= CountChar(s, '|') + 1
    ensures forall i :: 0 <= i < |r| ==> '|' !in r[i]
  {
    var cut := SplitAt(s, '|');
    var trimmed := TrimAroundCuts(cut);
    TrimAroundCutsKeepsOut(cut, '|');
    DropTrailingEmpty(trimmed)
  }

  /** Trimming the pieces adds no character to them. */
  lemma TrimAroundCutsKeepsOut(parts: seq<string>, c: char)
    requires forall i :: 0 <= i < |parts| ==> c !in parts[i]
    ensures forall i :: 0 <= i < |parts| ==> c !in TrimAroundCuts(parts)[i]
  {
    var r := TrimAroundCuts(parts);
    forall i | 0 <= i < |parts|
      ensures c !in r[i]
    {
      var p := if i < |parts| - 1 then TrimEnd(parts[i], RegexSpace) else parts[i];
      assert c !in p by {
        if i < |parts| - 1 {
          assert p == parts[i][..|p|];
        }
      }
      if i > 0 {
        var q := TrimStart(p, RegexSpace);
        assert q == p[|p| - |q|..];
      }
    }
  }

  // ---------------------------------------------------------------------
  // Decimal numbers.
  // ---------------------------------------------------------------------

  const INT_MIN: int := -0x8000_0000
  const INT_MAX: int := 0x7fff_ffff

  predicate IsInt32(n: int) {
    INT_MIN <= n <= INT_MAX
  }

  predicate IsDigit(c: char) {
    '0' <= c <= '9'
  }

  predicate AllDigits(s: string) {
    forall i :: 0 <= i < |s| ==> IsDigit(s[i])
  }

  /** The value of a string of decimal digits, most significant first. */
  function DigitsValue(s: string): nat
    requires AllDigits(s)
  {
    if s == [] then 0
    else 10 * DigitsValue(s[..|s| - 1]) + (s[|s| - 1] as int - '0' as int)
  }

  /** `Integer.parseInt(s)`: optional sign, at least one digit, within int range. */
  function ParseInt(s: string): (r: Result<int>)
    ensures r.Success? ==> IsInt32(r.value)
    ensures r.Failure? ==> r.error == NumberFormatError
    ensures s == [] ==> r.Failure?
    ensures r.Success? ==> exists i :: 0 <= i <= 1 && AllDigits(s[i..]) && s[i..] != []
  {
    if s == [] then Failure(NumberFormatError)
    else
      var neg := s[0] == '-';
      var digits := if s[0] == '-' || s[0] == '+' then s[1..] else s;
      if digits == [] || !AllDigits(digits) then Failure(NumberFormatError)
      else
        var m: int := DigitsValue(digits);
        var v := if neg then -m else m;
        if IsInt32(v) then
          assert digits == s[if s[0] == '-' || s[0] == '+' then 1 else 0..];
          Success(v)
        else Failure(NumberFormatError)
  }

  function DigitChar(d: nat): (c: char)
    requires d < 10
    ensures IsDigit(c) && c as int - '0' as int == d
  {
    ('0' as int + d) as char
  }

  /** The shortest decimal rendering of `n`, as `%d` prints a non-negative int. */
  function NatToString(n: nat): (r: string)
    ensures AllDigits(r) && r != []
    ensures DigitsValue(r) == n
  {
    if n < 10 then [DigitChar(n)]
    else
      var r := NatToString(n / 10) + [DigitChar(n % 10)];
      assert r[..|r| - 1] == NatToString(n / 10);
      r
  }

  /** `%d`. */
  function IntToString(n: int): string {
    if n < 0 then "-" + NatToString(-n) else NatToString(n)
  }

  function Zeros(k: nat): (r: string)
    ensures |r| == k && forall i :: 0 <= i < k ==> r[i] == '0'
  {
    if k == 0 then [] else "0" + Zeros(k - 1)
  }

  /** Left-pads a digit string with zeros to at least `width` characters. */
  function ZeroPad(s: string, width: nat): (r: string)
    ensures |r| == if |s| < width then width else |s|
    ensures AllDigits(s) ==> AllDigits(r) && DigitsValue(r) == DigitsValue(s)
  {
    if |s| < width then
      var r := Zeros(width - |s|) + s;
      if AllDigits(s) then
        LeadingZeros(width - |s|, s);
        r
      else r
    else s
  }

  lemma {:induction false} LeadingZeros(k: nat, s: string)
    requires AllDigits(s)
    ensures AllDigits(Zeros(k) + s) && DigitsValue(Zeros(k) + s) == DigitsValue(s)
    decreases k, |s|
  {
    var z := Zeros(k) + s;
    if s == [] {
      assert z == Zeros(k);
      ZerosValue(k);
    } else {
      assert z[..|z| - 1] == Zeros(k) + s[..|s| - 1];
      LeadingZeros(k, s[..|s| - 1]);
    }
  }

  lemma {:induction false} ZerosValue(k: nat)
    ensures AllDigits(Zeros(k)) && DigitsValue(Zeros(k)) == 0
  {
    if k > 0 {
      assert Zeros(k)[..k - 1] == Zeros(k - 1) by {
        ZerosSnoc(k - 1);
      }
      ZerosValue(k - 1);
    }
  }

  lemma {:induction false} ZerosSnoc(k: nat)
    ensures Zeros(k + 1) == Zeros(k) + "0"
  {
    if k > 0 {
      ZerosSnoc(k - 1);
    }
  }

  /** `String.format("%03d", n)`: the sign counts toward the width of three. */
  function Format03(n: int): (r: string)
    ensures |r| >= 3
    ensures n >= 0 ==> AllDigits(r)
    ensures n < 0 ==> r[0] == '-' && AllDigits(r[1..])
  {
    if n < 0 then "-" + ZeroPad(NatToString(-n), 2) else ZeroPad(NatToString(n), 3)
  }

  /** Parsing what `%03d` printed gives the number back. */
  lemma ParseFormat03(n: int)
    requires IsInt32(n)
    ensures ParseInt(Format03(n)) == Success(n)
  {
    var r := Format03(n);
    if n < 0 {
      assert r[1..] == ZeroPad(NatToString(-n), 2);
    } else {
      assert IsDigit(r[0]);
    }
  }

  /** Parsing what `%d` printed for a non-negative int gives it back. */
  lemma ParseNatToString(n: nat)
    requires n <= INT_MAX
    ensures ParseInt(NatToString(n)) == Success(n)
  {
    assert IsDigit(NatToString(n)[0]);
  }
}
