/** The small part of PHP's string semantics that the monitor relies on:
    truthiness of strings, `??` lookups in a settings array, `strcmp` ordering,
    the `(int)` cast, integer-to-string conversion, `implode`, `str_replace`
    with an empty replacement and `substr($s, 0, n)`. */
module Php {

  /** A string PHP treats as false in `!$s`, `if ($s)` and `empty($s)`. */
  predicate Falsy(s: string) {
    s == "" || s == "0"
  }

  /** `$m[$key] ?? $default` for a settings array of strings. */
  function SettingOr(m: map<string, string>, key: string, default: string): string {
    if key in m then m[key] else default
  }

  /** `empty($m[$key])`: the key is missing or holds a falsy string. */
  predicate EmptySetting(m: map<string, string>, key: string) {
    key !in m || Falsy(m[key])
  }

  // ---------------------------------------------------------------------------
  // strcmp ordering (PHP compares two non-numeric strings byte by byte; code-point
  // order on characters is the same order as byte order on their UTF-8 encoding)

  /** `$a < $b` on strings. */
  predicate Less(a: string, b: string)
    decreases |a|
  {
    if a == [] then b != []
    else if b == [] then false
    else if a[0] != b[0] then a[0] < b[0]
    else Less(a[1..], b[1..])
  }

  lemma {:induction false} LessIrreflexive(a: string)
    ensures !Less(a, a)
    decreases |a|
  {
    if a != [] {
      LessIrreflexive(a[1..]);
    }
  }

  lemma {:induction false} LessAsymmetric(a: string, b: string)
    requires Less(a, b)
    ensures !Less(b, a)
    decreases |a|
  {
    if a != [] && b != [] && a[0] == b[0] {
      LessAsymmetric(a[1..], b[1..]);
    }
  }

  lemma {:induction false} LessTotal(a: string, b: string)
    ensures a == b || Less(a, b) || Less(b, a)
    decreases |a|
  {
    if a != [] && b != [] && a[0] == b[0] {
      LessTotal(a[1..], b[1..]);
      if a[1..] == b[1..] {
        assert a == [a[0]] + a[1..] && b == [b[0]] + b[1..];
      }
    }
  }

  lemma {:induction false} LessTransitive(a: string, b: string, c: string)
    requires Less(a, b) && Less(b, c)
    ensures Less(a, c)
    decreases |a|
  {
    if a != [] && b != [] && c != [] && a[0] == b[0] && b[0] == c[0] {
      LessTransitive(a[1..], b[1..], c[1..]);
    }
  }

  // ---------------------------------------------------------------------------
  // Decimal digits

  predicate IsDigit(c: char) {
    '0' <= c <= '9'
  }

  function DigitValue(c: char): nat
    requires IsDigit(c)
  {
    (c as int) - ('0' as int)
  }

  function DigitChar(d: nat): (c: char)
    requires d < 10
    ensures IsDigit(c) && DigitValue(c) == d
  {
    (('0' as int) + d) as char
  }

  predicate AllDigits(s: string) {
    forall i :: 0 <= i < |s| ==> IsDigit(s[i])
  }

  /** The value of a string of decimal digits, most significant first. */
  function DigitsValue(s: string): nat
    requires AllDigits(s)
  {
    if s == [] then 0 else DigitsValue(s[..|s| - 1]) * 10 + DigitValue(s[|s| - 1])
  }

  /** The longest prefix of `s` made of decimal digits. */
  function LeadingDigits(s: string): (p: string)
    ensures p <= s && AllDigits(p)
    ensures |p| < |s| ==> !IsDigit(s[|p|])
  {
    if s == [] || !IsDigit(s[0]) then [] else [s[0]] + LeadingDigits(s[1..])
  }

  /** `(int)$s` for a string: an optional sign followed by the leading decimal digits;
      a string with no leading digits casts to 0. */
  function IntCast(s: string): int {
    if |s| > 0 && s[0] == '-' then -(DigitsValue(LeadingDigits(s[1..])) as int)
    else if |s| > 0 && s[0] == '+' then DigitsValue(LeadingDigits(s[1..]))
    else DigitsValue(LeadingDigits(s))
  }

  /** Decimal rendering of a natural number, as PHP writes an int into a string. */
  function NatToString(n: nat): (s: string)
    ensures |s| > 0 && AllDigits(s)
  {
    if n < 10 then [DigitChar(n)] else NatToString(n / 10) + [DigitChar(n % 10)]
  }

  /** Decimal rendering of an integer (`(string)$n`, `"{$n}"`). */
  function IntToString(n: int): string {
    if n < 0 then "-" + NatToString(-n) else NatToString(n)
  }

  lemma {:induction false} NatToStringValue(n: nat)
    ensures DigitsValue(NatToString(n)) == n
    decreases n
  {
    var s := NatToString(n);
    if n >= 10 {
      NatToStringValue(n / 10);
      assert s[..|s| - 1] == NatToString(n / 10);
    }
  }

  lemma {:induction false} LeadingDigitsOfDigits(s: string)
    requires AllDigits(s)
    ensures LeadingDigits(s) == s
    decreases |s|
  {
    if s != [] {
      LeadingDigitsOfDigits(s[1..]);
    }
  }

  /** Storing an int as a setting and reading it back with `(int)` gives the same int. */
  lemma IntCastRoundTrip(n: int)
    ensures IntCast(IntToString(n)) == n
  {
    var digits := NatToString(if n < 0 then -n else n);
    LeadingDigitsOfDigits(digits);
    NatToStringValue(if n < 0 then -n else n);
    if n < 0 {
      assert IntToString(n)[1..] == digits;
    } else {
      assert IsDigit(digits[0]);
    }
  }

  // ---------------------------------------------------------------------------
  // implode, str_replace, substr

  /** `implode($sep, $parts)`. */
  function Implode(sep: string, parts: seq<string>): string {
    if |parts| == 0 then ""
    else if |parts| == 1 then parts[0]
    else Implode(sep, parts[..|parts| - 1]) + sep + parts[|parts| - 1]
  }

  /** `str_replace($pat, '', $s)`: every non-overlapping occurrence of `pat`, scanning
      from the left, is removed. */
  function RemoveAll(s: string, pat: string): string
    requires pat != []
    decreases |s|
  {
    if |s| < |pat| then s
    else if s[..|pat|] == pat then RemoveAll(s[|pat|..], pat)
    else [s[0]] + RemoveAll(s[1..], pat)
  }

  /** A string without the first character of `pat` gets `pat` back off its end:
      this is how a formatted value such as "12.5 GB" is turned back into "12.5". */
  lemma {:induction false} RemoveAllSuffix(x: string, pat: string)
    requires pat != []
    requires forall i :: 0 <= i < |x| ==> x[i] != pat[0]
    ensures RemoveAll(x + pat, pat) == x
    decreases |x|
  {
    if x == [] {
      assert (x + pat)[..|pat|] == pat;
      assert (x + pat)[|pat|..] == [];
    } else {
      var s := x + pat;
      assert s[0] == x[0];
      assert s[..|pat|] != pat by {
        assert s[..|pat|][0] == x[0];
      }
      RemoveAllSuffix(x[1..], pat);
      assert s[1..] == x[1..] + pat;
      assert x == [x[0]] + x[1..];
    }
  }

  /** `substr($s, 0, $n)`. */
  function Prefix(s: string, n: nat): (p: string)
    ensures p <= s && |p| == if |s| < n then |s| else n
  {
    if |s| <= n then s else s[..n]
  }

  /** The masked account id shown to users: the first seven characters and "***". */
  function Mask(key: string): (m: string)
    ensures |m| >= 3 && m[|m| - 3..] == "***"
    ensures m[..|m| - 3] == if |key| < 7 then key else key[..7]
  {
    Prefix(key, 7) + "***"
  }
}
