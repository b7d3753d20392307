/** The pieces of JavaScript's built-in behaviour that the voting client relies
    on, written out: `String.prototype.includes`, `startsWith`, `toLowerCase`
    (ASCII letters), the `/^\d+$/` test with `parseInt(s, 10)`, `parseInt(s, 16)`
    on a `0x` string, decimal rendering of a count in a template string,
    `Math.floor(ms / 1000)`, and numbers that may be `NaN`. */
module JsRuntime {

  /** A JavaScript number as far as the client can produce one: an integer,
      or `NaN`. */
  datatype JsNumber = Finite(value: int) | NaN

  /** JavaScript truthiness of a number: `0` and `NaN` are falsy. */
  predicate Truthy(n: JsNumber) {
    n.Finite? && n.value != 0
  }

  /** `Math.floor(ms / 1000)`: Unix seconds from a millisecond clock reading.
      Dafny's `/` with a positive divisor rounds toward minus infinity, as
      `Math.floor` does. */
  function UnixSeconds(ms: int): (s: int)
    ensures s * 1000 <= ms < s * 1000 + 1000
  {
    ms / 1000
  }

  // ----- substrings -----

  /** `haystack.includes(needle)`, by scanning start positions left to right. */
  function Includes(haystack: string, needle: string): bool
    decreases |haystack|
  {
    if |needle| > |haystack| then false
    else if haystack[..|needle|] == needle then true
    else Includes(haystack[1..], needle)
  }

  /** `needle` occurs in `haystack` starting at position `i`. */
  predicate OccursAt(haystack: string, needle: string, i: int) {
    0 <= i <= |haystack| - |needle| && haystack[i..i + |needle|] == needle
  }

  /** `Includes` finds the needle exactly when it occurs at some position. */
  lemma {:induction false} IncludesIffOccurs(haystack: string, needle: string)
    ensures Includes(haystack, needle) <==> exists i :: OccursAt(haystack, needle, i)
    decreases |haystack|
  {
    var n := |needle|;
    if n > |haystack| {
    } else if haystack[..n] == needle {
      assert OccursAt(haystack, needle, 0);
    } else {
      var tail := haystack[1..];
      IncludesIffOccurs(tail, needle);
      if Includes(tail, needle) {
        var i :| OccursAt(tail, needle, i);
        assert haystack[i + 1..i + 1 + n] == tail[i..i + n];
        assert OccursAt(haystack, needle, i + 1);
      }
      if exists i :: OccursAt(haystack, needle, i) {
        var i :| OccursAt(haystack, needle, i);
        assert i != 0;
        assert tail[i - 1..i - 1 + n] == haystack[i..i + n];
        assert OccursAt(tail, needle, i - 1);
      }
    }
  }

  /** `s.startsWith(prefix)`. */
  predicate StartsWith(s: string, prefix: string) {
    |prefix| <= |s| && s[..|prefix|] == prefix
  }

  // ----- case -----

  /** `toLowerCase` on one character; only the ASCII letters are mapped. */
  function LowerChar(c: char): char {
    if 'A' <= c <= 'Z' then (c as int + 32) as char else c
  }

  /** `s.toLowerCase()` for ASCII text (addresses are hexadecimal ASCII). */
  function ToLower(s: string): (r: string)
    ensures |r| == |s|
    ensures forall i :: 0 <= i < |s| ==> r[i] == LowerChar(s[i])
  {
    if s == [] then [] else [LowerChar(s[0])] + ToLower(s[1..])
  }

  /** Two strings are the same letter for letter, ignoring case. */
  predicate SameIgnoringCase(a: string, b: string) {
    |a| == |b| && forall i :: 0 <= i < |a| ==> LowerChar(a[i]) == LowerChar(b[i])
  }

  /** Comparing lower-cased copies is exactly comparison ignoring case. */
  lemma LowerEqualIffSameIgnoringCase(a: string, b: string)
    ensures ToLower(a) == ToLower(b) <==> SameIgnoringCase(a, b)
  {
    if SameIgnoringCase(a, b) {
      assert forall i :: 0 <= i < |a| ==> ToLower(a)[i] == ToLower(b)[i];
    }
  }

  // ----- decimal digits -----

  predicate IsDigit(c: char) {
    '0' <= c <= '9'
  }

  /** The regular expression `/^\d+$/`: one or more ASCII digits. */
  predicate AllDigits(s: string) {
    |s| > 0 && forall i :: 0 <= i < |s| ==> IsDigit(s[i])
  }

  function DigitChar(d: nat): (c: char)
    requires d < 10
    ensures IsDigit(c)
  {
    ('0' as int + d) as char
  }

  function DigitValue(c: char): (d: nat)
    requires IsDigit(c)
    ensures d < 10
  {
    c as int - '0' as int
  }

  /** The value of a string of decimal digits (`parseInt(s, 10)` on a string
      that passed `/^\d+$/`). */
  function DecimalValue(s: string): nat
    requires forall i :: 0 <= i < |s| ==> IsDigit(s[i])
  {
    if s == [] then 0
    else DecimalValue(s[..|s| - 1]) * 10 + DigitValue(s[|s| - 1])
  }

  /** `${n}` for a non-negative integer: its decimal digits, most significant first. */
  function NatToString(n: nat): (r: string)
  {
    if n < 10 then [DigitChar(n)] else NatToString(n / 10) + [DigitChar(n % 10)]
  }

  /** Rendering a count and reading it back gives the count: `${n}` is a
      string of digits, without a leading zero, that `parseInt(·, 10)` maps
      back to `n`. */
  lemma {:induction false} NatToStringRoundTrip(n: nat)
    ensures AllDigits(NatToString(n))
    ensures DecimalValue(NatToString(n)) == n
    ensures NatToString(n)[0] != '0' || n == 0
  {
    if n >= 10 {
      NatToStringRoundTrip(n / 10);
      var s := NatToString(n);
      assert s[..|s| - 1] == NatToString(n / 10);
    }
  }

  // ----- hexadecimal digits -----

  predicate IsHexDigit(c: char) {
    IsDigit(c) || 'a' <= c <= 'f' || 'A' <= c <= 'F'
  }

  function HexDigitValue(c: char): (v: nat)
    requires IsHexDigit(c)
    ensures v < 16
  {
    if IsDigit(c) then c as int - '0' as int
    else if 'a' <= c <= 'f' then c as int - 'a' as int + 10
    else c as int - 'A' as int + 10
  }

  /** The length of the longest prefix of `s` made of hexadecimal digits. */
  function HexRunLength(s: string): (k: nat)
    ensures k <= |s|
    ensures forall i :: 0 <= i < k ==> IsHexDigit(s[i])
    ensures k < |s| ==> !IsHexDigit(s[k])
  {
    if s == [] || !IsHexDigit(s[0]) then 0 else 1 + HexRunLength(s[1..])
  }

  function HexValue(s: string): nat
    requires forall i :: 0 <= i < |s| ==> IsHexDigit(s[i])
  {
    if s == [] then 0
    else HexValue(s[..|s| - 1]) * 16 + HexDigitValue(s[|s| - 1])
  }

  /** `parseInt(s, 16)` for a string that starts with `0x`: the prefix is
      skipped, the longest run of hexadecimal digits after it is read, and
      `NaN` results when that run is empty. */
  function ParseHex0x(s: string): (r: JsNumber)
    requires StartsWith(s, "0x")
    ensures r.NaN? <==> |s| == 2 || !IsHexDigit(s[2])
    ensures r.Finite? ==> r.value >= 0
  {
    var digits := s[2..];
    var k := HexRunLength(digits);
    if k == 0 then NaN else Finite(HexValue(digits[..k]))
  }

  /** Characters after the first non-hexadecimal one do not matter:
      `parseInt("0x1fzz", 16)` reads as `parseInt("0x1f", 16)`. */
  lemma ParseHex0xIgnoresTrailing(s: string, digits: string, rest: string)
    requires |digits| > 0 && forall i :: 0 <= i < |digits| ==> IsHexDigit(digits[i])
    requires rest == [] || !IsHexDigit(rest[0])
    requires s == "0x" + (digits + rest)
    ensures StartsWith(s, "0x")
    ensures ParseHex0x(s) == Finite(HexValue(digits))
  {
    assert s[..2] == "0x";
    assert s[2..] == digits + rest;
    HexRunOfDigits(digits, rest);
    assert (digits + rest)[..|digits|] == digits;
  }

  lemma {:induction false} HexRunOfDigits(digits: string, rest: string)
    requires forall i :: 0 <= i < |digits| ==> IsHexDigit(digits[i])
    requires rest == [] || !IsHexDigit(rest[0])
    ensures HexRunLength(digits + rest) == |digits|
  {
    if digits != [] {
      assert (digits + rest)[1..] == digits[1..] + rest;
      HexRunOfDigits(digits[1..], rest);
    } else {
      assert digits + rest == rest;
    }
  }
}
