/**
 * The JavaScript built-ins that the record page and the recommendation card
 * call, with the meaning the ECMAScript language specification gives them,
 * restricted to the arguments the two components pass: truthiness of an
 * optional string or number, `||` with a fallback, String.prototype.trim,
 * String.prototype.padStart with a one-character filler,
 * String.prototype.substring and Number.prototype.toString on a non-negative
 * integer.  The components call nothing else here: `IndexOf` and `ParseNat`
 * (finding a character, reading a decimal numeral back) only serve to read
 * the timer text back, so that its round trip can be stated.
 */
module Js {
  import opened Wrappers

  function Min(a: int, b: int): int { if a <= b then a else b }
  function Max(a: int, b: int): int { if a <= b then b else a }

  // ---------------------------------------------------------------- truthiness

  /** A `string | null | undefined` value is truthy when present and not "". */
  predicate StringTruthy(s: Option<string>) {
    s.Some? && s.value != ""
  }

  /** A `number | undefined` value is truthy when present and not 0. */
  predicate NumberTruthy(n: Option<int>) {
    n.Some? && n.value != 0
  }

  /** `s || fallback`: the value itself when it is truthy, the fallback otherwise. */
  function StringOr(s: Option<string>, fallback: string): string {
    if StringTruthy(s) then s.value else fallback
  }

  // ------------------------------------------------------ String.prototype.trim

  /**
   * The code points `trim` removes: the WhiteSpace and LineTerminator code
   * points of the ECMAScript specification (sections 12.2 and 12.3 of
   * ECMA-262): TAB, LF, VT, FF, CR, the space separators of Unicode category
   * Zs, LINE SEPARATOR, PARAGRAPH SEPARATOR and ZERO WIDTH NO-BREAK SPACE.
   */
  predicate IsWhitespace(c: char) {
    var u := c as int;
    (0x09 <= u <= 0x0D) || u == 0x20 || u == 0xA0 || u == 0x1680
    || (0x2000 <= u <= 0x200A) || u == 0x2028 || u == 0x2029
    || u == 0x202F || u == 0x205F || u == 0x3000 || u == 0xFEFF
  }

  /** The first position at or after `from` that does not hold whitespace (or |s|). */
  function SkipWhitespace(s: string, from: nat): (k: nat)
    requires from <= |s|
    ensures from <= k <= |s|
    ensures forall i :: from <= i < k ==> IsWhitespace(s[i])
    ensures k < |s| ==> !IsWhitespace(s[k])
    decreases |s| - from
  {
    if from < |s| && IsWhitespace(s[from]) then SkipWhitespace(s, from + 1) else from
  }

  /** The end of `s[lo..end]` once its trailing whitespace is dropped. */
  function SkipWhitespaceBack(s: string, lo: nat, end: nat): (k: nat)
    requires lo <= end <= |s|
    ensures lo <= k <= end
    ensures forall i :: k <= i < end ==> IsWhitespace(s[i])
    ensures lo < k ==> !IsWhitespace(s[k - 1])
    decreases end
  {
    if lo < end && IsWhitespace(s[end - 1]) then SkipWhitespaceBack(s, lo, end - 1) else end
  }

  /** How many whitespace characters `trim` drops from the front of `s`. */
  function LeadingWhitespace(s: string): (k: nat)
    ensures k <= |s|
  {
    SkipWhitespace(s, 0)
  }

  /**
   * `s.trim()`: the slice of `s` that starts after its leading whitespace,
   * with only whitespace after it, and that neither starts nor ends with
   * whitespace.
   */
  function Trim(s: string): (r: string)
    ensures LeadingWhitespace(s) + |r| <= |s|
    ensures r == s[LeadingWhitespace(s)..LeadingWhitespace(s) + |r|]
    ensures forall i :: 0 <= i < LeadingWhitespace(s) ==> IsWhitespace(s[i])
    ensures forall i :: LeadingWhitespace(s) + |r| <= i < |s| ==> IsWhitespace(s[i])
    ensures r != [] ==> !IsWhitespace(r[0]) && !IsWhitespace(r[|r| - 1])
  {
    var lo := SkipWhitespace(s, 0);
    var hi := SkipWhitespaceBack(s, lo, |s|);
    s[lo..hi]
  }

  /** `s.trim()` is empty exactly when every character of `s` is whitespace. */
  lemma TrimEmptyIff(s: string)
    ensures Trim(s) == [] <==> forall i :: 0 <= i < |s| ==> IsWhitespace(s[i])
  {
    var r, k := Trim(s), LeadingWhitespace(s);
    if r != [] {
      assert s[k] == r[0];
    } else {
      forall i | 0 <= i < |s| ensures IsWhitespace(s[i]) {
        if i >= k {
          assert k + |r| <= i;
        }
      }
    }
  }

  // ------------------------------------------------- String.prototype.padStart

  /** `n` copies of `c`. */
  function Repeat(c: char, n: nat): (r: string)
    ensures |r| == n
    ensures forall i :: 0 <= i < n ==> r[i] == c
  {
    if n == 0 then [] else Repeat(c, n - 1) + [c]
  }

  /**
   * `s.padStart(targetLength, fill)` with a one-character filler: `s` is never
   * cut; when it is shorter than `targetLength` the filler is put in front of
   * it until it is that long.
   */
  function PadStart(s: string, targetLength: nat, fill: char): (r: string)
    ensures |r| == Max(targetLength, |s|)
    ensures r[|r| - |s|..] == s
    ensures forall i :: 0 <= i < |r| - |s| ==> r[i] == fill
  {
    if targetLength <= |s| then s else Repeat(fill, targetLength - |s|) + s
  }

  // ------------------------------------------------ String.prototype.substring

  /**
   * `s.substring(start, end)` for non-negative indices: both are clamped to
   * the length of `s` and the smaller one is taken as the start.
   */
  function Substring(s: string, start: nat, end: nat): string {
    var a, b := Min(start, |s|), Min(end, |s|);
    if a <= b then s[a..b] else s[b..a]
  }

  // ------------------------------------------------ reading numerals back

  /** The position of the first `c` in `s`, or None when it does not occur. */
  function IndexOf(s: string, c: char): (r: Option<nat>)
    ensures r.Some? ==> r.value < |s| && s[r.value] == c
    ensures r.Some? ==> forall i :: 0 <= i < r.value ==> s[i] != c
    ensures r.None? ==> forall i :: 0 <= i < |s| ==> s[i] != c
  {
    if s == [] then None
    else if s[0] == c then Some(0)
    else match IndexOf(s[1..], c)
      case None => None
      case Some(k) => Some(k + 1)
  }

  /** In `a + [c] + b` with no `c` in `a`, the first `c` is the one after `a`. */
  lemma IndexOfAfterPrefix(a: string, c: char, b: string)
    requires forall i :: 0 <= i < |a| ==> a[i] != c
    ensures IndexOf(a + [c] + b, c) == Some(|a|)
  {
    var s := a + [c] + b;
    assert s[|a|] == c;
    match IndexOf(s, c)
    case None =>
    case Some(k) =>
      if k < |a| {
        assert s[k] == a[k];
      }
  }

  // ------------------------------------------------- Number.prototype.toString

  predicate IsDigit(c: char) {
    '0' <= c <= '9'
  }

  predicate AllDigits(s: string) {
    forall i :: 0 <= i < |s| ==> IsDigit(s[i])
  }

  function DigitValue(c: char): (d: nat)
    requires IsDigit(c)
    ensures d < 10
  {
    c as int - '0' as int
  }

  function DigitChar(d: nat): (c: char)
    requires d < 10
    ensures IsDigit(c) && DigitValue(c) == d
  {
    ('0' as int + d) as char
  }

  /**
   * `n.toString()` for a non-negative integer: its decimal digits, most
   * significant first, with no leading zero except for 0 itself.
   */
  function NumberToString(n: nat): (r: string)
    ensures |r| >= 1 && AllDigits(r)
    ensures r[0] == '0' <==> n == 0
  {
    if n < 10 then [DigitChar(n)] else NumberToString(n / 10) + [DigitChar(n % 10)]
  }

  /** The number a string of decimal digits denotes (leading zeros allowed). */
  function DecimalValue(s: string): nat
    requires AllDigits(s)
    decreases |s|
  {
    if s == [] then 0 else 10 * DecimalValue(s[..|s| - 1]) + DigitValue(s[|s| - 1])
  }

  /** Reads a non-empty string of decimal digits back as a number. */
  function ParseNat(s: string): Option<nat> {
    if s != [] && AllDigits(s) then Some(DecimalValue(s)) else None
  }

  /** `toString` followed by reading the digits back gives the number again. */
  lemma {:induction false} DecimalValueOfNumberToString(n: nat)
    ensures DecimalValue(NumberToString(n)) == n
  {
    if n >= 10 {
      var hi, d := NumberToString(n / 10), DigitChar(n % 10);
      DecimalValueOfNumberToString(n / 10);
      assert (hi + [d])[..|hi + [d]| - 1] == hi;
    }
  }

  /** Leading zeros do not change the number a digit string denotes. */
  lemma {:induction false} DecimalValueLeadingZeros(k: nat, s: string)
    requires AllDigits(s)
    ensures AllDigits(Repeat('0', k) + s)
    ensures DecimalValue(Repeat('0', k) + s) == DecimalValue(s)
    decreases |s|
  {
    var z := Repeat('0', k);
    if s == [] {
      assert z + s == z;
      ZerosDenoteZero(k);
    } else {
      var init := s[..|s| - 1];
      DecimalValueLeadingZeros(k, init);
      assert (z + s)[..|z + s| - 1] == z + init;
    }
  }

  lemma {:induction false} ZerosDenoteZero(k: nat)
    ensures AllDigits(Repeat('0', k))
    ensures DecimalValue(Repeat('0', k)) == 0
  {
    if k > 0 {
      var z, init := Repeat('0', k), Repeat('0', k - 1);
      ZerosDenoteZero(k - 1);
      assert z == init + ['0'];
      assert z[..|z| - 1] == init;
      assert DecimalValue(z) == 10 * DecimalValue(init) + DigitValue('0');
    }
  }

  /** One digit exactly for 0..9, at most two exactly for 0..99. */
  lemma {:induction false} NumberToStringLength(n: nat)
    ensures |NumberToString(n)| == 1 <==> n < 10
    ensures |NumberToString(n)| <= 2 <==> n < 100
  {
    if n >= 10 {
      NumberToStringLength(n / 10);
    }
  }
}
