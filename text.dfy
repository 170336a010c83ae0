/** The Python `str` operations that the reader and the sample generator rely on:
    `strip()`, `rstrip('\r\n')`, `isdigit()`, `upper()`, `int()`, `str()` of a
    non-negative integer, `f'{n:0Wd}'`, slicing `s[:n]` and `ljust(n)`.

    Character classes are those of Python for the Latin-1 range U+0000..U+00FF:
    whitespace includes the ASCII separators U+001C..U+001F, NEL (U+0085) and
    NO-BREAK SPACE (U+00A0); `isdigit` holds for '0'..'9' and for the three
    superscript digits U+00B2, U+00B3, U+00B9, which `int()` rejects. */
module Text {

  /** Python's `str.isspace` on one Latin-1 character. */
  predicate IsSpace(c: char) {
    c == ' ' || c == '\t' || c == '\n' || c == '\r' || c == '\U{0B}' || c == '\U{0C}'
    || ('\U{1C}' <= c <= '\U{1F}') || c == '\U{85}' || c == '\U{A0}'
  }

  /** A character `int()` accepts as a decimal digit. */
  predicate IsDecimal(c: char) {
    '0' <= c <= '9'
  }

  /** Python's `str.isdigit` on one Latin-1 character. */
  predicate IsDigit(c: char) {
    IsDecimal(c) || c == '\U{B2}' || c == '\U{B3}' || c == '\U{B9}'
  }

  /** Python's `str.isdigit`: false on the empty string. */
  predicate IsDigitString(s: string) {
    |s| > 0 && forall i :: 0 <= i < |s| ==> IsDigit(s[i])
  }

  predicate AllDecimal(s: string) {
    forall i :: 0 <= i < |s| ==> IsDecimal(s[i])
  }

  /** No character that `isdigit` accepts and `int()` rejects. */
  predicate NoBareDigits(s: string) {
    forall i :: 0 <= i < |s| ==> IsDigit(s[i]) ==> IsDecimal(s[i])
  }

  function Spaces(n: nat): (r: string)
    ensures |r| == n && forall i :: 0 <= i < n ==> r[i] == ' '
  {
    seq(n, _ => ' ')
  }

  function Zeros(n: nat): (r: string)
    ensures |r| == n && forall i :: 0 <= i < n ==> r[i] == '0'
  {
    seq(n, _ => '0')
  }

  // ---------------------------------------------------------------- strip

  /** Number of whitespace characters at the front of `s`. */
  function LeadingSpaces(s: string): (n: nat)
    ensures n <= |s|
    ensures forall k :: 0 <= k < n ==> IsSpace(s[k])
    ensures n < |s| ==> !IsSpace(s[n])
  {
    if s != [] && IsSpace(s[0]) then 1 + LeadingSpaces(s[1..]) else 0
  }

  /** Number of whitespace characters at the end of `s`. */
  function TrailingSpaces(s: string): (n: nat)
    ensures n <= |s|
    ensures forall k :: |s| - n <= k < |s| ==> IsSpace(s[k])
    ensures n < |s| ==> !IsSpace(s[|s| - n - 1])
  {
    if s != [] && IsSpace(s[|s| - 1]) then 1 + TrailingSpaces(s[..|s| - 1]) else 0
  }

  /** No whitespace at either end. */
  predicate Trimmed(s: string) {
    s == [] || (!IsSpace(s[0]) && !IsSpace(s[|s| - 1]))
  }

  /** Python's `str.strip()` with no argument. */
  function Strip(s: string): (r: string)
    ensures |r| <= |s|
    ensures Trimmed(r)
    ensures r == [] <==> forall k :: 0 <= k < |s| ==> IsSpace(s[k])
  {
    var i := LeadingSpaces(s);
    if i == |s| then [] else s[i..|s| - TrailingSpaces(s)]
  }

  /** `Strip(s)` is the one slice `s[i..j]` that has only whitespace outside it
      and no whitespace at either of its ends. */
  lemma StripIsTrimmedSlice(s: string, i: nat, j: nat)
    requires i <= j <= |s|
    requires forall k :: 0 <= k < i ==> IsSpace(s[k])
    requires forall k :: j <= k < |s| ==> IsSpace(s[k])
    requires i < j ==> !IsSpace(s[i]) && !IsSpace(s[j - 1])
    ensures Strip(s) == s[i..j]
  {
    if i < j {
      assert LeadingSpaces(s) == i;
      assert TrailingSpaces(s) == |s| - j;
    }
  }

  /** The bounds of `Strip(s)` inside `s`. */
  lemma StripBounds(s: string) returns (i: nat, j: nat)
    ensures i <= j <= |s| && Strip(s) == s[i..j]
    ensures forall k :: 0 <= k < i ==> IsSpace(s[k])
    ensures forall k :: j <= k < |s| ==> IsSpace(s[k])
    ensures i < j ==> !IsSpace(s[i]) && !IsSpace(s[j - 1])
  {
    i := LeadingSpaces(s);
    if i == |s| {
      j := i;
    } else {
      j := |s| - TrailingSpaces(s);
    }
  }

  /** Trailing spaces added by `ljust` never reach the stripped value. */
  lemma {:induction false} StripPaddedRight(s: string, n: nat)
    ensures Strip(s + Spaces(n)) == Strip(s)
  {
    var i, j := StripBounds(s);
    var t := s + Spaces(n);
    if i == j {
      assert forall k :: 0 <= k < |t| ==> IsSpace(t[k]) by {
        forall k | 0 <= k < |t| ensures IsSpace(t[k]) {
          if k < |s| { assert t[k] == s[k]; if k >= j { } else { assert k < i; } }
        }
      }
    } else {
      assert forall k :: j <= k < |t| ==> IsSpace(t[k]) by {
        forall k | j <= k < |t| ensures IsSpace(t[k]) {
          if k < |s| { assert t[k] == s[k]; }
        }
      }
      StripIsTrimmedSlice(t, i, j);
      assert t[i..j] == s[i..j];
    }
  }

  /** A value with no whitespace at its ends strips to itself. */
  lemma StripTrimmed(s: string)
    requires Trimmed(s)
    ensures Strip(s) == s
  {
    StripIsTrimmedSlice(s, 0, |s|);
  }

  lemma StripIdempotent(s: string)
    ensures Strip(Strip(s)) == Strip(s)
  {
    StripTrimmed(Strip(s));
  }

  // ---------------------------------------------------------- rstrip('\r\n')

  predicate IsTerminator(c: char) {
    c == '\r' || c == '\n'
  }

  /** Python's `s.rstrip('\r\n')`: the longest prefix not ending in CR or LF. */
  function StripTerminators(s: string): (r: string)
    ensures |r| <= |s| && r == s[..|r|]
    ensures forall k :: |r| <= k < |s| ==> IsTerminator(s[k])
    ensures r == [] || !IsTerminator(r[|r| - 1])
  {
    if s != [] && IsTerminator(s[|s| - 1]) then StripTerminators(s[..|s| - 1]) else s
  }

  // ------------------------------------------------------ upper, [:n], ljust

  function UpperChar(c: char): char {
    if 'a' <= c <= 'z' then (c as int - 32) as char else c
  }

  /** Python's `str.upper()` on ASCII letters. */
  function Upper(s: string): string {
    seq(|s|, i requires 0 <= i < |s| => UpperChar(s[i]))
  }

  /** Python's `s[:n]`. */
  function Take(s: string, n: nat): string {
    if |s| <= n then s else s[..n]
  }

  /** Python's `s.ljust(n)`: pad with spaces on the right up to `n`. */
  function LJust(s: string, n: nat): string {
    if |s| >= n then s else s + Spaces(n - |s|)
  }

  // --------------------------------------------------- decimal numerals

  function DigitValue(c: char): nat
    requires IsDecimal(c)
  {
    c as int - '0' as int
  }

  function DigitChar(d: nat): (c: char)
    requires d < 10
    ensures IsDecimal(c) && DigitValue(c) == d
  {
    ('0' as int + d) as char
  }

  /** Python's `int(s)` for a string of decimal digits. */
  function DecimalValue(s: string): nat
    requires AllDecimal(s)
  {
    if s == [] then 0 else DecimalValue(s[..|s| - 1]) * 10 + DigitValue(s[|s| - 1])
  }

  /** Python's `str(n)` for a non-negative integer. */
  function DecimalString(n: nat): (s: string)
    ensures AllDecimal(s) && |s| > 0
  {
    if n < 10 then [DigitChar(n)] else DecimalString(n / 10) + [DigitChar(n % 10)]
  }

  /** Python's `f'{n:0Wd}'` for a non-negative integer: zero-padded on the left
      to width `w`, never truncated. */
  function ZeroPad(n: nat, w: nat): (s: string)
    ensures AllDecimal(s) && |s| >= w
    ensures |s| > w ==> s == DecimalString(n)
  {
    var d := DecimalString(n);
    if |d| >= w then d else Zeros(w - |d|) + d
  }

  function Pow10(n: nat): (p: nat)
    ensures p >= 1
  {
    if n == 0 then 1 else 10 * Pow10(n - 1)
  }

  /** `int(str(n)) == n`. */
  lemma {:induction false} DecimalRoundTrip(n: nat)
    ensures DecimalValue(DecimalString(n)) == n
  {
    if n >= 10 {
      var s := DecimalString(n);
      assert s[..|s| - 1] == DecimalString(n / 10);
      DecimalRoundTrip(n / 10);
    }
  }

  /** Leading zeros do not change the value `int()` reads. */
  lemma {:induction false} LeadingZerosIgnored(k: nat, s: string)
    requires AllDecimal(s)
    ensures AllDecimal(Zeros(k) + s) && DecimalValue(Zeros(k) + s) == DecimalValue(s)
    decreases |s|
  {
    if s == [] {
      assert Zeros(k) + s == Zeros(k);
      AllZerosValue(Zeros(k));
    } else {
      var p := s[..|s| - 1];
      assert (Zeros(k) + s)[..|Zeros(k) + s| - 1] == Zeros(k) + p;
      LeadingZerosIgnored(k, p);
    }
  }

  /** A string has value 0 exactly when it is all zeros. */
  lemma {:induction false} AllZerosValue(s: string)
    requires AllDecimal(s)
    ensures DecimalValue(s) == 0 <==> s == Zeros(|s|)
  {
    if s != [] {
      var p := s[..|s| - 1];
      AllZerosValue(p);
      if s == Zeros(|s|) {
        assert p == Zeros(|p|);
      }
      if DecimalValue(s) == 0 {
        assert s == p + [s[|s| - 1]];
      }
    }
  }

  /** `int(f'{n:0Wd}') == n`. */
  lemma ZeroPadRoundTrip(n: nat, w: nat)
    ensures DecimalValue(ZeroPad(n, w)) == n
  {
    var d := DecimalString(n);
    DecimalRoundTrip(n);
    if |d| < w {
      LeadingZerosIgnored(w - |d|, d);
    }
  }

  /** A number below 10^w has at most w digits. */
  lemma {:induction false} DecimalStringWidth(n: nat, w: nat)
    requires 1 <= w && n < Pow10(w)
    ensures |DecimalString(n)| <= w
  {
    if n >= 10 {
      assert Pow10(1) == 10;
      assert n / 10 < Pow10(w - 1);
      DecimalStringWidth(n / 10, w - 1);
    }
  }

  /** A string of w decimal digits reads as a number below 10^w. */
  lemma {:induction false} DecimalValueBound(s: string)
    requires AllDecimal(s)
    ensures DecimalValue(s) < Pow10(|s|)
  {
    if s != [] {
      DecimalValueBound(s[..|s| - 1]);
    }
  }

  /** Reading a digit string and writing it back with the same width gives the
      string back: `f'{int(s):0{len(s)}d}' == s`. */
  lemma {:induction false} ZeroPadOfValue(s: string)
    requires |s| >= 1 && AllDecimal(s)
    ensures ZeroPad(DecimalValue(s), |s|) == s
  {
    var p := s[..|s| - 1];
    var c := s[|s| - 1];
    var v := DecimalValue(s);
    assert s == p + [c];
    if v < 10 {
      assert DecimalValue(p) == 0;
      AllZerosValue(p);
      assert DecimalString(v) == [c];
    } else {
      LastDigit(DecimalValue(p), DigitValue(c));
      assert DigitChar(v % 10) == c;
      assert p != [];
      DecimalValueBound(p);
      DecimalStringWidth(DecimalValue(p), |p|);
      ZeroPadOfValue(p);
      var d := DecimalString(DecimalValue(p));
      assert DecimalString(v) == d + [c];
      if |d| < |p| {
        ZerosThenDigit(|p| - |d|, d, c);
      }
    }
  }

  /** The last decimal digit of `10a + d` is `d`, the rest is `a`. */
  lemma LastDigit(a: nat, d: nat)
    requires d < 10
    ensures (a * 10 + d) / 10 == a && (a * 10 + d) % 10 == d
  {
  }

  lemma ZerosThenDigit(k: nat, d: string, c: char)
    ensures Zeros(k) + (d + [c]) == (Zeros(k) + d) + [c]
  {
  }
}
