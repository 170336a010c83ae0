/** One field of the fixed-width Cliente record and the conversion of its raw
    slice into a typed value (`ClienteField.parse_value`). */
module ClienteField {
  import opened Text
  import opened Calendar

  /** The four `field_type` strings of the catalogue. `parse_value` tests for
      'integer', 'boolean' and 'date'; every other string, here 'alpha field',
      falls through to the text rule. */
  datatype FieldType = AlphaField | IntegerField | BooleanField | DateField

  function TypeName(t: FieldType): string {
    match t
    case AlphaField => "alpha field"
    case IntegerField => "integer"
    case BooleanField => "boolean"
    case DateField => "date"
  }

  datatype Field = Field(name: string, length: nat, fieldType: FieldType, startPos: nat)

  /** A decoded value. `NoDate` is the `None` a date field decodes to when its
      slice is not a valid `YYYYMMDD` date. */
  datatype Value = Text(text: string) | Int(n: nat) | Bool(b: bool) | Date(year: nat, month: nat, day: nat) | NoDate

  /** The `ValueError` that `int()` raises on a slice that `isdigit` accepted. */
  datatype ParseError = InvalidLiteral(text: string)

  datatype Result<T> = Ok(value: T) | Err(error: ParseError)

  /** The upper-cased tokens a boolean field reads as true. */
  const TruthTokens: seq<string> := ["TRUE", "1", "Y", "S", "SI"]

  /** The date rule on an already stripped slice: eight `isdigit` characters read
      as YYYYMMDD; a part that `int()` rejects or an impossible date is `None`. */
  function ParseDate(clean: string): (v: Value)
    ensures v.Date? || v == NoDate
    ensures v.Date? ==> |clean| == 8 && AllDecimal(clean) && IsValidDate(v.year, v.month, v.day)
  {
    if |clean| == 8 && IsDigitString(clean) then
      var y, m, d := clean[..4], clean[4..6], clean[6..8];
      if AllDecimal(y) && AllDecimal(m) && AllDecimal(d)
         && IsValidDate(DecimalValue(y), DecimalValue(m), DecimalValue(d))
      then Date(DecimalValue(y), DecimalValue(m), DecimalValue(d))
      else NoDate
    else NoDate
  }

  /** The integer rule on an already stripped slice. */
  function ParseInteger(clean: string): (r: Result<Value>)
    ensures r.Err? <==> IsDigitString(clean) && !AllDecimal(clean)
    ensures r.Err? ==> r.error == InvalidLiteral(clean)
    ensures r.Ok? ==> r.value.Int?
    ensures r.Ok? && r.value.n != 0 ==> AllDecimal(clean) && r.value.n == DecimalValue(clean)
    ensures clean != [] && AllDecimal(clean) ==> r == Ok(Int(DecimalValue(clean)))
    ensures r.Ok? && !(clean != [] && AllDecimal(clean)) ==> r == Ok(Int(0))
  {
    if clean != [] && IsDigitString(clean) then
      (if AllDecimal(clean) then Ok(Int(DecimalValue(clean))) else Err(InvalidLiteral(clean)))
    else Ok(Int(0))
  }

  /** The boolean rule on an already stripped slice, with both of its tests. */
  function ParseBoolean(clean: string): (b: bool)
    ensures Trimmed(clean) ==> (b <==> Upper(clean) in TruthTokens)
  {
    var tokenTest, oneTest := Upper(clean) in TruthTokens, Strip(clean) == "1";
    assert Trimmed(clean) && oneTest ==> tokenTest by {
      if Trimmed(clean) && oneTest {
        StripTrimmed(clean);
        assert Upper(clean) == TruthTokens[1];
      }
    }
    tokenTest || oneTest
  }

  /** `parse_value(raw_value)` for a field of type `t`. */
  function ParseValue(t: FieldType, raw: string): (r: Result<Value>)
    ensures r.Err? ==> t == IntegerField
    ensures r.Ok? ==> match t
      case AlphaField => r.value.Text?
      case IntegerField => r.value.Int?
      case BooleanField => r.value.Bool?
      case DateField => r.value.Date? || r.value == NoDate
  {
    var clean := Strip(raw);
    match t
    case IntegerField => ParseInteger(clean)
    case BooleanField => Ok(Bool(ParseBoolean(clean)))
    case DateField => Ok(ParseDate(clean))
    case AlphaField => Ok(Text(clean))
  }

  // ------------------------------------------------------------ properties

  /** Parsing fails only on an integer slice whose stripped text passes
      `isdigit` but holds a digit `int()` rejects. */
  lemma ParseFailsOnlyOnBareDigits(t: FieldType, raw: string)
    ensures ParseValue(t, raw).Err? <==>
      t == IntegerField && IsDigitString(Strip(raw)) && !AllDecimal(Strip(raw))
  {
  }

  /** A slice without such digits always parses. */
  lemma {:induction false} ParseTotal(t: FieldType, raw: string)
    requires NoBareDigits(raw)
    ensures ParseValue(t, raw).Ok?
  {
    var i, j := StripBounds(raw);
    var clean := Strip(raw);
    assert forall k :: 0 <= k < |clean| ==> clean[k] == raw[i + k];
  }

  /** The integer rule: a stripped slice of decimal digits reads as its value;
      anything else that parses reads as 0. */
  lemma IntegerRule(raw: string)
    requires ParseValue(IntegerField, raw).Ok?
    ensures var clean := Strip(raw);
      ParseValue(IntegerField, raw).value ==
        if clean != [] && AllDecimal(clean) then Int(DecimalValue(clean)) else Int(0)
  {
    var clean := Strip(raw);
    if clean != [] && AllDecimal(clean) {
      assert IsDigitString(clean);
    }
  }

  /** Reading a zero-padded numeral back gives the number: `int(f'{n:08d}') == n`
      once `ljust` padding and `strip` are applied. */
  lemma IntegerRoundTrip(n: nat, w: nat, pad: nat)
    ensures ParseValue(IntegerField, ZeroPad(n, w) + Spaces(pad)) == Ok(Int(n))
  {
    var s := ZeroPad(n, w);
    var d := DecimalString(n);
    assert |s| > 0 && IsDecimal(s[0]) && IsDecimal(s[|s| - 1]);
    StripPaddedRight(s, pad);
    StripTrimmed(s);
    assert Strip(s + Spaces(pad)) == s;
    ZeroPadRoundTrip(n, w);
    assert IsDigitString(s);
    assert ParseInteger(s) == Ok(Int(n));
  }

  /** The second test of the boolean rule (`strip() == '1'`) adds nothing: a
      boolean field is true exactly when its stripped, upper-cased slice is one
      of the truth tokens. */
  lemma BooleanRule(raw: string)
    ensures ParseValue(BooleanField, raw) == Ok(Bool(Upper(Strip(raw)) in TruthTokens))
  {
    var clean := Strip(raw);
    StripIdempotent(raw);
    if clean == "1" {
      assert Upper(clean) == "1";
    }
  }

  /** The canonical `YYYYMMDD` spelling of a date. */
  function DateText(year: nat, month: nat, day: nat): string {
    ZeroPad(year, 4) + ZeroPad(month, 2) + ZeroPad(day, 2)
  }

  /** A stripped slice that reads as a date is that date's spelling. */
  lemma DateSpelled(clean: string, year: nat, month: nat, day: nat)
    requires ParseDate(clean) == Date(year, month, day)
    ensures IsValidDate(year, month, day) && clean == DateText(year, month, day)
  {
    var y, m, d := clean[..4], clean[4..6], clean[6..8];
    ZeroPadOfValue(y);
    ZeroPadOfValue(m);
    ZeroPadOfValue(d);
    assert clean == y + m + d;
  }

  /** The spelling of a valid date reads back as that date. */
  lemma DateReadBack(clean: string, year: nat, month: nat, day: nat)
    requires IsValidDate(year, month, day) && clean == DateText(year, month, day)
    ensures ParseDate(clean) == Date(year, month, day)
  {
    DecimalStringWidth(year, 4);
    DecimalStringWidth(month, 2);
    DecimalStringWidth(day, 2);
    var y, m, d := ZeroPad(year, 4), ZeroPad(month, 2), ZeroPad(day, 2);
    assert |y| == 4 && |m| == 2 && |d| == 2;
    assert clean[..4] == y && clean[4..6] == m && clean[6..8] == d;
    ZeroPadRoundTrip(year, 4);
    ZeroPadRoundTrip(month, 2);
    ZeroPadRoundTrip(day, 2);
    assert IsDigitString(clean);
  }

  /** The date rule, both directions: a date field decodes to `date(y, m, d)`
      exactly when (y, m, d) is a valid date and the stripped slice is its
      `YYYYMMDD` spelling. */
  lemma DateRule(raw: string, year: nat, month: nat, day: nat)
    ensures ParseValue(DateField, raw) == Ok(Date(year, month, day)) <==>
      IsValidDate(year, month, day) && Strip(raw) == DateText(year, month, day)
  {
    var clean := Strip(raw);
    if ParseDate(clean) == Date(year, month, day) {
      DateSpelled(clean, year, month, day);
    }
    if IsValidDate(year, month, day) && clean == DateText(year, month, day) {
      DateReadBack(clean, year, month, day);
    }
  }

  /** A date field never decodes to an impossible date. */
  lemma DateIsValid(raw: string)
    requires ParseValue(DateField, raw).value.Date?
    ensures var v := ParseValue(DateField, raw).value; IsValidDate(v.year, v.month, v.day)
  {
  }

  /** A text field of any slice decodes to that slice with the whitespace at
      both ends removed, and never fails. */
  lemma TextRule(raw: string)
    ensures ParseValue(AlphaField, raw) == Ok(Text(Strip(raw)))
  {
  }

  /** A value with no whitespace at its ends comes back unchanged after
      right-padding. */
  lemma TextRoundTrip(value: string, pad: nat)
    requires Trimmed(value)
    ensures ParseValue(AlphaField, value + Spaces(pad)) == Ok(Text(value))
  {
    StripPaddedRight(value, pad);
    StripTrimmed(value);
  }

  // ------------------------------------------------------------- examples

  /** Whitespace on both sides of a name is dropped: `"  Rossi  "` reads as
      `"Rossi"`. */
  lemma TextExampleSurrounded()
    ensures ParseValue(AlphaField, "  Rossi  ") == Ok(Text("Rossi"))
  {
    var raw := "  Rossi  ";
    assert raw == "  " + "Rossi" + "  ";
    assert Trimmed("Rossi");
    StripIsTrimmedSlice(raw, 2, 7);
  }

  lemma IntegerExampleZeroPadded()
    ensures ParseValue(IntegerField, "00000008") == Ok(Int(8))
  {
    IntegerRoundTrip(8, 8, 0);
    assert ZeroPad(8, 8) + Spaces(0) == "00000008";
  }

  lemma IntegerExampleBlank()
    ensures ParseValue(IntegerField, "        ") == Ok(Int(0))
  {
  }

  lemma IntegerExampleSign()
    ensures ParseValue(IntegerField, "-5") == Ok(Int(0))
  {
    StripTrimmed("-5");
  }

  lemma IntegerExampleSuperscript()
    ensures ParseValue(IntegerField, "\U{B2}") == Err(InvalidLiteral("\U{B2}"))
  {
    StripTrimmed("\U{B2}");
  }

  lemma BooleanExampleOne()
    ensures ParseValue(BooleanField, " 1") == Ok(Bool(true))
  {
    StripIsTrimmedSlice(" 1", 1, 2);
  }

  lemma BooleanExampleZero()
    ensures ParseValue(BooleanField, " 0") == Ok(Bool(false))
  {
    StripIsTrimmedSlice(" 0", 1, 2);
    assert " 0"[1..2] == "0";
    assert Strip(" 0") == "0";
    BooleanRule(" 0");
    assert Upper("0") == "0";
    assert "0"[0] != "1"[0];
    assert "0" !in TruthTokens;
    assert Upper(Strip(" 0")) !in TruthTokens;
  }

  lemma BooleanExampleNo()
    ensures ParseValue(BooleanField, "NO") == Ok(Bool(false))
  {
    StripTrimmed("NO");
    BooleanRule("NO");
    assert Upper("NO") == "NO";
  }

  lemma BooleanExampleLowerCase()
    ensures ParseValue(BooleanField, "si") == Ok(Bool(true))
  {
    StripTrimmed("si");
    assert Upper("si") == "SI";
  }

  lemma DateExampleValid()
    ensures ParseValue(DateField, "20251231") == Ok(Date(2025, 12, 31))
  {
    assert DecimalString(20) == "20" && DecimalString(202) == "202" && DecimalString(2025) == "2025";
    assert DecimalString(12) == "12" && DecimalString(31) == "31";
    assert DateText(2025, 12, 31) == "20251231";
    DateValid("20251231", 2025, 12, 31);
  }

  lemma DateExampleLetters()
    ensures ParseValue(DateField, "202513XX") == Ok(NoDate)
  {
    StripTrimmed("202513XX");
    assert !IsDigit("202513XX"[6]);
  }

  lemma DateExampleFebruaryThirtieth()
    ensures ParseValue(DateField, "20250230") == Ok(NoDate)
  {
    assert DecimalString(20) == "20" && DecimalString(202) == "202" && DecimalString(2025) == "2025";
    assert DecimalString(2) == "2" && DecimalString(30) == "30";
    DateNotValid("20250230", 2025, 2, 30);
  }

  lemma DateExampleNotLeap()
    ensures ParseValue(DateField, "20230229") == Ok(NoDate)
  {
    assert DecimalString(20) == "20" && DecimalString(202) == "202" && DecimalString(2023) == "2023";
    assert DecimalString(2) == "2" && DecimalString(29) == "29";
    DateNotValid("20230229", 2023, 2, 29);
  }

  lemma DateExampleLeapDay()
    ensures ParseValue(DateField, "20240229") == Ok(Date(2024, 2, 29))
  {
    assert DecimalString(20) == "20" && DecimalString(202) == "202" && DecimalString(2024) == "2024";
    assert DecimalString(2) == "2" && DecimalString(29) == "29";
    assert DateText(2024, 2, 29) == "20240229";
    DateValid("20240229", 2024, 2, 29);
  }

  /** Helper for the examples: a trimmed spelling of a valid date. */
  lemma DateValid(s: string, y: nat, m: nat, d: nat)
    requires |s| == 8 && s == DateText(y, m, d) && IsValidDate(y, m, d)
    ensures ParseValue(DateField, s) == Ok(Date(y, m, d))
  {
    StripTrimmed(s);
    DateRule(s, y, m, d);
  }

  /** Helper for the examples: a trimmed eight-digit spelling of an impossible
      date decodes to `None`. */
  lemma DateNotValid(s: string, y: nat, m: nat, d: nat)
    requires |s| == 8 && AllDecimal(s)
    requires s == DateText(y, m, d) && !IsValidDate(y, m, d)
    ensures ParseValue(DateField, s) == Ok(NoDate)
  {
    StripTrimmed(s);
    assert IsDigitString(s);
    DateParts(s, y, m, d);
    assert ParseDate(s) == NoDate;
  }

  /** The three parts of an eight-character date spelling read as its year,
      month and day. */
  lemma DateParts(s: string, y: nat, m: nat, d: nat)
    requires |s| == 8 && s == DateText(y, m, d)
    ensures AllDecimal(s[..4]) && AllDecimal(s[4..6]) && AllDecimal(s[6..8])
    ensures DecimalValue(s[..4]) == y && DecimalValue(s[4..6]) == m && DecimalValue(s[6..8]) == d
  {
    assert s[..4] == ZeroPad(y, 4) && s[4..6] == ZeroPad(m, 2) && s[6..8] == ZeroPad(d, 2);
    ZeroPadRoundTrip(y, 4);
    ZeroPadRoundTrip(m, 2);
    ZeroPadRoundTrip(d, 2);
  }
}
