/** The fixed-width record builder of `generate_sample_data.py`: each value
    is cut or space-padded to its column width (`str(value)[:length].ljust(length)`)
    and the segments are concatenated in table order. It is the encoder the
    reader's `parse_record` decodes. */
module SampleData {
  import opened Text
  import opened ClienteField
  import opened FieldCatalogue
  import opened ClienteReader

  /** One row of a generator table: the value and its column width. The row's
      field name is never read by the building loop and is not kept. */
  datatype Column = Column(value: string, length: nat)

  /** `str(value)[:length].ljust(length)`. */
  function FormatField(value: string, length: nat): (segment: string)
    ensures |segment| == length
  {
    LJust(Take(value, length), length)
  }

  /** Position `k` of the segment holds the value's `k`-th character, or a
      space past the end of the value. */
  lemma FormatChars(value: string, length: nat)
    ensures forall k :: 0 <= k < length ==>
      FormatField(value, length)[k] == if k < |value| then value[k] else ' '
  {
  }

  /** A value that fits its column is followed by spaces only. */
  lemma FormatFits(value: string, length: nat)
    requires |value| <= length
    ensures FormatField(value, length) == value + Spaces(length - |value|)
  {
  }

  /** A value longer than its column keeps only its first `length` characters. */
  lemma FormatTruncates(value: string, length: nat)
    requires |value| >= length
    ensures FormatField(value, length) == value[..length]
  {
  }

  /** The sum of the column widths. */
  function Width(cols: seq<Column>): nat {
    if cols == [] then 0 else Width(cols[..|cols| - 1]) + cols[|cols| - 1].length
  }

  /** The record the building loop produces from a table. */
  function FixedWidth(cols: seq<Column>): (record: string)
    ensures |record| == Width(cols)
  {
    if cols == [] then ""
    else
      var last := cols[|cols| - 1];
      FixedWidth(cols[..|cols| - 1]) + FormatField(last.value, last.length)
  }

  /** The building loop shared by `create_sample_record` and
      `create_diverse_sample_records`: `record += formatted_value` per row. */
  method BuildRecord(cols: seq<Column>) returns (record: string)
    ensures record == FixedWidth(cols)
  {
    record := "";
    for i := 0 to |cols|
      invariant record == FixedWidth(cols[..i])
    {
      var formatted := FormatField(cols[i].value, cols[i].length);
      assert cols[..i + 1][..i] == cols[..i];
      record := record + formatted;
    }
    assert cols[..|cols|] == cols;
  }

  /** Slicing inside the left operand of a concatenation. */
  lemma SliceLeft(a: string, b: string, start: nat, end: nat)
    requires start <= end <= |a|
    ensures (a + b)[start..end] == a[start..end]
  {
  }

  /** Column `k` of a built record sits right after the preceding columns and
      holds exactly its formatted value. */
  lemma {:induction false} SegmentAt(cols: seq<Column>, k: nat)
    requires k < |cols|
    ensures Width(cols[..k]) + cols[k].length <= Width(cols)
    ensures FixedWidth(cols)[Width(cols[..k])..Width(cols[..k]) + cols[k].length]
         == FormatField(cols[k].value, cols[k].length)
  {
    var init := cols[..|cols| - 1];
    if k == |cols| - 1 {
      assert init == cols[..k];
      LastSegment(cols);
    } else {
      SegmentAt(init, k);
      assert init[..k] == cols[..k] && init[k] == cols[k];
      var s := Width(cols[..k]);
      var front, seg := FixedWidth(init), FormatField(cols[|cols| - 1].value, cols[|cols| - 1].length);
      assert FixedWidth(cols) == front + seg;
      SliceLeft(front, seg, s, s + cols[k].length);
    }
  }

  /** The last row's formatted value ends the record. */
  lemma LastSegment(cols: seq<Column>)
    requires cols != []
    ensures var init := cols[..|cols| - 1]; var last := cols[|cols| - 1];
      FixedWidth(cols)[Width(init)..Width(init) + last.length] == FormatField(last.value, last.length)
  {
    var init, last := cols[..|cols| - 1], cols[|cols| - 1];
    var front, seg := FixedWidth(init), FormatField(last.value, last.length);
    assert FixedWidth(cols) == front + seg;
    assert |front| == Width(init) && |seg| == last.length;
    SliceRight(front, seg);
  }

  /** The right operand of a concatenation, sliced back out. */
  lemma SliceRight(a: string, b: string)
    ensures (a + b)[|a|..|a| + |b|] == b
  {
  }

  /** The table's widths are the catalogue's lengths, row by row. */
  predicate Fits(cols: seq<Column>, fs: seq<Field>) {
    |cols| == |fs| && forall k :: 0 <= k < |fs| ==> cols[k].length == fs[k].length
  }

  lemma {:induction false} FitsWidth(cols: seq<Column>, fs: seq<Field>)
    requires Fits(cols, fs)
    ensures Width(cols) == TotalLength(fs)
    decreases |fs|
  {
    if fs != [] {
      var n := |fs| - 1;
      assert Fits(cols[..n], fs[..n]);
      FitsWidth(cols[..n], fs[..n]);
    }
  }

  lemma FitsAppend(c1: seq<Column>, f1: seq<Field>, c2: seq<Column>, f2: seq<Field>)
    requires Fits(c1, f1) && Fits(c2, f2)
    ensures Fits(c1 + c2, f1 + f2)
  {
    forall k | 0 <= k < |f1 + f2|
      ensures (c1 + c2)[k].length == (f1 + f2)[k].length
    {
      if k >= |f1| {
        assert (c1 + c2)[k] == c2[k - |c1|];
      }
    }
  }

  /** `Slice` reads column `k` back out of a built record. */
  lemma SegmentSlice(cols: seq<Column>, k: nat)
    requires k < |cols|
    ensures Slice(FixedWidth(cols), Width(cols[..k]), Width(cols[..k]) + cols[k].length)
         == FormatField(cols[k].value, cols[k].length)
  {
    SegmentAt(cols, k);
    SliceInRange(FixedWidth(cols), Width(cols[..k]), Width(cols[..k]) + cols[k].length);
  }

  /** Under a fitting table, field `k` of a tiling starts where column `k` does. */
  lemma FieldStartsAtColumn(cols: seq<Column>, fs: seq<Field>, k: nat)
    requires Tiles(fs) && Fits(cols, fs) && k < |fs|
    ensures fs[k].startPos == Width(cols[..k])
  {
    TilingStarts(fs, 0);
    assert Fits(cols[..k], fs[..k]);
    FitsWidth(cols[..k], fs[..k]);
  }

  /** The slice of field `k` in a built record is the formatted value of row `k`. */
  lemma BuiltSliceAt(cols: seq<Column>, fs: seq<Field>, k: nat)
    requires Tiles(fs) && Fits(cols, fs) && k < |fs|
    ensures Slice(FixedWidth(cols), fs[k].startPos, fs[k].startPos + fs[k].length)
         == FormatField(cols[k].value, cols[k].length)
  {
    FieldStartsAtColumn(cols, fs, k);
    SegmentSlice(cols, k);
  }

  /** A record built from a table that fits a tiling catalogue has the record
      length, and each field's slice is the formatted value of its row. */
  lemma BuiltSlices(cols: seq<Column>, fs: seq<Field>)
    requires Tiles(fs) && Fits(cols, fs)
    ensures |FixedWidth(cols)| == TotalLength(fs)
    ensures forall k :: 0 <= k < |fs| ==>
      Slice(FixedWidth(cols), fs[k].startPos, fs[k].startPos + fs[k].length)
        == FormatField(cols[k].value, cols[k].length)
  {
    FitsWidth(cols, fs);
    forall k | 0 <= k < |fs|
      ensures Slice(FixedWidth(cols), fs[k].startPos, fs[k].startPos + fs[k].length)
        == FormatField(cols[k].value, cols[k].length)
    {
      BuiltSliceAt(cols, fs, k);
    }
  }

  /** A line already as long as the record is not padded. */
  lemma PaddedExact(line: string, recordLength: nat)
    requires |line| >= recordLength
    ensures PaddedLine(line, recordLength) == line
  {
  }

  /** Round trip: `parse_record` on a built record reads every field from its
      own row; the record decodes exactly when every row's formatted value
      parses, and then field `k` holds the parse of row `k`. */
  lemma BuiltRecordDecodes(cols: seq<Column>, fs: seq<Field>)
    requires Tiles(fs) && Fits(cols, fs)
    ensures var r := DecodeRecord(fs, TotalLength(fs), FixedWidth(cols));
      && (r.Ok? <==> forall k :: 0 <= k < |fs| ==> ParseValue(fs[k].fieldType, FormatField(cols[k].value, cols[k].length)).Ok?)
      && (r.Ok? ==> |r.value| == |fs| && forall k :: 0 <= k < |fs| ==>
            ParseValue(fs[k].fieldType, FormatField(cols[k].value, cols[k].length)) == Ok(r.value[k]))
  {
    var record := FixedWidth(cols);
    BuiltSlices(cols, fs);
    PaddedExact(record, TotalLength(fs));
    var segs := seq(|cols|, k requires 0 <= k < |cols| => FormatField(cols[k].value, cols[k].length));
    DecodeBySlices(fs, record, segs);
  }

  /** Every row the catalogue reads as an integer holds decimal digits only. */
  predicate DecimalIntegers(cols: seq<Column>, fs: seq<Field>) {
    |cols| == |fs| && forall k :: 0 <= k < |fs| && fs[k].fieldType == IntegerField ==> AllDecimal(cols[k].value)
  }

  lemma DecimalIntegersAppend(c1: seq<Column>, f1: seq<Field>, c2: seq<Column>, f2: seq<Field>)
    requires DecimalIntegers(c1, f1) && DecimalIntegers(c2, f2)
    ensures DecimalIntegers(c1 + c2, f1 + f2)
  {
    forall k | 0 <= k < |f1 + f2| && (f1 + f2)[k].fieldType == IntegerField
      ensures AllDecimal((c1 + c2)[k].value)
    {
      if k >= |f1| {
        assert (c1 + c2)[k] == c2[k - |c1|] && (f1 + f2)[k] == f2[k - |f1|];
      }
    }
  }

  /** A formatted row parses under every field type when, for an integer
      field, its value holds no digit `int()` rejects. */
  lemma FormattedParses(t: FieldType, value: string, length: nat)
    requires t == IntegerField ==> NoBareDigits(value)
    ensures ParseValue(t, FormatField(value, length)).Ok?
  {
    var segment := FormatField(value, length);
    if t == IntegerField {
      FormatChars(value, length);
      assert NoBareDigits(segment);
      ParseTotal(t, segment);
    } else {
      ParseFailsOnlyOnBareDigits(t, segment);
    }
  }

  /** A built record whose integer rows are decimal decodes in full under a
      catalogue it fits, one value per field, and field `k` holds the parse
      of row `k`'s formatted value. */
  lemma DecodedColumn(cols: seq<Column>, fs: seq<Field>, k: nat)
    requires Tiles(fs) && Fits(cols, fs) && DecimalIntegers(cols, fs) && k < |fs|
    ensures var r := DecodeRecord(fs, TotalLength(fs), FixedWidth(cols));
      && r.Ok? && |r.value| == |fs|
      && Ok(r.value[k]) == ParseValue(fs[k].fieldType, FormatField(cols[k].value, cols[k].length))
  {
    forall j | 0 <= j < |fs|
      ensures ParseValue(fs[j].fieldType, FormatField(cols[j].value, cols[j].length)).Ok?
    {
      FormattedParses(fs[j].fieldType, cols[j].value, cols[j].length);
    }
    BuiltRecordDecodes(cols, fs);
  }

  /** Text round trip: a value that fits its column and has no whitespace at
      either end reads back unchanged from its formatted segment. */
  lemma TextColumnRoundTrip(value: string, length: nat)
    requires |value| <= length
    requires Trimmed(value)
    ensures ParseValue(AlphaField, FormatField(value, length)) == Ok(Text(value))
  {
    FormatFits(value, length);
    TextRoundTrip(value, length - |value|);
  }

  /** Integer round trip: `f'{n:0Wd}'` in a column of width W reads back as
      `n` whenever `n` has at most W digits. */
  lemma ZeroPadColumnRoundTrip(n: nat, width: nat)
    requires 1 <= width && n < Pow10(width)
    ensures ParseValue(IntegerField, FormatField(ZeroPad(n, width), width)) == Ok(Int(n))
  {
    DecimalStringWidth(n, width);
    FormatFits(ZeroPad(n, width), width);
    IntegerRoundTrip(n, width, 0);
  }

  /** Field `k` of a built record decodes to `v` when row `k`'s formatted
      value parses to `v` under the field's type. */
  lemma ColumnDecodesTo(cols: seq<Column>, fs: seq<Field>, k: nat, t: FieldType, v: Value)
    requires Tiles(fs) && Fits(cols, fs) && DecimalIntegers(cols, fs) && k < |fs|
    requires fs[k].fieldType == t && ParseValue(t, FormatField(cols[k].value, cols[k].length)) == Ok(v)
    ensures var r := DecodeRecord(fs, TotalLength(fs), FixedWidth(cols));
      r.Ok? && |r.value| == |fs| && r.value[k] == v
  {
    DecodedColumn(cols, fs, k);
  }

  /** Indexing a table written as four chunks of eleven rows. */
  lemma QuarterAt(a: seq<Column>, b: seq<Column>, c: seq<Column>, d: seq<Column>, k: nat)
    requires |a| == |b| == |c| == |d| == 11 && k < 44
    ensures |a + b + c + d| == 44
    ensures (a + b + c + d)[k] ==
      if k < 11 then a[k] else if k < 22 then b[k - 11] else if k < 33 then c[k - 22] else d[k - 33]
  {
  }
}
