/** The record decoder of `cliente_reader.py`: slicing one line into typed
    values (`parse_record`), the line loop of `read_file`, length validation
    (`validate_record_length`) and the layout metadata (`get_field_info`). */
module ClienteReader {
  import opened Text
  import opened ClienteField
  import opened FieldCatalogue

  /** A decoded record: one value per catalogue field, in catalogue order. */
  type Record = seq<Value>

  /** Python's `s[start:end]` for non-negative bounds: clamped to the string. */
  function Slice(s: string, start: nat, end: nat): (r: string)
    ensures |r| == if start < end && start < |s| then (if end <= |s| then end else |s|) - start else 0
    decreases end - start
  {
    if |s| <= start || end <= start then [] else [s[start]] + Slice(s, start + 1, end)
  }

  /** The slice holds the characters of `s` from `start` up to `end` or the end
      of `s`, whichever comes first. */
  lemma {:induction false} SliceChars(s: string, start: nat, end: nat)
    ensures var stop := if end <= |s| then end else |s|;
      && |Slice(s, start, end)| == (if start < stop then stop - start else 0)
      && forall k :: 0 <= k < |Slice(s, start, end)| ==> Slice(s, start, end)[k] == s[start + k]
    decreases end - start
  {
    if start < |s| && start < end {
      SliceChars(s, start + 1, end);
    }
  }

  /** Within the string, the slice is the subsequence `s[start..end]`. */
  lemma SliceInRange(s: string, start: nat, end: nat)
    requires start <= end <= |s|
    ensures Slice(s, start, end) == s[start..end]
  {
    SliceChars(s, start, end);
  }

  /** The value of field `f` in `line`. */
  function DecodeField(f: Field, line: string): Result<Value> {
    ParseValue(f.fieldType, Slice(line, f.startPos, f.startPos + f.length))
  }

  /** The value of each field in `line`, as a function of the field. */
  function LineDecoder(line: string): Field -> Result<Value> {
    f => DecodeField(f, line)
  }

  /** The loop of `parse_record`: every field decoded in order by `decode`; the
      first field whose conversion raises makes the whole record fail with
      that error. */
  function DecodeFields(decode: Field -> Result<Value>, fs: seq<Field>): (r: Result<Record>)
    ensures r.Ok? ==> |r.value| == |fs|
  {
    if fs == [] then Ok([])
    else
      match DecodeFields(decode, fs[..|fs| - 1])
      case Err(e) => Err(e)
      case Ok(values) =>
        match decode(fs[|fs| - 1])
        case Err(e) => Err(e)
        case Ok(v) => Ok(values + [v])
  }

  /** A record decodes exactly when every field does, into one value per field. */
  lemma {:induction false} DecodeFieldsOk(decode: Field -> Result<Value>, fs: seq<Field>)
    ensures DecodeFields(decode, fs).Ok? <==> forall k :: 0 <= k < |fs| ==> decode(fs[k]).Ok?
    ensures DecodeFields(decode, fs).Ok? ==>
      && |DecodeFields(decode, fs).value| == |fs|
      && forall k :: 0 <= k < |fs| ==> decode(fs[k]) == Ok(DecodeFields(decode, fs).value[k])
  {
    if fs != [] {
      var init := fs[..|fs| - 1];
      DecodeFieldsOk(decode, init);
      assert forall k :: 0 <= k < |init| ==> init[k] == fs[k];
    }
  }

  /** A record that fails, fails with the error of its first failing field. */
  lemma {:induction false} DecodeFieldsFirstError(decode: Field -> Result<Value>, fs: seq<Field>, k: nat)
    requires k < |fs| && decode(fs[k]).Err?
    requires forall j :: 0 <= j < k ==> decode(fs[j]).Ok?
    ensures DecodeFields(decode, fs) == Err(decode(fs[k]).error)
  {
    var init := fs[..|fs| - 1];
    if k < |init| {
      assert init[k] == fs[k];
      DecodeFieldsFirstError(decode, init, k);
    } else {
      DecodeFieldsOk(decode, init);
      assert forall j :: 0 <= j < |init| ==> init[j] == fs[j];
    }
  }

  /** Once a prefix of the fields fails, the record fails the same way. */
  lemma {:induction false} DecodePrefixError(decode: Field -> Result<Value>, fs: seq<Field>, n: nat)
    requires n <= |fs| && DecodeFields(decode, fs[..n]).Err?
    ensures DecodeFields(decode, fs) == DecodeFields(decode, fs[..n])
  {
    if n < |fs| {
      var init := fs[..|fs| - 1];
      assert init[..n] == fs[..n];
      DecodePrefixError(decode, init, n);
    } else {
      assert fs[..n] == fs;
    }
  }

  /** One more field: the loop of `parse_record` after `k + 1` fields. */
  lemma DecodeFieldsSnoc(decode: Field -> Result<Value>, fs: seq<Field>, k: nat)
    requires k < |fs|
    ensures DecodeFields(decode, fs[..k + 1]) ==
      match DecodeFields(decode, fs[..k])
      case Err(e) => Err(e)
      case Ok(values) => (match decode(fs[k]) case Err(e) => Err(e) case Ok(v) => Ok(values + [v]))
  {
    assert fs[..k + 1][..k] == fs[..k];
  }

  /** Decoding depends on the field results only. */
  lemma {:induction false} DecodeFieldsPointwise(d1: Field -> Result<Value>, d2: Field -> Result<Value>, fs: seq<Field>)
    requires forall k :: 0 <= k < |fs| ==> d1(fs[k]) == d2(fs[k])
    ensures DecodeFields(d1, fs) == DecodeFields(d2, fs)
  {
    if fs != [] {
      var init := fs[..|fs| - 1];
      assert forall k :: 0 <= k < |init| ==> init[k] == fs[k];
      DecodeFieldsPointwise(d1, d2, init);
    }
  }

  /** The `for field in self.fields` loop of `parse_record`: decode each field
      in turn, collecting the values; the first conversion that raises ends
      the loop with its error. */
  method DecodeInOrder(decode: Field -> Result<Value>, fs: seq<Field>) returns (r: Result<Record>)
    ensures r == DecodeFields(decode, fs)
  {
    var values: Record := [];
    var k := 0;
    while k < |fs|
      invariant 0 <= k <= |fs|
      invariant DecodeFields(decode, fs[..k]) == Ok(values)
    {
      var parsed := decode(fs[k]);
      DecodeFieldsSnoc(decode, fs, k);
      if parsed.Err? {
        DecodePrefixError(decode, fs, k + 1);
        r := Err(parsed.error);
        return;
      }
      values := values + [parsed.value];
      k := k + 1;
    }
    assert fs[..k] == fs;
    r := Ok(values);
  }

  /** The line `parse_record` slices: right-padded with spaces to the record
      length when shorter, otherwise unchanged. */
  function PaddedLine(line: string, recordLength: nat): (r: string)
    ensures |r| == if |line| < recordLength then recordLength else |line|
    ensures r[..|line|] == line
    ensures forall k :: |line| <= k < |r| ==> r[k] == ' '
  {
    if |line| < recordLength then LJust(line, recordLength) else line
  }

  /** `parse_record(line)` for the catalogue `fs` and record length `recordLength`. */
  function DecodeRecord(fs: seq<Field>, recordLength: nat, line: string): (r: Result<Record>)
    ensures r.Ok? ==> |r.value| == |fs|
  {
    DecodeFields(LineDecoder(PaddedLine(line, recordLength)), fs)
  }

  /** The first `recordLength` characters a decoder can see: the line cut or
      space-padded to exactly that length. */
  function Window(line: string, recordLength: nat): (w: string)
    ensures |w| == recordLength
  {
    PaddedLine(line, recordLength)[..recordLength]
  }

  // -------------------------------------------------------- record decoding

  /** Two lines agreeing on their first `n` characters agree on every slice
      that ends by `n`. */
  lemma SlicesAgree(a: string, b: string, n: nat, start: nat, end: nat)
    requires n <= |a| && n <= |b| && a[..n] == b[..n] && end <= n
    ensures Slice(a, start, end) == Slice(b, start, end)
  {
    if start < end {
      SliceInRange(a, start, end);
      SliceInRange(b, start, end);
      assert a[start..end] == a[..n][start..end];
      assert b[start..end] == b[..n][start..end];
    }
  }

  /** A field whose slices of two lines agree decodes alike in both. */
  lemma SameSliceSameValue(f: Field, a: string, b: string)
    requires Slice(a, f.startPos, f.startPos + f.length) == Slice(b, f.startPos, f.startPos + f.length)
    ensures LineDecoder(a)(f) == LineDecoder(b)(f)
  {
  }

  /** Decoding a line depends on nothing but its window: characters past the
      record length never matter, and a short line reads as if padded. */
  lemma DecodeDependsOnWindow(fs: seq<Field>, recordLength: nat, a: string, b: string)
    requires Tiles(fs) && recordLength == TotalLength(fs)
    requires Window(a, recordLength) == Window(b, recordLength)
    ensures DecodeRecord(fs, recordLength, a) == DecodeRecord(fs, recordLength, b)
  {
    var pa, pb := PaddedLine(a, recordLength), PaddedLine(b, recordLength);
    TilingBounds(fs);
    forall k | 0 <= k < |fs|
      ensures LineDecoder(pa)(fs[k]) == LineDecoder(pb)(fs[k])
    {
      SlicesAgree(pa, pb, recordLength, fs[k].startPos, fs[k].startPos + fs[k].length);
      SameSliceSameValue(fs[k], pa, pb);
    }
    DecodeFieldsPointwise(LineDecoder(pa), LineDecoder(pb), fs);
  }

  /** `parse_record` on a line gives the same record as on that line followed by
      any number of spaces; in particular a short line decodes exactly like the
      line `ljust`-padded to the record length. */
  lemma PaddingIrrelevant(fs: seq<Field>, recordLength: nat, line: string, n: nat)
    requires Tiles(fs) && recordLength == TotalLength(fs)
    ensures DecodeRecord(fs, recordLength, line + Spaces(n)) == DecodeRecord(fs, recordLength, line)
  {
    var t := line + Spaces(n);
    var wl, wt := Window(line, recordLength), Window(t, recordLength);
    forall k | 0 <= k < recordLength
      ensures wl[k] == wt[k]
    {
      if k < |line| {
        assert PaddedLine(t, recordLength)[..|t|] == t;
        assert PaddedLine(t, recordLength)[k] == t[k];
      } else if k < |t| {
        assert PaddedLine(t, recordLength)[..|t|] == t;
        assert PaddedLine(t, recordLength)[k] == t[k];
      }
    }
    assert wl == wt;
    DecodeDependsOnWindow(fs, recordLength, line, t);
  }

  /** Characters after the record length never affect `parse_record`. */
  lemma TailIrrelevant(fs: seq<Field>, recordLength: nat, line: string, tail: string)
    requires Tiles(fs) && recordLength == TotalLength(fs)
    requires |line| >= recordLength
    ensures DecodeRecord(fs, recordLength, line + tail) == DecodeRecord(fs, recordLength, line)
  {
    assert (line + tail)[..recordLength] == line[..recordLength];
    DecodeDependsOnWindow(fs, recordLength, line, line + tail);
  }

  /** Slicing keeps a line free of digits `int()` rejects. */
  lemma SliceNoBareDigits(s: string, start: nat, end: nat)
    requires NoBareDigits(s)
    ensures NoBareDigits(Slice(s, start, end))
  {
    SliceChars(s, start, end);
  }

  /** A line without digits that `int()` rejects always decodes, whatever its
      length, into exactly one value per field. */
  lemma DecodeTotal(fs: seq<Field>, recordLength: nat, line: string)
    requires NoBareDigits(line)
    ensures DecodeRecord(fs, recordLength, line).Ok?
    ensures |DecodeRecord(fs, recordLength, line).value| == |fs|
  {
    var p := PaddedLine(line, recordLength);
    assert NoBareDigits(p) by {
      forall k | 0 <= k < |p| && IsDigit(p[k]) ensures IsDecimal(p[k]) {
        if k < |line| { assert p[..|line|][k] == line[k]; }
      }
    }
    forall k | 0 <= k < |fs| ensures LineDecoder(p)(fs[k]).Ok? {
      FieldTotal(fs[k], p);
    }
    DecodeFieldsOk(LineDecoder(p), fs);
  }

  /** A field of a line without digits `int()` rejects always decodes. */
  lemma FieldTotal(f: Field, line: string)
    requires NoBareDigits(line)
    ensures LineDecoder(line)(f).Ok?
  {
    var seg := Slice(line, f.startPos, f.startPos + f.length);
    SliceNoBareDigits(line, f.startPos, f.startPos + f.length);
    ParseTotal(f.fieldType, seg);
    DecodeFieldOfSlice(f, line, seg);
  }

  /** Given the text `segs[k]` of each field's slice of `line`, the line
      decodes exactly when every slice parses under its field's type, and
      then value `k` is the parse of slice `k`. */
  lemma DecodeBySlices(fs: seq<Field>, line: string, segs: seq<string>)
    requires |segs| == |fs|
    requires forall k :: 0 <= k < |fs| ==> Slice(line, fs[k].startPos, fs[k].startPos + fs[k].length) == segs[k]
    ensures var r := DecodeFields(LineDecoder(line), fs);
      && (r.Ok? <==> forall k :: 0 <= k < |fs| ==> ParseValue(fs[k].fieldType, segs[k]).Ok?)
      && (r.Ok? ==> |r.value| == |fs| && forall k :: 0 <= k < |fs| ==> ParseValue(fs[k].fieldType, segs[k]) == Ok(r.value[k]))
  {
    var results := seq(|fs|, k requires 0 <= k < |fs| => ParseValue(fs[k].fieldType, segs[k]));
    forall k | 0 <= k < |fs|
      ensures LineDecoder(line)(fs[k]) == results[k]
    {
      DecodeFieldOfSlice(fs[k], line, segs[k]);
    }
    DecodeByResults(LineDecoder(line), fs, results);
  }

  /** A field whose slice of `line` is `seg` decodes as `seg` parses. */
  lemma DecodeFieldOfSlice(f: Field, line: string, seg: string)
    requires Slice(line, f.startPos, f.startPos + f.length) == seg
    ensures LineDecoder(line)(f) == ParseValue(f.fieldType, seg)
  {
  }

  /** `DecodeFieldsOk` for a decoder known field by field. */
  lemma DecodeByResults(decode: Field -> Result<Value>, fs: seq<Field>, results: seq<Result<Value>>)
    requires |results| == |fs|
    requires forall k :: 0 <= k < |fs| ==> decode(fs[k]) == results[k]
    ensures var r := DecodeFields(decode, fs);
      && (r.Ok? <==> forall k :: 0 <= k < |fs| ==> results[k].Ok?)
      && (r.Ok? ==> |r.value| == |fs| && forall k :: 0 <= k < |fs| ==> results[k] == Ok(r.value[k]))
  {
    DecodeFieldsOk(decode, fs);
  }

  // ------------------------------------------------------------ file reading

  /** The error `read_file` prints for a line it could not decode: the line
      number (counted from 1, blank lines included), the error and the line. */
  datatype ErrorNote = ErrorNote(lineNum: nat, error: ParseError, line: string)

  /** What one `read_file` call yields: the records, and the notes it printed. */
  datatype Batch = Batch(records: seq<Record>, errors: seq<ErrorNote>)

  /** A line `read_file` skips: nothing but whitespace. */
  predicate IsBlank(line: string) {
    forall k :: 0 <= k < |line| ==> IsSpace(line[k])
  }

  /** `IsBlank` is the test `read_file` makes, `not line.rstrip('\r\n').strip()`:
      the terminators are whitespace themselves. */
  lemma BlankTest(line: string)
    ensures Strip(StripTerminators(line)) == [] <==> IsBlank(line)
  {
    var c := StripTerminators(line);
    assert forall k :: 0 <= k < |c| ==> c[k] == line[k];
  }

  /** `self.parse_record` of a reader with catalogue `fs` and record length
      `recordLength`, as a function of the line. */
  function RecordParser(fs: seq<Field>, recordLength: nat): string -> Result<Record> {
    line => DecodeRecord(fs, recordLength, line)
  }

  /** One turn of the loop of `read_file`, whose `self.parse_record` is
      `parse`: a blank line changes nothing, a decoded line adds its record,
      and a line whose decoding raises adds an error note carrying its number.
      The turn only appends, one item per non-blank line. */
  function Step(parse: string -> Result<Record>, b: Batch, line: string, lineNum: nat): (r: Batch)
    ensures b.records <= r.records && b.errors <= r.errors
    ensures |r.records| + |r.errors| == |b.records| + |b.errors| + if IsBlank(line) then 0 else 1
  {
    if IsBlank(line) then b
    else
      match parse(StripTerminators(line))
      case Ok(record) => Batch(b.records + [record], b.errors)
      case Err(e) => Batch(b.records, b.errors + [ErrorNote(lineNum, e, line)])
  }

  /** The loop of `read_file` over `lines`, the first of which has number
      `first`. */
  function ReadLines(parse: string -> Result<Record>, lines: seq<string>, first: nat): Batch {
    if lines == [] then Batch([], [])
    else
      Step(parse, ReadLines(parse, lines[..|lines| - 1], first),
           lines[|lines| - 1], first + |lines| - 1)
  }

  /** Two batches one after the other. */
  function Join(x: Batch, y: Batch): Batch {
    Batch(x.records + y.records, x.errors + y.errors)
  }

  /** The non-blank lines, in input order. */
  function NonBlankLines(lines: seq<string>): (r: seq<string>)
    ensures |r| <= |lines|
  {
    if lines == [] then []
    else
      var init := NonBlankLines(lines[..|lines| - 1]);
      var line := lines[|lines| - 1];
      if IsBlank(line) then init else init + [line]
  }

  /** A turn of the loop only appends to what came before. */
  lemma StepJoin(parse: string -> Result<Record>, x: Batch, y: Batch, line: string, lineNum: nat)
    ensures Step(parse, Join(x, y), line, lineNum) == Join(x, Step(parse, y, line, lineNum))
  {
    assert forall r :: x.records + y.records + [r] == x.records + (y.records + [r]);
    assert forall e :: x.errors + y.errors + [e] == x.errors + (y.errors + [e]);
  }

  /** A failing line does not stop the loop: reading `a + b` yields the batch of
      `a` followed by the batch of `b`, whose lines keep their own numbers. */
  lemma {:induction false} ReadLinesAppend(parse: string -> Result<Record>, a: seq<string>, b: seq<string>, first: nat)
    ensures ReadLines(parse, a + b, first)
         == Join(ReadLines(parse, a, first), ReadLines(parse, b, first + |a|))
    decreases |b|
  {
    if b == [] {
      assert a + b == a;
    } else {
      var b' := b[..|b| - 1];
      assert (a + b)[..|a + b| - 1] == a + b';
      ReadLinesAppend(parse, a, b', first);
      StepJoin(parse, ReadLines(parse, a, first), ReadLines(parse, b', first + |a|),
               b[|b| - 1], first + |a| + |b| - 1);
    }
  }

  /** Every non-blank line gives exactly one record or one error note; blank
      lines give neither. */
  lemma {:induction false} ReadLinesCount(parse: string -> Result<Record>, lines: seq<string>, first: nat)
    ensures var b := ReadLines(parse, lines, first);
      |b.records| + |b.errors| == |NonBlankLines(lines)|
  {
    if lines != [] {
      ReadLinesCount(parse, lines[..|lines| - 1], first);
    }
  }

  /** The kept lines are exactly the non-blank ones. */
  lemma {:induction false} NonBlankLinesMembers(lines: seq<string>)
    ensures forall l :: l in NonBlankLines(lines) <==> l in lines && !IsBlank(l)
  {
    if lines != [] {
      var init := lines[..|lines| - 1];
      NonBlankLinesMembers(init);
      assert lines == init + [lines[|lines| - 1]];
    }
  }

  /** Keeping the non-blank lines preserves their order: the non-blank lines
      of `a + b` are those of `a` followed by those of `b`. */
  lemma {:induction false} NonBlankLinesAppend(a: seq<string>, b: seq<string>)
    ensures NonBlankLines(a + b) == NonBlankLines(a) + NonBlankLines(b)
    decreases |b|
  {
    if b == [] {
      assert a + b == a;
    } else {
      var b' := b[..|b| - 1];
      assert (a + b)[..|a + b| - 1] == a + b';
      NonBlankLinesAppend(a, b');
    }
  }

  /** The records of the lines of `lines` that `parse` decodes, each stripped
      of its terminators first, in input order. */
  function OkValues(parse: string -> Result<Record>, lines: seq<string>): seq<Record> {
    if lines == [] then []
    else
      var init := OkValues(parse, lines[..|lines| - 1]);
      match parse(StripTerminators(lines[|lines| - 1]))
      case Ok(record) => init + [record]
      case Err(_) => init
  }

  /** The records are those of the non-blank lines that decode, in input
      order, whatever fails around them. */
  lemma {:induction false} ReadLinesRecords(parse: string -> Result<Record>, lines: seq<string>, first: nat)
    ensures ReadLines(parse, lines, first).records == OkValues(parse, NonBlankLines(lines))
  {
    if lines != [] {
      var init := lines[..|lines| - 1];
      var line := lines[|lines| - 1];
      ReadLinesRecords(parse, init, first);
      if !IsBlank(line) {
        var nb := NonBlankLines(init) + [line];
        assert nb[..|nb| - 1] == NonBlankLines(init);
      }
    }
  }

  /** A turn of the loop adds an error note only for a non-blank line whose
      decoding failed, with that line's number and error. */
  lemma StepErrors(parse: string -> Result<Record>, b: Batch, line: string, lineNum: nat)
    ensures var r := parse(StripTerminators(line));
      var errors := Step(parse, b, line, lineNum).errors;
      || errors == b.errors
      || (!IsBlank(line) && r.Err? && errors == b.errors + [ErrorNote(lineNum, r.error, line)])
  {
  }

  /** The error notes are exactly the failing lines: each note names a
      non-blank input line, by its number, whose decoding failed with the
      noted error, and every non-blank line whose decoding fails has its
      note. */
  lemma {:induction false} ReadLinesErrors(parse: string -> Result<Record>, lines: seq<string>, first: nat)
    ensures forall e :: e in ReadLines(parse, lines, first).errors ==>
      && first <= e.lineNum < first + |lines|
      && lines[e.lineNum - first] == e.line
      && !IsBlank(e.line)
      && parse(StripTerminators(e.line)) == Err(e.error)
    ensures forall i :: 0 <= i < |lines| && !IsBlank(lines[i]) ==>
      var r := parse(StripTerminators(lines[i]));
      r.Err? ==> ErrorNote(first + i, r.error, lines[i]) in ReadLines(parse, lines, first).errors
  {
    NotesAreFailures(parse, lines, first);
    FailuresAreNoted(parse, lines, first);
  }

  /** Each error note names a non-blank input line whose decoding failed. */
  lemma {:induction false} NotesAreFailures(parse: string -> Result<Record>, lines: seq<string>, first: nat)
    ensures forall e :: e in ReadLines(parse, lines, first).errors ==>
      && first <= e.lineNum < first + |lines|
      && lines[e.lineNum - first] == e.line
      && !IsBlank(e.line)
      && parse(StripTerminators(e.line)) == Err(e.error)
  {
    if lines != [] {
      var init := lines[..|lines| - 1];
      var b := ReadLines(parse, init, first);
      NotesAreFailures(parse, init, first);
      StepErrors(parse, b, lines[|lines| - 1], first + |lines| - 1);
      forall e | e in b.errors
        ensures lines[e.lineNum - first] == e.line
      {
        assert init[e.lineNum - first] == lines[e.lineNum - first];
      }
    }
  }

  /** A non-blank line whose decoding fails gets its error note. */
  lemma StepNotes(parse: string -> Result<Record>, b: Batch, line: string, lineNum: nat, e: ParseError)
    requires !IsBlank(line) && parse(StripTerminators(line)) == Err(e)
    ensures Step(parse, b, line, lineNum).errors == b.errors + [ErrorNote(lineNum, e, line)]
  {
  }

  /** Every non-blank line whose decoding fails has its error note, carrying
      its number and error. */
  lemma {:induction false} FailuresAreNoted(parse: string -> Result<Record>, lines: seq<string>, first: nat)
    ensures forall i :: 0 <= i < |lines| && !IsBlank(lines[i]) ==>
      var r := parse(StripTerminators(lines[i]));
      r.Err? ==> ErrorNote(first + i, r.error, lines[i]) in ReadLines(parse, lines, first).errors
  {
    if lines != [] {
      var init := lines[..|lines| - 1];
      var last := |lines| - 1;
      var b := ReadLines(parse, init, first);
      var errors := ReadLines(parse, lines, first).errors;
      FailuresAreNoted(parse, init, first);
      assert b.errors <= errors;
      assert errors == b.errors + errors[|b.errors|..];
      forall i | 0 <= i < |lines| && !IsBlank(lines[i]) && parse(StripTerminators(lines[i])).Err?
        ensures ErrorNote(first + i, parse(StripTerminators(lines[i])).error, lines[i]) in errors
      {
        if i < last {
          assert init[i] == lines[i];
          var note := ErrorNote(first + i, parse(StripTerminators(init[i])).error, init[i]);
          assert note in b.errors;
        } else {
          StepNotes(parse, b, lines[i], first + i, parse(StripTerminators(lines[i])).error);
        }
      }
    }
  }

  /** When no line holds a digit `int()` rejects, there are no error notes and
      the records are the decoded non-blank lines, one each, in input order. */
  lemma {:induction false} ReadLinesClean(fs: seq<Field>, recordLength: nat, lines: seq<string>, first: nat)
    requires forall i :: 0 <= i < |lines| ==> NoBareDigits(lines[i])
    ensures var b := ReadLines(RecordParser(fs, recordLength), lines, first);
      var nb := NonBlankLines(lines);
      && b.errors == []
      && |b.records| == |nb|
      && forall j :: 0 <= j < |nb| ==> DecodeRecord(fs, recordLength, StripTerminators(nb[j])) == Ok(b.records[j])
  {
    if lines != [] {
      var init := lines[..|lines| - 1];
      var line := lines[|lines| - 1];
      ReadLinesClean(fs, recordLength, init, first);
      if !IsBlank(line) {
        var clean := StripTerminators(line);
        assert NoBareDigits(clean) by {
          assert forall k :: 0 <= k < |clean| ==> clean[k] == line[k];
        }
        DecodeTotal(fs, recordLength, clean);
      }
    }
  }

  /** Of five lines whose third is blank, the other four are kept. */
  lemma ThirdLineSkipped(l1: string, l2: string, l3: string, l4: string, l5: string)
    requires IsBlank(l3) && !IsBlank(l1) && !IsBlank(l2) && !IsBlank(l4) && !IsBlank(l5)
    ensures NonBlankLines([l1, l2, l3, l4, l5]) == [l1, l2, l4, l5]
  {
    var lines := [l1, l2, l3, l4, l5];
    assert lines[..4][..3][..2][..1][..0] == [];
    assert NonBlankLines(lines[..1]) == [l1];
    assert NonBlankLines(lines[..2]) == [l1, l2];
    assert lines[..3][..2] == lines[..2] && lines[..4][..3] == lines[..3];
    assert lines[..2][..1] == lines[..1] && lines[..5][..4] == lines[..4];
    assert NonBlankLines(lines[..3]) == [l1, l2];
    assert NonBlankLines(lines[..4]) == [l1, l2, l4];
  }

  /** A five-line input whose third line is blank gives four records: those of
      lines 1, 2, 4 and 5, in that order. */
  lemma ThirdLineBlank(fs: seq<Field>, recordLength: nat, l1: string, l2: string, l3: string, l4: string, l5: string)
    requires IsBlank(l3) && !IsBlank(l1) && !IsBlank(l2) && !IsBlank(l4) && !IsBlank(l5)
    requires NoBareDigits(l1) && NoBareDigits(l2) && NoBareDigits(l4) && NoBareDigits(l5)
    ensures var b := ReadLines(RecordParser(fs, recordLength), [l1, l2, l3, l4, l5], 1);
      && b.errors == []
      && |b.records| == 4
      && DecodeRecord(fs, recordLength, StripTerminators(l1)) == Ok(b.records[0])
      && DecodeRecord(fs, recordLength, StripTerminators(l2)) == Ok(b.records[1])
      && DecodeRecord(fs, recordLength, StripTerminators(l4)) == Ok(b.records[2])
      && DecodeRecord(fs, recordLength, StripTerminators(l5)) == Ok(b.records[3])
  {
    var lines := [l1, l2, l3, l4, l5];
    ReadLinesClean(fs, recordLength, lines, 1);
    ThirdLineSkipped(l1, l2, l3, l4, l5);
    var nb := NonBlankLines(lines);
    assert nb[0] == l1 && nb[1] == l2 && nb[2] == l4 && nb[3] == l5;
  }

  // ----------------------------------------------------------------- layout

  /** One entry of `get_field_info()`. */
  datatype FieldInfo = FieldInfo(name: string, length: nat, typeName: string, startPosition: int, endPosition: int)

  /** The entry for one field: its name, length and type string, and the
      first and last positions it occupies, which span exactly its length. */
  function Info(f: Field): (info: FieldInfo)
    ensures info.name == f.name && info.typeName == TypeName(f.fieldType)
    ensures info.startPosition == f.startPos && info.endPosition - info.startPosition + 1 == f.length == info.length
  {
    FieldInfo(f.name, f.length, TypeName(f.fieldType), f.startPos, f.startPos + f.length - 1)
  }

  /** The reader: its catalogue and record length are fixed by the constructor. */
  class ClienteRecordReader {
    const fields: seq<Field>
    const recordLength: nat

    /** The catalogue tiles a record of `recordLength` characters. */
    predicate Valid() {
      Tiles(fields) && recordLength == TotalLength(fields)
    }

    /** `__init__`: the 44-field catalogue and the sum of its lengths. */
    constructor ()
      ensures fields == DefineFields() && |fields| == 44
      ensures recordLength == 1698 && Valid()
    {
      fields := DefineFields();
      recordLength := TotalLength(DefineFields());
    }

    /** `parse_record(line)`: pad a short line, then slice and decode each
        field in catalogue order. */
    method ParseRecord(line: string) returns (r: Result<Record>)
      ensures r == DecodeRecord(fields, recordLength, line)
    {
      var padded := line;
      if |padded| < recordLength {
        padded := LJust(padded, recordLength);
      }
      assert padded == PaddedLine(line, recordLength);
      r := DecodeInOrder(LineDecoder(padded), fields);
    }

    /** The line loop of `read_file`: strip the terminators, skip blank lines,
        decode every other line, and note a line whose decoding raises before
        going on with the next one. */
    method ReadFile(lines: seq<string>) returns (records: seq<Record>, errors: seq<ErrorNote>)
      ensures Batch(records, errors) == ReadLines(RecordParser(fields, recordLength), lines, 1)
    {
      records, errors := [], [];
      for i := 0 to |lines|
        invariant Batch(records, errors) == ReadLines(RecordParser(fields, recordLength), lines[..i], 1)
      {
        assert lines[..i + 1][..i] == lines[..i];
        var clean := StripTerminators(lines[i]);
        BlankTest(lines[i]);
        if Strip(clean) != [] {
          var r := ParseRecord(clean);
          assert RecordParser(fields, recordLength)(clean) == r;
          match r
          case Ok(record) =>
            records := records + [record];
          case Err(e) =>
            errors := errors + [ErrorNote(i + 1, e, lines[i])];
        }
      }
      assert lines[..|lines|] == lines;
    }

    /** `validate_record_length(line)`: the line without its terminators is
        exactly one record long. A shorter line fails, and a line that does not
        end in CR or LF passes exactly when it has the record length, so a
        longer one fails too. */
    function ValidateRecordLength(line: string): (ok: bool)
      ensures ok ==> recordLength <= |line|
      ensures |line| == recordLength && (line == [] || !IsTerminator(line[|line| - 1])) ==> ok
      ensures line == [] || !IsTerminator(line[|line| - 1]) ==> (ok <==> |line| == recordLength)
    {
      |StripTerminators(line)| == recordLength
    }

    /** `get_field_info()`, in catalogue order. */
    function GetFieldInfo(): (info: seq<FieldInfo>)
      ensures |info| == |fields|
      ensures forall k :: 0 <= k < |fields| ==> info[k] == Info(fields[k])
    {
      seq(|fields|, k requires 0 <= k < |fields| => Info(fields[k]))
    }

    /** The layout entries cover the record end to end: the first starts at 0,
        each next one right after the previous one's end position, and the last
        ends at `record_length - 1`. */
    lemma FieldInfoCoversRecord()
      requires Valid() && |fields| > 0
      ensures var info := GetFieldInfo();
        && info[0].startPosition == 0
        && info[|info| - 1].endPosition == recordLength - 1
        && forall k :: 0 < k < |info| ==> info[k].startPosition == info[k - 1].endPosition + 1
    {
      TilingStarts(fields, 0);
    }

    /** A line whose length fails validation, ten characters short say, still
        decodes into a full record of one value per field. */
    lemma ShortLineStillDecodes(line: string)
      requires Valid() && NoBareDigits(line) && |line| + 10 == recordLength
      ensures !ValidateRecordLength(line)
      ensures DecodeRecord(fields, recordLength, line).Ok?
      ensures |DecodeRecord(fields, recordLength, line).value| == |fields|
    {
      DecodeTotal(fields, recordLength, line);
    }

    /** Validation ignores the line terminators. */
    lemma ValidationIgnoresTerminators(line: string, terminators: string)
      requires forall k :: 0 <= k < |terminators| ==> IsTerminator(terminators[k])
      ensures ValidateRecordLength(line + terminators) == ValidateRecordLength(line)
    {
      TerminatorsStripped(line, terminators);
    }
  }

  /** `rstrip('\r\n')` removes appended terminators and then whatever the line
      itself ended with. */
  lemma {:induction false} TerminatorsStripped(line: string, terminators: string)
    requires forall k :: 0 <= k < |terminators| ==> IsTerminator(terminators[k])
    ensures StripTerminators(line + terminators) == StripTerminators(line)
    decreases |terminators|
  {
    if terminators == [] {
      assert line + terminators == line;
    } else {
      var t' := terminators[..|terminators| - 1];
      assert (line + terminators)[..|line + terminators| - 1] == line + t';
      TerminatorsStripped(line, t');
    }
  }
}
