# Cliente fixed-width records: reader and sample generator

This project models the two halves of the Cliente record format. The first is
the decoder in `cliente_reader.py`:

- the 44-field catalogue of `ClienteRecordReader._define_fields` and the
  record length that `__init__` derives from it;
- `ClienteField.parse_value`, which turns a raw slice into text, an integer, a
  boolean or a `YYYYMMDD` date;
- `parse_record`, which pads a short line with spaces and slices and decodes
  every field in catalogue order;
- the line loop of `read_file`, which strips `\r`/`\n`, skips blank lines,
  keeps one record per remaining line and notes the lines whose decoding
  raised;
- `validate_record_length` and `get_field_info`.

The second is the encoder in `generate_sample_data.py`:

- the field tables of `create_sample_record` and
  `create_diverse_sample_records`;
- the pad-or-truncate rule `str(value)[:length].ljust(length)`;
- the loop that concatenates the formatted values into one record;
- the loop that appends one record per index.

The encoder is the round-trip partner of the decoder. A table whose column
widths are the catalogue's lengths builds a 1698-character record. Reading
that record back gives, for field `k`, exactly the parse of the formatted row
`k`. On top of that the model proves what the sample records contain once read
back: names, dates, flags and ids.

Modules, one per file:

- `Text` (`text.dfy`): the Python `str` operations used, over Latin-1
  characters.
- `Calendar` (`calendar.dfy`): the validity rule of `datetime.date`.
- `ClienteField` (`cliente_field.dfy`): field types, values and `parse_value`.
- `FieldCatalogue` (`catalogue.dfy`): the catalogue and its tiling.
- `ClienteReader` (`cliente_reader.dfy`): slicing, `parse_record`, the
  `read_file` loop, and the `ClienteRecordReader` class.
- `SampleData` (`sample_data.dfy`): the record builder and the generic round
  trip.
- `SampleRecords` (`sample_records.dfy`): the two generator tables and what
  their records decode to.

A record is a `seq<Value>` in catalogue order. A date field that does not
decode is the value `NoDate`, which stands for Python's `None`.
`parse_record` is the method `ClienteRecordReader.ParseRecord`, specified by
the function `DecodeRecord`. It pads the line and runs the field loop
`DecodeInOrder`. The `read_file` loop is the method
`ClienteRecordReader.ReadFile`, specified by the function `ReadLines`.
`ReadLines` takes the line decoder as a parameter; `ReadFile` passes
`RecordParser`, which is `parse_record` as a function of the line. The
building loops are the methods `BuildRecord`, `CreateSampleRecord` and
`CreateDiverseSampleRecords`, specified by `FixedWidth` and `Generated`.

### Behaviour of the code worth knowing

- **The integer rule can raise.** `parse_value` computes `int(clean) if clean
  and clean.isdigit() else 0` (`cliente_reader.py:31`), and `isdigit` accepts
  characters that `int()` rejects. Among the Latin-1 characters these are
  `²`, `³` and `¹`. On such a slice
  `parse_value` raises. `parse_record` then raises too, and `read_file`
  reports the line and goes on.
  - The model keeps that error path: `ParseValue` returns a `Result`.
  - `ParseFailsOnlyOnBareDigits` states exactly when it fails.
  - `ParseTotal` and `DecodeTotal` state that a line without such characters
    always decodes.
- **A date field never raises.** Its `int()` calls sit inside the `try`, so a
  bad date is `None`.

## Model

| member | source | states |
|---|---|---|
| ClienteField.ParseFailsOnlyOnBareDigits | cliente_reader.py:26-46 | parse_value fails exactly on an integer slice whose stripped text passes isdigit but holds a digit int() rejects; every other slice of every type parses |
| ClienteField.ParseTotal | cliente_reader.py:26-46 | a slice with no digit that int() rejects parses under every field type |
| ClienteField.ParseValue | cliente_reader.py:26-46 | only an integer field can fail; otherwise the value's kind follows the field type: text, an integer, a boolean, or a date or None |
| ClienteField.ParseInteger | cliente_reader.py:31 | on stripped text, int() raises exactly when the text passes isdigit but is not all decimal digits, and the error carries that text; a non-empty all-decimal text reads as its decimal value, and any other text that does not raise reads as 0 |
| ClienteField.ParseBoolean | cliente_reader.py:33 | on stripped text the result is true exactly when the upper-cased text is one of TRUE, 1, Y, S, SI |
| ClienteField.ParseDate | cliente_reader.py:34-44 | the result is a date or None, and a date only comes from eight decimal digits naming a valid calendar date |
| ClienteField.IntegerRule | cliente_reader.py:31 | an integer slice that parses reads as the decimal value of its stripped text when that is non-empty and all digits, and as 0 otherwise |
| ClienteField.IntegerRoundTrip | cliente_reader.py:28-31 | a zero-padded numeral f'{n:0wd}' followed by any spaces reads back as n |
| ClienteField.IntegerExampleZeroPadded | cliente_reader.py:31 | "00000008" reads as 8 |
| ClienteField.IntegerExampleBlank | cliente_reader.py:31 | a blank integer slice reads as 0 |
| ClienteField.IntegerExampleSign | cliente_reader.py:31 | "-5" is not isdigit, so it reads as 0 |
| ClienteField.IntegerExampleSuperscript | cliente_reader.py:31 | "²" passes isdigit but int() raises: the parse fails with that text |
| ClienteField.BooleanRule | cliente_reader.py:33 | a boolean slice is true exactly when its stripped, upper-cased text is one of TRUE, 1, Y, S, SI; the second test adds nothing |
| ClienteField.BooleanExampleOne | cliente_reader.py:33 | " 1" reads as true |
| ClienteField.BooleanExampleZero | cliente_reader.py:33 | " 0" reads as false |
| ClienteField.BooleanExampleNo | cliente_reader.py:33 | "NO" reads as false |
| ClienteField.BooleanExampleLowerCase | cliente_reader.py:33 | "si" reads as true, the comparison is on the upper-cased text |
| ClienteField.DateRule | cliente_reader.py:34-44 | a date slice reads as date(y, m, d) if and only if (y, m, d) is a valid calendar date and the stripped slice is its YYYYMMDD spelling |
| ClienteField.DateIsValid | cliente_reader.py:36-44 | a date slice never reads as an impossible date |
| ClienteField.DateExampleValid | cliente_reader.py:36-41 | "20251231" reads as 31 December 2025 |
| ClienteField.DateExampleLetters | cliente_reader.py:36-44 | "202513XX" is not all digits and reads as None |
| ClienteField.DateExampleFebruaryThirtieth | cliente_reader.py:37-43 | "20250230" makes date() raise and reads as None |
| ClienteField.DateExampleNotLeap | cliente_reader.py:37-43 | 29 February 2023 reads as None |
| ClienteField.DateExampleLeapDay | cliente_reader.py:37-41 | 29 February 2024 reads as that date |
| ClienteField.DateValid | cliente_reader.py:36-41 | the trimmed spelling of a valid date reads as that date |
| ClienteField.DateNotValid | cliente_reader.py:37-43 | the trimmed eight-digit spelling of an impossible date reads as None |
| ClienteField.TextRule | cliente_reader.py:28-46 | for every slice, a text field never fails and reads as the slice with the whitespace at both ends removed |
| ClienteField.TextExampleSurrounded | cliente_reader.py:28-46 | "  Rossi  " reads as "Rossi" |
| ClienteField.TextRoundTrip | cliente_reader.py:28-46 | a text value with no whitespace at its ends, right-padded with spaces, reads back unchanged |
| Text.Strip | cliente_reader.py:28 | strip() is no longer than its input, has no whitespace at either end, and is empty exactly when the input is all whitespace |
| Text.StripIsTrimmedSlice | cliente_reader.py:28 | strip() is the one slice with only whitespace outside it and none at its ends |
| Text.StripPaddedRight | cliente_reader.py:28 | spaces added on the right never reach the stripped value |
| Text.StripIdempotent | cliente_reader.py:33 | stripping twice is stripping once |
| Text.StripTerminators | cliente_reader.py:193 | rstrip('\r\n') keeps the longest prefix that does not end in CR or LF, and drops only CR and LF |
| Text.DecimalRoundTrip | generate_sample_data.py:13 | int(str(n)) == n |
| Text.ZeroPadRoundTrip | generate_sample_data.py:11 | int(f'{n:0wd}') == n |
| Text.LeadingZerosIgnored | cliente_reader.py:31 | leading zeros do not change the value int() reads |
| Text.AllZerosValue | cliente_reader.py:31 | a digit string reads as 0 exactly when it is all zeros |
| Text.DecimalStringWidth | generate_sample_data.py:11 | a number below 10^w has at most w digits, so f'{n:0wd}' is exactly w wide |
| Text.DecimalValueBound | cliente_reader.py:38-40 | w digits read as a number below 10^w |
| Text.ZeroPadOfValue | cliente_reader.py:38-40 | reading a digit string and writing it back at the same width gives the string |
| Calendar.DaysInMonth | cliente_reader.py:41 | the day limit date() checks for a month lies between 28 and 31 |
| Calendar.YearLength | cliente_reader.py:41 | the twelve day limits add up to 366 in a leap year and 365 otherwise |
| Calendar.LeapDayExamples | cliente_reader.py:41 | date() accepts 29 February in 2024 and 2000 and rejects it in 2023 and 1900 |
| Calendar.MonthLengths | cliente_reader.py:41 | for every year and month, February has 29 days in a leap year and 28 otherwise, April, June, September and November have 30, and the other seven months 31 |
| Calendar.MonthEndExamples | cliente_reader.py:41 | date() accepts 30 April and 31 December 2025 and rejects 31 April, 32 December and month 13 |
| FieldCatalogue.DefineFields | cliente_reader.py:118-166 | the catalogue has 44 fields that tile the record from position 0 with no gap or overlap, and their lengths sum to 1698 |
| FieldCatalogue.TilingStarts | cliente_reader.py:121-164 | in a tiling every field starts at the sum of the lengths before it, and the last ends at the total length |
| FieldCatalogue.TilingBounds | cliente_reader.py:176-179 | every field of a tiling lies inside the record |
| FieldCatalogue.TotalLengthAppend | cliente_reader.py:116 | the total length of two catalogues placed one after the other is the sum of their totals |
| FieldCatalogue.ExpiryField | cliente_reader.py:149 | field 28 is scadenza_bonus, of type date |
| FieldCatalogue.IdFields | cliente_reader.py:147-163 | codice_doc, id and idadvplan are integer fields |
| FieldCatalogue.FlagFields | cliente_reader.py:136-154 | libero, chiuso, sponsor, trasferito_promo, copiaoffertada and promozionale are boolean fields |
| FieldCatalogue.PeopleFields | cliente_reader.py:123-127 | ragione_sociale, cognome, nome and citta are text fields |
| ClienteReader.ClienteRecordReader.constructor | cliente_reader.py:113-116 | the reader holds the 44-field catalogue and a record length of 1698, and the catalogue tiles it |
| ClienteReader.ClienteRecordReader.ParseRecord | cliente_reader.py:168-183 | pads a short line and decodes every field in order; its result is DecodeRecord of the line, so it fails with the first failing field's error |
| ClienteReader.DecodeInOrder | cliente_reader.py:176-181 | the field loop, stopping at the first conversion that raises, computes DecodeFields |
| ClienteReader.DecodeFields | cliente_reader.py:176-181 | a record that decodes has one value per field |
| ClienteReader.DecodeRecord | cliente_reader.py:168-183 | a line that decodes gives one value per catalogue field |
| ClienteReader.PaddedLine | cliente_reader.py:170-172 | a line shorter than the record length is extended to exactly that length with spaces after its own characters; a longer line is unchanged |
| ClienteReader.Slice | cliente_reader.py:177-179 | line[start:end] has length min(end, len(line)) - start, or 0 when that is negative |
| ClienteReader.SliceChars | cliente_reader.py:177-179 | line[start:end] holds the characters of the line from start onwards, up to end or the end of the line |
| ClienteReader.DecodeFieldsOk | cliente_reader.py:176-181 | decoding succeeds exactly when every field decodes, and then gives one value per field, in catalogue order, each the decoding of its field |
| ClienteReader.DecodeFieldsFirstError | cliente_reader.py:176-181 | a record that fails, fails with the error of its first failing field |
| ClienteReader.DecodePrefixError | cliente_reader.py:176-181 | once a prefix of the fields fails, the whole record fails the same way |
| ClienteReader.DecodeDependsOnWindow | cliente_reader.py:170-179 | the decoded record depends only on the line padded to the record length and cut there |
| ClienteReader.PaddingIrrelevant | cliente_reader.py:170-172 | a line decodes like the same line followed by any number of spaces, so a short line decodes like its ljust padding |
| ClienteReader.TailIrrelevant | cliente_reader.py:177-179 | characters past the record length never affect the record |
| ClienteReader.DecodeTotal | cliente_reader.py:168-183 | a line with no digit int() rejects always decodes, whatever its length, into exactly one value per field |
| ClienteReader.DecodeBySlices | cliente_reader.py:176-181 | given each field's slice of a line, the line decodes exactly when every slice parses, and value k is the parse of slice k |
| ClienteReader.BlankTest | cliente_reader.py:193-194 | not line.rstrip('\r\n').strip() holds exactly when the line is all whitespace |
| ClienteReader.ClienteRecordReader.ReadFile | cliente_reader.py:185-201 | the line loop, numbering lines from 1 and decoding with parse_record, yields the records and error notes of ReadLines over the lines |
| ClienteReader.ReadLinesAppend | cliente_reader.py:190-199 | a failing line does not stop the loop: reading a + b gives the batch of a followed by the batch of b, whose lines keep their own numbers |
| ClienteReader.ReadLinesCount | cliente_reader.py:190-199 | every non-blank line gives exactly one record or one error note, and blank lines give neither |
| ClienteReader.Step | cliente_reader.py:191-199 | one turn of the loop only appends: one record or one error note for a non-blank line, nothing for a blank one |
| ClienteReader.ReadLinesErrors | cliente_reader.py:190-199 | the error notes are exactly the failing lines: each names a non-blank input line by its number and carries the error its decoding failed with, and every non-blank line whose decoding fails has such a note |
| ClienteReader.ReadLinesRecords | cliente_reader.py:190-199 | for any lines, failing ones included, the records are those of the non-blank lines that decode, in input order |
| ClienteReader.ReadLinesClean | cliente_reader.py:190-199 | when no line holds a digit int() rejects, there are no error notes and the records are the decoded non-blank lines, one each, in input order |
| ClienteReader.ThirdLineSkipped | cliente_reader.py:194 | of five lines whose third is blank, the other four are kept in order |
| ClienteReader.ThirdLineBlank | cliente_reader.py:190-199 | five lines with the third blank give four records: those of lines 1, 2, 4 and 5 |
| ClienteReader.NonBlankLinesMembers | cliente_reader.py:194 | the lines kept are exactly the input lines that are not blank |
| ClienteReader.NonBlankLinesAppend | cliente_reader.py:190-194 | keeping the non-blank lines preserves their order: for a + b it keeps those of a, then those of b |
| ClienteReader.TerminatorsStripped | cliente_reader.py:193 | rstrip('\r\n') removes any appended CR and LF characters |
| ClienteReader.ClienteRecordReader.ValidateRecordLength | cliente_reader.py:364-366 | a line shorter than the record length fails; a line that does not end in CR or LF passes exactly when its length equals the record length, so a longer one fails |
| ClienteReader.ClienteRecordReader.ValidationIgnoresTerminators | cliente_reader.py:364-366 | validate_record_length gives the same answer with or without trailing CR and LF |
| ClienteReader.ClienteRecordReader.ShortLineStillDecodes | cliente_reader.py:364-366 | a line ten characters short fails validation yet still decodes into one value per field |
| ClienteReader.Info | cliente_reader.py:371-376 | a field's entry carries its name, length, type string and start position, and its start and end positions enclose exactly length characters |
| ClienteReader.ClienteRecordReader.GetFieldInfo | cliente_reader.py:368-378 | one entry per field, in catalogue order, with the field's name, length, type and start, and end position start + length - 1 |
| ClienteReader.ClienteRecordReader.FieldInfoCoversRecord | cliente_reader.py:368-378 | the layout entries cover the record end to end: the first starts at 0, each starts right after the previous end, and the last ends at record_length - 1 |
| SampleData.FormatField | generate_sample_data.py:61 | each formatted value is exactly as wide as its column |
| SampleData.FormatChars | generate_sample_data.py:61 | position k of a formatted value holds the value's k-th character when there is one, and a space otherwise |
| SampleData.FormatFits | generate_sample_data.py:61 | a value that fits its column is followed by spaces only |
| SampleData.FormatTruncates | generate_sample_data.py:61 | a value longer than its column keeps only its first length characters |
| SampleData.FixedWidth | generate_sample_data.py:58-62 | a built record is as long as the sum of its column widths |
| SampleData.BuildRecord | generate_sample_data.py:58-62 | the building loop produces FixedWidth of the table |
| SampleData.SegmentAt | generate_sample_data.py:58-62 | row k's formatted value sits in the record right after the preceding rows' widths |
| SampleData.FitsWidth | generate_sample_data.py:10-55 | a table whose widths are the catalogue's lengths builds a record of the catalogue's total length |
| SampleData.FieldStartsAtColumn | cliente_reader.py:121-164 | when the widths match a tiling catalogue, field k starts where column k does |
| SampleData.BuiltSlices | generate_sample_data.py:58-62 | when the widths match a tiling catalogue, the built record has the record length and the slice of field k is the formatted row k |
| SampleData.BuiltRecordDecodes | generate_sample_data.py:58-62 | round trip: parse_record on a built record succeeds exactly when every formatted row parses under its field's type, and then value k is the parse of row k |
| SampleData.FormattedParses | generate_sample_data.py:61 | a formatted row parses under its field type whenever, for an integer field, its value holds no digit int() rejects |
| SampleData.DecodedColumn | generate_sample_data.py:58-62 | a built record whose integer rows are plain decimal decodes in full, and field k holds the parse of row k |
| SampleData.TextColumnRoundTrip | generate_sample_data.py:61 | text round trip: a value that fits its column and has no whitespace at its ends reads back unchanged |
| SampleData.ZeroPadColumnRoundTrip | generate_sample_data.py:52 | integer round trip: f'{n:0wd}' in a column of width w reads back as n while n has at most w digits |
| SampleData.ColumnDecodesTo | generate_sample_data.py:58-62 | field k of a built record holds v whenever row k's formatted value parses to v |
| SampleRecords.CreateSampleRecord | generate_sample_data.py:7-64 | create_sample_record builds the record of its table, 1698 characters long; the record number defaults to 1 |
| SampleRecords.SampleField | generate_sample_data.py:7-64 | every sample record decodes in full, one value per field, field k holding the parse of formatted row k |
| SampleRecords.SamplePeople | generate_sample_data.py:14-17 | the sample record reads back cognome Rossi, nome Mario and citta Milano |
| SampleRecords.SampleExpiry | generate_sample_data.py:39 | the sample record's scadenza_bonus reads as 31 December 2025 |
| SampleRecords.SampleSetFlags | generate_sample_data.py:26-44 | the sample record's libero, sponsor and promozionale read as true |
| SampleRecords.SampleClearFlags | generate_sample_data.py:33-42 | the sample record's chiuso, trasferito_promo and copia_offerta_da read as false |
| SampleRecords.SampleIds | generate_sample_data.py:37-53 | codice_doc, id and id_adv_plan read back as the record number while it has at most eight digits |
| SampleRecords.PromoTruncated | generate_sample_data.py:43 | the six-character codice_promo column truncates PROMO{r}: records 10 to 19 all carry PROMO1 |
| SampleRecords.Generated | generate_sample_data.py:96-158 | a batch built for n indices holds n records |
| SampleRecords.GeneratedAt | generate_sample_data.py:96-156 | record i of a batch is the record built for index i |
| SampleRecords.CreateDiverseSampleRecords | generate_sample_data.py:66-158 | the loop returns one record per index, in order, so exactly n records for n > 0 and none otherwise; n defaults to 5 |
| SampleRecords.DiverseLength | generate_sample_data.py:103-154 | every varied record has the record length 1698 |
| SampleRecords.DiverseField | generate_sample_data.py:103-154 | every varied record decodes in full, one value per field, field k holding the parse of formatted row k |
| SampleRecords.DiversePeople | generate_sample_data.py:98-110 | varied record i reads back the company, surname, name and city at index i % 5 of the tables |
| SampleRecords.BatchPeople | generate_sample_data.py:96-156 | in a batch of n records, record j reads back the company, surname, name and city at index j % 5 |
| SampleRecords.ExpiryDecodes | generate_sample_data.py:132 | 2025 with month r % 12 + 1 and day r % 28 + 1 is always a valid date, and its spelling reads back as that date |
| SampleRecords.DiverseExpiry | generate_sample_data.py:132 | the varied scadenza_bonus always reads as a valid date, never as None |
| SampleRecords.FlagDecodes | generate_sample_data.py:119 | f' {b % 2}' in a boolean column reads as true exactly when b is odd |
| SampleRecords.DiverseOddFlags | generate_sample_data.py:119-137 | the varied libero, sponsor, copia_offerta_da and promozionale read as true exactly when the record number is odd |
| SampleRecords.DiverseEvenFlags | generate_sample_data.py:126-133 | the varied chiuso and trasferito_promo read as true exactly when the record number plus one is odd |
| SampleRecords.DiverseIds | generate_sample_data.py:130-146 | the varied codice_doc, id and id_adv_plan read back as the record number while it has at most eight digits |

## Left out

- File I/O: opening and decoding the file, and the `print` calls of
  `read_file`. The input is a sequence of lines. The printed messages are
  error notes that carry the line number, the error and the line.
- Exceptions other than the one from `int()`. No other exception can arise in
  the modelled code.
- The Excel and pandas export: `records_to_dataframe`, `export_to_excel`,
  `_create_summary_sheet` and `read_and_export_to_excel`. They are wrappers
  over external libraries, with floating-point percentages.
- `ClienteRecord.to_dict`, which reshapes a record for a data frame.
- The `ClienteRecord` dataclass and its type annotations. A record is the list
  of decoded values in catalogue order, and each value's type follows its
  field's type.
- `main.py`: argument parsing, console output and the field analysis printout.
  Its validation loop only calls `validate_record_length`.
- `generate_sample_file` and `generate_large_sample_file`, which write files
  and print.
- Characters are Latin-1. `strip`, `isspace` and `isdigit` follow Python on
  U+0000..U+00FF. `upper` maps ASCII letters only. This is all the boolean
  tokens need, since their only letters are A-Z. Characters above U+00FF are
  not modelled.
- ClienteRecordReader.GetFieldInfo: gives the entries as a sequence in
  catalogue order, not as a dictionary keyed by field name. The 44 names are
  distinct, so no entry is lost.
- Calendar.DaysInMonth: its own contract only bounds the day limit to 28..31.
  The month table and the leap-year rule with its century exceptions are
  pinned down by `MonthLengths`, `YearLength`, `LeapDayExamples` and
  `MonthEndExamples`.
- DecodeFields and DecodeRecord: their own contracts state only that a
  success has one value per field. Which values, and which error, are stated
  by `DecodeFieldsOk`, `DecodeFieldsFirstError` and `DecodeBySlices`.
- Slice: its own contract states the length. Its contents are stated by
  `SliceChars`.
- IsBlank, ReadLines and NonBlankLines are the specification functions of the
  `read_file` loop and carry no contract of their own beyond a length bound.
  What they mean is stated by `BlankTest`, `ReadLinesAppend`,
  `ReadLinesCount`, `ReadLinesRecords`, `ReadLinesErrors`, `ReadLinesClean`,
  `NonBlankLinesMembers` and `NonBlankLinesAppend`.
- CreateSampleRecord: the record number is a `nat`. A negative number, which
  Python would format with a sign, is not modelled.
- The generator's field names are not kept, only values and widths. Nine of
  them differ from the reader's catalogue names, for example
  `copia_offerta_da` versus `copiaoffertada`. Fields are matched by position.
- Slice: Python's `line[start:end]` for non-negative bounds only. These are
  the only bounds the catalogue produces.
- The values of the other varied columns (codice, indirizzo, telefono,
  partita_iva, bonus, spedizione, stato, titolo, edificio and varie) are
  modelled in the tables. Only their generic properties are proved:
  `DiverseField` and `SampleField` say each decodes to the parse of its
  formatted value.
