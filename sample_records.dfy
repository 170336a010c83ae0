/** The two record tables of `generate_sample_data.py` — the fixed sample
    record of `create_sample_record` and the varied records of
    `create_diverse_sample_records` — and what the reader's `parse_record`
    makes of the records built from them. */
module SampleRecords {
  import opened Text
  import opened Calendar
  import opened ClienteField
  import opened FieldCatalogue
  import opened ClienteReader
  import opened SampleData

  // ------------------------------------------------ create_sample_record

  /** Rows 0..10 of the sample table for record number `r`. */
  function SampleIdentity(r: nat): seq<Column> {
    [
      Column(ZeroPad(r, 8), 8),
      Column("CLI" + ZeroPad(r, 3), 6),
      Column("ACME Corporation SpA #" + DecimalString(r), 80),
      Column("Rossi", 20),
      Column("Mario", 20),
      Column("Via Roma " + DecimalString(100 + r), 40),
      Column("Milano", 40),
      Column("MI", 3),
      Column("02-" + DecimalString(12345000 + r), 20),
      Column("335-" + DecimalString(1234000 + r), 20),
      Column("255", 255)
    ]
  }

  /** Rows 11..21 of the sample table. */
  function SampleCommercial(r: nat): seq<Column> {
    [
      Column("RSSMRA80A01F" + DecimalString(200 + r) + "X", 16),
      Column("12345678", 8),
      Column(DecimalString(12345678000 + r), 16),
      Column(ZeroPad(1200 + r * 100, 12), 12),
      Column(" 1", 2),
      Column("20100", 5),
      Column("255", 255),
      Column("COS" + ZeroPad(r, 3), 6),
      Column("BAN001", 6),
      Column("Standard shipping method", 30),
      Column("PAG001", 6)
    ]
  }

  /** Rows 22..32 of the sample table. */
  function SampleStatus(r: nat): seq<Column> {
    [
      Column(" 0", 2),
      Column("SPO" + ZeroPad(r, 3), 6),
      Column(" 1", 2),
      Column(ZeroPad(5000 + r * 250, 12), 12),
      Column(ZeroPad(r, 8), 8),
      Column("Active", 40),
      Column("20251231", 8),
      Column(" 0", 2),
      Column("Dott.", 20),
      Column(" 0", 2),
      Column(PromoCode(r), 6)
    ]
  }

  /** Rows 33..43 of the sample table. */
  function SampleFiscal(r: nat): seq<Column> {
    [
      Column(" 1", 2),
      Column("255", 255),
      Column("Via Roma " + DecimalString(100 + r), 40),
      Column("Milano", 40),
      Column("MI", 3),
      Column("20100", 5),
      Column("ACME Corporation SpA #" + DecimalString(r), 80),
      Column(Building(r), 20),
      Column(ZeroPad(r, 8), 8),
      Column(ZeroPad(r, 8), 8),
      Column("Various information for record " + DecimalString(r), 255)
    ]
  }

  /** `fields_data` of `create_sample_record(record_num)`. */
  function SampleColumns(r: nat): seq<Column> {
    SampleIdentity(r) + SampleCommercial(r) + SampleStatus(r) + SampleFiscal(r)
  }

  /** `f'PROMO{record_num}'`. */
  function PromoCode(r: nat): string {
    "PROMO" + DecimalString(r)
  }

  /** `f'Building {chr(65 + (record_num % 5))}'`: building A to E. */
  function Building(r: nat): string {
    "Building " + [(65 + r % 5) as char]
  }

  /** `create_sample_record(record_num=1)`: the building loop over the sample
      table. */
  method CreateSampleRecord(recordNum: nat := 1) returns (record: string)
    ensures record == FixedWidth(SampleColumns(recordNum))
    ensures |record| == 1698
  {
    SampleFits(recordNum);
    FitsWidth(SampleColumns(recordNum), DefineFields());
    record := BuildRecord(SampleColumns(recordNum));
  }

  // ---------------------------------------- create_diverse_sample_records

  const Companies: seq<string> := [
    "ACME Corporation SpA",
    "Beta Industries Srl",
    "Gamma Solutions Ltd",
    "Delta Manufacturing",
    "Epsilon Services SA"
  ]

  /** (name, surname) pairs. */
  const Names: seq<(string, string)> := [
    ("Mario", "Rossi"),
    ("Luigi", "Verdi"),
    ("Anna", "Bianchi"),
    ("Paolo", "Neri"),
    ("Maria", "Ferrari")
  ]

  /** (city, province, cap) triples. */
  const Cities: seq<(string, string, string)> := [
    ("Milano", "MI", "20100"),
    ("Roma", "RM", "00100"),
    ("Napoli", "NA", "80100"),
    ("Torino", "TO", "10100"),
    ("Bologna", "BO", "40100")
  ]

  const Shipping: seq<string> := ["Standard", "Express", "Premium"]
  const Statuses: seq<string> := ["Active", "Pending", "Inactive"]
  const Titles: seq<string> := ["Dott.", "Ing.", "Prof.", "Sig."]

  /** `f' {bit}'`: the two-character boolean spelling. */
  function Flag(bit: nat): string {
    " " + DecimalString(bit % 2)
  }

  /** The varied `scadenza_bonus`: year 2025, month `r % 12 + 1`, day `r % 28 + 1`. */
  function Expiry(r: nat): string {
    "2025" + ZeroPad(r % 12 + 1, 2) + ZeroPad(r % 28 + 1, 2)
  }

  /** Rows 0..10 of the varied table for loop index `i` (record number `i + 1`). */
  function DiverseIdentity(i: nat): seq<Column> {
    var r := i + 1;
    var company, name, city := Companies[i % 5], Names[i % 5], Cities[i % 5];
    [
      Column(ZeroPad(r, 8), 8),
      Column("CLI" + ZeroPad(r, 3), 6),
      Column(company, 80),
      Column(name.1, 20),
      Column(name.0, 20),
      Column("Via " + name.1 + " " + DecimalString(100 + r), 40),
      Column(city.0, 40),
      Column(city.1, 3),
      Column("0" + DecimalString(i + 1) + "-" + DecimalString(12345000 + r), 20),
      Column("33" + DecimalString(i + 1) + "-" + DecimalString(1234000 + r), 20),
      Column("255", 255)
    ]
  }

  /** Rows 11..21 of the varied table. */
  function DiverseCommercial(i: nat): seq<Column> {
    var r := i + 1;
    var name, city := Names[i % 5], Cities[i % 5];
    [
      Column(Upper(Take(name.1, 3)) + Upper(Take(name.0, 3)) + "80A01F" + DecimalString(200 + r) + "X", 16),
      Column(ZeroPad(12340000 + r, 8), 8),
      Column(DecimalString(12345678000 + r * 1000), 16),
      Column(ZeroPad(1200 + r * 100, 12), 12),
      Column(Flag(r), 2),
      Column(city.2, 5),
      Column("255", 255),
      Column("COS" + ZeroPad(r, 3), 6),
      Column("BAN" + ZeroPad(r, 3), 6),
      Column(Shipping[r % 3] + " shipping", 30),
      Column("PAG" + ZeroPad(r, 3), 6)
    ]
  }

  /** Rows 22..32 of the varied table. */
  function DiverseStatus(i: nat): seq<Column> {
    var r := i + 1;
    [
      Column(Flag(r + 1), 2),
      Column("SPO" + ZeroPad(r, 3), 6),
      Column(Flag(r), 2),
      Column(ZeroPad(5000 + r * 250, 12), 12),
      Column(ZeroPad(r, 8), 8),
      Column(Statuses[r % 3], 40),
      Column(Expiry(r), 8),
      Column(Flag(r + 1), 2),
      Column(Titles[r % 4], 20),
      Column(Flag(r), 2),
      Column(PromoCode(r), 6)
    ]
  }

  /** Rows 33..43 of the varied table. */
  function DiverseFiscal(i: nat): seq<Column> {
    var r := i + 1;
    var company, name, city := Companies[i % 5], Names[i % 5], Cities[i % 5];
    [
      Column(Flag(r), 2),
      Column("255", 255),
      Column("Via " + name.1 + " " + DecimalString(100 + r), 40),
      Column(city.0, 40),
      Column(city.1, 3),
      Column(city.2, 5),
      Column(company, 80),
      Column(Building(r), 20),
      Column(ZeroPad(r, 8), 8),
      Column(ZeroPad(r, 8), 8),
      Column("Record " + DecimalString(r) + " - " + name.0 + " " + name.1 + " from " + city.0, 255)
    ]
  }

  /** `fields_data` of iteration `i` of `create_diverse_sample_records`. */
  function DiverseColumns(i: nat): seq<Column> {
    DiverseIdentity(i) + DiverseCommercial(i) + DiverseStatus(i) + DiverseFiscal(i)
  }

  /** The record built from varied table `i`. */
  function DiverseRecord(i: nat): string {
    FixedWidth(DiverseColumns(i))
  }

  /** The records `build(0)`, ..., `build(n - 1)`, in loop order. */
  function Generated(build: nat -> string, n: nat): (records: seq<string>)
    ensures |records| == n
  {
    if n == 0 then [] else Generated(build, n - 1) + [build(n - 1)]
  }

  /** Record `i` of a batch is `build(i)`: earlier records never change as the
      batch grows. */
  lemma {:induction false} GeneratedAt(build: nat -> string, n: nat, i: nat)
    requires i < n
    ensures Generated(build, n)[i] == build(i)
  {
    if i < n - 1 {
      GeneratedAt(build, n - 1, i);
    }
  }

  /** `create_diverse_sample_records(num_records=5)`: one record per loop index,
      appended in order; `range` of a count below one is empty. */
  method CreateDiverseSampleRecords(numRecords: int := 5) returns (records: seq<string>)
    ensures |records| == if numRecords > 0 then numRecords else 0
    ensures records == Generated(DiverseRecord, |records|)
  {
    var count: nat := if numRecords > 0 then numRecords else 0;
    records := [];
    for i := 0 to count
      invariant records == Generated(DiverseRecord, i)
    {
      var record := BuildRecord(DiverseColumns(i));
      records := records + [record];
    }
  }

  // ------------------------------------------------------------ the fit

  lemma SampleIdentityFits(r: nat)
    ensures Fits(SampleIdentity(r), IdentityFields())
  {
  }

  lemma SampleCommercialFits(r: nat)
    ensures Fits(SampleCommercial(r), CommercialFields())
  {
  }

  lemma SampleStatusFits(r: nat)
    ensures Fits(SampleStatus(r), StatusFields())
  {
  }

  lemma SampleFiscalFits(r: nat)
    ensures Fits(SampleFiscal(r), FiscalFields())
  {
  }

  /** The sample table's widths are the catalogue's lengths, row by row. */
  lemma SampleFits(r: nat)
    ensures Fits(SampleColumns(r), DefineFields())
  {
    var a, b, c, d := SampleIdentity(r), SampleCommercial(r), SampleStatus(r), SampleFiscal(r);
    var fa, fb, fc, fd := IdentityFields(), CommercialFields(), StatusFields(), FiscalFields();
    SampleIdentityFits(r);
    SampleCommercialFits(r);
    SampleStatusFits(r);
    SampleFiscalFits(r);
    FitsAppend(a, fa, b, fb);
    FitsAppend(a + b, fa + fb, c, fc);
    FitsAppend(a + b + c, fa + fb + fc, d, fd);
  }

  lemma DiverseIdentityFits(i: nat)
    ensures Fits(DiverseIdentity(i), IdentityFields())
  {
  }

  lemma DiverseCommercialFits(i: nat)
    ensures Fits(DiverseCommercial(i), CommercialFields())
  {
  }

  lemma DiverseStatusFits(i: nat)
    ensures Fits(DiverseStatus(i), StatusFields())
  {
  }

  lemma DiverseFiscalFits(i: nat)
    ensures Fits(DiverseFiscal(i), FiscalFields())
  {
  }

  /** Every varied table's widths are the catalogue's lengths, row by row. */
  lemma DiverseFits(i: nat)
    ensures Fits(DiverseColumns(i), DefineFields())
  {
    var a, b, c, d := DiverseIdentity(i), DiverseCommercial(i), DiverseStatus(i), DiverseFiscal(i);
    var fa, fb, fc, fd := IdentityFields(), CommercialFields(), StatusFields(), FiscalFields();
    DiverseIdentityFits(i);
    DiverseCommercialFits(i);
    DiverseStatusFits(i);
    DiverseFiscalFits(i);
    FitsAppend(a, fa, b, fb);
    FitsAppend(a + b, fa + fb, c, fc);
    FitsAppend(a + b + c, fa + fb + fc, d, fd);
  }

  /** Every varied record has the record length. */
  lemma DiverseLength(i: nat)
    ensures |DiverseRecord(i)| == 1698
  {
    DiverseFits(i);
    FitsWidth(DiverseColumns(i), DefineFields());
  }

  // ------------------------------------------- integer rows are decimal

  lemma SampleIdentityDecimal(r: nat)
    ensures DecimalIntegers(SampleIdentity(r), IdentityFields())
  {
  }

  lemma SampleCommercialDecimal(r: nat)
    ensures DecimalIntegers(SampleCommercial(r), CommercialFields())
  {
    SampleCommercialDigits(r);
  }

  /** `parole_chiave`, `bonus` and `note` of the sample table. */
  lemma SampleCommercialDigits(r: nat)
    ensures |SampleCommercial(r)| == 11
    ensures AllDecimal(SampleCommercial(r)[1].value) && AllDecimal(SampleCommercial(r)[3].value)
    ensures AllDecimal(SampleCommercial(r)[6].value)
  {
  }

  lemma SampleStatusDecimal(r: nat)
    ensures DecimalIntegers(SampleStatus(r), StatusFields())
  {
  }

  lemma SampleFiscalDecimal(r: nat)
    ensures DecimalIntegers(SampleFiscal(r), FiscalFields())
  {
  }

  lemma DiverseIdentityDecimal(i: nat)
    ensures DecimalIntegers(DiverseIdentity(i), IdentityFields())
  {
  }

  lemma DiverseCommercialDecimal(i: nat)
    ensures DecimalIntegers(DiverseCommercial(i), CommercialFields())
  {
    DiverseCommercialDigits(i);
  }

  /** `parole_chiave`, `bonus` and `note` of the varied table. */
  lemma DiverseCommercialDigits(i: nat)
    ensures |DiverseCommercial(i)| == 11
    ensures AllDecimal(DiverseCommercial(i)[1].value) && AllDecimal(DiverseCommercial(i)[3].value)
    ensures AllDecimal(DiverseCommercial(i)[6].value)
  {
  }

  lemma DiverseStatusDecimal(i: nat)
    ensures DecimalIntegers(DiverseStatus(i), StatusFields())
  {
  }

  lemma DiverseFiscalDecimal(i: nat)
    ensures DecimalIntegers(DiverseFiscal(i), FiscalFields())
  {
  }

  lemma SampleDecimal(r: nat)
    ensures DecimalIntegers(SampleColumns(r), DefineFields())
  {
    var a, b, c, d := SampleIdentity(r), SampleCommercial(r), SampleStatus(r), SampleFiscal(r);
    var fa, fb, fc, fd := IdentityFields(), CommercialFields(), StatusFields(), FiscalFields();
    SampleIdentityDecimal(r);
    SampleCommercialDecimal(r);
    SampleStatusDecimal(r);
    SampleFiscalDecimal(r);
    DecimalIntegersAppend(a, fa, b, fb);
    DecimalIntegersAppend(a + b, fa + fb, c, fc);
    DecimalIntegersAppend(a + b + c, fa + fb + fc, d, fd);
  }

  lemma DiverseDecimal(i: nat)
    ensures DecimalIntegers(DiverseColumns(i), DefineFields())
  {
    var a, b, c, d := DiverseIdentity(i), DiverseCommercial(i), DiverseStatus(i), DiverseFiscal(i);
    var fa, fb, fc, fd := IdentityFields(), CommercialFields(), StatusFields(), FiscalFields();
    DiverseIdentityDecimal(i);
    DiverseCommercialDecimal(i);
    DiverseStatusDecimal(i);
    DiverseFiscalDecimal(i);
    DecimalIntegersAppend(a, fa, b, fb);
    DecimalIntegersAppend(a + b, fa + fb, c, fc);
    DecimalIntegersAppend(a + b + c, fa + fb + fc, d, fd);
  }

  // ------------------------------------------- what the reader decodes

  /** The reader decodes a sample record in full, one value per field, and
      field `k` holds the parse of row `k`'s formatted value. */
  lemma SampleField(r: nat, k: nat)
    requires k < 44
    ensures var d := DecodeRecord(DefineFields(), 1698, FixedWidth(SampleColumns(r)));
      && d.Ok? && |d.value| == 44
      && Ok(d.value[k]) == ParseValue(DefineFields()[k].fieldType,
                                      FormatField(SampleColumns(r)[k].value, SampleColumns(r)[k].length))
  {
    SampleFits(r);
    SampleDecimal(r);
    DecodedColumn(SampleColumns(r), DefineFields(), k);
  }

  /** The reader decodes every varied record in full, one value per field,
      and field `k` holds the parse of row `k`'s formatted value. */
  lemma DiverseField(i: nat, k: nat)
    requires k < 44
    ensures var d := DecodeRecord(DefineFields(), 1698, DiverseRecord(i));
      && d.Ok? && |d.value| == 44
      && Ok(d.value[k]) == ParseValue(DefineFields()[k].fieldType,
                                      FormatField(DiverseColumns(i)[k].value, DiverseColumns(i)[k].length))
  {
    DiverseFits(i);
    DiverseDecimal(i);
    DecodedColumn(DiverseColumns(i), DefineFields(), k);
  }

  /** `f' {bit}'` in a boolean column reads as true exactly when the bit is odd. */
  lemma FlagDecodes(bit: nat)
    ensures ParseValue(BooleanField, FormatField(Flag(bit), 2)) == Ok(Bool(bit % 2 == 1))
  {
    if bit % 2 == 0 {
      assert Flag(bit) == " 0";
      FormatFits(" 0", 2);
      assert " 0" + Spaces(0) == " 0";
      BooleanExampleZero();
    } else {
      assert Flag(bit) == " 1";
      FormatFits(" 1", 2);
      assert " 1" + Spaces(0) == " 1";
      BooleanExampleOne();
    }
  }

  /** The varied expiry is always a valid date in 2025 and reads back as it. */
  lemma ExpiryDecodes(r: nat)
    ensures IsValidDate(2025, r % 12 + 1, r % 28 + 1)
    ensures ParseValue(DateField, FormatField(Expiry(r), 8)) == Ok(Date(2025, r % 12 + 1, r % 28 + 1))
  {
    var m, d := r % 12 + 1, r % 28 + 1;
    assert Pow10(2) == 100;
    DecimalStringWidth(m, 2);
    DecimalStringWidth(d, 2);
    assert DecimalString(20) == "20" && DecimalString(202) == "202" && DecimalString(2025) == "2025";
    assert ZeroPad(2025, 4) == "2025";
    var s := Expiry(r);
    assert s == DateText(2025, m, d);
    FormatFits(s, 8);
    assert s + Spaces(0) == s;
    DateValid(s, 2025, m, d);
  }

  /** Every company, name and city of the varied tables fits its column and
      has no surrounding whitespace. */
  lemma TablesFit(j: nat)
    requires j < 5
    ensures |Companies[j]| <= 80 && Trimmed(Companies[j])
    ensures |Names[j].0| <= 20 && Trimmed(Names[j].0)
    ensures |Names[j].1| <= 20 && Trimmed(Names[j].1)
    ensures |Cities[j].0| <= 40 && Trimmed(Cities[j].0)
  {
  }

  // ------------------------------------------ rows of the sample table

  lemma SampleChunks(r: nat)
    ensures |SampleIdentity(r)| == |SampleCommercial(r)| == |SampleStatus(r)| == |SampleFiscal(r)| == 11
  {
  }

  /** Row `k` of the sample table, found in its chunk. */
  lemma SampleRow(r: nat, k: nat)
    requires k < 44
    ensures |SampleColumns(r)| == 44
    ensures SampleColumns(r)[k] ==
      if k < 11 then SampleIdentity(r)[k] else if k < 22 then SampleCommercial(r)[k - 11]
      else if k < 33 then SampleStatus(r)[k - 22] else SampleFiscal(r)[k - 33]
  {
    SampleChunks(r);
    QuarterAt(SampleIdentity(r), SampleCommercial(r), SampleStatus(r), SampleFiscal(r), k);
  }

  lemma SampleIdentityRow(r: nat, k: nat)
    requires k < 11
    ensures SampleColumns(r)[k] == SampleIdentity(r)[k]
  {
    SampleRow(r, k);
  }

  lemma SampleCommercialRow(r: nat, k: nat)
    requires 11 <= k < 22
    ensures SampleColumns(r)[k] == SampleCommercial(r)[k - 11]
  {
    SampleRow(r, k);
  }

  lemma SampleStatusRow(r: nat, k: nat)
    requires 22 <= k < 33
    ensures SampleColumns(r)[k] == SampleStatus(r)[k - 22]
  {
    SampleRow(r, k);
  }

  lemma SampleFiscalRow(r: nat, k: nat)
    requires 33 <= k < 44
    ensures SampleColumns(r)[k] == SampleFiscal(r)[k - 33]
  {
    SampleRow(r, k);
  }

  lemma SampleSurnameRow(r: nat)
    ensures SampleColumns(r)[3] == Column("Rossi", 20)
  {
    SampleIdentityRow(r, 3);
    SampleSurnameEntry(r);
  }

  lemma SampleSurnameEntry(r: nat)
    ensures SampleIdentity(r)[3] == Column("Rossi", 20)
  {
  }

  lemma SampleNameRow(r: nat)
    ensures SampleColumns(r)[4] == Column("Mario", 20)
  {
    SampleIdentityRow(r, 4);
    SampleNameEntry(r);
  }

  lemma SampleNameEntry(r: nat)
    ensures SampleIdentity(r)[4] == Column("Mario", 20)
  {
  }

  lemma SampleCityRow(r: nat)
    ensures SampleColumns(r)[6] == Column("Milano", 40)
  {
    SampleIdentityRow(r, 6);
    SampleCityEntry(r);
  }

  lemma SampleCityEntry(r: nat)
    ensures SampleIdentity(r)[6] == Column("Milano", 40)
  {
  }

  lemma SampleExpiryRow(r: nat)
    ensures SampleColumns(r)[28] == Column("20251231", 8)
  {
    SampleStatusRow(r, 28);
    SampleExpiryEntry(r);
  }

  lemma SampleExpiryEntry(r: nat)
    ensures SampleStatus(r)[6] == Column("20251231", 8)
  {
  }

  lemma SampleLiberoRow(r: nat)
    ensures SampleColumns(r)[15] == Column(" 1", 2)
  {
    SampleCommercialRow(r, 15);
    SampleLiberoEntry(r);
  }

  lemma SampleLiberoEntry(r: nat)
    ensures SampleCommercial(r)[4] == Column(" 1", 2)
  {
  }

  lemma SampleSponsorRow(r: nat)
    ensures SampleColumns(r)[24] == Column(" 1", 2)
  {
    SampleStatusRow(r, 24);
    SampleSponsorEntry(r);
  }

  lemma SampleSponsorEntry(r: nat)
    ensures SampleStatus(r)[2] == Column(" 1", 2)
  {
  }

  lemma SamplePromoFlagRow(r: nat)
    ensures SampleColumns(r)[33] == Column(" 1", 2)
  {
    SampleFiscalRow(r, 33);
    SamplePromoFlagEntry(r);
  }

  lemma SamplePromoFlagEntry(r: nat)
    ensures SampleFiscal(r)[0] == Column(" 1", 2)
  {
  }

  lemma SampleClosedRow(r: nat)
    ensures SampleColumns(r)[22] == Column(" 0", 2)
  {
    SampleStatusRow(r, 22);
    SampleClosedEntry(r);
  }

  lemma SampleClosedEntry(r: nat)
    ensures SampleStatus(r)[0] == Column(" 0", 2)
  {
  }

  lemma SampleTransferRow(r: nat)
    ensures SampleColumns(r)[29] == Column(" 0", 2)
  {
    SampleStatusRow(r, 29);
    SampleTransferEntry(r);
  }

  lemma SampleTransferEntry(r: nat)
    ensures SampleStatus(r)[7] == Column(" 0", 2)
  {
  }

  lemma SampleCopyRow(r: nat)
    ensures SampleColumns(r)[31] == Column(" 0", 2)
  {
    SampleStatusRow(r, 31);
    SampleCopyEntry(r);
  }

  lemma SampleCopyEntry(r: nat)
    ensures SampleStatus(r)[9] == Column(" 0", 2)
  {
  }

  lemma SampleDocRow(r: nat)
    ensures SampleColumns(r)[26] == Column(ZeroPad(r, 8), 8)
  {
    SampleStatusRow(r, 26);
    SampleDocEntry(r);
  }

  lemma SampleDocEntry(r: nat)
    ensures SampleStatus(r)[4] == Column(ZeroPad(r, 8), 8)
  {
  }

  lemma SampleIdRow(r: nat)
    ensures SampleColumns(r)[41] == Column(ZeroPad(r, 8), 8)
  {
    SampleFiscalRow(r, 41);
    SampleIdEntry(r);
  }

  lemma SampleIdEntry(r: nat)
    ensures SampleFiscal(r)[8] == Column(ZeroPad(r, 8), 8)
  {
  }

  lemma SampleAdvPlanRow(r: nat)
    ensures SampleColumns(r)[42] == Column(ZeroPad(r, 8), 8)
  {
    SampleFiscalRow(r, 42);
    SampleAdvPlanEntry(r);
  }

  lemma SampleAdvPlanEntry(r: nat)
    ensures SampleFiscal(r)[9] == Column(ZeroPad(r, 8), 8)
  {
  }

  // ------------------------------------------ what the sample record holds

  /** `"20251231"` in an eight-character date column reads as 31 December 2025. */
  lemma SampleExpiryDecodes()
    ensures IsValidDate(2025, 12, 31)
    ensures ParseValue(DateField, FormatField("20251231", 8)) == Ok(Date(2025, 12, 31))
  {
    assert DecimalString(20) == "20" && DecimalString(202) == "202" && DecimalString(2025) == "2025";
    assert DecimalString(12) == "12" && DecimalString(31) == "31";
    assert ZeroPad(2025, 4) == "2025" && ZeroPad(12, 2) == "12" && ZeroPad(31, 2) == "31";
    assert "20251231" == DateText(2025, 12, 31);
    FormatFits("20251231", 8);
    assert "20251231" + Spaces(0) == "20251231";
    DateValid("20251231", 2025, 12, 31);
  }

  lemma SampleTextsParse()
    ensures ParseValue(AlphaField, FormatField("Rossi", 20)) == Ok(Text("Rossi"))
    ensures ParseValue(AlphaField, FormatField("Mario", 20)) == Ok(Text("Mario"))
    ensures ParseValue(AlphaField, FormatField("Milano", 40)) == Ok(Text("Milano"))
  {
    TextColumnRoundTrip("Rossi", 20);
    TextColumnRoundTrip("Mario", 20);
    TextColumnRoundTrip("Milano", 40);
  }

  /** The six-character `codice_promo` column cuts `PROMO{r}` short: from
      record 10 on the code loses digits, so records 10 to 19 all carry
      `PROMO1`. */
  lemma {:induction false} PromoTruncated(r: nat)
    requires 10 <= r < 20
    ensures FormatField(PromoCode(r), 6) == "PROMO1"
  {
    assert r / 10 == 1;
    assert DecimalString(r) == "1" + [DigitChar(r % 10)];
    assert PromoCode(r) == "PROMO1" + [DigitChar(r % 10)];
    FormatTruncates(PromoCode(r), 6);
  }

  /** The sample record's `cognome`, `nome` and `citta` read back as written. */
  lemma SamplePeople(r: nat)
    ensures var d := DecodeRecord(DefineFields(), 1698, FixedWidth(SampleColumns(r)));
      && d.Ok? && |d.value| == 44
      && d.value[3] == Text("Rossi") && d.value[4] == Text("Mario") && d.value[6] == Text("Milano")
  {
    var cols, fs := SampleColumns(r), DefineFields();
    SampleFits(r);
    SampleDecimal(r);
    PeopleFields();
    SampleSurnameRow(r);
    SampleNameRow(r);
    SampleCityRow(r);
    SampleTextsParse();
    ColumnDecodesTo(cols, fs, 3, AlphaField, Text("Rossi"));
    ColumnDecodesTo(cols, fs, 4, AlphaField, Text("Mario"));
    ColumnDecodesTo(cols, fs, 6, AlphaField, Text("Milano"));
  }

  /** The sample record's `scadenza_bonus` reads as 31 December 2025. */
  lemma SampleExpiry(r: nat)
    ensures var d := DecodeRecord(DefineFields(), 1698, FixedWidth(SampleColumns(r)));
      && d.Ok? && |d.value| == 44 && d.value[28] == Date(2025, 12, 31)
  {
    var cols, fs := SampleColumns(r), DefineFields();
    SampleFits(r);
    SampleDecimal(r);
    ExpiryField();
    SampleExpiryRow(r);
    SampleExpiryDecodes();
    ColumnDecodesTo(cols, fs, 28, DateField, Date(2025, 12, 31));
  }

  /** The sample record's `libero`, `sponsor` and `promozionale` (`" 1"`) read as true. */
  lemma SampleSetFlags(r: nat)
    ensures var d := DecodeRecord(DefineFields(), 1698, FixedWidth(SampleColumns(r)));
      && d.Ok? && |d.value| == 44
      && d.value[15] == d.value[24] == d.value[33] == Bool(true)
  {
    var cols, fs := SampleColumns(r), DefineFields();
    SampleFits(r);
    SampleDecimal(r);
    FlagFields();
    SampleLiberoRow(r);
    SampleSponsorRow(r);
    SamplePromoFlagRow(r);
    assert Flag(1) == " 1";
    FlagDecodes(1);
    ColumnDecodesTo(cols, fs, 15, BooleanField, Bool(true));
    ColumnDecodesTo(cols, fs, 24, BooleanField, Bool(true));
    ColumnDecodesTo(cols, fs, 33, BooleanField, Bool(true));
  }

  /** The sample record's `chiuso`, `trasferito_promo` and `copiaoffertada` (`" 0"`) read as false. */
  lemma SampleClearFlags(r: nat)
    ensures var d := DecodeRecord(DefineFields(), 1698, FixedWidth(SampleColumns(r)));
      && d.Ok? && |d.value| == 44
      && d.value[22] == d.value[29] == d.value[31] == Bool(false)
  {
    var cols, fs := SampleColumns(r), DefineFields();
    SampleFits(r);
    SampleDecimal(r);
    FlagFields();
    SampleClosedRow(r);
    SampleTransferRow(r);
    SampleCopyRow(r);
    assert Flag(0) == " 0";
    FlagDecodes(0);
    ColumnDecodesTo(cols, fs, 22, BooleanField, Bool(false));
    ColumnDecodesTo(cols, fs, 29, BooleanField, Bool(false));
    ColumnDecodesTo(cols, fs, 31, BooleanField, Bool(false));
  }

  /** Integer round trip on the sample record: `codice_doc`, `id` and
      `idadvplan` read back as the record number while it has at most eight
      digits. */
  lemma SampleIds(r: nat)
    requires r < 100000000
    ensures var d := DecodeRecord(DefineFields(), 1698, FixedWidth(SampleColumns(r)));
      && d.Ok? && |d.value| == 44
      && d.value[26] == d.value[41] == d.value[42] == Int(r)
  {
    var cols, fs := SampleColumns(r), DefineFields();
    SampleFits(r);
    SampleDecimal(r);
    IdFields();
    SampleDocRow(r);
    SampleIdRow(r);
    SampleAdvPlanRow(r);
    assert Pow10(8) == 100000000;
    ZeroPadColumnRoundTrip(r, 8);
    ColumnDecodesTo(cols, fs, 26, IntegerField, Int(r));
    ColumnDecodesTo(cols, fs, 41, IntegerField, Int(r));
    ColumnDecodesTo(cols, fs, 42, IntegerField, Int(r));
  }

  // ------------------------------------------ rows of the varied table

  lemma DiverseChunks(i: nat)
    ensures |DiverseIdentity(i)| == |DiverseCommercial(i)| == |DiverseStatus(i)| == |DiverseFiscal(i)| == 11
  {
  }

  /** Row `k` of the varied table, found in its chunk. */
  lemma DiverseRow(i: nat, k: nat)
    requires k < 44
    ensures |DiverseColumns(i)| == 44
    ensures DiverseColumns(i)[k] ==
      if k < 11 then DiverseIdentity(i)[k] else if k < 22 then DiverseCommercial(i)[k - 11]
      else if k < 33 then DiverseStatus(i)[k - 22] else DiverseFiscal(i)[k - 33]
  {
    DiverseChunks(i);
    QuarterAt(DiverseIdentity(i), DiverseCommercial(i), DiverseStatus(i), DiverseFiscal(i), k);
  }

  lemma DiverseIdentityRow(i: nat, k: nat)
    requires k < 11
    ensures DiverseColumns(i)[k] == DiverseIdentity(i)[k]
  {
    DiverseRow(i, k);
  }

  lemma DiverseCommercialRow(i: nat, k: nat)
    requires 11 <= k < 22
    ensures DiverseColumns(i)[k] == DiverseCommercial(i)[k - 11]
  {
    DiverseRow(i, k);
  }

  lemma DiverseStatusRow(i: nat, k: nat)
    requires 22 <= k < 33
    ensures DiverseColumns(i)[k] == DiverseStatus(i)[k - 22]
  {
    DiverseRow(i, k);
  }

  lemma DiverseFiscalRow(i: nat, k: nat)
    requires 33 <= k < 44
    ensures DiverseColumns(i)[k] == DiverseFiscal(i)[k - 33]
  {
    DiverseRow(i, k);
  }

  lemma DiverseCompanyRow(i: nat)
    ensures DiverseColumns(i)[2] == Column(Companies[i % 5], 80)
  {
    DiverseIdentityRow(i, 2);
    DiverseCompanyEntry(i);
  }

  lemma DiverseCompanyEntry(i: nat)
    ensures DiverseIdentity(i)[2] == Column(Companies[i % 5], 80)
  {
  }

  lemma DiverseSurnameRow(i: nat)
    ensures DiverseColumns(i)[3] == Column(Names[i % 5].1, 20)
  {
    DiverseIdentityRow(i, 3);
    DiverseSurnameEntry(i);
  }

  lemma DiverseSurnameEntry(i: nat)
    ensures DiverseIdentity(i)[3] == Column(Names[i % 5].1, 20)
  {
  }

  lemma DiverseNameRow(i: nat)
    ensures DiverseColumns(i)[4] == Column(Names[i % 5].0, 20)
  {
    DiverseIdentityRow(i, 4);
    DiverseNameEntry(i);
  }

  lemma DiverseNameEntry(i: nat)
    ensures DiverseIdentity(i)[4] == Column(Names[i % 5].0, 20)
  {
  }

  lemma DiverseCityRow(i: nat)
    ensures DiverseColumns(i)[6] == Column(Cities[i % 5].0, 40)
  {
    DiverseIdentityRow(i, 6);
    DiverseCityEntry(i);
  }

  lemma DiverseCityEntry(i: nat)
    ensures DiverseIdentity(i)[6] == Column(Cities[i % 5].0, 40)
  {
  }

  lemma DiverseExpiryRow(i: nat)
    ensures DiverseColumns(i)[28] == Column(Expiry(i + 1), 8)
  {
    DiverseStatusRow(i, 28);
    DiverseExpiryEntry(i);
  }

  lemma DiverseExpiryEntry(i: nat)
    ensures DiverseStatus(i)[6] == Column(Expiry(i + 1), 8)
  {
  }

  lemma DiverseLiberoRow(i: nat)
    ensures DiverseColumns(i)[15] == Column(Flag(i + 1), 2)
  {
    DiverseCommercialRow(i, 15);
    DiverseLiberoEntry(i);
  }

  lemma DiverseLiberoEntry(i: nat)
    ensures DiverseCommercial(i)[4] == Column(Flag(i + 1), 2)
  {
  }

  lemma DiverseSponsorRow(i: nat)
    ensures DiverseColumns(i)[24] == Column(Flag(i + 1), 2)
  {
    DiverseStatusRow(i, 24);
    DiverseSponsorEntry(i);
  }

  lemma DiverseSponsorEntry(i: nat)
    ensures DiverseStatus(i)[2] == Column(Flag(i + 1), 2)
  {
  }

  lemma DiverseCopyRow(i: nat)
    ensures DiverseColumns(i)[31] == Column(Flag(i + 1), 2)
  {
    DiverseStatusRow(i, 31);
    DiverseCopyEntry(i);
  }

  lemma DiverseCopyEntry(i: nat)
    ensures DiverseStatus(i)[9] == Column(Flag(i + 1), 2)
  {
  }

  lemma DiversePromoFlagRow(i: nat)
    ensures DiverseColumns(i)[33] == Column(Flag(i + 1), 2)
  {
    DiverseFiscalRow(i, 33);
    DiversePromoFlagEntry(i);
  }

  lemma DiversePromoFlagEntry(i: nat)
    ensures DiverseFiscal(i)[0] == Column(Flag(i + 1), 2)
  {
  }

  lemma DiverseClosedRow(i: nat)
    ensures DiverseColumns(i)[22] == Column(Flag(i + 2), 2)
  {
    DiverseStatusRow(i, 22);
    DiverseClosedEntry(i);
  }

  lemma DiverseClosedEntry(i: nat)
    ensures DiverseStatus(i)[0] == Column(Flag(i + 2), 2)
  {
  }

  lemma DiverseTransferRow(i: nat)
    ensures DiverseColumns(i)[29] == Column(Flag(i + 2), 2)
  {
    DiverseStatusRow(i, 29);
    DiverseTransferEntry(i);
  }

  lemma DiverseTransferEntry(i: nat)
    ensures DiverseStatus(i)[7] == Column(Flag(i + 2), 2)
  {
  }

  lemma DiverseDocRow(i: nat)
    ensures DiverseColumns(i)[26] == Column(ZeroPad(i + 1, 8), 8)
  {
    DiverseStatusRow(i, 26);
    DiverseDocEntry(i);
  }

  lemma DiverseDocEntry(i: nat)
    ensures DiverseStatus(i)[4] == Column(ZeroPad(i + 1, 8), 8)
  {
  }

  lemma DiverseIdRow(i: nat)
    ensures DiverseColumns(i)[41] == Column(ZeroPad(i + 1, 8), 8)
  {
    DiverseFiscalRow(i, 41);
    DiverseIdEntry(i);
  }

  lemma DiverseIdEntry(i: nat)
    ensures DiverseFiscal(i)[8] == Column(ZeroPad(i + 1, 8), 8)
  {
  }

  lemma DiverseAdvPlanRow(i: nat)
    ensures DiverseColumns(i)[42] == Column(ZeroPad(i + 1, 8), 8)
  {
    DiverseFiscalRow(i, 42);
    DiverseAdvPlanEntry(i);
  }

  lemma DiverseAdvPlanEntry(i: nat)
    ensures DiverseFiscal(i)[9] == Column(ZeroPad(i + 1, 8), 8)
  {
  }

  // ------------------------------------------ what the varied records hold

  lemma DiverseTextsParse(j: nat)
    requires j < 5
    ensures ParseValue(AlphaField, FormatField(Companies[j], 80)) == Ok(Text(Companies[j]))
    ensures ParseValue(AlphaField, FormatField(Names[j].1, 20)) == Ok(Text(Names[j].1))
    ensures ParseValue(AlphaField, FormatField(Names[j].0, 20)) == Ok(Text(Names[j].0))
    ensures ParseValue(AlphaField, FormatField(Cities[j].0, 40)) == Ok(Text(Cities[j].0))
  {
    TablesFit(j);
    TextColumnRoundTrip(Companies[j], 80);
    TextColumnRoundTrip(Names[j].1, 20);
    TextColumnRoundTrip(Names[j].0, 20);
    TextColumnRoundTrip(Cities[j].0, 40);
  }

  /** Round trip of the varied record's text columns: company, surname, name
      and city come back from the reader as drawn from the tables at
      `i % 5`. */
  lemma DiversePeople(i: nat)
    ensures var d := DecodeRecord(DefineFields(), 1698, DiverseRecord(i));
      && d.Ok? && |d.value| == 44
      && d.value[2] == Text(Companies[i % 5])
      && d.value[3] == Text(Names[i % 5].1)
      && d.value[4] == Text(Names[i % 5].0)
      && d.value[6] == Text(Cities[i % 5].0)
  {
    var cols, fs := DiverseColumns(i), DefineFields();
    DiverseFits(i);
    DiverseDecimal(i);
    PeopleFields();
    DiverseCompanyRow(i);
    DiverseSurnameRow(i);
    DiverseNameRow(i);
    DiverseCityRow(i);
    DiverseTextsParse(i % 5);
    ColumnDecodesTo(cols, fs, 2, AlphaField, Text(Companies[i % 5]));
    ColumnDecodesTo(cols, fs, 3, AlphaField, Text(Names[i % 5].1));
    ColumnDecodesTo(cols, fs, 4, AlphaField, Text(Names[i % 5].0));
    ColumnDecodesTo(cols, fs, 6, AlphaField, Text(Cities[i % 5].0));
  }

  /** The varied `scadenza_bonus` always decodes to a valid date, never to `None`. */
  lemma DiverseExpiry(i: nat)
    ensures IsValidDate(2025, (i + 1) % 12 + 1, (i + 1) % 28 + 1)
    ensures var d := DecodeRecord(DefineFields(), 1698, DiverseRecord(i));
      && d.Ok? && |d.value| == 44
      && d.value[28] == Date(2025, (i + 1) % 12 + 1, (i + 1) % 28 + 1)
  {
    var cols, fs := DiverseColumns(i), DefineFields();
    DiverseFits(i);
    DiverseDecimal(i);
    ExpiryField();
    DiverseExpiryRow(i);
    ExpiryDecodes(i + 1);
    ColumnDecodesTo(cols, fs, 28, DateField, Date(2025, (i + 1) % 12 + 1, (i + 1) % 28 + 1));
  }

  /** The varied boolean columns `libero`, `sponsor`, `copiaoffertada` and
      `promozionale` read as true exactly when the record number is odd. */
  lemma DiverseOddFlags(i: nat)
    ensures var d := DecodeRecord(DefineFields(), 1698, DiverseRecord(i));
      && d.Ok? && |d.value| == 44
      && d.value[15] == d.value[24] == d.value[31] == d.value[33] == Bool((i + 1) % 2 == 1)
  {
    var cols, fs := DiverseColumns(i), DefineFields();
    DiverseFits(i);
    DiverseDecimal(i);
    FlagFields();
    DiverseLiberoRow(i);
    DiverseSponsorRow(i);
    DiverseCopyRow(i);
    DiversePromoFlagRow(i);
    FlagDecodes(i + 1);
    var odd := Bool((i + 1) % 2 == 1);
    ColumnDecodesTo(cols, fs, 15, BooleanField, odd);
    ColumnDecodesTo(cols, fs, 24, BooleanField, odd);
    ColumnDecodesTo(cols, fs, 31, BooleanField, odd);
    ColumnDecodesTo(cols, fs, 33, BooleanField, odd);
  }

  /** The varied boolean columns `chiuso` and `trasferito_promo` read as true
      exactly when the record number plus one is odd, that is when the record
      number is even. */
  lemma DiverseEvenFlags(i: nat)
    ensures var d := DecodeRecord(DefineFields(), 1698, DiverseRecord(i));
      && d.Ok? && |d.value| == 44
      && d.value[22] == d.value[29] == Bool((i + 2) % 2 == 1)
  {
    var cols, fs := DiverseColumns(i), DefineFields();
    DiverseFits(i);
    DiverseDecimal(i);
    FlagFields();
    DiverseClosedRow(i);
    DiverseTransferRow(i);
    FlagDecodes(i + 2);
    var even := Bool((i + 2) % 2 == 1);
    ColumnDecodesTo(cols, fs, 22, BooleanField, even);
    ColumnDecodesTo(cols, fs, 29, BooleanField, even);
  }

  /** Integer round trip on the varied record: `codice_doc`, `id` and
      `idadvplan` (`f'{record_num:08d}'`) read back as the record number
      while it has at most eight digits. */
  lemma DiverseIds(i: nat)
    requires i + 1 < 100000000
    ensures var d := DecodeRecord(DefineFields(), 1698, DiverseRecord(i));
      && d.Ok? && |d.value| == 44
      && d.value[26] == d.value[41] == d.value[42] == Int(i + 1)
  {
    var cols, fs := DiverseColumns(i), DefineFields();
    DiverseFits(i);
    DiverseDecimal(i);
    IdFields();
    DiverseDocRow(i);
    DiverseIdRow(i);
    DiverseAdvPlanRow(i);
    assert Pow10(8) == 100000000;
    ZeroPadColumnRoundTrip(i + 1, 8);
    ColumnDecodesTo(cols, fs, 26, IntegerField, Int(i + 1));
    ColumnDecodesTo(cols, fs, 41, IntegerField, Int(i + 1));
    ColumnDecodesTo(cols, fs, 42, IntegerField, Int(i + 1));
  }

  /** In a batch of `n` generated records, record `j` reads back with the
      company, surname, name and city at index `j % 5` of the tables. */
  lemma BatchPeople(n: nat, j: nat)
    requires j < n
    ensures var d := DecodeRecord(DefineFields(), 1698, Generated(DiverseRecord, n)[j]);
      && d.Ok? && |d.value| == 44
      && d.value[2] == Text(Companies[j % 5])
      && d.value[3] == Text(Names[j % 5].1)
      && d.value[4] == Text(Names[j % 5].0)
      && d.value[6] == Text(Cities[j % 5].0)
  {
    GeneratedAt(DiverseRecord, n, j);
    DiversePeople(j);
  }
}
