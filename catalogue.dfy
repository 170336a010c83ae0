/** The record layout built by `ClienteRecordReader._define_fields`: 44 fields
    with their lengths, types and hard-coded start positions, and the tiling
    property those positions must have. */
module FieldCatalogue {
  import opened ClienteField

  /** Sum of the field lengths: `record_length` in `__init__`. */
  function TotalLength(fs: seq<Field>): nat {
    if fs == [] then 0 else TotalLength(fs[..|fs| - 1]) + fs[|fs| - 1].length
  }

  /** The fields lie back to back from position `pos` on: the first starts at
      `pos` and each next one where the previous one ends. */
  predicate TilesFrom(fs: seq<Field>, pos: nat) {
    && (|fs| > 0 ==> fs[0].startPos == pos)
    && forall k :: 0 < k < |fs| ==> fs[k].startPos == fs[k - 1].startPos + fs[k - 1].length
  }

  /** The fields tile the record from position 0 with no gap and no overlap. */
  predicate Tiles(fs: seq<Field>) {
    TilesFrom(fs, 0)
  }

  /** In a tiling, every field starts at the sum of the lengths before it. */
  lemma {:induction false} TilingStarts(fs: seq<Field>, pos: nat)
    requires TilesFrom(fs, pos)
    ensures forall k :: 0 <= k < |fs| ==> fs[k].startPos == pos + TotalLength(fs[..k])
    ensures |fs| > 0 ==> fs[|fs| - 1].startPos + fs[|fs| - 1].length == pos + TotalLength(fs)
  {
    if |fs| > 0 {
      var p := fs[..|fs| - 1];
      TilingStarts(p, pos);
      assert forall k :: 0 <= k < |p| ==> p[..k] == fs[..k];
      assert fs[..|fs| - 1] == p;
      if |p| > 0 {
        assert fs[|fs| - 1].startPos == pos + TotalLength(p);
      }
    }
  }

  /** In a tiling of a record of length L, every field lies inside [0, L). */
  lemma TilingBounds(fs: seq<Field>)
    requires Tiles(fs)
    ensures forall k :: 0 <= k < |fs| ==> fs[k].startPos + fs[k].length <= TotalLength(fs)
  {
    TilingStarts(fs, 0);
    forall k | 0 <= k < |fs|
      ensures fs[k].startPos + fs[k].length <= TotalLength(fs)
    {
      PrefixLength(fs, k + 1);
      var q := fs[..k + 1];
      assert q[..|q| - 1] == fs[..k];
      assert TotalLength(q) == TotalLength(fs[..k]) + fs[k].length;
    }
  }

  /** Lengths only add up along a prefix. */
  lemma {:induction false} PrefixLength(fs: seq<Field>, n: nat)
    requires n <= |fs|
    ensures TotalLength(fs[..n]) <= TotalLength(fs)
    decreases |fs|
  {
    if n < |fs| {
      assert fs[..|fs| - 1][..n] == fs[..n];
      PrefixLength(fs[..|fs| - 1], n);
    } else {
      assert fs[..n] == fs;
    }
  }

  /** Two tilings placed one after the other tile their concatenation. */
  lemma TilesAppend(a: seq<Field>, b: seq<Field>, pos: nat, mid: nat)
    requires TilesFrom(a, pos) && TilesFrom(b, mid)
    requires |a| > 0 && a[|a| - 1].startPos + a[|a| - 1].length == mid
    ensures TilesFrom(a + b, pos)
  {
    var c := a + b;
    forall k | 0 < k < |c|
      ensures c[k].startPos == c[k - 1].startPos + c[k - 1].length
    {
      if k < |a| {
      } else if k == |a| {
      } else {
        assert c[k] == b[k - |a|] && c[k - 1] == b[k - 1 - |a|];
      }
    }
  }

  /** Total length of a concatenation. */
  lemma {:induction false} TotalLengthAppend(a: seq<Field>, b: seq<Field>)
    ensures TotalLength(a + b) == TotalLength(a) + TotalLength(b)
    decreases |b|
  {
    if b == [] {
      assert a + b == a;
    } else {
      var b' := b[..|b| - 1];
      assert (a + b)[..|a + b| - 1] == a + b';
      TotalLengthAppend(a, b');
    }
  }

  /** Fields 0..10 of the catalogue (progressivo .. email). */
  function IdentityFields(): seq<Field> {
    [
      Field("progressivo", 8, AlphaField, 0),
      Field("codice", 6, AlphaField, 8),
      Field("ragione_sociale", 80, AlphaField, 14),
      Field("cognome", 20, AlphaField, 94),
      Field("nome", 20, AlphaField, 114),
      Field("indirizzo", 40, AlphaField, 134),
      Field("citta", 40, AlphaField, 174),
      Field("prov", 3, AlphaField, 214),
      Field("telefono", 20, AlphaField, 217),
      Field("telefono2", 20, AlphaField, 237),
      Field("email", 255, AlphaField, 257)
    ]
  }

  /** Fields 11..21 of the catalogue (codice_fiscale .. pagamento_cosmo). */
  function CommercialFields(): seq<Field> {
    [
      Field("codice_fiscale", 16, AlphaField, 512),
      Field("parole_chiave", 8, IntegerField, 528),
      Field("partita_iva", 16, AlphaField, 536),
      Field("bonus", 12, IntegerField, 552),
      Field("libero", 2, BooleanField, 564),
      Field("cap", 5, AlphaField, 566),
      Field("note", 255, IntegerField, 571),
      Field("codice_cosmo", 6, AlphaField, 826),
      Field("banca_cosmo", 6, AlphaField, 832),
      Field("spedizione", 30, AlphaField, 838),
      Field("pagamento_cosmo", 6, AlphaField, 868)
    ]
  }

  /** Fields 22..32 of the catalogue (chiuso .. codicepromo). */
  function StatusFields(): seq<Field> {
    [
      Field("chiuso", 2, BooleanField, 874),
      Field("codice_sponsor", 6, AlphaField, 876),
      Field("sponsor", 2, BooleanField, 882),
      Field("saldo_sponsor", 12, IntegerField, 884),
      Field("codice_doc", 8, IntegerField, 896),
      Field("stato", 40, AlphaField, 904),
      Field("scadenza_bonus", 8, DateField, 944),
      Field("trasferito_promo", 2, BooleanField, 952),
      Field("titolo", 20, AlphaField, 954),
      Field("copiaoffertada", 2, BooleanField, 974),
      Field("codicepromo", 6, AlphaField, 976)
    ]
  }

  /** Fields 33..43 of the catalogue (promozionale .. varie). */
  function FiscalFields(): seq<Field> {
    [
      Field("promozionale", 2, BooleanField, 982),
      Field("sitointernet", 255, IntegerField, 984),
      Field("indirizzofiscale", 40, AlphaField, 1239),
      Field("cittafiscale", 40, AlphaField, 1279),
      Field("provfiscale", 3, AlphaField, 1319),
      Field("capfiscale", 5, AlphaField, 1322),
      Field("nominativofiscale", 80, AlphaField, 1327),
      Field("edificio", 20, AlphaField, 1407),
      Field("id", 8, IntegerField, 1427),
      Field("idadvplan", 8, IntegerField, 1435),
      Field("varie", 255, AlphaField, 1443)
    ]
  }

  lemma IdentityFieldsTile()
    ensures |IdentityFields()| == 11 && TilesFrom(IdentityFields(), 0)
    ensures IdentityFields()[10].startPos + IdentityFields()[10].length == 512
  {
  }

  lemma CommercialFieldsTile()
    ensures |CommercialFields()| == 11 && TilesFrom(CommercialFields(), 512)
    ensures CommercialFields()[10].startPos + CommercialFields()[10].length == 874
  {
  }

  lemma StatusFieldsTile()
    ensures |StatusFields()| == 11 && TilesFrom(StatusFields(), 874)
    ensures StatusFields()[10].startPos + StatusFields()[10].length == 982
  {
  }

  lemma FiscalFieldsTile()
    ensures |FiscalFields()| == 11 && TilesFrom(FiscalFields(), 982)
    ensures FiscalFields()[10].startPos + FiscalFields()[10].length == 1698
  {
  }

  /** `_define_fields()`: the catalogue in record order. */
  function DefineFields(): (fs: seq<Field>)
    ensures |fs| == 44 && Tiles(fs) && TotalLength(fs) == 1698
  {
    var a, b, c, d := IdentityFields(), CommercialFields(), StatusFields(), FiscalFields();
    IdentityFieldsTile();
    CommercialFieldsTile();
    StatusFieldsTile();
    FiscalFieldsTile();
    TilesAppend(c, d, 874, 982);
    TilesAppend(b, c + d, 512, 874);
    TilesAppend(a, b + (c + d), 0, 512);
    assert a + b + c + d == a + (b + (c + d));
    TilingStarts(a + b + c + d, 0);
    a + b + c + d
  }

  /** Field 28, `scadenza_bonus`, is a date field. */
  lemma ExpiryField()
    ensures DefineFields()[28].name == "scadenza_bonus" && DefineFields()[28].fieldType == DateField
  {
  }

  /** `codice_doc`, `id` and `idadvplan` are integer fields. */
  lemma IdFields()
    ensures DefineFields()[26].fieldType == DefineFields()[41].fieldType == DefineFields()[42].fieldType == IntegerField
  {
  }

  /** The six boolean fields. */
  lemma FlagFields()
    ensures DefineFields()[15].fieldType == DefineFields()[22].fieldType == DefineFields()[24].fieldType == BooleanField
    ensures DefineFields()[29].fieldType == DefineFields()[31].fieldType == DefineFields()[33].fieldType == BooleanField
  {
  }

  /** `ragione_sociale`, `cognome`, `nome` and `citta` are text fields. */
  lemma PeopleFields()
    ensures DefineFields()[2].fieldType == DefineFields()[3].fieldType == AlphaField
    ensures DefineFields()[4].fieldType == DefineFields()[6].fieldType == AlphaField
  {
  }
}
