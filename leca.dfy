/** The LECA normalizer, `preprocess_leca`
    (utils/pre_process_function.py:395-478). An export whose first column
    is unnamed carries its header in its first row, which is promoted and
    removed; the twelve columns are then relabelled by position, eight of
    them renamed to the common vocabulary, and the row identifier, the
    first-of-month date, the source tags, the net sales and the net unit
    price are added. */
module Leca {
  import opened Wrappers
  import opened Text
  import opened Tables
  import opened Steps
  import SchemaRegistry

  /** The label pandas gives the first column of a sheet whose header
      row is blank. */
  const HeaderMarker: string := "Unnamed: 0"

  /** The label a promoted header cell gives its column. */
  function HeaderText(v: Value): string
  {
    if v.Str? then v.text else ""
  }

  /** `df.columns = df.iloc[0]; df = df.iloc[1:]` when the first column is
      unnamed; `iloc[0]` of an empty frame raises an IndexError. */
  function Promote(t: Table): (r: Result<Table, Error>)
    requires WellFormed(t)
    ensures HeaderMarker !in Labels(t) ==> r == Ok(t)
    ensures r.Err? <==> HeaderMarker in Labels(t) && t.height == 0
    ensures r.Err? ==> r.error == NoHeaderRow
    ensures r.Ok? ==> WellFormed(r.value) && |r.value.columns| == |t.columns|
    ensures r.Ok? && HeaderMarker in Labels(t) ==>
      r.value.height == t.height - 1 &&
      forall k :: 0 <= k < |t.columns| ==> r.value.columns[k].values == t.columns[k].values[1..]
  {
    if HeaderMarker !in Labels(t) then Ok(t)
    else if t.height == 0 then Err(NoHeaderRow)
    else
      Ok(Table(t.height - 1, seq(|t.columns|, k requires 0 <= k < |t.columns| =>
        Column(HeaderText(t.columns[k].values[0]), t.columns[k].values[1..]))))
  }

  /** The data of the export's k-th column, below any promoted header. */
  function Body(raw: Table, k: nat): (v: seq<Value>)
    requires WellFormed(raw) && Promote(raw).Ok? && k < |raw.columns|
    ensures |v| == Promote(raw).value.height
  {
    Promote(raw).value.columns[k].values
  }

  /** The labels the twelve columns get, left to right. */
  const LecaColumns: seq<string> := [
    "Year", "Month", "Practice Post Code or Identifier", "Practice Name", "Customer Account",
    "Dentist", "Product Code", "Product Description", "NHS /Private/Independent/PPE",
    "Quantity", "Invoice Amount", "Invoice VAT"
  ]

  /** The rename; the j-th pair renames column j + 2. */
  const LecaRename: seq<(string, string)> := [
    ("Practice Post Code or Identifier", "practice_code"),
    ("Practice Name", "practice_name"),
    ("Customer Account", "customer_id"),
    ("Dentist", "customer_name"),
    ("Product Code", "product_code"),
    ("Product Description", "product_description"),
    ("NHS /Private/Independent/PPE", "nhs_or_private"),
    ("Quantity", "quantity")
  ]

  const IdColumn: string := "customer_product_cube_uuid"

  /** The columns kept, in order, before the unit price is appended. */
  const LecaOutput: seq<string> := [
    "customer_product_cube_uuid", "year_month", "system_source", "als_lab",
    "practice_code", "practice_name", "customer_id", "customer_name", "product_code",
    "product_description", "quantity", "net_sales", "nhs_or_private"
  ]

  /** The columns the normalizer computes rather than takes from the export. */
  predicate IsAdded(d: string)
  {
    d == IdColumn || d == "year_month" || d == "system_source" || d == "als_lab" ||
    d == "net_sales" || d == "net_unit_price"
  }

  /** A label that starts with a capital letter, as every export label
      here does and no output label does. */
  predicate Capitalised(d: string)
  {
    |d| > 0 && 'A' <= d[0] <= 'Z'
  }

  lemma LecaColumnsCapitalised()
    ensures forall d :: d in LecaColumns ==> Capitalised(d)
  {
  }

  lemma LecaColumnsDistinct()
    ensures Distinct(LecaColumns)
  {
    assert LecaColumns == SchemaRegistry.Schema8;
    SchemaRegistry.Schema8Distinct();
  }

  /** The j-th pair renames the (j + 2)-th column to an output label that
      no export column has and no step adds. */
  lemma RenameFacts(j: nat)
    requires j < |LecaRename|
    ensures OneToOne(LecaRename)
    ensures LecaRename[j].0 == LecaColumns[j + 2]
    ensures LecaRename[j].1 in LecaOutput && !IsAdded(LecaRename[j].1) && !Capitalised(LecaRename[j].1)
  {
    LecaRenameOneToOne();
    RenameTargets(j);
  }

  lemma LecaRenameOneToOne()
    ensures OneToOne(LecaRename)
  {
    LecaOldsApart();
    LecaNewsApart();
    OneToOneHalves(LecaRename);
  }

  lemma LecaOldsApart()
    ensures OldsApart(LecaRename)
  {
  }

  lemma LecaNewsApart()
    ensures NewsApart(LecaRename)
  {
  }

  lemma RenameTargets(j: nat)
    requires j < |LecaRename|
    ensures LecaRename[j].0 == LecaColumns[j + 2]
    ensures LecaRename[j].1 in LecaOutput && !IsAdded(LecaRename[j].1) && !Capitalised(LecaRename[j].1)
  {
  }

  /** The export's own columns that the normalizer reads under their
      export labels. */
  lemma KeptFacts()
    ensures forall j :: 0 <= j < |LecaRename| ==>
      LecaRename[j].0 !in ["Year", "Month", "Invoice Amount", "Invoice VAT"] &&
      !Capitalised(LecaRename[j].1)
    ensures LecaColumns[0] == "Year" && LecaColumns[1] == "Month"
    ensures LecaColumns[10] == "Invoice Amount" && LecaColumns[11] == "Invoice VAT"
  {
  }

  // ---------------------------------------------------------------------
  // The stages

  /** The header promotion and the positional relabelling. */
  function Named(raw: Table): (r: Result<Table, Error>)
    requires WellFormed(raw)
    ensures Promote(raw).Err? ==> r == Err(NoHeaderRow)
    ensures Promote(raw).Ok? ==> (r.Err? <==> |raw.columns| != |LecaColumns|)
    ensures Promote(raw).Ok? && r.Err? ==> r.error == ColumnCount(12, |raw.columns|)
    ensures r.Ok? ==> Promote(raw).Ok? && |raw.columns| == 12
    ensures r.Ok? ==> WellFormed(r.value) && r.value.height == Promote(raw).value.height && Labels(r.value) == LecaColumns
    ensures r.Ok? ==> forall k :: 0 <= k < 12 ==> Get(r.value, LecaColumns[k]) == Body(raw, k)
  {
    LecaColumnsDistinct();
    var promoted :- Promote(raw);
    Relabel(promoted, LecaColumns)
  }

  /** The rename, the row identifier and the date. */
  function Dated(named: Table, uuid: nat -> string): (r: Result<Table, Error>)
    requires WellFormed(named)
  {
    YearMonth(AddIds(Rename(named, LecaRename), IdColumn, uuid))
  }

  /** The source tags and the net sales. */
  function Enriched(named: Table, alsLab: string, uuid: nat -> string): (r: Result<Table, Error>)
    requires WellFormed(named)
  {
    var dated :- Dated(named, uuid);
    Derive(Tag(dated, "Custom", alsLab), "net_sales", "Invoice Amount", "Invoice VAT", SubCell, NotNumeric("net_sales"))
  }

  // ---------------------------------------------------------------------
  // Following the columns through the stages

  /** The four export columns read under their export labels survive the
      rename unchanged. */
  lemma RenameKeeps(named: Table, c: string)
    requires WellFormed(named) && Labels(named) == LecaColumns
    requires c in ["Year", "Month", "Invoice Amount", "Invoice VAT"]
    ensures c in Labels(Rename(named, LecaRename)) && Get(Rename(named, LecaRename), c) == Get(named, c)
  {
    KeptFacts();
    LecaColumnsCapitalised();
    RenameUntouched(named, LecaRename, c);
  }

  /** The j-th pair moves the (j + 2)-th column to its output label. */
  lemma RenameMoves(named: Table, j: nat)
    requires WellFormed(named) && Labels(named) == LecaColumns && j < |LecaRename|
    ensures LecaRename[j].1 in Labels(Rename(named, LecaRename))
    ensures Get(Rename(named, LecaRename), LecaRename[j].1) == Get(named, LecaColumns[j + 2])
  {
    RenameFacts(j);
    LecaColumnsCapitalised();
    RenamePair(named, LecaRename, j);
  }

  /** A renamed column that no later step computes reaches the enriched
      table unchanged. */
  lemma Carry(named: Table, alsLab: string, uuid: nat -> string, d: string)
    requires WellFormed(named) && Enriched(named, alsLab, uuid).Ok?
    requires d in Labels(Rename(named, LecaRename)) && !IsAdded(d)
    ensures d in Labels(Enriched(named, alsLab, uuid).value)
    ensures Get(Enriched(named, alsLab, uuid).value, d) == Get(Rename(named, LecaRename), d)
  {
    var renamed := Rename(named, LecaRename);
    var withIds := AddIds(renamed, IdColumn, uuid);
    assert d in Labels(withIds) && Get(withIds, d) == Get(renamed, d);
    var dated := Dated(named, uuid).value;
    assert d in Labels(dated) && Get(dated, d) == Get(withIds, d);
    var tagged := Tagged(named, alsLab, uuid);
    assert d in Labels(tagged) && Get(tagged, d) == Get(dated, d);
    DeriveKeeps(tagged, "net_sales", "Invoice Amount", "Invoice VAT", SubCell, NotNumeric("net_sales"), d);
  }

  /** The output labels the rename supplies. */
  function Targets(): (r: set<string>)
    ensures forall j :: 0 <= j < |LecaRename| ==> LecaRename[j].1 in r
    ensures forall d :: d in r ==> exists j :: 0 <= j < |LecaRename| && LecaRename[j].1 == d
  {
    set j | 0 <= j < |LecaRename| :: LecaRename[j].1
  }

  /** Every output label is either computed or supplied by the rename. */
  lemma OutputFacts()
    ensures forall d :: d in LecaOutput ==> (IsAdded(d) && d != "net_unit_price") || d in Targets()
    ensures "net_unit_price" !in LecaOutput && "net_sales" in LecaOutput && "quantity" in LecaOutput
  {
    var t := Targets();
    assert LecaRename[0].1 in t && LecaRename[1].1 in t && LecaRename[2].1 in t && LecaRename[3].1 in t;
    assert LecaRename[4].1 in t && LecaRename[5].1 in t && LecaRename[6].1 in t && LecaRename[7].1 in t;
  }

  /** The enriched table raises only on a date that cannot be assembled or
      on text in the invoice columns. */
  lemma EnrichedErrors(named: Table, alsLab: string, uuid: nat -> string)
    requires WellFormed(named) && Labels(named) == LecaColumns
    ensures Enriched(named, alsLab, uuid).Err? ==>
      Enriched(named, alsLab, uuid).error == InvalidYearMonth || Enriched(named, alsLab, uuid).error == NotNumeric("net_sales")
  {
    DatedErrors(named, uuid);
    if Dated(named, uuid).Ok? {
      var dated := Dated(named, uuid).value;
      var tagged := Tagged(named, alsLab, uuid);
      assert "Invoice Amount" in Labels(tagged) && "Invoice VAT" in Labels(tagged);
    }
  }

  /** The date stage raises only on a date that cannot be assembled, and
      keeps the invoice columns. */
  lemma DatedErrors(named: Table, uuid: nat -> string)
    requires WellFormed(named) && Labels(named) == LecaColumns
    ensures Dated(named, uuid).Err? ==> Dated(named, uuid).error == InvalidYearMonth
    ensures Dated(named, uuid).Ok? ==>
      "Invoice Amount" in Labels(Dated(named, uuid).value) && "Invoice VAT" in Labels(Dated(named, uuid).value)
  {
    RenameKeeps(named, "Year");
    RenameKeeps(named, "Month");
    RenameKeeps(named, "Invoice Amount");
    RenameKeeps(named, "Invoice VAT");
    var renamed := Rename(named, LecaRename);
    AddIdsKeeps(renamed, IdColumn, uuid, "Year");
    AddIdsKeeps(renamed, IdColumn, uuid, "Month");
    AddIdsKeeps(renamed, IdColumn, uuid, "Invoice Amount");
    AddIdsKeeps(renamed, IdColumn, uuid, "Invoice VAT");
    var withIds := AddIds(renamed, IdColumn, uuid);
    YearMonthKeeps(withIds, "Invoice Amount");
    YearMonthKeeps(withIds, "Invoice VAT");
  }

  /** The enriched table has the columns the steps compute. */
  lemma EnrichedAdds(named: Table, alsLab: string, uuid: nat -> string)
    requires WellFormed(named) && Enriched(named, alsLab, uuid).Ok?
    ensures forall d :: IsAdded(d) && d != "net_unit_price" ==> d in Labels(Enriched(named, alsLab, uuid).value)
  {
    DatedAdds(named, uuid);
    var tagged := Tagged(named, alsLab, uuid);
    TaggedAdds(Dated(named, uuid).value, alsLab, tagged);
    forall d | IsAdded(d) && d != "net_unit_price"
      ensures d in Labels(Enriched(named, alsLab, uuid).value)
    {
      DeriveKeeps(tagged, "net_sales", "Invoice Amount", "Invoice VAT", SubCell, NotNumeric("net_sales"), d);
    }
  }

  /** Tagging a table with the identifier and the date gives one with
      every computed column but the two amounts. */
  lemma TaggedAdds(dated: Table, alsLab: string, tagged: Table)
    requires WellFormed(dated) && IdColumn in Labels(dated) && "year_month" in Labels(dated)
    requires tagged == Tag(dated, "Custom", alsLab)
    ensures forall d :: IsAdded(d) && d != "net_unit_price" && d != "net_sales" ==> d in Labels(tagged)
  {
  }

  /** The dated table has the identifier and the assembled date. */
  lemma DatedAdds(named: Table, uuid: nat -> string)
    requires WellFormed(named) && Dated(named, uuid).Ok?
    ensures IdColumn in Labels(Dated(named, uuid).value) && "year_month" in Labels(Dated(named, uuid).value)
  {
    var withIds := AddIds(Rename(named, LecaRename), IdColumn, uuid);
    assert IdColumn in Labels(withIds);
    assert "Year" in Labels(withIds) && "Month" in Labels(withIds);
    YearMonthKeeps(withIds, IdColumn);
  }

  /** The enriched table has every output column. */
  lemma EnrichedLabels(named: Table, alsLab: string, uuid: nat -> string)
    requires WellFormed(named) && Labels(named) == LecaColumns && Enriched(named, alsLab, uuid).Ok?
    ensures forall d :: d in LecaOutput ==> d in Labels(Enriched(named, alsLab, uuid).value)
  {
    var e := Enriched(named, alsLab, uuid).value;
    forall j | 0 <= j < |LecaRename| ensures LecaRename[j].1 in Labels(e) {
      RenameMoves(named, j);
      RenameFacts(j);
      Carry(named, alsLab, uuid, LecaRename[j].1);
    }
    EnrichedAdds(named, alsLab, uuid);
    OutputFacts();
  }

  /** The stage tables of `Enriched`, under names the lemmas share. */
  function Tagged(named: Table, alsLab: string, uuid: nat -> string): (r: Table)
    requires WellFormed(named) && Dated(named, uuid).Ok?
    ensures WellFormed(r)
    ensures Enriched(named, alsLab, uuid) ==
      Derive(r, "net_sales", "Invoice Amount", "Invoice VAT", SubCell, NotNumeric("net_sales"))
  {
    Tag(Dated(named, uuid).value, "Custom", alsLab)
  }

  /** The labels the rows lemmas compare, told apart once. */
  lemma ReadLabelsApart()
    ensures forall c :: c in ["Year", "Month", "Invoice Amount", "Invoice VAT"] ==>
      !IsAdded(c) && c != "system_source" && c != "als_lab"
    ensures IdColumn != "year_month" && IdColumn != "system_source" && IdColumn != "als_lab" && IdColumn != "net_sales"
    ensures "year_month" != "system_source" && "year_month" != "als_lab" && "year_month" != "net_sales"
    ensures "system_source" != "als_lab" && "system_source" != "net_sales" && "als_lab" != "net_sales"
  {
  }

  /** The read columns of the dated table are the named table's. */
  lemma DatedReads(named: Table, uuid: nat -> string, c: string)
    requires WellFormed(named) && Labels(named) == LecaColumns && Dated(named, uuid).Ok?
    requires c in ["Year", "Month", "Invoice Amount", "Invoice VAT"]
    ensures c in Labels(Dated(named, uuid).value) && Get(Dated(named, uuid).value, c) == Get(named, c)
    ensures IdColumn in Labels(Dated(named, uuid).value) && "year_month" in Labels(Dated(named, uuid).value)
    ensures forall i :: 0 <= i < named.height ==>
      YearMonthCell(Get(named, "Year")[i], Get(named, "Month")[i]).Some? &&
      Get(Dated(named, uuid).value, "year_month")[i] == YearMonthCell(Get(named, "Year")[i], Get(named, "Month")[i]).value &&
      Get(Dated(named, uuid).value, IdColumn)[i] == Str(uuid(i))
  {
    ReadLabelsApart();
    RenameKeeps(named, "Year");
    RenameKeeps(named, "Month");
    RenameKeeps(named, c);
    var withIds := AddIds(Rename(named, LecaRename), IdColumn, uuid);
    assert Get(withIds, "Year") == Get(named, "Year");
    assert Get(withIds, "Month") == Get(named, "Month");
  }

  /** Each row of the enriched table holds its identifier, its tags, the
      date assembled from its year and month and its invoice amount less
      VAT. */
  lemma EnrichedRows(named: Table, alsLab: string, uuid: nat -> string)
    requires WellFormed(named) && Labels(named) == LecaColumns && Enriched(named, alsLab, uuid).Ok?
    ensures var e := Enriched(named, alsLab, uuid).value;
      WellFormed(e) && e.height == named.height &&
      IdColumn in Labels(e) && "system_source" in Labels(e) && "als_lab" in Labels(e) &&
      "year_month" in Labels(e) && "net_sales" in Labels(e) &&
      forall i :: 0 <= i < named.height ==>
        Get(e, IdColumn)[i] == Str(uuid(i)) &&
        Get(e, "system_source")[i] == Str("Custom") && Get(e, "als_lab")[i] == Str(alsLab) &&
        YearMonthCell(Get(named, "Year")[i], Get(named, "Month")[i]).Some? &&
        Get(e, "year_month")[i] == YearMonthCell(Get(named, "Year")[i], Get(named, "Month")[i]).value &&
        SubCell(Get(named, "Invoice Amount")[i], Get(named, "Invoice VAT")[i]).Some? &&
        Get(e, "net_sales")[i] == SubCell(Get(named, "Invoice Amount")[i], Get(named, "Invoice VAT")[i]).value
  {
    DatedReads(named, uuid, "Invoice Amount");
    DatedReads(named, uuid, "Invoice VAT");
    var dated := Dated(named, uuid).value;
    NetRows(dated, alsLab);
  }

  /** Tagging and subtracting keep each row's identifier and date, tag it,
      and put its invoice amount less VAT in `net_sales`. */
  lemma NetRows(dated: Table, alsLab: string)
    requires WellFormed(dated)
    requires "Invoice Amount" in Labels(dated) && "Invoice VAT" in Labels(dated)
    requires IdColumn in Labels(dated) && "year_month" in Labels(dated)
    requires Derive(Tag(dated, "Custom", alsLab), "net_sales", "Invoice Amount", "Invoice VAT", SubCell, NotNumeric("net_sales")).Ok?
    ensures var e := Derive(Tag(dated, "Custom", alsLab), "net_sales", "Invoice Amount", "Invoice VAT", SubCell, NotNumeric("net_sales")).value;
      WellFormed(e) && e.height == dated.height &&
      IdColumn in Labels(e) && "system_source" in Labels(e) && "als_lab" in Labels(e) &&
      "year_month" in Labels(e) && "net_sales" in Labels(e) &&
      forall i :: 0 <= i < dated.height ==>
        Get(e, IdColumn)[i] == Get(dated, IdColumn)[i] &&
        Get(e, "system_source")[i] == Str("Custom") && Get(e, "als_lab")[i] == Str(alsLab) &&
        Get(e, "year_month")[i] == Get(dated, "year_month")[i] &&
        SubCell(Get(dated, "Invoice Amount")[i], Get(dated, "Invoice VAT")[i]).Some? &&
        Get(e, "net_sales")[i] == SubCell(Get(dated, "Invoice Amount")[i], Get(dated, "Invoice VAT")[i]).value
  {
    ReadLabelsApart();
    var tagged := Tag(dated, "Custom", alsLab);
    assert Get(tagged, "Invoice Amount") == Get(dated, "Invoice Amount");
    assert Get(tagged, "Invoice VAT") == Get(dated, "Invoice VAT");
    assert Get(tagged, "year_month") == Get(dated, "year_month");
    assert Get(tagged, IdColumn) == Get(dated, IdColumn);
  }

  // ---------------------------------------------------------------------
  // The whole normalizer

  /** `preprocess_leca(raw_data, als_lab)`, with the identifier generator
      as a parameter. It raises an IndexError on an empty frame whose
      header is in its first row and a ValueError unless the export has
      twelve columns; otherwise only an unassemblable date or text in an
      amount column raises. The output has the thirteen kept columns and
      the unit price, and one row per data row of the export. */
  function Normalize(raw: Table, alsLab: string, uuid: nat -> string): (r: Result<Table, Error>)
    requires WellFormed(raw)
    ensures Promote(raw).Err? ==> r == Err(NoHeaderRow)
    ensures Promote(raw).Ok? && |raw.columns| != 12 ==> r == Err(ColumnCount(12, |raw.columns|))
    ensures r.Err? && r.error.ColumnCount? <==> Promote(raw).Ok? && |raw.columns| != 12
    ensures r.Err? ==> r.error in [NoHeaderRow, ColumnCount(12, |raw.columns|), InvalidYearMonth,
                                   NotNumeric("net_sales"), NotNumeric("net_unit_price")]
    ensures r.Ok? ==> Promote(raw).Ok? && |raw.columns| == 12
    ensures r.Ok? ==> WellFormed(r.value) && Labels(r.value) == LecaOutput + ["net_unit_price"]
    ensures r.Ok? ==> r.value.height == if HeaderMarker in Labels(raw) then raw.height - 1 else raw.height
  {
    var named :- Named(raw);
    EnrichedErrors(named, alsLab, uuid);
    var enriched :- Enriched(named, alsLab, uuid);
    EnrichedLabels(named, alsLab, uuid);
    EnrichedRows(named, alsLab, uuid);
    OutputFacts();
    var selected := Select(enriched, LecaOutput).value;
    assert "net_sales" in Labels(selected) && "quantity" in Labels(selected);
    UnitPrice(selected, "net_unit_price")
  }

  /** The named and enriched tables behind a successful run. */
  lemma Stages(raw: Table, alsLab: string, uuid: nat -> string)
    requires WellFormed(raw) && Normalize(raw, alsLab, uuid).Ok?
    ensures Named(raw).Ok? && Enriched(Named(raw).value, alsLab, uuid).Ok?
    ensures var e := Enriched(Named(raw).value, alsLab, uuid).value;
      Select(e, LecaOutput).Ok? && UnitPrice(Select(e, LecaOutput).value, "net_unit_price").Ok? &&
      Normalize(raw, alsLab, uuid) == UnitPrice(Select(e, LecaOutput).value, "net_unit_price")
  {
    var named := Named(raw).value;
    EnrichedErrors(named, alsLab, uuid);
    assert Enriched(named, alsLab, uuid).Ok?;
    EnrichedLabels(named, alsLab, uuid);
  }

  /** An output column other than the unit price is the enriched table's. */
  lemma Output(raw: Table, alsLab: string, uuid: nat -> string, d: string)
    requires WellFormed(raw) && Normalize(raw, alsLab, uuid).Ok? && d in LecaOutput
    ensures Named(raw).Ok? && Enriched(Named(raw).value, alsLab, uuid).Ok?
    ensures d in Labels(Normalize(raw, alsLab, uuid).value)
    ensures var e := Enriched(Named(raw).value, alsLab, uuid).value;
      d in Labels(e) && Get(Normalize(raw, alsLab, uuid).value, d) == Get(e, d)
  {
    Stages(raw, alsLab, uuid);
    var e := Enriched(Named(raw).value, alsLab, uuid).value;
    OutputFacts();
    SelectThenPrice(e, LecaOutput, "net_unit_price");
  }

  // ---------------------------------------------------------------------
  // What the output holds

  /** The j-th renamed output column holds the export's (j + 2)-th column:
      practice code, practice name, customer account, dentist, product
      code, product description, NHS/private tag and quantity. */
  lemma NormalizeCarries(raw: Table, alsLab: string, uuid: nat -> string, j: nat)
    requires WellFormed(raw) && Normalize(raw, alsLab, uuid).Ok? && j < |LecaRename|
    ensures Promote(raw).Ok? && j + 2 < |raw.columns|
    ensures LecaRename[j].1 in Labels(Normalize(raw, alsLab, uuid).value)
    ensures Get(Normalize(raw, alsLab, uuid).value, LecaRename[j].1) == Body(raw, j + 2)
  {
    Stages(raw, alsLab, uuid);
    var named := Named(raw).value;
    var n := LecaRename[j].1;
    RenameFacts(j);
    RenameMoves(named, j);
    Carry(named, alsLab, uuid, n);
    Output(raw, alsLab, uuid, n);
    var e := Enriched(named, alsLab, uuid).value;
    assert Get(Normalize(raw, alsLab, uuid).value, n) == Get(e, n);
    assert Get(e, n) == Get(named, LecaColumns[j + 2]);
    assert Get(named, LecaColumns[j + 2]) == Body(raw, j + 2);
  }

  /** Every row carries its own identifier and the tags "Custom" and the
      lab; a generator that never repeats itself gives distinct ids. */
  lemma NormalizeTags(raw: Table, alsLab: string, uuid: nat -> string)
    requires WellFormed(raw) && Normalize(raw, alsLab, uuid).Ok?
    ensures var out := Normalize(raw, alsLab, uuid).value;
      forall i :: 0 <= i < out.height ==>
        Get(out, IdColumn)[i] == Str(uuid(i)) &&
        Get(out, "system_source")[i] == Str("Custom") && Get(out, "als_lab")[i] == Str(alsLab)
    ensures (forall i, j :: 0 <= i < j ==> uuid(i) != uuid(j)) ==>
      Distinct(Get(Normalize(raw, alsLab, uuid).value, IdColumn))
  {
    Stages(raw, alsLab, uuid);
    EnrichedRows(Named(raw).value, alsLab, uuid);
    Output(raw, alsLab, uuid, IdColumn);
    Output(raw, alsLab, uuid, "system_source");
    Output(raw, alsLab, uuid, "als_lab");
  }

  /** Each row's date is the one `YearMonthCell` assembles from its Year
      and Month cells, so a month outside 1..12 is carried into the year. */
  lemma NormalizeDates(raw: Table, alsLab: string, uuid: nat -> string)
    requires WellFormed(raw) && Normalize(raw, alsLab, uuid).Ok?
    ensures Promote(raw).Ok? && |raw.columns| == 12
    ensures "year_month" in Labels(Normalize(raw, alsLab, uuid).value)
    ensures var out := Normalize(raw, alsLab, uuid).value;
      forall i :: 0 <= i < out.height ==>
        YearMonthCell(Body(raw, 0)[i], Body(raw, 1)[i]).Some? &&
        Get(out, "year_month")[i] == YearMonthCell(Body(raw, 0)[i], Body(raw, 1)[i]).value
  {
    Stages(raw, alsLab, uuid);
    KeptFacts();
    EnrichedRows(Named(raw).value, alsLab, uuid);
    Output(raw, alsLab, uuid, "year_month");
  }

  /** Each row's net sales is its invoice amount less its VAT; a missing
      operand gives a missing value, and text in either column raises. */
  lemma NormalizeNetSales(raw: Table, alsLab: string, uuid: nat -> string)
    requires WellFormed(raw) && Normalize(raw, alsLab, uuid).Ok?
    ensures Promote(raw).Ok? && |raw.columns| == 12
    ensures "net_sales" in Labels(Normalize(raw, alsLab, uuid).value)
    ensures var out := Normalize(raw, alsLab, uuid).value;
      forall i :: 0 <= i < out.height ==>
        !Body(raw, 10)[i].Str? && !Body(raw, 11)[i].Str? &&
        (Body(raw, 10)[i].Num? && Body(raw, 11)[i].Num? ==>
          Get(out, "net_sales")[i] == Num(Body(raw, 10)[i].amount - Body(raw, 11)[i].amount)) &&
        (!(Body(raw, 10)[i].Num? && Body(raw, 11)[i].Num?) ==> Get(out, "net_sales")[i] == Null)
  {
    Stages(raw, alsLab, uuid);
    KeptFacts();
    var named := Named(raw).value;
    EnrichedRows(named, alsLab, uuid);
    Output(raw, alsLab, uuid, "net_sales");
    var out := Normalize(raw, alsLab, uuid).value;
    assert Get(named, "Invoice Amount") == Body(raw, 10);
    assert Get(named, "Invoice VAT") == Body(raw, 11);
    forall i | 0 <= i < out.height
      ensures !Body(raw, 10)[i].Str? && !Body(raw, 11)[i].Str?
      ensures Body(raw, 10)[i].Num? && Body(raw, 11)[i].Num? ==>
        Get(out, "net_sales")[i] == Num(Body(raw, 10)[i].amount - Body(raw, 11)[i].amount)
      ensures !(Body(raw, 10)[i].Num? && Body(raw, 11)[i].Num?) ==> Get(out, "net_sales")[i] == Null
    {
      assert Get(out, "net_sales")[i] == SubCell(Body(raw, 10)[i], Body(raw, 11)[i]).value;
    }
  }

  /** The unit price is the net sales over the quantity, missing where
      either is missing or the quantity is zero. */
  lemma NormalizePrice(raw: Table, alsLab: string, uuid: nat -> string)
    requires WellFormed(raw) && Normalize(raw, alsLab, uuid).Ok?
    ensures var out := Normalize(raw, alsLab, uuid).value;
      "net_sales" in Labels(out) && "quantity" in Labels(out) && "net_unit_price" in Labels(out)
    ensures var out := Normalize(raw, alsLab, uuid).value;
      forall i :: 0 <= i < out.height ==>
        DivCell(Get(out, "net_sales")[i], Get(out, "quantity")[i]).Some? &&
        Get(out, "net_unit_price")[i] == DivCell(Get(out, "net_sales")[i], Get(out, "quantity")[i]).value
  {
    Stages(raw, alsLab, uuid);
    OutputFacts();
    var e := Enriched(Named(raw).value, alsLab, uuid).value;
    var selected := Select(e, LecaOutput).value;
    var out := Normalize(raw, alsLab, uuid).value;
    assert out == UnitPrice(selected, "net_unit_price").value;
    assert Get(out, "net_sales") == Get(selected, "net_sales");
    assert Get(out, "quantity") == Get(selected, "quantity");
  }

  /** The quantity column is the export's tenth. */
  lemma NormalizeQuantity(raw: Table, alsLab: string, uuid: nat -> string)
    requires WellFormed(raw) && Normalize(raw, alsLab, uuid).Ok?
    ensures Promote(raw).Ok? && |raw.columns| == 12
    ensures "quantity" in Labels(Normalize(raw, alsLab, uuid).value)
    ensures Get(Normalize(raw, alsLab, uuid).value, "quantity") == Body(raw, 9)
  {
    NormalizeCarries(raw, alsLab, uuid, 7);
    assert LecaRename[7].1 == "quantity";
  }

  /** On one row: the unit price is a number that, times the quantity,
      gives back the invoice amount less VAT. */
  predicate PriceRestoresNet(p: Value, q: Value, a: Value, v: Value)
  {
    p.Num? && q.Num? && a.Num? && v.Num? && p.amount * q.amount == a.amount - v.amount
  }

  /** Column by column: wherever the quantity is a non-zero number and the
      amount and VAT are numbers, the unit price restores the net amount. */
  predicate PricesRestoreNet(p: seq<Value>, q: seq<Value>, a: seq<Value>, v: seq<Value>)
  {
    forall i :: 0 <= i < |p| && i < |q| && i < |a| && i < |v| &&
                q[i].Num? && q[i].amount != 0.0 && a[i].Num? && v[i].Num? ==>
      PriceRestoresNet(p[i], q[i], a[i], v[i])
  }

  /** `p` is `ns` divided by `q`, cell by cell. */
  predicate DividedBy(ns: seq<Value>, q: seq<Value>, p: seq<Value>)
  {
    |ns| == |q| == |p| &&
    forall i :: 0 <= i < |p| ==> DivCell(ns[i], q[i]).Some? && p[i] == DivCell(ns[i], q[i]).value
  }

  /** `ns` is `a` less `v` wherever both are numbers. */
  predicate NetOf(ns: seq<Value>, a: seq<Value>, v: seq<Value>)
  {
    |ns| == |a| == |v| &&
    forall i :: 0 <= i < |ns| && a[i].Num? && v[i].Num? ==> ns[i] == Num(a[i].amount - v[i].amount)
  }

  /** Unit price times quantity gives back the amount less VAT, column
      by column. */
  lemma PriceColumn(ns: seq<Value>, q: seq<Value>, p: seq<Value>, a: seq<Value>, v: seq<Value>)
    requires DividedBy(ns, q, p) && NetOf(ns, a, v)
    ensures PricesRestoreNet(p, q, a, v)
  {
    forall i | 0 <= i < |p| && q[i].Num? && q[i].amount != 0.0 && a[i].Num? && v[i].Num?
      ensures PriceRestoresNet(p[i], q[i], a[i], v[i])
    {
      PriceOfCell(ns[i], q[i]);
    }
  }

  /** The output's net sales are the invoice amount less VAT. */
  lemma NormalizeNetOf(raw: Table, alsLab: string, uuid: nat -> string)
    requires WellFormed(raw) && Normalize(raw, alsLab, uuid).Ok?
    ensures Promote(raw).Ok? && |raw.columns| == 12
    ensures "net_sales" in Labels(Normalize(raw, alsLab, uuid).value)
    ensures NetOf(Get(Normalize(raw, alsLab, uuid).value, "net_sales"), Body(raw, 10), Body(raw, 11))
  {
    NormalizeNetSales(raw, alsLab, uuid);
    NormalizeQuantity(raw, alsLab, uuid);
  }

  /** The output's unit price is its net sales divided by the quantity. */
  lemma NormalizeDividedBy(raw: Table, alsLab: string, uuid: nat -> string)
    requires WellFormed(raw) && Normalize(raw, alsLab, uuid).Ok?
    ensures Promote(raw).Ok? && |raw.columns| == 12
    ensures var out := Normalize(raw, alsLab, uuid).value;
      "net_sales" in Labels(out) && "net_unit_price" in Labels(out) &&
      DividedBy(Get(out, "net_sales"), Body(raw, 9), Get(out, "net_unit_price"))
  {
    NormalizePrice(raw, alsLab, uuid);
    NormalizeQuantity(raw, alsLab, uuid);
  }

  /** Where the quantity is a non-zero number and the invoice amount and
      VAT are numbers, unit price times quantity gives back the invoice
      amount less VAT. */
  lemma NormalizePriceTimesQuantity(raw: Table, alsLab: string, uuid: nat -> string)
    requires WellFormed(raw) && Normalize(raw, alsLab, uuid).Ok?
    ensures Promote(raw).Ok? && |raw.columns| == 12
    ensures "net_unit_price" in Labels(Normalize(raw, alsLab, uuid).value)
    ensures Normalize(raw, alsLab, uuid).value.height == Promote(raw).value.height
    ensures PricesRestoreNet(Get(Normalize(raw, alsLab, uuid).value, "net_unit_price"), Body(raw, 9), Body(raw, 10), Body(raw, 11))
  {
    var out := Normalize(raw, alsLab, uuid).value;
    NormalizeNetOf(raw, alsLab, uuid);
    NormalizeDividedBy(raw, alsLab, uuid);
    PriceColumn(Get(out, "net_sales"), Body(raw, 9), Get(out, "net_unit_price"), Body(raw, 10), Body(raw, 11));
  }
}
