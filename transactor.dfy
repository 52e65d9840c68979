/** The two Transactor normalizers (utils/pre_process_function.py:280-393
    and 480-591): `preprocess_transactor` for the 15-column report and
    `prep_transactor_passion_dental_design` for Passion Dental Design's
    11-column one. Both check the column count, reconcile the detail rows
    against the "REPORT TOTALS:" row and drop it, fill gaps, cast the
    integer, text and float columns, add a row identifier, the first-of-month date and the
    source tags, strip the product codes, rename to the common vocabulary
    and keep the same 17 output columns in the same order. The two differ
    only in the data a `Layout` holds. */
module Transactor {
  import opened Wrappers
  import opened Text
  import opened Tables
  import opened Steps
  import SchemaRegistry

  const Unknown: Value := Str("Unknown")

  const IdColumn: string := "customer_product_cube_uuid"

  /** The columns every normalizer here adds to the report's own. */
  predicate IsAdded(d: string)
  {
    d == IdColumn || d == "year_month" || d == "system_source" || d == "als_lab"
  }

  /** The output columns of both normalizers, in order. */
  const CubeOutput: seq<string> := [
    "customer_product_cube_uuid", "year_month", "system_source", "als_lab",
    "ship_id", "ship_name", "ship_address", "customer_id", "customer_name",
    "product_code", "product_description", "original_lab_price_band",
    "net_unit_price", "discounted_unit_price", "quantity", "net_sales", "tax_sales"
  ]

  /** What tells the two layouts apart: the expected column count, the
      text columns filled with "Unknown", the ship and customer id
      columns (filled with 0 and cast to integers, respectively cast to
      integers), the columns cast to text and to float, the columns
      Passion adds as placeholders and the rename table. */
  datatype Layout = Layout(
    width: nat,
    texts: seq<string>,
    ship: string,
    cust: string,
    strs: seq<string>,
    floats: seq<string>,
    fillers: seq<string>,
    renames: seq<(string, string)>)

  const TransactorRename: seq<(string, string)> := [
    ("ShipID", "ship_id"),
    ("ShipFullName", "ship_name"),
    ("ShipAddress", "ship_address"),
    ("CustID", "customer_id"),
    ("CustFullName", "customer_name"),
    ("code", "product_code"),
    ("Description", "product_description"),
    ("PriceBand", "original_lab_price_band"),
    ("NetUnitPrice", "net_unit_price"),
    ("DiscountedUnitPrice", "discounted_unit_price"),
    ("Qty", "quantity"),
    ("Net_Sales", "net_sales"),
    ("Tax_Sales", "tax_sales")
  ]

  const PassionRename: seq<(string, string)> := [
    ("shipid", "ship_id"),
    ("shipfullname", "ship_name"),
    ("custID", "customer_id"),
    ("CustFullName", "customer_name"),
    ("code", "product_code"),
    ("Description", "product_description"),
    ("Qty", "quantity"),
    ("Net_Sales", "net_sales"),
    ("Tax_Sales", "tax_sales")
  ]

  /** The columns Passion's report lacks, added by the loop at lines
      549-553. */
  const PlaceholderColumns: seq<string> := ["ship_address", "original_lab_price_band", "net_unit_price", "discounted_unit_price"]

  /** `preprocess_transactor`'s layout (lines 290-390). */
  const TransactorLayout: Layout :=
    Layout(15, ["ShipFullName", "ShipAddress", "CustFullName"], "ShipID", "CustID",
      ["ShipFullName", "ShipAddress", "CustFullName", "code", "Description", "PriceBand"],
      ["NetUnitPrice", "DiscountedUnitPrice", "Qty", "Net_Sales", "Tax_Sales"],
      [], TransactorRename)

  /** `prep_transactor_passion_dental_design`'s layout (lines 490-588). */
  const PassionLayout: Layout :=
    Layout(11, ["shipfullname", "custID", "CustFullName"], "shipid", "custID",
      ["shipfullname", "CustFullName", "code", "Description"],
      ["Qty", "Net_Sales", "Tax_Sales"],
      PlaceholderColumns, PassionRename)

  // ---------------------------------------------------------------------
  // Column count and reconciliation (lines 290-307, 490-506)

  /** The report's detail rows: the column count must be the layout's, the
      totals must reconcile, and the totals rows are removed. */
  function Reconciled(raw: Table, width: nat): (r: Result<Table, Error>)
    requires WellFormed(raw)
    ensures r.Err? && r.error.ColumnCount? <==> |raw.columns| != width
    ensures |raw.columns| != width ==> r == Err(ColumnCount(width, |raw.columns|))
    ensures r.Ok? ==> CheckTotals(raw, TotalsColumns).Ok? && RemoveTotalsRows(raw) == r
  {
    if |raw.columns| != width then Err(ColumnCount(width, |raw.columns|))
    else
      var ok :- CheckTotals(raw, TotalsColumns);
      RemoveTotalsRows(raw)
  }

  // ---------------------------------------------------------------------
  // Gaps and casts (lines 309-330, 508-525)

  /** `df[c] = df[c].fillna("Unknown")` for each listed column in turn. */
  function FillUnknown(t: Table, cols: seq<string>): (r: Result<Table, Error>)
    requires WellFormed(t)
    ensures r.Ok? <==> forall c :: c in cols ==> c in Labels(t)
    ensures r.Err? ==> r.error.MissingColumn?
    ensures r.Ok? ==> WellFormed(r.value) && r.value.height == t.height && Labels(r.value) == Labels(t)
    ensures r.Ok? ==> forall c :: c in cols ==> forall i :: 0 <= i < t.height ==> Get(r.value, c)[i] == Filled(Get(t, c)[i], Unknown)
    ensures r.Ok? ==> forall d :: d in Labels(t) && d !in cols ==> Get(r.value, d) == Get(t, d)
    decreases |cols|
  {
    if cols == [] then Ok(t)
    else
      var a :- FillMissing(t, cols[0], Unknown);
      var r := FillUnknown(a, cols[1..]);
      assert r.Ok? ==> forall c :: c in cols ==> forall i :: 0 <= i < t.height ==> Get(r.value, c)[i] == Filled(Get(t, c)[i], Unknown) by {
        if r.Ok? {
          forall c, i | c in cols && 0 <= i < t.height
            ensures Get(r.value, c)[i] == Filled(Get(t, c)[i], Unknown)
          {
            if c != cols[0] {
              assert c in cols[1..];
            } else if c in cols[1..] {
              assert Get(r.value, c)[i] == Filled(Get(a, c)[i], Unknown);
            }
          }
        }
      }
      r
  }

  /** The fills (lines 309-313, 508-512): the text columns get "Unknown"
      and the ship id 0. */
  function Fill(t: Table, layout: Layout): (r: Result<Table, Error>)
    requires WellFormed(t)
    ensures r.Err? ==> r.error.MissingColumn?
    ensures r.Ok? ==> WellFormed(r.value) && r.value.height == t.height && Labels(r.value) == Labels(t)
  {
    var a :- FillUnknown(t, layout.texts);
    FillMissing(a, layout.ship, Num(0.0))
  }

  /** The integer casts (lines 316-321, 515-519): Year, Month, the ship id
      and the customer id, in that order. */
  function Cast(t: Table, layout: Layout): (r: Result<Table, Error>)
    requires WellFormed(t)
    ensures r.Err? ==> r.error.MissingColumn? || r.error.NotInteger?
    ensures r.Ok? ==> WellFormed(r.value) && r.value.height == t.height && Labels(r.value) == Labels(t)
  {
    var c :- AsInt(t, "Year");
    var d :- AsInt(c, "Month");
    var e :- AsInt(d, layout.ship);
    AsInt(e, layout.cust)
  }

  /** The fills and the integer casts. */
  function Integral(t: Table, layout: Layout): (r: Result<Table, Error>)
    requires WellFormed(t)
    ensures r.Err? ==> r.error.MissingColumn? || r.error.NotInteger?
    ensures r.Ok? ==> WellFormed(r.value) && r.value.height == t.height && Labels(r.value) == Labels(t)
  {
    var filled :- Fill(t, layout);
    Cast(filled, layout)
  }

  /** The fills and every cast (lines 309-330, 508-525). The source
      interleaves the integer and text casts and ends with the float
      casts; here all integer casts come before the text casts. Both
      orders raise the same first error: a text cast fails only on a
      missing column, and the text columns the source casts before the
      customer id were filled just before, so they are there. */
  function Clean(t: Table, layout: Layout, show: Value -> string): (r: Result<Table, Error>)
    requires WellFormed(t)
    ensures r.Err? ==> r.error.MissingColumn? || r.error.NotInteger? || r.error.NotFloat?
    ensures r.Ok? ==> WellFormed(r.value) && r.value.height == t.height && Labels(r.value) == Labels(t)
  {
    var ints :- Integral(t, layout);
    var texts :- AsTexts(ints, layout.strs, show);
    AsFloats(texts, layout.floats)
  }

  /** The roles a layout gives its columns are held by different columns,
      and none of them is Year, Month or the product code unless that is
      its role; the product code and every filled text column but the
      customer id are cast to text. */
  predicate Apart(layout: Layout)
  {
    RolesApart(layout) && CastsApart(layout)
  }

  predicate RolesApart(layout: Layout)
  {
    layout.ship !in layout.texts && layout.ship != layout.cust &&
    layout.ship != "Year" && layout.ship != "Month" && layout.ship != "code" &&
    layout.cust != "Year" && layout.cust != "Month" && layout.cust != "code" &&
    "Year" !in layout.texts && "Month" !in layout.texts && "code" !in layout.texts
  }

  predicate CastsApart(layout: Layout)
  {
    "code" in layout.strs &&
    (forall c :: c in layout.strs ==>
      c != layout.ship && c != layout.cust && c != "Year" && c != "Month" && c !in layout.floats) &&
    (forall c :: c in layout.floats ==>
      c !in layout.texts && c != layout.ship && c != layout.cust && c != "Year" && c != "Month") &&
    (forall c :: c in layout.texts && c != layout.cust ==> c in layout.strs)
  }

  /** A whole number, as `astype(int)` leaves every cell. */
  predicate IsInteger(v: Value)
  {
    v.Num? && IsWhole(v.amount)
  }

  lemma TruncateIsWhole(x: real)
    ensures IsWhole(Truncate(x) as real)
  {
  }

  /** The fills leave no gap in the text columns and put 0 in a missing
      ship id; the other columns are untouched. */
  lemma FillCells(t: Table, layout: Layout)
    requires WellFormed(t) && Fill(t, layout).Ok? && layout.ship !in layout.texts
    ensures forall c :: c in layout.texts ==> c in Labels(t)
    ensures layout.ship in Labels(t)
    ensures forall c, i :: c in layout.texts && 0 <= i < t.height ==>
      Get(Fill(t, layout).value, c)[i] == Filled(Get(t, c)[i], Unknown)
    ensures forall i :: 0 <= i < t.height ==> Get(Fill(t, layout).value, layout.ship)[i] == Filled(Get(t, layout.ship)[i], Num(0.0))
    ensures forall d :: d in Labels(t) && d !in layout.texts && d != layout.ship ==> Get(Fill(t, layout).value, d) == Get(t, d)
  {
  }

  /** After the casts, Year, Month and both ids are whole numbers, which
      needs every one of them to have been a number; the other columns are
      untouched. */
  lemma CastCells(t: Table, layout: Layout)
    requires WellFormed(t) && Cast(t, layout).Ok?
    requires layout.ship != "Year" && layout.ship != "Month" && layout.cust != "Year" && layout.cust != "Month"
    requires layout.ship != layout.cust
    ensures "Year" in Labels(t) && "Month" in Labels(t) && layout.ship in Labels(t) && layout.cust in Labels(t)
    ensures forall i :: 0 <= i < t.height ==>
      Get(t, "Year")[i].Num? && Get(t, "Month")[i].Num? && Get(t, layout.ship)[i].Num? && Get(t, layout.cust)[i].Num?
    ensures forall i :: 0 <= i < t.height ==>
      IsInteger(Get(Cast(t, layout).value, "Year")[i]) && IsInteger(Get(Cast(t, layout).value, "Month")[i]) &&
      IsInteger(Get(Cast(t, layout).value, layout.ship)[i]) && IsInteger(Get(Cast(t, layout).value, layout.cust)[i])
    ensures forall i :: 0 <= i < t.height ==>
      Get(Cast(t, layout).value, "Year")[i] == Num(Truncate(Get(t, "Year")[i].amount) as real) &&
      Get(Cast(t, layout).value, "Month")[i] == Num(Truncate(Get(t, "Month")[i].amount) as real)
    ensures forall i :: 0 <= i < t.height ==>
      Get(Cast(t, layout).value, layout.ship)[i] == Num(Truncate(Get(t, layout.ship)[i].amount) as real) &&
      Get(Cast(t, layout).value, layout.cust)[i] == Num(Truncate(Get(t, layout.cust)[i].amount) as real)
    ensures forall d :: d in Labels(t) && d != layout.ship && d != layout.cust && d != "Year" && d != "Month" ==>
      Get(Cast(t, layout).value, d) == Get(t, d)
  {
    CastValues(t, layout);
    var r := Cast(t, layout).value;
    forall i | 0 <= i < t.height
      ensures IsInteger(Get(r, "Year")[i]) && IsInteger(Get(r, "Month")[i])
      ensures IsInteger(Get(r, layout.ship)[i]) && IsInteger(Get(r, layout.cust)[i])
    {
      TruncateIsWhole(Get(t, "Year")[i].amount);
      TruncateIsWhole(Get(t, "Month")[i].amount);
      TruncateIsWhole(Get(t, layout.ship)[i].amount);
      TruncateIsWhole(Get(t, layout.cust)[i].amount);
    }
  }

  /** The four casts, one after the other, each truncate their column's
      numbers and leave the others alone. */
  lemma CastValues(t: Table, layout: Layout)
    requires WellFormed(t) && Cast(t, layout).Ok?
    requires layout.ship != "Year" && layout.ship != "Month" && layout.cust != "Year" && layout.cust != "Month"
    requires layout.ship != layout.cust
    ensures "Year" in Labels(t) && "Month" in Labels(t) && layout.ship in Labels(t) && layout.cust in Labels(t)
    ensures forall i :: 0 <= i < t.height ==>
      Get(t, "Year")[i].Num? && Get(t, "Month")[i].Num? && Get(t, layout.ship)[i].Num? && Get(t, layout.cust)[i].Num?
    ensures forall i :: 0 <= i < t.height ==>
      Get(Cast(t, layout).value, "Year")[i] == Num(Truncate(Get(t, "Year")[i].amount) as real) &&
      Get(Cast(t, layout).value, "Month")[i] == Num(Truncate(Get(t, "Month")[i].amount) as real)
    ensures forall i :: 0 <= i < t.height ==>
      Get(Cast(t, layout).value, layout.ship)[i] == Num(Truncate(Get(t, layout.ship)[i].amount) as real) &&
      Get(Cast(t, layout).value, layout.cust)[i] == Num(Truncate(Get(t, layout.cust)[i].amount) as real)
    ensures forall d :: d in Labels(t) && d != layout.ship && d != layout.cust && d != "Year" && d != "Month" ==>
      Get(Cast(t, layout).value, d) == Get(t, d)
  {
    assert "Year" != "Month";
    var c := AsInt(t, "Year").value;
    var d := AsInt(c, "Month").value;
    var e := AsInt(d, layout.ship).value;
    var r := AsInt(e, layout.cust).value;
    assert Cast(t, layout).value == r;
    assert Get(r, "Year") == Get(e, "Year") == Get(d, "Year") == Get(c, "Year");
    assert Get(r, "Month") == Get(e, "Month") == Get(d, "Month");
    assert Get(r, layout.ship) == Get(e, layout.ship);
    assert Get(d, layout.ship) == Get(t, layout.ship) && Get(e, layout.cust) == Get(t, layout.cust);
    assert Get(c, "Month") == Get(t, "Month");
  }

  /** Every customer id of the report was already a number: a blank one
      raises, even where the layout fills it with "Unknown" first (Passion,
      lines 509 and 518). */
  lemma CustomerIdsWereNumbers(t: Table, layout: Layout)
    requires WellFormed(t) && Integral(t, layout).Ok?
    requires layout.ship !in layout.texts && layout.ship != layout.cust
    requires layout.ship != "Year" && layout.ship != "Month" && layout.cust != "Year" && layout.cust != "Month"
    ensures layout.cust in Labels(t)
    ensures forall i :: 0 <= i < t.height ==> Get(t, layout.cust)[i].Num?
  {
    var filled := Fill(t, layout).value;
    assert Cast(filled, layout).Ok?;
    FillCells(t, layout);
    CastCells(filled, layout);
    forall i | 0 <= i < t.height ensures Get(t, layout.cust)[i].Num? {
      assert Get(filled, layout.cust)[i].Num?;
      if layout.cust !in layout.texts {
        assert Get(filled, layout.cust)[i] == Get(t, layout.cust)[i];
      } else {
        var v := Get(t, layout.cust)[i];
        assert Get(filled, layout.cust)[i] == Filled(v, Unknown);
        assert !v.Null?;
      }
    }
  }

  /** The integer stage's numbers: Year, Month and the customer id were
      numbers and are truncated; a missing ship id becomes 0 before its
      truncation. */
  lemma IntegralNumbers(t: Table, layout: Layout)
    requires WellFormed(t) && Integral(t, layout).Ok? && Apart(layout)
    ensures "Year" in Labels(t) && "Month" in Labels(t) && layout.ship in Labels(t) && layout.cust in Labels(t)
    ensures forall i :: 0 <= i < t.height ==>
      Get(t, "Year")[i].Num? && Get(t, "Month")[i].Num? && Get(t, layout.cust)[i].Num? &&
      Get(Integral(t, layout).value, "Year")[i] == Num(Truncate(Get(t, "Year")[i].amount) as real) &&
      Get(Integral(t, layout).value, "Month")[i] == Num(Truncate(Get(t, "Month")[i].amount) as real) &&
      Get(Integral(t, layout).value, layout.cust)[i] == Num(Truncate(Get(t, layout.cust)[i].amount) as real)
    ensures forall i :: 0 <= i < t.height ==>
      Filled(Get(t, layout.ship)[i], Num(0.0)).Num? &&
      Get(Integral(t, layout).value, layout.ship)[i] == Num(Truncate(Filled(Get(t, layout.ship)[i], Num(0.0)).amount) as real)
  {
    var filled := Fill(t, layout).value;
    assert Cast(filled, layout).Ok?;
    FillCells(t, layout);
    CastCells(filled, layout);
    CustomerIdsWereNumbers(t, layout);
    forall i | 0 <= i < t.height
      ensures Get(filled, layout.cust)[i] == Get(t, layout.cust)[i]
    {
      if layout.cust in layout.texts {
        assert Get(filled, layout.cust)[i] == Filled(Get(t, layout.cust)[i], Unknown);
      }
    }
  }

  /** The integer stage's text columns: a gap becomes "Unknown" (the
      customer id, which is also cast, aside). */
  lemma IntegralTexts(t: Table, layout: Layout)
    requires WellFormed(t) && Integral(t, layout).Ok? && Apart(layout)
    ensures forall c :: c in layout.texts ==> c in Labels(t)
    ensures forall c, i :: c in layout.texts && c != layout.cust && 0 <= i < t.height ==>
      Get(Integral(t, layout).value, c)[i] == Filled(Get(t, c)[i], Unknown)
  {
    var filled := Fill(t, layout).value;
    assert Cast(filled, layout).Ok?;
    FillCells(t, layout);
    CastCells(filled, layout);
  }

  /** The integer stage keeps every column it has no role for. */
  lemma IntegralKeeps(t: Table, layout: Layout)
    requires WellFormed(t) && Integral(t, layout).Ok? && Apart(layout)
    ensures forall d :: d in Labels(t) && d !in layout.texts && d != layout.ship && d != layout.cust && d != "Year" && d != "Month" ==>
      Get(Integral(t, layout).value, d) == Get(t, d)
  {
    var filled := Fill(t, layout).value;
    assert Cast(filled, layout).Ok?;
    FillCells(t, layout);
    CastCells(filled, layout);
  }

  /** The text and float casts, which follow the integer stage: a text
      column holds its values as text, a float column is unchanged and
      held only numbers and gaps, and the rest is kept. */
  lemma ConvertCells(t: Table, layout: Layout, show: Value -> string)
    requires WellFormed(t) && Clean(t, layout, show).Ok? && Apart(layout)
    ensures Integral(t, layout).Ok?
    ensures forall c :: c in layout.strs ==> c in Labels(t)
    ensures forall c, i :: c in layout.strs && 0 <= i < t.height ==>
      Get(Clean(t, layout, show).value, c)[i] == TextCell(Get(Integral(t, layout).value, c)[i], show)
    ensures forall c :: c in layout.floats ==> c in Labels(t) && Floats(Integral(t, layout).value, c)
    ensures forall d :: d in Labels(t) && d !in layout.strs ==> Get(Clean(t, layout, show).value, d) == Get(Integral(t, layout).value, d)
  {
    var ints := Integral(t, layout).value;
    var texts := AsTexts(ints, layout.strs, show).value;
    assert Clean(t, layout, show) == AsFloats(texts, layout.floats);
    forall c | c in layout.floats ensures Floats(ints, c) {
      assert Get(texts, c) == Get(ints, c);
    }
  }

  /** Cleaning's numbers: Year, Month and the customer id were numbers and
      are truncated; a missing ship id becomes 0 before its truncation. */
  lemma CleanNumbers(t: Table, layout: Layout, show: Value -> string)
    requires WellFormed(t) && Clean(t, layout, show).Ok? && Apart(layout)
    ensures "Year" in Labels(t) && "Month" in Labels(t) && layout.ship in Labels(t) && layout.cust in Labels(t)
    ensures forall i :: 0 <= i < t.height ==>
      Get(t, "Year")[i].Num? && Get(t, "Month")[i].Num? && Get(t, layout.cust)[i].Num? &&
      Get(Clean(t, layout, show).value, "Year")[i] == Num(Truncate(Get(t, "Year")[i].amount) as real) &&
      Get(Clean(t, layout, show).value, "Month")[i] == Num(Truncate(Get(t, "Month")[i].amount) as real) &&
      Get(Clean(t, layout, show).value, layout.cust)[i] == Num(Truncate(Get(t, layout.cust)[i].amount) as real)
    ensures forall i :: 0 <= i < t.height ==>
      Filled(Get(t, layout.ship)[i], Num(0.0)).Num? &&
      Get(Clean(t, layout, show).value, layout.ship)[i] == Num(Truncate(Filled(Get(t, layout.ship)[i], Num(0.0)).amount) as real)
  {
    ConvertCells(t, layout, show);
    IntegralNumbers(t, layout);
  }

  /** Cleaning's filled text columns (the customer id, which is cast to an
      integer, aside): a gap becomes "Unknown", and the cell is then
      written as text. */
  lemma CleanTexts(t: Table, layout: Layout, show: Value -> string)
    requires WellFormed(t) && Clean(t, layout, show).Ok? && Apart(layout)
    ensures forall c :: c in layout.texts ==> c in Labels(t)
    ensures forall c, i :: c in layout.texts && c != layout.cust && 0 <= i < t.height ==>
      Get(Clean(t, layout, show).value, c)[i] == TextCell(Filled(Get(t, c)[i], Unknown), show)
  {
    ConvertCells(t, layout, show);
    IntegralTexts(t, layout);
  }

  /** Cleaning's other text columns hold the report's cells written as
      text: a gap becomes "nan". */
  lemma CleanStrs(t: Table, layout: Layout, show: Value -> string)
    requires WellFormed(t) && Clean(t, layout, show).Ok? && Apart(layout)
    ensures forall c :: c in layout.strs ==> c in Labels(t)
    ensures forall c, i :: c in layout.strs && c !in layout.texts && 0 <= i < t.height ==>
      Get(Clean(t, layout, show).value, c)[i] == TextCell(Get(t, c)[i], show)
  {
    ConvertCells(t, layout, show);
    IntegralKeeps(t, layout);
  }

  /** Cleaning's float columns held only numbers and gaps, and are kept. */
  lemma CleanFloats(t: Table, layout: Layout, show: Value -> string)
    requires WellFormed(t) && Clean(t, layout, show).Ok? && Apart(layout)
    ensures forall c :: c in layout.floats ==> c in Labels(t) && Floats(t, c) && Get(Clean(t, layout, show).value, c) == Get(t, c)
  {
    ConvertCells(t, layout, show);
    IntegralKeeps(t, layout);
    var ints := Integral(t, layout).value;
    forall c | c in layout.floats ensures Floats(t, c) {
      assert Get(ints, c) == Get(t, c);
    }
  }

  /** Cleaning keeps every column it has no role for. */
  lemma CleanKeeps(t: Table, layout: Layout, show: Value -> string)
    requires WellFormed(t) && Clean(t, layout, show).Ok? && Apart(layout)
    ensures forall d :: d in Labels(t) && d !in layout.texts && d !in layout.strs && d != layout.ship && d != layout.cust && d != "Year" && d != "Month" ==>
      Get(Clean(t, layout, show).value, d) == Get(t, d)
  {
    ConvertCells(t, layout, show);
    IntegralKeeps(t, layout);
  }

  // ---------------------------------------------------------------------
  // Identifier, date, tags, dropped Year/Month, stripped codes
  // (lines 332-350, 521-547)

  /** The columns `y` and `m` removed and the column `code` stripped; the
      normalizers drop Year and Month and strip "code". */
  function Trim(t: Table, y: string, m: string, code: string): (r: Result<Table, Error>)
    requires WellFormed(t) && code != y && code != m
    ensures r.Err? ==> r.error.MissingColumn?
    ensures r.Ok? ==> WellFormed(r.value) && r.value.height == t.height
    ensures r.Ok? ==> y in Labels(t) && m in Labels(t) && code in Labels(t)
    ensures r.Ok? ==> forall d :: d in Labels(r.value) <==> d in Labels(t) && d != y && d != m
    ensures r.Ok? ==> forall i :: 0 <= i < t.height ==> Get(r.value, code)[i] == StripCell(Get(t, code)[i])
    ensures r.Ok? ==> forall d :: d in Labels(t) && d != y && d != m && d != code ==> Get(r.value, d) == Get(t, d)
  {
    DropTwo(t, y, m);
    var dropped :- Drop(t, [y, m]);
    StripColumn(dropped, code)
  }

  function Stamp(t: Table, alsLab: string, uuid: nat -> string): (r: Result<Table, Error>)
    requires WellFormed(t)
    ensures r.Err? ==> r.error.MissingColumn? || r.error == InvalidYearMonth
    ensures r.Ok? ==> WellFormed(r.value) && r.value.height == t.height
    ensures r.Ok? ==> IdColumn in Labels(r.value) && "year_month" in Labels(r.value)
    ensures r.Ok? ==> "system_source" in Labels(r.value) && "als_lab" in Labels(r.value)
  {
    var ided := AddIds(t, IdColumn, uuid);
    var dated :- YearMonth(ided);
    var tagged := Tag(dated, "Transactor", alsLab);
    assert IdColumn in Labels(ided);
    assert IdColumn in Labels(dated) && "year_month" in Labels(dated);
    assert IdColumn in Labels(tagged) && "year_month" in Labels(tagged);
    assert IdColumn != "Year" && IdColumn != "Month";
    assert "year_month" != "Year" && "year_month" != "Month";
    assert "system_source" != "Year" && "system_source" != "Month";
    assert "als_lab" != "Year" && "als_lab" != "Month";
    Trim(tagged, "Year", "Month", "code")
  }

  /** The stamped table has the report's columns, less Year and Month,
      plus the identifier, the date and the two tags. */
  lemma StampLabels(t: Table, alsLab: string, uuid: nat -> string)
    requires WellFormed(t) && Stamp(t, alsLab, uuid).Ok?
    ensures "Year" in Labels(t) && "Month" in Labels(t) && "code" in Labels(t)
    ensures forall d :: d in Labels(Stamp(t, alsLab, uuid).value) <==> (d in Labels(t) || IsAdded(d)) && d != "Year" && d != "Month"
  {
    var ided := AddIds(t, IdColumn, uuid);
    var dated := YearMonth(ided).value;
    var tagged := Tag(dated, "Transactor", alsLab);
    assert "Year" in Labels(ided) && "Month" in Labels(ided);
    assert "code" in Labels(tagged);
    assert "code" != "system_source" && "code" != "als_lab" && "code" != "year_month";
    assert "code" in Labels(dated);
    assert "code" in Labels(ided);
    forall d
      ensures d in Labels(Stamp(t, alsLab, uuid).value) <==> (d in Labels(t) || IsAdded(d)) && d != "Year" && d != "Month"
    {
      StampLabelAt(t, alsLab, uuid, d);
    }
  }

  lemma StampLabelAt(t: Table, alsLab: string, uuid: nat -> string, d: string)
    requires WellFormed(t) && Stamp(t, alsLab, uuid).Ok?
    ensures d in Labels(Stamp(t, alsLab, uuid).value) <==> (d in Labels(t) || IsAdded(d)) && d != "Year" && d != "Month"
  {
    var ided := AddIds(t, IdColumn, uuid);
    assert d in Labels(ided) <==> d in Labels(t) || d == IdColumn;
    var dated := YearMonth(ided).value;
    assert d in Labels(dated) <==> d in Labels(ided) || d == "year_month";
    var tagged := Tag(dated, "Transactor", alsLab);
    var r := Trim(tagged, "Year", "Month", "code").value;
    assert Stamp(t, alsLab, uuid).value == r;
  }

  /** Every row gets its identifier and the two tags. */
  lemma StampTags(t: Table, alsLab: string, uuid: nat -> string)
    requires WellFormed(t) && Stamp(t, alsLab, uuid).Ok?
    ensures forall i :: 0 <= i < t.height ==>
      Get(Stamp(t, alsLab, uuid).value, IdColumn)[i] == Str(uuid(i)) &&
      Get(Stamp(t, alsLab, uuid).value, "system_source")[i] == Str("Transactor") &&
      Get(Stamp(t, alsLab, uuid).value, "als_lab")[i] == Str(alsLab)
  {
    var ided := AddIds(t, IdColumn, uuid);
    var dated := YearMonth(ided).value;
    var tagged := Tag(dated, "Transactor", alsLab);
    var r := Trim(tagged, "Year", "Month", "code").value;
    assert Stamp(t, alsLab, uuid).value == r;
    assert IdColumn != "year_month" && IdColumn != "system_source" && IdColumn != "als_lab";
    assert IdColumn != "Year" && IdColumn != "Month" && IdColumn != "code";
    assert "system_source" != "Year" && "system_source" != "Month" && "system_source" != "code";
    assert "als_lab" != "Year" && "als_lab" != "Month" && "als_lab" != "code";
    assert IdColumn in Labels(dated) && Get(dated, IdColumn) == Get(ided, IdColumn);
    assert Get(tagged, IdColumn) == Get(dated, IdColumn);
    assert Get(r, IdColumn) == Get(tagged, IdColumn);
    assert Get(r, "system_source") == Get(tagged, "system_source");
    assert Get(r, "als_lab") == Get(tagged, "als_lab");
  }

  /** Every row gets the date assembled from its Year and Month. */
  lemma StampDates(t: Table, alsLab: string, uuid: nat -> string)
    requires WellFormed(t) && Stamp(t, alsLab, uuid).Ok?
    ensures "Year" in Labels(t) && "Month" in Labels(t)
    ensures forall i :: 0 <= i < t.height ==>
      YearMonthCell(Get(t, "Year")[i], Get(t, "Month")[i]) == Some(Get(Stamp(t, alsLab, uuid).value, "year_month")[i])
  {
    StampLabels(t, alsLab, uuid);
    var ided := AddIds(t, IdColumn, uuid);
    var dated := YearMonth(ided).value;
    var tagged := Tag(dated, "Transactor", alsLab);
    var r := Trim(tagged, "Year", "Month", "code").value;
    assert Stamp(t, alsLab, uuid).value == r;
    assert IdColumn != "Year" && IdColumn != "Month";
    assert "year_month" != "system_source" && "year_month" != "als_lab";
    assert "year_month" != "Year" && "year_month" != "Month" && "year_month" != "code";
    assert Get(ided, "Year") == Get(t, "Year") && Get(ided, "Month") == Get(t, "Month");
    assert "year_month" in Labels(dated);
    assert Get(tagged, "year_month") == Get(dated, "year_month");
    assert Get(r, "year_month") == Get(tagged, "year_month");
  }

  /** The product codes are stripped and the report's other columns are
      kept. */
  lemma StampKeeps(t: Table, alsLab: string, uuid: nat -> string)
    requires WellFormed(t) && Stamp(t, alsLab, uuid).Ok?
    ensures "code" in Labels(t) && "code" in Labels(Stamp(t, alsLab, uuid).value)
    ensures forall i :: 0 <= i < t.height ==> Get(Stamp(t, alsLab, uuid).value, "code")[i] == StripCell(Get(t, "code")[i])
    ensures forall d :: d in Labels(t) && !IsAdded(d) && d != "Year" && d != "Month" && d != "code" ==>
      d in Labels(Stamp(t, alsLab, uuid).value) && Get(Stamp(t, alsLab, uuid).value, d) == Get(t, d)
  {
    StampLabels(t, alsLab, uuid);
    var ided := AddIds(t, IdColumn, uuid);
    var dated := YearMonth(ided).value;
    var tagged := Tag(dated, "Transactor", alsLab);
    var r := Trim(tagged, "Year", "Month", "code").value;
    assert Stamp(t, alsLab, uuid).value == r;
    assert "code" != "system_source" && "code" != "als_lab" && "code" != "year_month" && "code" != IdColumn;
    assert Get(tagged, "code") == Get(t, "code");
    forall d | d in Labels(t) && !IsAdded(d) && d != "Year" && d != "Month" && d != "code"
      ensures Get(r, d) == Get(t, d)
    {
      assert Get(ided, d) == Get(t, d);
      assert Get(dated, d) == Get(ided, d);
      assert Get(tagged, d) == Get(dated, d);
    }
  }

  // ---------------------------------------------------------------------
  // Passion's placeholder columns (lines 549-553)

  /** What the loop assigns to a column: "Unknown" to the address and the
      price band, NaN to the two unit prices, nothing to any other. */
  function Placeholder(col: string): Option<Value>
  {
    if col in ["ship_address", "original_lab_price_band"] then Some(Unknown)
    else if col in ["net_unit_price", "discounted_unit_price"] then Some(Null)
    else None
  }

  /** The loop's effect over `cols`, one column after the other. */
  function Placeholders(t: Table, cols: seq<string>): (r: Table)
    requires WellFormed(t)
    ensures WellFormed(r) && r.height == t.height
    ensures forall d :: d in Labels(r) <==> d in Labels(t) || (d in cols && Placeholder(d).Some?)
    ensures forall d :: d in Labels(t) && (d !in cols || Placeholder(d).None?) ==> Get(r, d) == Get(t, d)
    ensures forall d, i :: d in cols && Placeholder(d).Some? && 0 <= i < t.height ==> Get(r, d)[i] == Placeholder(d).value
    decreases |cols|
  {
    if cols == [] then t
    else
      var next := match Placeholder(cols[0]) { case None => t case Some(v) => SetConstant(t, cols[0], v) };
      var r := Placeholders(next, cols[1..]);
      PlaceholdersStep(t, cols, next, r);
      r
  }

  /** One column of `Placeholders`: what the rest of the columns do to
      `next` is what all of them do to `t`. */
  lemma PlaceholdersStep(t: Table, cols: seq<string>, next: Table, r: Table)
    requires WellFormed(t) && cols != []
    requires next == match Placeholder(cols[0]) { case None => t case Some(v) => SetConstant(t, cols[0], v) }
    requires WellFormed(next) && WellFormed(r) && r.height == next.height
    requires forall d :: d in Labels(r) <==> d in Labels(next) || (d in cols[1..] && Placeholder(d).Some?)
    requires forall d :: d in Labels(next) && (d !in cols[1..] || Placeholder(d).None?) ==> Get(r, d) == Get(next, d)
    requires forall d, i :: d in cols[1..] && Placeholder(d).Some? && 0 <= i < next.height ==> Get(r, d)[i] == Placeholder(d).value
    ensures r.height == t.height
    ensures forall d :: d in Labels(r) <==> d in Labels(t) || (d in cols && Placeholder(d).Some?)
    ensures forall d :: d in Labels(t) && (d !in cols || Placeholder(d).None?) ==> Get(r, d) == Get(t, d)
    ensures forall d, i :: d in cols && Placeholder(d).Some? && 0 <= i < t.height ==> Get(r, d)[i] == Placeholder(d).value
  {
    assert forall d :: d in cols <==> d == cols[0] || d in cols[1..];
    match Placeholder(cols[0])
    case None =>
    case Some(v) =>
      forall d ensures d in Labels(next) <==> d in Labels(t) || d == cols[0] {
        ConstantLabel(t, cols[0], v, d);
      }
  }

  /** The loop itself. */
  method AddPlaceholders(t: Table, cols: seq<string>) returns (r: Table)
    requires WellFormed(t)
    ensures r == Placeholders(t, cols)
  {
    r := t;
    for k := 0 to |cols|
      invariant WellFormed(r)
      invariant Placeholders(r, cols[k..]) == Placeholders(t, cols)
    {
      var col := cols[k];
      if col in ["ship_address", "original_lab_price_band"] {
        r := SetConstant(r, col, Unknown);
      } else if col in ["net_unit_price", "discounted_unit_price"] {
        r := SetConstant(r, col, Null);
      }
      assert cols[k..][1..] == cols[k + 1..];
    }
  }

  // ---------------------------------------------------------------------
  // The whole normalizer

  /** The placeholders, the rename and the final column selection. */
  function Finish(t: Table, layout: Layout): (r: Result<Table, Error>)
    requires WellFormed(t)
    ensures r.Err? ==> r.error.MissingColumn?
    ensures r.Ok? ==> WellFormed(r.value) && r.value.height == t.height && Labels(r.value) == CubeOutput
  {
    Select(Rename(Placeholders(t, layout.fillers), layout.renames), CubeOutput)
  }

  /** The output column `n` that the rename makes of the stamped column
      `c` holds that column's values. */
  lemma FinishCarries(t: Table, layout: Layout, j: nat)
    requires WellFormed(t) && Finish(t, layout).Ok?
    requires OneToOne(layout.renames) && j < |layout.renames| && layout.renames[j].1 in CubeOutput
    requires layout.renames[j].0 in Labels(t) && layout.renames[j].0 !in layout.fillers
    requires layout.renames[j].1 !in Labels(t) && layout.renames[j].1 !in layout.fillers
    ensures Get(Finish(t, layout).value, layout.renames[j].1) == Get(t, layout.renames[j].0)
  {
    RenamePair(Placeholders(t, layout.fillers), layout.renames, j);
  }

  /** An output column that no rename touches and no placeholder sets is
      the stamped table's own. */
  lemma FinishKeeps(t: Table, layout: Layout, c: string)
    requires WellFormed(t) && Finish(t, layout).Ok? && c in CubeOutput
    requires c in Labels(t) && c !in layout.fillers
    requires forall j :: 0 <= j < |layout.renames| ==> layout.renames[j].0 != c && layout.renames[j].1 != c
    ensures Get(Finish(t, layout).value, c) == Get(t, c)
  {
    RenameUntouched(Placeholders(t, layout.fillers), layout.renames, c);
  }

  /** A placeholder column that no rename touches holds its placeholder in
      every row. */
  lemma FinishPlaces(t: Table, layout: Layout, c: string)
    requires WellFormed(t) && Finish(t, layout).Ok? && c in CubeOutput
    requires c in layout.fillers && Placeholder(c).Some?
    requires forall j :: 0 <= j < |layout.renames| ==> layout.renames[j].0 != c && layout.renames[j].1 != c
    ensures forall i :: 0 <= i < t.height ==> Get(Finish(t, layout).value, c)[i] == Placeholder(c).value
  {
    RenameUntouched(Placeholders(t, layout.fillers), layout.renames, c);
  }

  /** The report's detail rows, filled and cast. */
  function Cleaned(raw: Table, layout: Layout, show: Value -> string): (r: Result<Table, Error>)
    requires WellFormed(raw)
    ensures r.Err? && r.error.ColumnCount? <==> |raw.columns| != layout.width
    ensures r.Ok? ==> "Description" in Labels(raw) && WellFormed(r.value) && Labels(r.value) == Labels(raw)
    ensures r.Ok? ==> r.value.height == Count(Get(raw, "Description"), IsDetailRow)
  {
    var detail :- Reconciled(raw, layout.width);
    Clean(detail, layout, show)
  }

  /** Column `c` of the report on its detail rows only. */
  function Detail(raw: Table, c: string): seq<Value>
    requires WellFormed(raw) && c in Labels(raw) && "Description" in Labels(raw)
  {
    Sift(Get(raw, c), Get(raw, "Description"), IsDetailRow)
  }

  /** One report through every stage; the first failure is raised. The
      column-count error comes exactly from a report of the wrong width. */
  function Normalize(raw: Table, layout: Layout, alsLab: string, uuid: nat -> string, show: Value -> string): (r: Result<Table, Error>)
    requires WellFormed(raw)
    ensures r.Err? && r.error.ColumnCount? <==> |raw.columns| != layout.width
    ensures |raw.columns| != layout.width ==> r == Err(ColumnCount(layout.width, |raw.columns|))
    ensures r.Ok? ==> WellFormed(r.value) && Labels(r.value) == CubeOutput
    ensures r.Ok? ==> "Description" in Labels(raw) && r.value.height == Count(Get(raw, "Description"), IsDetailRow)
  {
    var stamped :- Stamped(raw, layout, alsLab, uuid, show);
    Finish(stamped, layout)
  }

  /** The report before the placeholders and the rename. */
  function Stamped(raw: Table, layout: Layout, alsLab: string, uuid: nat -> string, show: Value -> string): (r: Result<Table, Error>)
    requires WellFormed(raw)
    ensures r.Ok? ==> Cleaned(raw, layout, show).Ok? && r == Stamp(Cleaned(raw, layout, show).value, alsLab, uuid)
  {
    var clean :- Cleaned(raw, layout, show);
    Stamp(clean, alsLab, uuid)
  }

  // ---------------------------------------------------------------------
  // What reaches the output, for any layout

  /** Pair `j` of a one-to-one rename takes a column of the report that
      nothing else adds, fills or drops, to an output name that nothing
      else adds or fills. */
  predicate Moves(layout: Layout, j: nat)
  {
    OneToOne(layout.renames) && j < |layout.renames| &&
    layout.renames[j].1 in CubeOutput && !IsAdded(layout.renames[j].1) && layout.renames[j].1 !in layout.fillers &&
    !IsAdded(layout.renames[j].0) && layout.renames[j].0 !in layout.fillers &&
    layout.renames[j].0 != "Year" && layout.renames[j].0 != "Month"
  }

  /** A column the layout gives no role but perhaps the float cast, which
      changes no value: not filled, not cast to an integer or to text, not
      stripped. */
  predicate Plain(layout: Layout, c: string)
  {
    c !in layout.texts && c !in layout.strs && c != layout.ship && c != layout.cust && c != "code"
  }

  /** The renamed column holds the stamped report's column of the old
      name. */
  lemma Through(raw: Table, layout: Layout, alsLab: string, uuid: nat -> string, show: Value -> string, j: nat, c: string, n: string)
    requires WellFormed(raw) && Normalize(raw, layout, alsLab, uuid, show).Ok?
    requires Moves(layout, j) && layout.renames[j] == (c, n) && n !in Labels(raw)
    ensures c in Labels(raw)
    ensures Stamped(raw, layout, alsLab, uuid, show).Ok? && c in Labels(Stamped(raw, layout, alsLab, uuid, show).value)
    ensures Get(Normalize(raw, layout, alsLab, uuid, show).value, n) == Get(Stamped(raw, layout, alsLab, uuid, show).value, c)
  {
    var clean := Cleaned(raw, layout, show).value;
    var stamped := Stamped(raw, layout, alsLab, uuid, show).value;
    var placed := Placeholders(stamped, layout.fillers);
    StampLabels(clean, alsLab, uuid);
    assert Normalize(raw, layout, alsLab, uuid, show) == Finish(stamped, layout);
    assert n !in Labels(clean);
    assert n !in Labels(placed);
    assert n in Labels(Rename(placed, layout.renames));
    RenameSource(placed, layout.renames, j);
    assert c in Labels(stamped);
    assert c in Labels(clean);
    FinishCarries(stamped, layout, j);
  }

  /** The detail rows of the report, before cleaning. */
  lemma DetailRows(raw: Table, layout: Layout, show: Value -> string)
    requires WellFormed(raw) && Cleaned(raw, layout, show).Ok?
    ensures "Description" in Labels(raw) && RemoveTotalsRows(raw).Ok?
    ensures Clean(RemoveTotalsRows(raw).value, layout, show) == Cleaned(raw, layout, show)
    ensures Labels(RemoveTotalsRows(raw).value) == Labels(raw)
    ensures forall d :: d in Labels(raw) ==> Get(RemoveTotalsRows(raw).value, d) == Detail(raw, d)
  {
  }

  /** A column the layout only renames carries the report's detail rows. */
  lemma NormalizeCarries(raw: Table, layout: Layout, alsLab: string, uuid: nat -> string, show: Value -> string, j: nat, c: string, n: string)
    requires WellFormed(raw) && Normalize(raw, layout, alsLab, uuid, show).Ok? && Apart(layout)
    requires Moves(layout, j) && layout.renames[j] == (c, n) && n !in Labels(raw) && Plain(layout, c)
    ensures "Description" in Labels(raw) && c in Labels(raw)
    ensures Get(Normalize(raw, layout, alsLab, uuid, show).value, n) == Detail(raw, c)
  {
    Through(raw, layout, alsLab, uuid, show, j, c, n);
    DetailRows(raw, layout, show);
    var detail := RemoveTotalsRows(raw).value;
    CleanKeeps(detail, layout, show);
    StampKeeps(Cleaned(raw, layout, show).value, alsLab, uuid);
  }

  /** A filled text column reaches the output as text, with "Unknown" in
      every gap of its detail rows. */
  lemma NormalizeTexts(raw: Table, layout: Layout, alsLab: string, uuid: nat -> string, show: Value -> string, j: nat, c: string, n: string)
    requires WellFormed(raw) && Normalize(raw, layout, alsLab, uuid, show).Ok? && Apart(layout)
    requires Moves(layout, j) && layout.renames[j] == (c, n) && n !in Labels(raw)
    requires c in layout.texts && c != layout.cust
    ensures "Description" in Labels(raw) && c in Labels(raw)
    ensures forall i :: 0 <= i < Normalize(raw, layout, alsLab, uuid, show).value.height ==>
      Get(Normalize(raw, layout, alsLab, uuid, show).value, n)[i] == TextCell(Filled(Detail(raw, c)[i], Unknown), show)
  {
    DetailRows(raw, layout, show);
    var detail := RemoveTotalsRows(raw).value;
    CleanTexts(detail, layout, show);
    assert c != "Year" && c != "Month" && c != "code";
    Through(raw, layout, alsLab, uuid, show, j, c, n);
    StampKeeps(Cleaned(raw, layout, show).value, alsLab, uuid);
  }

  /** A text column that is not filled reaches the output as the detail
      rows' cells written as text. */
  lemma NormalizeStrs(raw: Table, layout: Layout, alsLab: string, uuid: nat -> string, show: Value -> string, j: nat, c: string, n: string)
    requires WellFormed(raw) && Normalize(raw, layout, alsLab, uuid, show).Ok? && Apart(layout)
    requires Moves(layout, j) && layout.renames[j] == (c, n) && n !in Labels(raw)
    requires c in layout.strs && c !in layout.texts && c != "code"
    ensures "Description" in Labels(raw) && c in Labels(raw)
    ensures forall i :: 0 <= i < Normalize(raw, layout, alsLab, uuid, show).value.height ==>
      Get(Normalize(raw, layout, alsLab, uuid, show).value, n)[i] == TextCell(Detail(raw, c)[i], show)
  {
    DetailRows(raw, layout, show);
    var detail := RemoveTotalsRows(raw).value;
    CleanStrs(detail, layout, show);
    Through(raw, layout, alsLab, uuid, show, j, c, n);
    StampKeeps(Cleaned(raw, layout, show).value, alsLab, uuid);
  }

  /** Every detail row of a float column held a number or a gap. */
  lemma NormalizeFloats(raw: Table, layout: Layout, alsLab: string, uuid: nat -> string, show: Value -> string, c: string)
    requires WellFormed(raw) && Normalize(raw, layout, alsLab, uuid, show).Ok? && Apart(layout)
    requires c in layout.floats
    ensures "Description" in Labels(raw) && c in Labels(raw)
    ensures FloatValues(Detail(raw, c))
  {
    DetailRows(raw, layout, show);
    var detail := RemoveTotalsRows(raw).value;
    CleanFloats(detail, layout, show);
    assert Get(detail, c) == Detail(raw, c);
  }

  /** The ship id reaches the output as a whole number: the detail row's
      own, truncated, or 0 where it was missing. */
  lemma NormalizeShip(raw: Table, layout: Layout, alsLab: string, uuid: nat -> string, show: Value -> string, j: nat, c: string, n: string)
    requires WellFormed(raw) && Normalize(raw, layout, alsLab, uuid, show).Ok? && Apart(layout)
    requires Moves(layout, j) && layout.renames[j] == (c, n) && n !in Labels(raw) && c == layout.ship
    ensures "Description" in Labels(raw) && c in Labels(raw)
    ensures forall i :: 0 <= i < Normalize(raw, layout, alsLab, uuid, show).value.height ==>
      Filled(Detail(raw, c)[i], Num(0.0)).Num? &&
      Get(Normalize(raw, layout, alsLab, uuid, show).value, n)[i] == Num(Truncate(Filled(Detail(raw, c)[i], Num(0.0)).amount) as real)
  {
    DetailRows(raw, layout, show);
    var detail := RemoveTotalsRows(raw).value;
    CleanNumbers(detail, layout, show);
    Through(raw, layout, alsLab, uuid, show, j, c, n);
    StampKeeps(Cleaned(raw, layout, show).value, alsLab, uuid);
  }

  /** The customer id of every detail row was a number, and reaches the
      output truncated. */
  lemma NormalizeCustomer(raw: Table, layout: Layout, alsLab: string, uuid: nat -> string, show: Value -> string, j: nat, c: string, n: string)
    requires WellFormed(raw) && Normalize(raw, layout, alsLab, uuid, show).Ok? && Apart(layout)
    requires Moves(layout, j) && layout.renames[j] == (c, n) && n !in Labels(raw) && c == layout.cust
    ensures "Description" in Labels(raw) && c in Labels(raw)
    ensures forall i :: 0 <= i < Normalize(raw, layout, alsLab, uuid, show).value.height ==>
      Detail(raw, c)[i].Num? && Get(Normalize(raw, layout, alsLab, uuid, show).value, n)[i] == Num(Truncate(Detail(raw, c)[i].amount) as real)
  {
    DetailRows(raw, layout, show);
    var detail := RemoveTotalsRows(raw).value;
    CleanNumbers(detail, layout, show);
    Through(raw, layout, alsLab, uuid, show, j, c, n);
    StampKeeps(Cleaned(raw, layout, show).value, alsLab, uuid);
  }

  /** The stamped report's product codes are the detail rows' own,
      written as text and stripped. */
  lemma StampedCode(raw: Table, layout: Layout, alsLab: string, uuid: nat -> string, show: Value -> string)
    requires WellFormed(raw) && Stamped(raw, layout, alsLab, uuid, show).Ok? && Apart(layout)
    ensures "Description" in Labels(raw) && "code" in Labels(raw)
    ensures "code" in Labels(Stamped(raw, layout, alsLab, uuid, show).value)
    ensures forall i :: 0 <= i < Stamped(raw, layout, alsLab, uuid, show).value.height ==>
      Get(Stamped(raw, layout, alsLab, uuid, show).value, "code")[i] == StripCell(TextCell(Detail(raw, "code")[i], show))
  {
    assert "code" != "Year" && "code" != "Month";
    DetailRows(raw, layout, show);
    var detail := RemoveTotalsRows(raw).value;
    var clean := Cleaned(raw, layout, show).value;
    CleanStrs(detail, layout, show);
    StampKeeps(clean, alsLab, uuid);
    StampLabels(clean, alsLab, uuid);
    assert Get(detail, "code") == Detail(raw, "code");
  }

  /** The product codes reach the output as text, stripped. */
  lemma NormalizeCode(raw: Table, layout: Layout, alsLab: string, uuid: nat -> string, show: Value -> string, j: nat, n: string)
    requires WellFormed(raw) && Normalize(raw, layout, alsLab, uuid, show).Ok? && Apart(layout)
    requires Moves(layout, j) && layout.renames[j] == ("code", n) && n !in Labels(raw)
    ensures "Description" in Labels(raw) && "code" in Labels(raw)
    ensures forall i :: 0 <= i < Normalize(raw, layout, alsLab, uuid, show).value.height ==>
      Get(Normalize(raw, layout, alsLab, uuid, show).value, n)[i] == StripCell(TextCell(Detail(raw, "code")[i], show))
  {
    assert "code" != "Year" && "code" != "Month" && !IsAdded("code");
    StampedCode(raw, layout, alsLab, uuid, show);
    Through(raw, layout, alsLab, uuid, show, j, "code", n);
  }

  /** A placeholder column holds its placeholder in every output row. */
  lemma NormalizePlaces(raw: Table, layout: Layout, alsLab: string, uuid: nat -> string, show: Value -> string, c: string, v: Value)
    requires WellFormed(raw) && Normalize(raw, layout, alsLab, uuid, show).Ok?
    requires c in CubeOutput && c in layout.fillers && Placeholder(c) == Some(v)
    requires forall j :: 0 <= j < |layout.renames| ==> layout.renames[j].0 != c && layout.renames[j].1 != c
    ensures forall i :: 0 <= i < Normalize(raw, layout, alsLab, uuid, show).value.height ==>
      Get(Normalize(raw, layout, alsLab, uuid, show).value, c)[i] == v
  {
    FinishPlaces(Stamped(raw, layout, alsLab, uuid, show).value, layout, c);
  }

  /** No rename takes `c` away or brings it in, and no placeholder sets it. */
  predicate Untouched(layout: Layout, c: string)
  {
    c !in layout.fillers && forall j :: 0 <= j < |layout.renames| ==> layout.renames[j].0 != c && layout.renames[j].1 != c
  }

  /** One output row per detail row, each with its own identifier and the
      source tags. */
  lemma NormalizeTags(raw: Table, layout: Layout, alsLab: string, uuid: nat -> string, show: Value -> string)
    requires WellFormed(raw) && Normalize(raw, layout, alsLab, uuid, show).Ok?
    requires Untouched(layout, IdColumn) && Untouched(layout, "system_source") && Untouched(layout, "als_lab")
    ensures "Description" in Labels(raw)
    ensures Normalize(raw, layout, alsLab, uuid, show).value.height == Count(Get(raw, "Description"), IsDetailRow)
    ensures forall i :: 0 <= i < Normalize(raw, layout, alsLab, uuid, show).value.height ==>
      Get(Normalize(raw, layout, alsLab, uuid, show).value, IdColumn)[i] == Str(uuid(i)) &&
      Get(Normalize(raw, layout, alsLab, uuid, show).value, "system_source")[i] == Str("Transactor") &&
      Get(Normalize(raw, layout, alsLab, uuid, show).value, "als_lab")[i] == Str(alsLab)
  {
    var clean := Cleaned(raw, layout, show).value;
    var stamped := Stamped(raw, layout, alsLab, uuid, show).value;
    StampTags(clean, alsLab, uuid);
    FinishKeeps(stamped, layout, IdColumn);
    FinishKeeps(stamped, layout, "system_source");
    FinishKeeps(stamped, layout, "als_lab");
  }

  /** Every output row carries the first of the month that pandas reads
      from its detail row's truncated Year and Month: the month itself when
      it is one of 1 to 12, and otherwise carried into the year. */
  lemma NormalizeDates(raw: Table, layout: Layout, alsLab: string, uuid: nat -> string, show: Value -> string)
    requires WellFormed(raw) && Normalize(raw, layout, alsLab, uuid, show).Ok? && Apart(layout)
    requires Untouched(layout, "year_month")
    ensures "Description" in Labels(raw) && "Year" in Labels(raw) && "Month" in Labels(raw)
    ensures forall i :: 0 <= i < Normalize(raw, layout, alsLab, uuid, show).value.height ==>
      Detail(raw, "Year")[i].Num? && Detail(raw, "Month")[i].Num? &&
      AssemblesTo(Get(Normalize(raw, layout, alsLab, uuid, show).value, "year_month")[i],
        Truncate(Detail(raw, "Year")[i].amount), Truncate(Detail(raw, "Month")[i].amount)) &&
      (1 <= Truncate(Detail(raw, "Month")[i].amount) <= 12 ==>
        Get(Normalize(raw, layout, alsLab, uuid, show).value, "year_month")[i] ==
          Date(Truncate(Detail(raw, "Year")[i].amount), Truncate(Detail(raw, "Month")[i].amount), 1))
  {
    DetailRows(raw, layout, show);
    var detail := RemoveTotalsRows(raw).value;
    var clean := Cleaned(raw, layout, show).value;
    var stamped := Stamped(raw, layout, alsLab, uuid, show).value;
    CleanNumbers(detail, layout, show);
    StampDates(clean, alsLab, uuid);
    FinishKeeps(stamped, layout, "year_month");
    assert Normalize(raw, layout, alsLab, uuid, show) == Finish(stamped, layout);
    assert Get(detail, "Year") == Detail(raw, "Year") && Get(detail, "Month") == Detail(raw, "Month");
    assert clean.height == detail.height == stamped.height;
    forall i | 0 <= i < clean.height
      ensures AssemblesTo(Get(stamped, "year_month")[i], Truncate(Detail(raw, "Year")[i].amount), Truncate(Detail(raw, "Month")[i].amount))
      ensures 1 <= Truncate(Detail(raw, "Month")[i].amount) <= 12 ==>
        Get(stamped, "year_month")[i] == Date(Truncate(Detail(raw, "Year")[i].amount), Truncate(Detail(raw, "Month")[i].amount), 1)
    {
      DateOfCells(Detail(raw, "Year")[i].amount, Detail(raw, "Month")[i].amount,
        Get(clean, "Year")[i], Get(clean, "Month")[i], Get(stamped, "year_month")[i]);
    }
  }

  /** The date made from a truncated year and month is the first of the
      month read from them, which is that month when it is one of 1 to 12. */
  lemma DateOfCells(ya: real, ma: real, y: Value, m: Value, v: Value)
    requires y == Num(Truncate(ya) as real) && m == Num(Truncate(ma) as real)
    requires YearMonthCell(y, m) == Some(v)
    ensures AssemblesTo(v, Truncate(ya), Truncate(ma))
    ensures 1 <= Truncate(ma) <= 12 ==> v == Date(Truncate(ya), Truncate(ma), 1)
  {
    var ty, tm := Truncate(ya), Truncate(ma);
    assert (ty as real).Floor == ty && (tm as real).Floor == tm;
    assert YearMonthCell(y, m) != Some(Null);
    if 1 <= tm <= 12 {
      AssembledMonthIsKept(v, ty, tm);
    }
  }

  // ---------------------------------------------------------------------
  // The two layouts

  lemma TransactorLayoutApart()
    ensures Apart(TransactorLayout) && OneToOne(TransactorRename)
  {
    TransactorRenameOneToOne();
    TransactorCastsApart();
  }

  lemma TransactorCastsApart()
    ensures CastsApart(TransactorLayout)
  {
    var l := TransactorLayout;
    forall k | 0 <= k < |l.strs|
      ensures l.strs[k] != l.ship && l.strs[k] != l.cust && l.strs[k] != "Year" && l.strs[k] != "Month" && l.strs[k] !in l.floats
    {
      assert LabelKey(l.strs[k]) != LabelKey(l.ship) && LabelKey(l.strs[k]) != LabelKey(l.cust);
      assert LabelKey(l.strs[k]) != LabelKey("Year") && LabelKey(l.strs[k]) != LabelKey("Month");
      forall m | 0 <= m < |l.floats| ensures l.strs[k] != l.floats[m] {
        assert LabelKey(l.strs[k]) != LabelKey(l.floats[m]);
      }
    }
    forall k | 0 <= k < |l.floats|
      ensures l.floats[k] !in l.texts && l.floats[k] != l.ship && l.floats[k] != l.cust && l.floats[k] != "Year" && l.floats[k] != "Month"
    {
      assert LabelKey(l.floats[k]) != LabelKey(l.ship) && LabelKey(l.floats[k]) != LabelKey(l.cust);
      assert LabelKey(l.floats[k]) != LabelKey("Year") && LabelKey(l.floats[k]) != LabelKey("Month");
      forall m | 0 <= m < |l.texts| ensures l.floats[k] != l.texts[m] {
        assert LabelKey(l.floats[k]) != LabelKey(l.texts[m]);
      }
    }
  }

  lemma TransactorRenameOneToOne()
    ensures OneToOne(TransactorRename)
  {
    TransactorOldsApart();
    TransactorNewsApart();
    OneToOneHalves(TransactorRename);
  }

  lemma TransactorOldsApart()
    ensures OldsApart(TransactorRename)
  {
    var p := TransactorRename;
    forall i, j | 0 <= i < j < |p| ensures p[i].0 != p[j].0 {
      assert LabelKey(p[i].0) != LabelKey(p[j].0);
    }
  }

  lemma TransactorNewsApart()
    ensures NewsApart(TransactorRename)
  {
    var p := TransactorRename;
    forall i, j | 0 <= i < j < |p| ensures p[i].1 != p[j].1 {
      assert LabelKey(p[i].1) != LabelKey(p[j].1);
    }
  }

  lemma PassionLayoutApart()
    ensures Apart(PassionLayout) && OneToOne(PassionRename)
  {
    PassionRenameOneToOne();
    PassionCastsApart();
  }

  lemma PassionCastsApart()
    ensures CastsApart(PassionLayout)
  {
    var l := PassionLayout;
    forall k | 0 <= k < |l.strs|
      ensures l.strs[k] != l.ship && l.strs[k] != l.cust && l.strs[k] != "Year" && l.strs[k] != "Month" && l.strs[k] !in l.floats
    {
      assert LabelKey(l.strs[k]) != LabelKey(l.ship) && LabelKey(l.strs[k]) != LabelKey(l.cust);
      assert LabelKey(l.strs[k]) != LabelKey("Year") && LabelKey(l.strs[k]) != LabelKey("Month");
      forall m | 0 <= m < |l.floats| ensures l.strs[k] != l.floats[m] {
        assert LabelKey(l.strs[k]) != LabelKey(l.floats[m]);
      }
    }
    forall k | 0 <= k < |l.floats|
      ensures l.floats[k] !in l.texts && l.floats[k] != l.ship && l.floats[k] != l.cust && l.floats[k] != "Year" && l.floats[k] != "Month"
    {
      assert LabelKey(l.floats[k]) != LabelKey(l.ship) && LabelKey(l.floats[k]) != LabelKey(l.cust);
      assert LabelKey(l.floats[k]) != LabelKey("Year") && LabelKey(l.floats[k]) != LabelKey("Month");
      forall m | 0 <= m < |l.texts| ensures l.floats[k] != l.texts[m] {
        assert LabelKey(l.floats[k]) != LabelKey(l.texts[m]);
      }
    }
  }

  lemma PassionRenameOneToOne()
    ensures OneToOne(PassionRename)
  {
    PassionOldsApart();
    PassionNewsApart();
    OneToOneHalves(PassionRename);
  }

  lemma PassionOldsApart()
    ensures OldsApart(PassionRename)
  {
    var p := PassionRename;
    forall i, j | 0 <= i < j < |p| ensures p[i].0 != p[j].0 {
      assert LabelKey(p[i].0) != LabelKey(p[j].0);
    }
  }

  lemma PassionNewsApart()
    ensures NewsApart(PassionRename)
  {
    var p := PassionRename;
    forall i, j | 0 <= i < j < |p| ensures p[i].1 != p[j].1 {
      assert LabelKey(p[i].1) != LabelKey(p[j].1);
    }
  }

  lemma TransactorMovesSales()
    ensures Moves(TransactorLayout, 6) && TransactorLayout.renames[6] == ("Description", "product_description")
    ensures Moves(TransactorLayout, 10) && TransactorLayout.renames[10] == ("Qty", "quantity")
    ensures Moves(TransactorLayout, 11) && TransactorLayout.renames[11] == ("Net_Sales", "net_sales")
    ensures Moves(TransactorLayout, 12) && TransactorLayout.renames[12] == ("Tax_Sales", "tax_sales")
    ensures Plain(TransactorLayout, "Qty") && Plain(TransactorLayout, "Net_Sales") && Plain(TransactorLayout, "Tax_Sales")
    ensures "Qty" in TransactorLayout.floats && "Net_Sales" in TransactorLayout.floats && "Tax_Sales" in TransactorLayout.floats
    ensures "Description" in TransactorLayout.strs && "Description" !in TransactorLayout.texts
  {
    TransactorRenameOneToOne();
  }

  lemma TransactorMovesIds()
    ensures Moves(TransactorLayout, 0) && TransactorLayout.renames[0] == ("ShipID", "ship_id")
    ensures Moves(TransactorLayout, 3) && TransactorLayout.renames[3] == ("CustID", "customer_id")
    ensures TransactorLayout.ship == "ShipID" && TransactorLayout.cust == "CustID"
  {
    TransactorRenameOneToOne();
  }

  lemma TransactorMovesNames()
    ensures Moves(TransactorLayout, 1) && TransactorLayout.renames[1] == ("ShipFullName", "ship_name")
    ensures Moves(TransactorLayout, 2) && TransactorLayout.renames[2] == ("ShipAddress", "ship_address")
    ensures Moves(TransactorLayout, 4) && TransactorLayout.renames[4] == ("CustFullName", "customer_name")
    ensures "ShipFullName" in TransactorLayout.texts && "ShipAddress" in TransactorLayout.texts && "CustFullName" in TransactorLayout.texts
    ensures TransactorLayout.cust == "CustID"
  {
    TransactorRenameOneToOne();
  }

  lemma TransactorMovesProducts()
    ensures Moves(TransactorLayout, 5) && TransactorLayout.renames[5] == ("code", "product_code")
    ensures Moves(TransactorLayout, 7) && TransactorLayout.renames[7] == ("PriceBand", "original_lab_price_band")
    ensures Moves(TransactorLayout, 8) && TransactorLayout.renames[8] == ("NetUnitPrice", "net_unit_price")
    ensures Moves(TransactorLayout, 9) && TransactorLayout.renames[9] == ("DiscountedUnitPrice", "discounted_unit_price")
    ensures Plain(TransactorLayout, "NetUnitPrice") && Plain(TransactorLayout, "DiscountedUnitPrice")
    ensures "NetUnitPrice" in TransactorLayout.floats && "DiscountedUnitPrice" in TransactorLayout.floats
    ensures "PriceBand" in TransactorLayout.strs && "PriceBand" !in TransactorLayout.texts
  {
    TransactorRenameOneToOne();
  }

  lemma TransactorUntouched()
    ensures Untouched(TransactorLayout, IdColumn) && Untouched(TransactorLayout, "year_month")
    ensures Untouched(TransactorLayout, "system_source") && Untouched(TransactorLayout, "als_lab")
  {
  }

  lemma PassionMovesSales()
    ensures Moves(PassionLayout, 5) && PassionLayout.renames[5] == ("Description", "product_description")
    ensures Moves(PassionLayout, 6) && PassionLayout.renames[6] == ("Qty", "quantity")
    ensures Moves(PassionLayout, 7) && PassionLayout.renames[7] == ("Net_Sales", "net_sales")
    ensures Moves(PassionLayout, 8) && PassionLayout.renames[8] == ("Tax_Sales", "tax_sales")
    ensures Plain(PassionLayout, "Qty") && Plain(PassionLayout, "Net_Sales") && Plain(PassionLayout, "Tax_Sales")
    ensures "Qty" in PassionLayout.floats && "Net_Sales" in PassionLayout.floats && "Tax_Sales" in PassionLayout.floats
    ensures "Description" in PassionLayout.strs && "Description" !in PassionLayout.texts
  {
    PassionRenameOneToOne();
  }

  lemma PassionMovesIds()
    ensures Moves(PassionLayout, 0) && PassionLayout.renames[0] == ("shipid", "ship_id")
    ensures Moves(PassionLayout, 2) && PassionLayout.renames[2] == ("custID", "customer_id")
    ensures PassionLayout.ship == "shipid" && PassionLayout.cust == "custID"
  {
    PassionRenameOneToOne();
  }

  lemma PassionMovesNames()
    ensures Moves(PassionLayout, 1) && PassionLayout.renames[1] == ("shipfullname", "ship_name")
    ensures Moves(PassionLayout, 3) && PassionLayout.renames[3] == ("CustFullName", "customer_name")
    ensures "shipfullname" in PassionLayout.texts && "CustFullName" in PassionLayout.texts && PassionLayout.cust == "custID"
  {
    PassionRenameOneToOne();
  }

  lemma PassionMovesProducts()
    ensures Moves(PassionLayout, 4) && PassionLayout.renames[4] == ("code", "product_code")
  {
    PassionRenameOneToOne();
  }

  lemma PassionPlaces()
    ensures forall c :: c in PlaceholderColumns ==> c in CubeOutput && c in PassionLayout.fillers
    ensures forall c, j :: c in PlaceholderColumns && 0 <= j < |PassionRename| ==> PassionRename[j].0 != c && PassionRename[j].1 != c
    ensures Placeholder("ship_address") == Some(Unknown) && Placeholder("original_lab_price_band") == Some(Unknown)
    ensures Placeholder("net_unit_price") == Some(Null) && Placeholder("discounted_unit_price") == Some(Null)
  {
  }

  lemma PassionUntouched()
    ensures Untouched(PassionLayout, IdColumn) && Untouched(PassionLayout, "year_month")
    ensures Untouched(PassionLayout, "system_source") && Untouched(PassionLayout, "als_lab")
  {
  }

  /** The report does not already have a column under an output name. */
  predicate Fresh(raw: Table)
  {
    forall d :: d in CubeOutput ==> d !in Labels(raw)
  }

  /** Every value a number or a gap, which is what `astype(float)`
      accepts. */
  predicate FloatValues(vals: seq<Value>)
  {
    forall i :: 0 <= i < |vals| ==> vals[i].Num? || vals[i].Null?
  }

  /** Transactor: one output row per detail row; the quantities, sales and
      taxes are the detail rows' own, each a number or a gap, and the
      descriptions are the detail rows' own written as text. */
  lemma TransactorSales(raw: Table, alsLab: string, uuid: nat -> string, show: Value -> string)
    requires WellFormed(raw) && Normalize(raw, TransactorLayout, alsLab, uuid, show).Ok? && Fresh(raw)
    ensures "Description" in Labels(raw) && "Qty" in Labels(raw) && "Net_Sales" in Labels(raw) && "Tax_Sales" in Labels(raw)
    ensures var out := Normalize(raw, TransactorLayout, alsLab, uuid, show).value;
      out.height == Count(Get(raw, "Description"), IsDetailRow) &&
      Get(out, "quantity") == Detail(raw, "Qty") && Get(out, "net_sales") == Detail(raw, "Net_Sales") &&
      Get(out, "tax_sales") == Detail(raw, "Tax_Sales") &&
      forall i :: 0 <= i < out.height ==> Get(out, "product_description")[i] == TextCell(Detail(raw, "Description")[i], show)
    ensures FloatValues(Detail(raw, "Qty")) && FloatValues(Detail(raw, "Net_Sales")) && FloatValues(Detail(raw, "Tax_Sales"))
  {
    TransactorLayoutApart();
    TransactorMovesSales();
    NormalizeCarries(raw, TransactorLayout, alsLab, uuid, show, 10, "Qty", "quantity");
    NormalizeCarries(raw, TransactorLayout, alsLab, uuid, show, 11, "Net_Sales", "net_sales");
    NormalizeCarries(raw, TransactorLayout, alsLab, uuid, show, 12, "Tax_Sales", "tax_sales");
    NormalizeStrs(raw, TransactorLayout, alsLab, uuid, show, 6, "Description", "product_description");
    NormalizeFloats(raw, TransactorLayout, alsLab, uuid, show, "Qty");
    NormalizeFloats(raw, TransactorLayout, alsLab, uuid, show, "Net_Sales");
    NormalizeFloats(raw, TransactorLayout, alsLab, uuid, show, "Tax_Sales");
  }

  /** Transactor: the ship id is the detail row's own, truncated, or 0
      where it was missing; every detail row's customer id was a number
      and reaches the output truncated. */
  lemma TransactorIds(raw: Table, alsLab: string, uuid: nat -> string, show: Value -> string)
    requires WellFormed(raw) && Normalize(raw, TransactorLayout, alsLab, uuid, show).Ok? && Fresh(raw)
    ensures "ShipID" in Labels(raw) && "CustID" in Labels(raw)
    ensures var out := Normalize(raw, TransactorLayout, alsLab, uuid, show).value;
      forall i :: 0 <= i < out.height ==>
        Filled(Detail(raw, "ShipID")[i], Num(0.0)).Num? &&
        Get(out, "ship_id")[i] == Num(Truncate(Filled(Detail(raw, "ShipID")[i], Num(0.0)).amount) as real) &&
        Detail(raw, "CustID")[i].Num? &&
        Get(out, "customer_id")[i] == Num(Truncate(Detail(raw, "CustID")[i].amount) as real)
  {
    TransactorLayoutApart();
    TransactorMovesIds();
    NormalizeShip(raw, TransactorLayout, alsLab, uuid, show, 0, "ShipID", "ship_id");
    NormalizeCustomer(raw, TransactorLayout, alsLab, uuid, show, 3, "CustID", "customer_id");
  }

  /** Transactor: the ship's name and address and the customer's name have
      "Unknown" for a gap and are written as text. */
  lemma TransactorNames(raw: Table, alsLab: string, uuid: nat -> string, show: Value -> string)
    requires WellFormed(raw) && Normalize(raw, TransactorLayout, alsLab, uuid, show).Ok? && Fresh(raw)
    ensures "ShipFullName" in Labels(raw) && "ShipAddress" in Labels(raw) && "CustFullName" in Labels(raw)
    ensures var out := Normalize(raw, TransactorLayout, alsLab, uuid, show).value;
      forall i :: 0 <= i < out.height ==>
        Get(out, "ship_name")[i] == TextCell(Filled(Detail(raw, "ShipFullName")[i], Unknown), show) &&
        Get(out, "ship_address")[i] == TextCell(Filled(Detail(raw, "ShipAddress")[i], Unknown), show) &&
        Get(out, "customer_name")[i] == TextCell(Filled(Detail(raw, "CustFullName")[i], Unknown), show)
  {
    TransactorLayoutApart();
    TransactorMovesNames();
    NormalizeTexts(raw, TransactorLayout, alsLab, uuid, show, 1, "ShipFullName", "ship_name");
    NormalizeTexts(raw, TransactorLayout, alsLab, uuid, show, 2, "ShipAddress", "ship_address");
    NormalizeTexts(raw, TransactorLayout, alsLab, uuid, show, 4, "CustFullName", "customer_name");
  }

  /** Transactor: the product codes are written as text and stripped, and
      so are never missing; the price band is written as text; the two unit
      prices are the detail rows' own, each a number or a gap. */
  lemma TransactorProducts(raw: Table, alsLab: string, uuid: nat -> string, show: Value -> string)
    requires WellFormed(raw) && Normalize(raw, TransactorLayout, alsLab, uuid, show).Ok? && Fresh(raw)
    ensures "code" in Labels(raw) && "PriceBand" in Labels(raw)
    ensures "NetUnitPrice" in Labels(raw) && "DiscountedUnitPrice" in Labels(raw)
    ensures var out := Normalize(raw, TransactorLayout, alsLab, uuid, show).value;
      (forall i :: 0 <= i < out.height ==>
        Get(out, "product_code")[i].Str? && Get(out, "product_code")[i] == StripCell(TextCell(Detail(raw, "code")[i], show)) &&
        Get(out, "original_lab_price_band")[i] == TextCell(Detail(raw, "PriceBand")[i], show)) &&
      Get(out, "net_unit_price") == Detail(raw, "NetUnitPrice") &&
      Get(out, "discounted_unit_price") == Detail(raw, "DiscountedUnitPrice")
    ensures FloatValues(Detail(raw, "NetUnitPrice")) && FloatValues(Detail(raw, "DiscountedUnitPrice"))
  {
    TransactorLayoutApart();
    TransactorMovesProducts();
    NormalizeCode(raw, TransactorLayout, alsLab, uuid, show, 5, "product_code");
    NormalizeStrs(raw, TransactorLayout, alsLab, uuid, show, 7, "PriceBand", "original_lab_price_band");
    NormalizeFloats(raw, TransactorLayout, alsLab, uuid, show, "NetUnitPrice");
    NormalizeFloats(raw, TransactorLayout, alsLab, uuid, show, "DiscountedUnitPrice");
    NormalizeCarries(raw, TransactorLayout, alsLab, uuid, show, 8, "NetUnitPrice", "net_unit_price");
    NormalizeCarries(raw, TransactorLayout, alsLab, uuid, show, 9, "DiscountedUnitPrice", "discounted_unit_price");
  }

  /** Transactor: each row's identifier and tags, and the first of the
      month read from its Year and Month. */
  lemma TransactorStamps(raw: Table, alsLab: string, uuid: nat -> string, show: Value -> string)
    requires WellFormed(raw) && Normalize(raw, TransactorLayout, alsLab, uuid, show).Ok?
    ensures "Year" in Labels(raw) && "Month" in Labels(raw) && "Description" in Labels(raw)
    ensures var out := Normalize(raw, TransactorLayout, alsLab, uuid, show).value;
      IdColumn in Labels(out) && "system_source" in Labels(out) && "als_lab" in Labels(out) && "year_month" in Labels(out) &&
      |Detail(raw, "Year")| == out.height && |Detail(raw, "Month")| == out.height &&
      forall i :: 0 <= i < out.height ==>
        Get(out, IdColumn)[i] == Str(uuid(i)) &&
        Get(out, "system_source")[i] == Str("Transactor") && Get(out, "als_lab")[i] == Str(alsLab) &&
        Detail(raw, "Year")[i].Num? && Detail(raw, "Month")[i].Num? &&
        AssemblesTo(Get(out, "year_month")[i], Truncate(Detail(raw, "Year")[i].amount), Truncate(Detail(raw, "Month")[i].amount)) &&
        (1 <= Truncate(Detail(raw, "Month")[i].amount) <= 12 ==>
          Get(out, "year_month")[i] == Date(Truncate(Detail(raw, "Year")[i].amount), Truncate(Detail(raw, "Month")[i].amount), 1))
  {
    TransactorLayoutApart();
    TransactorUntouched();
    NormalizeTags(raw, TransactorLayout, alsLab, uuid, show);
    NormalizeDates(raw, TransactorLayout, alsLab, uuid, show);
    StampColumnsListed();
    SiftLength(Get(raw, "Year"), Get(raw, "Description"), IsDetailRow);
    SiftLength(Get(raw, "Month"), Get(raw, "Description"), IsDetailRow);
  }

  lemma StampColumnsListed()
    ensures IdColumn in CubeOutput && "system_source" in CubeOutput && "als_lab" in CubeOutput && "year_month" in CubeOutput
  {
    assert CubeOutput[0] == IdColumn && CubeOutput[1] == "year_month";
    assert CubeOutput[2] == "system_source" && CubeOutput[3] == "als_lab";
  }

  /** Passion: one output row per detail row; the quantities, sales and
      taxes are the detail rows' own, each a number or a gap, and the
      descriptions are the detail rows' own written as text. */
  lemma PassionSales(raw: Table, alsLab: string, uuid: nat -> string, show: Value -> string)
    requires WellFormed(raw) && Normalize(raw, PassionLayout, alsLab, uuid, show).Ok? && Fresh(raw)
    ensures "Description" in Labels(raw) && "Qty" in Labels(raw) && "Net_Sales" in Labels(raw) && "Tax_Sales" in Labels(raw)
    ensures var out := Normalize(raw, PassionLayout, alsLab, uuid, show).value;
      out.height == Count(Get(raw, "Description"), IsDetailRow) &&
      Get(out, "quantity") == Detail(raw, "Qty") && Get(out, "net_sales") == Detail(raw, "Net_Sales") &&
      Get(out, "tax_sales") == Detail(raw, "Tax_Sales") &&
      forall i :: 0 <= i < out.height ==> Get(out, "product_description")[i] == TextCell(Detail(raw, "Description")[i], show)
    ensures FloatValues(Detail(raw, "Qty")) && FloatValues(Detail(raw, "Net_Sales")) && FloatValues(Detail(raw, "Tax_Sales"))
  {
    PassionLayoutApart();
    PassionMovesSales();
    NormalizeCarries(raw, PassionLayout, alsLab, uuid, show, 6, "Qty", "quantity");
    NormalizeCarries(raw, PassionLayout, alsLab, uuid, show, 7, "Net_Sales", "net_sales");
    NormalizeCarries(raw, PassionLayout, alsLab, uuid, show, 8, "Tax_Sales", "tax_sales");
    NormalizeStrs(raw, PassionLayout, alsLab, uuid, show, 5, "Description", "product_description");
    NormalizeFloats(raw, PassionLayout, alsLab, uuid, show, "Qty");
    NormalizeFloats(raw, PassionLayout, alsLab, uuid, show, "Net_Sales");
    NormalizeFloats(raw, PassionLayout, alsLab, uuid, show, "Tax_Sales");
  }

  /** Passion: the ship id is the detail row's own, truncated, or 0 where
      it was missing; every detail row's customer id was a number (so the
      "Unknown" fill of a blank one always ends in the cast's error) and
      reaches the output truncated. */
  lemma PassionIds(raw: Table, alsLab: string, uuid: nat -> string, show: Value -> string)
    requires WellFormed(raw) && Normalize(raw, PassionLayout, alsLab, uuid, show).Ok? && Fresh(raw)
    ensures "shipid" in Labels(raw) && "custID" in Labels(raw)
    ensures var out := Normalize(raw, PassionLayout, alsLab, uuid, show).value;
      forall i :: 0 <= i < out.height ==>
        Filled(Detail(raw, "shipid")[i], Num(0.0)).Num? &&
        Get(out, "ship_id")[i] == Num(Truncate(Filled(Detail(raw, "shipid")[i], Num(0.0)).amount) as real) &&
        Detail(raw, "custID")[i].Num? &&
        Get(out, "customer_id")[i] == Num(Truncate(Detail(raw, "custID")[i].amount) as real)
  {
    PassionLayoutApart();
    PassionMovesIds();
    NormalizeShip(raw, PassionLayout, alsLab, uuid, show, 0, "shipid", "ship_id");
    NormalizeCustomer(raw, PassionLayout, alsLab, uuid, show, 2, "custID", "customer_id");
  }

  /** Passion: the ship's and the customer's names have "Unknown" for a
      gap and are written as text. */
  lemma PassionNames(raw: Table, alsLab: string, uuid: nat -> string, show: Value -> string)
    requires WellFormed(raw) && Normalize(raw, PassionLayout, alsLab, uuid, show).Ok? && Fresh(raw)
    ensures "shipfullname" in Labels(raw) && "CustFullName" in Labels(raw)
    ensures var out := Normalize(raw, PassionLayout, alsLab, uuid, show).value;
      forall i :: 0 <= i < out.height ==>
        Get(out, "ship_name")[i] == TextCell(Filled(Detail(raw, "shipfullname")[i], Unknown), show) &&
        Get(out, "customer_name")[i] == TextCell(Filled(Detail(raw, "CustFullName")[i], Unknown), show)
  {
    PassionLayoutApart();
    PassionMovesNames();
    NormalizeTexts(raw, PassionLayout, alsLab, uuid, show, 1, "shipfullname", "ship_name");
    NormalizeTexts(raw, PassionLayout, alsLab, uuid, show, 3, "CustFullName", "customer_name");
  }

  /** Passion: the product codes are written as text and stripped, and so
      are never missing; the address and the price band are "Unknown" and
      the two unit prices missing in every row. */
  lemma PassionProducts(raw: Table, alsLab: string, uuid: nat -> string, show: Value -> string)
    requires WellFormed(raw) && Normalize(raw, PassionLayout, alsLab, uuid, show).Ok? && Fresh(raw)
    ensures "code" in Labels(raw)
    ensures var out := Normalize(raw, PassionLayout, alsLab, uuid, show).value;
      forall i :: 0 <= i < out.height ==>
        Get(out, "product_code")[i].Str? && Get(out, "product_code")[i] == StripCell(TextCell(Detail(raw, "code")[i], show)) &&
        Get(out, "ship_address")[i] == Unknown && Get(out, "original_lab_price_band")[i] == Unknown &&
        Get(out, "net_unit_price")[i] == Null && Get(out, "discounted_unit_price")[i] == Null
  {
    PassionLayoutApart();
    PassionMovesProducts();
    PassionPlaces();
    NormalizeCode(raw, PassionLayout, alsLab, uuid, show, 4, "product_code");
    NormalizePlaces(raw, PassionLayout, alsLab, uuid, show, "ship_address", Unknown);
    NormalizePlaces(raw, PassionLayout, alsLab, uuid, show, "original_lab_price_band", Unknown);
    NormalizePlaces(raw, PassionLayout, alsLab, uuid, show, "net_unit_price", Null);
    NormalizePlaces(raw, PassionLayout, alsLab, uuid, show, "discounted_unit_price", Null);
  }

  /** Passion: each row's identifier and tags, and the first of the
      month read from its Year and Month. */
  lemma PassionStamps(raw: Table, alsLab: string, uuid: nat -> string, show: Value -> string)
    requires WellFormed(raw) && Normalize(raw, PassionLayout, alsLab, uuid, show).Ok?
    ensures "Year" in Labels(raw) && "Month" in Labels(raw) && "Description" in Labels(raw)
    ensures var out := Normalize(raw, PassionLayout, alsLab, uuid, show).value;
      IdColumn in Labels(out) && "system_source" in Labels(out) && "als_lab" in Labels(out) && "year_month" in Labels(out) &&
      |Detail(raw, "Year")| == out.height && |Detail(raw, "Month")| == out.height &&
      forall i :: 0 <= i < out.height ==>
        Get(out, IdColumn)[i] == Str(uuid(i)) &&
        Get(out, "system_source")[i] == Str("Transactor") && Get(out, "als_lab")[i] == Str(alsLab) &&
        Detail(raw, "Year")[i].Num? && Detail(raw, "Month")[i].Num? &&
        AssemblesTo(Get(out, "year_month")[i], Truncate(Detail(raw, "Year")[i].amount), Truncate(Detail(raw, "Month")[i].amount)) &&
        (1 <= Truncate(Detail(raw, "Month")[i].amount) <= 12 ==>
          Get(out, "year_month")[i] == Date(Truncate(Detail(raw, "Year")[i].amount), Truncate(Detail(raw, "Month")[i].amount), 1))
  {
    PassionLayoutApart();
    PassionUntouched();
    NormalizeTags(raw, PassionLayout, alsLab, uuid, show);
    NormalizeDates(raw, PassionLayout, alsLab, uuid, show);
    StampColumnsListed();
    SiftLength(Get(raw, "Year"), Get(raw, "Description"), IsDetailRow);
    SiftLength(Get(raw, "Month"), Get(raw, "Description"), IsDetailRow);
  }

  // ---------------------------------------------------------------------
  // The registered schemas against the column counts

  /** The shape of every output name: lower-case first, with an
      underscore unless it is "quantity". */
  predicate Snake(d: string)
  {
    |d| > 0 && 'a' <= d[0] <= 'z' && ('_' in d || d == "quantity")
  }

  lemma CubeOutputSnake()
    ensures forall d :: d in CubeOutput ==> Snake(d)
  {
  }

  lemma Schema5NotSnake()
    ensures forall d :: d in SchemaRegistry.Schema5 ==> !Snake(d)
  {
  }

  /** A report with Schema_5's columns has the Transactor width and none
      of the output names. */
  lemma Schema5Fits(raw: Table)
    requires WellFormed(raw) && multiset(Labels(raw)) == multiset(SchemaRegistry.Schema5)
    ensures |raw.columns| == TransactorLayout.width && Fresh(raw)
  {
    assert |multiset(Labels(raw))| == |Labels(raw)|;
    CubeOutputSnake();
    Schema5NotSnake();
    forall d | d in CubeOutput ensures d !in Labels(raw) {
      assert d !in multiset(Labels(raw));
    }
  }

  /** Schema_6 is dispatched to `preprocess_transactor`, whose column-count
      check every Schema_6 report fails: it has 9 columns, not 15. */
  lemma Schema6Rejected(raw: Table, alsLab: string, uuid: nat -> string, show: Value -> string)
    requires WellFormed(raw) && multiset(Labels(raw)) == multiset(SchemaRegistry.Schema6)
    ensures Normalize(raw, TransactorLayout, alsLab, uuid, show) == Err(ColumnCount(15, 9))
  {
    assert |multiset(Labels(raw))| == |Labels(raw)|;
  }

  lemma Schema10NotSnake()
    ensures forall d :: d in SchemaRegistry.Schema10 ==> !Snake(d)
  {
  }

  /** A report with Schema_10's columns has the Passion width and none of
      the output names. */
  lemma Schema10Fits(raw: Table)
    requires WellFormed(raw) && multiset(Labels(raw)) == multiset(SchemaRegistry.Schema10)
    ensures |raw.columns| == PassionLayout.width && Fresh(raw)
  {
    assert |multiset(Labels(raw))| == |Labels(raw)|;
    CubeOutputSnake();
    Schema10NotSnake();
    forall d | d in CubeOutput ensures d !in Labels(raw) {
      assert d !in multiset(Labels(raw));
    }
  }

  /** `preprocess_transactor`, step by step. */
  method PreprocessTransactor(raw: Table, alsLab: string, uuid: nat -> string, show: Value -> string) returns (r: Result<Table, Error>)
    requires WellFormed(raw)
    ensures r == Normalize(raw, TransactorLayout, alsLab, uuid, show)
  {
    if |raw.columns| != 15 {
      return Err(ColumnCount(15, |raw.columns|));
    }
    var check := ReconcileTotals(raw);
    if check.Err? {
      return Err(check.error);
    }
    PassingTotals(raw, TotalsColumns);
    assert TotalsColumns[0] == "Qty";
    var detail := RemoveTotalsRows(raw).value;
    var clean :- Clean(detail, TransactorLayout, show);
    var stamped :- Stamp(clean, alsLab, uuid);
    r := Select(Rename(stamped, TransactorRename), CubeOutput);
  }

  /** `prep_transactor_passion_dental_design`, step by step. */
  method PreprocessPassion(raw: Table, alsLab: string, uuid: nat -> string, show: Value -> string) returns (r: Result<Table, Error>)
    requires WellFormed(raw)
    ensures r == Normalize(raw, PassionLayout, alsLab, uuid, show)
  {
    if |raw.columns| != 11 {
      return Err(ColumnCount(11, |raw.columns|));
    }
    var check := ReconcileTotals(raw);
    if check.Err? {
      return Err(check.error);
    }
    PassingTotals(raw, TotalsColumns);
    assert TotalsColumns[0] == "Qty";
    var detail := RemoveTotalsRows(raw).value;
    var clean :- Clean(detail, PassionLayout, show);
    var stamped :- Stamp(clean, alsLab, uuid);
    var placed := AddPlaceholders(stamped, PlaceholderColumns);
    r := Select(Rename(placed, PassionRename), CubeOutput);
  }
}
