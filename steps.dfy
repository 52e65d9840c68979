/** The column steps several normalizers share
    (utils/pre_process_function.py): `.str.strip()`, `astype(int)`,
    `astype(str)`, `astype(float)`, the (Year, Month, 1) date assembly,
    the per-row identifier column, the unit price, and the Transactor
    reconciliation against the "REPORT TOTALS:" row. */
module Steps {
  import opened Wrappers
  import opened Text
  import opened Tables

  // ---------------------------------------------------------------------
  // .str.strip()

  /** `.str.strip()` on one cell: text is stripped, anything that is not
      text comes out missing. */
  function StripCell(v: Value): (r: Value)
    ensures v.Str? ==> r.Str? && r.text == Strip(v.text) && IsStripped(r.text)
    ensures !v.Str? ==> r.Null?
  {
    if v.Str? then Str(Strip(v.text)) else Null
  }

  /** Stripping twice strips no more than stripping once. */
  lemma StripCellIdempotent(v: Value)
    ensures StripCell(StripCell(v)) == StripCell(v)
  {
    if v.Str? {
      StripIdempotent(v.text);
    }
  }

  /** `df[c] = df[c].str.strip()`. */
  function StripColumn(t: Table, c: string): (r: Result<Table, Error>)
    requires WellFormed(t)
    ensures r.Ok? <==> c in Labels(t)
    ensures r.Err? ==> r.error == MissingColumn(c)
    ensures r.Ok? ==> WellFormed(r.value) && r.value.height == t.height && Labels(r.value) == Labels(t)
    ensures r.Ok? ==> forall i :: 0 <= i < t.height ==> Get(r.value, c)[i] == StripCell(Get(t, c)[i])
    ensures r.Ok? ==> forall d :: d in Labels(t) && d != c ==> Get(r.value, d) == Get(t, d)
  {
    MapColumn(t, c, StripCell)
  }

  // ---------------------------------------------------------------------
  // astype(int)

  /** Conversion of a float to an integer, which truncates toward zero. */
  function Truncate(x: real): (n: int)
    ensures 0.0 <= x ==> 0 <= n && n as real <= x < n as real + 1.0
    ensures x < 0.0 ==> n <= 0 && n as real - 1.0 < x <= n as real
  {
    if x >= 0.0 then x.Floor else -((-x).Floor)
  }

  /** `astype(int)` on one cell: a number is truncated; a missing value or
      text raises. */
  function AsIntCell(v: Value): (r: Option<Value>)
    ensures r.Some? <==> v.Num?
    ensures r.Some? ==> r.value == Num(Truncate(v.amount) as real)
  {
    if v.Num? then Some(Num(Truncate(v.amount) as real)) else None
  }

  /** `df[c] = df[c].astype(int)`. */
  function AsInt(t: Table, c: string): (r: Result<Table, Error>)
    requires WellFormed(t)
    ensures c !in Labels(t) ==> r == Err(MissingColumn(c))
    ensures c in Labels(t) ==> (r.Ok? <==> forall i :: 0 <= i < t.height ==> Get(t, c)[i].Num?)
    ensures r.Err? && c in Labels(t) ==> r.error == NotInteger(c)
    ensures r.Ok? ==> WellFormed(r.value) && r.value.height == t.height && Labels(r.value) == Labels(t)
    ensures r.Ok? ==> forall i :: 0 <= i < t.height ==> Get(r.value, c)[i] == Num(Truncate(Get(t, c)[i].amount) as real)
    ensures r.Ok? ==> forall d :: d in Labels(t) && d != c ==> Get(r.value, d) == Get(t, d)
  {
    Convert(t, c, AsIntCell, NotInteger(c))
  }

  // ---------------------------------------------------------------------
  // astype(str) and astype(float)

  /** `astype(str)` on one cell: text is kept, a missing value becomes
      "nan", and any other value is rendered by `show` (Python's `str`,
      whose float formatting is not modelled). */
  function TextCell(v: Value, show: Value -> string): (r: Value)
    ensures r.Str?
    ensures v.Str? ==> r == v
    ensures v.Null? ==> r == Str("nan")
  {
    if v.Str? then v else if v.Null? then Str("nan") else Str(show(v))
  }

  /** `df[c] = df[c].astype(str)` for each listed column in turn. */
  function AsTexts(t: Table, cols: seq<string>, show: Value -> string): (r: Result<Table, Error>)
    requires WellFormed(t)
    ensures r.Ok? <==> forall c :: c in cols ==> c in Labels(t)
    ensures r.Err? ==> r.error.MissingColumn?
    ensures r.Ok? ==> WellFormed(r.value) && r.value.height == t.height && Labels(r.value) == Labels(t)
    ensures r.Ok? ==> forall c, i :: c in cols && 0 <= i < t.height ==> Get(r.value, c)[i] == TextCell(Get(t, c)[i], show)
    ensures r.Ok? ==> forall d :: d in Labels(t) && d !in cols ==> Get(r.value, d) == Get(t, d)
    decreases |cols|
  {
    if cols == [] then Ok(t)
    else
      var a :- MapColumn(t, cols[0], (v: Value) => TextCell(v, show));
      var r := AsTexts(a, cols[1..], show);
      assert r.Ok? ==> forall c, i :: c in cols && 0 <= i < t.height ==> Get(r.value, c)[i] == TextCell(Get(t, c)[i], show) by {
        if r.Ok? {
          forall c, i | c in cols && 0 <= i < t.height
            ensures Get(r.value, c)[i] == TextCell(Get(t, c)[i], show)
          {
            if c != cols[0] {
              assert c in cols[1..];
            } else if c in cols[1..] {
              assert Get(r.value, c)[i] == TextCell(Get(a, c)[i], show);
            }
          }
        }
      }
      r
  }

  /** `astype(float)` on one cell: a number is kept and a missing value
      stays missing (NaN); text or a date raises. */
  function AsFloatCell(v: Value): (r: Option<Value>)
    ensures r.Some? <==> v.Num? || v.Null?
    ensures r.Some? ==> r.value == v
  {
    if v.Num? || v.Null? then Some(v) else None
  }

  /** Every value of column `c` converts to a float. */
  predicate Floats(t: Table, c: string)
    requires WellFormed(t) && c in Labels(t)
  {
    forall i :: 0 <= i < t.height ==> Get(t, c)[i].Num? || Get(t, c)[i].Null?
  }

  /** `df[c] = df[c].astype(float)` for each listed column in turn: the
      first column that is missing or holds a value that is not a number
      raises, and otherwise no value changes. */
  function AsFloats(t: Table, cols: seq<string>): (r: Result<Table, Error>)
    requires WellFormed(t)
    ensures r.Ok? <==> forall c :: c in cols ==> c in Labels(t) && Floats(t, c)
    ensures r.Err? ==> r.error.MissingColumn? || r.error.NotFloat?
    ensures r.Ok? ==> WellFormed(r.value) && r.value.height == t.height && Labels(r.value) == Labels(t)
    ensures r.Ok? ==> forall d :: d in Labels(t) ==> Get(r.value, d) == Get(t, d)
    decreases |cols|
  {
    if cols == [] then Ok(t)
    else
      FloatStep(t, cols[0]);
      var step := Convert(t, cols[0], AsFloatCell, NotFloat(cols[0]));
      if step.Err? then Err(step.error)
      else
        FloatsAfterStep(t, step.value, cols);
        AsFloats(step.value, cols[1..])
  }

  /** Once the first column has been cast, the rest convert exactly when
      all of them did in the original table. */
  lemma FloatsAfterStep(t: Table, a: Table, cols: seq<string>)
    requires WellFormed(t) && WellFormed(a) && a.height == t.height && Labels(a) == Labels(t)
    requires forall d :: d in Labels(t) ==> (Floats(a, d) <==> Floats(t, d))
    requires cols != [] && cols[0] in Labels(t) && Floats(t, cols[0])
    ensures (forall c :: c in cols[1..] ==> c in Labels(a) && Floats(a, c))
        <==> (forall c :: c in cols ==> c in Labels(t) && Floats(t, c))
  {
    assert forall c :: c in cols ==> c == cols[0] || c in cols[1..];
  }

  /** One float cast: it succeeds exactly when the column is present and
      holds only numbers and missing values, and then no column changes. */
  lemma FloatStep(t: Table, c: string)
    requires WellFormed(t)
    ensures var r := Convert(t, c, AsFloatCell, NotFloat(c));
      && (r.Ok? <==> c in Labels(t) && Floats(t, c))
      && (r.Err? ==> r.error.MissingColumn? || r.error.NotFloat?)
      && (r.Ok? ==> WellFormed(r.value) && r.value.height == t.height && Labels(r.value) == Labels(t))
      && (r.Ok? ==> forall d :: d in Labels(t) ==> Get(r.value, d) == Get(t, d) && (Floats(r.value, d) <==> Floats(t, d)))
  {
    var r := Convert(t, c, AsFloatCell, NotFloat(c));
    if r.Ok? {
      assert Get(r.value, c) == Get(t, c);
      SameColumns(t, r.value);
    }
  }

  /** A float cast that succeeds leaves every column as it was. */
  lemma SameColumns(t: Table, a: Table)
    requires WellFormed(t) && WellFormed(a) && a.height == t.height && Labels(a) == Labels(t)
    requires forall d :: d in Labels(t) ==> Get(a, d) == Get(t, d)
    ensures forall d :: d in Labels(t) ==> (Floats(a, d) <==> Floats(t, d))
  {
  }

  // ---------------------------------------------------------------------
  // pd.to_datetime(df[["Year", "Month"]].assign(DAY=1))

  predicate IsWhole(x: real)
  {
    x == x.Floor as real
  }

  /** Timestamps span 1677-09-21 to 2262-04-11, so the first of a month
      exists from October 1677 to April 2262. */
  predicate InTimestampRange(y: int, m: int)
  {
    (1677 < y < 2262) || (y == 1677 && m >= 10) || (y == 2262 && m <= 4)
  }

  /** pandas assembles the date as the number year*10000 + month*100 + 1
      and reads its digits as YYYYMMDD. Since the day is 1, `v` is read
      from year `y` and month `m` exactly when it is the first of a month
      in 1..12 and its year and month, written in base 100, give the same
      number as `y` and `m`: month 112 of 2022 reads as December 2023. */
  predicate AssemblesTo(v: Value, y: int, m: int)
  {
    v.Date? && v.day == 1 && 1 <= v.month <= 12 && 100 * v.year + v.month == 100 * y + m
  }

  /** The first of a month assembled from year `y` and month `m`; a
      missing part gives a missing date, and a date outside the Timestamp
      range, a month whose base-100 digits are not 1..12, a fractional
      part or a textual part raises. */
  function YearMonthCell(y: Value, m: Value): (r: Option<Value>)
    ensures r == Some(Null) <==> y.Null? || m.Null?
    ensures !y.Null? && !m.Null? && !(y.Num? && m.Num?) ==> r.None?
    ensures y.Num? && m.Num? && !(IsWhole(y.amount) && IsWhole(m.amount)) ==> r.None?
    ensures r.Some? && !r.value.Null? ==>
      y.Num? && m.Num? && IsWhole(y.amount) && IsWhole(m.amount) &&
      AssemblesTo(r.value, y.amount.Floor, m.amount.Floor) &&
      InTimestampRange(r.value.year, r.value.month) && 1677 <= r.value.year <= 2262
    ensures y.Num? && m.Num? && IsWhole(y.amount) && IsWhole(m.amount) ==>
      forall v :: AssemblesTo(v, y.amount.Floor, m.amount.Floor) && InTimestampRange(v.year, v.month) ==> r == Some(v)
  {
    if y.Null? || m.Null? then Some(Null)
    else if y.Num? && m.Num? && IsWhole(y.amount) && IsWhole(m.amount) then
      var year, month := y.amount.Floor + m.amount.Floor / 100, m.amount.Floor % 100;
      assert forall v :: AssemblesTo(v, y.amount.Floor, m.amount.Floor) ==> v == Date(year, month, 1) by {
        forall v | AssemblesTo(v, y.amount.Floor, m.amount.Floor)
          ensures v == Date(year, month, 1)
        {
          BaseHundredDigits(v.year, v.month, y.amount.Floor, m.amount.Floor);
        }
      }
      if 1 <= month <= 12 && InTimestampRange(year, month) then Some(Date(year, month, 1)) else None
    else None
  }

  /** Year and month written in base 100 are determined by the number. */
  lemma BaseHundredDigits(a: int, b: int, y: int, m: int)
    requires 0 <= b < 100 && 100 * a + b == 100 * y + m
    ensures a == y + m / 100 && b == m % 100
  {
    assert m == 100 * (a - y) + b;
  }

  /** A month in 1..12 is read as itself. */
  lemma AssembledMonthIsKept(v: Value, y: int, m: int)
    requires AssemblesTo(v, y, m) && 1 <= m <= 12
    ensures v == Date(y, m, 1)
  {
    BaseHundredDigits(v.year, v.month, y, m);
    BaseHundredDigits(y, m, y, m);
  }

  /** Months outside 1..12 carry into the year in base 100, not base 12:
      month 112 of 2022 is December 2023, month -99 of 2023 is January
      2022, and month 13 of 2022 raises. */
  lemma MonthCarries()
    ensures YearMonthCell(Num(2022.0), Num(112.0)) == Some(Date(2023, 12, 1))
    ensures YearMonthCell(Num(2023.0), Num(-99.0)) == Some(Date(2022, 1, 1))
    ensures YearMonthCell(Num(2022.0), Num(13.0)).None?
  {
    assert AssemblesTo(Date(2023, 12, 1), 2022, 112);
    assert AssemblesTo(Date(2022, 1, 1), 2023, -99);
  }

  /** `df["year_month"] = pd.to_datetime(df[["Year", "Month"]].assign(DAY=1))`. */
  function YearMonth(t: Table): (r: Result<Table, Error>)
    requires WellFormed(t)
    ensures "Year" !in Labels(t) ==> r == Err(MissingColumn("Year"))
    ensures "Year" in Labels(t) && "Month" !in Labels(t) ==> r == Err(MissingColumn("Month"))
    ensures r.Err? && "Year" in Labels(t) && "Month" in Labels(t) ==> r.error == InvalidYearMonth
    ensures r.Ok? ==> WellFormed(r.value) && r.value.height == t.height
    ensures r.Ok? ==> Labels(r.value) == if "year_month" in Labels(t) then Labels(t) else Labels(t) + ["year_month"]
    ensures r.Ok? ==> forall i :: 0 <= i < t.height ==>
      YearMonthCell(Get(t, "Year")[i], Get(t, "Month")[i]).Some? &&
      Get(r.value, "year_month")[i] == YearMonthCell(Get(t, "Year")[i], Get(t, "Month")[i]).value
    ensures r.Ok? ==> forall d :: d in Labels(t) && d != "year_month" ==> Get(r.value, d) == Get(t, d)
  {
    Derive(t, "year_month", "Year", "Month", YearMonthCell, InvalidYearMonth)
  }

  /** Whole years and months in 1..12 within the Timestamp range always
      assemble, to the first of the month. */
  lemma YearMonthOfWholeNumbers(t: Table)
    requires WellFormed(t) && "Year" in Labels(t) && "Month" in Labels(t)
    requires forall i :: 0 <= i < t.height ==>
      Get(t, "Year")[i].Num? && IsWhole(Get(t, "Year")[i].amount) &&
      Get(t, "Month")[i].Num? && IsWhole(Get(t, "Month")[i].amount) && 1.0 <= Get(t, "Month")[i].amount <= 12.0 &&
      InTimestampRange(Get(t, "Year")[i].amount.Floor, Get(t, "Month")[i].amount.Floor)
    ensures YearMonth(t).Ok?
    ensures forall i :: 0 <= i < t.height ==>
      Get(YearMonth(t).value, "year_month")[i] == Date(Get(t, "Year")[i].amount.Floor, Get(t, "Month")[i].amount.Floor, 1)
  {
    forall i | 0 <= i < t.height
      ensures YearMonthCell(Get(t, "Year")[i], Get(t, "Month")[i]) ==
        Some(Date(Get(t, "Year")[i].amount.Floor, Get(t, "Month")[i].amount.Floor, 1))
    {
      WholeMonthCell(Get(t, "Year")[i], Get(t, "Month")[i]);
    }
  }

  /** A whole month in 1..12 within the Timestamp range is not carried. */
  lemma WholeMonthCell(y: Value, m: Value)
    requires y.Num? && IsWhole(y.amount) && m.Num? && IsWhole(m.amount) && 1.0 <= m.amount <= 12.0
    requires InTimestampRange(y.amount.Floor, m.amount.Floor)
    ensures YearMonthCell(y, m) == Some(Date(y.amount.Floor, m.amount.Floor, 1))
  {
    assert AssemblesTo(Date(y.amount.Floor, m.amount.Floor, 1), y.amount.Floor, m.amount.Floor);
  }

  // ---------------------------------------------------------------------
  // Row identifiers: df[c] = df.apply(lambda _: uuid.uuid4(), axis=1).astype(str)

  /** The date stage keeps every column and raises only on a date that
      cannot be assembled once both of its columns are there. */
  lemma YearMonthKeeps(t: Table, c: string)
    requires WellFormed(t) && "Year" in Labels(t) && "Month" in Labels(t) && c in Labels(t)
    ensures YearMonth(t).Err? ==> YearMonth(t).error == InvalidYearMonth
    ensures YearMonth(t).Ok? ==> c in Labels(YearMonth(t).value) && "year_month" in Labels(YearMonth(t).value)
  {
  }

  /** Row i gets the identifier `uuid(i)`; the generator is a parameter. */
  function AddIds(t: Table, c: string, uuid: nat -> string): (r: Table)
    requires WellFormed(t)
    ensures WellFormed(r) && r.height == t.height
    ensures Labels(r) == if c in Labels(t) then Labels(t) else Labels(t) + [c]
    ensures forall i :: 0 <= i < t.height ==> Get(r, c)[i] == Str(uuid(i))
    ensures forall d :: d in Labels(t) && d != c ==> Get(r, d) == Get(t, d)
  {
    SetColumn(t, c, seq(t.height, i requires 0 <= i < t.height => Str(uuid(i))))
  }

  lemma IdsLabel(t: Table, c: string, uuid: nat -> string, d: string)
    requires WellFormed(t)
    ensures d in Labels(AddIds(t, c, uuid)) <==> d in Labels(t) || d == c
  {
  }

  lemma AddIdsKeeps(t: Table, c: string, uuid: nat -> string, d: string)
    requires WellFormed(t) && d in Labels(t)
    ensures d in Labels(AddIds(t, c, uuid))
  {
  }

  /** With a generator that never repeats itself, the identifiers are
      pairwise distinct. */
  lemma IdsAreDistinct(t: Table, c: string, uuid: nat -> string)
    requires WellFormed(t)
    requires forall i, j :: 0 <= i < j ==> uuid(i) != uuid(j)
    ensures Distinct(Get(AddIds(t, c, uuid), c))
  {
    var ids := Get(AddIds(t, c, uuid), c);
    forall i, j | 0 <= i < j < |ids| ensures ids[i] != ids[j] {
      assert ids[i] == Str(uuid(i)) && ids[j] == Str(uuid(j));
    }
  }

  // ---------------------------------------------------------------------
  // df["system_source"] = ...; df["als_lab"] = als_lab

  lemma ConstantLabel(t: Table, c: string, v: Value, d: string)
    requires WellFormed(t)
    ensures d in Labels(SetConstant(t, c, v)) <==> d in Labels(t) || d == c
  {
  }

  /** Every row is tagged with the exporting system and the lab. */
  function Tag(t: Table, system: string, alsLab: string): (r: Table)
    requires WellFormed(t)
    ensures WellFormed(r) && r.height == t.height
    ensures forall d :: d in Labels(r) <==> d in Labels(t) || d == "system_source" || d == "als_lab"
    ensures "system_source" in Labels(r) && "als_lab" in Labels(r)
    ensures forall i :: 0 <= i < t.height ==> Get(r, "system_source")[i] == Str(system) && Get(r, "als_lab")[i] == Str(alsLab)
    ensures forall d :: d in Labels(t) && d != "system_source" && d != "als_lab" ==> Get(r, d) == Get(t, d)
  {
    var s := SetConstant(t, "system_source", Str(system));
    var r := SetConstant(s, "als_lab", Str(alsLab));
    assert Get(r, "system_source") == Get(s, "system_source");
    assert forall d :: d in Labels(r) <==> d in Labels(t) || d == "system_source" || d == "als_lab" by {
      forall d ensures d in Labels(r) <==> d in Labels(t) || d == "system_source" || d == "als_lab" {
        ConstantLabel(t, "system_source", Str(system), d);
        ConstantLabel(s, "als_lab", Str(alsLab), d);
      }
    }
    r
  }

  // ---------------------------------------------------------------------
  // df[target] = df["net_sales"] / df["quantity"]

  function UnitPrice(t: Table, target: string): (r: Result<Table, Error>)
    requires WellFormed(t)
    ensures "net_sales" !in Labels(t) ==> r == Err(MissingColumn("net_sales"))
    ensures "net_sales" in Labels(t) && "quantity" !in Labels(t) ==> r == Err(MissingColumn("quantity"))
    ensures r.Err? && "net_sales" in Labels(t) && "quantity" in Labels(t) ==> r.error == NotNumeric(target)
    ensures r.Ok? ==> WellFormed(r.value) && r.value.height == t.height
    ensures r.Ok? ==> Labels(r.value) == if target in Labels(t) then Labels(t) else Labels(t) + [target]
    ensures r.Ok? ==> forall i :: 0 <= i < t.height ==>
      DivCell(Get(t, "net_sales")[i], Get(t, "quantity")[i]).Some? &&
      Get(r.value, target)[i] == DivCell(Get(t, "net_sales")[i], Get(t, "quantity")[i]).value
    ensures r.Ok? ==> forall d :: d in Labels(t) && d != target ==> Get(r.value, d) == Get(t, d)
  {
    Derive(t, target, "net_sales", "quantity", DivCell, NotNumeric(target))
  }

  /** Selecting a column list and then pricing yields that list followed
      by the price, with the selected columns unchanged. */
  lemma SelectThenPrice(t: Table, names: seq<string>, target: string)
    requires WellFormed(t) && Select(t, names).Ok? && target !in names
    requires UnitPrice(Select(t, names).value, target).Ok?
    ensures Labels(UnitPrice(Select(t, names).value, target).value) == names + [target]
    ensures forall d :: d in names ==> Get(UnitPrice(Select(t, names).value, target).value, d) == Get(t, d)
  {
  }

  /** One cell of the unit price: on a row with a non-zero quantity,
      price times quantity gives the net sales back; a missing or zero
      quantity gives no price. */
  lemma PriceOfCell(s: Value, q: Value)
    requires DivCell(s, q).Some?
    ensures s.Num? && q.Num? && q.amount != 0.0 ==> DivCell(s, q).value.Num? && DivCell(s, q).value.amount * q.amount == s.amount
    ensures q.Null? || (q.Num? && q.amount == 0.0) ==> DivCell(s, q).value.Null?
  {
    if s.Num? && q.Num? && q.amount != 0.0 {
      DivTimes(s.amount, q.amount);
    }
  }

  lemma DivTimes(a: real, b: real)
    requires b != 0.0
    ensures (a / b) * b == a
  {
  }

  // ---------------------------------------------------------------------
  // The "REPORT TOTALS:" reconciliation

  const TotalsLabel: string := "REPORT TOTALS:"

  /** The columns reconciled, in the order they are checked. */
  const TotalsColumns: seq<string> := ["Qty", "Net_Sales", "Tax_Sales"]

  predicate IsTotalsRow(description: Value)
  {
    description == Str(TotalsLabel)
  }

  /** `df["Description"] != "REPORT TOTALS:"`, which holds on missing
      descriptions too. */
  predicate IsDetailRow(description: Value)
  {
    description != Str(TotalsLabel)
  }

  /** `Series.sum()`: missing values are skipped; text cannot be summed. */
  function Sum(vals: seq<Value>): (r: Option<real>)
    ensures r.Some? <==> forall i :: 0 <= i < |vals| ==> vals[i].Num? || vals[i].Null?
  {
    if vals == [] then Some(0.0)
    else
      var rest :- Sum(vals[1..]);
      match vals[0]
      case Num(x) => Some(x + rest)
      case Null => Some(rest)
      case _ => None
  }

  /** One round of the reconciliation loop for column `col`: the sum over
      the detail rows minus the first totals row's value must not exceed
      0.01. A missing first total makes the comparison false, so it
      passes. */
  function CheckTotal(t: Table, col: string): (r: Result<(), Error>)
    requires WellFormed(t)
    ensures r.Err? ==> r.error in {MissingColumn("Description"), MissingColumn(col), NotNumeric(col), NoTotalsRow(col), TotalsMismatch(col)}
  {
    if "Description" !in Labels(t) then Err(MissingColumn("Description"))
    else if col !in Labels(t) then Err(MissingColumn(col))
    else
      var keys := Get(t, "Description");
      var detail := Sum(Sift(Get(t, col), keys, IsDetailRow));
      var totals := Sift(Get(t, col), keys, IsTotalsRow);
      if detail.None? then Err(NotNumeric(col))
      else if totals == [] then Err(NoTotalsRow(col))
      else match totals[0]
        case Null => Ok(())
        case Num(x) => if detail.value - x > 0.01 then Err(TotalsMismatch(col)) else Ok(())
        case _ => Err(NotNumeric(col))
  }

  /** The reconciliation of `cols` in order; the first failure is raised. */
  function CheckTotals(t: Table, cols: seq<string>): (r: Result<(), Error>)
    requires WellFormed(t)
    ensures r.Err? ==> !r.error.ColumnCount?
  {
    if cols == [] then Ok(())
    else
      var _ :- CheckTotal(t, cols[0]);
      CheckTotals(t, cols[1..])
  }

  /** The reconciliation loop over Qty, Net_Sales and Tax_Sales. */
  method ReconcileTotals(t: Table) returns (r: Result<(), Error>)
    requires WellFormed(t)
    ensures r == CheckTotals(t, TotalsColumns)
  {
    var i := 0;
    while i < |TotalsColumns|
      invariant 0 <= i <= |TotalsColumns|
      invariant CheckTotals(t, TotalsColumns[i..]) == CheckTotals(t, TotalsColumns)
    {
      var col := TotalsColumns[i];
      var check := CheckTotal(t, col);
      if check.Err? {
        return Err(check.error);
      }
      assert TotalsColumns[i..][1..] == TotalsColumns[i + 1..];
      i := i + 1;
    }
    return Ok(());
  }

  /** A passing reconciliation guarantees, for every checked column, a
      totals row and a detail sum no more than 0.01 above the first total
      (when that total is present). */
  lemma {:induction false} PassingTotals(t: Table, cols: seq<string>)
    requires WellFormed(t) && CheckTotals(t, cols).Ok?
    ensures forall k :: 0 <= k < |cols| ==>
      "Description" in Labels(t) && cols[k] in Labels(t) &&
      var keys := Get(t, "Description");
      var totals := Sift(Get(t, cols[k]), keys, IsTotalsRow);
      var detail := Sum(Sift(Get(t, cols[k]), keys, IsDetailRow));
      detail.Some? && totals != [] &&
      (totals[0].Null? || (totals[0].Num? && detail.value <= totals[0].amount + 0.01))
  {
    if cols != [] {
      assert CheckTotal(t, cols[0]).Ok?;
      PassingTotals(t, cols[1..]);
      forall k | 1 <= k < |cols| ensures cols[k] == cols[1..][k - 1] { }
    }
  }

  /** A report whose totals rows carry the exact sums of the detail rows
      passes. */
  lemma ConsistentReportPasses(t: Table, col: string)
    requires WellFormed(t) && "Description" in Labels(t) && col in Labels(t)
    requires var keys := Get(t, "Description");
      var totals := Sift(Get(t, col), keys, IsTotalsRow);
      var detail := Sum(Sift(Get(t, col), keys, IsDetailRow));
      detail.Some? && totals != [] && totals[0] == Num(detail.value)
    ensures CheckTotal(t, col).Ok?
  {
  }

  /** The check is one-sided: detail rows summing to far less than the
      report total still pass. */
  lemma UnderstatedDetailPasses()
    ensures var t := Table(2, [Column("Description", [Str("crown"), Str(TotalsLabel)]),
                               Column("Qty", [Num(1.0), Num(100.0)])]);
      WellFormed(t) && CheckTotal(t, "Qty").Ok?
  {
    var t := Table(2, [Column("Description", [Str("crown"), Str(TotalsLabel)]),
                       Column("Qty", [Num(1.0), Num(100.0)])]);
    assert Names(t.columns) == ["Description", "Qty"];
    assert Find(t.columns[1..], "Qty") == Some([Num(1.0), Num(100.0)]);
    var keys := Get(t, "Description");
    var qty := Get(t, "Qty");
    assert keys == [Str("crown"), Str(TotalsLabel)];
    assert qty == [Num(1.0), Num(100.0)];
    assert Sift(qty, keys, IsDetailRow) == [Num(1.0)] by {
      assert Sift(qty[1..], keys[1..], IsDetailRow) == [];
    }
    assert Sift(qty, keys, IsTotalsRow) == [Num(100.0)] by {
      assert Sift(qty[1..], keys[1..], IsTotalsRow) == [Num(100.0)];
    }
    assert Sum([Num(1.0)]) == Some(1.0);
  }

  /** `df.loc[df["Description"] != "REPORT TOTALS:", :]`: exactly the totals
      rows are removed and the others keep their order. */
  function RemoveTotalsRows(t: Table): (r: Result<Table, Error>)
    requires WellFormed(t)
    ensures r.Ok? <==> "Description" in Labels(t)
    ensures r.Ok? ==> WellFormed(r.value) && Labels(r.value) == Labels(t)
    ensures r.Ok? ==> r.value.height == Count(Get(t, "Description"), IsDetailRow)
    ensures r.Ok? ==> forall d :: d in Labels(t) ==>
      Get(r.value, d) == Sift(Get(t, d), Get(t, "Description"), IsDetailRow)
    ensures r.Ok? ==> forall i :: 0 <= i < r.value.height ==> !IsTotalsRow(Get(r.value, "Description")[i])
  {
    var r := Where(t, "Description", IsDetailRow);
    assert r.Ok? ==> forall i :: 0 <= i < r.value.height ==> !IsTotalsRow(Get(r.value, "Description")[i]) by {
      if r.Ok? {
        SiftKeys(Get(t, "Description"), IsDetailRow);
        var kept := Get(r.value, "Description");
        assert forall i :: 0 <= i < |kept| ==> kept[i] in kept;
      }
    }
    r
  }
}
