/** NHS/Private tagging of lab sales (utils/nhs_mapping.py): the two
    mapping tables built from the Aesthetic World and Woodford price lists,
    and the Ashford tagger, which marks each sale "ALS Lab", its price-list
    class, "Private" (RISIO products) or "Unknown". The spreadsheets are
    parameters: reading them is not modelled. */
module NhsMapping {
  import opened Wrappers
  import opened Text
  import opened Tables
  import opened Steps
  import Settings

  // ---------------------------------------------------------------------
  // for col in df.columns: df[col] = df[col].str.strip()

  lemma StripValuesIdempotent(v: seq<Value>)
    ensures MapValues(StripCell, MapValues(StripCell, v)) == MapValues(StripCell, v)
  {
    forall i | 0 <= i < |v| ensures StripCell(StripCell(v[i])) == StripCell(v[i]) {
      StripCellIdempotent(v[i]);
    }
  }

  /** The frame after the strip loop has run over the labels `names`:
      every listed column is stripped, once or several times alike, and
      every other column is unchanged. */
  function StripEach(t: Table, names: seq<string>): (r: Table)
    requires WellFormed(t) && forall c :: c in names ==> c in Labels(t)
    ensures WellFormed(r) && r.height == t.height && Labels(r) == Labels(t)
    ensures forall c :: c in Labels(t) ==>
      Get(r, c) == if c in names then MapValues(StripCell, Get(t, c)) else Get(t, c)
    decreases |names|
  {
    if names == [] then t
    else
      var init := names[..|names| - 1];
      var c := names[|names| - 1];
      assert names == init + [c];
      var front := StripEach(t, init);
      var r := StripColumn(front, c).value;
      StripEachStep(t, init, c, front, r);
      r
  }

  /** The step of StripEach: stripping column `c` of the frame for `init`
      gives the frame for `init + [c]`. */
  lemma StripEachStep(t: Table, init: seq<string>, c: string, front: Table, r: Table)
    requires WellFormed(t) && WellFormed(front) && WellFormed(r) && c in Labels(t)
    requires front.height == t.height && Labels(front) == Labels(t) && r.height == t.height && Labels(r) == Labels(t)
    requires forall d :: d in Labels(t) ==>
      Get(front, d) == if d in init then MapValues(StripCell, Get(t, d)) else Get(t, d)
    requires forall i :: 0 <= i < t.height ==> Get(r, c)[i] == StripCell(Get(front, c)[i])
    requires forall d :: d in Labels(t) && d != c ==> Get(r, d) == Get(front, d)
    ensures forall d :: d in Labels(t) ==>
      Get(r, d) == if d in init + [c] then MapValues(StripCell, Get(t, d)) else Get(t, d)
  {
    StripValuesIdempotent(Get(t, c));
    assert Get(r, c) == MapValues(StripCell, Get(front, c));
  }

  lemma MapValuesCompose(f: Value -> Value, g: Value -> Value, h: Value -> Value, v: seq<Value>)
    requires forall x :: h(x) == f(g(x))
    ensures MapValues(f, MapValues(g, v)) == MapValues(h, v)
  {
  }

  /** The strip loop over every column of `t`. */
  method StripEveryColumn(t: Table) returns (r: Table)
    requires WellFormed(t)
    ensures r == StripEach(t, Labels(t))
  {
    var names := Labels(t);
    r := t;
    for k := 0 to |names|
      invariant r == StripEach(t, names[..k])
    {
      StripOneMore(t, k);
      r := StripColumn(r, names[k]).value;
    }
    assert names[..|names|] == names;
  }

  /** One more round of the strip loop strips one more column. */
  lemma StripOneMore(t: Table, k: nat)
    requires WellFormed(t) && k < |Labels(t)|
    ensures Labels(t)[k] in Labels(StripEach(t, Labels(t)[..k]))
    ensures StripColumn(StripEach(t, Labels(t)[..k]), Labels(t)[k]).Ok?
    ensures StripEach(t, Labels(t)[..k + 1]) == StripColumn(StripEach(t, Labels(t)[..k]), Labels(t)[k]).value
  {
    var names := Labels(t);
    var next := names[..k + 1];
    assert next[..|next| - 1] == names[..k] && next[|next| - 1] == names[k];
    var front := StripEach(t, names[..k]);
    assert names[k] in Labels(front);
    assert StripEach(t, next) == StripColumn(StripEach(t, next[..|next| - 1]), next[|next| - 1]).value;
  }

  // ---------------------------------------------------------------------
  // generate_aesthetic_world_nhs_private_mapping

  const MappingColumn: string := "nhs_or_private_mapping"

  const AestheticRenames: seq<(string, string)> :=
    [("ProductID", "product_code"), ("Description", "product_description"), ("Standard", MappingColumn)]

  /** One Aesthetic World code list with "Price1" dropped and its columns
      renamed; a list without "Price1" raises a KeyError. */
  function CodeList(t: Table): (r: Result<Table, Error>)
    requires WellFormed(t)
    ensures r.Ok? <==> "Price1" in Labels(t)
    ensures r.Err? ==> r.error == MissingColumn("Price1")
    ensures r.Ok? ==> WellFormed(r.value) && r.value.height == t.height
  {
    var d :- Drop(t, ["Price1"]);
    Ok(Rename(d, AestheticRenames))
  }

  lemma AestheticRenamesOneToOne()
    ensures OneToOne(AestheticRenames)
    ensures AestheticRenames[2] == ("Standard", MappingColumn)
  {
  }

  /** A code list's "Standard" column arrives under the mapping label,
      provided the list had no column of that name already. */
  lemma CodeListTags(t: Table)
    requires WellFormed(t) && "Price1" in Labels(t) && "Standard" in Labels(t)
    requires MappingColumn !in Labels(t)
    ensures MappingColumn in Labels(CodeList(t).value)
    ensures Get(CodeList(t).value, MappingColumn) == Get(t, "Standard")
  {
    var d := DropAll(t, ["Price1"]);
    assert Drop(t, ["Price1"]) == Ok(d);
    AestheticRenamesOneToOne();
    RenamePair(d, AestheticRenames, 2);
  }

  /** The `.loc` assignment: an "Economy" tag becomes "NHS". */
  function FoldEconomy(v: Value): Value
  {
    if v == Str("Economy") then Str("NHS") else v
  }

  /** The Aesthetic World mapping as written: both code lists stacked, then
      "Economy" folded into "NHS", then every column stripped. */
  function AestheticWorld(nhs: Table, private: Table): (r: Result<Table, Error>)
    requires WellFormed(nhs) && WellFormed(private)
    ensures r.Ok? <==> ("Price1" in Labels(nhs) && "Price1" in Labels(private) &&
                        MappingColumn in Labels(Concat(CodeList(nhs).value, CodeList(private).value)))
    ensures r.Err? ==> r.error in {MissingColumn("Price1"), MissingColumn(MappingColumn)}
    ensures r.Ok? ==> WellFormed(r.value) && r.value.height == nhs.height + private.height
    ensures r.Ok? ==> Labels(r.value) == Labels(Concat(CodeList(nhs).value, CodeList(private).value))
  {
    var a :- CodeList(nhs);
    var b :- CodeList(private);
    var folded :- MapColumn(Concat(a, b), MappingColumn, FoldEconomy);
    Ok(StripEach(folded, Labels(folded)))
  }

  /** The method as the source runs it: a loop over the two lists, the
      fold, then the strip loop. */
  method GenerateAestheticWorld(nhs: Table, private: Table) returns (r: Result<Table, Error>)
    requires WellFormed(nhs) && WellFormed(private)
    ensures r == AestheticWorld(nhs, private)
  {
    var lists := [nhs, private];
    var parts: seq<Table> := [];
    for k := 0 to 2
      invariant |parts| == k
      invariant forall j :: 0 <= j < k ==> CodeList(lists[j]) == Ok(parts[j])
    {
      var part := CodeList(lists[k]);
      if part.Err? {
        return Err(part.error);
      }
      parts := parts + [part.value];
    }
    var stacked := Concat(parts[0], parts[1]);
    if MappingColumn !in Labels(stacked) {
      return Err(MissingColumn(MappingColumn));
    }
    var folded := MapColumn(stacked, MappingColumn, FoldEconomy).value;
    var stripped := StripEveryColumn(folded);
    return Ok(stripped);
  }

  /** One mapping tag as the source computes it: folded, then stripped. */
  function TagAsWritten(v: Value): Value
  {
    StripCell(FoldEconomy(v))
  }

  lemma NhsIsStripped()
    ensures StripCell(Str("NHS")) == Str("NHS")
  {
    StripOfStripped("NHS");
  }

  /** An exact "Economy" tag ends as "NHS"; any other tag is only stripped. */
  lemma TagAsWrittenCases(v: Value)
    ensures v == Str("Economy") ==> TagAsWritten(v) == Str("NHS")
    ensures v != Str("Economy") ==> TagAsWritten(v) == StripCell(v)
  {
    NhsIsStripped();
  }

  /** The output mapping column is the two "Standard" columns stacked,
      each tag folded then stripped; the other columns are stripped. */
  lemma AestheticWorldTags(nhs: Table, private: Table)
    requires WellFormed(nhs) && WellFormed(private)
    requires "Price1" in Labels(nhs) && "Price1" in Labels(private)
    requires "Standard" in Labels(nhs) && "Standard" in Labels(private)
    requires MappingColumn !in Labels(nhs) && MappingColumn !in Labels(private)
    ensures AestheticWorld(nhs, private).Ok?
    ensures Get(AestheticWorld(nhs, private).value, MappingColumn)
      == MapValues(TagAsWritten, Get(nhs, "Standard") + Get(private, "Standard"))
  {
    CodeListTags(nhs);
    CodeListTags(private);
    var a, b := CodeList(nhs).value, CodeList(private).value;
    var stacked := Concat(a, b);
    var tags := Get(nhs, "Standard") + Get(private, "Standard");
    assert Get(stacked, MappingColumn) == tags;
    var folded := MapColumn(stacked, MappingColumn, FoldEconomy).value;
    var out := StripEach(folded, Labels(folded));
    assert AestheticWorld(nhs, private) == Ok(out);
    assert Get(out, MappingColumn) == MapValues(StripCell, MapValues(FoldEconomy, tags));
    MapValuesCompose(StripCell, FoldEconomy, TagAsWritten, tags);
  }

  lemma EconomyWithSpaceStrips()
    ensures Strip(" Economy") == "Economy"
  {
    var s, e := " Economy", "Economy";
    assert s[0] == ' ' && s[1..] == e;
    assert e[0] == 'E' && e[|e| - 1] == 'y';
    TrimLeftOfNonSpace(e);
    TrimRightOfNonSpace(e);
    assert TrimLeft(s) == e;
  }

  /** As written, a tag that is "Economy" only after stripping, such as
      " Economy", escapes the fold and comes out as "Economy". */
  lemma EconomySurvivesAsWritten()
    ensures TagAsWritten(Str(" Economy")) == Str("Economy")
  {
    EconomyWithSpaceStrips();
  }

  /** One mapping tag stripped first, then folded. */
  function TagStripFirst(v: Value): (r: Value)
    ensures r != Str("Economy")
    ensures StripCell(v) == Str("Economy") ==> r == Str("NHS")
    ensures StripCell(v) != Str("Economy") ==> r == StripCell(v)
  {
    FoldEconomy(StripCell(v))
  }

  /** The Aesthetic World mapping with the strip moved before the fold. */
  function AestheticWorldStripFirst(nhs: Table, private: Table): (r: Result<Table, Error>)
    requires WellFormed(nhs) && WellFormed(private)
    ensures r.Ok? <==> AestheticWorld(nhs, private).Ok?
    ensures r.Ok? ==> WellFormed(r.value) && r.value.height == nhs.height + private.height
  {
    var a :- CodeList(nhs);
    var b :- CodeList(private);
    var stacked := Concat(a, b);
    var stripped := StripEach(stacked, Labels(stacked));
    MapColumn(stripped, MappingColumn, FoldEconomy)
  }

  /** With the strip first, no output tag is "Economy": every tag that
      strips to "Economy" is "NHS", and every other tag is only stripped. */
  lemma AestheticWorldStripFirstTags(nhs: Table, private: Table)
    requires WellFormed(nhs) && WellFormed(private)
    requires "Price1" in Labels(nhs) && "Price1" in Labels(private)
    requires "Standard" in Labels(nhs) && "Standard" in Labels(private)
    requires MappingColumn !in Labels(nhs) && MappingColumn !in Labels(private)
    ensures AestheticWorldStripFirst(nhs, private).Ok?
    ensures Get(AestheticWorldStripFirst(nhs, private).value, MappingColumn)
      == MapValues(TagStripFirst, Get(nhs, "Standard") + Get(private, "Standard"))
    ensures Str("Economy") !in Get(AestheticWorldStripFirst(nhs, private).value, MappingColumn)
  {
    CodeListTags(nhs);
    CodeListTags(private);
    var a, b := CodeList(nhs).value, CodeList(private).value;
    var stacked := Concat(a, b);
    var tags := Get(nhs, "Standard") + Get(private, "Standard");
    assert Get(stacked, MappingColumn) == tags;
    var stripped := StripEach(stacked, Labels(stacked));
    assert AestheticWorldStripFirst(nhs, private) == MapColumn(stripped, MappingColumn, FoldEconomy);
    var out := Get(AestheticWorldStripFirst(nhs, private).value, MappingColumn);
    assert out == MapValues(FoldEconomy, MapValues(StripCell, tags));
    MapValuesCompose(FoldEconomy, StripCell, TagStripFirst, tags);
    NoEconomyTag(tags);
  }

  lemma NoEconomyTag(tags: seq<Value>)
    ensures Str("Economy") !in MapValues(TagStripFirst, tags)
  {
    var out := MapValues(TagStripFirst, tags);
    forall i | 0 <= i < |out| ensures out[i] != Str("Economy") {
      assert out[i] == TagStripFirst(tags[i]);
    }
  }

  // ---------------------------------------------------------------------
  // generate_woodford_nhs_private_mapping

  const WoodfordColumns: seq<string> := ["Product Price List 1 - Default", "Unnamed: 1", "Unnamed: 5"]

  const WoodfordRenames: seq<(string, string)> := [
    ("Product Price List 1 - Default", MappingColumn),
    ("Unnamed: 1", "product_code"),
    ("Unnamed: 5", "product_description")
  ]

  const WoodfordLabels: seq<string> := [MappingColumn, "product_code", "product_description"]

  /** The sheet rows the price list occupies: `iloc[8:789]`. */
  const FirstSheetRow: nat := 8
  const EndSheetRow: nat := 789

  lemma WoodfordRenamesFacts()
    ensures OneToOne(WoodfordRenames) && |WoodfordRenames| == 3
    ensures forall j :: 0 <= j < 3 ==> WoodfordRenames[j] == (WoodfordColumns[j], WoodfordLabels[j])
    ensures forall j :: 0 <= j < 3 ==> Renamed(WoodfordRenames, WoodfordColumns[j]) == WoodfordLabels[j]
    ensures forall j :: 0 <= j < 3 ==> WoodfordLabels[j] !in WoodfordColumns
  {
    RenamedFirst(WoodfordRenames, 0);
    RenamedFirst(WoodfordRenames, 1);
    RenamedFirst(WoodfordRenames, 2);
  }

  /** The renamed selection carries the three new labels, each with the
      values of its sheet column. */
  lemma WoodfordRenamed(picked: Table)
    requires WellFormed(picked) && Labels(picked) == WoodfordColumns
    ensures Labels(Rename(picked, WoodfordRenames)) == WoodfordLabels
    ensures forall j :: 0 <= j < 3 ==>
      Get(Rename(picked, WoodfordRenames), WoodfordLabels[j]) == Get(picked, WoodfordColumns[j])
  {
    WoodfordRenamesFacts();
    var named := Rename(picked, WoodfordRenames);
    forall k | 0 <= k < 3 ensures Labels(named)[k] == WoodfordLabels[k] {
      assert picked.columns[k].name == Labels(picked)[k];
    }
    assert Labels(named) == WoodfordLabels;
    forall j | 0 <= j < 3
      ensures Get(named, WoodfordLabels[j]) == Get(picked, WoodfordColumns[j])
    {
      RenamePair(picked, WoodfordRenames, j);
    }
  }

  /** The key `dropna(how="all")` tests on two columns: the code, or the
      description where the code is missing; it is missing exactly when
      both are. */
  function CodeOrDescription(code: seq<Value>, description: seq<Value>): (k: seq<Value>)
    requires |code| == |description|
    ensures |k| == |code|
    ensures forall i :: 0 <= i < |k| ==> (IsPresent(k[i]) <==> IsPresent(code[i]) || IsPresent(description[i]))
  {
    seq(|code|, i requires 0 <= i < |code| => if code[i].Null? then description[i] else code[i])
  }

  /** The three selected sheet columns renamed, without the rows that
      have neither a code nor a description (`dropna(how="all")`). */
  function WoodfordKept(picked: Table): (r: Table)
    requires WellFormed(picked) && Labels(picked) == WoodfordColumns
    ensures WellFormed(r) && Labels(r) == WoodfordLabels
    ensures var keys := CodeOrDescription(Get(picked, WoodfordColumns[1]), Get(picked, WoodfordColumns[2]));
      r.height == Count(keys, IsPresent) &&
      forall j :: 0 <= j < 3 ==> Get(r, WoodfordLabels[j]) == Sift(Get(picked, WoodfordColumns[j]), keys, IsPresent)
  {
    WoodfordRenamed(picked);
    var named := Rename(picked, WoodfordRenames);
    var keys := CodeOrDescription(Get(named, WoodfordLabels[1]), Get(named, WoodfordLabels[2]));
    Keep(named, keys, IsPresent)
  }

  /** The Woodford mapping: sheet rows 8 to 788, three columns renamed,
      rows with neither code nor description dropped, every column
      stripped. A sheet without one of the three columns raises a KeyError. */
  function Woodford(prices: Table): (r: Result<Table, Error>)
    requires WellFormed(prices)
    ensures r.Ok? <==> forall n :: n in WoodfordColumns ==> n in Labels(prices)
    ensures r.Err? ==> r.error.MissingColumn? && r.error.name in WoodfordColumns
    ensures r.Ok? ==> WellFormed(r.value) && Labels(r.value) == WoodfordLabels
    ensures r.Ok? ==> r.value.height <= EndSheetRow - FirstSheetRow
  {
    var picked :- Select(Slice(prices, FirstSheetRow, EndSheetRow), WoodfordColumns);
    var kept := WoodfordKept(picked);
    Ok(StripEach(kept, Labels(kept)))
  }

  /** The method as the source runs it, with the strip loop. */
  method GenerateWoodford(prices: Table) returns (r: Result<Table, Error>)
    requires WellFormed(prices)
    ensures r == Woodford(prices)
  {
    var picked := Select(Slice(prices, FirstSheetRow, EndSheetRow), WoodfordColumns);
    if picked.Err? {
      return Err(picked.error);
    }
    var kept := WoodfordKept(picked.value);
    var stripped := StripEveryColumn(kept);
    return Ok(stripped);
  }

  /** A selected sheet column is the report's column cut to the sheet rows. */
  lemma PickedColumn(prices: Table, n: string)
    requires WellFormed(prices) && forall m :: m in WoodfordColumns ==> m in Labels(prices)
    requires n in WoodfordColumns
    ensures var h := prices.height;
      var picked := Select(Slice(prices, FirstSheetRow, EndSheetRow), WoodfordColumns);
      Clip(FirstSheetRow, h) <= Clip(EndSheetRow, h) && picked.Ok? && n in Labels(picked.value) &&
      Get(picked.value, n) == Get(prices, n)[Clip(FirstSheetRow, h)..Clip(EndSheetRow, h)]
  {
  }

  /** Each output column is its sheet column cut to rows 8..788, with the
      rows lacking both code and description removed, then stripped. */
  lemma WoodfordColumnsKept(prices: Table, j: nat)
    requires WellFormed(prices) && j < 3
    requires forall n :: n in WoodfordColumns ==> n in Labels(prices)
    ensures var h := prices.height;
      var a := Clip(FirstSheetRow, h);
      var b := Clip(EndSheetRow, h);
      var code := Get(prices, WoodfordColumns[1])[a..b];
      var description := Get(prices, WoodfordColumns[2])[a..b];
      var keys := CodeOrDescription(code, description);
      Woodford(prices).Ok? && WoodfordLabels[j] in Labels(Woodford(prices).value) &&
      Woodford(prices).value.height == Count(keys, IsPresent) &&
      Get(Woodford(prices).value, WoodfordLabels[j])
        == MapValues(StripCell, Sift(Get(prices, WoodfordColumns[j])[a..b], keys, IsPresent))
  {
    var h := prices.height;
    var a, b := Clip(FirstSheetRow, h), Clip(EndSheetRow, h);
    var picked := Select(Slice(prices, FirstSheetRow, EndSheetRow), WoodfordColumns).value;
    var kept := WoodfordKept(picked);
    var out := StripEach(kept, Labels(kept));
    assert Woodford(prices) == Ok(out);
    var column := Get(prices, WoodfordColumns[j])[a..b];
    var code := Get(prices, WoodfordColumns[1])[a..b];
    var description := Get(prices, WoodfordColumns[2])[a..b];
    PickedColumn(prices, WoodfordColumns[j]);
    PickedColumn(prices, WoodfordColumns[1]);
    PickedColumn(prices, WoodfordColumns[2]);
    var keys := CodeOrDescription(code, description);
    assert Get(kept, WoodfordLabels[j]) == Sift(column, keys, IsPresent);
    assert WoodfordLabels[j] in Labels(kept);
    assert Get(out, WoodfordLabels[j]) == MapValues(StripCell, Sift(column, keys, IsPresent));
  }

  // ---------------------------------------------------------------------
  // nhs_private_tag_ashford

  /** One sale as the row-wise steps (the ALS search and the two merges)
      see it: its value under each column label. */
  type Row = map<string, Value>

  const PracticeName: string := "practice_name"
  const CustomerName: string := "customer_name"
  const OrderUuid: string := "order_uuid"
  const ProductCode: string := "product_code"
  const ProductDescription: string := "product_description"
  const TagColumn: string := "nhs_private_tag"
  const ProductId: string := "ProductID"
  const ClassColumn: string := "Class"

  /** The price-list columns dropped at the end, in the order listed. */
  const DroppedColumns: seq<string> := [ProductId, "Description", "Price 2024", ClassColumn]

  const AlsLab: Value := Str("ALS Lab")
  const Private: Value := Str("Private")
  const Unknown: Value := Str("Unknown")

  function RowAt(t: Table, i: nat): (r: Row)
    requires WellFormed(t) && i < t.height
    ensures forall c :: c in r <==> c in Labels(t)
    ensures forall c :: c in Labels(t) ==> r[c] == Get(t, c)[i]
  {
    map c | c in Labels(t) :: Get(t, c)[i]
  }

  /** The frame's rows, top to bottom. */
  function Rows(t: Table): (rows: seq<Row>)
    requires WellFormed(t)
    ensures |rows| == t.height
    ensures forall i :: 0 <= i < |rows| ==> rows[i] == RowAt(t, i)
  {
    seq(t.height, i requires 0 <= i < t.height => RowAt(t, i))
  }

  predicate HasKey(rows: seq<Row>, c: string)
  {
    forall i :: 0 <= i < |rows| ==> c in rows[i]
  }

  lemma RowsHaveLabels(t: Table, c: string)
    requires WellFormed(t) && c in Labels(t)
    ensures HasKey(Rows(t), c)
  {
  }

  // The search for the group's own labs (lines 94-143)

  /** The search list the tagger hard-codes, in its order. */
  const TaggerSearchTerms: seq<string> := TaggerTermsHead + TaggerTermsTail

  const TaggerTermsHead: seq<string> := [
    "leca", "ashford", "casterbridge", "dental technique", "cardiff ortho",
    "woodford", "dental excellence", "passion", "ceramics", "denture centre",
    "veus", "precedental", "ken poland", "bristol crown", "bristol cadcam",
    "bristol cad-cam", "iw dental"
  ]

  const TaggerTermsTail: seq<string> := [
    "ip milling", "reiner", "halo", "burke ortho", "dent 8", "dent8",
    "densign", "aesthetic world", "aplus", "a plus", "oakview restorations",
    "oakview", "central dental", "central dental lab", "ceroplast",
    "european dental lab", "innovate"
  ]

  /** The hard-coded list is, element for element, the configured
      `ALS_NAME_SEARCH_TERM`. */
  lemma TaggerTermsAreConfigured()
    ensures TaggerSearchTerms == Settings.AlsNameSearchTerm
  {
    assert TaggerTermsHead == Settings.SearchTermsHead;
    assert TaggerTermsTail == Settings.SearchTermsTail;
  }

  /** `.str.lower()` on one cell; a cell that is not text comes out missing. */
  function LowerCell(v: Value): (r: Value)
    ensures r.Str? <==> v.Str?
    ensures r.Str? ==> HasNoUpper(r.text)
  {
    if v.Str? then LowerFixesLowerCase(v.text); Str(Lower(v.text)) else Null
  }

  /** `.str.contains(term)` on one cell, read as a substring test; a missing
      value never matches. */
  predicate CellContains(v: Value, term: string)
  {
    v.Str? && Contains(v.text, term)
  }

  /** The selection test of one search term, `customer | practice` on the
      two `.str.contains` masks: the lower-cased customer name or practice
      name contains it. A mask cell is missing where the name is not text;
      `|` then gives false when the missing cell is on its left and reads
      a missing cell on its right as false, so a sale with no customer
      name is never selected. */
  predicate MatchesTerm(r: Row, term: string)
    requires CustomerName in r && PracticeName in r
  {
    LowerCell(r[CustomerName]).Str? &&
    (CellContains(LowerCell(r[CustomerName]), term) || CellContains(LowerCell(r[PracticeName]), term))
  }

  /** As written, a sale whose customer name is missing is not selected
      even when its practice name contains the term. */
  lemma MissingCustomerNeverMatches(r: Row, term: string)
    requires CustomerName in r && PracticeName in r && !r[CustomerName].Str?
    ensures !MatchesTerm(r, term)
  {
  }

  /** A sale whose customer name is text is selected exactly when either
      lower-cased name contains the term. */
  lemma NamedCustomerMatches(r: Row, term: string)
    requires CustomerName in r && PracticeName in r && r[CustomerName].Str?
    ensures MatchesTerm(r, term) <==>
      Contains(Lower(r[CustomerName].text), term) ||
      (r[PracticeName].Str? && Contains(Lower(r[PracticeName].text), term))
  {
  }

  /** A term with a capital letter can never match a lower-cased name,
      which is why every search term is lower case. */
  lemma CapitalTermNeverMatches(r: Row, term: string)
    requires CustomerName in r && PracticeName in r
    requires !HasNoUpper(term)
    ensures !MatchesTerm(r, term)
  {
    forall v: Value | v.Str? && HasNoUpper(v.text) ensures !CellContains(v, term) {
    }
  }

  predicate HasNames(rows: seq<Row>)
  {
    forall i :: 0 <= i < |rows| ==> CustomerName in rows[i] && PracticeName in rows[i]
  }

  /** `df.loc[mask]` for one term: the rows it selects, in order. */
  function Selected(rows: seq<Row>, term: string): (s: seq<Row>)
    requires HasNames(rows)
    ensures forall r :: r in s ==> r in rows
  {
    if rows == [] then []
    else (if MatchesTerm(rows[0], term) then [rows[0]] else []) + Selected(rows[1..], term)
  }

  /** The ALS subset: the selections of the terms concatenated in term
      order, so a sale matching several terms is listed once per term. */
  function AlsRows(rows: seq<Row>, terms: seq<string>): (s: seq<Row>)
    requires HasNames(rows)
    ensures forall r :: r in s ==> r in rows
  {
    if terms == [] then [] else AlsRows(rows, terms[..|terms| - 1]) + Selected(rows, terms[|terms| - 1])
  }

  /** How many of `terms` a sale matches, counted with repetition. */
  function TermCount(r: Row, terms: seq<string>): nat
    requires CustomerName in r && PracticeName in r
  {
    if terms == [] then 0
    else TermCount(r, terms[..|terms| - 1]) + (if MatchesTerm(r, terms[|terms| - 1]) then 1 else 0)
  }

  /** Some term matches the sale. */
  predicate Matches(r: Row, terms: seq<string>)
    requires CustomerName in r && PracticeName in r
  {
    exists j :: 0 <= j < |terms| && MatchesTerm(r, terms[j])
  }

  lemma {:induction false} TermCountPositive(r: Row, terms: seq<string>)
    requires CustomerName in r && PracticeName in r
    ensures TermCount(r, terms) > 0 <==> Matches(r, terms)
  {
    if terms != [] {
      var init := terms[..|terms| - 1];
      TermCountPositive(r, init);
      if Matches(r, init) {
        var j :| 0 <= j < |init| && MatchesTerm(r, init[j]);
        assert terms[j] == init[j];
      }
      if Matches(r, terms) && !MatchesTerm(r, terms[|terms| - 1]) {
        var j :| 0 <= j < |terms| && MatchesTerm(r, terms[j]);
        assert init[j] == terms[j];
      }
    }
  }

  /** Two distinct matching terms count twice. */
  lemma {:induction false} TermCountAtLeastTwo(r: Row, terms: seq<string>, a: nat, b: nat)
    requires CustomerName in r && PracticeName in r
    requires a < b < |terms| && MatchesTerm(r, terms[a]) && MatchesTerm(r, terms[b])
    ensures TermCount(r, terms) >= 2
  {
    var init := terms[..|terms| - 1];
    if b < |terms| - 1 {
      assert init[a] == terms[a] && init[b] == terms[b];
      TermCountAtLeastTwo(r, init, a, b);
    } else {
      assert init[a] == terms[a];
      TermCountPositive(r, init);
    }
  }

  /** A customer called "central dental lab" matches both "central dental"
      and "central dental lab". */
  lemma CentralDentalLabMatchesTwice(r: Row)
    requires CustomerName in r && PracticeName in r
    requires r[CustomerName] == Str("central dental lab")
    ensures TermCount(r, TaggerSearchTerms) >= 2
  {
    var name := "central dental lab";
    LowerFixesLowerCase(name);
    assert HasNoUpper(name);
    assert LowerCell(r[CustomerName]) == Str(name);
    assert TaggerSearchTerms[29] == "central dental" && TaggerSearchTerms[30] == name;
    assert name[0..14] == "central dental";
    ContainsAt(name, "central dental", 0);
    ContainsAt(name, name, 0);
    TermCountAtLeastTwo(r, TaggerSearchTerms, 29, 30);
  }

  // The merge with the ALS subset on order_uuid (lines 146-150)

  /** How many rows of `als` carry the order id `u`. */
  function IdCount(als: seq<Row>, u: Value): nat
    requires HasKey(als, OrderUuid)
  {
    if als == [] then 0 else (if als[0][OrderUuid] == u then 1 else 0) + IdCount(als[1..], u)
  }

  /** The tag one sale gets from the merge: "ALS Lab" when an ALS row
      carries its id, missing otherwise. */
  function AlsTagOf(r: Row, als: seq<Row>): Value
    requires OrderUuid in r && HasKey(als, OrderUuid)
  {
    if IdCount(als, r[OrderUuid]) == 0 then Null else AlsLab
  }

  /** The left merge of one sale: one tagged copy per ALS row with its id,
      or the sale once, untagged, when there is none. */
  function AlsMerged(r: Row, als: seq<Row>): (s: seq<Row>)
    requires OrderUuid in r && HasKey(als, OrderUuid)
    ensures |s| == if IdCount(als, r[OrderUuid]) == 0 then 1 else IdCount(als, r[OrderUuid])
    ensures forall k :: 0 <= k < |s| ==> s[k] == r[TagColumn := AlsTagOf(r, als)]
  {
    var n := IdCount(als, r[OrderUuid]);
    if n == 0 then [r[TagColumn := Null]] else seq(n, _ => r[TagColumn := AlsLab])
  }

  /** `tagged.merge(als[["order_uuid", "nhs_private_tag"]], on="order_uuid", how="left")`. */
  function MergeAls(rows: seq<Row>, als: seq<Row>): (s: seq<Row>)
    requires HasKey(rows, OrderUuid) && HasKey(als, OrderUuid)
  {
    if rows == [] then [] else AlsMerged(rows[0], als) + MergeAls(rows[1..], als)
  }

  /** Every merged row is a sale with the tag the merge gives it. */
  lemma {:induction false} MergeAlsFrom(rows: seq<Row>, als: seq<Row>, k: nat)
    requires HasKey(rows, OrderUuid) && HasKey(als, OrderUuid)
    requires k < |MergeAls(rows, als)|
    ensures exists i :: 0 <= i < |rows| && MergeAls(rows, als)[k] == rows[i][TagColumn := AlsTagOf(rows[i], als)]
  {
    var head := AlsMerged(rows[0], als);
    if k < |head| {
      assert MergeAls(rows, als)[k] == head[k];
    } else {
      MergeAlsFrom(rows[1..], als, k - |head|);
      var i :| 0 <= i < |rows[1..]| && MergeAls(rows[1..], als)[k - |head|] == rows[1..][i][TagColumn := AlsTagOf(rows[1..][i], als)];
      assert MergeAls(rows, als)[k] == rows[i + 1][TagColumn := AlsTagOf(rows[i + 1], als)];
    }
  }

  /** Every sale appears in the merge, with the tag the merge gives it. */
  lemma {:induction false} MergeAlsTo(rows: seq<Row>, als: seq<Row>, i: nat) returns (k: nat)
    requires HasKey(rows, OrderUuid) && HasKey(als, OrderUuid) && i < |rows|
    ensures k < |MergeAls(rows, als)| && MergeAls(rows, als)[k] == rows[i][TagColumn := AlsTagOf(rows[i], als)]
  {
    var head := AlsMerged(rows[0], als);
    if i == 0 {
      k := 0;
      assert MergeAls(rows, als)[k] == head[0];
    } else {
      var k' := MergeAlsTo(rows[1..], als, i - 1);
      k := |head| + k';
      assert rows[1..][i - 1] == rows[i];
      assert MergeAls(rows, als)[k] == MergeAls(rows[1..], als)[k'];
    }
  }

  lemma {:induction false} MergeAlsKeys(rows: seq<Row>, als: seq<Row>, c: string)
    requires HasKey(rows, OrderUuid) && HasKey(als, OrderUuid) && HasKey(rows, c)
    ensures HasKey(MergeAls(rows, als), c) && HasKey(MergeAls(rows, als), TagColumn)
  {
    forall k | 0 <= k < |MergeAls(rows, als)| ensures c in MergeAls(rows, als)[k] && TagColumn in MergeAls(rows, als)[k] {
      MergeAlsFrom(rows, als, k);
    }
  }

  // The price list (lines 152-156)

  /** The price list with its ProductID column converted to text. */
  function IdsAsText(price: Table, show: Value -> string): (r: Table)
    requires WellFormed(price) && ProductId in Labels(price)
    ensures WellFormed(r) && r.height == price.height && Labels(r) == Labels(price)
    ensures forall i :: 0 <= i < r.height ==> Get(r, ProductId)[i] == TextCell(Get(price, ProductId)[i], show)
    ensures forall c :: c in Labels(price) && c != ProductId ==> Get(r, c) == Get(price, c)
  {
    MapColumn(price, ProductId, (v: Value) => TextCell(v, show)).value
  }

  /** The caller's price list, which the tagger changes in place. */
  class PriceList {
    var table: Table

    constructor(t: Table)
      ensures table == t
    {
      table := t;
    }

    /** `ashford_price_list["ProductID"] = ...astype(str)`. */
    method IdsToText(show: Value -> string)
      requires WellFormed(table) && ProductId in Labels(table)
      modifies this
      ensures table == IdsAsText(old(table), show)
    {
      table := IdsAsText(table, show);
    }
  }

  /** The price rows whose ProductID equals the sale's product code, in
      price-list order. */
  function PriceMatches(r: Row, prices: seq<Row>): (s: seq<Row>)
    requires ProductCode in r && HasKey(prices, ProductId)
    ensures forall p :: p in s ==> p in prices
  {
    if prices == [] then []
    else (if prices[0][ProductId] == r[ProductCode] then [prices[0]] else []) + PriceMatches(r, prices[1..])
  }

  /** A price row with every label missing. */
  function NullRow(labels: seq<string>): (p: Row)
    ensures forall c :: c in p <==> c in labels
    ensures forall c :: c in p ==> p[c] == Null
  {
    map c | c in labels :: Null
  }

  /** The price rows one sale is joined with: its matches, or a row of
      missing values when it has none. */
  function Candidates(r: Row, prices: seq<Row>, labels: seq<string>): (s: seq<Row>)
    requires ProductCode in r && HasKey(prices, ProductId)
    ensures |s| >= 1
  {
    var m := PriceMatches(r, prices);
    if m == [] then [NullRow(labels)] else m
  }

  /** `tagged.merge(price_list, left_on="product_code", right_on="ProductID", how="left")`. */
  function MergePrices(rows: seq<Row>, prices: seq<Row>, labels: seq<string>): (s: seq<Row>)
    requires HasKey(rows, ProductCode) && HasKey(prices, ProductId)
  {
    if rows == [] then []
    else
      var c := Candidates(rows[0], prices, labels);
      seq(|c|, j requires 0 <= j < |c| => rows[0] + c[j]) + MergePrices(rows[1..], prices, labels)
  }

  /** Every merged row is a sale joined with one of its candidates. */
  lemma {:induction false} MergePricesFrom(rows: seq<Row>, prices: seq<Row>, labels: seq<string>, k: nat)
    requires HasKey(rows, ProductCode) && HasKey(prices, ProductId)
    requires k < |MergePrices(rows, prices, labels)|
    ensures exists i, j :: (0 <= i < |rows| && 0 <= j < |Candidates(rows[i], prices, labels)| &&
                            MergePrices(rows, prices, labels)[k] == rows[i] + Candidates(rows[i], prices, labels)[j])
  {
    var c := Candidates(rows[0], prices, labels);
    var head := seq(|c|, j requires 0 <= j < |c| => rows[0] + c[j]);
    assert MergePrices(rows, prices, labels) == head + MergePrices(rows[1..], prices, labels);
    if k < |head| {
      assert MergePrices(rows, prices, labels)[k] == rows[0] + c[k];
    } else {
      MergePricesFrom(rows[1..], prices, labels, k - |head|);
      var i, j :| 0 <= i < |rows[1..]| && 0 <= j < |Candidates(rows[1..][i], prices, labels)| &&
        MergePrices(rows[1..], prices, labels)[k - |head|] == rows[1..][i] + Candidates(rows[1..][i], prices, labels)[j];
      assert rows[1..][i] == rows[i + 1];
    }
  }

  /** The merge starts with the first sale's joins and goes on with the
      merge of the others. */
  lemma MergePricesHead(rows: seq<Row>, prices: seq<Row>, labels: seq<string>)
    requires HasKey(rows, ProductCode) && HasKey(prices, ProductId) && rows != []
    ensures HasKey(rows[1..], ProductCode)
    ensures var n := |Candidates(rows[0], prices, labels)|;
      |MergePrices(rows, prices, labels)| == n + |MergePrices(rows[1..], prices, labels)| &&
      (forall j :: 0 <= j < n ==>
         MergePrices(rows, prices, labels)[j] == rows[0] + Candidates(rows[0], prices, labels)[j]) &&
      (forall k :: 0 <= k < |MergePrices(rows[1..], prices, labels)| ==>
         MergePrices(rows, prices, labels)[n + k] == MergePrices(rows[1..], prices, labels)[k])
  {
    var c := Candidates(rows[0], prices, labels);
    var head := seq(|c|, j requires 0 <= j < |c| => rows[0] + c[j]);
    assert MergePrices(rows, prices, labels) == head + MergePrices(rows[1..], prices, labels);
  }

  /** Every sale joined with each of its candidates appears in the merge. */
  lemma {:induction false} MergePricesTo(rows: seq<Row>, prices: seq<Row>, labels: seq<string>, i: nat, j: nat)
    returns (k: nat)
    requires HasKey(rows, ProductCode) && HasKey(prices, ProductId)
    requires i < |rows| && j < |Candidates(rows[i], prices, labels)|
    ensures k < |MergePrices(rows, prices, labels)| &&
      MergePrices(rows, prices, labels)[k] == rows[i] + Candidates(rows[i], prices, labels)[j]
  {
    MergePricesHead(rows, prices, labels);
    var merged := MergePrices(rows, prices, labels);
    if i == 0 {
      k := j;
      assert merged[k] == rows[0] + Candidates(rows[0], prices, labels)[j];
    } else {
      var rest := rows[1..];
      assert rest[i - 1] == rows[i];
      var k' := MergePricesTo(rest, prices, labels, i - 1, j);
      k := |Candidates(rows[0], prices, labels)| + k';
      var joined := rows[i] + Candidates(rows[i], prices, labels)[j];
      assert MergePrices(rest, prices, labels)[k'] == joined;
      assert merged[k] == MergePrices(rest, prices, labels)[k'];
    }
  }

  // The tag rules (lines 157-173)

  /** The tag after lines 157-168: the class fills a missing tag, a RISIO
      product becomes "Private", and what is still missing becomes
      "Unknown". */
  function FinalTag(r: Row): (t: Value)
    requires TagColumn in r && ClassColumn in r && ProductDescription in r
    ensures !t.Null?
  {
    var filled := Filled(r[TagColumn], r[ClassColumn]);
    var marked := if CellContains(r[ProductDescription], "RISIO") then Private else filled;
    Filled(marked, Unknown)
  }

  /** One output row: the final tag set, the price-list columns dropped. */
  function Finish(r: Row): (o: Row)
    requires TagColumn in r && ClassColumn in r && ProductDescription in r
    ensures TagColumn in o && o[TagColumn] == FinalTag(r)
  {
    r[TagColumn := FinalTag(r)] - {ProductId, "Description", "Price 2024", ClassColumn}
  }

  /** A row's value under a label, missing when the row lacks it. */
  function Cell(m: Row, c: string): Value
  {
    if c in m then m[c] else Null
  }

  /** The precedence the rules implement, as one ladder: RISIO, then the
      ALS match, then the price-list class, then "Unknown". */
  function ReferenceTag(m: Row, als: bool): Value
  {
    if CellContains(Cell(m, ProductDescription), "RISIO") then Private
    else if als then AlsLab
    else if !Cell(m, ClassColumn).Null? then Cell(m, ClassColumn)
    else Unknown
  }

  /** The source's fill-override-fill sequence computes the ladder: the
      class only fills a sale the ALS merge left untagged, and RISIO
      overrides both. */
  lemma FinalTagIsReference(m: Row, als: bool)
    requires ClassColumn in m && ProductDescription in m
    ensures FinalTag(m[TagColumn := if als then AlsLab else Null]) == ReferenceTag(m, als)
  {
  }

  /** Columns the sales frame or the price list provides after the merge. */
  predicate Provided(prep: Table, price: Table, c: string)
  {
    c in Labels(prep) || c in Labels(price)
  }

  /** The KeyErrors raised after the price list is converted and before
      the RISIO mask is read, in the order the columns are read: the merge
      key (line 155), the class (line 158) and the description (line 163). */
  function LaterError(prep: Table, price: Table): (e: Option<Error>)
    ensures e.None? <==> (ProductCode in Labels(prep) && Provided(prep, price, ClassColumn) &&
                          Provided(prep, price, ProductDescription))
  {
    if ProductCode !in Labels(prep) then Some(MissingColumn(ProductCode))
    else if !Provided(prep, price, ClassColumn) then Some(MissingColumn(ClassColumn))
    else if !Provided(prep, price, ProductDescription) then Some(MissingColumn(ProductDescription))
    else None
  }

  /** The KeyError of the column drop (lines 171-173), which runs after the
      RISIO mask: ProductID and Class are there by then, so only the two
      price-list columns no earlier step reads can be missing. */
  function DropError(prep: Table, price: Table): (e: Option<Error>)
    ensures e.None? <==> (Provided(prep, price, "Description") && Provided(prep, price, "Price 2024"))
    ensures e.Some? ==> e.value.MissingColumn? && !Provided(prep, price, e.value.name)
  {
    if !Provided(prep, price, "Description") then Some(MissingColumn("Description"))
    else if !Provided(prep, price, "Price 2024") then Some(MissingColumn("Price 2024"))
    else None
  }

  /** The rows after the ALS merge carry what the price steps read. */
  predicate Priceable(tagged: seq<Row>, price: Table)
  {
    forall i :: 0 <= i < |tagged| ==>
      ProductCode in tagged[i] && TagColumn in tagged[i] &&
      (ClassColumn in tagged[i] || ClassColumn in Labels(price)) &&
      (ProductDescription in tagged[i] || ProductDescription in Labels(price))
  }

  /** The price merge (lines 153-156) of the ALS-merged rows with the
      converted price list. */
  function Merged(tagged: seq<Row>, price: Table): (merged: seq<Row>)
    requires WellFormed(price) && ProductId in Labels(price) && Priceable(tagged, price)
    ensures HasKey(Rows(price), ProductId) && merged == MergePrices(tagged, Rows(price), Labels(price))
    ensures forall k :: 0 <= k < |merged| ==>
      TagColumn in merged[k] && ClassColumn in merged[k] && ProductDescription in merged[k]
  {
    var prices := Rows(price);
    RowsHaveLabels(price, ProductId);
    var merged := MergePrices(tagged, prices, Labels(price));
    assert forall k :: 0 <= k < |merged| ==>
        TagColumn in merged[k] && ClassColumn in merged[k] && ProductDescription in merged[k] by {
      forall k | 0 <= k < |merged|
        ensures TagColumn in merged[k] && ClassColumn in merged[k] && ProductDescription in merged[k]
      {
        MergePricesFrom(tagged, prices, Labels(price), k);
        var i, j :| 0 <= i < |tagged| && 0 <= j < |Candidates(tagged[i], prices, Labels(price))| &&
          merged[k] == tagged[i] + Candidates(tagged[i], prices, Labels(price))[j];
        CandidateKeys(tagged[i], price, j);
      }
    }
    merged
  }

  /** The RISIO mask (line 163) has no missing cell: every merged row's
      product description is text. */
  predicate RisioMaskDefined(merged: seq<Row>)
  {
    forall k :: 0 <= k < |merged| ==> Cell(merged[k], ProductDescription).Str?
  }

  /** Lines 157-173 on the merged rows of the sales frame `prep`. The
      RISIO mask raises when a product description is not text:
      `.str.contains` leaves that cell of the mask missing, and `.loc`
      refuses such a mask. Only a defined mask reaches the column drop,
      which raises when the merged frame lacks a dropped column. */
  function PricedRows(tagged: seq<Row>, price: Table, prep: Table): (out: Result<seq<Row>, Error>)
    requires WellFormed(price) && ProductId in Labels(price) && Priceable(tagged, price)
    ensures out.Ok? <==> RisioMaskDefined(Merged(tagged, price)) && DropError(prep, price).None?
    ensures !RisioMaskDefined(Merged(tagged, price)) ==> out == Err(MaskWithNA(ProductDescription))
    ensures RisioMaskDefined(Merged(tagged, price)) && DropError(prep, price).Some? ==>
      out == Err(DropError(prep, price).value)
    ensures out.Ok? ==> |out.value| == |Merged(tagged, price)|
    ensures out.Ok? ==> forall k :: 0 <= k < |out.value| ==> TagColumn in out.value[k] && !out.value[k][TagColumn].Null?
  {
    var merged := Merged(tagged, price);
    if !RisioMaskDefined(merged) then Err(MaskWithNA(ProductDescription))
    else if DropError(prep, price).Some? then Err(DropError(prep, price).value)
    else Ok(seq(|merged|, k requires 0 <= k < |merged| => Finish(merged[k])))
  }

  /** A candidate carries every price-list label. */
  lemma CandidateKeys(r: Row, price: Table, j: nat)
    requires WellFormed(price) && ProductId in Labels(price) && ProductCode in r
    requires HasKey(Rows(price), ProductId)
    requires j < |Candidates(r, Rows(price), Labels(price))|
    ensures forall c :: c in Labels(price) <==> c in Candidates(r, Rows(price), Labels(price))[j]
  {
    var m := PriceMatches(r, Rows(price));
    if m != [] {
      assert m[j] in Rows(price);
    }
  }

  /** The columns the tagger reads before the price list is converted. */
  predicate ReadsSales(prep: Table)
  {
    PracticeName in Labels(prep) && CustomerName in Labels(prep) && OrderUuid in Labels(prep)
  }

  lemma SalesRows(prep: Table)
    requires WellFormed(prep) && ReadsSales(prep)
    ensures HasNames(Rows(prep)) && HasKey(Rows(prep), OrderUuid)
    ensures HasKey(AlsRows(Rows(prep), TaggerSearchTerms), OrderUuid)
  {
    var rows := Rows(prep);
    RowsHaveLabels(prep, OrderUuid);
    var als := AlsRows(rows, TaggerSearchTerms);
    forall k | 0 <= k < |als| ensures OrderUuid in als[k] {
      assert als[k] in rows;
    }
  }

  /** The rows after the ALS merge, one or more per sale. */
  function AlsTagged(prep: Table): (tagged: seq<Row>)
    requires WellFormed(prep) && ReadsSales(prep)
  {
    SalesRows(prep);
    var rows := Rows(prep);
    MergeAls(rows, AlsRows(rows, TaggerSearchTerms))
  }

  /** The tagger as written: ALS search, merge on order id, price-list
      conversion and merge, tag rules, column drop; each missing column
      raises the KeyError of the first step that reads it. */
  function TagAshford(prep: Table, price: Table, show: Value -> string): (r: Result<seq<Row>, Error>)
    requires WellFormed(prep) && WellFormed(price)
    ensures r.Ok? <==> (ReadsSales(prep) && ProductId in Labels(price) && LaterError(prep, price).None? &&
                        DescriptionsAreText(prep, price, show) && DropError(prep, price).None?)
    ensures (ReadsSales(prep) && ProductId in Labels(price) && LaterError(prep, price).None? &&
             !DescriptionsAreText(prep, price, show)) ==>
      r == Err(MaskWithNA(ProductDescription))
    ensures (ReadsSales(prep) && ProductId in Labels(price) && LaterError(prep, price).None? &&
             DescriptionsAreText(prep, price, show) && DropError(prep, price).Some?) ==>
      r == Err(DropError(prep, price).value)
    ensures r.Err? ==> r.error.MissingColumn? || r.error == MaskWithNA(ProductDescription)
    ensures r.Ok? ==> forall k :: 0 <= k < |r.value| ==> TagColumn in r.value[k] && !r.value[k][TagColumn].Null?
  {
    if PracticeName !in Labels(prep) then Err(MissingColumn(PracticeName))
    else if CustomerName !in Labels(prep) then Err(MissingColumn(CustomerName))
    else if OrderUuid !in Labels(prep) then Err(MissingColumn(OrderUuid))
    else if ProductId !in Labels(price) then Err(MissingColumn(ProductId))
    else if LaterError(prep, price).Some? then Err(LaterError(prep, price).value)
    else
      var converted := IdsAsText(price, show);
      assert DropError(prep, converted) == DropError(prep, price);
      DescribedMaskDefined(prep, price, show);
      PricedRows(AlsTagged(prep), converted, prep)
  }

  /** Every sale's product description, next to each price row it is
      joined with, is text: the RISIO mask then has no missing cell. */
  predicate DescriptionsAreText(prep: Table, price: Table, show: Value -> string)
    requires WellFormed(prep) && WellFormed(price)
    requires ProductCode in Labels(prep) && ProductId in Labels(price)
  {
    forall i, j :: 0 <= i < prep.height && 0 <= j < |Joins(prep, price, show, i)| ==>
      Cell(RowAt(prep, i) + Joins(prep, price, show, i)[j], ProductDescription).Str?
  }

  /** The mask over the ALS-merged rows has no missing cell exactly when
      every joined sale's description is text. */
  lemma DescribedMaskDefined(prep: Table, price: Table, show: Value -> string)
    requires WellFormed(prep) && WellFormed(price) && ReadsSales(prep) && ProductId in Labels(price)
    requires LaterError(prep, price).None?
    ensures Priceable(AlsTagged(prep), IdsAsText(price, show))
    ensures RisioMaskDefined(Merged(AlsTagged(prep), IdsAsText(price, show))) <==>
      DescriptionsAreText(prep, price, show)
  {
    var converted := IdsAsText(price, show);
    TaggedPriceable(prep, converted);
    SalesRows(prep);
    RowsHaveLabels(prep, ProductCode);
    RowsHaveLabels(converted, ProductId);
    var rows := Rows(prep);
    var als := AlsRows(rows, TaggerSearchTerms);
    assert AlsTagged(prep) == MergeAls(rows, als);
    AlsMaskDefined(rows, als, Rows(converted), Labels(converted));
    AlsMaskDescribed(rows, als, Rows(converted), Labels(converted));
    JoinsOfRows(prep, price, show);
  }

  /** The sales-frame form of the description condition. */
  lemma JoinsOfRows(prep: Table, price: Table, show: Value -> string)
    requires WellFormed(prep) && WellFormed(price) && ProductCode in Labels(prep) && ProductId in Labels(price)
    ensures HasKey(Rows(prep), ProductCode) && HasKey(Rows(IdsAsText(price, show)), ProductId)
    ensures DescriptionsAreText(prep, price, show) <==>
      JoinsDescribed(Rows(prep), Rows(IdsAsText(price, show)), Labels(IdsAsText(price, show)))
  {
    var converted := IdsAsText(price, show);
    RowsHaveLabels(prep, ProductCode);
    RowsHaveLabels(converted, ProductId);
    var rows := Rows(prep);
    forall i | 0 <= i < prep.height
      ensures Joins(prep, price, show, i) == Candidates(rows[i], Rows(converted), Labels(converted))
    {
    }
  }

  /** Each sale next to each of its candidate price rows has a text
      description. */
  predicate JoinsDescribed(rows: seq<Row>, prices: seq<Row>, labels: seq<string>)
    requires HasKey(rows, ProductCode) && HasKey(prices, ProductId)
  {
    forall i, j :: 0 <= i < |rows| && 0 <= j < |Candidates(rows[i], prices, labels)| ==>
      Cell(rows[i] + Candidates(rows[i], prices, labels)[j], ProductDescription).Str?
  }

  /** Setting the tag leaves a joined row's description alone. */
  lemma RetagKeepsDescription(r: Row, x: Value, c: Row)
    ensures Cell(r[TagColumn := x] + c, ProductDescription) == Cell(r + c, ProductDescription)
  {
    assert ProductDescription != TagColumn;
  }

  lemma AlsMaskDefined(rows: seq<Row>, als: seq<Row>, prices: seq<Row>, labels: seq<string>)
    requires HasKey(rows, OrderUuid) && HasKey(als, OrderUuid) && HasKey(rows, ProductCode) && HasKey(prices, ProductId)
    ensures HasKey(MergeAls(rows, als), ProductCode)
    ensures JoinsDescribed(rows, prices, labels) ==> RisioMaskDefined(MergePrices(MergeAls(rows, als), prices, labels))
  {
    var tagged := MergeAls(rows, als);
    MergeAlsKeys(rows, als, ProductCode);
    if JoinsDescribed(rows, prices, labels) {
      var merged := MergePrices(tagged, prices, labels);
      forall k | 0 <= k < |merged| ensures Cell(merged[k], ProductDescription).Str? {
        MergePricesFrom(tagged, prices, labels, k);
        var i', j :| 0 <= i' < |tagged| && 0 <= j < |Candidates(tagged[i'], prices, labels)| &&
          merged[k] == tagged[i'] + Candidates(tagged[i'], prices, labels)[j];
        MergeAlsFrom(rows, als, i');
        var i :| 0 <= i < |rows| && tagged[i'] == rows[i][TagColumn := AlsTagOf(rows[i], als)];
        SameCodeSameMatches(tagged[i'], rows[i], prices);
        RetagKeepsDescription(rows[i], AlsTagOf(rows[i], als), Candidates(rows[i], prices, labels)[j]);
      }
    }
  }

  lemma AlsMaskDescribed(rows: seq<Row>, als: seq<Row>, prices: seq<Row>, labels: seq<string>)
    requires HasKey(rows, OrderUuid) && HasKey(als, OrderUuid) && HasKey(rows, ProductCode) && HasKey(prices, ProductId)
    ensures HasKey(MergeAls(rows, als), ProductCode)
    ensures RisioMaskDefined(MergePrices(MergeAls(rows, als), prices, labels)) ==> JoinsDescribed(rows, prices, labels)
  {
    var tagged := MergeAls(rows, als);
    MergeAlsKeys(rows, als, ProductCode);
    var merged := MergePrices(tagged, prices, labels);
    if RisioMaskDefined(merged) {
      forall i, j | 0 <= i < |rows| && 0 <= j < |Candidates(rows[i], prices, labels)|
        ensures Cell(rows[i] + Candidates(rows[i], prices, labels)[j], ProductDescription).Str?
      {
        var i' := MergeAlsTo(rows, als, i);
        SameCodeSameMatches(tagged[i'], rows[i], prices);
        var k := MergePricesTo(tagged, prices, labels, i', j);
        RetagKeepsDescription(rows[i], AlsTagOf(rows[i], als), Candidates(rows[i], prices, labels)[j]);
      }
    }
  }

  lemma TaggedPriceable(prep: Table, price: Table)
    requires WellFormed(prep) && WellFormed(price) && ReadsSales(prep)
    requires LaterError(prep, price).None?
    ensures Priceable(AlsTagged(prep), price)
  {
    SalesRows(prep);
    var rows := Rows(prep);
    var als := AlsRows(rows, TaggerSearchTerms);
    var tagged := MergeAls(rows, als);
    assert tagged == AlsTagged(prep);
    forall k | 0 <= k < |tagged| ensures forall c :: c in Labels(prep) ==> c in tagged[k] {
      MergeAlsFrom(rows, als, k);
    }
    MergeAlsKeys(rows, als, OrderUuid);
  }

  /** The search loop: one selection per term, appended in term order. */
  method SearchAls(rows: seq<Row>, terms: seq<string>) returns (als: seq<Row>)
    requires HasNames(rows)
    ensures als == AlsRows(rows, terms)
  {
    als := [];
    for k := 0 to |terms|
      invariant als == AlsRows(rows, terms[..k])
    {
      assert terms[..k + 1][..k] == terms[..k];
      als := als + Selected(rows, terms[k]);
    }
    assert terms[..|terms|] == terms;
  }

  /** The tagger as the source runs it: the loop over the search terms
      builds the ALS subset, and the caller's price list has its ProductID
      column converted in place once the sales columns have been read. */
  method NhsPrivateTagAshford(prep: Table, prices: PriceList, show: Value -> string) returns (r: Result<seq<Row>, Error>)
    requires WellFormed(prep) && WellFormed(prices.table)
    modifies prices
    ensures r == TagAshford(prep, old(prices.table), show)
    ensures prices.table == if ReadsSales(prep) && ProductId in Labels(old(prices.table))
      then IdsAsText(old(prices.table), show) else old(prices.table)
  {
    var labels := Labels(prep);
    if PracticeName !in labels {
      return Err(MissingColumn(PracticeName));
    }
    if CustomerName !in labels {
      return Err(MissingColumn(CustomerName));
    }
    var rows := Rows(prep);
    RowsHaveLabels(prep, PracticeName);
    RowsHaveLabels(prep, CustomerName);
    var als := SearchAls(rows, TaggerSearchTerms);
    if OrderUuid !in labels {
      return Err(MissingColumn(OrderUuid));
    }
    SalesRows(prep);
    var tagged := MergeAls(rows, als);
    var price := prices.table;
    if ProductId !in Labels(price) {
      return Err(MissingColumn(ProductId));
    }
    prices.IdsToText(show);
    var later := LaterError(prep, price);
    if later.Some? {
      return Err(later.value);
    }
    assert prices.table == IdsAsText(price, show);
    assert tagged == AlsTagged(prep);
    TagAshfordPriced(prep, price, show);
    r := PricedRows(tagged, prices.table, prep);
  }

  /** Once every column it reads is present, the tagger is the price
      steps on the ALS-merged rows. */
  lemma TagAshfordPriced(prep: Table, price: Table, show: Value -> string)
    requires WellFormed(prep) && WellFormed(price) && ReadsSales(prep) && ProductId in Labels(price)
    requires LaterError(prep, price).None?
    ensures Priceable(AlsTagged(prep), IdsAsText(price, show))
    ensures TagAshford(prep, price, show) == PricedRows(AlsTagged(prep), IdsAsText(price, show), prep)
  {
    DescribedMaskDefined(prep, price, show);
  }

  // ---------------------------------------------------------------------
  // What the tagger promises

  /** No two sales share an order id, as the normalizers' fresh ids make
      it. */
  predicate UniqueIds(rows: seq<Row>)
    requires HasKey(rows, OrderUuid)
  {
    forall i, j :: 0 <= i < j < |rows| ==> rows[i][OrderUuid] != rows[j][OrderUuid]
  }

  lemma {:induction false} IdCountAppend(a: seq<Row>, b: seq<Row>, u: Value)
    requires HasKey(a, OrderUuid) && HasKey(b, OrderUuid)
    ensures HasKey(a + b, OrderUuid)
    ensures IdCount(a + b, u) == IdCount(a, u) + IdCount(b, u)
  {
    if a != [] {
      assert (a + b)[1..] == a[1..] + b;
      IdCountAppend(a[1..], b, u);
    } else {
      assert a + b == b;
    }
  }

  lemma {:induction false} IdCountAbsent(a: seq<Row>, u: Value)
    requires HasKey(a, OrderUuid)
    requires forall k :: 0 <= k < |a| ==> a[k][OrderUuid] != u
    ensures IdCount(a, u) == 0
  {
    if a != [] {
      IdCountAbsent(a[1..], u);
    }
  }

  /** With unique ids, one term's selection lists a sale once if the term
      matches it and not at all otherwise. */
  lemma {:induction false} SelectedIdCount(rows: seq<Row>, term: string, i: nat)
    requires HasNames(rows) && HasKey(rows, OrderUuid) && UniqueIds(rows) && i < |rows|
    ensures HasKey(Selected(rows, term), OrderUuid)
    ensures IdCount(Selected(rows, term), rows[i][OrderUuid]) == if MatchesTerm(rows[i], term) then 1 else 0
  {
    var sel := Selected(rows, term);
    forall k | 0 <= k < |sel| ensures OrderUuid in sel[k] {
      assert sel[k] in rows;
    }
    var head := if MatchesTerm(rows[0], term) then [rows[0]] else [];
    var rest := Selected(rows[1..], term);
    assert sel == head + rest;
    assert HasKey(rest, OrderUuid) by {
      forall k | 0 <= k < |rest| ensures OrderUuid in rest[k] {
        assert rest[k] in rows[1..];
      }
    }
    IdCountAppend(head, rest, rows[i][OrderUuid]);
    if i == 0 {
      forall k | 0 <= k < |rest| ensures rest[k][OrderUuid] != rows[0][OrderUuid] {
        assert rest[k] in rows[1..];
        var m :| 0 <= m < |rows[1..]| && rows[1..][m] == rest[k];
        assert rows[m + 1] == rest[k];
      }
      IdCountAbsent(rest, rows[0][OrderUuid]);
    } else {
      SelectedIdCount(rows[1..], term, i - 1);
      assert rows[1..][i - 1] == rows[i];
    }
  }

  /** With unique ids, the ALS subset lists a sale once per term it
      matches. */
  lemma {:induction false} AlsIdCount(rows: seq<Row>, terms: seq<string>, i: nat)
    requires HasNames(rows) && HasKey(rows, OrderUuid) && UniqueIds(rows) && i < |rows|
    ensures HasKey(AlsRows(rows, terms), OrderUuid)
    ensures IdCount(AlsRows(rows, terms), rows[i][OrderUuid]) == TermCount(rows[i], terms)
  {
    if terms != [] {
      var init := terms[..|terms| - 1];
      AlsIdCount(rows, init, i);
      SelectedIdCount(rows, terms[|terms| - 1], i);
      IdCountAppend(AlsRows(rows, init), Selected(rows, terms[|terms| - 1]), rows[i][OrderUuid]);
    }
  }

  function AtLeastOne(n: nat): nat
  {
    if n == 0 then 1 else n
  }

  /** The rows the ALS merge makes: each sale once per term it matches,
      and once when it matches none. */
  function SaleCopies(rows: seq<Row>, terms: seq<string>): nat
    requires HasNames(rows)
  {
    if rows == [] then 0 else AtLeastOne(TermCount(rows[0], terms)) + SaleCopies(rows[1..], terms)
  }

  /** A sale is copied more than once exactly when it matches two terms. */
  lemma {:induction false} SaleCopiesBound(rows: seq<Row>, terms: seq<string>)
    requires HasNames(rows)
    ensures SaleCopies(rows, terms) >= |rows|
    ensures SaleCopies(rows, terms) == |rows| <==> forall i :: 0 <= i < |rows| ==> TermCount(rows[i], terms) <= 1
  {
    if rows != [] {
      SaleCopiesBound(rows[1..], terms);
      if forall i :: 0 <= i < |rows[1..]| ==> TermCount(rows[1..][i], terms) <= 1 {
        assert forall i :: 1 <= i < |rows| ==> TermCount(rows[i], terms) <= 1 by {
          forall i | 1 <= i < |rows| ensures TermCount(rows[i], terms) <= 1 {
            assert rows[i] == rows[1..][i - 1];
          }
        }
      } else {
        var i :| 0 <= i < |rows[1..]| && TermCount(rows[1..][i], terms) > 1;
        assert rows[i + 1] == rows[1..][i];
      }
    }
  }

  lemma {:induction false} MergeAlsLength(rows: seq<Row>, als: seq<Row>, terms: seq<string>)
    requires HasNames(rows) && HasKey(rows, OrderUuid) && HasKey(als, OrderUuid)
    requires forall i :: 0 <= i < |rows| ==> IdCount(als, rows[i][OrderUuid]) == TermCount(rows[i], terms)
    ensures |MergeAls(rows, als)| == SaleCopies(rows, terms)
  {
    if rows != [] {
      MergeAlsLength(rows[1..], als, terms);
    }
  }

  /** No two price-list rows share a ProductID. */
  predicate UniqueProductIds(prices: seq<Row>)
    requires HasKey(prices, ProductId)
  {
    forall i, j :: 0 <= i < j < |prices| ==> prices[i][ProductId] != prices[j][ProductId]
  }

  lemma {:induction false} NoPriceMatch(r: Row, prices: seq<Row>)
    requires ProductCode in r && HasKey(prices, ProductId)
    requires forall k :: 0 <= k < |prices| ==> prices[k][ProductId] != r[ProductCode]
    ensures PriceMatches(r, prices) == []
  {
    if prices != [] {
      NoPriceMatch(r, prices[1..]);
    }
  }

  /** With unique ProductIDs a sale matches at most one price row. */
  lemma {:induction false} UniquePriceMatch(r: Row, prices: seq<Row>)
    requires ProductCode in r && HasKey(prices, ProductId) && UniqueProductIds(prices)
    ensures |PriceMatches(r, prices)| <= 1
  {
    if prices != [] {
      if prices[0][ProductId] == r[ProductCode] {
        NoPriceMatch(r, prices[1..]);
      } else {
        UniquePriceMatch(r, prices[1..]);
      }
    }
  }

  /** The price merge never loses a row, and keeps the count when the
      ProductIDs are unique. */
  lemma {:induction false} MergePricesLength(rows: seq<Row>, prices: seq<Row>, labels: seq<string>)
    requires HasKey(rows, ProductCode) && HasKey(prices, ProductId)
    ensures |MergePrices(rows, prices, labels)| >= |rows|
    ensures UniqueProductIds(prices) ==> |MergePrices(rows, prices, labels)| == |rows|
  {
    if rows != [] {
      MergePricesLength(rows[1..], prices, labels);
      if UniqueProductIds(prices) {
        UniquePriceMatch(rows[0], prices);
      }
    }
  }

  /** Every output row is a merged row with the tag rules applied. */
  lemma PricedRowsFrom(tagged: seq<Row>, price: Table, prep: Table, k: nat) returns (i: nat, j: nat)
    requires WellFormed(price) && ProductId in Labels(price) && Priceable(tagged, price)
    requires PricedRows(tagged, price, prep).Ok? && k < |PricedRows(tagged, price, prep).value|
    ensures HasKey(Rows(price), ProductId)
    ensures i < |tagged| && j < |Candidates(tagged[i], Rows(price), Labels(price))|
    ensures var m := tagged[i] + Candidates(tagged[i], Rows(price), Labels(price))[j];
      TagColumn in m && ClassColumn in m && ProductDescription in m &&
      PricedRows(tagged, price, prep).value[k] == Finish(m)
  {
    RowsHaveLabels(price, ProductId);
    var prices := Rows(price);
    MergePricesFrom(tagged, prices, Labels(price), k);
    i, j :| 0 <= i < |tagged| && 0 <= j < |Candidates(tagged[i], prices, Labels(price))| &&
      MergePrices(tagged, prices, Labels(price))[k] == tagged[i] + Candidates(tagged[i], prices, Labels(price))[j];
    CandidateKeys(tagged[i], price, j);
  }

  /** Joining a tagged sale with a price row that has no tag column gives
      the ladder's tag for the joined sale. */
  lemma JoinedTag(r: Row, c: Row, als: bool)
    requires TagColumn !in c
    requires ClassColumn in r + c && ProductDescription in r + c
    ensures var t := r[TagColumn := if als then AlsLab else Null] + c;
      TagColumn in t && ClassColumn in t && ProductDescription in t &&
      FinalTag(t) == ReferenceTag(r + c, als)
  {
    var x := if als then AlsLab else Null;
    assert r[TagColumn := x] + c == (r + c)[TagColumn := x];
    FinalTagIsReference(r + c, als);
  }

  lemma {:induction false} SameCodeSameMatches(a: Row, b: Row, prices: seq<Row>)
    requires ProductCode in a && ProductCode in b && a[ProductCode] == b[ProductCode]
    requires HasKey(prices, ProductId)
    ensures PriceMatches(a, prices) == PriceMatches(b, prices)
  {
    if prices != [] {
      SameCodeSameMatches(a, b, prices[1..]);
    }
  }

  lemma RowsUniqueIds(prep: Table)
    requires WellFormed(prep) && OrderUuid in Labels(prep) && Distinct(Get(prep, OrderUuid))
    ensures HasKey(Rows(prep), OrderUuid) && UniqueIds(Rows(prep))
  {
    RowsHaveLabels(prep, OrderUuid);
  }

  /** The price rows sale `i` of the sales frame is joined with. */
  function Joins(prep: Table, price: Table, show: Value -> string, i: nat): seq<Row>
    requires WellFormed(prep) && WellFormed(price) && i < prep.height
    requires ProductCode in Labels(prep) && ProductId in Labels(price)
  {
    var converted := IdsAsText(price, show);
    RowsHaveLabels(converted, ProductId);
    Candidates(RowAt(prep, i), Rows(converted), Labels(converted))
  }

  /** Tag precedence, as written: every output row is a sale joined with
      one of its price rows, and its tag is the ladder's: "Private" for a
      RISIO product, else "ALS Lab" when a search term matches the sale,
      else the price-list class, else "Unknown". Order ids are unique, as
      the normalizers make them. */
  lemma TagAshfordPrecedence(prep: Table, price: Table, show: Value -> string, k: nat)
    requires WellFormed(prep) && WellFormed(price) && TagAshford(prep, price, show).Ok?
    requires Distinct(Get(prep, OrderUuid)) && TagColumn !in Labels(price)
    requires k < |TagAshford(prep, price, show).value|
    ensures exists i, j :: (0 <= i < prep.height && 0 <= j < |Joins(prep, price, show, i)| &&
                            TagAshford(prep, price, show).value[k][TagColumn]
                              == ReferenceTag(RowAt(prep, i) + Joins(prep, price, show, i)[j],
                                              Matches(RowAt(prep, i), TaggerSearchTerms)))
  {
    var converted := IdsAsText(price, show);
    TaggedPriceable(prep, converted);
    SalesRows(prep);
    RowsUniqueIds(prep);
    var rows := Rows(prep);
    var als := AlsRows(rows, TaggerSearchTerms);
    var tagged := AlsTagged(prep);
    assert tagged == MergeAls(rows, als);
    assert TagAshford(prep, price, show) == PricedRows(tagged, converted, prep);
    var out := PricedRows(tagged, converted, prep).value;
    var i', j := PricedRowsFrom(tagged, converted, prep, k);
    var prices := Rows(converted);
    MergeAlsFrom(rows, als, i');
    var i :| 0 <= i < |rows| && tagged[i'] == rows[i][TagColumn := AlsTagOf(rows[i], als)];
    SameCodeSameMatches(tagged[i'], rows[i], prices);
    var c := Candidates(rows[i], prices, Labels(converted))[j];
    assert c == Joins(prep, price, show, i)[j];
    CandidateKeys(rows[i], converted, j);
    AlsIdCount(rows, TaggerSearchTerms, i);
    TermCountPositive(rows[i], TaggerSearchTerms);
    var matched := Matches(rows[i], TaggerSearchTerms);
    assert AlsTagOf(rows[i], als) == if matched then AlsLab else Null;
    JoinedTag(rows[i], c, matched);
  }

  /** The row count as written: the ALS merge copies each sale once per
      matching term (and once when none matches), and the price merge
      never loses a row, keeping the count when ProductIDs are unique. */
  lemma TagAshfordRowCount(prep: Table, price: Table, show: Value -> string)
    requires WellFormed(prep) && WellFormed(price) && TagAshford(prep, price, show).Ok?
    requires Distinct(Get(prep, OrderUuid))
    ensures HasNames(Rows(prep))
    ensures |TagAshford(prep, price, show).value| >= SaleCopies(Rows(prep), TaggerSearchTerms) >= prep.height
    ensures HasKey(Rows(IdsAsText(price, show)), ProductId)
    ensures UniqueProductIds(Rows(IdsAsText(price, show))) ==>
      |TagAshford(prep, price, show).value| == SaleCopies(Rows(prep), TaggerSearchTerms)
  {
    var converted := IdsAsText(price, show);
    RowsHaveLabels(converted, ProductId);
    TaggedPriceable(prep, converted);
    SalesRows(prep);
    RowsUniqueIds(prep);
    var rows := Rows(prep);
    var als := AlsRows(rows, TaggerSearchTerms);
    var tagged := AlsTagged(prep);
    assert tagged == MergeAls(rows, als);
    forall i | 0 <= i < |rows| ensures IdCount(als, rows[i][OrderUuid]) == TermCount(rows[i], TaggerSearchTerms) {
      AlsIdCount(rows, TaggerSearchTerms, i);
    }
    MergeAlsLength(rows, als, TaggerSearchTerms);
    SaleCopiesBound(rows, TaggerSearchTerms);
    assert Priceable(tagged, converted);
    assert HasKey(tagged, ProductCode);
    MergePricesLength(tagged, Rows(converted), Labels(converted));
  }

  /** As written, a sale matching two search terms, such as a customer
      named "central dental lab", comes out more than once, so the
      tagged frame has more rows than the sales frame. */
  lemma TagAshfordRepeatsSales(prep: Table, price: Table, show: Value -> string, i: nat)
    requires WellFormed(prep) && WellFormed(price) && TagAshford(prep, price, show).Ok?
    requires Distinct(Get(prep, OrderUuid)) && i < prep.height
    requires TermCount(RowAt(prep, i), TaggerSearchTerms) >= 2
    ensures |TagAshford(prep, price, show).value| > prep.height
  {
    TagAshfordRowCount(prep, price, show);
    SaleCopiesBound(Rows(prep), TaggerSearchTerms);
    assert Rows(prep)[i] == RowAt(prep, i);
  }

  // ---------------------------------------------------------------------
  // The tagger with the ALS match made per sale

  /** Each sale once, tagged "ALS Lab" when any search term matches it. */
  function AlsTaggedOnce(prep: Table): (tagged: seq<Row>)
    requires WellFormed(prep) && ReadsSales(prep)
    ensures |tagged| == prep.height
    ensures forall i :: 0 <= i < |tagged| ==>
      tagged[i] == RowAt(prep, i)[TagColumn := if Matches(RowAt(prep, i), TaggerSearchTerms) then AlsLab else Null]
  {
    var rows := Rows(prep);
    seq(|rows|, i requires 0 <= i < |rows| =>
      rows[i][TagColumn := if Matches(rows[i], TaggerSearchTerms) then AlsLab else Null])
  }

  /** The tagger with the ALS subset taken as a set of sales rather than
      one list per term: same errors, same tag rules. */
  function TagAshfordOnce(prep: Table, price: Table, show: Value -> string): (r: Result<seq<Row>, Error>)
    requires WellFormed(prep) && WellFormed(price)
    ensures r.Err? <==> TagAshford(prep, price, show).Err?
    ensures r.Err? ==> r == TagAshford(prep, price, show)
    ensures r.Ok? ==> forall k :: 0 <= k < |r.value| ==> TagColumn in r.value[k] && !r.value[k][TagColumn].Null?
  {
    if PracticeName !in Labels(prep) then Err(MissingColumn(PracticeName))
    else if CustomerName !in Labels(prep) then Err(MissingColumn(CustomerName))
    else if OrderUuid !in Labels(prep) then Err(MissingColumn(OrderUuid))
    else if ProductId !in Labels(price) then Err(MissingColumn(ProductId))
    else if LaterError(prep, price).Some? then Err(LaterError(prep, price).value)
    else
      var converted := IdsAsText(price, show);
      assert Priceable(AlsTaggedOnce(prep), converted);
      assert DropError(prep, converted) == DropError(prep, price);
      OnceMaskDefined(prep, price, show);
      PricedRows(AlsTaggedOnce(prep), converted, prep)
  }

  /** With one row per sale, the mask has no missing cell exactly when
      every joined sale's description is text. */
  lemma OnceMaskDefined(prep: Table, price: Table, show: Value -> string)
    requires WellFormed(prep) && WellFormed(price) && ReadsSales(prep) && ProductId in Labels(price)
    requires LaterError(prep, price).None?
    ensures Priceable(AlsTaggedOnce(prep), IdsAsText(price, show))
    ensures RisioMaskDefined(Merged(AlsTaggedOnce(prep), IdsAsText(price, show))) <==>
      DescriptionsAreText(prep, price, show)
  {
    var converted := IdsAsText(price, show);
    var tagged := AlsTaggedOnce(prep);
    assert Priceable(tagged, converted);
    RowsHaveLabels(converted, ProductId);
    RetaggedMask(Rows(prep), tagged, Rows(converted), Labels(converted));
    JoinsOfRows(prep, price, show);
  }

  /** Re-tagging each sale in place changes no description the mask
      reads. */
  lemma RetaggedMask(rows: seq<Row>, tagged: seq<Row>, prices: seq<Row>, labels: seq<string>)
    requires HasKey(rows, ProductCode) && HasKey(prices, ProductId) && |tagged| == |rows|
    requires forall i :: 0 <= i < |rows| ==> TagColumn in tagged[i] && tagged[i] == rows[i][TagColumn := tagged[i][TagColumn]]
    ensures HasKey(tagged, ProductCode)
    ensures RisioMaskDefined(MergePrices(tagged, prices, labels)) <==> JoinsDescribed(rows, prices, labels)
  {
    var merged := MergePrices(tagged, prices, labels);
    if RisioMaskDefined(merged) {
      forall i, j | 0 <= i < |rows| && 0 <= j < |Candidates(rows[i], prices, labels)|
        ensures Cell(rows[i] + Candidates(rows[i], prices, labels)[j], ProductDescription).Str?
      {
        SameCodeSameMatches(tagged[i], rows[i], prices);
        var k := MergePricesTo(tagged, prices, labels, i, j);
        RetagKeepsDescription(rows[i], tagged[i][TagColumn], Candidates(rows[i], prices, labels)[j]);
      }
    }
    if JoinsDescribed(rows, prices, labels) {
      forall k | 0 <= k < |merged| ensures Cell(merged[k], ProductDescription).Str? {
        MergePricesFrom(tagged, prices, labels, k);
        var i, j :| 0 <= i < |tagged| && 0 <= j < |Candidates(tagged[i], prices, labels)| &&
          merged[k] == tagged[i] + Candidates(tagged[i], prices, labels)[j];
        SameCodeSameMatches(tagged[i], rows[i], prices);
        RetagKeepsDescription(rows[i], tagged[i][TagColumn], Candidates(rows[i], prices, labels)[j]);
      }
    }
  }

  /** With the per-sale match, every sale appears at least once and
      exactly once when the ProductIDs are unique; no order-id
      assumption is needed. */
  lemma TagAshfordOnceRowCount(prep: Table, price: Table, show: Value -> string)
    requires WellFormed(prep) && WellFormed(price) && TagAshfordOnce(prep, price, show).Ok?
    ensures |TagAshfordOnce(prep, price, show).value| >= prep.height
    ensures HasKey(Rows(IdsAsText(price, show)), ProductId)
    ensures UniqueProductIds(Rows(IdsAsText(price, show))) ==>
      |TagAshfordOnce(prep, price, show).value| == prep.height
  {
    var converted := IdsAsText(price, show);
    RowsHaveLabels(converted, ProductId);
    var tagged := AlsTaggedOnce(prep);
    assert Priceable(tagged, converted);
    MergePricesLength(tagged, Rows(converted), Labels(converted));
  }

  /** Tag precedence with the per-sale match: the same ladder, without
      the order-id assumption. */
  lemma TagAshfordOncePrecedence(prep: Table, price: Table, show: Value -> string, k: nat)
    requires WellFormed(prep) && WellFormed(price) && TagAshfordOnce(prep, price, show).Ok?
    requires TagColumn !in Labels(price)
    requires k < |TagAshfordOnce(prep, price, show).value|
    ensures exists i, j :: (0 <= i < prep.height && 0 <= j < |Joins(prep, price, show, i)| &&
                            TagAshfordOnce(prep, price, show).value[k][TagColumn]
                              == ReferenceTag(RowAt(prep, i) + Joins(prep, price, show, i)[j],
                                              Matches(RowAt(prep, i), TaggerSearchTerms)))
  {
    var converted := IdsAsText(price, show);
    var tagged := AlsTaggedOnce(prep);
    assert Priceable(tagged, converted);
    assert TagAshfordOnce(prep, price, show) == PricedRows(tagged, converted, prep);
    var out := PricedRows(tagged, converted, prep).value;
    var i, j := PricedRowsFrom(tagged, converted, prep, k);
    var prices := Rows(converted);
    var sale := RowAt(prep, i);
    var matched := Matches(sale, TaggerSearchTerms);
    SameCodeSameMatches(tagged[i], sale, prices);
    var c := Candidates(sale, prices, Labels(converted))[j];
    assert c == Joins(prep, price, show, i)[j];
    CandidateKeys(sale, converted, j);
    OutputTag(tagged[i], sale, c, matched, out[k]);
    assert j < |Joins(prep, price, show, i)|;
    assert out[k][TagColumn] == ReferenceTag(RowAt(prep, i) + Joins(prep, price, show, i)[j], matched);
    assert 0 <= i < prep.height && 0 <= j < |Joins(prep, price, show, i)| &&
      TagAshfordOnce(prep, price, show).value[k][TagColumn]
        == ReferenceTag(RowAt(prep, i) + Joins(prep, price, show, i)[j], Matches(RowAt(prep, i), TaggerSearchTerms));
  }

  /** The tag of one output row built from a sale tagged by the ALS match
      and joined with a price row. */
  lemma OutputTag(tagged: Row, sale: Row, c: Row, als: bool, o: Row)
    requires tagged == sale[TagColumn := if als then AlsLab else Null]
    requires TagColumn !in c && ClassColumn in sale + c && ProductDescription in sale + c
    requires TagColumn in tagged + c && ClassColumn in tagged + c && ProductDescription in tagged + c
    requires o == Finish(tagged + c)
    ensures o[TagColumn] == ReferenceTag(sale + c, als)
  {
    JoinedTag(sale, c, als);
  }
}
