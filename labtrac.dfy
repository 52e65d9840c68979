/** The two Labtrac normalizers (utils/pre_process_function.py:21-278):
    `preprocess_labtrac_new` for the 2021-2023 export layout and
    `preprocess_labtrac_old` for the older one. Both keep the invoiced
    rows, rename the columns to the common vocabulary, tag every row with
    its source system and lab, and add a row identifier and a unit
    price. */
module Labtrac {
  import opened Wrappers
  import opened Text
  import opened Tables
  import opened Steps

  // ---------------------------------------------------------------------
  // preprocess_labtrac_new: the column-drop loop (lines 30-55)

  /** `cols_to_cut`. */
  const NewCut: seq<string> := [
    "Order", "Stage", "Patient", "Recieved", "Due Date",
    "DoctorAnalysis1", "DoctorAnalysis2", "DoctorAnalysis3", "DoctorAnalysis4", "DoctorAnalysis5",
    "Invoice 1", "Invoice 2", "Invoice 3", "Invoice 4", "Invoice 5",
    "Delivery 4", "Status"
  ]

  const DateRename: seq<(string, string)> := [("Date", "CompletedDate")]

  /** What the rename table does to one label. */
  lemma RenamedDate(c: string)
    ensures Renamed(DateRename, c) == if c == "Date" then "CompletedDate" else c
  {
    assert DateRename[0] == ("Date", "CompletedDate");
    assert DateRename[1..] == [];
  }

  /** A cut list the rename cannot interfere with. */
  predicate SparesDate(cut: seq<string>)
  {
    "Date" !in cut && "CompletedDate" !in cut
  }

  lemma NewCutSparesDate()
    ensures SparesDate(NewCut)
  {
  }

  /** One round of the loop for label `col`: a label on the cut list is
      dropped (a KeyError if an earlier round already removed it), and
      "Date" is renamed to "CompletedDate". */
  function CutStep(t: Table, cut: seq<string>, col: string): (r: Result<Table, Error>)
    requires WellFormed(t)
    ensures r.Ok? ==> WellFormed(r.value) && r.value.height == t.height
  {
    var kept :- if col in cut then Drop(t, [col]) else Ok(t);
    Ok(if col == "Date" then Rename(kept, DateRename) else kept)
  }

  /** The loop over `cols` (the labels as they were when it started). */
  function CutColumns(t: Table, cut: seq<string>, cols: seq<string>): (r: Result<Table, Error>)
    requires WellFormed(t)
    ensures r.Ok? ==> WellFormed(r.value) && r.value.height == t.height
  {
    if cols == [] then Ok(t)
    else
      var prev :- CutColumns(t, cut, cols[..|cols| - 1]);
      CutStep(prev, cut, cols[|cols| - 1])
  }

  /** Running one more round extends the loop by that round. */
  lemma CutOneMore(t: Table, cut: seq<string>, cols: seq<string>, i: nat)
    requires WellFormed(t) && i < |cols| && CutColumns(t, cut, cols[..i]).Ok?
    ensures CutColumns(t, cut, cols[..i + 1]) == CutStep(CutColumns(t, cut, cols[..i]).value, cut, cols[i])
  {
    assert cols[..i + 1][..i] == cols[..i];
  }

  /** Once a round raises, the loop raises that error. */
  lemma {:induction false} CutErrorSticks(t: Table, cut: seq<string>, cols: seq<string>, k: nat)
    requires WellFormed(t) && k <= |cols| && CutColumns(t, cut, cols[..k]).Err?
    ensures CutColumns(t, cut, cols) == CutColumns(t, cut, cols[..k])
  {
    if k < |cols| {
      assert cols[..|cols| - 1][..k] == cols[..k];
      CutErrorSticks(t, cut, cols[..|cols| - 1], k);
    } else {
      assert cols[..k] == cols;
    }
  }

  /** The body of the loop for one label. */
  method Round(t: Table, col: string) returns (r: Result<Table, Error>)
    requires WellFormed(t)
    ensures r == CutStep(t, NewCut, col)
  {
    var kept := t;
    if col in NewCut {
      var dropped := Drop(t, [col]);
      if dropped.Err? {
        return Err(dropped.error);
      }
      kept := dropped.value;
    }
    if col == "Date" {
      kept := Rename(kept, DateRename);
    }
    return Ok(kept);
  }

  /** `for col in prep_data.columns: ...`: the loop runs over the labels
      the frame had when it started. */
  method DropExtraneous(raw: Table) returns (r: Result<Table, Error>)
    requires WellFormed(raw)
    ensures r == CutColumns(raw, NewCut, Labels(raw))
  {
    var labels := Labels(raw);
    var t := raw;
    var i := 0;
    while i < |labels|
      invariant 0 <= i <= |labels|
      invariant WellFormed(t)
      invariant CutColumns(raw, NewCut, labels[..i]) == Ok(t)
    {
      var step := Round(t, labels[i]);
      CutOneMore(raw, NewCut, labels, i);
      if step.Err? {
        CutErrorSticks(raw, NewCut, labels, i + 1);
        return step;
      }
      t := step.value;
      i := i + 1;
    }
    assert labels[..i] == labels;
    return Ok(t);
  }

  /** The cut-list labels among `s`. */
  function CutAmong(s: seq<string>, cut: seq<string>): (r: seq<string>)
    ensures forall x :: x in r <==> x in s && x in cut
  {
    if s == [] then [] else CutAmong(s[..|s| - 1], cut) + (if s[|s| - 1] in cut then [s[|s| - 1]] else [])
  }

  lemma CutAmongSnoc(prefix: seq<string>, cut: seq<string>, col: string)
    ensures CutAmong(prefix + [col], cut) == CutAmong(prefix, cut) + (if col in cut then [col] else [])
  {
    assert (prefix + [col])[..|prefix|] == prefix;
  }

  /** The reference result: every cut-list column removed, then "Date"
      renamed to "CompletedDate". */
  function DropThenRename(t: Table, cut: seq<string>): (r: Table)
    requires WellFormed(t)
    ensures WellFormed(r) && r.height == t.height
  {
    Rename(DropAll(t, cut), DateRename)
  }

  /** The columns after the rounds for `prefix`. */
  ghost function Stage(t: Table, cut: seq<string>, prefix: seq<string>): seq<Column>
  {
    var w := Without(t.columns, CutAmong(prefix, cut));
    if "Date" in prefix then RenameColumns(w, DateRename) else w
  }

  lemma StageWellFormed(t: Table, cut: seq<string>, prefix: seq<string>)
    requires WellFormed(t)
    ensures WellFormed(Table(t.height, Stage(t, cut, prefix)))
  {
    var w := Without(t.columns, CutAmong(prefix, cut));
    forall m | 0 <= m < |w| ensures |w[m].values| == t.height { assert w[m] in t.columns; }
  }

  /** Removing one more column from the stage before "Date" is seen. */
  lemma DropBeforeDate(t: Table, cut: seq<string>, prefix: seq<string>, col: string)
    requires WellFormed(t) && SparesDate(cut) && col in Labels(t) && col !in prefix && col in cut && "Date" !in prefix
    requires WellFormed(Table(t.height, Stage(t, cut, prefix)))
    ensures Drop(Table(t.height, Stage(t, cut, prefix)), [col]) == Ok(Table(t.height, Stage(t, cut, prefix + [col])))
  {
    var w := Without(t.columns, CutAmong(prefix, cut));
    var cur := Table(t.height, w);
    assert Stage(t, cut, prefix) == w;
    CutAmongSnoc(prefix, cut, col);
    assert "Date" !in prefix + [col];
    WithoutTwice(t.columns, CutAmong(prefix, cut), [col]);
    assert Stage(t, cut, prefix + [col]) == Without(w, [col]);
    assert col in Labels(cur);
    DropPresent(cur, col);
  }

  /** Removing one more column from the stage after "Date" is seen. */
  lemma DropAfterDate(t: Table, cut: seq<string>, prefix: seq<string>, col: string)
    requires WellFormed(t) && SparesDate(cut) && col in Labels(t) && col !in prefix && col in cut && "Date" in prefix
    requires WellFormed(Table(t.height, Stage(t, cut, prefix)))
    ensures Drop(Table(t.height, Stage(t, cut, prefix)), [col]) == Ok(Table(t.height, Stage(t, cut, prefix + [col])))
  {
    var w := Without(t.columns, CutAmong(prefix, cut));
    var cur := Table(t.height, RenameColumns(w, DateRename));
    assert Stage(t, cut, prefix) == cur.columns;
    CutAmongSnoc(prefix, cut, col);
    WithoutTwice(t.columns, CutAmong(prefix, cut), [col]);
    assert Stage(t, cut, prefix + [col]) == RenameColumns(Without(w, [col]), DateRename);
    assert col in Names(w);
    var m :| 0 <= m < |w| && w[m].name == col;
    RenamedDate(col);
    assert cur.columns[m].name == col;
    assert col in Labels(cur);
    forall k | 0 <= k < |w| ensures Renamed(DateRename, w[k].name) in [col] <==> w[k].name in [col] {
      RenamedDate(w[k].name);
    }
    WithoutRenamed(w, DateRename, [col]);
    DropPresent(cur, col);
  }

  /** The round for a label not seen before removes it if it is on the
      cut list and starts the rename if it is "Date". */
  lemma CutRound(t: Table, cut: seq<string>, prefix: seq<string>, col: string)
    requires WellFormed(t) && SparesDate(cut) && col in Labels(t) && col !in prefix
    ensures WellFormed(Table(t.height, Stage(t, cut, prefix)))
    ensures CutStep(Table(t.height, Stage(t, cut, prefix)), cut, col) == Ok(Table(t.height, Stage(t, cut, prefix + [col])))
  {
    StageWellFormed(t, cut, prefix);
    var cur := Table(t.height, Stage(t, cut, prefix));
    if col in cut {
      if "Date" in prefix {
        DropAfterDate(t, cut, prefix, col);
      } else {
        DropBeforeDate(t, cut, prefix, col);
      }
      assert col != "Date";
      assert CutStep(cur, cut, col) == Drop(cur, [col]);
    } else {
      KeepRound(t, cut, prefix, col);
    }
  }

  /** A round for a label off the cut list only renames. */
  lemma KeepRound(t: Table, cut: seq<string>, prefix: seq<string>, col: string)
    requires WellFormed(t) && SparesDate(cut) && col in Labels(t) && col !in prefix && col !in cut
    requires WellFormed(Table(t.height, Stage(t, cut, prefix)))
    ensures CutStep(Table(t.height, Stage(t, cut, prefix)), cut, col) == Ok(Table(t.height, Stage(t, cut, prefix + [col])))
  {
    CutAmongSnoc(prefix, cut, col);
    assert CutAmong(prefix + [col], cut) == CutAmong(prefix, cut);
    var w := Without(t.columns, CutAmong(prefix, cut));
    assert Stage(t, cut, prefix + [col]) == if "Date" in prefix + [col] then RenameColumns(w, DateRename) else w;
  }

  /** With pairwise distinct labels no round raises, and after k rounds the
      frame is the original with the cut-list labels among the first k
      removed, renamed once "Date" has been seen. */
  lemma {:induction false} CutPrefix(t: Table, cut: seq<string>, k: nat)
    requires WellFormed(t) && SparesDate(cut) && Distinct(Labels(t)) && k <= |Labels(t)|
    ensures CutColumns(t, cut, Labels(t)[..k]) == Ok(Table(t.height, Stage(t, cut, Labels(t)[..k])))
  {
    var labels := Labels(t);
    if k == 0 {
      assert labels[..k] == [];
      WithoutNothing(t.columns, []);
    } else {
      CutPrefix(t, cut, k - 1);
      var prefix := labels[..k - 1];
      var col := labels[k - 1];
      TakeOneMore(labels, k);
      DistinctLast(labels, k);
      CutSnoc(t, cut, prefix, col);
    }
  }

  lemma TakeOneMore(labels: seq<string>, k: nat)
    requires 0 < k <= |labels|
    ensures labels[..k] == labels[..k - 1] + [labels[k - 1]]
  {
  }

  /** In a list of distinct labels, the k-th is not among the ones before. */
  lemma DistinctLast(labels: seq<string>, k: nat)
    requires Distinct(labels) && 0 < k <= |labels|
    ensures labels[k - 1] !in labels[..k - 1]
  {
    var prefix := labels[..k - 1];
    forall j | 0 <= j < |prefix| ensures prefix[j] != labels[k - 1] {
      assert prefix[j] == labels[j];
    }
  }

  /** One more round of the loop, for a label not seen before. */
  lemma CutSnoc(t: Table, cut: seq<string>, prefix: seq<string>, col: string)
    requires WellFormed(t) && SparesDate(cut) && col in Labels(t) && col !in prefix
    requires CutColumns(t, cut, prefix) == Ok(Table(t.height, Stage(t, cut, prefix)))
    ensures CutColumns(t, cut, prefix + [col]) == Ok(Table(t.height, Stage(t, cut, prefix + [col])))
  {
    assert (prefix + [col])[..|prefix|] == prefix;
    CutRound(t, cut, prefix, col);
  }

  /** The loop computes the reference result whenever the labels are
      pairwise distinct, as `read_csv` makes them. */
  lemma CutColumnsIsDropThenRename(t: Table, cut: seq<string>)
    requires WellFormed(t) && SparesDate(cut) && Distinct(Labels(t))
    ensures CutColumns(t, cut, Labels(t)) == Ok(DropThenRename(t, cut))
  {
    var labels := Labels(t);
    CutPrefix(t, cut, |labels|);
    assert labels[..|labels|] == labels;
    forall k | 0 <= k < |t.columns| ensures t.columns[k].name in CutAmong(labels, cut) <==> t.columns[k].name in cut {
      assert labels[k] == t.columns[k].name;
    }
    WithoutSameMembers(t.columns, CutAmong(labels, cut), cut);
    var w := Without(t.columns, cut);
    assert DropThenRename(t, cut) == Table(t.height, RenameColumns(w, DateRename));
    if "Date" !in labels {
      forall m | 0 <= m < |w| ensures Renamed(DateRename, w[m].name) == w[m].name {
        assert w[m] in t.columns;
        RenamedDate(w[m].name);
      }
      RenameAbsent(w, DateRename);
      assert Stage(t, cut, labels) == w;
    } else {
      assert Stage(t, cut, labels) == RenameColumns(w, DateRename);
    }
  }

  /** `DropExtraneous` drops every cut-list column and renames "Date". */
  lemma DropExtraneousIsDropThenRename(t: Table)
    requires WellFormed(t) && Distinct(Labels(t))
    ensures CutColumns(t, NewCut, Labels(t)) == Ok(DropThenRename(t, NewCut))
  {
    NewCutSparesDate();
    CutColumnsIsDropThenRename(t, NewCut);
  }

  // ---------------------------------------------------------------------
  // preprocess_labtrac_new: from the invoiced rows to the output (lines 57-161)

  /** The rename of lines 66-82. */
  const NewRename: seq<(string, string)> := [
    ("Code", "customer_id"),
    ("Name", "customer_name"),
    ("Delivery 1", "practice_name"),
    ("Delivery 2", "practice_address_road"),
    ("Delivery 3", "practice_address_town"),
    ("Delivery 5", "practice_address_postcode"),
    ("CompletedDate", "order_invoiced_date"),
    ("Product Link", "product_code"),
    ("Description", "product_description"),
    ("Value", "net_sales"),
    ("Qty", "quantity"),
    ("Category", "product_category"),
    ("Standard", "nhs_or_private")
  ]

  /** Lines 57-82: the rows whose invoice has been sent, the product
      descriptions stripped, the columns renamed. */
  function KeepInvoiced(t: Table): (r: Result<Table, Error>)
    requires WellFormed(t)
    ensures "CompletedDate" !in Labels(t) ==> r == Err(MissingColumn("CompletedDate"))
    ensures "CompletedDate" in Labels(t) && "Description" !in Labels(t) ==> r == Err(MissingColumn("Description"))
    ensures r.Ok? ==> WellFormed(r.value) && r.value.height == Count(Get(t, "CompletedDate"), IsPresent)
  {
    var sent :- DropMissing(t, "CompletedDate");
    var stripped :- StripColumn(sent, "Description");
    Ok(Rename(stripped, NewRename))
  }

  /** Only "CompletedDate" is renamed onto "order_invoiced_date". */
  lemma OntoInvoicedDate(c: string)
    ensures Renamed(NewRename, c) == "order_invoiced_date" ==> c == "CompletedDate" || c == "order_invoiced_date"
  {
    RenamedFrom(NewRename, c);
    if Renamed(NewRename, c) == "order_invoiced_date" && c != "order_invoiced_date" {
      var j :| 0 <= j < |NewRename| && NewRename[j] == (c, "order_invoiced_date");
      NewDateAt(j);
    }
  }

  /** Only the seventh pair renames onto the invoice date. */
  lemma NewDateAt(j: nat)
    requires j < |NewRename| && NewRename[j].1 == "order_invoiced_date"
    ensures j == 6
  {
  }

  lemma CompletedDateRenamed()
    ensures Renamed(NewRename, "CompletedDate") == "order_invoiced_date"
  {
    assert NewRename[6] == ("CompletedDate", "order_invoiced_date");
    RenamedFirst(NewRename, 6);
  }

  /** The invoice dates left are the present ones, in their order. */
  lemma KeepInvoicedDates(t: Table)
    requires WellFormed(t) && KeepInvoiced(t).Ok? && "order_invoiced_date" !in Labels(t)
    ensures "order_invoiced_date" in Labels(KeepInvoiced(t).value)
    ensures Get(KeepInvoiced(t).value, "order_invoiced_date") ==
      Sift(Get(t, "CompletedDate"), Get(t, "CompletedDate"), IsPresent)
  {
    var sent := DropMissing(t, "CompletedDate").value;
    var stripped := StripColumn(sent, "Description").value;
    assert KeepInvoiced(t).value == Rename(stripped, NewRename);
    assert Get(stripped, "CompletedDate") == Get(sent, "CompletedDate");
    CompletedDateRenamed();
    forall k | 0 <= k < |stripped.columns| && Renamed(NewRename, stripped.columns[k].name) == Renamed(NewRename, "CompletedDate")
      ensures stripped.columns[k].name == "CompletedDate"
    {
      assert Labels(stripped)[k] == stripped.columns[k].name;
      OntoInvoicedDate(stripped.columns[k].name);
    }
    RenameGet(stripped, NewRename, "CompletedDate");
  }

  /** The lab whose blank dates are written "00/01/1900". */
  const RomakLab := "Romak Denture Centre"

  /** The lab whose blank dates are written "00:00:00". */
  const CentralLab := "Central Dental Laboratory"

  /** The placeholder a lab writes for a missing invoice date, if any. */
  function Sentinel(alsLab: string): (r: Option<Value>)
    ensures r.Some? <==> alsLab == RomakLab || alsLab == CentralLab
    ensures r.Some? ==> r.value.Str?
  {
    if alsLab == RomakLab then Some(Str("00/01/1900"))
    else if alsLab == CentralLab then Some(Str("00:00:00"))
    else None
  }

  /** The test `df[c] != blank`. */
  function NotBlank(blank: Value): Value -> bool
  {
    v => v != blank
  }

  /** Lines 85-97: the rows carrying the lab's placeholder date are
      removed; the other labs keep every row. */
  function DropSentinelDates(t: Table, alsLab: string): (r: Result<Table, Error>)
    requires WellFormed(t)
    ensures Sentinel(alsLab).None? ==> r == Ok(t)
    ensures Sentinel(alsLab).Some? ==> (r.Ok? <==> "order_invoiced_date" in Labels(t))
    ensures r.Ok? ==> WellFormed(r.value) && Labels(r.value) == Labels(t)
    ensures r.Ok? && Sentinel(alsLab).Some? ==>
      forall d :: d in Labels(t) ==>
        Get(r.value, d) == Sift(Get(t, d), Get(t, "order_invoiced_date"), NotBlank(Sentinel(alsLab).value))
  {
    match Sentinel(alsLab)
    case None => Ok(t)
    case Some(blank) => Where(t, "order_invoiced_date", NotBlank(blank))
  }

  /** Lines 100-101: `product_category` is dropped when any of its
      values is missing (a KeyError when there is no such column). */
  function DropEmptyCategory(t: Table): (r: Result<Table, Error>)
    requires WellFormed(t)
    ensures r.Ok? <==> "product_category" in Labels(t)
    ensures r.Err? ==> r.error == MissingColumn("product_category")
    ensures r.Ok? ==> WellFormed(r.value) && r.value.height == t.height
    ensures r.Ok? ==> ("product_category" in Labels(r.value) <==>
      forall i :: 0 <= i < t.height ==> !Get(t, "product_category")[i].Null?)
    ensures r.Ok? ==> forall d :: d != "product_category" ==> (d in Labels(r.value) <==> d in Labels(t))
    ensures r.Ok? ==> forall d :: d in Labels(r.value) ==> Get(r.value, d) == Get(t, d)
  {
    if "product_category" !in Labels(t) then Err(MissingColumn("product_category"))
    else if exists i :: 0 <= i < t.height && Get(t, "product_category")[i].Null? then Ok(DropAll(t, ["product_category"]))
    else Ok(t)
  }

  /** The columns stripped by the loop of lines 104-106. */
  const NewStripList: seq<string> := ["product_code", "customer_name", "product_description", "product_category", "nhs_or_private"]

  /** Every listed column that is present is stripped; the others are
      left alone. */
  function StripPresent(t: Table, cols: seq<string>): (r: Table)
    requires WellFormed(t)
    ensures WellFormed(r) && r.height == t.height && Labels(r) == Labels(t)
    ensures forall d :: d in Labels(t) && d !in cols ==> Get(r, d) == Get(t, d)
    ensures forall d :: d in Labels(t) && d in cols ==>
      forall i :: 0 <= i < t.height ==> Get(r, d)[i] == StripCell(Get(t, d)[i])
    decreases |cols|
  {
    if cols == [] then t
    else
      var stripped := StripColumn(t, cols[0]);
      var next := if stripped.Ok? then stripped.value else t;
      var r := StripPresent(next, cols[1..]);
      StripPresentStep(t, cols, next, r);
      r
  }

  /** The step of StripPresent: stripping the head column and then the
      rest strips every listed column once, as stripping is idempotent. */
  lemma StripPresentStep(t: Table, cols: seq<string>, next: Table, r: Table)
    requires WellFormed(t) && cols != [] && WellFormed(next) && WellFormed(r)
    requires next.height == t.height && Labels(next) == Labels(t) && r.height == t.height && Labels(r) == Labels(t)
    requires cols[0] in Labels(t) ==> forall i :: 0 <= i < t.height ==> Get(next, cols[0])[i] == StripCell(Get(t, cols[0])[i])
    requires forall d :: d in Labels(t) && d != cols[0] ==> Get(next, d) == Get(t, d)
    requires forall d :: d in Labels(t) && d !in cols[1..] ==> Get(r, d) == Get(next, d)
    requires forall d :: d in Labels(t) && d in cols[1..] ==>
      forall i :: 0 <= i < t.height ==> Get(r, d)[i] == StripCell(Get(next, d)[i])
    ensures forall d :: d in Labels(t) && d !in cols ==> Get(r, d) == Get(t, d)
    ensures forall d :: d in Labels(t) && d in cols ==>
      forall i :: 0 <= i < t.height ==> Get(r, d)[i] == StripCell(Get(t, d)[i])
  {
    forall d, i | d in Labels(t) && d in cols && 0 <= i < t.height
      ensures Get(r, d)[i] == StripCell(Get(t, d)[i])
    {
      if d == cols[0] && d in cols[1..] {
        StripCellIdempotent(Get(t, d)[i]);
      }
    }
  }

  /** The loop of lines 104-106. */
  method StripStringColumns(t: Table, cols: seq<string>) returns (r: Table)
    requires WellFormed(t)
    ensures r == StripPresent(t, cols)
  {
    r := t;
    var i := 0;
    while i < |cols|
      invariant 0 <= i <= |cols|
      invariant WellFormed(r)
      invariant StripPresent(r, cols[i..]) == StripPresent(t, cols)
    {
      assert cols[i..][1..] == cols[i + 1..];
      if cols[i] in Labels(r) {
        r := StripColumn(r, cols[i]).value;
      }
      i := i + 1;
    }
  }

  /** The output columns when `product_category` survived (lines 116-135). */
  const NewOutput: seq<string> := [
    "order_uuid", "order_invoiced_date", "system_source", "als_lab",
    "practice_name", "practice_address_road", "practice_address_town", "practice_address_postcode",
    "customer_id", "customer_name", "product_code", "product_description",
    "product_category", "quantity", "net_sales", "nhs_or_private"
  ]

  /** The output columns when it was dropped (lines 138-155). */
  const NewOutputNoCategory: seq<string> := [
    "order_uuid", "order_invoiced_date", "system_source", "als_lab",
    "practice_name", "practice_address_road", "practice_address_town", "practice_address_postcode",
    "customer_id", "customer_name", "product_code", "product_description",
    "quantity", "net_sales", "nhs_or_private"
  ]

  /** The output columns for the table `t` (lines 115-156). */
  function NewOutputFor(t: Table): (r: seq<string>)
    ensures "product_category" in Labels(t) ==> r == NewOutput
    ensures "product_category" !in Labels(t) ==> r == NewOutputNoCategory
  {
    if "product_category" in Labels(t) then NewOutput else NewOutputNoCategory
  }

  /** Both output lists hold the tag, identifier and date columns, and
      neither holds the unit price. */
  lemma OutputListsHold(names: seq<string>)
    requires names == NewOutput || names == NewOutputNoCategory
    ensures "order_uuid" in names && "order_invoiced_date" in names
    ensures "system_source" in names && "als_lab" in names
    ensures "unit_net_price" !in names
  {
    assert names[0] == "order_uuid" && names[1] == "order_invoiced_date";
    assert names[2] == "system_source" && names[3] == "als_lab";
    forall k | 0 <= k < |names| ensures names[k][0] != 'u' {
    }
  }

  /** Lines 104-113: strip the text columns, tag the rows, add the
      identifiers. */
  function Prepare(t: Table, alsLab: string, uuid: nat -> string): (r: Table)
    requires WellFormed(t)
    ensures WellFormed(r) && r.height == t.height
  {
    Identified(StripPresent(t, NewStripList), alsLab, uuid)
  }

  /** Lines 106-113: the tag columns and the row identifiers. */
  function Identified(stripped: Table, alsLab: string, uuid: nat -> string): (r: Table)
    requires WellFormed(stripped)
    ensures WellFormed(r) && r.height == stripped.height
  {
    AddIds(Tag(stripped, "Labtrac", alsLab), "order_uuid", uuid)
  }

  /** The preparation keeps or lacks `product_category` as its input did,
      and adds the tag and identifier columns. */
  lemma PrepareLabels(t: Table, alsLab: string, uuid: nat -> string)
    requires WellFormed(t)
    ensures "product_category" in Labels(Prepare(t, alsLab, uuid)) <==> "product_category" in Labels(t)
    ensures "order_invoiced_date" in Labels(t) ==> "order_invoiced_date" in Labels(Prepare(t, alsLab, uuid))
    ensures "system_source" in Labels(Prepare(t, alsLab, uuid)) && "als_lab" in Labels(Prepare(t, alsLab, uuid))
    ensures "order_uuid" in Labels(Prepare(t, alsLab, uuid))
  {
    var stripped := StripPresent(t, NewStripList);
    assert Prepare(t, alsLab, uuid) == Identified(stripped, alsLab, uuid);
    IdentifiedLabel(stripped, alsLab, uuid, "product_category");
    IdentifiedLabel(stripped, alsLab, uuid, "order_invoiced_date");
    IdentifiedLabel(stripped, alsLab, uuid, "system_source");
    IdentifiedLabel(stripped, alsLab, uuid, "als_lab");
    IdentifiedLabel(stripped, alsLab, uuid, "order_uuid");
  }

  /** Identification keeps every label and adds the two tags and the
      identifier. */
  lemma IdentifiedLabel(stripped: Table, alsLab: string, uuid: nat -> string, d: string)
    requires WellFormed(stripped)
    ensures d in Labels(Identified(stripped, alsLab, uuid)) <==>
      d in Labels(stripped) || d == "system_source" || d == "als_lab" || d == "order_uuid"
  {
    var tagged := Tag(stripped, "Labtrac", alsLab);
    assert d in Labels(tagged) <==> d in Labels(stripped) || d == "system_source" || d == "als_lab";
    IdsLabel(tagged, "order_uuid", uuid, d);
  }

  /** The invoice dates are not among the stripped columns. */
  lemma DatesNotStripped()
    ensures "order_invoiced_date" !in NewStripList
  {
    forall k | 0 <= k < |NewStripList| ensures NewStripList[k][0] != 'o' {
    }
  }

  /** The preparation tags every row and numbers it. */
  lemma PrepareTags(t: Table, alsLab: string, uuid: nat -> string)
    requires WellFormed(t)
    ensures forall i :: 0 <= i < t.height ==>
      Get(Prepare(t, alsLab, uuid), "system_source")[i] == Str("Labtrac") &&
      Get(Prepare(t, alsLab, uuid), "als_lab")[i] == Str(alsLab) &&
      Get(Prepare(t, alsLab, uuid), "order_uuid")[i] == Str(uuid(i))
  {
    PrepareLabels(t, alsLab, uuid);
    var tagged := Tag(StripPresent(t, NewStripList), "Labtrac", alsLab);
    var r := Prepare(t, alsLab, uuid);
    assert r == AddIds(tagged, "order_uuid", uuid);
    assert Get(r, "system_source") == Get(tagged, "system_source");
    assert Get(r, "als_lab") == Get(tagged, "als_lab");
  }

  /** The preparation leaves the invoice dates alone. */
  lemma PrepareKeepsDates(t: Table, alsLab: string, uuid: nat -> string)
    requires WellFormed(t) && "order_invoiced_date" in Labels(t)
    ensures Get(Prepare(t, alsLab, uuid), "order_invoiced_date") == Get(t, "order_invoiced_date")
  {
    PrepareLabels(t, alsLab, uuid);
    var stripped := StripPresent(t, NewStripList);
    var tagged := Tag(stripped, "Labtrac", alsLab);
    assert Prepare(t, alsLab, uuid) == AddIds(tagged, "order_uuid", uuid);
    DatesNotStripped();
    assert Get(stripped, "order_invoiced_date") == Get(t, "order_invoiced_date");
    assert Get(tagged, "order_invoiced_date") == Get(stripped, "order_invoiced_date");
  }

  /** Lines 104-159 after the category check: strip, tag, identify, select
      and price. */
  function FinishNew(t: Table, alsLab: string, uuid: nat -> string): (r: Result<Table, Error>)
    requires WellFormed(t)
    ensures r.Ok? ==> WellFormed(r.value) && r.value.height == t.height
  {
    Priced(Prepare(t, alsLab, uuid))
  }

  /** Lines 116-159: the output columns kept and the unit price added. */
  function Priced(ided: Table): (r: Result<Table, Error>)
    requires WellFormed(ided)
    ensures r.Ok? ==> WellFormed(r.value) && r.value.height == ided.height
  {
    var selected :- Select(ided, NewOutputFor(ided));
    UnitPrice(selected, "unit_net_price")
  }

  /** Lines 51-97: the rows of an invoiced order, without placeholder
      dates, under the common column names. */
  function InvoicedRows(raw: Table, alsLab: string): (r: Result<Table, Error>)
    requires WellFormed(raw)
    ensures r.Ok? ==> WellFormed(r.value)
  {
    var cut :- CutColumns(raw, NewCut, Labels(raw));
    var invoiced :- KeepInvoiced(cut);
    DropSentinelDates(invoiced, alsLab)
  }

  /** `preprocess_labtrac_new`; `uuid` supplies the row identifiers. */
  function LabtracNew(raw: Table, alsLab: string, uuid: nat -> string): (r: Result<Table, Error>)
    requires WellFormed(raw)
    ensures r.Ok? ==> WellFormed(r.value)
  {
    var dated :- InvoicedRows(raw, alsLab);
    var categorised :- DropEmptyCategory(dated);
    FinishNew(categorised, alsLab, uuid)
  }

  // ---------------------------------------------------------------------
  // What preprocess_labtrac_new promises

  /** A row survives when its invoice date is present and is not the
      lab's placeholder. */
  predicate InvoicedDate(alsLab: string, v: Value)
  {
    IsPresent(v) && (Sentinel(alsLab).None? || v != Sentinel(alsLab).value)
  }

  function InvoicedTest(alsLab: string): Value -> bool
  {
    v => InvoicedDate(alsLab, v)
  }

  /** The reference result keeps the dates under the name "CompletedDate"
      and has no other new label. */
  lemma DropThenRenameKeepsDate(t: Table, cut: seq<string>)
    requires WellFormed(t) && SparesDate(cut)
    requires "Date" in Labels(t) && "CompletedDate" !in Labels(t)
    ensures "CompletedDate" in Labels(DropThenRename(t, cut))
    ensures Get(DropThenRename(t, cut), "CompletedDate") == Get(t, "Date")
    ensures forall d :: d in Labels(DropThenRename(t, cut)) ==> d in Labels(t) || d == "CompletedDate"
  {
    var kept := DropAll(t, cut);
    assert "Date" in Labels(kept) && Get(kept, "Date") == Get(t, "Date");
    RenamedDate("Date");
    DateRenameKeepsApart(kept);
    RenameGet(kept, DateRename, "Date");
    DateRenameLabels(kept);
  }

  /** No column but "Date" is renamed to "CompletedDate". */
  lemma DateRenameKeepsApart(kept: Table)
    requires WellFormed(kept) && "CompletedDate" !in Labels(kept)
    ensures KeepsApart(kept.columns, DateRename, "Date")
  {
    RenamedDate("Date");
    forall k | 0 <= k < |kept.columns| && Renamed(DateRename, kept.columns[k].name) == Renamed(DateRename, "Date")
      ensures kept.columns[k].name == "Date"
    {
      assert Labels(kept)[k] == kept.columns[k].name;
      RenamedDate(kept.columns[k].name);
    }
  }

  /** Renaming "Date" introduces no label but "CompletedDate". */
  lemma DateRenameLabels(kept: Table)
    requires WellFormed(kept)
    ensures forall d :: d in Labels(Rename(kept, DateRename)) ==> d in Labels(kept) || d == "CompletedDate"
  {
    var out := Rename(kept, DateRename);
    forall d | d in Labels(out) ensures d in Labels(kept) || d == "CompletedDate" {
      var k :| 0 <= k < |Labels(out)| && Labels(out)[k] == d;
      assert Labels(kept)[k] == kept.columns[k].name;
      RenamedDate(kept.columns[k].name);
    }
  }

  /** With distinct labels, a "Date" column and no "CompletedDate" column,
      the column-drop loop succeeds, keeps the dates under the name
      "CompletedDate", and introduces no other label. */
  lemma CutKeepsDate(raw: Table)
    requires WellFormed(raw) && Distinct(Labels(raw))
    requires "Date" in Labels(raw) && "CompletedDate" !in Labels(raw)
    ensures CutColumns(raw, NewCut, Labels(raw)).Ok?
    ensures "CompletedDate" in Labels(CutColumns(raw, NewCut, Labels(raw)).value)
    ensures Get(CutColumns(raw, NewCut, Labels(raw)).value, "CompletedDate") == Get(raw, "Date")
    ensures forall d :: d in Labels(CutColumns(raw, NewCut, Labels(raw)).value) ==> d in Labels(raw) || d == "CompletedDate"
  {
    DropExtraneousIsDropThenRename(raw);
    NewCutSparesDate();
    DropThenRenameKeepsDate(raw, NewCut);
  }

  /** The placeholder filter on dates already cleared of missing values
      leaves the dates that pass the whole test. */
  lemma SentinelDates(t: Table, dates: seq<Value>, alsLab: string)
    requires WellFormed(t) && "order_invoiced_date" in Labels(t)
    requires Get(t, "order_invoiced_date") == Sift(dates, dates, IsPresent)
    ensures DropSentinelDates(t, alsLab).Ok?
    ensures Get(DropSentinelDates(t, alsLab).value, "order_invoiced_date") == Sift(dates, dates, InvoicedTest(alsLab))
    ensures DropSentinelDates(t, alsLab).value.height == Count(dates, InvoicedTest(alsLab))
  {
    var dated := DropSentinelDates(t, alsLab).value;
    match Sentinel(alsLab) {
      case None =>
        SiftSameTest(dates, dates, IsPresent, InvoicedTest(alsLab));
      case Some(blank) =>
        SiftTwice(dates, dates, IsPresent, NotBlank(blank), InvoicedTest(alsLab));
    }
    assert |Get(dated, "order_invoiced_date")| == dated.height;
    SiftLength(dates, dates, InvoicedTest(alsLab));
  }

  /** Lines 51-97 keep exactly the rows whose input "Date" is present and
      is not the lab's placeholder, in their input order. */
  lemma InvoicedRowsDates(raw: Table, alsLab: string)
    requires WellFormed(raw) && Distinct(Labels(raw))
    requires "Date" in Labels(raw) && "CompletedDate" !in Labels(raw) && "order_invoiced_date" !in Labels(raw)
    requires InvoicedRows(raw, alsLab).Ok?
    ensures "order_invoiced_date" in Labels(InvoicedRows(raw, alsLab).value)
    ensures Get(InvoicedRows(raw, alsLab).value, "order_invoiced_date") ==
      Sift(Get(raw, "Date"), Get(raw, "Date"), InvoicedTest(alsLab))
    ensures InvoicedRows(raw, alsLab).value.height == Count(Get(raw, "Date"), InvoicedTest(alsLab))
  {
    CutKeepsDate(raw);
    var cut := CutColumns(raw, NewCut, Labels(raw)).value;
    assert KeepInvoiced(cut).Ok?;
    KeepInvoicedDates(cut);
    var invoiced := KeepInvoiced(cut).value;
    assert InvoicedRows(raw, alsLab) == DropSentinelDates(invoiced, alsLab);
    SentinelDates(invoiced, Get(raw, "Date"), alsLab);
  }

  /** The tail of the normalizer ends with one of the two column lists
      and the unit price; every row carries the system, the lab and its
      own identifier; the invoice dates pass through unchanged. */
  lemma FinishNewOutput(t: Table, alsLab: string, uuid: nat -> string)
    requires WellFormed(t) && FinishNew(t, alsLab, uuid).Ok?
    ensures Labels(FinishNew(t, alsLab, uuid).value) ==
      (if "product_category" in Labels(t) then NewOutput else NewOutputNoCategory) + ["unit_net_price"]
    ensures var out := FinishNew(t, alsLab, uuid).value;
      "system_source" in Labels(out) && "als_lab" in Labels(out) && "order_uuid" in Labels(out) &&
      "order_invoiced_date" in Labels(out)
    ensures forall i :: 0 <= i < t.height ==>
      Get(FinishNew(t, alsLab, uuid).value, "system_source")[i] == Str("Labtrac") &&
      Get(FinishNew(t, alsLab, uuid).value, "als_lab")[i] == Str(alsLab) &&
      Get(FinishNew(t, alsLab, uuid).value, "order_uuid")[i] == Str(uuid(i))
    ensures "order_invoiced_date" in Labels(t) ==>
      Get(FinishNew(t, alsLab, uuid).value, "order_invoiced_date") == Get(t, "order_invoiced_date")
  {
    var ided := Prepare(t, alsLab, uuid);
    assert FinishNew(t, alsLab, uuid) == Priced(ided);
    PrepareLabels(t, alsLab, uuid);
    PrepareTags(t, alsLab, uuid);
    if "order_invoiced_date" in Labels(t) {
      PrepareKeepsDates(t, alsLab, uuid);
    }
    PricedKeeps(ided);
  }

  /** The priced table has the chosen output columns, taken unchanged,
      and then the unit price. */
  lemma PricedOutput(ided: Table)
    requires WellFormed(ided) && Priced(ided).Ok?
    ensures Labels(Priced(ided).value) == NewOutputFor(ided) + ["unit_net_price"]
    ensures "system_source" in Labels(Priced(ided).value) && "als_lab" in Labels(Priced(ided).value)
    ensures "order_uuid" in Labels(Priced(ided).value) && "order_invoiced_date" in Labels(Priced(ided).value)
    ensures forall d :: d in NewOutputFor(ided) ==> d in Labels(Priced(ided).value) && Get(Priced(ided).value, d) == Get(ided, d)
  {
    var names := NewOutputFor(ided);
    OutputListsHold(names);
    SelectThenPrice(ided, names, "unit_net_price");
  }

  /** The four columns the output always carries come through pricing
      unchanged. */
  lemma PricedKeeps(ided: Table)
    requires WellFormed(ided) && Priced(ided).Ok?
    requires "system_source" in Labels(ided) && "als_lab" in Labels(ided) && "order_uuid" in Labels(ided)
    ensures Labels(Priced(ided).value) ==
      (if "product_category" in Labels(ided) then NewOutput else NewOutputNoCategory) + ["unit_net_price"]
    ensures "system_source" in Labels(Priced(ided).value) && "als_lab" in Labels(Priced(ided).value)
    ensures "order_uuid" in Labels(Priced(ided).value) && "order_invoiced_date" in Labels(Priced(ided).value)
    ensures Get(Priced(ided).value, "system_source") == Get(ided, "system_source")
    ensures Get(Priced(ided).value, "als_lab") == Get(ided, "als_lab")
    ensures Get(Priced(ided).value, "order_uuid") == Get(ided, "order_uuid")
    ensures "order_invoiced_date" in Labels(ided) ==>
      Get(Priced(ided).value, "order_invoiced_date") == Get(ided, "order_invoiced_date")
  {
    PricedOutput(ided);
    OutputListsHold(NewOutputFor(ided));
  }

  /** The output columns are one of the two fixed lists followed by
      `unit_net_price`; the longer one exactly when no kept row lacks a
      product category. */
  lemma LabtracNewColumns(raw: Table, alsLab: string, uuid: nat -> string)
    requires WellFormed(raw) && LabtracNew(raw, alsLab, uuid).Ok?
    ensures InvoicedRows(raw, alsLab).Ok? && "product_category" in Labels(InvoicedRows(raw, alsLab).value)
    ensures var dated := InvoicedRows(raw, alsLab).value;
      Labels(LabtracNew(raw, alsLab, uuid).value) ==
        (if forall i :: 0 <= i < dated.height ==> !Get(dated, "product_category")[i].Null?
         then NewOutput else NewOutputNoCategory) + ["unit_net_price"]
  {
    var dated := InvoicedRows(raw, alsLab).value;
    var categorised := DropEmptyCategory(dated).value;
    assert LabtracNew(raw, alsLab, uuid) == FinishNew(categorised, alsLab, uuid);
    FinishNewOutput(categorised, alsLab, uuid);
  }

  /** Every output row carries "Labtrac", the lab it came from, and its
      own identifier. */
  lemma LabtracNewTagsRows(raw: Table, alsLab: string, uuid: nat -> string)
    requires WellFormed(raw) && LabtracNew(raw, alsLab, uuid).Ok?
    ensures var r := LabtracNew(raw, alsLab, uuid).value;
      "system_source" in Labels(r) && "als_lab" in Labels(r) && "order_uuid" in Labels(r) &&
      forall i :: 0 <= i < r.height ==>
        Get(r, "system_source")[i] == Str("Labtrac") && Get(r, "als_lab")[i] == Str(alsLab) &&
        Get(r, "order_uuid")[i] == Str(uuid(i))
  {
    var dated := InvoicedRows(raw, alsLab).value;
    var categorised := DropEmptyCategory(dated).value;
    assert LabtracNew(raw, alsLab, uuid) == FinishNew(categorised, alsLab, uuid);
    FinishNewOutput(categorised, alsLab, uuid);
    OutputListsHold(if "product_category" in Labels(categorised) then NewOutput else NewOutputNoCategory);
  }

  /** With a generator that never repeats itself, the output identifiers
      are pairwise distinct. */
  lemma LabtracNewIdsDistinct(raw: Table, alsLab: string, uuid: nat -> string)
    requires WellFormed(raw) && LabtracNew(raw, alsLab, uuid).Ok?
    requires forall i, j :: 0 <= i < j ==> uuid(i) != uuid(j)
    ensures "order_uuid" in Labels(LabtracNew(raw, alsLab, uuid).value)
    ensures Distinct(Get(LabtracNew(raw, alsLab, uuid).value, "order_uuid"))
  {
    LabtracNewTagsRows(raw, alsLab, uuid);
    var r := LabtracNew(raw, alsLab, uuid).value;
    var ids := Get(r, "order_uuid");
    forall i, j | 0 <= i < j < |ids| ensures ids[i] != ids[j] {
      assert ids[i] == Str(uuid(i)) && ids[j] == Str(uuid(j));
    }
  }

  /** Lines 51-97 decide the rows: the output holds exactly the input rows
      whose "Date" is present and is not the lab's placeholder, in their
      input order. */
  lemma LabtracNewRows(raw: Table, alsLab: string, uuid: nat -> string)
    requires WellFormed(raw) && Distinct(Labels(raw))
    requires "Date" in Labels(raw) && "CompletedDate" !in Labels(raw) && "order_invoiced_date" !in Labels(raw)
    requires LabtracNew(raw, alsLab, uuid).Ok?
    ensures "order_invoiced_date" in Labels(LabtracNew(raw, alsLab, uuid).value)
    ensures Get(LabtracNew(raw, alsLab, uuid).value, "order_invoiced_date") ==
      Sift(Get(raw, "Date"), Get(raw, "Date"), InvoicedTest(alsLab))
    ensures LabtracNew(raw, alsLab, uuid).value.height == Count(Get(raw, "Date"), InvoicedTest(alsLab))
  {
    InvoicedRowsDates(raw, alsLab);
    var dated := InvoicedRows(raw, alsLab).value;
    var categorised := DropEmptyCategory(dated).value;
    assert "order_invoiced_date" in Labels(categorised);
    assert Get(categorised, "order_invoiced_date") == Get(dated, "order_invoiced_date");
    assert LabtracNew(raw, alsLab, uuid) == FinishNew(categorised, alsLab, uuid);
    FinishNewOutput(categorised, alsLab, uuid);
    OutputListsHold(if "product_category" in Labels(categorised) then NewOutput else NewOutputNoCategory);
  }

  /** The normalizer as the source runs it, with its two loops. */
  method PreprocessLabtracNew(raw: Table, alsLab: string, uuid: nat -> string) returns (r: Result<Table, Error>)
    requires WellFormed(raw)
    ensures r == LabtracNew(raw, alsLab, uuid)
  {
    var cut := DropExtraneous(raw);
    if cut.Err? {
      return Err(cut.error);
    }
    var invoiced := KeepInvoiced(cut.value);
    if invoiced.Err? {
      return Err(invoiced.error);
    }
    var dated := DropSentinelDates(invoiced.value, alsLab);
    assert InvoicedRows(raw, alsLab) == dated;
    if dated.Err? {
      return Err(dated.error);
    }
    var categorised := DropEmptyCategory(dated.value);
    if categorised.Err? {
      return Err(categorised.error);
    }
    assert LabtracNew(raw, alsLab, uuid) == FinishNew(categorised.value, alsLab, uuid);
    r := Finish(categorised.value, alsLab, uuid);
  }

  /** The tail of the normalizer, with the strip loop. */
  method Finish(t: Table, alsLab: string, uuid: nat -> string) returns (r: Result<Table, Error>)
    requires WellFormed(t)
    ensures r == FinishNew(t, alsLab, uuid)
  {
    var stripped := StripStringColumns(t, NewStripList);
    r := Priced(Identified(stripped, alsLab, uuid));
  }

  // ---------------------------------------------------------------------
  // preprocess_labtrac_old (lines 163-278)

  /** The columns dropped on lines 172-208, in two halves. */
  const OldCut: seq<string> := OldCutHead + OldCutTail

  const OldCutHead: seq<string> := [
    "LicenceNo",
    "DoctorAnalysis1", "DoctorAnalysis2", "DoctorAnalysis3", "DoctorAnalysis4", "DoctorAnalysis5",
    "DoctorAnalysis6", "DoctorAnalysis7", "DoctorAnalysis8", "DoctorAnalysis9", "DoctorAnalysis10",
    "ProductAnalysis1", "ProductAnalysis2", "ProductAnalysis3", "ProductAnalysis4", "ProductAnalysis5"
  ]

  const OldCutTail: seq<string> := [
    "ProductAnalysis6", "ProductAnalysis7", "ProductAnalysis8", "ProductAnalysis9", "ProductAnalysis10",
    "MaterialId", "MaterialName",
    "MaterialAnalysis1", "MaterialAnalysis2", "MaterialAnalysis3", "MaterialAnalysis4", "MaterialAnalysis5",
    "MaterialAnalysis6", "MaterialAnalysis7", "MaterialAnalysis8", "MaterialAnalysis9", "MaterialAnalysis10"
  ]

  /** The rename of lines 221-238. */
  const OldRename: seq<(string, string)> := [
    ("DoctorId", "customer_id"),
    ("DoctorName", "customer_name"),
    ("Address1", "practice_name"),
    ("Address2", "practice_address_road"),
    ("Address3", "practice_address_town"),
    ("Address5", "practice_address_postcode"),
    ("InvoiceDate", "order_invoiced_date"),
    ("ProductId", "product_code"),
    ("ProductName", "product_description"),
    ("Net", "net_sales"),
    ("Qty", "quantity"),
    ("Status", "order_status"),
    ("CurrencySymbol", "currency_symbol"),
    ("CurrencyDescription", "currency_description")
  ]

  /** The output columns of lines 253-273. */
  const OldOutput: seq<string> := [
    "order_uuid", "order_invoiced_date", "system_source", "als_lab",
    "practice_name", "practice_address_road", "practice_address_town", "practice_address_postcode",
    "customer_id", "customer_name", "product_code", "product_description",
    "quantity", "net_sales", "order_status", "currency_symbol", "currency_description"
  ]

  /** Lines 171-238: the listed columns dropped (a KeyError if one is
      missing), the rows with an invoice date, the product codes stripped,
      the columns renamed. */
  function OldInvoicedRows(raw: Table): (r: Result<Table, Error>)
    requires WellFormed(raw)
    ensures r.Ok? ==> WellFormed(r.value)
  {
    var kept :- Drop(raw, OldCut);
    var invoiced :- DropMissing(kept, "InvoiceDate");
    var stripped :- StripColumn(invoiced, "ProductId");
    Ok(Rename(stripped, OldRename))
  }

  /** Lines 244-251: tag the rows and add the identifiers. */
  function PrepareOld(t: Table, alsLab: string, uuid: nat -> string): (r: Table)
    requires WellFormed(t)
    ensures WellFormed(r) && r.height == t.height
  {
    AddIds(Tag(t, "Labtrac", alsLab), "order_uuid", uuid)
  }

  /** `preprocess_labtrac_old`; `uuid` supplies the row identifiers. */
  function LabtracOld(raw: Table, alsLab: string, uuid: nat -> string): (r: Result<Table, Error>)
    requires WellFormed(raw)
    ensures r.Ok? ==> WellFormed(r.value)
  {
    var renamed :- OldInvoicedRows(raw);
    var selected :- Select(PrepareOld(renamed, alsLab, uuid), OldOutput);
    UnitPrice(selected, "unit_net_price")
  }

  /** The old output list holds the tag, identifier and date columns, and
      not the unit price. */
  lemma OldOutputHolds()
    ensures "order_uuid" in OldOutput && "order_invoiced_date" in OldOutput
    ensures "system_source" in OldOutput && "als_lab" in OldOutput
    ensures "unit_net_price" !in OldOutput
  {
    assert OldOutput[0] == "order_uuid" && OldOutput[1] == "order_invoiced_date";
    assert OldOutput[2] == "system_source" && OldOutput[3] == "als_lab";
    forall k | 0 <= k < |OldOutput| ensures OldOutput[k][0] != 'u' {
    }
  }

  /** The preparation tags every row, numbers it, and leaves the invoice
      dates alone. */
  lemma PrepareOldValues(t: Table, alsLab: string, uuid: nat -> string)
    requires WellFormed(t)
    ensures var r := PrepareOld(t, alsLab, uuid);
      "system_source" in Labels(r) && "als_lab" in Labels(r) && "order_uuid" in Labels(r)
    ensures forall i :: 0 <= i < t.height ==>
      Get(PrepareOld(t, alsLab, uuid), "system_source")[i] == Str("Labtrac") &&
      Get(PrepareOld(t, alsLab, uuid), "als_lab")[i] == Str(alsLab) &&
      Get(PrepareOld(t, alsLab, uuid), "order_uuid")[i] == Str(uuid(i))
    ensures "order_invoiced_date" in Labels(t) ==>
      "order_invoiced_date" in Labels(PrepareOld(t, alsLab, uuid)) &&
      Get(PrepareOld(t, alsLab, uuid), "order_invoiced_date") == Get(t, "order_invoiced_date")
  {
    var tagged := Tag(t, "Labtrac", alsLab);
    var r := PrepareOld(t, alsLab, uuid);
    assert r == AddIds(tagged, "order_uuid", uuid);
    assert Get(r, "system_source") == Get(tagged, "system_source");
    assert Get(r, "als_lab") == Get(tagged, "als_lab");
  }

  /** The output columns are the fixed list followed by `unit_net_price`;
      every row carries "Labtrac", its lab and its own identifier. */
  lemma LabtracOldOutput(raw: Table, alsLab: string, uuid: nat -> string)
    requires WellFormed(raw) && LabtracOld(raw, alsLab, uuid).Ok?
    ensures forall n :: n in OldCut ==> n in Labels(raw)
    ensures Labels(LabtracOld(raw, alsLab, uuid).value) == OldOutput + ["unit_net_price"]
    ensures var r := LabtracOld(raw, alsLab, uuid).value;
      forall i :: 0 <= i < r.height ==>
        Get(r, "system_source")[i] == Str("Labtrac") && Get(r, "als_lab")[i] == Str(alsLab) &&
        Get(r, "order_uuid")[i] == Str(uuid(i))
  {
    var renamed := OldInvoicedRows(raw).value;
    var ided := PrepareOld(renamed, alsLab, uuid);
    PrepareOldValues(renamed, alsLab, uuid);
    OldOutputHolds();
    SelectThenPrice(ided, OldOutput, "unit_net_price");
  }

  /** Only "InvoiceDate" is renamed onto "order_invoiced_date". */
  lemma OntoOldInvoicedDate(c: string)
    ensures Renamed(OldRename, c) == "order_invoiced_date" ==> c == "InvoiceDate" || c == "order_invoiced_date"
  {
    RenamedFrom(OldRename, c);
    if Renamed(OldRename, c) == "order_invoiced_date" && c != "order_invoiced_date" {
      var j :| 0 <= j < |OldRename| && OldRename[j] == (c, "order_invoiced_date");
      OldDateAt(j);
    }
  }

  /** Only the seventh pair renames onto the invoice date. */
  lemma OldDateAt(j: nat)
    requires j < |OldRename| && OldRename[j].1 == "order_invoiced_date"
    ensures j == 6
  {
  }

  lemma InvoiceDateRenamed()
    ensures Renamed(OldRename, "InvoiceDate") == "order_invoiced_date"
  {
    assert OldRename[6] == ("InvoiceDate", "order_invoiced_date");
    RenamedFirst(OldRename, 6);
  }

  /** None of the dropped columns is the invoice date. */
  lemma InvoiceDateNotCut()
    ensures "InvoiceDate" !in OldCut
  {
    forall k | 0 <= k < |OldCut| ensures OldCut[k][0] != 'I' {
      if k >= |OldCutHead| {
        assert OldCut[k] == OldCutTail[k - |OldCutHead|];
      }
    }
  }

  /** Lines 171-238 keep exactly the rows with an invoice date, in their
      input order. */
  lemma OldInvoicedRowsDates(raw: Table)
    requires WellFormed(raw) && "order_invoiced_date" !in Labels(raw) && OldInvoicedRows(raw).Ok?
    ensures "InvoiceDate" in Labels(raw)
    ensures "order_invoiced_date" in Labels(OldInvoicedRows(raw).value)
    ensures Get(OldInvoicedRows(raw).value, "order_invoiced_date") == Sift(Get(raw, "InvoiceDate"), Get(raw, "InvoiceDate"), IsPresent)
    ensures OldInvoicedRows(raw).value.height == Count(Get(raw, "InvoiceDate"), IsPresent)
  {
    InvoiceDateNotCut();
    var kept := Drop(raw, OldCut).value;
    assert Get(kept, "InvoiceDate") == Get(raw, "InvoiceDate");
    var invoiced := DropMissing(kept, "InvoiceDate").value;
    var stripped := StripColumn(invoiced, "ProductId").value;
    assert OldInvoicedRows(raw).value == Rename(stripped, OldRename);
    assert Get(stripped, "InvoiceDate") == Get(invoiced, "InvoiceDate");
    InvoiceDateRenamed();
    forall k | 0 <= k < |stripped.columns| && Renamed(OldRename, stripped.columns[k].name) == Renamed(OldRename, "InvoiceDate")
      ensures stripped.columns[k].name == "InvoiceDate"
    {
      assert Labels(stripped)[k] == stripped.columns[k].name;
      OntoOldInvoicedDate(stripped.columns[k].name);
    }
    RenameGet(stripped, OldRename, "InvoiceDate");
  }

  /** The output holds exactly the input rows with an invoice date, in
      their input order. */
  lemma LabtracOldRows(raw: Table, alsLab: string, uuid: nat -> string)
    requires WellFormed(raw) && "order_invoiced_date" !in Labels(raw) && LabtracOld(raw, alsLab, uuid).Ok?
    ensures "InvoiceDate" in Labels(raw) && "order_invoiced_date" in Labels(LabtracOld(raw, alsLab, uuid).value)
    ensures Get(LabtracOld(raw, alsLab, uuid).value, "order_invoiced_date") == Sift(Get(raw, "InvoiceDate"), Get(raw, "InvoiceDate"), IsPresent)
    ensures LabtracOld(raw, alsLab, uuid).value.height == Count(Get(raw, "InvoiceDate"), IsPresent)
  {
    OldInvoicedRowsDates(raw);
    var renamed := OldInvoicedRows(raw).value;
    var ided := PrepareOld(renamed, alsLab, uuid);
    PrepareOldValues(renamed, alsLab, uuid);
    OldOutputHolds();
    SelectThenPrice(ided, OldOutput, "unit_net_price");
  }
}
