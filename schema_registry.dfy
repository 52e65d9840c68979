/** The registry of known export layouts (`lookup_schema`): ten column
    lists for the Labtrac, Transactor and Leca exports, then two input
    folder paths, in insertion order Schema_1 .. Schema_12. */
module SchemaRegistry {
  import opened Text

  /** What a registry key maps to: a list of column labels, or (for the two
      path entries) a folder path string. */
  datatype Signature = Columns(names: seq<string>) | Folder(path: string)
  {
    /** The list `sorted(...)` is applied to: the labels themselves, or the
        one-character strings of a path, since sorting a string sorts its
        characters. */
    function Entries(): (r: seq<string>)
      ensures Columns? ==> r == names
      ensures Folder? ==> |r| == |path| && forall i :: 0 <= i < |path| ==> r[i] == [path[i]]
    {
      match this
      case Columns(names) => names
      case Folder(path) => seq(|path|, i requires 0 <= i < |path| => [path[i]])
    }
  }

  // The longer lists are written in two halves, which keeps the proofs
  // that their labels are pairwise distinct small.

  const Schema1Front: seq<string> := [
    "Order", "Patient", "Code", "Name", "Recieved", "Date", "Product Link", "Description", "Value",
    "Category", "Standard", "Status"
  ]

  const Schema1Back: seq<string> := [
    "Qty", "Delivery 1", "Delivery 2", "Delivery 3", "Delivery 4", "Delivery 5", "Invoice 1",
    "Invoice 2", "Invoice 3", "Invoice 4", "Invoice 5"
  ]

  const Schema1: seq<string> := Schema1Front + Schema1Back

  const Schema2Front: seq<string> := [
    "Order", "Stage", "Patient", "Code", "Name", "Recieved", "Due Date", "CompletedDate",
    "Product Link", "Description", "Value", "Qty", "Category", "Standard", "Status"
  ]

  const Schema2Back: seq<string> := [
    "Delivery 1", "Delivery 2", "Delivery 3", "Delivery 4", "Delivery 5", "Invoice 1", "Invoice 2",
    "Invoice 3", "Invoice 4", "Invoice 5", "DoctorAnalysis1", "DoctorAnalysis2", "DoctorAnalysis3",
    "DoctorAnalysis4", "DoctorAnalysis5"
  ]

  const Schema2: seq<string> := Schema2Front + Schema2Back

  const Schema3A: seq<string> := [
    "Id", "Reference", "DoctorId", "DoctorName", "LicenceNo", "Address1", "Address2", "Address3",
    "Address4", "Address5", "DoctorAnalysis1", "DoctorAnalysis2", "DoctorAnalysis3",
    "DoctorAnalysis4", "DoctorAnalysis5"
  ]

  const Schema3B: seq<string> := [
    "DoctorAnalysis6", "DoctorAnalysis7", "DoctorAnalysis8", "DoctorAnalysis9", "DoctorAnalysis10",
    "DateCreated", "DateDue", "InvoiceDate", "DateShipped", "CategoryDescription",
    "StandardDescription", "ProductId", "ProductName", "ProductAnalysis1"
  ]

  const Schema3Head: seq<string> := Schema3A + Schema3B

  const Schema3C: seq<string> := [
    "ProductAnalysis2", "ProductAnalysis3", "ProductAnalysis4", "ProductAnalysis5",
    "ProductAnalysis6", "ProductAnalysis7", "ProductAnalysis8", "ProductAnalysis9",
    "ProductAnalysis10", "MaterialId", "MaterialName", "MaterialAnalysis1", "MaterialAnalysis2",
    "MaterialAnalysis3", "MaterialAnalysis4"
  ]

  const Schema3D: seq<string> := [
    "MaterialAnalysis5", "MaterialAnalysis6", "MaterialAnalysis7", "MaterialAnalysis8",
    "MaterialAnalysis9", "MaterialAnalysis10", "Net", "Tax", "Gross", "Units", "Qty", "Status",
    "CurrencySymbol", "CurrencyDescription"
  ]

  const Schema3Tail: seq<string> := Schema3C + Schema3D

  const Schema5: seq<string> := [
    "Year", "Month", "ShipID", "ShipFullName", "ShipAddress", "CustID", "CustFullName", "code",
    "Description", "PriceBand", "NetUnitPrice", "DiscountedUnitPrice", "Qty", "Net_Sales",
    "Tax_Sales"
  ]

  const Schema6: seq<string> := [
    "custID", "CustFullName", "shipid", "shipfullname", "code", "Description", "Qty",
    "Net_Sales", "Tax_Sales"
  ]

  const Schema7: seq<string> := [
    "Year", "Month", "Practice Post Code or Identifier", "Practice",
    "Invoice.AccountReference", "Invoice.AccountName", "InvoiceItem.ProductAccountReference",
    "Product", "NHS /Private/Independent/PPE", "InvoiceItem.Quantity", "InvoiceItem.AmountNet",
    "InvoiceItem.AmountVAT"
  ]

  const Schema8: seq<string> := [
    "Year", "Month", "Practice Post Code or Identifier", "Practice Name", "Customer Account",
    "Dentist", "Product Code", "Product Description", "NHS /Private/Independent/PPE",
    "Quantity", "Invoice Amount", "Invoice VAT"
  ]

  const Schema9: seq<string> := [
    "Unnamed: 0", "Unnamed: 1", "Unnamed: 2", "Unnamed: 3", "Unnamed: 4", "Unnamed: 5",
    "Unnamed: 6", "Unnamed: 7", "Unnamed: 8", "Unnamed: 9", "Unnamed: 10", "Unnamed: 11"
  ]

  const Schema10: seq<string> := [
    "Year", "Month", "shipid", "shipfullname", "custID", "CustFullName", "code", "Description",
    "Qty", "Net_Sales", "Tax_Sales"
  ]

  const Schema3: seq<string> := Schema3Head + Schema3Tail

  const Schema4: seq<string> := Schema3 + ["Unnamed: 58", "Unnamed: 59"]

  const DensignFolder: string := "data_sales/densign"

  const AshfordFolder: string := "data_sales/ashford"

  /** `lookup_schema()`, in insertion order (Python dicts keep it). */
  const LookupSchema: seq<(string, Signature)> := [
    ("Schema_1", Columns(Schema1)),
    ("Schema_2", Columns(Schema2)),
    ("Schema_3", Columns(Schema3)),
    ("Schema_4", Columns(Schema4)),
    ("Schema_5", Columns(Schema5)),
    ("Schema_6", Columns(Schema6)),
    ("Schema_7", Columns(Schema7)),
    ("Schema_8", Columns(Schema8)),
    ("Schema_9", Columns(Schema9)),
    ("Schema_10", Columns(Schema10)),
    ("Schema_11", Folder(DensignFolder)),
    ("Schema_12", Folder(AshfordFolder))
  ]

  function Keys(reg: seq<(string, Signature)>): (r: seq<string>)
    ensures |r| == |reg|
    ensures forall i :: 0 <= i < |reg| ==> r[i] == reg[i].0
  {
    seq(|reg|, i requires 0 <= i < |reg| => reg[i].0)
  }

  /** The registry has exactly the keys Schema_1 .. Schema_12, in order and
      without repetition; the first ten map to column lists and the last
      two to folder paths. */
  lemma LookupSchemaKeys()
    ensures Keys(LookupSchema) == ["Schema_1", "Schema_2", "Schema_3", "Schema_4", "Schema_5", "Schema_6",
                               "Schema_7", "Schema_8", "Schema_9", "Schema_10", "Schema_11", "Schema_12"]
    ensures Distinct(Keys(LookupSchema))
    ensures forall i :: 0 <= i < 10 ==> LookupSchema[i].1.Columns?
    ensures LookupSchema[10].1.Folder? && LookupSchema[11].1.Folder?
  {
  }

  /** `get_input_folder_list()`. */
  function InputFolderList(): (r: seq<string>)
    ensures r == [LookupSchema[10].1.path, LookupSchema[11].1.path]
  {
    ["data_sales/densign", "data_sales/ashford"]
  }

  /** No label of `a` occurs in `b`. */
  predicate Unshared(a: seq<string>, b: seq<string>)
  {
    forall i, j :: 0 <= i < |a| && 0 <= j < |b| ==> a[i] != b[j]
  }

  lemma UnsharedConcat(a1: seq<string>, a2: seq<string>, b1: seq<string>, b2: seq<string>)
    requires Unshared(a1, b1) && Unshared(a1, b2) && Unshared(a2, b1) && Unshared(a2, b2)
    ensures Unshared(a1 + a2, b1 + b2)
  {
    forall i, j | 0 <= i < |a1 + a2| && 0 <= j < |b1 + b2| ensures (a1 + a2)[i] != (b1 + b2)[j] {
      var x := if i < |a1| then a1[i] else a2[i - |a1|];
      var y := if j < |b1| then b1[j] else b2[j - |b1|];
      assert (a1 + a2)[i] == x && (b1 + b2)[j] == y;
    }
  }

  lemma Schema1FrontDistinct()
    ensures Distinct(Schema1Front)
  {
  }

  lemma Schema1BackDistinct()
    ensures Distinct(Schema1Back)
  {
  }

  lemma Schema1HalvesUnshared()
    ensures Unshared(Schema1Front, Schema1Back)
  {
  }

  lemma Schema1Distinct()
    ensures Distinct(Schema1)
  {
    Schema1FrontDistinct();
    Schema1BackDistinct();
    Schema1HalvesUnshared();
    DistinctConcat(Schema1Front, Schema1Back);
  }

  lemma Schema2FrontDistinct()
    ensures Distinct(Schema2Front)
  {
  }

  lemma Schema2BackDistinct()
    ensures Distinct(Schema2Back)
  {
  }

  lemma Schema2HalvesUnshared()
    ensures Unshared(Schema2Front, Schema2Back)
  {
  }

  lemma Schema2Distinct()
    ensures Distinct(Schema2)
  {
    Schema2FrontDistinct();
    Schema2BackDistinct();
    Schema2HalvesUnshared();
    DistinctConcat(Schema2Front, Schema2Back);
  }

  lemma Schema3ADistinct()
    ensures Distinct(Schema3A)
  {
  }

  lemma Schema3BDistinct()
    ensures Distinct(Schema3B)
  {
  }

  lemma Schema3CDistinct()
    ensures Distinct(Schema3C)
  {
  }

  lemma Schema3DDistinct()
    ensures Distinct(Schema3D)
  {
  }

  lemma Schema3ABUnshared()
    ensures Unshared(Schema3A, Schema3B)
  {
  }

  lemma Schema3CDUnshared()
    ensures Unshared(Schema3C, Schema3D)
  {
  }

  lemma Schema3ACUnshared()
    ensures Unshared(Schema3A, Schema3C)
  {
  }

  lemma Schema3ADUnshared()
    ensures Unshared(Schema3A, Schema3D)
  {
  }

  lemma Schema3BCUnshared()
    ensures Unshared(Schema3B, Schema3C)
  {
  }

  lemma Schema3BDUnshared()
    ensures Unshared(Schema3B, Schema3D)
  {
  }

  lemma Schema3Distinct()
    ensures Distinct(Schema3)
  {
    Schema3ADistinct();
    Schema3BDistinct();
    Schema3CDistinct();
    Schema3DDistinct();
    Schema3ABUnshared();
    Schema3CDUnshared();
    DistinctConcat(Schema3A, Schema3B);
    DistinctConcat(Schema3C, Schema3D);
    Schema3ACUnshared();
    Schema3ADUnshared();
    Schema3BCUnshared();
    Schema3BDUnshared();
    UnsharedConcat(Schema3A, Schema3B, Schema3C, Schema3D);
    DistinctConcat(Schema3Head, Schema3Tail);
  }

  lemma Schema5Distinct()
    ensures Distinct(Schema5)
  {
  }

  lemma Schema6Distinct()
    ensures Distinct(Schema6)
  {
  }

  lemma Schema7Distinct()
    ensures Distinct(Schema7)
  {
  }

  lemma Schema8Distinct()
    ensures Distinct(Schema8)
  {
  }

  lemma Schema9Distinct()
    ensures Distinct(Schema9)
  {
  }

  lemma Schema10Distinct()
    ensures Distinct(Schema10)
  {
  }

  lemma Schema4Distinct()
    ensures Distinct(Schema4)
  {
    Schema3Distinct();
    var extra := ["Unnamed: 58", "Unnamed: 59"];
    assert forall i, j :: 0 <= i < |Schema3| && 0 <= j < |extra| ==> Schema3[i] != extra[j];
    DistinctConcat(Schema3, extra);
  }

  /** Every registered column list has pairwise distinct labels, so each
      can pass the duplicate-column filter. */
  lemma ColumnListsDistinct()
    ensures forall i :: 0 <= i < |LookupSchema| && LookupSchema[i].1.Columns? ==> Distinct(LookupSchema[i].1.names)
  {
    Schema1Distinct();
    Schema2Distinct();
    Schema3Distinct();
    Schema4Distinct();
    Schema5Distinct();
    Schema6Distinct();
    Schema7Distinct();
    Schema8Distinct();
    Schema9Distinct();
    Schema10Distinct();
  }

  /** How many entries each signature has, in registry order. */
  const EntryCounts: seq<nat> := [23, 30, 58, 60, 15, 9, 12, 12, 12, 11, 18, 18]

  lemma EntryCount(i: nat)
    requires i < |LookupSchema|
    ensures |LookupSchema[i].1.Entries()| == EntryCounts[i]
  {
    if i < 6 {
      if i == 0 {} else if i == 1 {} else if i == 2 {} else if i == 3 {} else if i == 4 {} else {}
    } else {
      if i == 6 {} else if i == 7 {} else if i == 8 {} else if i == 9 {} else if i == 10 {} else {}
    }
  }

  /** A label that tells apart the first two Custom exports. */
  lemma PracticeWitness()
    ensures "Practice" in Schema7 && "Practice" !in Schema8
  {
  }

  /** A label the first two Custom exports have and the third lacks. */
  lemma YearWitness()
    ensures "Year" in Schema7 && "Year" in Schema8 && "Year" !in Schema9
  {
  }

  /** A folder letter that tells apart the Densign and Ashford folder
      signatures: the "g" of "densign", which "data_sales/ashford" lacks. */
  lemma FolderWitness()
    ensures "g" in LookupSchema[10].1.Entries() && "g" !in LookupSchema[11].1.Entries()
  {
    var d := LookupSchema[10].1.Entries();
    assert d[16] == "g";
    var a := LookupSchema[11].1.Entries();
    forall i | 0 <= i < |a| ensures a[i] != "g" {
      assert a[i] == [AshfordFolder[i]];
    }
  }

  lemma SizesTellApart(a: seq<string>, b: seq<string>)
    requires |a| != |b|
    ensures multiset(a) != multiset(b)
  {
    assert |multiset(a)| == |a| && |multiset(b)| == |b|;
  }

  lemma LabelTellsApart(a: seq<string>, b: seq<string>, x: string)
    requires x in a && x !in b
    ensures multiset(a) != multiset(b)
  {
    assert x in multiset(a) && x !in multiset(b);
  }

  /** No two registry signatures are permutations of each other (equal after
      sorting), so a header can match at most one entry. */
  lemma NoTwoPermutations()
    ensures forall i, j :: 0 <= i < j < |LookupSchema| ==>
      multiset(LookupSchema[i].1.Entries()) != multiset(LookupSchema[j].1.Entries())
  {
    forall i, j | 0 <= i < j < |LookupSchema|
      ensures multiset(LookupSchema[i].1.Entries()) != multiset(LookupSchema[j].1.Entries())
    {
      TwoApart(i, j);
    }
  }

  /** The signatures of equal length. */
  lemma EqualCounts(i: nat, j: nat)
    requires i < j < |EntryCounts| && EntryCounts[i] == EntryCounts[j]
    ensures (i == 6 && (j == 7 || j == 8)) || (i == 7 && j == 8) || (i == 10 && j == 11)
  {
    if i < 6 {
      if i == 0 {} else if i == 1 {} else if i == 2 {} else if i == 3 {} else if i == 4 {} else {}
    } else {
      if i == 6 {} else if i == 7 {} else if i == 8 {} else if i == 9 {} else {}
    }
  }

  lemma TwoApart(i: nat, j: nat)
    requires i < j < |LookupSchema|
    ensures multiset(LookupSchema[i].1.Entries()) != multiset(LookupSchema[j].1.Entries())
  {
    var a, b := LookupSchema[i].1.Entries(), LookupSchema[j].1.Entries();
    EntryCount(i);
    EntryCount(j);
    if EntryCounts[i] != EntryCounts[j] {
      SizesTellApart(a, b);
    } else {
      EqualCounts(i, j);
      if i == 6 && j == 7 {
        LecaApart();
      } else if i == 6 || i == 7 {
        YearApart(i);
      } else {
        FolderSignaturesApart();
      }
    }
  }

  /** The first two Custom exports differ in their practice column. */
  lemma LecaApart()
    ensures multiset(LookupSchema[6].1.Entries()) != multiset(LookupSchema[7].1.Entries())
  {
    PracticeWitness();
    assert LookupSchema[6].1.Entries() == Schema7 && LookupSchema[7].1.Entries() == Schema8;
    LabelTellsApart(Schema7, Schema8, "Practice");
  }

  /** The third Custom export has no year column. */
  lemma YearApart(i: nat)
    requires i == 6 || i == 7
    ensures multiset(LookupSchema[i].1.Entries()) != multiset(LookupSchema[8].1.Entries())
  {
    YearWitness();
    assert LookupSchema[8].1.Entries() == Schema9;
    if i == 6 {
      assert LookupSchema[6].1.Entries() == Schema7;
    } else {
      assert LookupSchema[7].1.Entries() == Schema8;
    }
    LabelTellsApart(LookupSchema[i].1.Entries(), Schema9, "Year");
  }

  /** The Densign and Ashford folder signatures are not permutations of
      each other. */
  lemma FolderSignaturesApart()
    ensures multiset(LookupSchema[10].1.Entries()) != multiset(LookupSchema[11].1.Entries())
  {
    FolderWitness();
    LabelTellsApart(LookupSchema[10].1.Entries(), LookupSchema[11].1.Entries(), "g");
  }
}
