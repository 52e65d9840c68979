/** The dispatch of a classified file to its normalizer
    (utils/pre_process_function.py:6-18 and 594-607): the table from
    schema key to normalizer, the call, and the name of the normalizer
    that ran, which decides the file's combination bucket. */
module Dispatch {
  import opened Wrappers
  import opened Tables
  import Text
  import opened SchemaRegistry
  import Classifier
  import Settings
  import Labtrac
  import Transactor
  import Leca

  /** The five normalizers the table can select. */
  datatype Normalizer = LabtracNewFormat | LabtracOldFormat | TransactorFormat | LecaFormat | PassionFormat

  /** The Python name of each normalizer, the key of the bucket table. */
  function FunctionName(n: Normalizer): string
  {
    match n
    case LabtracNewFormat => "preprocess_labtrac_new"
    case LabtracOldFormat => "preprocess_labtrac_old"
    case TransactorFormat => "preprocess_transactor"
    case LecaFormat => "preprocess_leca"
    case PassionFormat => "prep_transactor_passion_dental_design"
  }

  /** `lookup_preprocess_function`; Schema_11 and Schema_12 are commented
      out and have no entry. */
  const LookupPreprocessFunction: map<string, Normalizer> := map[
    "Schema_1" := LabtracNewFormat,
    "Schema_2" := LabtracNewFormat,
    "Schema_3" := LabtracOldFormat,
    "Schema_4" := LabtracOldFormat,
    "Schema_5" := TransactorFormat,
    "Schema_6" := TransactorFormat,
    "Schema_7" := LecaFormat,
    "Schema_8" := LecaFormat,
    "Schema_9" := LecaFormat,
    "Schema_10" := PassionFormat
  ]

  /** `func(df, als_lab)`: the selected normalizer applied to the frame
      read from the file; `uuid` supplies its row identifiers and `show`
      writes a non-text value as text (`astype(str)`). */
  function Run(n: Normalizer, raw: Table, alsLab: string, uuid: nat -> string, show: Value -> string): Result<Table, Error>
    requires WellFormed(raw)
  {
    match n
    case LabtracNewFormat => Labtrac.LabtracNew(raw, alsLab, uuid)
    case LabtracOldFormat => Labtrac.LabtracOld(raw, alsLab, uuid)
    case TransactorFormat => Transactor.Normalize(raw, Transactor.TransactorLayout, alsLab, uuid, show)
    case LecaFormat => Leca.Normalize(raw, alsLab, uuid)
    case PassionFormat => Transactor.Normalize(raw, Transactor.PassionLayout, alsLab, uuid, show)
  }

  /** What `preprocess` hands back for a file it dispatched: the name of
      the normalizer that ran and its outcome (a raised exception is an
      `Err`). */
  datatype Dispatched = Dispatched(name: string, result: Result<Table, Error>)

  /** `preprocess(file_path, schema_type, als_lab)`, with the frame the
      file reads to as `raw`: None when the schema key has no normalizer,
      otherwise the normalizer's name and what it returns or raises. */
  function Preprocess(schemaType: string, raw: Table, alsLab: string, uuid: nat -> string, show: Value -> string): (r: Option<Dispatched>)
    requires WellFormed(raw)
    ensures r.None? <==> schemaType !in LookupPreprocessFunction
    ensures r.Some? ==> r.value.name in Settings.CombineLookup
    ensures r.Some? && r.value.result.Ok? ==> WellFormed(r.value.result.value)
  {
    if schemaType in LookupPreprocessFunction then
      var n := LookupPreprocessFunction[schemaType];
      NormalizersHaveBuckets(n);
      RunWellFormed(n, raw, alsLab, uuid, show);
      Some(Dispatched(FunctionName(n), Run(n, raw, alsLab, uuid, show)))
    else None
  }

  lemma RunWellFormed(n: Normalizer, raw: Table, alsLab: string, uuid: nat -> string, show: Value -> string)
    requires WellFormed(raw)
    ensures Run(n, raw, alsLab, uuid, show).Ok? ==> WellFormed(Run(n, raw, alsLab, uuid, show).value)
  {
  }

  // ---------------------------------------------------------------------
  // The table against the registry and the bucket table

  /** Every normalizer's name is a key of the bucket table, and the two
      Labtrac layouts feed "labtrac", Transactor and Passion feed
      "transactor", LECA feeds "leca". */
  lemma NormalizersHaveBuckets(n: Normalizer)
    ensures FunctionName(n) in Settings.CombineLookup
    ensures Settings.Bucket(FunctionName(n)) ==
      match n
      case LabtracNewFormat => "labtrac"
      case LabtracOldFormat => "labtrac"
      case TransactorFormat => "transactor"
      case LecaFormat => "leca"
      case PassionFormat => "transactor"
  {
  }

  /** Distinct normalizers have distinct names, so the name reported by
      `Preprocess` identifies the normalizer that ran. */
  lemma FunctionNameInjective(m: Normalizer, n: Normalizer)
    ensures FunctionName(m) == FunctionName(n) <==> m == n
  {
    if m != n {
      var a, b := FunctionName(m), FunctionName(n);
      assert |a| != |b| || a[19] != b[19];
    }
  }

  /** The dispatch table's keys are exactly the registry keys of the ten
      column-list signatures: the two folder entries and every other key
      have no normalizer. */
  lemma DispatchKeysAreColumnSchemas(key: string)
    ensures key in LookupPreprocessFunction <==>
      exists i :: 0 <= i < |LookupSchema| && LookupSchema[i].0 == key && LookupSchema[i].1.Columns?
  {
    LookupSchemaKeys();
    if key in LookupPreprocessFunction {
      var i := if key == "Schema_1" then 0 else if key == "Schema_2" then 1 else if key == "Schema_3" then 2
        else if key == "Schema_4" then 3 else if key == "Schema_5" then 4 else if key == "Schema_6" then 5
        else if key == "Schema_7" then 6 else if key == "Schema_8" then 7 else if key == "Schema_9" then 8 else 9;
      assert LookupSchema[i].0 == key;
    }
  }

  /** A provisional key is never dispatched: its file is reported as having
      no schema and produces no output. */
  lemma ProvisionalNotDispatched(k: nat, raw: Table, alsLab: string, uuid: nat -> string, show: Value -> string)
    requires WellFormed(raw)
    ensures Preprocess(Classifier.UnknownKey(k), raw, alsLab, uuid, show).None?
  {
    ProvisionalKeysNotInTable();
  }

  /** Registry entry i has a normalizer exactly when it is one of the
      first ten, the column-list signatures. */
  lemma EntryDispatched(i: nat)
    requires i < |LookupSchema|
    ensures LookupSchema[i].0 in LookupPreprocessFunction <==> i < 10
  {
    if i < 6 {
      if i == 0 {} else if i == 1 {} else if i == 2 {} else if i == 3 {} else if i == 4 {} else {}
    } else {
      if i == 6 {} else if i == 7 {} else if i == 8 {} else if i == 9 {} else if i == 10 {} else {}
    }
  }

  /** For any registry whose first `n` entries are exactly the dispatched
      keys and no provisional key is dispatched, a classified header
      reaches a normalizer exactly when it matches one of those entries. */
  lemma ClassifiedKeyDispatched(reg: Classifier.Registry, n: nat, s: Classifier.State, header: seq<string>)
    requires forall i :: 0 <= i < |reg| ==> (reg[i].0 in LookupPreprocessFunction <==> i < n)
    requires forall k :: Classifier.UnknownKey(k) !in LookupPreprocessFunction
    ensures Classifier.AddHeader(reg, s, header).1 in LookupPreprocessFunction <==>
      Classifier.FirstMatch(reg, header).Some? && Classifier.FirstMatch(reg, header).value < n
  {
  }

  lemma ProvisionalKeysNotInTable()
    ensures forall k :: Classifier.UnknownKey(k) !in LookupPreprocessFunction
  {
    forall k ensures Classifier.UnknownKey(k) !in LookupPreprocessFunction {
      assert Classifier.UnknownKey(k)[0] == 'U';
    }
  }

  /** A header the classifier places, from any state, reaches a normalizer
      exactly when it matches one of the ten column-list signatures; a
      header matching a folder entry's characters or nothing at all is
      never normalized. */
  lemma ClassifiedHeaderDispatch(s: Classifier.State, header: seq<string>)
    ensures Classifier.AddHeader(LookupSchema, s, header).1 in LookupPreprocessFunction <==>
      Classifier.FirstMatch(LookupSchema, header).Some? && Classifier.FirstMatch(LookupSchema, header).value < 10
  {
    FirstTenDispatched();
    ProvisionalKeysNotInTable();
    ClassifiedKeyDispatched(LookupSchema, 10, s, header);
  }

  lemma FirstTenDispatched()
    ensures forall i :: 0 <= i < |LookupSchema| ==> (LookupSchema[i].0 in LookupPreprocessFunction <==> i < 10)
  {
    forall i | 0 <= i < |LookupSchema| ensures LookupSchema[i].0 in LookupPreprocessFunction <==> i < 10 {
      EntryDispatched(i);
    }
  }

  // ---------------------------------------------------------------------
  // Registered layouts against their normalizers' column checks

  /** A Schema_6 report always fails `preprocess_transactor`'s check for
      fifteen columns: dispatching it always raises. */
  lemma Schema6AlwaysRaises(raw: Table, alsLab: string, uuid: nat -> string, show: Value -> string)
    requires WellFormed(raw) && multiset(Labels(raw)) == multiset(Schema6)
    ensures Preprocess("Schema_6", raw, alsLab, uuid, show) ==
      Some(Dispatched("preprocess_transactor", Err(ColumnCount(15, 9))))
  {
    TableEntries();
    PreprocessRuns("Schema_6", raw, alsLab, uuid, show);
    RunCalls(TransactorFormat, raw, alsLab, uuid, show);
    Transactor.Schema6Rejected(raw, alsLab, uuid, show);
  }

  /** The table's ten entries, each read off in isolation. */
  lemma TableEntries()
    ensures LookupPreprocessFunction["Schema_1"] == LabtracNewFormat
    ensures LookupPreprocessFunction["Schema_2"] == LabtracNewFormat
    ensures LookupPreprocessFunction["Schema_3"] == LabtracOldFormat
    ensures LookupPreprocessFunction["Schema_4"] == LabtracOldFormat
    ensures LookupPreprocessFunction["Schema_5"] == TransactorFormat
    ensures LookupPreprocessFunction["Schema_6"] == TransactorFormat
    ensures LookupPreprocessFunction["Schema_7"] == LecaFormat
    ensures LookupPreprocessFunction["Schema_8"] == LecaFormat
    ensures LookupPreprocessFunction["Schema_9"] == LecaFormat
    ensures LookupPreprocessFunction["Schema_10"] == PassionFormat
  {
  }

  /** A key with an entry runs that entry's normalizer and reports its name. */
  lemma PreprocessRuns(key: string, raw: Table, alsLab: string, uuid: nat -> string, show: Value -> string)
    requires WellFormed(raw) && key in LookupPreprocessFunction
    ensures Preprocess(key, raw, alsLab, uuid, show) ==
      Some(Dispatched(FunctionName(LookupPreprocessFunction[key]), Run(LookupPreprocessFunction[key], raw, alsLab, uuid, show)))
  {
  }

  /** Which module function each normalizer calls, and with which layout. */
  lemma RunCalls(n: Normalizer, raw: Table, alsLab: string, uuid: nat -> string, show: Value -> string)
    requires WellFormed(raw)
    ensures n == TransactorFormat ==> Run(n, raw, alsLab, uuid, show) == Transactor.Normalize(raw, Transactor.TransactorLayout, alsLab, uuid, show)
    ensures n == PassionFormat ==> Run(n, raw, alsLab, uuid, show) == Transactor.Normalize(raw, Transactor.PassionLayout, alsLab, uuid, show)
    ensures n == LecaFormat ==> Run(n, raw, alsLab, uuid, show) == Leca.Normalize(raw, alsLab, uuid)
  {
    if n == TransactorFormat {
    } else if n == PassionFormat {
    } else if n == LecaFormat {
    }
  }

  /** A Schema_5 report passes `preprocess_transactor`'s check for fifteen
      columns. */
  lemma Schema5Dispatch(key: string, raw: Table, alsLab: string, uuid: nat -> string, show: Value -> string)
    requires WellFormed(raw)
    requires key == "Schema_5" && multiset(Labels(raw)) == multiset(Schema5)
    ensures Preprocess(key, raw, alsLab, uuid, show).Some?
    ensures var d := Preprocess(key, raw, alsLab, uuid, show).value;
      d.name == "preprocess_transactor" && (d.result.Err? ==> !d.result.error.ColumnCount?)
  {
    TableEntries();
    PreprocessRuns(key, raw, alsLab, uuid, show);
    RunCalls(TransactorFormat, raw, alsLab, uuid, show);
    Transactor.Schema5Fits(raw);
  }

  /** A Schema_10 report passes `prep_transactor_passion_dental_design`'s
      check for eleven columns. */
  lemma Schema10Dispatch(key: string, raw: Table, alsLab: string, uuid: nat -> string, show: Value -> string)
    requires WellFormed(raw)
    requires key == "Schema_10" && multiset(Labels(raw)) == multiset(Schema10)
    ensures Preprocess(key, raw, alsLab, uuid, show).Some?
    ensures var d := Preprocess(key, raw, alsLab, uuid, show).value;
      d.name == "prep_transactor_passion_dental_design" && (d.result.Err? ==> !d.result.error.ColumnCount?)
  {
    TableEntries();
    PreprocessRuns(key, raw, alsLab, uuid, show);
    RunCalls(PassionFormat, raw, alsLab, uuid, show);
    Transactor.Schema10Fits(raw);
  }

  /** Schema_7, Schema_8 and Schema_9 reports have the twelve columns
      `preprocess_leca` relabels, so its column-count check passes. */
  lemma LecaSchemasFit(key: string, raw: Table, alsLab: string, uuid: nat -> string, show: Value -> string)
    requires WellFormed(raw)
    requires (key == "Schema_7" && multiset(Labels(raw)) == multiset(Schema7)) ||
             (key == "Schema_8" && multiset(Labels(raw)) == multiset(Schema8)) ||
             (key == "Schema_9" && multiset(Labels(raw)) == multiset(Schema9))
    ensures Preprocess(key, raw, alsLab, uuid, show).Some?
    ensures var d := Preprocess(key, raw, alsLab, uuid, show).value;
      d.name == "preprocess_leca" && (d.result.Err? ==> !d.result.error.ColumnCount?)
  {
    LecaWidth(key, raw);
    LecaDispatch(key, raw, alsLab, uuid, show);
  }

  /** A twelve-column report under a Leca key reaches `preprocess_leca`
      and passes its column-count check. */
  lemma LecaDispatch(key: string, raw: Table, alsLab: string, uuid: nat -> string, show: Value -> string)
    requires WellFormed(raw) && |raw.columns| == 12
    requires key == "Schema_7" || key == "Schema_8" || key == "Schema_9"
    ensures Preprocess(key, raw, alsLab, uuid, show).Some?
    ensures var d := Preprocess(key, raw, alsLab, uuid, show).value;
      d.name == "preprocess_leca" && (d.result.Err? ==> !d.result.error.ColumnCount?)
  {
    LecaEntries(key);
    PreprocessRuns(key, raw, alsLab, uuid, show);
    RunCalls(LecaFormat, raw, alsLab, uuid, show);
    var r := Leca.Normalize(raw, alsLab, uuid);
    assert r.Err? ==> !r.error.ColumnCount?;
    assert Preprocess(key, raw, alsLab, uuid, show) == Some(Dispatched(FunctionName(LecaFormat), r));
  }

  lemma LecaEntries(key: string)
    requires key == "Schema_7" || key == "Schema_8" || key == "Schema_9"
    ensures key in LookupPreprocessFunction && LookupPreprocessFunction[key] == LecaFormat
  {
    TableEntries();
  }

  lemma LecaWidth(key: string, raw: Table)
    requires WellFormed(raw)
    requires (key == "Schema_7" && multiset(Labels(raw)) == multiset(Schema7)) ||
             (key == "Schema_8" && multiset(Labels(raw)) == multiset(Schema8)) ||
             (key == "Schema_9" && multiset(Labels(raw)) == multiset(Schema9))
    ensures |raw.columns| == 12
  {
    assert |multiset(Labels(raw))| == |Labels(raw)|;
  }
}
