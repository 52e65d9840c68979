# Lab sales ingestion: classification, normalization and NHS/private tagging

This project is a Dafny model of the ingestion core of a dental-lab sales
pipeline. Each lab exports its sales as CSV files from one of several
practice-management systems: Labtrac in two layouts, Transactor, Passion,
and the Custom (Leca) exports. The exports are stored under `data/sales/<lab>/...`.
The pipeline works in five steps:

- **Classification.** It reads every CSV header and compares it with a
  registry of known column lists. The comparison ignores column order.
  A header that matches no entry gets a new provisional key.
- **Dispatch.** A dispatch table sends each registry key that has a
  normalizer to the normalizer for that layout.
- **Normalization.** Each normalizer turns the export into the common
  sales layout, the "cube". It drops columns, filters rows, renames
  labels, casts numbers, assembles the invoice month and adds tags, row
  identifiers and unit prices.
- **Writing and combining.** Each result is written below the bucket
  folder of its normalizer. Each bucket's files are then concatenated
  into one combined file.
- **Code-list mapping.** It builds the Aesthetic World and Woodford NHS
  and Private code lists. It also tags Ashford sales as ALS Lab, NHS,
  Private or Unknown, using a list of search terms and a price list.

Data frames are modelled column by column. A `Table` has a height and a
sequence of labelled columns of cells. A cell is a number (`real`),
text, a date or missing. Each pandas operation the source uses has its
own function in `Tables`. That function states:

- which labels the result has,
- what each of its columns holds,
- when the operation raises a `KeyError` or `ValueError`.

Exceptions are `Err` values of a `Result`. The model has one module per
source file, plus three shared modules:

| module | models |
|---|---|
| `Text` | Python string operations |
| `Paths` | `PurePosixPath` |
| `Tables`, `Steps` | the pandas operations and the shared normalizer steps |
| `SchemaRegistry` | `utils/schema_utils.py` |
| `Classifier` | `utils/utils.py` |
| `Settings` | `utils/mysettings.py` |
| `Dispatch`, `Labtrac`, `Transactor`, `Leca` | `utils/pre_process_function.py` |
| `Routing` | `utils/pre_process.py` |
| `NhsMapping` | `utils/nhs_mapping.py` |

Code that updates state step by step is written as imperative Dafny:

- The classifier's module-level globals are the fields of the class
  `Classifier.Classifier`.
- The in-place conversion of the Ashford price list is the method
  `NhsMapping.PriceList.IdsToText`.
- The source's loops are `while` loops:
  - the cut loop, the strip loops and the totals check;
  - the placeholder loop;
  - the driver loop over the files, and the loop that combines buckets.

Each method is proved equal to a function. The properties are proved as
lemmas about those functions.

## Model

| member | source | states |
|---|---|---|
| Classifier.HeaderIsUniqueIffDistinct | utils/utils.py:78-81 | the flag `get_csv_headers` returns is true exactly when the header's labels are pairwise distinct |
| Classifier.FirstMatchFrom | utils/utils.py:59-61 | the registry search returns the first entry whose signature is a permutation of the header, every earlier entry fails the test, and "no result" means that no entry passes |
| Classifier.FirstMatchIgnoresOrder | utils/utils.py:59-61 | since both sides are sorted before comparing, reordering a header's columns never changes which entry it matches |
| Classifier.NotPermutations | utils/schema_utils.py:16-28 | no two registry signatures hold the same multiset of entries |
| Classifier.MatchIsUnique | utils/utils.py:59-61 | a header that matches registry entry i is classified as entry i and matches no other entry |
| Classifier.UnknownKeyInjective | utils/utils.py:63 | distinct counter values give distinct provisional keys |
| Classifier.LookupSchemaHasNoProvisionalKeys | utils/schema_utils.py:16-28 | no registry key has the form of a provisional key |
| Classifier.InitialInvariant | utils/utils.py:37-43 | the initial globals satisfy the invariant: the counter is at least 1, `schema_new` holds exactly the keys minted so far, and the file and schema lists are aligned |
| Classifier.AddHeaderSpec | utils/utils.py:44-67 | a matched header returns the registry key and leaves the state unchanged; an unmatched one mints the next `UNknown_Schema_n` key, which is fresh and collides with no registry key, records the header under it and increments the counter; the invariant is preserved |
| Classifier.SameUnknownHeaderTwice | utils/utils.py:59-66 | only the registry is searched, so an unknown header classified twice gets two different keys |
| Classifier.ScanStepInvariant | utils/utils.py:89-100 | each iteration of the scan preserves the invariant |
| Classifier.ScanPartition | utils/utils.py:89-100 | the scan appends the CSV files with distinct labels to `flles` and the others to `files_with_duplicate_columns`, in walk order, so every CSV file lands in exactly one list |
| Classifier.ScanSchemaTypes | utils/utils.py:94-96 | every schema id the scan appends is a registry key or a key recorded in `schema_new` |
| Classifier.Classifier.constructor | utils/utils.py:37-43 | the globals as the module initialises them: counter 1, empty lists and maps, and the registry |
| Classifier.Classifier.AddHeaderToDict | utils/utils.py:44-67 | updates the fields and returns the key exactly as `AddHeader` specifies, so AddHeaderSpec holds of it |
| Classifier.Classifier.ScanOne | utils/utils.py:90-100 | one loop iteration: a CSV file whose suffix passes the filter is classified or listed as having repeated labels; any other path is skipped |
| Classifier.Classifier.GetCsvSchema | utils/utils.py:84-109 | runs the scan over the walked paths and returns the classified files, their schema ids and the provisional schemas, as ScanPartition describes |
| SchemaRegistry.LookupSchemaKeys | utils/schema_utils.py:15-30 | the registry has the twelve keys Schema_1 to Schema_12, pairwise distinct; the first ten are column lists and the last two are folder paths |
| SchemaRegistry.InputFolderList | utils/schema_utils.py:32 | `get_input_folder_list` returns the paths of Schema_11 and Schema_12 |
| SchemaRegistry.Schema1Distinct | utils/schema_utils.py:17 | the Schema_1 column list has no repeated label |
| SchemaRegistry.Schema2Distinct | utils/schema_utils.py:18 | the Schema_2 column list has no repeated label |
| SchemaRegistry.Schema3Distinct | utils/schema_utils.py:19 | the Schema_3 column list has no repeated label |
| SchemaRegistry.Schema4Distinct | utils/schema_utils.py:20 | the Schema_4 column list has no repeated label |
| SchemaRegistry.Schema5Distinct | utils/schema_utils.py:21 | the Schema_5 column list has no repeated label |
| SchemaRegistry.Schema6Distinct | utils/schema_utils.py:22 | the Schema_6 column list has no repeated label |
| SchemaRegistry.Schema7Distinct | utils/schema_utils.py:23 | the Schema_7 column list has no repeated label |
| SchemaRegistry.Schema8Distinct | utils/schema_utils.py:24 | the Schema_8 column list has no repeated label |
| SchemaRegistry.Schema9Distinct | utils/schema_utils.py:25 | the Schema_9 column list has no repeated label |
| SchemaRegistry.Schema10Distinct | utils/schema_utils.py:26 | the Schema_10 column list has no repeated label |
| SchemaRegistry.ColumnListsDistinct | utils/schema_utils.py:16-26 | every registered column list has distinct labels, so a file with that header passes the duplicate-column filter |
| SchemaRegistry.NoTwoPermutations | utils/schema_utils.py:16-28 | no two signatures are equal once sorted, so a header matches at most one entry |
| SchemaRegistry.EqualCounts | utils/schema_utils.py:16-28 | only Schema_7/8/9 and Schema_11/12 share a number of entries; every other pair differs in length |
| SchemaRegistry.LecaApart | utils/schema_utils.py:23-24 | Schema_7 and Schema_8 are not permutations of each other |
| SchemaRegistry.YearApart | utils/schema_utils.py:23-25 | Schema_9 is not a permutation of Schema_7 or Schema_8 |
| SchemaRegistry.FolderSignaturesApart | utils/schema_utils.py:27-28 | the two folder signatures are not permutations of each other |
| Settings.Bucket | utils/pre_process.py:51 | the bucket is "combine" exactly when the name has no entry in `LOOKUP_COMBINE_PREPROCESS_FUNCTION`, since no entry maps to "combine"; the entries themselves are in BucketsOfNormalizers |
| Settings.BucketsOfNormalizers | utils/mysettings.py:3-11 | the two Labtrac normalizers share the "labtrac" bucket, Transactor and Passion share "transactor", and Leca has "leca" |
| Settings.UnknownNameFallsBack | utils/pre_process.py:51 | a name missing from the table goes to "combine", which no listed normalizer uses |
| Settings.SearchTermsAreLowerCase | utils/mysettings.py:52-87 | the 34 search terms contain no capitals, so lower-casing leaves each one unchanged |
| Dispatch.Preprocess | utils/pre_process_function.py:5-18 | a key with no entry in the dispatch table gives None; otherwise the normalizer's name, which has a bucket, and its result, which is a well-formed table when it succeeds |
| Dispatch.RunWellFormed | utils/pre_process_function.py:15 | every normalizer produces a well-formed table when it succeeds |
| Dispatch.NormalizersHaveBuckets | utils/mysettings.py:3-11 | every normalizer's name is in the bucket table, with the bucket listed for it |
| Dispatch.FunctionNameInjective | utils/pre_process_function.py:594-606 | distinct normalizers have distinct names, so the reported name identifies the normalizer that ran |
| Dispatch.DispatchKeysAreColumnSchemas | utils/pre_process_function.py:594-606 | a key has a normalizer exactly when it is the key of a column-list registry entry |
| Dispatch.ProvisionalNotDispatched | utils/pre_process_function.py:6-18 | a provisional key is never dispatched |
| Dispatch.EntryDispatched | utils/pre_process_function.py:594-606 | registry entry i has a normalizer exactly when i is one of the first ten entries |
| Dispatch.ClassifiedKeyDispatched | utils/utils.py:59-66 | the key `add_header_to_dict` returns has a normalizer exactly when the header matches an entry that has one |
| Dispatch.ClassifiedHeaderDispatch | utils/utils.py:59-66 | against the real registry, a header reaches a normalizer exactly when it matches one of the first ten entries |
| Dispatch.TableEntries | utils/pre_process_function.py:594-604 | the normalizer of each of the ten dispatched keys |
| Dispatch.PreprocessRuns | utils/pre_process_function.py:6-16 | a key with an entry runs that entry's normalizer on the frame and reports its name |
| Dispatch.RunCalls | utils/pre_process_function.py:280-591 | Transactor and Passion both run the shared Transactor pipeline, each with its own layout; Leca runs the Leca pipeline |
| Dispatch.Schema6AlwaysRaises | utils/pre_process_function.py:290-293 | a Schema_6 report is sent to `preprocess_transactor` and always raises, because it has 9 columns and that normalizer requires 15 |
| Dispatch.Schema5Dispatch | utils/pre_process_function.py:290-293 | a Schema_5 report reaches `preprocess_transactor` and passes its column-count check |
| Dispatch.Schema10Dispatch | utils/pre_process_function.py:490-493 | a Schema_10 report reaches the Passion normalizer and passes its column-count check |
| Dispatch.LecaSchemasFit | utils/pre_process_function.py:405-422 | Schema_7, Schema_8 and Schema_9 reports reach `preprocess_leca` and pass its twelve-column relabel |
| Dispatch.LecaDispatch | utils/pre_process_function.py:409-422 | a twelve-column report under a Leca key passes the relabel |
| Labtrac.CutErrorSticks | utils/pre_process_function.py:51-55 | once a round of the cut loop raises, the loop's result is that error |
| Labtrac.Round | utils/pre_process_function.py:52-55 | one round of the loop drops the label if it is on the cut list, and renames "Date" to "CompletedDate" if the label is "Date" |
| Labtrac.DropExtraneous | utils/pre_process_function.py:51-55 | the loop runs over the labels the frame had when it started, one round per label |
| Labtrac.CutColumnsIsDropThenRename | utils/pre_process_function.py:30-55 | when labels are distinct, the loop equals dropping every cut-list column and then renaming "Date" |
| Labtrac.DropExtraneousIsDropThenRename | utils/pre_process_function.py:30-55 | the same for the normalizer's own cut list |
| Labtrac.DropThenRenameKeepsDate | utils/pre_process_function.py:54-55 | the reference result carries the "Date" values under "CompletedDate" and adds no other label |
| Labtrac.CutKeepsDate | utils/pre_process_function.py:30-55 | the loop never raises on a frame with distinct labels, keeps the dates under "CompletedDate" and adds no other label |
| Labtrac.KeepInvoiced | utils/pre_process_function.py:57-82 | raises for a missing "CompletedDate" or "Description"; otherwise keeps one row per present invoice date |
| Labtrac.KeepInvoicedDates | utils/pre_process_function.py:58-82 | the remaining invoice dates are the present ones, in their input order, under "order_invoiced_date" |
| Labtrac.Sentinel | utils/pre_process_function.py:85-97 | Romak and Central Dental Laboratory have a placeholder date string; the other labs have none |
| Labtrac.DropSentinelDates | utils/pre_process_function.py:85-97 | removes the rows holding the lab's placeholder date; labs without a placeholder keep every row; every column is kept |
| Labtrac.SentinelDates | utils/pre_process_function.py:85-92 | after the missing dates are dropped, the placeholder filter leaves exactly the dates that pass both tests |
| Labtrac.InvoicedRowsDates | utils/pre_process_function.py:51-97 | the cut, the filter and the placeholder check keep exactly the rows whose "Date" is present and is not the lab's placeholder, in input order |
| Labtrac.DropEmptyCategory | utils/pre_process_function.py:100-101 | `product_category` is dropped exactly when one of its values is missing; a frame without that column raises; every other column is kept |
| Labtrac.StripPresent | utils/pre_process_function.py:104-106 | each listed column that is present is stripped cell by cell; the other columns are left alone |
| Labtrac.StripStringColumns | utils/pre_process_function.py:104-106 | the strip loop computes StripPresent |
| Labtrac.PrepareLabels | utils/pre_process_function.py:104-114 | preparation keeps `product_category` exactly when the input had it, keeps the invoice dates, and adds the tag and identifier columns |
| Labtrac.PrepareTags | utils/pre_process_function.py:109-114 | every row gets "Labtrac", its lab and its own identifier |
| Labtrac.PrepareKeepsDates | utils/pre_process_function.py:104-114 | preparation leaves the invoice dates unchanged |
| Labtrac.FinishNewOutput | utils/pre_process_function.py:104-159 | the output columns are the list for the category case followed by `unit_net_price`; every row is tagged and identified; dates pass through |
| Labtrac.PricedOutput | utils/pre_process_function.py:116-159 | pricing keeps the chosen output columns unchanged and appends the unit price |
| Labtrac.LabtracNewColumns | utils/pre_process_function.py:100-159 | the output uses the category list exactly when no category value is missing |
| Labtrac.LabtracNewTagsRows | utils/pre_process_function.py:109-114 | every output row carries "Labtrac", its lab and its own identifier |
| Labtrac.LabtracNewIdsDistinct | utils/pre_process_function.py:113-114 | with a generator that never repeats, the output identifiers are pairwise distinct |
| Labtrac.LabtracNewRows | utils/pre_process_function.py:51-159 | the output rows are exactly the input rows with a real invoice date, in input order, with those dates |
| Labtrac.PreprocessLabtracNew | utils/pre_process_function.py:21-161 | the normalizer with its two loops computes LabtracNew |
| Labtrac.Finish | utils/pre_process_function.py:104-161 | the normalizer's tail, including the strip loop, computes FinishNew |
| Labtrac.LabtracOld | utils/pre_process_function.py:163-278 | the old-layout normalizer: drop, invoice-date filter and rename, tags and identifiers, selection, unit price; a result is a well-formed table, and its columns and rows are the LabtracOldOutput and LabtracOldRows rows |
| Labtrac.LabtracOldOutput | utils/pre_process_function.py:173-276 | a run that succeeds had every dropped column; its output is the fixed list plus `unit_net_price`, with every row tagged and identified |
| Labtrac.OldInvoicedRowsDates | utils/pre_process_function.py:173-240 | the drop, the filter and the rename keep exactly the rows with an "InvoiceDate", in input order |
| Labtrac.LabtracOldRows | utils/pre_process_function.py:163-278 | the old-layout output holds exactly the input rows with an invoice date, in input order |
| Labtrac.InvoiceDateNotCut | utils/pre_process_function.py:173-209 | the invoice date is not among the dropped columns |
| Steps.StripCell | utils/pre_process_function.py:63 | `.str.strip()` on a cell: text is stripped and the result has no surrounding whitespace; any value that is not text becomes missing |
| Steps.StripCellIdempotent | utils/nhs_mapping.py:36-37 | stripping twice gives the same result as stripping once |
| Steps.StripColumn | utils/pre_process_function.py:63 | strips every cell of an existing column, raises for a missing one, and keeps every other column |
| Steps.Truncate | utils/pre_process_function.py:316-321 | `astype(int)` truncates toward zero |
| Steps.AsIntCell | utils/pre_process_function.py:316-321 | a number is truncated toward zero; a missing value or any text raises |
| Steps.AsInt | utils/pre_process_function.py:316-321 | the cast succeeds exactly when every cell is a number, truncates each one and keeps the other columns |
| Steps.TextCell | utils/pre_process_function.py:319-324 | `astype(str)` on a cell: text is kept, a gap becomes "nan", and any other value is written as text |
| Steps.AsTexts | utils/pre_process_function.py:319-324 | the text casts succeed exactly when every listed column exists; each listed cell is written as text, and every other column is kept |
| Steps.AsFloatCell | utils/pre_process_function.py:325-330 | `astype(float)` on a cell: a number or a gap is kept, and any text or date raises |
| Steps.AsFloats | utils/pre_process_function.py:325-330 | the float casts succeed exactly when every listed column exists and holds only numbers and gaps; they then change no column |
| Steps.YearMonthCell | utils/pre_process_function.py:341 | a missing year or month gives a missing date; whole numbers give the first of the month whose year and month, read in base 100 as pandas reads the digits of year*10000 + month*100 + 1, equal the given pair, and every such date in the Timestamp range (October 1677 to April 2262) is the result; when there is none, or a part is fractional or text, it raises |
| Steps.YearMonth | utils/pre_process_function.py:341 | adds `year_month` from Year and Month row by row; raises on a missing column or a date that cannot be built; keeps the other columns |
| Steps.YearMonthOfWholeNumbers | utils/pre_process_function.py:341 | whole years with months in 1..12 inside the Timestamp range always produce the first of the month |
| Steps.AssembledMonthIsKept | utils/pre_process_function.py:341 | a month in 1..12 is read as itself, so its date is the first of that month of that year |
| Steps.MonthCarries | utils/pre_process_function.py:341 | a month outside 1..12 carries into the year in base 100: month 112 of 2022 is December 2023, month -99 of 2023 is January 2022, and month 13 of 2022 raises |
| Steps.AddIds | utils/pre_process_function.py:333-338 | row i gets the identifier `uuid(i)`; the other columns are kept |
| Steps.IdsAreDistinct | utils/pre_process_function.py:333-338 | with a generator that never repeats, the identifiers are pairwise distinct |
| Steps.Tag | utils/pre_process_function.py:344-345 | every row is tagged with the system and the lab; no other column changes |
| Steps.UnitPrice | utils/pre_process_function.py:159 | the unit price is net sales over quantity, row by row; it raises on a missing column or on text |
| Steps.SelectThenPrice | utils/pre_process_function.py:116-159 | selecting and then pricing gives the selected list plus the price, with the selected columns unchanged |
| Steps.PriceOfCell | utils/pre_process_function.py:159 | a unit price times a non-zero quantity gives back the net sales; a missing quantity gives a missing price, and in the model so does a zero one |
| Steps.Sum | utils/pre_process_function.py:296-303 | within the totals check, a column's sum skips its gaps and is defined exactly when no cell is text, so any text in the detail rows makes the check raise |
| Steps.CheckTotal | utils/pre_process_function.py:296-303 | the reconciliation of one column raises only for a missing column, text, a missing totals row or a mismatch |
| Steps.ReconcileTotals | utils/pre_process_function.py:296-303 | the loop over Qty, Net_Sales and Tax_Sales raises the first failure |
| Steps.PassingTotals | utils/pre_process_function.py:296-303 | a passing check means each column has numeric detail rows and a totals row, and the detail rows sum to at most the report total plus 0.01 (a missing total passes) |
| Steps.ConsistentReportPasses | utils/pre_process_function.py:296-303 | a report whose totals row is the exact sum of its detail rows passes |
| Steps.UnderstatedDetailPasses | utils/pre_process_function.py:300-303 | the check is one-sided: detail rows that sum to far less than the total still pass |
| Steps.RemoveTotalsRows | utils/pre_process_function.py:305-307 | removes exactly the totals rows, keeps the others in order, and keeps every column |
| Tables.Select | utils/pre_process_function.py:116-156 | `df[names]`: exactly the named columns in the given order; a name the frame lacks raises a KeyError naming it |
| Tables.Drop | utils/pre_process_function.py:53 | `df.drop(columns=...)` removes every listed column and raises if one is missing |
| Tables.Relabel | utils/pre_process_function.py:409-422 | `df.columns = names` renames positionally and raises on a length mismatch |
| Tables.RenameGet | utils/pre_process_function.py:66-82 | under `rename`, a column keeps its values under its new label unless the rename merges it with another column |
| Tables.Where | utils/pre_process_function.py:58-60 | a row filter keeps the passing rows in order, with every column |
| Tables.Slice | utils/nhs_mapping.py:51 | `iloc[lo:hi]` keeps the rows between the bounds clamped to the height, with every column |
| Tables.FillMissing | utils/pre_process_function.py:310-313 | `fillna` fills exactly the missing cells of one column |
| Tables.Concat | utils/pre_process.py:98 | `pd.concat` stacks the rows over the union of labels, with missing values where a frame lacks a column |
| Paths.JoinSplit | utils/pre_process.py:58 | joining the segments of a split path gives back the path |
| Paths.SplitJoin | utils/pre_process.py:58 | splitting a join of slash-free segments gives back the segments |
| Paths.PartsOfRelative | utils/pre_process.py:10 | a relative path built from named components has exactly those parts, and its name is the last one |
| Paths.StemSuffix | utils/pre_process.py:12 | the stem followed by the suffix is the name, and a non-empty name has a non-empty stem |
| Paths.StemOfExtension | utils/pre_process.py:12 | a name of the form `stem.ext` has that stem and suffix |
| Paths.CsvFilterAccepts | utils/utils.py:86-90 | `(".csv")` is a string, so the `in` test accepts exactly the suffixes "", ".c", ".cs" and ".csv" (in any case) |
| Routing.AlsLabFolderAndFileName | utils/pre_process.py:9-13 | raises an IndexError exactly when the path has two components; otherwise the lab folder is `parts[2]` when there are more than two and none with one, and the file name is the stem, which the suffix completes to the last component |
| Routing.LocatedOfJoin | utils/pre_process.py:9-13 | a relative path of three or more components is located by its third component and the stem of its last |
| Routing.ScannedPathLocated | utils/pre_process.py:9-13 | a file below `data/sales` is located by `parts[2]`, the folder directly below that root, or by none when the file lies directly under the root, together with its stem |
| Routing.TwoComponentPathRaises | utils/pre_process.py:11 | a two-component path passes the `len > 1` guard and then raises an IndexError |
| Routing.OneComponentPathHasNoFolder | utils/pre_process.py:11-12 | a one-component path has no lab folder |
| Routing.LastFolderIsBasename | utils/pre_process.py:39 | `last_folder` is "sales" |
| Routing.BucketIsSegment | utils/pre_process.py:51 | every bucket, including the fallback, is a single path component |
| Routing.DestinationParts | utils/pre_process.py:52-58 | the output path is `data/pre_processed/sales/<bucket>[/<lab>]/<stem>.csv`, and the combination step's `.csv` filter accepts it |
| Routing.CsvName | utils/pre_process.py:58 | `<stem>.csv` has that stem and passes the filter |
| Routing.RoutePartsInjective | utils/pre_process.py:52-58 | the components of a route determine its bucket, lab folder and stem |
| Routing.DestinationsCollide | utils/pre_process.py:52-58 | two files get the same destination exactly when they share bucket, lab folder and stem, so same-named files from deeper sub-folders overwrite each other |
| Routing.OutcomesReported | utils/pre_process_function.py:5-18 | each file's outcome is reported as the dispatch table says |
| Routing.PreprocessFiles | utils/pre_process.py:37-61 | the driver loop (with the name returned beside the frame) computes the state after every file |
| Routing.WriteOne | utils/pre_process.py:49-61 | one iteration writes the dispatched frame to its destination, skips an undispatched file, and stops on an exception |
| Routing.Step | utils/pre_process.py:41-61 | one iteration on a reported outcome: after an exception nothing changes, and an iteration ends quietly only when the file was undispatched or its normalizer succeeded; what it writes is in QuietStep, WrittenFilesAreDispatched and DispatchedFilesAreWritten |
| Routing.Processed | utils/pre_process.py:41-61 | the loop state after the first n files; no contract of its own, its properties are the WrittenFilesAreDispatched, DispatchedFilesAreWritten and AbortSticks rows |
| Routing.AbortSticks | utils/pre_process.py:41-59 | once an exception is raised, no later file is touched |
| Routing.WrittenFilesAreDispatched | utils/pre_process.py:49-59 | every written file is the destination of a file whose key has a normalizer |
| Routing.DispatchedFilesAreWritten | utils/pre_process.py:49-59 | in a run that raises nothing, every dispatched file's destination is written |
| Routing.QuietStep | utils/pre_process.py:49-59 | a step that raises nothing keeps the written files and adds its own destination |
| Routing.StepAsWritten | utils/pre_process.py:47-59 | one iteration as written always raises and writes nothing: None cannot be unpacked, a frame unpacks into its labels, and a label has no `to_csv` |
| Routing.ProcessedAsWritten | utils/pre_process.py:41-59 | the as-written loop state after the first n files; no contract of its own, its property is the AsWrittenWritesNothing row |
| Routing.AsWrittenWritesNothing | utils/pre_process.py:47 | as written, the loop writes nothing and raises on the first file |
| Routing.CombinedRows | utils/pre_process.py:88-98 | the combined frame has as many rows as the accepted files together |
| Routing.CombinedLabels | utils/pre_process.py:88-98 | a label is in the combined frame exactly when some accepted frame has it |
| Routing.CombinedColumns | utils/pre_process.py:88-98 | each column stacks the accepted frames' column, padded with missing values |
| Routing.CombineBucket | utils/pre_process.py:88-98 | the inner loop computes Combined |
| Routing.CombinePreprocess | utils/pre_process.py:79-103 | the outer loop writes the combined file of every bucket folder |
| Routing.CombinedFileInjective | utils/pre_process.py:102 | distinct folders get distinct combined files |
| Routing.CombinedKeys | utils/pre_process.py:85-103 | the run writes one combined file per bucket folder and nothing else |
| Routing.EveryBucketCombined | utils/pre_process.py:85-103 | each bucket folder's combined file holds the concatenation of its frames |
| Transactor.Reconciled | utils/pre_process_function.py:290-307 | the column-count error comes exactly from a report of the wrong width; a result means the totals reconcile and the totals rows are removed |
| Transactor.FillUnknown | utils/pre_process_function.py:310-313 | each listed text column gets "Unknown" in its gaps, and the other columns are kept |
| Transactor.CleanNumbers | utils/pre_process_function.py:310-321 | after the whole cleaning step, Year, Month and the customer id were numbers and are truncated; a missing ship id becomes 0 before truncation |
| Transactor.CleanTexts | utils/pre_process_function.py:310-324 | the filled text columns get "Unknown" in their gaps and are then written as text |
| Transactor.Clean | utils/pre_process_function.py:309-330 | the fills and the integer, text and float casts raise only a KeyError or a failed integer or float cast; a clean report keeps its height and labels |
| Transactor.ConvertCells | utils/pre_process_function.py:316-330 | after the integer casts, every text-cast column holds its cells written as text, every float-cast column held only numbers and gaps, and nothing else changes |
| Transactor.CleanStrs | utils/pre_process_function.py:319-324 | a text-cast column that is not filled holds the report's cells written as text, a gap as "nan" |
| Transactor.CleanFloats | utils/pre_process_function.py:325-330 | a clean report's float-cast columns held only numbers and gaps and keep their values |
| Transactor.CleanKeeps | utils/pre_process_function.py:309-330 | cleaning keeps every column it neither fills nor casts |
| Transactor.StampLabels | utils/pre_process_function.py:333-351 | the stamped table has the report's columns less Year and Month, plus the identifier, the date and the two tags |
| Transactor.StampTags | utils/pre_process_function.py:333-345 | every row gets its identifier and the two tags |
| Transactor.StampDates | utils/pre_process_function.py:341 | every row gets the date YearMonthCell assembles from its Year and Month |
| Transactor.StampKeeps | utils/pre_process_function.py:348-351 | the product codes, which the cast has made text, are stripped cell by cell, and the report's other columns are kept |
| Transactor.Placeholders | utils/pre_process_function.py:549-553 | the loop adds "Unknown" or NaN to the placeholder columns and changes nothing else |
| Transactor.AddPlaceholders | utils/pre_process_function.py:549-553 | the placeholder loop computes Placeholders |
| Transactor.Finish | utils/pre_process_function.py:354-391 | the output has exactly the cube's columns, one row per input row |
| Transactor.Normalize | utils/pre_process_function.py:280-393 | the column-count error comes exactly from a report of the wrong width; a result has the cube's columns and one row per detail row |
| Transactor.NormalizeCarries | utils/pre_process_function.py:325-391 | a column the layout only renames, and that no text cast changes, carries the report's detail rows |
| Transactor.NormalizeTexts | utils/pre_process_function.py:310-324 | a filled text column reaches the output written as text, with "Unknown" in its gaps |
| Transactor.NormalizeStrs | utils/pre_process_function.py:319-324 | a text-cast column that is not filled reaches the output as the detail rows' cells written as text, a gap as "nan" |
| Transactor.NormalizeFloats | utils/pre_process_function.py:325-330 | a report reaches the output only when every detail row of each float-cast column is a number or a gap |
| Transactor.NormalizeShip | utils/pre_process_function.py:310-321 | the ship id reaches the output truncated, with 0 where it was missing |
| Transactor.NormalizeCustomer | utils/pre_process_function.py:316-321 | every customer id was a number and reaches the output truncated |
| Transactor.NormalizeCode | utils/pre_process_function.py:323-351 | the product codes reach the output written as text and then stripped |
| Transactor.NormalizePlaces | utils/pre_process_function.py:549-553 | a placeholder column holds its placeholder in every output row |
| Transactor.NormalizeTags | utils/pre_process_function.py:333-345 | one output row per detail row, each with its own identifier and the tags |
| Transactor.NormalizeDates | utils/pre_process_function.py:341 | every output row has the first of the month that pandas reads from its detail row's truncated Year and Month; that is the detail row's own month when it is in 1..12, and otherwise it is carried into the year |
| Transactor.TransactorSales | utils/pre_process_function.py:325-391 | Transactor: the quantities, sales and taxes are the detail rows' own, each a number or a gap; the descriptions are written as text |
| Transactor.TransactorIds | utils/pre_process_function.py:310-321 | Transactor: ship and customer ids are truncated, and a missing ship id is 0 |
| Transactor.TransactorNames | utils/pre_process_function.py:310-324 | Transactor: ship name, ship address and customer name have "Unknown" for a gap and are written as text |
| Transactor.TransactorProducts | utils/pre_process_function.py:323-391 | Transactor: codes are written as text and stripped, so never missing; the price band is written as text; both unit prices are the detail rows' own, each a number or a gap |
| Transactor.TransactorStamps | utils/pre_process_function.py:333-345 | Transactor: each row's identifier and tags, and the first of the month read from its Year and Month, which is that month when it is in 1..12 |
| Transactor.PassionSales | utils/pre_process_function.py:522-589 | Passion: the quantities, sales and taxes are the detail rows' own, each a number or a gap; the descriptions are written as text |
| Transactor.PassionIds | utils/pre_process_function.py:509-519 | Passion: ship and customer ids are truncated, and a missing ship id is 0 |
| Transactor.PassionNames | utils/pre_process_function.py:509-520 | Passion: ship and customer names have "Unknown" for a gap and are written as text |
| Transactor.PassionProducts | utils/pre_process_function.py:521-553 | Passion: codes are written as text and stripped, so never missing; the address and price band are "Unknown" and both unit prices are missing |
| Transactor.PassionStamps | utils/pre_process_function.py:528-540 | Passion: each row's identifier and tags, and the first of the month read from its Year and Month, which is that month when it is in 1..12 |
| Transactor.Schema5Fits | utils/schema_utils.py:21 | a Schema_5 report has the Transactor width and none of the output names |
| Transactor.Schema6Rejected | utils/pre_process_function.py:290-293 | every Schema_6 report fails the fifteen-column check |
| Transactor.Schema10Fits | utils/schema_utils.py:26 | a Schema_10 report has the Passion width and none of the output names |
| Transactor.PreprocessTransactor | utils/pre_process_function.py:280-393 | `preprocess_transactor`, step by step (width and totals checks, fills and casts, identifiers, dates, tags, rename and selection), computes Normalize with the Transactor layout |
| Transactor.PreprocessPassion | utils/pre_process_function.py:480-591 | the Passion normalizer, step by step (width and totals checks, fills and casts, identifiers, dates, tags, placeholders, rename and selection), computes Normalize with the Passion layout |
| Leca.Promote | utils/pre_process_function.py:405-407 | when the header carries the unnamed-column marker, the first row is dropped as the real header and every column loses that row; a marked frame with no rows raises; an unmarked frame is unchanged |
| Leca.Named | utils/pre_process_function.py:405-422 | the relabel raises exactly when the export does not have twelve columns; otherwise each export column gets its label |
| Leca.Normalize | utils/pre_process_function.py:395-478 | the errors are exactly those listed; a result has the output columns plus the unit price, one row per data row |
| Leca.NormalizeCarries | utils/pre_process_function.py:425-436 | each renamed column carries the export's column |
| Leca.NormalizeTags | utils/pre_process_function.py:439-451 | every row carries its identifier, "Custom" and the lab; the identifiers are distinct when the generator never repeats |
| Leca.NormalizeDates | utils/pre_process_function.py:447 | every row has the date YearMonthCell assembles from its Year and Month, so a month outside 1..12 is carried into the year |
| Leca.NormalizeNetSales | utils/pre_process_function.py:454 | net sales is the invoice amount less VAT; a missing operand gives a missing value, and text raises |
| Leca.NormalizePrice | utils/pre_process_function.py:476 | the unit price is net sales over quantity |
| Leca.NormalizeQuantity | utils/pre_process_function.py:425-436 | the quantity is the export's tenth column |
| Leca.NormalizePriceTimesQuantity | utils/pre_process_function.py:454-476 | wherever the quantity is a non-zero number and both amounts are numbers, unit price times quantity gives back the invoice amount less VAT |
| NhsMapping.StripEach | utils/nhs_mapping.py:36-37 | each listed column is stripped, and every other column is unchanged |
| NhsMapping.StripEveryColumn | utils/nhs_mapping.py:36-37 | the strip loop strips every column |
| NhsMapping.CodeList | utils/nhs_mapping.py:18-26 | a code list without a "Price1" column raises; otherwise every row is kept |
| NhsMapping.CodeListTags | utils/nhs_mapping.py:20-26 | a code list's "Standard" column arrives under the mapping label |
| NhsMapping.AestheticWorld | utils/nhs_mapping.py:3-39 | it raises exactly when a code list lacks "Price1" or the mapping column; otherwise it stacks both lists' rows |
| NhsMapping.GenerateAestheticWorld | utils/nhs_mapping.py:3-39 | the method, with its two loops, computes AestheticWorld |
| NhsMapping.AestheticWorldTags | utils/nhs_mapping.py:29-37 | the mapping column is the two "Standard" columns stacked, each tag folded and then stripped |
| NhsMapping.EconomySurvivesAsWritten | utils/nhs_mapping.py:31-37 | as written, " Economy" escapes the fold and comes out as "Economy" |
| NhsMapping.AestheticWorldStripFirst | utils/nhs_mapping.py:3-39 | the mapping with the strip before the fold raises exactly when the original does |
| NhsMapping.AestheticWorldStripFirstTags | utils/nhs_mapping.py:31-37 | with the strip first, every tag that strips to "Economy" is "NHS", and no output tag is "Economy" |
| NhsMapping.Woodford | utils/nhs_mapping.py:41-73 | it raises exactly when a sheet column is missing; otherwise it returns the three renamed columns, at most 781 rows |
| NhsMapping.GenerateWoodford | utils/nhs_mapping.py:41-73 | the method with the strip loop computes Woodford |
| NhsMapping.WoodfordColumnsKept | utils/nhs_mapping.py:51-69 | each output column is its sheet column cut to rows 8..788, without the rows lacking both code and description, then stripped |
| NhsMapping.TaggerTermsAreConfigured | utils/nhs_mapping.py:94-129 | the hard-coded terms are, element for element, the configured `ALS_NAME_SEARCH_TERM` |
| NhsMapping.LowerCell | utils/nhs_mapping.py:131-132 | lower-casing keeps text as text, with no capital A-Z left |
| NhsMapping.CapitalTermNeverMatches | utils/nhs_mapping.py:131-143 | a term with a capital can never match a lower-cased name |
| NhsMapping.MissingCustomerNeverMatches | utils/nhs_mapping.py:136-139 | `customer \| practice` is false when the customer mask is missing, so a sale with no customer name is never selected |
| NhsMapping.NamedCustomerMatches | utils/nhs_mapping.py:136-139 | a sale with a customer name is selected exactly when its lower-cased customer or practice name contains the term |
| NhsMapping.AlsRows | utils/nhs_mapping.py:133-143 | the ALS subset: the per-term selections concatenated in term order, each a sale of the frame; counts are in AlsIdCount and SaleCopiesBound |
| NhsMapping.SearchAls | utils/nhs_mapping.py:133-143 | the search loop builds the ALS subset: one selection per term, in term order |
| NhsMapping.CentralDentalLabMatchesTwice | utils/nhs_mapping.py:133-143 | a customer called "central dental lab" matches two terms |
| NhsMapping.AlsMerged | utils/nhs_mapping.py:148-150 | the left merge of one sale gives one tagged copy per ALS row with its id, or the sale once when there is none |
| NhsMapping.MergeAls | utils/nhs_mapping.py:146-150 | the left merge on `order_uuid`, sale by sale; no contract of its own, its properties are the AlsMerged and MergeAlsTo rows |
| NhsMapping.MergeAlsTo | utils/nhs_mapping.py:146-150 | every sale appears in the ALS merge, with the tag the merge gives it |
| NhsMapping.MergePrices | utils/nhs_mapping.py:153-156 | the left merge of product_code with ProductID, sale by sale; no contract of its own, its properties are the MergePricesTo, UniquePriceMatch and MergePricesLength rows |
| NhsMapping.MergePricesTo | utils/nhs_mapping.py:153-156 | every sale joined with each of its price rows appears in the price merge |
| NhsMapping.IdsAsText | utils/nhs_mapping.py:153 | ProductID becomes text, and every other column is unchanged |
| NhsMapping.PriceList.IdsToText | utils/nhs_mapping.py:153 | the in-place conversion replaces the table with IdsAsText |
| NhsMapping.FinalTag | utils/nhs_mapping.py:157-168 | the final tag is never missing |
| NhsMapping.FinalTagIsReference | utils/nhs_mapping.py:157-168 | the three in-place rules equal one ladder: RISIO → Private, then the ALS match, then the price-list class, then "Unknown" |
| NhsMapping.LaterError | utils/nhs_mapping.py:153-164 | after the sales columns and ProductID, the KeyErrors of the columns read before the RISIO mask: product_code, Class and product_description |
| NhsMapping.DropError | utils/nhs_mapping.py:171-173 | the drop raises a KeyError exactly when "Description" or "Price 2024" is in neither frame, and names a missing one |
| NhsMapping.TagAshford | utils/nhs_mapping.py:75-175 | errors in the order the source meets them: a KeyError for a column read before the RISIO mask; then a ValueError exactly when some sale's product description, next to one of its price rows, is not text; then the drop's KeyError for "Description" or "Price 2024"; otherwise every row's tag is set |
| NhsMapping.NhsPrivateTagAshford | utils/nhs_mapping.py:75-175 | the method computes TagAshford, errors and their order included, and converts the caller's price list in place once the sales columns have been read |
| NhsMapping.PricedRows | utils/nhs_mapping.py:153-173 | the price steps raise the mask's ValueError exactly when the RISIO mask over the merged rows has a missing cell; with a defined mask, the drop's KeyError when a dropped column is missing; otherwise one output row per merged row, each with its tag set |
| NhsMapping.DescribedMaskDefined | utils/nhs_mapping.py:133-164 | over the ALS-merged rows, the RISIO mask has no missing cell exactly when every sale's description next to each of its price rows is text |
| NhsMapping.OnceMaskDefined | utils/nhs_mapping.py:146-164 | the same holds with each sale tagged once |
| NhsMapping.AlsIdCount | utils/nhs_mapping.py:133-143 | with unique ids, the ALS subset lists a sale once per term it matches |
| NhsMapping.SaleCopiesBound | utils/nhs_mapping.py:133-150 | a sale is copied more than once exactly when it matches two or more terms |
| NhsMapping.UniquePriceMatch | utils/nhs_mapping.py:154-156 | with unique ProductIDs a sale matches at most one price row |
| NhsMapping.MergePricesLength | utils/nhs_mapping.py:154-156 | the price merge never loses a row, and keeps the count when ProductIDs are unique |
| NhsMapping.TagAshfordPrecedence | utils/nhs_mapping.py:133-168 | every output row's tag is the ladder applied to some sale joined with one of its price rows |
| NhsMapping.TagAshfordRowCount | utils/nhs_mapping.py:133-156 | the output has at least one row per copy of a sale, exactly one with unique ProductIDs |
| NhsMapping.TagAshfordRepeatsSales | utils/nhs_mapping.py:133-150 | a sale matching two terms makes the output longer than the sales frame |
| NhsMapping.TagAshfordOnce | utils/nhs_mapping.py:133-150 | the tagger with each sale tagged once: exactly the same errors, in the same order, and the same tag rules |
| NhsMapping.TagAshfordOnceRowCount | utils/nhs_mapping.py:133-156 | the corrected tagger keeps exactly one row per sale when ProductIDs are unique, with no assumption about order ids |
| NhsMapping.TagAshfordOncePrecedence | utils/nhs_mapping.py:146-168 | the corrected tagger follows the same ladder |
| Text.StripIdempotent | utils/nhs_mapping.py:36-37 | `str.strip` is idempotent |
| Text.LowerFixesLowerCase | utils/nhs_mapping.py:131-132 | lower-casing removes every capital A-Z and leaves a string without them unchanged |
| Text.DecimalRoundTrip | utils/utils.py:63 | the counter's decimal rendering reads back to the counter |
| Text.NatToStringInjective | utils/utils.py:63 | distinct counters render as distinct strings |

## Left out

- File input and output are not modelled. This covers `read_csv`, `read_excel`, encodings with the Latin-1 retry, `to_csv`, `mkdir` and the text files of duplicate and failed files. A file's contents are a `Table` parameter (`read`), and the file system is a map from path to table.
- The directory walks are parameters: `rglob`, `iterdir` and `get_folder_names`. The walk order is whatever the parameter gives.
- `uuid.uuid4()` is a parameter `uuid: nat -> string`. Distinctness is proved for any generator that never repeats.
- `pd.to_datetime` on the Labtrac dates is not modelled. The dates are carried as cells; only the month assembly from Year and Month is modelled.
- How `astype(str)` writes a number or a date as text is a parameter `show`. This covers the Transactor and Passion casts and the ProductID cast of the Ashford price list.
- Numbers are unbounded reals, not IEEE doubles, so rounding and NaN propagation are not modelled; NaN is the missing value.
- `.str.contains` is a literal substring test; the regex reading of a term is not modelled.
- The merges do not add `_x`/`_y` suffixes to columns the two frames share. The lemmas that depend on this say so in their preconditions.
- `Tables.Drop`: when several listed columns are missing, the model does not say which one the KeyError names.
- NhsMapping.DropError: when both "Description" and "Price 2024" are missing, pandas' KeyError lists both, and the model names "Description".
- `Tables.Concat` keeps each label once. Repeated labels never reach it: `read_csv` renames a repeated label to `X.1`, so the frames it stacks have distinct labels. For the same reason the duplicate-column test at `utils/utils.py:78-81` always passes on a real file, and `files_with_duplicate_columns` stays empty.
- Steps.StripColumn: pandas' `.str` raises an AttributeError when no value of the column is text. It decides this from the values, and the model does not track pandas dtypes, so the model strips such a column to missing values instead.
- Labtrac.StripPresent: the same `.str` gap; an all-numeric listed column raises in the source.
- Labtrac.KeepInvoiced: the same `.str` gap; a "Description" column with no text raises in the source.
- NhsMapping.StripEach: the same `.str` gap.
- NhsMapping.AestheticWorld: the same `.str` gap; a code list whose columns hold no text raises in the source.
- NhsMapping.AestheticWorldTags: the same `.str` gap.
- NhsMapping.Woodford: the same `.str` gap; a sheet column with no text in rows 8 to 788 raises in the source.
- NhsMapping.WoodfordColumnsKept: the same `.str` gap.
- NhsMapping.LowerCell: the same `.str` gap; a name column with no text raises in the source.
- Text.Lower, Text.LowerFixesLowerCase, NhsMapping.LowerCell, NhsMapping.MatchesTerm: only the capitals A-Z are lower-cased. Python's `str.lower()` also lowers other Unicode capitals; for example, KELVIN SIGN (U+212A) becomes "k".
- Tables.DivCell: a zero divisor gives a missing value in the model. Pandas gives inf or -inf, and NaN for 0/0. The rows that divide inherit this.
- Steps.UnitPrice: a zero quantity gives a missing price, where pandas gives an infinite one.
- Steps.PriceOfCell: a zero quantity gives no price, where pandas gives an infinite one.
- Leca.NormalizePrice: a zero quantity gives a missing price, where pandas gives an infinite one.
- Steps.YearMonthCell: `to_datetime` passes Year and Month through `to_numeric`, so text that spells a number, such as "2023", is accepted in the source. The model raises on any text. A fractional Year or Month also raises in the model, where pandas reads the digits of the assembled float.
- Steps.AsIntCell, Steps.AsFloatCell, Steps.AsInt, Steps.AsFloats: the casts call Python's `int` and `float` on each text cell, so "12" converts under `astype(int)` and "12.5" under `astype(float)`. The model raises on any text.
- Steps.Sum: pandas concatenates a column that holds only text, where the model has no sum. The totals check raises either way, because the subtraction at `utils/pre_process_function.py:297-298` fails on text.
- `Paths` models `PurePosixPath` only, without Windows paths or symbolic links.
- `preprocess_ashford` and `preprocess_densign` are not part of this model. They call normalizers that are not in the source. The Schema_11 and Schema_12 folder prefixes therefore have no normalizer.
- `main.py` and `excel_sheets_to_csv` are not part of this model.
- `utils/utils.py:38` calls `schema_utils.get_schema`, which does not exist; the model's registry is `lookup_schema`.
- The unused settings `ALS_LABS_POSTCODES_DIC` and the path constants are not modelled. The unused `als_df` frame at `utils/nhs_mapping.py:89-91` is not modelled.
- `print` and `tqdm` output is not modelled.
- The Ashford tagger's output is a sequence of rows rather than a table.
- Routing.PreprocessFiles: a file's dispatch outcome is data computed by `Dispatch.Preprocess`. The loop is proved against that function and does not call the normalizers itself.
- Transactor.TransactorSales, TransactorIds, TransactorNames, TransactorProducts, PassionSales, PassionIds, PassionNames and PassionProducts are stated for reports that have no column already under an output name. Schema5Fits and Schema10Fits show that every report of the registered layouts qualifies.
- Labtrac.CutColumnsIsDropThenRename, CutKeepsDate, InvoicedRowsDates and LabtracNewRows are stated for frames with distinct labels, which is the only kind the classifier lets through.
- NhsMapping.TagAshfordPrecedence, TagAshfordRowCount and TagAshfordRepeatsSales assume pairwise distinct order ids, as the normalizers produce them.

## Findings

| source | as written | input that shows it | evidently intended | confidence | as-written member | corrected member |
|---|---|---|---|---|---|---|
| utils/pre_process.py:47 | the driver unpacks `preprocess`'s return value into a frame and a function name, but `preprocess` returns only the frame, or None | any run with at least one file: None cannot be unpacked; a frame unpacks into its column labels, which raises unless there are exactly two, and then `to_csv` is called on a string | `preprocess` returns the frame and the normalizer's name, and the frame is written to that name's bucket | high, not executed | Routing.AsWrittenWritesNothing | Routing.WrittenFilesAreDispatched |
| utils/nhs_mapping.py:31-37 | "Economy" is replaced by "NHS" before the strip loop, so a tag with surrounding spaces escapes the replacement | a code-list tag " Economy" comes out as "Economy" | every tag that strips to "Economy" becomes "NHS" | medium, not executed | NhsMapping.EconomySurvivesAsWritten | NhsMapping.AestheticWorldStripFirstTags |
| utils/nhs_mapping.py:133-150 | the ALS subset concatenates one selection per term, so a sale that matches two terms is listed twice, and the left merge on `order_uuid` duplicates it | a sale whose customer is "central dental lab", which matches both "central dental" and "central dental lab" | each sale appears once, tagged "ALS Lab" when any term matches | medium, not executed | NhsMapping.TagAshfordRepeatsSales | NhsMapping.TagAshfordOnceRowCount |
