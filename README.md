# Vehicle scrap valuation: a Dafny model

This project models the core of a system that values end-of-life vehicles
offered at auto auctions. The system has five parts, and each is modelled here:

- **Auction-sheet parser.** It reads an auction sheet's PDF layout into vehicle rows.
- **Valuation engine.** It prices a vehicle from its weights, a catalog of component prices and a static price table.
- **Legacy valuation.** An older script that prints a breakdown.
- **Batch pipeline.** It merges parsed rows into the vehicle master.
- **Import scripts.** They fill the price catalog, the sales history and the vehicle master from spreadsheets and CSV files.

The web API that values an uploaded sheet and recommends whether to bid is modelled as well.

Python values are modelled as follows:

- A DataFrame cell becomes a `Store.Scalar`: NULL/None, NaN, text or a number.
- A record is a map from column names to cells.
- Python's truthiness becomes `Store.Truthy`. NaN is truthy.
- `pd.notna` becomes `Store.NotNa`.

The database tables are Dafny classes whose `rows` field the methods reassign.
A session that is committed, or rolled back, becomes a method. It either keeps every change of the run or restores the rows it started from.

Each operation is written twice:

- **A specification function.** For example `Layout.Parse`, `Valuation.Estimate` or `SpecialPrices.RunSpec`. The properties the source promises are proved about it as lemmas.
- **A method that follows the source.** It has the same loops, lookups and early returns, and its `ensures` ties the result or the new state to the specification function.

Modules:

| module | file | models |
|---|---|---|
| `Wrappers`, `Store`, `Text`, `Sorting`, `Breakdown` | helpers | Option/Result; cells and records; `split`, `join`, `strip`, `lower`, `in` on strings; a stable sort by key; ordered breakdown dictionaries |
| `Layout` | layout.dfy | `src/data_processing/pdf_parser.py` |
| `Valuation` | valuation.dfy | `src/estimate_value.py` |
| `LegacyValuation` | legacy_valuation.dfy | `estimate_value.py` |
| `MarketPrices` | market_prices.dfy | `import_market_prices.py` |
| `SpecialPrices` | special_prices.dfy | `import_special_prices.py` |
| `SalesHistory`, `SalesImport`, `Procurement` | sales_history.dfy, sales_import.dfy, procurement.dfy | the `SalesHistory` table of `src/db/models.py`, `import_sales_data.py`, `import_procurement_data.py` |
| `CsvUpdate` | csv_update.dfy | `update_from_csv.py` |
| `Pipeline` | pipeline.dfy | `src/pipeline.py` |
| `Api` | api.dfy | `src/api/main.py` (`get_parameters`, `analyze_sheet_endpoint`) |

## Model

| member | source | states |
|---|---|---|
| Layout.FirstColumnFrom | src/data_processing/pdf_parser.py:91-95 | the chosen column is the first one, in declaration order, whose half-open interval holds the word's centre; none when no interval holds it |
| Layout.OnlyMatchingColumn | src/data_processing/pdf_parser.py:90-95 | a word whose centre lies in exactly one interval is assigned to that column |
| Layout.OutsideEveryColumnDropped | src/data_processing/pdf_parser.py:9-24 | a word centred left of `auction_no`, in the gap 578–720 or right of the evaluation columns is assigned to no column |
| Layout.InteriorNeverChosen | src/data_processing/pdf_parser.py:22-23 | `evaluation_interior` repeats the interval of `evaluation_score`, so no word is ever assigned to it |
| Layout.CellsOf | src/data_processing/pdf_parser.py:89 | a line yields one cell list per configured column |
| Layout.RowHasEveryColumn | src/data_processing/pdf_parser.py:89-97 | every reconstructed row has exactly the configured columns; each holds the texts of its words joined by single spaces, in line order |
| Layout.InteriorCellEmpty | src/data_processing/pdf_parser.py:22-23 | the `evaluation_interior` cell of every row is empty |
| Layout.LineGrouping | src/data_processing/pdf_parser.py:77-86 | a word lands in the line of its rounded top and in no other; line keys are visited once each, in strictly ascending order, exactly for the rounded tops that occur |
| Layout.LineWordsOrdered | src/data_processing/pdf_parser.py:87 | within a line, words are taken in ascending `x0`, and the result is a permutation of the line's words |
| Layout.RowsOfFilter | src/data_processing/pdf_parser.py:99-101 | a page emits exactly the rows whose stripped auction number is a non-empty digit string: every emitted row passes, and every passing row is emitted |
| Layout.IndexOf | src/data_processing/pdf_parser.py:38 | `list.index`: the first position holding the element, or none when it is absent |
| Layout.HeaderInfo | src/data_processing/pdf_parser.py:31-49 | empty header text gives an empty dictionary; otherwise exactly the four header keys |
| Layout.CornerFollowsMarker | src/data_processing/pdf_parser.py:35-42 | the corner is the word right after the first marker; it is empty exactly when the marker is missing or is only the last word |
| Layout.HeaderFromWords | src/data_processing/pdf_parser.py:44-47 | for a header of words, round, date and venue are words 1, 3 and 4, and the date or venue is empty when the header is too short to hold it |
| Layout.TrailingPagesIgnored | src/data_processing/pdf_parser.py:67 | with more than three pages, changing the last three leaves the extracted rows unchanged |
| Layout.EmptyPageContributesNothing | src/data_processing/pdf_parser.py:73-74 | a page without words adds no rows |
| Layout.ParsedRowsValid | src/data_processing/pdf_parser.py:99-101 | every row of a parsed document is a vehicle row |
| Layout.BuildRow | src/data_processing/pdf_parser.py:89-97 | the column-assignment loop builds the row of the specification `RowOf` |
| Layout.GroupLines | src/data_processing/pdf_parser.py:77-83 | the `lines` dictionary maps each rounded top to its words in original order, and holds exactly the keys that occur, in first-appearance order |
| Layout.ParsePage | src/data_processing/pdf_parser.py:73-104 | the page loop emits the page's vehicle rows, line by line in ascending key order |
| Layout.ExtractVehiclesFromPdf | src/data_processing/pdf_parser.py:53-106 | returns the first page's header and the vehicle rows of the processed pages; a document without pages gives nothing |
| Layout.ProcessPages | src/data_processing/pdf_parser.py:69-106 | the page loop yields the rows of every page in page order, a page without words adding none |
| Valuation.FindVehicle | src/estimate_value.py:41 | the first vehicle-master row with the model code, or none when no row has it |
| Valuation.FirstExact | src/estimate_value.py:13 | the first catalog row priced for this item and model code, or none when there is none |
| Valuation.BestSupported | src/estimate_value.py:17 | among the model-independent rows for this item and engine, one with the largest sample size (the earliest on a tie); none when there is none |
| Valuation.ExactTier | src/estimate_value.py:13-15 | an exact per-model row decides the price, even when that price is zero |
| Valuation.EngineTier | src/estimate_value.py:16-19 | without an exact row, an engine item of a vehicle with a known engine takes the average price of a best-supported engine row |
| Valuation.DefaultTier | src/estimate_value.py:20-21 | otherwise the static price under the derived key, or 0 |
| Valuation.CalculateMaterialValue | src/estimate_value.py:23-34 | 0 without a truthy total weight; fails exactly when the weight is given and a ratio is missing |
| Valuation.TotalIsBreakdownSum | src/estimate_value.py:79-111 | `total_value` is the sum of the numeric breakdown entries |
| Valuation.UnknownVehicle | src/estimate_value.py:44-52 | an unknown model code is not an error: the report holds only the code, the "not sold" marker, total 0 and the unregistered remark |
| Valuation.Failures | src/estimate_value.py:55-111 | a call fails exactly when the vehicle is known and a looked-up key is missing, or the custom prices are `None` |
| Valuation.KeysInFixedOrder | src/estimate_value.py:73-111 | breakdown keys are distinct and in the fixed order: marker, engine, press, kouzan, harness, wheels, special items, transport |
| Valuation.EngineRule | src/estimate_value.py:73-84 | the marker is 〇 exactly when the resale price is positive; the engine entry is the larger of resale and material value |
| Valuation.EngineMaterialRule | src/estimate_value.py:65-70 | the engine material value is 0 without a total weight, else the recorded weight (or 15% of the total) times the per-kg price; the estimation remark is made exactly in the second case |
| Valuation.MaterialValueIsEntrySum | src/estimate_value.py:87-94 | the material entries appear exactly when there is a total weight, each weight times ratio times per-kg price; `calculate_material_value` is their sum |
| Valuation.WheelsAlwaysAdded | src/estimate_value.py:98-99 | the aluminium wheels are always in the breakdown, at the price of the merged table |
| Valuation.SpecialItemsByPrice | src/estimate_value.py:100-105 | a special item appears exactly when its price, resolved against the static table, is positive, and then at that price |
| Valuation.TransportDeducted | src/estimate_value.py:108-111 | a positive transport cost from the custom prices is one negative entry; otherwise there is no transport entry |
| Valuation.SpecialsIgnoreCustomPrices | src/estimate_value.py:100-105 | two different custom price tables give the same special-item entries |
| Valuation.MissingKeyFails | src/estimate_value.py:63-99 | a known vehicle's valuation fails with the first key it does not find |
| Valuation.ValueEngineAndWeight | src/estimate_value.py:63-99 | the engine, material and wheel steps yield the first missing key, or the entries, running total and remarks of the specification |
| Valuation.AddSpecialItems | src/estimate_value.py:100-105 | the special-item loop appends the positively priced items and adds their prices to the total |
| Valuation.DeductTransport | src/estimate_value.py:108-111 | a positive transport cost is appended as a negative entry and subtracted from the total |
| Valuation.EstimateScrapValue | src/estimate_value.py:36-121 | the step-by-step valuation equals the specification `Estimate` |
| LegacyValuation.FindVehicle | estimate_value.py:13 | the first vehicle row with the model code, or none when no row has it |
| LegacyValuation.UnknownVehicle | estimate_value.py:15-17 | the run ends with the not-found message exactly when no row has the code |
| LegacyValuation.RaisedFirstMissing | estimate_value.py:26-57 | a `KeyError` names the missing price key of the first written part, in source order |
| LegacyValuation.TotalIsSum | estimate_value.py:21-57 | the printed total is the sum of the printed breakdown |
| LegacyValuation.BreakdownOrder | estimate_value.py:26-57 | the breakdown keys are distinct, in the order engine, kouzan, wiring, press, wheels, catalyst, freon, airbag |
| LegacyValuation.PartsInBreakdown | estimate_value.py:26-57 | a weight-valued part appears exactly when its weight is truthy, valued as weight times per-kg price; the fixed parts always appear at their price |
| LegacyValuation.AddPart | estimate_value.py:26-29 | one block: the part's missing key, or its entry appended and its value added |
| LegacyValuation.EstimateScrapValue | estimate_value.py:7-65 | the run equals the specification `Legacy` |
| MarketPrices.TagSet | import_market_prices.py:13-17 | tags come from the lower-cased detail: no_catalyst iff 触媒外し; with_catalyst iff 触媒 without 触媒外し (never both); with_suspension iff 足セット; 4wd iff "4wd" |
| MarketPrices.ParseDetailsToTags | import_market_prices.py:12-18 | a non-text cell, or a detail with no tags, gives `standard` |
| MarketPrices.DetailTags | import_market_prices.py:18 | `standard` means exactly "no tags"; otherwise the tags are joined with commas in sorted order, each once |
| MarketPrices.SortedTagsArePythonSorted | import_market_prices.py:18 | the tag list equals any increasing list of exactly the tags, so it is Python's `sorted` |
| MarketPrices.CatalystMentioned | import_market_prices.py:14-15 | a catalyst tag is set exactly when the detail mentions 触媒 |
| MarketPrices.JapaneseKeywords | import_market_prices.py:13-16 | lower-casing does not affect the Japanese keywords: they match the detail as written |
| MarketPrices.FourWheelDriveAnyCase | import_market_prices.py:13-17 | "4WD" is found whatever the case of its letters |
| MarketPrices.Keys | import_market_prices.py:36-42 | the group keys are distinct and are exactly the keys of lines with an item and an engine model |
| MarketPrices.Members | import_market_prices.py:42-46 | a group holds exactly the lines of the workbook that carry its key |
| MarketPrices.MembersInOrder | import_market_prices.py:42-46 | a group is the workbook at the positions of the lines carrying its key, in increasing order, so its mean and latest price see the workbook's order |
| MarketPrices.MembersPositions | import_market_prices.py:42-46 | the positions of a group's lines, as a witness: increasing, and exactly those of the lines carrying its key |
| MarketPrices.GroupsPartitionLines | import_market_prices.py:36-51 | every line that survives `dropna` and `groupby` is counted in exactly one group: the sample sizes add up to the surviving lines |
| MarketPrices.FirstMatch | import_market_prices.py:53-55 | the first catalog row with the group's item, engine model and tags, or none |
| MarketPrices.MissingColumn | import_market_prices.py:33-73 | the run reports no missing column exactly when the stripped headers hold the engine, details and item columns, plus the price and date columns whenever there is a group |
| MarketPrices.StoredFacts | import_market_prices.py:53-65 | one group's write updates the first matching row in place or appends one new row; no other row changes, and other keys' matches stay where they were |
| MarketPrices.ImportedGroups | import_market_prices.py:46-65 | after the loop, every group's first matching row carries its statistics and is the row found before the run when there was one |
| MarketPrices.ImportedRows | import_market_prices.py:46-65 | existing rows keep their identifying columns; only a group's first match changes; the catalog grows by one row per unmatched group |
| MarketPrices.ImportedNewRows | import_market_prices.py:60-64 | every appended row is the new row, without a model code, of a group that had no row |
| MarketPrices.PriceCatalog.Store | import_market_prices.py:53-65 | one group's write, as the specification `Stored` says |
| MarketPrices.RunImport | import_market_prices.py:22-78 | reports the first missing column; otherwise writes every group in order and commits; on a missing column, or when the writes or the commit raise, the catalog is as before |
| MarketPrices.WriteGroups | import_market_prices.py:46-65 | the group loop leaves the catalog as the groups written one after another, in order |
| MarketPrices.RunImportGroups | import_market_prices.py:36-67 | after a successful run, every grouped line's key has a row carrying that group's statistics, and the sample sizes add up to the grouped lines |
| SpecialPrices.Normalized | import_special_prices.py:25-26 | only the text model code changes; every other cell and a non-text model code are kept |
| SpecialPrices.EmptyPricePassesCheck | import_special_prices.py:37 | a record whose price cell is empty (NaN) passes `all([...])` and is imported as a new row into an empty catalog, although it holds no usable price; the corrected test skips it |
| SpecialPrices.Written | import_special_prices.py:37-64 | under the test as written a record is written exactly when its model code, item and price are all truthy; text cells and a numeric price are stored as they are |
| SpecialPrices.CorrectedWritesLess | import_special_prices.py:37 | whatever the corrected test accepts, the test as written accepts with the same values, and whatever the test as written skips, the corrected test skips too |
| SpecialPrices.Usable | import_special_prices.py:33-39 | a record is used exactly when its model code and item are non-empty text and its price a non-zero number; such a record also passes the check as written |
| SpecialPrices.CountsAddUp | import_special_prices.py:32-64 | under either skip test, every record is counted once: imported, updated or skipped |
| SpecialPrices.RunNewRows | import_special_prices.py:54-64 | under either skip test, the rows a run appends are one per accepted record without a pre-run row, in record order, and their number is the imported count |
| SpecialPrices.RunOldRow | import_special_prices.py:42-53 | under either skip test, a pre-run row ends with the price of the last accepted record that found it, or unchanged |
| SpecialPrices.RunRows | import_special_prices.py:42-64 | under either skip test, each pre-run row ends with the price of the last accepted record that found it, or unchanged; the new rows are one per accepted record without a pre-run row; their number is the imported count |
| SpecialPrices.ImportSpecialPrices | import_special_prices.py:17-80 | with the test as written (`AsWritten`), the counts are those of the specification run; the catalog is the run's result when committed, and is restored on rollback |
| SalesHistory.SourceOf | import_sales_data.py:26-33 | the original column renamed to a field, taken from the first matching pair; none exactly when no pair targets the field |
| SalesHistory.SaleOf | src/db/models.py:24-31 | `SalesHistory(**record)` keeps exactly the table's columns; a missing one is NULL, and other columns are ignored |
| SalesHistory.NewSales | import_sales_data.py:45-52 | a run never adds more rows than the file has |
| SalesHistory.NewSalesMembers | import_sales_data.py:45-52 | a row is added exactly when it is in the file and its chassis number was not stored before the run |
| SalesHistory.InsertIfAbsent | import_sales_data.py:45-54 | counts new and skipped rows; the new rows are appended only when the commit succeeds (NOT NULL columns filled, chassis numbers distinct); stored rows never change |
| SalesHistory.RepeatedChassisFails | src/db/models.py:27 | a new chassis number that appears twice in one file makes the commit fail |
| SalesHistory.RerunAddsNothing | import_sales_data.py:45-52 | after a committed run, running the same file again adds nothing |
| SalesImport.SaleRow | import_sales_data.py:26-41 | a file row, renamed, with the date converted, has exactly the table's columns |
| SalesImport.ImportSalesData | import_sales_data.py:12-63 | missing columns stop the run; otherwise rows are stored exactly when the commit succeeds, as the new rows after the stored ones; every row is counted |
| SalesImport.CarNameCarried | import_sales_data.py:30 | a stored row keeps the file's `車名` cell as its car name |
| SalesImport.StoredRowSkipped | import_sales_data.py:46-52 | a row whose chassis number is already stored is not added |
| Procurement.CleanModelCode | import_procurement_data.py:28 | the cleaned model code holds no hyphen; a non-text cell becomes NaN |
| Procurement.ModelCodeWithoutHyphen | import_procurement_data.py:28 | a code without hyphens is only stripped |
| Procurement.ModelCodeAfterHyphen | import_procurement_data.py:28 | with hyphens, everything up to and including the last one is dropped |
| Procurement.CleanChassis | import_procurement_data.py:29 | a chassis cell stays present exactly when it is text |
| Procurement.Cleaned | import_procurement_data.py:18-30 | a cleaned row has exactly the table's columns; all but the three cleaned ones are the renamed values |
| Procurement.WithChassis | import_procurement_data.py:31 | `dropna` keeps exactly the rows with a chassis number |
| Procurement.CarNameLostAsWritten | import_procurement_data.py:18-22 | with the renaming as written, a file without an English `car_name` column cannot commit any new row |
| Procurement.CarNameKept | import_procurement_data.py:18-22 | with the intended renaming, a row keeps its `車名` cell as its car name |
| Procurement.ImportWithRenames | import_procurement_data.py:12-61 | under any renaming: without a chassis column nothing happens; a missing model-code or date column fails; otherwise the new cleaned rows are stored exactly when the commit succeeds |
| Procurement.ImportProcurementData | import_procurement_data.py:12-61 | with the renaming as written, the run above; for a file without an English `car_name` column the table never changes and no run ends with a new row (by `CarNameLostAsWritten`) |
| Procurement.ImportProcurementDataIntended | import_procurement_data.py:12-61 | the same run with `車名` renamed to `car_name`, as the sales import does |
| CsvUpdate.Lookup | update_from_csv.py:30-33 | a number equal to a stored id finds that row; NaN, text and a missing id find nothing |
| CsvUpdate.Patch | update_from_csv.py:37-40 | every field keeps its name; a field takes the record's value exactly when it is not `id`, the file has the column, and the cell holds a value |
| CsvUpdate.PatchRow | update_from_csv.py:37-40 | the inner loop over the columns yields the patched row of the specification |
| CsvUpdate.PatchIdempotent | update_from_csv.py:37-40 | patching twice with the same record is patching once |
| CsvUpdate.RunSpec | update_from_csv.py:29-44 | the run keeps the set of rows; updated plus not found is the number of records |
| CsvUpdate.RunFields | update_from_csv.py:29-44 | each field ends with the value the last record naming its row gives it, or keeps its value |
| CsvUpdate.RunWellFormed | update_from_csv.py:38-39 | `id` is never written, so every row keeps its own id |
| CsvUpdate.RerunChangesNothing | update_from_csv.py:29-46 | applying the same file a second time changes nothing |
| CsvUpdate.UpdateFromCsv | update_from_csv.py:12-59 | no `id` column changes nothing; otherwise the rows are those of the specification when committed, restored on rollback; the counts are reported |
| Pipeline.ToRecord | src/pipeline.py:33 | a parsed row becomes a frame record with the same keys, every value text |
| Pipeline.WithoutHeaders | src/pipeline.py:34 | keeps exactly the rows whose maker is not the header word `メーカー` |
| Pipeline.Phase1Rows | src/pipeline.py:10-37 | phase 1 keeps exactly the collected rows that are not header lines, and with the header lines accounts for every collected row |
| Pipeline.ExtractAllVehicles | src/pipeline.py:10-37 | the loop over the sheets equals the specification `Phase1` |
| Pipeline.Frame.EnrichData | src/pipeline.py:40-52 | every row gains `weight_kg`, `engine_model` and `catalyst_model` set to `None`; nothing else changes |
| Pipeline.AppearanceCount | src/pipeline.py:80-84 | a record's appearance count is at most the number of collected rows |
| Pipeline.CodeOf | src/pipeline.py:88-90 | the model writes a record exactly when its model code is non-empty text; the source writes every truthy code, and the two agree on text or missing codes (`CodeOfTruthy`) |
| Pipeline.CodeOfTruthy | src/pipeline.py:88-90 | for a text or missing model code, the record is written exactly when `not model_code` is false |
| Pipeline.CollectedCodesText | src/pipeline.py:24-33 | every collected row has a text or missing model code, since the parsed rows hold only text |
| Pipeline.Phase1CodesText | src/pipeline.py:10-37 | every row phase 1 yields has a text or missing model code, so on it the model's code test is the source's |
| Pipeline.Position | src/pipeline.py:93 | the master row with the code, or none when no row has it |
| Pipeline.MergedStep | src/pipeline.py:87-111 | one record keeps model codes unique; it adds its count to its own code's row (created when new) and leaves every other row alone |
| Pipeline.MergedFields | src/pipeline.py:95-109 | a record without a code changes nothing; a stored code's row takes the record's year, grade, weight, engine and catalyst (`None` included) and keeps maker and car name; a new code adds one row |
| Pipeline.MergedCounts | src/pipeline.py:87-113 | over the whole merge, each code's count grows by the counts of exactly the records carrying it, and codes stay unique |
| Pipeline.SalesCount | src/pipeline.py:117-126 | a code's sales count is 0 exactly when it has no stored sale |
| Pipeline.IndexOfExact | src/pipeline.py:76 | the index dictionary holds each stored code with its row |
| Pipeline.IndexStep | src/pipeline.py:93-109 | the dictionary stays exact when a row is refreshed or a new code's row is added |
| Pipeline.UpdateDatabase | src/pipeline.py:66-131 | the master after phase 3 is the merge of the specification, codes stay unique, and the output lists it with sales counts |
| Api.GetParameters | src/api/main.py:117-129 | exactly the shown price keys with their table value or 0, and a transport cost fixed at 5000 |
| Api.Recommendation | src/api/main.py:167-176 | 〇 iff the difference is at least 10000; △ iff strictly between -10000 and 10000; × iff at most -10000 |
| Api.RecommendationMonotone | src/api/main.py:170-176 | a larger difference never gets a weaker recommendation |
| Api.NormalizedRow | src/api/main.py:143-145 | only maker, car name and model code are normalised, and only text values |
| Api.CodeOf | src/api/main.py:152-153 | a row is valued only with a non-empty text model code |
| Api.CodeOfTruthy | src/api/main.py:152-153 | for sheet rows, the code test is the truthiness test of the source |
| Api.MergedPrecedence | src/api/main.py:157-165 | the vehicle information overrides the valuation, which overrides the row; the past price and the recommendation come last |
| Api.WithCode | src/api/main.py:151-153 | the valued rows are exactly those with a model code, in order |
| Api.AnalyzeRows | src/api/main.py:151-179 | a successful loop yields one result per row with a model code |
| Api.ResultsFollowRows | src/api/main.py:151-179 | the k-th result is the valuation of the k-th row with a code, merged with that row and the k-th draw |
| Api.FailureFailsRequest | src/api/main.py:155 | a failing valuation of any row fails the whole request |
| Api.ErrorPersists | src/api/main.py:151-179 | once a prefix of the rows fails, the request fails with that error |
| Api.AnalyzeRowsLoop | src/api/main.py:151-179 | the row loop equals the specification `AnalyzeRows` |
| Api.AnalyzeSheetRows | src/api/main.py:141-179 | the endpoint, from parsed rows to results, equals the specification `AnalyzeSheet` |

## Left out

- PDF reading is not modelled. pdfplumber's word extraction and header cropping become given `Page` values.
- Python's `round` is a parameter `rnd`, so its ties-to-even rule is not modelled.
- Prices, weights and coordinates are `real`. Floating-point rounding is not modelled.
- Console output and the FastAPI/FPDF report generation are not modelled.
- The configuration tables are parameters of the model. `src/config.py` defines neither the static price table nor `WEIGHT_BASE_RATIOS`.
- `extract_vehicles_from_pdf` returns a pair, but the pipeline and the API use its result as a list of rows. The model gives them the parsed row lists.
- The sessions do not flush, so every existence check sees only the rows stored before the run. Later updates to a found row go to the session's own object.
- MarketPrices.Imported: `groupby` iterates its groups in sorted key order, but the model takes them in order of first appearance. Distinct groups update different rows, so only the order of the appended new rows can differ.
- `str.lower` and `str.isdigit` are modelled on the ASCII and full-width Latin capitals and digits. Other Unicode digits and case mappings are not modelled.
- LegacyValuation.EstimateScrapValue: the eight copied blocks of the legacy script run as one loop over the parts, in source order.
- MarketPrices.StatsOf: the mean and the latest price of a group are given functions of its lines. Pandas arithmetic is not modelled.
- `normalize_text` is a parameter `normalize`. NFKC normalisation, upper-casing and stripping are not modelled.
- `pd.to_datetime` is a parameter `toDate`. Its parse errors are not modelled.
- A non-text cell under `.str` becomes NaN. A column that is entirely numeric, where `.str` raises, is not modelled.
- `hasattr(vehicle, column)` becomes membership in the row's field set.
- CsvUpdate.Lookup: an `id` given as text is never matched, whereas a database may convert it.
- The nested valuation values (breakdown, remarks, vehicle information) are carried in `Api.Analyzed.report` rather than inside the merged record.
- DataFrame construction pads missing columns with NaN. The model reads a missing column as NULL.
- `random.randint(30000, 110000)` becomes an input sequence of draws, and the model does not bound the draws.
- SpecialPrices.ImportSpecialPrices: what the session stores for a cell of the wrong type is left open as the parameters `asText` and `asPrice`. Such cells are a NaN or text price, or a number in a text column. The existence query compares the converted text. Whether the database then refuses the commit is the `committed` parameter.
- Pipeline.CodeOf: a truthy model code that is not text (NaN, a non-zero number) is written by the source, which builds `VehicleMaster(**record)` and may then fail at the uncaught commit; the model skips such a record. Phase 1 never yields one (`Phase1CodesText`), and phase 2 leaves `model_code` as it is.
- `src/db/models.py` defines only `VehicleMaster` and `SalesHistory`. The `ComponentValue` table that the valuation and the two price imports use is not defined there, so its columns are taken from how the scripts use them. They are `item_name`, `model_code`, `engine_model`, `details_tags`, `latest_price`, `average_price` and `sample_size`. Likewise `VehicleMaster` declares neither `total_weight_kg` nor `engine_weight_kg`, which the valuation reads. The model assumes both, as `migrate_db.py` adds them.
- Pipeline.AppearanceCount: `groupby` drops a key whose model code is missing, but the model counts such rows too. Phase 3 never writes a record without a code, so no stored count differs.
- Whether a commit succeeds is a parameter `committed` wherever the source catches its failure. In the sales imports it is the NOT NULL and UNIQUE conditions of the table.
- The LLM client, the scraper, `enrich_database.py`, `import_targets.py`, the debug and export scripts, `backend/main.py` and the frontend are not part of this model.

## Findings

| source | as written | input that shows it | evidently intended | confidence | as-written member | corrected member |
|---|---|---|---|---|---|---|
| import_special_prices.py:37 | `all([model_code, item_name, price])` is meant to skip incomplete records, but an empty CSV cell reads as NaN, which is truthy | a record with model code `ABC123`, item `Catalyst` and an empty price cell | skip records whose model code, item or price is missing, NaN, empty or zero | medium, not executed | SpecialPrices.EmptyPricePassesCheck | SpecialPrices.Usable |
| import_procurement_data.py:18-22 | the `車名` column is renamed to `maker`, which the sales history does not have, so the NOT NULL `car_name` stays empty | any procurement file with the Japanese headers and a chassis number not yet stored: the commit fails and nothing is imported | rename `車名` to `car_name`, as import_sales_data.py:30 does | medium, not executed | Procurement.CarNameLostAsWritten | Procurement.CarNameKept |
