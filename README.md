# Index-impact benchmark scripts, modelled in Dafny

The repository is a set of scripts that fill an e-commerce schema (customers, sellers, products,
category translations, orders, order items, payments, reviews, geolocation). They run a fixed suite of
scalar and text-search queries, create secondary indexes, run the suite again and print the relative
change of each query's duration. There are three variants of the tester: a MySQL network driver
(`performance_tester.py`), a MySQL client reached through `docker exec` (`docker_performance_tester.py`)
and an embedded SQLite file (`sqlite_performance_tester.py`). There is also a dataset helper
(`data_loader.py`).

The model covers the logic that sits between the driver calls:

- `CliOutput` (cli_output.dfy): the container variant's `execute_sql`. It turns the client's batch
  output into rows by stripping it, splitting it into lines, dropping the header and blank lines, and
  splitting each line on tabs. Every error becomes the empty list.
- `SchemaScript` (schema_script.dfy): the two schema splitters. The SQLite one strips the pieces of
  `split(';')` and drops the empty ones. The MySQL one executes the non-blank pieces unstripped. In both,
  the first statement that raises ends the loop.
- `BulkLoad` (bulk_load.dfy): the `range(0, total, 1000)` chunk loop of `load_csv_data`, its progress
  values, and the `INSERT` statement built by `_insert_dataframe_chunk`.
- `Harness` and `LabelMap` (harness.dfy, label_map.dfy): `time_query` with its `-1` sentinel, the
  fixed suites, the suite runners filling an insertion-ordered dict, `create_indexes` and its
  per-variant "benign failure" text, and the before/after comparison.
- `OrderItems`, `SampleTables`, `SqliteSample`, `DockerSample` (order_items.dfy, sample_tables.dfy,
  sqlite_sample.dfy, docker_sample.dfy): the synthetic data. This covers row counts, equal column
  lengths, the block-built columns, the `(order_id, order_item_id)` keys, the references between
  tables, and the container variant's quote escaping of review comments.
- `DataFiles` (data_files.dfy): `download_dataset`'s split of the nine required files into found and
  missing ones.
- `Text` and `Seqs` (text.dfy, seqs.dfy) model the Python built-ins the scripts use: `str.strip`,
  `str.split`, `str.join`, substring `in`, `str(n)`, and list comprehensions with a filter.

Durations are `real`. The database engine, the clock and the random generator are inputs:

- Each query execution is an `Outcome`: it returned some rows, or it raised a message.
- `time.time()` is a pair of readings taken around the call.
- Each random draw is a value from a function indexed by the row number.

Choices the scripts make that the model keeps:

- `time_query` returns only the duration. It does not return a row count.
- The clock is `time.time()`, which is not monotonic, so the model claims nothing about the sign of a
  duration (`Harness.SentinelAmbiguous`).
- The failure text that `create_indexes` treats as benign differs per variant:
  - `"Duplicate key name"` for the network driver.
  - `"already exists"` for SQLite.
  - Either one for the container variant.
- The container variant's error handling never lets a failure reach `time_query` or `create_indexes`
  (see Findings).
- The container variant escapes quotes in review comments but not backslashes. The model reads the
  statements back as MySQL does (`DockerSample.ReadBody`). This shows the escaping is enough for the ten
  fixed comments, but not for text that contains a backslash.

## Model

| member | source | states |
|---|---|---|
| `CliOutput.ExecuteSql` | docker_performance_tester.py:38-57 | the result equals the specification `Rows`: a failed run, `fetch_results=False` or an empty stdout give `[]`; otherwise the lines after the header, non-blank ones only, each split on tabs |
| `CliOutput.ParseDataLines` | docker_performance_tester.py:44-48 | the append loop returns exactly the tab-split non-blank lines, in their order |
| `CliOutput.NoRowsWithoutOutput` | docker_performance_tester.py:40-57 | a failed run, an empty stdout or `fetch_results=False` yields no rows |
| `CliOutput.HeaderOnlyGivesNoRows` | docker_performance_tester.py:42-49 | an output with at most one line after stripping (header only) yields no rows |
| `CliOutput.RowCountBound` | docker_performance_tester.py:42-48 | there are at most as many rows as lines minus one |
| `CliOutput.TabRowsConcat` | docker_performance_tester.py:45-47 | row parsing distributes over concatenation of line lists, so the lines' order is kept |
| `CliOutput.TabRowsFromLines` | docker_performance_tester.py:45-47 | every row comes from a non-blank line at or after the given position and joins back to it with tabs; every such line gives a row |
| `CliOutput.RowsAreDataLines` | docker_performance_tester.py:42-48 | every returned row is a non-blank line after the header (never the header) and re-joins with `'\t'` to it; every non-blank line after the header is returned |
| `CliOutput.RowFields` | docker_performance_tester.py:47 | a row has one field more than its line has tabs, and no field contains a tab |
| `CliOutput.SelectOneOutput` | docker_performance_tester.py:62-65 | the output of `SELECT 1` parses to exactly one row `["1"]`, the non-empty result `connect` tests for |
| `Text.JoinSplit` | docker_performance_tester.py:47 | joining the pieces of `s.split(c)` with `c` gives `s` back |
| `Text.SplitFacts` | sqlite_performance_tester.py:184 | `split(c)` yields one more piece than there are separators, and no piece contains `c` |
| `Text.StripFacts` | sqlite_performance_tester.py:184 | `strip()` is empty iff the text is all whitespace; otherwise it neither starts nor ends with whitespace |
| `Text.ContainsIff` | sqlite_performance_tester.py:466 | substring `in` holds iff some offset begins a copy of the needle |
| `Text.IdentInjective` | sqlite_performance_tester.py:213-215 | identifiers `f'{prefix}{i}'` with one prefix are equal only for equal numbers |
| `SchemaScript.FirstFailure` | sqlite_performance_tester.py:185-186 | the index of the first statement that raises: none before it raises, and it raises unless it is the end |
| `SchemaScript.ExecuteStatements` | sqlite_performance_tester.py:185-191 | statements execute in order up to and including the first that raises; the run completes iff none raises |
| `SchemaScript.CreateSchemaSqlite` | sqlite_performance_tester.py:184-191 | the executed statements are the prefix of the stripped non-empty pieces up to the first failure; completes iff none fails |
| `SchemaScript.CreateSchemaMySql` | performance_tester.py:51-63 | when opening or reading the schema file raises, nothing is executed and the schema is not created; otherwise the loop over all pieces executes exactly the non-blank ones, unstripped and in order, up to the first failure, and completes iff none fails |
| `SchemaScript.SqliteStatementsWellFormed` | sqlite_performance_tester.py:184 | no statement is empty, starts or ends with whitespace, or contains `;` |
| `SchemaScript.SqliteStatementsOrder` | sqlite_performance_tester.py:184 | the statements of `a;b` are those of `a` followed by those of `b` |
| `SchemaScript.MySqlStatementsOrder` | performance_tester.py:56-59 | the statements of `a;b` are those of `a` followed by those of `b` |
| `SchemaScript.MySqlStatementsExact` | performance_tester.py:56-59 | a piece is executed iff it is a piece of `split(';')` whose strip is non-empty; none contains `;` |
| `SchemaScript.StrippedMySqlIsSqlite` | performance_tester.py:56-59 | stripping the MySQL variant's statements gives the SQLite variant's statements |
| `SchemaScript.ExecutionOutcome` | sqlite_performance_tester.py:185-191 | with no failure every statement runs; otherwise the last one run is the first that raised |
| `SchemaScript.SingleStatement` | sqlite_performance_tester.py:184 | a non-blank script without `;` is the single statement `strip(script)` |
| `BulkLoad.LoadFrame` | performance_tester.py:89-95 | the loop's chunks, issued inserts and progress values equal the specification sequences; one insert per chunk |
| `BulkLoad.InsertChunk` | performance_tester.py:104-116 | an empty chunk issues nothing; otherwise one statement carrying the chunk's rows, one tuple per row, in order |
| `BulkLoad.StartsShape` | performance_tester.py:92-95 | the k-th chunk start is `1000·k` and below the total; the k-th progress value is `min(start+1000, total)` |
| `BulkLoad.StartsComplete` | performance_tester.py:92 | every multiple of 1000 below the total is a chunk start |
| `BulkLoad.ChunksAtStarts` | performance_tester.py:92-93 | the k-th chunk is the slice `rows[s:s+1000]` at the k-th start |
| `BulkLoad.ChunkSizes` | performance_tester.py:92-93 | every chunk holds between 1 and 1000 rows |
| `BulkLoad.ChunksCover` | performance_tester.py:92-93 | the chunks concatenated in order are exactly the rows: disjoint and covering |
| `BulkLoad.ChunkCount` | performance_tester.py:92 | there are ⌈(total − i)/1000⌉ chunks from start `i` |
| `BulkLoad.ProgressMonotone` | performance_tester.py:95 | progress values strictly increase, never exceed the total, and the last equals the total when it is positive |
| `BulkLoad.LoadFrameIssuesEveryChunk` | performance_tester.py:92-94 | a frame is sent in ⌈total/1000⌉ statements, none of them skipped as empty |
| `BulkLoad.PlaceholdersShape` | performance_tester.py:110 | `', '.join(['%s'] * n)` holds exactly n `%` |
| `BulkLoad.InsertSqlPlaceholders` | performance_tester.py:110-113 | the statement holds one `%s` per column (when names hold no `%`) |
| `BulkLoad.ColumnListSplit` | performance_tester.py:111 | the column list splits back at `,` into the frame's columns, each after its one separator space |
| `Harness.TimeQuerySentinel` | sqlite_performance_tester.py:360-378 | a raised driver error gives exactly `-1`; a returned query gives end minus start |
| `Harness.PositiveMeansReturned` | sqlite_performance_tester.py:362-378 | a positive duration comes from a query that returned and is its elapsed time |
| `Harness.SentinelAmbiguous` | sqlite_performance_tester.py:362-367 | with a non-monotonic clock, a successful query can also be timed at `-1` |
| `Harness.RunSuite` | sqlite_performance_tester.py:412-420 | the loop returns the dict built by assigning each description its `time_query` value, in suite order |
| `Harness.SuiteResultsExact` | sqlite_performance_tester.py:412-420 | with distinct descriptions nothing is overwritten: one entry per query, in order, with that query's time |
| `Harness.SuiteKeys` | sqlite_performance_tester.py:412-420 | the dict's keys are exactly the suite's descriptions, whatever the timings |
| `Harness.ScalarSuiteShape` | sqlite_performance_tester.py:403-420 | the scalar suite yields exactly its 6 labels |
| `Harness.SqliteTextSuiteShape` | sqlite_performance_tester.py:427-443 | the SQLite text suite yields exactly its 5 labels |
| `Harness.MySqlTextSuiteShape` | performance_tester.py:196-212 | the network-driver text suite yields exactly its 5 labels |
| `Harness.DockerTextSuiteShape` | docker_performance_tester.py:266-282 | the container text suite yields exactly its 5 labels |
| `Harness.CreateIndexes` | sqlite_performance_tester.py:459-469 | every statement is attempted in order whatever earlier ones did; each report is the classification of its own outcome |
| `Harness.ClassifyIff` | performance_tester.py:227-236 | a statement is reported "already exists" iff it raised a benign text, an error iff it raised another, created iff it returned |
| `Harness.NoIndexErrorIff` | docker_performance_tester.py:297-306 | no error is reported iff every failure's text is benign for the variant |
| `Harness.AlreadyExistsIsBenignForSqlite` | sqlite_performance_tester.py:465-467 | SQLite's duplicate-index message is classified "already exists" |
| `Harness.AlreadyExistsIsErrorForMySql` | performance_tester.py:232-236 | the network driver reports that same "already exists" message as an error |
| `Harness.CompareSuites` | sqlite_performance_tester.py:501-508 | the loop over `before`'s labels equals the specification `Compare`, including the `KeyError` stop |
| `Harness.ImprovementBounds` | sqlite_performance_tester.py:504-505 | with both durations positive, the improvement is below 100, positive iff after < before, zero iff equal |
| `Harness.ReportedOnlyPositive` | performance_tester.py:264-271 | every reported line has both durations positive, comes from `before` and `after`, and carries `(b−a)/b·100` |
| `Harness.ReportedAllPositive` | performance_tester.py:264-271 | without `KeyError`, every label with two positive durations is reported |
| `Harness.KeyErrorIff` | performance_tester.py:264-266 | `after[test_name]` raises iff some label of `before` is missing from `after`, and names such a label |
| `Harness.SameSuiteNoKeyError` | sqlite_performance_tester.py:484-503 | comparing two runs of one suite never raises `KeyError` |
| `Harness.CompletePerformanceTest` | sqlite_performance_tester.py:484-518 | two phases of both suites around `create_indexes`: the index reports and both comparisons are the specification values, with no `KeyError` |
| `Harness.DockerOutcomeAsWritten` | docker_performance_tester.py:52-57 | as written, the container variant's executions always look successful to their callers |
| `Harness.DockerOutcome` | docker_performance_tester.py:193-207 | corrected outcome: it raises exactly when the client run failed |
| `Harness.DockerFailureTimedAsWritten` | docker_performance_tester.py:192-207 | as written, a failed run is timed like a successful one and never gets `-1` |
| `Harness.DockerDuplicateIndexAsWritten` | docker_performance_tester.py:297-306 | as written, a failing `CREATE INDEX` is reported as created |
| `Harness.DockerTimeQueryCorrected` | docker_performance_tester.py:192-207 | corrected: a failed run is timed `-1`, a completed one end minus start |
| `Harness.DockerCreateIndexCorrected` | docker_performance_tester.py:297-306 | corrected: created iff the run completed; a duplicate key is "already exists"; any other failure an error |
| `LabelMap.Get` | sqlite_performance_tester.py:502-503 | `d[k]` has a value iff `k` is a key (otherwise `KeyError`) |
| `LabelMap.PutGet` | sqlite_performance_tester.py:418 | after `d[k] = v`, `d[k]` is `v` and other keys keep their values |
| `LabelMap.PutFresh` | sqlite_performance_tester.py:418 | assigning a new key appends it at the end |
| `LabelMap.PutExisting` | sqlite_performance_tester.py:418 | assigning an existing key keeps the keys and their order |
| `LabelMap.FromPairsDistinct` | sqlite_performance_tester.py:412-418 | assigning entries with distinct labels yields exactly those entries, in order |
| `LabelMap.FromPairsKeys` | sqlite_performance_tester.py:412-418 | the dict's keys are exactly the labels assigned |
| `OrderItems.GenerateOrderItems` | docker_performance_tester.py:138-149 | the nested loop builds the specification item rows, and `item_count` equals the number of inserts |
| `OrderItems.ItemRowsLength` | docker_performance_tester.py:138-149 | the rows number the sum of the drawn counts, between n and 5n |
| `OrderItems.ItemCountIsTotal` | docker_performance_tester.py:138-149 | for 1000 orders, `item_count` is the total of the counts, between 1000 and 5000 |
| `OrderItems.ItemRowsOrders` | sqlite_performance_tester.py:288-299 | every row belongs to an order `o{i}` with `1 ≤ i ≤ n` and has an item id within that order's count |
| `OrderItems.ItemKeysExact` | sqlite_performance_tester.py:288-299 | the key `(o{i}, j)` is generated iff `1 ≤ i ≤ n` and `1 ≤ j ≤ items_count(i)` |
| `OrderItems.ItemKeysUnique` | sqlite_performance_tester.py:288-299 | no two rows share `(order_id, order_item_id)`: the composite primary key holds |
| `OrderItems.ItemReferences` | sqlite_performance_tester.py:285-295 | every item refers to some product p1..p200 and some seller s1..s50 |
| `SampleTables.CustomersShape` | data_loader.py:85-91 | all five customer columns hold 500 values |
| `SampleTables.CategoriesShape` | data_loader.py:94-97 | both category columns hold 5 values |
| `SampleTables.ProductsShape` | data_loader.py:99-110 | all nine product columns hold 200 values |
| `SampleTables.ProductCategoryBlocks` | data_loader.py:101-102 | the 5 blocks of 40 fill 200 products; product k is in category `k / 40` |
| `SampleTables.SellersShape` | data_loader.py:113-118 | all four seller columns hold 50 values |
| `SampleTables.OrdersShape` | data_loader.py:121-130 | all eight order columns hold 1000 values |
| `SampleTables.OrderStatusBlocks` | data_loader.py:124 | 800 delivered, then 100 shipped, then 100 processing: 1000 statuses |
| `SampleTables.OrderCustomersExist` | data_loader.py:123 | every order's customer is one of the sample customer ids |
| `SampleTables.Columns` | data_loader.py:133-154 | the seven item lists always have the same length, one entry per row |
| `SampleTables.ColumnsAt` | data_loader.py:145-154 | position k of every list holds the fields of the k-th generated item |
| `SampleTables.GenerateItemColumns` | data_loader.py:145-154 | the nested loop fills the seven lists with the columns of the specification item rows |
| `SampleTables.AppendOrderItems` | data_loader.py:147-154 | the inner loop appends items 1..items_count of one order to all seven lists |
| `SampleTables.ItemColumnsKeys` | data_loader.py:145-149 | order i has item ids exactly 1..items_count(i) in the lists |
| `SampleTables.ItemColumnsShipping` | data_loader.py:145-152 | one entry per insert, and every shipping limit is the fixed date |
| `SampleTables.ItemsTableShape` | data_loader.py:133-154 | the item frame has one row per generated item, between n and 5n |
| `SampleTables.PaymentsShape` | data_loader.py:157-163 | all five payment columns hold 1000 values |
| `SampleTables.PaymentTypeBlocks` | data_loader.py:160 | 600 credit card, 300 boleto, 100 debit card: 1000 types |
| `SampleTables.InstallmentBlocks` | data_loader.py:161 | blocks of 500, 200, 150, 100 and 50 fill 1000 installments |
| `SampleTables.ReviewsShape` | data_loader.py:179-187 | all seven review columns hold 800 values |
| `SampleTables.ReviewScoreBlocks` | data_loader.py:182 | blocks of 400, 200, 100, 50 and 50 fill 800 scores |
| `SampleTables.ReviewOrdersArePrefix` | data_loader.py:180-181 | the reviewed orders o1..o800 are the first 800 of o1..o1000 |
| `SampleTables.GeolocationShape` | data_loader.py:190-196 | all five geolocation columns hold 100 values |
| `SampleTables.SampleFilesAreRequired` | data_loader.py:199-209 | the sample writes exactly the nine files the dataset check requires |
| `SqliteSample.Tabulate` | sqlite_performance_tester.py:212-220 | the `range(1, n+1)` append loop yields the rows built for 1..n, in order |
| `SqliteSample.CreateSampleData` | sqlite_performance_tester.py:193-351 | the generated tables are the specification tables for the given draws |
| `SqliteSample.CustomerKeysUnique` | sqlite_performance_tester.py:213-215 | the customer ids c1..c500 are distinct |
| `SqliteSample.OrderCustomersExist` | sqlite_performance_tester.py:265-269 | every order's customer is a generated customer |
| `SqliteSample.PaymentsPerOrder` | sqlite_performance_tester.py:307-315 | exactly 1000 payments, row k for order `o{k+1}` with `payment_sequential` 1; no two share the key |
| `SqliteSample.ReviewsOntoOrders` | sqlite_performance_tester.py:337-346 | review `r{k+1}` is about order `o{k+1}`: the 800 reviews map one-to-one onto existing orders |
| `SqliteSample.ItemsReferToProductsAndSellers` | sqlite_performance_tester.py:284-299 | every item's product and seller are generated rows |
| `SqliteSample.ProductCategoriesExist` | sqlite_performance_tester.py:229-233 | every product's category is a translated category |
| `DockerSample.EscapeLength` | docker_performance_tester.py:181 | the escaped comment is longer by exactly the number of quotes |
| `DockerSample.EscapeConcat` | docker_performance_tester.py:181 | escaping works character by character (it distributes over concatenation) |
| `DockerSample.EscapeNoQuote` | docker_performance_tester.py:181 | a text without quotes is unchanged |
| `DockerSample.EscapedQuotesArePreceded` | docker_performance_tester.py:181-182 | every quote of the escaped text has a backslash right before it |
| `DockerSample.ReadBackEscaped` | docker_performance_tester.py:181-182 | for text without a backslash, MySQL reads the escaped text inside the statement's quotes back exactly, and the literal ends at the statement's closing quote |
| `DockerSample.BackslashDefeatsEscaping` | docker_performance_tester.py:181-182 | the text `\'` escapes to `\\'`; MySQL then reads the literal on into the next column, so the escaping does not protect text with a backslash |
| `DockerSample.ReviewCommentsReadBack` | docker_performance_tester.py:161-182 | each of the ten comments, escaped and inserted, is read back by MySQL exactly |
| `DockerSample.ReviewCommentsUnchanged` | docker_performance_tester.py:161-181 | none of the ten comments holds a quote (nor a backslash), so escaping leaves each unchanged |
| `DataFiles.PartitionFiles` | data_loader.py:44-52 | `existing` is the files that exist and `missing` those that do not, each in list order |
| `DataFiles.DownloadDataset` | data_loader.py:32-73 | returns true iff `missing` is empty iff every required file exists |
| `DataFiles.PartitionIsExact` | data_loader.py:44-52 | found and missing partition the list (as multisets), each by its membership condition |
| `DataFiles.PartitionKeepsOrder` | data_loader.py:47-52 | both lists split over halves of the input, keeping its order |
| `DataFiles.RequiredFilesDistinct` | data_loader.py:32-42 | the nine required file names are distinct |
| `Harness.TimeQuery` | sqlite_performance_tester.py:360-378 | definition of `time_query`: end minus start, or `-1` when the driver error is caught; its properties are `Harness.TimeQuerySentinel` and `Harness.PositiveMeansReturned` |
| `Harness.ScalarQueries` | sqlite_performance_tester.py:403-410 | the six (SQL, description) pairs of the scalar suite, the same in all three variants; see `Harness.ScalarSuiteShape` |
| `Harness.SqliteTextQueries` | sqlite_performance_tester.py:427-433 | the five `LIKE` queries of the SQLite text suite; see `Harness.SqliteTextSuiteShape` |
| `Harness.MySqlTextQueries` | performance_tester.py:196-202 | the five `MATCH … AGAINST` queries of the network-driver text suite; see `Harness.MySqlTextSuiteShape` |
| `Harness.DockerTextQueries` | docker_performance_tester.py:266-272 | the five queries of the container text suite; see `Harness.DockerTextSuiteShape` |
| `Harness.MySqlIndexes` | performance_tester.py:219-225 | the `CREATE INDEX` statements of both MySQL variants, fed to `Harness.CreateIndexes` |
| `Harness.SqliteIndexes` | sqlite_performance_tester.py:450-457 | the MySQL index list plus SQLite's extra index; fed to `Harness.CreateIndexes` |
| `Harness.Benign` | docker_performance_tester.py:303 | the per-variant test of the error text that means "already exists"; see `Harness.ClassifyIff`, `Harness.AlreadyExistsIsBenignForSqlite` and `Harness.AlreadyExistsIsErrorForMySql` |
| `Harness.Classify` | performance_tester.py:227-235 | the three branches of one `try`/`except` of `create_indexes`; characterised by `Harness.ClassifyIff` |
| `Harness.Compare` | performance_tester.py:264-281 | specification of the comparison loop over `before`; characterised by `Harness.ReportedOnlyPositive`, `Harness.ReportedAllPositive` and `Harness.KeyErrorIff`, and implemented by `Harness.CompareSuites` |
| `LabelMap.Put` | sqlite_performance_tester.py:418 | `d[k] = v` on an insertion-ordered dict; characterised by `LabelMap.PutGet`, `LabelMap.PutFresh` and `LabelMap.PutExisting` |
| `CliOutput.Rows` | docker_performance_tester.py:38-57 | specification of what `execute_sql` returns; characterised by `CliOutput.RowsAreDataLines` and implemented by `CliOutput.ExecuteSql` |
| `BulkLoad.Placeholders` | performance_tester.py:110 | `', '.join(['%s'] * n)`; see `BulkLoad.PlaceholdersShape` |
| `BulkLoad.InsertSql` | performance_tester.py:110-113 | the `INSERT INTO t (cols) VALUES (…)` text; see `BulkLoad.InsertSqlPlaceholders` and `BulkLoad.ColumnListSplit` |
| `OrderItems.ItemRows` | docker_performance_tester.py:138-149 | specification of the item rows of orders 1..n; characterised by `OrderItems.ItemKeysExact` and `OrderItems.ItemKeysUnique` |
| `DockerSample.EscapeQuotes` | docker_performance_tester.py:181 | `comment.replace("'", "\\'")`; see `DockerSample.EscapeLength` and `DockerSample.ReadBackEscaped` |
| `DataFiles.RequiredFiles` | data_loader.py:32-42 | the nine required CSV names; see `DataFiles.RequiredFilesDistinct` |
| `SampleTables.Customers` | data_loader.py:85-91 | the customers frame; see `SampleTables.CustomersShape` |
| `SampleTables.Categories` | data_loader.py:94-97 | the category translation frame; see `SampleTables.CategoriesShape` |
| `SampleTables.Products` | data_loader.py:99-110 | the products frame; see `SampleTables.ProductsShape` |
| `SampleTables.Sellers` | data_loader.py:113-118 | the sellers frame; see `SampleTables.SellersShape` |
| `SampleTables.Orders` | data_loader.py:121-130 | the orders frame; see `SampleTables.OrdersShape` |
| `SampleTables.ItemsTable` | data_loader.py:133-141 | the order-items frame built from the seven lists; see `SampleTables.ItemsTableShape` |
| `SampleTables.Payments` | data_loader.py:157-163 | the payments frame; see `SampleTables.PaymentsShape` |
| `SampleTables.Reviews` | data_loader.py:166-187 | the reviews frame; see `SampleTables.ReviewsShape` |
| `SampleTables.Geolocation` | data_loader.py:190-196 | the geolocation frame; see `SampleTables.GeolocationShape` |
| `SampleTables.Datasets` | data_loader.py:199-209 | the nine (file name, frame) pairs written; see `SampleTables.SampleFilesAreRequired` |
| `SqliteSample.Categories` | sqlite_performance_tester.py:198-204 | the five translation rows; see `SqliteSample.ProductCategoriesExist` |
| `SqliteSample.Customers` | sqlite_performance_tester.py:212-220 | the customer rows for the draws; see `SqliteSample.CustomerKeysUnique` |
| `SqliteSample.Products` | sqlite_performance_tester.py:228-241 | the product rows for the draws; see `SqliteSample.ProductCategoriesExist` |
| `SqliteSample.Sellers` | sqlite_performance_tester.py:249-256 | the seller rows for the draws; see `SqliteSample.ItemsReferToProductsAndSellers` |
| `SqliteSample.Orders` | sqlite_performance_tester.py:264-276 | the order rows for the draws; see `SqliteSample.OrderCustomersExist` |
| `SqliteSample.Payments` | sqlite_performance_tester.py:307-315 | the payment rows for the draws; see `SqliteSample.PaymentsPerOrder` |
| `SqliteSample.Reviews` | sqlite_performance_tester.py:336-346 | the review rows for the draws; see `SqliteSample.ReviewsOntoOrders` |

## Left out

- Database drivers, `subprocess.run`/`docker exec`, `connect`/`disconnect` and test_connection.py are
  foreign calls. Each execution is an input `Outcome` or `CliRun`.
- SQL semantics are not modelled: query results, `EXPLAIN` plans, `MATCH … AGAINST` and `LIKE`. So the
  claim that indexes do not change results is not modelled. `explain_query` only prints, so it is left out.
- All printing is left out, including the `:.4f`/`:+.2f` renderings and the `query[:100]` truncation.
- `time.time()` readings are inputs. No claim is made about the sign of a duration.
- Harness.ImprovementBounds: durations and the improvement are exact reals, but Python computes them in
  binary64 floating point. In floats the bound `< 100` can fail: with a before-time of 1.0 and an
  after-time of 1e-17, the improvement rounds to exactly 100.0.
- SchemaScript.CreateSchemaMySql: the contents of `ecommerce_schema.sql` are an input, and a failed
  open or read is `None`. The file system and the printed "Error creating schema" message are not
  modelled.
- Random draws are inputs, restricted to the ranges `randint`/`choice` can produce.
  - `round(uniform(...), 2)` prices, freights and payment values are taken as arbitrary reals.
  - The `:02d` timestamp strings are taken as drawn strings.
  - The geolocation floats are taken as given reals.
- pandas is not modelled: `read_csv`, the NaN replacement, `to_csv`, and `os.makedirs`. File existence
  is an input predicate.
- `load_csv_data`'s loop over the nine CSV-to-table mappings, with its per-file `exists` check and
  `try`, is not modelled. Only the chunk loop for one frame is.
- Harness.CompletePerformanceTest: starts at the first timing. The provisioning steps before it are
  modelled on their own (`SchemaScript`, `SqliteSample`, `OrderItems`), not chained into this method.
  The same holds for the container variant's `ALTER TABLE … ADD FULLTEXT` before its text suite.
- Harness.TimeQuerySentinel: only the driver's own error class is caught (`sqlite3.Error`,
  `mysql.connector.Error`). Any other exception would escape `time_query`, and that path is not modelled.
- SqliteSample.CreateSampleData: `executemany`, `commit` and the category rows' insertion are not modelled.
- The container variant's per-row `INSERT` statement texts and its `DELETE FROM` loop are not modelled.
  Only the item loop with `item_count` and the comment escaping are.
- The unused `escaped_query` in `execute_sql` computes nothing that is used, so it has no behaviour to
  model.

## Findings

| source | as written | input that shows it | evidently intended | confidence | as-written member | corrected member |
|---|---|---|---|---|---|---|
| docker_performance_tester.py:190-207 | `execute_sql` catches every exception and returns `[]`, so `time_query`'s `except` never runs and a failed query is timed as a success | a client run failing with any message, readings 0.0 and 0.5: duration 0.5, not `-1` | a failed query yields the `-1` sentinel, as in the other two variants | not executed; follows from the code text | `Harness.DockerFailureTimedAsWritten` | `Harness.DockerTimeQueryCorrected` |
| docker_performance_tester.py:297-306 | the same swallowing means `create_indexes` never classifies a failure and prints "created successfully" for a duplicate index | a `CREATE INDEX` whose client run fails with "Duplicate key name …" | a duplicate is reported as "already exists" and other failures as errors | not executed; follows from the code text | `Harness.DockerDuplicateIndexAsWritten` | `Harness.DockerCreateIndexCorrected` |
