# phorest-datahub sync engine in Dafny

This project models the incremental sync engine of phorest-datahub (the `appraisals-sync`
service). The engine copies the data of a Phorest salon business into Postgres. It has four
parts.

- **The watermark store** (`watermarks`): one optional timestamp per entity and branch, where
  the branch id "" and "ALL" name the same row. The store only ever advances: `GREATEST` of the
  stored and the new value, and a zero value changes nothing. The store is seeded once from
  the newest imported transaction items and clients.
- **The repositories**: one upsert per table.
  - Clients, transactions and transaction items are newest-wins: a stored row is overwritten
    only when its `updated_at_phorest` is NULL or the incoming one is strictly later, and only
    the columns of the update list change.
  - Reviews are insert-if-absent.
  - Staff, branches, products and product stock are overwritten unconditionally.
  - Stock history is append-only.
  - Rows are sent in statements of a fixed number of rows, and the first failing statement
    ends the call.
- **The CSV layer**: the transactions, clients and reviews readers (header-driven lookup, row
  skipping, de-duplication within a file where a later timestamp wins and a tie keeps the
  first row) and the reviews writer, whose records read back as the reviews they came from.
- **The orchestrators**:
  - the CSV import of a directory and the one-off CSV bootstrap;
  - the incremental transactions and clients syncs through Phorest's CSV export jobs (create,
    poll with a deadline and a growing backoff, download);
  - the reviews syncs: full, latest, incremental with its duplicate-page stop, and the
    bootstrap from archived CSVs;
  - the staff and branch syncs;
  - the products sync with its stock-history decision and its `products_api` watermark.

The database is the class `Store.Db`: one field per table, each a map keyed by the table's
natural key (stock history is a sequence), plus a counter of round trips. The set `faulty`
says which round trips fail, so every error path of the engine can be reached. Each
repository is a module of methods that change only the fields of their own tables. Each
orchestrator is a method with its loops. It is proved equal to a specification function, and
the properties the code promises are lemmas about that function: what is stored, what is
never lost, which watermark moves and that it moves only forward, and where a failure stops
the run.

Behaviour of the code worth noting:

- the CSV import of transactions advances no watermark;
- the staff, branch, product and stock upserts compare no timestamp;
- the staff and branch syncs advance no watermark;
- the incremental reviews sync calls `MaxReviewDate` only for its error, which ends the whole
  run (no later branch is synced), and pages through the listing from the start;
- the staff sync contains every failure to its own branch, and the full reviews sync skips a
  branch on a `MaxReviewDate` error and moves on to the next; the date it reads is handed to
  the review client as `since`, but the client leaves it out of the request, so every page of
  the branch's listing is read;
- a failed watermark bootstrap is not rolled back: the seeds written before the failing round
  trip stay.

## Model

| member | source | states |
|---|---|---|
| Store.Db.RoundTrip | internal/repos/watermarks_repo.go:38-47 | a round trip fails exactly when its number is one of the faulty ones, and always counts as one |
| Records.Greatest | internal/repos/watermarks_repo.go:67 | GREATEST of two nullable instants: absent only when both are, at least each present one, and one of the two |
| Records.GreatestLaws | internal/repos/watermarks_repo.go:67 | GREATEST is commutative, associative and idempotent |
| Records.AcceptsNeverRegresses | internal/repos/clients_repo.go:108-109 | the newest-wins condition lets a stored timestamp be replaced only by a strictly newer one, never by NULL |
| WatermarksRepo.NormaliseBranchId | internal/repos/watermarks_repo.go:72-78 | the canonical branch of a watermark row is never empty |
| WatermarksRepo.NormaliseBranchIdProperties | internal/repos/watermarks_repo.go:72-78 | "" becomes "ALL", every other id is kept, normalising twice is normalising once |
| WatermarksRepo.Advanced | internal/repos/watermarks_repo.go:63-69 | a zero candidate leaves the table alone; otherwise the key's row holds GREATEST(stored, candidate) and every other row is unchanged |
| WatermarksRepo.AdvancedValue | internal/repos/watermarks_repo.go:63-69 | a missing row or a NULL value takes the candidate; otherwise the row keeps the larger of the two |
| WatermarksRepo.AdvancedMonotone | internal/repos/watermarks_repo.go:51-70 | no watermark ever moves backward or back to NULL |
| WatermarksRepo.AdvancedCommutes | internal/repos/watermarks_repo.go:63-69 | two advances give the same table in either order |
| WatermarksRepo.AdvancedIdempotent | internal/repos/watermarks_repo.go:63-69 | repeating an advance changes nothing |
| WatermarksRepo.GetLastUpdated | internal/repos/watermarks_repo.go:34-49 | one round trip; an error exactly when it fails; otherwise the stored value under the normalised key, none for a missing row or NULL |
| WatermarksRepo.UpsertLastUpdated | internal/repos/watermarks_repo.go:53-70 | a zero candidate sends nothing and succeeds; otherwise one round trip, failing exactly when it is faulty, after which the table is advanced and otherwise unchanged |
| WatermarksRepo.EmptyAndAllShareARow | internal/repos/watermarks_repo.go:72-78 | "" and "ALL" read and advance the same row |
| Upserts.ExecuteDistinct | internal/repos/clients_repo.go:53-109 | a statement whose rows have distinct keys succeeds; each addressed key holds what its row makes of the stored row and every other key keeps its row |
| Upserts.ExecuteRejectsRepeatedNewKey | internal/repos/clients_repo.go:68-69 | two DO UPDATE rows for a key the table lacks make the statement fail |
| Upserts.ExecuteSeesTouched | internal/repos/clients_repo.go:68-69 | a DO UPDATE row whose key the same statement already touched fails the statement |
| Upserts.ExecuteFrame | internal/repos/clients_repo.go:53-109 | keys no row addresses keep their rows, and no row disappears |
| Upserts.ExecuteIgnore | internal/repos/reviews_repo.go:58-66 | DO NOTHING never fails on a repeated key, never alters a stored row and keeps the first of repeated new rows |
| Upserts.Send | internal/repos/clients_repo.go:112-114 | one statement is one round trip; it fails when the round trip is faulty or the statement errs, and a failed statement changes nothing |
| Upserts.SendAllRounds | internal/repos/clients_repo.go:138-144 | a run of statements stops at its first failure, used one round trip per statement sent, and passed only if none of them was faulty |
| Upserts.IgnoreRun | internal/repos/reviews_repo.go:31-74 | a run of DO NOTHING statements fails only on a faulty round trip, and leaves the table of one statement over every row it got through |
| Upserts.IgnoreBatchPrefix | internal/repos/reviews_repo.go:31-74 | whatever the outcome, the table is that of one DO NOTHING statement over a prefix of the batch |
| Upserts.FlushSize | internal/repos/clients_repo.go:121-142 | the loop flushes as soon as batchSize rows are pending, so a batchSize below 1 means one row per statement |
| Upserts.FlushLoopChunks | internal/repos/clients_repo.go:121-144 | the flush loop sends exactly the statements the batch cut into FlushSize(batchSize) rows gives: every row once, in input order, the remainder last |
| Upserts.FlushLoopEmpty | internal/repos/clients_repo.go:24-26 | an empty batch sends nothing and changes nothing |
| Upserts.SendAllClean | internal/repos/clients_repo.go:121-144 | with no faulty round trip and distinct keys, the statements together do what one statement over all rows does |
| Upserts.BatchSizeIrrelevant | internal/repos/clients_repo.go:23 | a clean batch ends in the same table whatever batch size cuts it |
| Upserts.ExecuteReapply | internal/repos/clients_repo.go:108-109 | re-applying a newest-wins batch whose rows all carry a timestamp changes nothing |
| Upserts.OverwriteReapply | internal/repos/ph_products_repo.go:18-42 | re-applying an overwrite batch with distinct keys leaves every row's business columns as the first application left them |
| ClientsRepo.Flush | internal/repos/clients_repo.go:49-119 | nothing pending sends nothing; otherwise one statement over the pending rows, with Send's outcome |
| ClientsRepo.UpsertBatch | internal/repos/clients_repo.go:23-145 | an empty batch is a no-op; otherwise the table, the round trips and the error are those of the statements the flush loop cuts, stopping at the first failure |
| ClientsRepo.ClientsStatement | internal/repos/clients_repo.go:53-109 | with distinct ids: a new id is inserted stamped now; a stored client is replaced exactly when its updated_at_phorest is NULL or the incoming one is strictly newer, keeping its created_at; other rows are untouched |
| ClientsRepo.ClientsRepeatedNewId | internal/repos/clients_repo.go:68-69 | two rows of one statement with the same new client_id fail the statement |
| ClientsRepo.ClientsReapply | internal/repos/clients_repo.go:108-109 | re-applying a batch of distinct, timestamped clients changes nothing |
| ClientsRepo.ClientsBatchSizeIrrelevant | internal/repos/clients_repo.go:121-144 | with no failed round trip the table a batch of distinct clients ends in does not depend on batchSize |
| Chunks.ChunksOf | internal/repos/reviews_repo.go:30-36 | the chunks cut at start = 0, n, 2n, ...: each non-empty and at most n long, all full but the last, and together the input in order |
| Chunks.ChunkCount | internal/repos/reviews_repo.go:30-34 | the loop never sends more statements than there are rows |
| ReviewsRepo.UpsertMany | internal/repos/reviews_repo.go:22-50 | an empty input sends nothing; otherwise the 500-row chunks go out in order, one statement each, and the first failing one ends the call with its error, the earlier ones staying written |
| ReviewsRepo.ReviewsStatement | internal/repos/reviews_repo.go:37-40 | a DO NOTHING statement on review_id never fails, never alters a stored review and stores the first row carrying each new id |
| ReviewsRepo.UpsertManyOutcome | internal/repos/reviews_repo.go:22-50 | the call fails only on a lost round trip, passes exactly when none of its round trips is lost, and then leaves the table of one statement over all the rows |
| ReviewsRepo.UpsertManyKeepsStored | internal/repos/reviews_repo.go:30-46 | whatever the outcome, the chunks written before a failure stay written, no stored review changes, and every stored id was stored before or given |
| ReviewsRepo.ChunksFailOnFault | internal/repos/reviews_repo.go:42-44 | a failed run of chunks failed on its last round trip, which was lost |
| ReviewsRepo.UpsertManyStoresAll | internal/repos/reviews_repo.go:22-50 | with none of its round trips lost the call passes and every given id is stored |
| ReviewsRepo.CountExistingByIDs | internal/repos/reviews_repo.go:63-76 | an empty id list answers 0 without a query; otherwise one query, an error exactly when it is lost, else the number of stored reviews of the branch whose id is listed |
| ReviewsRepo.ExistingIdsBounds | internal/repos/reviews_repo.go:63-76 | the count never exceeds the ids asked about, and equals it when they are distinct and all stored under the branch |
| ReviewsRepo.ExistingIdsOtherBranch | internal/repos/reviews_repo.go:71 | reviews stored under another branch are not counted |
| ReviewsRepo.MaxReviewDate | internal/repos/reviews_repo.go:53-61 | one query; an error exactly when it is lost; otherwise the latest stored review_date of the branch as YYYY-MM-DD text, none when it has no dated review |
| ReviewsRepo.DateTextNone | internal/repos/reviews_repo.go:57 | the answer is NULL exactly when no stored review of the branch has a date |
| TransactionsRepo.Flush | internal/repos/transactions_repo.go:39-69 | nothing pending sends nothing; otherwise one statement over the pending headers, with its outcome |
| TransactionsRepo.UpsertBatch | internal/repos/transactions_repo.go:22-87 | an empty batch is a no-op; otherwise the headers go out a statement each time batchSize are pending and one for the remainder, the first failing statement ending the call |
| TransactionsRepo.TransactionsStatement | internal/repos/transactions_repo.go:43-58 | with distinct ids: a new header is inserted stamped now; a stored one is rewritten exactly when its updated_at_phorest is NULL or the incoming one is strictly newer, keeping created_at; other rows are untouched |
| TransactionsRepo.TransactionsRepeatedNewId | internal/repos/transactions_repo.go:46 | two headers of one statement with the same new transaction_id fail the statement |
| TransactionsRepo.TransactionsReapply | internal/repos/transactions_repo.go:57-58 | re-applying a batch of distinct, timestamped headers changes nothing |
| TransactionsRepo.TransactionsBatchSizeIrrelevant | internal/repos/transactions_repo.go:71-86 | with no lost round trip the table a batch of distinct headers ends in does not depend on batchSize |
| ItemsRepo.Flush | internal/repos/transaction_items_repo.go:81-194 | nothing pending sends nothing; otherwise one statement over the pending lines, with its outcome |
| ItemsRepo.UpsertBatch | internal/repos/transaction_items_repo.go:22-253 | an empty batch is a no-op; otherwise the lines go out a statement each time batchSize are pending and one for the remainder, the first failing statement ending the call |
| ItemsRepo.ItemsStatement | internal/repos/transaction_items_repo.go:85-183 | with distinct ids: a new line is inserted stamped now; a stored line takes the updated columns exactly when its updated_at_phorest is NULL or the incoming one is strictly newer, keeping every other column; other rows are untouched |
| ItemsRepo.ItemsRepeatedNewId | internal/repos/transaction_items_repo.go:88 | two lines of one statement with the same new transaction_item_id fail the statement |
| ItemsRepo.ItemsReapply | internal/repos/transaction_items_repo.go:182-183 | re-applying a batch of distinct, timestamped lines changes nothing |
| ItemsRepo.ItemsBatchSizeIrrelevant | internal/repos/transaction_items_repo.go:196-252 | with no lost round trip the table a batch of distinct lines ends in does not depend on batchSize |
| StaffRepo.DateOnly | internal/repos/staff_repo.go:53-59 | nil and the zero instant become nil; any other instant becomes the UTC midnight that starts its day |
| StaffRepo.DateOnlySameDate | internal/repos/staff_repo.go:57 | the cut keeps the UTC calendar date and lands on midnight |
| StaffRepo.DateOnlyTwice | internal/repos/staff_repo.go:53-59 | cutting twice is cutting once, except on 0001-01-01, where the first cut gives the zero instant and the second nil |
| StaffRepo.UpsertMany | internal/repos/staff_repo.go:21-51 | an empty batch is a no-op; otherwise the caller's rows get their birth and start dates cut to the day, then one statement writes them all |
| StaffRepo.NormaliseAll | internal/repos/staff_repo.go:27-30 | the in-place loop leaves every row with both dates cut and nothing else changed |
| StaffRepo.StaffStatement | internal/repos/staff_repo.go:32-44 | with distinct (staff_id, branch_id) pairs: a new pair is inserted stamped now; a stored pair takes every listed column with no timestamp comparison, keeping created_at; other rows are untouched |
| StaffRepo.StaffRepeatedKey | internal/repos/staff_repo.go:33-36 | two rows of one statement with the same new (staff_id, branch_id) fail the statement |
| StaffRepo.StaffReapply | internal/repos/staff_repo.go:37-43 | writing the same distinct rows again changes no stored staff field and no created_at |
| StaffRepo.NormaliseTwice | internal/repos/staff_repo.go:27-30 | a normalised row normalises to itself, except for dates on 0001-01-01 |
| BranchRepo.UpsertMany | internal/repos/branch_repo.go:20-39 | an empty batch is a no-op; otherwise one statement writes all rows |
| BranchRepo.BranchStatement | internal/repos/branch_repo.go:25-32 | with distinct branch ids: a new branch is inserted stamped now; a stored one takes every listed column whatever it holds, keeping created_at; other rows are untouched |
| BranchRepo.BranchRepeatedId | internal/repos/branch_repo.go:26 | two rows of one statement with the same new branch_id fail the statement |
| BranchRepo.BranchReapply | internal/repos/branch_repo.go:27-31 | writing the same distinct rows again changes no stored branch field and no created_at |
| ProductsRepo.Upsert | internal/repos/ph_products_repo.go:20-42 | one statement for one product, failing exactly when its round trip is lost |
| ProductsRepo.ProductsStatement | internal/repos/ph_products_repo.go:22-40 | the statement cannot fail; the product's id then holds the product stamped now, overwritten even when the stored updated_at_ph is later; every other product is untouched |
| ProductsRepo.ProductsTwice | internal/repos/ph_products_repo.go:22-40 | upserting the same product twice, at any two instants, leaves the business fields of upserting it once |
| StockRepo.GetByProductAndBranch | internal/repos/ph_product_stock_repo.go:22-34 | one query; a lost round trip is an error, no row is (nil, nil), otherwise the stored row of (product_id, branch_id) |
| StockRepo.Upsert | internal/repos/ph_product_stock_repo.go:36-57 | the caller's record is stamped with last_synced_at = now, then one statement writes it |
| StockRepo.StockStatement | internal/repos/ph_product_stock_repo.go:40-56 | the statement cannot fail; the row's (product_id, branch_id) then holds the record whatever was stored; every other row is untouched |
| StockRepo.InsertHistory | internal/repos/ph_product_stock_repo.go:59-64 | a zero snapshot time becomes now on the caller's record; one INSERT appends the row and overwrites nothing |
| BootstrapWatermarks.GroupMaxIsGroupMax | internal/phorest/bootstrap_watermarks.go:30-41 | the grouped query's answer maps exactly the branches having a timestamped item to the latest updated_at_phorest among them, which one of those items carries |
| BootstrapWatermarks.GroupMaxUnique | internal/phorest/bootstrap_watermarks.go:32-39 | the grouped maxima depend only on the stored items, not on the order the server scans them |
| BootstrapWatermarks.OverallMaxIsOverallMax | internal/phorest/bootstrap_watermarks.go:59-66 | the clients query answers NULL exactly when no client has a timestamp, and otherwise the latest one, which some client carries |
| BootstrapWatermarks.OverallMaxUnique | internal/phorest/bootstrap_watermarks.go:60-64 | the clients maximum depends only on the stored clients |
| BootstrapWatermarks.QueryItemMaxima | internal/phorest/bootstrap_watermarks.go:30-41 | one round trip, an error exactly when it is lost, otherwise the grouped maxima of the stored items |
| BootstrapWatermarks.QueryClientsMax | internal/phorest/bootstrap_watermarks.go:59-66 | one round trip, an error exactly when it is lost, otherwise the maximum over the stored clients |
| BootstrapWatermarks.KeyInverse | internal/phorest/bootstrap_watermarks.go:93-97 | the branches written to a row are the row's own branch and, for "ALL", also "" |
| BootstrapWatermarks.SeedKeysExact | internal/phorest/bootstrap_watermarks.go:43-56 | a row is written by the loop exactly when some seed is aimed at it |
| BootstrapWatermarks.SeededMeaning | internal/phorest/bootstrap_watermarks.go:43-106 | rows no seed addresses are untouched; a seeded row is at least its old value and every seed aimed at it, and equals one of them |
| BootstrapWatermarks.SeededFromNothing | internal/phorest/bootstrap_watermarks.go:43 | an empty set of seeds writes nothing |
| BootstrapWatermarks.SeedForStep | internal/phorest/bootstrap_watermarks.go:43-56 | seeding one more branch adds its seed to its own row only |
| BootstrapWatermarks.SeededStep | internal/phorest/bootstrap_watermarks.go:43-56 | one more seed write is one more GREATEST advance of that row, in whatever order the branches come |
| BootstrapWatermarks.SeededIdempotent | internal/phorest/bootstrap_watermarks.go:99-106 | seeding again with the same seeds changes nothing |
| BootstrapWatermarks.SeededKeeps | internal/phorest/bootstrap_watermarks.go:43-81 | however many seeds were written, no row moved backwards or back to NULL and no other entity's row changed |
| BootstrapWatermarks.SeededOtherStream | internal/phorest/bootstrap_watermarks.go:47-72 | seeding one entity leaves every row of every other entity as it was |
| BootstrapWatermarks.UpsertWatermark | internal/phorest/bootstrap_watermarks.go:88-107 | a zero time writes nothing and succeeds; otherwise one round trip, failing exactly when lost, and on success a GREATEST advance of the row, nil or "" branch meaning "ALL" |
| BootstrapWatermarks.SeedBranches | internal/phorest/bootstrap_watermarks.go:43-56 | passes exactly when none of its round trips is lost, a failure being the last one; on success every branch's row is seeded with its maximum, on failure the seeds of the branches written before it |
| BootstrapWatermarks.SeedClients | internal/phorest/bootstrap_watermarks.go:68-81 | no maximum means no write; otherwise the clients_csv/ALL row is advanced to it, failing exactly when the round trip is lost, and then writing nothing |
| BootstrapWatermarks.Bootstrap | internal/phorest/bootstrap_watermarks.go:23-85 | the two queries and the seed writes in order; the first lost round trip ends the call with its error, leaving the seeds of the branches written before it and no clients seed; on success the transactions_csv rows hold the items' grouped maxima and clients_csv/ALL the clients' maximum |
| BootstrapWatermarks.BootstrapTwice | internal/phorest/bootstrap_watermarks.go:23-85 | running the bootstrap again with the same maxima leaves the watermarks as they are |
| SyncRunner.TxImport | internal/phorest/sync_runner.go:80-107 | BEGIN, the headers, the items, COMMIT: any failure leaves both tables as they were, success means none of the import's round trips failed, and no watermark is written |
| SyncRunner.ImportedHeadersStored | internal/phorest/sync_runner.go:94-105 | a committed import stores a header under every transaction id of the file and leaves every header the file does not mention as it was |
| SyncRunner.ImportSingleTransactionsCsv | internal/phorest/sync_runner.go:71-108 | a parse error is the call's error and touches nothing; otherwise the import is TxImport's |
| SyncRunner.ImportTransactionsBatch | internal/phorest/sync_runner.go:80-107 | the transactional part of the import: its tables, round trips and error are TxImport's |
| SyncRunner.TxImportAllSkipsFailures | internal/phorest/sync_runner.go:55-65 | a directory import always reports success, and a file that failed leaves the tables as they were before it |
| SyncRunner.ImportAllTransactionsCsvs | internal/phorest/sync_runner.go:41-69 | every file in order, each one's failure logged and skipped; the call answers nil |
| SyncRunner.MaxStampIsLatest | internal/phorest/sync_runner.go:139-146 | maxTS is nil exactly when no client has a timestamp; otherwise it bounds every timestamp and one client carries it |
| SyncRunner.MaxUpdatedAt | internal/phorest/sync_runner.go:139-146 | the scan loop computes that maxTS |
| SyncRunner.ClientsImport | internal/phorest/sync_runner.go:151-181 | BEGIN, the clients, the clients_csv/ALL advance when maxTS is set, COMMIT: upsert and advance commit together, and a failure anywhere leaves both tables as they were |
| SyncRunner.ClientsCommit | internal/phorest/sync_runner.go:168-181 | after the upsert: the advance when maxTS is set, then COMMIT, ROLLBACK restoring both tables on a failure |
| SyncRunner.ClientsImportAdvances | internal/phorest/sync_runner.go:168-175 | a committed clients file never moves a watermark backwards, moves no row but clients_csv/ALL, and leaves that row at least at every timestamp of the file |
| SyncRunner.ImportSingleClientsCsv | internal/phorest/sync_runner.go:131-182 | a parse error is the call's error and touches nothing; otherwise the import is ClientsImport's |
| SyncRunner.ImportClientsBatch | internal/phorest/sync_runner.go:151-181 | the transactional part of the clients import: its tables, round trips and error are ClientsImport's |
| SyncRunner.CommitClients | internal/phorest/sync_runner.go:168-181 | the advance and COMMIT as ClientsCommit says, ROLLBACK restoring the snapshot |
| SyncRunner.ClientsImportAllMonotone | internal/phorest/sync_runner.go:121-126 | importing a directory of clients files never moves a watermark backwards, and moves no row but clients_csv/ALL |
| SyncRunner.ImportAllClientCsvs | internal/phorest/sync_runner.go:111-129 | every file in order, each one's failure logged and skipped; the call answers nil |
| SyncRunner.CountCsvWatermarks | internal/phorest/sync_runner.go:231-236 | one round trip; an error exactly when it is lost, otherwise a count that is positive exactly when a clients_csv or transactions_csv watermark row exists |
| SyncRunner.BootstrapFromCsvsIfNeeded | internal/phorest/sync_runner.go:228-259 | a failed count or any CSV watermark writes nothing; otherwise the transactions files, then the clients files, then the watermark bootstrap, whose error is the call's and leaves the item seeds of some branches after the imports' watermarks; whatever happens no watermark moves backwards and only the transactions_csv and clients_csv rows move |
| Text.TrimSpaceShape | internal/phorest/transaction_csv_reader.go:41 | strings.TrimSpace keeps a slice of its input with only spaces around it, which is empty or neither starts nor ends with a space |
| Text.TrimSpaceOfTrimmed | internal/phorest/transaction_csv_reader.go:41 | a string with no space at either end is its own trim |
| Text.ToLower | internal/phorest/transaction_csv_reader.go:41 | strings.ToLower restricted to ASCII: each 'A'..'Z' becomes its lower-case letter, every other character is kept, and the length is kept |
| Text.ToLowerOfLower | internal/phorest/transaction_csv_reader.go:41 | a string with no upper-case letter is its own lower-case form |
| Text.FormatBool | internal/phorest/reviews_csv_writer.go:65-66 | what %t writes, the readers' parseBool reads back as the same boolean |
| Text.NatToDigits | internal/phorest/reviews_csv_writer.go:64 | the decimal form of a natural number is a non-empty digit string whose value is that number |
| Text.DigitsValueOfNatToDigits | internal/phorest/reviews_csv_writer.go:64 | reading the decimal form back gives the number |
| Text.PadDigits | internal/phorest/reviews_csv_writer.go:48 | a zero-padded field is a digit string of at least its width whose value is the number |
| Text.Itoa | internal/phorest/reviews_csv_writer.go:64 | %d of an integer is never empty |
| Text.Atoi | internal/phorest/reviews_csv.go:70 | strconv.Atoi accepts exactly a sign and digits denoting an int64, and then answers that number; a rejection answers 0 or the int64 bound on the side of the sign |
| Text.ParseUint | internal/phorest/transaction_csv_reader.go:73 | the unsigned scan under Atoi succeeds exactly on digits worth at most 2^64 - 1, and fails as out of range exactly when its leading digits exceed that |
| Text.NumeralOfItoa | internal/phorest/reviews_csv.go:70 | a %d rendering is a sign and digits denoting the number rendered |
| Text.AtoiSyntaxFirst | internal/phorest/reviews_csv.go:70 | a non-digit reached while the digits before it are within 2^64 - 1 is a syntax error answering 0, whatever follows |
| Text.AtoiOverflowFirst | internal/phorest/reviews_csv.go:70 | digits worth more than 2^64 - 1 are a range error answering the bound of the sign, whatever follows them |
| Text.AtoiHugePrefix | internal/phorest/transaction_csv_reader.go:73 | a written-out number above 2^64 - 1 followed by anything, such as "99999999999999999999x", reads as MaxInt64, or MinInt64 after a minus |
| Text.AtoiItoa | internal/phorest/reviews_csv.go:70 | %d and strconv.Atoi are inverse on every int64 |
| Text.ItoaTrimmed | internal/phorest/reviews_csv.go:66 | a %d rendering is unchanged by TrimSpace |
| CsvTable.ColumnNames | internal/phorest/transaction_csv_reader.go:40-41 | each header cell's name is its trimmed, lower-cased text, position by position |
| CsvTable.HeaderIndex | internal/phorest/transaction_csv_reader.go:39-42 | every named column maps to the last position whose cell names it, and nothing else is indexed |
| CsvTable.IndexPositions | internal/phorest/transaction_csv_reader.go:40-42 | the header loop writes each position under its name in order |
| CsvTable.BuildIndex | internal/phorest/transaction_csv_reader.go:39-42 | the loop builds exactly HeaderIndex |
| CsvTable.GetNamed | internal/phorest/transaction_csv_reader.go:45-51 | a named column within the record reads as the field under its last naming cell |
| CsvTable.GetMissing | internal/phorest/transaction_csv_reader.go:45-51 | a column no cell names, or one past the end of a short record, reads as "" |
| CsvTable.IndexOfPlainHeader | internal/phorest/transaction_csv_reader.go:39-42 | in a header of distinct normalised names each is found at its own position |
| CsvTable.FirstBroken | internal/phorest/transaction_csv_reader.go:132-139 | the line encoding/csv fails on first, if any, is broken and before the given bound |
| CsvTable.FirstBrokenAt | internal/phorest/transaction_csv_reader.go:137-139 | once a broken line is the first, it stays the first however many lines follow |
| CsvTable.FirstBrokenIsFirst | internal/phorest/transaction_csv_reader.go:132-139 | no broken line exactly when every line is a record, and every line before the first broken one is a record |
| CsvTable.KeptRecordsStep | internal/phorest/transaction_csv_reader.go:140-146 | reading one more record keeps it exactly when it has its key columns |
| CsvTable.KeptRecordsKeyed | internal/phorest/transaction_csv_reader.go:142-146 | every kept record has its keys, and there are no more of them than lines read |
| CsvTable.KeptRecordsAll | internal/phorest/transaction_csv_reader.go:140-146 | when every line is a keyed record each one is kept, in file order |
| CsvTable.KeptRecordsSkip | internal/phorest/transaction_csv_reader.go:143-146 | a record without its key is skipped |
| CsvTable.ParseIntLoose | internal/phorest/transaction_csv_reader.go:68-75 | a blank cell reads as 0; any other cell as the value Atoi hands back, error or not, which is always an int64 |
| CsvTable.LooseDiffersOnRange | internal/phorest/transaction_csv_reader.go:68-75 | this parser and the reviews reader's differ only on a cell Atoi rejects as out of range, kept here as the int64 bound and read there as 0 |
| CsvTable.ParseIntOrZero | internal/phorest/reviews_csv.go:65-76 | a blank cell or one Atoi rejects reads as 0; otherwise Atoi's value |
| CsvTable.ParseIntPtr | internal/phorest/clients_csv_reader.go:67-77 | nil exactly for a blank cell or one Atoi rejects; otherwise Atoi's value |
| CsvTable.ParseFloatLoose | internal/phorest/transaction_csv_reader.go:52-59 | a blank cell reads as 0 |
| CsvTable.ParseFloatPtr | internal/phorest/clients_csv_reader.go:56-66 | a blank cell reads as nil |
| CsvTable.ParseDay | internal/phorest/transaction_csv_reader.go:81-94 | a blank cell reads as nil, and a parsed date is a UTC midnight |
| CsvTable.ParseClock | internal/phorest/transaction_csv_reader.go:95-106 | a blank cell reads as nil |
| CsvTable.ParseStamp | internal/phorest/transaction_csv_reader.go:107-125 | a blank cell reads as nil |
| CsvTable.CellOfEmpty | internal/phorest/transaction_csv_reader.go:45-125 | an empty cell reads as its kind's empty value |
| CsvTable.PayloadOfNamed | internal/phorest/transaction_csv_reader.go:149-286 | a mapped column the header names reads, through its parser, as the field under its last naming cell |
| CsvTable.PayloadOfMissing | internal/phorest/transaction_csv_reader.go:149-286 | a mapped column the header does not name reads as its kind's empty value |
| CsvTable.ParseIntOfItoa | internal/phorest/clients_csv_reader.go:48-77 | a %d rendering reads back as the same int64 through every integer parser |
| CsvTable.ParseDayOfFormat | internal/phorest/reviews_csv_writer.go:44-49 | a date written as YYYY-MM-DD reads back as its midnight |
| Dedup.KeptUpToKeys | internal/phorest/transaction_csv_reader.go:304-317 | after n rows the map holds one entry for each id seen |
| Dedup.KeptUpToChosen | internal/phorest/transaction_csv_reader.go:304-317 | the entry kept for an id is its chosen row: none of the id's rows is newer, and it is the first of the newest |
| Dedup.SupersedesChosen | internal/phorest/transaction_csv_reader.go:306-311 | a row that supersedes the chosen row supersedes every earlier row of its id |
| Dedup.ChosenUnique | internal/phorest/transaction_csv_reader.go:304-317 | at most one row is chosen per id |
| Dedup.KeptIsChosen | internal/phorest/transaction_csv_reader.go:304-317 | every id of the rows is kept, and the row kept under it is the one chosen row |
| Dedup.KeptKeys | internal/phorest/transaction_csv_reader.go:304-317 | the kept ids are exactly the ids of the rows |
| Dedup.ChosenIsNewest | internal/phorest/transaction_csv_reader.go:306-311 | the kept timestamp is the newest of its id's timestamps, and nil only when all of them are |
| Dedup.TieKeepsFirst | internal/phorest/transaction_csv_reader.go:309-313 | of two rows with one id and one timestamp the later is never kept |
| Dedup.KeptUpToAppend | internal/phorest/transaction_csv_reader.go:304-317 | a row appended later does not change what the earlier rows kept |
| Dedup.Offer | internal/phorest/transaction_csv_reader.go:304-317 | a new id is stored; a known id is replaced exactly when the new row supersedes it; other ids are untouched |
| Dedup.KeptSnoc | internal/phorest/transaction_csv_reader.go:304-317 | one more row is one more Offer |
| Dedup.Values | internal/phorest/transaction_csv_reader.go:320-323 | the read-out lists every kept record exactly once, in some order |
| TransactionCsv.HeadersOf | internal/phorest/transaction_csv_reader.go:290-303 | each line yields the header copied from its item |
| TransactionCsv.TxKeysOf | internal/phorest/transaction_csv_reader.go:142-146 | a line is kept exactly when its transaction_id is non-empty |
| TransactionCsv.ItemsOfSnoc | internal/phorest/transaction_csv_reader.go:149-288 | one more kept line appends one item |
| TransactionCsv.KeptHeadersSnoc | internal/phorest/transaction_csv_reader.go:304-317 | one more line offers its header to the map |
| TransactionCsv.KeptHeadersKeyed | internal/phorest/transaction_csv_reader.go:304-317 | every kept header sits under its own transaction id |
| TransactionCsv.OfferHeader | internal/phorest/transaction_csv_reader.go:304-317 | the switch computes Offer: newest header per id, the first on a tie |
| TransactionCsv.ListHeaders | internal/phorest/transaction_csv_reader.go:320-323 | the transactions slice lists the kept headers, each once |
| TransactionCsv.ReadRows | internal/phorest/transaction_csv_reader.go:131-323 | a broken line ends the read with "read row n" and that error; otherwise the items of the kept lines in file order and the deduplicated headers |
| TransactionCsv.ParseTransactionsCSV | internal/phorest/transaction_csv_reader.go:24-327 | an unreadable header is an error; otherwise the header index and then ReadRows |
| TransactionCsv.HeadersCoverItems | internal/phorest/transaction_csv_reader.go:290-323 | every item's transaction has exactly one header |
| TransactionCsv.HeadersFromItems | internal/phorest/transaction_csv_reader.go:290-323 | every header belongs to some item |
| TransactionCsv.HeaderIsNewestLine | internal/phorest/transaction_csv_reader.go:290-317 | each header is copied from the first of its transaction's newest lines, and is nil-stamped only when all of them are |
| TransactionCsv.ItemsHaveIds | internal/phorest/transaction_csv_reader.go:142-151 | every item carries its line's non-empty transaction_id |
| ClientCsv.ClientKeysOf | internal/phorest/clients_csv_reader.go:128-131 | a line is kept exactly when its client_id is non-empty |
| ClientCsv.OffersOfSnoc | internal/phorest/clients_csv_reader.go:133-193 | one more kept line offers one more client to byID |
| ClientCsv.KeptClientsKeyed | internal/phorest/clients_csv_reader.go:182-194 | every kept client sits under its own client id |
| ClientCsv.OfferClient | internal/phorest/clients_csv_reader.go:182-194 | the switch computes Offer: newest client per id by updated_at, the first on a tie |
| ClientCsv.ListClients | internal/phorest/clients_csv_reader.go:197-200 | the output lists every kept client once, under its own id |
| ClientCsv.ReadRows | internal/phorest/clients_csv_reader.go:115-203 | a broken line ends the read with "read row n" and that error; otherwise the deduplicated clients of the kept lines |
| ClientCsv.ParseClientsCSV | internal/phorest/clients_csv_reader.go:22-204 | an unreadable header is an error; otherwise the header index and then ReadRows |
| ClientCsv.OneClientPerId | internal/phorest/clients_csv_reader.go:182-200 | one client per distinct client_id of the kept lines: none missing, none invented |
| ClientCsv.ClientIsNewestRow | internal/phorest/clients_csv_reader.go:182-194 | each client is copied from the first of its id's newest lines, and is nil-stamped only when all of them are |
| ReviewCsv.ReviewKeysOf | internal/phorest/reviews_csv.go:100-109 | a line is kept exactly when both review_id and branch_id are non-empty |
| ReviewCsv.ParseReviewDate | internal/phorest/reviews_csv.go:52-63 | a blank cell reads as nil |
| ReviewCsv.ReviewsOfSnoc | internal/phorest/reviews_csv.go:111-128 | one more kept line appends one review |
| ReviewCsv.ParseReviewsCSV | internal/phorest/reviews_csv.go:23-133 | the reader loop computes ReadReviews: the header index, then the reviews of the kept lines in file order, or the first reader error |
| ReviewCsv.ReviewsHaveIds | internal/phorest/reviews_csv.go:100-109 | every review read carries a review_id and a branch_id |
| ReviewCsv.ReadReviewsError | internal/phorest/reviews_csv.go:90-97 | a reader error comes from a broken line, and every line before it was a record |
| ReviewCsvWriter.ReviewRecord | internal/phorest/reviews_csv_writer.go:52-67 | one record per review, with as many fields as the header |
| ReviewCsvWriter.WriteReviewsCSV | internal/phorest/reviews_csv_writer.go:12-75 | the file written is the header line followed by one line per review, in order |
| ReviewCsvWriter.HeaderPlain | internal/phorest/reviews_csv_writer.go:22-38 | every header name is already lower-case and trimmed, as the reader normalises it |
| ReviewCsvWriter.HeaderDistinct | internal/phorest/reviews_csv_writer.go:23-38 | no two header names coincide |
| ReviewCsvWriter.WrittenHeaderFindsColumns | internal/phorest/reviews_csv_writer.go:22-42 | reading the written header finds each column at its own position |
| ReviewCsvWriter.ColumnAt | internal/phorest/reviews_csv_writer.go:52-67 | a column of a written record reads back as the field at its position |
| ReviewCsvWriter.DateCellRoundTrip | internal/phorest/reviews_csv_writer.go:44-49 | a written date reads back as its UTC midnight, nil as nil |
| ReviewCsvWriter.RecordRoundTrip | internal/phorest/reviews_csv_writer.go:51-67 | a written record reads back as its review with dates cut to the day, and is kept exactly when both ids are non-empty |
| ReviewCsvWriter.KeptWritten | internal/phorest/reviews_csv_writer.go:51-72 | the first n written lines read back as the keyed reviews among the first n rows |
| ReviewCsvWriter.StoredOfSnoc | internal/phorest/reviews_csv_writer.go:51-72 | one more row adds its read-back form exactly when it is keyed |
| ReviewCsvWriter.ReadWritten | internal/phorest/reviews_csv_writer.go:12-75 | reading a written file gives back the keyed reviews in order, dates cut to the day |
| ReviewCsvWriter.ReadWrittenExact | internal/phorest/reviews_csv_writer.go:12-75 | reviews with both ids and whole-day dates read back exactly |
| ReviewCsvWriter.StoredOfExact | internal/phorest/reviews_csv_writer.go:51-72 | keyed reviews with whole-day dates are their own read-back form |
| Clock.DaysInMonth | internal/repos/staff_repo.go:57 | a month of the Gregorian calendar has 28 to 31 days, as the month table says |
| Clock.DaysBeforeYearGrows | internal/repos/staff_repo.go:57 | later years start at least a whole year later |
| Clock.CivilDate | internal/repos/staff_repo.go:57 | t.UTC()'s calendar date is a valid date whose day number is t's whole days since 0001-01-01 |
| Clock.YearUnique | internal/repos/staff_repo.go:57 | a day number has one year and one day-of-year |
| Clock.MonthUnique | internal/repos/staff_repo.go:57 | a day-of-year falls in one month only |
| Clock.CivilDateOfDate | internal/repos/staff_repo.go:57 | the calendar date of time.Date(y, m, d, 0, 0, 0, 0, UTC) is (y, m, d) |
| Clock.TruncateToDay | internal/repos/staff_repo.go:57 | a day's midnight is the one whole-day instant at or before t and less than a day before it |
| Clock.TruncateToDayProperties | internal/repos/staff_repo.go:57 | cutting to the day is idempotent and monotone |
| Clock.TruncateToDayUnique | internal/repos/staff_repo.go:57 | the whole-day instant with t in its day is t's midnight |
| Clock.SameCivilDate | internal/repos/staff_repo.go:57 | two instants of one UTC day have one calendar date |
| Clock.ParseDate | internal/phorest/reviews_csv.go:57 | a parsed "2006-01-02" text is a valid date of years 0 to 9999 |
| Clock.ParseFormatDate | internal/phorest/reviews_csv_writer.go:48 | formatting a date of years 0 to 9999 as "2006-01-02" and parsing it back gives the date |
| Clock.ClockOf | internal/phorest/clients_incremental.go:31 | t.UTC()'s clock reading is in range and with its midnight gives back t |
| Clock.ClockOfDayEnds | internal/phorest/transactions_incremental.go:46-51 | midnight reads 00:00:00.000 and a day's last millisecond 23:59:59.999 |
| ExportClient.CreateCSVExport | internal/phorest/export_client.go:59-108 | the request carries the given job type and filters; the result is the decoded job exactly when the reply came, was 2xx and decoded, and an error otherwise |
| ExportClient.SettledMeaning | internal/phorest/export_client.go:135-163 | a job comes back exactly when the poll exchange succeeded; only DONE comes back without an error; a FAILED job's error ends with its non-empty reason |
| ExportClient.Backoff | internal/phorest/export_client.go:124-169 | every sleep lasts 2 to 10 seconds |
| ExportClient.BackoffStep | internal/phorest/export_client.go:124-169 | the first sleep is 2 seconds and each later one adds 2 seconds while under 10 |
| ExportClient.CheckTimeGrows | internal/phorest/export_client.go:126-170 | every deadline check comes at least two seconds after the one before |
| ExportClient.WaitFromSettles | internal/phorest/export_client.go:126-171 | the wait answers without an error only after a poll saw DONE, and answers a job with an error only after one saw FAILED |
| ExportClient.WaitForCSVJob | internal/phorest/export_client.go:111-172 | the loop answers WaitFrom's result; it slept the backoff schedule after pending polls only, every poll came before the deadline, and it stops either timed out or on the first settling poll |
| ExportClient.WaitFromPending | internal/phorest/export_client.go:165-170 | a pending poll before the deadline passes the wait on to the next check |
| ExportClient.PendingStep | internal/phorest/export_client.go:165-170 | one more pending poll before the deadline extends the loop state by its sleep |
| ExportClient.TryDownload | internal/phorest/export_client.go:186-216 | a download succeeds exactly when the reply came, was 2xx and was saved, and then yields the saved file |
| ExportClient.Downloaded | internal/phorest/export_client.go:175-184 | the download succeeds exactly when the unsigned or the authenticated attempt does |
| ExportClient.DownloadCSV | internal/phorest/export_client.go:175-184 | the authenticated attempt is made only after the unsigned one failed; the result is the last attempt's, and an error means both failed |
| TransactionsIncremental.MidnightFormat | internal/phorest/transactions_incremental.go:55 | a midnight in the millisecond layout is its date followed by T00:00:00.000Z |
| TransactionsIncremental.EndOfDayFormat | internal/phorest/transactions_incremental.go:56 | the last millisecond of now's day in the millisecond layout is now's date followed by T23:59:59.999Z |
| TransactionsIncremental.LastMilliText | internal/phorest/transactions_incremental.go:56 | the clock 23:59:59.999 prints as T23:59:59.999Z |
| TransactionsIncremental.SameDay | internal/phorest/transactions_incremental.go:50-51 | the last millisecond of now's day has now's date |
| TransactionsIncremental.FilterWindow | internal/phorest/transactions_incremental.go:44-57 | with a watermark the filter runs from midnight of the watermark's UTC day to the last millisecond of today, a window holding both the watermark and now |
| TransactionsIncremental.FilterFromHistoryStart | internal/phorest/transactions_incremental.go:40-57 | without a watermark the window opens at 2000-01-01T00:00:00.000Z and still closes at the end of today |
| TransactionsIncremental.ExportBranch | internal/phorest/transactions_incremental.go:62-106 | create, wait at most five minutes, download: the loop body computes the branch step |
| TransactionsIncremental.BranchStepMeaning | internal/phorest/transactions_incremental.go:62-106 | a failed create stops the sync; a branch is skipped exactly when its job ended FAILED with "No records found" or DONE without a URL; a CSV is imported only from a DONE job with a URL, and is the downloaded file |
| TransactionsIncremental.StepRun | internal/phorest/transactions_incremental.go:84-111 | a stop fails and a skip passes, both leaving the tables alone; an import is the transactions CSV import, whose failure leaves the tables as they were |
| TransactionsIncremental.BranchRun | internal/phorest/transactions_incremental.go:24-111 | the watermark read costs one round trip and a lost one fails the branch with the tables untouched; a branch that passed had its read answered |
| TransactionsIncremental.SyncStepsStops | internal/phorest/transactions_incremental.go:21-117 | a passing run passed every earlier branch, and a run that failed at its last branch holds the tables the branches before it left |
| TransactionsIncremental.SyncStepsSnoc | internal/phorest/transactions_incremental.go:21-117 | after a passing prefix the next branch runs from its tables |
| TransactionsIncremental.Plan | internal/phorest/transactions_incremental.go:21-106 | the branch steps the first n branches call for, each for its own watermark and clock reading |
| TransactionsIncremental.SyncBranch | internal/phorest/transactions_incremental.go:22-116 | one loop body: its tables and error are BranchRun's, its step the one its watermark calls for, its parse that of the downloaded CSV |
| TransactionsIncremental.ExportAndImport | internal/phorest/transactions_incremental.go:30-111 | after the watermark read: the branch step, then the import of its CSV |
| TransactionsIncremental.RunStep | internal/phorest/transactions_incremental.go:84-111 | the tables and error after the branch step are StepRun's |
| TransactionsIncremental.BranchRunCases | internal/phorest/transactions_incremental.go:25-28 | a lost watermark read fails the branch with its message; otherwise its step runs |
| TransactionsIncremental.RunIncrementalTransactionsSync | internal/phorest/transactions_incremental.go:12-121 | the tables and error are those of the branches reached; success means every branch took the step its watermark calls for; failure means it stopped at the first failing branch, the ones before having passed; the watermarks are only read |
| ClientsIncremental.ClientsFilter | internal/phorest/clients_incremental.go:26-34 | the filter is empty exactly without a watermark, and otherwise "updated=>" followed by the watermark to the millisecond |
| ClientsIncremental.ExportClients | internal/phorest/clients_incremental.go:43-81 | create, wait at most five minutes, download: the method computes the export exchange |
| ClientsIncremental.ClientsExportMeaning | internal/phorest/clients_incremental.go:43-81 | the exchange yields a CSV exactly when the job was created, ended DONE with a non-empty URL and its download succeeded, and then it is the downloaded file; a FAILED job is an error |
| ClientsIncremental.ClientsFetched | internal/phorest/clients_incremental.go:36-89 | no branches is an error; any failure leaves the clients and watermarks as they were |
| ClientsIncremental.ClientsSync | internal/phorest/clients_incremental.go:12-90 | the watermark read costs one round trip; any failure leaves the clients and watermarks as they were |
| ClientsIncremental.RunIncrementalClientsSync | internal/phorest/clients_incremental.go:12-90 | the tables, round trips and error are ClientsSync's, the CSV parsed as recorded |
| ClientsIncremental.FetchClients | internal/phorest/clients_incremental.go:36-89 | after the watermark read the method computes ClientsFetched, and the downloaded CSV parsed as recorded |
| ClientsIncremental.ClientsSyncPasses | internal/phorest/clients_incremental.go:12-90 | a passing sync read the watermark, used the first branch, downloaded a CSV that parsed, and moved only clients_csv/ALL, to GREATEST(stored, newest client timestamp of the file) |
| ReviewsIncremental.IdsOf | internal/phorest/reviews_incremental.go:76-79 | the ids of a page, position by position |
| ReviewsIncremental.NewestDateIsLargest | internal/phorest/reviews_incremental.go:98-111 | the newest review date is at least every date present, is one of them, and is absent exactly when no row has one |
| ReviewsIncremental.DayOf | internal/phorest/reviews_incremental.go:102-109 | the midnight of an optional instant, absent exactly when the instant is |
| ReviewsIncremental.LatestStep | internal/phorest/reviews_incremental.go:99-110 | comparing a date with the stored midnight, as the loop does, still keeps the day of the newest date seen |
| ReviewsIncremental.SameDayBelow | internal/phorest/reviews_incremental.go:100 | an instant after another's midnight and not after it falls on the same day |
| ReviewsIncremental.NewestDateSnoc | internal/phorest/reviews_incremental.go:98-111 | one more row takes the newer of the newest date so far and its own |
| ReviewsIncremental.AdvanceLatest | internal/phorest/reviews_incremental.go:98-112 | the latestInRun loop over a page leaves the day of the newest review date over everything seen, the page included |
| ReviewsIncremental.ScanStep | internal/phorest/reviews_incremental.go:59-133 | one page iteration: cancellation, a fetch error or an empty page ends the loop; a loop that goes on is at the next page with fewer than three near-duplicate pages |
| ReviewsIncremental.StorePage | internal/phorest/reviews_incremental.go:75-133 | with a non-empty page: count, upsert and tally; a count or upsert error ends the loop, and otherwise it goes on at the next page |
| ReviewsIncremental.Counted | internal/phorest/reviews_incremental.go:89-133 | after the count: the upsert error ends the loop, otherwise the page is tallied |
| ReviewsIncremental.Tallied | internal/phorest/reviews_incremental.go:94-133 | a page with at least one new id joins the new rows; the loop goes on only below three near-duplicate pages and before the announced last page |
| ReviewsIncremental.ScanFrom | internal/phorest/reviews_incremental.go:59-134 | the page loop always stops, with an outcome |
| ReviewsIncremental.ScanFromStep | internal/phorest/reviews_incremental.go:59-134 | a step keeps the loop on its way to the same end |
| ReviewsIncremental.BranchScan | internal/phorest/reviews_incremental.go:51-134 | the loop from page 0 with no near-duplicate page and nothing new always stops |
| ReviewsIncremental.BranchFinish | internal/phorest/reviews_incremental.go:136-171 | nothing new writes nothing; otherwise the archive, then the reviews_api watermark when some new row had a date |
| ReviewsIncremental.BranchSync | internal/phorest/reviews_incremental.go:30-172 | an empty id is skipped; a failed MaxReviewDate fails; then the page loop and, when it passed, BranchFinish |
| ReviewsIncremental.BranchesSync | internal/phorest/reviews_incremental.go:30-175 | the branches in configuration order, a failed run staying as it is |
| ReviewsIncremental.RunDoneStep | internal/phorest/reviews_incremental.go:30-172 | after one more branch the run still ends where it did, and a failed branch is that end |
| ReviewsIncremental.RunIncrementalReviewsSync | internal/phorest/reviews_incremental.go:14-176 | the tables, round trips, archived batches and error are BranchesSync's |
| ReviewsIncremental.SyncBranch | internal/phorest/reviews_incremental.go:31-171 | one loop body computes BranchSync |
| ReviewsIncremental.FinishBranch | internal/phorest/reviews_incremental.go:136-171 | the archive and watermark steps compute BranchFinish |
| ReviewsIncremental.ScanPages | internal/phorest/reviews_incremental.go:51-134 | the page loop computes ScanFrom from page 0, with latestInRun the day of the newest date of the new rows |
| ReviewsIncremental.PageStep | internal/phorest/reviews_incremental.go:59-133 | one iteration computes ScanStep |
| ReviewsIncremental.StoreRows | internal/phorest/reviews_incremental.go:75-133 | the rest of an iteration with a non-empty page computes StorePage |
| ReviewsIncremental.UpsertPage | internal/phorest/reviews_incremental.go:89-133 | the rest of an iteration after the count computes Counted |
| ReviewsIncremental.Tally | internal/phorest/reviews_incremental.go:94-133 | the end of an iteration computes Tallied and keeps latestInRun the day of the newest date |
| ReviewsIncremental.StepKeepsStored | internal/phorest/reviews_incremental.go:59-133 | a page iteration never changes a stored review |
| ReviewsIncremental.CountedKeepsStored | internal/phorest/reviews_incremental.go:89-92 | storing a counted page never changes a stored review |
| ReviewsIncremental.ScanKeepsStored | internal/phorest/reviews_incremental.go:59-134 | the page loop never changes a stored review, whatever fails |
| ReviewsIncremental.BranchKeepsStored | internal/phorest/reviews_incremental.go:30-172 | a branch never changes a stored review |
| ReviewsIncremental.FinishWrites | internal/phorest/reviews_incremental.go:136-169 | a batch is archived only when there were new rows, and is those rows; the watermarks change only by advancing reviews_api/branch to the day of the newest date among them |
| ReviewsIncremental.BranchWrites | internal/phorest/reviews_incremental.go:30-172 | nothing is archived or advanced unless the branch's page loop passed |
| ReviewsIncremental.RunEffects | internal/phorest/reviews_incremental.go:14-176 | the run never changes a stored review, never moves a watermark back, and touches no watermark outside reviews_api |
| ReviewsSync.PageAt | internal/phorest/reviews_sync.go:31 | the reply for one page request of the listing |
| ReviewsSync.ValueOrEmpty | internal/phorest/reviews_sync.go:83-88 | nil reads as "", any other string as itself |
| ReviewsSync.SyncPages | internal/phorest/reviews_sync.go:29-48 | while page < totalPages: a fetch or upsert error ends the branch; an empty page is skipped; each reply's page count replaces totalPages |
| ReviewsSync.SyncBranchReviews | internal/phorest/reviews_sync.go:12-48 | an empty id or a failed MaxReviewDate skips the branch; otherwise its pages from page 0, each fetch handed the latest stored review date as `since` (which the review client does not send, so every page of the listing is read) |
| ReviewsSync.SyncReviewsFromAPI | internal/phorest/reviews_sync.go:7-51 | every branch is visited whatever happened before, and the call returns nil |
| ReviewsSync.SyncBranch | internal/phorest/reviews_sync.go:12-48 | one loop body computes SyncBranchReviews |
| ReviewsSync.SyncPagesLoop | internal/phorest/reviews_sync.go:29-48 | the page loop computes SyncPages from page 0 with a page count of one |
| ReviewsSync.SyncPagesKeepsStored | internal/phorest/reviews_sync.go:29-48 | the page loop never changes a stored review, whatever fails |
| ReviewsSync.PageStored | internal/phorest/reviews_sync.go:42-47 | a non-empty page whose round trips are clean is stored in full and the loop goes on at the next page |
| ReviewsSync.SyncPagesStoresAll | internal/phorest/reviews_sync.go:29-48 | with consistent page counts and clean round trips every review listed from the page on is stored |
| ReviewsSync.BranchKeepsStored | internal/phorest/reviews_sync.go:12-48 | a branch never changes a stored review |
| ReviewsSync.SyncReviewsOverKeepsStored | internal/phorest/reviews_sync.go:11-49 | the whole sync never changes a stored review |
| ReviewsSync.LatestBranch | internal/phorest/reviews_sync.go:58-79 | a fetch error or an empty answer skips the branch; otherwise one UpsertMany, whose error is dropped |
| ReviewsSync.LatestOver | internal/phorest/reviews_sync.go:58-79 | the branches in configuration order, each from what the one before left |
| ReviewsSync.SyncLatestReviewsFromAPI | internal/phorest/reviews_sync.go:54-81 | every branch is visited and the call returns nil |
| ReviewsSync.LatestOverStores | internal/phorest/reviews_sync.go:54-81 | never changes a stored review, and with clean round trips stores every review answered for a branch with a non-empty id |
| ReviewsBootstrap.ImportFiles | internal/phorest/reviews_bootstrap.go:44-61 | a parse or upsert error ends the import with the file's path; files without reviews are skipped |
| ReviewsBootstrap.Bootstrap | internal/phorest/reviews_bootstrap.go:14-65 | the count costs a round trip; with reviews already stored the table is left as it is |
| ReviewsBootstrap.BootstrapReviewsFromCSVsIfNeeded | internal/phorest/reviews_bootstrap.go:14-65 | the method computes Bootstrap |
| ReviewsBootstrap.ImportKeepsStored | internal/phorest/reviews_bootstrap.go:44-61 | the import never changes a stored review, whatever fails |
| ReviewsBootstrap.FileStoredKept | internal/phorest/reviews_bootstrap.go:44-61 | a file whose reviews are stored stays so while stored reviews are kept |
| ReviewsBootstrap.ImportFirst | internal/phorest/reviews_bootstrap.go:44-61 | in a passing import the first file parsed and its reviews are stored before the rest runs |
| ReviewsBootstrap.ImportStoresAll | internal/phorest/reviews_bootstrap.go:44-61 | a passing import parsed every file and stored the id of every review in it |
| ReviewsBootstrap.BootstrapMeaning | internal/phorest/reviews_bootstrap.go:14-65 | with any review stored only the count happens; a passing bootstrap of an empty table stored every archived review |
| StaffSync.NormaliseRows | internal/repos/staff_repo.go:27-30 | the rows as written: each with its dates cut to the day |
| StaffSync.StaffBranch | internal/phorest/staff_sync.go:12-33 | a branch without an id, with a failed fetch or an empty list changes nothing; otherwise one round trip, and a lost one changes no row |
| StaffSync.StaffSyncOver | internal/phorest/staff_sync.go:12-33 | at most one round trip per branch |
| StaffSync.SyncStaffFromAPI | internal/phorest/staff_sync.go:8-35 | always nil; the staff table and round trips are StaffSyncOver's |
| StaffSync.StaffBranchWrites | internal/phorest/staff_sync.go:19-31 | no stored pair is lost; with a clean round trip and distinct rows every row is stored as its normalised self, stamped now |
| StaffSync.StaffSyncKeepsKeys | internal/phorest/staff_sync.go:12-33 | the sync never loses a stored (staff_id, branch_id) pair |
| StaffSync.StaffSyncSnoc | internal/phorest/staff_sync.go:12-33 | a last branch runs on what the others left |
| StaffSync.StaffFailureContained | internal/phorest/staff_sync.go:20-31 | whatever failed before it, a last branch with a clean upsert stores all its rows |
| StaffSync.StaffSyncStoresAll | internal/phorest/staff_sync.go:8-35 | with clean round trips every branch that reached its upsert with distinct rows has all of them stored |
| BranchSync.BranchesSync | internal/phorest/branch_sync.go:5-24 | a failed fetch is the error with nothing sent; an empty list is a no-op; a failure leaves the table as it was |
| BranchSync.SyncBranchesFromAPI | internal/phorest/branch_sync.go:5-24 | the method computes BranchesSync |
| BranchSync.BranchesSyncMeaning | internal/phorest/branch_sync.go:5-24 | passes exactly when the fetch did and the list was empty or its round trip clean; then every fetched branch is stored as fetched, stamped now, and every other branch is kept |
| ProductsClient.NewProductsClient | internal/phorest/products_client.go:22-33 | an empty base URL becomes the EU gateway; any other is kept; the business id and credentials are kept |
| ProductsClient.PageSizeOf | internal/phorest/products_client.go:81-83 | the size sent is always positive: the caller's when positive, otherwise 100 |
| ProductsClient.ListQuery | internal/phorest/products_client.go:89-107 | size and page are always set; productType exactly when non-empty; updatedAfter and updatedBefore together, and exactly when both bounds are given |
| ProductsClient.Utf8 | internal/phorest/products_client.go:109 | the UTF-8 encoding of a character: one to four bytes, an ASCII character as itself |
| ProductsClient.PercentBytes | internal/phorest/products_client.go:109 | three characters per byte |
| ProductsClient.PercentBytesSafe | internal/phorest/products_client.go:109 | percent-encoded bytes hold only '%' and hexadecimal digits, never a separator |
| ProductsClient.QueryEscapeSafe | internal/phorest/products_client.go:109 | an escaped value holds no '&', '=' or space, so the encoded query splits back into exactly its pairs |
| ProductsClient.QueryEscapeUnreserved | internal/phorest/products_client.go:109 | a value of unreserved characters is sent as it is |
| ProductsClient.ErrorBody | internal/phorest/products_client.go:125-129 | the reason is never empty: the trimmed body, or "<empty body>" |
| ProductsClient.ListProducts | internal/phorest/products_client.go:80-138 | a transport error is the error; a status of 300 or more is an error naming the URL, the status and the reason; otherwise the decoded page or its decode error |
| ProductsClient.StatusErrorReason | internal/phorest/products_client.go:124-131 | a status error ends with ": <empty body>" for a blank body and with ": " and the trimmed body otherwise |
| ProductsSync.HistoryStep | internal/phorest/products_sync.go:243-274 | only the history log changes, and only by the one row, which a passing step with a history decision appends |
| ProductsSync.StockStep | internal/phorest/products_sync.go:197-274 | the stock part never touches products or watermarks and costs at least one round trip |
| ProductsSync.ProcessRecord | internal/phorest/products_sync.go:145-277 | a record never touches the watermarks and costs at least one round trip |
| ProductsSync.ProcessProductRecord | internal/phorest/products_sync.go:145-277 | the method computes ProcessRecord |
| ProductsSync.Track | internal/phorest/products_sync.go:126-129 | the newest updatedAt is the greater of the one so far and the product's |
| ProductsSync.RecordsFrom | internal/phorest/products_sync.go:120-130 | the records of a page leave the watermarks alone; a failing record ends the page with no maximum |
| ProductsSync.ProcessPage | internal/phorest/products_sync.go:120-130 | the record loop computes RecordsFrom |
| ProductsSync.PagesFrom | internal/phorest/products_sync.go:103-136 | the pages leave the watermarks alone; a failure ends the branch with no maximum |
| ProductsSync.SyncProductsForBranch | internal/phorest/products_sync.go:88-139 | the page loop computes PagesFrom from page 0 |
| ProductsSync.WindowOf | internal/phorest/products_sync.go:48-59 | both bounds are present exactly when there is a watermark: updatedAfter is the watermark, updatedBefore is now |
| ProductsSync.BranchFinish | internal/phorest/products_sync.go:71-79 | the end of a branch touches only the watermarks, and those only when it passes |
| ProductsSync.ProductsBranch | internal/phorest/products_sync.go:40-80 | a branch reads its watermark in one round trip; when it fails the watermarks are as before |
| ProductsSync.ProductsSyncOver | internal/phorest/products_sync.go:40-80 | the branches in order, never giving back round trips |
| ProductsSync.SyncProductsFromAPI | internal/phorest/products_sync.go:15-84 | the tables, round trips and error are ProductsSyncOver's |
| ProductsSync.SyncBranch | internal/phorest/products_sync.go:40-80 | one loop body computes ProductsBranch |
| ProductsSync.FinishBranch | internal/phorest/products_sync.go:71-79 | the end of a branch computes BranchFinish |
| ProductsSync.ShouldLogHistoryMeaning | internal/phorest/products_sync.go:243-256 | a history row is due exactly when there was no stock row or the stored quantity differs from the new one, NULL against a value included |
| ProductsSync.StockStepEffects | internal/phorest/products_sync.go:197-274 | the stock part passes exactly when its round trips are clean, and then leaves the stock row and the history row the prior stock asks for |
| ProductsSync.ProcessRecordEffects | internal/phorest/products_sync.go:145-277 | a record passes exactly when its round trips are clean; it then leaves its product and stock rows and one history row exactly when the prior stock asks for one; it never loses a stored row |
| ProductsSync.RecordsGrow | internal/phorest/products_sync.go:120-130 | the records of a page lose nothing stored |
| ProductsSync.RecordsStored | internal/phorest/products_sync.go:120-130 | a page that passed stored the product row and the branch's stock row of every product on it |
| ProductsSync.TrackAllAppend | internal/phorest/products_sync.go:126-129 | tracking two runs of products is tracking the first, then the second |
| ProductsSync.TrackAllIsMax | internal/phorest/products_sync.go:126-129 | tracking finds the maximum: at least the start and every updatedAt, one of them, and absent only when there was nothing |
| ProductsSync.RecordsMax | internal/phorest/products_sync.go:120-130 | a page that passed tracked the newest updatedAt of all its products |
| ProductsSync.PagesGrow | internal/phorest/products_sync.go:103-136 | the pages of a branch lose nothing stored |
| ProductsSync.PagesMeaning | internal/phorest/products_sync.go:103-136 | pages that passed stored every product the listing handed out and tracked the newest updatedAt over all of them |
| ProductsSync.AdvanceIsAdvance | internal/phorest/products_sync.go:75-79 | advancing a products_api watermark moves no watermark back |
| ProductsSync.FinishMeaning | internal/phorest/products_sync.go:71-79 | the end of a branch moves only its own watermark, only forward, and to the tracked maximum when it passes |
| ProductsSync.BranchPagesGrow | internal/phorest/products_sync.go:48-73 | the pages of a branch lose nothing stored and leave the watermarks alone |
| ProductsSync.BranchMonotone | internal/phorest/products_sync.go:40-80 | a branch loses nothing stored and only moves its own watermark forward |
| ProductsSync.BranchPagesMeaning | internal/phorest/products_sync.go:48-73 | a branch's pages that passed stored every product handed out and tracked their newest updatedAt |
| ProductsSync.FinishFromPages | internal/phorest/products_sync.go:71-79 | the end of a branch whose pages passed keeps what they stored and advances the watermark to their newest updatedAt |
| ProductsSync.BranchMeaning | internal/phorest/products_sync.go:40-80 | a passing branch stored the product and stock rows of everything its window handed out and advanced its watermark to their newest updatedAt |
| ProductsSync.SyncMonotone | internal/phorest/products_sync.go:15-84 | the whole sync loses nothing stored and only moves products_api watermarks forward, whatever fails |
| ProductsSync.SyncStopsAtFailure | internal/phorest/products_sync.go:71-73 | a failing branch ends the sync: the branches after it never run |

## Left out

- HTTP transport and JSON decoding (the review, staff, branch, products and export-job clients): every exchange is a parameter that says what the server answered, and a listing is a finite sequence of replies in which a page past the end is empty.
- SQL text, gorm clauses, placeholders and Postgres parameter limits: a statement is its effect on the table maps, and a failed round trip is a round number in `faulty`.
- Database transactions: BEGIN, COMMIT and ROLLBACK are round trips; a rolled-back or uncommitted transaction leaves the tables as they were before BEGIN; isolation from concurrent writers is not modelled.
- CSV byte-level quoting (encoding/csv): a file is its header and a sequence of lines, each either a record of fields or a line the reader rejects.
- The filesystem: globbing (files come in the order the listing gives them), opening, creating and renaming files, `archiveCSVToSeed` and `copyFile`, and the CSV write and archive of the incremental reviews sync, which is modelled as the batch of rows it would write.
- The file names built with the compact timestamp format: they only name files.
- Floating point: money, prices and quantities are `real` values compared only for equality; `dupRatio >= 0.9` is modelled as `10 * existing >= 9 * len(rows)` and `dupRatio < 1.0` as `existing < len(rows)`.
- Text.ToLower: only the ASCII letters 'A'..'Z' are lowered; a non-ASCII upper-case letter in a header cell (such as U+0130) is compared as written, where Go's strings.ToLower would lower it.
- CsvTable.ParseFloatLoose: strconv.ParseFloat is a parameter (`Scanners.float`), so only the blank-cell case (0) is stated.
- CsvTable.ParseFloatPtr: strconv.ParseFloat is a parameter, so only the blank-cell case (nil) is stated.
- CsvTable.ParseClock: time.Parse over the clock layouts is a parameter (`Scanners.clock`), so only the blank-cell case (nil) is stated.
- CsvTable.ParseStamp: time.Parse over the timestamp layouts is a parameter (`Scanners.stamp`), so only the blank-cell case (nil) is stated.
- Time parsing and formatting other than the layout "2006-01-02" and the millisecond UTC format: RFC 3339 and ISO 8601 parsing are parameters; time is an integer number of milliseconds in UTC, with no time zones or leap seconds.
- The real clock, `time.Sleep` and context deadlines: `now` is a parameter, the time each poll of an export job takes is a parameter (`took`), a sleep only adds its length to the clock, and context cancellation is the round number from which the context reads as done (`cancelFrom`).
- The percent-encoding of the URL path in ListProducts (url.Parse of the formatted path), basic authentication and request headers.
- The `size`, `totalElements` and `number` fields of a products page: the sync never reads them.
- Logging everywhere, process start-up, configuration loading and the database connection.
- NewRunner and the constructors of the review, staff and branch clients: they only gather their parameters.
- The structs of the models package: each table row is a datatype holding the fields the engine reads or writes.
