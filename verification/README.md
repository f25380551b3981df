# Admin ingestion, incremental sync and bulk client: a Dafny model

This project models the sequential control logic of a small school-administration
data service, in three parts.

- **`POST /admin/bulk`** (`create_admin_records`) cuts a list of admin records into
  batches of 1000. For each batch, in order, it inserts into backend 1, inserts into
  backend 2, commits 1 and commits 2. The first call that raises rolls both sessions
  back and ends the request with a 500. Batches committed before stay committed, and a
  failed second commit leaves the two backends different. `GET /admin/{udise_code}`
  and `GET /admin/` read backend 1 only.
- **The incremental sync job** reads the watermark `MAX("Timestamp")` of the target
  table, with 2000-01-01 as a fallback. It selects the source rows strictly newer than
  the watermark, backfills the audit columns, and coerces every declared column. It
  then appends the rows in one bulk call and, when that raises, row by row, stopping
  at the first row that fails.
- **The bulk client script** posts a list in `ceil(N / 1000)` batches. It adds up the
  lengths of the 200 replies and stops at the first other status.

Each backend table is an immutable `map<int, Admin>` keyed by `Udise_code`, and each
sync table a sequence of rows. Each database or HTTP call that can fail takes its
failure from an oracle parameter:

- `Faults` for the endpoint;
- `SyncEnv` for the job;
- `post(i, batch)` for the client.

Modules:

| file | module | contents |
|---|---|---|
| `common.dfy` | `Common` | `Option`, `Timestamp` (seconds since 1970), `Min`/`Max` |
| `chunking.dfy` | `Chunking` | Python slicing, integer ceiling, fixed-size batching and its partition lemma |
| `admin_store.dfy` | `AdminStore` | the `admin` table, the primary key, a session with a pending transaction, `bulk_insert_mappings`/`commit`/`rollback` |
| `admin_api.dfy` | `AdminApi` | the dual-write loop, the two read endpoints, success, abort and divergence lemmas |
| `sync_frame.dfy` | `SyncFrame` | the data frame, `dtype_mapping`, audit backfill, the coercion loop |
| `sync_job.dfy` | `SyncJob` | watermark, selection, bulk append, row-by-row fallback, one run and two runs |
| `bulk_client.dfy` | `BulkClient` | the client's batch loop |

## Model

| member | source | states |
|---|---|---|
| AdminStore.BulkInsertMappings | final_admin_api.py:233-234 | a batch is accepted exactly when the oracle does not fail the call and its keys are pairwise distinct and absent from the table seen in the transaction; a refusal without a fault is a primary-key violation; an accepted batch is visible in the transaction but not committed |
| AdminStore.FreshAppend | final_admin_api.py:53 | a list can be inserted without violating the `Udise_code` primary key exactly when its first part can, and then its second part can on top of the first |
| AdminStore.AddAllFreshValues | final_admin_api.py:53 | inserting rows with fresh keys keeps every old row and stores each new row under its own key |
| AdminStore.CommitAfterInsert | final_admin_api.py:233-237 | inserting a batch with fresh keys and committing without a fault leaves the session on the old table plus the batch, with nothing pending |
| AdminStore.RollbackUndoesInsert | final_admin_api.py:233-244 | rolling back an accepted, uncommitted insert returns the session to the table it was opened on, with nothing pending |
| Chunking.Slice | final_admin_api.py:230 | Python's `s[lo:hi]` clamps both ends to the length: its length and its elements in terms of the input |
| Chunking.CeilDiv | post10k_admin.py:14 | the batch count is the least `q` with `n <= q * d` |
| Chunking.ChunksPartition | final_admin_api.py:229-230 | `range(0, N, 1000)` slicing gives `ceil(N / 1000)` non-empty batches of at most 1000 records; batch `k` is `s[k*1000:(k+1)*1000]`; they concatenate to the input |
| AdminApi.RunBatch | final_admin_api.py:232-246 | one batch commits on both backends exactly when none of insert 1, insert 2, commit 1 and commit 2 raises; otherwise it names the first call that raised, every earlier call succeeded, nothing stays pending, and backend 1 keeps the batch only when the call that raised was commit 2 |
| AdminApi.CreateAdminRecords | final_admin_api.py:224-249 | an empty list makes no call, changes neither backend and returns an empty list |
| AdminApi.GetAdmin | final_admin_api.py:262-268 | backend 1's record with the requested code, or 404 exactly when backend 1 holds no record with that code |
| AdminApi.GetAllAdmins | final_admin_api.py:255-258 | the listing is exactly backend 1's rows |
| AdminApi.BulkLoopSucceedsIff | final_admin_api.py:228-239 | from any batch boundary, the loop returns 200 exactly when no remaining call fails and the remaining records can be inserted into both backends |
| AdminApi.BulkSucceedsIff | final_admin_api.py:216-249 | the request returns 200 exactly when no call of the `ceil(N / 1000)` batches fails and the list's keys are pairwise distinct and absent from both backends |
| AdminApi.BulkSuccessStoresEverything | final_admin_api.py:222-249 | after a 200 the reply is the input list in order; both backends hold their old rows plus every input record; the batches were the 1000-record slices, each running the four calls in order |
| AdminApi.BulkSuccessReadable | final_admin_api.py:255-268 | after a 200, `get_admin` finds every input record and every older row of backend 1, and `get_all_admins` lists all of them |
| AdminApi.BulkAbortKeepsEarlierBatches | final_admin_api.py:228-246 | on a 500, where the model records the batch `k` and the call that failed (the reply itself carries only the error text), `k` is a batch of the input and the call one of the protocol; batches before `k` stay committed in both backends; no later batch is attempted; the calls of batch `k` stop at the failing call and are followed by the two rollbacks; batch `k` remains only in backend 1, and only when commit 2 raised |
| AdminApi.CommitTwoFailureDiverges | final_admin_api.py:236-244 | when commit 2 of batch `k` raises, `get_admin` on backend 1 finds every record of batch `k` while backend 2 holds none of their codes |
| SyncFrame.AddColumn | sync_data_admin.py:139 | assigning a new column keeps every existing cell and sets the new one in every row |
| SyncFrame.BackfillFrom | sync_data_admin.py:137-139 | each listed column the frame lacks is added, filled with the instant `utcnow()` gave for it; columns already present keep their values |
| SyncFrame.BackfillKeepsPresentColumns | sync_data_admin.py:137-139 | after backfill the frame has exactly its old columns plus `created_at`, `updated_at` and `ingested_at`; old cells are unchanged; the same rows |
| SyncFrame.Truncate | sync_data_admin.py:146 | `astype(int)` truncates toward zero |
| SyncFrame.CoerceCell | sync_data_admin.py:144-152 | a coerced cell has its column type's shape: integers never missing, strings always text, floats and datetimes a value or missing |
| SyncFrame.UnparseableDefaults | sync_data_admin.py:146-152 | a cell that does not parse becomes 0 in an integer column and missing in a float or datetime column |
| SyncFrame.CoerceTypes | sync_data_admin.py:142-154 | the loop over the declared columns converts every declared column the frame has whose conversion does not raise; a raising column keeps its cells, is reported, and the loop continues; the result equals the row-wise reference `Coerced` and the errors are exactly the declared, present, raising columns |
| SyncFrame.CoercedConforms | sync_data_admin.py:142-152 | after the loop every declared column whose conversion did not raise holds only cells of its type's shape |
| SyncJob.MaxTimestamp | sync_data_admin.py:117 | `MAX("Timestamp")` is NULL exactly when no row has a timestamp; otherwise it bounds every row's timestamp and is one of them |
| SyncJob.LastSyncTime | sync_data_admin.py:113-120 | the watermark is 2000-01-01 when the query raises or no target row has a timestamp, and the target's greatest timestamp otherwise |
| SyncJob.SelectNewer | sync_data_admin.py:128-129 | a row is selected exactly when it is a source row whose timestamp is strictly greater than the watermark |
| SyncJob.SelectNewerCounts | sync_data_admin.py:128-129 | the selection holds each newer row exactly as many times as the source does, and no other row |
| SyncJob.WatermarkRowExcluded | sync_data_admin.py:128 | a row stamped exactly at the watermark, or with a NULL timestamp, is never selected |
| SyncJob.BulkAppendAgreesWithFallback | sync_data_admin.py:100-110 | with no fault, the all-or-nothing bulk append succeeds exactly when inserting the rows one by one inserts every row, and then both leave the same table |
| SyncJob.InsertRowByRow | sync_data_admin.py:100-110 | the fallback appends exactly the rows before its stopping row; it stops at a row whose own insert failed; every row it appended was accepted |
| SyncJob.FallbackCompletesIff | sync_data_admin.py:100-110 | with no other faults, the fallback inserts every row exactly when the target accepts every row in turn |
| SyncJob.DeliverWritesPrefix | sync_data_admin.py:157-169 | the write step appends exactly a prefix of the prepared rows: all of them through the bulk append exactly when it has no fault and every row is accepted, otherwise those before the first failing row |
| SyncJob.DeliverStopsAt | sync_data_admin.py:157-169 | when the bulk append fails, for a fault or because a row is refused, and row `p` is the first whose own insert fails, by a fault or because the target refuses it, the target gains exactly rows `0..p-1` |
| SyncJob.RunSyncOutcomes | sync_data_admin.py:123-172 | a run aborts exactly when connecting to the target or reading the source fails; it finds nothing to sync exactly when no source row is newer than the watermark; in both cases the target is unchanged |
| SyncJob.RunSyncWrites | sync_data_admin.py:131-169 | whatever happens, a run appends a prefix of the selected, prepared rows and nothing else, and nothing when the selection is empty |
| SyncJob.PreparedKeepTimestamps | sync_data_admin.py:137-154 | backfill and coercion leave every selected row's timestamp as it was |
| SyncJob.WatermarkCoversAppended | sync_data_admin.py:117-118 | appending rows newer than the watermark does not lower it, and the new watermark is at least every appended row's timestamp |
| SyncJob.CompleteRunAppendsNewer | sync_data_admin.py:128-166 | a run that writes all it selects appends one row per selected row, each with that row's timestamp |
| SyncJob.WatermarkAfterCompleteRun | sync_data_admin.py:117-129 | after such a run, with its `MAX` query answering, no source row is newer than the target's new watermark |
| SyncJob.SecondRunWritesNothing | sync_data_admin.py:113-132 | when both runs' `MAX` query answers, running the job again on an unchanged source after a complete run selects nothing and leaves the target as it was |
| SyncJob.FailedQueryReselects | sync_data_admin.py:113-129 | when the `MAX` query raises, the watermark is 2000-01-01 and every source row newer than that is selected again, whatever the target already holds |
| SyncJob.FallbackCanStrandRows | sync_data_admin.py:100-132 | a source row can stay unsynced for good: selected rows are unordered, so a fallback that stops after inserting a later-stamped row raises the watermark past the failing row, and the next run finds nothing to sync |
| BulkClient.PostInBatches | post10k_admin.py:13-29 | request `i` carries `data[i*1000:(i+1)*1000]`; at most `ceil(N / 1000)` requests are made; the loop runs to the end exactly when every request returns 200; otherwise it stops right after the first failure and posts nothing later; `inserted_records` is the sum of the counts of the successful requests; an empty list makes no request and counts 0 |
| BulkClient.BatchesPartitionData | post10k_admin.py:13-19 | the client's batches are the `ceil(N / 1000)` batches of the partition, each non-empty and at most 1000 records long, and they concatenate to the list |
| BulkClient.EchoSumCountsRecords | post10k_admin.py:16-29 | against a server that echoes every batch, the count after `n` successful requests is `min(n * 1000, N)`, so the final count never exceeds `total_records` |

## Left out

- Logging, every `print`, and the client's result message are output only.
- The HTTP framework, request validation, and the construction of engines and sessions appear only through the oracles.
- Credentials, connection strings, and loading the JSON file are left out.
- Concurrent requests and overlapping sync runs depend on the database's isolation level and are not modelled.
- The domain fields of an admin record beyond `Udise_code` and `Timestamp` are opaque. On the endpoint they are a text map, so the `VARCHAR(n)` limits of the `admin` table (final_admin_api.py:55-98) are not checked there: an over-long string is refused by the database and appears only as a fault from the oracle. In the job they are cells that are never examined, except for the string lengths the target's `TargetRules` may enforce.
- `Latitude`/`Longitude` arithmetic is left out.
- pandas `to_numeric`, `to_datetime` and `astype(str)` are left abstract (`Parsers`). Only their contract is used: a value, or none, with the default-on-failure rule applied.
- Whether a chunked `to_sql` is atomic is library behaviour. `SyncJob.BulkAppend` ASSUMES all or nothing. `CHUNK_SIZE` (sync_data_admin.py:8) is therefore not modelled.
- Whether the sync target enforces a primary key is not established by the job. It is the `enforcePk` parameter, with string lengths the only other check (`TargetRules`). Any other database refusal is a fault from the oracle.
- The order of rows in a query result without ORDER BY is not modelled.
- AdminStore.BulkInsertMappings: `Udise_code` and the other integer columns are 32-bit database integers while the model's integers are unbounded; a value out of range is refused by the database with a data error, which the model covers only as a fault from the oracle, so a refusal without a fault is a primary-key violation only under that reading.
- AdminApi.CreateAdminRecords: the 500 reply carries only the error text (final_admin_api.py:246); the batch and the call in `ServerError(batch, at)` are the model's own record of the failure, which a caller cannot see, so a caller cannot tell whether the backends diverged.
- Exceptions in paths without an oracle are left out: a database error in `get_admin` or `get_all_admins` (final_admin_api.py:258, 264) turns into a 500, and `requests.post` or `response.json()` raising (post10k_admin.py:20, 23) ends the client script.
- SyncJob.RunSync: the function carries no postcondition of its own. Its behaviour is stated by `SyncJob.RunSyncOutcomes`, `SyncJob.RunSyncWrites` and the later lemmas.
- AdminApi.GetAllAdmins: returns a set of rows, not a list, because `query(...).all()` without ORDER BY fixes no order.
- BulkClient.PostInBatches: uses the exact integer ceiling. Python computes `ceil` on a float quotient, which agrees for any list shorter than 2^53 records.
- SyncFrame.CoerceTypes: handles columns in an unspecified order, where Python iterates the mapping in insertion order. Columns are independent, so the result is the same.
- SyncFrame.CoerceCell: an integer conversion that raises on a non-finite number is covered only through the `raises` oracle, because the numeric parser yields reals only.
- SyncJob.SecondRunWritesNothing: requires the timestamp conversion to keep datetimes (`KeepsTimestamps`). With a parser that rewrites timestamps, the appended rows could carry timestamps unrelated to the selection. It also requires both runs' `MAX` query to answer: when the second run's query raises, the watermark falls back to 2000-01-01 and the rows are selected again (`SyncJob.FailedQueryReselects`), to be appended a second time or refused on their keys.

Three points about the job's behaviour that are easy to misread:

- Rows after the fallback's stopping row are not necessarily synced by the next run. The selection (sync_data_admin.py:128) has no ORDER BY, and the watermark is `MAX("Timestamp")` of the target (sync_data_admin.py:117). Rows inserted before the failing row can carry a later `Timestamp` than the failing row and the rows after it, and then the next run's strictly-greater selection skips them. `SyncJob.FallbackCanStrandRows` exhibits a two-row source where this happens.
- An invalid date string does not make the bulk append fail. The coercion loop turns it into a missing value first (sync_data_admin.py:151-152, `SyncFrame.UnparseableDefaults`), so such a row reaches the append as a NULL and is refused only if the target refuses NULLs.
- A failure to connect to the target is raised outside the `try` of `get_last_sync_time` (sync_data_admin.py:115). It reaches the job's outer handler and ends the run; it is not the 2000-01-01 fallback. `SyncJob.RunSyncOutcomes` states this.
