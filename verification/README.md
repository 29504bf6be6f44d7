# PANDA dataset core in Dafny

A model of the dataset core of PANDA, a newsroom data library. PANDA stores a
catalog of datasets in a relational database. It keeps their rows in a
search engine. The model covers:

- the `Dataset` record and its save (`Entities`);
- the derivation of a search field name for every indexed column (`Text`, `ColumnNames`);
- the advisory editing lock (`Locking`), and an interleaving model of the
  lock protocol between several processes (`LockRace`);
- the catalog document built by `update_full_text` (`Catalog`);
- the lifecycle operations `import_data`, `reindex_data`, `export_data`,
  `delete` and the post-delete hook (`Lifecycle`);
- the row operations `get_row`, `add_row`, `add_many_rows`, `delete_row`,
  `delete_all_rows` and `_count_rows` (`Rows`);
- the row endpoints of the web API: validation, addressing, routing,
  single-row read and write, bulk write, and the per-dataset search query (`DataApi`).

Everything is a pure function over immutable values. An operation that
touches the database, the search engine and the task queue takes a `State`:
the in-memory instance, the stored record (absent once deleted), the catalog
collection keyed by slug, and the side effects issued so far (task records,
task dispatches, abort requests). It returns an `Outcome` that pairs the new
state with the exception raised, if any. The data collection is a finite map
from (dataset slug, external id) to the row document, so adding a document
under a key that is already present overwrites it, as the search engine does
for a unique key.

Inputs from outside the model are parameters:

- clock readings (`now`) and the lock token;
- what the second read of `lock` finds (`reread`): the record, or `None`
  when it was deleted, since any other process may have written or deleted
  it in between;
- the name of the export task (`ExportCSVTask.name`), which is defined outside
  the dataset model;
- generated ids for rows without an external id, and new task ids;
- the Unicode NFKD table (`nfkd`);
- the full-text matching relation of the search engine (`textMatch`);
- the uncategorized category's id and name, as `Catalog.Settings`.

Two behaviours of the code are kept as written:

- `unlock` does not clear `locked_at`. It saves the whole instance, so a
  failure after the lock persists whatever the operation had already
  edited. Examples are the partial schema of an import whose upload lacks
  a guessed type, and an override longer than the schema in a reindex.
- `re.match('^[\w\d_-]+$', ...)` in Python 2 also accepts an external id
  with a single trailing line feed, because `$` matches before a final
  newline (`DataApi.TrailingNewlineAccepted`).

## Model

| member | source | states |
|---|---|---|
| Entities.Save | panda/models/dataset.py:64-71 | the first save stamps a creation date; a later save changes nothing else and keeps the existing date |
| Entities.SaveStable | panda/models/dataset.py:64-71 | saving again at any later time changes nothing: the creation date is the existing one, or the time of the first save |
| Entities.Render | panda/models/dataset.py:322-388 | the `last_modification` texts of lines 327, 357-361, 376 and 388; only the delete-all text begins with "All" |
| Entities.RenderInjective | panda/models/dataset.py:322-388 | distinct summaries are stored as distinct texts, so the text determines the kind of change and its counts |
| Entities.Persist | panda/models/dataset.py:64-71 | after `self.save()` the stored record equals the instance; the catalog and side effects are untouched |
| Text.CleanSlug | panda/models/dataset.py:88-89 | a slug contains only lower-case ASCII letters, digits and underscores |
| Text.Slugify | panda/models/dataset.py:86-89 | the slug of any column name, whatever the Unicode fold does, uses only the slug alphabet |
| Text.CleanSlugIdempotent | panda/models/dataset.py:88-89 | slugging a slug gives it back unchanged |
| Text.NatToString | panda/models/dataset.py:96 | `%i` of a natural number is a non-empty digit string without a leading zero |
| Text.ParseNatToString | panda/models/dataset.py:96 | reading the rendered digits back gives the number |
| Text.NatToStringInjective | panda/models/dataset.py:96-100 | distinct suffix numbers give distinct candidate names |
| Text.IntToString | panda/models/dataset.py:357-361 | `%i` of an integer starts with a minus sign exactly when it is negative |
| Text.IntToStringInjective | panda/models/dataset.py:357-361 | distinct integers render to distinct `%i` texts |
| Text.JoinContainsParts | panda/models/dataset.py:175 | every part of a `'\n'.join` occurs in the joined text |
| Text.JoinLength | panda/models/dataset.py:175 | the joined text is the parts plus one separator between each pair of neighbours |
| ColumnNames.FreeSuffix | panda/models/dataset.py:94-100 | the suffix search stops at the first number whose candidate is not taken; every number before it is taken |
| ColumnNames.LeastFreeNameUnique | panda/models/dataset.py:91-102 | at most one name satisfies "the candidate if free, else the candidate with the least free suffix from 2"; the naming is deterministic |
| ColumnNames.Dedup | panda/models/dataset.py:91-102 | the chosen name is not among the names already given, and it is that least free name |
| ColumnNames.NameColumn | panda/models/dataset.py:79-105 | naming one column changes only its indexed name: none when unindexed, otherwise the least free name against the names before it, which is not among them |
| ColumnNames.TypedColumnNames | panda/models/dataset.py:73-105 | only `indexed_name` changes; a column has an indexed name iff it is indexed; each name is the least free one against the earlier columns; no two columns share a name |
| ColumnNames.NamesFollowPattern | panda/models/dataset.py:86-102 | each indexed name is `column_<type>_<slug>`, optionally followed by a number of at least 2 |
| ColumnNames.FindSuffix | panda/models/dataset.py:94-102 | the while loop as written finds the least free suffixed name |
| ColumnNames.GenerateTypedColumnNames | panda/models/dataset.py:73-105 | the enumerate loop as written gives the column-by-column specification |
| Locking.LockWrite | panda/models/dataset.py:120-125 | the first write stores `locked` with the caller's own token |
| Locking.Lock | panda/models/dataset.py:107-134 | a missing record raises DoesNotExist and changes nothing; a locked record is refused without a write; a record deleted before the second read raises DoesNotExist with the instance left locked with the new token; otherwise the lock succeeds iff the second read returns the caller's own token; only the lock fields and the creation date of the instance change |
| Locking.LockWithoutInterference | panda/models/dataset.py:107-134 | with no other writer, an unlocked record is locked with the new token and the instance is otherwise unchanged |
| Locking.SecondLockRefused | panda/models/dataset.py:116-118 | locking a dataset already locked by this process is refused and writes nothing |
| Locking.Unlock | panda/models/dataset.py:136-143 | the record is saved unlocked; `locked_at` and every other field keep the instance's values |
| Locking.UnlockIdempotent | panda/models/dataset.py:136-143 | unlocking twice equals unlocking once |
| Locking.LockAfterUnlock | panda/models/dataset.py:107-143 | after lock then unlock, a new lock succeeds with its own token |
| LockRace.TwoProcessesBothAcquire | panda/models/dataset.py:107-134 | the schedule read A, read B, write A, check A, write B, check B leaves both processes holding the lock |
| LockRace.SequentialProcessesOneWinner | panda/models/dataset.py:107-134 | run one after the other, the first process wins and the second is refused |
| LockRace.Step | panda/models/dataset.py:112-134 | a step moves only its own process; a finished process stays put; only a write changes the record, and it writes the writer's own token; a process wins only from having written, by reading back its own token |
| LockRace.Run | panda/models/dataset.py:107-134 | over any schedule, a process the schedule never names stays where it was and a finished process stays finished |
| LockRace.CasAtMostOneWinner | panda/models/dataset.py:107-134 | with an atomic compare-and-set, every schedule leaves at most one holder, and that holder's token is on record |
| LockRace.CasStep | panda/models/dataset.py:107-134 | corrected: a step moves only its own process; only an acquisition of an unlocked record changes it, and the acquirer then holds the lock with its own token |
| LockRace.CasFirstMoverWins | panda/models/dataset.py:107-134 | with compare-and-set, the first process to move on an unlocked record wins and keeps the lock |
| Catalog.CategoryIds | panda/models/dataset.py:149-164 | the document's category list is never empty: the dataset's categories in order, or the uncategorized id alone |
| Catalog.FullTextParts | panda/models/dataset.py:151-173 | the full-text parts in order: name, description, creator name, e-mail, categories (or the uncategorized name), data upload names, related upload names, column names |
| Catalog.CatalogDocument | panda/models/dataset.py:175-182 | building the document fails with AttributeError iff `creation_date` is None; otherwise it carries slug, creation date, category ids and the newline-joined text |
| Catalog.UpdateFullText | panda/models/dataset.py:145-182 | the dataset's document is upserted under its slug; every other catalog document is unchanged |
| Catalog.UpdateFullTextIdempotent | panda/models/dataset.py:145-182 | rebuilding the document with nothing changed leaves the catalog as it was |
| Catalog.FullTextFindsParts | panda/models/dataset.py:151-175 | each descriptive string of the dataset (name, description, creator name and e-mail, category names or the uncategorized name, upload file names, column names) occurs as a substring of the document's `full_text` |
| Lifecycle.Abort | panda/models/dataset.py:242-244 | the error propagates after the whole instance, with only `locked` cleared, is saved; `locked_at` and every partial edit are persisted; side effects are unchanged |
| Lifecycle.Launch | panda/models/dataset.py:234-241 | a task record is created, the record is saved with it as the current task, and the task is dispatched under its id |
| Lifecycle.InitialSchema | panda/models/dataset.py:214-225 | a first import builds one unindexed, unnamed schema entry per column with its guessed type, and stops at the first column without a type |
| Lifecycle.ImportProblemOf | panda/models/dataset.py:201-213 | the three import rejections are checked in source order: already imported, unsupported file type, columns not matching a non-empty schema |
| Lifecycle.Imported | panda/models/dataset.py:210-232 | a non-empty schema is kept, otherwise built from the upload; the sample is set only if absent; the initial upload is set only on the first import into a dataset never counted |
| Lifecycle.ImportData | panda/models/dataset.py:194-244 | a failed lock propagates untouched; any later failure saves the instance unlocked, keeps the lock token and every field but the schema, and issues no side effect; success iff locked, no rejection and a type for every column; on success the record is the instance with the import edits of lines 214-232, the lock held and the import task recorded and dispatched |
| Lifecycle.ImportRejections | panda/models/dataset.py:198-213 | each rejection raises its DataImportError, releases the lock and keeps schema, sample and initial upload |
| Lifecycle.FirstImportBuildsSchema | panda/models/dataset.py:214-232 | a first import builds the schema from the upload's column names and guessed types, column by column |
| Lifecycle.ImportAppendKeepsSchema | panda/models/dataset.py:210-232 | an import into a schema naming the upload's columns in order succeeds, keeps the schema and the count, keeps an existing sample and sets the initial upload only when there was neither one nor a count |
| Lifecycle.ImportIndexErrorKeepsPartialSchema | panda/models/dataset.py:214-244 | too few guessed types raise IndexError, and the unlock persists a partial schema with one entry per guessed type |
| Lifecycle.ImportHoldsLock | panda/models/dataset.py:194-244 | after a successful import, a second import before the task releases the lock is refused without writing |
| Lifecycle.SetIndexed | panda/models/dataset.py:253-255 | the `indexed` override applies position by position; columns past the override are unchanged |
| Lifecycle.SetTypes | panda/models/dataset.py:257-259 | the `type` override applies position by position; columns past the override are unchanged |
| Lifecycle.ReindexData | panda/models/dataset.py:246-274 | a failed lock propagates untouched; no schema raises TypeError and an override longer than the schema raises IndexError, both after unlocking with every field but the schema kept; on success the overridden schema is renamed, the reindex task is recorded and dispatched, and nothing else but the lock fields changes |
| Lifecycle.ReindexOverridesPositions | panda/models/dataset.py:250-261 | a successful reindex keeps every column name, applies the overrides exactly at the positions they cover, and names exactly the indexed columns |
| Lifecycle.ReindexLongOverrideKeepsPartialEdit | panda/models/dataset.py:253-255 | an `indexed` override longer than the schema raises IndexError, and the unlock persists it applied to every column |
| Lifecycle.ExportData | panda/models/dataset.py:276-295 | export succeeds iff the lock does; it records and dispatches the export task with the file name and changes nothing else in the record |
| Lifecycle.OnDatasetDelete | panda/models/dataset.py:398-405 | the purge of the dataset's rows is dispatched with no task record, and exactly the dataset's catalog document is removed |
| Lifecycle.Delete | panda/models/dataset.py:184-192 | the current task, if any, is asked to abort before the record is deleted; then the purge is dispatched and exactly the dataset's catalog document is removed; every other document and the instance are unchanged |
| Lifecycle.DeletedDatasetRefusesOperations | panda/models/dataset.py:112 | after deletion, import, reindex and export all raise DoesNotExist and change nothing |
| Rows.RowQuery | panda/models/dataset.py:301 | the point query reads `dataset_slug:<slug> AND external_id:<id>` |
| Rows.DatasetKeys | panda/models/dataset.py:391-396 | a dataset's keys are exactly the stored keys carrying its slug |
| Rows.CountRows | panda/models/dataset.py:391-396 | the count is zero exactly when no stored document carries the dataset's slug |
| Rows.CountIsScopeHits | panda/models/dataset.py:391-396 | the row count is the number of documents matching `dataset_slug:<slug>` |
| Rows.GetRow | panda/models/dataset.py:297-306 | a row comes back iff one is stored under the dataset's slug and the external id, and it is that document |
| Rows.GetRowAnswersPointQuery | panda/models/dataset.py:297-306 | the point query matches exactly the document under that key, so reading by key is what the query answers |
| Rows.MakeRow | panda/models/dataset.py:312 | the document carries the dataset's slug and the data; its external id is the given one or, when none is given, a generated one |
| Rows.CountAfterUpsert | panda/models/dataset.py:314 | adding a document raises the dataset's count by one iff its key is new and belongs to the dataset |
| Rows.AddRow | panda/models/dataset.py:308-330 | the document is upserted and nothing else in the collection changes; the count is recounted; the sample grows only below five rows; the summary is "added" iff the count changed; no other field of the record changes, and the creation date is kept once set |
| Rows.AddRowClassifies | panda/models/dataset.py:322-327 | over a consistent count, "1 row added" and a count one higher iff the key was new, else "1 row updated" and the same count |
| Rows.AddSameRowTwice | panda/models/dataset.py:308-330 | adding the same key again reads "1 row updated", keeps the count and stores the newer data |
| Rows.MakeRows | panda/models/dataset.py:338 | one document per batch entry, in order |
| Rows.RowKeys | panda/models/dataset.py:338-340 | every document of a batch contributes its key |
| Rows.RowKeysWitnessed | panda/models/dataset.py:338-340 | every key of a batch belongs to one of its documents |
| Rows.UpsertAll | panda/models/dataset.py:340 | after a bulk add the keys are the old ones plus the batch's; keys outside the batch keep their documents |
| Rows.UpsertAllLastWins | panda/models/dataset.py:340 | when a batch repeats a key, the last document written under it wins |
| Rows.CountAfterUpsertAll | panda/models/dataset.py:340-350 | a batch for one dataset raises its count by the number of batch keys not stored before |
| Rows.BatchSummary | panda/models/dataset.py:356-361 | the combined summary iff both counts are nonzero, "added" iff only rows were added, "updated" iff none were added |
| Rows.ExtendSample | panda/models/dataset.py:342-347 | the sample keeps its rows and is topped up from the head of the batch up to five; a full sample is left alone |
| Rows.AddManyRows | panda/models/dataset.py:332-365 | the batch's documents are upserted in order, the count is recounted, the sample is topped up, and the summary classifies added against updated; no other field of the record changes |
| Rows.AddManyRowsClassifies | panda/models/dataset.py:349-352 | over a consistent count, the "added" figure is the number of keys the batch introduced |
| Rows.ResendBatchOnlyUpdates | panda/models/dataset.py:332-365 | resending a batch whose keys are all stored keeps the count and reports the whole batch as updated |
| Rows.DeleteRow | panda/models/dataset.py:367-377 | exactly the addressed key is removed, the count is recounted and the summary reads "1 row deleted"; no other field of the record changes |
| Rows.DeleteRowRecounts | panda/models/dataset.py:367-377 | over a consistent count, deleting a stored row lowers the count by one and deleting a missing one leaves it |
| Rows.PurgeDataset | panda/models/dataset.py:383 | every row of the dataset is removed and the other datasets' rows are untouched |
| Rows.DeleteAllRowsAsWritten | panda/models/dataset.py:379-389 | the rows are purged first; the summary formatting raises TypeError iff no count was ever taken, and then the record is not saved; otherwise the count is zero, the summary names the prior count and no other field, `last_modified_by` included, changes |
| Rows.DeleteAllRowsWithoutCountFails | panda/models/dataset.py:379-389 | a dataset never counted loses all its rows and still ends in TypeError with no count |
| Rows.DeleteAllRows | panda/models/dataset.py:379-389 | corrected: always completes with the rows purged, the count zero and "All n rows deleted" for the prior count (zero if none); no other field, `last_modified_by` included, changes |
| Rows.DeleteAllRowsAgreesWhenCounted | panda/models/dataset.py:379-389 | where a count was taken, the corrected operation is the one as written |
| DataApi.IdRun | panda/api/data.py:60 | the greedy `[\w\d_-]+` run is the longest prefix of id characters |
| DataApi.MatchesExternalId | panda/api/data.py:60 | the match accepts exactly one or more id characters, optionally followed by one final line feed |
| DataApi.DataValidation | panda/api/data.py:53-63 | an external id that is JSON null or any other non-string value raises; otherwise `data` is flagged iff missing or empty and `external_id` iff present and malformed |
| DataApi.IsValid | panda/api/data.py:53-63 | a body passes iff it has non-empty data and any external id is well formed |
| DataApi.TrailingNewlineAccepted | panda/api/data.py:59-61 | "row-1\n" passes validation while "row 1" fails |
| DataApi.BundleErrorsOf | panda/api/data.py:165-176 | no schema reports only the missing columns; a pending initial import is reported otherwise; a field count differing from the schema's is reported with both numbers |
| DataApi.ValidateBundleData | panda/api/data.py:159-187 | the bundle is refused iff the initial import is pending, the schema is missing, or the field count differs |
| DataApi.NoColumnsOverridesPending | panda/api/data.py:167-171 | a dataset still importing its first upload, with no schema, is reported only as lacking columns |
| DataApi.GetResourceUri | panda/api/data.py:105-130 | a row has an address iff its external id is present and non-empty, and the address names its dataset and id |
| DataApi.GetDatasetFromKwargs | panda/api/data.py:132-157 | the URL's dataset is returned; a body naming another dataset is refused with BadRequest; an unknown slug raises DoesNotExist |
| DataApi.KwargsCannotRedirect | panda/api/data.py:132-157 | with datasets stored under their own slug, the dataset returned is always the one the URL names, and a body naming a dataset names that one |
| DataApi.ObjGet | panda/api/data.py:208-219 | an unknown dataset raises DoesNotExist; a missing row answers NotFound; otherwise the stored row |
| DataApi.ExternalIdFor | panda/api/data.py:229-234 | the body's external id takes precedence over the URL's; a JSON null gives none |
| DataApi.ObjCreate | panda/api/data.py:221-246 | the write happens iff routing and bundle validation pass, and it is `add_row` on the URL's dataset; a failure changes nothing |
| DataApi.CreatedRowIsAddressable | panda/api/data.py:221-246 | a row created with an external id is read back by `obj_get` at its canonical address |
| DataApi.PairOf | panda/api/data.py:312-315 | the pair of one object holds its data and its external id, none when it is missing or null |
| DataApi.ValidateObject | panda/api/data.py:307-317 | an object passes iff both validations pass |
| DataApi.ValidateAll | panda/api/data.py:306-317 | all objects pass iff each does; on success the pairs are in input order; on failure the error is the first failing object's |
| DataApi.PutList | panda/api/data.py:287-331 | no `objects` member is a bad request; otherwise the write happens iff the dataset exists and every object validates, and it is one `add_many_rows` of all pairs in order |
| DataApi.PutListAllOrNothing | panda/api/data.py:287-331 | one invalid object anywhere means nothing is written, and the error is that of the first invalid object |
| DataApi.SearchQuery | panda/api/data.py:455-458 | the dataset scope is conjoined with the user's query only when that query is non-empty |
| DataApi.SearchIsScoped | panda/api/data.py:455-458 | every search hit is a row of the dataset; without a query the hits are exactly its rows, with one exactly its rows matching the text |

## Left out

- `Dataset.save` timestamps, the lock token, generated row ids and task ids
  are parameters. The clock, `uuid` and the task-status table are not part of
  this model.
- The Unicode NFKD table is the parameter `nfkd`. The ASCII fold after it,
  and the regular expressions, are modelled exactly.
- The search engine's query language is not modelled. Queries are the
  structured `Rows.Query`. The user's `q` in the per-dataset search is one
  opaque conjunct matched by `textMatch`; the engine's parse of `q` is not
  modelled.
- DataApi.SearchIsScoped: treats the user's query as one conjunct. Lines
  455-458 build the query string by concatenation, and how the engine parses
  that string is not part of this model.
- Paging, `limit`/`offset`, result dehydration and the response bodies of the
  search and list endpoints are not modelled.
- The `commit` flag of `update_full_text` and of the search-engine writes is
  not modelled. Every write is taken as committed.
- Lifecycle.ImportHoldsLock: requires that the second read of the first lock
  saw the record locked. Another process could clear the lock between the
  write and that read.
- The background tasks (import, reindex, export, purge) are recorded as
  dispatched, not executed. Their own unlocking is not part of this model.
- Which import task fits an upload (`get_import_task_type_for_upload`) is the
  parameter `taskType`.
- `utils.solr.make_data_row` is reduced to slug, external id and data. Typed
  column fields and the full-text field of a row document are not modelled.
- The routing machinery of the web framework is not modelled: URI
  resolution, deserialisation, `build_bundle`, the error bodies.
  `Body.datasetSlug` is the slug a body's `dataset` URI resolves to.
- DataApi.ObjCreate: requires the body's `data` to be present. The
  framework's `is_valid` runs before `obj_create`, and that call is not
  part of this model.
- DataApi.ExternalIdFor: states nothing for an external id that is a JSON
  number, boolean, list or object. `is_valid` refuses such a body before
  `obj_create` runs, and `make_data_row`, which would receive the value, is
  not part of this model.
- A `data` member that is JSON null is modelled as missing; both are
  refused. A `data` member that is not a list is not modelled.
- `obj_delete`, `obj_delete_list`, `get_list` and `search_all_data` are not
  part of this model.
- `update_full_text` on an instance that was never saved is not modelled.
  The category manager refuses an instance without a primary key (line
  158) before `creation_date` is read.
- `Dataset.delete` on an instance that was never saved is not modelled.
  Django refuses to delete an instance without a primary key.
- The database and the search engine are modelled as consistent and always
  available. Network failures are not modelled.

## Findings

| source | as written | input that shows it | evidently intended | confidence | as-written member | corrected member |
|---|---|---|---|---|---|---|
| panda/models/dataset.py:107-134 | `lock` reads, writes its token, and reads again; it wins if the token read back is its own | two processes on an unlocked record, scheduled read A, read B, write A, check A, write B, check B: both reach the end without an error | at most one process holds the lock at a time | not executed | LockRace.TwoProcessesBothAcquire | LockRace.CasAtMostOneWinner |
| panda/models/dataset.py:379-389 | `'All %i rows deleted' % old_row_count` with `old_row_count = self.row_count`, after the rows were purged | `delete_all_rows` on a dataset whose `row_count` is None (created, nothing imported or added): the rows are gone and a TypeError is raised, the record is not saved | the prior count is read as `(old_row_count or 0)`, as `add_row` and `add_many_rows` do | not executed | Rows.DeleteAllRowsWithoutCountFails | Rows.DeleteAllRows |
