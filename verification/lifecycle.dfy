/**
 * The dataset lifecycle (`import_data`, `reindex_data`, `export_data`,
 * `delete` and the post-delete hook).
 *
 * Each of the first three takes the editing lock, checks its preconditions,
 * edits the in-memory instance, records a task, saves and dispatches the
 * task; the lock stays held for the task to release. A failure of the lock
 * itself propagates untouched; any failure after it unlocks (which saves the
 * whole instance, partial edits included) and re-raises.
 */
module Lifecycle {
  import opened Basics
  import opened Entities
  import opened Locking
  import opened ColumnNames

  /** The `except: self.unlock(); raise` clauses. */
  function Abort(s: State, e: Error, now: Timestamp): (o: Outcome)
    ensures o.raised == Some(e)
    ensures o.after.stored == Some(o.after.self) && !o.after.self.locked
    ensures o.after.catalog == s.catalog && o.after.effects == s.effects
    ensures o.after.self.(locked := s.self.locked, creationDate := s.self.creationDate) == s.self
    ensures o.after.self.creationDate == Some(s.self.creationDate.GetOr(now))
  {
    Outcome(Unlock(s, now), Some(e))
  }

  /** Records a task as the current one, saves, and dispatches it under the task's id. */
  function Launch(s: State, user: User, taskName: string, call: TaskCall, taskId: TaskId, now: Timestamp): (r: State)
    ensures r.stored == Some(r.self)
    ensures r.self == Save(s.self.(currentTask := Some(taskId)), now)
    ensures r.effects == s.effects + [TaskCreated(taskId, taskName, user), Dispatched(call, Some(taskId))]
    ensures r.catalog == s.catalog
  {
    var recorded := s.(self := s.self.(currentTask := Some(taskId)),
                       effects := s.effects + [TaskCreated(taskId, taskName, user)]);
    var saved := Persist(recorded, now);
    saved.(effects := saved.effects + [Dispatched(call, Some(taskId))])
  }

  /** The lock was taken. */
  predicate Acquired(s: State, token: Timestamp, reread: Option<Dataset>, now: Timestamp) {
    Lock(s, token, reread, now).raised.None?
  }

  // ---------------------------------------------------------------------------
  // import_data
  // ---------------------------------------------------------------------------

  /** A schema entry for an uploaded column: unindexed, unnamed, no range. */
  function NewColumn(name: string, typ: string): Column {
    Column(name, typ, false, None, None, None)
  }

  /** The schema built column by column from the upload (lines 215-225); when
      there are fewer guessed types than columns the loop stops with an
      `IndexError` after the columns that had one. */
  function InitialSchema(columns: seq<string>, types: seq<string>): (r: seq<Column>)
    ensures |r| == if |types| < |columns| then |types| else |columns|
    ensures forall i :: 0 <= i < |r| ==> r[i] == NewColumn(columns[i], types[i])
  {
    var n := if |types| < |columns| then |types| else |columns|;
    seq(n, i requires 0 <= i < n => NewColumn(columns[i], types[i]))
  }

  function SchemaNames(schema: seq<Column>): (r: seq<string>)
    ensures |r| == |schema|
    ensures forall i :: 0 <= i < |r| ==> r[i] == schema[i].name
  {
    seq(|schema|, i requires 0 <= i < |schema| => schema[i].name)
  }

  /** `if self.column_schema:` — present and non-empty. */
  predicate HasSchema(d: Dataset) {
    d.columnSchema.Some? && |d.columnSchema.value| > 0
  }

  /** The checks of lines 201-213 in order, against the locked instance. */
  function ImportProblemOf(d: Dataset, upload: Upload, taskType: Option<string>): (r: Option<ImportProblem>)
    ensures r == Some(AlreadyImported) <==> upload.imported
    ensures r == Some(UnsupportedFileType) <==> !upload.imported && taskType.None?
    ensures r == Some(ColumnsMismatch) <==>
              !upload.imported && taskType.Some? && HasSchema(d) && upload.columns != SchemaNames(d.columnSchema.value)
  {
    if upload.imported then Some(AlreadyImported)
    else if taskType.None? then Some(UnsupportedFileType)
    else if HasSchema(d) && upload.columns != SchemaNames(d.columnSchema.value) then Some(ColumnsMismatch)
    else None
  }

  /** The instance edits of lines 214-232 on a successful import. */
  function Imported(d: Dataset, upload: Upload): (r: Dataset)
    requires HasSchema(d) || |upload.columns| <= |upload.guessedTypes|
    ensures HasSchema(d) ==> r.columnSchema == d.columnSchema
    ensures !HasSchema(d) ==> r.columnSchema == Some(InitialSchema(upload.columns, upload.guessedTypes))
    ensures r.sampleData == if d.sampleData.None? then upload.sampleData else d.sampleData
    ensures r.initialUpload == if d.initialUpload.None? && d.rowCount.None? then Some(upload.id) else d.initialUpload
    ensures r == d.(columnSchema := r.columnSchema, sampleData := r.sampleData, initialUpload := r.initialUpload)
  {
    var schema := if HasSchema(d) then d.columnSchema else Some(InitialSchema(upload.columns, upload.guessedTypes));
    d.(columnSchema := schema,
       sampleData := if d.sampleData.None? then upload.sampleData else d.sampleData,
       initialUpload := if d.initialUpload.None? && d.rowCount.None? then Some(upload.id) else d.initialUpload)
  }

  /** `import_data`, lines 194-244. `taskType` is the import task the upload's
      file type resolves to, by name; `taskId` the id the new task record gets. */
  function ImportData(s: State, user: User, upload: Upload, taskType: Option<string>,
                      externalIdFieldIndex: Option<int>, token: Timestamp, reread: Option<Dataset>,
                      taskId: TaskId, now: Timestamp): (o: Outcome)
    ensures o.after.catalog == s.catalog
    ensures !Acquired(s, token, reread, now) ==> o == Lock(s, token, reread, now)
    ensures Acquired(s, token, reread, now) && o.raised.Some? ==>
              && o.after.stored == Some(o.after.self) && !o.after.self.locked
              && o.after.self.lockedAt == Some(token)
              && o.after.effects == s.effects
              && o.after.self.(columnSchema := s.self.columnSchema, locked := s.self.locked,
                               lockedAt := s.self.lockedAt, creationDate := s.self.creationDate) == s.self
    ensures o.raised.None? <==>
              && Acquired(s, token, reread, now)
              && ImportProblemOf(s.self, upload, taskType).None?
              && (HasSchema(s.self) || |upload.columns| <= |upload.guessedTypes|)
    ensures o.raised.None? ==>
              && o.after.stored == Some(o.after.self)
              && reread.Some? && o.after.self.locked == reread.value.locked
              && o.after.self.lockedAt == Some(token)
              && o.after.self.currentTask == Some(taskId)
              && o.after.effects == s.effects + [
                   TaskCreated(taskId, taskType.value, user),
                   Dispatched(ImportTask(taskType.value, s.self.slug, upload.id, externalIdFieldIndex), Some(taskId))]
              && o.after.self.(currentTask := s.self.currentTask, locked := s.self.locked,
                               lockedAt := s.self.lockedAt, creationDate := s.self.creationDate)
                 == Imported(s.self, upload)
  {
    var locked := Lock(s, token, reread, now);
    if locked.raised.Some? then locked
    else
      var s1 := locked.after;
      var d := s1.self;
      var problem := ImportProblemOf(d, upload, taskType);
      if problem.Some? then Abort(s1, DataImportError(problem.value), now)
      else if !HasSchema(d) && |upload.guessedTypes| < |upload.columns| then
        Abort(s1.(self := d.(columnSchema := Some(InitialSchema(upload.columns, upload.guessedTypes)))), IndexError, now)
      else
        var name := taskType.value;
        var d1 := Imported(d, upload);
        Outcome(Launch(s1.(self := d1), user, name, ImportTask(name, d1.slug, upload.id, externalIdFieldIndex), taskId, now), None)
  }

  /** The three `DataImportError` rejections, checked in this order, each
      release the lock and leave the schema, sample and initial upload as they were. */
  lemma ImportRejections(s: State, user: User, upload: Upload, taskType: Option<string>,
                         externalIdFieldIndex: Option<int>, token: Timestamp, reread: Option<Dataset>,
                         taskId: TaskId, now: Timestamp)
    requires Acquired(s, token, reread, now)
    requires upload.imported || taskType.None? || (HasSchema(s.self) && upload.columns != SchemaNames(s.self.columnSchema.value))
    ensures var o := ImportData(s, user, upload, taskType, externalIdFieldIndex, token, reread, taskId, now);
            && o.raised == Some(DataImportError(
                 if upload.imported then AlreadyImported
                 else if taskType.None? then UnsupportedFileType
                 else ColumnsMismatch))
            && o.after.stored.Some? && !o.after.stored.value.locked
            && o.after.stored.value.columnSchema == s.self.columnSchema
            && o.after.stored.value.sampleData == s.self.sampleData
            && o.after.stored.value.initialUpload == s.self.initialUpload
            && o.after.effects == s.effects
  {
  }

  /** A first import (no schema yet) with a type guessed for every column
      succeeds and builds the schema from the upload, column by column. */
  lemma FirstImportBuildsSchema(s: State, user: User, upload: Upload, taskName: string,
                                externalIdFieldIndex: Option<int>, token: Timestamp, reread: Option<Dataset>,
                                taskId: TaskId, now: Timestamp)
    requires Acquired(s, token, reread, now)
    requires !upload.imported && !HasSchema(s.self)
    requires |upload.columns| <= |upload.guessedTypes|
    ensures var o := ImportData(s, user, upload, Some(taskName), externalIdFieldIndex, token, reread, taskId, now);
            var d := o.after.stored.value;
            && o.raised.None?
            && d.columnSchema.Some? && |d.columnSchema.value| == |upload.columns|
            && (forall i :: 0 <= i < |upload.columns| ==>
                  d.columnSchema.value[i] == Column(upload.columns[i], upload.guessedTypes[i], false, None, None, None))
            && d.sampleData == (if s.self.sampleData.None? then upload.sampleData else s.self.sampleData)
            && d.initialUpload == (if s.self.initialUpload.None? && s.self.rowCount.None? then Some(upload.id)
                                   else s.self.initialUpload)
  {
  }

  /** A further upload appended to a dataset whose schema names the upload's
      columns in order: the import succeeds and keeps the schema; the sample
      is kept when there was one, and the initial upload is only set while
      there was neither an initial upload nor a count. */
  lemma ImportAppendKeepsSchema(s: State, user: User, upload: Upload, taskName: string,
                                externalIdFieldIndex: Option<int>, token: Timestamp, reread: Option<Dataset>,
                                taskId: TaskId, now: Timestamp)
    requires Acquired(s, token, reread, now)
    requires !upload.imported && HasSchema(s.self)
    requires upload.columns == SchemaNames(s.self.columnSchema.value)
    ensures var o := ImportData(s, user, upload, Some(taskName), externalIdFieldIndex, token, reread, taskId, now);
            var d := o.after.stored.value;
            && o.raised.None?
            && d.columnSchema == s.self.columnSchema
            && d.rowCount == s.self.rowCount
            && d.sampleData == (if s.self.sampleData.None? then upload.sampleData else s.self.sampleData)
            && d.initialUpload == (if s.self.initialUpload.None? && s.self.rowCount.None? then Some(upload.id)
                                   else s.self.initialUpload)
  {
  }

  /** Too few guessed types: the loop raises `IndexError`, and unlocking saves
      the schema built so far, one entry per guessed type. */
  lemma ImportIndexErrorKeepsPartialSchema(s: State, user: User, upload: Upload, taskName: string,
                                           externalIdFieldIndex: Option<int>, token: Timestamp, reread: Option<Dataset>,
                                           taskId: TaskId, now: Timestamp)
    requires Acquired(s, token, reread, now)
    requires !upload.imported && !HasSchema(s.self)
    requires |upload.guessedTypes| < |upload.columns|
    ensures var o := ImportData(s, user, upload, Some(taskName), externalIdFieldIndex, token, reread, taskId, now);
            && o.raised == Some(IndexError)
            && o.after.stored.Some? && !o.after.stored.value.locked
            && o.after.stored.value.columnSchema.Some?
            && |o.after.stored.value.columnSchema.value| == |upload.guessedTypes|
  {
  }

  /** After a successful import the lock stays held (unless another process
      cleared it before the second read), so a second import started before
      the task releases it is refused without writing. */
  lemma ImportHoldsLock(s: State, user: User, upload: Upload, taskType: Option<string>,
                        externalIdFieldIndex: Option<int>, token: Timestamp, reread: Option<Dataset>,
                        taskId: TaskId, now: Timestamp,
                        upload2: Upload, taskType2: Option<string>, token2: Timestamp, reread2: Option<Dataset>,
                        taskId2: TaskId, now2: Timestamp)
    requires ImportData(s, user, upload, taskType, externalIdFieldIndex, token, reread, taskId, now).raised.None?
    requires reread.Some? && reread.value.locked
    ensures var first := ImportData(s, user, upload, taskType, externalIdFieldIndex, token, reread, taskId, now);
            var second := ImportData(first.after, user, upload2, taskType2, externalIdFieldIndex, token2, reread2, taskId2, now2);
            && second.raised == Some(DatasetLocked)
            && second.after.stored == first.after.stored
            && second.after.effects == first.after.effects
  {
  }

  // ---------------------------------------------------------------------------
  // reindex_data
  // ---------------------------------------------------------------------------

  /** Lines 252-254: `indexed` of column `i` set from `typed[i]`, for every `i`
      both sequences cover. */
  function SetIndexed(schema: seq<Column>, typed: seq<bool>): (r: seq<Column>)
    ensures |r| == |schema|
    ensures forall i :: 0 <= i < |schema| && i < |typed| ==> r[i] == schema[i].(indexed := typed[i])
    ensures forall i :: |typed| <= i < |schema| ==> r[i] == schema[i]
  {
    seq(|schema|, i requires 0 <= i < |schema| => if i < |typed| then schema[i].(indexed := typed[i]) else schema[i])
  }

  /** Lines 256-258: `type` of column `i` set from `types[i]` likewise. */
  function SetTypes(schema: seq<Column>, types: seq<string>): (r: seq<Column>)
    ensures |r| == |schema|
    ensures forall i :: 0 <= i < |schema| && i < |types| ==> r[i] == schema[i].(typ := types[i])
    ensures forall i :: |types| <= i < |schema| ==> r[i] == schema[i]
  {
    seq(|schema|, i requires 0 <= i < |schema| => if i < |types| then schema[i].(typ := types[i]) else schema[i])
  }

  /** `reindex_data`, lines 246-274. An absent override is the empty sequence
      (both are falsy). `None` as the schema fails the first subscript or, with
      no override, the loop over the schema in the name derivation. */
  function ReindexData(s: State, user: User, typed: seq<bool>, types: seq<string>, nfkd: string -> string,
                       token: Timestamp, reread: Option<Dataset>, taskId: TaskId, now: Timestamp): (o: Outcome)
    ensures o.after.catalog == s.catalog
    ensures !Acquired(s, token, reread, now) ==> o == Lock(s, token, reread, now)
    ensures Acquired(s, token, reread, now) && o.raised.Some? ==>
              && o.after.stored == Some(o.after.self) && !o.after.self.locked
              && o.after.effects == s.effects
              && o.raised == Some(if s.self.columnSchema.None? then TypeError else IndexError)
              && o.after.self.lockedAt == Some(token)
              && o.after.self.(columnSchema := s.self.columnSchema, locked := s.self.locked,
                               lockedAt := s.self.lockedAt, creationDate := s.self.creationDate) == s.self
    ensures o.raised.None? <==>
              && Acquired(s, token, reread, now)
              && s.self.columnSchema.Some?
              && |typed| <= |s.self.columnSchema.value|
              && |types| <= |s.self.columnSchema.value|
    ensures o.raised.None? ==>
              && o.after.stored == Some(o.after.self)
              && reread.Some? && o.after.self.locked == reread.value.locked
              && o.after.self.lockedAt == Some(token)
              && o.after.self.currentTask == Some(taskId)
              && o.after.effects == s.effects + [
                   TaskCreated(taskId, ReindexTaskName, user),
                   Dispatched(ReindexTask(s.self.slug), Some(taskId))]
              && o.after.self.columnSchema ==
                   Some(TypedColumnNames(nfkd, SetTypes(SetIndexed(s.self.columnSchema.value, typed), types)))
              && o.after.self.(columnSchema := s.self.columnSchema, currentTask := s.self.currentTask,
                               locked := s.self.locked, lockedAt := s.self.lockedAt,
                               creationDate := s.self.creationDate) == s.self
  {
    var locked := Lock(s, token, reread, now);
    if locked.raised.Some? then locked
    else
      var s1 := locked.after;
      var d := s1.self;
      if d.columnSchema.None? then Abort(s1, TypeError, now)
      else
        var schema := d.columnSchema.value;
        var indexed := SetIndexed(schema, typed);
        if |typed| > |schema| then Abort(s1.(self := d.(columnSchema := Some(indexed))), IndexError, now)
        else
          var retyped := SetTypes(indexed, types);
          if |types| > |schema| then Abort(s1.(self := d.(columnSchema := Some(retyped))), IndexError, now)
          else
            var d1 := d.(columnSchema := Some(TypedColumnNames(nfkd, retyped)));
            Outcome(Launch(s1.(self := d1), user, ReindexTaskName, ReindexTask(d1.slug), taskId, now), None)
  }

  /** A successful reindex overrides `indexed` and `type` exactly at the
      positions the overrides cover, keeps every column's name, and gives an
      indexed name to exactly the columns now indexed. */
  lemma ReindexOverridesPositions(s: State, user: User, typed: seq<bool>, types: seq<string>, nfkd: string -> string,
                                  token: Timestamp, reread: Option<Dataset>, taskId: TaskId, now: Timestamp)
    requires ReindexData(s, user, typed, types, nfkd, token, reread, taskId, now).raised.None?
    ensures var prior := s.self.columnSchema.value;
            var r := ReindexData(s, user, typed, types, nfkd, token, reread, taskId, now).after.stored.value.columnSchema;
            && r.Some? && |r.value| == |prior|
            && forall i :: 0 <= i < |prior| ==>
                 && r.value[i].name == prior[i].name
                 && r.value[i].indexed == (if i < |typed| then typed[i] else prior[i].indexed)
                 && r.value[i].typ == (if i < |types| then types[i] else prior[i].typ)
                 && (r.value[i].indexedName.Some? <==> r.value[i].indexed)
  {
  }

  /** An override longer than the schema raises `IndexError`; unlocking saves
      the override applied to every column of the schema. */
  lemma ReindexLongOverrideKeepsPartialEdit(s: State, user: User, typed: seq<bool>, nfkd: string -> string,
                                            token: Timestamp, reread: Option<Dataset>, taskId: TaskId, now: Timestamp)
    requires Acquired(s, token, reread, now)
    requires s.self.columnSchema.Some? && |typed| > |s.self.columnSchema.value|
    ensures var prior := s.self.columnSchema.value;
            var o := ReindexData(s, user, typed, [], nfkd, token, reread, taskId, now);
            && o.raised == Some(IndexError)
            && !o.after.stored.value.locked
            && o.after.stored.value.columnSchema.Some?
            && |o.after.stored.value.columnSchema.value| == |prior|
            && forall i :: 0 <= i < |prior| ==> o.after.stored.value.columnSchema.value[i].indexed == typed[i]
  {
  }

  // ---------------------------------------------------------------------------
  // export_data
  // ---------------------------------------------------------------------------

  /** `export_data`, lines 276-295: the export task is recorded and dispatched
      with the requested file name. `exportTaskName` is `ExportCSVTask.name`,
      which is defined outside the dataset model. */
  function ExportData(s: State, user: User, exportTaskName: string, filename: Option<string>, token: Timestamp,
                      reread: Option<Dataset>, taskId: TaskId, now: Timestamp): (o: Outcome)
    ensures o.after.catalog == s.catalog
    ensures o.raised == Lock(s, token, reread, now).raised
    ensures !Acquired(s, token, reread, now) ==> o == Lock(s, token, reread, now)
    ensures o.raised.None? ==>
              && o.after.stored == Some(o.after.self)
              && reread.Some? && o.after.self.locked == reread.value.locked
              && o.after.self.lockedAt == Some(token)
              && o.after.self.currentTask == Some(taskId)
              && o.after.effects == s.effects + [
                   TaskCreated(taskId, exportTaskName, user),
                   Dispatched(ExportTask(s.self.slug, filename), Some(taskId))]
              && o.after.self.(currentTask := s.self.currentTask, locked := s.self.locked,
                               lockedAt := s.self.lockedAt, creationDate := s.self.creationDate) == s.self
  {
    var locked := Lock(s, token, reread, now);
    if locked.raised.Some? then locked
    else
      var s1 := locked.after;
      Outcome(Launch(s1, user, exportTaskName, ExportTask(s1.self.slug, filename), taskId, now), None)
  }

  // ---------------------------------------------------------------------------
  // delete and the post-delete hook
  // ---------------------------------------------------------------------------

  /** `on_dataset_delete`, lines 398-405: dispatches the purge of the dataset's
      rows (no task record) and removes its catalog document. */
  function OnDatasetDelete(s: State, slug: string): (r: State)
    ensures r.effects == s.effects + [Dispatched(PurgeTask(slug), None)]
    ensures slug !in r.catalog
    ensures forall k :: k in r.catalog <==> k in s.catalog && k != slug
    ensures forall k :: k in r.catalog ==> r.catalog[k] == s.catalog[k]
    ensures r.self == s.self && r.stored == s.stored
  {
    s.(effects := s.effects + [Dispatched(PurgeTask(slug), None)],
       catalog := map k | k in s.catalog && k != slug :: s.catalog[k])
  }

  /** `delete`, lines 184-192, followed by the hook: asks the current task, if
      any, to abort, deletes the record, then purges. */
  function Delete(s: State): (r: State)
    ensures r.stored.None?
    ensures s.self.currentTask.Some? ==>
              r.effects == s.effects + [AbortRequested(s.self.currentTask.value), Dispatched(PurgeTask(s.self.slug), None)]
    ensures s.self.currentTask.None? ==> r.effects == s.effects + [Dispatched(PurgeTask(s.self.slug), None)]
    ensures s.self.slug !in r.catalog
    ensures forall k :: k in r.catalog <==> k in s.catalog && k != s.self.slug
    ensures forall k :: k in r.catalog ==> r.catalog[k] == s.catalog[k]
    ensures r.self == s.self
  {
    var aborted := if s.self.currentTask.Some? then s.(effects := s.effects + [AbortRequested(s.self.currentTask.value)]) else s;
    OnDatasetDelete(aborted.(stored := None), s.self.slug)
  }

  /** Once deleted, every locking operation fails with `DoesNotExist` and changes nothing. */
  lemma DeletedDatasetRefusesOperations(s: State, user: User, upload: Upload, taskType: Option<string>,
                                        externalIdFieldIndex: Option<int>, typed: seq<bool>, types: seq<string>,
                                        nfkd: string -> string, exportTaskName: string, filename: Option<string>,
                                        token: Timestamp, reread: Option<Dataset>, taskId: TaskId, now: Timestamp)
    ensures var gone := Delete(s);
            && ImportData(gone, user, upload, taskType, externalIdFieldIndex, token, reread, taskId, now) == Outcome(gone, Some(DoesNotExist))
            && ReindexData(gone, user, typed, types, nfkd, token, reread, taskId, now) == Outcome(gone, Some(DoesNotExist))
            && ExportData(gone, user, exportTaskName, filename, token, reread, taskId, now) == Outcome(gone, Some(DoesNotExist))
  {
  }
}
