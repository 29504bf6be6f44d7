/**
 * The records of the dataset catalog: a dataset with its column schema, lock
 * state and denormalised summary fields; the uploads it imports; the rows and
 * catalog documents kept in the two search-engine collections; the side
 * effects (task records, task dispatches, abort requests) the lifecycle
 * produces; and the errors it raises.
 */
module Entities {
  import opened Basics
  import Text

  type TaskId = nat
  type UploadId = nat

  datatype User = User(id: nat, firstName: string, lastName: string, email: string)

  /** One entry of `column_schema`. `typ` is the type tag (`unicode`, `int`, ...);
      `indexedName` is the derived search field, absent unless `indexed`. */
  datatype Column = Column(
    name: string,
    typ: string,
    indexed: bool,
    indexedName: Option<string>,
    min: Option<string>,
    max: Option<string>)

  /** The human-readable summary kept in `last_modification`, in structured form. */
  datatype Modification =
    | RowAdded
    | RowUpdated
    | RowsAdded(added: int)
    | RowsUpdated(updated: int)
    | RowsAddedAndUpdated(added: int, updated: int)
    | RowDeleted
    | AllDeleted(count: int)

  /** The text stored for a modification summary: lines 327, 357-361, 376 and 388. */
  function Render(m: Modification): (r: string)
    ensures |r| > 0
    ensures r[0] == 'A' <==> m.AllDeleted?
  {
    match m
    case RowAdded => "1 row added"
    case RowUpdated => "1 row updated"
    case RowsAdded(a) => Text.IntToString(a) + " rows added"
    case RowsUpdated(u) => Text.IntToString(u) + " rows updated"
    case RowsAddedAndUpdated(a, u) => Text.IntToString(a) + " rows added and " + Text.IntToString(u) + " updated"
    case RowDeleted => "1 row deleted"
    case AllDeleted(n) => "All " + Text.IntToString(n) + " rows deleted"
  }

  /** The leading number of a summary that starts with one. */
  function SummaryCount(m: Modification): (r: string)
    requires !m.AllDeleted?
    ensures Text.NoSpace(r)
  {
    match m
    case RowsAdded(a) => Text.IntToString(a)
    case RowsUpdated(u) => Text.IntToString(u)
    case RowsAddedAndUpdated(a, _) => Text.IntToString(a)
    case _ => "1"
  }

  /** What follows the leading number, starting at the space after it. */
  function SummaryRest(m: Modification): (r: string)
    requires !m.AllDeleted?
    ensures |r| > 0 && r[0] == ' '
    ensures Render(m) == SummaryCount(m) + r
  {
    match m
    case RowAdded => " row added"
    case RowUpdated => " row updated"
    case RowsAdded(_) => " rows added"
    case RowsUpdated(_) => " rows updated"
    case RowsAddedAndUpdated(_, u) => " rows added and " + Text.IntToString(u) + " updated"
    case RowDeleted => " row deleted"
  }

  /** The text after the leading number tells the kind of summary and, for the
      combined one, the number updated. */
  lemma SummaryRestDetermines(m1: Modification, m2: Modification)
    requires !m1.AllDeleted? && !m2.AllDeleted?
    requires SummaryRest(m1) == SummaryRest(m2)
    ensures m1.RowAdded? == m2.RowAdded? && m1.RowUpdated? == m2.RowUpdated?
    ensures m1.RowsAdded? == m2.RowsAdded? && m1.RowsUpdated? == m2.RowsUpdated?
    ensures m1.RowDeleted? == m2.RowDeleted?
    ensures m1.RowsAddedAndUpdated? ==> m2.RowsAddedAndUpdated? && m1.updated == m2.updated
  {
    var t := SummaryRest(m1);
    if m1.RowsAddedAndUpdated? {
      assert |t| > 13;
      assert t[16..|t| - 8] == Text.IntToString(m1.updated);
      assert t[16..|t| - 8] == Text.IntToString(m2.updated);
      Text.IntToStringInjective(m1.updated, m2.updated);
    }
  }

  /** Distinct summaries are stored as distinct texts, so `last_modification`
      determines the modification it records. */
  lemma RenderInjective(m1: Modification, m2: Modification)
    requires Render(m1) == Render(m2)
    ensures m1 == m2
  {
    if m1.AllDeleted? || m2.AllDeleted? {
      var t := Render(m1);
      assert Text.IntToString(m1.count) == t[4..|t| - 13];
      assert Text.IntToString(m2.count) == t[4..|t| - 13];
      Text.IntToStringInjective(m1.count, m2.count);
    } else {
      Text.SplitAtSpace(SummaryCount(m1), SummaryRest(m1), SummaryCount(m2), SummaryRest(m2));
      SummaryRestDetermines(m1, m2);
      match m1
      case RowsAdded(a) => Text.IntToStringInjective(a, m2.added);
      case RowsUpdated(u) => Text.IntToStringInjective(u, m2.updated);
      case RowsAddedAndUpdated(a, _) => Text.IntToStringInjective(a, m2.added);
      case _ =>
    }
  }

  /** The persisted dataset record. `rowCount` is `None` until a count was
      first taken; `lockedAt` is the lock token. */
  datatype Dataset = Dataset(
    slug: string,
    name: string,
    description: string,
    initialUpload: Option<UploadId>,
    columnSchema: Option<seq<Column>>,
    sampleData: Option<seq<seq<string>>>,
    rowCount: Option<int>,
    currentTask: Option<TaskId>,
    creationDate: Option<Timestamp>,
    creator: User,
    lastModified: Option<Timestamp>,
    lastModification: Option<Modification>,
    lastModifiedBy: Option<User>,
    locked: bool,
    lockedAt: Option<Timestamp>)

  /** `Dataset.save`: stamps the creation date the first time, then writes the
      whole record. */
  function Save(d: Dataset, now: Timestamp): (r: Dataset)
    ensures r.creationDate.Some?
    ensures d.creationDate.Some? ==> r == d
    ensures d.creationDate.None? ==> r.creationDate == Some(now)
    ensures r == d.(creationDate := r.creationDate)
  {
    if d.creationDate.None? then d.(creationDate := Some(now)) else d
  }

  /** The creation date is stamped once: saving a saved record again, at any
      later time, changes nothing. */
  lemma SaveStable(d: Dataset, now: Timestamp, later: Timestamp)
    ensures Save(Save(d, now), later) == Save(d, now)
    ensures Save(d, now).creationDate == Some(if d.creationDate.Some? then d.creationDate.value else now)
  {
  }

  /** What the upload subsystem reports about an uploaded file. */
  datatype Upload = Upload(
    id: UploadId,
    imported: bool,
    columns: seq<string>,
    guessedTypes: seq<string>,
    sampleData: Option<seq<seq<string>>>)

  /** A document of the data collection: one row of one dataset. */
  datatype Row = Row(datasetSlug: string, externalId: string, data: seq<string>)

  /** A document of the datasets (catalog) collection. */
  datatype CatalogDoc = CatalogDoc(
    slug: string,
    creationDate: Timestamp,
    categories: seq<int>,
    fullText: string)

  datatype Category = Category(id: int, name: string)

  /** The background task invocations the lifecycle hands to the task queue. */
  datatype TaskCall =
    | ImportTask(taskName: string, slug: string, uploadId: UploadId, externalIdFieldIndex: Option<int>)
    | ReindexTask(slug: string)
    | ExportTask(slug: string, filename: Option<string>)
    | PurgeTask(slug: string)

  /** Side effects outside the dataset record and the catalog collection. */
  datatype Effect =
    | TaskCreated(id: TaskId, taskName: string, creator: User)
    | Dispatched(call: TaskCall, taskId: Option<TaskId>)
    | AbortRequested(id: TaskId)

  const ReindexTaskName: string := "panda.tasks.reindex"

  datatype ImportProblem = AlreadyImported | UnsupportedFileType | ColumnsMismatch

  /** The exceptions the model layer raises. `IndexError`, `TypeError` and
      `AttributeError` are Python's, raised by list indexing past the end, by
      indexing, iterating or formatting `None`, and by a method call on `None`. */
  datatype Error =
    | DoesNotExist
    | DatasetLocked
    | DataImportError(problem: ImportProblem)
    | IndexError
    | TypeError
    | AttributeError

  /** Everything a lifecycle operation can read or change: the in-memory
      instance it runs on, the persisted record (absent once deleted), the
      catalog collection keyed by slug, and the side effects issued so far. */
  datatype State = State(
    self: Dataset,
    stored: Option<Dataset>,
    catalog: map<string, CatalogDoc>,
    effects: seq<Effect>)

  /** The state after an operation and the exception it raised, if any. */
  datatype Outcome = Outcome(after: State, raised: Option<Error>)

  /** `self.save()` inside an operation: the instance and the record agree afterwards. */
  function Persist(s: State, now: Timestamp): (r: State)
    ensures r.stored == Some(r.self)
    ensures r.self == Save(s.self, now)
    ensures r.catalog == s.catalog && r.effects == s.effects
  {
    var d := Save(s.self, now);
    s.(self := d, stored := Some(d))
  }
}
