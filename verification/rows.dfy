/**
 * Row-level synchronisation between a dataset record and the data collection
 * of the search engine (`get_row`, `add_row`, `add_many_rows`, `delete_row`,
 * `delete_all_rows`, `_count_rows`).
 *
 * The data collection is a finite map from (dataset slug, external id) to the
 * row document; adding a document with a key already present overwrites it.
 * `row_count` is a cache of the number of keys carrying the dataset's slug
 * and is recounted after every write.
 */
module Rows {
  import opened Basics
  import opened Entities

  type Key = (string, string)
  type DataIndex = map<Key, Row>

  function KeyOf(r: Row): Key {
    (r.datasetSlug, r.externalId)
  }

  /** Every document is stored under its own (slug, external id). */
  ghost predicate WellKeyed(index: DataIndex) {
    forall k :: k in index ==> KeyOf(index[k]) == k
  }

  // ---------------------------------------------------------------------------
  // Queries against the data collection
  // ---------------------------------------------------------------------------

  /** The query expressions the model issues: exact-match field filters, their
      conjunction, and a user's free text (matched by an uninterpreted relation). */
  datatype Query =
    | SlugIs(slug: string)
    | ExternalIdIs(id: string)
    | And(left: Query, right: Query)
    | FreeText(text: string)

  /** The query string sent to the engine. */
  function RenderQuery(q: Query): string {
    match q
    case SlugIs(s) => "dataset_slug:" + s
    case ExternalIdIs(id) => "external_id:" + id
    case And(l, r) => RenderQuery(l) + " AND " + RenderQuery(r)
    case FreeText(t) => t
  }

  predicate Matches(row: Row, q: Query, textMatch: (Row, string) -> bool) {
    match q
    case SlugIs(s) => row.datasetSlug == s
    case ExternalIdIs(id) => row.externalId == id
    case And(l, r) => Matches(row, l, textMatch) && Matches(row, r, textMatch)
    case FreeText(t) => textMatch(row, t)
  }

  /** The point query of `get_row` and `delete_row`. */
  function RowQuery(slug: string, externalId: string): (q: Query)
    ensures RenderQuery(q) == "dataset_slug:" + slug + " AND external_id:" + externalId
  {
    And(SlugIs(slug), ExternalIdIs(externalId))
  }

  /** The keys of documents matching `q`. */
  ghost function Hits(index: DataIndex, q: Query, textMatch: (Row, string) -> bool): set<Key> {
    set k | k in index && Matches(index[k], q, textMatch)
  }

  // ---------------------------------------------------------------------------
  // Counting and reading
  // ---------------------------------------------------------------------------

  /** The keys of one dataset's rows. */
  function DatasetKeys(index: DataIndex, slug: string): (r: set<Key>)
    ensures forall k :: k in r <==> k in index && k.0 == slug
  {
    set k | k in index && k.0 == slug
  }

  /** `_count_rows`, lines 391-396: how many rows the engine holds for `slug`. */
  function CountRows(index: DataIndex, slug: string): (n: nat)
    ensures n == 0 <==> forall k :: k in index ==> k.0 != slug
  {
    |DatasetKeys(index, slug)|
  }

  /** The count is the number of hits of the scope query `dataset_slug:<slug>`. */
  lemma CountIsScopeHits(index: DataIndex, slug: string, textMatch: (Row, string) -> bool)
    requires WellKeyed(index)
    ensures CountRows(index, slug) == |Hits(index, SlugIs(slug), textMatch)|
  {
    assert DatasetKeys(index, slug) == Hits(index, SlugIs(slug), textMatch);
  }

  /** `get_row`, lines 297-306: the document stored under (slug, external id). */
  function GetRow(index: DataIndex, slug: string, externalId: string): (r: Option<Row>)
    ensures r.Some? <==> (slug, externalId) in index
    ensures r.Some? ==> r.value == index[(slug, externalId)]
  {
    if (slug, externalId) in index then Some(index[(slug, externalId)]) else None
  }

  /** Reading by key answers the point query: a row comes back iff some
      document matches `dataset_slug:<slug> AND external_id:<id>`, and it is
      that document. */
  lemma GetRowAnswersPointQuery(index: DataIndex, slug: string, externalId: string,
                                textMatch: (Row, string) -> bool)
    requires WellKeyed(index)
    ensures Hits(index, RowQuery(slug, externalId), textMatch) ==
            (if (slug, externalId) in index then {(slug, externalId)} else {})
    ensures GetRow(index, slug, externalId).Some? <==> |Hits(index, RowQuery(slug, externalId), textMatch)| > 0
  {
    var q := RowQuery(slug, externalId);
    var hits := Hits(index, q, textMatch);
    forall k | k in index
      ensures Matches(index[k], q, textMatch) <==> k == (slug, externalId)
    {
      assert KeyOf(index[k]) == k;
    }
    assert hits == (if (slug, externalId) in index then {(slug, externalId)} else {});
  }

  // ---------------------------------------------------------------------------
  // Writing
  // ---------------------------------------------------------------------------

  /** A dataset record as saved by a row operation and the collection after it. */
  datatype Synced = Synced(dataset: Dataset, index: DataIndex, rows: seq<Row>)

  /** `utils.solr.make_data_row`: the document for one row; a row without an
      external id receives the generated `freshId`. */
  function MakeRow(d: Dataset, data: seq<string>, externalId: Option<string>, freshId: string): (r: Row)
    ensures r.datasetSlug == d.slug && r.data == data
    ensures r.externalId == (if externalId.Some? then externalId.value else freshId)
  {
    Row(d.slug, externalId.GetOr(freshId), data)
  }

  /** The sample list after `if not self.sample_data: self.sample_data = []`. */
  function SampleOrEmpty(d: Dataset): seq<seq<string>> {
    if d.sampleData.None? then [] else d.sampleData.value
  }

  /** `(old_row_count or 0)`. */
  function OldCount(d: Dataset): int {
    d.rowCount.GetOr(0)
  }

  /** `row_count` agrees with the collection. */
  predicate CountConsistent(d: Dataset, index: DataIndex) {
    OldCount(d) == CountRows(index, d.slug)
  }

  /** Adding a document changes the count by one exactly when its key is new
      and belongs to the counted dataset. */
  lemma CountAfterUpsert(index: DataIndex, row: Row, slug: string)
    ensures CountRows(index[KeyOf(row) := row], slug) ==
            CountRows(index, slug) + (if KeyOf(row).0 == slug && KeyOf(row) !in index then 1 else 0)
  {
    var before := DatasetKeys(index, slug);
    var after := DatasetKeys(index[KeyOf(row) := row], slug);
    if KeyOf(row).0 == slug && KeyOf(row) !in index {
      assert after == before + {KeyOf(row)};
    } else {
      assert after == before;
    }
  }

  /** `add_row`, lines 308-330. */
  function AddRow(d: Dataset, index: DataIndex, user: User, data: seq<string>,
                  externalId: Option<string>, freshId: string, now: Timestamp): (r: Synced)
    ensures var row := MakeRow(d, data, externalId, freshId);
            && r.rows == [row]
            && r.index.Keys == index.Keys + {KeyOf(row)}
            && r.index[KeyOf(row)] == row
            && (forall k :: k in index && k != KeyOf(row) ==> r.index[k] == index[k])
    ensures r.dataset.rowCount == Some(CountRows(r.index, d.slug))
    ensures |SampleOrEmpty(d)| < 5 ==> r.dataset.sampleData == Some(SampleOrEmpty(d) + [data])
    ensures |SampleOrEmpty(d)| >= 5 ==> r.dataset.sampleData == Some(SampleOrEmpty(d))
    ensures r.dataset.lastModified == Some(now) && r.dataset.lastModifiedBy == Some(user)
    ensures r.dataset.lastModification ==
            Some(if CountRows(r.index, d.slug) != OldCount(d) then RowAdded else RowUpdated)
    ensures r.dataset.(rowCount := d.rowCount, sampleData := d.sampleData, lastModified := d.lastModified,
                       lastModifiedBy := d.lastModifiedBy, lastModification := d.lastModification,
                       creationDate := d.creationDate) == d
    ensures r.dataset.creationDate == Some(d.creationDate.GetOr(now))
  {
    var row := MakeRow(d, data, externalId, freshId);
    var index' := index[KeyOf(row) := row];
    var sample := SampleOrEmpty(d);
    var sample' := if |sample| < 5 then sample + [data] else sample;
    var count := CountRows(index', d.slug);
    var added := count - OldCount(d);
    var d' := d.(sampleData := Some(sample'),
                 rowCount := Some(count),
                 lastModified := Some(now),
                 lastModifiedBy := Some(user),
                 lastModification := Some(if added != 0 then RowAdded else RowUpdated));
    Synced(Save(d', now), index', [row])
  }

  /** Over a consistent count, `add_row` reports "added" exactly when the key
      was new; re-adding an existing key leaves the count as it was and reports
      "updated". */
  lemma AddRowClassifies(d: Dataset, index: DataIndex, user: User, data: seq<string>,
                         externalId: Option<string>, freshId: string, now: Timestamp)
    requires CountConsistent(d, index)
    ensures var row := MakeRow(d, data, externalId, freshId);
            var r := AddRow(d, index, user, data, externalId, freshId, now);
            && (KeyOf(row) in index ==> r.dataset.rowCount == Some(OldCount(d)) &&
                                        r.dataset.lastModification == Some(RowUpdated))
            && (KeyOf(row) !in index ==> r.dataset.rowCount == Some(OldCount(d) + 1) &&
                                         r.dataset.lastModification == Some(RowAdded))
  {
    CountAfterUpsert(index, MakeRow(d, data, externalId, freshId), d.slug);
  }

  /** Adding the same key twice: the second add reads "1 row updated" and the
      count stays where the first add left it. */
  lemma AddSameRowTwice(d: Dataset, index: DataIndex, user: User, data1: seq<string>,
                        data2: seq<string>, id: string, freshId: string, now: Timestamp)
    requires CountConsistent(d, index)
    ensures var first := AddRow(d, index, user, data1, Some(id), freshId, now);
            var second := AddRow(first.dataset, first.index, user, data2, Some(id), freshId, now);
            && second.dataset.rowCount == first.dataset.rowCount
            && Render(second.dataset.lastModification.value) == "1 row updated"
            && second.index[(d.slug, id)].data == data2
  {
    var first := AddRow(d, index, user, data1, Some(id), freshId, now);
    assert CountConsistent(first.dataset, first.index);
    AddRowClassifies(first.dataset, first.index, user, data2, Some(id), freshId, now);
  }

  /** The documents of a batch, in batch order; the `i`-th row without an
      external id receives the generated `freshId(i)`. */
  function MakeRows(d: Dataset, batch: seq<(seq<string>, Option<string>)>, freshId: nat -> string): (r: seq<Row>)
    ensures |r| == |batch|
    ensures forall i :: 0 <= i < |batch| ==> r[i] == MakeRow(d, batch[i].0, batch[i].1, freshId(i))
  {
    seq(|batch|, i requires 0 <= i < |batch| => MakeRow(d, batch[i].0, batch[i].1, freshId(i)))
  }

  /** The keys a batch writes. */
  function RowKeys(rows: seq<Row>): (r: set<Key>)
    ensures forall i :: 0 <= i < |rows| ==> KeyOf(rows[i]) in r
  {
    set i | 0 <= i < |rows| :: KeyOf(rows[i])
  }

  /** Every key a batch writes is the key of one of its documents. */
  lemma RowKeysWitnessed(rows: seq<Row>, k: Key)
    requires k in RowKeys(rows)
    ensures exists i :: 0 <= i < |rows| && KeyOf(rows[i]) == k
  {
  }

  lemma RowKeysSnoc(rows: seq<Row>, row: Row)
    ensures RowKeys(rows + [row]) == RowKeys(rows) + {KeyOf(row)}
  {
    var all := rows + [row];
    forall k | k in RowKeys(all) ensures k in RowKeys(rows) + {KeyOf(row)} {
      var i :| 0 <= i < |all| && KeyOf(all[i]) == k;
      if i < |rows| {
        assert all[i] == rows[i];
      }
    }
    forall k | k in RowKeys(rows) ensures k in RowKeys(all) {
      var i :| 0 <= i < |rows| && KeyOf(rows[i]) == k;
      assert all[i] == rows[i];
    }
    assert KeyOf(all[|rows|]) == KeyOf(row);
  }

  /** One multi-document add: every document upserted in batch order. */
  function UpsertAll(index: DataIndex, rows: seq<Row>): (r: DataIndex)
    ensures r.Keys == index.Keys + RowKeys(rows)
    ensures forall k :: k in index && k !in RowKeys(rows) ==> r[k] == index[k]
    decreases |rows|
  {
    if |rows| == 0 then index
    else
      var prefix := rows[..|rows| - 1];
      var last := rows[|rows| - 1];
      assert rows == prefix + [last];
      RowKeysSnoc(prefix, last);
      UpsertAll(index, prefix)[KeyOf(last) := last]
  }

  /** For a key written more than once, the last document written wins. */
  lemma {:induction false} UpsertAllLastWins(index: DataIndex, rows: seq<Row>, i: nat)
    requires i < |rows|
    requires forall j :: i < j < |rows| ==> KeyOf(rows[j]) != KeyOf(rows[i])
    ensures UpsertAll(index, rows)[KeyOf(rows[i])] == rows[i]
    decreases |rows|
  {
    if i < |rows| - 1 {
      var prefix := rows[..|rows| - 1];
      assert prefix[i] == rows[i];
      UpsertAllLastWins(index, prefix, i);
    }
  }

  /** A batch for one dataset raises the count by the number of its keys that
      were not yet in the collection. */
  lemma CountAfterUpsertAll(index: DataIndex, rows: seq<Row>, slug: string)
    requires forall i :: 0 <= i < |rows| ==> rows[i].datasetSlug == slug
    ensures CountRows(UpsertAll(index, rows), slug) == CountRows(index, slug) + |RowKeys(rows) - index.Keys|
  {
    var before := DatasetKeys(index, slug);
    var newKeys := RowKeys(rows) - index.Keys;
    var upserted := UpsertAll(index, rows);
    var after := DatasetKeys(upserted, slug);
    forall k | k in newKeys ensures k.0 == slug {
      var i :| 0 <= i < |rows| && KeyOf(rows[i]) == k;
    }
    forall k ensures k in after <==> k in before || k in newKeys {
    }
    assert after == before + newKeys;
    assert before !! newKeys;
  }

  /** The summary of lines 356-361: combined when both counts are nonzero,
      otherwise "added" when rows were added, otherwise "updated". */
  function BatchSummary(added: int, updated: int): (m: Modification)
    ensures added != 0 && updated != 0 <==> m == RowsAddedAndUpdated(added, updated)
    ensures added != 0 && updated == 0 <==> m == RowsAdded(added)
    ensures added == 0 <==> m == RowsUpdated(updated)
  {
    if added != 0 && updated != 0 then RowsAddedAndUpdated(added, updated)
    else if added != 0 then RowsAdded(added)
    else RowsUpdated(updated)
  }

  /** The sample after lines 342-349: topped up from the head of the batch
      until it holds five rows; a full sample is left alone. */
  function ExtendSample(sample: seq<seq<string>>, batch: seq<(seq<string>, Option<string>)>): (r: seq<seq<string>>)
    ensures |sample| >= 5 ==> r == sample
    ensures |sample| < 5 ==> |r| == if |sample| + |batch| < 5 then |sample| + |batch| else 5
    ensures r[..|sample|] == sample
    ensures forall i :: |sample| <= i < |r| ==> r[i] == batch[i - |sample|].0
  {
    if |sample| < 5 then
      var needed := 5 - |sample|;
      var head := if needed < |batch| then batch[..needed] else batch;
      sample + seq(|head|, i requires 0 <= i < |head| => head[i].0)
    else sample
  }

  /** `add_many_rows`, lines 332-365. */
  function AddManyRows(d: Dataset, index: DataIndex, user: User, batch: seq<(seq<string>, Option<string>)>,
                       freshId: nat -> string, now: Timestamp): (r: Synced)
    ensures r.rows == MakeRows(d, batch, freshId)
    ensures r.index == UpsertAll(index, r.rows)
    ensures r.dataset.rowCount == Some(CountRows(r.index, d.slug))
    ensures r.dataset.sampleData == Some(ExtendSample(SampleOrEmpty(d), batch))
    ensures r.dataset.lastModified == Some(now) && r.dataset.lastModifiedBy == Some(user)
    ensures var added := CountRows(r.index, d.slug) - OldCount(d);
            r.dataset.lastModification == Some(BatchSummary(added, |batch| - added))
    ensures r.dataset.(rowCount := d.rowCount, sampleData := d.sampleData, lastModified := d.lastModified,
                       lastModifiedBy := d.lastModifiedBy, lastModification := d.lastModification,
                       creationDate := d.creationDate) == d
    ensures r.dataset.creationDate == Some(d.creationDate.GetOr(now))
  {
    var rows := MakeRows(d, batch, freshId);
    var index' := UpsertAll(index, rows);
    var count := CountRows(index', d.slug);
    var added := count - OldCount(d);

    var updated := |batch| - added;
    var d' := d.(sampleData := Some(ExtendSample(SampleOrEmpty(d), batch)),
                 rowCount := Some(count),
                 lastModified := Some(now),
                 lastModifiedBy := Some(user),
                 lastModification := Some(BatchSummary(added, updated)));
    Synced(Save(d', now), index', rows)
  }

  /** Over a consistent count, the "added" figure of `add_many_rows` is the
      number of keys the batch introduced, and "updated" is the rest of the batch. */
  lemma AddManyRowsClassifies(d: Dataset, index: DataIndex, user: User,
                              batch: seq<(seq<string>, Option<string>)>, freshId: nat -> string, now: Timestamp)
    requires CountConsistent(d, index)
    ensures var r := AddManyRows(d, index, user, batch, freshId, now);
            CountRows(r.index, d.slug) - OldCount(d) == |RowKeys(r.rows) - index.Keys|
  {
    var rows := MakeRows(d, batch, freshId);
    CountAfterUpsertAll(index, rows, d.slug);
  }

  /** Sending again a batch whose keys are all stored already: nothing is
      counted as added and the whole batch is reported as updated. */
  lemma ResendBatchOnlyUpdates(d: Dataset, index: DataIndex, user: User,
                               batch: seq<(seq<string>, Option<string>)>, freshId: nat -> string, now: Timestamp)
    requires CountConsistent(d, index)
    requires forall i :: 0 <= i < |batch| ==> KeyOf(MakeRows(d, batch, freshId)[i]) in index
    ensures var r := AddManyRows(d, index, user, batch, freshId, now);
            && r.dataset.rowCount == Some(CountRows(index, d.slug))
            && r.dataset.lastModification == Some(RowsUpdated(|batch|))
  {
    var rows := MakeRows(d, batch, freshId);
    AddManyRowsClassifies(d, index, user, batch, freshId, now);
    assert RowKeys(rows) - index.Keys == {} by {
      forall k | k in RowKeys(rows) ensures k in index {
        var i :| 0 <= i < |rows| && KeyOf(rows[i]) == k;
      }
    }
  }

  /** `delete_row`, lines 367-377: deletes the one key and recounts. */
  function DeleteRow(d: Dataset, index: DataIndex, user: User, externalId: string, now: Timestamp): (r: Synced)
    ensures r.index.Keys == index.Keys - {(d.slug, externalId)}
    ensures forall k :: k in r.index ==> r.index[k] == index[k]
    ensures r.dataset.rowCount == Some(CountRows(r.index, d.slug))
    ensures r.dataset.lastModification == Some(RowDeleted)
    ensures r.dataset.lastModified == Some(now) && r.dataset.lastModifiedBy == Some(user)
    ensures r.dataset.(rowCount := d.rowCount, lastModified := d.lastModified,
                       lastModifiedBy := d.lastModifiedBy, lastModification := d.lastModification,
                       creationDate := d.creationDate) == d
    ensures r.dataset.creationDate == Some(d.creationDate.GetOr(now))
  {
    var index' := index - {(d.slug, externalId)};
    var d' := d.(rowCount := Some(CountRows(index', d.slug)),
                 lastModified := Some(now),
                 lastModifiedBy := Some(user),
                 lastModification := Some(RowDeleted));
    Synced(Save(d', now), index', [])
  }

  /** Over a consistent count, deleting an existing row lowers it by one and
      deleting a missing one leaves it; the summary reads "1 row deleted" either way. */
  lemma DeleteRowRecounts(d: Dataset, index: DataIndex, user: User, externalId: string, now: Timestamp)
    requires CountConsistent(d, index)
    ensures var r := DeleteRow(d, index, user, externalId, now);
            && r.dataset.rowCount == Some(if (d.slug, externalId) in index then OldCount(d) - 1 else OldCount(d))
            && Render(r.dataset.lastModification.value) == "1 row deleted"
  {
    var after := DatasetKeys(index - {(d.slug, externalId)}, d.slug);
    if (d.slug, externalId) in index {
      assert after == DatasetKeys(index, d.slug) - {(d.slug, externalId)};
    } else {
      assert after == DatasetKeys(index, d.slug);
    }
  }

  /** The collection with every row of `slug` removed (`dataset_slug:<slug>`). */
  function PurgeDataset(index: DataIndex, slug: string): (r: DataIndex)
    ensures CountRows(r, slug) == 0
    ensures forall k :: k in r <==> k in index && k.0 != slug
    ensures forall k :: k in r ==> r[k] == index[k]
  {
    var r := map k | k in index && k.0 != slug :: index[k];
    assert DatasetKeys(r, slug) == {};
    r
  }

  /** `delete_all_rows`, lines 379-389, as written: the rows are purged first,
      then `'All %i rows deleted' % old_row_count` raises `TypeError` when no
      count was ever taken, so the record is not saved. */
  function DeleteAllRowsAsWritten(d: Dataset, index: DataIndex, now: Timestamp): (r: (Synced, Option<Error>))
    ensures r.0.index == PurgeDataset(index, d.slug)
    ensures d.rowCount.None? <==> r.1 == Some(TypeError)
    ensures d.rowCount.None? ==> r.0.dataset == d
    ensures d.rowCount.Some? ==> r.0.dataset.lastModification == Some(AllDeleted(d.rowCount.value))
    ensures d.rowCount.Some? ==>
              && r.0.dataset.rowCount == Some(0)
              && r.0.dataset.lastModified == Some(now)
              && r.0.dataset.(rowCount := d.rowCount, lastModified := d.lastModified,
                              lastModification := d.lastModification, creationDate := d.creationDate) == d
              && r.0.dataset.creationDate == Some(d.creationDate.GetOr(now))
  {
    var index' := PurgeDataset(index, d.slug);
    if d.rowCount.None? then (Synced(d, index', []), Some(TypeError))
    else
      var d' := d.(rowCount := Some(0), lastModified := Some(now),
                   lastModification := Some(AllDeleted(d.rowCount.value)));
      (Synced(Save(d', now), index', []), None)
  }

  /** A dataset that never had a count (created, nothing imported or added):
      deleting all its rows empties the collection and then fails. */
  lemma DeleteAllRowsWithoutCountFails(d: Dataset, index: DataIndex, now: Timestamp)
    requires d.rowCount.None?
    ensures DeleteAllRowsAsWritten(d, index, now).1 == Some(TypeError)
    ensures CountRows(DeleteAllRowsAsWritten(d, index, now).0.index, d.slug) == 0
    ensures DeleteAllRowsAsWritten(d, index, now).0.dataset.rowCount.None?
  {
  }

  /** `delete_all_rows` with the prior count read as `(old_row_count or 0)`, the
      way `add_row` reads it: it always completes. */
  function DeleteAllRows(d: Dataset, index: DataIndex, now: Timestamp): (r: Synced)
    ensures r.index == PurgeDataset(index, d.slug)
    ensures r.dataset.rowCount == Some(0) && CountRows(r.index, d.slug) == 0
    ensures r.dataset.lastModification == Some(AllDeleted(OldCount(d)))
    ensures r.dataset.lastModified == Some(now)
    ensures r.dataset.lastModifiedBy == d.lastModifiedBy
    ensures r.dataset.(rowCount := d.rowCount, lastModified := d.lastModified,
                       lastModification := d.lastModification, creationDate := d.creationDate) == d
    ensures r.dataset.creationDate == Some(d.creationDate.GetOr(now))
  {
    var d' := d.(rowCount := Some(0), lastModified := Some(now),
                 lastModification := Some(AllDeleted(OldCount(d))));
    Synced(Save(d', now), PurgeDataset(index, d.slug), [])
  }

  /** Where a count was taken, the corrected operation is the one as written. */
  lemma DeleteAllRowsAgreesWhenCounted(d: Dataset, index: DataIndex, now: Timestamp)
    requires d.rowCount.Some?
    ensures DeleteAllRowsAsWritten(d, index, now) == (DeleteAllRows(d, index, now), None)
  {
  }
}
