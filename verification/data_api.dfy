/**
 * The row endpoints of the web API (`DataResource`): request validation, the
 * canonical row address, the dataset a request is routed to, single-row read
 * and write, the bulk write, and the query of the per-dataset search.
 *
 * Datasets are looked up by slug in `datasets`; rows live in the data
 * collection of the `Rows` module.
 */
module DataApi {
  import opened Basics
  import opened Text
  import opened Entities
  import opened Rows

  /** A JSON member that may be missing, `null`, a string, or any other JSON
      value (a number, boolean, list or object). */
  datatype JsonText = Absent | Null | Text(value: string) | NotText

  /** The request body of one row. `datasetSlug` is the slug the optional
      `dataset` URI of the body resolves to. */
  datatype Body = Body(data: Option<seq<string>>, externalId: JsonText, datasetSlug: Option<string>)

  /** The fields `DataValidation` can complain about. */
  datatype Field = DataField | ExternalIdField

  /** Why `validate_bundle_data` complains about the dataset. */
  datatype DatasetProblem = ImportPending | NoColumns

  /** The error dictionary of `validate_bundle_data`: at most one complaint
      about the dataset, and the field count against the schema's. */
  datatype BundleErrors = BundleErrors(dataset: Option<DatasetProblem>, fieldCount: Option<(int, int)>)

  datatype ApiError =
    | BadRequest
    | NotFound
    | DatasetMissing
    | InvalidFields(fields: set<Field>)
    | InvalidBundle(errors: BundleErrors)
    | ExternalIdNotText

  /** The canonical address of a row: `.../dataset/<slug>/data/<external id>/`. */
  datatype DetailUri = DetailUri(datasetSlug: string, externalId: string)

  // ---------------------------------------------------------------------------
  // DataValidation.is_valid
  // ---------------------------------------------------------------------------

  /** A character of the class `[\w\d_-]`. */
  predicate IsIdChar(c: char) {
    IsWordChar(c) || c == '-'
  }

  predicate AllIdChars(s: string) {
    forall i :: 0 <= i < |s| ==> IsIdChar(s[i])
  }

  /** What `re.match('^[\w\d_-]+$', s)` accepts: one or more id characters,
      where `$` also matches just before a final line feed. */
  predicate ExternalIdShape(s: string) {
    || (|s| > 0 && AllIdChars(s))
    || (|s| > 1 && s[|s| - 1] == '\n' && AllIdChars(s[..|s| - 1]))
  }

  /** The greedy run `[\w\d_-]+` consumes: the longest prefix of id characters. */
  function IdRun(s: string): (n: nat)
    ensures n <= |s|
    ensures forall i :: 0 <= i < n ==> IsIdChar(s[i])
    ensures n < |s| ==> !IsIdChar(s[n])
    decreases |s|
  {
    if |s| == 0 || !IsIdChar(s[0]) then 0 else 1 + IdRun(s[1..])
  }

  /** The match: the run is non-empty and `$` holds after it. */
  function MatchesExternalId(s: string): (r: bool)
    ensures r <==> ExternalIdShape(s)
  {
    var n := IdRun(s);
    n >= 1 && (n == |s| || (n == |s| - 1 && s[n] == '\n'))
  }

  /** `DataValidation.is_valid`, panda/api/data.py lines 53-63. An external id
      that is not a string (`null` included) reaches `re.match`, which raises
      `TypeError`. */
  function DataValidation(body: Body): (r: Result<set<Field>, ApiError>)
    ensures r.Failure? <==> body.externalId.Null? || body.externalId.NotText?
    ensures r.Failure? ==> r.error == ExternalIdNotText
    ensures r.Success? ==> (DataField in r.value <==> body.data.None? || |body.data.value| == 0)
    ensures r.Success? ==> (ExternalIdField in r.value <==> body.externalId.Text? && !ExternalIdShape(body.externalId.value))
  {
    if body.externalId.Null? || body.externalId.NotText? then Failure(ExternalIdNotText)
    else
      var dataErrors := if body.data.None? || |body.data.value| == 0 then {DataField} else {};
      var idErrors := if body.externalId.Text? && !MatchesExternalId(body.externalId.value) then {ExternalIdField} else {};
      Success(dataErrors + idErrors)
  }

  /** The resource's `is_valid`: any error answers 400 with the error dictionary. */
  function IsValid(body: Body): (r: Result<(), ApiError>)
    ensures r.Success? <==>
              && body.data.Some? && |body.data.value| > 0
              && (body.externalId.Absent? || (body.externalId.Text? && ExternalIdShape(body.externalId.value)))
  {
    var errors :- DataValidation(body);
    if errors != {} then Failure(InvalidFields(errors)) else Success(())
  }

  /** `re.match` lets a trailing line feed through: "row-1\n" is accepted as an external id. */
  lemma TrailingNewlineAccepted()
    ensures IsValid(Body(Some(["x"]), Text("row-1\n"), None)).Success?
    ensures !IsValid(Body(Some(["x"]), Text("row 1"), None)).Success?
  {
    assert AllIdChars("row-1");
    assert "row-1\n"[..5] == "row-1";
    assert !IsIdChar("row 1"[3]);
  }

  // ---------------------------------------------------------------------------
  // validate_bundle_data
  // ---------------------------------------------------------------------------

  /** `not dataset.row_count`: no count yet, or zero. */
  predicate NoRowsCounted(d: Dataset) {
    d.rowCount.None? || d.rowCount.value == 0
  }

  /** The error dictionary of lines 165-176. The missing-schema complaint is
      written after, and so replaces, the pending-import one. */
  function BundleErrorsOf(data: seq<string>, d: Dataset): (e: BundleErrors)
    ensures e.dataset == Some(NoColumns) <==> d.columnSchema.None?
    ensures e.dataset == Some(ImportPending) <==> d.columnSchema.Some? && d.initialUpload.Some? && NoRowsCounted(d)
    ensures e.fieldCount.Some? <==> d.columnSchema.Some? && |data| != |d.columnSchema.value|
    ensures e.fieldCount.Some? ==> e.fieldCount.value == (|data|, |d.columnSchema.value|)
  {
    var pending := if d.initialUpload.Some? && NoRowsCounted(d) then Some(ImportPending) else None;
    if d.columnSchema.None? then BundleErrors(Some(NoColumns), None)
    else
      var expected := |d.columnSchema.value|;
      BundleErrors(pending, if |data| != expected then Some((|data|, expected)) else None)
  }

  /** `validate_bundle_data`, lines 159-187: 400 when any complaint was made. */
  function ValidateBundleData(data: seq<string>, d: Dataset): (r: Result<(), ApiError>)
    ensures r.Failure? <==>
              || (d.initialUpload.Some? && NoRowsCounted(d))
              || d.columnSchema.None?
              || |data| != |d.columnSchema.value|
    ensures r.Failure? ==> r.error == InvalidBundle(BundleErrorsOf(data, d))
  {
    var e := BundleErrorsOf(data, d);
    if e.dataset.Some? || e.fieldCount.Some? then Failure(InvalidBundle(e)) else Success(())
  }

  /** A dataset that was created from an upload still being imported, with no
      schema yet, is reported only as lacking columns. */
  lemma NoColumnsOverridesPending(data: seq<string>, d: Dataset)
    requires d.initialUpload.Some? && d.rowCount.None? && d.columnSchema.None?
    ensures ValidateBundleData(data, d) == Failure(InvalidBundle(BundleErrors(Some(NoColumns), None)))
  {
  }

  // ---------------------------------------------------------------------------
  // Addresses and routing
  // ---------------------------------------------------------------------------

  /** `get_resource_uri`, lines 105-130: rows without an external id have no address. */
  function GetResourceUri(datasetSlug: string, externalId: Option<string>): (r: Option<DetailUri>)
    ensures r.None? <==> externalId.None? || externalId.value == ""
    ensures r.Some? ==> r.value.datasetSlug == datasetSlug && r.value.externalId == externalId.value
  {
    if externalId.None? || externalId.value == "" then None
    else Some(DetailUri(datasetSlug, externalId.value))
  }

  /** `get_dataset_from_kwargs`, lines 132-157: the dataset named in the URL;
      a body naming a different dataset is refused. */
  function GetDatasetFromKwargs(datasets: map<string, Dataset>, bodySlug: Option<string>, urlSlug: string)
    : (r: Result<Dataset, ApiError>)
    ensures r == Failure(BadRequest) <==> bodySlug.Some? && bodySlug.value != "" && bodySlug.value != urlSlug
    ensures r == Failure(DatasetMissing) <==> r != Failure(BadRequest) && urlSlug !in datasets
    ensures r.Success? ==> urlSlug in datasets && r.value == datasets[urlSlug]
  {
    if bodySlug.Some? && bodySlug.value != "" && bodySlug.value != urlSlug then Failure(BadRequest)
    else if urlSlug !in datasets then Failure(DatasetMissing)
    else Success(datasets[urlSlug])
  }

  /** Datasets are stored under their own slug. */
  ghost predicate SlugKeyed(datasets: map<string, Dataset>) {
    forall k :: k in datasets ==> datasets[k].slug == k
  }

  /** A body cannot redirect a request to another dataset: whatever dataset
      the lookup returns is the one the URL names, and a body that names a
      dataset at all names that same one. */
  lemma KwargsCannotRedirect(datasets: map<string, Dataset>, bodySlug: Option<string>, urlSlug: string)
    requires SlugKeyed(datasets)
    ensures var r := GetDatasetFromKwargs(datasets, bodySlug, urlSlug);
            r.Success? ==>
              && r.value.slug == urlSlug
              && (bodySlug.Some? && bodySlug.value != "" ==> r.value.slug == bodySlug.value)
  {
  }

  /** `obj_get`, lines 212-219: the row addressed by the URL. */
  function ObjGet(datasets: map<string, Dataset>, index: DataIndex, urlSlug: string, externalId: string)
    : (r: Result<Row, ApiError>)
    ensures r == Failure(DatasetMissing) <==> urlSlug !in datasets
    ensures r == Failure(NotFound) <==> urlSlug in datasets && GetRow(index, datasets[urlSlug].slug, externalId).None?
    ensures r.Success? ==> r.value == index[(datasets[urlSlug].slug, externalId)]
  {
    if urlSlug !in datasets then Failure(DatasetMissing)
    else
      var row := GetRow(index, datasets[urlSlug].slug, externalId);
      if row.None? then Failure(NotFound) else Success(row.value)
  }

  // ---------------------------------------------------------------------------
  // Writes
  // ---------------------------------------------------------------------------

  /** The state after an API write and the write's result. A failed write
      leaves `datasets` and `index` as they were. */
  datatype ApiOutcome<T> = ApiOutcome(datasets: map<string, Dataset>, index: DataIndex, result: Result<T, ApiError>)

  /** Lines 229-234: the body's external id if it has the member, else the
      URL's, else none. */
  function ExternalIdFor(body: Body, urlExternalId: Option<string>): (r: Option<string>)
    ensures body.externalId.Text? ==> r == Some(body.externalId.value)
    ensures body.externalId.Null? ==> r.None?
    ensures body.externalId.Absent? ==> r == urlExternalId
  {
    match body.externalId
    case Text(s) => Some(s)
    case Null => None
    case Absent => urlExternalId
    case NotText => None
  }

  /** `obj_create`, lines 221-240, and `obj_update` (lines 242-246), which delegates to it.
      The body's data was validated by the caller. */
  function ObjCreate(datasets: map<string, Dataset>, index: DataIndex, user: User, body: Body,
                     urlSlug: string, urlExternalId: Option<string>, freshId: string, now: Timestamp)
    : (o: ApiOutcome<Row>)
    requires body.data.Some?
    ensures o.result.Failure? ==> o.datasets == datasets && o.index == index
    ensures o.result.Success? <==>
              && GetDatasetFromKwargs(datasets, body.datasetSlug, urlSlug).Success?
              && ValidateBundleData(body.data.value, datasets[urlSlug]).Success?
    ensures o.result.Success? ==>
              var d := datasets[urlSlug];
              var added := AddRow(d, index, user, body.data.value, ExternalIdFor(body, urlExternalId), freshId, now);
              && o.index == added.index
              && o.datasets == datasets[urlSlug := added.dataset]
              && o.result.value == added.rows[0]
  {
    var found := GetDatasetFromKwargs(datasets, body.datasetSlug, urlSlug);
    if found.Failure? then ApiOutcome(datasets, index, Failure(found.error))
    else
      var d := found.value;
      var valid := ValidateBundleData(body.data.value, d);
      if valid.Failure? then ApiOutcome(datasets, index, Failure(valid.error))
      else
        var added := AddRow(d, index, user, body.data.value, ExternalIdFor(body, urlExternalId), freshId, now);
        ApiOutcome(datasets[urlSlug := added.dataset], added.index, Success(added.rows[0]))
  }

  /** A row created with an external id can be read back at its address. */
  lemma CreatedRowIsAddressable(datasets: map<string, Dataset>, index: DataIndex, user: User, body: Body,
                                urlSlug: string, urlExternalId: Option<string>, freshId: string, now: Timestamp)
    requires SlugKeyed(datasets)
    requires body.data.Some?
    requires ObjCreate(datasets, index, user, body, urlSlug, urlExternalId, freshId, now).result.Success?
    requires ExternalIdFor(body, urlExternalId).Some? && ExternalIdFor(body, urlExternalId).value != ""
    ensures var o := ObjCreate(datasets, index, user, body, urlSlug, urlExternalId, freshId, now);
            var uri := GetResourceUri(o.result.value.datasetSlug, Some(o.result.value.externalId));
            && uri.Some?
            && ObjGet(o.datasets, o.index, uri.value.datasetSlug, uri.value.externalId) == o.result
  {
  }

  /** The `(data, external_id)` pair `put_list` collects from one object:
      a missing or `null` external id is none. */
  function PairOf(body: Body): (p: (seq<string>, Option<string>))
    requires body.data.Some?
    ensures p.0 == body.data.value
    ensures p.1.Some? <==> body.externalId.Text?
    ensures p.1.Some? ==> p.1.value == body.externalId.value
  {
    (body.data.value, if body.externalId.Text? then Some(body.externalId.value) else None)
  }

  /** Both validations of one object, in the order of lines 305-315. */
  function ValidateObject(body: Body, d: Dataset): (r: Result<(), ApiError>)
    ensures r.Success? ==> body.data.Some?
    ensures r.Success? <==> IsValid(body).Success? && ValidateBundleData(body.data.value, d).Success?
  {
    var _ :- IsValid(body);
    ValidateBundleData(body.data.value, d)
  }

  /** The loop of lines 303-315: every object validated in order, the first
      failure ending it; on success the pairs in input order. */
  function ValidateAll(objects: seq<Body>, d: Dataset): (r: Result<seq<(seq<string>, Option<string>)>, ApiError>)
    ensures r.Success? <==> forall i :: 0 <= i < |objects| ==> ValidateObject(objects[i], d).Success?
    ensures r.Success? ==> |r.value| == |objects|
    ensures r.Success? ==> forall i :: 0 <= i < |objects| ==> objects[i].data.Some? && r.value[i] == PairOf(objects[i])
    ensures r.Failure? ==> exists i :: 0 <= i < |objects| && FirstInvalid(objects, d, i) && r.error == ValidateObject(objects[i], d).error
    decreases |objects|
  {
    if |objects| == 0 then Success([])
    else
      var first := ValidateObject(objects[0], d);
      if first.Failure? then
        assert FirstInvalid(objects, d, 0);
        Failure(first.error)
      else
        var rest := ValidateAll(objects[1..], d);
        if rest.Failure? then
          var j :| 0 <= j < |objects[1..]| && FirstInvalid(objects[1..], d, j) && rest.error == ValidateObject(objects[1..][j], d).error;
          assert FirstInvalid(objects, d, j + 1);
          Failure(rest.error)
        else
          assert forall i :: 1 <= i < |objects| ==> objects[i] == objects[1..][i - 1];
          Success([PairOf(objects[0])] + rest.value)
  }

  /** Object `i` is the first that fails validation. */
  predicate FirstInvalid(objects: seq<Body>, d: Dataset, i: nat) {
    && i < |objects|
    && ValidateObject(objects[i], d).Failure?
    && forall j :: 0 <= j < i ==> ValidateObject(objects[j], d).Success?
  }

  /** `put_list`, lines 287-331: bulk create or overwrite. `objects` is the
      body's `objects` member, if present. */
  function PutList(datasets: map<string, Dataset>, index: DataIndex, user: User, objects: Option<seq<Body>>,
                   urlSlug: string, freshId: nat -> string, now: Timestamp): (o: ApiOutcome<seq<Row>>)
    ensures o.result.Failure? ==> o.datasets == datasets && o.index == index
    ensures objects.None? ==> o.result == Failure(BadRequest)
    ensures objects.Some? && urlSlug !in datasets ==> o.result == Failure(DatasetMissing)
    ensures o.result.Success? <==>
              && objects.Some? && urlSlug in datasets
              && forall i :: 0 <= i < |objects.value| ==> ValidateObject(objects.value[i], datasets[urlSlug]).Success?
    ensures o.result.Success? ==>
              var d := datasets[urlSlug];
              var pairs := ValidateAll(objects.value, d).value;
              var added := AddManyRows(d, index, user, pairs, freshId, now);
              && |pairs| == |objects.value|
              && (forall i :: 0 <= i < |pairs| ==> pairs[i] == PairOf(objects.value[i]))
              && o.index == added.index
              && o.datasets == datasets[urlSlug := added.dataset]
              && o.result.value == added.rows
  {
    if objects.None? then ApiOutcome(datasets, index, Failure(BadRequest))
    else
      var found := GetDatasetFromKwargs(datasets, None, urlSlug);
      if found.Failure? then ApiOutcome(datasets, index, Failure(found.error))
      else
        var d := found.value;
        var pairs := ValidateAll(objects.value, d);
        if pairs.Failure? then ApiOutcome(datasets, index, Failure(pairs.error))
        else
          var added := AddManyRows(d, index, user, pairs.value, freshId, now);
          ApiOutcome(datasets[urlSlug := added.dataset], added.index, Success(added.rows))
  }

  /** One invalid object anywhere in the batch: nothing is written and the
      error reported is that of the first invalid object. */
  lemma PutListAllOrNothing(datasets: map<string, Dataset>, index: DataIndex, user: User, objects: seq<Body>,
                            urlSlug: string, freshId: nat -> string, now: Timestamp, k: nat)
    requires urlSlug in datasets
    requires k < |objects| && ValidateObject(objects[k], datasets[urlSlug]).Failure?
    ensures var o := PutList(datasets, index, user, Some(objects), urlSlug, freshId, now);
            && o.result.Failure?
            && o.datasets == datasets && o.index == index
            && exists i: nat :: i <= k && FirstInvalid(objects, datasets[urlSlug], i) &&
                 o.result.error == ValidateObject(objects[i], datasets[urlSlug]).error
  {
  }

  // ---------------------------------------------------------------------------
  // search_dataset_data
  // ---------------------------------------------------------------------------

  /** The query of lines 455-458: the dataset scope, conjoined with the user's
      `q` only when it is non-empty. */
  function SearchQuery(slug: string, q: Option<string>): (r: Query)
    ensures q.Some? && q.value != "" ==> RenderQuery(r) == "dataset_slug:" + slug + " AND " + q.value
    ensures q.None? || q.value == "" ==> RenderQuery(r) == "dataset_slug:" + slug
  {
    if q.Some? && q.value != "" then And(SlugIs(slug), FreeText(q.value)) else SlugIs(slug)
  }

  /** Every hit of the per-dataset search is a row of that dataset, and without
      a user query the hits are exactly its rows. */
  lemma SearchIsScoped(index: DataIndex, slug: string, q: Option<string>, textMatch: (Row, string) -> bool)
    requires WellKeyed(index)
    ensures Hits(index, SearchQuery(slug, q), textMatch) <= DatasetKeys(index, slug)
    ensures q.None? || q.value == "" ==> Hits(index, SearchQuery(slug, q), textMatch) == DatasetKeys(index, slug)
    ensures q.Some? && q.value != "" ==>
              forall k :: k in Hits(index, SearchQuery(slug, q), textMatch) <==>
                          k in DatasetKeys(index, slug) && textMatch(index[k], q.value)
  {
    var query := SearchQuery(slug, q);
    forall k | k in index
      ensures Matches(index[k], query, textMatch) <==>
                k.0 == slug && (q.None? || q.value == "" || textMatch(index[k], q.value))
    {
      assert KeyOf(index[k]) == k;
    }
  }
}
