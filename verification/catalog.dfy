/**
 * The catalog document of a dataset (`Dataset.update_full_text`): the
 * structured fields the catalog collection facets on, plus one full-text blob
 * made of the dataset's descriptive strings joined by newlines.
 */
module Catalog {
  import opened Basics
  import opened Text
  import opened Entities

  /** The site settings naming the implicit category of a dataset without one. */
  datatype Settings = Settings(uncategorizedId: int, uncategorizedName: string)

  /** What the dataset's relations hold when the document is built: its
      categories and the original file names of its data and related uploads. */
  datatype Relations = Relations(
    categories: seq<Category>,
    dataUploads: seq<string>,
    relatedUploads: seq<string>)

  function CategoryNames(cats: seq<Category>): (r: seq<string>)
    ensures |r| == |cats|
    ensures forall i :: 0 <= i < |cats| ==> r[i] == cats[i].name
  {
    seq(|cats|, i requires 0 <= i < |cats| => cats[i].name)
  }

  function ColumnNames(schema: Option<seq<Column>>): (r: seq<string>)
    ensures schema.None? ==> r == []
    ensures schema.Some? ==> |r| == |schema.value|
    ensures schema.Some? ==> forall i :: 0 <= i < |r| ==> r[i] == schema.value[i].name
  {
    if schema.None? then []
    else seq(|schema.value|, i requires 0 <= i < |schema.value| => schema.value[i].name)
  }

  /** The category ids of the document, lines 150 and 158-164: the dataset's
      own, or the uncategorized id when it has none. */
  function CategoryIds(settings: Settings, cats: seq<Category>): (r: seq<int>)
    ensures |r| > 0
    ensures |cats| > 0 ==> |r| == |cats| && forall i :: 0 <= i < |cats| ==> r[i] == cats[i].id
    ensures |cats| == 0 ==> r == [settings.uncategorizedId]
  {
    if |cats| == 0 then [settings.uncategorizedId]
    else seq(|cats|, i requires 0 <= i < |cats| => cats[i].id)
  }

  /** The parts of the full text in order, lines 152-174. */
  function FullTextParts(settings: Settings, d: Dataset, rel: Relations): (r: seq<string>)
    ensures var nc := if |rel.categories| == 0 then 1 else |rel.categories|;
            var nd := |rel.dataUploads|;
            var nr := |rel.relatedUploads|;
            && |r| == 4 + nc + nd + nr + |ColumnNames(d.columnSchema)|
            && r[..4] == [d.name, d.description, d.creator.firstName + " " + d.creator.lastName, d.creator.email]
            && (|rel.categories| == 0 ==> r[4] == settings.uncategorizedName)
            && (|rel.categories| > 0 ==> r[4..4 + nc] == CategoryNames(rel.categories))
            && r[4 + nc..4 + nc + nd] == rel.dataUploads
            && r[4 + nc + nd..4 + nc + nd + nr] == rel.relatedUploads
            && r[4 + nc + nd + nr..] == ColumnNames(d.columnSchema)
  {
    var head := [d.name, d.description, d.creator.firstName + " " + d.creator.lastName, d.creator.email];
    var cats := if |rel.categories| == 0 then [settings.uncategorizedName] else CategoryNames(rel.categories);
    head + cats + rel.dataUploads + rel.relatedUploads + ColumnNames(d.columnSchema)
  }

  /** The catalog document of lines 178-182; building it calls `isoformat` on
      `creation_date`, which fails when that column holds `None`. */
  function CatalogDocument(settings: Settings, d: Dataset, rel: Relations): (r: Result<CatalogDoc, Error>)
    ensures d.creationDate.None? <==> r == Failure(AttributeError)
    ensures r.Success? ==> && r.value.slug == d.slug
                           && r.value.creationDate == d.creationDate.value
                           && r.value.categories == CategoryIds(settings, rel.categories)
                           && r.value.fullText == Join(FullTextParts(settings, d, rel), "\n")
  {
    if d.creationDate.None? then Failure(AttributeError)
    else Success(CatalogDoc(d.slug, d.creationDate.value, CategoryIds(settings, rel.categories),
                            Join(FullTextParts(settings, d, rel), "\n")))
  }

  /** `update_full_text`, lines 145-182: upserts the dataset's document into the
      catalog collection keyed by slug; no other document changes. */
  function UpdateFullText(settings: Settings, d: Dataset, rel: Relations, catalog: map<string, CatalogDoc>)
    : (r: Result<map<string, CatalogDoc>, Error>)
    ensures r.Failure? <==> d.creationDate.None?
    ensures r.Failure? ==> r.error == AttributeError
    ensures r.Success? ==> && r.value.Keys == catalog.Keys + {d.slug}
                           && r.value[d.slug] == CatalogDocument(settings, d, rel).value
                           && forall s :: s in catalog && s != d.slug ==> r.value[s] == catalog[s]
  {
    var doc :- CatalogDocument(settings, d, rel);
    Success(catalog[d.slug := doc])
  }

  /** Rebuilding the document with nothing changed leaves the collection as it was. */
  lemma UpdateFullTextIdempotent(settings: Settings, d: Dataset, rel: Relations, catalog: map<string, CatalogDoc>)
    requires UpdateFullText(settings, d, rel, catalog).Success?
    ensures UpdateFullText(settings, d, rel, UpdateFullText(settings, d, rel, catalog).value)
         == UpdateFullText(settings, d, rel, catalog)
  {
    var once := UpdateFullText(settings, d, rel, catalog).value;
    assert once[d.slug := CatalogDocument(settings, d, rel).value] == once;
  }

  /** Every part of the full text occurs in it as a substring: the name,
      description, creator name and e-mail, each category name (or the
      uncategorized name), each upload's file name and each column name. */
  lemma FullTextFindsParts(settings: Settings, d: Dataset, rel: Relations)
    requires d.creationDate.Some?
    ensures var text := CatalogDocument(settings, d, rel).value.fullText;
            && IsSubstring(d.name, text)
            && IsSubstring(d.description, text)
            && IsSubstring(d.creator.firstName + " " + d.creator.lastName, text)
            && IsSubstring(d.creator.email, text)
            && (|rel.categories| == 0 ==> IsSubstring(settings.uncategorizedName, text))
            && (forall c :: c in rel.categories ==> IsSubstring(c.name, text))
            && (forall f :: f in rel.dataUploads ==> IsSubstring(f, text))
            && (forall f :: f in rel.relatedUploads ==> IsSubstring(f, text))
            && (forall c :: d.columnSchema.Some? && c in d.columnSchema.value ==> IsSubstring(c.name, text))
  {
    var parts := FullTextParts(settings, d, rel);
    var nc := if |rel.categories| == 0 then 1 else |rel.categories|;
    var nd := |rel.dataUploads|;
    var nr := |rel.relatedUploads|;
    assert CatalogDocument(settings, d, rel).value.fullText == Join(parts, "\n");
    SegmentFound(parts, "\n", 0, parts[..4]);
    if |rel.categories| == 0 {
      SegmentFound(parts, "\n", 4, [settings.uncategorizedName]);
    } else {
      var names := CategoryNames(rel.categories);
      SegmentFound(parts, "\n", 4, names);
      forall c | c in rel.categories ensures c.name in names {
        var i :| 0 <= i < |rel.categories| && rel.categories[i] == c;
        assert names[i] == c.name;
      }
    }
    SegmentFound(parts, "\n", 4 + nc, rel.dataUploads);
    SegmentFound(parts, "\n", 4 + nc + nd, rel.relatedUploads);
    var columns := ColumnNames(d.columnSchema);
    SegmentFound(parts, "\n", 4 + nc + nd + nr, columns);
    forall c | d.columnSchema.Some? && c in d.columnSchema.value ensures c.name in columns {
      var i :| 0 <= i < |d.columnSchema.value| && d.columnSchema.value[i] == c;
      assert columns[i] == c.name;
    }
  }
}
