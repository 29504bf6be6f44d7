/**
 * Derivation of the search-engine field name of every indexed column
 * (`Dataset._generate_typed_column_names`): `column_<type>_<slug>`, made
 * unique within the schema by appending the least free suffix `2`, `3`, ...
 * Columns are named in schema order, each against the names of the columns
 * before it.
 */
module ColumnNames {
  import opened Basics
  import opened Text
  import opened Entities

  /** The list `typed_column_names` holds after naming `cols`: one entry per
      column, `None` for the unindexed ones. */
  function IndexedNames(cols: seq<Column>): (r: seq<Option<string>>)
    ensures |r| == |cols|
    ensures forall i :: 0 <= i < |cols| ==> r[i] == cols[i].indexedName
  {
    seq(|cols|, i requires 0 <= i < |cols| => cols[i].indexedName)
  }

  /** The undeduplicated candidate `column_<type>_<slug>`. */
  function BaseName(nfkd: string -> string, c: Column): string {
    "column_" + c.typ + "_" + Slugify(nfkd, c.name)
  }

  /** The suffixed candidates tried before suffix `n`. */
  ghost function Suffixed(base: string, n: nat): set<Option<string>> {
    set k: nat | 2 <= k < n :: Some(base + NatToString(k))
  }

  /** Each new suffix yields a candidate not tried before. */
  lemma SuffixedStep(base: string, n: nat)
    requires n >= 2
    ensures Some(base + NatToString(n)) !in Suffixed(base, n)
    ensures Suffixed(base, n + 1) == Suffixed(base, n) + {Some(base + NatToString(n))}
  {
    forall k: nat | 2 <= k < n
      ensures base + NatToString(k) != base + NatToString(n)
    {
      if base + NatToString(k) == base + NatToString(n) {
        assert (base + NatToString(k))[|base|..] == NatToString(k);
        assert (base + NatToString(n))[|base|..] == NatToString(n);
        NatToStringInjective(k, n);
      }
    }
  }

  /** The first suffix from `n` on whose candidate is not taken. It exists
      because `used` is finite and distinct suffixes give distinct names. */
  function FreeSuffix(base: string, used: seq<Option<string>>, n: nat): (r: nat)
    requires n >= 2
    ensures r >= n
    ensures Some(base + NatToString(r)) !in used
    ensures forall k :: n <= k < r ==> Some(base + NatToString(k)) in used
    decreases (set x | x in used) - Suffixed(base, n)
  {
    if Some(base + NatToString(n)) !in used then n
    else
      SuffixedStep(base, n);
      FreeSuffix(base, used, n + 1)
  }

  /** `name` is what deduplicating `base` against `used` must produce: `base`
      itself when free, otherwise `base` followed by the least suffix `n >= 2`
      whose candidate is free. */
  ghost predicate IsLeastFreeName(name: string, base: string, used: seq<Option<string>>) {
    if Some(base) !in used then name == base
    else
      exists n: nat ::
        && n >= 2
        && name == base + NatToString(n)
        && Some(name) !in used
        && forall k :: 2 <= k < n ==> Some(base + NatToString(k)) in used
  }

  /** The specification admits exactly one name: the derivation is deterministic. */
  lemma LeastFreeNameUnique(a: string, b: string, base: string, used: seq<Option<string>>)
    requires IsLeastFreeName(a, base, used) && IsLeastFreeName(b, base, used)
    ensures a == b
  {
    if Some(base) in used {
      var n: nat :| n >= 2 && a == base + NatToString(n) && Some(a) !in used
        && forall k :: 2 <= k < n ==> Some(base + NatToString(k)) in used;
      var m: nat :| m >= 2 && b == base + NatToString(m) && Some(b) !in used
        && forall k :: 2 <= k < m ==> Some(base + NatToString(k)) in used;
      assert n == m;
    }
  }

  /** A least free name is the candidate itself or the candidate with a suffix
      `n` of at least 2. */
  lemma LeastFreeNameShape(name: string, base: string, used: seq<Option<string>>) returns (n: nat)
    requires IsLeastFreeName(name, base, used)
    ensures name == base || (n >= 2 && name == base + NatToString(n))
  {
    n := 0;
    if Some(base) in used {
      n :| n >= 2 && name == base + NatToString(n) && Some(name) !in used
        && forall k :: 2 <= k < n ==> Some(base + NatToString(k)) in used;
    }
  }

  /** Lines 91-102: the candidate, or the candidate with the least free suffix. */
  function Dedup(base: string, used: seq<Option<string>>): (r: string)
    ensures Some(r) !in used
    ensures IsLeastFreeName(r, base, used)
  {
    if Some(base) !in used then base
    else
      var n := FreeSuffix(base, used, 2);
      assert Some(base + NatToString(n)) !in used;
      base + NatToString(n)
  }

  /** Names one column against the names of the columns before it. */
  function NameColumn(nfkd: string -> string, c: Column, used: seq<Option<string>>): (r: Column)
    ensures r == c.(indexedName := r.indexedName)
    ensures r.indexedName.Some? <==> c.indexed
    ensures c.indexed ==> Some(r.indexedName.value) !in used &&
                          IsLeastFreeName(r.indexedName.value, BaseName(nfkd, c), used)
  {
    if !c.indexed then c.(indexedName := None)
    else c.(indexedName := Some(Dedup(BaseName(nfkd, c), used)))
  }

  /** No two columns share an indexed name. */
  ghost predicate UniqueNames(cols: seq<Column>) {
    forall i, j :: 0 <= i < j < |cols| && cols[i].indexedName.Some? ==> cols[i].indexedName != cols[j].indexedName
  }

  /** Naming one more column keeps each column's other fields and names it iff indexed. */
  lemma SnocShape(nfkd: string -> string, cols: seq<Column>, prev: seq<Column>)
    requires |cols| > 0 && |prev| == |cols| - 1
    requires forall i :: 0 <= i < |prev| ==> prev[i] == cols[i].(indexedName := prev[i].indexedName)
    requires forall i :: 0 <= i < |prev| ==> (prev[i].indexedName.Some? <==> cols[i].indexed)
    ensures var r := prev + [NameColumn(nfkd, cols[|cols| - 1], IndexedNames(prev))];
            && (forall i :: 0 <= i < |r| ==> r[i] == cols[i].(indexedName := r[i].indexedName))
            && (forall i :: 0 <= i < |r| ==> (r[i].indexedName.Some? <==> cols[i].indexed))
  {
  }

  /** Naming one more column keeps every earlier name least free against its predecessors. */
  lemma SnocLeastFree(nfkd: string -> string, cols: seq<Column>, prev: seq<Column>)
    requires |cols| > 0 && |prev| == |cols| - 1
    requires forall i :: 0 <= i < |prev| ==> (prev[i].indexedName.Some? <==> cols[i].indexed)
    requires forall i :: 0 <= i < |prev| && cols[i].indexed ==>
               IsLeastFreeName(prev[i].indexedName.value, BaseName(nfkd, cols[i]), IndexedNames(prev[..i]))
    ensures var last := NameColumn(nfkd, cols[|cols| - 1], IndexedNames(prev));
            var r := prev + [last];
            forall i :: 0 <= i < |r| && cols[i].indexed && r[i].indexedName.Some? ==>
              IsLeastFreeName(r[i].indexedName.value, BaseName(nfkd, cols[i]), IndexedNames(r[..i]))
  {
    var last := NameColumn(nfkd, cols[|cols| - 1], IndexedNames(prev));
    var r := prev + [last];
    forall i | 0 <= i < |r| && cols[i].indexed && r[i].indexedName.Some?
      ensures IsLeastFreeName(r[i].indexedName.value, BaseName(nfkd, cols[i]), IndexedNames(r[..i]))
    {
      if i < |prev| {
        assert r[..i] == prev[..i];
        assert r[i] == prev[i];
      } else {
        assert r[..i] == prev;
        assert r[i] == last;
      }
    }
  }

  /** Naming one more column keeps the names distinct. */
  lemma SnocUnique(nfkd: string -> string, cols: seq<Column>, prev: seq<Column>)
    requires |cols| > 0
    requires UniqueNames(prev)
    ensures UniqueNames(prev + [NameColumn(nfkd, cols[|cols| - 1], IndexedNames(prev))])
  {
    var last := NameColumn(nfkd, cols[|cols| - 1], IndexedNames(prev));
    forall i | 0 <= i < |prev| && prev[i].indexedName.Some?
      ensures prev[i].indexedName != last.indexedName
    {
      assert IndexedNames(prev)[i] == prev[i].indexedName;
    }
  }

  /** The schema after `_generate_typed_column_names`, column by column. */
  function TypedColumnNames(nfkd: string -> string, cols: seq<Column>): (r: seq<Column>)
    ensures |r| == |cols|
    ensures forall i :: 0 <= i < |r| ==> r[i] == cols[i].(indexedName := r[i].indexedName)
    ensures forall i :: 0 <= i < |r| ==> (r[i].indexedName.Some? <==> cols[i].indexed)
    ensures forall i :: 0 <= i < |r| && cols[i].indexed ==>
              IsLeastFreeName(r[i].indexedName.value, BaseName(nfkd, cols[i]), IndexedNames(r[..i]))
    ensures UniqueNames(r)
    decreases |cols|
  {
    if |cols| == 0 then []
    else
      var init := cols[..|cols| - 1];
      var prev := TypedColumnNames(nfkd, init);
      assert forall i :: 0 <= i < |init| ==> init[i] == cols[i];
      SnocShape(nfkd, cols, prev);
      SnocLeastFree(nfkd, cols, prev);
      SnocUnique(nfkd, cols, prev);
      prev + [NameColumn(nfkd, cols[|cols| - 1], IndexedNames(prev))]
  }

  /** Every indexed name starts with `column_<type>_<slug>` of its own column and
      carries either no suffix or a numeric suffix of at least 2. */
  lemma NamesFollowPattern(nfkd: string -> string, cols: seq<Column>, i: nat)
    requires i < |cols| && cols[i].indexed
    ensures var name := TypedColumnNames(nfkd, cols)[i].indexedName.value;
            var base := "column_" + cols[i].typ + "_" + Slugify(nfkd, cols[i].name);
            name == base || exists n: nat :: n >= 2 && name == base + NatToString(n)
  {
    var r := TypedColumnNames(nfkd, cols);
    var name := r[i].indexedName.value;
    var base := BaseName(nfkd, cols[i]);
    var n := LeastFreeNameShape(name, base, IndexedNames(r[..i]));
    if name != base {
      assert n >= 2 && name == base + NatToString(n);
    }
  }

  /** Appending one column names it against the columns already named. */
  lemma TypedColumnNamesSnoc(nfkd: string -> string, cols: seq<Column>, c: Column)
    ensures TypedColumnNames(nfkd, cols + [c])
         == TypedColumnNames(nfkd, cols) + [NameColumn(nfkd, c, IndexedNames(TypedColumnNames(nfkd, cols)))]
  {
    assert (cols + [c])[..|cols|] == cols;
  }

  lemma IndexedNamesSnoc(cols: seq<Column>, c: Column)
    ensures IndexedNames(cols + [c]) == IndexedNames(cols) + [c.indexedName]
  {
  }

  /** The suffix search of lines 94-100 as written. */
  method FindSuffix(base: string, typed: seq<Option<string>>) returns (testName: string)
    requires Some(base) in typed
    ensures testName == Dedup(base, typed)
  {
    var n := 2;
    testName := base + NatToString(n);
    while Some(testName) in typed
      invariant n >= 2
      invariant testName == base + NatToString(n)
      invariant FreeSuffix(base, typed, n) == FreeSuffix(base, typed, 2)
      decreases (set x | x in typed) - Suffixed(base, n)
    {
      SuffixedStep(base, n);
      n := n + 1;
      testName := base + NatToString(n);
    }
  }

  /** The loop of lines 77-105 as written, proved to compute `TypedColumnNames`. */
  method GenerateTypedColumnNames(nfkd: string -> string, schema: seq<Column>) returns (r: seq<Column>)
    ensures r == TypedColumnNames(nfkd, schema)
  {
    var typed: seq<Option<string>> := [];
    r := [];
    for i := 0 to |schema|
      invariant r == TypedColumnNames(nfkd, schema[..i])
      invariant typed == IndexedNames(r)
    {
      assert schema[..i + 1] == schema[..i] + [schema[i]];
      TypedColumnNamesSnoc(nfkd, schema[..i], schema[i]);
      var c := schema[i];
      var named: Column;
      if !c.indexed {
        named := c.(indexedName := None);
      } else {
        var name := BaseName(nfkd, c);
        if Some(name) in typed {
          name := FindSuffix(name, typed);
        }
        named := c.(indexedName := Some(name));
      }
      assert named == NameColumn(nfkd, c, typed);
      IndexedNamesSnoc(r, named);
      typed := typed + [named.indexedName];
      r := r + [named];
    }
    assert schema[..|schema|] == schema;
  }
}
